/** The product catalogue store (src/context/ProductContext.tsx): one list of products,
    replaced wholesale by add, update and delete, and read through `find` / `filter`
    queries. Prices are integer cents. */
module Catalog {
  import opened Wrappers
  import opened Seqs

  datatype Product = Product(
    id: string,
    name: string,
    description: string,
    price: int,
    category: string,
    imageUrl: string,
    stock: int,
    featured: bool)
  {
    /** The record without its id (`Omit<Product, 'id'>`). */
    function Fields(): ProductFields {
      ProductFields(name, description, price, category, imageUrl, stock, featured)
    }
  }

  /** What `addProduct` is given: every field of a product except the id. */
  datatype ProductFields = ProductFields(
    name: string,
    description: string,
    price: int,
    category: string,
    imageUrl: string,
    stock: int,
    featured: bool)
  {
    /** `{ ...product, id }`: the stored record for these fields under `id`. */
    function WithId(id: string): (p: Product)
      ensures p.id == id && p.Fields() == this
    {
      Product(id, name, description, price, category, imageUrl, stock, featured)
    }
  }

  /** The sentinel category that stands for "no category filter". */
  const AllCategories: string := "All"

  /** The catalogue the store starts with. */
  const SeedProducts: seq<Product> := [
    Product("1", "Pro Gaming Keyboard", "Mechanical RGB gaming keyboard with programmable keys",
            12999, "Keyboards", "https://images.unsplash.com/photo-1618384887929-16ec33fab9ef?ixlib=rb-4.0.3", 15, true),
    Product("2", "Ultra Gaming Mouse", "High precision gaming mouse with adjustable DPI",
            7999, "Mice", "https://images.unsplash.com/photo-1605773527852-c546a8584ea3?ixlib=rb-4.0.3", 20, true),
    Product("3", "Immersive Gaming Headset", "Surround sound headset with noise-cancelling microphone",
            14999, "Headsets", "https://images.unsplash.com/photo-1590658268037-6bf12165a8df?ixlib=rb-4.0.3", 10, true),
    Product("4", "Gaming Mouse Pad", "Extra large gaming mouse pad with RGB lighting",
            3999, "Accessories", "https://images.unsplash.com/photo-1661266327927-04becc32fd7f?ixlib=rb-4.0.3", 30, false),
    Product("5", "Gaming Controller", "Ergonomic gaming controller with customizable buttons",
            6999, "Controllers", "https://images.unsplash.com/photo-1600080972464-8e5f35f63d08?ixlib=rb-4.0.3", 25, false),
    Product("6", "Gaming Chair", "Comfortable gaming chair with lumbar support",
            29999, "Furniture", "https://images.unsplash.com/photo-1598550476439-6847785fcea6?ixlib=rb-4.0.3", 5, true)
  ]

  /** Some product in the list has this id. */
  predicate HasId(ps: seq<Product>, id: string) {
    exists p :: p in ps && p.id == id
  }

  /** No two products share an id (the source relies on this; nothing enforces it). */
  predicate UniqueIds(ps: seq<Product>) {
    DistinctBy(ps, IdOf)
  }

  function IdOf(p: Product): string {
    p.id
  }

  /** The category of every product, in list order. */
  function CategoriesOf(ps: seq<Product>): (cs: seq<string>)
    ensures |cs| == |ps|
    ensures forall i :: 0 <= i < |ps| ==> cs[i] == ps[i].category
  {
    seq(|ps|, i requires 0 <= i < |ps| => ps[i].category)
  }

  /** The predicates the store's `find` and `filter` calls use. */
  function IdIs(id: string): Product -> bool {
    (p: Product) => p.id == id
  }

  function IdIsNot(id: string): Product -> bool {
    (p: Product) => p.id != id
  }

  function InCategory(category: string): Product -> bool {
    (p: Product) => p.category == category
  }

  predicate IsFeatured(p: Product) {
    p.featured
  }

  /** `getProductById`: the first product with this id, if any (ids are not kept
      unique, so later records with the same id are never found). */
  function FindById(ps: seq<Product>, id: string): (r: Option<Product>)
    ensures r.None? <==> !HasId(ps, id)
    ensures r.Some? ==> r.value in ps && r.value.id == id
    ensures r.Some? ==> exists i :: 0 <= i < |ps| && ps[i] == r.value &&
                                    forall j :: 0 <= j < i ==> ps[j].id != id
  {
    FindFirst(ps, IdIs(id))
  }

  /** With unique ids the product found is the only one with that id. */
  lemma FindByIdUnique(ps: seq<Product>, i: nat)
    requires UniqueIds(ps) && i < |ps|
    ensures FindById(ps, ps[i].id) == Some(ps[i])
  {
    var r := FindById(ps, ps[i].id);
    var k :| 0 <= k < |ps| && ps[k] == r.value && ps[k].id == ps[i].id;
  }

  /** `updateProduct`'s `map`: every record with the updated id becomes the updated
      record. */
  function ReplaceById(ps: seq<Product>, updated: Product): (r: seq<Product>)
    ensures |r| == |ps|
    ensures forall i :: 0 <= i < |ps| ==>
              r[i] == if ps[i].id == updated.id then updated else ps[i]
  {
    if ps == [] then []
    else [if ps[0].id == updated.id then updated else ps[0]] + ReplaceById(ps[1..], updated)
  }

  /** `deleteProduct`'s `filter`: the products whose id is not `id`. */
  function RemoveById(ps: seq<Product>, id: string): (r: seq<Product>)
    ensures |r| <= |ps|
    ensures forall p :: p in r ==> p in ps && p.id != id
    ensures forall p :: p in ps && p.id != id ==> p in r
  {
    Filter(ps, IdIsNot(id))
  }

  /** `getProductsByCategory`: the whole list for "All", otherwise the products of
      exactly that category (case-sensitive). */
  function ByCategory(ps: seq<Product>, category: string): (r: seq<Product>)
    ensures category == AllCategories ==> r == ps
    ensures category != AllCategories ==>
              (forall p :: p in r ==> p in ps && p.category == category) &&
              (forall p :: p in ps && p.category == category ==> p in r)
  {
    if category == AllCategories then ps else Filter(ps, InCategory(category))
  }

  /** `getFeaturedProducts`: the products flagged as featured. */
  function Featured(ps: seq<Product>): (r: seq<Product>)
    ensures forall p :: p in r ==> p in ps && p.featured
    ensures forall p :: p in ps && p.featured ==> p in r
  {
    Filter(ps, IsFeatured)
  }

  /** Category and featured filters keep the catalogue order and the multiplicity of
      each product they keep. */
  lemma QueriesKeepOrder(ps: seq<Product>, category: string)
    ensures IsSubseq(ByCategory(ps, category), ps) && IsSubseq(Featured(ps), ps)
    ensures forall p :: multiset(ByCategory(ps, category))[p] ==
              if category == AllCategories || p.category == category then multiset(ps)[p] else 0
    ensures forall p :: multiset(Featured(ps))[p] == if p.featured then multiset(ps)[p] else 0
  {
    FilterExactly(ps, InCategory(category));
    FilterExactly(ps, IsFeatured);
    if category == AllCategories {
      IsSubseqRefl(ps);
    }
  }

  /** An added product with a fresh id is found again by that id, carrying exactly the
      fields it was added with. */
  lemma AddThenFind(ps: seq<Product>, fields: ProductFields, id: string)
    requires !HasId(ps, id)
    ensures FindById(ps + [fields.WithId(id)], id) == Some(fields.WithId(id))
    ensures FindById(ps + [fields.WithId(id)], id).value.Fields() == fields
  {
    var r := FindById(ps + [fields.WithId(id)], id);
    var k :| 0 <= k < |ps| + 1 && (ps + [fields.WithId(id)])[k] == r.value && r.value.id == id;
  }

  /** Adding under a fresh id keeps ids unique. */
  lemma AddKeepsUniqueIds(ps: seq<Product>, fields: ProductFields, id: string)
    requires UniqueIds(ps) && !HasId(ps, id)
    ensures UniqueIds(ps + [fields.WithId(id)])
  {
    var qs := ps + [fields.WithId(id)];
    forall i, j | 0 <= i < j < |qs|
      ensures qs[i].id != qs[j].id
    {
      if j == |ps| {
        assert qs[i] in ps;
      }
    }
  }

  /** Updating with an id that is not in the catalogue changes nothing. */
  lemma UpdateAbsentIsNoOp(ps: seq<Product>, updated: Product)
    requires !HasId(ps, updated.id)
    ensures ReplaceById(ps, updated) == ps
  {
    var r := ReplaceById(ps, updated);
    forall i | 0 <= i < |ps|
      ensures r[i] == ps[i]
    {
      assert ps[i] in ps;
    }
  }

  /** An update keeps every id in its place, so ids stay unique. */
  lemma UpdateKeepsIds(ps: seq<Product>, updated: Product)
    ensures forall i :: 0 <= i < |ps| ==> ReplaceById(ps, updated)[i].id == ps[i].id
    ensures UniqueIds(ps) ==> UniqueIds(ReplaceById(ps, updated))
  {
    var r := ReplaceById(ps, updated);
    assert forall i :: 0 <= i < |ps| ==> r[i].id == ps[i].id;
  }

  /** After an update of a present id, that id finds the updated record. */
  lemma UpdateThenFind(ps: seq<Product>, updated: Product)
    requires HasId(ps, updated.id)
    ensures FindById(ReplaceById(ps, updated), updated.id) == Some(updated)
  {
    var r := ReplaceById(ps, updated);
    assert HasId(r, updated.id) by {
      var p :| p in ps && p.id == updated.id;
      var i :| 0 <= i < |ps| && ps[i] == p;
      assert r[i] == updated;
    }
    ReplacedRecordsAreUpdated(ps, updated);
  }

  /** Every record of an updated list that carries the updated id is the updated record. */
  lemma ReplacedRecordsAreUpdated(ps: seq<Product>, updated: Product)
    ensures forall q :: q in ReplaceById(ps, updated) && q.id == updated.id ==> q == updated
  {
    var r := ReplaceById(ps, updated);
    forall q | q in r && q.id == updated.id ensures q == updated {
      var k :| 0 <= k < |r| && r[k] == q;
    }
  }

  /** After a delete nothing is found under the deleted id, and every other product is
      still found as before. */
  lemma DeleteThenFind(ps: seq<Product>, id: string, other: string)
    requires other != id
    ensures FindById(RemoveById(ps, id), id).None?
    ensures FindById(RemoveById(ps, id), other) == FindById(ps, other)
  {
    FindAfterRemove(ps, id, other);
  }

  lemma {:induction false} FindAfterRemove(ps: seq<Product>, id: string, other: string)
    requires other != id
    ensures FindById(RemoveById(ps, id), other) == FindById(ps, other)
  {
    if ps != [] {
      FindAfterRemove(ps[1..], id, other);
      var r := RemoveById(ps, id);
      if ps[0].id != id {
        assert r == [ps[0]] + RemoveById(ps[1..], id);
        assert r[1..] == RemoveById(ps[1..], id);
      } else {
        assert r == RemoveById(ps[1..], id);
      }
    }
  }

  /** Deleting removes exactly the products with that id and keeps the others in order;
      deleting an absent id changes nothing; ids stay unique. */
  lemma DeleteKeepsOthers(ps: seq<Product>, id: string)
    ensures IsSubseq(RemoveById(ps, id), ps)
    ensures forall p :: multiset(RemoveById(ps, id))[p] == if p.id != id then multiset(ps)[p] else 0
    ensures !HasId(ps, id) ==> RemoveById(ps, id) == ps
    ensures UniqueIds(ps) ==> UniqueIds(RemoveById(ps, id))
  {
    FilterExactly(ps, IdIsNot(id));
    if !HasId(ps, id) {
      FilterKeepsAll(ps, IdIsNot(id));
    }
    if UniqueIds(ps) {
      SubseqKeepsDistinct(RemoveById(ps, id), ps, IdOf);
    }
  }

  /** The catalogue store: the `products` state of the provider. */
  class ProductStore {
    var products: seq<Product>

    /** The provider starts from the seed catalogue. */
    constructor()
      ensures products == SeedProducts
    {
      products := SeedProducts;
    }

    /** `addProduct`: appends the fields under the id the caller supplies (the source
        takes the current time). */
    method AddProduct(fields: ProductFields, newId: string)
      modifies this
      ensures products == old(products) + [fields.WithId(newId)]
    {
      products := products + [fields.WithId(newId)];
    }

    /** `updateProduct`: every record with the updated id is replaced; nothing else
        changes. */
    method UpdateProduct(updated: Product)
      modifies this
      ensures products == ReplaceById(old(products), updated)
    {
      products := ReplaceById(products, updated);
    }

    /** `deleteProduct`: drops the records with this id. */
    method DeleteProduct(id: string)
      modifies this
      ensures products == RemoveById(old(products), id)
    {
      products := RemoveById(products, id);
    }
  }
}
