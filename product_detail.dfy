/** The product page (src/pages/ProductDetailPage.tsx): the product looked up from the
    route, and the quantity selector next to the add-to-cart button. */
module ProductDetail {
  import opened Wrappers
  import opened Seqs
  import opened Catalog

  /** `getProductById(id || '')`: a missing route id is looked up as the empty id. */
  function DetailLookup(ps: seq<Product>, routeId: Option<string>): (r: Option<Product>)
    ensures r.None? <==> !HasId(ps, routeId.GetOr(""))
    ensures r.Some? ==> r.value in ps && r.value.id == routeId.GetOr("")
  {
    FindById(ps, routeId.GetOr(""))
  }

  /** The page shows "Product Not Found" for a route without an id (no product has the
      empty id) and for a deleted product, and shows every other product still there. */
  lemma NotFoundCases(ps: seq<Product>, id: string, other: string)
    requires !HasId(ps, "") && other != id
    ensures DetailLookup(ps, None).None?
    ensures DetailLookup(RemoveById(ps, id), Some(id)).None?
    ensures DetailLookup(RemoveById(ps, id), Some(other)) == DetailLookup(ps, Some(other))
  {
    DeleteThenFind(ps, id, other);
  }

  function Max(a: int, b: int): int {
    if a < b then b else a
  }

  /** What `handleAddToCart` hands the cart: the product and how many of it. */
  datatype CartRequest = CartRequest(product: Product, quantity: int)

  /** The "Add to Cart" button is enabled unless the stock is exactly zero. */
  predicate CanAddToCart(p: Product) {
    p.stock != 0
  }

  /** The quantity after one press of "+" (`plus`) or "-": a step by one when the button's
      guard allows it, no change otherwise. */
  function Press(stock: int, quantity: int, plus: bool): int {
    if plus then (if quantity < stock then quantity + 1 else quantity)
    else (if quantity > 1 then quantity - 1 else quantity)
  }

  /** The quantity state of the page for the product it shows. */
  class QuantitySelector {
    const product: Product
    var quantity: int

    /** The quantity is at least 1 and never above the stock (1 when the stock is
        below 1). */
    ghost predicate Valid()
      reads this
    {
      1 <= quantity <= Max(1, product.stock)
    }

    /** The "+" button is enabled below the stock. */
    predicate CanIncrement()
      reads this
    {
      quantity < product.stock
    }

    /** The "-" button is enabled above 1. */
    predicate CanDecrement()
      reads this
    {
      quantity > 1
    }

    /** `useState(1)`. */
    constructor(product: Product)
      ensures this.product == product && quantity == 1 && Valid()
    {
      this.product := product;
      quantity := 1;
    }

    /** `incrementQuantity`: one more while below the stock; at the stock nothing
        changes and the out-of-stock message is reported. */
    method Increment() returns (outOfStock: bool)
      requires Valid()
      modifies this
      ensures Valid()
      ensures outOfStock <==> !old(CanIncrement())
      ensures quantity == Press(product.stock, old(quantity), true)
    {
      if quantity < product.stock {
        quantity := quantity + 1;
        outOfStock := false;
      } else {
        outOfStock := true;
      }
    }

    /** `decrementQuantity`: one fewer while above 1; at 1 nothing changes. */
    method Decrement()
      requires Valid()
      modifies this
      ensures Valid()
      ensures quantity == Press(product.stock, old(quantity), false)
    {
      if quantity > 1 {
        quantity := quantity - 1;
      }
    }

    /** `handleAddToCart`, reachable only while its button is enabled: the current
        product with the current quantity, a positive amount no greater than the stock
        when the product is in stock. */
    method AddToCart() returns (request: CartRequest)
      requires Valid() && CanAddToCart(product)
      ensures request.product == product && request.quantity == quantity
      ensures 1 <= request.quantity
      ensures product.stock > 0 ==> request.quantity <= product.stock
    {
      request := CartRequest(product, quantity);
    }
  }

  /** The quantity a sequence of presses ("+" is `true`, "-" is `false`) reaches from
      `start`. */
  function QuantityAfter(stock: int, start: int, presses: seq<bool>): int
    decreases |presses|
  {
    if presses == [] then start
    else QuantityAfter(stock, Press(stock, start, presses[0]), presses[1..])
  }

  /** Whatever the presses, the quantity stays between 1 and the stock (1 when the stock
      is below 1). */
  lemma {:induction false} QuantityStaysInRange(stock: int, start: int, presses: seq<bool>)
    requires 1 <= start <= Max(1, stock)
    ensures 1 <= QuantityAfter(stock, start, presses) <= Max(1, stock)
    decreases |presses|
  {
    if presses != [] {
      QuantityStaysInRange(stock, Press(stock, start, presses[0]), presses[1..]);
    }
  }

  /** Pressing "+" as often as the stock allows reaches the stock exactly, and no
      further. */
  lemma {:induction false} IncrementsReachStock(stock: int, start: int, n: nat)
    requires 1 <= start <= stock
    ensures QuantityAfter(stock, start, seq(n, _ => true)) == if start + n <= stock then start + n else stock
    decreases n
  {
    if n > 0 {
      var presses := seq(n, _ => true);
      assert presses[1..] == seq(n - 1, _ => true);
      IncrementsReachStock(stock, Press(stock, start, true), n - 1);
    }
  }
}
