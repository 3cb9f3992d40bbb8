/** The admin dashboard's statistics (src/pages/admin/AdminDashboardPage.tsx): product
    count, total stock, low-stock count and products per category. */
module Dashboard {
  import opened Seqs
  import opened Catalog

  /** A product is low on stock below this many units. */
  const LowStockThreshold: int := 5

  /** `products.reduce((total, p) => total + p.stock, 0)`: a left fold from 0, so 0
      for no products and never negative when no stock is. */
  function TotalStock(ps: seq<Product>): (t: int)
    ensures ps == [] ==> t == 0
    ensures (forall i :: 0 <= i < |ps| ==> ps[i].stock >= 0) ==> t >= 0
  {
    if ps == [] then 0 else TotalStock(ps[..|ps| - 1]) + ps[|ps| - 1].stock
  }

  /** The total of a concatenation is the sum of the totals, so the fold's order does not
      matter and adding a product adds its stock. */
  lemma {:induction false} TotalStockAppend(a: seq<Product>, b: seq<Product>)
    ensures TotalStock(a + b) == TotalStock(a) + TotalStock(b)
    decreases |b|
  {
    if b == [] {
      assert a + b == a;
    } else {
      var n := |b| - 1;
      assert (a + b)[..|a + b| - 1] == a + b[..n];
      TotalStockAppend(a, b[..n]);
    }
  }

  /** With no negative stock the total is at least every product's stock. */
  lemma {:induction false} TotalStockBounds(ps: seq<Product>)
    requires forall p :: p in ps ==> p.stock >= 0
    ensures TotalStock(ps) >= 0
    ensures forall p :: p in ps ==> p.stock <= TotalStock(ps)
  {
    if ps != [] {
      var n := |ps| - 1;
      assert forall p :: p in ps[..n] ==> p in ps;
      TotalStockBounds(ps[..n]);
      assert forall p :: p in ps ==> p in ps[..n] || p == ps[n] by {
        assert ps == ps[..n] + [ps[n]];
      }
    }
  }

  function IsLowStock(p: Product): bool {
    p.stock < LowStockThreshold
  }

  function NotLowStock(p: Product): bool {
    !IsLowStock(p)
  }

  /** `products.filter(p => p.stock < 5).length`. */
  function LowStockCount(ps: seq<Product>): (n: nat)
    ensures n <= |ps|
  {
    |Filter(ps, IsLowStock)|
  }

  /** The low-stock count and the count of the rest add up to the product count. */
  lemma LowStockSplitsCatalogue(ps: seq<Product>)
    ensures LowStockCount(ps) + |Filter(ps, NotLowStock)| == |ps|
    ensures LowStockCount(ps) == |ps| <==> forall p :: p in ps ==> p.stock < LowStockThreshold
  {
    FilterPartition(ps, IsLowStock, NotLowStock);
    if LowStockCount(ps) == |ps| {
      assert Filter(ps, NotLowStock) == [];
    } else {
      var q := Filter(ps, NotLowStock)[0];
      assert q in Filter(ps, NotLowStock);
    }
  }

  /** How many products have category `c`. */
  function CountOf(ps: seq<Product>, c: string): nat {
    multiset(CategoriesOf(ps))[c]
  }

  /** The `categoryCounts` loop: one pass over the products, adding one to the count of
      each product's category, starting a category at 1 the first time it is seen. */
  method CategoryCounts(ps: seq<Product>) returns (counts: map<string, nat>)
    ensures forall c :: c in counts <==> exists p :: p in ps && p.category == c
    ensures forall c :: c in counts ==> counts[c] == CountOf(ps, c) && counts[c] >= 1
  {
    var cats := CategoriesOf(ps);
    counts := map[];
    var i := 0;
    while i < |ps|
      invariant 0 <= i <= |ps|
      invariant forall c :: c in counts <==> c in cats[..i]
      invariant forall c :: c in counts ==> counts[c] == multiset(cats[..i])[c]
    {
      var c := ps[i].category;
      assert cats[..i + 1] == cats[..i] + [c];
      counts := counts[c := (if c in counts then counts[c] else 0) + 1];
      i := i + 1;
    }
    assert cats[..|ps|] == cats;
    forall c ensures c in cats <==> exists p :: p in ps && p.category == c {
      if c in cats {
        var k :| 0 <= k < |cats| && cats[k] == c;
        assert ps[k] in ps;
      }
    }
  }

  /** The sum of the counts listed under `keys`. */
  function SumOver(counts: map<string, nat>, keys: seq<string>): nat
    requires forall k :: k in keys ==> k in counts
  {
    if keys == [] then 0 else counts[keys[0]] + SumOver(counts, keys[1..])
  }

  /** The sum of the multiplicities of a multiset over a list of keys. */
  function SumMultiplicities(m: multiset<string>, keys: seq<string>): nat {
    if keys == [] then 0 else m[keys[0]] + SumMultiplicities(m, keys[1..])
  }

  /** Summing over a list without repetitions that holds every category, the category
      counts add up to the number of products. */
  lemma {:induction false} CountsCoverCatalogue(cats: seq<string>, keys: seq<string>)
    requires NoDups(keys) && forall c :: c in cats ==> c in keys
    ensures SumMultiplicities(multiset(cats), keys) == |cats|
  {
    if cats != [] {
      var rest := cats[1..];
      assert cats == [cats[0]] + rest;
      assert multiset(cats) == multiset{cats[0]} + multiset(rest);
      SumSplits(multiset{cats[0]}, multiset(rest), keys);
      SumOfSingleton(cats[0], keys);
      CountsCoverCatalogue(rest, keys);
    } else {
      SumOfEmpty(keys);
    }
  }

  lemma {:induction false} SumSplits(a: multiset<string>, b: multiset<string>, keys: seq<string>)
    ensures SumMultiplicities(a + b, keys) == SumMultiplicities(a, keys) + SumMultiplicities(b, keys)
  {
    if keys != [] {
      SumSplits(a, b, keys[1..]);
    }
  }

  lemma {:induction false} SumOfEmpty(keys: seq<string>)
    ensures SumMultiplicities(multiset{}, keys) == 0
  {
    if keys != [] {
      SumOfEmpty(keys[1..]);
    }
  }

  /** A single element is counted once by a repetition-free list that holds it, and not
      at all by one that does not. */
  lemma {:induction false} SumOfSingleton(x: string, keys: seq<string>)
    requires NoDups(keys)
    ensures SumMultiplicities(multiset{x}, keys) == if x in keys then 1 else 0
  {
    if keys != [] {
      assert NoDups(keys[1..]) by {
        forall i, j | 0 <= i < j < |keys[1..]| ensures keys[1..][i] != keys[1..][j] {
          assert keys[1..][i] == keys[i + 1] && keys[1..][j] == keys[j + 1];
        }
      }
      SumOfSingleton(x, keys[1..]);
      if keys[0] == x {
        assert x !in keys[1..] by {
          forall k | 0 <= k < |keys[1..]| ensures keys[1..][k] != x {
            assert keys[1..][k] == keys[k + 1];
          }
        }
      }
      assert x in keys <==> x == keys[0] || x in keys[1..] by {
        assert keys == [keys[0]] + keys[1..];
      }
    }
  }

  /** The category counts, summed over every category once (each category listed once,
      in first-occurrence order), add up to the number of products. */
  lemma {:induction false} CategoryCountsSumToTotal(ps: seq<Product>, counts: map<string, nat>)
    requires forall c :: c in counts <==> exists p :: p in ps && p.category == c
    requires forall c :: c in counts ==> counts[c] == CountOf(ps, c)
    ensures forall c :: c in Dedup(CategoriesOf(ps)) <==> c in counts
    ensures SumOver(counts, Dedup(CategoriesOf(ps))) == |ps|
  {
    var cats := CategoriesOf(ps);
    var keys := Dedup(cats);
    forall c ensures c in cats <==> exists p :: p in ps && p.category == c {
      if c in cats {
        var k :| 0 <= k < |cats| && cats[k] == c;
        assert ps[k] in ps;
      } else {
        forall p | p in ps ensures p.category != c {
          var k :| 0 <= k < |ps| && ps[k] == p;
          assert cats[k] == p.category;
        }
      }
    }
    SumOverIsMultiplicities(counts, multiset(cats), keys);
    CountsCoverCatalogue(cats, keys);
  }

  lemma {:induction false} SumOverIsMultiplicities(counts: map<string, nat>, m: multiset<string>, keys: seq<string>)
    requires forall k :: k in keys ==> k in counts && counts[k] == m[k]
    ensures SumOver(counts, keys) == SumMultiplicities(m, keys)
  {
    if keys != [] {
      SumOverIsMultiplicities(counts, m, keys[1..]);
    }
  }
}
