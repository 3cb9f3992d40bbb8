/** The catalogue page's queries (src/pages/ProductsPage.tsx): the three-stage filter
    (search text, category tab, price range) and the list of category tabs. */
module ProductsPage {
  import opened Seqs
  import opened Text
  import opened Catalog

  /** The price slider's two handles, in cents, both inclusive. */
  datatype PriceRange = PriceRange(low: int, high: int)

  /** The slider's starting position: 0 to 500 units. */
  const DefaultPriceRange: PriceRange := PriceRange(0, 50000)

  /** The lower-cased search term occurs in the lower-cased name or description. */
  predicate MatchesSearch(p: Product, search: string) {
    Includes(Lower(p.name), Lower(search)) || Includes(Lower(p.description), Lower(search))
  }

  predicate InPriceRange(p: Product, range: PriceRange) {
    range.low <= p.price <= range.high
  }

  function SearchFilter(search: string): Product -> bool {
    (p: Product) => MatchesSearch(p, search)
  }

  function PriceFilter(range: PriceRange): Product -> bool {
    (p: Product) => InPriceRange(p, range)
  }

  /** Whether a category value selects a tab other than "All" (an empty value selects
      nothing either). */
  predicate CategoryActive(category: string) {
    category != "" && category != AllCategories
  }

  /** The three conditions together, each only when it is active. */
  predicate Selected(p: Product, search: string, category: string, range: PriceRange) {
    && (search == "" || MatchesSearch(p, search))
    && (!CategoryActive(category) || p.category == category)
    && InPriceRange(p, range)
  }

  function TextCondition(search: string): Product -> bool {
    (p: Product) => search == "" || MatchesSearch(p, search)
  }

  function TextAndCategory(search: string, category: string): Product -> bool {
    (p: Product) => (search == "" || MatchesSearch(p, search)) && (!CategoryActive(category) || p.category == category)
  }

  function SelectedBy(search: string, category: string, range: PriceRange): Product -> bool {
    (p: Product) => Selected(p, search, category, range)
  }

  /** `filterProducts`: the search filter when a term is given, then the category filter
      when a category other than "All" is given, then the price filter. */
  function FilterProducts(ps: seq<Product>, search: string, category: string, range: PriceRange): (r: seq<Product>)
    ensures forall p :: p in r ==> p in ps && Selected(p, search, category, range)
    ensures forall p :: p in ps && Selected(p, search, category, range) ==> p in r
  {
    var bySearch := if search != "" then Filter(ps, SearchFilter(search)) else ps;
    var byCategory := if CategoryActive(category) then Filter(bySearch, InCategory(category)) else bySearch;
    Filter(byCategory, PriceFilter(range))
  }

  /** The staged filter is one filter by the conjunction of the active conditions, so
      the page shows exactly the selected products, in catalogue order, each as often as
      it occurs in the catalogue. */
  lemma FilterProductsExactly(ps: seq<Product>, search: string, category: string, range: PriceRange)
    ensures FilterProducts(ps, search, category, range) == Filter(ps, SelectedBy(search, category, range))
    ensures IsSubseq(FilterProducts(ps, search, category, range), ps)
    ensures forall p :: multiset(FilterProducts(ps, search, category, range))[p] ==
              if Selected(p, search, category, range) then multiset(ps)[p] else 0
  {
    var f := SelectedBy(search, category, range);
    var textAndCategory := TextAndCategory(search, category);
    var bySearch := if search != "" then Filter(ps, SearchFilter(search)) else ps;
    assert bySearch == Filter(ps, TextCondition(search)) by {
      if search != "" {
        FilterAgrees(ps, SearchFilter(search), TextCondition(search));
      } else {
        FilterKeepsAll(ps, TextCondition(search));
      }
    }
    var byCategory := if CategoryActive(category) then Filter(bySearch, InCategory(category)) else bySearch;
    assert byCategory == Filter(ps, textAndCategory) by {
      if CategoryActive(category) {
        FilterFuse(ps, TextCondition(search), InCategory(category), textAndCategory);
      } else {
        FilterAgrees(ps, TextCondition(search), textAndCategory);
      }
    }
    FilterFuse(ps, textAndCategory, PriceFilter(range), f);
    FilterExactly(ps, f);
  }

  /** An empty term occurs in every name, so skipping the search filter for an empty
      term (`if (search)`) shows the same products as applying it. */
  lemma EmptySearchMatchesAll(p: Product)
    ensures MatchesSearch(p, "")
  {
    IncludesEmpty(Lower(p.name));
  }

  /** With an empty search, the "All" tab and the slider at its starting position, the
      page shows exactly the products priced within 0 to 500 units, in catalogue order;
      so it shows the whole catalogue when every price lies in that range. */
  lemma DefaultViewShowsEverything(ps: seq<Product>)
    ensures FilterProducts(ps, "", AllCategories, DefaultPriceRange) == Filter(ps, PriceFilter(DefaultPriceRange))
    ensures (forall p :: p in ps ==> InPriceRange(p, DefaultPriceRange)) ==>
              FilterProducts(ps, "", AllCategories, DefaultPriceRange) == ps
  {
    if forall p :: p in ps ==> InPriceRange(p, DefaultPriceRange) {
      FilterKeepsAll(ps, PriceFilter(DefaultPriceRange));
    }
  }

  /** `['All', ...new Set(products.map(p => p.category))]`: the category tabs. */
  function CategoryTabs(ps: seq<Product>): (r: seq<string>)
    ensures |r| >= 1 && r[0] == AllCategories
    ensures forall c :: c in r[1..] ==> exists p :: p in ps && p.category == c
    ensures forall p :: p in ps ==> p.category in r[1..]
    ensures NoDups(r[1..])
  {
    var tabs := Dedup(CategoriesOf(ps));
    assert forall p :: p in ps ==> p.category in CategoriesOf(ps) by {
      forall p | p in ps ensures p.category in CategoriesOf(ps) {
        var i :| 0 <= i < |ps| && ps[i] == p;
        assert CategoriesOf(ps)[i] == p.category;
      }
    }
    assert ([AllCategories] + tabs)[1..] == tabs;
    [AllCategories] + tabs
  }

  /** The tabs after "All" follow the order in which categories first occur in the
      catalogue. */
  lemma CategoryTabsInFirstOccurrenceOrder(ps: seq<Product>)
    ensures var tabs := CategoryTabs(ps)[1..];
            forall i, j :: 0 <= i < j < |tabs| ==>
              FirstIndex(CategoriesOf(ps), tabs[i]) < FirstIndex(CategoriesOf(ps), tabs[j])
  {
    DedupFirstOccurrenceOrder(CategoriesOf(ps));
    assert CategoryTabs(ps)[1..] == Dedup(CategoriesOf(ps));
  }
}
