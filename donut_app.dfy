/**
  The catalog screen: the products fetched once on mount, the search text,
  the selected category and the loading flag, and the filter that derives
  the displayed list from them.
 */
module DonutApp {
  import opened TextMatch

  // ---------------------------------------------------------------------
  // `Array.prototype.filter` and subsequences
  // ---------------------------------------------------------------------

  /** `xs.filter(keep)`: the elements of `xs` that `keep` accepts, visited
      from the left, so in their original order. */
  function Filter<T(==)>(xs: seq<T>, keep: T -> bool): (r: seq<T>)
    ensures |r| <= |xs|
    ensures forall x :: x in r ==> x in xs && keep(x)
  {
    if xs == [] then []
    else (if keep(xs[0]) then [xs[0]] else []) + Filter(xs[1..], keep)
  }

  /** `idx` picks the elements of `sub` out of `xs` at strictly increasing
      positions. */
  ghost predicate IsSubsequenceVia<T>(idx: seq<int>, sub: seq<T>, xs: seq<T>)
  {
    && |idx| == |sub|
    && (forall k :: 0 <= k < |idx| ==> 0 <= idx[k] < |xs| && sub[k] == xs[idx[k]])
    && (forall k, l :: 0 <= k < l < |idx| ==> idx[k] < idx[l])
  }

  /** `sub` is obtained from `xs` by deleting elements, keeping the relative
      order of the rest. */
  ghost predicate IsSubsequence<T>(sub: seq<T>, xs: seq<T>)
  {
    exists idx :: IsSubsequenceVia(idx, sub, xs)
  }

  /** Filtering only deletes elements: the result is a subsequence. */
  lemma {:induction false} FilterIsSubsequence<T>(xs: seq<T>, keep: T -> bool)
    ensures IsSubsequence(Filter(xs, keep), xs)
  {
    if xs == [] {
      assert IsSubsequenceVia([], Filter(xs, keep), xs);
    } else {
      FilterIsSubsequence(xs[1..], keep);
      var idx :| IsSubsequenceVia(idx, Filter(xs[1..], keep), xs[1..]);
      var shifted := seq(|idx|, k requires 0 <= k < |idx| => idx[k] + 1);
      if keep(xs[0]) {
        assert IsSubsequenceVia([0] + shifted, Filter(xs, keep), xs);
      } else {
        assert IsSubsequenceVia(shifted, Filter(xs, keep), xs);
      }
    }
  }

  /** Filtering keeps every occurrence of an accepted element and no
      occurrence of a rejected one. */
  lemma {:induction false} FilterCount<T>(xs: seq<T>, keep: T -> bool, x: T)
    ensures multiset(Filter(xs, keep))[x] == if keep(x) then multiset(xs)[x] else 0
  {
    if xs != [] {
      FilterCount(xs[1..], keep, x);
      assert xs == [xs[0]] + xs[1..];
    }
  }

  /** An element survives the filter exactly when it is in the input and
      accepted. */
  lemma FilterMembership<T>(xs: seq<T>, keep: T -> bool)
    ensures forall x :: x in Filter(xs, keep) <==> x in xs && keep(x)
  {
    forall x ensures x in Filter(xs, keep) <==> x in xs && keep(x) {
      FilterCount(xs, keep, x);
    }
  }

  /** Two tests that agree on every element of `xs` filter it alike. */
  lemma {:induction false} FilterAgreeing<T>(xs: seq<T>, f: T -> bool, g: T -> bool)
    requires forall x :: x in xs ==> f(x) == g(x)
    ensures Filter(xs, f) == Filter(xs, g)
  {
    if xs != [] {
      FilterAgreeing(xs[1..], f, g);
    }
  }

  /** A test that accepts every element leaves the sequence unchanged. */
  lemma {:induction false} FilterAcceptingAll<T>(xs: seq<T>, keep: T -> bool)
    requires forall x :: x in xs ==> keep(x)
    ensures Filter(xs, keep) == xs
  {
    if xs != [] {
      FilterAcceptingAll(xs[1..], keep);
    }
  }

  /** Filtering by a conjunction is filtering by each conjunct in turn. */
  lemma {:induction false} FilterConjunction<T>(xs: seq<T>, both: T -> bool, f: T -> bool, g: T -> bool)
    requires forall x :: both(x) == (f(x) && g(x))
    ensures Filter(xs, both) == Filter(Filter(xs, f), g)
  {
    if xs != [] {
      FilterConjunction(xs[1..], both, f, g);
      if f(xs[0]) {
        assert Filter(xs, f) == [xs[0]] + Filter(xs[1..], f);
        assert Filter(xs, f)[1..] == Filter(xs[1..], f);
      } else {
        assert Filter(xs, f) == Filter(xs[1..], f);
      }
    }
  }

  // ---------------------------------------------------------------------
  // Products and the catalog filter
  // ---------------------------------------------------------------------

  /** A product as the remote endpoint delivers it. Only `name` takes part
      in any logic; the other fields are carried along untouched. */
  datatype Product = Product(id: string, name: string, description: string, price: string, imageUrl: string)

  /** The category that shows every product. */
  const ShowAll: string := "Donut"
  const PinkDonut: string := "Pink Donut"
  const Floating: string := "Floating"

  /** The labels of the three category buttons. */
  const Categories: set<string> := {ShowAll, PinkDonut, Floating}

  /** The category test: the sentinel accepts everything, any other
      category must occur in the name, with case significant. */
  predicate MatchesCategory(p: Product, category: string)
    ensures category == ShowAll ==> MatchesCategory(p, category)
    ensures category != ShowAll ==>
      (MatchesCategory(p, category) <==> Occurs(p.name, category))
  {
    ContainsIffOccurs(p.name, category);
    category == ShowAll || Contains(p.name, category)
  }

  /** The search test: the lower-cased search text must occur in the
      lower-cased name. */
  predicate MatchesSearch(p: Product, searchText: string)
    ensures MatchesSearch(p, searchText) <==> Occurs(ToLower(p.name), ToLower(searchText))
    ensures searchText == "" ==> MatchesSearch(p, searchText)
  {
    ContainsIffOccurs(ToLower(p.name), ToLower(searchText));
    Contains(ToLower(p.name), ToLower(searchText))
  }

  /** A product is listed when it passes both tests. */
  predicate Matches(p: Product, category: string, searchText: string)
    ensures category == ShowAll ==> (Matches(p, category, searchText) <==> MatchesSearch(p, searchText))
    ensures searchText == "" ==> (Matches(p, category, searchText) <==> MatchesCategory(p, category))
  {
    MatchesCategory(p, category) && MatchesSearch(p, searchText)
  }

  /** The displayed list, recomputed from the current state on each render:
      a subsequence of the fetched products that lists exactly those passing
      both tests, and so is no longer. */
  function FilteredProducts(products: seq<Product>, category: string, searchText: string): (r: seq<Product>)
    ensures IsSubsequence(r, products)
    ensures forall p :: p in r <==> p in products && MatchesCategory(p, category) && MatchesSearch(p, searchText)
    ensures |r| <= |products|
  {
    var keep := p => Matches(p, category, searchText);
    FilterIsSubsequence(products, keep);
    FilterMembership(products, keep);
    Filter(products, keep)
  }

  /** A product listed twice in the fetched data is displayed twice (or not
      at all): the filter neither merges nor invents duplicates. */
  lemma FilteredProductsCount(products: seq<Product>, category: string, searchText: string, p: Product)
    ensures multiset(FilteredProducts(products, category, searchText))[p] ==
      if Matches(p, category, searchText) then multiset(products)[p] else 0
  {
    FilterCount(products, p => Matches(p, category, searchText), p);
  }

  /** Under the sentinel category only the search text decides. */
  lemma ShowAllIsSearchOnly(products: seq<Product>, searchText: string)
    ensures FilteredProducts(products, ShowAll, searchText) == Filter(products, p => MatchesSearch(p, searchText))
  {
    FilterAgreeing(products, p => Matches(p, ShowAll, searchText), p => MatchesSearch(p, searchText));
  }

  /** With an empty search text only the category decides. */
  lemma EmptySearchIsCategoryOnly(products: seq<Product>, category: string)
    ensures FilteredProducts(products, category, "") == Filter(products, p => MatchesCategory(p, category))
  {
    FilterAgreeing(products, p => Matches(p, category, ""), p => MatchesCategory(p, category));
  }

  /** The state right after a successful fetch, sentinel category and empty
      search, displays the fetched list as it is. */
  lemma InitialFilterShowsAll(products: seq<Product>)
    ensures FilteredProducts(products, ShowAll, "") == products
  {
    FilterAcceptingAll(products, p => Matches(p, ShowAll, ""));
  }

  /** The two tests may be applied one after the other. */
  lemma FilterByCategoryThenSearch(products: seq<Product>, category: string, searchText: string)
    ensures FilteredProducts(products, category, searchText) ==
      Filter(Filter(products, p => MatchesCategory(p, category)), p => MatchesSearch(p, searchText))
  {
    FilterConjunction(products, p => Matches(p, category, searchText),
      p => MatchesCategory(p, category), p => MatchesSearch(p, searchText));
  }

  /** The category test distinguishes case and the search test does not:
      a product named "pink donut" is rejected by the "Pink Donut" category
      but found by the search text "Pink Donut". */
  lemma CategoryIsCaseSensitiveSearchIsNot()
    ensures var p := Product("1", "pink donut", "", "", "");
      !MatchesCategory(p, PinkDonut) && MatchesSearch(p, PinkDonut)
  {
    ContainsSameLength("pink donut", "pink donut");
  }

  // ---------------------------------------------------------------------
  // The catalog screen's state
  // ---------------------------------------------------------------------

  /** How the one fetch of the product list settles: with the decoded list,
      or with a network or decoding error. */
  datatype FetchOutcome = Success(data: seq<Product>) | Failure

  /** The three category buttons. */
  datatype CategoryButton = DonutButton | PinkDonutButton | FloatingButton

  /** The category a button selects. */
  function Label(button: CategoryButton): (category: string)
    ensures category in Categories
    ensures category == ShowAll <==> button == DonutButton
  {
    match button
    case DonutButton => ShowAll
    case PinkDonutButton => PinkDonut
    case FloatingButton => Floating
  }

  class CatalogScreen {
    var products: seq<Product>
    var searchText: string
    var selectedCategory: string
    var loading: bool

    /** The selected category is always one of the button labels, and no
        product is held while the fetch is pending. */
    ghost predicate Valid()
      reads this
    {
      selectedCategory in Categories && (loading ==> products == [])
    }

    /** Mounting: no products, empty search, sentinel category, loading. */
    constructor ()
      ensures Valid()
      ensures products == [] && searchText == "" && selectedCategory == ShowAll && loading
    {
      products := [];
      searchText := "";
      selectedCategory := ShowAll;
      loading := true;
    }

    /** The one fetch settles, while loading: on success the list becomes
        the fetched one, on failure it is left as it was, which is empty;
        loading is cleared either way and never set again. */
    method SettleFetch(outcome: FetchOutcome)
      requires Valid() && loading
      modifies this
      ensures Valid() && !loading
      ensures products == (if outcome.Success? then outcome.data else old(products))
      ensures outcome.Failure? ==> products == []
      ensures searchText == old(searchText) && selectedCategory == old(selectedCategory)
    {
      if outcome.Success? {
        products := outcome.data;
      }
      loading := false;
    }

    /** Typing in the search box replaces the search text. */
    method SetSearchText(text: string)
      requires Valid()
      modifies this
      ensures Valid()
      ensures searchText == text
      ensures products == old(products) && selectedCategory == old(selectedCategory) && loading == old(loading)
    {
      searchText := text;
    }

    /** Pressing a category button selects its category. */
    method PressCategory(button: CategoryButton)
      requires Valid()
      modifies this
      ensures Valid()
      ensures selectedCategory == Label(button)
      ensures products == old(products) && searchText == old(searchText) && loading == old(loading)
    {
      selectedCategory := Label(button);
    }

    /** The list the screen displays: a subsequence of the fetched products
        holding exactly those that pass both tests. */
    function VisibleProducts(): (r: seq<Product>)
      reads this
      ensures IsSubsequence(r, products)
      ensures forall p :: p in r <==> p in products && Matches(p, selectedCategory, searchText)
    {
      FilteredProducts(products, selectedCategory, searchText)
    }
  }

  /** Mounting the screen and letting its one fetch settle: loading ends,
      the product list is the fetched one or stays empty, and with the
      initial category and search text the whole list is displayed. */
  method Mount(outcome: FetchOutcome) returns (screen: CatalogScreen)
    ensures fresh(screen) && screen.Valid() && !screen.loading
    ensures screen.products == (if outcome.Success? then outcome.data else [])
    ensures screen.selectedCategory == ShowAll && screen.searchText == ""
    ensures screen.VisibleProducts() == screen.products
  {
    screen := new CatalogScreen();
    screen.SettleFetch(outcome);
    InitialFilterShowsAll(screen.products);
  }
}
