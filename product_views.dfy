/**
 * The catalogue endpoints: the product listing's filter chain, the
 * product lookup by id or slug, the search action and the category
 * breadcrumbs.
 *
 * The product table is a sequence of distinct products; query parameters
 * are a map from name to text.
 */
module ProductViews {
  import opened Wrappers
  import opened Text
  import opened Seqs
  import opened ProductModels

  type Params = map<string, string>

  /** `params.get(name)`. */
  function Param(params: Params, name: string): Option<string> {
    if name in params then Some(params[name]) else None
  }

  /** A parameter given with a non-empty value (Python's `if value:`). */
  predicate Supplied(params: Params, name: string) {
    name in params && params[name] != ""
  }

  /**
   * Python's `int(s)` on plain literals: surrounding whitespace, an optional
   * sign and at least one digit.
   */
  function IntLiteral(s: string): (r: Option<int>)
    ensures r.Some? ==> |s| > 0
    ensures IsDigits(Strip(s)) ==> r == Some(DigitsValue(Strip(s)) as int)
  {
    var t := Strip(s);
    if IsDigits(t) then Some(DigitsValue(t) as int)
    else if |t| > 1 && t[0] == '-' && IsDigits(t[1..]) then Some(-(DigitsValue(t[1..]) as int))
    else if |t| > 1 && t[0] == '+' && IsDigits(t[1..]) then Some(DigitsValue(t[1..]) as int)
    else None
  }

  // ---------------------------------------------------------------------
  // The listing
  // ---------------------------------------------------------------------

  /** The orderings `get_queryset` accepts. */
  const Orderings: seq<string> := ["price", "-price", "created_at", "-created_at", "name", "-name"]

  /** The listing's query, once its numbers are read. */
  datatype Query = Query(
    categorySlug: Option<string>,
    categoryId: Option<int>,
    inStock: bool,
    minPrice: Option<real>,
    maxPrice: Option<real>,
    featured: bool,
    isNew: bool,
    bestseller: bool,
    search: Option<string>,
    ordering: Option<string>)

  /**
   * An optional price bound, read as the DecimalField reads a lookup value:
   * absent or empty is `Ok(None)`, a value that is not a finite decimal an
   * error naming the parameter.
   */
  function NumberParam(params: Params, name: string): (r: Result<Option<real>, string>)
    ensures r.Err? <==> Supplied(params, name) && DecimalText(params[name]).None?
    ensures r.Err? ==> r.error == name
    ensures r.Ok? ==> (r.value.Some? <==> Supplied(params, name))
    ensures r.Ok? && r.value.Some? ==> DecimalText(params[name]) == r.value
  {
    if !Supplied(params, name) then Ok(None)
    else match DecimalText(params[name])
      case None => Err(name)
      case Some(x) => Ok(Some(x))
  }

  /** The ordering that applies: the parameter (default '-created_at') when it is allowed, otherwise none. */
  function OrderingOf(params: Params): (r: Option<string>)
    ensures r.Some? ==> r.value in Orderings
    ensures "ordering" !in params ==> r == Some("-created_at")
    ensures "ordering" in params ==> (r.Some? <==> params["ordering"] in Orderings)
  {
    var o := Param(params, "ordering").GetOr("-created_at");
    if o in Orderings then Some(o) else None
  }

  /**
   * The query the parameters ask for. The database rejects a category id
   * or a price that is not a number, which is the error here.
   */
  function ParseQuery(params: Params): Result<Query, string> {
    var id := if Supplied(params, "category_id") then IntLiteral(params["category_id"]) else None;
    if Supplied(params, "category_id") && id.None? then Err("category_id")
    else match NumberParam(params, "min_price")
      case Err(e) => Err(e)
      case Ok(lo) =>
        match NumberParam(params, "max_price")
        case Err(e) => Err(e)
        case Ok(hi) =>
          Ok(Query(
            if Supplied(params, "category") then Some(params["category"]) else None,
            id,
            Param(params, "in_stock") == Some("true"),
            lo, hi,
            Param(params, "is_featured") == Some("true"),
            Param(params, "is_new") == Some("true"),
            Param(params, "is_bestseller") == Some("true"),
            if Supplied(params, "search") then Some(params["search"]) else None,
            OrderingOf(params)))
  }

  /**
   * Each filter is switched on by its parameter alone: the flags only by
   * the exact text 'true', the bounds, the category and the search only by
   * a non-empty value.
   */
  lemma ParseQueryRules(params: Params)
    requires ParseQuery(params).Ok?
    ensures var q := ParseQuery(params).value;
      (q.inStock <==> Param(params, "in_stock") == Some("true"))
      && (q.featured <==> Param(params, "is_featured") == Some("true"))
      && (q.isNew <==> Param(params, "is_new") == Some("true"))
      && (q.bestseller <==> Param(params, "is_bestseller") == Some("true"))
      && (q.minPrice.Some? <==> Supplied(params, "min_price"))
      && (q.minPrice.Some? ==> DecimalText(params["min_price"]) == q.minPrice)
      && (q.maxPrice.Some? <==> Supplied(params, "max_price"))
      && (q.maxPrice.Some? ==> DecimalText(params["max_price"]) == q.maxPrice)
      && (q.categorySlug.Some? <==> Supplied(params, "category"))
      && (q.search.Some? <==> Supplied(params, "search"))
      && (q.search.Some? ==> q.search.value == params["search"] != "")
  {
  }

  /**
   * The query fails exactly when a supplied category id is not an integer
   * or a supplied price bound is not a finite decimal.
   */
  lemma ParseQueryFails(params: Params)
    ensures ParseQuery(params).Err? <==>
      (Supplied(params, "category_id") && IntLiteral(params["category_id"]).None?)
      || (Supplied(params, "min_price") && DecimalText(params["min_price"]).None?)
      || (Supplied(params, "max_price") && DecimalText(params["max_price"]).None?)
  {
  }

  /** Whether one of the product's categories has the id. */
  predicate HasCategoryId(cats: CategoryTable, p: Product, id: int) {
    exists c :: c in p.categories && c in cats && cats[c].id == id
  }

  /** The search filter of the listing: name, description, short description or SKU, case-insensitively. */
  predicate MatchesSearch(p: Product, term: string) {
    IContains(p.name, term) || IContains(p.description, term)
    || IContains(p.shortDescription, term) || IContains(p.sku, term)
  }

  /** The filter chain of `get_queryset`, one condition per filter. */
  predicate Passes(cats: CategoryTable, isStaff: bool, q: Query, p: Product) {
    (isStaff || p.isAvailable)
    && (q.categorySlug.Some? ==> q.categorySlug.value in p.categories)
    && (q.categoryId.Some? ==> HasCategoryId(cats, p, q.categoryId.value))
    && (q.inStock ==> p.stock > 0)
    && (q.minPrice.Some? ==> p.price >= q.minPrice.value)
    && (q.maxPrice.Some? ==> p.price <= q.maxPrice.value)
    && (q.featured ==> p.isFeatured)
    && (q.isNew ==> p.isNew)
    && (q.bestseller ==> p.isBestseller)
    && (q.search.Some? ==> MatchesSearch(p, q.search.value))
  }

  /** The products kept by the chain, in table order. */
  function Select(cats: CategoryTable, isStaff: bool, q: Query, products: seq<Product>): seq<Product> {
    if products == [] then []
    else (if Passes(cats, isStaff, q, products[0]) then [products[0]] else []) + Select(cats, isStaff, q, products[1..])
  }

  /**
   * The listing is exactly the products that pass every filter, in table
   * order, each once: staff see unavailable products too, everyone else
   * only available ones.
   */
  lemma {:induction false} SelectSpec(cats: CategoryTable, isStaff: bool, q: Query, products: seq<Product>)
    ensures forall p :: p in Select(cats, isStaff, q, products) <==> p in products && Passes(cats, isStaff, q, p)
    ensures |Select(cats, isStaff, q, products)| <= |products|
    ensures Distinct(products) ==> Distinct(Select(cats, isStaff, q, products))
    ensures !isStaff ==> forall p :: p in Select(cats, isStaff, q, products) ==> p.isAvailable
    decreases |products|
  {
    if products != [] {
      var head: seq<Product> := if Passes(cats, isStaff, q, products[0]) then [products[0]] else [];
      var rest := Select(cats, isStaff, q, products[1..]);
      SelectSpec(cats, isStaff, q, products[1..]);
      assert Select(cats, isStaff, q, products) == head + rest;
      assert products == [products[0]] + products[1..];
      if Distinct(products) {
        DistinctParts(products);
        DistinctPrepend(head, rest);
      }
    }
  }

  predicate Distinct(products: seq<Product>) {
    forall i, j :: 0 <= i < j < |products| ==> products[i] != products[j]
  }

  lemma DistinctParts(products: seq<Product>)
    requires Distinct(products) && products != []
    ensures Distinct(products[1..]) && products[0] !in products[1..]
  {
    forall i, j | 0 <= i < j < |products| - 1 ensures products[1..][i] != products[1..][j] {
      assert products[1..][i] == products[i + 1] && products[1..][j] == products[j + 1];
    }
  }

  lemma DistinctPrepend(head: seq<Product>, rest: seq<Product>)
    requires Distinct(rest) && |head| <= 1 && (head == [] || head[0] !in rest)
    ensures Distinct(head + rest)
  {
    forall i, j | 0 <= i < j < |head + rest| ensures (head + rest)[i] != (head + rest)[j] {
      if |head| == 1 && i == 0 {
        assert (head + rest)[j] == rest[j - 1] && rest[j - 1] in rest;
      } else {
        assert (head + rest)[i] == rest[i - |head|] && (head + rest)[j] == rest[j - |head|];
      }
    }
  }

  /**
   * `ProductViewSet.get_queryset`: the filtered products and the ordering
   * that applies, or the parameter whose number the database rejects.
   */
  function Listing(cats: CategoryTable, isStaff: bool, params: Params, products: seq<Product>): Result<(seq<Product>, Option<string>), string> {
    match ParseQuery(params)
    case Err(e) => Err(e)
    case Ok(q) => Ok((Select(cats, isStaff, q, products), q.ordering))
  }

  /**
   * The listing fails exactly on an unreadable category id or price bound;
   * otherwise it holds exactly the products that pass the query's filters
   * and carries the ordering that applies.
   */
  lemma ListingSpec(cats: CategoryTable, isStaff: bool, params: Params, products: seq<Product>)
    ensures var r := Listing(cats, isStaff, params, products);
      (r.Err? <==>
        (Supplied(params, "category_id") && IntLiteral(params["category_id"]).None?)
        || (Supplied(params, "min_price") && DecimalText(params["min_price"]).None?)
        || (Supplied(params, "max_price") && DecimalText(params["max_price"]).None?))
      && (r.Ok? ==>
            r.value.1 == OrderingOf(params)
            && |r.value.0| <= |products|
            && forall p :: p in r.value.0 <==> p in products && Passes(cats, isStaff, ParseQuery(params).value, p))
  {
    ParseQueryFails(params);
    if ParseQuery(params).Ok? {
      SelectSpec(cats, isStaff, ParseQuery(params).value, products);
    }
  }

  // ---------------------------------------------------------------------
  // Retrieve and search
  // ---------------------------------------------------------------------

  /** The first product satisfying the lookup, as `get_object_or_404` finds it (`None` is 404). */
  function FindById(products: seq<Product>, id: int, isStaff: bool): (r: Option<Product>)
    ensures r.Some? ==> r.value in products && r.value.id == id && (isStaff || r.value.isAvailable)
    ensures r.None? ==> forall p :: p in products && p.id == id ==> !isStaff && !p.isAvailable
  {
    if products == [] then None
    else if products[0].id == id && (isStaff || products[0].isAvailable) then Some(products[0])
    else FindById(products[1..], id, isStaff)
  }

  function FindBySlug(products: seq<Product>, slug: string, isStaff: bool): (r: Option<Product>)
    ensures r.Some? ==> r.value in products && r.value.slug == slug && (isStaff || r.value.isAvailable)
    ensures r.None? ==> forall p :: p in products && p.slug == slug ==> !isStaff && !p.isAvailable
  {
    if products == [] then None
    else if products[0].slug == slug && (isStaff || products[0].isAvailable) then Some(products[0])
    else FindBySlug(products[1..], slug, isStaff)
  }

  /**
   * `retrieve`: a lookup value that reads as an integer is a primary key,
   * anything else a slug; non-staff only see available products.
   */
  function Retrieve(products: seq<Product>, lookup: string, isStaff: bool): Option<Product> {
    match IntLiteral(lookup)
    case Some(id) => FindById(products, id, isStaff)
    case None => FindBySlug(products, lookup, isStaff)
  }

  /**
   * The lookup found is the product the value names: by id when the value
   * is an integer, by slug otherwise. A product whose slug is made of
   * digits is therefore reachable only through its id.
   */
  lemma RetrieveChoice(products: seq<Product>, lookup: string, isStaff: bool)
    ensures Retrieve(products, lookup, isStaff).Some? ==>
      Retrieve(products, lookup, isStaff).value in products
      && (isStaff || Retrieve(products, lookup, isStaff).value.isAvailable)
      && (if IntLiteral(lookup).Some? then Retrieve(products, lookup, isStaff).value.id == IntLiteral(lookup).value
          else Retrieve(products, lookup, isStaff).value.slug == lookup)
    ensures IsDigits(lookup) ==> Retrieve(products, lookup, isStaff) == FindById(products, DigitsValue(lookup) as int, isStaff)
  {
    if IsDigits(lookup) {
      StripDigits(lookup);
    }
  }

  datatype SearchResult = TooShort | Found(query: string, count: nat, results: seq<Product>)

  /** The search action's own filter: name, description or the name of one of the categories. */
  predicate MatchesTerm(cats: CategoryTable, p: Product, term: string) {
    IContains(p.name, term) || IContains(p.description, term)
    || exists c :: c in p.categories && c in cats && IContains(cats[c].name, term)
  }

  function FilterTerm(cats: CategoryTable, term: string, products: seq<Product>): seq<Product> {
    if products == [] then []
    else (if MatchesTerm(cats, products[0], term) then [products[0]] else []) + FilterTerm(cats, term, products[1..])
  }

  lemma {:induction false} FilterTermSpec(cats: CategoryTable, term: string, products: seq<Product>)
    ensures forall p :: p in FilterTerm(cats, term, products) <==> p in products && MatchesTerm(cats, p, term)
    decreases |products|
  {
    if products != [] {
      FilterTermSpec(cats, term, products[1..]);
      assert products == [products[0]] + products[1..];
    }
  }

  /**
   * `search`: a query `q` (default '') shorter than 2 characters is
   * refused; otherwise the listing (with all its own filters) narrowed to
   * the term, at most 20 products.
   */
  function Search(cats: CategoryTable, isStaff: bool, params: Params, products: seq<Product>): Result<SearchResult, string> {
    var term := Param(params, "q").GetOr("");
    if |term| < 2 then Ok(TooShort)
    else match Listing(cats, isStaff, params, products)
      case Err(e) => Err(e)
      case Ok(listing) =>
        var r := Take20(FilterTerm(cats, term, listing.0));
        Ok(Found(term, |r|, r))
  }

  function Take20(s: seq<Product>): (r: seq<Product>)
    ensures |r| <= 20 && |r| <= |s| && r == s[..|r|]
    ensures |s| <= 20 ==> r == s
  {
    if |s| <= 20 then s else s[..20]
  }

  /**
   * A search of at least 2 characters answers at most 20 products, each
   * matching the term and passing every listing filter, with the count
   * equal to the number of results.
   */
  lemma SearchResults(cats: CategoryTable, isStaff: bool, params: Params, products: seq<Product>)
    ensures |Param(params, "q").GetOr("")| < 2 ==> Search(cats, isStaff, params, products) == Ok(TooShort)
    ensures Search(cats, isStaff, params, products).Ok? && Search(cats, isStaff, params, products).value.Found? ==>
      var f := Search(cats, isStaff, params, products).value;
      |f.query| >= 2 && f.count == |f.results| <= 20
      && ParseQuery(params).Ok?
      && forall p :: p in f.results ==>
           p in products && MatchesTerm(cats, p, f.query) && Passes(cats, isStaff, ParseQuery(params).value, p)
  {
    var term := Param(params, "q").GetOr("");
    if |term| >= 2 && ParseQuery(params).Ok? {
      var q := ParseQuery(params).value;
      var listing := Select(cats, isStaff, q, products);
      SelectSpec(cats, isStaff, q, products);
      FilterTermSpec(cats, term, listing);
      var r := Take20(FilterTerm(cats, term, listing));
      forall p | p in r ensures p in FilterTerm(cats, term, listing) {
        var k :| 0 <= k < |r| && r[k] == p;
        assert FilterTerm(cats, term, listing)[k] == p;
      }
    }
  }

  // ---------------------------------------------------------------------
  // Breadcrumbs
  // ---------------------------------------------------------------------

  datatype Crumb = Crumb(id: nat, name: string, slug: string)

  function CrumbsOf(cats: CategoryTable, slugs: seq<string>): (crumbs: seq<Crumb>)
    requires forall i :: 0 <= i < |slugs| ==> slugs[i] in cats
    ensures |crumbs| == |slugs|
    ensures forall i :: 0 <= i < |slugs| ==> crumbs[i] == Crumb(cats[slugs[i]].id, cats[slugs[i]].name, slugs[i])
  {
    seq(|slugs|, i requires 0 <= i < |slugs| => Crumb(cats[slugs[i]].id, cats[slugs[i]].name, slugs[i]))
  }

  lemma CrumbStep(cats: CategoryTable, rank: map<string, nat>, c: string, crumbs: seq<Crumb>)
    requires Forest(cats, rank) && c in cats
    ensures CrumbsOf(cats, AncestryFrom(cats, rank, Some(c))) + Reverse(crumbs)
         == CrumbsOf(cats, AncestryFrom(cats, rank, cats[c].parent)) + Reverse(crumbs + [Crumb(cats[c].id, cats[c].name, c)])
  {
    var up := AncestryFrom(cats, rank, cats[c].parent);
    assert Ancestry(cats, rank, c) == up + [c];
    assert CrumbsOf(cats, up + [c]) == CrumbsOf(cats, up) + [Crumb(cats[c].id, cats[c].name, c)];
    ReverseSnoc(crumbs, Crumb(cats[c].id, cats[c].name, c));
  }

  /**
   * The crumbs of a category run from a root down to the category, each
   * the parent of the next.
   */
  lemma CrumbsChain(cats: CategoryTable, rank: map<string, nat>, s: string)
    requires Forest(cats, rank) && s in cats
    ensures var crumbs := CrumbsOf(cats, Ancestry(cats, rank, s));
      |crumbs| >= 1 && crumbs[|crumbs| - 1].slug == s && crumbs[|crumbs| - 1].name == cats[s].name
      && cats[crumbs[0].slug].parent.None?
      && forall i :: 0 < i < |crumbs| ==> cats[crumbs[i].slug].parent == Some(crumbs[i - 1].slug)
  {
  }

  /**
   * `_get_breadcrumbs`: walks from the category up its parents, then
   * reverses: the crumbs run from a root down to the category, each the
   * parent of the next.
   */
  method GetBreadcrumbs(cats: CategoryTable, ghost rank: map<string, nat>, s: string) returns (crumbs: seq<Crumb>)
    requires Forest(cats, rank) && s in cats
    ensures crumbs == CrumbsOf(cats, Ancestry(cats, rank, s))
  {
    var walked: seq<Crumb> := [];
    var current: Option<string> := Some(s);
    while current.Some?
      invariant current.Some? ==> current.value in cats
      invariant CrumbsOf(cats, Ancestry(cats, rank, s)) == CrumbsOf(cats, AncestryFrom(cats, rank, current)) + Reverse(walked)
      decreases if current.Some? then rank[current.value] + 1 else 0
    {
      var c := current.value;
      CrumbStep(cats, rank, c, walked);
      walked := walked + [Crumb(cats[c].id, cats[c].name, c)];
      current := cats[c].parent;
    }
    assert CrumbsOf(cats, AncestryFrom(cats, rank, current)) == [];
    crumbs := Reverse(walked);
    assert crumbs == CrumbsOf(cats, Ancestry(cats, rank, s));
  }
}
