/** app/api/products/route.ts: `GET` lists products with search, category filter and
    pagination; `POST` creates a product. */
module ProductsApi {
  import opened Wrappers
  import opened Text
  import opened Time
  import opened Http
  import opened ListQuery
  import opened ProductModel

  /** The query string: `page` and `limit` absent or numbers, `search` and `category` absent
      (as "") or strings. */
  datatype Query = Query(page: Option<int>, limit: Option<int>, search: string, category: string)

  /** Page and limit resolve to positive integers. */
  predicate WellFormed(q: Query) {
    PageParam(q.page) >= 1 && LimitParam(q.limit) >= 1
  }

  /** The `filter` object: an optional `$or` of text clauses and an optional `category`. */
  datatype ProductFilter = ProductFilter(text: Option<string>, category: Option<string>)

  predicate FieldMatches(field: Option<string>, search: string) {
    field.Some? && ContainsIgnoreCase(field.value, search)
  }

  /** The `$or` clause: title, description, brand or sku contains the search, ignoring case. */
  predicate TextMatches(search: string, p: Product) {
    ContainsIgnoreCase(p.title, search) || FieldMatches(p.description, search) ||
    FieldMatches(p.brand, search) || FieldMatches(p.sku, search)
  }

  predicate FilterMatches(f: ProductFilter, p: Product) {
    (f.text.None? || TextMatches(f.text.value, p)) &&
    (f.category.None? || p.category == f.category.value)
  }

  /** What a query asks for: an empty search imposes nothing, and so does a category that is
      empty or "all"; any other category must equal the product's exactly. */
  predicate Selects(q: Query, p: Product) {
    (q.search == "" || TextMatches(q.search, p)) &&
    (q.category == "" || q.category == "all" || p.category == q.category)
  }

  function Selector(q: Query): Product -> bool {
    p => Selects(q, p)
  }

  /** `.sort({ updatedAt: -1 })`: most recently updated first. */
  function NewestUpdateFirst(p: Product): int {
    -(Rank(p.updatedAt) as int)
  }

  /** Lines 25-36: start from `{}` and add the clauses the query calls for. */
  method BuildFilter(q: Query) returns (f: ProductFilter)
    ensures forall p :: FilterMatches(f, p) <==> Selects(q, p)
    ensures f.text.Some? <==> q.search != ""
    ensures f.category.Some? <==> q.category != "" && q.category != "all"
  {
    f := ProductFilter(None, None);
    if q.search != "" {
      f := f.(text := Some(q.search));
    }
    if q.category != "" && q.category != "all" {
      f := f.(category := Some(q.category));
    }
  }

  datatype ListResponse = ListUnauthorized | Listed(page: Page<Product>) {
    function Code(): int {
      if ListUnauthorized? then 401 else 200
    }
  }

  /** `GET /api/products`. Without a session: 401 and no query. Otherwise the page of matching
      products, newest update first, and the pagination block. */
  method Get(session: Session, q: Query, db: seq<Product>) returns (r: ListResponse)
    requires WellFormed(q)
    ensures !SignedIn(session) ==> r == ListUnauthorized
    ensures SignedIn(session) ==>
      r == Listed(Run(db, Selector(q), NewestUpdateFirst, PageParam(q.page), LimitParam(q.limit)))
    ensures r.Listed? ==>
      var page, limit := PageParam(q.page), LimitParam(q.limit);
      var items := r.page.items;
      && r.page.pagination.total == |Filter(db, Selector(q))|
      && r.page.pagination.page == page && r.page.pagination.limit == limit
      && r.page.pagination.totalPages == TotalPages(r.page.pagination.total, limit)
      && |items| <= limit
      && (forall i, j :: 0 <= i < j < |items| ==> Rank(items[i].updatedAt) >= Rank(items[j].updatedAt))
      && (forall p :: p in items ==> p in db && Selects(q, p))
      && (items == [] <==> Skip(page, limit) >= r.page.pagination.total)
  {
    if !SignedIn(session) {
      return ListUnauthorized;
    }
    var page, limit := PageParam(q.page), LimitParam(q.limit);
    var filter := BuildFilter(q);
    FilterExt(db, p => FilterMatches(filter, p), Selector(q));
    r := Listed(Run(db, p => FilterMatches(filter, p), NewestUpdateFirst, page, limit));
    RunPagination(db, Selector(q), NewestUpdateFirst, page, limit);
    RunItems(db, Selector(q), NewestUpdateFirst, page, limit);
    RunPastTheEnd(db, Selector(q), NewestUpdateFirst, page, limit);
    var items := r.page.items;
    forall i, j | 0 <= i < j < |items| ensures Rank(items[i].updatedAt) >= Rank(items[j].updatedAt) {
      assert NewestUpdateFirst(items[i]) <= NewestUpdateFirst(items[j]);
    }
  }

  /** With an empty search and no category, every product is counted. */
  lemma NoCriteriaCountsAll(db: seq<Product>, q: Query)
    requires WellFormed(q) && q.search == "" && (q.category == "" || q.category == "all")
    ensures Run(db, Selector(q), NewestUpdateFirst, PageParam(q.page), LimitParam(q.limit)).pagination.total == |db|
  {
    MatchAllCountsEverything(db, Selector(q), NewestUpdateFirst, PageParam(q.page), LimitParam(q.limit));
  }

  /** Absent `page` and `limit` mean page 1 of 10, which starts at the first product. */
  lemma DefaultsArePageOneOfTen(q: Query)
    requires q.page.None? && q.limit.None?
    ensures WellFormed(q) && PageParam(q.page) == 1 && LimitParam(q.limit) == 10
    ensures Skip(PageParam(q.page), LimitParam(q.limit)) == 0
  {
  }

  // ---------------------------------------------------------------- POST

  datatype CreateResponse = CreateUnauthorized | Created(product: Product) | CreateFailed {
    function Code(): int {
      match this
      case CreateUnauthorized => 401
      case Created(_) => 201
      case CreateFailed => 500
    }
  }

  /** The products collection: every stored product passes the schema and skus are unique. */
  class ProductStore {
    var products: seq<Product>

    ghost predicate Valid()
      reads this
    {
      (forall i :: 0 <= i < |products| ==> ProductModel.Valid(products[i])) && SkusUnique(products)
    }

    constructor ()
      ensures Valid() && products == []
    {
      products := [];
    }

    /** `POST /api/products`: 401 without a session; otherwise `Product.create(body)`, which
        answers 201 with the stored product, or 500 when validation or the sku index refuses it.
        `id` and `now` are what the database assigns. */
    method Post(session: Session, body: ProductDraft, id: string, now: Instant) returns (r: CreateResponse)
      requires Valid()
      modifies this
      ensures Valid()
      ensures !SignedIn(session) ==> r == CreateUnauthorized
      ensures SignedIn(session) && Create(body, id, now).Some? && SkuFree(old(products), Create(body, id, now).value) ==>
        r == Created(Create(body, id, now).value)
      ensures SignedIn(session) && (Create(body, id, now).None? || !SkuFree(old(products), Create(body, id, now).value)) ==>
        r == CreateFailed
      ensures r.Created? ==> products == old(products) + [r.product]
      ensures !r.Created? ==> products == old(products)
    {
      if !SignedIn(session) {
        return CreateUnauthorized;
      }
      var created := Create(body, id, now);
      if created.None? || !SkuFree(products, created.value) {
        return CreateFailed;
      }
      InsertKeepsSkusUnique(products, created.value);
      products := products + [created.value];
      r := Created(created.value);
    }
  }
}
