/** The list engine shared by the products, orders and users endpoints: resolve `page` and
    `limit`, select the matching records, sort them with a fixed key, skip
    `(page - 1) * limit` of them, keep at most `limit`, and report the pagination block
    `{ total, page, limit, totalPages }` with `totalPages = ceil(total / limit)`.
    The database is an in-memory sequence of records. */
module ListQuery {
  import opened Wrappers

  const DefaultPage: int := 1
  const DefaultLimit: int := 10

  /** `parseInt(searchParams.get("page") || "1")` on a parameter that is absent or a number. */
  function PageParam(page: Option<int>): int {
    page.GetOr(DefaultPage)
  }

  /** `parseInt(searchParams.get("limit") || "10")` on a parameter that is absent or a number. */
  function LimitParam(limit: Option<int>): int {
    limit.GetOr(DefaultLimit)
  }

  datatype Pagination = Pagination(total: nat, page: int, limit: int, totalPages: nat)

  function Min(a: int, b: int): int {
    if a <= b then a else b
  }

  function Skip(page: int, limit: int): nat
    requires page >= 1 && limit >= 1
  {
    (page - 1) * limit
  }

  /** `Math.ceil(total / limit)`: the least number of pages of `limit` records that hold `total`. */
  function TotalPages(total: nat, limit: int): (r: nat)
    requires limit >= 1
    ensures r * limit >= total
    ensures r > 0 ==> (r - 1) * limit < total
    ensures r == 0 <==> total == 0
  {
    var q := (total + limit - 1) / limit;
    var m := (total + limit - 1) % limit;
    assert q * limit + m == total + limit - 1 && 0 <= m < limit;
    assert (q - 1) * limit == q * limit - limit;
    q
  }

  // ---------------------------------------------------------------- selection

  /** `find(filter)` / `countDocuments(filter)`: the records that satisfy the filter, in storage order. */
  function Filter<T>(s: seq<T>, p: T -> bool): (r: seq<T>)
    ensures |r| <= |s|
    ensures forall x :: x in r ==> x in s && p(x)
  {
    if s == [] then []
    else (if p(s[0]) then [s[0]] else []) + Filter(s[1..], p)
  }

  /** Nothing that satisfies the filter is dropped. */
  lemma {:induction false} FilterComplete<T>(s: seq<T>, p: T -> bool, x: T)
    requires x in s && p(x)
    ensures x in Filter(s, p)
  {
    if s[0] != x {
      FilterComplete(s[1..], p, x);
    }
  }

  /** A filter every record satisfies selects the whole collection. */
  lemma {:induction false} FilterAll<T>(s: seq<T>, p: T -> bool)
    requires forall x :: x in s ==> p(x)
    ensures Filter(s, p) == s
  {
    if s != [] {
      FilterAll(s[1..], p);
    }
  }

  /** Two filters that agree on every record select the same records. */
  lemma {:induction false} FilterExt<T>(s: seq<T>, p: T -> bool, q: T -> bool)
    requires forall x :: p(x) == q(x)
    ensures Filter(s, p) == Filter(s, q)
  {
    if s != [] {
      FilterExt(s[1..], p, q);
    }
  }

  /** Filtering distributes over concatenation, so it keeps the relative order of the
      records it selects. */
  lemma {:induction false} FilterConcat<T>(a: seq<T>, b: seq<T>, p: T -> bool)
    ensures Filter(a + b, p) == Filter(a, p) + Filter(b, p)
  {
    if a == [] {
      assert a + b == b;
    } else {
      var c := a + b;
      assert c[0] == a[0] && c[1..] == a[1..] + b;
      FilterConcat(a[1..], b, p);
      var h := if p(a[0]) then [a[0]] else [];
      assert Filter(c, p) == h + (Filter(a[1..], p) + Filter(b, p));
      assert Filter(a, p) == h + Filter(a[1..], p);
    }
  }

  // ---------------------------------------------------------------- sorting

  /** Non-decreasing by `key`. A descending sort is an ascending sort by the negated key. */
  predicate SortedBy<T>(s: seq<T>, key: T -> int) {
    forall i, j :: 0 <= i < j < |s| ==> key(s[i]) <= key(s[j])
  }

  function Insert<T>(x: T, s: seq<T>, key: T -> int): seq<T> {
    if s == [] || key(x) <= key(s[0]) then [x] + s
    else [s[0]] + Insert(x, s[1..], key)
  }

  /** `.sort({ field: ±1 })`: a stable insertion sort by an integer key. */
  function SortBy<T>(s: seq<T>, key: T -> int): seq<T> {
    if s == [] then [] else Insert(s[0], SortBy(s[1..], key), key)
  }

  /** Every record of `s` has a key of at least `k`. */
  predicate KeysAtLeast<T>(s: seq<T>, key: T -> int, k: int) {
    forall i :: 0 <= i < |s| ==> key(s[i]) >= k
  }

  lemma {:induction false} InsertKeysAtLeast<T>(x: T, s: seq<T>, key: T -> int, k: int)
    requires key(x) >= k && KeysAtLeast(s, key, k)
    ensures KeysAtLeast(Insert(x, s, key), key, k)
  {
    if s != [] && key(x) > key(s[0]) {
      InsertKeysAtLeast(x, s[1..], key, k);
    }
  }

  /** A record whose key is at most every key of a sorted sequence can go in front of it. */
  lemma ConsSorted<T>(x: T, s: seq<T>, key: T -> int)
    requires SortedBy(s, key) && KeysAtLeast(s, key, key(x))
    ensures SortedBy([x] + s, key)
  {
    var r := [x] + s;
    forall i, j | 0 <= i < j < |r| ensures key(r[i]) <= key(r[j]) {
      assert r[j] == s[j - 1];
      if i > 0 {
        assert r[i] == s[i - 1];
      }
    }
  }

  lemma {:induction false} InsertSorted<T>(x: T, s: seq<T>, key: T -> int)
    requires SortedBy(s, key)
    ensures SortedBy(Insert(x, s, key), key)
  {
    if s == [] || key(x) <= key(s[0]) {
      assert KeysAtLeast(s, key, key(x));
      ConsSorted(x, s, key);
    } else {
      InsertSorted(x, s[1..], key);
      assert KeysAtLeast(s[1..], key, key(s[0]));
      InsertKeysAtLeast(x, s[1..], key, key(s[0]));
      ConsSorted(s[0], Insert(x, s[1..], key), key);
    }
  }

  /** Inserting adds exactly the one record. */
  lemma {:induction false} InsertPerm<T>(x: T, s: seq<T>, key: T -> int)
    ensures multiset(Insert(x, s, key)) == multiset(s) + multiset{x}
    ensures |Insert(x, s, key)| == |s| + 1
  {
    if s != [] && key(x) > key(s[0]) {
      InsertPerm(x, s[1..], key);
      assert s == [s[0]] + s[1..];
    }
  }

  lemma {:induction false} SortBySorted<T>(s: seq<T>, key: T -> int)
    ensures SortedBy(SortBy(s, key), key)
  {
    if s != [] {
      SortBySorted(s[1..], key);
      InsertSorted(s[0], SortBy(s[1..], key), key);
    }
  }

  lemma {:induction false} SortByPerm<T>(s: seq<T>, key: T -> int)
    ensures multiset(SortBy(s, key)) == multiset(s)
    ensures |SortBy(s, key)| == |s|
  {
    if s != [] {
      SortByPerm(s[1..], key);
      InsertPerm(s[0], SortBy(s[1..], key), key);
      assert s == [s[0]] + s[1..];
    }
  }

  /** Sorting yields a non-decreasing permutation of its input. */
  lemma SortBySpec<T>(s: seq<T>, key: T -> int)
    ensures SortedBy(SortBy(s, key), key)
    ensures multiset(SortBy(s, key)) == multiset(s)
    ensures |SortBy(s, key)| == |s|
  {
    SortBySorted(s, key);
    SortByPerm(s, key);
  }

  // ---------------------------------------------------------------- paging

  /** `.skip(skip).limit(limit)`: at most `limit` records, starting at position `skip`. */
  function Window<T>(s: seq<T>, skip: nat, limit: nat): (r: seq<T>)
    ensures |r| <= limit
    ensures skip >= |s| ==> r == []
    ensures skip < |s| ==> |r| == Min(limit, |s| - skip)
    ensures forall i :: 0 <= i < |r| ==> skip + i < |s| && r[i] == s[skip + i]
  {
    var lo := Min(skip, |s|);
    s[lo..Min(lo + limit, |s|)]
  }

  datatype Page<T> = Page(items: seq<T>, pagination: Pagination)

  /** One list request over `db`: count the matches, sort them, cut out the requested page. */
  function Run<T>(db: seq<T>, matches: T -> bool, key: T -> int, page: int, limit: int): Page<T>
    requires page >= 1 && limit >= 1
  {
    var found := Filter(db, matches);
    Page(Window(SortBy(found, key), Skip(page, limit), limit),
         Pagination(|found|, page, limit, TotalPages(|found|, limit)))
  }

  lemma WindowSorted<T>(s: seq<T>, skip: nat, limit: nat, key: T -> int)
    requires SortedBy(s, key)
    ensures SortedBy(Window(s, skip, limit), key)
  {
    var w := Window(s, skip, limit);
    forall i, j | 0 <= i < j < |w| ensures key(w[i]) <= key(w[j]) {
      assert w[i] == s[skip + i] && w[j] == s[skip + j];
    }
  }

  /** The pagination block counts every match whatever the page, echoes `page` and `limit`
      and reports `ceil(total / limit)` pages. */
  lemma RunPagination<T>(db: seq<T>, matches: T -> bool, key: T -> int, page: int, limit: int)
    requires page >= 1 && limit >= 1
    ensures var p := Run(db, matches, key, page, limit).pagination;
      p.total == |Filter(db, matches)| && p.page == page && p.limit == limit &&
      p.totalPages * limit >= p.total && (p.totalPages > 0 ==> (p.totalPages - 1) * limit < p.total)
  {
  }

  /** At most `limit` records, in key order, each a matching record of the collection. */
  lemma RunItems<T>(db: seq<T>, matches: T -> bool, key: T -> int, page: int, limit: int)
    requires page >= 1 && limit >= 1
    ensures var items := Run(db, matches, key, page, limit).items;
      |items| <= limit && SortedBy(items, key) &&
      forall x :: x in items ==> x in db && matches(x)
  {
    var found := Filter(db, matches);
    var sorted := SortBy(found, key);
    SortBySpec(found, key);
    WindowSorted(sorted, Skip(page, limit), limit, key);
    var items := Run(db, matches, key, page, limit).items;
    forall x | x in items ensures x in db && matches(x) {
      var i :| 0 <= i < |items| && items[i] == x;
      assert sorted[Skip(page, limit) + i] == x;
      assert x in multiset(sorted);
    }
  }

  /** The page is empty exactly when `skip` reaches the total, in particular for every page past
      the last one. */
  lemma RunPastTheEnd<T>(db: seq<T>, matches: T -> bool, key: T -> int, page: int, limit: int)
    requires page >= 1 && limit >= 1
    ensures var r := Run(db, matches, key, page, limit);
      (r.items == [] <==> Skip(page, limit) >= r.pagination.total) &&
      (page > r.pagination.totalPages ==> r.items == [])
  {
    var found := Filter(db, matches);
    SortBySpec(found, key);
    var tp := TotalPages(|found|, limit);
    if page > tp {
      MulMonotone(page - 1, tp, limit);
    }
  }

  lemma MulMonotone(a: int, b: int, c: int)
    requires a >= b && c >= 0
    ensures a * c >= b * c
  {
    assert a * c - b * c == (a - b) * c;
  }

  /** Page 1 starts at the first record in key order. */
  lemma FirstPageStartsAtFirst<T>(db: seq<T>, matches: T -> bool, key: T -> int, limit: int)
    requires limit >= 1 && Filter(db, matches) != []
    ensures Run(db, matches, key, 1, limit).items != []
    ensures Run(db, matches, key, 1, limit).items[0] == SortBy(Filter(db, matches), key)[0]
  {
    SortBySpec(Filter(db, matches), key);
  }

  /** Searching with a filter every record meets counts the whole collection. */
  lemma MatchAllCountsEverything<T>(db: seq<T>, matches: T -> bool, key: T -> int, page: int, limit: int)
    requires page >= 1 && limit >= 1
    requires forall x :: matches(x)
    ensures Run(db, matches, key, page, limit).pagination.total == |db|
  {
    FilterAll(db, matches);
  }

  /** 25 matches, `page = 2`, `limit = 10`: records 11 to 20 in key order and
      `{ total: 25, page: 2, limit: 10, totalPages: 3 }`. */
  lemma SecondPageOfTwentyFive<T>(db: seq<T>, matches: T -> bool, key: T -> int)
    requires |Filter(db, matches)| == 25
    ensures var sorted := SortBy(Filter(db, matches), key);
      |sorted| == 25 && Run(db, matches, key, 2, 10).items == sorted[10..20]
    ensures Run(db, matches, key, 2, 10).pagination == Pagination(25, 2, 10, 3)
  {
    SortBySpec(Filter(db, matches), key);
    var r := Run(db, matches, key, 2, 10);
    assert |r.items| == 10;
  }
}
