/** app/api/users/route.ts: `GET` lists customer accounts with search and pagination, without
    their password hashes. */
module UsersApi {
  import opened Wrappers
  import opened Text
  import opened Time
  import opened Http
  import opened ListQuery
  import opened UserModel

  datatype Query = Query(page: Option<int>, limit: Option<int>, search: string)

  predicate WellFormed(q: Query) {
    PageParam(q.page) >= 1 && LimitParam(q.limit) >= 1
  }

  /** A user as `.select("-password")` returns it: every field but the password. */
  datatype PublicUser = PublicUser(
    id: string,
    firstname: string,
    lastname: string,
    email: string,
    phone: string,
    address: string,
    city: string,
    zip: Option<string>,
    country: Option<string>,
    createdAt: Instant)

  function Public(u: User): PublicUser {
    PublicUser(u.id, u.firstname, u.lastname, u.email, u.phone, u.address, u.city, u.zip,
               u.country, u.createdAt)
  }

  /** The returned record together with the password it left out is the stored user again:
      `select("-password")` drops that one field and nothing else. */
  lemma PublicDropsOnlyPassword(u: User)
    ensures var p := Public(u);
      User(p.id, p.firstname, p.lastname, p.email, p.phone, p.address, p.city, p.zip, p.country,
           u.password, p.createdAt) == u
    ensures forall h :: Public(u.(password := h)) == Public(u)
  {
  }

  /** `searchQuery`: the text to look for, or `{}` (no constraint) for an empty search. */
  function SearchQuery(search: string): Option<string> {
    if search != "" then Some(search) else None
  }

  /** The `$or` clause: first name, last name, email or phone contains the search, ignoring case. */
  predicate TextMatches(search: string, u: User) {
    ContainsIgnoreCase(u.firstname, search) || ContainsIgnoreCase(u.lastname, search) ||
    ContainsIgnoreCase(u.email, search) || ContainsIgnoreCase(u.phone, search)
  }

  predicate QueryMatches(sq: Option<string>, u: User) {
    sq.None? || TextMatches(sq.value, u)
  }

  function Matcher(search: string): User -> bool {
    u => QueryMatches(SearchQuery(search), u)
  }

  /** `.sort({ createdAt: -1 })`: newest account first. */
  function NewestFirst(u: User): int {
    -(Rank(u.createdAt) as int)
  }

  datatype ListResponse = ListUnauthorized | Listed(users: seq<PublicUser>, pagination: Pagination) {
    function Code(): int {
      if ListUnauthorized? then 401 else 200
    }
  }

  function PublicAll(us: seq<User>): (r: seq<PublicUser>)
    ensures |r| == |us|
    ensures forall i :: 0 <= i < |us| ==> r[i] == Public(us[i])
  {
    seq(|us|, i requires 0 <= i < |us| => Public(us[i]))
  }

  /** `GET /api/users`. */
  function Get(session: Session, q: Query, db: seq<User>): (r: ListResponse)
    requires WellFormed(q)
    ensures !SignedIn(session) <==> r == ListUnauthorized
    ensures r.Listed? ==>
      var page, limit := PageParam(q.page), LimitParam(q.limit);
      && r.pagination.total == |Filter(db, Matcher(q.search))|
      && r.pagination.page == page && r.pagination.limit == limit
      && r.pagination.totalPages == TotalPages(r.pagination.total, limit)
      && |r.users| <= limit
      && (forall i, j :: 0 <= i < j < |r.users| ==> Rank(r.users[i].createdAt) >= Rank(r.users[j].createdAt))
      && (forall i :: 0 <= i < |r.users| ==> PublicOfMatch(db, q.search, r.users[i]))
      && (r.users == [] <==> Skip(page, limit) >= r.pagination.total)
    ensures r.Listed? ==>
      var found := Run(db, Matcher(q.search), NewestFirst, PageParam(q.page), LimitParam(q.limit));
      r == Listed(PublicAll(found.items), found.pagination)
  {
    if !SignedIn(session) then ListUnauthorized
    else
      var page, limit := PageParam(q.page), LimitParam(q.limit);
      var found := Run(db, Matcher(q.search), NewestFirst, page, limit);
      RunPagination(db, Matcher(q.search), NewestFirst, page, limit);
      RunItems(db, Matcher(q.search), NewestFirst, page, limit);
      RunPastTheEnd(db, Matcher(q.search), NewestFirst, page, limit);
      SortedNewestFirst(found.items);
      PublicOfMatches(db, q.search, found.items);
      Listed(PublicAll(found.items), found.pagination)
  }

  /** `p` is the public record of a user of `db` that the search matches. */
  predicate PublicOfMatch(db: seq<User>, search: string, p: PublicUser) {
    exists u :: u in db && QueryMatches(SearchQuery(search), u) && p == Public(u)
  }

  /** Every public record of a selection of matching users is the public record of a matching
      user of the collection. */
  lemma PublicOfMatches(db: seq<User>, search: string, items: seq<User>)
    requires forall x :: x in items ==> x in db && Matcher(search)(x)
    ensures forall i :: 0 <= i < |items| ==> PublicOfMatch(db, search, PublicAll(items)[i])
  {
    forall i | 0 <= i < |items| ensures PublicOfMatch(db, search, PublicAll(items)[i]) {
      var u := items[i];
      assert u in items;
      assert u in db && QueryMatches(SearchQuery(search), u) && PublicAll(items)[i] == Public(u);
    }
  }

  lemma SortedNewestFirst(us: seq<User>)
    requires SortedBy(us, NewestFirst)
    ensures forall i, j :: 0 <= i < j < |us| ==> Rank(Public(us[i]).createdAt) >= Rank(Public(us[j]).createdAt)
  {
    forall i, j | 0 <= i < j < |us| ensures Rank(us[i].createdAt) >= Rank(us[j].createdAt) {
      assert NewestFirst(us[i]) <= NewestFirst(us[j]);
    }
  }

  /** An empty search is the empty filter, so `total` is the size of the whole collection. */
  lemma EmptySearchCountsAll(session: Session, q: Query, db: seq<User>)
    requires WellFormed(q) && SignedIn(session) && q.search == ""
    ensures Get(session, q, db).pagination.total == |db|
  {
    FilterAll(db, Matcher(q.search));
  }
}
