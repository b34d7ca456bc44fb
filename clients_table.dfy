/** The clients table (components/clients-table.tsx): its rows, the per-row actions and the
    pagination buttons. */
module ClientsTable {
  import opened ListQuery
  import opened UsersApi

  /** The table body: one row per user, or a single placeholder row across all columns. */
  datatype Body = Rows(users: seq<PublicUser>) | Placeholder(text: string, colSpan: nat)

  const NoClient: string := "Aucun client trouvé."

  /** Lines 72-125. */
  function TableBody(data: seq<PublicUser>, columns: nat): (r: Body)
    ensures data == [] <==> r == Placeholder(NoClient, columns)
    ensures data != [] ==> r == Rows(data)
  {
    if |data| > 0 then Rows(data) else Placeholder(NoClient, columns)
  }

  /** What a row's buttons hand to the page. */
  datatype RowAction = View(user: PublicUser) | Delete(userId: string)

  /** Lines 83-100: view passes the row itself, delete the row's `_id`. */
  function RowActions(u: PublicUser): (r: seq<RowAction>)
    ensures |r| == 2 && r[0] == View(u) && r[1] == Delete(u.id)
  {
    [View(u), Delete(u.id)]
  }

  /** Lines 135-153: the page each button asks for, and whether it is disabled. */
  datatype Button = Button(target: int, disabled: bool)

  function Previous(p: Pagination): (b: Button)
    ensures b.target == p.page - 1 && (b.disabled <==> p.page == 1)
  {
    Button(p.page - 1, p.page == 1)
  }

  function Next(p: Pagination): (b: Button)
    ensures b.target == p.page + 1 && (b.disabled <==> p.page == p.totalPages)
  {
    Button(p.page + 1, p.page == p.totalPages)
  }

  /** On a pagination block the list engine produced, "Previous" is enabled exactly past page 1
      and then asks for a page numbered at least 1, which exists whenever the current page does;
      "Next" is disabled on the last page. */
  lemma ButtonsOnServedPages<T>(db: seq<T>, matches: T -> bool, key: T -> int, page: int, limit: int)
    requires page >= 1 && limit >= 1
    ensures var p := Run(db, matches, key, page, limit).pagination;
      (!Previous(p).disabled <==> page > 1) &&
      (!Previous(p).disabled ==> Previous(p).target >= 1) &&
      (!Previous(p).disabled && page <= p.totalPages ==> Previous(p).target <= p.totalPages) &&
      (p.totalPages >= 1 && page == p.totalPages ==> Next(p).disabled)
  {
  }

  /** With no matching user there are no pages at all, yet "Next" stays enabled on page 1 and
      asks for page 2, which is empty again. */
  lemma NextEnabledWithoutPages<T>(db: seq<T>, matches: T -> bool, key: T -> int, limit: int)
    requires limit >= 1 && Filter(db, matches) == []
    ensures var p := Run(db, matches, key, 1, limit).pagination;
      p.totalPages == 0 && !Next(p).disabled && Next(p).target == 2 &&
      Run(db, matches, key, 2, limit).items == []
  {
    RunPastTheEnd(db, matches, key, 2, limit);
  }
}
