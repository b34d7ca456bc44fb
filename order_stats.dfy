/** app/api/orders/stats/route.ts: three aggregate views of the orders collection (by status,
    by calendar month over a six-month window, by shipping zone), each a count and a summed
    `total` per group, normalised for the dashboard. */
module OrderStats {
  import opened Wrappers
  import opened Text
  import opened Time
  import opened Http
  import opened ListQuery
  import opened OrderModel

  /** One `$group` result: `{ _id: key, count, totalAmount }`. */
  datatype Group<K> = Group(key: K, count: nat, totalAmount: int)

  // ---------------------------------------------------------------- reference counts

  /** How many orders have group key `k`. */
  function CountKey<K(==)>(os: seq<Order>, key: Order -> K, k: K): nat {
    if os == [] then 0 else (if key(os[0]) == k then 1 else 0) + CountKey(os[1..], key, k)
  }

  /** The sum of `total` over the orders with group key `k`. */
  function SumKey<K(==)>(os: seq<Order>, key: Order -> K, k: K): int {
    if os == [] then 0 else (if key(os[0]) == k then os[0].total else 0) + SumKey(os[1..], key, k)
  }

  function SumTotals(os: seq<Order>): int {
    if os == [] then 0 else os[0].total + SumTotals(os[1..])
  }

  lemma {:induction false} CountKeyPositive<K>(os: seq<Order>, key: Order -> K, k: K)
    ensures CountKey(os, key, k) > 0 <==> exists o :: o in os && key(o) == k
  {
    if os != [] {
      CountKeyPositive(os[1..], key, k);
      assert forall o :: o in os <==> o == os[0] || o in os[1..];
    }
  }

  // ---------------------------------------------------------------- the $group stage

  predicate HasKey<K(==)>(gs: seq<Group<K>>, k: K) {
    gs != [] && (gs[0].key == k || HasKey(gs[1..], k))
  }

  predicate DistinctKeys<K(==)>(gs: seq<Group<K>>) {
    gs == [] || (!HasKey(gs[1..], gs[0].key) && DistinctKeys(gs[1..]))
  }

  /** The count of the group with key `k`, 0 when there is none. */
  function CountOf<K(==)>(gs: seq<Group<K>>, k: K): nat {
    if gs == [] then 0 else if gs[0].key == k then gs[0].count else CountOf(gs[1..], k)
  }

  function AmountOf<K(==)>(gs: seq<Group<K>>, k: K): int {
    if gs == [] then 0 else if gs[0].key == k then gs[0].totalAmount else AmountOf(gs[1..], k)
  }

  function SumCounts<K>(gs: seq<Group<K>>): nat {
    if gs == [] then 0 else gs[0].count + SumCounts(gs[1..])
  }

  function SumAmounts<K>(gs: seq<Group<K>>): int {
    if gs == [] then 0 else gs[0].totalAmount + SumAmounts(gs[1..])
  }

  /** Accumulate one order into the groups: `$sum: 1` and `$sum: "$total"`. */
  function Add<K(==)>(gs: seq<Group<K>>, k: K, amount: int): seq<Group<K>> {
    if gs == [] then [Group(k, 1, amount)]
    else if gs[0].key == k then [gs[0].(count := gs[0].count + 1, totalAmount := gs[0].totalAmount + amount)] + gs[1..]
    else [gs[0]] + Add(gs[1..], k, amount)
  }

  /** `$group: { _id: key, count: { $sum: 1 }, totalAmount: { $sum: "$total" } }`. */
  function GroupBy<K(==)>(os: seq<Order>, key: Order -> K): seq<Group<K>> {
    if os == [] then [] else Add(GroupBy(os[1..], key), key(os[0]), os[0].total)
  }

  lemma {:induction false} AddSpec<K>(gs: seq<Group<K>>, k: K, amount: int)
    ensures forall j :: CountOf(Add(gs, k, amount), j) == CountOf(gs, j) + (if j == k then 1 else 0)
    ensures forall j :: AmountOf(Add(gs, k, amount), j) == AmountOf(gs, j) + (if j == k then amount else 0)
    ensures forall j :: HasKey(Add(gs, k, amount), j) <==> HasKey(gs, j) || j == k
    ensures DistinctKeys(gs) ==> DistinctKeys(Add(gs, k, amount))
    ensures SumCounts(Add(gs, k, amount)) == SumCounts(gs) + 1
    ensures SumAmounts(Add(gs, k, amount)) == SumAmounts(gs) + amount
  {
    var r := Add(gs, k, amount);
    if gs == [] {
      assert r[1..] == [];
    } else if gs[0].key == k {
      assert r[1..] == gs[1..];
    } else {
      AddSpec(gs[1..], k, amount);
      assert r[1..] == Add(gs[1..], k, amount);
    }
  }

  /** Grouping gives one group per distinct key present, whose count is the number of orders
      with that key and whose `totalAmount` is the sum of their totals; the counts add up to the
      number of orders and the amounts to the sum of all totals. */
  lemma {:induction false} GroupBySpec<K>(os: seq<Order>, key: Order -> K)
    ensures DistinctKeys(GroupBy(os, key))
    ensures forall k :: CountOf(GroupBy(os, key), k) == CountKey(os, key, k)
    ensures forall k :: AmountOf(GroupBy(os, key), k) == SumKey(os, key, k)
    ensures forall k :: HasKey(GroupBy(os, key), k) <==> CountKey(os, key, k) > 0
    ensures SumCounts(GroupBy(os, key)) == |os|
    ensures SumAmounts(GroupBy(os, key)) == SumTotals(os)
  {
    if os != [] {
      GroupBySpec(os[1..], key);
      AddSpec(GroupBy(os[1..], key), key(os[0]), os[0].total);
    }
  }

  /** In groups with distinct keys, a group's own fields are what `CountOf` and `AmountOf`
      report for its key. */
  lemma {:induction false} GroupAt<K>(gs: seq<Group<K>>, i: nat)
    requires DistinctKeys(gs) && i < |gs|
    ensures CountOf(gs, gs[i].key) == gs[i].count && AmountOf(gs, gs[i].key) == gs[i].totalAmount
    ensures HasKey(gs, gs[i].key)
  {
    if i > 0 {
      GroupAt(gs[1..], i - 1);
      assert gs[1..][i - 1] == gs[i];
    }
  }

  lemma {:induction false} HasKeyAt<K>(gs: seq<Group<K>>, k: K)
    ensures HasKey(gs, k) <==> exists i :: 0 <= i < |gs| && gs[i].key == k
  {
    if gs != [] {
      HasKeyAt(gs[1..], k);
      if HasKey(gs[1..], k) {
        var i :| 0 <= i < |gs[1..]| && gs[1..][i].key == k;
        assert gs[i + 1].key == k;
      }
      if exists i :: 0 <= i < |gs| && gs[i].key == k {
        var i :| 0 <= i < |gs| && gs[i].key == k;
        if i > 0 {
          assert gs[1..][i - 1].key == k;
        }
      }
    }
  }

  /** Every group produced from the orders says, for its key, exactly how many orders carry
      that key and what their totals add up to; no group is empty. */
  lemma GroupFields<K>(os: seq<Order>, key: Order -> K, i: nat)
    requires i < |GroupBy(os, key)|
    ensures var g := GroupBy(os, key)[i];
      g.count == CountKey(os, key, g.key) && g.totalAmount == SumKey(os, key, g.key) &&
      g.count >= 1 && exists o :: o in os && key(o) == g.key
  {
    var gs := GroupBy(os, key);
    GroupBySpec(os, key);
    GroupAt(gs, i);
    assert CountOf(gs, gs[i].key) == CountKey(os, key, gs[i].key);
    assert AmountOf(gs, gs[i].key) == SumKey(os, key, gs[i].key);
    CountKeyPositive(os, key, gs[i].key);
  }

  // ---------------------------------------------------------------- by status

  function StatusOf(o: Order): Option<string> {
    o.status
  }

  /** A status counted with its summed total: `{ count, totalAmount }`. */
  datatype Totals = Totals(count: nat, totalAmount: int)

  /** The property name `acc[stat._id]` writes: the status itself, or "null" for the group of
      orders without a status. */
  function StatusKey(k: Option<string>): string {
    match k
    case None => "null"
    case Some(s) => s
  }

  /** The `reduce` of lines 68-74 as a left fold: each group in turn writes its entry, a later
      group overwriting an earlier one with the same property name. */
  function FoldStatus(gs: seq<Group<Option<string>>>): map<string, Totals> {
    if gs == [] then map[]
    else FoldStatus(gs[..|gs| - 1])[StatusKey(gs[|gs| - 1].key) := Totals(gs[|gs| - 1].count, gs[|gs| - 1].totalAmount)]
  }

  /** Lines 68-74: fold the status groups into one object keyed by status. */
  method NormalizeStatusStats(gs: seq<Group<Option<string>>>) returns (m: map<string, Totals>)
    ensures m == FoldStatus(gs)
    ensures m.Keys == Names(gs)
  {
    m := map[];
    var i := 0;
    while i < |gs|
      invariant 0 <= i <= |gs|
      invariant m == FoldStatus(gs[..i])
    {
      assert gs[..i + 1][..i] == gs[..i];
      m := m[StatusKey(gs[i].key) := Totals(gs[i].count, gs[i].totalAmount)];
      i := i + 1;
    }
    assert gs[..i] == gs;
    FoldStatusKeys(gs);
  }

  /** The property names the groups write. */
  function Names(gs: seq<Group<Option<string>>>): set<string> {
    if gs == [] then {} else Names(gs[..|gs| - 1]) + {StatusKey(gs[|gs| - 1].key)}
  }

  lemma {:induction false} FoldStatusKeys(gs: seq<Group<Option<string>>>)
    ensures FoldStatus(gs).Keys == Names(gs)
  {
    if gs != [] {
      FoldStatusKeys(gs[..|gs| - 1]);
    }
  }

  lemma {:induction false} NamesMembers(gs: seq<Group<Option<string>>>, x: string)
    ensures x in Names(gs) <==> exists g :: g in gs && StatusKey(g.key) == x
  {
    if gs != [] {
      var init := gs[..|gs| - 1];
      NamesMembers(init, x);
      assert gs == init + [gs[|gs| - 1]];
      assert forall g :: g in gs <==> g in init || g == gs[|gs| - 1];
    }
  }

  /** No two groups write the same property name. */
  predicate DistinctStatusKeys(gs: seq<Group<Option<string>>>) {
    forall i, j :: 0 <= i < j < |gs| ==> StatusKey(gs[i].key) != StatusKey(gs[j].key)
  }

  /** When the groups write distinct property names, each group's entry survives the fold. */
  lemma {:induction false} FoldStatusAt(gs: seq<Group<Option<string>>>, i: nat)
    requires DistinctStatusKeys(gs) && i < |gs|
    ensures StatusKey(gs[i].key) in FoldStatus(gs)
    ensures FoldStatus(gs)[StatusKey(gs[i].key)] == Totals(gs[i].count, gs[i].totalAmount)
  {
    var init := gs[..|gs| - 1];
    if i < |gs| - 1 {
      assert init[i] == gs[i];
      FoldStatusAt(init, i);
    }
  }

  /** The distinct statuses among the orders, as property names. */
  function StatusNames(os: seq<Order>): set<string> {
    set o | o in os :: StatusKey(o.status)
  }

  /** The orders' statuses write distinct property names: no order carries the literal status
      "null" while another has none. */
  predicate NamesUnambiguous(os: seq<Order>) {
    !((exists o :: o in os && o.status.None?) && (exists o :: o in os && o.status == Some("null")))
  }

  lemma {:induction false} HasKeyIn<K>(gs: seq<Group<K>>, k: K)
    ensures HasKey(gs, k) <==> exists g :: g in gs && g.key == k
  {
    HasKeyAt(gs, k);
    if exists g :: g in gs && g.key == k {
      var g :| g in gs && g.key == k;
      var i :| 0 <= i < |gs| && gs[i] == g;
    }
  }

  /** The normalised status object has one property per distinct status of the orders, the
      orders without a status appearing under "null". */
  lemma StatusStatsKeys(os: seq<Order>)
    ensures FoldStatus(GroupBy(os, StatusOf)).Keys == StatusNames(os)
  {
    var gs := GroupBy(os, StatusOf);
    GroupBySpec(os, StatusOf);
    FoldStatusKeys(gs);
    forall x ensures x in Names(gs) <==> x in StatusNames(os) {
      NamesMembers(gs, x);
      if x in Names(gs) {
        var g :| g in gs && StatusKey(g.key) == x;
        var j :| 0 <= j < |gs| && gs[j] == g;
        GroupFields(os, StatusOf, j);
      }
      if x in StatusNames(os) {
        var o :| o in os && StatusKey(o.status) == x;
        CountKeyPositive(os, StatusOf, o.status);
        HasKeyIn(gs, o.status);
      }
    }
  }

  /** Each status present among the orders maps to the number of orders with that status and
      the sum of their totals. */
  lemma StatusStatsValue(os: seq<Order>, s: Option<string>)
    requires NamesUnambiguous(os)
    requires exists o :: o in os && o.status == s
    ensures var m := FoldStatus(GroupBy(os, StatusOf));
      StatusKey(s) in m && m[StatusKey(s)] == Totals(CountKey(os, StatusOf, s), SumKey(os, StatusOf, s))
  {
    var gs := GroupBy(os, StatusOf);
    GroupBySpec(os, StatusOf);
    CountKeyPositive(os, StatusOf, s);
    HasKeyAt(gs, s);
    var i :| 0 <= i < |gs| && gs[i].key == s;
    GroupFields(os, StatusOf, i);
    StatusKeysDistinct(os);
    FoldStatusAt(gs, i);
  }

  lemma StatusKeysDistinct(os: seq<Order>)
    requires NamesUnambiguous(os)
    ensures DistinctStatusKeys(GroupBy(os, StatusOf))
  {
    var gs := GroupBy(os, StatusOf);
    GroupBySpec(os, StatusOf);
    forall i, j | 0 <= i < j < |gs| ensures StatusKey(gs[i].key) != StatusKey(gs[j].key) {
      DistinctAt(gs, i, j);
      GroupFields(os, StatusOf, i);
      GroupFields(os, StatusOf, j);
    }
  }

  lemma {:induction false} DistinctAt<K>(gs: seq<Group<K>>, i: nat, j: nat)
    requires DistinctKeys(gs) && i < j < |gs|
    ensures gs[i].key != gs[j].key
  {
    if i == 0 {
      HasKeyAt(gs[1..], gs[0].key);
      assert gs[1..][j - 1] == gs[j];
    } else {
      DistinctAt(gs[1..], i - 1, j - 1);
      assert gs[1..][i - 1] == gs[i] && gs[1..][j - 1] == gs[j];
    }
  }

  /** The status counts add up to the number of orders and the amounts to the sum of totals. */
  lemma StatusTotals(os: seq<Order>)
    ensures SumCounts(GroupBy(os, StatusOf)) == |os|
    ensures SumAmounts(GroupBy(os, StatusOf)) == SumTotals(os)
  {
    GroupBySpec(os, StatusOf);
  }

  // ---------------------------------------------------------------- by month

  /** `{ year: { $year: "$createdAt" }, month: { $month: "$createdAt" } }`. */
  function MonthOf(o: Order): (nat, nat) {
    (o.createdAt.year, o.createdAt.month)
  }

  /** `createdAt: { $gte: sixMonthsAgo }`. */
  predicate InWindow(o: Order, cutoff: Instant) {
    Rank(o.createdAt) >= Rank(cutoff)
  }

  function Windowed(os: seq<Order>, cutoff: Instant): seq<Order> {
    Filter(os, o => InWindow(o, cutoff))
  }

  /** `$sort: { "_id.year": 1, "_id.month": 1 }`. */
  function MonthRank(g: Group<(nat, nat)>): int {
    g.key.0 * 12 + g.key.1
  }

  /** Lines 32-54: match the window, group by (year, month), sort ascending. */
  function MonthlyGroups(os: seq<Order>, cutoff: Instant): seq<Group<(nat, nat)>> {
    SortBy(GroupBy(Windowed(os, cutoff), MonthOf), MonthRank)
  }

  predicate MonthBefore(a: (nat, nat), b: (nat, nat)) {
    a.0 < b.0 || (a.0 == b.0 && a.1 < b.1)
  }

  predicate ValidMonths(gs: seq<Group<(nat, nat)>>) {
    forall i :: 0 <= i < |gs| ==> 1 <= gs[i].key.1 <= 12
  }

  lemma {:induction false} InsertKeepsDistinct(x: Group<(nat, nat)>, s: seq<Group<(nat, nat)>>)
    requires DistinctKeys(s) && !HasKey(s, x.key)
    ensures DistinctKeys(Insert(x, s, MonthRank))
    ensures forall k :: HasKey(Insert(x, s, MonthRank), k) <==> HasKey(s, k) || k == x.key
  {
    if s != [] && MonthRank(x) > MonthRank(s[0]) {
      InsertKeepsDistinct(x, s[1..]);
      assert Insert(x, s, MonthRank)[1..] == Insert(x, s[1..], MonthRank);
    } else {
      assert Insert(x, s, MonthRank)[1..] == s;
    }
  }

  lemma {:induction false} SortKeepsDistinct(gs: seq<Group<(nat, nat)>>)
    requires DistinctKeys(gs)
    ensures DistinctKeys(SortBy(gs, MonthRank))
    ensures forall k :: HasKey(SortBy(gs, MonthRank), k) <==> HasKey(gs, k)
  {
    if gs != [] {
      SortKeepsDistinct(gs[1..]);
      InsertKeepsDistinct(gs[0], SortBy(gs[1..], MonthRank));
    }
  }

  /** Every month key of the groups is a month of some order, so lies in 1..12. */
  lemma MonthKeyValid(w: seq<Order>, k: (nat, nat))
    requires HasKey(GroupBy(w, MonthOf), k)
    ensures 1 <= k.1 <= 12
  {
    GroupBySpec(w, MonthOf);
    CountKeyPositive(w, MonthOf, k);
    var o :| o in w && MonthOf(o) == k;
  }

  /** On valid months, a smaller rank of a different month is an earlier month. */
  lemma MonthRankOrder(a: Group<(nat, nat)>, b: Group<(nat, nat)>)
    requires 1 <= a.key.1 <= 12 && 1 <= b.key.1 <= 12 && a.key != b.key
    requires MonthRank(a) <= MonthRank(b)
    ensures MonthBefore(a.key, b.key)
  {
  }

  /** Month groups come out strictly ascending by (year, month): one group per month, in
      calendar order. */
  lemma MonthlyStrictlyAscending(os: seq<Order>, cutoff: Instant)
    ensures ValidMonths(MonthlyGroups(os, cutoff))
    ensures var gs := MonthlyGroups(os, cutoff);
      forall i, j :: 0 <= i < j < |gs| ==> MonthBefore(gs[i].key, gs[j].key)
  {
    var w := Windowed(os, cutoff);
    var grouped := GroupBy(w, MonthOf);
    var gs := SortBy(grouped, MonthRank);
    GroupBySpec(w, MonthOf);
    SortKeepsDistinct(grouped);
    SortBySorted(grouped, MonthRank);
    forall i | 0 <= i < |gs| ensures 1 <= gs[i].key.1 <= 12 {
      HasKeyAt(gs, gs[i].key);
      MonthKeyValid(w, gs[i].key);
    }
    forall i, j | 0 <= i < j < |gs| ensures MonthBefore(gs[i].key, gs[j].key) {
      DistinctAt(gs, i, j);
      MonthRankOrder(gs[i], gs[j]);
    }
  }

  /** Inserting a group adds its count and its amount to the sums. */
  lemma {:induction false} InsertSums<K>(x: Group<K>, s: seq<Group<K>>, key: Group<K> -> int)
    ensures SumCounts(Insert(x, s, key)) == SumCounts(s) + x.count
    ensures SumAmounts(Insert(x, s, key)) == SumAmounts(s) + x.totalAmount
  {
    var r := Insert(x, s, key);
    if s != [] && key(x) > key(s[0]) {
      InsertSums(x, s[1..], key);
      assert r[0] == s[0] && r[1..] == Insert(x, s[1..], key);
    } else {
      assert r[0] == x && r[1..] == s;
    }
  }

  /** Sorting the groups changes neither the summed counts nor the summed amounts. */
  lemma {:induction false} SortSums<K>(gs: seq<Group<K>>, key: Group<K> -> int)
    ensures SumCounts(SortBy(gs, key)) == SumCounts(gs)
    ensures SumAmounts(SortBy(gs, key)) == SumAmounts(gs)
  {
    if gs != [] {
      SortSums(gs[1..], key);
      InsertSums(gs[0], SortBy(gs[1..], key), key);
    }
  }

  /** Each monthly group of the report carries the number of in-window orders of its month and
      the sum of their totals. */
  lemma MonthlyGroupValues(os: seq<Order>, cutoff: Instant, i: nat)
    requires i < |MonthlyGroups(os, cutoff)|
    ensures var g, w := MonthlyGroups(os, cutoff)[i], Windowed(os, cutoff);
      g.count == CountKey(w, MonthOf, g.key) && g.totalAmount == SumKey(w, MonthOf, g.key) && g.count >= 1
  {
    var w := Windowed(os, cutoff);
    var grouped := GroupBy(w, MonthOf);
    var gs := SortBy(grouped, MonthRank);
    SortByPerm(grouped, MonthRank);
    assert gs[i] in multiset(gs);
    assert gs[i] in multiset(grouped);
    var j :| 0 <= j < |grouped| && grouped[j] == gs[i];
    GroupFields(w, MonthOf, j);
  }

  /** A month group exists exactly for the (year, month) pairs of orders inside the window; each
      group counts those orders and sums their totals, and the counts of the report add up to the
      number of orders in the window, so orders before the cutoff count nowhere. */
  lemma MonthlyCounts(os: seq<Order>, cutoff: Instant, ym: (nat, nat))
    ensures var gs := MonthlyGroups(os, cutoff);
      (HasKey(gs, ym) <==> exists o :: o in os && InWindow(o, cutoff) && MonthOf(o) == ym)
    ensures var gs, w := MonthlyGroups(os, cutoff), Windowed(os, cutoff);
      forall i :: 0 <= i < |gs| ==>
        gs[i].count == CountKey(w, MonthOf, gs[i].key) && gs[i].totalAmount == SumKey(w, MonthOf, gs[i].key)
    ensures SumCounts(MonthlyGroups(os, cutoff)) == |Windowed(os, cutoff)|
    ensures SumAmounts(MonthlyGroups(os, cutoff)) == SumTotals(Windowed(os, cutoff))
  {
    var w := Windowed(os, cutoff);
    var grouped := GroupBy(w, MonthOf);
    GroupBySpec(w, MonthOf);
    SortKeepsDistinct(grouped);
    SortSums(grouped, MonthRank);
    CountKeyPositive(w, MonthOf, ym);
    if exists o :: o in os && InWindow(o, cutoff) && MonthOf(o) == ym {
      var o :| o in os && InWindow(o, cutoff) && MonthOf(o) == ym;
      FilterComplete(os, o => InWindow(o, cutoff), o);
    }
    forall i | 0 <= i < |MonthlyGroups(os, cutoff)|
      ensures MonthlyGroups(os, cutoff)[i].count == CountKey(w, MonthOf, MonthlyGroups(os, cutoff)[i].key)
      ensures MonthlyGroups(os, cutoff)[i].totalAmount == SumKey(w, MonthOf, MonthlyGroups(os, cutoff)[i].key)
    {
      MonthlyGroupValues(os, cutoff, i);
    }
  }

  /** `${year}-${String(month).padStart(2, "0")}`. */
  function MonthLabel(year: nat, month: nat): string {
    NatToString(year) + "-" + PadStartZero(NatToString(month), 2)
  }

  lemma YearDigits()
    ensures NatToString(2025) == "2025" && NatToString(2024) == "2024"
  {
    assert NatToString(2) == "2";
    assert NatToString(20) == NatToString(2) + [DigitChar(0)] == "20";
    assert NatToString(202) == NatToString(20) + [DigitChar(2)] == "202";
    assert NatToString(2025) == NatToString(202) + [DigitChar(5)];
    assert NatToString(2024) == NatToString(202) + [DigitChar(4)];
  }

  /** March 2025 is labelled "2025-03". */
  lemma MonthLabelMarch()
    ensures MonthLabel(2025, 3) == "2025-03"
  {
    YearDigits();
    assert NatToString(3) == "3";
    var p := PadStartZero("3", 2);
    assert p[1..] == "3" && p[0] == '0';
    assert p == "03";
    assert MonthLabel(2025, 3) == "2025" + "-" + "03";
  }

  /** November 2024 is labelled "2024-11". */
  lemma MonthLabelNovember()
    ensures MonthLabel(2024, 11) == "2024-11"
  {
    YearDigits();
    assert NatToString(11) == NatToString(1) + [DigitChar(1)] == "11";
    assert PadStartZero("11", 2) == "11";
    assert MonthLabel(2024, 11) == "2024" + "-" + "11";
  }

  lemma MonthPart(m: nat)
    requires 1 <= m <= 12
    ensures var p := PadStartZero(NatToString(m), 2);
      |p| == 2 && AllDigits(p) && DigitsValue(p) == m
  {
    NatToStringRoundTrip(m);
    NatToStringDigits(m);
    var s := NatToString(m);
    var p := PadStartZero(s, 2);
    if m < 10 {
      LeadingZero(s);
      assert p[1..] == s && p[0] == '0';
      assert p == "0" + s;
    } else {
      assert m / 10 == 1 && m % 10 < 3;
      assert NatToString(1) == [DigitChar(1)];
      assert s == [DigitChar(1), DigitChar(m % 10)];
      assert p == s;
    }
  }

  /** A label is the year's digits, a dash, and the month part. */
  lemma LabelParts(year: nat, month: nat)
    ensures var y, p := NatToString(year), PadStartZero(NatToString(month), 2);
      var l := MonthLabel(year, month);
      |l| == |y| + 1 + |p| && l[..|y|] == y && l[|y| + 1..] == p
  {
    var y, p := NatToString(year), PadStartZero(NatToString(month), 2);
    var l := y + "-" + p;
    assert l[..|y|] == y;
    assert l[|y| + 1..] == p;
  }

  /** Distinct months get distinct labels: the label determines the year and the month. */
  lemma MonthLabelInjective(y1: nat, m1: nat, y2: nat, m2: nat)
    requires 1 <= m1 <= 12 && 1 <= m2 <= 12
    requires MonthLabel(y1, m1) == MonthLabel(y2, m2)
    ensures y1 == y2 && m1 == m2
  {
    var l := MonthLabel(y1, m1);
    var s1, s2 := NatToString(y1), NatToString(y2);
    var p1, p2 := PadStartZero(NatToString(m1), 2), PadStartZero(NatToString(m2), 2);
    LabelParts(y1, m1);
    LabelParts(y2, m2);
    MonthPart(m1);
    MonthPart(m2);
    assert |s1| == |s2|;
    assert s1 == l[..|s1|] == s2;
    assert p1 == l[|s1| + 1..] == p2;
    NatToStringRoundTrip(y1);
    NatToStringRoundTrip(y2);
  }

  /** `{ month, count, totalAmount }`. */
  datatype MonthStat = MonthStat(month: string, count: nat, totalAmount: int)

  function MonthStats(gs: seq<Group<(nat, nat)>>): (r: seq<MonthStat>)
    ensures |r| == |gs|
    ensures forall i :: 0 <= i < |gs| ==>
      r[i] == MonthStat(MonthLabel(gs[i].key.0, gs[i].key.1), gs[i].count, gs[i].totalAmount)
  {
    seq(|gs|, i requires 0 <= i < |gs| => MonthStat(MonthLabel(gs[i].key.0, gs[i].key.1), gs[i].count, gs[i].totalAmount))
  }

  /** No two months of the report share a label. */
  lemma MonthlyLabelsDistinct(os: seq<Order>, cutoff: Instant)
    ensures var ms := MonthStats(MonthlyGroups(os, cutoff));
      forall i, j :: 0 <= i < j < |ms| ==> ms[i].month != ms[j].month
  {
    var gs := MonthlyGroups(os, cutoff);
    MonthlyStrictlyAscending(os, cutoff);
    forall i, j | 0 <= i < j < |gs|
      ensures MonthLabel(gs[i].key.0, gs[i].key.1) != MonthLabel(gs[j].key.0, gs[j].key.1)
    {
      if MonthLabel(gs[i].key.0, gs[i].key.1) == MonthLabel(gs[j].key.0, gs[j].key.1) {
        MonthLabelInjective(gs[i].key.0, gs[i].key.1, gs[j].key.0, gs[j].key.1);
      }
    }
  }

  // ---------------------------------------------------------------- by zone

  function ZoneOf(o: Order): Option<string> {
    o.shippingInfo.delivery
  }

  const UnspecifiedZone: string := "Non spécifiée"

  /** `stat._id || 'Non spécifiée'`. */
  function ZoneLabel(k: Option<string>): (r: string)
    ensures k.None? || k == Some("") ==> r == UnspecifiedZone
    ensures k.Some? && k.value != "" ==> r == k.value
    ensures r != ""
  {
    if k.None? || k.value == "" then UnspecifiedZone else k.value
  }

  datatype ZoneStat = ZoneStat(zone: string, count: nat, totalAmount: int)

  function ZoneStats(gs: seq<Group<Option<string>>>): (r: seq<ZoneStat>)
    ensures |r| == |gs|
    ensures forall i :: 0 <= i < |gs| ==> r[i] == ZoneStat(ZoneLabel(gs[i].key), gs[i].count, gs[i].totalAmount)
  {
    seq(|gs|, i requires 0 <= i < |gs| => ZoneStat(ZoneLabel(gs[i].key), gs[i].count, gs[i].totalAmount))
  }

  /** Each zone entry counts the orders shipped to that zone; orders without a zone, or with an
      empty one, are reported under "Non spécifiée". */
  lemma ZoneStatsSpec(os: seq<Order>, i: nat)
    requires i < |GroupBy(os, ZoneOf)|
    ensures var g := GroupBy(os, ZoneOf)[i];
      var z := ZoneStats(GroupBy(os, ZoneOf))[i];
      z.count == CountKey(os, ZoneOf, g.key) && z.totalAmount == SumKey(os, ZoneOf, g.key) &&
      (z.zone == UnspecifiedZone <==> g.key.None? || g.key == Some("") || g.key == Some(UnspecifiedZone))
  {
    GroupFields(os, ZoneOf, i);
  }

  // ---------------------------------------------------------------- the route

  datatype StatsResponse =
    | StatsUnauthorized
    | StatsReport(statusStats: map<string, Totals>, monthlyStats: seq<MonthStat>, shippingZoneStats: seq<ZoneStat>)
  {
    function Code(): int {
      if StatsUnauthorized? then 401 else 200
    }
  }

  /** `GET /api/orders/stats`. `cutoff` is the instant six months before the request (date
      arithmetic is not modelled). */
  method Get(session: Session, os: seq<Order>, cutoff: Instant) returns (r: StatsResponse)
    ensures !SignedInWithEmail(session) ==> r == StatsUnauthorized
    ensures SignedInWithEmail(session) ==>
      r == StatsReport(FoldStatus(GroupBy(os, StatusOf)), MonthStats(MonthlyGroups(os, cutoff)),
                       ZoneStats(GroupBy(os, ZoneOf)))
    ensures r.StatsReport? ==> r.statusStats.Keys == StatusNames(os)
  {
    if !SignedInWithEmail(session) {
      return StatsUnauthorized;
    }
    var statusGroups := GroupBy(os, StatusOf);
    var monthly := MonthlyGroups(os, cutoff);
    var zones := GroupBy(os, ZoneOf);
    var statusStats := NormalizeStatusStats(statusGroups);
    r := StatsReport(statusStats, MonthStats(monthly), ZoneStats(zones));
    StatusStatsKeys(os);
  }
}
