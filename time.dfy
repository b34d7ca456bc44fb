/** Timestamps (`createdAt`, `updatedAt`) as calendar positions: a year, a month from 1 to 12
    and an offset inside the month, in milliseconds. Calendar arithmetic is not modelled; what the
    model needs is the order of instants and the (year, month) that MongoDB's `$year` and `$month`
    extract. */
module Time {

  /** Milliseconds in a 31-day month: every offset inside a month is below it. */
  const MonthSpan: nat := 2678400000

  datatype Moment = Moment(year: nat, month: nat, offset: nat)

  type Instant = m: Moment | 1 <= m.month <= 12 && m.offset < MonthSpan witness Moment(1970, 1, 0)

  /** Months since year 0: the position of the instant's calendar month. */
  function MonthIndex(t: Instant): nat {
    t.year * 12 + (t.month - 1)
  }

  /** A single integer that orders instants as time does. */
  function Rank(t: Instant): nat {
    MonthIndex(t) * MonthSpan + t.offset
  }

  /** Earlier in rank means an earlier month, or the same month and an earlier offset. */
  lemma RankOrder(a: Instant, b: Instant)
    ensures Rank(a) < Rank(b) <==>
            MonthIndex(a) < MonthIndex(b) || (MonthIndex(a) == MonthIndex(b) && a.offset < b.offset)
  {
    var ma, mb := MonthIndex(a), MonthIndex(b);
    if ma < mb {
      assert (mb - ma) * MonthSpan >= MonthSpan;
      assert Rank(b) - Rank(a) == (mb - ma) * MonthSpan + b.offset - a.offset;
    } else if ma > mb {
      assert (ma - mb) * MonthSpan >= MonthSpan;
      assert Rank(a) - Rank(b) == (ma - mb) * MonthSpan + a.offset - b.offset;
    }
  }

  /** Distinct (year, month) pairs have distinct month indexes. */
  lemma MonthIndexInjective(a: Instant, b: Instant)
    requires MonthIndex(a) == MonthIndex(b)
    ensures a.year == b.year && a.month == b.month
  {
  }
}
