/**
 * The input normaliser of the opening-hours import: it orders the feed's day
 * records by date, drops records of another year, resolves the midnight
 * sentinel and turns each record into at most two intervals.
 */
module Normaliser {

  import opened Wrappers
  import opened Dates
  import opened Seqs

  /**
   * One day of the feed: its date and up to two opening intervals, each
   * given by a start and an end timestamp that may be absent.
   */
  datatype Record = Record(
    date: DateTime,
    from1: Option<DateTime>, to1: Option<DateTime>,
    from2: Option<DateTime>, to2: Option<DateTime>)

  /** An opening interval after normalisation: both ends are present. */
  datatype Interval = Interval(start: DateTime, end: DateTime)

  // ---------------------------------------------------------------------------
  // Sorting the records by date
  // ---------------------------------------------------------------------------

  predicate SortedByDate(rs: seq<Record>)
  {
    forall i, j :: 0 <= i < j < |rs| ==> NotAfter(rs[i].date, rs[j].date)
  }

  /** A record dated no later than every record of a sorted list may lead it. */
  lemma SortedCons(r: Record, rs: seq<Record>)
    requires SortedByDate(rs)
    requires forall y :: y in rs ==> NotAfter(r.date, y.date)
    ensures SortedByDate([r] + rs)
  {
    var out := [r] + rs;
    forall i, j | 0 <= i < j < |out| ensures NotAfter(out[i].date, out[j].date) {
      if i > 0 {
        assert out[i] == rs[i - 1] && out[j] == rs[j - 1];
      } else {
        assert out[j] in rs;
      }
    }
  }

  /** A record dated no later than the head of a sorted list may lead it. */
  lemma LeadsSorted(r: Record, rs: seq<Record>)
    requires SortedByDate(rs) && rs != [] && NotAfter(r.date, rs[0].date)
    ensures SortedByDate([r] + rs)
  {
    forall y | y in rs ensures NotAfter(r.date, y.date) {
      var j :| 0 <= j < |rs| && rs[j] == y;
      if j > 0 { NotAfterTransitive(r.date, rs[0].date, y.date); }
    }
    SortedCons(r, rs);
  }

  /**
   * The head of a sorted list, dated before `r`, may lead any sorted list
   * made of `r` and records of the list's tail.
   */
  lemma HeadLeadsSorted(r: Record, rs: seq<Record>, tail: seq<Record>)
    requires SortedByDate(rs) && rs != [] && !NotAfter(r.date, rs[0].date)
    requires SortedByDate(tail) && forall y :: y in tail ==> y == r || y in rs[1..]
    ensures SortedByDate([rs[0]] + tail)
  {
    forall y | y in tail ensures NotAfter(rs[0].date, y.date) {
      if y == r {
        NotAfterTotal(r.date, rs[0].date);
      } else {
        var j :| 0 <= j < |rs[1..]| && rs[1..][j] == y;
        assert rs[j + 1] == y;
      }
    }
    SortedCons(rs[0], tail);
  }

  /** Inserts `r` before the first record dated strictly later than it. */
  function InsertByDate(r: Record, rs: seq<Record>): (out: seq<Record>)
    requires SortedByDate(rs)
    ensures SortedByDate(out)
    ensures multiset(out) == multiset(rs) + multiset{r}
    ensures forall y :: y in out ==> y == r || y in rs
  {
    if rs == [] then [r]
    else if NotAfter(r.date, rs[0].date) then
      LeadsSorted(r, rs);
      [r] + rs
    else
      var tail := InsertByDate(r, rs[1..]);
      HeadTail(rs);
      HeadLeadsSorted(r, rs, tail);
      [rs[0]] + tail
  }

  /**
   * The records in ascending date order: the result of the sort that the
   * importer applies to the feed before anything else.
   */
  function SortByDate(rs: seq<Record>): (out: seq<Record>)
    ensures SortedByDate(out)
    ensures multiset(out) == multiset(rs)
  {
    if rs == [] then []
    else
      assert rs == [rs[0]] + rs[1..];
      InsertByDate(rs[0], SortByDate(rs[1..]))
  }

  // ---------------------------------------------------------------------------
  // Start and end timestamps, with the midnight sentinel
  // ---------------------------------------------------------------------------

  /**
   * The start of an interval of the record dated `eventDate`. An absent
   * timestamp stays absent; a timestamp at 00:00:00 stands for the start of
   * the record's own day; any other timestamp is used as given.
   */
  function StartDate(eventDate: DateTime, timestamp: Option<DateTime>): (r: Option<DateTime>)
    ensures r.Some? <==> timestamp.Some?
    ensures timestamp.Some? && IsMidnight(timestamp.value) ==>
              SameDay(r.value, eventDate) && IsMidnight(r.value)
    ensures timestamp.Some? && !IsMidnight(timestamp.value) ==> r == timestamp
  {
    match timestamp
    case None => None
    case Some(t) => if IsMidnight(t) then Some(StartOfDay(eventDate)) else Some(t)
  }

  /**
   * The end of an interval of the record dated `eventDate`. An absent
   * timestamp stays absent; a timestamp at 00:00:00 stands for the end of
   * the record's own day; any other timestamp is used as given.
   */
  function EndDate(eventDate: DateTime, timestamp: Option<DateTime>): (r: Option<DateTime>)
    ensures r.Some? <==> timestamp.Some?
    ensures timestamp.Some? && IsMidnight(timestamp.value) ==>
              SameDay(r.value, eventDate) && r.value.hour == 23 && r.value.minute == 59 && r.value.second == 59
    ensures timestamp.Some? && !IsMidnight(timestamp.value) ==> r == timestamp
  {
    match timestamp
    case None => None
    case Some(t) => if IsMidnight(t) then Some(EndOfDay(eventDate)) else Some(t)
  }

  /** The interval a start/end pair stands for: none when either end is absent. */
  function Pair(start: Option<DateTime>, end: Option<DateTime>): (r: seq<Interval>)
    ensures r != [] <==> start.Some? && end.Some?
    ensures r != [] ==> r == [Interval(start.value, end.value)]
  {
    if start.Some? && end.Some? then [Interval(start.value, end.value)] else []
  }

  /** The intervals one record contributes to the import of `year`. */
  function Halves(year: int, r: Record): (out: seq<Interval>)
    ensures r.date.year != year ==> out == []
    ensures |out| <= 2
  {
    if r.date.year != year then []
    else
      Pair(StartDate(r.date, r.from1), EndDate(r.date, r.to1))
      + Pair(StartDate(r.date, r.from2), EndDate(r.date, r.to2))
  }

  /** The intervals of `records`, in record order, for the import of `year`. */
  function Intervals(year: int, records: seq<Record>): (out: seq<Interval>)
    ensures |out| <= 2 * |records|
  {
    if records == [] then []
    else Intervals(year, records[..|records| - 1]) + Halves(year, records[|records| - 1])
  }

  lemma {:induction false} IntervalsAppend(year: int, a: seq<Record>, b: seq<Record>)
    ensures Intervals(year, a + b) == Intervals(year, a) + Intervals(year, b)
    decreases |b|
  {
    if b == [] {
      AppendEmpty(a);
      AppendEmpty(Intervals(year, a));
    } else {
      var b', last := b[..|b| - 1], b[|b| - 1];
      IntervalsAppend(year, a, b');
      DropLastOfAppend(a, b);
      AppendAssociates(Intervals(year, a), Intervals(year, b'), Halves(year, last));
    }
  }

  lemma IntervalsSnoc(year: int, rs: seq<Record>, r: Record)
    ensures Intervals(year, rs + [r]) == Intervals(year, rs) + Halves(year, r)
  {
    SnocParts(rs, r);
  }

  /** A record of another year contributes nothing, wherever it stands. */
  lemma OtherYearContributesNothing(year: int, a: seq<Record>, r: Record, b: seq<Record>)
    requires r.date.year != year
    ensures Intervals(year, a + [r] + b) == Intervals(year, a + b)
  {
    IntervalsAppend(year, a + [r], b);
    IntervalsSnoc(year, a, r);
    IntervalsAppend(year, a, b);
  }

  // ---------------------------------------------------------------------------
  // Records of other years
  // ---------------------------------------------------------------------------

  /** The records of `rs` dated in `year`, in order. */
  function OfYear(year: int, rs: seq<Record>): (out: seq<Record>)
    ensures |out| <= |rs|
  {
    if rs == [] then []
    else (if rs[0].date.year == year then [rs[0]] else []) + OfYear(year, rs[1..])
  }

  /** One step of `OfYear` on a list given as head and tail. */
  lemma OfYearCons(year: int, h: Record, t: seq<Record>)
    ensures OfYear(year, [h] + t) == (if h.date.year == year then [h] else []) + OfYear(year, t)
  {
    HeadTail([h] + t);
  }

  lemma {:induction false} OfYearMembers(year: int, rs: seq<Record>, y: Record)
    requires y in OfYear(year, rs)
    ensures y in rs && y.date.year == year
    decreases |rs|
  {
    if y != rs[0] || rs[0].date.year != year {
      OfYearMembers(year, rs[1..], y);
    }
  }

  lemma {:induction false} OfYearAppend(year: int, a: seq<Record>, b: seq<Record>)
    ensures OfYear(year, a + b) == OfYear(year, a) + OfYear(year, b)
    decreases |a|
  {
    if a != [] {
      var h, t := a[0], a[1..];
      HeadTail(a);
      AppendAssociates([h], t, b);
      OfYearCons(year, h, t + b);
      OfYearAppend(year, t, b);
      AppendAssociates(if h.date.year == year then [h] else [], OfYear(year, t), OfYear(year, b));
    } else {
      assert a + b == b;
    }
  }

  /** Keeping the records of one year drops a record of another year wherever it sits. */
  lemma OfYearSkips(year: int, a: seq<Record>, r: Record, b: seq<Record>)
    requires r.date.year != year
    ensures OfYear(year, a + [r] + b) == OfYear(year, a + b)
  {
    var ka, kb := OfYear(year, a), OfYear(year, b);
    OfYearAppend(year, a + [r], b);
    OfYearAppend(year, a, [r]);
    OfYearAppend(year, a, b);
    OfYearCons(year, r, []);
    AppendEmpty(ka);
  }

  /** Keeping the records of one year keeps a sorted list sorted. */
  lemma {:induction false} OfYearSorted(year: int, rs: seq<Record>)
    requires SortedByDate(rs)
    ensures SortedByDate(OfYear(year, rs))
    decreases |rs|
  {
    if rs != [] {
      var tail := OfYear(year, rs[1..]);
      OfYearSorted(year, rs[1..]);
      if rs[0].date.year == year {
        forall y | y in tail ensures NotAfter(rs[0].date, y.date) {
          OfYearMembers(year, rs[1..], y);
          var j :| 0 <= j < |rs[1..]| && rs[1..][j] == y;
          assert rs[j + 1] == y;
        }
        SortedCons(rs[0], tail);
      }
    }
  }

  /** A record dated no later than the head of a sorted list is inserted in front. */
  lemma InsertInFront(x: Record, rs: seq<Record>)
    requires SortedByDate(rs) && (rs == [] || NotAfter(x.date, rs[0].date))
    ensures InsertByDate(x, rs) == [x] + rs
  {
  }

  /** A record dated after the head of a sorted list is inserted into its tail. */
  lemma InsertBehind(x: Record, rs: seq<Record>)
    requires SortedByDate(rs) && rs != [] && !NotAfter(x.date, rs[0].date)
    ensures SortedByDate(rs[1..])
    ensures InsertByDate(x, rs) == [rs[0]] + InsertByDate(x, rs[1..])
  {
  }

  /** Insertion puts `r` somewhere in the list and leaves the other records in their order. */
  lemma {:induction false} InsertByDateSplits(r: Record, rs: seq<Record>)
    requires SortedByDate(rs)
    ensures exists k :: 0 <= k <= |rs| && InsertByDate(r, rs) == rs[..k] + [r] + rs[k..]
    decreases |rs|
  {
    if rs == [] || NotAfter(r.date, rs[0].date) {
      InsertInFront(r, rs);
      SplitAtFront(rs, r);
    } else {
      InsertBehind(r, rs);
      InsertByDateSplits(r, rs[1..]);
      var k :| 0 <= k <= |rs[1..]| && InsertByDate(r, rs[1..]) == rs[1..][..k] + [r] + rs[1..][k..];
      SplitBehindHead(rs, k, r);
    }
  }

  /** The records of one year of a sorted list are dated no earlier than the list's head. */
  lemma OfYearAfterHead(year: int, x: Record, rs: seq<Record>)
    requires SortedByDate(rs) && rs != [] && NotAfter(x.date, rs[0].date)
    ensures var kept := OfYear(year, rs); kept == [] || NotAfter(x.date, kept[0].date)
  {
    var kept := OfYear(year, rs);
    if kept != [] {
      OfYearMembers(year, rs, kept[0]);
      var j :| 0 <= j < |rs| && rs[j] == kept[0];
      if j > 0 { NotAfterTransitive(x.date, rs[0].date, kept[0].date); }
    }
  }

  /** `OfYearInsert` when `x` goes in front. */
  lemma OfYearInsertFront(year: int, x: Record, rs: seq<Record>)
    requires SortedByDate(rs) && SortedByDate(OfYear(year, rs))
    requires rs == [] || NotAfter(x.date, rs[0].date)
    ensures OfYear(year, InsertByDate(x, rs))
         == if x.date.year == year then InsertByDate(x, OfYear(year, rs)) else OfYear(year, rs)
  {
    var kept := OfYear(year, rs);
    InsertInFront(x, rs);
    OfYearCons(year, x, rs);
    if x.date.year == year {
      if rs != [] { OfYearAfterHead(year, x, rs); }
      InsertInFront(x, kept);
    } else {
      assert [] + kept == kept;
    }
  }

  /** `OfYearInsert` when `x` goes behind the head, given the property for the tail. */
  lemma OfYearInsertBehind(year: int, x: Record, rs: seq<Record>)
    requires SortedByDate(rs) && SortedByDate(OfYear(year, rs))
    requires rs != [] && !NotAfter(x.date, rs[0].date)
    requires SortedByDate(rs[1..]) && SortedByDate(OfYear(year, rs[1..]))
    requires OfYear(year, InsertByDate(x, rs[1..]))
          == if x.date.year == year then InsertByDate(x, OfYear(year, rs[1..])) else OfYear(year, rs[1..])
    ensures OfYear(year, InsertByDate(x, rs))
         == if x.date.year == year then InsertByDate(x, OfYear(year, rs)) else OfYear(year, rs)
  {
    var h, t := rs[0], rs[1..];
    var inserted, kt := InsertByDate(x, t), OfYear(year, t);
    var head: seq<Record> := if h.date.year == year then [h] else [];
    InsertBehind(x, rs);
    HeadTail(rs);
    OfYearCons(year, h, t);
    OfYearCons(year, h, inserted);
    assert OfYear(year, rs) == head + kt;
    assert OfYear(year, InsertByDate(x, rs)) == head + OfYear(year, inserted);
    if x.date.year == year && h.date.year == year {
      var kept := [h] + kt;
      InsertBehind(x, kept);
      HeadTail(kept);
    } else if x.date.year == year {
      assert head + kt == kt && head + InsertByDate(x, kt) == InsertByDate(x, kt);
    }
  }

  /** Inserting and then keeping the records of one year is keeping and then inserting. */
  lemma {:induction false} OfYearInsert(year: int, x: Record, rs: seq<Record>)
    requires SortedByDate(rs)
    ensures SortedByDate(OfYear(year, rs))
    ensures OfYear(year, InsertByDate(x, rs))
         == if x.date.year == year then InsertByDate(x, OfYear(year, rs)) else OfYear(year, rs)
    decreases |rs|
  {
    OfYearSorted(year, rs);
    if rs == [] || NotAfter(x.date, rs[0].date) {
      OfYearInsertFront(year, x, rs);
    } else {
      OfYearInsert(year, x, rs[1..]);
      OfYearInsertBehind(year, x, rs);
    }
  }

  /** Sorting and then keeping the records of one year is keeping and then sorting. */
  lemma {:induction false} OfYearSort(year: int, rs: seq<Record>)
    ensures OfYear(year, SortByDate(rs)) == SortByDate(OfYear(year, rs))
    decreases |rs|
  {
    if rs != [] {
      var h, t := rs[0], rs[1..];
      OfYearSort(year, t);
      OfYearInsert(year, h, SortByDate(t));
      HeadTail(rs);
      OfYearCons(year, h, t);
      var kept := OfYear(year, rs);
      if h.date.year == year {
        assert kept[0] == h && kept[1..] == OfYear(year, t);
      } else {
        assert [] + OfYear(year, t) == OfYear(year, t);
      }
    }
  }

  /** The intervals of a single record are its halves. */
  lemma IntervalsOfOne(year: int, r: Record)
    ensures Intervals(year, [r]) == Halves(year, r)
  {
    assert [r][..0] == [];
  }

  /** Records of other years contribute no interval. */
  lemma {:induction false} IntervalsOfYear(year: int, rs: seq<Record>)
    ensures Intervals(year, rs) == Intervals(year, OfYear(year, rs))
    decreases |rs|
  {
    if rs != [] {
      var head, tail := rs[0], rs[1..];
      IntervalsOfYear(year, tail);
      HeadTail(rs);
      OfYearCons(year, head, tail);
      IntervalsAppend(year, [head], tail);
      IntervalsOfOne(year, head);
      if head.date.year == year {
        IntervalsAppend(year, [head], OfYear(year, tail));
      } else {
        assert OfYear(year, rs) == OfYear(year, tail);
      }
    }
  }

  /** The sorted import of `year` sees only the records of `year`. */
  lemma SortedIntervalsOfYear(year: int, rs: seq<Record>)
    ensures Intervals(year, SortByDate(rs)) == Intervals(year, SortByDate(OfYear(year, rs)))
  {
    IntervalsOfYear(year, SortByDate(rs));
    OfYearSort(year, rs);
  }

  /** Every interval comes from a record of the imported year. */
  lemma {:induction false} IntervalsFromYear(year: int, records: seq<Record>, iv: Interval)
    ensures iv in Intervals(year, records) <==>
              exists r :: r in records && r.date.year == year && iv in Halves(year, r)
    decreases |records|
  {
    if records != [] {
      var n := |records|;
      var front, last := records[..n - 1], records[n - 1];
      assert records == front + [last];
      IntervalsFromYear(year, front, iv);
      if iv in Intervals(year, records) {
        if iv in Halves(year, last) {
          assert last in records;
        } else {
          var r :| r in front && r.date.year == year && iv in Halves(year, r);
          assert r in records;
        }
      }
      if exists r :: r in records && r.date.year == year && iv in Halves(year, r) {
        var r :| r in records && r.date.year == year && iv in Halves(year, r);
        if r != last {
          assert r in front;
        }
      }
    }
  }

  /**
   * Each complete window of a record of the imported year is imported, its
   * ends read through the midnight sentinel.
   */
  lemma WindowsOfYearImported(year: int, records: seq<Record>, r: Record)
    requires r in records && r.date.year == year
    ensures r.from1.Some? && r.to1.Some? ==>
              Interval(StartDate(r.date, r.from1).value, EndDate(r.date, r.to1).value)
                in Intervals(year, records)
    ensures r.from2.Some? && r.to2.Some? ==>
              Interval(StartDate(r.date, r.from2).value, EndDate(r.date, r.to2).value)
                in Intervals(year, records)
  {
    var first := Pair(StartDate(r.date, r.from1), EndDate(r.date, r.to1));
    var second := Pair(StartDate(r.date, r.from2), EndDate(r.date, r.to2));
    assert Halves(year, r) == first + second;
    if r.from1.Some? && r.to1.Some? {
      var iv := Interval(StartDate(r.date, r.from1).value, EndDate(r.date, r.to1).value);
      assert iv in first;
      IntervalsFromYear(year, records, iv);
    }
    if r.from2.Some? && r.to2.Some? {
      var iv := Interval(StartDate(r.date, r.from2).value, EndDate(r.date, r.to2).value);
      assert iv in second;
      IntervalsFromYear(year, records, iv);
    }
  }

  /**
   * The feed's "whole day open" encoding: a day whose interval ends at
   * midnight of the next day becomes an interval ending at 23:59:59 of the
   * day itself (10 June 2024, a Monday of ISO week 24).
   */
  lemma MidnightSentinelExample()
    ensures
      var day := DateTime(2024, 6, 10, 162, 1, 24, 0, 0, 0);
      var from := DateTime(2024, 6, 10, 162, 1, 24, 8, 0, 0);
      var to := DateTime(2024, 6, 11, 163, 2, 24, 0, 0, 0);
      Halves(2024, Record(day, Some(from), Some(to), None, None))
        == [Interval(from, DateTime(2024, 6, 10, 162, 1, 24, 23, 59, 59))]
  {
  }
}
