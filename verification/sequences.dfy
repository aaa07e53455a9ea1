/**
 * The reference definition of what the sequence accumulator computes. Each
 * interval belongs to a slot: its start and end time of day (to the minute)
 * and the day of the week of its start. The intervals of one slot, taken in
 * the order they are stored, split into runs wherever the ISO week of an
 * interval is not exactly one more than the ISO week of the interval before
 * it; each run becomes one closed sequence anchored at its first interval and
 * valid until the end of its last one.
 */
module Sequences {

  import opened Wrappers
  import opened Dates
  import opened Seqs
  import opened Normaliser

  /** The `H:i-H:i` key: start and end time of day, to the minute. */
  datatype TimeKey = TimeKey(startHour: Hour, startMinute: Minute, endHour: Hour, endMinute: Minute)

  /** A time key together with the day of the week of the start. */
  datatype Slot = Slot(key: TimeKey, dayOfWeek: DayOfWeek)

  /** A closed sequence: its anchor interval and the end of its last interval. */
  datatype Sequence = Sequence(startDate: DateTime, endDate: DateTime, untilDate: DateTime)

  /** The running fields of a slot whose sequence is still open. */
  datatype Running = Running(startDate: DateTime, endDate: DateTime, untilDate: DateTime, lastWeekOfYear: int)

  /** What the accumulator holds for one slot. */
  datatype Entry = Entry(running: Option<Running>, sequences: seq<Sequence>)

  function KeyOf(start: DateTime, end: DateTime): TimeKey
  {
    TimeKey(start.hour, start.minute, end.hour, end.minute)
  }

  /** A number below 100 as two decimal digits, zero-padded, as `H` and `i` print it. */
  function TwoDigits(n: int): (s: string)
    requires 0 <= n < 100
    ensures |s| == 2 && '0' <= s[0] <= '9' && '0' <= s[1] <= '9'
    ensures (s[0] as int - '0' as int) * 10 + (s[1] as int - '0' as int) == n
  {
    [('0' as int + n / 10) as char, ('0' as int + n % 10) as char]
  }

  /** A date-time printed with the format `H:i`. */
  function HourMinute(t: DateTime): string
  {
    TwoDigits(t.hour) + ":" + TwoDigits(t.minute)
  }

  /** The text of a key: the start and the end printed with `H:i`, joined by `-`. */
  function KeyText(k: TimeKey): (s: string)
    ensures |s| == 11 && s[2] == ':' && s[5] == '-' && s[8] == ':'
    ensures s[..2] == TwoDigits(k.startHour) && s[3..5] == TwoDigits(k.startMinute)
    ensures s[6..8] == TwoDigits(k.endHour) && s[9..] == TwoDigits(k.endMinute)
  {
    TwoDigits(k.startHour) + ":" + TwoDigits(k.startMinute) + "-" + TwoDigits(k.endHour) + ":" + TwoDigits(k.endMinute)
  }

  /** The key of a window is the source's string key, `H:i` of the start, `-`, `H:i` of the end. */
  lemma KeyOfText(start: DateTime, end: DateTime)
    ensures KeyText(KeyOf(start, end)) == HourMinute(start) + "-" + HourMinute(end)
  {
  }

  /** Two keys print alike exactly when they are equal, so keying by `TimeKey` groups as the string key does. */
  lemma KeyTextInjective(a: TimeKey, b: TimeKey)
    ensures KeyText(a) == KeyText(b) <==> a == b
  {
    if KeyText(a) == KeyText(b) {
      var s := KeyText(a);
      assert TwoDigits(a.startHour) == s[..2] == TwoDigits(b.startHour);
      assert TwoDigits(a.startMinute) == s[3..5] == TwoDigits(b.startMinute);
      assert TwoDigits(a.endHour) == s[6..8] == TwoDigits(b.endHour);
      assert TwoDigits(a.endMinute) == s[9..] == TwoDigits(b.endMinute);
    }
  }

  function SlotOf(iv: Interval): Slot
  {
    Slot(KeyOf(iv.start, iv.end), iv.start.dayOfWeek)
  }

  function WeekOf(iv: Interval): int
  {
    iv.start.isoWeek
  }

  /** `b` falls in the ISO week right after the ISO week of `a`. */
  predicate NextWeek(a: Interval, b: Interval)
  {
    WeekOf(a) == WeekOf(b) - 1
  }

  /** A run is never empty. */
  type Run = run: seq<Interval> | run != []
    witness [Interval(DateTime(1970, 1, 1, 1, 4, 1, 0, 0, 0), DateTime(1970, 1, 1, 1, 4, 1, 0, 0, 0))]

  /** The intervals of `xs` that belong to slot `s`, in order. */
  function OfSlot(xs: seq<Interval>, s: Slot): seq<Interval>
  {
    if xs == [] then []
    else
      var x := Last(xs);
      OfSlot(xs[..|xs| - 1], s) + (if SlotOf(x) == s then [x] else [])
  }

  /** The maximal weekly runs of `ys`. */
  function Runs(ys: seq<Interval>): (rs: seq<Run>)
    ensures rs == [] <==> ys == []
  {
    if ys == [] then []
    else
      var rs := Runs(ys[..|ys| - 1]);
      var y := Last(ys);
      if rs != [] && NextWeek(Last(Last(rs)), y) then rs[..|rs| - 1] + [Last(rs) + [y]]
      else rs + [[y]]
  }

  /** The closed sequence a run stands for. */
  function Closure(run: Run): Sequence
  {
    Sequence(run[0].start, run[0].end, Last(run).end)
  }

  function ClosedRuns(rs: seq<Run>): (qs: seq<Sequence>)
    ensures |qs| == |rs|
  {
    if rs == [] then [] else ClosedRuns(rs[..|rs| - 1]) + [Closure(Last(rs))]
  }

  /** The running fields of a slot whose open run is `run`. */
  function RunningOf(run: Run): Running
  {
    Running(run[0].start, run[0].end, Last(run).end, WeekOf(Last(run)))
  }

  /** Closing a slot's running fields. */
  function Close(r: Running): Sequence
  {
    Sequence(r.startDate, r.endDate, r.untilDate)
  }

  /** Closing the running fields of a run gives the sequence the run stands for. */
  lemma CloseOfRun(run: Run)
    ensures Close(RunningOf(run)) == Closure(run)
  {
  }

  /**
   * What the accumulator holds for slot `s` once the intervals `xs` are
   * stored: every run but the last closed, the last one running.
   */
  function Open(xs: seq<Interval>, s: Slot): Entry
    requires OfSlot(xs, s) != []
  {
    var rs := Runs(OfSlot(xs, s));
    Entry(Some(RunningOf(Last(rs))), ClosedRuns(rs[..|rs| - 1]))
  }

  /** The closed sequences of slot `s` after the final closing pass. */
  function SequencesFor(xs: seq<Interval>, s: Slot): seq<Sequence>
  {
    ClosedRuns(Runs(OfSlot(xs, s)))
  }

  lemma {:induction false} OfSlotMembers(xs: seq<Interval>, s: Slot)
    ensures forall y :: y in OfSlot(xs, s) ==> y in xs && SlotOf(y) == s
    decreases |xs|
  {
    if xs != [] {
      OfSlotMembers(xs[..|xs| - 1], s);
    }
  }

  lemma {:induction false} ClosedRunsAt(rs: seq<Run>, j: nat)
    requires j < |rs|
    ensures ClosedRuns(rs)[j] == Closure(rs[j])
    decreases |rs|
  {
    if j < |rs| - 1 {
      ClosedRunsAt(rs[..|rs| - 1], j);
    }
  }

  // ---------------------------------------------------------------------------
  // First-seen order of keys and of days within a key
  // ---------------------------------------------------------------------------

  /** The time keys of `xs` in the order they are first seen. */
  function KeyOrder(xs: seq<Interval>): (ks: seq<TimeKey>)
    ensures Distinct(ks) && |ks| <= |xs|
  {
    if xs == [] then []
    else
      var ks := KeyOrder(xs[..|xs| - 1]);
      AppendNewDistinct(ks, SlotOf(Last(xs)).key);
      AppendNew(ks, SlotOf(Last(xs)).key)
  }

  /** The days of the week seen under time key `k`, in the order first seen. */
  function DayOrder(xs: seq<Interval>, k: TimeKey): (ds: seq<DayOfWeek>)
    ensures Distinct(ds) && |ds| <= |xs|
  {
    if xs == [] then []
    else
      var d := DayOrder(xs[..|xs| - 1], k);
      var s := SlotOf(Last(xs));
      AppendNewDistinct(d, s.dayOfWeek);
      if s.key == k then AppendNew(d, s.dayOfWeek) else d
  }

  /** The sequences of the days `ds` under key `k`, day by day. */
  function DaySequences(xs: seq<Interval>, k: TimeKey, ds: seq<DayOfWeek>): seq<Sequence>
  {
    if ds == [] then []
    else DaySequences(xs, k, ds[..|ds| - 1]) + SequencesFor(xs, Slot(k, Last(ds)))
  }

  /** The sequences of the keys `ks`, key by key. */
  function KeySequences(xs: seq<Interval>, ks: seq<TimeKey>): seq<Sequence>
  {
    if ks == [] then []
    else KeySequences(xs, ks[..|ks| - 1]) + DaySequences(xs, Last(ks), DayOrder(xs, Last(ks)))
  }

  /**
   * All closed sequences, keys in first-seen order, days of a key in
   * first-seen order, runs of a slot in stored order.
   */
  function AllSequences(xs: seq<Interval>): seq<Sequence>
  {
    KeySequences(xs, KeyOrder(xs))
  }

  lemma DaySequencesSnoc(xs: seq<Interval>, k: TimeKey, ds: seq<DayOfWeek>, j: nat)
    requires j < |ds|
    ensures DaySequences(xs, k, ds[..j + 1]) == DaySequences(xs, k, ds[..j]) + SequencesFor(xs, Slot(k, ds[j]))
  {
    assert ds[..j + 1][..j] == ds[..j];
  }

  lemma KeySequencesSnoc(xs: seq<Interval>, ks: seq<TimeKey>, i: nat)
    requires i < |ks|
    ensures KeySequences(xs, ks[..i + 1]) == KeySequences(xs, ks[..i]) + DaySequences(xs, ks[i], DayOrder(xs, ks[i]))
  {
    assert ks[..i + 1][..i] == ks[..i];
  }

  // ---------------------------------------------------------------------------
  // One more stored interval
  // ---------------------------------------------------------------------------

  lemma OfSlotSnoc(xs: seq<Interval>, iv: Interval, s: Slot)
    ensures OfSlot(xs + [iv], s) == OfSlot(xs, s) + (if SlotOf(iv) == s then [iv] else [])
  {
    assert (xs + [iv])[..|xs|] == xs;
  }

  lemma KeyOrderSnoc(xs: seq<Interval>, iv: Interval)
    ensures KeyOrder(xs + [iv]) == AppendNew(KeyOrder(xs), SlotOf(iv).key)
  {
    assert (xs + [iv])[..|xs|] == xs;
  }

  lemma DayOrderSnoc(xs: seq<Interval>, iv: Interval, k: TimeKey)
    ensures DayOrder(xs + [iv], k)
         == if SlotOf(iv).key == k then AppendNew(DayOrder(xs, k), SlotOf(iv).dayOfWeek) else DayOrder(xs, k)
  {
    assert (xs + [iv])[..|xs|] == xs;
  }

  /**
   * How the entry of the slot of a newly stored interval `iv` changes: a new
   * slot opens a run; an interval in the ISO week right after the last one
   * extends the open run (only its until date and week change); any other
   * week closes the open run and opens a new one.
   */
  lemma {:induction false} OpenStep(xs: seq<Interval>, iv: Interval)
    ensures var s := SlotOf(iv);
      && OfSlot(xs + [iv], s) != []
      && (OfSlot(xs, s) == [] ==>
            Open(xs + [iv], s) == Entry(Some(Running(iv.start, iv.end, iv.end, WeekOf(iv))), []))
      && (OfSlot(xs, s) != [] && Open(xs, s).running.value.lastWeekOfYear == WeekOf(iv) - 1 ==>
            Open(xs + [iv], s)
              == Entry(Some(Open(xs, s).running.value.(untilDate := iv.end, lastWeekOfYear := WeekOf(iv))),
                       Open(xs, s).sequences))
      && (OfSlot(xs, s) != [] && Open(xs, s).running.value.lastWeekOfYear != WeekOf(iv) - 1 ==>
            Open(xs + [iv], s)
              == Entry(Some(Running(iv.start, iv.end, iv.end, WeekOf(iv))),
                       Open(xs, s).sequences + [Close(Open(xs, s).running.value)]))
  {
    var s := SlotOf(iv);
    OfSlotSnoc(xs, iv, s);
    var ys := OfSlot(xs, s);
    var ys' := OfSlot(xs + [iv], s);
    assert ys' == ys + [iv];
    assert ys'[..|ys'| - 1] == ys;
    var rs := Runs(ys);
    var rs' := Runs(ys');
    if ys != [] {
      var n := |rs|;
      if NextWeek(Last(Last(rs)), iv) {
        assert rs' == rs[..n - 1] + [Last(rs) + [iv]];
        assert rs'[..n - 1] == rs[..n - 1];
      } else {
        assert rs' == rs + [[iv]];
        assert rs'[..n] == rs;
        assert rs == rs[..n - 1] + [Last(rs)];
        assert ClosedRuns(rs) == ClosedRuns(rs[..n - 1]) + [Closure(Last(rs))];
      }
    }
  }

  /** Closing the open run of an entry gives all the slot's sequences. */
  lemma FinishOpen(xs: seq<Interval>, s: Slot)
    requires OfSlot(xs, s) != []
    ensures Open(xs, s).sequences + [Close(Open(xs, s).running.value)] == SequencesFor(xs, s)
  {
    var rs := Runs(OfSlot(xs, s));
    assert rs == rs[..|rs| - 1] + [Last(rs)];
  }

  // ---------------------------------------------------------------------------
  // Properties of the first-seen orders
  // ---------------------------------------------------------------------------

  lemma {:induction false} DayOrderMembership(xs: seq<Interval>, k: TimeKey, d: DayOfWeek)
    ensures d in DayOrder(xs, k) <==> OfSlot(xs, Slot(k, d)) != []
    ensures Distinct(DayOrder(xs, k))
    decreases |xs|
  {
    if xs != [] {
      var init, last := xs[..|xs| - 1], Last(xs);
      DayOrderMembership(init, k, d);
      FrontLast(xs);
      OfSlotSnoc(init, last, Slot(k, d));
      DayOrderSnoc(init, last, k);
      if SlotOf(last).key == k {
        AppendNewMembers(DayOrder(init, k), SlotOf(last).dayOfWeek, d);
      }
    }
  }

  lemma {:induction false} KeyOrderMembership(xs: seq<Interval>, k: TimeKey)
    ensures k in KeyOrder(xs) <==> DayOrder(xs, k) != []
    ensures Distinct(KeyOrder(xs))
    decreases |xs|
  {
    if xs != [] {
      var init := xs[..|xs| - 1];
      KeyOrderMembership(init, k);
      DayOrderMembership(init, k, 0);
    }
  }

  // ---------------------------------------------------------------------------
  // Runs: a partition of the slot's intervals into maximal weekly runs
  // ---------------------------------------------------------------------------

  /** Consecutive intervals of `run` are in consecutive ISO weeks. */
  predicate Weekly(run: seq<Interval>)
  {
    forall i :: 0 < i < |run| ==> NextWeek(run[i - 1], run[i])
  }

  /** No run could be continued by the first interval of the run after it. */
  predicate Maximal(rs: seq<Run>)
  {
    forall j :: 0 < j < |rs| ==> !NextWeek(Last(rs[j - 1]), rs[j][0])
  }

  /** Concatenated, the runs give back the intervals in order: none is lost. */
  lemma {:induction false} RunsFlatten(ys: seq<Interval>)
    ensures Flatten(Runs(ys)) == ys
    decreases |ys|
  {
    if ys != [] {
      var init, y := ys[..|ys| - 1], Last(ys);
      var rs := Runs(init);
      RunsFlatten(init);
      if rs != [] && NextWeek(Last(Last(rs)), y) {
        assert Runs(ys) == rs[..|rs| - 1] + [Last(rs) + [y]];
        FlattenGrowLast(rs, y);
      } else {
        assert Runs(ys) == rs + [[y]];
        FlattenSnoc(rs, [y]);
      }
      FrontLast(ys);
    }
  }

  /** Each run is a chain of consecutive ISO weeks. */
  lemma {:induction false} RunsWeekly(ys: seq<Interval>)
    ensures forall j :: 0 <= j < |Runs(ys)| ==> Weekly(Runs(ys)[j])
    decreases |ys|
  {
    if ys != [] {
      var init := ys[..|ys| - 1];
      var y := Last(ys);
      RunsWeekly(init);
      var rs := Runs(init);
      var rs' := Runs(ys);
      if rs != [] && NextWeek(Last(Last(rs)), y) {
        var n := |rs|;
        assert rs'[n - 1] == rs[n - 1] + [y];
        forall j | 0 <= j < |rs'| ensures Weekly(rs'[j]) {
          if j < n - 1 {
            assert rs'[j] == rs[j];
          } else {
            assert Weekly(rs[n - 1]);
          }
        }
      } else {
        forall j | 0 <= j < |rs'| ensures Weekly(rs'[j]) {
          if j < |rs| {
            assert rs'[j] == rs[j];
          }
        }
      }
    }
  }

  /** A run ends exactly where the next interval is not in the next ISO week. */
  lemma {:induction false} RunsMaximal(ys: seq<Interval>)
    ensures Maximal(Runs(ys))
    decreases |ys|
  {
    if ys != [] {
      var init := ys[..|ys| - 1];
      var y := Last(ys);
      RunsMaximal(init);
      var rs := Runs(init);
      var rs' := Runs(ys);
      if rs != [] && NextWeek(Last(Last(rs)), y) {
        var n := |rs|;
        assert rs'[n - 1] == rs[n - 1] + [y];
        forall j | 0 < j < |rs'| ensures !NextWeek(Last(rs'[j - 1]), rs'[j][0]) {
          assert rs'[j - 1] == rs[j - 1];
          if j < n - 1 {
            assert rs'[j] == rs[j];
          } else {
            assert rs'[j][0] == rs[j][0];
          }
        }
      } else {
        forall j | 0 < j < |rs'| ensures !NextWeek(Last(rs'[j - 1]), rs'[j][0]) {
          assert rs'[j - 1] == rs[j - 1];
          if j < |rs| {
            assert rs'[j] == rs[j];
          }
        }
      }
    }
  }

  /** The number of places where the next interval is not in the next ISO week. */
  function Breaks(ys: seq<Interval>): nat
  {
    if |ys| < 2 then 0
    else Breaks(ys[..|ys| - 1]) + (if NextWeek(ys[|ys| - 2], Last(ys)) then 0 else 1)
  }

  /** A slot ends with one sequence, plus one more for every break. */
  lemma {:induction false} RunCount(ys: seq<Interval>)
    requires ys != []
    ensures |Runs(ys)| == 1 + Breaks(ys)
    ensures Last(Last(Runs(ys))) == Last(ys)
    decreases |ys|
  {
    var init := ys[..|ys| - 1];
    if init != [] {
      RunCount(init);
      assert Last(init) == ys[|ys| - 2];
    }
  }

  /** Every interval of a slot's sequence shares the slot's times and day. */
  lemma SequencesKeyed(xs: seq<Interval>, s: Slot)
    ensures forall q :: q in SequencesFor(xs, s) ==>
              && KeyOf(q.startDate, q.endDate) == s.key
              && q.startDate.dayOfWeek == s.dayOfWeek
              && q.untilDate.hour == q.endDate.hour && q.untilDate.minute == q.endDate.minute
  {
    var ys := OfSlot(xs, s);
    var rs := Runs(ys);
    RunsFlatten(ys);
    OfSlotMembers(xs, s);
    forall q | q in SequencesFor(xs, s)
      ensures KeyOf(q.startDate, q.endDate) == s.key && q.startDate.dayOfWeek == s.dayOfWeek
      ensures q.untilDate.hour == q.endDate.hour && q.untilDate.minute == q.endDate.minute
    {
      var j :| 0 <= j < |ClosedRuns(rs)| && ClosedRuns(rs)[j] == q;
      ClosedRunsAt(rs, j);
      FlattenMember(rs, j, 0);
      FlattenMember(rs, j, |rs[j]| - 1);
    }
  }

  // ---------------------------------------------------------------------------
  // Across slots: every interval ends up in a listed sequence
  // ---------------------------------------------------------------------------

  /** An interval is among the intervals of its own slot. */
  lemma {:induction false} OfSlotComplete(xs: seq<Interval>, x: Interval)
    requires x in xs
    ensures x in OfSlot(xs, SlotOf(x))
    decreases |xs|
  {
    var init := xs[..|xs| - 1];
    FrontLast(xs);
    if x != Last(xs) {
      OfSlotComplete(init, x);
    }
  }

  /** The sequences listed for the days `ds` of key `k` are those of the slots of these days. */
  lemma {:induction false} DaySequencesMembers(xs: seq<Interval>, k: TimeKey, ds: seq<DayOfWeek>)
    ensures forall q :: q in DaySequences(xs, k, ds) <==> exists d :: d in ds && q in SequencesFor(xs, Slot(k, d))
    decreases |ds|
  {
    if ds != [] {
      var init := ds[..|ds| - 1];
      DaySequencesMembers(xs, k, init);
      FrontLast(ds);
      forall q ensures q in DaySequences(xs, k, ds) <==> exists d :: d in ds && q in SequencesFor(xs, Slot(k, d)) {
        if q in DaySequences(xs, k, init) {
          var d :| d in init && q in SequencesFor(xs, Slot(k, d));
          assert d in ds;
        }
        if d :| d in ds && q in SequencesFor(xs, Slot(k, d)) {
          if d !in init {
            assert d == Last(ds);
          }
        }
      }
    }
  }

  /** The sequences listed for the keys `ks` are those of the days listed under these keys. */
  lemma {:induction false} KeySequencesMembers(xs: seq<Interval>, ks: seq<TimeKey>)
    ensures forall q :: q in KeySequences(xs, ks) <==>
              exists k :: k in ks && q in DaySequences(xs, k, DayOrder(xs, k))
    decreases |ks|
  {
    if ks != [] {
      var init := ks[..|ks| - 1];
      KeySequencesMembers(xs, init);
      FrontLast(ks);
      forall q ensures q in KeySequences(xs, ks) <==> exists k :: k in ks && q in DaySequences(xs, k, DayOrder(xs, k)) {
        if q in KeySequences(xs, init) {
          var k :| k in init && q in DaySequences(xs, k, DayOrder(xs, k));
          assert k in ks;
        }
        if k :| k in ks && q in DaySequences(xs, k, DayOrder(xs, k)) {
          if k !in init {
            assert k == Last(ks);
          }
        }
      }
    }
  }

  /**
   * The listed sequences are exactly the sequences of the slots: none is
   * left out and none is made up.
   */
  lemma AllSequencesMembers(xs: seq<Interval>, q: Sequence)
    ensures q in AllSequences(xs) <==> exists s :: q in SequencesFor(xs, s)
  {
    KeySequencesMembers(xs, KeyOrder(xs));
    if q in AllSequences(xs) {
      var k :| k in KeyOrder(xs) && q in DaySequences(xs, k, DayOrder(xs, k));
      DaySequencesMembers(xs, k, DayOrder(xs, k));
      var d :| d in DayOrder(xs, k) && q in SequencesFor(xs, Slot(k, d));
    }
    if s :| q in SequencesFor(xs, s) {
      DayOrderMembership(xs, s.key, s.dayOfWeek);
      KeyOrderMembership(xs, s.key);
      DaySequencesMembers(xs, s.key, DayOrder(xs, s.key));
      assert s == Slot(s.key, s.dayOfWeek);
    }
  }

  /**
   * No interval is lost: every stored interval lies in a run of its slot,
   * and the sequence that run closes to is listed.
   */
  lemma NoIntervalLost(xs: seq<Interval>, x: Interval)
    requires x in xs
    ensures var rs := Runs(OfSlot(xs, SlotOf(x)));
            exists j :: 0 <= j < |rs| && x in rs[j] && Closure(rs[j]) in AllSequences(xs)
  {
    var s := SlotOf(x);
    var ys := OfSlot(xs, s);
    var rs := Runs(ys);
    OfSlotComplete(xs, x);
    RunsFlatten(ys);
    FlattenFind(rs, x);
    var j :| 0 <= j < |rs| && x in rs[j];
    ClosedRunsAt(rs, j);
    assert Closure(rs[j]) in SequencesFor(xs, s);
    AllSequencesMembers(xs, Closure(rs[j]));
  }

  // ---------------------------------------------------------------------------
  // How many sequences there are
  // ---------------------------------------------------------------------------

  /** The number of (key, weekday) slots in use under the keys `ks`. */
  function EntryCount(xs: seq<Interval>, ks: seq<TimeKey>): nat
  {
    if ks == [] then 0 else EntryCount(xs, ks[..|ks| - 1]) + |DayOrder(xs, Last(ks))|
  }

  /** The breaks of the slots of key `k` on the days `ds`, summed. */
  function DayBreaks(xs: seq<Interval>, k: TimeKey, ds: seq<DayOfWeek>): nat
  {
    if ds == [] then 0 else DayBreaks(xs, k, ds[..|ds| - 1]) + Breaks(OfSlot(xs, Slot(k, Last(ds))))
  }

  /** The breaks of the slots of the keys `ks` on their days, summed. */
  function KeyBreaks(xs: seq<Interval>, ks: seq<TimeKey>): nat
  {
    if ks == [] then 0 else KeyBreaks(xs, ks[..|ks| - 1]) + DayBreaks(xs, Last(ks), DayOrder(xs, Last(ks)))
  }

  /** Each listed day of a key gives one sequence, plus one for every break. */
  lemma {:induction false} DayCount(xs: seq<Interval>, k: TimeKey, ds: seq<DayOfWeek>)
    requires forall d :: d in ds ==> OfSlot(xs, Slot(k, d)) != []
    ensures |DaySequences(xs, k, ds)| == |ds| + DayBreaks(xs, k, ds)
    decreases |ds|
  {
    if ds != [] {
      var front, d := ds[..|ds| - 1], Last(ds);
      FrontLast(ds);
      assert forall e :: e in front ==> e in ds;
      DayCount(xs, k, front);
      assert d in ds;
      RunCount(OfSlot(xs, Slot(k, d)));
    }
  }

  /** Each slot in use under the keys `ks` gives one sequence, plus one for every break. */
  lemma {:induction false} KeyCount(xs: seq<Interval>, ks: seq<TimeKey>)
    ensures |KeySequences(xs, ks)| == EntryCount(xs, ks) + KeyBreaks(xs, ks)
    decreases |ks|
  {
    if ks != [] {
      var k := Last(ks);
      KeyCount(xs, ks[..|ks| - 1]);
      forall d | d in DayOrder(xs, k)
        ensures OfSlot(xs, Slot(k, d)) != []
      {
        DayOrderMembership(xs, k, d);
      }
      DayCount(xs, k, DayOrder(xs, k));
    }
  }

  /**
   * The import lists one sequence for every (key, weekday) slot in use, plus
   * one for every break in the weekly succession of a slot.
   */
  lemma TotalCount(xs: seq<Interval>)
    ensures |AllSequences(xs)| == EntryCount(xs, KeyOrder(xs)) + KeyBreaks(xs, KeyOrder(xs))
  {
    KeyCount(xs, KeyOrder(xs));
  }
}
