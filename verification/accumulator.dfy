/**
 * The sequence accumulator of the importer: a table that the import loop
 * updates in place, one start/end pair at a time, and that a final pass
 * closes and flattens into one ordered list of sequences.
 */
module Accumulator {

  import opened Wrappers
  import opened Dates
  import opened Seqs
  import opened Normaliser
  import opened Sequences

  // ---------------------------------------------------------------------------
  // The table's state, as values
  // ---------------------------------------------------------------------------

  /** The slots present are exactly those of the stored intervals `xs`. */
  ghost predicate SlotsOf(xs: seq<Interval>, entries: map<Slot, Entry>)
  {
    forall s :: s in entries <==> OfSlot(xs, s) != []
  }

  /** Each slot holds its runs of `xs`, the last one still open. */
  ghost predicate AllOpen(xs: seq<Interval>, entries: map<Slot, Entry>)
  {
    && SlotsOf(xs, entries)
    && forall s :: s in entries ==> entries[s] == Open(xs, s)
  }

  /** Each slot holds all its closed sequences and nothing running. */
  ghost predicate AllClosed(xs: seq<Interval>, entries: map<Slot, Entry>)
  {
    && SlotsOf(xs, entries)
    && forall s :: s in entries ==> entries[s] == Entry(None, SequencesFor(xs, s))
  }

  /** Keys are listed once each, with their days in the order first stored. */
  ghost predicate DaysOf(xs: seq<Interval>, keys: seq<TimeKey>, days: map<TimeKey, seq<DayOfWeek>>)
  {
    && Distinct(keys)
    && (forall k :: k in days <==> k in keys)
    && (forall k :: k in days ==> days[k] == DayOrder(xs, k))
    && (forall k :: DayOrder(xs, k) != [] ==> k in days)
  }

  /** The entry after the closing pass has closed its running fields. */
  function Finish(entry: Entry): Entry
    requires entry.running.Some?
  {
    Entry(None, entry.sequences + [Close(entry.running.value)])
  }

  /**
   * Closing the entry that holds a slot's open run leaves nothing running and
   * the slot's complete list of sequences.
   */
  lemma FinishOfOpen(xs: seq<Interval>, s: Slot)
    requires OfSlot(xs, s) != []
    ensures Finish(Open(xs, s)) == Entry(None, SequencesFor(xs, s))
  {
    FinishOpen(xs, s);
  }

  /** The slot has running fields. */
  predicate Continues(before: Option<Entry>)
  {
    before.Some? && before.value.running.Some?
  }

  /** The slot's running fields were last seen in the ISO week before `start`'s. */
  predicate Extends(before: Option<Entry>, start: DateTime)
  {
    Continues(before) && before.value.running.value.lastWeekOfYear == start.isoWeek - 1
  }

  /**
   * The entry of the slot of the pair `start`/`end` once the pair is stored,
   * from the slot's entry before, if any. Without running fields the pair
   * opens a run; a pair in the ISO week right after the running one extends
   * it; any other pair closes it and opens a new run.
   */
  function NextEntry(before: Option<Entry>, start: DateTime, end: DateTime): (r: Entry)
    ensures r.running.Some? && r.running.value.untilDate == end && r.running.value.lastWeekOfYear == start.isoWeek
    ensures before.None? ==> r.sequences == []
    ensures before.Some? ==> before.value.sequences <= r.sequences
    ensures var n := if before.Some? then |before.value.sequences| else 0;
            |r.sequences| <= n + 1 &&
            (|r.sequences| == n + 1 <==> Continues(before) && !Extends(before, start))
    ensures Continues(before) && !Extends(before, start) ==>
              Last(r.sequences) == Close(before.value.running.value)
    ensures Extends(before, start) ==>
              r.running.value.startDate == before.value.running.value.startDate &&
              r.running.value.endDate == before.value.running.value.endDate
    ensures !Extends(before, start) ==> r.running.value.startDate == start && r.running.value.endDate == end
  {
    if before.None? || before.value.running.None? then
      Entry(Some(Running(start, end, end, start.isoWeek)), if before.Some? then before.value.sequences else [])
    else
      var running := before.value.running.value;
      if running.lastWeekOfYear == start.isoWeek - 1 then
        Entry(Some(running.(untilDate := end, lastWeekOfYear := start.isoWeek)), before.value.sequences)
      else
        Entry(Some(Running(start, end, end, start.isoWeek)), before.value.sequences + [Close(running)])
  }

  /** Every entry still has its running fields. */
  ghost predicate AllRunning(entries: map<Slot, Entry>)
  {
    forall s :: s in entries ==> entries[s].running.Some?
  }

  lemma OpenIsRunning(xs: seq<Interval>, entries: map<Slot, Entry>)
    requires AllOpen(xs, entries)
    ensures AllRunning(entries)
  {
  }

  /** Storing `iv` changes the entry of its slot only, to the next open state. */
  lemma EntriesStep(xs: seq<Interval>, iv: Interval, e0: map<Slot, Entry>, e1: map<Slot, Entry>)
    requires AllOpen(xs, e0)
    requires OfSlot(xs + [iv], SlotOf(iv)) != []
    requires e1 == e0[SlotOf(iv) := Open(xs + [iv], SlotOf(iv))]
    ensures AllOpen(xs + [iv], e1)
  {
    var slot := SlotOf(iv);
    forall t ensures t in e1 <==> OfSlot(xs + [iv], t) != [] {
      OfSlotSnoc(xs, iv, t);
    }
    forall t | t in e1 ensures e1[t] == Open(xs + [iv], t) {
      if t != slot {
        OfSlotSnoc(xs, iv, t);
        assert OfSlot(xs + [iv], t) == OfSlot(xs, t);
        assert e1[t] == e0[t];
      }
    }
  }

  /** The reference entry of the slot of `iv` moves on exactly as `NextEntry` says. */
  lemma NextEntryOpens(xs: seq<Interval>, iv: Interval)
    ensures OfSlot(xs + [iv], SlotOf(iv)) != []
    ensures var s := SlotOf(iv);
      Open(xs + [iv], s) == NextEntry(if OfSlot(xs, s) != [] then Some(Open(xs, s)) else None, iv.start, iv.end)
  {
    OpenStep(xs, iv);
  }

  /** Updating the slot of `iv` by `NextEntry` keeps every entry equal to its reference entry. */
  lemma StoreStep(xs: seq<Interval>, iv: Interval, e0: map<Slot, Entry>, e1: map<Slot, Entry>)
    requires AllOpen(xs, e0)
    requires e1 == e0[SlotOf(iv) := NextEntry(
               if SlotOf(iv) in e0 then Some(e0[SlotOf(iv)]) else None, iv.start, iv.end)]
    ensures AllOpen(xs + [iv], e1)
  {
    NextEntryOpens(xs, iv);
    EntriesStep(xs, iv, e0, e1);
  }

  /** Storing `iv` adds its key and day, if new, at the end of their orders. */
  lemma OrderStep(xs: seq<Interval>, iv: Interval,
                  k0: seq<TimeKey>, d0: map<TimeKey, seq<DayOfWeek>>,
                  k1: seq<TimeKey>, d1: map<TimeKey, seq<DayOfWeek>>)
    requires DaysOf(xs, k0, d0) && k0 == KeyOrder(xs)
    requires k1 == AppendNew(k0, SlotOf(iv).key)
    requires d1 == d0[SlotOf(iv).key :=
               AppendNew(if SlotOf(iv).key in d0 then d0[SlotOf(iv).key] else [], SlotOf(iv).dayOfWeek)]
    ensures DaysOf(xs + [iv], k1, d1) && k1 == KeyOrder(xs + [iv])
  {
    var key := SlotOf(iv).key;
    KeyOrderSnoc(xs, iv);
    KeyOrderMembership(xs + [iv], key);
    KeyOrderMembership(xs, key);
    forall k ensures DayOrder(xs + [iv], k)
                  == if k == key then AppendNew(DayOrder(xs, k), SlotOf(iv).dayOfWeek) else DayOrder(xs, k) {
      DayOrderSnoc(xs, iv, k);
    }
  }

  /** The days listed under `key` are exactly the days of its slots, each once. */
  lemma KeyDays(xs: seq<Interval>, keys: seq<TimeKey>, days: map<TimeKey, seq<DayOfWeek>>,
                entries: map<Slot, Entry>, key: TimeKey)
    requires DaysOf(xs, keys, days) && SlotsOf(xs, entries) && key in days
    ensures Distinct(days[key])
    ensures forall d :: d in days[key] <==> Slot(key, d) in entries
  {
    forall d ensures d in days[key] <==> Slot(key, d) in entries {
      DayOrderMembership(xs, key, d);
    }
    DayOrderMembership(xs, key, 0);
  }

  /** Finishing every open entry gives every slot all its closed sequences. */
  lemma FinishAll(xs: seq<Interval>, e0: map<Slot, Entry>, e1: map<Slot, Entry>)
    requires AllOpen(xs, e0)
    requires e1.Keys == e0.Keys
    requires forall s :: s in e1 ==> e1[s] == Finish(e0[s])
    ensures AllClosed(xs, e1)
  {
    forall s | s in e1 ensures e1[s] == Entry(None, SequencesFor(xs, s)) {
      FinishOfOpen(xs, s);
    }
  }

  /** Appends each of `found` to `r`, one at a time. */
  method AppendEach(r: seq<Sequence>, found: seq<Sequence>) returns (out: seq<Sequence>)
    ensures out == r + found
  {
    out := r;
    var m := 0;
    while m < |found|
      invariant 0 <= m <= |found|
      invariant out == r + found[..m]
    {
      out := out + [found[m]];
      assert found[..m + 1] == found[..m] + [found[m]];
      m := m + 1;
    }
    assert found[..m] == found;
  }

  /**
   * The importer's nested table, indexed by time key and then by day of the
   * week. `keys` holds the time keys in the order they were first stored,
   * `days` the days of each key in the order they were first stored, and
   * `entries` what is held for each slot. `stored` is the list of intervals
   * stored so far.
   */
  class SequenceTable {
    var keys: seq<TimeKey>
    var days: map<TimeKey, seq<DayOfWeek>>
    var entries: map<Slot, Entry>
    ghost var stored: seq<Interval>

    /** The slots, keys and days of the table are those of the stored intervals. */
    ghost predicate Valid()
      reads this
    {
      DaysOf(stored, keys, days) && SlotsOf(stored, entries)
    }

    /** The keys are in the order first stored. */
    ghost predicate KeysInOrder()
      reads this
    {
      keys == KeyOrder(stored)
    }

    /** While intervals are stored: each slot's runs, the last one still open. */
    ghost predicate Accumulating()
      reads this
    {
      Valid() && AllOpen(stored, entries)
    }

    /** After the closing pass: each slot holds all its closed sequences. */
    ghost predicate Completed()
      reads this
    {
      Valid() && AllClosed(stored, entries)
    }

    constructor ()
      ensures Accumulating() && KeysInOrder()
      ensures stored == [] && keys == [] && days == map[] && entries == map[]
    {
      keys, days, entries := [], map[], map[];
      stored := [];
    }

    /**
     * Stores one start/end pair. A pair missing either end changes nothing.
     * Otherwise the pair's slot opens a run when it is new, extends its open
     * run when the pair is in the ISO week right after the run's last week,
     * and otherwise closes the open run and opens a new one.
     */
    method Store(start: Option<DateTime>, end: Option<DateTime>)
      requires Accumulating() && KeysInOrder()
      modifies this
      ensures Accumulating() && KeysInOrder()
      ensures stored == old(stored) + Pair(start, end)
      ensures start.None? || end.None? ==>
                keys == old(keys) && days == old(days) && entries == old(entries)
      ensures start.Some? && end.Some? ==>
                var slot := SlotOf(Interval(start.value, end.value));
                && keys == AppendNew(old(keys), slot.key)
                && days == old(days)[slot.key :=
                     AppendNew(if slot.key in old(days) then old(days)[slot.key] else [], slot.dayOfWeek)]
      ensures start.Some? && end.Some? ==>
                var slot := SlotOf(Interval(start.value, end.value));
                entries == old(entries)[slot := NextEntry(
                  if slot in old(entries) then Some(old(entries)[slot]) else None, start.value, end.value)]
    {
      if start.None? || end.None? {
        return;
      }
      var s, e := start.value, end.value;
      var key := KeyOf(s, e);
      var dayOfWeek := s.dayOfWeek;
      var weekOfYear: int := s.isoWeek;
      var slot := Slot(key, dayOfWeek);
      ghost var iv := Interval(s, e);
      ghost var xs := stored;
      ghost var before := if slot in entries then Some(entries[slot]) else None;

      var sequences := if slot in entries then entries[slot].sequences else [];
      var next: Entry;
      if slot !in entries || entries[slot].running.None? {
        // no week recorded for the slot: a run opens
        next := Entry(Some(Running(s, e, e, weekOfYear)), sequences);
      } else if entries[slot].running.value.lastWeekOfYear == weekOfYear - 1 {
        var entry := entries[slot];
        next := Entry(Some(entry.running.value.(untilDate := e, lastWeekOfYear := weekOfYear)), entry.sequences);
      } else {
        var entry := entries[slot];
        next := Entry(Some(Running(s, e, e, weekOfYear)), entry.sequences + [Close(entry.running.value)]);
      }
      assert next == NextEntry(before, s, e);
      entries := entries[slot := next];
      StoreStep(xs, iv, old(entries), entries);
      NoteSlot(key, dayOfWeek);
      stored := xs + [iv];
      OrderStep(xs, iv, old(keys), old(days), keys, days);
    }

    /** Lists the key and, under it, the weekday, each only when not listed yet. */
    method NoteSlot(key: TimeKey, dayOfWeek: DayOfWeek)
      requires key in days <==> key in keys
      modifies this
      ensures keys == AppendNew(old(keys), key)
      ensures days == old(days)[key := AppendNew(if key in old(days) then old(days)[key] else [], dayOfWeek)]
      ensures entries == old(entries) && stored == old(stored)
    {
      if key !in days {
        keys := keys + [key];
        days := days[key := [dayOfWeek]];
        assert [dayOfWeek] == AppendNew([], dayOfWeek);
      } else if dayOfWeek !in days[key] {
        days := days[key := days[key] + [dayOfWeek]];
      } else {
        assert days == days[key := days[key]];
      }
    }

    /**
     * The closing pass: every slot's running fields become one more closed
     * sequence, and the running fields are removed.
     */
    method Complete()
      requires Valid() && AllRunning(entries)
      modifies this
      ensures Valid()
      ensures old(Accumulating()) ==> Completed()
      ensures keys == old(keys) && days == old(days) && stored == old(stored)
      ensures entries.Keys == old(entries).Keys
      ensures forall s :: s in entries ==> entries[s] == Finish(old(entries)[s])
    {
      ghost var e0 := entries;
      ghost var done: set<TimeKey> := {};
      var i := 0;
      while i < |keys|
        invariant 0 <= i <= |keys|
        invariant keys == old(keys) && days == old(days) && stored == old(stored)
        invariant entries.Keys == e0.Keys
        invariant forall k :: 0 <= k < i ==> keys[k] in done
        invariant forall k :: i <= k < |keys| ==> keys[k] !in done
        invariant forall s :: s in entries ==> entries[s] == if s.key in done then Finish(e0[s]) else e0[s]
      {
        var key := keys[i];
        KeyDays(stored, keys, days, entries, key);
        CompleteKey(key, days[key], done, e0);
        done := done + {key};
        i := i + 1;
      }
      forall s | s in entries ensures s.key in done {
        DayOrderMembership(stored, s.key, s.dayOfWeek);
        var k :| 0 <= k < |keys| && keys[k] == s.key;
      }
      if AllOpen(stored, e0) {
        FinishAll(stored, e0, entries);
      }
    }

    /** The closing pass over the slots of one key, whose days are `dayList`. */
    method CompleteKey(key: TimeKey, dayList: seq<DayOfWeek>, ghost done: set<TimeKey>, ghost e0: map<Slot, Entry>)
      requires key !in done && Distinct(dayList)
      requires forall d :: d in dayList ==> Slot(key, d) in entries
      requires forall s :: s in entries && s.key == key ==> s.dayOfWeek in dayList
      requires AllRunning(e0) && entries.Keys == e0.Keys
      requires forall s :: s in entries ==> entries[s] == if s.key in done then Finish(e0[s]) else e0[s]
      modifies this
      ensures keys == old(keys) && days == old(days) && stored == old(stored)
      ensures entries.Keys == e0.Keys
      ensures forall s :: s in entries ==>
                entries[s] == if s.key in done || s.key == key then Finish(e0[s]) else e0[s]
    {
      ghost var closed: set<DayOfWeek> := {};
      var j := 0;
      while j < |dayList|
        invariant 0 <= j <= |dayList|
        invariant keys == old(keys) && days == old(days) && stored == old(stored)
        invariant entries.Keys == e0.Keys
        invariant forall k :: 0 <= k < j ==> dayList[k] in closed
        invariant forall k :: j <= k < |dayList| ==> dayList[k] !in closed
        invariant forall s :: s in entries ==>
                    entries[s] == if s.key in done || (s.key == key && s.dayOfWeek in closed)
                                  then Finish(e0[s]) else e0[s]
      {
        var slot := Slot(key, dayList[j]);
        var entry := entries[slot];
        entries := entries[slot := Entry(None, entry.sequences + [Close(entry.running.value)])];
        closed := closed + {dayList[j]};
        j := j + 1;
      }
    }

    /** All closed sequences, slot by slot, in the table's order. */
    method Sequences() returns (r: seq<Sequence>)
      requires Completed()
      ensures r == KeySequences(stored, keys)
    {
      r := [];
      var i := 0;
      while i < |keys|
        invariant 0 <= i <= |keys|
        invariant r == KeySequences(stored, keys[..i])
      {
        var found := SequencesOfKey(keys[i]);
        r := r + found;
        KeySequencesSnoc(stored, keys, i);
        i := i + 1;
      }
      assert keys[..i] == keys;
    }

    /** The closed sequences of the days of one key, day by day. */
    method SequencesOfKey(key: TimeKey) returns (r: seq<Sequence>)
      requires Completed()
      requires key in days
      ensures r == DaySequences(stored, key, DayOrder(stored, key))
    {
      var dayList := days[key];
      r := [];
      var j := 0;
      while j < |dayList|
        invariant 0 <= j <= |dayList|
        invariant r == DaySequences(stored, key, dayList[..j])
      {
        DayOrderMembership(stored, key, dayList[j]);
        var found := entries[Slot(key, dayList[j])].sequences;
        r := AppendEach(r, found);
        DaySequencesSnoc(stored, key, dayList, j);
        j := j + 1;
      }
      assert dayList[..j] == dayList;
    }
  }
}
