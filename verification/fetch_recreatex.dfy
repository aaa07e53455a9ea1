/**
 * The calendar import for one year: sort the records by date, keep those of
 * the year, feed their two intervals each to the sequence table, close the
 * running sequences, flatten them and emit one rule per sequence.
 */
module FetchRecreatex {

  import opened Wrappers
  import opened Dates
  import opened Seqs
  import opened Normaliser
  import opened Sequences
  import opened Accumulator
  import opened Rules

  /** The rules the import of `year` emits for the opening-hour records `list`. */
  ghost function Import(year: int, list: seq<Record>): seq<Rule>
  {
    Emit(AllSequences(Intervals(year, SortByDate(list))))
  }

  /** The rules of the import of `year` depend only on the records dated in `year`. */
  lemma ImportSeesOnlyItsYear(year: int, list: seq<Record>)
    ensures Import(year, list) == Import(year, OfYear(year, list))
  {
    SortedIntervalsOfYear(year, list);
  }

  /** A record of another year, wherever it sits in the feed, leaves the emitted rules unchanged. */
  lemma CrossYearRecordIgnored(year: int, a: seq<Record>, r: Record, b: seq<Record>)
    requires r.date.year != year
    ensures Import(year, a + [r] + b) == Import(year, a + b)
  {
    OfYearSkips(year, a, r, b);
    ImportSeesOnlyItsYear(year, a + [r] + b);
    ImportSeesOnlyItsYear(year, a + b);
  }

  /**
   * Every emitted rule is numbered by its position and starts and ends like a
   * window of a record of the imported year: no rule is made up.
   */
  lemma ImportFromRecords(year: int, list: seq<Record>, k: nat)
    requires k < |Import(year, list)|
    ensures Import(year, list)[k].number == k + 1
    ensures exists r, iv :: && r in list && r.date.year == year && iv in Halves(year, r)
                            && Import(year, list)[k].startDate == iv.start
                            && Import(year, list)[k].endDate == iv.end
  {
    var sorted := SortByDate(list);
    var xs := Intervals(year, sorted);
    var qs := AllSequences(xs);
    EmitAt(qs, k);
    AllSequencesMembers(xs, qs[k]);
    var s :| qs[k] in SequencesFor(xs, s);
    var ys := OfSlot(xs, s);
    var rs := Runs(ys);
    var j :| 0 <= j < |ClosedRuns(rs)| && ClosedRuns(rs)[j] == qs[k];
    ClosedRunsAt(rs, j);
    var iv := rs[j][0];
    RunsFlatten(ys);
    FlattenMember(rs, j, 0);
    OfSlotMembers(xs, s);
    IntervalsFromYear(year, sorted, iv);
    var r :| r in sorted && r.date.year == year && iv in Halves(year, r);
    assert r in multiset(list);
  }

  /** Window `iv` lies in run `j` of its slot, and `rules[k]` is the rule of that run's sequence. */
  predicate RuledAt(rules: seq<Rule>, rs: seq<Run>, iv: Interval, j: int, k: int)
  {
    && 0 <= j < |rs| && iv in rs[j]
    && 0 <= k < |rules| && rules[k] == RuleFor(k, Closure(rs[j]))
  }

  /** A stored window lies in a run of its slot whose sequence has an emitted rule. */
  lemma RuleOfWindow(xs: seq<Interval>, iv: Interval)
    requires iv in xs
    ensures exists j, k :: RuledAt(Emit(AllSequences(xs)), Runs(OfSlot(xs, SlotOf(iv))), iv, j, k)
  {
    var rs := Runs(OfSlot(xs, SlotOf(iv)));
    NoIntervalLost(xs, iv);
    var j :| 0 <= j < |rs| && iv in rs[j] && Closure(rs[j]) in AllSequences(xs);
    EmitCovers(AllSequences(xs), Closure(rs[j]));
    var k :| 0 <= k < |Emit(AllSequences(xs))| && Emit(AllSequences(xs))[k] == RuleFor(k, Closure(rs[j]));
    assert RuledAt(Emit(AllSequences(xs)), rs, iv, j, k);
  }

  /**
   * Every window of a record of the imported year lies in a run of its slot
   * whose sequence has a rule among those emitted: no window is lost.
   */
  lemma ImportCoversRecords(year: int, list: seq<Record>, r: Record, iv: Interval)
    requires r in list && r.date.year == year && iv in Halves(year, r)
    ensures exists j, k :: RuledAt(Import(year, list), Runs(OfSlot(Intervals(year, SortByDate(list)), SlotOf(iv))), iv, j, k)
  {
    var sorted := SortByDate(list);
    assert r in multiset(sorted);
    IntervalsFromYear(year, sorted, iv);
    var xs := Intervals(year, sorted);
    var rs := Runs(OfSlot(xs, SlotOf(iv)));
    RuleOfWindow(xs, iv);
    var j, k :| RuledAt(Emit(AllSequences(xs)), rs, iv, j, k);
    assert Import(year, list) == Emit(AllSequences(xs));
    assert RuledAt(Import(year, list), rs, iv, j, k);
  }

  /**
   * The import emits one rule for every (key, weekday) slot in use, plus one
   * for every break in the weekly succession of a slot.
   */
  lemma ImportCount(year: int, list: seq<Record>)
    ensures var xs := Intervals(year, SortByDate(list));
            |Import(year, list)| == EntryCount(xs, KeyOrder(xs)) + KeyBreaks(xs, KeyOrder(xs))
  {
    TotalCount(Intervals(year, SortByDate(list)));
  }

  method FillCalendar(year: int, list: seq<Record>) returns (rules: seq<Rule>)
    ensures rules == Import(year, list)
  {
    var sorted := SortByDate(list);
    var table := Accumulate(year, sorted);
    OpenIsRunning(table.stored, table.entries);
    table.Complete();
    var sequences := table.Sequences();
    rules := EmitAll(sequences);
  }

  /** Feeds the records of `year`, in the given order, to a new sequence table. */
  method Accumulate(year: int, sorted: seq<Record>) returns (table: SequenceTable)
    ensures fresh(table)
    ensures table.Accumulating() && table.KeysInOrder()
    ensures table.stored == Intervals(year, sorted)
  {
    table := new SequenceTable();
    for i := 0 to |sorted|
      invariant fresh(table)
      invariant table.Accumulating() && table.KeysInOrder()
      invariant table.stored == Intervals(year, sorted[..i])
    {
      SnocParts(sorted[..i], sorted[i]);
      assert sorted[..i + 1] == sorted[..i] + [sorted[i]];
      StoreRecord(table, year, sorted[i]);
    }
    assert sorted[..|sorted|] == sorted;
  }

  /** Feeds the two intervals of one record to the table, unless the record is of another year. */
  method StoreRecord(table: SequenceTable, year: int, record: Record)
    requires table.Accumulating() && table.KeysInOrder()
    modifies table
    ensures table.Accumulating() && table.KeysInOrder()
    ensures table.stored == old(table.stored) + Halves(year, record)
  {
    if record.date.year != year {
      // records of another year (the last day of the previous one) are skipped
      return;
    }
    var first := Pair(StartDate(record.date, record.from1), EndDate(record.date, record.to1));
    var second := Pair(StartDate(record.date, record.from2), EndDate(record.date, record.to2));
    table.Store(StartDate(record.date, record.from1), EndDate(record.date, record.to1));
    table.Store(StartDate(record.date, record.from2), EndDate(record.date, record.to2));
    AppendAssociates(old(table.stored), first, second);
  }

  /** Emits one rule per sequence, numbering them from 1. */
  method EmitAll(sequences: seq<Sequence>) returns (rules: seq<Rule>)
    ensures rules == Emit(sequences)
  {
    rules := [];
    for index := 0 to |sequences|
      invariant rules == Emit(sequences[..index])
    {
      EmitSnoc(sequences, index);
      rules := rules + [RuleFor(index, sequences[index])];
    }
    assert sequences[..|sequences|] == sequences;
  }
}
