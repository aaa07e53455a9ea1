/**
 * The rule emitter: each closed sequence becomes one labelled rule whose
 * recurrence is written in the RRULE syntax of section 3.3.10 of RFC 5545,
 * either `FREQ=YEARLY;BYMONTH=<m>;BYMONTHDAY=<d>` or `BYDAY=<XX>;FREQ=WEEKLY`.
 * A reader of these two forms is given beside the writer, and the two are
 * proved to agree.
 */
module Rules {

  import opened Wrappers
  import opened Dates
  import opened Seqs
  import opened Normaliser
  import opened Sequences

  /** The weekday codes, indexed by day of the week (0 is Sunday). */
  const Weekdays: seq<string> := ["SU", "MO", "TU", "WE", "TH", "FR", "SA"]

  const YearlyPrefix: string := "FREQ=YEARLY;BYMONTH="
  const MonthDaySeparator: string := ";BYMONTHDAY="
  const WeeklyPrefix: string := "BYDAY="
  const WeeklySuffix: string := ";FREQ=WEEKLY"

  /** A yearly rule on one month and day, or a weekly rule on one weekday. */
  datatype Recurrence = Yearly(month: Month, day: Day) | Weekly(byDay: DayOfWeek)

  /** An emitted rule: its 1-based label, its anchor interval, its last date and its RRULE text. */
  datatype Rule = Rule(number: int, startDate: DateTime, endDate: DateTime, until: CalendarDate, rrule: string)

  // ---------------------------------------------------------------------------
  // Decimal numbers
  // ---------------------------------------------------------------------------

  predicate IsDigit(c: char)
  {
    '0' <= c <= '9'
  }

  predicate AllDigits(s: string)
  {
    forall i :: 0 <= i < |s| ==> IsDigit(s[i])
  }

  /** The decimal digits of `n`, without leading zeros. */
  function NatToString(n: nat): (s: string)
    ensures s != [] && AllDigits(s)
    ensures s[0] == '0' <==> n == 0
    ensures n < 10 <==> |s| == 1
  {
    if n < 10 then ["0123456789"[n]]
    else NatToString(n / 10) + ["0123456789"[n % 10]]
  }

  /** The number a string of decimal digits denotes. */
  function DigitsValue(s: string): nat
    requires AllDigits(s)
  {
    if s == [] then 0
    else DigitsValue(s[..|s| - 1]) * 10 + (s[|s| - 1] as int - '0' as int)
  }

  lemma {:induction false} NatToStringRoundTrip(n: nat)
    ensures DigitsValue(NatToString(n)) == n
  {
    if n >= 10 {
      NatToStringRoundTrip(n / 10);
      var s := NatToString(n);
      assert s[..|s| - 1] == NatToString(n / 10);
    }
  }

  /** A digit string led by a digit other than 0 denotes a positive number. */
  lemma {:induction false} LeadingDigitPositive(s: string)
    requires s != [] && AllDigits(s) && s[0] != '0'
    ensures DigitsValue(s) > 0
  {
    if |s| > 1 {
      var front := s[..|s| - 1];
      assert front[0] == s[0];
      LeadingDigitPositive(front);
    }
  }

  /**
   * Every digit string without a leading zero is the text of exactly one
   * number: the one it denotes.
   */
  lemma {:induction false} NatToStringCanonical(s: string)
    requires s != [] && AllDigits(s) && (s[0] != '0' || |s| == 1)
    ensures NatToString(DigitsValue(s)) == s
  {
    var c := s[|s| - 1];
    var d := c as int - '0' as int;
    assert "0123456789"[d] == c;
    if |s| > 1 {
      var front := s[..|s| - 1];
      assert front[0] == s[0];
      LeadingDigitPositive(front);
      NatToStringCanonical(front);
      var n := DigitsValue(s);
      assert n / 10 == DigitsValue(front) && n % 10 == d;
      assert s == front + [c];
    }
  }

  /** The length of the run of digits that `s` starts with. */
  function DigitRun(s: string): (n: nat)
    ensures n <= |s| && AllDigits(s[..n])
    ensures n < |s| ==> !IsDigit(s[n])
  {
    if s == [] || !IsDigit(s[0]) then 0
    else
      var n := 1 + DigitRun(s[1..]);
      assert s[..n] == [s[0]] + s[1..][..n - 1];
      n
  }

  lemma {:induction false} DigitRunOf(digits: string, rest: string)
    requires AllDigits(digits)
    requires rest != [] && !IsDigit(rest[0])
    ensures DigitRun(digits + rest) == |digits|
  {
    if digits != [] {
      assert (digits + rest)[1..] == digits[1..] + rest;
      DigitRunOf(digits[1..], rest);
    }
  }

  // ---------------------------------------------------------------------------
  // Writing and reading the RRULE text
  // ---------------------------------------------------------------------------

  /**
   * The RRULE text of a recurrence: the yearly form names the month and the
   * day in decimal, the weekly form names the weekday by its two-letter code.
   */
  function RRule(rec: Recurrence): (r: string)
    ensures rec.Yearly? <==> |r| >= |YearlyPrefix| && r[..|YearlyPrefix|] == YearlyPrefix
    ensures rec.Weekly? ==>
              && |r| == |WeeklyPrefix| + 2 + |WeeklySuffix|
              && r[..|WeeklyPrefix|] == WeeklyPrefix
              && r[|WeeklyPrefix|..|WeeklyPrefix| + 2] == Weekdays[rec.byDay]
              && r[|WeeklyPrefix| + 2..] == WeeklySuffix
  {
    match rec
    case Yearly(month, day) =>
      var r := YearlyPrefix + (NatToString(month) + MonthDaySeparator + NatToString(day));
      assert r[..|YearlyPrefix|] == YearlyPrefix;
      r
    case Weekly(byDay) =>
      var r := WeeklyPrefix + Weekdays[byDay] + WeeklySuffix;
      assert r[0] == 'B' && YearlyPrefix[0] == 'F';
      r
  }

  /** The position of `code` in the weekday codes, from position `i` on. */
  function WeekdayIndex(code: string, i: nat): (r: Option<DayOfWeek>)
    requires i <= 7
    ensures r.Some? ==> Weekdays[r.value] == code
    decreases 7 - i
  {
    if i == 7 then None
    else if Weekdays[i] == code then Some(i)
    else WeekdayIndex(code, i + 1)
  }

  /** The recurrence an RRULE text of one of the two forms stands for. */
  function ParseRRule(text: string): Option<Recurrence>
  {
    if |text| >= |YearlyPrefix| && text[..|YearlyPrefix|] == YearlyPrefix then
      ParseMonthDay(text[|YearlyPrefix|..])
    else if |text| == |WeeklyPrefix| + 2 + |WeeklySuffix|
         && text[..|WeeklyPrefix|] == WeeklyPrefix
         && text[|WeeklyPrefix| + 2..] == WeeklySuffix then
      match WeekdayIndex(text[|WeeklyPrefix|..|WeeklyPrefix| + 2], 0)
      case Some(d) => Some(Weekly(d))
      case None => None
    else None
  }

  /** Reads `<month>;BYMONTHDAY=<day>`. */
  function ParseMonthDay(rest: string): Option<Recurrence>
  {
    var n := DigitRun(rest);
    var tail := rest[n..];
    if n == 0 || |tail| < |MonthDaySeparator| || tail[..|MonthDaySeparator|] != MonthDaySeparator then None
    else
      var dayDigits := tail[|MonthDaySeparator|..];
      if dayDigits == [] || !AllDigits(dayDigits) then None
      else
        var month := DigitsValue(rest[..n]);
        var day := DigitsValue(dayDigits);
        if 1 <= month <= 12 && 1 <= day <= 31 then Some(Yearly(month, day)) else None
  }

  lemma WeekdayIndexOf(d: DayOfWeek)
    ensures WeekdayIndex(Weekdays[d], 0) == Some(d)
  {
    if d == 0 {
    } else if d == 1 {
      assert Weekdays[0] != Weekdays[1];
    } else if d == 2 {
      assert Weekdays[0] != Weekdays[2] && Weekdays[1] != Weekdays[2];
    } else if d == 3 {
      assert Weekdays[0] != Weekdays[3] && Weekdays[1] != Weekdays[3] && Weekdays[2] != Weekdays[3];
    } else if d == 4 {
      assert forall i :: 0 <= i < 4 ==> Weekdays[i] != Weekdays[4];
    } else if d == 5 {
      assert forall i :: 0 <= i < 5 ==> Weekdays[i] != Weekdays[5];
    } else {
      assert forall i :: 0 <= i < 6 ==> Weekdays[i] != Weekdays[6];
    }
  }

  lemma YearlyRoundTrip(month: Month, day: Day)
    ensures ParseMonthDay(NatToString(month) + MonthDaySeparator + NatToString(day)) == Some(Yearly(month, day))
  {
    var m, d := NatToString(month), NatToString(day);
    var rest := m + MonthDaySeparator + d;
    assert rest == m + (MonthDaySeparator + d);
    assert (MonthDaySeparator + d)[0] == ';';
    DigitRunOf(m, MonthDaySeparator + d);
    assert rest[..|m|] == m;
    assert rest[|m|..] == MonthDaySeparator + d;
    assert (MonthDaySeparator + d)[..|MonthDaySeparator|] == MonthDaySeparator;
    assert (MonthDaySeparator + d)[|MonthDaySeparator|..] == d;
    NatToStringRoundTrip(month);
    NatToStringRoundTrip(day);
  }

  /** Reading back a written RRULE gives the recurrence it was written from. */
  lemma RRuleRoundTrip(rec: Recurrence)
    ensures ParseRRule(RRule(rec)) == Some(rec)
  {
    var text := RRule(rec);
    match rec
    case Yearly(month, day) =>
      var rest := NatToString(month) + MonthDaySeparator + NatToString(day);
      assert text == YearlyPrefix + rest;
      assert text[..|YearlyPrefix|] == YearlyPrefix;
      assert text[|YearlyPrefix|..] == rest;
      YearlyRoundTrip(month, day);
    case Weekly(byDay) =>
      assert text[0] == 'B' && YearlyPrefix[0] == 'F';
      assert text[..|WeeklyPrefix|] == WeeklyPrefix;
      assert text[|WeeklyPrefix| + 2..] == WeeklySuffix;
      assert text[|WeeklyPrefix|..|WeeklyPrefix| + 2] == Weekdays[byDay];
      WeekdayIndexOf(byDay);
  }

  // ---------------------------------------------------------------------------
  // From closed sequences to rules
  // ---------------------------------------------------------------------------

  /**
   * A sequence whose first end and until date fall on the same day of the
   * year never repeated: it recurs yearly on the month and day of its start.
   * Any other sequence recurs weekly on the weekday of its start.
   */
  function RecurrenceOf(q: Sequence): (r: Recurrence)
    ensures r.Yearly? <==> q.endDate.dayOfYear == q.untilDate.dayOfYear
    ensures r.Yearly? ==> r.month == q.startDate.month && r.day == q.startDate.day
    ensures r.Weekly? ==> r.byDay == q.startDate.dayOfWeek
  {
    if q.endDate.dayOfYear == q.untilDate.dayOfYear then Yearly(q.startDate.month, q.startDate.day)
    else Weekly(q.startDate.dayOfWeek)
  }

  /** The rule emitted for the sequence `q` at 0-based position `index`. */
  function RuleFor(index: nat, q: Sequence): (r: Rule)
    ensures r.number == index + 1
    ensures r.startDate == q.startDate && r.endDate == q.endDate
    ensures r.until == DateOf(EndOfDay(q.untilDate))
    ensures ParseRRule(r.rrule) == Some(RecurrenceOf(q))
  {
    RRuleRoundTrip(RecurrenceOf(q));
    Rule(index + 1, q.startDate, q.endDate, DateOf(EndOfDay(q.untilDate)), RRule(RecurrenceOf(q)))
  }

  /** The rules of the sequences, labelled 1, 2, ... in order. */
  function Emit(qs: seq<Sequence>): (rules: seq<Rule>)
    ensures |rules| == |qs|
  {
    if qs == [] then [] else Emit(qs[..|qs| - 1]) + [RuleFor(|qs| - 1, Last(qs))]
  }

  /** The rule at position `k` is the rule of the `k`-th sequence, labelled `k + 1`. */
  lemma {:induction false} EmitAt(qs: seq<Sequence>, k: nat)
    requires k < |qs|
    ensures Emit(qs)[k] == RuleFor(k, qs[k])
    decreases |qs|
  {
    if k < |qs| - 1 {
      var front := qs[..|qs| - 1];
      EmitAt(front, k);
      assert front[k] == qs[k];
    }
  }

  /** Every sequence of the list has its rule among those emitted, labelled by its position. */
  lemma EmitCovers(qs: seq<Sequence>, q: Sequence)
    requires q in qs
    ensures exists k :: 0 <= k < |Emit(qs)| && Emit(qs)[k] == RuleFor(k, q)
  {
    var k :| 0 <= k < |qs| && qs[k] == q;
    EmitAt(qs, k);
  }

  /** One more sequence gives one more rule, labelled after the ones before. */
  lemma EmitSnoc(qs: seq<Sequence>, i: nat)
    requires i < |qs|
    ensures Emit(qs[..i + 1]) == Emit(qs[..i]) + [RuleFor(i, qs[i])]
  {
    assert qs[..i + 1][..i] == qs[..i];
  }

  /** A slot met once in the year gives one yearly rule on the month and day of that interval. */
  lemma SingleOccurrenceIsYearly(xs: seq<Interval>, s: Slot, x: Interval)
    requires OfSlot(xs, s) == [x]
    ensures SequencesFor(xs, s) == [Sequence(x.start, x.end, x.end)]
    ensures RecurrenceOf(Sequence(x.start, x.end, x.end)) == Yearly(x.start.month, x.start.day)
  {
    assert [x][..0] == [];
  }
}
