# Recreatex opening-hours import, modelled in Dafny

The `FetchRecreatex` console command imports the opening hours of a
Recreatex service for one calendar year. The feed delivers one record per
day, each with up to two opening windows (`From1`/`To1`, `From2`/`To2`).
The command turns that list of days into a handful of calendar rules:

1. it sorts the records by date and skips the ones of another year (the
   feed also returns the last day of the previous year);
2. it resolves each window's start and end, where a time of `00:00:00`
   stands for the start (or the end) of the record's own day;
3. it groups the windows by their `H:i-H:i` time key and weekday, and
   merges windows of the same group in consecutive ISO weeks into one
   running sequence; a window in any other week closes the running
   sequence and opens a new one;
4. it closes every sequence still running, flattens them key by key and
   day by day, and emits one rule per sequence, numbered from 1, whose
   recurrence (in the RRULE syntax of section 3.3.10 of RFC 5545) is yearly
   on the start's month and day when the sequence never repeated, and
   weekly on the start's weekday otherwise.

The model has these modules:

- `Dates` (`dates.dfy`): a date-time as the calendar fields the importer
  reads (year, month, day, day of year, weekday with 0 for Sunday, ISO week
  of ISO 8601:2004 section 4.1.4, hour, minute, second), start and end of
  day, and the date order the sort uses.
- `Normaliser` (`normaliser.dfy`): the feed record, the date sort, the
  midnight correction of start and end, and `Intervals`, the windows the
  import loop hands to the accumulator, in order.
- `Sequences` (`sequences.dfy`): the reference definition of what the
  accumulator computes. `Runs` splits one slot's windows (slot = time key
  and weekday) into maximal runs of consecutive ISO weeks; `Open` is what
  the table holds for a slot while windows arrive, `SequencesFor` what it
  holds after the closing pass, and `AllSequences` the flattened list in
  the order of first-seen keys and first-seen weekdays.
- `Accumulator` (`accumulator.dfy`): the nested PHP array as a class
  `SequenceTable` with the key order, the weekday order per key and the
  per-slot entries as fields, updated in place by `Store` (one window),
  `Complete` (the closing pass) and read by `Sequences` (the flattening).
  Its invariant `Accumulating` ties every entry to `Open`, `Completed` ties
  every entry to `SequencesFor`.
- `Rules` (`rules.dfy`): the weekday codes, the RRULE text, a reader of
  the two RRULE forms as its inverse, and the rule of each sequence.
- `FetchRecreatex` (`fetch_recreatex.dfy`): the import loop `FillCalendar`,
  proved to emit exactly `Import(year, list)`, the composition of the
  reference definitions, with lemmas that every rule comes from a window of
  a record of the year, that every such window is covered by a rule, and
  how many rules there are.

Details of the code that the model keeps:

- the time key is built from hours and minutes only (`H:i`,
  `FetchRecreatex.php` line 266), so two windows differing only in seconds
  share a key; the model keys by the four numbers (`TimeKey`) and proves
  that they print as the string key and that two keys are equal exactly
  when their strings are (`KeyOfText`, `KeyTextInjective`);
- a window extends the running sequence only when its ISO week is exactly
  one more than the last one stored (the test `== $weekOfYear - 1` at line
  279); in every other case the sequence is closed (lines 281-291), which
  covers a gap of two or more weeks, a second window in the same week, and
  the step from ISO week 52 or 53 to week 1 around New Year;
- a window without a start or without an end is skipped (lines 261-263);
- every date string is parsed with `Carbon::createFromFormat` (lines
  174-175, 185, 341 and 369), which throws on a malformed string and so ends
  the command before any rule of that year is saved; the model's date-times
  are well-formed by construction, so this error path is not part of it.

## Model

| member | source | states |
|---|---|---|
| Dates.StartOfDay | app/Console/Commands/FetchRecreatex.php:347-348 | the result is on the same day as its argument, at 00:00:00 |
| Dates.EndOfDay | app/Console/Commands/FetchRecreatex.php:375-376 | the result is on the same day as its argument, at 23:59:59 |
| Dates.DateOf | app/Console/Commands/FetchRecreatex.php:214 | the calendar date keeps the year, month and day of the date-time |
| Dates.NotAfterOrdinal | app/Console/Commands/FetchRecreatex.php:177 | the field-by-field date comparison of the sort orders date-times exactly as a number that grows with year, month, day, hour, minute and second does |
| Dates.NotAfterTotal | app/Console/Commands/FetchRecreatex.php:177 | any two date-times are ordered one way or the other by the comparison the sort uses |
| Dates.NotAfterTransitive | app/Console/Commands/FetchRecreatex.php:177 | the comparison the sort uses is transitive, so it is a total preorder and the sorted order is well defined up to records of equal date |
| Normaliser.InsertByDate | app/Console/Commands/FetchRecreatex.php:173-178 | inserting into a date-sorted list keeps it sorted and adds exactly the one record |
| Normaliser.SortByDate | app/Console/Commands/FetchRecreatex.php:173-178 | the records come out in ascending date order and are a permutation of the input |
| Normaliser.InsertByDateSplits | app/Console/Commands/FetchRecreatex.php:173-178 | insertion places the new record at one position and keeps the other records in their order |
| Normaliser.StartDate | app/Console/Commands/FetchRecreatex.php:334-353 | an absent timestamp gives no start; a midnight timestamp gives midnight of the record's own day; any other timestamp is kept |
| Normaliser.EndDate | app/Console/Commands/FetchRecreatex.php:362-381 | an absent timestamp gives no end; a midnight timestamp gives 23:59:59 of the record's own day; any other timestamp is kept |
| Normaliser.Pair | app/Console/Commands/FetchRecreatex.php:259-263 | a window yields an interval exactly when both its start and its end are present |
| Normaliser.Halves | app/Console/Commands/FetchRecreatex.php:185-194 | a record of another year yields nothing; a record yields at most two intervals |
| Normaliser.Intervals | app/Console/Commands/FetchRecreatex.php:183-195 | each record contributes at most two intervals |
| Normaliser.IntervalsAppend | app/Console/Commands/FetchRecreatex.php:183-195 | the records are handled one at a time: the intervals of a concatenation are the concatenation of the intervals |
| Normaliser.OtherYearContributesNothing | app/Console/Commands/FetchRecreatex.php:187-190 | removing a record of another year from any position leaves the intervals unchanged |
| Normaliser.OfYear | app/Console/Commands/FetchRecreatex.php:187-190 | the records kept for a year are no more than the records given |
| Normaliser.OfYearSkips | app/Console/Commands/FetchRecreatex.php:187-190 | a record of another year is dropped wherever it sits in the feed |
| Normaliser.OfYearAppend | app/Console/Commands/FetchRecreatex.php:183-190 | the records of a year kept from two lists joined are those kept from each, joined |
| Normaliser.OfYearSorted | app/Console/Commands/FetchRecreatex.php:173-190 | keeping the records of one year keeps a date-sorted list sorted |
| Normaliser.OfYearInsert | app/Console/Commands/FetchRecreatex.php:173-190 | inserting a record into a sorted list and then keeping the records of the year is keeping them first and then inserting the record if it is of the year |
| Normaliser.OfYearSort | app/Console/Commands/FetchRecreatex.php:173-190 | sorting and then keeping the records of the year gives the same list as keeping them and then sorting |
| Normaliser.IntervalsOfYear | app/Console/Commands/FetchRecreatex.php:183-195 | the intervals of a list are the intervals of its records of the imported year alone |
| Normaliser.SortedIntervalsOfYear | app/Console/Commands/FetchRecreatex.php:173-195 | the intervals of the sorted feed depend only on the records of the imported year |
| Normaliser.IntervalsFromYear | app/Console/Commands/FetchRecreatex.php:183-195 | an interval is imported exactly when it is a window of some record of the imported year: none made up, none dropped |
| Normaliser.WindowsOfYearImported | app/Console/Commands/FetchRecreatex.php:185-194 | for a record of the imported year, each window with both a start and an end is imported as the interval from its start to its end, read through the midnight sentinel |
| Normaliser.MidnightSentinelExample | app/Console/Commands/FetchRecreatex.php:371-377 | 2024-06-10 08:00 to 2024-06-11 00:00 becomes the interval 2024-06-10 08:00 to 23:59:59 |
| Sequences.Runs | app/Console/Commands/FetchRecreatex.php:275-295 | there is at least one run exactly when the slot has a window |
| Sequences.ClosedRuns | app/Console/Commands/FetchRecreatex.php:303-325 | each run closes into exactly one sequence |
| Sequences.RunsFlatten | app/Console/Commands/FetchRecreatex.php:275-295 | the runs partition the slot's windows: concatenated in order they are the windows, none lost or repeated |
| Sequences.RunsWeekly | app/Console/Commands/FetchRecreatex.php:279-280 | within a run each window is in the ISO week right after the previous window's |
| Sequences.RunsMaximal | app/Console/Commands/FetchRecreatex.php:279-291 | between two consecutive runs the first window of the later run is not in the week right after the last window of the earlier run |
| Sequences.RunCount | app/Console/Commands/FetchRecreatex.php:275-295 | the number of runs is one more than the number of breaks between consecutive windows, and the last run ends with the last window |
| Sequences.OpenStep | app/Console/Commands/FetchRecreatex.php:275-295 | storing one more window opens a slot, extends its open run (next ISO week) or closes it and opens a new one, as the reference runs prescribe |
| Sequences.FinishOpen | app/Console/Commands/FetchRecreatex.php:306-317 | closing the open run after the closed ones gives all the slot's sequences |
| Sequences.CloseOfRun | app/Console/Commands/FetchRecreatex.php:282-286 | copying a slot's running fields into a sequence gives the sequence its open run stands for: its first window's start and end, until its last window's end |
| Sequences.DayOrderMembership | app/Console/Commands/FetchRecreatex.php:265-267 | a weekday is listed under a key exactly when that slot has a window, and at most once |
| Sequences.KeyOrderMembership | app/Console/Commands/FetchRecreatex.php:265-267 | a key is listed exactly when some weekday under it has a window, and at most once |
| Sequences.KeyOrder | app/Console/Commands/FetchRecreatex.php:276-293 | the keys in first-seen order are listed once each and are no more than the windows |
| Sequences.DayOrder | app/Console/Commands/FetchRecreatex.php:276-293 | the weekdays of a key in first-seen order are listed once each and are no more than the windows |
| Sequences.SequencesKeyed | app/Console/Commands/FetchRecreatex.php:265-280 | every sequence of a slot starts on that slot's weekday with that slot's time key, and its until date has the end's hour and minute |
| Sequences.KeyOfText | app/Console/Commands/FetchRecreatex.php:266 | the key of a window prints as the source's string key: `H:i` of the start, `-`, `H:i` of the end, hours and minutes zero-padded to two digits |
| Sequences.KeyText | app/Console/Commands/FetchRecreatex.php:266 | the key text is eleven characters: the start hour and minute, each two digits, separated by `:`, then `-`, then the end hour and minute in the same form |
| Sequences.KeyTextInjective | app/Console/Commands/FetchRecreatex.php:266 | two keys print alike exactly when they are equal, so grouping by the structured key groups as the string key does |
| Sequences.TwoDigits | app/Console/Commands/FetchRecreatex.php:266 | the two digits printed for an hour or a minute read back as that number |
| Sequences.OfSlotComplete | app/Console/Commands/FetchRecreatex.php:266-269 | every window is among the windows of its own slot |
| Sequences.DaySequencesMembers | app/Console/Commands/FetchRecreatex.php:240-243 | a sequence is listed for the weekdays of a key exactly when it is a sequence of the slot of one of those weekdays |
| Sequences.KeySequencesMembers | app/Console/Commands/FetchRecreatex.php:239-245 | a sequence is listed for some keys exactly when it is listed under one of those keys |
| Sequences.AllSequencesMembers | app/Console/Commands/FetchRecreatex.php:235-248 | the flattened list holds exactly the sequences of the slots: none left out and none made up |
| Sequences.NoIntervalLost | app/Console/Commands/FetchRecreatex.php:192-201 | every stored window lies in a run of its slot whose closed sequence is in the flattened list |
| Sequences.DayCount | app/Console/Commands/FetchRecreatex.php:239-243 | the weekdays listed under a key give one sequence each plus one for every break of that slot |
| Sequences.KeyCount | app/Console/Commands/FetchRecreatex.php:238-245 | the keys listed give one sequence for each of their weekdays plus one for every break |
| Sequences.TotalCount | app/Console/Commands/FetchRecreatex.php:235-248 | the flattened list holds one sequence for every (key, weekday) slot in use plus one for every break in a slot's weekly succession |
| Accumulator.OpenIsRunning | app/Console/Commands/FetchRecreatex.php:306-317 | after accumulation every entry has running fields for the closing pass to clone |
| Accumulator.NextEntry | app/Console/Commands/FetchRecreatex.php:275-293 | after a window the slot has running fields whose until date is the window's end and whose week is the window's week; the closed sequences grow by one, the closed running fields, exactly when the slot had running fields of a week other than the one before; a run keeps its start and end only when extended, and otherwise starts at the window |
| Accumulator.NextEntryOpens | app/Console/Commands/FetchRecreatex.php:275-293 | the entry of a window's slot after storing it is `NextEntry` of the entry before, measured against the reference runs |
| Accumulator.StoreStep | app/Console/Commands/FetchRecreatex.php:275-293 | updating the window's slot with `NextEntry` keeps every entry equal to the open runs of the stored windows |
| Accumulator.FinishAll | app/Console/Commands/FetchRecreatex.php:303-325 | closing every open entry leaves each slot with all its sequences and nothing running |
| Accumulator.FinishOfOpen | app/Console/Commands/FetchRecreatex.php:313-322 | closing an entry that holds a slot's open run leaves nothing running and the slot's complete list of sequences |
| Accumulator.AppendEach | app/Console/Commands/FetchRecreatex.php:240-242 | the loop appends the found sequences, in order, after the ones gathered so far |
| Accumulator.SequenceTable.constructor | app/Console/Commands/FetchRecreatex.php:181 | an empty table, which holds the runs of no windows |
| Accumulator.SequenceTable.Store | app/Console/Commands/FetchRecreatex.php:257-295 | a missing start or end changes nothing; otherwise the key and weekday are recorded in first-seen order and the slot's entry becomes `NextEntry` of its entry before, keeping the table equal to the open runs of the stored windows |
| Accumulator.SequenceTable.NoteSlot | app/Console/Commands/FetchRecreatex.php:276-293 | the key, and the weekday under it, are appended to the table's order only when seen for the first time; entries and stored windows are untouched |
| Accumulator.SequenceTable.Complete | app/Console/Commands/FetchRecreatex.php:303-325 | every entry's running fields are appended as its last sequence and removed; keys, weekdays and slots stay; a table of open runs becomes a table of all sequences |
| Accumulator.SequenceTable.CompleteKey | app/Console/Commands/FetchRecreatex.php:307-323 | the entries of one key are closed and the others left as they were |
| Accumulator.KeyDays | app/Console/Commands/FetchRecreatex.php:306-307 | the weekdays listed under a key are exactly the weekdays of that key's slots, each once |
| Accumulator.SequenceTable.Sequences | app/Console/Commands/FetchRecreatex.php:235-248 | the flattened list is the sequences key by key, weekday by weekday, in first-seen order |
| Accumulator.SequenceTable.SequencesOfKey | app/Console/Commands/FetchRecreatex.php:238-244 | the sequences of one key, weekday by weekday in first-seen order |
| Rules.NatToString | app/Console/Commands/FetchRecreatex.php:217 | a number is written as a non-empty string of decimal digits that starts with 0 only for the number 0, and is one digit long exactly for numbers below 10 |
| Rules.NatToStringRoundTrip | app/Console/Commands/FetchRecreatex.php:217 | the digits written for a number read back as that number |
| Rules.NatToStringCanonical | app/Console/Commands/FetchRecreatex.php:217 | every digit string without a leading zero is the text written for the number it denotes, so the written month and day are fixed to the character |
| Rules.WeekdayIndex | app/Console/Commands/FetchRecreatex.php:30 | a code found in the weekday table is the code at the index returned |
| Rules.WeekdayIndexOf | app/Console/Commands/FetchRecreatex.php:30 | the seven weekday codes are distinct, so each reads back as its own weekday |
| Rules.RRule | app/Console/Commands/FetchRecreatex.php:217-219 | the text starts with `FREQ=YEARLY;BYMONTH=` exactly for a yearly recurrence; a weekly one is `BYDAY=`, the weekday's two-letter code and `;FREQ=WEEKLY` |
| Rules.YearlyRoundTrip | app/Console/Commands/FetchRecreatex.php:217 | the month and day part of a yearly rule reads back as that month and day |
| Rules.RRuleRoundTrip | app/Console/Commands/FetchRecreatex.php:215-219 | every RRULE text written reads back as the recurrence it was written from |
| Rules.RecurrenceOf | app/Console/Commands/FetchRecreatex.php:216-220 | a sequence recurs yearly exactly when its end and until share a day of the year, on its start's month and day; otherwise weekly on its start's weekday |
| Rules.RuleFor | app/Console/Commands/FetchRecreatex.php:204-220 | the rule of the sequence at 0-based position i is numbered i + 1, keeps its start and end, takes the date of the end of its until day, and its RRULE reads back as yearly on the start's month and day when end and until share a day of the year, weekly on the start's weekday otherwise |
| Rules.Emit | app/Console/Commands/FetchRecreatex.php:204-224 | one rule per sequence |
| Rules.EmitAt | app/Console/Commands/FetchRecreatex.php:204-213 | the rule at position k is the rule of the k-th sequence, numbered k + 1 |
| Rules.EmitCovers | app/Console/Commands/FetchRecreatex.php:204-213 | every sequence has its rule among those emitted, numbered by its position |
| Rules.EmitSnoc | app/Console/Commands/FetchRecreatex.php:204-224 | one more sequence adds its rule at the end of the list |
| Rules.SingleOccurrenceIsYearly | app/Console/Commands/FetchRecreatex.php:216-217 | a slot with a single window yields one sequence whose start, end and until come from that window, and its rule is yearly |
| FetchRecreatex.CrossYearRecordIgnored | app/Console/Commands/FetchRecreatex.php:187-190 | a record of another year, at any position of the feed, leaves the emitted rules unchanged |
| FetchRecreatex.FillCalendar | app/Console/Commands/FetchRecreatex.php:169-226 | the emitted rules are those of the sequences of the sorted, year-filtered, normalised windows, in key and weekday first-seen order |
| FetchRecreatex.ImportSeesOnlyItsYear | app/Console/Commands/FetchRecreatex.php:187-190 | the emitted rules depend only on the records dated in the imported year |
| FetchRecreatex.ImportFromRecords | app/Console/Commands/FetchRecreatex.php:169-226 | every rule the import emits is numbered by its position and starts and ends like a window of a record of the imported year |
| FetchRecreatex.RuleOfWindow | app/Console/Commands/FetchRecreatex.php:192-224 | every stored window lies in a run of its slot whose sequence has an emitted rule |
| FetchRecreatex.ImportCoversRecords | app/Console/Commands/FetchRecreatex.php:169-226 | every window of a record of the imported year lies in a run of its slot whose sequence has an emitted rule: no window is lost |
| FetchRecreatex.ImportCount | app/Console/Commands/FetchRecreatex.php:169-226 | the import emits one rule for every (key, weekday) slot in use plus one for every break in a slot's weekly succession |
| FetchRecreatex.Accumulate | app/Console/Commands/FetchRecreatex.php:181-195 | the table holds the open runs of exactly the windows of the year's records, in sorted order |
| FetchRecreatex.StoreRecord | app/Console/Commands/FetchRecreatex.php:185-194 | a record of another year is skipped; otherwise its two windows are stored, keeping the table's invariant |
| FetchRecreatex.EmitAll | app/Console/Commands/FetchRecreatex.php:204-224 | the loop emits, in order, the rule of each sequence numbered by its position |

## Left out

- Fetching the feed over SOAP and decoding its XML (`getOpeninghoursList`, lines 143-160) is I/O; the model starts from the decoded records.
- The command's fan-out over services, channels and years (`handle`, `handleService`, `handleCalendarYear`, lines 52-135), including the early return on an empty feed, and the creation of the opening-hours and calendar objects are persistence; `FillCalendar` on an empty list emits no rule.
- Saving each rule (`$calendar->events()->save`, line 222) is persistence; the model returns the rules in the order they are saved.
- An unparsable `Date`, `From1`, `To1`, `From2` or `To2` string makes `Carbon::createFromFormat` throw (lines 174-175, 185, 341 and 369), which ends the command before any rule of the year is saved; the model's date-times are always well-formed, so this error path is absent.
- Parsing the feed's date strings with Carbon, time zones, `toIso8601String` and the `Y-m-d` formatting are not modelled: a date-time is given with its calendar fields (day of year, weekday, ISO week) already computed, and dates are not checked for consistency with each other.
- Normaliser.StartDate and Normaliser.EndDate test the time of day for 00:00:00 rather than searching the timestamp text for `00:00:00`; for timestamps in the feed's `Y-m-dTH:i:s` form the two agree.
- Dates.EndOfDay: Carbon's end of day also sets the microseconds to 999999; the model has whole seconds only.
- Normaliser.SortByDate: the model states the result of PHP's `uasort` (sorted, a permutation) with an insertion sort of its own; how PHP's sort orders records with equal dates, and its use of a boolean comparator, are not modelled.
- Accumulator.SequenceTable.Complete: requires every entry to still carry its running fields, which is what the import loop leaves; the source would fail on a table closed twice, and storing after the closing pass is not modelled.
- The PHP arrays' string and integer keys are modelled as structured values (`TimeKey`, weekday), so no formatted key string exists in the model.
- Cloning of Carbon objects and their in-place mutation (`endOfDay` on the until date) are not modelled: dates are values.
