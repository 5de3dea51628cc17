/**
 * The to-do processor of jassist/voice_diary/todo/todo_processor.py: it reads
 * a due date ("by friday", "due tomorrow", "on today") and a priority from a
 * voice note and saves one task that points back at the transcription.
 */
module Todo {
  import opened Wrappers
  import opened Text
  import opened Dates
  import opened Collaborators

  /** 0 is Monday, as `date.weekday()` counts. */
  type WeekdayIndex = d: int | 0 <= d < 7

  datatype TimeTerm = Today | Tomorrow | DayOfWeek(day: WeekdayIndex)

  /** The alternatives of the group `(today|tomorrow|monday|...|sunday)`, in order. */
  const TimeTerms: seq<(string, TimeTerm)> := [
    ("today", Today), ("tomorrow", Tomorrow),
    ("monday", DayOfWeek(0)), ("tuesday", DayOfWeek(1)), ("wednesday", DayOfWeek(2)),
    ("thursday", DayOfWeek(3)), ("friday", DayOfWeek(4)), ("saturday", DayOfWeek(5)),
    ("sunday", DayOfWeek(6))
  ]

  /** The first alternative of `terms` that occurs at `j`. */
  function TermAt(s: string, j: nat, terms: seq<(string, TimeTerm)>): Option<TimeTerm> {
    if terms == [] then None
    else if OccursAt(s, terms[0].0, j) then Some(terms[0].1)
    else TermAt(s, j, terms[1..])
  }

  /** The keywords of the three patterns of lines 37-41, in order. */
  const DueKeywords: seq<string> := ["by", "due", "on"]

  /** The term the pattern `kw\s+(today|...|sunday)` captures when it matches at `i`. */
  function DueMatchAt(kw: string, s: string, i: nat): (t: Option<TimeTerm>)
    requires i <= |s|
  {
    if OccursAt(s, kw, i) then
      var j := SkipSpaces(s, i + |kw|);
      if j > i + |kw| then TermAt(s, j, TimeTerms) else None
    else None
  }

  /** `re.search(kw\s+(...), s)`: the term of the leftmost match at or after `i`. */
  function SearchDue(kw: string, s: string, i: nat): (t: Option<TimeTerm>)
    requires i <= |s|
    ensures t.Some? ==>
      exists j :: i <= j <= |s| && DueMatchAt(kw, s, j) == t && forall k :: i <= k < j ==> DueMatchAt(kw, s, k).None?
    ensures t.None? ==> forall j :: i <= j <= |s| ==> DueMatchAt(kw, s, j).None?
    decreases |s| - i
  {
    var here := DueMatchAt(kw, s, i);
    if here.Some? then here
    else if i == |s| then None
    else
      var t := SearchDue(kw, s, i + 1);
      assert t.Some? ==>
        exists j :: i + 1 <= j <= |s| && DueMatchAt(kw, s, j) == t && forall k :: i <= k < j ==> DueMatchAt(kw, s, k).None?
      by {
        if t.Some? {
          var j :| i + 1 <= j <= |s| && DueMatchAt(kw, s, j) == t && forall k :: i + 1 <= k < j ==> DueMatchAt(kw, s, k).None?;
          assert forall k :: i <= k < j ==> DueMatchAt(kw, s, k).None?;
        }
      }
      t
  }

  /** The term of the first keyword whose pattern matches. */
  function DueTermIn(s: string, kws: seq<string>): Option<TimeTerm> {
    if kws == [] then None
    else match SearchDue(kws[0], s, 0)
      case Some(t) => Some(t)
      case None => DueTermIn(s, kws[1..])
  }

  /** The time term the loop of lines 43-62 settles on, in the lower-cased text. */
  function DueTerm(s: string): Option<TimeTerm> {
    DueTermIn(s, DueKeywords)
  }

  /** The weekday `k` days after a day with weekday `weekday`. */
  function WeekdayAfter(weekday: int, k: int): int {
    (weekday + k) % 7
  }

  /** `days_until` of lines 58-60: the days from a day with weekday `weekday`
      to the next day with weekday `target`, a full week when they agree. */
  function DaysUntil(target: WeekdayIndex, weekday: WeekdayIndex): (n: int)
    ensures 1 <= n <= 7 && WeekdayAfter(weekday, n) == target
    ensures forall k :: 1 <= k < n ==> WeekdayAfter(weekday, k) != target
  {
    var d := (target - weekday) % 7;
    if d == 0 then 7 else d
  }

  /** The due date a term names; None when it would pass 9999-12-31, where
      `today + timedelta(...)` raises. */
  function DueDateFor(term: TimeTerm, today: Date): (d: Option<Date>)
    requires IsValid(today)
    ensures d.Some? ==> IsValid(d.value)
  {
    match term
    case Today => Some(today)
    case Tomorrow => AddDays(today, 1)
    case DayOfWeek(w) => AddDays(today, DaysUntil(w, Weekday(today)))
  }

  datatype Priority = High | Medium | Low

  const HighTerms: seq<string> := ["urgent", "important", "critical", "high priority"]
  const LowTerms: seq<string> := ["low priority", "when you can", "not urgent"]

  /** `any(term in s for term in terms)`. */
  predicate AnyIn(s: string, terms: seq<string>) {
    exists k :: 0 <= k < |terms| && Contains(s, terms[k])
  }

  /** The priority of lines 64-68: high when a high term occurs, low when
      no high term but a low term does, medium otherwise. */
  function PriorityOf(text: string): (p: Priority)
    ensures p == High <==> AnyIn(Lower(text), HighTerms)
    ensures p == Low <==> !AnyIn(Lower(text), HighTerms) && AnyIn(Lower(text), LowTerms)
    ensures p == Medium <==> !AnyIn(Lower(text), HighTerms) && !AnyIn(Lower(text), LowTerms)
  {
    var s := Lower(text);
    if AnyIn(s, HighTerms) then High else if AnyIn(s, LowTerms) then Low else Medium
  }

  /** The arguments of one `save_todo_entry` call. */
  datatype TodoRow = TodoRow(task: string, dueDate: Option<Date>, priority: Priority, sourceTranscriptionId: Option<int>)

  /** The task data returned on success. */
  datatype TodoTask = TodoTask(id: int, task: string, dueDate: Option<Date>, priority: Priority)

  /** How the search for a due date ends: no term, a date, or the overflow
      that the exception handler turns into a failure. */
  datatype DueOutcome = NoDueDate | DueOn(date: Date) | Overflow

  function DueOutcomeOf(s: string, today: Date): (o: DueOutcome)
    requires IsValid(today)
    ensures o.DueOn? ==> IsValid(o.date)
  {
    match DueTerm(s)
    case None => NoDueDate
    case Some(t) =>
      match DueDateFor(t, today)
      case None => Overflow
      case Some(d) => DueOn(d)
  }

  /** The row `process_todo_entry(text, db_id)` saves; None when computing the
      due date overflows, and nothing is saved. */
  function TodoRowFor(text: string, dbId: Option<int>, today: Date): (r: Option<TodoRow>)
    requires IsValid(today)
    ensures r.Some? ==> r.value.task == text && r.value.sourceTranscriptionId == dbId
    ensures r.Some? ==> r.value.priority == PriorityOf(text)
    ensures r.None? <==> DueOutcomeOf(Lower(text), today).Overflow?
    ensures r.Some? ==>
      r.value.dueDate == match DueTerm(Lower(text)) case None => None case Some(t) => DueDateFor(t, today)
  {
    match DueOutcomeOf(Lower(text), today)
    case Overflow => None
    case NoDueDate => Some(TodoRow(text, None, PriorityOf(text), dbId))
    case DueOn(d) => Some(TodoRow(text, Some(d), PriorityOf(text), dbId))
  }

  /** What `process_todo_entry` returns once the save has answered. */
  function TodoAnswer(outcome: SaveOutcome, row: TodoRow): (r: (bool, Option<TodoTask>))
    ensures r.0 <==> r.1.Some?
    ensures r.0 <==> outcome.Saved? && outcome.id != 0
    ensures r.1.Some? ==> r.1.value == TodoTask(outcome.id, row.task, row.dueDate, row.priority)
  {
    if outcome.Saved? && outcome.id != 0 then (true, Some(TodoTask(outcome.id, row.task, row.dueDate, row.priority)))
    else (false, None)
  }

  /** The to-do table behind `save_todo_entry`: the answer to the n-th save is
      a fixed but arbitrary function of n and of the row. */
  class TodoStore {
    const answer: (nat, TodoRow) -> SaveOutcome
    var log: seq<TodoRow>

    constructor (answer: (nat, TodoRow) -> SaveOutcome)
      ensures this.answer == answer && log == []
    {
      this.answer := answer;
      log := [];
    }

    method Save(row: TodoRow) returns (outcome: SaveOutcome)
      modifies this
      ensures log == old(log) + [row]
      ensures outcome == answer(|old(log)|, row)
    {
      outcome := answer(|log|, row);
      log := log + [row];
    }
  }

  /** The loop of lines 43-62 over the lower-cased text: the first pattern
      that matches decides the due date and ends the loop. */
  method ReadDueDate(lowered: string, today: Date) returns (outcome: DueOutcome)
    requires IsValid(today)
    ensures outcome == DueOutcomeOf(lowered, today)
  {
    var dueDate: Option<Date> := None;
    for i := 0 to |DueKeywords|
      invariant DueTerm(lowered) == DueTermIn(lowered, DueKeywords[i..])
    {
      assert DueKeywords[i..][1..] == DueKeywords[i + 1..];
      var found := SearchDue(DueKeywords[i], lowered, 0);
      if found.Some? {
        match found.value {
          case Today =>
            dueDate := Some(today);
          case Tomorrow =>
            dueDate := AddDays(today, 1);
          case DayOfWeek(w) =>
            var todayWeekday := Weekday(today);
            var daysUntil := (w - todayWeekday) % 7;
            if daysUntil == 0 {
              daysUntil := 7;
            }
            assert daysUntil == DaysUntil(w, todayWeekday);
            dueDate := AddDays(today, daysUntil);
        }
        assert DueTerm(lowered) == found;
        if dueDate.None? {
          // `today + timedelta(...)` raised OverflowError.
          return Overflow;
        }
        return DueOn(dueDate.value);
      }
    }
    assert DueKeywords[|DueKeywords|..] == [];
    return NoDueDate;
  }

  /** `process_todo_entry(text, db_id)`, with `today` standing for `datetime.now().date()`. */
  method ProcessTodoEntry(store: TodoStore, text: string, dbId: Option<int>, today: Date)
    returns (ok: bool, task: Option<TodoTask>)
    requires IsValid(today)
    modifies store
    ensures TodoRowFor(text, dbId, today).None? ==> !ok && task.None? && store.log == old(store.log)
    ensures TodoRowFor(text, dbId, today).Some? ==>
      var row := TodoRowFor(text, dbId, today).value;
      && store.log == old(store.log) + [row]
      && (ok, task) == TodoAnswer(store.answer(|old(store.log)|, row), row)
  {
    var lowered := Lower(text);
    var due := ReadDueDate(lowered, today);
    if due.Overflow? {
      // The exception handler of lines 97-99.
      return false, None;
    }
    var dueDate := if due.DueOn? then Some(due.date) else None;
    var priority := Medium;
    if AnyIn(lowered, HighTerms) {
      priority := High;
    } else if AnyIn(lowered, LowTerms) {
      priority := Low;
    }
    var row := TodoRow(text, dueDate, priority, dbId);
    assert TodoRowFor(text, dbId, today) == Some(row);
    var outcome := store.Save(row);
    if outcome.Saved? && outcome.id != 0 {
      return true, Some(TodoTask(outcome.id, text, dueDate, priority));
    }
    return false, None;
  }

  // ---------------------------------------------------------------------
  // Properties.

  /** The patterns are tried in the order by, due, on: the term comes from
      the first pattern that matches anywhere in the text, whatever the
      later patterns would match. */
  lemma {:induction false} DueTermFirstPattern(s: string, kws: seq<string>) returns (k: nat)
    requires DueTermIn(s, kws).Some?
    ensures k < |kws| && SearchDue(kws[k], s, 0) == DueTermIn(s, kws)
    ensures forall j :: 0 <= j < k ==> SearchDue(kws[j], s, 0).None?
  {
    if SearchDue(kws[0], s, 0).Some? {
      k := 0;
    } else {
      var k' := DueTermFirstPattern(s, kws[1..]);
      k := k' + 1;
      forall j | 0 <= j < k ensures SearchDue(kws[j], s, 0).None? {
        if j > 0 {
          assert kws[j] == kws[1..][j - 1];
        }
      }
    }
  }

  /** There is no term exactly when none of the patterns matches. */
  lemma {:induction false} NoDueTerm(s: string, kws: seq<string>)
    ensures DueTermIn(s, kws).None? <==> forall j :: 0 <= j < |kws| ==> SearchDue(kws[j], s, 0).None?
  {
    if kws != [] {
      NoDueTerm(s, kws[1..]);
      forall j | 0 < j < |kws| ensures kws[j] == kws[1..][j - 1] { }
    }
  }

  /** A named weekday is due on the next day with that weekday, one to seven
      days ahead: never today, and no day in between has that weekday. */
  lemma WeekdayDueDate(w: WeekdayIndex, today: Date)
    requires IsValid(today) && DueDateFor(DayOfWeek(w), today).Some?
    ensures var d := DueDateFor(DayOfWeek(w), today).value;
      && 1 <= Ordinal(d) - Ordinal(today) <= 7
      && Weekday(d) == w
    ensures forall n: nat :: 1 <= n < DaysUntil(w, Weekday(today)) && AddDays(today, n).Some? ==>
      Weekday(AddDays(today, n).value) != w
  {
    var n0 := DaysUntil(w, Weekday(today));
    WeekdayAfterDays(today, n0);
    forall n: nat | 1 <= n < n0 && AddDays(today, n).Some?
      ensures Weekday(AddDays(today, n).value) != w
    {
      NoEarlierDay(w, today, n);
    }
  }

  lemma NoEarlierDay(w: WeekdayIndex, today: Date, n: nat)
    requires IsValid(today) && 1 <= n < DaysUntil(w, Weekday(today)) && AddDays(today, n).Some?
    ensures Weekday(AddDays(today, n).value) != w
  {
    WeekdayAfterDays(today, n);
  }

  lemma WeekdayAfterDays(today: Date, n: nat)
    requires IsValid(today) && AddDays(today, n).Some?
    ensures Weekday(AddDays(today, n).value) == WeekdayAfter(Weekday(today), n)
    ensures Ordinal(AddDays(today, n).value) == Ordinal(today) + n
  {
    AddDaysWeekday(today, n);
  }

  /** "tomorrow" is the next day, which exists unless today is the last date. */
  lemma TomorrowDueDate(today: Date)
    requires IsValid(today)
    ensures DueDateFor(Tomorrow, today).None? <==> today == MaxDate
    ensures DueDateFor(Tomorrow, today).Some? ==> Ordinal(DueDateFor(Tomorrow, today).value) == Ordinal(today) + 1
  {
    OrdinalBound(today);
    AddDaysFails(today, 1);
    if today != MaxDate {
      assert NextDay(today).Some?;
    }
  }

  /** A task is refused before it is saved only in the last week of the calendar. */
  lemma OverflowOnlyAtTheEnd(text: string, dbId: Option<int>, today: Date)
    requires IsValid(today) && TodoRowFor(text, dbId, today).None?
    ensures Ordinal(today) + 7 > Ordinal(MaxDate)
  {
    var t := DueTerm(Lower(text)).value;
    assert DueDateFor(t, today).None?;
    match t
    case Today =>
    case Tomorrow => AddDaysFails(today, 1);
    case DayOfWeek(w) => AddDaysFails(today, DaysUntil(w, Weekday(today)));
  }

  /** With no pattern matching, the task is saved without a due date. */
  lemma NoTermNoDueDate(text: string, dbId: Option<int>, today: Date)
    requires IsValid(today)
    requires forall j :: 0 <= j < |DueKeywords| ==> SearchDue(DueKeywords[j], Lower(text), 0).None?
    ensures TodoRowFor(text, dbId, today) == Some(TodoRow(text, None, PriorityOf(text), dbId))
  {
    NoDueTerm(Lower(text), DueKeywords);
  }

  /** "not urgent" contains "urgent", so a note saying "not urgent" is always
      given high priority and that low term never decides. */
  lemma NotUrgentIsHigh(text: string)
    requires Contains(Lower(text), "not urgent")
    ensures PriorityOf(text) == High
  {
    var s := Lower(text);
    ContainsIff(s, "not urgent");
    ContainsIff(s, "urgent");
    var i :| OccursAt(s, "not urgent", i);
    assert s[i + 4..i + 10] == s[i..i + 10][4..];
    assert OccursAt(s, "urgent", i + 4);
    assert Contains(s, HighTerms[0]);
  }
}
