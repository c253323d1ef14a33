/**
  What is decided in a collection case on a day, from the case alone: when the letter and the next reminder are due,
  which of them comes first, and what each event leaves in the case.
*/
module CollectionsDecisions {
  import opened Calendar
  import opened Collections
  import opened Sorting
  import opened Wrappers

  // ─── Due dates ────────────────────────────────────────

  ghost predicate IsLeast(d: nat, s: seq<nat>) { d in s && forall e :: e in s ==> d <= e }

  /** The next one after the least: the least of those left when one of the least is taken away. */
  ghost predicate IsSecond(d: nat, s: seq<nat>) {
    exists i :: 0 <= i < |s| && IsLeast(s[i], s) && IsLeast(d, s[..i] + s[i + 1..])
  }

  lemma OldestIs(input: CaseInput)
    requires input.unpaidDueDates != []
    ensures IsLeast(Oldest(input), input.unpaidDueDates)
  {
    hide SortDays;
    LeastOfSorted(SortDays(input.unpaidDueDates), input.unpaidDueDates);
  }

  lemma SecondIs(s: seq<nat>)
    requires |s| > 1
    ensures IsSecond(SortDays(s)[1], s)
  {
    SortIsSorted(s, AtMost);
    hide Sort;
    SecondOfSorted(SortDays(s), s);
  }

  lemma LeastOfSorted(sorted: seq<nat>, s: seq<nat>)
    requires Sorted(sorted, AtMost) && sorted != [] && forall d :: d in sorted <==> d in s
    ensures IsLeast(sorted[0], s)
  {
    assert sorted[0] in sorted;
    forall e | e in s ensures sorted[0] <= e {
      var k :| 0 <= k < |sorted| && sorted[k] == e;
    }
  }

  lemma SecondOfSorted(sorted: seq<nat>, s: seq<nat>)
    requires Sorted(sorted, AtMost) && |sorted| > 1 && multiset(sorted) == multiset(s)
    ensures IsSecond(sorted[1], s)
  {
    hide IsLeast, Sorted;
    SameElements(sorted, s);
    LeastOfSorted(sorted, s);
    assert sorted[0] in sorted;
    var i :| 0 <= i < |s| && s[i] == sorted[0];
    LeftOver(sorted, s, i);
    SortedTail(sorted);
    SameElements(sorted[1..], s[..i] + s[i + 1..]);
    LeastOfSorted(sorted[1..], s[..i] + s[i + 1..]);
    assert sorted[1..][0] == sorted[1];
    assert IsLeast(s[i], s) && IsLeast(sorted[1], s[..i] + s[i + 1..]);
  }

  lemma LeftOver(a: seq<nat>, s: seq<nat>, i: nat)
    requires multiset(a) == multiset(s) && a != [] && i < |s| && s[i] == a[0]
    ensures multiset(a[1..]) == multiset(s[..i] + s[i + 1..])
  {
    Without(s, i);
    WithoutFirst(a);
  }

  lemma WithoutFirst(a: seq<nat>)
    requires a != []
    ensures multiset(a[1..]) == multiset(a) - multiset{a[0]}
  {
    assert a == [a[0]] + a[1..];
  }

  lemma SortedTail(s: seq<nat>)
    requires Sorted(s, AtMost) && s != []
    ensures Sorted(s[1..], AtMost)
  {
  }

  /** The first day something may go out after an agreement: the one after its last. */
  function Resumes(input: CaseInput): nat {
    if input.agreementUntil.Some? then input.agreementUntil.value + 1 else 0
  }

  /**
    The day of the letter: the one after the next rent falls due, or after an agreement when it is later. The next
    rent is the second unpaid one; with only one unpaid, that of a month later, unless it was billed (and so paid).
  */
  lemma LetterDayIs(input: CaseInput)
    requires input.unpaidDueDates != []
    ensures var unpaid, d := input.unpaidDueDates, LetterOn(input);
            if |unpaid| == 1 then
              if input.nextRentBilled then d == None
              else d == Some(Later(AddMonthsClamped(unpaid[0], 1) + 1, Resumes(input)))
            else exists next: nat :: IsSecond(next, unpaid) && d == Some(Later(next + 1, Resumes(input)))
  {
    hide SortDays, AddMonthsClamped;
    var unpaid := input.unpaidDueDates;
    if |unpaid| == 1 {
      assert SortDays(unpaid)[0] in unpaid;
    } else {
      SecondIs(unpaid);
    }
  }

  // ─── Reminders ────────────────────────────────────────

  /** How many reminders have gone out since a day. */
  function SentSince(dates: seq<nat>, day: nat): nat {
    if dates == [] then 0 else (if dates[0] >= day then 1 else 0) + SentSince(dates[1..], day)
  }

  lemma {:induction false} FromIsSent(dates: seq<nat>, day: nat)
    ensures |From(dates, day)| == SentSince(dates, day)
  {
    if dates != [] { FromIsSent(dates[1..], day); }
  }

  ghost predicate IsLatest(d: nat, dates: seq<nat>) { d in dates && forall e :: e in dates ==> e <= d }

  function LevelsOf(policy: Policy): nat { if policy.maxLevel < 3 then policy.maxLevel else 3 }

  /**
    The day of the next reminder, while there are levels left or the last one repeats. It is the latest of three: its
    turn in the rhythm from the oldest debt, a whole interval after the last one sent, and the end of an agreement.
  */
  lemma ReminderDayIs(input: CaseInput, policy: Policy)
    requires input.unpaidDueDates != []
    ensures var oldest, d := Oldest(input), ReminderOn(input, policy);
            var sent := SentSince(input.reminderDates, oldest);
            var turn := oldest + policy.firstReminderDays + sent * policy.everyDays;
            && (d.Some? <==> sent < LevelsOf(policy) || policy.repeatLastLevel)
            && (d.Some? && sent == 0 ==> d.value == Later(turn, Resumes(input)))
            && (d.Some? && sent > 0 ==>
                  exists last: nat :: IsLatest(last, input.reminderDates) && last >= oldest
                    && d.value == Later(Later(turn, last + policy.everyDays), Resumes(input)))
  {
    hide SortDays, From;
    var oldest := Oldest(input);
    var mine := From(input.reminderDates, oldest);
    var sent := SortDays(mine);
    FromIsSent(input.reminderDates, oldest);
    if sent != [] {
      var last := sent[|sent| - 1];
      assert last in sent;
      forall e | e in input.reminderDates ensures e <= last {
        if e >= oldest {
          assert e in mine && e in sent;
          var k :| 0 <= k < |sent| && sent[k] == e;
        }
      }
      assert IsLatest(last, input.reminderDates);
    }
  }

  // ─── The plan ─────────────────────────────────────────

  ghost predicate NothingOverdue(input: CaseInput, today: nat) {
    forall d :: d in input.unpaidDueDates ==> d >= today
  }

  ghost predicate Closes(input: CaseInput, today: nat) { input.stage == Cerrado || NothingOverdue(input, today) }

  predicate InHands(s: Stage) { s == Abogado || s == Judicial }

  ghost predicate Agreed(input: CaseInput, today: nat) {
    input.agreementUntil.Some? && input.agreementUntil.value >= today
  }

  /** Nothing stops the engine from acting on its own. */
  ghost predicate Free(input: CaseInput, today: nat) {
    !Closes(input, today) && !InHands(input.stage) && !Agreed(input, today)
    && input.letterSentOn.None? && input.letterPreparedOn.None?
  }

  /** The letter comes before the reminder: there is none, it is not earlier, or the letter's day has come. */
  predicate LetterFirst(letter: Option<nat>, reminder: Option<nat>, today: nat) {
    letter.Some? && (reminder.None? || letter.value <= reminder.value || letter.value <= today)
  }

  /** A plan that does nothing more than say how the case is. */
  predicate Idle(p: Plan, status: Status, dueOn: Option<nat>) {
    p.status == status && p.action.None? && p.dueOn == dueOn && p.level.None? && !p.manual
  }

  /** Every plan: what it says, does and when, case by case; and each case is of one plan only. */
  lemma PlanIs(input: CaseInput, today: nat, policy: Policy)
    ensures var p := PlanCollection(input, today, policy);
            && (Closes(input, today) ==> Idle(p, Close, None))
            && (!Closes(input, today) && InHands(input.stage) ==> Idle(p, Manual, None))
            && (!Closes(input, today) && !InHands(input.stage) && Agreed(input, today) ==>
                  Idle(p, Paused, Some(input.agreementUntil.value + 1)))
            && (!Closes(input, today) && !InHands(input.stage) && !Agreed(input, today) ==>
                  && (input.letterSentOn.Some? ==>
                        p.status == Scheduled && p.action == Some(DerivacionAbogado) && p.manual && p.level.None?
                        && p.dueOn == Some(input.letterSentOn.value + policy.letterTermDays))
                  && (input.letterSentOn.None? && input.letterPreparedOn.Some? ==>
                        p.status == AwaitingLetterConfirmation && p.action == Some(CartaDocumento) && p.manual
                        && p.dueOn.None? && p.level.None?))
            && (Free(input, today) ==> input.unpaidDueDates != [])
            && (Free(input, today) ==>
                  var letter, reminder := LetterOn(input), ReminderOn(input, policy);
                  var turn := SentSince(input.reminderDates, Oldest(input)) + 1;
                  var level := if turn <= LevelsOf(policy) then turn else LevelsOf(policy);
                  if LetterFirst(letter, reminder, today)
                  then p.status == Scheduled && p.action == Some(CartaDocumento) && p.dueOn == letter && p.level.None?
                       && !p.manual
                  else if reminder.Some?
                  then p.status == Scheduled && p.dueOn == reminder && p.level == Some(level) && !p.manual
                       && p.action == Some(if level >= 2 then FirmReminder else FirstReminder)
                  else Idle(p, Scheduled, None))
  {
    hide LetterOn, ReminderOn, From, SortDays;
    OverdueIs(input, today);
    if input.unpaidDueDates != [] { FromIsSent(input.reminderDates, Oldest(input)); }
  }

  lemma OverdueIs(input: CaseInput, today: nat)
    ensures Overdue(input.unpaidDueDates, today) <==> !NothingOverdue(input, today)
  {
    var s := input.unpaidDueDates;
    if i :| 0 <= i < |s| && s[i] < today { assert s[i] in s; }
    if d :| d in s && d < today {
      var i :| 0 <= i < |s| && s[i] == d;
      assert s[i] < today;
    }
  }

  // ─── Stages ───────────────────────────────────────────

  function Rank(s: Stage): nat {
    match s
    case Recordatorio => 0
    case Prejudicial => 1
    case Abogado => 2
    case Judicial => 3
    case Cerrado => 4
  }

  /** A case moves forward only, to any later stage; but to court, only from a lawyer's hands. */
  lemma MovesForward(a: Stage, b: Stage)
    ensures CanMove(a, b) <==> Rank(a) < Rank(b) && (b == Judicial ==> a == Abogado)
  {
  }

  /** The letter ends the reminders' stage, the lawyer takes the case from any, and a reminder moves nothing. */
  lemma StageAfterIs(action: ActionKind, s: Stage)
    ensures action == DerivacionAbogado ==> StageAfter(action, s) == Abogado
    ensures action == CartaDocumento ==>
              StageAfter(action, s) == (if Rank(s) < Rank(Prejudicial) then Prejudicial else s)
    ensures action == FirstReminder || action == FirmReminder ==> StageAfter(action, s) == s
  {
  }

  // ─── Events ───────────────────────────────────────────

  /** The engine acts by itself today: its plan has an action due that is not left to a person. */
  predicate ActsToday(p: Plan, today: nat) {
    p.status != Close && p.action.Some? && !p.manual && p.dueOn.Some? && p.dueOn.value <= today
  }

  /** What a daily pass leaves: closed, with a letter prepared, with a reminder of today, or as it was. */
  lemma DailyPassIs(c: Case, e: Event, policy: Policy)
    requires e.Daily? && c.stage != Cerrado
    ensures var d, p := Step(c, e, policy), PlanCollection(InputOf(c, e), e.today, policy);
            if p.status == Close then d == c.(stage := Cerrado, agreementUntil := None)
            else if !ActsToday(p, e.today) then d == c
            else if p.action == Some(CartaDocumento)
            then d == c.(letterPreparedOn := Some(e.today),
                         stage := if c.stage == Recordatorio then Prejudicial else c.stage)
            else d == c.(reminders := d.reminders) && e.today in d.reminders && c.reminders <= d.reminders
                 && |d.reminders| == |c.reminders| + (if e.today in c.reminders then 0 else 1)
  {
    hide PlanCollection;
  }

  lemma InputIs(c: Case, e: Event)
    requires e.Daily?
    ensures var i := InputOf(c, e);
            && i.stage == c.stage && i.unpaidDueDates == e.unpaid && i.nextRentBilled == e.nextRentBilled
            && i.reminderDates == c.reminders && i.agreementUntil == c.agreementUntil
            && i.letterPreparedOn == c.letterPreparedOn && i.letterSentOn == c.letterSentOn
  {
  }

  /** What a person's event leaves: what it asks for when it may be, and otherwise the case as it was. */
  lemma ByHandIs(c: Case, e: Event, policy: Policy)
    requires !e.Daily?
    ensures var d := Step(c, e, policy);
            match e
            case Agree(today, until) =>
              d == if c.stage != Cerrado && today <= until <= today + 365 then c.(agreementUntil := Some(until)) else c
            case ConfirmLetter(today, sentOn) =>
              d == if c.stage != Cerrado && c.letterSentOn == None && c.letterPreparedOn.Some?
                      && c.letterPreparedOn.value <= sentOn <= today
                   then c.(letterSentOn := Some(sentOn)) else c
            case Derive(_) => d == if Rank(c.stage) < Rank(Abogado) then c.(stage := Abogado) else c
            case Judicialize(_) => d == if c.stage == Abogado then c.(stage := Judicial) else c
            case CloseByHand(_) => d == if c.stage != Cerrado then c.(stage := Cerrado, agreementUntil := None) else c
  {
  }
}
