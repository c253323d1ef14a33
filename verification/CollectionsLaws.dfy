/**
  Safety of the daily collection process over every run, whatever is owed each day and whatever
  people do in between.
*/
module CollectionsLaws {
  import opened Calendar
  import opened Collections
  import opened Wrappers

  // ─── One pass ─────────────────────────────────────────

  function MinGap(policy: Policy): nat {
    if policy.everyDays <= policy.firstReminderDays + 1 then policy.everyDays else policy.firstReminderDays + 1
  }

  /**
    What has to be true when a reminder goes out: the case is at an early stage, something is
    overdue, no agreement is in force, no letter has been prepared or sent, the letter's day has not
    come, and every earlier reminder is far enough away.
  */
  ghost predicate ReminderIsSafe(c: Case, e: Event, policy: Policy) {
    && e.Daily? && e.unpaid != []
    && (c.stage == Recordatorio || c.stage == Prejudicial)
    && Overdue(e.unpaid, e.today)
    && (c.agreementUntil.Some? ==> c.agreementUntil.value < e.today)
    && c.letterPreparedOn.None? && c.letterSentOn.None?
    && (LetterOn(InputOf(c, e)).Some? ==> e.today < LetterOn(InputOf(c, e)).value)
    && e.today >= Oldest(InputOf(c, e)) + policy.firstReminderDays
    && (forall r :: r in c.reminders && r >= Oldest(InputOf(c, e)) ==> e.today >= r + policy.everyDays)
    && (forall r :: r in c.reminders ==> e.today >= r + MinGap(policy))
  }

  lemma RemindersAreSafe(c: Case, e: Event, policy: Policy)
    requires Reminds(c, e, policy)
    ensures ReminderIsSafe(c, e, policy)
  {
    var input := InputOf(c, e);
    var oldest := Oldest(input);
    var mine := From(input.reminderDates, oldest);
    var sent := SortDays(mine);
    var on := ReminderOn(input, policy).value;
    assert on >= oldest + policy.firstReminderDays by { Product(|sent|, policy.everyDays); }
    forall r | r in c.reminders && r >= oldest ensures e.today >= r + policy.everyDays {
      assert r in mine && r in sent;
      var k :| 0 <= k < |sent| && sent[k] == r;
      assert r <= sent[|sent| - 1];
    }
  }

  lemma Product(a: nat, b: nat)
    ensures a * b >= 0
  {
  }

  /** A letter is prepared only when none has been, no agreement is in force and its day has come. */
  ghost predicate LetterIsSafe(c: Case, e: Event) {
    && e.Daily? && e.unpaid != []
    && (c.stage == Recordatorio || c.stage == Prejudicial)
    && (c.agreementUntil.Some? ==> c.agreementUntil.value < e.today)
    && c.letterPreparedOn.None? && c.letterSentOn.None?
    && LetterOn(InputOf(c, e)).Some? && LetterOn(InputOf(c, e)).value <= e.today
  }

  lemma LettersAreSafe(c: Case, e: Event, policy: Policy)
    requires PreparesLetter(c, e, policy)
    ensures LetterIsSafe(c, e)
  {
  }

  /** Once the letter's day has come, a pass that finds the case free to act prepares the letter. */
  lemma LetterIsNotMissed(c: Case, e: Event, policy: Policy)
    requires e.Daily? && LetterIsSafe(c, e) && Overdue(e.unpaid, e.today)
    ensures PreparesLetter(c, e, policy)
  {
  }

  /** Every event leaves the stage where it was or moves it along the machine, and keeps what was done. */
  lemma StepKeeps(c: Case, e: Event, policy: Policy)
    ensures var d := Step(c, e, policy);
            && (d.stage == c.stage || CanMove(c.stage, d.stage))
            && c.reminders <= d.reminders
            && (forall r :: r in c.reminders ==> r in d.reminders)
            && (c.letterPreparedOn.Some? ==> d.letterPreparedOn == c.letterPreparedOn)
            && (c.letterSentOn.Some? ==> d.letterSentOn == c.letterSentOn)
    ensures Reminds(c, e, policy) ==> e.today in Step(c, e, policy).reminders
    ensures PreparesLetter(c, e, policy) ==> Step(c, e, policy).letterPreparedOn == Some(e.today)
    ensures Step(c, e, policy).reminders != c.reminders ==> Reminds(c, e, policy)
    ensures Step(c, e, policy).letterPreparedOn != c.letterPreparedOn ==> PreparesLetter(c, e, policy)
  {
    hide PlanCollection;
    if Reminds(c, e, policy) { RemindersAreSafe(c, e, policy); }
    if PreparesLetter(c, e, policy) { LettersAreSafe(c, e, policy); }
  }

  // ─── Runs ─────────────────────────────────────────────

  lemma {:induction false} RunKeeps(c: Case, events: seq<Event>, policy: Policy, i: nat, k: nat)
    requires i <= k <= |events|
    ensures var a, b := After(c, events, policy, i), After(c, events, policy, k);
            && (forall r :: r in a.reminders ==> r in b.reminders)
            && (a.letterPreparedOn.Some? ==> b.letterPreparedOn == a.letterPreparedOn)
    decreases k
  {
    hide Step, Reminds, PreparesLetter, PlanCollection, CanMove;
    if i < k {
      RunKeeps(c, events, policy, i, k - 1);
      StepKeeps(After(c, events, policy, k - 1), events[k - 1], policy);
    }
  }

  /** In every run, the stage of a case only ever moves along the machine. */
  lemma StagesFollowTheMachine(c: Case, events: seq<Event>, policy: Policy, k: nat)
    requires k < |events|
    ensures var a, b := After(c, events, policy, k).stage, After(c, events, policy, k + 1).stage;
            a == b || CanMove(a, b)
  {
    StepKeeps(After(c, events, policy, k), events[k], policy);
  }

  /**
    In every run, two reminders are at least min(everyDays, firstReminderDays + 1) days apart, and
    everyDays when the oldest debt is the same both times.
  */
  lemma RemindersAreSpaced(c: Case, events: seq<Event>, policy: Policy, i: nat, k: nat)
    requires i < k < |events|
    requires Reminds(After(c, events, policy, i), events[i], policy)
    requires Reminds(After(c, events, policy, k), events[k], policy)
    ensures events[k].today >= events[i].today + MinGap(policy)
    ensures events[i].unpaid != [] && events[k].unpaid != []
    ensures (Oldest(InputOf(After(c, events, policy, i), events[i]))
             == Oldest(InputOf(After(c, events, policy, k), events[k]))) ==>
              events[k].today >= events[i].today + policy.everyDays
  {
    hide Reminds, PlanCollection, Step;
    var a, b := After(c, events, policy, i), After(c, events, policy, k);
    StepKeeps(a, events[i], policy);
    RunKeeps(c, events, policy, i + 1, k);
    RemindersAreSafe(a, events[i], policy);
    RemindersAreSafe(b, events[k], policy);
    assert events[i].today in b.reminders;
  }

  /** In every run at most one letter is prepared, and after it no reminder ever goes out. */
  lemma AfterTheLetterNothing(c: Case, events: seq<Event>, policy: Policy, i: nat, k: nat)
    requires i < k < |events|
    requires PreparesLetter(After(c, events, policy, i), events[i], policy)
    ensures !PreparesLetter(After(c, events, policy, k), events[k], policy)
    ensures !Reminds(After(c, events, policy, k), events[k], policy)
  {
    hide Reminds, PreparesLetter, PlanCollection, Step, CanMove;
    var a, b := After(c, events, policy, i), After(c, events, policy, k);
    StepKeeps(a, events[i], policy);
    RunKeeps(c, events, policy, i + 1, k);
    if PreparesLetter(b, events[k], policy) { LettersAreSafe(b, events[k], policy); }
    if Reminds(b, events[k], policy) { RemindersAreSafe(b, events[k], policy); }
  }

  predicate AgreesTo(c: Case, e: Event) {
    e.Agree? && c.stage != Cerrado && e.today <= e.until <= e.today + 365
  }

  lemma {:induction false} AgreementStands(c: Case, events: seq<Event>, policy: Policy, i: nat, k: nat)
    requires i < k <= |events| && AgreesTo(After(c, events, policy, i), events[i])
    requires forall j :: i < j < k ==> !events[j].Agree?
    ensures var d := After(c, events, policy, k);
            d.stage == Cerrado || d.agreementUntil == Some(events[i].until)
    decreases k
  {
    hide PlanCollection, Reminds, PreparesLetter;
    if k > i + 1 { AgreementStands(c, events, policy, i, k - 1); }
  }

  /** In every run, from the moment an agreement is made until its last day nothing goes out. */
  lemma NothingDuringAnAgreement(c: Case, events: seq<Event>, policy: Policy, i: nat, k: nat)
    requires i < k < |events| && AgreesTo(After(c, events, policy, i), events[i])
    requires forall j :: i < j < k ==> !events[j].Agree?
    requires events[k].today <= events[i].until
    ensures !Reminds(After(c, events, policy, k), events[k], policy)
    ensures !PreparesLetter(After(c, events, policy, k), events[k], policy)
  {
    hide Reminds, PreparesLetter, PlanCollection, Step;
    var b := After(c, events, policy, k);
    AgreementStands(c, events, policy, i, k);
    if Reminds(b, events[k], policy) { RemindersAreSafe(b, events[k], policy); }
    if PreparesLetter(b, events[k], policy) { LettersAreSafe(b, events[k], policy); }
  }

  /** One unpaid rent, one reminder before it: the next one is due firstReminderDays after it. */
  lemma FirstReminderOfANewDebt(policy: Policy, due: nat, last: nat)
    requires last < due && policy.maxLevel > 0
    ensures var input := CaseInput(Recordatorio, [due], true, [last], None, None, None);
            && Oldest(input) == due && From(input.reminderDates, due) == []
            && ReminderOn(input, policy) == Some(due + policy.firstReminderDays)
            && LetterOn(input) == None
  {
    hide SortDays, From, AddMonthsClamped;
    OneDaySorts(due);
    NothingFrom(last, due);
    assert SortDays(From([last], due)) == [];
    assert 0 * policy.everyDays == 0;
  }

  lemma OneDaySorts(day: nat)
    ensures SortDays([day]) == [day]
  {
    hide SortDays;
    assert SortDays([day])[0] in [day];
  }

  lemma NothingFrom(last: nat, due: nat)
    requires last < due
    ensures From([last], due) == []
  {
    assert [last][1..] == [];
  }

  /** The smaller gap is really reached: paying the oldest rent restarts the rhythm from the next one. */
  lemma SmallerGapIsReached(policy: Policy)
    requires 0 < policy.firstReminderDays && policy.firstReminderDays + 1 < policy.everyDays && policy.maxLevel > 0
    ensures var c := Case(Recordatorio, [100], None, None, None);
            var e := Daily(101 + policy.firstReminderDays, [101], true);
            Reminds(c, e, policy) && e.today == 100 + MinGap(policy)
  {
    hide ReminderOn, LetterOn, SortDays, From;
    var e := Daily(101 + policy.firstReminderDays, [101], true);
    FirstReminderOfANewDebt(policy, 101, 100);
    assert e.unpaid[0] < e.today;
  }
}
