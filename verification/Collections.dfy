/**
  Staged debt collection: what is due in a case on a given day, and the daily process that acts on
  it while people register agreements, confirm letters and move the case by hand. Dates are day
  numbers.
*/
module Collections {
  import opened Calendar
  import opened Sorting
  import opened Wrappers

  const MAX_LEVEL := 3

  datatype Stage = Recordatorio | Prejudicial | Abogado | Judicial | Cerrado

  datatype ActionKind = FirstReminder | FirmReminder | CartaDocumento | DerivacionAbogado

  /** The stages a case can move to from each stage. */
  function Targets(s: Stage): set<Stage> {
    match s
    case Recordatorio => {Prejudicial, Abogado, Cerrado}
    case Prejudicial => {Abogado, Cerrado}
    case Abogado => {Judicial, Cerrado}
    case Judicial => {Cerrado}
    case Cerrado => {}
  }

  predicate CanMove(from: Stage, to: Stage) { to in Targets(from) }

  datatype Policy = Policy(
    firstReminderDays: nat, everyDays: nat, maxLevel: nat, letterTermDays: nat, repeatLastLevel: bool)

  datatype CaseInput = CaseInput(
    stage: Stage, unpaidDueDates: seq<nat>, nextRentBilled: bool, reminderDates: seq<nat>,
    agreementUntil: Option<nat>, letterPreparedOn: Option<nat>, letterSentOn: Option<nat>)

  datatype Status = Close | Scheduled | Paused | AwaitingLetterConfirmation | Manual

  datatype Plan = Plan(status: Status, action: Option<ActionKind>, dueOn: Option<nat>, level: Option<nat>, manual: bool)

  // ─── Dates ────────────────────────────────────────────

  predicate AtMost(a: nat, b: nat) { a <= b }

  function SortDays(s: seq<nat>): (r: seq<nat>)
    ensures Sorted(r, AtMost) && |r| == |s|
    ensures forall d :: d in r <==> d in s
  {
    SortIsSorted(s, AtMost);
    SameElements(Sort(s, AtMost), s);
    Sort(s, AtMost)
  }

  lemma SameElements(a: seq<nat>, b: seq<nat>)
    requires multiset(a) == multiset(b)
    ensures |a| == |b| && forall d :: d in a <==> d in b
  {
    assert |multiset(a)| == |a| && |multiset(b)| == |b|;
    assert forall d :: d in a <==> d in multiset(a);
    assert forall d :: d in b <==> d in multiset(b);
  }

  function From(s: seq<nat>, first: nat): (r: seq<nat>)
    ensures forall d :: d in r <==> d in s && d >= first
  {
    if s == [] then []
    else
      assert forall d :: d in s <==> d == s[0] || d in s[1..];
      (if s[0] >= first then [s[0]] else []) + From(s[1..], first)
  }

  function Later(a: nat, b: nat): nat { if a >= b then a else b }

  function LaterOf(a: nat, b: Option<nat>): nat { if b.Some? then Later(a, b.value) else a }

  predicate Overdue(unpaid: seq<nat>, today: nat) { exists i :: 0 <= i < |unpaid| && unpaid[i] < today }

  /**
    The due date of the rent after the oldest unpaid one: the second unpaid, or a month later if nothing was
    billed after it.
  */
  function NextRentDueDate(sorted: seq<nat>, nextRentBilled: bool): Option<nat>
    requires sorted != []
  {
    if |sorted| > 1 then Some(sorted[1])
    else if nextRentBilled then None else Some(AddMonthsClamped(sorted[0], 1))
  }

  // ─── Policy ───────────────────────────────────────────

  function NoAction(status: Status): Plan { Plan(status, None, None, None, false) }

  function ReminderKind(level: nat): ActionKind { if level <= 1 then FirstReminder else FirmReminder }

  function Levels(policy: Policy): nat { if policy.maxLevel <= MAX_LEVEL then policy.maxLevel else MAX_LEVEL }

  function ResumeFloor(input: CaseInput): Option<nat> {
    if input.agreementUntil.Some? then Some(input.agreementUntil.value + 1) else None
  }

  /** The day the letter is due: after the next rent, and not before a broken agreement's following day. */
  function LetterOn(input: CaseInput): Option<nat>
    requires input.unpaidDueDates != []
  {
    var next := NextRentDueDate(SortDays(input.unpaidDueDates), input.nextRentBilled);
    if next.None? then None else Some(LaterOf(next.value + 1, ResumeFloor(input)))
  }

  function Oldest(input: CaseInput): nat
    requires input.unpaidDueDates != []
  {
    SortDays(input.unpaidDueDates)[0]
  }

  function ReminderOn(input: CaseInput, policy: Policy): Option<nat>
    requires input.unpaidDueDates != []
  {
    var sent := SortDays(From(input.reminderDates, Oldest(input)));
    if |sent| < Levels(policy) || policy.repeatLastLevel then
      var paced := Oldest(input) + policy.firstReminderDays + |sent| * policy.everyDays;
      var spaced := if sent != [] then Later(paced, sent[|sent| - 1] + policy.everyDays) else paced;
      Some(LaterOf(spaced, ResumeFloor(input)))
    else None
  }

  function PlanCollection(input: CaseInput, today: nat, policy: Policy): Plan {
    if input.stage == Cerrado then NoAction(Close)
    else if !Overdue(input.unpaidDueDates, today) then NoAction(Close)
    else if input.stage == Abogado || input.stage == Judicial then NoAction(Manual)
    else if input.agreementUntil.Some? && input.agreementUntil.value >= today
    then NoAction(Paused).(dueOn := Some(input.agreementUntil.value + 1))
    else if input.letterSentOn.Some?
    then Plan(Scheduled, Some(DerivacionAbogado), Some(input.letterSentOn.value + policy.letterTermDays), None, true)
    else if input.letterPreparedOn.Some?
    then Plan(AwaitingLetterConfirmation, Some(CartaDocumento), None, None, true)
    else
      var letterOn, reminderOn := LetterOn(input), ReminderOn(input, policy);
      if letterOn.Some?
         && (reminderOn.None? || letterOn.value <= reminderOn.value || letterOn.value <= today)
      then Plan(Scheduled, Some(CartaDocumento), letterOn, None, false)
      else if reminderOn.Some? then
        var sent := From(input.reminderDates, Oldest(input));
        var level := if |sent| + 1 <= Levels(policy) then |sent| + 1 else Levels(policy);
        Plan(Scheduled, Some(ReminderKind(level)), reminderOn, Some(level), false)
      else NoAction(Scheduled)
  }

  predicate IsActionDue(plan: Plan, today: nat) {
    plan.action.Some? && plan.dueOn.Some? && plan.dueOn.value <= today
  }

  function StageAfter(action: ActionKind, current: Stage): Stage {
    if action == CartaDocumento && current == Recordatorio then Prejudicial
    else if action == DerivacionAbogado then Abogado
    else current
  }

  // ─── The process ──────────────────────────────────────

  /** A case as it is stored: its stage, the days reminded, and the agreement and letter dates. */
  datatype Case = Case(
    stage: Stage, reminders: seq<nat>, agreementUntil: Option<nat>, letterPreparedOn: Option<nat>,
    letterSentOn: Option<nat>)

  /** A pass of the daily process over whatever is owed that day, or something a person does. */
  datatype Event =
    | Daily(today: nat, unpaid: seq<nat>, nextRentBilled: bool)
    | Agree(today: nat, until: nat)
    | ConfirmLetter(today: nat, sentOn: nat)
    | Derive(today: nat)
    | Judicialize(today: nat)
    | CloseByHand(today: nat)

  function InputOf(c: Case, e: Event): CaseInput
    requires e.Daily?
  {
    CaseInput(c.stage, e.unpaid, e.nextRentBilled, c.reminders, c.agreementUntil, c.letterPreparedOn, c.letterSentOn)
  }

  /** The plan of a daily pass, when there is an automatic action to take today. */
  function ActionToday(c: Case, e: Event, policy: Policy): Option<ActionKind>
    requires e.Daily?
  {
    var plan := PlanCollection(InputOf(c, e), e.today, policy);
    if c.stage != Cerrado && plan.status != Close && IsActionDue(plan, e.today) && !plan.manual then plan.action
    else None
  }

  predicate Reminds(c: Case, e: Event, policy: Policy) {
    e.Daily? && ActionToday(c, e, policy).Some? && ActionToday(c, e, policy).value != CartaDocumento
  }

  predicate PreparesLetter(c: Case, e: Event, policy: Policy) {
    e.Daily? && ActionToday(c, e, policy) == Some(CartaDocumento)
  }

  /** Moves by hand only where the machine allows it; otherwise the request is refused and nothing changes. */
  function MoveTo(c: Case, to: Stage): Case {
    if CanMove(c.stage, to) then c.(stage := to) else c
  }

  function DailyPass(c: Case, e: Event, policy: Policy): Case
    requires e.Daily?
  {
    var plan := PlanCollection(InputOf(c, e), e.today, policy);
    if c.stage == Cerrado then c
    else if plan.status == Close then c.(stage := Cerrado, agreementUntil := None)
    else if PreparesLetter(c, e, policy)
    then c.(stage := StageAfter(CartaDocumento, c.stage), letterPreparedOn := Some(e.today))
    else if Reminds(c, e, policy)
    then c.(reminders := if e.today in c.reminders then c.reminders else c.reminders + [e.today])
    else c
  }

  function Step(c: Case, e: Event, policy: Policy): Case {
    if c.stage == Cerrado then c
    else match e
      case Daily(_, _, _) => DailyPass(c, e, policy)
      case Agree(today, until) =>
        if today <= until <= today + 365 then c.(agreementUntil := Some(until)) else c
      case ConfirmLetter(today, sentOn) =>
        if c.letterPreparedOn.Some? && c.letterSentOn.None? && c.letterPreparedOn.value <= sentOn <= today
        then c.(letterSentOn := Some(sentOn)) else c
      case Derive(_) => MoveTo(c, Abogado)
      case Judicialize(_) => MoveTo(c, Judicial)
      case CloseByHand(_) => if CanMove(c.stage, Cerrado) then c.(stage := Cerrado, agreementUntil := None) else c
  }

  /** The case after the first n events of a run. */
  function After(c: Case, events: seq<Event>, policy: Policy, n: nat): Case
    requires n <= |events|
  {
    if n == 0 then c else Step(After(c, events, policy, n - 1), events[n - 1], policy)
  }
}
