/** LIFO teardown of crates/batter-core/src/cleanup.rs.

    A hook is its name. The stack, the guard of the running hook and the telemetry are
    objects, changed where the source changes them. The runtime is an oracle of turns:
    what the clock read and how each await ended; dropping the driver's future is one way
    an await can end. Destroying a hook may panic. Whatever ends the driver, the guard
    and the stack are dropped as Rust drops them. */
module Cleanup {
  import opened Bytes
  import Validation

  type Name = string

  const NAME_MAX_LEN: nat := 96

  // ----- registration

  predicate IsName(n: Name) {
    && 1 <= |n| <= NAME_MAX_LEN
    && forall k :: 0 <= k < |n| ==>
                     'a' <= n[k] <= 'z' || 'A' <= n[k] <= 'Z' || '0' <= n[k] <= '9' || n[k] in "._-"
  }

  /** The allowed characters, written out. */
  predicate IsNameCharacter(c: char) {
    || c in "abcdefghijklmnopqrstuvwxyz" || c in "ABCDEFGHIJKLMNOPQRSTUVWXYZ"
    || c in "0123456789" || c == '.' || c == '_' || c == '-'
  }

  lemma LowerIs(c: char)
    ensures c in "abcdefghijklmnopqrstuvwxyz" <==> 'a' <= c <= 'z'
  {
  }

  lemma UpperIs(c: char)
    ensures c in "ABCDEFGHIJKLMNOPQRSTUVWXYZ" <==> 'A' <= c <= 'Z'
  {
  }

  lemma DigitIs(c: char)
    ensures c in "0123456789" <==> '0' <= c <= '9'
  {
  }

  lemma NameCharacterIs(c: char)
    ensures IsNameCharacter(c) <==> 'a' <= c <= 'z' || 'A' <= c <= 'Z' || '0' <= c <= '9' || c in "._-"
  {
    LowerIs(c);
    UpperIs(c);
    DigitIs(c);
  }

  lemma NameIs(n: Name)
    ensures IsName(n) <==> 0 < |n| < 97 && forall k :: 0 <= k < |n| ==> IsNameCharacter(n[k])
  {
    forall k | 0 <= k < |n|
      ensures IsNameCharacter(n[k]) <==>
              'a' <= n[k] <= 'z' || 'A' <= n[k] <= 'Z' || '0' <= n[k] <= '9' || n[k] in "._-"
    {
      NameCharacterIs(n[k]);
    }
  }

  datatype Registration = Registered | InvalidName | Duplicate(name: Name)


  // ----- budgets and deadlines (nanoseconds)

  datatype Budget = Budget(total: nat, perHook: nat, abortReap: nat)

  datatype BudgetResult = Accepted(budget: Budget) | Refused(error: Validation.ConfigurationError)

  /** `CleanupBudget::new`: the fields in order, then the combined allowance, each against
      the clock reading at that moment. */
  function NewBudget(total: nat, perHook: nat, abortReap: nat, readings: seq<int>, latest: int): BudgetResult
    requires |readings| == 4
  {
    match Validation.Positive(total, readings[0], latest)
    case Some(e) => Refused(e)
    case None =>
      match Validation.Positive(perHook, readings[1], latest)
      case Some(e) => Refused(e)
      case None =>
        match Validation.Positive(abortReap, readings[2], latest)
        case Some(e) => Refused(e)
        case None =>
          match Validation.Representable(total + abortReap, readings[3], latest)
          case Some(e) => Refused(e)
          case None => Accepted(Budget(total, perHook, abortReap))
  }

  /** The budgets that exist: `new` is the only way to make one. */
  type CleanupBudget = b: Budget | IsBudget(b) witness Budget(1, 1, 1)

  predicate IsBudget(b: Budget) {
    && b.total > 0 && b.perHook > 0 && b.abortReap > 0
    && b.perHook <= Validation.YEAR && b.total + b.abortReap <= Validation.YEAR
  }

  /** A budget is accepted exactly when it is one of those and each part, at the moment it is
      looked at, ends within the clock's range; otherwise the first offending part is named. */
  lemma NewBudgetIff(b: Budget, readings: seq<int>, latest: int)
    requires |readings| == 4
    ensures var r := NewBudget(b.total, b.perHook, b.abortReap, readings, latest);
            && (r == Accepted(b) <==>
                  && IsBudget(b) && readings[0] + b.total <= latest && readings[1] + b.perHook <= latest
                  && readings[2] + b.abortReap <= latest && readings[3] + b.total + b.abortReap <= latest)
            && (r.Accepted? ==> r == Accepted(b))
            && (b.total == 0 ==> r == Refused(Validation.Zero))
  {
  }

  function FinalDeadline(b: Budget, started: int, end: Option<int>): int {
    var allowance := started + b.total + b.abortReap;
    match end case None => allowance case Some(e) => Min(e, allowance)
  }

  /** `earliest` is the first instant the clock can represent. */
  function WorkDeadline(b: Budget, started: int, end: Option<int>, earliest: int): int {
    var final := FinalDeadline(b, started, end);
    Min(started + b.total, if final - b.abortReap >= earliest then final - b.abortReap else started)
  }

  // ----- outcomes

  datatype Outcome = Succeeded | Failed | Panicked | Cancelled | TimedOut | Unjoined

  datatype SkipReason = BudgetExhausted | PreviousCleanupUnjoined | UnsafeTaskExit

  datatype Record = Record(name: Name, outcome: Outcome)

  datatype Skipped = Skipped(name: Name, reason: SkipReason)

  datatype Report = Report(records: seq<Record>, skipped: seq<Skipped>)

  function Names(records: seq<Record>): (r: seq<Name>)
    ensures |r| == |records|
  {
    seq(|records|, k requires 0 <= k < |records| => records[k].name)
  }

  function SkippedNames(skipped: seq<Skipped>): (r: seq<Name>)
    ensures |r| == |skipped|
  {
    seq(|skipped|, k requires 0 <= k < |skipped| => skipped[k].name)
  }

  predicate IsSuccess(r: Report) {
    r.skipped == [] && forall k :: 0 <= k < |r.records| ==> r.records[k].outcome == Succeeded
  }

  /** What telemetry counted, by hook: observed, skipped, abandoned and dropped. */
  datatype Ledger = Ledger(observed: seq<Name>, skipped: seq<Name>, abandoned: seq<Name>, dropped: seq<Name>)

  function Counted(l: Ledger): multiset<Name> {
    multiset(l.observed) + multiset(l.skipped) + multiset(l.abandoned) + multiset(l.dropped)
  }

  function Reversed(s: seq<Name>): (r: seq<Name>)
    ensures |r| == |s|
  {
    if s == [] then [] else [s[|s| - 1]] + Reversed(s[..|s| - 1])
  }

  lemma {:induction false} ReversedKeeps(s: seq<Name>)
    ensures multiset(Reversed(s)) == multiset(s)
  {
    if s != [] {
      ReversedKeeps(s[..|s| - 1]);
      assert s == s[..|s| - 1] + [s[|s| - 1]];
    }
  }

  function Plus(a: Ledger, b: Ledger): Ledger {
    Ledger(a.observed + b.observed, a.skipped + b.skipped, a.abandoned + b.abandoned, a.dropped + b.dropped)
  }

  lemma PlusCounts(a: Ledger, b: Ledger)
    ensures Counted(Plus(a, b)) == Counted(a) + Counted(b)
  {
  }

  lemma PlusAssociates(a: Ledger, b: Ledger, c: Ledger)
    ensures Plus(Plus(a, b), c) == Plus(a, Plus(b, c))
  {
  }

  const NOTHING: Ledger := Ledger([], [], [], [])

  function Observed(names: seq<Name>): Ledger {
    NOTHING.(observed := names)
  }

  function Skips(names: seq<Name>): Ledger {
    NOTHING.(skipped := names)
  }

  function Abandons(names: seq<Name>): Ledger {
    NOTHING.(abandoned := names)
  }

  function Drops(names: seq<Name>): Ledger {
    NOTHING.(dropped := names)
  }

  // ----- telemetry and the guards

  /** The four counters. The ledger remembers which hooks they counted. */
  class Telemetry {
    var observed: nat
    var skipped: nat
    var abandoned: nat
    var dropped: nat
    ghost var ledger: Ledger

    ghost predicate Valid()
      reads this
    {
      && observed == |ledger.observed| && skipped == |ledger.skipped|
      && abandoned == |ledger.abandoned| && dropped == |ledger.dropped|
    }

    function Total(): nat
      reads this
    {
      observed + skipped + abandoned + dropped
    }

    constructor ()
      ensures Valid() && ledger == NOTHING && Total() == 0
    {
      observed, skipped, abandoned, dropped := 0, 0, 0, 0;
      ledger := NOTHING;
    }

    method CountObserved(name: Name)
      requires Valid()
      modifies this
      ensures Valid() && ledger == Plus(old(ledger), Observed([name])) && Total() == old(Total()) + 1
    {
      observed := observed + 1;
      ledger := Plus(ledger, Observed([name]));
    }

    method CountSkipped(n: nat, ghost names: seq<Name>)
      requires Valid() && |names| == n
      modifies this
      ensures Valid() && ledger == Plus(old(ledger), Skips(names)) && Total() == old(Total()) + n
    {
      skipped := skipped + n;
      ledger := Plus(ledger, Skips(names));
    }

    method CountAbandoned(name: Name)
      requires Valid()
      modifies this
      ensures Valid() && ledger == Plus(old(ledger), Abandons([name])) && Total() == old(Total()) + 1
    {
      abandoned := abandoned + 1;
      ledger := Plus(ledger, Abandons([name]));
    }

    method CountDropped(n: nat, ghost names: seq<Name>)
      requires Valid() && |names| == n
      modifies this
      ensures Valid() && ledger == Plus(old(ledger), Drops(names)) && Total() == old(Total()) + n
    {
      dropped := dropped + n;
      ledger := Plus(ledger, Drops(names));
    }
  }

  /** `PendingCleanupObservation`: armed when its hook leaves the stack. */
  class PendingObservation {
    const name: Name
    var observed: bool

    constructor (name: Name)
      ensures this.name == name && !observed
    {
      this.name, observed := name, false;
    }

    method Drop(t: Telemetry)
      requires t.Valid()
      modifies t
      ensures t.Valid()
      ensures t.ledger == (if observed then old(t.ledger) else Plus(old(t.ledger), Abandons([name])))
      ensures t.Total() == old(t.Total()) + if observed then 0 else 1
    {
      if !observed {
        t.CountAbandoned(name);
      }
    }
  }

  // ----- the runtime

  datatype JoinResult = Returned | ReturnedError | JoinPanic | JoinCancelled

  /** How an await ended: the hook was joined, the timer fired, or the future was dropped. */
  datatype Await = Joined(result: JoinResult, at: int) | Elapsed(at: int) | FutureDropped

  /** One turn of the driver loop: clock readings and both awaits. */
  datatype Turn = Turn(top: int, spawn: int, first: Await, abort: int, reap: Await)

  function OutcomeOf(result: JoinResult): Outcome {
    match result
    case Returned => Succeeded
    case ReturnedError => Failed
    case JoinPanic => Panicked
    case JoinCancelled => Cancelled
  }

  /** A hook's outcome in one turn, or None if the future was dropped meanwhile. */
  function HookOutcome(turn: Turn): Option<Outcome> {
    match turn.first
    case FutureDropped => None
    case Joined(result, _) => Some(OutcomeOf(result))
    case Elapsed(_) =>
      match turn.reap
      case FutureDropped => None
      case Joined(_, _) => Some(TimedOut)
      case Elapsed(_) => Some(Unjoined)
  }

  /** What an outcome says about the two awaits of its turn. */
  ghost predicate Reflects(outcome: Outcome, turn: Turn) {
    && (outcome == Succeeded <==> turn.first.Joined? && turn.first.result == Returned)
    && (outcome == Failed <==> turn.first.Joined? && turn.first.result == ReturnedError)
    && (outcome == Panicked <==> turn.first.Joined? && turn.first.result == JoinPanic)
    && (outcome == Cancelled <==> turn.first.Joined? && turn.first.result == JoinCancelled)
    && (outcome == TimedOut <==> turn.first.Elapsed? && turn.reap.Joined?)
    && (outcome == Unjoined <==> NeverJoined(turn))
  }

  predicate NeverJoined(turn: Turn) {
    turn.first.Elapsed? && turn.reap.Elapsed?
  }

  /** The future was dropped at the first await, or at the second after the first elapsed. */
  predicate Suspended(turn: Turn) {
    turn.first.FutureDropped? || (turn.first.Elapsed? && turn.reap.FutureDropped?)
  }

  lemma OutcomeReflects(turn: Turn)
    ensures HookOutcome(turn).None? <==> Suspended(turn)
    ensures HookOutcome(turn).Some? ==> Reflects(HookOutcome(turn).value, turn)
  {
  }

  /** How the driver ended: it returned, was dropped at an await, or unwound. */
  datatype Closing = Done(report: Report) | Abandoned | Unwound

  // ----- what a run promises

  /** What a completed report says about the hooks it was given. */
  ghost predicate Accounts(report: Report, hooks: seq<Name>) {
    && Names(report.records) + SkippedNames(report.skipped) == Reversed(hooks)
    && (forall k :: 0 <= k < |report.records| - 1 ==> report.records[k].outcome != Unjoined)
    && forall k :: 0 <= k < |report.skipped| ==>
                     report.skipped[k].reason ==
                     (if |report.records| > 0 && report.records[|report.records| - 1].outcome == Unjoined
                      then PreviousCleanupUnjoined else BudgetExhausted)
  }

  /** The records are the outcomes of the first turns. */
  ghost predicate Followed(records: seq<Record>, turns: nat -> Turn) {
    forall k :: 0 <= k < |records| ==> Reflects(records[k].outcome, turns(k))
  }

  /** Each of the first turns began before the work deadline. */
  ghost predicate StartedBefore(turns: nat -> Turn, ran: nat, work: int) {
    forall k :: 0 <= k < ran ==> turns(k).top < work
  }

  /** The hooks and how far they got, one part of the run after the other. */
  ghost predicate Splits(account: Ledger, hooks: seq<Name>) {
    account.observed + (account.skipped + (account.abandoned + Reversed(account.dropped))) == Reversed(hooks)
  }

  lemma SplitsCounts(account: Ledger, hooks: seq<Name>)
    requires Splits(account, hooks)
    ensures Counted(account) == multiset(hooks)
  {
    ReversedKeeps(hooks);
    ReversedKeeps(account.dropped);
    var tail := account.abandoned + Reversed(account.dropped);
    assert multiset(account.observed + (account.skipped + tail))
        == multiset(account.observed) + (multiset(account.skipped) + multiset(tail));
  }

  /** How an ended loop came about, given what it counted. */
  ghost predicate Explains(r: Closing, account: Ledger, hooks: seq<Name>, turns: nat -> Turn, ran: nat, panics: Name -> bool) {
    && ran == |account.observed| + |account.abandoned|
    && match r
       case Done(report) =>
         && Accounts(report, hooks) && Followed(report.records, turns) && !Panics(account.skipped, panics)
         && account == Ledger(Names(report.records), SkippedNames(report.skipped), [], [])
       case Abandoned =>
         |account.abandoned| == 1 && account.skipped == [] && ran > 0 && Suspended(turns(ran - 1))
       case Unwound =>
         account.abandoned == [] && Panics(account.skipped, panics)
  }

  /** Hooks start only before the work deadline, and are skipped only at it or after a hook
      that could not be joined. */
  ghost predicate Paced(account: Ledger, turns: nat -> Turn, ran: nat, work: int) {
    && StartedBefore(turns, ran, work)
    && (|account.skipped| > 0 ==>
          || turns(ran).top >= work
          || (ran > 0 && NeverJoined(turns(ran - 1))))
  }

  /** The loop between two turns. */
  ghost predicate Running(report: Report, account: Ledger, left: seq<Name>, hooks: seq<Name>, turns: nat -> Turn, ran: nat) {
    && report.skipped == [] && account == Observed(Names(report.records)) && ran == |report.records|
    && Names(report.records) + Reversed(left) == Reversed(hooks)
    && Followed(report.records, turns)
    && forall k :: 0 <= k < |report.records| ==> report.records[k].outcome != Unjoined
  }

  /** The loop is over, with `left` still on the stack. */
  ghost predicate Ended(r: Closing, account: Ledger, left: seq<Name>, hooks: seq<Name>, turns: nat -> Turn, ran: nat,
                        panics: Name -> bool) {
    && account.dropped == [] && Splits(account.(dropped := left), hooks)
    && Explains(r, account, hooks, turns, ran, panics)
    && (!r.Abandoned? ==> left == [])
  }

  /** What one turn does to the report and to the hooks on the stack, and what it counts. */
  ghost predicate HookRan(report: Report, name: Name, below: seq<Name>, turn: Turn, panics: Name -> bool,
                          after: Report, exit: Option<Closing>, part: Ledger, rest: seq<Name>) {
    match HookOutcome(turn)
    case None =>
      rest == below && part == Abandons([name]) && exit == Some(Abandoned)
    case Some(Unjoined) =>
      && rest == [] && part == Ledger([name], Reversed(below), [], [])
      && after == Report(report.records + [Record(name, Unjoined)],
                         report.skipped + Skippings(Reversed(below), PreviousCleanupUnjoined))
      && exit == Some(if Panics(below, panics) then Unwound else Done(after))
    case Some(outcome) =>
      && rest == below && part == Observed([name]) && exit.None?
      && after == report.(records := report.records + [Record(name, outcome)])
  }

  lemma PanicsReversed(hooks: seq<Name>, panics: Name -> bool)
    ensures Panics(Reversed(hooks), panics) <==> Panics(hooks, panics)
  {
    ReversedKeeps(hooks);
    if k :| 0 <= k < |hooks| && panics(hooks[k]) {
      assert hooks[k] in multiset(hooks);
      assert hooks[k] in Reversed(hooks);
    }
    if k :| 0 <= k < |Reversed(hooks)| && panics(Reversed(hooks)[k]) {
      assert Reversed(hooks)[k] in multiset(Reversed(hooks));
      assert Reversed(hooks)[k] in hooks;
    }
  }

  /** Skipping what is left at the work deadline ends the loop properly. */
  lemma OutOfTime(records: seq<Record>, before: Ledger, left: seq<Name>, hooks: seq<Name>, turns: nat -> Turn, ran: nat,
                  panics: Name -> bool)
    requires Running(Report(records, []), before, left, hooks, turns, ran)
    ensures var report := Report(records, [] + Skippings(Reversed(left), BudgetExhausted));
            Ended(if Panics(left, panics) then Unwound else Done(report), Plus(before, Skips(Reversed(left))), [],
                  hooks, turns, ran, panics)
  {
    PanicsReversed(left, panics);
    assert Plus(before, Skips(Reversed(left))) == Ledger(Names(records), Reversed(left), [], []);
    assert Reversed(left) + ([] + Reversed([])) == Reversed(left);
    assert [] + Skippings(Reversed(left), BudgetExhausted) == Skippings(Reversed(left), BudgetExhausted);
  }

  /** Nothing left to run. */
  lemma AllRun(report: Report, account: Ledger, hooks: seq<Name>, turns: nat -> Turn, ran: nat, panics: Name -> bool)
    requires Running(report, account, [], hooks, turns, ran)
    ensures Ended(Done(report), account, [], hooks, turns, ran, panics)
  {
    assert Names(report.records) + [] == Names(report.records);
  }

  lemma TurnDropped(report: Report, before: Ledger, below: seq<Name>, name: Name, hooks: seq<Name>,
                    turns: nat -> Turn, ran: nat, panics: Name -> bool)
    requires Running(report, before, below + [name], hooks, turns, ran) && HookOutcome(turns(ran)).None?
    ensures Ended(Abandoned, Plus(before, Abandons([name])), below, hooks, turns, ran + 1, panics)
  {
    ReversedAppend(below, name);
    assert Plus(before, Abandons([name])) == Ledger(Names(report.records), [], [name], []);
    assert [] + ([name] + Reversed(below)) == [name] + Reversed(below);
  }

  lemma ReversedAppend(below: seq<Name>, name: Name)
    ensures Reversed(below + [name]) == [name] + Reversed(below)
  {
    assert (below + [name])[..|below|] == below;
  }

  lemma NamesAppend(records: seq<Record>, last: Record)
    ensures Names(records + [last]) == Names(records) + [last.name]
  {
  }

  lemma NamesStep(records: seq<Record>, last: Record, below: seq<Name>, hooks: seq<Name>)
    requires Names(records) + Reversed(below + [last.name]) == Reversed(hooks)
    ensures Names(records + [last]) + Reversed(below) == Reversed(hooks)
  {
    ReversedAppend(below, last.name);
    NamesAppend(records, last);
    assert Names(records) + ([last.name] + Reversed(below)) == (Names(records) + [last.name]) + Reversed(below);
  }

  lemma FollowedStep(records: seq<Record>, last: Record, turns: nat -> Turn)
    requires Followed(records, turns) && Reflects(last.outcome, turns(|records|))
    ensures Followed(records + [last], turns)
  {
  }

  /** The names observed so far, after one more. */
  lemma TurnContinues(report: Report, before: Ledger, below: seq<Name>, name: Name, outcome: Outcome, hooks: seq<Name>,
                      turns: nat -> Turn, ran: nat)
    requires Running(report, before, below + [name], hooks, turns, ran) && HookOutcome(turns(ran)) == Some(outcome)
    ensures var records := report.records + [Record(name, outcome)];
            && Plus(before, Observed([name])) == Observed(Names(records))
            && Names(records) + Reversed(below) == Reversed(hooks)
            && Followed(records, turns)
  {
    NamesStep(report.records, Record(name, outcome), below, hooks);
    NamesAppend(report.records, Record(name, outcome));
    OutcomeReflects(turns(ran));
    FollowedStep(report.records, Record(name, outcome), turns);
  }

  lemma TurnUnjoined(report: Report, before: Ledger, below: seq<Name>, name: Name, hooks: seq<Name>,
                     turns: nat -> Turn, ran: nat, panics: Name -> bool)
    requires Running(report, before, below + [name], hooks, turns, ran) && HookOutcome(turns(ran)) == Some(Unjoined)
    ensures var after := Report(report.records + [Record(name, Unjoined)],
                                report.skipped + Skippings(Reversed(below), PreviousCleanupUnjoined));
            Ended(if Panics(below, panics) then Unwound else Done(after),
                  Plus(before, Ledger([name], Reversed(below), [], [])), [], hooks, turns, ran + 1, panics)
  {
    TurnContinues(report, before, below, name, Unjoined, hooks, turns, ran);
    PanicsReversed(below, panics);
    var records := report.records + [Record(name, Unjoined)];
    assert Plus(before, Ledger([name], Reversed(below), [], [])) == Ledger(Names(records), Reversed(below), [], []);
    assert Reversed(below) + ([] + Reversed([])) == Reversed(below);
    assert report.skipped + Skippings(Reversed(below), PreviousCleanupUnjoined)
        == Skippings(Reversed(below), PreviousCleanupUnjoined);
  }

  /** One turn keeps the loop going, or ends it properly. */
  lemma OneTurn(report: Report, before: Ledger, name: Name, below: seq<Name>, hooks: seq<Name>, turns: nat -> Turn, ran: nat,
                panics: Name -> bool, after: Report, exit: Option<Closing>, part: Ledger, rest: seq<Name>)
    requires Running(report, before, below + [name], hooks, turns, ran)
    requires HookRan(report, name, below, turns(ran), panics, after, exit, part, rest)
    ensures if exit.None? then Running(after, Plus(before, part), rest, hooks, turns, ran + 1)
            else Ended(exit.value, Plus(before, part), rest, hooks, turns, ran + 1, panics)
    ensures forall work: int :: StartedBefore(turns, ran, work) && turns(ran).top < work ==>
              StartedBefore(turns, ran + 1, work) && Paced(Plus(before, part), turns, ran + 1, work)
  {
    OutcomeReflects(turns(ran));
    match HookOutcome(turns(ran))
    case None => TurnDropped(report, before, below, name, hooks, turns, ran, panics);
    case Some(Unjoined) => TurnUnjoined(report, before, below, name, hooks, turns, ran, panics);
    case Some(outcome) =>
      TurnContinues(report, before, below, name, outcome, hooks, turns, ran);
      assert Running(after, Plus(before, part), rest, hooks, turns, ran + 1);
  }

  // ----- the stack and its driver

  function Skippings(names: seq<Name>, reason: SkipReason): (r: seq<Skipped>)
    ensures |r| == |names| && SkippedNames(r) == names
  {
    seq(|names|, k requires 0 <= k < |names| => Skipped(names[k], reason))
  }

  lemma SkippingsStep(front: seq<Name>, name: Name, reason: SkipReason)
    ensures Skippings(Reversed(front + [name]), reason) == [Skipped(name, reason)] + Skippings(Reversed(front), reason)
  {
    ReversedAppend(front, name);
  }

  /** Destroying these hooks panics somewhere. */
  ghost predicate Panics(hooks: seq<Name>, panics: Name -> bool) {
    exists k :: 0 <= k < |hooks| && panics(hooks[k])
  }

  /** Destroys taken hooks, last first; a panic unwinds out of it. */
  method Destroy(hooks: seq<Name>, panics: Name -> bool) returns (unwound: bool)
    ensures unwound <==> Panics(hooks, panics)
  {
    var left := |hooks|;
    while left > 0
      invariant 0 <= left <= |hooks| && forall k :: left <= k < |hooks| ==> !panics(hooks[k])
    {
      left := left - 1;
      if panics(hooks[left]) {
        return true;
      }
    }
    unwound := false;
  }

  /** The report's entries for taken hooks, last registered first. */
  method Describe(hooks: seq<Name>, reason: SkipReason) returns (skipped: seq<Skipped>)
    ensures skipped == Skippings(Reversed(hooks), reason)
  {
    skipped := [];
    var left := hooks;
    while |left| > 0
      invariant skipped + Skippings(Reversed(left), reason) == Skippings(Reversed(hooks), reason)
    {
      var name := left[|left| - 1];
      var front := left[..|left| - 1];
      assert left == front + [name];
      SkippingsStep(front, name, reason);
      skipped := skipped + [Skipped(name, reason)];
      left := front;
    }
  }

  class CleanupStack {
    var hooks: seq<Name>

    ghost predicate Valid()
      reads this
    {
      && (forall k :: 0 <= k < |hooks| ==> IsName(hooks[k]))
      && (forall j, k :: 0 <= j < k < |hooks| ==> hooks[j] != hooks[k])
    }

    constructor ()
      ensures Valid() && hooks == []
    {
      hooks := [];
    }

    /** `push`: reserve the name, then register under it. */
    method Push(name: Name) returns (r: Registration)
      requires Valid()
      modifies this
      ensures Valid()
      ensures r == if !IsName(name) then InvalidName else if name in old(hooks) then Duplicate(name) else Registered
      ensures hooks == if r == Registered then old(hooks) + [name] else old(hooks)
    {
      if !IsName(name) {
        return InvalidName;
      }
      for k := 0 to |hooks|
        invariant name !in hooks[..k]
      {
        if hooks[k] == name {
          return Duplicate(name);
        }
      }
      assert hooks[..|hooks|] == hooks;
      hooks := hooks + [name];
      r := Registered;
    }

    /** `Drop for CleanupStack`: whatever is still on the stack is counted, then destroyed. */
    method Drop(t: Telemetry)
      requires t.Valid()
      modifies this, t
      ensures t.Valid() && t.ledger == Plus(old(t.ledger), Drops(old(hooks)))
      ensures t.Total() == old(t.Total()) + |old(hooks)|
      ensures hooks == []
    {
      if |hooks| > 0 {
        t.CountDropped(|hooks|, hooks);
      }
      hooks := [];
    }

    /** `skip_remaining`: take every hook, describe and count them, then destroy them one
        by one. Destroying may unwind, but by then nothing is left on the stack. */
    method SkipRemaining(t: Telemetry, report: Report, reason: SkipReason, panics: Name -> bool)
      returns (after: Report, unwound: bool)
      requires t.Valid()
      modifies this, t
      ensures hooks == []
      ensures t.Valid() && t.ledger == Plus(old(t.ledger), Skips(Reversed(old(hooks))))
      ensures after == report.(skipped := report.skipped + Skippings(Reversed(old(hooks)), reason))
      ensures unwound <==> Panics(old(hooks), panics)
    {
      var taken := hooks;
      hooks := [];
      var skipped := Describe(taken, reason);
      after := report.(skipped := report.skipped + skipped);
      t.CountSkipped(|taken|, Reversed(taken));
      unwound := Destroy(taken, panics);
    }

    method Pop() returns (name: Name)
      requires |hooks| > 0
      modifies this
      ensures old(hooks) == hooks + [name]
    {
      name := hooks[|hooks| - 1];
      hooks := hooks[..|hooks| - 1];
    }

    /** One turn of the driver, for a hook that just left the stack: its guard is armed,
        both awaits may end in any way, and the guard is dropped on every way out. */
    method RunHook(t: Telemetry, report: Report, name: Name, turn: Turn, panics: Name -> bool)
      returns (after: Report, exit: Option<Closing>, ghost account: Ledger)
      requires t.Valid()
      modifies this, t
      ensures t.Valid() && t.ledger == Plus(old(t.ledger), account)
      ensures HookRan(report, name, old(hooks), turn, panics, after, exit, account, hooks)
    {
      var guard := new PendingObservation(name);
      after, exit, account := report, None, Abandons([name]);
      var outcome := HookOutcome(turn);
      if outcome.None? {
        guard.Drop(t);
        return after, Some(Abandoned), account;
      }
      guard.observed := true;
      t.CountObserved(name);
      account := Observed([name]);
      after := report.(records := report.records + [Record(name, outcome.value)]);
      if outcome.value == Unjoined {
        ghost var below := Reversed(hooks);
        var unwound;
        after, unwound := SkipRemaining(t, after, PreviousCleanupUnjoined, panics);
        account := Ledger([name], below, [], []);
        PlusAssociates(old(t.ledger), Observed([name]), Skips(below));
        assert Plus(Observed([name]), Skips(below)) == account;
        exit := Some(if unwound then Unwound else Done(after));
      }
      guard.Drop(t);
    }

    /** The driver loop, up to its return, its last await or a panic. */
    method CloseLoop(t: Telemetry, work: int, turns: nat -> Turn, panics: Name -> bool)
      returns (r: Closing, ghost account: Ledger, ran: nat)
      requires t.Valid()
      modifies this, t
      ensures t.Valid() && t.ledger == Plus(old(t.ledger), account)
      ensures Ended(r, account, hooks, old(hooks), turns, ran, panics)
      ensures Paced(account, turns, ran, work)
    {
      var report := Report([], []);
      account, ran := NOTHING, 0;
      while true
        invariant t.Valid() && t.ledger == Plus(old(t.ledger), account)
        invariant Running(report, account, hooks, old(hooks), turns, ran)
        invariant StartedBefore(turns, ran, work)
        decreases |hooks|
      {
        var turn := turns(ran);
        ghost var left, before := hooks, account;
        if turn.top >= work {
          var unwound;
          report, unwound := SkipRemaining(t, report, BudgetExhausted, panics);
          account := Plus(before, Skips(Reversed(left)));
          PlusAssociates(old(t.ledger), before, Skips(Reversed(left)));
          OutOfTime(report.records, before, left, old(hooks), turns, ran, panics);
          r := if unwound then Unwound else Done(report);
          return;
        }
        if |hooks| == 0 {
          AllRun(report, account, old(hooks), turns, ran, panics);
          r := Done(report);
          return;
        }
        ghost var earlier := report;
        ghost var part;
        var exit;
        var name := Pop();
        ghost var below := hooks;
        report, exit, part := RunHook(t, report, name, turn, panics);
        account := Plus(before, part);
        PlusAssociates(old(t.ledger), before, part);
        OneTurn(earlier, before, name, below, old(hooks), turns, ran, panics, report, exit, part, hooks);
        ran := ran + 1;
        if exit.Some? {
          r := exit.value;
          return;
        }
      }
    }

    /** `close_inner`: every way out of the loop also drops the stack the driver owns. Each
        hook is counted once, whatever happened; and with prompt timers the driver is done
        by the later of its start and the final deadline. */
    method CloseInner(t: Telemetry, b: CleanupBudget, started: int, end: Option<int>, earliest: int,
                      turns: nat -> Turn, panics: Name -> bool)
      returns (r: Closing, ghost account: Ledger, ran: nat)
      requires t.Valid()
      modifies this, t
      ensures hooks == [] && t.Valid() && t.ledger == Plus(old(t.ledger), account)
      ensures Splits(account, old(hooks)) && Counted(account) == multiset(old(hooks))
      ensures Explains(r, account.(dropped := []), old(hooks), turns, ran, panics)
      ensures !r.Abandoned? ==> account.dropped == []
      ensures Paced(account, turns, ran, WorkDeadline(b, started, end, earliest))
      ensures var work, final := WorkDeadline(b, started, end, earliest), FinalDeadline(b, started, end);
              AllPrompt(turns, b, started, work, final, ran) ==>
                started <= Clock(turns, started, ran) <= Max(started, final)
      ensures end.Some? && end.value <= started + b.abortReap && turns(0).top >= started ==> ran == 0
      ensures r.Done? ==> (IsSuccess(r.report) <==> ran == |old(hooks)| && AllReturned(turns, ran))
    {
      var work := WorkDeadline(b, started, end, earliest);
      r, account, ran := CloseLoop(t, work, turns, panics);
      ghost var left, before := hooks, account;
      Drop(t);
      account := before.(dropped := left);
      PlusAssociates(old(t.ledger), before, Drops(left));
      assert Plus(before, Drops(left)) == account;
      SplitsCounts(account, old(hooks));
      InTime(turns, b, started, end, earliest, ran);
      if r.Done? {
        SuccessMeans(r.report, old(hooks), turns);
      }
    }

    /** `skip`: the stack is consumed without running anything. */
    method Skip(t: Telemetry, reason: SkipReason, panics: Name -> bool) returns (r: Closing, ghost account: Ledger)
      requires t.Valid()
      modifies this, t
      ensures hooks == [] && t.Valid() && t.ledger == Plus(old(t.ledger), account)
      ensures Counted(account) == multiset(old(hooks)) && account == Skips(Reversed(old(hooks)))
      ensures r == if Panics(old(hooks), panics) then Unwound
                   else Done(Report([], Skippings(Reversed(old(hooks)), reason)))
    {
      account := Skips(Reversed(hooks));
      ReversedKeeps(hooks);
      var report, unwound := SkipRemaining(t, Report([], []), reason, panics);
      assert [] + Skippings(Reversed(old(hooks)), reason) == Skippings(Reversed(old(hooks)), reason);
      ghost var before := t.ledger;
      Drop(t);
      assert Plus(before, Drops([])) == before;
      r := if unwound then Unwound else Done(report);
    }
  }

  /** Everything that can become of a stack and the driver that owns it. */
  datatype Fate =
    | NeverPolled
    | SkippedAll(reason: SkipReason)
    | Closed(budget: CleanupBudget, started: int, end: Option<int>, earliest: int, turns: nat -> Turn)

  /** However a stack ends, the four counters grow together by the number of its hooks, and
      every hook is in exactly one of them, once. */
  method EndStack(stack: CleanupStack, t: Telemetry, fate: Fate, panics: Name -> bool)
    returns (ghost account: Ledger)
    requires stack.Valid() && t.Valid()
    modifies stack, t
    ensures stack.hooks == [] && t.Valid()
    ensures t.Total() == old(t.Total()) + |old(stack.hooks)|
    ensures Counted(t.ledger) == Counted(old(t.ledger)) + multiset(old(stack.hooks))
    ensures t.ledger == Plus(old(t.ledger), account)
    ensures forall name :: name in old(stack.hooks) ==> Counted(account)[name] == 1
    ensures fate.NeverPolled? ==> account == Drops(old(stack.hooks))
  {
    ghost var hooks := stack.hooks;
    match fate {
      case NeverPolled =>
        stack.Drop(t);
        account := Drops(hooks);
      case SkippedAll(reason) =>
        var _, skips := stack.Skip(t, reason, panics);
        account := skips;
      case Closed(b, started, end, earliest, turns) =>
        var _, closed, _ := stack.CloseInner(t, b, started, end, earliest, turns, panics);
        account := closed;
    }
    PlusCounts(old(t.ledger), account);
    OnceEach(hooks);
    SameSize(old(t.ledger), t.ledger, hooks);
  }

  lemma {:induction false} OnceEach(hooks: seq<Name>)
    requires forall j, k :: 0 <= j < k < |hooks| ==> hooks[j] != hooks[k]
    ensures forall name :: name in hooks ==> multiset(hooks)[name] == 1
  {
    if hooks != [] {
      var front, last := hooks[..|hooks| - 1], hooks[|hooks| - 1];
      OnceEach(front);
      assert hooks == front + [last];
      assert last !in front;
    }
  }

  lemma SameSize(a: Ledger, b: Ledger, hooks: seq<Name>)
    requires Counted(b) == Counted(a) + multiset(hooks)
    ensures Size(b) == Size(a) + |hooks|
  {
    assert Size(a) == |Counted(a)| && Size(b) == |Counted(b)|;
  }

  function Size(l: Ledger): nat {
    |l.observed| + |l.skipped| + |l.abandoned| + |l.dropped|
  }

  /** A report is a success exactly when every hook ran and succeeded. */
  lemma SuccessIff(report: Report, hooks: seq<Name>)
    requires Accounts(report, hooks)
    ensures IsSuccess(report) <==>
            |report.records| == |hooks| && forall k :: 0 <= k < |hooks| ==> report.records[k].outcome == Succeeded
  {
    assert |report.records| + |report.skipped| == |hooks|;
  }

  /** The first await of each of these turns was joined, with a hook that returned well. */
  ghost predicate AllReturned(turns: nat -> Turn, ran: nat) {
    forall k :: 0 <= k < ran ==> turns(k).first.Joined? && turns(k).first.result == Returned
  }

  /** A report is a success exactly when every hook ran and returned well within its time. */
  lemma SuccessMeans(report: Report, hooks: seq<Name>, turns: nat -> Turn)
    requires Accounts(report, hooks) && Followed(report.records, turns)
    ensures IsSuccess(report) <==> |report.records| == |hooks| && AllReturned(turns, |report.records|)
  {
    SuccessIff(report, hooks);
    assert forall k :: 0 <= k < |report.records| ==>
             (report.records[k].outcome == Succeeded <==> turns(k).first.Joined? && turns(k).first.result == Returned);
  }

  // ----- time

  /** When a turn that ran a hook is over. */
  function TurnEnd(turn: Turn): int {
    match turn.first
    case Joined(_, at) => at
    case Elapsed(_) => (match turn.reap case Joined(_, at) => at case Elapsed(at) => at case FutureDropped => turn.abort)
    case FutureDropped => turn.spawn
  }

  function Clock(turns: nat -> Turn, started: int, n: nat): int {
    if n == 0 then started else TurnEnd(turns(n - 1))
  }

  function HookDeadline(b: Budget, work: int, now: int): int {
    Min(work, now + b.perHook)
  }

  function ReapDeadline(b: Budget, final: int, now: int): int {
    Min(final, now + b.abortReap)
  }

  /** Nothing but awaiting takes time, and timers fire on time. */
  ghost predicate Prompt(turn: Turn, b: Budget, now: int, work: int, final: int) {
    && turn.top == turn.spawn == now
    && (turn.first.Joined? ==> now <= turn.first.at <= Max(now, HookDeadline(b, work, now)))
    && (turn.first.Elapsed? ==> && turn.first.at == turn.abort == HookDeadline(b, work, now)
                                && (turn.reap.Joined? ==> turn.abort <= turn.reap.at <= Max(turn.abort, ReapDeadline(b, final, turn.abort)))
                                && (turn.reap.Elapsed? ==> turn.reap.at == ReapDeadline(b, final, turn.abort)))
  }

  /** If there is any work time, it ends a whole abort interval before the final deadline. */
  lemma WorkLeavesReap(b: Budget, started: int, end: Option<int>, earliest: int)
    ensures var work, final := WorkDeadline(b, started, end, earliest), FinalDeadline(b, started, end);
            work <= started || work + b.abortReap <= final
  {
  }

  /** A hook that times out gets the whole abort interval. */
  lemma WholeReapInterval(turn: Turn, b: Budget, started: int, end: Option<int>, earliest: int, now: int)
    requires var work, final := WorkDeadline(b, started, end, earliest), FinalDeadline(b, started, end);
             Prompt(turn, b, now, work, final) && started <= now < work && turn.first.Elapsed?
    ensures ReapDeadline(b, FinalDeadline(b, started, end), turn.abort) == turn.abort + b.abortReap
  {
    WorkLeavesReap(b, started, end, earliest);
  }

  lemma TurnInTime(turn: Turn, b: Budget, now: int, work: int, final: int)
    requires Prompt(turn, b, now, work, final) && now < work && work + b.abortReap <= final
    ensures now <= TurnEnd(turn) <= final
  {
  }

  ghost predicate AllPrompt(turns: nat -> Turn, b: Budget, started: int, work: int, final: int, ran: nat) {
    forall k {:trigger Clock(turns, started, k)} :: 0 <= k < ran ==> Prompt(turns(k), b, Clock(turns, started, k), work, final)
  }

  lemma {:induction false} ClockInTime(turns: nat -> Turn, b: Budget, started: int, work: int, final: int, ran: nat)
    requires work <= started || work + b.abortReap <= final
    requires StartedBefore(turns, ran, work) && AllPrompt(turns, b, started, work, final, ran)
    ensures started <= Clock(turns, started, ran) <= Max(started, final)
  {
    if ran > 0 {
      ClockInTime(turns, b, started, work, final, ran - 1);
      var now := Clock(turns, started, ran - 1);
      assert Prompt(turns(ran - 1), b, now, work, final);
      TurnInTime(turns(ran - 1), b, now, work, final);
    }
  }

  /** With prompt timers, whatever number of hooks ran, the driver is done by the later of
      its start and the final deadline. */
  lemma ClosesInTime(turns: nat -> Turn, b: Budget, started: int, end: Option<int>, earliest: int, ran: nat)
    requires var work, final := WorkDeadline(b, started, end, earliest), FinalDeadline(b, started, end);
             StartedBefore(turns, ran, work) && AllPrompt(turns, b, started, work, final, ran)
    ensures started <= Clock(turns, started, ran) <= Max(started, FinalDeadline(b, started, end))
  {
    WorkLeavesReap(b, started, end, earliest);
    ClockInTime(turns, b, started, WorkDeadline(b, started, end, earliest), FinalDeadline(b, started, end), ran);
  }

  /** If the enclosing end leaves no work time, no hook is started. */
  lemma NoTimeNoHook(turns: nat -> Turn, b: Budget, started: int, end: int, earliest: int, ran: nat)
    requires end <= started + b.abortReap
    requires turns(0).top >= started
    requires StartedBefore(turns, ran, WorkDeadline(b, started, Some(end), earliest))
    ensures ran == 0
  {
    assert WorkDeadline(b, started, Some(end), earliest) <= started;
    assert !(turns(0).top < started);
  }

  /** What the time bounds say of a run that started this many hooks. */
  lemma InTime(turns: nat -> Turn, b: CleanupBudget, started: int, end: Option<int>, earliest: int, ran: nat)
    requires StartedBefore(turns, ran, WorkDeadline(b, started, end, earliest))
    ensures var work, final := WorkDeadline(b, started, end, earliest), FinalDeadline(b, started, end);
            AllPrompt(turns, b, started, work, final, ran) ==>
              started <= Clock(turns, started, ran) <= Max(started, final)
    ensures end.Some? && end.value <= started + b.abortReap && turns(0).top >= started ==> ran == 0
  {
    var work, final := WorkDeadline(b, started, end, earliest), FinalDeadline(b, started, end);
    if AllPrompt(turns, b, started, work, final, ran) {
      ClosesInTime(turns, b, started, end, earliest, ran);
    }
    if end.Some? && end.value <= started + b.abortReap && turns(0).top >= started {
      NoTimeNoHook(turns, b, started, end.value, earliest, ran);
    }
  }

  /** Without an enclosing end the whole total is work time and a whole abort interval
      follows it, and a hook that starts in time has time. */
  lemma BudgetLeavesTime(b: CleanupBudget, started: int, earliest: int, now: int)
    requires earliest <= started
    ensures WorkDeadline(b, started, None, earliest) == started + b.total > started
    ensures FinalDeadline(b, started, None) == WorkDeadline(b, started, None, earliest) + b.abortReap
    ensures forall work :: now < work ==> now < HookDeadline(b, work, now) <= work
  {
  }

  /** The work deadline: a whole abort interval before the end, but at most the total. */
  lemma WorkDeadlineIs(b: CleanupBudget, started: int, end: int, earliest: int)
    ensures end >= started + b.total + b.abortReap && earliest <= started ==>
              WorkDeadline(b, started, Some(end), earliest) == started + b.total
    ensures earliest + b.abortReap <= end <= started + b.total + b.abortReap ==>
              WorkDeadline(b, started, Some(end), earliest) == end - b.abortReap
    ensures end - b.abortReap < earliest <= started ==> WorkDeadline(b, started, Some(end), earliest) == started
  {
  }
}
