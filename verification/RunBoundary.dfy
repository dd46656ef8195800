/** The run boundary of crates/batter-core/src/operation.rs: `run_inner`, poll by poll. */
module RunBoundary {
  import opened Bytes
  import opened Operation

  datatype Outcome = Completed(ok: bool) | NotStarted(reason: Interruption) | Interrupted(reason: Interruption)

  datatype Phase = Unpolled | Waiting | Finished(outcome: Outcome) | Dropped(polled: bool) | Unwound

  /** What the work would do when polled; the factory is part of it the first time. */
  datatype Work = Pending | Ready(ok: bool) | Panics

  /** The run future: its context, its child scope once polled, whether the factory was
      invoked, and how often. */
  datatype Boundary = Boundary(parent: nat, scope: nat, started: bool, invocations: nat, phase: Phase)

  datatype State = State(world: World, run: Boundary)

  /** Every exit, unwinding included, drops the guard, which cancels the child scope. */
  function Exit(w: World, run: Boundary, phase: Phase): State
    requires run.scope < |w.nodes|
  {
    State(Cancel(w, run.scope), run.(phase := phase))
  }

  function Interrupt(w: World, run: Boundary, reason: Interruption): State
    requires run.scope < |w.nodes|
  {
    Exit(w, run, Finished(if run.started then Interrupted(reason) else NotStarted(reason)))
  }

  /** The biased select: cancellation, then the timer, then the work, which the first
      time around means invoking the factory. */
  function Select(w: World, run: Boundary, timer: bool, work: Work): State
    requires run.scope < |w.nodes|
  {
    if IsCancelled(w, run.scope) then Interrupt(w, run, Cancelled)
    else if timer then Interrupt(w, run, DeadlineExceeded)
    else
      var run := if run.started then run else run.(started := true, invocations := run.invocations + 1);
      match work
      case Pending => State(w, run.(phase := Waiting))
      case Ready(ok) => Exit(w, run, Finished(Completed(ok)))
      case Panics => Exit(w, run, Unwound)
  }

  /** One poll; `timer` and `work` say what the timer and the work would do. */
  function Poll(s: State, timer: bool, work: Work): State {
    match s.run.phase
    case Unpolled =>
      if s.run.parent < |s.world.nodes| then
        var w := Under(s.world, s.world.nodes[s.run.parent].deadline, Some(s.run.parent));
        var run := s.run.(scope := |s.world.nodes|);
        (match Check(w, run.parent)
         case Some(reason) => Interrupt(w, run, reason)
         case None => Select(w, run, timer, work))
      else s
    case Waiting => if s.run.scope < |s.world.nodes| then Select(s.world, s.run, timer, work) else s
    case _ => s
  }

  function DropRun(s: State): State {
    match s.run.phase
    case Unpolled => s.(run := s.run.(phase := Dropped(false)))
    case Waiting => if s.run.scope < |s.world.nodes| then Exit(s.world, s.run, Dropped(true)) else s
    case _ => s
  }

  /** What happens: the boundary is polled or dropped, or something else in the world. */
  datatype Event = PollEvent(timer: bool, work: Work) | DropEvent | Elsewhere(step: Step)

  function Happen(s: State, e: Event): State {
    match e
    case PollEvent(timer, work) => Poll(s, timer, work)
    case DropEvent => DropRun(s)
    case Elsewhere(step) => s.(world := Apply(s.world, step))
  }

  function Drive(s: State, events: seq<Event>): State {
    if events == [] then s else Happen(Drive(s, events[..|events| - 1]), events[|events| - 1])
  }

  // ----- what holds throughout every run

  ghost predicate Scoped(w: World, run: Boundary) {
    && run.parent < run.scope < |w.nodes|
    && w.nodes[run.scope].parent == Some(run.parent)
    && w.nodes[run.scope].deadline == w.nodes[run.parent].deadline
  }

  ghost predicate Inv(s: State) {
    && Bounded(s.world) && s.run.parent < |s.world.nodes|
    && s.run.invocations == (if s.run.started then 1 else 0)
    && (match s.run.phase
        case Unpolled => !s.run.started
        case Waiting => s.run.started && Scoped(s.world, s.run)
        case Finished(outcome) =>
          && Scoped(s.world, s.run) && s.world.nodes[s.run.scope].cancelled
          && (outcome.NotStarted? <==> !s.run.started)
        case Unwound => s.run.started && Scoped(s.world, s.run) && s.world.nodes[s.run.scope].cancelled
        case Dropped(polled) =>
          && s.run.started == polled
          && (polled ==> Scoped(s.world, s.run) && s.world.nodes[s.run.scope].cancelled))
  }

  lemma SelectKeeps(w: World, run: Boundary, timer: bool, work: Work)
    requires Bounded(w) && Scoped(w, run) && run.invocations == (if run.started then 1 else 0)
    ensures Inv(Select(w, run, timer, work))
  {
    CancelKeeps(w, run.scope);
  }

  lemma PollKeeps(s: State, timer: bool, work: Work)
    requires Inv(s)
    ensures Inv(Poll(s, timer, work))
  {
    match s.run.phase
    case Unpolled =>
      var w := Under(s.world, s.world.nodes[s.run.parent].deadline, Some(s.run.parent));
      var run := s.run.(scope := |s.world.nodes|);
      UnderKeeps(s.world, s.world.nodes[s.run.parent].deadline, Some(s.run.parent));
      CancelKeeps(w, run.scope);
      SelectKeeps(w, run, timer, work);
    case Waiting => SelectKeeps(s.world, s.run, timer, work);
    case _ =>
  }

  lemma HappenKeeps(s: State, e: Event)
    requires Inv(s)
    ensures Inv(Happen(s, e))
  {
    match e
    case PollEvent(timer, work) => PollKeeps(s, timer, work);
    case DropEvent => if s.run.phase == Waiting { CancelKeeps(s.world, s.run.scope); }
    case Elsewhere(step) => ApplyKeeps(s.world, step);
  }

  /** Over every sequence of polls, drops and outside events: the factory is invoked at
      most once; NotStarted is reported exactly when it never was; and every exit after a
      poll leaves the child scope cancelled. */
  lemma {:induction false} EveryRun(w: World, parent: nat, events: seq<Event>)
    requires Bounded(w) && parent < |w.nodes|
    ensures var s := Drive(State(w, Boundary(parent, 0, false, 0, Unpolled)), events);
            Inv(s) && s.run.invocations <= 1 && s.run.parent == parent
  {
    if events != [] {
      EveryRun(w, parent, events[..|events| - 1]);
      HappenKeeps(Drive(State(w, Boundary(parent, 0, false, 0, Unpolled)), events[..|events| - 1]), events[|events| - 1]);
    }
  }

  // ----- what one poll may do

  /** Completion is selected only when, on that poll, neither cancellation nor the timer
      was ready; and cancellation wins over the deadline. */
  lemma CompletionComesLast(s: State, timer: bool, work: Work)
    requires Inv(s) && (s.run.phase == Unpolled || s.run.phase == Waiting)
    ensures var s' := Poll(s, timer, work);
            && (s'.run.phase.Finished? && s'.run.phase.outcome.Completed? ==>
                  !timer && !IsCancelled(s.world, s.run.parent) && work == Ready(s'.run.phase.outcome.ok))
            && (IsCancelled(s.world, s.run.parent) ==>
                  s'.run.phase == Finished(if s.run.started then Interrupted(Cancelled) else NotStarted(Cancelled)))
            && (!IsCancelled(s.world, s.run.parent) && s.run.phase == Unpolled
                && s.world.now >= s.world.nodes[s.run.parent].deadline ==>
                  s'.run.phase == Finished(NotStarted(DeadlineExceeded)))
            && (timer && s.run.phase == Waiting && !IsCancelled(s.world, s.run.scope) ==>
                  s'.run.phase == Finished(Interrupted(DeadlineExceeded)))
            && (timer && s.run.phase == Unpolled && !IsCancelled(s.world, s.run.parent) ==>
                  s'.run.phase == Finished(NotStarted(DeadlineExceeded)))
            && (s'.run.phase == Waiting ==> !timer && work == Pending)
            && (s'.run.phase == Unwound ==> !timer && work == Panics && !IsCancelled(s.world, s.run.parent))
  {
    if s.run.phase == Unpolled {
      var w := Under(s.world, s.world.nodes[s.run.parent].deadline, Some(s.run.parent));
      SameAsBefore(s.world, w, s.run.parent);
    }
  }

  /** Polling and dropping touch only the boundary's own scope: every context that
      existed before keeps its deadline, token and check, unless it is below that scope. */
  lemma BoundaryIsLocal(s: State, e: Event, j: nat)
    requires Inv(s) && !e.Elsewhere? && j < |s.world.nodes|
    requires s.run.phase == Unpolled || !Above(s.world, s.run.scope, j)
    ensures Check(Happen(s, e).world, j) == Check(s.world, j)
    ensures j < |Happen(s, e).world.nodes| && Happen(s, e).world.nodes[j] == s.world.nodes[j]
  {
    if s.run.phase == Unpolled && e.PollEvent? {
      var d, parent := s.world.nodes[s.run.parent].deadline, s.run.parent;
      var w := Under(s.world, d, Some(parent));
      UnderKeeps(s.world, d, Some(parent));
      SameAsBefore(s.world, w, j);
      AboveOld(w, j, |s.world.nodes|);
      CancelIsLocal(w, |s.world.nodes|, j);
    } else if s.run.phase == Waiting {
      CancelIsLocal(s.world, s.run.scope, j);
    }
  }
}
