/** The single process owner of scripts/scheduling_process.py: `run_process` and
    `_run_owned_process`. */
module ProcessOwner {
  import opened Bytes
  import opened Lines
  import opened Processes
  import opened Readiness
  import Capture

  datatype Ended = Returned(outcome: Outcome) | Raised

  /** `SignalAfterReady`: a marker that fits one line, and the time to shut down. */
  datatype Policy = Policy(marker: Bytes, shutdown: nat)

  type ReadyPolicy = p: Policy | |p.marker| > 0 && NEWLINE !in p.marker && RETURN !in p.marker && p.shutdown > 0
    witness Policy([0], 1)

  /** What the caller asked for. */
  datatype Plan = Plan(
    command: nat, timeout: int, outputLimit: int, reapAllowance: int, launchRecord: bool, ready: Option<ReadyPolicy>)

  /** The least time before a watchdog may act. */
  function Patience(plan: Plan): int {
    match plan.ready
    case None => plan.timeout
    case Some(policy) => if policy.shutdown < plan.timeout then policy.shutdown else plan.timeout
  }

  /** The capture and the launch record. */
  method Prepare(world: World, child: Owned, plan: Plan) returns (fault: Fault)
    requires child.Valid() && child.Recording() && child.log == [Launch(child.command)]
    modifies world`tape, world`interrupted, world`troubles, child`captured, child`recordWritten
    ensures child.Valid() && child.Recording()
    ensures |world.tape| <= |old(world.tape)|
    ensures old(world.interrupted) ==> world.interrupted
    ensures world.ignoring ==> world.interrupted == old(world.interrupted)
    ensures fault == Calm <==> world.troubles == old(world.troubles)
    ensures world.troubles >= old(world.troubles)
    ensures fault == Calm ==> child.captured
    ensures fault == Calm && plan.launchRecord ==> child.recordWritten || world.interrupted
  {
    fault := world.Trouble();
    if fault == Calm {
      child.captured := true;
      if plan.launchRecord {
        var requested := world.Requested();
        if !requested {
          fault := WriteRecord(world, child);
        }
      }
    }
  }

  /** The launch record is made, checked and written to the child. */
  method WriteRecord(world: World, child: Owned) returns (fault: Fault)
    modifies world`tape, world`troubles, child`recordWritten
    ensures |world.tape| <= |old(world.tape)|
    ensures world.troubles == old(world.troubles) + if fault == Calm then 0 else 1
    ensures child.recordWritten <==> fault == Calm
  {
    fault := world.Trouble();
    child.recordWritten := fault == Calm;
  }

  /** Waiting for the marker, if asked to, and for the child to end. */
  method Watch(world: World, child: Owned, plan: Plan, started: nat)
    returns (fault: Fault, errors: seq<string>, watchdog: bool)
    requires child.Valid() && child.Recording() && child.captured && child.log == [Launch(child.command)]
    requires plan.timeout > 0 && started <= world.now
    modifies world, child`returncode, child`stdoutOpen, child`stderrOpen, child`log, child`delivered, child`effort, child`signalledAt, child.capture
    ensures child.Valid() && child.Recording()
    ensures |world.tape| <= |old(world.tape)| && world.now >= old(world.now)
    ensures old(world.interrupted) ==> world.interrupted
    ensures world.ignoring ==> world.interrupted == old(world.interrupted)
    ensures Kill !in child.log && Interrupt !in child.log
    ensures Ready in child.log ==> plan.ready.Some? && child.ShowsMarker(plan.ready.value.marker)
    ensures fault == Calm && |errors| == 0 && plan.ready.Some? ==> Ready in child.log
    ensures fault == Calm && |errors| == 0 && !watchdog ==> world.interrupted || child.Completed()
    ensures fault != Calm ==> |errors| == 0 && !watchdog
    ensures watchdog ==> world.now >= started + Patience(plan)
    ensures fault == Calm && plan.ready.None? ==> |errors| == 0
    ensures fault == Calm <==> world.troubles == old(world.troubles)
    ensures world.troubles >= old(world.troubles)
    ensures watchdog && Ready in child.log ==>
              child.signalledAt.Some? && world.now >= child.signalledAt.value + plan.ready.value.shutdown
    ensures old(world.interrupted) ==> fault == Calm && child.delivered == old(child.delivered)
  {
    errors, watchdog := [], false;
    var deadline := started + plan.timeout;
    if plan.ready.Some? {
      var failure;
      failure, fault := child.SignalWhenReady(world, deadline, plan.ready.value.marker);
      if fault != Calm {
        return;
      }
      if failure.Some? {
        return fault, [failure.value], failure.value == "readiness-timeout";
      }
      deadline := world.now + plan.ready.value.shutdown;
    }
    ghost var shown := child.capture.streams;
    fault, watchdog := ObserveToEnd(world, child, deadline);
    if plan.ready.Some? {
      MarkerStays(shown, child.capture.streams, plan.ready.value.marker);
    }
  }

  /** Observes until the deadline; the watchdog acts on a child that is then not complete. */
  method ObserveToEnd(world: World, child: Owned, deadline: nat) returns (fault: Fault, watchdog: bool)
    requires child.Valid() && child.Recording() && child.captured
    modifies world, child`returncode, child`stdoutOpen, child`stderrOpen, child`log, child`delivered, child`effort, child.capture
    ensures child.Valid() && child.Recording() && Quiet(old(child.log), child.log)
    ensures Capture.HeadsGrow(old(child.capture.streams), child.capture.streams)
    ensures |world.tape| <= |old(world.tape)| && world.now >= old(world.now)
    ensures old(world.interrupted) ==> world.interrupted && fault == Calm && child.delivered == old(child.delivered)
    ensures world.ignoring ==> world.interrupted == old(world.interrupted)
    ensures watchdog ==> fault == Calm && world.now >= deadline && !world.interrupted
    ensures fault == Calm && !watchdog ==> world.interrupted || child.Completed()
    ensures fault == Calm <==> world.troubles == old(world.troubles)
    ensures world.troubles >= old(world.troubles)
  {
    watchdog := false;
    fault := child.ObserveUntil(world, deadline, true);
    if fault == Calm {
      var requested := world.Requested();
      if !requested {
        var complete := child.Complete(world);
        watchdog := !complete;
      }
    }
  }

  /** The `try` block, once the child exists. */
  method Supervise(world: World, child: Owned, plan: Plan, started: nat)
    returns (fault: Fault, errors: seq<string>, watchdog: bool)
    requires child.Valid() && child.Recording() && child.log == [Launch(child.command)]
    requires plan.timeout > 0 && started <= world.now
    modifies world, child, child.capture
    ensures child.Valid() && child.Recording()
    ensures |world.tape| <= |old(world.tape)| && world.now >= old(world.now)
    ensures old(world.interrupted) ==> world.interrupted
    ensures world.ignoring ==> world.interrupted == old(world.interrupted)
    ensures Kill !in child.log && Interrupt !in child.log
    ensures Ready in child.log ==> plan.ready.Some? && child.ShowsMarker(plan.ready.value.marker)
    ensures fault == Calm && |errors| == 0 && plan.ready.Some? ==> Ready in child.log
    ensures fault == Calm && |errors| == 0 && !watchdog ==> world.interrupted || child.Completed()
    ensures fault != Calm ==> |errors| == 0 && !watchdog
    ensures watchdog ==> world.now >= started + Patience(plan)
    ensures fault == Calm ==> child.captured
    ensures fault == Calm && plan.ready.None? ==> |errors| == 0
    ensures fault == Calm <==> world.troubles == old(world.troubles)
    ensures world.troubles >= old(world.troubles)
    ensures watchdog && Ready in child.log ==>
              child.signalledAt.Some? && world.now >= child.signalledAt.value + plan.ready.value.shutdown
    ensures old(world.interrupted) ==> child.delivered == old(child.delivered)
    ensures fault == Calm && plan.launchRecord ==> child.recordWritten || world.interrupted
  {
    errors, watchdog := [], false;
    fault := Prepare(world, child, plan);
    if fault == Calm {
      fault, errors, watchdog := Watch(world, child, plan, started);
    }
  }

  function FaultError(fault: Fault): (r: seq<string>)
    ensures "io" in r <==> fault == Os
    ensures "invalid-launch-record" in r <==> fault == Value
    ensures "interrupted" in r <==> fault == Keyboard
  {
    match fault
    case Os => ["io"]
    case Value => ["invalid-launch-record"]
    case Keyboard => ["interrupted"]
    case _ => []
  }

  /** The `finally` block. */
  method Release(world: World, child: Owned, plan: Plan, errors: seq<string>)
    returns (after: seq<string>, eof: bool, f: Fault)
    requires child.Valid() && child.Recording() && Kill !in child.log && plan.reapAllowance > 0
    requires Ready in child.log ==> plan.ready.Some? && child.ShowsMarker(plan.ready.value.marker)
    modifies world, child, child.capture
    ensures child.Valid() && child.Recording() && errors <= after && Settled(child.log)
    ensures Ready in child.log ==> plan.ready.Some? && child.ShowsMarker(plan.ready.value.marker)
    ensures old(child.Completed()) && child.captured ==> Kill !in child.log
    ensures Ready in child.log <==> Ready in old(child.log)
    ensures Interrupt in child.log <==> Interrupt in old(child.log)
    ensures world.interrupted == old(world.interrupted) && world.now >= old(world.now)
    ensures eof <==> child.Ended()
    ensures child.captured == old(child.captured)
    ensures world.troubles >= old(world.troubles)
    ensures world.troubles == old(world.troubles) ==> f == Calm && after == errors
    ensures f == Calm && world.troubles > old(world.troubles) ==> |after| > |errors|
    ensures f == Calm ==> child.returncode.Some? || world.now >= old(world.now) + plan.reapAllowance
    ensures child.captured && world.troubles == old(world.troubles) ==>
              child.Completed() || world.now >= old(world.now) + plan.reapAllowance
    ensures child.Released()
  {
    after, f := errors, Calm;
    var complete := false;
    if child.captured {
      complete := child.Complete(world);
    }
    if !complete {
      ghost var shown := child.capture.streams;
      after, f := child.Settle(world, plan.reapAllowance, errors);
      if Ready in child.log {
        MarkerStays(shown, child.capture.streams, plan.ready.value.marker);
      }
    }
    eof := child.captured && child.Ended();
    after := CloseResources(world, child, after);
  }

  lemma ShownIsHead(child: Owned, i: Capture.Stream)
    requires child.Recording() && child.capture.tailLimit == 0
    ensures |child.capture.streams| == 2 && Shown(child, i) == child.capture.streams[i].head
    ensures !child.captured ==> Shown(child, i) == []
  {
    var c := child.capture;
    assert Capture.Tracked(i, c.streams[i], c.arrivals, c.headLimit, 0);
    Capture.PrefixIsHead(i, c.arrivals, c.headLimit);
  }

  /** The prefix-only buffers, if there is a capture. */
  method Buffers(child: Owned) returns (stdout: Bytes, stderr: Bytes)
    requires child.Recording() && child.capture.tailLimit == 0
    ensures Kept(stdout, stderr, child)
    ensures forall marker: Bytes :: child.ShowsMarker(marker) ==> Marked(stdout, marker) || Marked(stderr, marker)
  {
    ShownIsHead(child, 0);
    ShownIsHead(child, 1);
    stdout, stderr := [], [];
    if child.captured {
      stdout, stderr := child.capture.streams[0].head, child.capture.streams[1].head;
    }
  }

  /** Without faults and interruption: the child completed and its status is reported, or
      the watchdog or the readiness policy gives the reason. */
  ghost predicate Undisturbed(o: Outcome, child: Owned, plan: Plan)
    reads child
  {
    && (plan.ready.None? ==> |o.errors| == 0)
    && (|o.errors| == 0 && !o.watchdog ==>
          && o.status == Some(child.code) && o.reaped && o.outputEof && Kill !in child.log)
  }

  /** No child is left to itself, and only a readiness policy ever signals one. */
  ghost predicate Attended(child: Owned, plan: Plan)
    reads child, child.capture
  {
    && child.Valid() && child.Recording() && Settled(child.log) && child.Released() && child.command == plan.command
    && Interrupt !in child.log && (Ready in child.log ==> plan.ready.Some?)
  }

  /** The outcome is true of the child, and a readiness signal has its marker in the output. */
  ghost predicate Reported(o: Outcome, child: Owned, plan: Plan)
    reads child, child.capture
  {
    && Faithful(o, child)
    && (Ready in child.log && plan.ready.Some? ==>
          Marked(o.stdout, plan.ready.value.marker) || Marked(o.stderr, plan.ready.value.marker))
  }

  /** A launched child, from its capture to its outcome. */
  method Attend(world: World, plan: Plan, child: Owned, started: nat) returns (r: Ended)
    requires plan.timeout > 0 && plan.reapAllowance > 0 && started <= world.now
    requires child.Valid() && child.Recording() && child.log == [Launch(plan.command)] && child.command == plan.command
    requires child.capture.tailLimit == 0
    modifies world, child, child.capture
    ensures Attended(child, plan)
    ensures world.now >= old(world.now) && world.troubles >= old(world.troubles)
    ensures old(world.interrupted) ==> world.interrupted
    ensures r.Returned? ==> Reported(r.outcome, child, plan)
    ensures r.Returned? && r.outcome.watchdog ==> world.now >= started + Patience(plan)
    ensures r.Returned? && !r.outcome.reaped ==> world.now >= old(world.now) + plan.reapAllowance
    ensures world.troubles == old(world.troubles) && !world.interrupted ==>
              r.Returned? && Undisturbed(r.outcome, child, plan)
    ensures r.Returned? && Succeeded(r.outcome) && !world.interrupted ==>
              Kill !in child.log && (plan.ready.Some? ==> Ready in child.log)
    ensures r.Returned? && world.troubles == old(world.troubles) && !r.outcome.outputEof ==>
              world.now >= old(world.now) + plan.reapAllowance
    ensures r.Returned? && world.troubles > old(world.troubles) ==> |r.outcome.errors| > 0
    ensures r.Raised? ==> world.troubles > old(world.troubles)
  {
    var fault, errors, watchdog := Supervise(world, child, plan, started);
    errors := errors + FaultError(fault);
    var eof, f;
    errors, eof, f := Release(world, child, plan, errors);
    if f != Calm || fault == Other {
      return Raised;
    }
    var outcome := Conclude(world, child, started, watchdog, eof, errors);
    r := Returned(outcome);
  }

  /** The last poll and the outcome. */
  method Conclude(world: World, child: Owned, started: nat, watchdog: bool, eof: bool, errors: seq<string>)
    returns (o: Outcome)
    requires child.Valid() && child.Recording() && Settled(child.log) && started <= world.now
    requires child.capture.tailLimit == 0 && (eof <==> child.Ended())
    modifies world`tape, child`returncode, child`log, child`effort
    ensures child.Valid() && Quiet(old(child.log), child.log) && Settled(child.log)
    ensures Faithful(o, child) && o.watchdog == watchdog && o.errors == errors
    ensures old(child.returncode).Some? ==> o.reaped
    ensures forall marker: Bytes :: child.ShowsMarker(marker) ==> Marked(o.stdout, marker) || Marked(o.stderr, marker)
    ensures child.effort.looks > old(child.effort).looks && o.elapsed == world.now - started
  {
    var status := child.Poll(world);
    var stdout, stderr := Buffers(child);
    o := Outcome(status, stdout, stderr, world.now - started, watchdog, child.captured && child.capture.overflow,
                 status.Some?, eof, errors);
  }

  /** `_run_owned_process`. `code` is the status the command would exit with. */
  method RunOwned(world: World, plan: Plan, code: int) returns (r: Ended, child: Owned?)
    requires plan.timeout > 0 && plan.reapAllowance > 0 && plan.outputLimit > 0
    modifies world
    ensures old(world.interrupted) ==> child == null && r == Returned(Unstarted("interrupted"))
    ensures old(world.interrupted) ==> world.interrupted
    ensures child != null ==> fresh(child) && fresh(child.capture) && Attended(child, plan)
    ensures r.Returned? ==> if child == null then Faithful(r.outcome, null) else Reported(r.outcome, child, plan)
    ensures r.Returned? && r.outcome.watchdog ==> world.now >= old(world.now) + Patience(plan)
    ensures r.Returned? && child != null && !r.outcome.reaped ==> world.now >= old(world.now) + plan.reapAllowance
    ensures world.troubles >= old(world.troubles)
    ensures world.troubles == old(world.troubles) && !world.interrupted ==>
              r.Returned? && child != null && Undisturbed(r.outcome, child, plan)
    ensures r.Returned? && Succeeded(r.outcome) ==> child != null
    ensures r.Returned? && Succeeded(r.outcome) && !world.interrupted ==>
              Kill !in child.log && (plan.ready.Some? ==> Ready in child.log)
    ensures r.Returned? && child != null && world.troubles == old(world.troubles) && !r.outcome.outputEof ==>
              world.now >= old(world.now) + plan.reapAllowance
    ensures r.Returned? && world.troubles > old(world.troubles) ==> |r.outcome.errors| > 0
    ensures r.Raised? ==> world.troubles > old(world.troubles)
  {
    child := null;
    var requested := world.Requested();
    if requested {
      return Returned(Unstarted("interrupted")), null;
    }
    var started := world.now;
    var fault := world.Trouble();
    if fault != Calm {
      if fault == Other {
        return Raised, null;
      }
      var error := if fault == Os then ["spawn"] else FaultError(fault);
      return Returned(Outcome(None, [], [], world.now - started, false, false, false, false, error)), null;
    }
    var owned := new Owned(plan.command, code, plan.outputLimit, false);
    child := owned;
    r := Attend(world, plan, owned, started);
  }

  /** The bounds `run_process` accepts. */
  predicate Acceptable(plan: Plan) {
    plan.timeout > 0 && plan.reapAllowance > 0 && plan.outputLimit > 0
  }

  /** `run_process`. The handlers found on entry decide whether a child is launched at all. */
  method RunProcess(
    world: World, plan: Plan, code: int, defaultSigchld: bool, supportedSigint: bool)
    returns (r: Ended, child: Owned?)
    requires !world.interrupted
    modifies world
    ensures child != null ==> fresh(child) && fresh(child.capture) && Attended(child, plan)
    ensures child != null ==> Acceptable(plan) && defaultSigchld && supportedSigint
    ensures !Acceptable(plan) ==> r.Raised?
    ensures Acceptable(plan) && !(defaultSigchld && supportedSigint) ==>
              r == Returned(Unstarted(
                if !defaultSigchld then "unobservable-child-status" else "unsupported-sigint-owner"))
    ensures r.Returned? ==> if child == null then Faithful(r.outcome, null) else Reported(r.outcome, child, plan)
    ensures r.Returned? && r.outcome.watchdog ==> world.now >= old(world.now) + Patience(plan)
    ensures r.Returned? && child != null && !r.outcome.reaped ==> world.now >= old(world.now) + plan.reapAllowance
    ensures Acceptable(plan) && defaultSigchld && supportedSigint
            && world.troubles == old(world.troubles) && !world.interrupted ==>
              r.Returned? && child != null && Undisturbed(r.outcome, child, plan)
    ensures r.Returned? && world.interrupted ==> "interrupted" in r.outcome.errors
    ensures r.Returned? && Succeeded(r.outcome) ==>
              child != null && Kill !in child.log && (plan.ready.Some? <==> Ready in child.log) && Whole(r.outcome.stdout, r.outcome.stderr, child)
    ensures r.Returned? && child != null && world.troubles == old(world.troubles) && !r.outcome.outputEof ==>
              world.now >= old(world.now) + plan.reapAllowance
    ensures r.Returned? && world.troubles > old(world.troubles) ==> |r.outcome.errors| > 0
    ensures r.Raised? && child == null && world.troubles == old(world.troubles) ==>
              plan.timeout <= 0 || plan.reapAllowance <= 0 || plan.outputLimit <= 0
  {
    child := null;
    if !Acceptable(plan) {
      return Raised, null;
    }
    if !defaultSigchld {
      return Returned(Unstarted("unobservable-child-status")), null;
    }
    if !supportedSigint {
      return Returned(Unstarted("unsupported-sigint-owner")), null;
    }
    r, child := RunOwned(world, plan, code);
    if r.Returned? {
      var requested := world.Requested();
      if child != null && !r.outcome.overflow {
        WholeOutput(r.outcome.stdout, r.outcome.stderr, child);
      }
      if requested && "interrupted" !in r.outcome.errors {
        r := Returned(r.outcome.(errors := r.outcome.errors + ["interrupted"]));
      }
    }
  }
}
