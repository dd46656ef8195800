/** The batch owner of scripts/parallel_process.py: `_Job` and `run_parallel`. */
module BatchOwner {
  import opened Bytes
  import opened Processes
  import Capture

  /** No signal of any kind. */
  predicate Untouched(log: seq<Act>) {
    Ready !in log && Interrupt !in log && Kill !in log
  }

  /** The head and tail buffers, if there is a capture. */
  method Buffers(child: Owned) returns (stdout: Bytes, stderr: Bytes)
    requires child.Recording()
    ensures Kept(stdout, stderr, child)
  {
    if child.captured {
      var out := child.capture.RetainedBuffers();
      stdout, stderr := out[0], out[1];
    } else {
      stdout, stderr := [], [];
      NothingShown(child, 0);
      NothingShown(child, 1);
    }
  }

  lemma NothingShown(child: Owned, i: Capture.Stream)
    requires child.Recording() && !child.captured
    ensures Shown(child, i) == []
  {
  }

  class Job {
    const index: nat
    const started: nat
    const owned: Owned?
    var errors: seq<string>
    var watchdog: bool
    var stoppingAt: Option<nat>
    var outcome: Option<Outcome>

    ghost predicate Valid()
      reads this, owned, CaptureOf(owned)
    {
      && (owned != null ==> owned.Valid() && owned.Recording() && owned.command == index && Ready !in owned.log)
      && (owned != null && Interrupt in owned.log ==> stoppingAt.Some?)
      && (owned != null && |errors| == 0 ==> Untouched(owned.log))
      && (stoppingAt.Some? || watchdog ==> |errors| > 0)
      && (outcome.Some? ==> Reported())
    }

    /** The outcome tells what happened, and nothing is left running unattended. */
    ghost predicate Reported()
      requires outcome.Some?
      reads this, owned, CaptureOf(owned)
    {
      && outcome.value.errors == errors && outcome.value.watchdog == watchdog
      && Faithful(outcome.value, owned)
      && (|errors| == 0 ==> outcome.value.reaped && outcome.value.outputEof)
      && Left()
    }

    /** Neither faults nor interruption have marked the job: at most its own time limit. */
    ghost predicate Regular()
      reads this
    {
      && owned != null
      && (watchdog <==> stoppingAt.Some?)
      && errors == (if watchdog then ["timeout"] else [])
    }

    ghost predicate Left()
      reads owned
    {
      owned != null ==> Settled(owned.log) && owned.Released()
    }

    /** Still to be observed. */
    ghost predicate Live()
      reads this, owned
    {
      owned != null && owned.captured
    }

    constructor (index: nat, started: nat, owned: Owned?)
      requires owned != null ==>
                 owned.Valid() && owned.Recording() && owned.command == index && Untouched(owned.log)
      ensures Valid() && this.index == index && this.owned == owned
      ensures errors == [] && outcome.None? && stoppingAt.None?
    {
      this.index, this.started, this.owned := index, started, owned;
      errors, watchdog, stoppingAt, outcome := [], false, None, None;
    }

    /** `_Job.stop`: only the first call can signal. */
    method Stop(world: World, reason: string)
      requires Valid() && outcome.None? && owned != null
      modifies world`tape, world`troubles, this`errors, this`stoppingAt, owned`log
      ensures Valid() && stoppingAt.Some? && reason in errors
      ensures old(stoppingAt).Some? ==> stoppingAt == old(stoppingAt) && owned.log == old(owned.log)
      ensures old(stoppingAt).None? ==>
                && stoppingAt == Some(world.now)
                && owned.log == old(owned.log) + (if owned.returncode.None? then [Interrupt] else [])
      ensures |world.tape| <= |old(world.tape)|
      ensures world.troubles >= old(world.troubles)
      ensures world.troubles == old(world.troubles) ==>
                errors == if reason in old(errors) then old(errors) else old(errors) + [reason]
      ensures forall e :: e in old(errors) ==> e in errors
      ensures world.troubles > old(world.troubles) ==> |errors| > |old(errors)|
    {
      if reason !in errors {
        errors := errors + [reason];
      }
      if stoppingAt.Some? {
        return;
      }
      stoppingAt := Some(world.now);
      if owned.returncode.None? {
        owned.Note(Interrupt);
        var denied := world.Denied();
        if denied {
          errors := errors + ["interrupt"];
        }
      }
    }

    /** `_Job.finish`: settles a child that is not complete, and closes it in any case. */
    method Finish(world: World, allowance: nat) returns (f: Fault)
      requires Valid()
      requires outcome.None? && |errors| == 0 ==> owned != null && owned.captured && owned.Completed()
      modifies world, this`errors, this`outcome, owned, CaptureOf(owned)
      ensures Valid() && Left() && old(errors) <= errors
      ensures f == Calm ==> outcome.Some?
      ensures owned != null ==> owned.captured == old(owned.captured)
      ensures |world.tape| <= |old(world.tape)|
      ensures world.interrupted == old(world.interrupted)
      ensures world.troubles >= old(world.troubles)
      ensures world.troubles == old(world.troubles) ==> f == Calm && errors == old(errors)
      ensures forall e :: e in old(errors) ==> e in errors
      ensures world.now >= old(world.now)
      ensures owned != null && old(owned.captured && owned.Completed()) ==> (Kill in owned.log <==> Kill in old(owned.log))
      ensures f == Calm && world.troubles > old(world.troubles) ==> |errors| > |old(errors)|
      ensures f != Os
    {
      f := Calm;
      if outcome.Some? {
        return;
      }
      var report := Outcome(None, [], [], world.now - started, watchdog, false, false, false, []);
      var after := errors;
      if owned != null {
        after, report, f := Conclude(world, allowance);
        after := CloseResources(world, owned, after);
      }
      errors := after;
      if f == Calm {
        outcome := Some(report.(errors := after));
      }
    }

    /** Settles the child unless it is complete. */
    method SettleChild(world: World, allowance: nat) returns (after: seq<string>, f: Fault)
      requires Valid() && owned != null
      requires |errors| == 0 ==> owned.captured && owned.Completed()
      modifies world, owned`returncode, owned`stdoutOpen, owned`stderrOpen, owned`log, owned`delivered, owned`effort, owned.capture
      ensures owned.Valid() && owned.Recording() && Settled(owned.log) && Ready !in owned.log
      ensures errors <= after && (|errors| == 0 ==> Untouched(owned.log) && owned.Completed())
      ensures Interrupt in owned.log ==> Interrupt in old(owned.log)
      ensures |world.tape| <= |old(world.tape)|
      ensures world.interrupted == old(world.interrupted)
      ensures world.troubles >= old(world.troubles)
      ensures world.troubles == old(world.troubles) ==> f == Calm && after == errors
      ensures world.now >= old(world.now)
      ensures old(owned.captured && owned.Completed()) ==> (Kill in owned.log <==> Kill in old(owned.log))
      ensures f == Calm && world.troubles > old(world.troubles) ==> |after| > |errors|
      ensures f != Os
      ensures owned.effort.looks >= old(owned.effort).looks || f != Calm
    {
      after, f := errors, Calm;
      var complete := false;
      if owned.captured {
        complete := owned.Complete(world);
      }
      if !complete {
        after, f := owned.Settle(world, allowance, after);
      }
    }

    /** The `try` block of `finish`. */
    method Conclude(world: World, allowance: nat) returns (after: seq<string>, report: Outcome, f: Fault)
      requires Valid() && owned != null
      requires |errors| == 0 ==> owned.captured && owned.Completed()
      modifies world, owned`returncode, owned`stdoutOpen, owned`stderrOpen, owned`log, owned`delivered, owned`effort, owned.capture
      ensures owned.Valid() && owned.Recording() && Settled(owned.log) && Ready !in owned.log
      ensures errors <= after && (|errors| == 0 ==> Untouched(owned.log))
      ensures Interrupt in owned.log ==> Interrupt in old(owned.log)
      ensures f == Calm ==> Faithful(report, owned)
      ensures |world.tape| <= |old(world.tape)|
      ensures world.interrupted == old(world.interrupted)
      ensures world.troubles >= old(world.troubles)
      ensures world.troubles == old(world.troubles) ==> f == Calm && after == errors
      ensures f == Calm ==> report.watchdog == watchdog && (|errors| == 0 ==> report.reaped && report.outputEof)
      ensures world.now >= old(world.now)
      ensures old(owned.captured && owned.Completed()) ==> (Kill in owned.log <==> Kill in old(owned.log))
      ensures f == Calm && world.troubles > old(world.troubles) ==> |after| > |errors|
      ensures f != Os
      ensures f == Calm ==> owned.effort.looks > old(owned.effort).looks && report.elapsed == world.now - started
    {
      report := Outcome(None, [], [], world.now - started, watchdog, false, false, false, []);
      after, f := SettleChild(world, allowance);
      if f == Calm {
        var status := owned.Poll(world);
        var stdout, stderr := Buffers(owned);
        report := Outcome(status, stdout, stderr, world.now - started, watchdog, owned.captured && owned.capture.overflow,
                          status.Some?, owned.captured && owned.Ended(), after);
      }
    }
  }

  // ----- the jobs of a batch

  /** Job i runs command i, so no two jobs share anything. */
  ghost predicate Indexed(jobs: seq<Job>) {
    forall i :: 0 <= i < |jobs| ==>
                     && jobs[i].index == i
                     && (jobs[i].owned != null ==> jobs[i].owned.command == i && jobs[i].owned.capture.owner == i)
  }

  lemma Apart(jobs: seq<Job>, k: nat)
    requires Indexed(jobs) && k < |jobs|
    ensures forall i :: 0 <= i < |jobs| && i != k ==>
              && jobs[i] != jobs[k]
              && (jobs[i].owned != null && jobs[k].owned != null ==>
                    jobs[i].owned != jobs[k].owned && jobs[i].owned.capture != jobs[k].owned.capture)
  {
  }

  ghost function Objects(jobs: seq<Job>): set<object> {
    (set i | 0 <= i < |jobs| :: jobs[i] as object) +
    (set i | 0 <= i < |jobs| && jobs[i].owned != null :: jobs[i].owned as object) +
    (set i | 0 <= i < |jobs| && jobs[i].owned != null :: jobs[i].owned.capture as object)
  }

  ghost predicate AllValid(jobs: seq<Job>)
    reads Objects(jobs)
  {
    forall i {:trigger jobs[i].Valid()} :: 0 <= i < |jobs| ==> jobs[i].Valid()
  }

  /** A job without an outcome can be observed. */
  ghost predicate AllLive(jobs: seq<Job>)
    reads Objects(jobs)
  {
    forall i {:trigger jobs[i].Live()} :: 0 <= i < |jobs| ==> jobs[i].outcome.None? ==> jobs[i].Live()
  }

  ghost predicate AllRegular(jobs: seq<Job>)
    reads Objects(jobs)
  {
    forall i {:trigger jobs[i].Regular()} :: 0 <= i < |jobs| ==> jobs[i].Regular()
  }

  ghost predicate AllDone(jobs: seq<Job>)
    reads Objects(jobs)
  {
    forall i :: 0 <= i < |jobs| ==> jobs[i].outcome.Some?
  }

  /** The only error is the time limit. */
  predicate Plain(o: Outcome) {
    o.errors == if o.watchdog then ["timeout"] else []
  }

  ghost predicate AllPlain(jobs: seq<Job>)
    reads Objects(jobs)
  {
    forall i :: 0 <= i < |jobs| ==>
      jobs[i].outcome.Some? && Plain(jobs[i].outcome.value) && jobs[i].owned != null
  }

  lemma ValidAt(jobs: seq<Job>, i: nat)
    requires AllValid(jobs) && i < |jobs|
    ensures jobs[i].Valid()
  {
    var valid := jobs[i].Valid();
    assert valid;
  }

  /** One command's launch, up to the first fault that ends the batch. */
  method LaunchJob(world: World, index: nat, code: int, allowance: nat, limit: nat, retainTail: bool) returns (job: Job, f: Fault)
    modifies world
    ensures fresh(job) && (job.owned != null ==> fresh(job.owned) && fresh(job.owned.capture))
    ensures job.Valid() && job.index == index
    ensures f == Calm && job.outcome.None? ==> job.Live()
    ensures old(world.interrupted) ==> world.interrupted && job.owned == null
    ensures world.troubles >= old(world.troubles)
    ensures world.troubles == old(world.troubles) && !world.interrupted ==>
              f == Calm && job.owned != null && job.outcome.None? && job.Regular()
    ensures f != Os
    ensures world.troubles > old(world.troubles) ==> |job.errors| > 0 || f == Keyboard || f == Other
  {
    var requested := world.Requested();
    if requested {
      job := new Job(index, world.now, null);
      job.errors := ["interrupted"];
      f := job.Finish(world, allowance);
      return;
    }
    var started := world.now;
    f := world.Trouble();
    if f == Calm {
      var owned := new Owned(index, code, limit, retainTail);
      f := world.Trouble();
      owned.captured := f == Calm;
      job := new Job(index, started, owned);
    } else {
      job := new Job(index, started, null);
    }
    if f == Os || f == Value {
      job.errors := ["launch"];
      f := job.Finish(world, allowance);
    }
  }

  function Weight(stoppingAt: Option<nat>, outcome: Option<Outcome>): nat {
    if outcome.Some? then 0 else if stoppingAt.Some? then 1 else 2
  }

  /** The job was asked to stop and has had its grace. */
  predicate GraceIsOver(stoppingAt: Option<nat>, grace: nat, now: nat) {
    stoppingAt.Some? && now >= stoppingAt.value + grace
  }

  /** One job's turn in the batch loop. */
  method Visit(world: World, job: Job, timeout: nat, grace: nat, allowance: nat) returns (f: Fault)
    requires job.Valid() && job.outcome.None? && job.Live()
    modifies world, job, job.owned, CaptureOf(job.owned)
    ensures job.Valid() && job.Live()
    ensures old(world.interrupted) ==> world.interrupted
    ensures f == Calm ==>
              |world.tape| + Weight(job.stoppingAt, job.outcome)
              < old(|world.tape| + Weight(job.stoppingAt, job.outcome))
    ensures |world.tape| <= |old(world.tape)|
    ensures world.troubles >= old(world.troubles)
    ensures world.troubles == old(world.troubles) ==> f == Calm
    ensures world.troubles == old(world.troubles) && !world.interrupted && old(job.Regular()) ==> job.Regular()
    ensures job.watchdog && !old(job.watchdog) ==> world.now >= job.started + timeout
    ensures old(world.interrupted) ==> "interrupted" in job.errors
    ensures Kill in job.owned.log && !old(Kill in job.owned.log) && world.troubles == old(world.troubles) ==>
              GraceIsOver(job.stoppingAt, grace, world.now)
    ensures f != Os
    ensures f == Calm ==> job.owned.Completed() || job.outcome.Some? || world.now >= old(world.now) + 1
  {
    PassOn(world, job);
    f := job.owned.ObserveUntil(world, world.now + 1, false);
    if f == Calm {
      f := Judge(world, job, timeout, grace, allowance);
    } else if f == Os {
      job.errors := job.errors + ["capture"];
      f := job.Finish(world, allowance);
    }
  }

  /** An interruption of the batch is passed on to the job. */
  method PassOn(world: World, job: Job)
    requires job.Valid() && job.outcome.None? && job.owned != null
    modifies world`tape, world`interrupted, world`troubles, job`errors, job`stoppingAt, job.owned`log
    ensures job.Valid() && (old(world.interrupted) ==> world.interrupted)
    ensures |world.tape| <= |old(world.tape)| && world.troubles >= old(world.troubles)
    ensures old(job.stoppingAt).Some? ==> job.stoppingAt.Some?
    ensures !world.interrupted ==> job.errors == old(job.errors) && job.stoppingAt == old(job.stoppingAt)
    ensures world.interrupted ==> "interrupted" in job.errors && job.stoppingAt.Some?
    ensures Kill in job.owned.log <==> Kill in old(job.owned.log)
  {
    var requested := world.Requested();
    if requested {
      job.Stop(world, "interrupted");
    }
  }

  /** What becomes of a job after a round of observation. */
  method Judge(world: World, job: Job, timeout: nat, grace: nat, allowance: nat) returns (f: Fault)
    requires job.Valid() && job.outcome.None? && job.Live()
    modifies world, job, job.owned, CaptureOf(job.owned)
    ensures job.Valid() && job.Live()
    ensures world.interrupted == old(world.interrupted)
    ensures f == Calm ==>
              |world.tape| + Weight(job.stoppingAt, job.outcome)
              < old(|world.tape| + Weight(job.stoppingAt, job.outcome))
    ensures |world.tape| <= |old(world.tape)|
    ensures world.troubles >= old(world.troubles)
    ensures world.troubles == old(world.troubles) ==> f == Calm
    ensures world.troubles == old(world.troubles) && !world.interrupted && old(job.Regular()) ==> job.Regular()
    ensures job.watchdog && !old(job.watchdog) ==> world.now >= job.started + timeout
    ensures forall e :: e in old(job.errors) ==> e in job.errors
    ensures old(job.stoppingAt).Some? ==> job.stoppingAt == old(job.stoppingAt)
    ensures Kill in job.owned.log && !old(Kill in job.owned.log) ==> GraceIsOver(job.stoppingAt, grace, world.now)
    ensures world.now >= old(world.now) && f != Os
    ensures f == Calm && old(job.owned.Completed()) ==> job.outcome.Some?
  {
    var complete := job.owned.Complete(world);
    if complete {
      f := job.Finish(world, allowance);
    } else {
      f := Expire(world, job, timeout, grace, allowance);
    }
  }

  /** A job that is not complete may run out of time, and then out of grace. */
  method Expire(world: World, job: Job, timeout: nat, grace: nat, allowance: nat) returns (f: Fault)
    requires job.Valid() && job.outcome.None? && job.Live()
    modifies world, job, job.owned, CaptureOf(job.owned)
    ensures job.Valid() && job.Live()
    ensures world.interrupted == old(world.interrupted)
    ensures f == Calm ==>
              |world.tape| + Weight(job.stoppingAt, job.outcome)
              < old(|world.tape| + Weight(job.stoppingAt, job.outcome))
    ensures |world.tape| <= |old(world.tape)|
    ensures world.troubles >= old(world.troubles)
    ensures world.troubles == old(world.troubles) ==> f == Calm
    ensures world.troubles == old(world.troubles) && !world.interrupted && old(job.Regular()) ==> job.Regular()
    ensures job.watchdog && !old(job.watchdog) ==> world.now >= job.started + timeout
    ensures forall e :: e in old(job.errors) ==> e in job.errors
    ensures old(job.stoppingAt).Some? ==> job.stoppingAt == old(job.stoppingAt)
    ensures Kill in job.owned.log && !old(Kill in job.owned.log) ==> GraceIsOver(job.stoppingAt, grace, world.now)
    ensures world.now >= old(world.now) && f != Os
  {
    f := Calm;
    match job.stoppingAt
    case None =>
      var remaining := world.TimeLeft(job.started + timeout);
      if !remaining {
        job.Stop(world, "timeout");
        job.watchdog := true;
      }
    case Some(since) =>
      var remaining := world.TimeLeft(since + grace);
      if !remaining {
        f := job.Finish(world, allowance);
      }
  }

  // ----- the batch

  function Sum(weights: seq<nat>): nat {
    if |weights| == 0 then 0 else weights[0] + Sum(weights[1..])
  }

  lemma {:induction false} SumUpdate(weights: seq<nat>, k: nat, w: nat)
    requires k < |weights|
    ensures Sum(weights[k := w]) == Sum(weights) - weights[k] + w
  {
    if k == 0 {
      assert weights[k := w][1..] == weights[1..];
    } else {
      assert weights[k := w][1..] == weights[1..][k - 1 := w];
      SumUpdate(weights[1..], k - 1, w);
    }
  }

  ghost function Weights(jobs: seq<Job>): (ws: seq<nat>)
    reads Objects(jobs)
    ensures |ws| == |jobs|
  {
    seq(|jobs|, i requires 0 <= i < |jobs| reads Objects(jobs) => Weight(jobs[i].stoppingAt, jobs[i].outcome))
  }

  /** The first job from k on without an outcome, if any. */
  function FirstPending(jobs: seq<Job>, k: nat): (p: nat)
    requires k <= |jobs|
    reads jobs
    ensures k <= p <= |jobs| && (p < |jobs| ==> jobs[p].outcome.None?)
    ensures forall i :: k <= i < p ==> jobs[i].outcome.Some?
    decreases |jobs| - k
  {
    if k == |jobs| || jobs[k].outcome.None? then k else FirstPending(jobs, k + 1)
  }

  /** What is left of the run: the tape, and how far each job is. */
  ghost function Ahead(world: World, jobs: seq<Job>): nat
    reads world, Objects(jobs)
  {
    |world.tape| + Sum(Weights(jobs))
  }

  /** Job k's turn, seen from the whole batch. */
  method VisitAt(world: World, jobs: seq<Job>, k: nat, timeout: nat, grace: nat, allowance: nat) returns (f: Fault)
    requires Indexed(jobs) && AllValid(jobs) && AllLive(jobs)
    requires k < |jobs| && jobs[k].outcome.None?
    modifies world, jobs[k], jobs[k].owned, CaptureOf(jobs[k].owned)
    ensures AllValid(jobs) && AllLive(jobs)
    ensures old(world.interrupted) ==> world.interrupted
    ensures forall i :: 0 <= i < |jobs| && i != k ==> jobs[i].outcome == old(jobs[i].outcome)
    ensures f == Calm ==> Ahead(world, jobs) < old(Ahead(world, jobs))
    ensures world.troubles >= old(world.troubles)
    ensures world.troubles == old(world.troubles) ==> f == Calm
    ensures world.troubles == old(world.troubles) && !world.interrupted && old(AllRegular(jobs)) ==> AllRegular(jobs)
  {
    ghost var before := Weights(jobs);
    Apart(jobs, k);
    ValidAt(jobs, k);
    f := Visit(world, jobs[k], timeout, grace, allowance);
    forall i | 0 <= i < |jobs| ensures jobs[i].Valid() {
      if i != k {
        assert old(jobs[i].Valid());
      }
    }
    ghost var w := Weight(jobs[k].stoppingAt, jobs[k].outcome);
    assert Weights(jobs) == before[k := w];
    SumUpdate(before, k, w);
  }

  /** One pass over the jobs: whatever is still pending makes progress. */
  method Pass(world: World, jobs: seq<Job>, timeout: nat, grace: nat, allowance: nat, ghost p: nat)
    returns (f: Fault)
    requires Indexed(jobs) && AllValid(jobs) && AllLive(jobs)
    requires p < |jobs| && jobs[p].outcome.None?
    modifies world, Objects(jobs)
    ensures AllValid(jobs) && AllLive(jobs)
    ensures old(world.interrupted) ==> world.interrupted
    ensures f == Calm ==> Ahead(world, jobs) < old(Ahead(world, jobs))
    ensures world.troubles >= old(world.troubles)
    ensures world.troubles == old(world.troubles) ==> f == Calm
    ensures world.troubles == old(world.troubles) && !world.interrupted && old(AllRegular(jobs)) ==> AllRegular(jobs)
  {
    ghost var troubles, interrupted, regular := world.troubles, world.interrupted, AllRegular(jobs);
    f := Calm;
    var k := 0;
    while k < |jobs|
      invariant k <= |jobs|
      invariant AllValid(jobs) && AllLive(jobs)
      invariant interrupted ==> world.interrupted
      invariant k <= p ==> jobs[p].outcome.None?
      invariant world.troubles >= troubles && f == Calm
      invariant world.troubles == troubles && !world.interrupted && regular ==> AllRegular(jobs)
      invariant Ahead(world, jobs) <= old(Ahead(world, jobs))
      invariant k > p ==> Ahead(world, jobs) < old(Ahead(world, jobs))
    {
      if jobs[k].outcome.None? {
        f := VisitAt(world, jobs, k, timeout, grace, allowance);
        if f != Calm {
          return;
        }
      }
      k := k + 1;
    }
  }

  /** The batch loop ends, by itself or by a fault. */
  method Drive(world: World, jobs: seq<Job>, timeout: nat, grace: nat, allowance: nat) returns (f: Fault)
    requires Indexed(jobs) && AllValid(jobs) && AllLive(jobs)
    modifies world, Objects(jobs)
    ensures AllValid(jobs)
    ensures old(world.interrupted) ==> world.interrupted
    ensures f == Calm ==> AllDone(jobs)
    ensures world.troubles >= old(world.troubles)
    ensures world.troubles == old(world.troubles) ==> f == Calm
    ensures world.troubles == old(world.troubles) && !world.interrupted && old(AllRegular(jobs)) ==> AllRegular(jobs)
  {
    ghost var troubles, interrupted, regular := world.troubles, world.interrupted, AllRegular(jobs);
    f := Calm;
    var p := FirstPending(jobs, 0);
    while p < |jobs|
      invariant p == FirstPending(jobs, 0)
      invariant AllValid(jobs) && AllLive(jobs)
      invariant interrupted ==> world.interrupted
      invariant world.troubles >= troubles && f == Calm
      invariant world.troubles == troubles && !world.interrupted && regular ==> AllRegular(jobs)
      decreases Ahead(world, jobs)
    {
      f := Pass(world, jobs, timeout, grace, allowance, p);
      if f != Calm {
        return;
      }
      p := FirstPending(jobs, 0);
    }
  }

  /** A job the loop left without an outcome is marked and finished. */
  method AbandonJob(world: World, job: Job, allowance: nat) returns (f: Fault)
    requires job.Valid()
    modifies world, job, job.owned, CaptureOf(job.owned)
    ensures job.Valid() && job.Left() && world.interrupted == old(world.interrupted)
    ensures f == Calm ==> job.outcome.Some?
    ensures old(job.outcome).Some? ==> job.outcome == old(job.outcome)
    ensures world.troubles >= old(world.troubles) && (f != Calm ==> world.troubles > old(world.troubles))
  {
    f := Calm;
    if job.outcome.None? {
      job.errors := job.errors + ["batch-abandoned"];
      f := job.Finish(world, allowance);
    }
  }

  /** Job k, seen from the whole batch. */
  method AbandonAt(world: World, jobs: seq<Job>, k: nat, allowance: nat) returns (f: Fault)
    requires Indexed(jobs) && AllValid(jobs) && k < |jobs|
    modifies world, jobs[k], jobs[k].owned, CaptureOf(jobs[k].owned)
    ensures AllValid(jobs) && jobs[k].Left() && world.interrupted == old(world.interrupted)
    ensures f == Calm ==> jobs[k].outcome.Some?
    ensures old(jobs[k].outcome).Some? ==> jobs[k].outcome == old(jobs[k].outcome)
    ensures world.troubles >= old(world.troubles) && (f != Calm ==> world.troubles > old(world.troubles))
  {
    Apart(jobs, k);
    ValidAt(jobs, k);
    f := AbandonJob(world, jobs[k], allowance);
    forall i | 0 <= i < |jobs| ensures jobs[i].Valid() {
      if i != k {
        assert old(jobs[i].Valid());
      }
    }
  }

  /** The `finally` block: no child is left to itself, even if finishing another one failed. */
  method Abandon(world: World, jobs: seq<Job>, allowance: nat) returns (failed: bool)
    requires Indexed(jobs) && AllValid(jobs)
    modifies world, Objects(jobs)
    ensures AllValid(jobs) && world.interrupted == old(world.interrupted)
    ensures forall i :: 0 <= i < |jobs| ==> jobs[i].Left()
    ensures !failed ==> AllDone(jobs)
    ensures old(AllPlain(jobs)) ==> AllPlain(jobs)
    ensures world.troubles >= old(world.troubles) && (failed ==> world.troubles > old(world.troubles))
  {
    failed := false;
    for k := 0 to |jobs|
      invariant AllValid(jobs) && world.interrupted == old(world.interrupted)
      invariant forall i :: 0 <= i < k ==> jobs[i].Left()
      invariant !failed ==> forall i :: 0 <= i < k ==> jobs[i].outcome.Some?
      invariant forall i :: 0 <= i < |jobs| && old(jobs[i].outcome).Some? ==> jobs[i].outcome == old(jobs[i].outcome)
      invariant world.troubles >= old(world.troubles) && (failed ==> world.troubles > old(world.troubles))
    {
      Apart(jobs, k);
      var f := AbandonAt(world, jobs, k, allowance);
      failed := failed || f != Calm;
    }
  }

  datatype Batch = Outcomes(outcomes: seq<Outcome>) | Raised

  /** Launches the commands in order until a fault ends the batch. */
  method LaunchAll(world: World, n: nat, code: nat -> int, allowance: nat, limit: nat, retainTail: bool)
    returns (jobs: seq<Job>, f: Fault)
    modifies world
    ensures Indexed(jobs) && AllValid(jobs)
    ensures forall i :: 0 <= i < |jobs| ==> fresh(jobs[i]) && (jobs[i].owned != null ==> fresh(jobs[i].owned) && fresh(jobs[i].owned.capture))
    ensures f == Calm ==> |jobs| == n && AllLive(jobs)
    ensures world.troubles >= old(world.troubles)
    ensures world.troubles == old(world.troubles) && !world.interrupted ==> f == Calm && AllRegular(jobs)
    ensures old(world.interrupted) ==> world.interrupted
  {
    ghost var troubles, interrupted := world.troubles, world.interrupted;
    jobs, f := [], Calm;
    while |jobs| < n && f == Calm
      invariant |jobs| <= n
      invariant forall i :: 0 <= i < |jobs| ==> fresh(jobs[i]) && (jobs[i].owned != null ==> fresh(jobs[i].owned) && fresh(jobs[i].owned.capture))
      invariant Indexed(jobs) && AllValid(jobs)
      invariant f == Calm ==> AllLive(jobs)
      invariant world.troubles >= troubles && (interrupted ==> world.interrupted)
      invariant world.troubles == troubles && !world.interrupted ==> f == Calm && AllRegular(jobs)
    {
      var job;
      ghost var before := jobs;
      assert forall i :: 0 <= i < |before| ==> before[i].Valid();
      job, f := LaunchJob(world, |jobs|, code(|jobs|), allowance, limit, retainTail);
      jobs := jobs + [job];
      forall i | 0 <= i < |jobs| ensures jobs[i].Valid() {
        assert i < |before| ==> jobs[i] == before[i] && before[i].Valid();
      }
    }
  }

  /** The outcomes in command order, spoiled by an interruption. */
  method Collect(jobs: seq<Job>, interrupted: bool) returns (outcomes: seq<Outcome>)
    requires AllDone(jobs)
    ensures |outcomes| == |jobs|
    ensures forall i :: 0 <= i < |jobs| ==>
              outcomes[i] == jobs[i].outcome.value.(
                errors := jobs[i].outcome.value.errors + if interrupted then ["batch-interrupted"] else [])
  {
    outcomes := [];
    for k := 0 to |jobs|
      invariant |outcomes| == k
      invariant forall i :: 0 <= i < k ==>
                  outcomes[i] == jobs[i].outcome.value.(
                    errors := jobs[i].outcome.value.errors + if interrupted then ["batch-interrupted"] else [])
    {
      var o := jobs[k].outcome.value;
      outcomes := outcomes + [o.(errors := o.errors + if interrupted then ["batch-interrupted"] else [])];
    }
  }

  lemma RegularIsPlain(jobs: seq<Job>)
    requires AllValid(jobs) && AllRegular(jobs)
    requires AllDone(jobs)
    ensures AllPlain(jobs)
  {
    forall i | 0 <= i < |jobs| ensures Plain(jobs[i].outcome.value) && jobs[i].owned != null {
      ValidAt(jobs, i);
      var regular := jobs[i].Regular();
      assert regular;
    }
  }

  lemma Tells(job: Job, o: Outcome, late: seq<string>)
    requires job.Valid() && job.outcome.Some? && o == job.outcome.value.(errors := job.outcome.value.errors + late)
    ensures Told(o, job)
    ensures |late| == 0 && Plain(job.outcome.value) && job.owned != null ==> Undisturbed(o, job)
    ensures |late| > 0 ==> !Succeeded(o)
  {
    if job.owned != null && !o.overflow {
      WholeOutput(o.stdout, o.stderr, job.owned);
    }
  }

  /** One true outcome per job, in the order of the jobs. */
  ghost predicate AllTold(outcomes: seq<Outcome>, jobs: seq<Job>)
    reads Objects(jobs)
  {
    && |outcomes| == |jobs|
    && forall i {:trigger Told(outcomes[i], jobs[i])} :: 0 <= i < |jobs| ==> Told(outcomes[i], jobs[i])
  }

  ghost predicate AllUndisturbed(outcomes: seq<Outcome>, jobs: seq<Job>)
    reads Objects(jobs)
  {
    && |outcomes| == |jobs|
    && forall i {:trigger Undisturbed(outcomes[i], jobs[i])} :: 0 <= i < |jobs| ==> Undisturbed(outcomes[i], jobs[i])
  }

  predicate NoneSucceeded(outcomes: seq<Outcome>) {
    forall i :: 0 <= i < |outcomes| ==> !Succeeded(outcomes[i])
  }

  /** What is returned once every job has an outcome. */
  method Report(jobs: seq<Job>, interrupted: bool) returns (outcomes: seq<Outcome>)
    requires AllValid(jobs) && AllDone(jobs)
    ensures AllTold(outcomes, jobs) && (interrupted ==> NoneSucceeded(outcomes))
    ensures !interrupted && AllPlain(jobs) ==> AllUndisturbed(outcomes, jobs)
  {
    label Before:
    outcomes := Collect(jobs, interrupted);
    JobsStay@Before(jobs);
    forall i | 0 <= i < |jobs|
      ensures Told(outcomes[i], jobs[i]) && (interrupted ==> !Succeeded(outcomes[i]))
      ensures !interrupted && AllPlain(jobs) ==> Undisturbed(outcomes[i], jobs[i])
    {
      ValidAt(jobs, i);
      Tells(jobs[i], outcomes[i], if interrupted then ["batch-interrupted"] else []);
    }
  }

  /** The `try` block: launches, then observes until every job has an outcome. */
  method LaunchAndDrive(world: World, n: nat, code: nat -> int, timeout: nat, grace: nat, allowance: nat,
                        limit: nat, retainTail: bool)
    returns (jobs: seq<Job>, f: Fault)
    modifies world
    ensures Indexed(jobs) && AllValid(jobs)
    ensures forall i :: 0 <= i < |jobs| ==> fresh(jobs[i]) && (jobs[i].owned != null ==> fresh(jobs[i].owned) && fresh(jobs[i].owned.capture))
    ensures f == Calm ==> |jobs| == n && AllDone(jobs)
    ensures world.troubles >= old(world.troubles)
    ensures world.troubles == old(world.troubles) && !world.interrupted ==> f == Calm && AllPlain(jobs)
  {
    jobs, f := LaunchAll(world, n, code, allowance, limit, retainTail);
    if f == Calm {
      f := Drive(world, jobs, timeout, grace, allowance);
      if world.troubles == old(world.troubles) && !world.interrupted {
        RegularIsPlain(jobs);
      }
    }
  }

  /** What happens elsewhere does not concern the jobs. */
  twostate lemma JobsStay(jobs: seq<Job>)
    requires old(AllValid(jobs)) && unchanged(Objects(jobs))
    ensures AllValid(jobs) && (old(AllDone(jobs)) ==> AllDone(jobs)) && (old(AllPlain(jobs)) ==> AllPlain(jobs))
  {
    forall i | 0 <= i < |jobs| ensures jobs[i].Valid() {
      var valid := old(jobs[i].Valid());
      assert valid;
    }
  }

  /** The `finally` block up to the restored handlers: the last moment for a signal. */
  method AbandonAndRestore(world: World, jobs: seq<Job>, allowance: nat) returns (failed: bool, requested: bool)
    requires Indexed(jobs) && AllValid(jobs)
    modifies world, Objects(jobs)
    ensures AllValid(jobs) && requested == world.interrupted && (old(world.interrupted) ==> requested)
    ensures forall i :: 0 <= i < |jobs| ==> jobs[i].Left()
    ensures !failed ==> AllDone(jobs)
    ensures old(AllPlain(jobs)) ==> AllPlain(jobs)
    ensures world.troubles >= old(world.troubles) && (failed ==> world.troubles > old(world.troubles))
  {
    failed := Abandon(world, jobs, allowance);
    label Finished:
    requested := world.Requested();
    JobsStay@Finished(jobs);
  }

  /** The `finally` block, and the outcomes if nothing was raised. */
  method WindUp(world: World, jobs: seq<Job>, f: Fault, allowance: nat) returns (r: Batch)
    requires Indexed(jobs) && AllValid(jobs)
    modifies world, Objects(jobs)
    ensures AllValid(jobs)
    ensures forall i :: 0 <= i < |jobs| ==> jobs[i].Left()
    ensures r.Outcomes? ==> f == Calm && AllTold(r.outcomes, jobs) && (world.interrupted ==> NoneSucceeded(r.outcomes))
    ensures world.troubles >= old(world.troubles) && (old(world.interrupted) ==> world.interrupted)
    ensures f == Calm && world.troubles == old(world.troubles) ==> r.Outcomes?
    ensures r.Outcomes? && old(AllPlain(jobs)) && !world.interrupted ==> AllUndisturbed(r.outcomes, jobs)
  {
    var failed, requested := AbandonAndRestore(world, jobs, allowance);
    if f != Calm || failed {
      return Raised;
    }
    var outcomes := Report(jobs, requested);
    r := Outcomes(outcomes);
  }

  /** The supported part of `run_parallel`. */
  method RunJobs(world: World, n: nat, code: nat -> int, timeout: nat, grace: nat, allowance: nat,
                 limit: nat, retainTail: bool)
    returns (r: Batch, jobs: seq<Job>)
    modifies world
    ensures Indexed(jobs) && AllValid(jobs)
    ensures forall i :: 0 <= i < |jobs| ==> jobs[i].Left()
    ensures r.Outcomes? ==> |jobs| == n && AllTold(r.outcomes, jobs)
    ensures r.Outcomes? && world.interrupted ==> NoneSucceeded(r.outcomes)
    ensures world.troubles >= old(world.troubles)
    ensures world.troubles == old(world.troubles) && !world.interrupted ==>
              r.Outcomes? && AllUndisturbed(r.outcomes, jobs)
  {
    var f;
    jobs, f := LaunchAndDrive(world, n, code, timeout, grace, allowance, limit, retainTail);
    r := WindUp(world, jobs, f, allowance);
  }

  /** An outcome tells what was done to the child of its own job; success, that it was
      never signalled and that its whole output is there. */
  ghost predicate Told(o: Outcome, job: Job)
    reads job.owned, CaptureOf(job.owned)
  {
    && Faithful(o, job.owned)
    && (Succeeded(o) ==> job.owned != null && Untouched(job.owned.log) && Whole(o.stdout, o.stderr, job.owned))
  }

  /** Without faults and interruption: the child completed by itself and its status is
      reported, or it ran out of time and that is the one error. */
  ghost predicate Undisturbed(o: Outcome, job: Job)
    reads job.owned, CaptureOf(job.owned)
  {
    && job.owned != null
    && (o.errors == (if o.watchdog then ["timeout"] else []))
    && (!o.watchdog ==> o.reaped && o.outputEof && o.status == Some(job.owned.code) && Untouched(job.owned.log))
  }

  /** `run_parallel`. `code(i)` is the status command i would exit with. */
  method RunParallel(
    world: World, commands: seq<string>, code: nat -> int,
    timeout: int, grace: int, allowance: int, outputLimit: int, retainTail: bool, supported: bool)
    returns (r: Batch, jobs: seq<Job>)
    requires !world.interrupted
    modifies world
    ensures !(1 <= |commands| <= 4) || "" in commands || timeout <= 0 || grace <= 0 || allowance <= 0 || outputLimit <= 0
            ==> r.Raised? && jobs == []
    ensures Indexed(jobs) && AllValid(jobs)
    ensures forall i :: 0 <= i < |jobs| ==> jobs[i].Left()
    ensures r.Outcomes? ==> |r.outcomes| == |commands|
    ensures r.Outcomes? && supported ==> |jobs| == |commands| && AllTold(r.outcomes, jobs)
    ensures r.Outcomes? && (world.interrupted || !supported) ==> NoneSucceeded(r.outcomes)
    ensures 1 <= |commands| <= 4 && "" !in commands && timeout > 0 && grace > 0 && allowance > 0 && outputLimit > 0
            && supported && world.troubles == old(world.troubles) && !world.interrupted ==>
              r.Outcomes? && AllUndisturbed(r.outcomes, jobs)
  {
    jobs := [];
    if !(1 <= |commands| <= 4) || "" in commands || timeout <= 0 || grace <= 0 || allowance <= 0 || outputLimit <= 0 {
      return Raised, [];
    }
    if !supported {
      return Outcomes(seq(|commands|, _ => Unstarted("unsupported-signal-owner"))), [];
    }
    r, jobs := RunJobs(world, |commands|, code, timeout, grace, allowance, outputLimit, retainTail);
  }
}
