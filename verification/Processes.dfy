/** Owned child processes of scripts/scheduling_process.py: what is signalled and reaped,
    in which order, and what is kept of their output.

    The operating system answers through a finite tape of arbitrary numbers. Every wait
    draws from it, and when it is used up the clock has reached the deadline at hand, so
    each tape is one terminating run and every terminating run has a tape. */
module Processes {
  import opened Bytes
  import opened Readiness
  import Capture

  // ----- what is done to one child

  datatype Act = Launch(command: nat) | Ready | Interrupt | Kill | Eof | Reap

  predicate IsSignal(a: Act) {
    a.Ready? || a.Interrupt? || a.Kill?
  }

  /** What may be done after what was done. */
  predicate Allowed(before: seq<Act>, a: Act) {
    match a
    case Launch(_) => |before| == 0
    case Ready => Reap !in before && Ready !in before
    case Interrupt => Reap !in before && Interrupt !in before
    case Kill => Reap !in before
    case Eof => Eof !in before
    case Reap => Reap !in before && (Eof in before || Kill in before)
  }

  /** Names an act of a log; `Safe` is only instantiated for acts that are named. */
  predicate Nth(i: nat) {
    i >= 0
  }

  predicate Safe(log: seq<Act>) {
    forall i {:trigger Nth(i)} :: 0 <= i < |log| && Nth(i) ==> Allowed(log[..i], log[i])
  }

  lemma SafeExtend(log: seq<Act>, a: Act)
    requires Safe(log) && Allowed(log, a)
    ensures Safe(log + [a])
  {
    var longer := log + [a];
    forall i {:trigger Nth(i)} | 0 <= i < |longer| && Nth(i) ensures Allowed(longer[..i], longer[i]) {
      if i < |log| {
        assert longer[..i] == log[..i];
      } else {
        assert longer[..i] == log;
      }
    }
  }

  /** What a safe log promises of any two of its acts. */
  lemma SafeMeans(log: seq<Act>, i: nat, j: nat)
    requires Safe(log) && i < j < |log|
    ensures log[i] == Reap ==> !IsSignal(log[j]) && log[j] != Reap
    ensures log[i] == Interrupt ==> log[j] != Interrupt
    ensures log[i] == Ready ==> log[j] != Ready
    ensures log[j] == Reap ==> exists k :: 0 <= k < j && (log[k] == Eof || log[k] == Kill)
  {
    assert Nth(j);
    assert log[i] == log[..j][i];
    if log[j] == Reap {
      var k :| 0 <= k < j && (log[..j][k] == Eof || log[..j][k] == Kill);
      assert log[k] == log[..j][k];
    }
  }

  /** What a safe log promises: at most one readiness signal and one interrupt, no
      signal after the reap, and no reap before the output ended or the group was killed. */
  lemma SafeLogs(log: seq<Act>)
    requires Safe(log)
    ensures forall i, j :: 0 <= i < j < |log| && log[i] == Reap ==> !IsSignal(log[j])
    ensures forall i, j :: 0 <= i < j < |log| && log[i] == Ready ==> log[j] != Ready
    ensures forall i, j :: 0 <= i < j < |log| && log[i] == Interrupt ==> log[j] != Interrupt
    ensures forall j :: 0 <= j < |log| && log[j] == Reap ==>
              exists k :: 0 <= k < j && (log[k] == Eof || log[k] == Kill)
  {
    forall i, j | 0 <= i < j < |log|
      ensures log[i] == Reap ==> !IsSignal(log[j])
      ensures log[i] == Ready ==> log[j] != Ready
      ensures log[i] == Interrupt ==> log[j] != Interrupt
      ensures log[j] == Reap ==> exists k :: 0 <= k < j && (log[k] == Eof || log[k] == Kill)
    {
      SafeMeans(log, i, j);
    }
    if |log| > 0 {
      assert Nth(0);
    }
  }

  /** Only reading and reaping happened in between. */
  ghost predicate Quiet(before: seq<Act>, after: seq<Act>) {
    && before <= after
    && (Ready in after <==> Ready in before)
    && (Interrupt in after <==> Interrupt in before)
    && (Kill in after <==> Kill in before)
  }

  // ----- the operating system

  datatype Fault = Calm | Os | Value | Keyboard | Other

  /** What a read of a pipe finds: nothing yet, its end, up to 8192 bytes, or a failure. */
  datatype Delivery = Blocked | EndOfFile | Chunk(data: Bytes) | Raises(fault: Fault)

  function FaultOf(n: nat): Fault {
    match n case 0 => Os case 1 => Value case 2 => Keyboard case 3 => Other case _ => Calm
  }

  /** `troubles` counts every system call that did not go through, `chances` how often there
      was time left, and `latest` is what the latest read found. */
  class World {
    var tape: seq<nat>
    var now: nat
    var interrupted: bool
    const ignoring: bool
    ghost var troubles: nat
    ghost var chances: nat
    ghost var latest: Delivery

    constructor (tape: seq<nat>, ignoring: bool)
      ensures this.tape == tape && now == 0 && !interrupted && this.ignoring == ignoring
      ensures troubles == chances == 0
    {
      this.tape, now, interrupted, this.ignoring := tape, 0, false, ignoring;
      troubles, chances, latest := 0, 0, Blocked;
    }

    /** Anything that may or may not happen. */
    method Flip() returns (b: bool)
      modifies this`tape
      ensures b <==> |old(tape)| > 0 && old(tape)[0] % 2 == 1
      ensures |tape| == if |old(tape)| == 0 then 0 else |old(tape)| - 1
    {
      b := false;
      if |tape| > 0 {
        b := tape[0] % 2 == 1;
        tape := tape[1..];
      }
    }

    /** A system call goes through, or raises. */
    method Trouble() returns (f: Fault)
      modifies this`tape, this`troubles
      ensures f == if |old(tape)| == 0 then Calm else FaultOf(old(tape)[0])
      ensures |tape| == if |old(tape)| == 0 then 0 else |old(tape)| - 1
      ensures troubles == old(troubles) + if f == Calm then 0 else 1
    {
      f := Calm;
      if |tape| > 0 {
        f := FaultOf(tape[0]);
        tape := tape[1..];
      }
      troubles := troubles + if f == Calm then 0 else 1;
    }

    /** A system call whose only failure is an error number. */
    method Denied() returns (b: bool)
      modifies this`tape, this`troubles
      ensures b <==> |old(tape)| > 0 && old(tape)[0] % 2 == 1
      ensures |tape| <= |old(tape)|
      ensures troubles == old(troubles) + if b then 1 else 0
    {
      b := Flip();
      troubles := troubles + if b then 1 else 0;
    }

    /** A read of an open pipe. */
    method Deliver() returns (d: Delivery)
      modifies this`tape, this`troubles, this`latest
      ensures latest == d
      ensures if d.Chunk? then |tape| + |d.data| + 1 == |old(tape)|
              else |tape| == if |old(tape)| == 0 then 0 else |old(tape)| - 1
      ensures d.Chunk? ==> 1 <= |d.data| <= 8192
      ensures d.Raises? ==> d.fault != Calm
      ensures troubles == old(troubles) + if d.Raises? then 1 else 0
      ensures |old(tape)| > 1 ==>
                && (d.Raises? <==> old(tape)[0] < 4) && (d.EndOfFile? <==> old(tape)[0] == 4)
                && (d.Chunk? <==> old(tape)[0] == 5)
      ensures d.Chunk? ==> forall k :: 0 <= k < |d.data| && k + 1 < |old(tape)| ==>
                                         d.data[k] as nat == old(tape)[k + 1] % 256
    {
      var drawn := tape;
      if |drawn| < 2 || drawn[0] > 5 {
        d, tape := Blocked, if |drawn| == 0 then [] else drawn[1..];
      } else if drawn[0] < 4 {
        d, tape := Raises(FaultOf(drawn[0])), drawn[1..];
      } else if drawn[0] == 4 {
        d, tape := EndOfFile, drawn[1..];
      } else {
        var n := 1 + Min(drawn[1] % 8192, |drawn| - 2);
        d := Chunk(seq(n, k requires 0 <= k < n => (drawn[k + 1] % 256) as byte));
        tape := drawn[n + 1..];
      }
      latest := d;
      troubles := troubles + if d.Raises? then 1 else 0;
    }

    /** Whether the handler has been called: a signal may arrive before any look. */
    method Requested() returns (b: bool)
      modifies this`tape, this`interrupted
      ensures b == interrupted && |tape| <= |old(tape)|
      ensures interrupted <==>
              old(interrupted) || (!ignoring && |old(tape)| > 0 && old(tape)[0] % 2 == 1)
    {
      if !interrupted && !ignoring {
        interrupted := Flip();
      }
      b := interrupted;
    }

    /** Time passes; is any left before the deadline? */
    method TimeLeft(deadline: nat) returns (b: bool)
      modifies this`tape, this`now, this`chances
      ensures b <==> now < deadline
      ensures now == if |old(tape)| > 0 then old(now) + old(tape)[0] else Max(old(now), deadline)
      ensures |tape| == if |old(tape)| == 0 then 0 else |old(tape)| - 1
      ensures b ==> |tape| < |old(tape)|
      ensures chances == old(chances) + if b then 1 else 0
    {
      if |tape| > 0 {
        now := now + tape[0];
        tape := tape[1..];
      } else {
        now := Max(now, deadline);
      }
      b := now < deadline;
      chances := chances + if b then 1 else 0;
    }
  }

  // ----- a child and the capture of its output

  predicate Shows(streams: seq<Capture.Channel>, marker: Bytes) {
    |streams| == 2 && (Marked(streams[0].head, marker) || Marked(streams[1].head, marker))
  }

  /** The arrivals on each stream are what its pipe delivered. */
  ghost predicate Matches(delivered: seq<Bytes>, arrivals: seq<Capture.Arrival>) {
    && |delivered| == 2
    && forall i: Capture.Stream {:trigger Capture.On(i, arrivals)} :: Capture.On(i, arrivals) == delivered[i]
  }

  lemma MatchesMore(after: seq<Bytes>, before: seq<Bytes>, arrivals: seq<Capture.Arrival>, index: Capture.Stream, data: Bytes)
    requires Matches(before, arrivals) && after == before[index := before[index] + data]
    ensures Matches(after, arrivals + Capture.Tag(index, data))
  {
    forall i: Capture.Stream ensures Capture.On(i, arrivals + Capture.Tag(index, data)) == after[i] {
      Capture.OnConcat(i, arrivals, Capture.Tag(index, data));
      Capture.OnTag(i, index, data);
    }
  }

  /** How often both pipes were tried, each pipe was read and the leader was looked at. */
  datatype Effort = Effort(rounds: nat, stdoutReads: nat, stderrReads: nat, looks: nat)

  /** A marker that was shown stays shown. */
  lemma MarkerStays(before: seq<Capture.Channel>, after: seq<Capture.Channel>, marker: Bytes)
    requires Capture.HeadsGrow(before, after) && Shows(before, marker)
    ensures Shows(after, marker)
  {
    if Marked(before[0].head, marker) {
      MarkedStays(before[0].head, after[0].head, marker);
    } else {
      MarkedStays(before[1].head, after[1].head, marker);
    }
  }

  class Owned {
    const command: nat
    const code: int
    var returncode: Option<int>
    const capture: Capture.Capture
    var captured: bool
    var stdoutOpen: bool
    var stderrOpen: bool
    var log: seq<Act>
    ghost var delivered: seq<Bytes>
    ghost var effort: Effort
    ghost var signalledAt: Option<nat>
    ghost var recordWritten: bool
    ghost var released: set<string>

    ghost predicate Valid()
      reads this
    {
      && Safe(log) && |log| > 0 && log[0] == Launch(command)
      && returncode == (if Reap in log then Some(code) else None)
      && (Ended() <==> Eof in log)
      && (returncode.Some? ==> Ended() || Kill in log)
      && (Ended() ==> captured)
    }

    /** `capture` has received exactly what each of the child's pipes delivered: nothing
        before it was set up. */
    ghost predicate Recording()
      reads this, capture
    {
      && capture.Valid() && capture.owner == command && (!captured ==> capture.arrivals == [])
      && Matches(delivered, capture.arrivals)
    }

    /** The selector, if there was one, and all three streams are closed. */
    ghost predicate Released()
      reads this
    {
      released >= {"stdin", "stdout", "stderr"} && (captured ==> "selector" in released)
    }

    /** `Capture.eof` */
    predicate Ended()
      reads this
    {
      !stdoutOpen && !stderrOpen
    }

    ghost predicate Completed()
      reads this
    {
      Ended() && returncode.Some?
    }

    constructor (command: nat, code: int, outputLimit: nat, retainTail: bool)
      ensures Valid() && Recording() && fresh(capture)
      ensures log == [Launch(command)] && !captured && this.command == command && this.code == code
      ensures stdoutOpen && stderrOpen && delivered == [[], []] && returncode.None? && !recordWritten
      ensures effort == Effort(0, 0, 0, 0) && released == {}
      ensures capture.headLimit == Capture.HeadLimit(outputLimit, retainTail)
      ensures capture.tailLimit == outputLimit - capture.headLimit
    {
      this.command, this.code := command, code;
      returncode, captured, stdoutOpen, stderrOpen := None, false, true, true;
      log := [Launch(command)];
      delivered, effort, signalledAt, recordWritten, released := [[], []], Effort(0, 0, 0, 0), None, false, {};
      capture := new Capture.Capture(outputLimit, retainTail, command);
    }

    method Note(a: Act)
      requires Safe(log) && Allowed(log, a)
      modifies this`log
      ensures Safe(log) && log == old(log) + [a]
    {
      SafeExtend(log, a);
      log := log + [a];
    }

    /** `Popen.poll`: reaps a leader that has exited, so it is only for a child whose
        output has ended or whose group has been killed. */
    method Poll(world: World) returns (status: Option<int>)
      requires Valid()
      requires Ended() || Kill in log || returncode.Some?
      modifies world`tape, this`returncode, this`log, this`effort
      ensures Valid() && Quiet(old(log), log) && status == returncode
      ensures old(returncode).Some? ==> returncode.Some?
      ensures old(returncode).None? ==>
                (returncode.Some? <==> |old(world.tape)| > 0 && old(world.tape)[0] % 2 == 1)
      ensures |world.tape| <= |old(world.tape)|
      ensures effort == old(effort).(looks := old(effort).looks + 1)
    {
      effort := effort.(looks := effort.looks + 1);
      if returncode.None? {
        var exited := world.Flip();
        if exited {
          Note(Reap);
          returncode := Some(code);
        }
      }
      status := returncode;
    }

    /** `Capture.complete`. */
    method Complete(world: World) returns (b: bool)
      requires Valid()
      modifies world`tape, this`returncode, this`log, this`effort
      ensures effort == old(effort).(looks := old(effort).looks + if old(Ended()) then 1 else 0)
      ensures Valid() && Quiet(old(log), log) && (b <==> Completed())
      ensures old(Completed()) ==> Completed()
      ensures old(returncode).Some? ==> returncode.Some?
      ensures |world.tape| <= |old(world.tape)|
    {
      b := false;
      if Ended() {
        var status := Poll(world);
        b := status.Some?;
      }
    }

    /** `Capture.read_available`: every open pipe is read once, unless a read fails. */
    method ReadAvailable(world: World) returns (f: Fault)
      requires Valid() && Recording() && captured
      modifies world`tape, world`troubles, world`latest
      modifies this`stdoutOpen, this`stderrOpen, this`log, this`delivered, this`effort, capture
      ensures Valid() && Recording() && Quiet(old(log), log)
      ensures Capture.HeadsGrow(old(capture.streams), capture.streams)
      ensures |world.tape| <= |old(world.tape)|
      ensures world.troubles >= old(world.troubles)
      ensures f == Calm <==> world.troubles == old(world.troubles)
      ensures effort.rounds == old(effort).rounds + 1 && effort.looks == old(effort).looks
      ensures f == Calm ==>
                && effort.stdoutReads == old(effort).stdoutReads + (if old(stdoutOpen) then 1 else 0)
                && effort.stderrReads == old(effort).stderrReads + (if old(stderrOpen) then 1 else 0)
    {
      effort := effort.(rounds := effort.rounds + 1);
      f := Calm;
      if stdoutOpen {
        f := ReadPipe(world, 0);
      }
      if f == Calm && stderrOpen {
        f := ReadPipe(world, 1);
      }
    }

    predicate IsOpen(index: Capture.Stream)
      reads this
    {
      if index == 0 then stdoutOpen else stderrOpen
    }

    /** One read: whatever the pipe delivered is kept under its own index, its end closes it,
        and a failure is passed on. `delivered` remembers, per pipe, all that came out of it. */
    method ReadPipe(world: World, index: Capture.Stream) returns (f: Fault)
      requires Valid() && Recording() && captured && IsOpen(index)
      modifies world`tape, world`troubles, world`latest
      modifies this`stdoutOpen, this`stderrOpen, this`log, this`delivered, this`effort, capture
      ensures Valid() && Recording() && Quiet(old(log), log)
      ensures Capture.HeadsGrow(old(capture.streams), capture.streams)
      ensures |world.tape| <= |old(world.tape)|
      ensures world.troubles >= old(world.troubles)
      ensures f == Calm <==> world.troubles == old(world.troubles)
      ensures delivered == if world.latest.Chunk? then old(delivered)[index := old(delivered)[index] + world.latest.data]
                           else old(delivered)
      ensures IsOpen(index) <==> !world.latest.EndOfFile?
      ensures IsOpen(1 - index) == old(IsOpen(1 - index))
      ensures f == if world.latest.Raises? then world.latest.fault else Calm
      ensures effort == if index == 0 then old(effort).(stdoutReads := old(effort).stdoutReads + 1)
                        else old(effort).(stderrReads := old(effort).stderrReads + 1)
    {
      effort := if index == 0 then effort.(stdoutReads := effort.stdoutReads + 1)
                else effort.(stderrReads := effort.stderrReads + 1);
      f := Calm;
      var d := world.Deliver();
      match d
      case Blocked =>
      case Raises(fault) => f := fault;
      case EndOfFile => EndPipe(index);
      case Chunk(data) =>
        delivered := delivered[index := delivered[index] + data];
        MatchesMore(delivered, old(delivered), capture.arrivals, index, data);
        capture.Retain(index, data);
    }

    method EndPipe(index: Capture.Stream)
      requires Valid() && captured && IsOpen(index)
      modifies this`stdoutOpen, this`stderrOpen, this`log
      ensures Valid() && Quiet(old(log), log)
      ensures !IsOpen(index) && IsOpen(1 - index) == old(IsOpen(1 - index))
    {
      if !(stdoutOpen && stderrOpen) {
        Note(Eof);
      }
      stdoutOpen, stderrOpen := stdoutOpen && index != 0, stderrOpen && index != 1;
    }

    /** `Capture.observe_until`. */
    method ObserveUntil(world: World, deadline: nat, stoppable: bool) returns (f: Fault)
      requires Valid() && Recording() && captured
      modifies world, this`returncode, this`stdoutOpen, this`stderrOpen, this`log, this`delivered, this`effort, capture
      ensures Valid() && Quiet(old(log), log)
      ensures |world.tape| <= |old(world.tape)| && world.now >= old(world.now)
      ensures old(world.interrupted) ==> world.interrupted
      ensures world.interrupted && !old(world.interrupted) ==> stoppable && !world.ignoring
      ensures old(returncode).Some? ==> returncode.Some?
      ensures f == Calm ==> Completed() || (stoppable && world.interrupted) || world.now >= deadline
      ensures world.troubles >= old(world.troubles)
      ensures f == Calm <==> world.troubles == old(world.troubles)
      ensures Recording() && Capture.HeadsGrow(old(capture.streams), capture.streams)
      ensures stoppable && old(world.interrupted) ==> f == Calm && log == old(log) && delivered == old(delivered)
      ensures effort.rounds - old(effort).rounds == world.chances - old(world.chances) && world.chances >= old(world.chances)
      ensures f == Calm && !(stoppable && world.interrupted) && Ended() ==> effort.looks > old(effort).looks
      ensures effort.looks >= old(effort).looks
    {
      var done := false;
      f := Calm;
      while !done
        invariant Valid() && Recording() && Quiet(old(log), log)
        invariant Capture.HeadsGrow(old(capture.streams), capture.streams)
        invariant |world.tape| <= |old(world.tape)| && world.now >= old(world.now)
        invariant old(world.interrupted) ==> world.interrupted
        invariant world.interrupted && !old(world.interrupted) ==> stoppable && !world.ignoring
        invariant old(returncode).Some? ==> returncode.Some?
        invariant world.troubles >= old(world.troubles) && (f == Calm <==> world.troubles == old(world.troubles))
        invariant stoppable && old(world.interrupted) ==> f == Calm && log == old(log) && delivered == old(delivered)
        invariant effort.rounds - old(effort).rounds == world.chances - old(world.chances)
        invariant world.chances >= old(world.chances) && effort.looks >= old(effort).looks
        invariant done && f == Calm && !(stoppable && world.interrupted) && Ended() ==> effort.looks > old(effort).looks
        invariant f != Calm ==> done
        invariant f == Calm && done ==> Completed() || (stoppable && world.interrupted) || world.now >= deadline
        decreases |world.tape|, !done
      {
        done := MayStop(world, deadline, stoppable);
        if !done {
          f := ReadAvailable(world);
          done := f != Calm;
        }
      }
    }

    /** One round's reasons to stop: a request, completion, or the deadline. */
    method MayStop(world: World, deadline: nat, stoppable: bool) returns (stop: bool)
      requires Valid()
      modifies world, this`returncode, this`log, this`effort
      ensures Valid() && Quiet(old(log), log)
      ensures |world.tape| <= |old(world.tape)| && world.now >= old(world.now)
      ensures !stop ==> |world.tape| < |old(world.tape)|
      ensures old(world.interrupted) ==> world.interrupted
      ensures world.interrupted && !old(world.interrupted) ==> stoppable && !world.ignoring
      ensures old(returncode).Some? ==> returncode.Some?
      ensures stop ==> Completed() || (stoppable && world.interrupted) || world.now >= deadline
      ensures stoppable && old(world.interrupted) ==> stop && log == old(log)
      ensures stoppable && world.interrupted ==> stop
      ensures world.troubles == old(world.troubles)
      ensures effort == old(effort).(looks := effort.looks) && effort.looks >= old(effort).looks
      ensures !(stoppable && world.interrupted) && Ended() ==> effort.looks > old(effort).looks
      ensures world.chances == old(world.chances) + if stop then 0 else 1
    {
      stop := false;
      if stoppable {
        stop := world.Requested();
      }
      if !stop {
        stop := Complete(world);
      }
      if !stop {
        var remaining := world.TimeLeft(deadline);
        stop := !remaining;
      }
    }

    /** A complete line of either head ends with the marker. */
    predicate ShowsMarker(marker: Bytes)
      reads this, capture
    {
      Shows(capture.streams, marker)
    }

    /** `Capture.signal_when_ready`. */
    method SignalWhenReady(world: World, deadline: nat, marker: Bytes) returns (failure: Option<string>, f: Fault)
      requires Valid() && Recording() && captured && Ready !in log && Kill !in log
      modifies world, this`returncode, this`stdoutOpen, this`stderrOpen, this`log, this`delivered, this`effort, this`signalledAt, capture
      ensures Valid() && old(log) <= log
      ensures |world.tape| <= |old(world.tape)| && world.now >= old(world.now)
      ensures old(world.interrupted) ==> world.interrupted
      ensures world.interrupted && !old(world.interrupted) ==> !world.ignoring
      ensures Kill !in log && (Interrupt in log <==> Interrupt in old(log))
      ensures f == Calm && failure.None? ==> Ready in log
      ensures Ready in log ==> ShowsMarker(marker)
      ensures f == Calm && failure == Some("interrupted") ==> world.interrupted
      ensures f == Calm && failure == Some("readiness-timeout") ==> world.now >= deadline
      ensures failure.Some? ==> Ready !in log
      ensures world.troubles >= old(world.troubles)
      ensures f == Calm <==> world.troubles == old(world.troubles)
      ensures Recording() && Capture.HeadsGrow(old(capture.streams), capture.streams)
      ensures effort.rounds - old(effort).rounds + (if Ready in log then 1 else 0) == world.chances - old(world.chances)
      ensures Ready in log ==> signalledAt == Some(world.now)
      ensures old(world.interrupted) ==> f == Calm && failure == Some("interrupted") && delivered == old(delivered)
    {
      var done := false;
      failure, f := None, Calm;
      while !done
        invariant Valid() && Recording() && old(log) <= log
        invariant Capture.HeadsGrow(old(capture.streams), capture.streams)
        invariant |world.tape| <= |old(world.tape)| && world.now >= old(world.now)
        invariant old(world.interrupted) ==> world.interrupted
        invariant world.interrupted && !old(world.interrupted) ==> !world.ignoring
        invariant Kill !in log && (Interrupt in log <==> Interrupt in old(log))
        invariant world.troubles >= old(world.troubles) && (f == Calm <==> world.troubles == old(world.troubles))
        invariant !done ==> f == Calm && Ready !in log
        invariant Ready in log ==> ShowsMarker(marker) && failure.None?
        invariant done && f == Calm && failure.None? ==> Ready in log
        invariant effort.rounds - old(effort).rounds + (if Ready in log then 1 else 0) == world.chances - old(world.chances)
        invariant Ready in log ==> done && signalledAt == Some(world.now)
        invariant old(world.interrupted) ==> delivered == old(delivered) && f == Calm && (done ==> failure == Some("interrupted"))
        invariant done ==> Explained(failure, world, deadline)
        decreases |world.tape|, !done
      {
        done, failure, f := ReadyRound(world, deadline, marker);
      }
    }

    /** A failure to become ready has its reason. */
    ghost predicate Explained(failure: Option<string>, world: World, deadline: nat)
      reads world
    {
      && (failure == Some("interrupted") ==> world.interrupted)
      && (failure == Some("readiness-timeout") ==> world.now >= deadline)
    }

    /** One round of waiting for the marker. */
    method ReadyRound(world: World, deadline: nat, marker: Bytes) returns (done: bool, failure: Option<string>, f: Fault)
      requires Valid() && Recording() && captured && Ready !in log && Kill !in log
      modifies world, this`returncode, this`stdoutOpen, this`stderrOpen, this`log, this`delivered, this`effort, this`signalledAt, capture
      ensures Valid() && Recording() && old(log) <= log
      ensures Capture.HeadsGrow(old(capture.streams), capture.streams)
      ensures |world.tape| <= |old(world.tape)| && world.now >= old(world.now)
      ensures !done ==> |world.tape| < |old(world.tape)| && f == Calm && Ready !in log
      ensures old(world.interrupted) ==> world.interrupted
      ensures world.interrupted && !old(world.interrupted) ==> !world.ignoring
      ensures Kill !in log && (Interrupt in log <==> Interrupt in old(log))
      ensures world.troubles >= old(world.troubles) && (f == Calm <==> world.troubles == old(world.troubles))
      ensures Ready in log ==> ShowsMarker(marker) && failure.None?
      ensures done && f == Calm && failure.None? ==> Ready in log
      ensures Explained(failure, world, deadline)
      ensures effort.rounds - old(effort).rounds + (if Ready in log then 1 else 0) == world.chances - old(world.chances)
      ensures Ready in log ==> signalledAt == Some(world.now)
      ensures old(world.interrupted) ==> done && f == Calm && failure == Some("interrupted") && delivered == old(delivered)
    {
      done, f := true, Calm;
      failure := NotReady(world, deadline);
      if failure.None? {
        if ShowsMarker(marker) {
          f := SendReady(world);
        } else {
          f := ReadAvailable(world);
          done := f != Calm;
        }
      }
    }

    /** `os.kill` of the leader alone; the process may be missing. */
    method SendReady(world: World) returns (f: Fault)
      requires Valid() && returncode.None? && Ready !in log
      modifies world`tape, world`troubles, this`log, this`signalledAt
      ensures Valid() && log == old(log) + [Ready] && signalledAt == Some(world.now)
      ensures |world.tape| <= |old(world.tape)|
      ensures f == Calm || f == Os
      ensures world.troubles == old(world.troubles) + if f == Calm then 0 else 1
    {
      Note(Ready);
      signalledAt := Some(world.now);
      var missing := world.Denied();
      f := if missing then Os else Calm;
    }

    /** One round's reasons to give up waiting for the marker. */
    method NotReady(world: World, deadline: nat) returns (failure: Option<string>)
      requires Valid() && captured && Kill !in log
      modifies world, this`returncode, this`log, this`effort
      ensures Valid() && Quiet(old(log), log) && world.troubles == old(world.troubles)
      ensures |world.tape| <= |old(world.tape)| && world.now >= old(world.now)
      ensures failure.None? ==> |world.tape| < |old(world.tape)| && returncode.None?
      ensures old(world.interrupted) ==> world.interrupted
      ensures world.interrupted && !old(world.interrupted) ==> !world.ignoring
      ensures failure == Some("interrupted") ==> world.interrupted
      ensures failure == Some("readiness-timeout") ==> world.now >= deadline
      ensures failure == Some("exited-before-readiness") ==> Completed()
      ensures failure == Some("readiness-output-overflow") ==> capture.overflow
      ensures effort == old(effort).(looks := effort.looks)
      ensures world.chances == old(world.chances) + if failure.None? then 1 else 0
      ensures old(world.interrupted) ==> failure == Some("interrupted") && log == old(log)
      ensures world.interrupted ==> failure == Some("interrupted")
      ensures !world.interrupted && capture.overflow ==> failure == Some("readiness-output-overflow")
      ensures failure.Some? ==> failure.value in ["interrupted", "readiness-output-overflow", "exited-before-readiness", "readiness-timeout"]
    {
      var stop := world.Requested();
      if stop {
        return Some("interrupted");
      }
      if capture.overflow {
        return Some("readiness-output-overflow");
      }
      var complete := Complete(world);
      if complete {
        return Some("exited-before-readiness");
      }
      var remaining := world.TimeLeft(deadline);
      failure := if remaining then None else Some("readiness-timeout");
    }

    /** `_kill_group`: never once the leader was reaped. */
    method KillGroup(world: World, errors: seq<string>) returns (after: seq<string>)
      requires Valid()
      modifies world`tape, world`troubles, this`log
      ensures Valid() && old(log) <= log && errors <= after
      ensures returncode.Some? ==> log == old(log)
      ensures returncode.None? ==> log == old(log) + [Kill]
      ensures |world.tape| <= |old(world.tape)|
      ensures world.troubles >= old(world.troubles)
      ensures if world.troubles > old(world.troubles) then |after| > |errors| else after == errors
    {
      after := errors;
      if returncode.None? {
        Note(Kill);
        var denied := world.Denied();
        if denied {
          after := errors + ["kill"];
        }
      }
    }

    /** `_settle`: one deadline for draining the pipes and for reaping. */
    method Settle(world: World, allowance: nat, errors: seq<string>) returns (after: seq<string>, f: Fault)
      requires Valid() && Recording()
      modifies world, this`returncode, this`stdoutOpen, this`stderrOpen, this`log, this`delivered, this`effort, capture
      ensures Valid() && old(log) <= log && errors <= after
      ensures Ready in log ==> Ready in old(log)
      ensures Interrupt in log ==> Interrupt in old(log)
      ensures Kill in log || returncode.Some?
      ensures f == Calm ==> returncode.Some? || world.now >= old(world.now) + allowance
      ensures |world.tape| <= |old(world.tape)| && world.now >= old(world.now)
      ensures world.interrupted == old(world.interrupted)
      ensures world.troubles >= old(world.troubles)
      ensures if f == Calm && world.troubles > old(world.troubles) then |after| > |errors|
              else world.troubles == old(world.troubles) ==> after == errors
      ensures f != Calm ==> world.troubles > old(world.troubles)
      ensures Recording() && Capture.HeadsGrow(old(capture.streams), capture.streams)
      ensures captured && world.troubles == old(world.troubles) ==>
                Completed() || world.now >= old(world.now) + allowance
      ensures f == Calm ==> effort.looks > old(effort).looks
      ensures f != Os
    {
      var deadline := world.now + allowance;
      after := KillGroup(world, errors);
      f := Calm;
      if captured {
        after, f := Drain(world, deadline, after);
      }
      if f == Calm {
        AwaitExit(world, deadline);
      }
    }

    /** Reads what is left; a failure of the operating system is recorded and no more. */
    method Drain(world: World, deadline: nat, errors: seq<string>) returns (after: seq<string>, f: Fault)
      requires Valid() && Recording() && captured
      modifies world, this`returncode, this`stdoutOpen, this`stderrOpen, this`log, this`delivered, this`effort, capture
      ensures Valid() && Recording() && Quiet(old(log), log) && errors <= after && f != Os
      ensures Capture.HeadsGrow(old(capture.streams), capture.streams)
      ensures old(returncode).Some? ==> returncode.Some?
      ensures |world.tape| <= |old(world.tape)| && world.now >= old(world.now)
      ensures world.interrupted == old(world.interrupted)
      ensures world.troubles >= old(world.troubles)
      ensures world.troubles == old(world.troubles) ==> f == Calm && after == errors && (Completed() || world.now >= deadline)
      ensures f == Calm && world.troubles > old(world.troubles) ==> |after| > |errors|
      ensures effort.looks >= old(effort).looks
    {
      after := errors;
      f := ObserveUntil(world, deadline, false);
      if f == Os {
        after, f := after + ["cleanup-output"], Calm;
      }
    }

    /** Polls until the leader has been reaped or the deadline has passed. */
    method AwaitExit(world: World, deadline: nat)
      requires Valid() && (Kill in log || returncode.Some?)
      modifies world`tape, world`now, world`chances, this`returncode, this`log, this`effort
      ensures Valid() && Quiet(old(log), log)
      ensures returncode.Some? || world.now >= deadline
      ensures effort == old(effort).(looks := effort.looks)
      ensures effort.looks - old(effort).looks == 1 + (world.chances - old(world.chances))
      ensures world.chances >= old(world.chances)
      ensures |world.tape| <= |old(world.tape)| && world.now >= old(world.now)
    {
      var status := Poll(world);
      while status.None?
        invariant Valid() && Quiet(old(log), log) && status == returncode
        invariant effort == old(effort).(looks := effort.looks)
        invariant effort.looks - old(effort).looks == 1 + (world.chances - old(world.chances))
        invariant world.chances >= old(world.chances)
        invariant |world.tape| <= |old(world.tape)| && world.now >= old(world.now)
        decreases |world.tape|
      {
        var remaining := world.TimeLeft(deadline);
        if !remaining {
          return;
        }
        status := Poll(world);
      }
    }
  }

  /** The capture of a child, if there is a child. */
  ghost function CaptureOf(child: Owned?): Capture.Capture? {
    if child == null then null else child.capture
  }

  // ----- outcomes

  datatype Outcome = Outcome(
    status: Option<int>, stdout: Bytes, stderr: Bytes, elapsed: int,
    watchdog: bool, overflow: bool, reaped: bool, outputEof: bool, errors: seq<string>)

  predicate Succeeded(o: Outcome) {
    o.status == Some(0) && o.reaped && o.outputEof && !o.watchdog && !o.overflow && |o.errors| == 0
  }

  function Unstarted(error: string): Outcome {
    Outcome(None, [], [], 0, false, false, false, false, [error])
  }

  /** What the capture of a child shows of a stream. */
  ghost function Shown(child: Owned, i: Capture.Stream): Bytes
    reads child.capture
  {
    Capture.Rendered(i, child.capture.arrivals, child.capture.headLimit, child.capture.tailLimit)
  }

  /** These are the two streams as the capture shows them. */
  ghost predicate Kept(stdout: Bytes, stderr: Bytes, child: Owned)
    reads child.capture
  {
    forall i: Capture.Stream {:trigger Shown(child, i)} :: Shown(child, i) == if i == 0 then stdout else stderr
  }

  /** The outcome reports what was done to the child and what was kept of its output. */
  ghost predicate Faithful(o: Outcome, child: Owned?)
    reads child, CaptureOf(child)
  {
    if child == null then !o.reaped && !o.outputEof && !o.overflow && o.status.None? && o.stdout == o.stderr == []
    else
      && (o.reaped <==> Reap in child.log)
      && (o.reaped ==> o.status == Some(child.code))
      && (o.outputEof <==> Eof in child.log)
      && o.overflow == child.capture.overflow
      && Kept(o.stdout, o.stderr, child)
  }

  /** These are both streams with everything the child's pipes delivered. */
  ghost predicate Whole(stdout: Bytes, stderr: Bytes, child: Owned)
    reads child
  {
    child.delivered == [stdout, stderr]
  }

  /** Output that did not overflow is the child's whole output. */
  lemma WholeOutput(stdout: Bytes, stderr: Bytes, child: Owned)
    requires child.Recording() && Kept(stdout, stderr, child) && !child.capture.overflow
    ensures Whole(stdout, stderr, child)
  {
    var c := child.capture;
    forall i: Capture.Stream ensures child.delivered[i] == if i == 0 then stdout else stderr {
      Capture.NothingMissing(i, c.arrivals, c.headLimit, c.tailLimit);
      assert Shown(child, i) == Capture.On(i, c.arrivals);
    }
    assert child.delivered[0] == stdout && child.delivered[1] == stderr;
  }

  /** A child left to itself: reaped, or at least its group was told to die. */
  predicate Settled(log: seq<Act>) {
    Reap in log || Kill in log
  }

  const STREAMS: seq<string> := ["stdin", "stdout", "stderr"]

  /** `_close_resources`: the selector and every stream, each of which may fail to close. */
  method CloseResources(world: World, child: Owned, errors: seq<string>) returns (after: seq<string>)
    modifies world`tape, world`troubles, child`released
    ensures child.Released()
    ensures errors <= after
    ensures |world.tape| <= |old(world.tape)|
    ensures world.troubles >= old(world.troubles)
    ensures if world.troubles > old(world.troubles) then |after| > |errors| else after == errors
  {
    after := errors;
    if child.captured {
      var denied := world.Denied();
      if denied {
        after := after + ["close-selector"];
      }
      child.released := child.released + {"selector"};
    }
    for i := 0 to |STREAMS|
      invariant errors <= after && (child.captured ==> "selector" in child.released)
      invariant forall k :: 0 <= k < i ==> STREAMS[k] in child.released
      invariant world.troubles >= old(world.troubles)
      invariant if world.troubles > old(world.troubles) then |after| > |errors| else after == errors
      invariant |world.tape| <= |old(world.tape)|
    {
      var denied := world.Denied();
      if denied {
        after := after + ["close"];
      }
      child.released := child.released + {STREAMS[i]};
    }
    assert STREAMS[0] in child.released && STREAMS[1] in child.released && STREAMS[2] in child.released;
  }
}
