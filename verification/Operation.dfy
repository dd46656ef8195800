/** Deadlines and cancellation of crates/batter-core/src/operation.rs.

    Contexts form a growing tree: each has a deadline and a cancellation token whose
    parent is the token it was derived from. Cancelling a token is seen by all its
    descendants, present and future, and by nothing else. */
module Operation {
  import opened Bytes
  import Validation

  /** `cancelled`: this token itself was cancelled, as opposed to an ancestor. */
  datatype Node = Node(parent: Option<nat>, deadline: int, cancelled: bool)

  /** The contexts created so far, the clock, and the range it can represent. */
  datatype World = World(nodes: seq<Node>, now: int, earliest: int, latest: int)

  datatype Interruption = Cancelled | DeadlineExceeded

  predicate IsCancelled(w: World, i: nat)
    requires i < |w.nodes|
    decreases i
  {
    w.nodes[i].cancelled
    || (match w.nodes[i].parent case None => false case Some(p) => p < i && IsCancelled(w, p))
  }

  function Check(w: World, i: nat): Option<Interruption>
    requires i < |w.nodes|
  {
    if IsCancelled(w, i) then Some(Cancelled)
    else if w.now >= w.nodes[i].deadline then Some(DeadlineExceeded)
    else None
  }

  /** `a` is `d` or an ancestor of `d`. */
  predicate Above(w: World, a: nat, d: nat)
    requires d < |w.nodes|
    decreases d
  {
    a == d || (match w.nodes[d].parent case None => false case Some(p) => p < d && Above(w, a, p))
  }

  // ----- operations

  function Under(w: World, deadline: int, parent: Option<nat>): World {
    w.(nodes := w.nodes + [Node(parent, deadline, false)])
  }

  /** `validation::positive` at the current instant. */
  function Positive(w: World, d: nat): Option<Validation.ConfigurationError> {
    Validation.Positive(d, w.now, w.latest)
  }

  function ChildWithMaximum(w: World, i: nat, maximum: nat): World
    requires i < |w.nodes|
  {
    var requested := if w.now + maximum <= w.latest then w.now + maximum else w.nodes[i].deadline;
    Under(w, Min(w.nodes[i].deadline, requested), Some(i))
  }

  function ChildUntil(w: World, i: nat, deadline: int): World
    requires i < |w.nodes|
  {
    Under(w, Min(w.nodes[i].deadline, deadline), Some(i))
  }

  /** `phases_before`: a work context, then a finalization context. */
  function Phases(w: World, i: nat, reserve: nat): Option<World>
    requires i < |w.nodes|
  {
    var work := w.nodes[i].deadline - reserve;
    if work < w.earliest || work <= w.now then None
    else Some(Under(Under(w, work, Some(i)), w.nodes[i].deadline, Some(i)))
  }

  function Cancel(w: World, i: nat): World
    requires i < |w.nodes|
  {
    w.(nodes := w.nodes[i := w.nodes[i].(cancelled := true)])
  }

  datatype Step =
    | Root(deadline: int)
    | Child(of: nat, maximum: nat)
    | Until(of: nat, deadline: int)
    | Reserve(of: nat, reserve: nat)
    | Split(of: nat)
    | CancelStep(node: nat)
    | Tick(elapsed: nat)

  /** One step; a step on an unknown context, or one the source rejects, changes nothing. */
  function Apply(w: World, s: Step): World {
    match s
    case Root(deadline) => Under(w, deadline, None)
    case Child(i, maximum) => if i < |w.nodes| && Positive(w, maximum).None? then ChildWithMaximum(w, i, maximum) else w
    case Until(i, deadline) => if i < |w.nodes| then ChildUntil(w, i, deadline) else w
    case Reserve(i, reserve) => if i < |w.nodes| && Positive(w, reserve).None? then PhasesOr(w, i, reserve) else w
    case Split(i) => if i < |w.nodes| then PhasesOr(w, i, 0) else w
    case CancelStep(i) => if i < |w.nodes| then Cancel(w, i) else w
    case Tick(elapsed) => w.(now := w.now + elapsed)
  }

  function PhasesOr(w: World, i: nat, reserve: nat): World
    requires i < |w.nodes|
  {
    match Phases(w, i, reserve) case Some(w') => w' case None => w
  }

  function Run(w: World, steps: seq<Step>): World {
    if steps == [] then w else Apply(Run(w, steps[..|steps| - 1]), steps[|steps| - 1])
  }

  // ----- what every step keeps

  /** Later worlds only add contexts, cancel tokens and move the clock forward. */
  ghost predicate Later(w: World, w': World) {
    && |w.nodes| <= |w'.nodes| && w.now <= w'.now
    && forall i :: 0 <= i < |w.nodes| ==>
                     && w'.nodes[i].parent == w.nodes[i].parent
                     && w'.nodes[i].deadline == w.nodes[i].deadline
                     && (w.nodes[i].cancelled ==> w'.nodes[i].cancelled)
  }

  /** Parents come first, and no deadline exceeds its parent's. */
  ghost predicate Bounded(w: World) {
    forall i :: 0 <= i < |w.nodes| ==> BoundedAt(w, i)
  }

  ghost predicate BoundedAt(w: World, i: nat)
    requires i < |w.nodes|
  {
    match w.nodes[i].parent
    case None => true
    case Some(p) => p < i && w.nodes[i].deadline <= w.nodes[p].deadline
  }

  lemma UnderKeeps(w: World, deadline: int, parent: Option<nat>)
    requires Bounded(w)
    requires parent.Some? ==> parent.value < |w.nodes| && deadline <= w.nodes[parent.value].deadline
    ensures Bounded(Under(w, deadline, parent)) && Later(w, Under(w, deadline, parent))
  {
    var w' := Under(w, deadline, parent);
    forall i | 0 <= i < |w'.nodes| ensures BoundedAt(w', i) {
      assert i < |w.nodes| ==> BoundedAt(w, i);
    }
  }

  lemma CancelKeeps(w: World, i: nat)
    requires Bounded(w) && i < |w.nodes|
    ensures Bounded(Cancel(w, i)) && Later(w, Cancel(w, i))
  {
    forall j | 0 <= j < |w.nodes| ensures BoundedAt(Cancel(w, i), j) {
      assert BoundedAt(w, j);
    }
  }

  lemma LaterTransitive(a: World, b: World, c: World)
    requires Later(a, b) && Later(b, c)
    ensures Later(a, c)
  {
  }

  lemma PhasesKeep(w: World, i: nat, reserve: nat)
    requires Bounded(w) && i < |w.nodes|
    ensures Bounded(PhasesOr(w, i, reserve)) && Later(w, PhasesOr(w, i, reserve))
  {
    var d := w.nodes[i].deadline;
    var work := Under(w, d - reserve, Some(i));
    UnderKeeps(w, d - reserve, Some(i));
    UnderKeeps(work, d, Some(i));
    LaterTransitive(w, work, Under(work, d, Some(i)));
    assert PhasesOr(w, i, reserve) == w || PhasesOr(w, i, reserve) == Under(work, d, Some(i));
  }

  /** A step is one derivation, one cancellation, a tick or nothing. */
  lemma ApplyKeeps(w: World, s: Step)
    requires Bounded(w)
    ensures Bounded(Apply(w, s)) && Later(w, Apply(w, s))
  {
    var w' := Apply(w, s);
    if s.Root? {
      UnderKeeps(w, s.deadline, None);
    } else if s.Child? && s.of < |w.nodes| {
      var d := Min(w.nodes[s.of].deadline, w.now + s.maximum);
      UnderKeeps(w, d, Some(s.of));
      assert w' == w || w' == Under(w, d, Some(s.of));
    } else if s.Until? && s.of < |w.nodes| {
      UnderKeeps(w, Min(w.nodes[s.of].deadline, s.deadline), Some(s.of));
    } else if s.Reserve? && s.of < |w.nodes| {
      PhasesKeep(w, s.of, s.reserve);
      assert w' == w || w' == PhasesOr(w, s.of, s.reserve);
    } else if s.Split? && s.of < |w.nodes| {
      PhasesKeep(w, s.of, 0);
    } else if s.CancelStep? && s.node < |w.nodes| {
      CancelKeeps(w, s.node);
    } else {
      assert w'.nodes == w.nodes;
      forall i | 0 <= i < |w'.nodes| ensures BoundedAt(w', i) {
        assert BoundedAt(w, i);
      }
    }
  }

  lemma {:induction false} RunKeeps(w: World, steps: seq<Step>)
    requires Bounded(w)
    ensures Bounded(Run(w, steps)) && Later(w, Run(w, steps))
  {
    if steps != [] {
      RunKeeps(w, steps[..|steps| - 1]);
      ApplyKeeps(Run(w, steps[..|steps| - 1]), steps[|steps| - 1]);
    }
  }

  lemma {:induction false} AboveDeadline(w: World, a: nat, d: nat)
    requires Bounded(w) && d < |w.nodes| && Above(w, a, d)
    ensures a <= d && w.nodes[d].deadline <= w.nodes[a].deadline
    decreases d
  {
    if a != d {
      assert BoundedAt(w, d);
      AboveDeadline(w, a, w.nodes[d].parent.value);
    }
  }

  /** In every run a descendant's deadline is at most its ancestor's. */
  lemma DeadlinesNest(w: World, steps: seq<Step>, a: nat, d: nat)
    requires w.nodes == [] && d < |Run(w, steps).nodes| && Above(Run(w, steps), a, d)
    ensures a <= d && Run(w, steps).nodes[d].deadline <= Run(w, steps).nodes[a].deadline
  {
    RunKeeps(w, steps);
    AboveDeadline(Run(w, steps), a, d);
  }

  lemma {:induction false} CancelledStays(w: World, w': World, i: nat)
    requires Later(w, w') && i < |w.nodes| && IsCancelled(w, i)
    ensures IsCancelled(w', i)
    decreases i
  {
    if !w.nodes[i].cancelled {
      CancelledStays(w, w', w.nodes[i].parent.value);
    }
  }

  lemma {:induction false} CancelledBelow(w: World, a: nat, d: nat)
    requires d < |w.nodes| && a <= d && Above(w, a, d) && IsCancelled(w, a)
    ensures IsCancelled(w, d)
    decreases d
  {
    if a != d {
      var p := w.nodes[d].parent.value;
      AboveIsEarlier(w, a, p);
      CancelledBelow(w, a, p);
    }
  }

  lemma {:induction false} AboveIsEarlier(w: World, a: nat, d: nat)
    requires d < |w.nodes| && Above(w, a, d)
    ensures a <= d
    decreases d
  {
    if a != d {
      AboveIsEarlier(w, a, w.nodes[d].parent.value);
    }
  }

  /** An interrupted context keeps every descendant interrupted, forever: also those
      derived from it later. */
  lemma InterruptionSpreads(w: World, steps: seq<Step>, a: nat, d: nat)
    requires Bounded(w) && a < |w.nodes| && Check(w, a).Some?
    requires d < |Run(w, steps).nodes| && Above(Run(w, steps), a, d)
    ensures Check(Run(w, steps), d).Some?
    ensures Check(w, a) == Some(Cancelled) ==> Check(Run(w, steps), d) == Some(Cancelled)
  {
    var w' := Run(w, steps);
    RunKeeps(w, steps);
    AboveDeadline(w', a, d);
    if IsCancelled(w, a) {
      CancelledStays(w, w', a);
      CancelledBelow(w', a, d);
    }
  }

  /** Cancelling one context changes nothing for any context outside its subtree. */
  lemma {:induction false} CancelIsLocal(w: World, i: nat, j: nat)
    requires Bounded(w) && i < |w.nodes| && j < |w.nodes| && !Above(w, i, j)
    ensures Check(Cancel(w, i), j) == Check(w, j)
    decreases j
  {
    assert BoundedAt(w, j);
    match w.nodes[j].parent
    case None =>
    case Some(p) => CancelIsLocal(w, i, p);
  }

  /** Work and finalization are siblings: they end at the total less the reserve and at
      the total, cancelling either leaves the other alone, and cancelling their parent
      interrupts both. */
  lemma PhasesAreSiblings(w: World, i: nat, reserve: nat)
    requires Bounded(w) && i < |w.nodes| && Phases(w, i, reserve).Some?
    ensures var w', work := Phases(w, i, reserve).value, |w.nodes|;
            var final := work + 1;
            && |w'.nodes| == final + 1
            && w'.nodes[work].deadline == w.nodes[i].deadline - reserve > w.now
            && w'.nodes[final].deadline == w.nodes[i].deadline
            && Check(w', final) == Check(w, i)
            && Check(Cancel(w', work), final) == Check(w', final)
            && Check(Cancel(w', final), work) == Check(w', work)
            && Check(Cancel(w', i), work) == Some(Cancelled) && Check(Cancel(w', i), final) == Some(Cancelled)
  {
    var w', work := Phases(w, i, reserve).value, |w.nodes|;
    PhasesKeep(w, i, reserve);
    SameAsBefore(w, w', i);
    SiblingsAreLocal(w', i, work, work + 1);
    SiblingsAreLocal(w', i, work + 1, work);
    ParentReaches(w', i, work);
    ParentReaches(w', i, work + 1);
  }

  lemma SiblingsAreLocal(w: World, i: nat, a: nat, b: nat)
    requires Bounded(w) && i < a < |w.nodes| && b < |w.nodes| && a != b && w.nodes[b].parent == Some(i)
    ensures Check(Cancel(w, a), b) == Check(w, b)
  {
    AboveOld(w, i, a);
    CancelIsLocal(w, a, b);
  }

  lemma ParentReaches(w: World, i: nat, d: nat)
    requires i < d < |w.nodes| && w.nodes[d].parent == Some(i)
    ensures Check(Cancel(w, i), d) == Some(Cancelled)
  {
    assert IsCancelled(Cancel(w, i), i);
  }

  /** Adding contexts leaves the earlier ones as they were. */
  lemma {:induction false} SameAsBefore(w: World, w': World, i: nat)
    requires i < |w.nodes| && w.nodes <= w'.nodes && Bounded(w)
    ensures IsCancelled(w', i) == IsCancelled(w, i)
    decreases i
  {
    assert BoundedAt(w, i);
    match w.nodes[i].parent
    case None =>
    case Some(p) => SameAsBefore(w, w', p);
  }

  lemma AboveOld(w: World, i: nat, a: nat)
    requires i < a && i < |w.nodes|
    ensures !Above(w, a, i)
  {
    if Above(w, a, i) {
      AboveIsEarlier(w, a, i);
    }
  }

  // ----- what each derivation yields

  /** `w'` is `w` with one more context under `i`. */
  ghost predicate Derived(w: World, w': World, i: nat, deadline: int) {
    w' == w.(nodes := w.nodes + [Node(Some(i), deadline, false)])
  }

  /** A child ends at the lesser of the parent's deadline and the requested one, and a child
      budget is refused exactly when it is zero, over a year or beyond the clock. */
  lemma ChildrenEnd(w: World, i: nat, maximum: nat, deadline: int)
    requires i < |w.nodes|
    ensures var parent := w.nodes[i].deadline;
            && (0 < maximum <= Validation.YEAR && w.now + maximum <= w.latest ==>
                  Derived(w, Apply(w, Child(i, maximum)), i, if parent < w.now + maximum then parent else w.now + maximum))
            && (!(0 < maximum <= Validation.YEAR && w.now + maximum <= w.latest) ==> Apply(w, Child(i, maximum)) == w)
            && Derived(w, Apply(w, Until(i, deadline)), i, if parent < deadline then parent else deadline)
  {
  }

  /** Phases are made exactly when the work deadline is representable and still ahead. */
  lemma PhasesIff(w: World, i: nat, reserve: nat)
    requires i < |w.nodes|
    ensures Phases(w, i, reserve).Some? <==>
            w.nodes[i].deadline - reserve >= w.earliest && w.nodes[i].deadline - reserve > w.now
  {
  }

  /** A fresh child is interrupted exactly when its parent is cancelled or its time is up. */
  lemma CheckOfChild(w: World, i: nat, deadline: int)
    requires Bounded(w) && i < |w.nodes|
    ensures Check(Under(w, deadline, Some(i)), |w.nodes|) ==
            if IsCancelled(w, i) then Some(Cancelled)
            else if w.now >= deadline then Some(DeadlineExceeded) else None
  {
    SameAsBefore(w, Under(w, deadline, Some(i)), i);
  }

  /** A context is cancelled exactly when it or one of its ancestors was. */
  lemma {:induction false} CancelledIff(w: World, i: nat)
    requires i < |w.nodes|
    ensures IsCancelled(w, i) <==> exists a: nat :: a < |w.nodes| && Above(w, a, i) && w.nodes[a].cancelled
    decreases i
  {
    match w.nodes[i].parent
    case None =>
      assert Above(w, i, i);
    case Some(p) =>
      assert Above(w, i, i);
      if p < i {
        CancelledIff(w, p);
        if a: nat :| a < |w.nodes| && Above(w, a, p) && w.nodes[a].cancelled {
          assert Above(w, a, i);
        }
      }
  }
}
