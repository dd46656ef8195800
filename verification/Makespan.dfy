/** Graham's bound for greedy assignment of jobs in descending weight.

    An assignment maps job positions to machines; all sums over a machine are
    instances of `Load`, with the weights, with ones (a count) or with the 0/1
    marking of jobs too large to share a machine. */
module Makespan {

  type Jobs = seq<nat>

  ghost predicate Placed(assign: seq<nat>, w: Jobs, m: nat) {
    |assign| == |w| && forall k :: 0 <= k < |assign| ==> assign[k] < m
  }

  function Load(assign: seq<nat>, w: Jobs, i: nat): nat
    requires |assign| == |w|
  {
    if assign == [] then 0
    else
      var n := |assign| - 1;
      Load(assign[..n], w[..n], i) + if assign[n] == i then w[n] else 0
  }

  function Total(w: Jobs): nat {
    if w == [] then 0 else Total(w[..|w| - 1]) + w[|w| - 1]
  }

  function SumLoads(assign: seq<nat>, w: Jobs, m: nat): nat
    requires |assign| == |w|
  {
    if m == 0 then 0 else SumLoads(assign, w, m - 1) + Load(assign, w, m - 1)
  }

  lemma {:induction false} SumLoadsStep(assign: seq<nat>, w: Jobs, m: nat)
    requires |assign| == |w| > 0
    ensures var n := |w| - 1;
            SumLoads(assign, w, m)
            == SumLoads(assign[..n], w[..n], m) + if assign[n] < m then w[n] else 0
  {
    if m > 0 {
      SumLoadsStep(assign, w, m - 1);
    }
  }

  lemma {:induction false} LoadsSumToTotal(assign: seq<nat>, w: Jobs, m: nat)
    requires Placed(assign, w, m)
    ensures SumLoads(assign, w, m) == Total(w)
  {
    if w == [] {
      NoJobsNoLoad(assign, w, m);
    } else {
      SumLoadsStep(assign, w, m);
      LoadsSumToTotal(assign[..|w| - 1], w[..|w| - 1], m);
    }
  }

  lemma {:induction false} NoJobsNoLoad(assign: seq<nat>, w: Jobs, m: nat)
    requires |assign| == |w| == 0
    ensures SumLoads(assign, w, m) == 0
  {
    if m > 0 {
      NoJobsNoLoad(assign, w, m - 1);
    }
  }

  /** If no machine's load exceeds `bound`, the sum does not exceed m times it. */
  lemma {:induction false} SumAtMost(assign: seq<nat>, w: Jobs, m: nat, bound: nat)
    requires |assign| == |w|
    requires forall i :: 0 <= i < m ==> Load(assign, w, i) <= bound
    ensures SumLoads(assign, w, m) <= m * bound
  {
    if m > 0 {
      SumAtMost(assign, w, m - 1, bound);
      assert m * bound == (m - 1) * bound + bound;
    }
  }

  lemma {:induction false} SumAtLeast(assign: seq<nat>, w: Jobs, m: nat, bound: nat)
    requires |assign| == |w|
    requires forall i :: 0 <= i < m ==> bound <= Load(assign, w, i)
    ensures m * bound <= SumLoads(assign, w, m)
  {
    if m > 0 {
      SumAtLeast(assign, w, m - 1, bound);
      assert m * bound == (m - 1) * bound + bound;
    }
  }

  lemma {:induction false} PairAtMost(assign: seq<nat>, u: Jobs, v: Jobs, m: nat)
    requires |assign| == |u| == |v|
    requires forall i :: 0 <= i < m ==> Load(assign, u, i) + Load(assign, v, i) <= 2
    ensures SumLoads(assign, u, m) + SumLoads(assign, v, m) <= 2 * m
  {
    if m > 0 {
      PairAtMost(assign, u, v, m - 1);
    }
  }

  lemma {:induction false} PairAtLeast(assign: seq<nat>, u: Jobs, v: Jobs, m: nat)
    requires |assign| == |u| == |v|
    requires forall i :: 0 <= i < m ==> Load(assign, u, i) + Load(assign, v, i) >= 2
    ensures SumLoads(assign, u, m) + SumLoads(assign, v, m) >= 2 * m
  {
    if m > 0 {
      PairAtLeast(assign, u, v, m - 1);
    }
  }

  function Ones(n: nat): (r: Jobs)
    ensures |r| == n
  {
    seq(n, _ => 1)
  }

  /** Marks the jobs heavier than `cut`. */
  function Heavy(w: Jobs, cut: int): (r: Jobs)
    ensures |r| == |w|
  {
    seq(|w|, k requires 0 <= k < |w| => if w[k] > cut then 1 else 0)
  }

  lemma {:induction false} TotalOnes(n: nat)
    ensures Total(Ones(n)) == n
  {
    if n > 0 {
      assert Ones(n)[..n - 1] == Ones(n - 1);
      TotalOnes(n - 1);
    }
  }

  lemma {:induction false} CountsStep(assign: seq<nat>, w: Jobs, i: nat, cut: int)
    requires |assign| == |w| > 0
    ensures var n := |w| - 1;
            var here := if assign[n] == i then 1 else 0;
            && Load(assign, Ones(|w|), i) == Load(assign[..n], Ones(n), i) + here
            && Load(assign, Heavy(w, cut), i)
               == Load(assign[..n], Heavy(w[..n], cut), i) + (if w[n] > cut then here else 0)
  {
    var n := |w| - 1;
    assert Ones(|w|)[..n] == Ones(n) && Heavy(w, cut)[..n] == Heavy(w[..n], cut);
  }

  /** With every job at least `p`, a machine's load covers `p` per job, and the
      excess of one heavy job if it holds any. */
  lemma {:induction false} LoadCoversCounts(assign: seq<nat>, w: Jobs, i: nat, p: nat, cut: int)
    requires |assign| == |w|
    requires forall k :: 0 <= k < |w| ==> p <= w[k]
    ensures Load(assign, Heavy(w, cut), i) <= Load(assign, Ones(|w|), i)
    ensures Load(assign, w, i) >= p * Load(assign, Ones(|w|), i)
    ensures Load(assign, Heavy(w, cut), i) > 0 ==>
              Load(assign, w, i) >= p * (Load(assign, Ones(|w|), i) as int - 1) + cut + 1
  {
    if w != [] {
      var n := |w| - 1;
      LoadCoversCounts(assign[..n], w[..n], i, p, cut);
      CountsStep(assign, w, i, cut);
      var c: int := Load(assign[..n], Ones(n), i);
      Distribute(p, c, 1);
      Distribute(p, c, -1);
    }
  }

  /** Without heavy jobs a machine's load is at most `cut` per job. */
  lemma {:induction false} LightLoad(assign: seq<nat>, w: Jobs, i: nat, cut: int)
    requires |assign| == |w| && Load(assign, Heavy(w, cut), i) == 0
    ensures Load(assign, w, i) <= cut * Load(assign, Ones(|w|), i)
  {
    if w != [] {
      var n := |w| - 1;
      CountsStep(assign, w, i, cut);
      LightLoad(assign[..n], w[..n], i, cut);
      Distribute(cut, Load(assign[..n], Ones(n), i), 1);
    }
  }

  /** In a schedule of length `t`, jobs longer than `t / 3` leave room for two per
      machine, and a job too heavy to share is alone. */
  lemma ScheduleHoldsFew(assign: seq<nat>, w: Jobs, i: nat, p: nat, t: nat)
    requires |assign| == |w|
    requires forall k :: 0 <= k < |w| ==> p <= w[k]
    requires 3 * p > t && Load(assign, w, i) <= t
    ensures Load(assign, Ones(|w|), i) + Load(assign, Heavy(w, t - p), i) <= 2
  {
    LoadCoversCounts(assign, w, i, p, t - p);
    AtLeastThree(p, Load(assign, Ones(|w|), i));
  }

  lemma AtLeastThree(p: nat, c: nat)
    ensures c >= 3 ==> p * c >= 3 * p
  {
  }

  /** A machine that cannot take a job of size `p` within `t` holds a heavy job or two jobs. */
  lemma FullMachineHoldsTwo(assign: seq<nat>, w: Jobs, i: nat, p: nat, t: nat)
    requires |assign| == |w|
    requires forall k :: 0 <= k < |w| ==> p <= w[k]
    requires p <= t < Load(assign, w, i) + p
    ensures Load(assign, Ones(|w|), i) + Load(assign, Heavy(w, t - p), i) >= 2
  {
    LoadCoversCounts(assign, w, i, p, t - p);
    if Load(assign, Heavy(w, t - p), i) == 0 {
      LightLoad(assign, w, i, t - p);
    }
  }

  // ----- the greedy rule

  /** Every job went to a machine with the least load so far. */
  ghost predicate Greedy(assign: seq<nat>, w: Jobs, m: nat) {
    && Placed(assign, w, m)
    && forall k :: 0 <= k < |w| ==> LeastLoaded(assign[..k], w[..k], m, assign[k])
  }

  ghost predicate LeastLoaded(assign: seq<nat>, w: Jobs, m: nat, chosen: nat)
    requires |assign| == |w|
  {
    forall i :: 0 <= i < m ==> Load(assign, w, chosen) <= Load(assign, w, i)
  }

  ghost predicate Descending(w: Jobs) {
    forall j, k :: 0 <= j <= k < |w| ==> w[j] >= w[k]
  }

  ghost predicate FitsWithin(assign: seq<nat>, w: Jobs, m: nat, t: nat) {
    Placed(assign, w, m) && forall i :: 0 <= i < m ==> Load(assign, w, i) <= t
  }

  lemma {:induction false} LoadOfPrefix(assign: seq<nat>, w: Jobs, i: nat, n: nat)
    requires |assign| == |w| && n <= |w|
    ensures Load(assign[..n], w[..n], i) <= Load(assign, w, i)
    ensures (forall k :: n <= k < |w| ==> assign[k] != i) ==> Load(assign[..n], w[..n], i) == Load(assign, w, i)
  {
    if n < |w| {
      var l := |w| - 1;
      LoadOfPrefix(assign[..l], w[..l], i, n);
      assert assign[..l][..n] == assign[..n] && w[..l][..n] == w[..n];
    } else {
      assert assign[..n] == assign && w[..n] == w;
    }
  }

  lemma CountsInSchedule(other: seq<nat>, w: Jobs, m: nat, p: nat, t: nat)
    requires FitsWithin(other, w, m, t) && 3 * p > t
    requires forall k :: 0 <= k < |w| ==> p <= w[k]
    ensures |w| + Total(Heavy(w, t - p)) <= 2 * m
  {
    var ones, heavy := Ones(|w|), Heavy(w, t - p);
    forall i | 0 <= i < m ensures Load(other, ones, i) + Load(other, heavy, i) <= 2 {
      ScheduleHoldsFew(other, w, i, p, t);
    }
    PairAtMost(other, ones, heavy, m);
    CountTotals(other, w, t - p, m);
  }

  lemma CountsWhenFull(g: seq<nat>, w: Jobs, m: nat, p: nat, t: nat)
    requires Placed(g, w, m) && p <= t
    requires forall k :: 0 <= k < |w| ==> p <= w[k]
    requires forall i :: 0 <= i < m ==> t < Load(g, w, i) + p
    ensures |w| + Total(Heavy(w, t - p)) >= 2 * m
  {
    var ones, heavy := Ones(|w|), Heavy(w, t - p);
    forall i | 0 <= i < m ensures Load(g, ones, i) + Load(g, heavy, i) >= 2 {
      FullMachineHoldsTwo(g, w, i, p, t);
    }
    PairAtLeast(g, ones, heavy, m);
    CountTotals(g, w, t - p, m);
  }

  /** If even the smallest job is more than a third of `t`, greedy placement of the
      last job does not overrun `t`: counting jobs on both sides rules it out. */
  lemma LargeJobsFit(g: seq<nat>, other: seq<nat>, w: Jobs, m: nat, t: nat)
    requires |w| > 0 && Greedy(g, w, m) && Descending(w) && FitsWithin(other, w, m, t)
    requires 3 * w[|w| - 1] > t
    ensures Load(g, w, g[|w| - 1]) <= t
  {
    var n, p := |w| - 1, w[|w| - 1];
    LastJobLoad(other, w);
    CountsInSchedule(other, w, m, p, t);
    assert Heavy(w, t - p)[..n] == Heavy(w[..n], t - p);
    assert LeastLoaded(g[..n], w[..n], m, g[n]);
    if Load(g, w, g[n]) > t {
      CountsWhenFull(g[..n], w[..n], m, p, t);
      assert false;
    }
  }

  lemma LastJobLoad(assign: seq<nat>, w: Jobs)
    requires |assign| == |w| > 0
    ensures Load(assign, w, assign[|w| - 1]) >= w[|w| - 1]
  {
  }

  lemma CountTotals(assign: seq<nat>, w: Jobs, cut: int, m: nat)
    requires Placed(assign, w, m)
    ensures SumLoads(assign, Ones(|w|), m) == |w|
    ensures SumLoads(assign, Heavy(w, cut), m) == Total(Heavy(w, cut))
  {
    LoadsSumToTotal(assign, Ones(|w|), m);
    LoadsSumToTotal(assign, Heavy(w, cut), m);
    TotalOnes(|w|);
  }

  /** Averaging: the machine that got the last job was no fuller than the others. */
  lemma SmallJobsAverage(g: seq<nat>, other: seq<nat>, w: Jobs, m: nat, t: nat)
    requires |w| > 0 && Greedy(g, w, m) && FitsWithin(other, w, m, t)
    requires 3 * w[|w| - 1] <= t
    ensures Bounded(m, Load(g, w, g[|w| - 1]), t)
  {
    var n, p := |w| - 1, w[|w| - 1];
    var low := Load(g[..n], w[..n], g[n]);
    assert LeastLoaded(g[..n], w[..n], m, g[n]);
    SumAtLeast(g[..n], w[..n], m, low);
    LoadsSumToTotal(g[..n], w[..n], m);
    LoadsSumToTotal(other, w, m);
    SumAtMost(other, w, m, t);
    AverageBound(m, low, p, t);
  }

  /** `load` is at most 4/3 - 1/(3m) of `t`, over the integers. */
  predicate Bounded(m: nat, load: nat, t: nat) {
    3 * (m * load) + t <= 4 * (m * t)
  }

  lemma {:induction false} Triple(k: nat, p: nat, t: nat)
    requires 3 * p <= t
    ensures 3 * (k * p) <= k * t
  {
    if k > 0 {
      Triple(k - 1, p, t);
      assert k * p == (k - 1) * p + p && k * t == (k - 1) * t + t;
    }
  }

  lemma AverageBound(m: nat, low: nat, p: nat, t: nat)
    requires m > 0 && m * low + p <= m * t && 3 * p <= t
    ensures Bounded(m, low + p, t)
  {
    Triple(m - 1, p, t);
    Distribute(m, low, p);
    Distribute(p, m - 1, 1);
    Distribute(t, m - 1, 1);
  }

  lemma Distribute(a: int, b: int, c: int)
    ensures a * (b + c) == a * b + a * c
  {
  }

  /** Graham's bound: no machine exceeds 4/3 - 1/(3m) of any other schedule's length. */
  lemma GreedyBound(g: seq<nat>, other: seq<nat>, w: Jobs, m: nat, t: nat, i: nat)
    requires Greedy(g, w, m) && Descending(w) && FitsWithin(other, w, m, t) && i < m
    ensures Bounded(m, Load(g, w, i), t)
  {
    var n := LastOn(g, i);
    LoadOfPrefix(g, w, i, n);
    if n == 0 {
      WithinBound(m, 0, t);
    } else {
      GreedyPrefix(g, w, m, n);
      ScheduleOfPrefix(other, w, m, t, n);
      if 3 * w[n - 1] <= t {
        SmallJobsAverage(g[..n], other[..n], w[..n], m, t);
      } else {
        LargeJobsFit(g[..n], other[..n], w[..n], m, t);
        WithinBound(m, Load(g[..n], w[..n], i), t);
      }
    }
  }

  lemma WithinBound(m: nat, load: nat, t: nat)
    requires m > 0 && load <= t
    ensures Bounded(m, load, t)
  {
    assert m * load <= m * t;
    assert m * t == (m - 1) * t + t && (m - 1) * t >= 0;
  }

  lemma GreedyPrefix(g: seq<nat>, w: Jobs, m: nat, n: nat)
    requires Greedy(g, w, m) && n <= |w|
    ensures Greedy(g[..n], w[..n], m)
  {
    forall k | 0 <= k < n ensures LeastLoaded(g[..n][..k], w[..n][..k], m, g[..n][k]) {
      assert g[..n][..k] == g[..k] && w[..n][..k] == w[..k] && g[..n][k] == g[k];
    }
  }

  lemma ScheduleOfPrefix(other: seq<nat>, w: Jobs, m: nat, t: nat, n: nat)
    requires FitsWithin(other, w, m, t) && n <= |w|
    ensures FitsWithin(other[..n], w[..n], m, t)
  {
    forall j | 0 <= j < m ensures Load(other[..n], w[..n], j) <= t {
      LoadOfPrefix(other, w, j, n);
    }
  }

  /** One past the last job on machine `i`, or 0. */
  ghost function LastOn(assign: seq<nat>, i: nat): (n: nat)
    ensures n <= |assign|
    ensures n > 0 ==> assign[n - 1] == i
    ensures forall k :: n <= k < |assign| ==> assign[k] != i
  {
    if assign == [] then 0
    else if assign[|assign| - 1] == i then |assign|
    else LastOn(assign[..|assign| - 1], i)
  }
}
