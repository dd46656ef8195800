/** Shard partitioning and completion evidence of scripts/scheduling_controls.py.

    A test is its id. Loads are exact: weights are tenths of the source's floats. */
module Partition {
  import opened Ordering
  import opened Makespan
  import opened Suites
  import Bytes

  /** Scheduling hints: tenths of a second for known slow tests. */
  type Hints = map<string, nat>

  /** `id.split('.')[-1]` */
  function LastComponent(id: string): string {
    if id == [] || id[|id| - 1] == '.' then []
    else LastComponent(id[..|id| - 1]) + [id[|id| - 1]]
  }

  function Weight(slow: Hints, id: string): nat {
    var name := LastComponent(id);
    if name in slow then slow[name] else 1
  }

  /** It is what follows the last dot. */
  lemma {:induction false} LastComponentIs(id: string)
    ensures var name := LastComponent(id);
            && |name| <= |id| && id[|id| - |name|..] == name && '.' !in name
            && (|name| == |id| || id[|id| - |name| - 1] == '.')
  {
    if id != [] && id[|id| - 1] != '.' {
      LastComponentIs(id[..|id| - 1]);
      assert id == id[..|id| - 1] + [id[|id| - 1]];
    }
  }

  lemma {:induction false} LastComponentOf(before: string, name: string)
    requires '.' !in name && (|before| == 0 || before[|before| - 1] == '.')
    ensures LastComponent(before + name) == name
    decreases |name|
  {
    if name == [] {
      assert before + name == before;
    } else {
      var front := name[..|name| - 1];
      assert (before + name)[..|before + name| - 1] == before + front;
      LastComponentOf(before, front);
    }
  }

  /** A test's weight is the hint for its method name, whatever module and class it is in. */
  lemma WeightOf(slow: Hints, before: string, name: string)
    requires '.' !in name && (|before| == 0 || before[|before| - 1] == '.')
    ensures Weight(slow, before + name) == if name in slow then slow[name] else 1
  {
    LastComponentOf(before, name);
  }

  function Weights(slow: Hints, ts: seq<string>): (w: Jobs)
    ensures |w| == |ts|
  {
    seq(|ts|, k requires 0 <= k < |ts| => Weight(slow, ts[k]))
  }

  /** The sort key: descending weight, then id. */
  predicate NotAfter(slow: Hints, a: string, b: string) {
    Weight(slow, a) > Weight(slow, b) || (Weight(slow, a) == Weight(slow, b) && LexLeq(a, b))
  }

  function Key(slow: Hints): (string, string) -> bool {
    (a, b) => NotAfter(slow, a, b)
  }

  lemma KeyIsTotalOrder(slow: Hints)
    ensures TotalOrder(Key(slow))
  {
    LexIsTotalOrder();
  }

  function Order(slow: Hints, tests: seq<string>): seq<string> {
    Sort(Key(slow), tests)
  }

  /** Heavier tests come first, and tests of equal weight in the order of their ids. */
  lemma OrderIs(slow: Hints, tests: seq<string>, j: nat, k: nat)
    requires j < k < |Order(slow, tests)|
    ensures var a, b := Order(slow, tests)[j], Order(slow, tests)[k];
            Weight(slow, a) > Weight(slow, b) || (Weight(slow, a) == Weight(slow, b) && ComesFirst(a, b))
  {
    KeyIsTotalOrder(slow);
    SortSorts(Key(slow), tests);
    assert Key(slow)(Order(slow, tests)[j], Order(slow, tests)[k]);
    LexMeans(Order(slow, tests)[j], Order(slow, tests)[k]);
  }

  /** The first index with the least load. */
  function Least(loads: seq<nat>): (r: nat)
    requires |loads| > 0
    ensures r < |loads|
    ensures forall k :: 0 <= k < |loads| ==> loads[r] <= loads[k]
    ensures forall k :: 0 <= k < r ==> loads[r] < loads[k]
  {
    var n := |loads| - 1;
    if n == 0 then 0
    else
      var r := Least(loads[..n]);
      if loads[n] < loads[r] then n else r
  }

  function LoadsOf(assign: seq<nat>, w: Jobs, count: nat): (r: seq<nat>)
    requires |assign| == |w|
    ensures |r| == count && forall i :: 0 <= i < count ==> r[i] == Load(assign, w, i)
  {
    seq(count, i requires 0 <= i < count => Load(assign, w, i))
  }

  /** The shard index given to each test, in order. */
  function Assign(slow: Hints, ts: seq<string>, count: nat): (r: seq<nat>)
    requires count > 0
    ensures |r| == |ts|
  {
    if ts == [] then []
    else
      var n := |ts| - 1;
      var before := Assign(slow, ts[..n], count);
      before + [Least(LoadsOf(before, Weights(slow, ts[..n]), count))]
  }

  /** The tests of `ts` assigned to shard `i`. */
  function Shard(ts: seq<string>, assign: seq<nat>, i: nat): seq<string>
    requires |ts| == |assign|
  {
    if ts == [] then []
    else
      var n := |ts| - 1;
      Shard(ts[..n], assign[..n], i) + if assign[n] == i then [ts[n]] else []
  }

  function Shards(slow: Hints, tests: seq<string>, count: nat): (r: seq<seq<string>>)
    requires count > 0
    ensures |r| == count
  {
    var ts := Order(slow, tests);
    seq(count, i requires 0 <= i < count => Shard(ts, Assign(slow, ts, count), i))
  }

  ghost predicate Distinct(tests: seq<string>) {
    forall i, j :: 0 <= i < j < |tests| ==> tests[i] != tests[j]
  }

  // ----- the greedy loop

  lemma {:induction false} AssignPrefix(slow: Hints, ts: seq<string>, count: nat, n: nat)
    requires count > 0 && n <= |ts|
    ensures Assign(slow, ts, count)[..n] == Assign(slow, ts[..n], count)
  {
    if n < |ts| {
      var l := |ts| - 1;
      AssignPrefix(slow, ts[..l], count, n);
      assert ts[..l][..n] == ts[..n];
      assert Assign(slow, ts, count)[..n] == Assign(slow, ts[..l], count)[..n];
    } else {
      assert ts[..n] == ts;
      assert Assign(slow, ts, count)[..n] == Assign(slow, ts, count);
    }
  }

  /** What the assignment of the first k tests decides for the next one. */
  lemma {:induction false} AssignNext(slow: Hints, ts: seq<string>, count: nat, k: nat)
    requires count > 0 && k < |ts|
    ensures Assign(slow, ts, count)[..k] == Assign(slow, ts[..k], count)
    ensures Assign(slow, ts, count)[k] == Least(LoadsOf(Assign(slow, ts[..k], count), Weights(slow, ts[..k]), count))
  {
    AssignPrefix(slow, ts, count, k);
    AssignPrefix(slow, ts, count, k + 1);
    assert ts[..k + 1][..k] == ts[..k];
    assert Assign(slow, ts, count)[k] == Assign(slow, ts, count)[..k + 1][k];
  }

  lemma {:induction false} LeastIsLeastLoaded(assign: seq<nat>, w: Jobs, count: nat)
    requires count > 0 && |assign| == |w|
    ensures LeastLoaded(assign, w, count, Least(LoadsOf(assign, w, count)))
  {
    var loads := LoadsOf(assign, w, count);
    var r := Least(loads);
    forall i | 0 <= i < count ensures Load(assign, w, r) <= Load(assign, w, i) {
      assert loads[r] <= loads[i];
    }
  }

  lemma WeightsPrefix(slow: Hints, ts: seq<string>, k: nat)
    requires k <= |ts|
    ensures Weights(slow, ts)[..k] == Weights(slow, ts[..k])
  {
  }

  /** Each test in turn goes to a least loaded shard. */
  lemma {:induction false} AssignAt(slow: Hints, ts: seq<string>, count: nat, k: nat)
    requires count > 0 && k < |ts|
    ensures var g, w := Assign(slow, ts, count), Weights(slow, ts);
            g[k] < count && LeastLoaded(g[..k], w[..k], count, g[k])
  {
    AssignNext(slow, ts, count, k);
    WeightsPrefix(slow, ts, k);
    LeastIsLeastLoaded(Assign(slow, ts[..k], count), Weights(slow, ts[..k]), count);
  }

  lemma {:induction false} AssignIsGreedy(slow: Hints, ts: seq<string>, count: nat)
    requires count > 0
    ensures Greedy(Assign(slow, ts, count), Weights(slow, ts), count)
  {
    forall k | 0 <= k < |ts|
      ensures var g, w := Assign(slow, ts, count), Weights(slow, ts);
              g[k] < count && LeastLoaded(g[..k], w[..k], count, g[k])
    {
      AssignAt(slow, ts, count, k);
    }
  }

  /** The loop's state: the loads and members of every shard under `assign`. */
  ghost predicate Filled(slow: Hints, ts: seq<string>, assign: seq<nat>, shards: seq<seq<string>>, loads: seq<nat>)
    requires |ts| == |assign|
  {
    && |shards| == |loads|
    && (forall i :: 0 <= i < |loads| ==> loads[i] == Load(assign, Weights(slow, ts), i))
    && (forall i :: 0 <= i < |shards| ==> shards[i] == Shard(ts, assign, i))
  }

  /** One turn of the loop: test `x` joins shard `index`. */
  lemma FillStep(slow: Hints, ts: seq<string>, assign: seq<nat>, x: string, index: nat,
                 shards: seq<seq<string>>, loads: seq<nat>)
    requires |ts| == |assign| && Filled(slow, ts, assign, shards, loads) && index < |loads|
    ensures Filled(slow, ts + [x], assign + [index], shards[index := shards[index] + [x]],
                   loads[index := loads[index] + Weight(slow, x)])
  {
    var n := |ts|;
    assert (ts + [x])[..n] == ts && (assign + [index])[..n] == assign;
    assert Weights(slow, ts + [x])[..n] == Weights(slow, ts);
  }

  lemma AssignStep(slow: Hints, ts: seq<string>, k: nat, count: nat, loads: seq<nat>)
    requires k < |ts| && count == |loads| > 0
    requires forall i :: 0 <= i < count ==> loads[i] == Load(Assign(slow, ts[..k], count), Weights(slow, ts[..k]), i)
    ensures ts[..k + 1] == ts[..k] + [ts[k]]
    ensures Assign(slow, ts[..k + 1], count) == Assign(slow, ts[..k], count) + [Least(loads)]
  {
    assert ts[..k + 1][..k] == ts[..k];
    assert loads == LoadsOf(Assign(slow, ts[..k], count), Weights(slow, ts[..k]), count);
  }

  /** The assignment loop over the sorted tests. */
  method Fill(slow: Hints, order: seq<string>, count: nat) returns (shards: seq<seq<string>>)
    requires count > 0
    ensures |shards| == count
    ensures forall i :: 0 <= i < count ==> shards[i] == Shard(order, Assign(slow, order, count), i)
  {
    shards := seq(count, _ => []);
    var loads: seq<nat> := seq(count, _ => 0);
    for k := 0 to |order|
      invariant |loads| == count && Filled(slow, order[..k], Assign(slow, order[..k], count), shards, loads)
    {
      var test, index := order[k], Least(loads);
      AssignStep(slow, order, k, count, loads);
      FillStep(slow, order[..k], Assign(slow, order[..k], count), test, index, shards, loads);
      shards := shards[index := shards[index] + [test]];
      loads := loads[index := loads[index] + Weight(slow, test)];
    }
    assert order[..|order|] == order;
  }

  datatype Outcome = Rejected | Planned(shards: seq<seq<string>>)

  /** A suite that can be sharded: it has tests, no two places share an id, 1 to 4 workers. */
  ghost predicate Plannable(suite: seq<Member>, count: int) {
    (exists id: string :: HasTest(suite, id)) && NoClash(suite) && 1 <= count <= 4
  }

  /** Exactly one shard holds the test, once, if the suite has it anywhere; else none does. */
  ghost predicate HeldOnce(suite: seq<Member>, shards: seq<seq<string>>, id: string) {
    multiset(Bytes.Join(shards))[id] == if HasTest(suite, id) then 1 else 0
  }

  lemma PlannableIff(suite: seq<Member>, count: int)
    ensures Plannable(suite, count) <==> Cases(suite) != [] && Distinct(Cases(suite)) && 1 <= count <= 4
  {
    NoClashIff(suite);
    if Cases(suite) != [] {
      HasTestIff(suite, Cases(suite)[0]);
    }
    if id: string :| HasTest(suite, id) {
      HasTestIff(suite, id);
    }
  }

  lemma PlanPlaces(slow: Hints, suite: seq<Member>, count: nat, id: string)
    requires count > 0 && Distinct(Cases(suite))
    ensures HeldOnce(suite, Shards(slow, Cases(suite), count), id)
  {
    ShardsCover(slow, Cases(suite), count);
    HasTestIff(suite, id);
    DistinctCounts(Cases(suite), id);
  }

  lemma {:induction false} DistinctCounts(tests: seq<string>, id: string)
    requires Distinct(tests)
    ensures multiset(tests)[id] == if id in tests then 1 else 0
  {
    if tests != [] {
      var front, last := tests[..|tests| - 1], tests[|tests| - 1];
      assert tests == front + [last];
      DistinctCounts(front, id);
    }
  }

  /** What is counted once in all shards together is in one shard only. */
  lemma {:induction false} InOneShard(shards: seq<seq<string>>, id: string)
    ensures multiset(Bytes.Join(shards))[id] == 0 ==> forall i :: 0 <= i < |shards| ==> id !in shards[i]
    ensures multiset(Bytes.Join(shards))[id] == 1 ==>
              exists i :: 0 <= i < |shards| && id in shards[i] && OnlyIn(shards, id, i)
  {
    if shards != [] {
      var front, last := shards[..|shards| - 1], shards[|shards| - 1];
      assert shards == front + [last];
      Bytes.JoinAppend(front, last);
      InOneShard(front, id);
      if multiset(Bytes.Join(shards))[id] == 1 {
        if id in last {
          assert OnlyIn(shards, id, |front|);
        } else {
          var i :| 0 <= i < |front| && id in front[i] && OnlyIn(front, id, i);
          assert OnlyIn(shards, id, i);
        }
      }
    }
  }

  ghost predicate OnlyIn(shards: seq<seq<string>>, id: string, i: nat) {
    forall j :: 0 <= j < |shards| && j != i ==> id !in shards[j]
  }

  /** `partition`, with any hints. */
  method Plan(slow: Hints, suite: seq<Member>, count: int) returns (r: Outcome)
    ensures r.Planned? <==> Plannable(suite, count)
    ensures r.Planned? ==> |r.shards| == count && r.shards == Shards(slow, Cases(suite), count)
    ensures r.Planned? ==> forall id: string :: HeldOnce(suite, r.shards, id)
  {
    var tests := Cases(suite);
    DistinctBySize(tests);
    PlannableIff(suite, count);
    if tests == [] || |tests| != |Ids(tests)| || !(1 <= count <= 4) {
      return Rejected;
    }
    var shards := Fill(slow, Order(slow, tests), count);
    assert shards == Shards(slow, tests, count);
    forall id: string ensures HeldOnce(suite, shards, id) {
      PlanPlaces(slow, suite, count, id);
    }
    r := Planned(shards);
  }

  function Ids(tests: seq<string>): set<string> {
    set t | t in tests
  }

  lemma DistinctStep(tests: seq<string>)
    requires tests != []
    ensures var n := |tests| - 1;
            && Ids(tests) == Ids(tests[..n]) + {tests[n]}
            && (Distinct(tests) <==> Distinct(tests[..n]) && tests[n] !in Ids(tests[..n]))
  {
    var n := |tests| - 1;
    assert tests == tests[..n] + [tests[n]];
    if Distinct(tests[..n]) && tests[n] !in Ids(tests[..n]) {
      forall i, j | 0 <= i < j < |tests| ensures tests[i] != tests[j] {
        assert j < n ==> tests[..n][i] != tests[..n][j];
        assert tests[..n][i] in Ids(tests[..n]);
      }
    }
    if tests[n] in Ids(tests[..n]) {
      var i :| 0 <= i < n && tests[..n][i] == tests[n];
      assert !Distinct(tests);
    }
  }

  lemma {:induction false} DistinctBySize(tests: seq<string>)
    ensures |Ids(tests)| <= |tests|
    ensures |tests| == |Ids(tests)| <==> Distinct(tests)
  {
    if tests != [] {
      DistinctBySize(tests[..|tests| - 1]);
      DistinctStep(tests);
    }
  }

  // ----- what the shards promise

  /** The first m shards. */
  function ShardsTo(ts: seq<string>, assign: seq<nat>, m: nat): (r: seq<seq<string>>)
    requires |ts| == |assign|
    ensures |r| == m
  {
    if m == 0 then [] else ShardsTo(ts, assign, m - 1) + [Shard(ts, assign, m - 1)]
  }

  lemma {:induction false} ShardsToAt(ts: seq<string>, assign: seq<nat>, m: nat, i: nat)
    requires |ts| == |assign| && i < m
    ensures ShardsTo(ts, assign, m)[i] == Shard(ts, assign, i)
  {
    if i < m - 1 {
      ShardsToAt(ts, assign, m - 1, i);
    }
  }

  lemma ShardsAreAll(slow: Hints, tests: seq<string>, count: nat)
    requires count > 0
    ensures var ts := Order(slow, tests);
            Shards(slow, tests, count) == ShardsTo(ts, Assign(slow, ts, count), count)
  {
    var ts := Order(slow, tests);
    var assign := Assign(slow, ts, count);
    forall i | 0 <= i < count ensures Shards(slow, tests, count)[i] == ShardsTo(ts, assign, count)[i] {
      ShardsToAt(ts, assign, count, i);
    }
  }

  /** Every test is in exactly one shard. */
  lemma ShardsCover(slow: Hints, tests: seq<string>, count: nat)
    requires count > 0
    ensures multiset(Bytes.Join(Shards(slow, tests, count))) == multiset(tests)
  {
    var ts := Order(slow, tests);
    var assign := Assign(slow, ts, count);
    SortKeepsElements(Key(slow), tests);
    AssignIsGreedy(slow, ts, count);
    ShardsAreAll(slow, tests, count);
    CoverPrefix(ts, assign, count);
    BelowAll(ts, assign, count);
  }

  /** The tests assigned below `m`, counted through the shards. */
  lemma {:induction false} CoverPrefix(ts: seq<string>, assign: seq<nat>, m: nat)
    requires |ts| == |assign|
    ensures multiset(Bytes.Join(ShardsTo(ts, assign, m))) == Below(ts, assign, m)
  {
    if m == 0 {
      BelowAll(ts, assign, m);
    } else {
      CoverPrefix(ts, assign, m - 1);
      Bytes.JoinAppend(ShardsTo(ts, assign, m - 1), Shard(ts, assign, m - 1));
      BelowStep(ts, assign, m);
    }
  }

  ghost function Below(ts: seq<string>, assign: seq<nat>, m: nat): multiset<string>
    requires |ts| == |assign|
  {
    if ts == [] then multiset{}
    else
      var n := |ts| - 1;
      Below(ts[..n], assign[..n], m) + if assign[n] < m then multiset{ts[n]} else multiset{}
  }

  lemma {:induction false} BelowStep(ts: seq<string>, assign: seq<nat>, m: nat)
    requires |ts| == |assign| && m > 0
    ensures Below(ts, assign, m) == Below(ts, assign, m - 1) + multiset(Shard(ts, assign, m - 1))
  {
    if ts != [] {
      BelowStep(ts[..|ts| - 1], assign[..|ts| - 1], m);
    }
  }

  lemma {:induction false} BelowAll(ts: seq<string>, assign: seq<nat>, m: nat)
    requires |ts| == |assign|
    ensures m == 0 ==> Below(ts, assign, m) == multiset{}
    ensures (forall k :: 0 <= k < |assign| ==> assign[k] < m) ==> Below(ts, assign, m) == multiset(ts)
  {
    if ts != [] {
      var n := |ts| - 1;
      BelowAll(ts[..n], assign[..n], m);
      assert ts == ts[..n] + [ts[n]];
    }
  }

  /** The same ids give the same shards in every discovery order. */
  lemma ShardsIgnoreDiscoveryOrder(slow: Hints, a: seq<string>, b: seq<string>, count: nat)
    requires count > 0 && multiset(a) == multiset(b)
    ensures Shards(slow, a, count) == Shards(slow, b, count)
  {
    KeyIsTotalOrder(slow);
    SortIgnoresOrder(Key(slow), a, b);
  }

  lemma {:induction false} ShardLoad(slow: Hints, ts: seq<string>, assign: seq<nat>, i: nat)
    requires |ts| == |assign|
    ensures Total(Weights(slow, Shard(ts, assign, i))) == Load(assign, Weights(slow, ts), i)
  {
    if ts != [] {
      var n := |ts| - 1;
      ShardLoad(slow, ts[..n], assign[..n], i);
      assert Weights(slow, ts)[..n] == Weights(slow, ts[..n]);
      var front := Shard(ts[..n], assign[..n], i);
      if assign[n] == i {
        assert Weights(slow, front + [ts[n]])[..|front|] == Weights(slow, front);
      } else {
        assert front + [] == front;
      }
    }
  }

  /** The load any placement of the tests puts on shard `j`. */
  function PlacedLoad(slow: Hints, tests: seq<string>, place: string -> nat, j: nat): nat {
    var ts := Order(slow, tests);
    Load(seq(|ts|, k requires 0 <= k < |ts| => place(ts[k])), Weights(slow, ts), j)
  }

  /** No shard is heavier than 4/3 - 1/(3 count) of the heaviest shard of any other placement. */
  lemma ShardsNearOptimal(slow: Hints, tests: seq<string>, count: nat, place: string -> nat, longest: nat, i: nat)
    requires i < count
    requires forall t :: place(t) < count
    requires forall j :: 0 <= j < count ==> PlacedLoad(slow, tests, place, j) <= longest
    ensures Bounded(count, Total(Weights(slow, Shards(slow, tests, count)[i])), longest)
  {
    var ts := Order(slow, tests);
    var g, w := Assign(slow, ts, count), Weights(slow, ts);
    var other: seq<nat> := seq(|ts|, k requires 0 <= k < |ts| => place(ts[k]));
    AssignIsGreedy(slow, ts, count);
    KeyIsTotalOrder(slow);
    SortSorts(Key(slow), tests);
    forall j, k | 0 <= j <= k < |w| ensures w[j] >= w[k] {
      if j < k {
        assert Key(slow)(ts[j], ts[k]);
      }
    }
    forall j | 0 <= j < count ensures Load(other, w, j) <= longest {
      assert PlacedLoad(slow, tests, place, j) <= longest;
    }
    GreedyBound(g, other, w, count, longest, i);
    ShardLoad(slow, ts, g, i);
  }

  // ----- completion evidence

  /** What one shard's process printed: its parsed CONTROL_RESULT lines. */
  datatype Record = Malformed | Result(tests: seq<string>, successful: bool)
  datatype Evidence = Evidence(ok: bool, records: seq<Record>)

  predicate Completed(e: Evidence, expected: seq<string>) {
    e.ok && |e.records| == 1 && e.records[0] == Result(Sort(LexLeq, expected), true)
  }

  predicate RunValid(shards: seq<seq<string>>, outcomes: seq<Evidence>) {
    |outcomes| == |shards| && forall i :: 0 <= i < |shards| ==> Completed(outcomes[i], shards[i])
  }

  function Reported(outcomes: seq<Evidence>): seq<string> {
    if outcomes == [] then []
    else
      var e := outcomes[|outcomes| - 1];
      Reported(outcomes[..|outcomes| - 1])
      + if |e.records| == 1 && e.records[0].Result? then e.records[0].tests else []
  }

  /** One record, well formed and successful, that lists exactly the expected tests in order. */
  lemma CompletedMeans(e: Evidence, expected: seq<string>)
    ensures Completed(e, expected) <==>
            && e.ok && |e.records| == 1 && e.records[0].Result? && e.records[0].successful
            && Sorted(ComesFirst, e.records[0].tests) && multiset(e.records[0].tests) == multiset(expected)
  {
    LexIsTotalOrder();
    SortSorts(LexLeq, expected);
    SortKeepsElements(LexLeq, expected);
    forall a: string, b: string ensures LexLeq(a, b) <==> ComesFirst(a, b) {
      LexMeans(a, b);
    }
    if |e.records| == 1 && e.records[0].Result? && Sorted(ComesFirst, e.records[0].tests)
       && multiset(e.records[0].tests) == multiset(expected) {
      SortedIsUnique(LexLeq, e.records[0].tests, Sort(LexLeq, expected));
    }
  }

  lemma {:induction false} ReportedIsExpected(shards: seq<seq<string>>, outcomes: seq<Evidence>)
    requires RunValid(shards, outcomes)
    ensures multiset(Reported(outcomes)) == multiset(Bytes.Join(shards))
  {
    if shards != [] {
      var n := |shards| - 1;
      ReportedIsExpected(shards[..n], outcomes[..n]);
      assert Completed(outcomes[n], shards[n]);
      SortKeepsElements(LexLeq, shards[n]);
      Bytes.JoinAppend(shards[..n], shards[n]);
      assert shards == shards[..n] + [shards[n]];
    }
  }

  /** What child i executes: shard i of the suite as that child discovered it. */
  function Executed(slow: Hints, discoveries: seq<seq<string>>, count: nat): (r: seq<seq<string>>)
    requires count == |discoveries| > 0
    ensures |r| == count
  {
    seq(count, i requires 0 <= i < count => Shards(slow, discoveries[i], count)[i])
  }

  /** Every child discovers the suite again, in an order of its own; still the children
      execute exactly the shards the parent expects. */
  lemma ChildrenAgree(slow: Hints, tests: seq<string>, discoveries: seq<seq<string>>, count: nat)
    requires count == |discoveries| > 0
    requires forall i :: 0 <= i < count ==> multiset(discoveries[i]) == multiset(tests)
    ensures Executed(slow, discoveries, count) == Shards(slow, tests, count)
  {
    forall i | 0 <= i < count ensures Executed(slow, discoveries, count)[i] == Shards(slow, tests, count)[i] {
      ShardsIgnoreDiscoveryOrder(slow, discoveries[i], tests, count);
    }
  }

  /** The parent accepts a run exactly when each child's evidence is complete for what that
      child executed, and then every discovered test is reported exactly once. */
  lemma ValidRunIsComplete(slow: Hints, tests: seq<string>, discoveries: seq<seq<string>>, count: nat, outcomes: seq<Evidence>)
    requires count == |discoveries| > 0
    requires forall i :: 0 <= i < count ==> multiset(discoveries[i]) == multiset(tests)
    ensures RunValid(Shards(slow, tests, count), outcomes) <==> RunValid(Executed(slow, discoveries, count), outcomes)
    ensures RunValid(Executed(slow, discoveries, count), outcomes) ==> multiset(Reported(outcomes)) == multiset(tests)
  {
    ChildrenAgree(slow, tests, discoveries, count);
    if RunValid(Shards(slow, tests, count), outcomes) {
      ReportedIsExpected(Shards(slow, tests, count), outcomes);
      ShardsCover(slow, tests, count);
    }
  }
}

/** The hints and entry point the scripts use. */
module Controls {
  import opened Partition
  import opened Suites

  const SLOW_CONTROLS: map<string, nat> := map[
    "test_missing_record_has_a_native_startup_deadline" := 50,
    "test_escaped_pipe_deadline_keeps_checkpoints" := 32,
    "test_unobserved_exit_is_reported_without_an_unbounded_wait" := 31,
    "test_stdout_eof_is_not_process_exit" := 30,
    "test_build_timeout_persists_partial_logs_and_classification" := 30,
    "test_descendant_pipe_is_contained_by_the_owned_group" := 30,
    "test_replay_timeout_is_retained_and_cannot_reject_a_mutant" := 30,
    "test_timeout_retains_output_and_reaps" := 30,
    "test_delayed_start_still_reaches_the_success_checkpoint" := 10,
    "test_sigint_during_cleanup_preserves_deadline_evidence_and_resources" := 8
  ]

  /** `partition`: a plan exists exactly for a nonempty discovery without repeated ids and
      1 to 4 workers; it places every test of the suite, however nested, in one shard, and
      does not depend on the discovery order. */
  method PartitionSuite(suite: seq<Member>, count: int) returns (r: Outcome)
    ensures r.Planned? <==> Plannable(suite, count)
    ensures r.Planned? ==> |r.shards| == count && forall id: string :: HeldOnce(suite, r.shards, id)
    ensures r.Planned? ==>
              forall other: seq<Member> :: multiset(Cases(other)) == multiset(Cases(suite)) ==>
                r.shards == Shards(SLOW_CONTROLS, Cases(other), count)
  {
    r := Plan(SLOW_CONTROLS, suite, count);
    if r.Planned? {
      forall other: seq<Member> | multiset(Cases(other)) == multiset(Cases(suite)) {
        ShardsIgnoreDiscoveryOrder(SLOW_CONTROLS, Cases(suite), Cases(other), count);
      }
    }
  }
}
