/** Nested test suites of scripts/scheduling_controls.py, and the tests at their leaves. */
module Suites {
  import opened Bytes

  /** A unittest suite's members: tests and nested suites. */
  datatype Member = Case(id: string) | Group(members: seq<Member>)

  /** `cases`: the tests of a suite, nested ones in place. */
  function Cases(suite: seq<Member>): seq<string> {
    if |suite| == 0 then []
    else (match suite[0] case Case(id) => [id] case Group(inner) => Cases(inner)) + Cases(suite[1..])
  }

  /** The test that a path of indices through nested suites leads to, if it leads to one. */
  function TestAt(suite: seq<Member>, path: seq<nat>): Option<string>
    decreases |path|
  {
    if |path| == 0 || path[0] >= |suite| then None
    else match suite[path[0]]
      case Case(id) => if |path| == 1 then Some(id) else None
      case Group(inner) => TestAt(inner, path[1..])
  }

  ghost predicate HasTest(suite: seq<Member>, id: string) {
    exists path: seq<nat> :: TestAt(suite, path) == Some(id)
  }

  /** No two places in the suite hold the same test id. */
  ghost predicate NoClash(suite: seq<Member>) {
    forall p: seq<nat>, q: seq<nat> ::
      TestAt(suite, p).Some? && TestAt(suite, p) == TestAt(suite, q) ==> p == q
  }

  // ----- the traversal as a whole

  lemma {:induction false} CasesConcat(a: seq<Member>, b: seq<Member>)
    ensures Cases(a + b) == Cases(a) + Cases(b)
  {
    if |a| == 0 {
      assert a + b == b;
    } else {
      assert (a + b)[1..] == a[1..] + b;
      CasesConcat(a[1..], b);
    }
  }

  lemma {:induction false} CasesOfGroup(inner: seq<Member>)
    ensures Cases([Group(inner)]) == Cases(inner)
  {
    assert [Group(inner)][1..] == [];
  }

  lemma {:induction false} CasesOfCase(id: string)
    ensures Cases([Case(id)]) == [id]
  {
    assert [Case(id)][1..] == [];
  }

  lemma {:induction false} CasesParts(a: seq<Member>, m: Member, b: seq<Member>)
    ensures Cases(a + [m] + b) == Cases(a) + Cases([m]) + Cases(b)
  {
    CasesConcat(a + [m], b);
    CasesConcat(a, [m]);
  }

  /** The tests before, in and after one member. */
  lemma {:induction false} CasesAround(suite: seq<Member>, i: nat)
    requires i < |suite|
    ensures Cases(suite) == Cases(suite[..i]) + Cases([suite[i]]) + Cases(suite[i + 1..])
  {
    assert suite == suite[..i] + [suite[i]] + suite[i + 1..];
    CasesParts(suite[..i], suite[i], suite[i + 1..]);
  }

  // ----- the traversal and the paths

  /** How many tests come before the one at a path. */
  function Rank(suite: seq<Member>, path: seq<nat>): nat
    requires TestAt(suite, path).Some?
    decreases |path|
  {
    |Cases(suite[..path[0]])| +
    (match suite[path[0]] case Case(_) => 0 case Group(inner) => Rank(inner, path[1..]))
  }

  /** The traversal meets the test at every path, at the path's rank. */
  lemma {:induction false} RankFits(suite: seq<Member>, path: seq<nat>)
    requires TestAt(suite, path).Some?
    ensures Rank(suite, path) < |Cases(suite)| && Cases(suite)[Rank(suite, path)] == TestAt(suite, path).value
    ensures |Cases(suite[..path[0]])| <= Rank(suite, path) < |Cases(suite[..path[0] + 1])|
    decreases |path|
  {
    var i := path[0];
    CasesAround(suite, i);
    assert suite[..i + 1] == suite[..i] + [suite[i]];
    CasesConcat(suite[..i], [suite[i]]);
    match suite[i]
    case Case(id) => CasesOfCase(id);
    case Group(inner) =>
      CasesOfGroup(inner);
      RankFits(inner, path[1..]);
  }

  lemma {:induction false} PrefixGrows(suite: seq<Member>, i: nat, j: nat)
    requires i <= j <= |suite|
    ensures |Cases(suite[..i])| <= |Cases(suite[..j])|
  {
    assert suite[..j] == suite[..i] + suite[i..j];
    CasesConcat(suite[..i], suite[i..j]);
  }

  /** Different paths have different ranks. */
  lemma {:induction false} RankInjective(suite: seq<Member>, p: seq<nat>, q: seq<nat>)
    requires TestAt(suite, p).Some? && TestAt(suite, q).Some? && Rank(suite, p) == Rank(suite, q)
    ensures p == q
    decreases |p|
  {
    RankFits(suite, p);
    RankFits(suite, q);
    if p[0] < q[0] {
      PrefixGrows(suite, p[0] + 1, q[0]);
    } else if q[0] < p[0] {
      PrefixGrows(suite, q[0] + 1, p[0]);
    } else {
      match suite[p[0]]
      case Case(_) => assert p == [p[0]] && q == [q[0]];
      case Group(inner) =>
        RankInjective(inner, p[1..], q[1..]);
        assert p == [p[0]] + p[1..] && q == [q[0]] + q[1..];
    }
  }

  /** Every test the traversal meets has a path. */
  lemma {:induction false} PathAt(suite: seq<Member>, k: nat) returns (path: seq<nat>)
    requires k < |Cases(suite)|
    ensures TestAt(suite, path) == Some(Cases(suite)[k]) && Rank(suite, path) == k
    decreases suite
  {
    CasesAround(suite, 0);
    var first := |Cases([suite[0]])|;
    if k < first {
      match suite[0]
      case Case(id) =>
        CasesOfCase(id);
        path := [0];
      case Group(inner) =>
        CasesOfGroup(inner);
        var rest := PathAt(inner, k);
        path := [0] + rest;
        assert path[1..] == rest;
    } else {
      var rest := PathAt(suite[1..], k - first);
      path := [rest[0] + 1] + rest[1..];
      assert path[1..] == rest[1..];
      assert suite[..path[0]] == [suite[0]] + suite[1..][..rest[0]];
      CasesConcat([suite[0]], suite[1..][..rest[0]]);
    }
  }

  /** A test is met exactly when some path leads to it. */
  lemma {:induction false} HasTestIff(suite: seq<Member>, id: string)
    ensures id in Cases(suite) <==> HasTest(suite, id)
  {
    if id in Cases(suite) {
      var k :| 0 <= k < |Cases(suite)| && Cases(suite)[k] == id;
      var path := PathAt(suite, k);
    }
    if HasTest(suite, id) {
      var path: seq<nat> :| TestAt(suite, path) == Some(id);
      RankFits(suite, path);
    }
  }

  /** The traversal repeats no id exactly when no two places share one. */
  lemma {:induction false} NoClashIff(suite: seq<Member>)
    ensures NoClash(suite) <==> forall j, k :: 0 <= j < k < |Cases(suite)| ==> Cases(suite)[j] != Cases(suite)[k]
  {
    var tests := Cases(suite);
    if NoClash(suite) {
      forall j, k | 0 <= j < k < |tests| ensures tests[j] != tests[k] {
        var p := PathAt(suite, j);
        var q := PathAt(suite, k);
      }
    }
    if forall j, k :: 0 <= j < k < |tests| ==> tests[j] != tests[k] {
      forall p: seq<nat>, q: seq<nat> | TestAt(suite, p).Some? && TestAt(suite, p) == TestAt(suite, q) ensures p == q {
        RankFits(suite, p);
        RankFits(suite, q);
        RankInjective(suite, p, q);
      }
    }
  }
}
