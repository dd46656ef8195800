/** Stacks of the wrappers of crates/batter-axum around a handler, and what happens to a
    request that arrives with none of Batter's extensions. */
module HttpStacks {
  import opened Bytes
  import opened HttpLayers

  /** The wrappers a router can be given; `request_scope` is an observer around admission. */
  datatype Wrapper =
    | ObserveHttp
    | OperationalHttp
    | OperationalHttpWithQuota
    | RequestScope(decision: Decision)
    | RequestAdmission(decision: Decision)
    | Middleware(action: Action)

  function Expand(w: Wrapper): seq<Layer> {
    match w
    case ObserveHttp => [Observer]
    case OperationalHttp => [Operational(false)]
    case OperationalHttpWithQuota => [Operational(true)]
    case RequestScope(d) => [Observer, Admission(d)]
    case RequestAdmission(d) => [Admission(d)]
    case Middleware(a) => [Application(a)]
  }

  function Layers(ws: seq<Wrapper>): seq<Layer> {
    if |ws| == 0 then [] else Expand(ws[0]) + Layers(ws[1..])
  }

  // ----- kinds of wrappers

  /** A wrapper that can own the completion event. */
  predicate Observes(w: Wrapper) {
    w.ObserveHttp? || w.OperationalHttp? || w.OperationalHttpWithQuota? || w.RequestScope?
  }

  /** A wrapper that can own the request's id. */
  predicate Identifies(w: Wrapper) {
    w.OperationalHttp? || w.OperationalHttpWithQuota?
  }

  /** A wrapper that starts a quota record. */
  predicate Records(w: Wrapper) {
    w.OperationalHttpWithQuota?
  }

  predicate Admits(w: Wrapper) {
    w.RequestScope? || w.RequestAdmission?
  }

  /** The request gets past a wrapper. */
  predicate Forwards(w: Wrapper) {
    match w
    case RequestScope(d) => d.Admit?
    case RequestAdmission(d) => d.Admit?
    case Middleware(a) => a.Pass? || a.Claim? || a.Rewrite?
    case _ => true
  }

  /** The wrapper neither rejects nor rewrites. */
  predicate Clear(w: Wrapper) {
    match w
    case RequestScope(_) => false
    case RequestAdmission(_) => false
    case Middleware(a) => a.Pass? || a.Claim?
    case _ => true
  }

  /** Some wrapper has property `p` and all outside it have property `t`. */
  ghost predicate SomeAfter(ws: seq<Wrapper>, p: Wrapper -> bool, t: Wrapper -> bool) {
    exists i :: 0 <= i < |ws| && p(ws[i]) && AllBefore(ws, i, t)
  }

  ghost predicate AllBefore(ws: seq<Wrapper>, i: nat, t: Wrapper -> bool) {
    i <= |ws| && forall j :: 0 <= j < i ==> t(ws[j])
  }

  /** The request enters some wrapper of this kind. */
  ghost predicate Enters(ws: seq<Wrapper>, p: Wrapper -> bool) {
    SomeAfter(ws, p, Forwards)
  }

  lemma SomeAfterStep(ws: seq<Wrapper>, p: Wrapper -> bool, t: Wrapper -> bool)
    requires |ws| > 0
    ensures SomeAfter(ws, p, t) <==> p(ws[0]) || (t(ws[0]) && SomeAfter(ws[1..], p, t))
  {
    var rest := ws[1..];
    if p(ws[0]) {
      assert AllBefore(ws, 0, t);
    }
    if i :| 0 <= i < |ws| && p(ws[i]) && AllBefore(ws, i, t) {
      if i > 0 {
        assert t(ws[0]) && rest[i - 1] == ws[i];
        assert AllBefore(rest, i - 1, t) by {
          assert forall j :: 0 <= j < i - 1 ==> rest[j] == ws[j + 1];
        }
      }
    }
    if t(ws[0]) {
      if i :| 0 <= i < |rest| && p(rest[i]) && AllBefore(rest, i, t) {
        assert ws[i + 1] == rest[i];
        assert AllBefore(ws, i + 1, t) by {
          assert forall j :: 0 < j < i + 1 ==> ws[j] == rest[j - 1];
        }
      }
    }
  }

  // ----- the layers of a stack, one wrapper at a time

  lemma Shapes(w: Wrapper, rest: seq<Layer>)
    ensures var ls := Expand(w) + rest;
            && |ls| > 0 && (!w.RequestScope? ==> ls[0] == Expand(w)[0] && ls[1..] == rest)
            && (w.RequestScope? ==>
                  |ls| > 1 && ls[0] == Observer && ls[1..][0] == Admission(w.decision) && ls[1..][1..] == rest)
  {
    var ls := Expand(w) + rest;
    if w.RequestScope? {
      assert ls[1..] == [Admission(w.decision)] + rest;
      assert ls[1..][1..] == rest;
    } else {
      assert ls[1..] == rest;
    }
  }

  /** An event is owed exactly when the request enters some observing wrapper. */
  lemma {:induction false} ObserverEnteredIff(ws: seq<Wrapper>)
    ensures ObserverEntered(Layers(ws)) <==> Enters(ws, Observes)
  {
    if |ws| > 0 {
      ObserverEnteredIff(ws[1..]);
      SomeAfterStep(ws, Observes, Forwards);
      Shapes(ws[0], Layers(ws[1..]));
    }
  }

  /** An id is made exactly when the request enters some operational wrapper. */
  lemma {:induction false} OperationalEnteredIff(ws: seq<Wrapper>)
    ensures OperationalEntered(Layers(ws)) <==> Enters(ws, Identifies)
  {
    if |ws| > 0 {
      OperationalEnteredIff(ws[1..]);
      SomeAfterStep(ws, Identifies, Forwards);
      Shapes(ws[0], Layers(ws[1..]));
    }
  }

  lemma {:induction false} OperationalOutsideIff(ws: seq<Wrapper>)
    ensures OperationalOutside(Layers(ws)) <==> SomeAfter(ws, Identifies, Clear)
  {
    if |ws| > 0 {
      OperationalOutsideIff(ws[1..]);
      SomeAfterStep(ws, Identifies, Clear);
      Shapes(ws[0], Layers(ws[1..]));
    }
  }

  lemma {:induction false} ObserverOutsideIff(ws: seq<Wrapper>)
    ensures ObserverOutside(Layers(ws)) <==> SomeAfter(ws, Observes, Clear)
  {
    if |ws| > 0 {
      ObserverOutsideIff(ws[1..]);
      SomeAfterStep(ws, Observes, Clear);
      Shapes(ws[0], Layers(ws[1..]));
    }
  }

  lemma {:induction false} ReachesIff(ws: seq<Wrapper>)
    ensures ReachesHandler(Layers(ws)) <==> AllBefore(ws, |ws|, Forwards)
  {
    if |ws| > 0 {
      var rest := ws[1..];
      ReachesIff(rest);
      var ls, inner := Layers(ws), Layers(rest);
      assert ws == [ws[0]] + rest;
      ReachesConcat(Expand(ws[0]), inner);
      assert AllBefore(ws, |ws|, Forwards) <==> Forwards(ws[0]) && AllBefore(rest, |rest|, Forwards);
      assert ReachesHandler(Expand(ws[0])) <==> Forwards(ws[0]) by {
        ExpandReaches(ws[0]);
      }
    }
  }

  lemma ReachesConcat(a: seq<Layer>, b: seq<Layer>)
    ensures ReachesHandler(a + b) <==> ReachesHandler(a) && ReachesHandler(b)
  {
    assert forall i :: 0 <= i < |a| ==> (a + b)[i] == a[i];
    assert forall i :: 0 <= i < |b| ==> (a + b)[|a| + i] == b[i];
  }

  lemma ExpandReaches(w: Wrapper)
    ensures ReachesHandler(Expand(w)) <==> Forwards(w)
  {
    assert Passes(Expand(w)[0]) <==> w.RequestScope? || Forwards(w);
    if w.RequestScope? {
      assert Passes(Expand(w)[1]) <==> Forwards(w);
    }
  }

  lemma {:induction false} LayersConcat(a: seq<Wrapper>, b: seq<Wrapper>)
    ensures Layers(a + b) == Layers(a) + Layers(b)
  {
    if |a| == 0 {
      assert a + b == b;
    } else {
      assert (a + b)[1..] == a[1..] + b;
      LayersConcat(a[1..], b);
    }
  }

  // ----- admission

  /** Some admission is inside some operational wrapper. */
  ghost predicate AdmittedWithin(ws: seq<Wrapper>) {
    exists i, j :: 0 <= i < j < |ws| && Identifies(ws[i]) && Admits(ws[j])
  }

  ghost predicate HasAdmission(ws: seq<Wrapper>) {
    exists j :: 0 <= j < |ws| && Admits(ws[j])
  }

  lemma WithinStep(ws: seq<Wrapper>)
    requires |ws| > 0
    ensures HasAdmission(ws) <==> Admits(ws[0]) || HasAdmission(ws[1..])
    ensures AdmittedWithin(ws) <==> (Identifies(ws[0]) && HasAdmission(ws[1..])) || AdmittedWithin(ws[1..])
  {
    var rest := ws[1..];
    assert forall j :: 0 <= j < |rest| ==> rest[j] == ws[j + 1];
    if j :| 0 <= j < |ws| && Admits(ws[j]) {
      assert j > 0 ==> Admits(rest[j - 1]);
    }
    if j :| 0 <= j < |rest| && Admits(rest[j]) {
      assert Admits(ws[j + 1]);
    }
    if i, j :| 0 <= i < j < |ws| && Identifies(ws[i]) && Admits(ws[j]) {
      assert Admits(rest[j - 1]);
      assert i > 0 ==> Identifies(rest[i - 1]);
    }
    if i, j :| 0 <= i < j < |rest| && Identifies(rest[i]) && Admits(rest[j]) {
      assert Identifies(ws[i + 1]) && Admits(ws[j + 1]);
    }
  }

  lemma {:induction false} AdmittedInsideIff(ws: seq<Wrapper>, operational: bool)
    ensures AdmittedInside(Layers(ws), operational) <==> AdmittedWithin(ws) || (operational && HasAdmission(ws))
  {
    if |ws| > 0 {
      AdmittedInsideIff(ws[1..], operational);
      AdmittedInsideIff(ws[1..], true);
      WithinStep(ws);
      Shapes(ws[0], Layers(ws[1..]));
    }
  }

  // ----- quota facts

  /** The first quota check that a request past these wrappers runs into, the handler's last. */
  function FirstCheck(ws: seq<Wrapper>, handler: Handler): Option<Outcome> {
    if |ws| == 0 then handler.check
    else if ws[0].Middleware? && ws[0].action.Claim? then Some(ws[0].action.outcome)
    else if Forwards(ws[0]) then FirstCheck(ws[1..], handler)
    else None
  }

  /** The facts of a record after its first check, case by case. */
  ghost predicate Tells(facts: QuotaFacts, check: Option<Outcome>) {
    && (facts == NotChecked <==> check == None)
    && (facts == Unresolved <==> check == Some(None))
    && (facts == Allowed <==> check == Some(Some(AllowedFact)))
    && (facts == ShadowDenied <==> check == Some(Some(ShadowDeniedFact)))
    && (facts == QuotaDenied <==> check == Some(Some(QuotaDeniedFact)))
    && (facts == StorageCapacity <==> check == Some(Some(StorageCapacityFact)))
    && (facts == OtherDenial <==> check == Some(Some(OtherDenialFact)))
    && (forall c: Consumption :: facts == BackendFailed(c) <==> check == Some(Some(BackendFailedFact(c))))
  }

  /** Wrapper i is the innermost quota wrapper that the request enters. */
  ghost predicate InnermostRecord(ws: seq<Wrapper>, i: nat) {
    i < |ws| && Records(ws[i]) && AllBefore(ws, i, Forwards) && !Enters(ws[i + 1..], Records)
  }

  function AfterCheck(s: Slot, check: Option<Outcome>): Slot {
    match check case None => s case Some(outcome) => Check(s, outcome)
  }

  /** Without a further quota wrapper the record stays, and its first check decides. */
  lemma {:induction false} RecordStays(ws: seq<Wrapper>, handler: Handler, s: Slot)
    requires !Enters(ws, Records)
    ensures Retained(Layers(ws), handler, s) == AfterCheck(s, FirstCheck(ws, handler))
  {
    if |ws| > 0 {
      SomeAfterStep(ws, Records, Forwards);
      Shapes(ws[0], Layers(ws[1..]));
      if Forwards(ws[0]) {
        RecordStays(ws[1..], handler, s);
        if ws[0].Middleware? && ws[0].action.Claim? {
          RecordStays(ws[1..], handler, Check(s, ws[0].action.outcome));
        }
      }
    }
  }

  /** There is a record exactly when some quota wrapper is entered. */
  lemma {:induction false} RecordIff(ws: seq<Wrapper>, handler: Handler, s: Slot)
    ensures Retained(Layers(ws), handler, s) == Absent <==> s == Absent && !Enters(ws, Records)
  {
    if |ws| > 0 {
      SomeAfterStep(ws, Records, Forwards);
      Shapes(ws[0], Layers(ws[1..]));
      if Forwards(ws[0]) {
        RecordIff(ws[1..], handler, s);
        RecordIff(ws[1..], handler, Open);
        if ws[0].Middleware? && ws[0].action.Claim? {
          RecordIff(ws[1..], handler, Check(s, ws[0].action.outcome));
        }
      }
    }
  }

  lemma CheckTells(check: Option<Outcome>)
    ensures Facts(AfterCheck(Open, check)).Some? && Tells(Facts(AfterCheck(Open, check)).value, check)
  {
  }

  /** The event's quota facts are those of the innermost record after its first check. */
  lemma FactsOfInnermost(ws: seq<Wrapper>, handler: Handler, i: nat, s: Slot)
    requires InnermostRecord(ws, i)
    ensures var facts := Facts(Retained(Layers(ws), handler, s));
            facts.Some? && Tells(facts.value, FirstCheck(ws[i + 1..], handler))
  {
    var outer, inner := ws[..i], ws[i + 1..];
    assert ws == outer + ([ws[i]] + inner);
    LayersConcat(outer, [ws[i]] + inner);
    assert ([ws[i]] + inner)[1..] == inner;
    assert Layers(ws) == Layers(outer) + [Operational(true)] + Layers(inner);
    ReachesIff(outer);
    InnermostQuotaDecides(Layers(outer), Layers(inner), handler, s);
    RecordStays(inner, handler, Open);
    CheckTells(FirstCheck(inner, handler));
  }

  // ----- responses

  /** What comes out of a stack, as a status. */
  function StatusOf(ws: seq<Wrapper>, handler: Handler): Option<nat> {
    Status(Answers(Layers(ws), handler, false, 0))
  }

  /** Clear wrappers change no status. */
  lemma {:induction false} ClearKeepsStatus(outer: seq<Wrapper>, inner: seq<Wrapper>, handler: Handler)
    requires AllBefore(outer, |outer|, Clear)
    ensures StatusOf(outer + inner, handler) == StatusOf(inner, handler)
  {
    if |outer| == 0 {
      assert outer + inner == inner;
    } else {
      var rest := outer[1..];
      assert (outer + inner)[1..] == rest + inner;
      assert AllBefore(rest, |rest|, Clear) by {
        assert forall j :: 0 <= j < |rest| ==> rest[j] == outer[j + 1];
      }
      ClearKeepsStatus(rest, inner, handler);
      assert Clear(outer[0]);
      Shapes(outer[0], Layers(rest + inner));
      StatusIgnoresOwner(Layers(rest + inner), handler, true, 0, false, 0);
    }
  }

  /** What one wrapper makes of the status from inside it. */
  ghost predicate Turns(w: Wrapper, inside: Option<nat>, outside: Option<nat>) {
    match w
    case RequestScope(Refuse(status)) => outside == Some(status)
    case RequestAdmission(Refuse(status)) => outside == Some(status)
    case RequestScope(Admit(late)) => outside == if inside.None? then late else inside
    case RequestAdmission(Admit(late)) => outside == if inside.None? then late else inside
    case Middleware(Rewrite(response)) => outside == if inside.None? then None else Some(response.status)
    case Middleware(Answer(response)) => outside == Some(response.status)
    case Middleware(Stall) => outside == None
    case _ => outside == inside
  }

  lemma StatusStep(ws: seq<Wrapper>, handler: Handler)
    requires |ws| > 0
    ensures Turns(ws[0], StatusOf(ws[1..], handler), StatusOf(ws, handler))
  {
    if ws[0].RequestScope? {
      assert Answers(Layers(ws), handler, false, 0) == Answers(Layers(ws)[1..], handler, false, 0);
    }
    Shapes(ws[0], Layers(ws[1..]));
    StatusIgnoresOwner(Layers(ws[1..]), handler, true, 0, false, 0);
  }

  /** Behind clear wrappers, the first other wrapper decides on what comes from inside it. */
  lemma StatusAt(ws: seq<Wrapper>, handler: Handler, i: nat)
    requires i < |ws| && AllBefore(ws, i, Clear)
    ensures Turns(ws[i], StatusOf(ws[i + 1..], handler), StatusOf(ws, handler))
  {
    assert ws == ws[..i] + ws[i..];
    ClearKeepsStatus(ws[..i], ws[i..], handler);
    assert ws[i..][1..] == ws[i + 1..];
    StatusStep(ws[i..], handler);
  }

  lemma StatusOfHandler(ws: seq<Wrapper>, handler: Handler)
    requires AllBefore(ws, |ws|, Clear)
    ensures StatusOf(ws, handler) == Status(handler.response)
  {
    assert ws + [] == ws;
    ClearKeepsStatus(ws, [], handler);
  }

  // ----- a request from outside

  /** No middleware runs a quota check. */
  ghost predicate NoClaims(ws: seq<Wrapper>) {
    forall i :: 0 <= i < |ws| ==> !(ws[i].Middleware? && ws[i].action.Claim?)
  }

  lemma UnclaimedConcat(a: seq<Layer>, b: seq<Layer>)
    ensures Unclaimed(a + b) <==> Unclaimed(a) && Unclaimed(b)
  {
    assert forall i :: 0 <= i < |a| ==> (a + b)[i] == a[i];
    assert forall i :: 0 <= i < |b| ==> (a + b)[|a| + i] == b[i];
  }

  lemma ExpandClaims(w: Wrapper)
    ensures Unclaimed(Expand(w)) <==> !(w.Middleware? && w.action.Claim?)
  {
    if w.Middleware? {
      assert Expand(w)[0] == Application(w.action);
    }
  }

  lemma NoClaimsStep(ws: seq<Wrapper>)
    requires |ws| > 0
    ensures NoClaims(ws) <==> !(ws[0].Middleware? && ws[0].action.Claim?) && NoClaims(ws[1..])
  {
    assert forall i :: 0 <= i < |ws[1..]| ==> ws[1..][i] == ws[i + 1];
  }

  lemma {:induction false} NoClaimsIff(ws: seq<Wrapper>)
    ensures Unclaimed(Layers(ws)) <==> NoClaims(ws)
  {
    if |ws| > 0 {
      NoClaimsIff(ws[1..]);
      UnclaimedConcat(Expand(ws[0]), Layers(ws[1..]));
      ExpandClaims(ws[0]);
      NoClaimsStep(ws);
    }
  }

  /** What a stack does with a request, in terms of its wrappers. */
  lemma StackMeans(ws: seq<Wrapper>, handler: Handler)
    ensures ObserverEntered(Layers(ws)) <==> Enters(ws, Observes)
    ensures OperationalEntered(Layers(ws)) <==> Enters(ws, Identifies)
    ensures OperationalOutside(Layers(ws)) <==> SomeAfter(ws, Identifies, Clear)
    ensures ObserverOutside(Layers(ws)) <==> SomeAfter(ws, Observes, Clear)
    ensures ReachesHandler(Layers(ws)) <==> AllBefore(ws, |ws|, Forwards)
    ensures AdmittedInside(Layers(ws), false) <==> AdmittedWithin(ws)
    ensures Unclaimed(Layers(ws)) <==> NoClaims(ws)
    ensures Retained(Layers(ws), handler, Absent) == Absent <==> !Enters(ws, Records)
  {
    ObserverEnteredIff(ws);
    OperationalEnteredIff(ws);
    OperationalOutsideIff(ws);
    ObserverOutsideIff(ws);
    ReachesIff(ws);
    AdmittedInsideIff(ws, false);
    NoClaimsIff(ws);
    RecordIff(ws, handler, Absent);
  }

  /** The completion event of a request that entered an observing wrapper. */
  ghost predicate EventFor(e: Event, ws: seq<Wrapper>, handler: Handler, resp: Option<Response>, seen: Seen, id: Id) {
    && e.id == (if Enters(ws, Identifies) then Some(id) else None)
    && (SomeAfter(ws, Observes, Clear) ==> e.status == Status(resp))
    && (seen.Reached? && (seen.record != null || NoClaims(ws)) ==> e.record == seen.record)
    && (e.facts.Some? <==> Enters(ws, Records))
    && (forall i: nat :: InnermostRecord(ws, i) ==>
          e.facts.Some? && Tells(e.facts.value, FirstCheck(ws[i + 1..], handler)))
  }

  /** A request that arrives with none of Batter's extensions: it causes exactly one
      completion event if it enters an observing wrapper and none otherwise. */
  method ServeArriving(server: Server, ws: seq<Wrapper>, handler: Handler)
    returns (resp: Option<Response>, ghost seen: Seen)
    modifies server
    ensures |server.events| == |old(server.events)| + (if Enters(ws, Observes) then 1 else 0)
    ensures server.events[..|old(server.events)|] == old(server.events)
    ensures seen.Reached? <==> AllBefore(ws, |ws|, Forwards)
    ensures seen.Reached? ==> seen.admitted == if AdmittedWithin(ws) then Some(old(server.nextId)) else None
    ensures Status(resp) == StatusOf(ws, handler)
    ensures resp.Some? && SomeAfter(ws, Identifies, Clear) ==> resp.value.requestId == Some(old(server.nextId))
    ensures Enters(ws, Observes) ==>
              EventFor(server.events[|old(server.events)|], ws, handler, resp, seen, old(server.nextId))
    ensures server.nextId == old(server.nextId) + if Enters(ws, Identifies) then 1 else 0
  {
    ghost var id := server.nextId;
    resp, seen := Serve(server, Layers(ws), handler, Request(null, null, None, None, None));
    OutsideIsEntered(Layers(ws));
    StackMeans(ws, handler);
    StatusIgnoresOwner(Layers(ws), handler, false, id, false, 0);
    forall i: nat | InnermostRecord(ws, i)
      ensures var facts := Facts(Retained(Layers(ws), handler, Absent));
              facts.Some? && Tells(facts.value, FirstCheck(ws[i + 1..], handler))
    {
      FactsOfInnermost(ws, handler, i, Absent);
    }
  }
}
