/** HTTP wrapper nesting of crates/batter-axum: observation.rs, correlation.rs,
    quota_observation.rs and the admission wrappers of low_level.rs.

    The request's private extensions are references to shared records, as in the
    source. A layer carries how the runtime treats it: whether admission rejects,
    and what it answers if the work inside it never finishes. */
module HttpLayers {
  import opened Bytes

  type Id = nat

  // ----- retained quota facts

  datatype Consumption = Consumed | NotConsumed | Unknown

  datatype QuotaFacts =
    | NotChecked | Unresolved | Allowed | ShadowDenied | QuotaDenied | StorageCapacity | OtherDenial
    | BackendFailed(consumption: Consumption)

  datatype TerminalFacts =
    | AllowedFact | ShadowDeniedFact | QuotaDeniedFact | StorageCapacityFact | OtherDenialFact
    | BackendFailedFact(consumption: Consumption)

  function FromTerminal(t: TerminalFacts): QuotaFacts {
    match t
    case AllowedFact => Allowed
    case ShadowDeniedFact => ShadowDenied
    case QuotaDeniedFact => QuotaDenied
    case StorageCapacityFact => StorageCapacity
    case OtherDenialFact => OtherDenial
    case BackendFailedFact(c) => BackendFailed(c)
  }

  class QuotaObservation {
    var facts: QuotaFacts
    var writerTaken: bool

    constructor ()
      ensures facts == NotChecked && !writerTaken
    {
      facts, writerTaken := NotChecked, false;
    }

    /** `QuotaRecorder::take`: one claim ever, whichever clone of the request makes it. */
    method Take() returns (claimed: bool)
      modifies this
      ensures claimed <==> !old(writerTaken)
      ensures writerTaken && facts == old(facts)
    {
      claimed := !writerTaken;
      writerTaken := true;
    }

    /** `QuotaRecorder::start`, then `finish` if the check completed. */
    method Check(finish: Option<TerminalFacts>)
      modifies this
      ensures facts == (match finish case None => Unresolved case Some(t) => FromTerminal(t))
      ensures writerTaken == old(writerTaken)
    {
      facts := Unresolved;
      if finish.Some? {
        facts := FromTerminal(finish.value);
      }
    }
  }

  // ----- requests, responses and events

  /** The facts the outermost observer will report. */
  class ObservationState {
    var quota: QuotaObservation?
    var correlation: Option<Id>

    constructor (quota: QuotaObservation?, correlation: Option<Id>)
      ensures this.quota == quota && this.correlation == correlation
    {
      this.quota, this.correlation := quota, correlation;
    }
  }

  /** The extensions that Batter's wrappers read and write. */
  datatype Request = Request(
    observation: ObservationState?,
    quota: QuotaObservation?,
    operational: Option<Id>,
    correlation: Option<Id>,
    admitted: Option<Id>)

  datatype Response = Response(status: nat, requestId: Option<Id>)

  /** A completion event: its request id, the quota record it read and the facts it found. */
  datatype Event = Event(id: Option<Id>, record: QuotaObservation?, facts: Option<QuotaFacts>, status: Option<nat>)

  class Server {
    var events: seq<Event>
    var nextId: Id

    constructor ()
      ensures events == []
    {
      events, nextId := [], 0;
    }
  }

  // ----- layers

  /** Admission refuses with a rendered response, or admits; `late` is what it renders if
      the work inside is interrupted, and None if the whole request is dropped instead. */
  datatype Decision = Refuse(status: nat) | Admit(late: Option<nat>)

  /** A native quota check: the terminal fact, or None if it never finished. */
  type Outcome = Option<TerminalFacts>

  /** An application middleware passes the request on, runs a quota check first, replaces
      the response on the way out, answers itself, or never finishes. */
  datatype Action = Pass | Claim(outcome: Outcome) | Rewrite(response: Response) | Answer(response: Response) | Stall

  datatype Layer =
    | Observer
    | Operational(quota: bool)
    | Admission(decision: Decision)
    | Application(action: Action)

  /** The handler may run a quota check, and responds unless it never finishes. */
  datatype Handler = Handler(check: Option<Outcome>, response: Option<Response>)

  // ----- what a stack of layers should do, from the layers alone

  /** The request gets past a layer to what is inside it. */
  predicate Passes(l: Layer) {
    match l
    case Observer => true
    case Operational(_) => true
    case Admission(d) => d.Admit?
    case Application(a) => a.Pass? || a.Claim? || a.Rewrite?
  }

  /** The layer lets everything through as it is, both ways. */
  predicate Transparent(l: Layer) {
    l.Observer? || l.Operational? || (l.Application? && (l.action.Pass? || l.action.Claim?))
  }

  predicate ReachesHandler(ls: seq<Layer>) {
    forall i :: 0 <= i < |ls| ==> Passes(ls[i])
  }

  /** Some operational wrapper is entered. */
  predicate OperationalEntered(ls: seq<Layer>) {
    |ls| > 0 && (ls[0].Operational? || (Passes(ls[0]) && OperationalEntered(ls[1..])))
  }

  /** Some observing wrapper is entered. */
  predicate ObserverEntered(ls: seq<Layer>) {
    |ls| > 0 && (ls[0].Observer? || ls[0].Operational? || (Passes(ls[0]) && ObserverEntered(ls[1..])))
  }

  /** An operational wrapper is outside all admission and everything else that can reject or
      rewrite. */
  predicate OperationalOutside(ls: seq<Layer>) {
    |ls| > 0 && (ls[0].Operational? || (Transparent(ls[0]) && OperationalOutside(ls[1..])))
  }

  /** An observing wrapper is outside everything that can reject or rewrite. */
  predicate ObserverOutside(ls: seq<Layer>) {
    |ls| > 0 && (ls[0].Observer? || ls[0].Operational?
                 || (Transparent(ls[0]) && ObserverOutside(ls[1..])))
  }

  /** The innermost admission is inside an operational wrapper. */
  predicate AdmittedInside(ls: seq<Layer>, operational: bool) {
    |ls| > 0 && (AdmittedInside(ls[1..], operational || ls[0].Operational?) || (ls[0].Admission? && operational))
  }

  predicate Unclaimed(ls: seq<Layer>) {
    forall i :: 0 <= i < |ls| ==> !(ls[i].Application? && ls[i].action.Claim?)
  }

  /** The record an observer would read: none, one that is still to be claimed, or one
      whose single writer has been claimed. */
  datatype Slot = Absent | Open | Written(facts: QuotaFacts)

  function Facts(s: Slot): Option<QuotaFacts> {
    match s
    case Absent => None
    case Open => Some(NotChecked)
    case Written(f) => Some(f)
  }

  function Check(s: Slot, outcome: Outcome): Slot {
    if !s.Open? then s else Written(match outcome case None => Unresolved case Some(t) => FromTerminal(t))
  }

  /** The innermost quota wrapper decides the record, and the first check inside it the facts. */
  function Retained(ls: seq<Layer>, handler: Handler, s: Slot): Slot {
    if ls == [] then (match handler.check case None => s case Some(outcome) => Check(s, outcome))
    else match ls[0]
      case Operational(quota) => Retained(ls[1..], handler, if quota then Open else s)
      case Application(Claim(outcome)) => Retained(ls[1..], handler, Check(s, outcome))
      case l => if Passes(l) then Retained(ls[1..], handler, s) else s
  }

  /** The id a request ends up with inside these layers. */
  function FinalId(ls: seq<Layer>, req: Request, next: Id): Option<Id> {
    if req.operational.None? && OperationalEntered(ls) then Some(next) else req.correlation
  }

  function WithId(resp: Option<Response>, id: Id): Option<Response> {
    match resp case None => None case Some(r) => Some(r.(requestId := Some(id)))
  }

  /** The response that leaves a stack of layers; the outermost operational wrapper stamps
      `id` on whatever comes out of it. */
  function Answers(ls: seq<Layer>, handler: Handler, operational: bool, id: Id): Option<Response> {
    if ls == [] then handler.response
    else match ls[0]
      case Observer => Answers(ls[1..], handler, operational, id)
      case Operational(_) =>
        var inner := Answers(ls[1..], handler, true, id);
        if operational then inner else WithId(inner, id)
      case Admission(Refuse(status)) => Some(Response(status, None))
      case Admission(Admit(late)) =>
        (match (Answers(ls[1..], handler, operational, id), late)
         case (None, Some(status)) => Some(Response(status, None))
         case (inner, _) => inner)
      case Application(Pass) => Answers(ls[1..], handler, operational, id)
      case Application(Claim(_)) => Answers(ls[1..], handler, operational, id)
      case Application(Rewrite(response)) =>
        if Answers(ls[1..], handler, operational, id).None? then None else Some(response)
      case Application(Answer(response)) => Some(response)
      case Application(Stall) => None
  }

  /** Inside the owner of the id, nothing stamps another one. */
  lemma {:induction false} OneOwner(ls: seq<Layer>, handler: Handler, a: Id, b: Id)
    ensures Answers(ls, handler, true, a) == Answers(ls, handler, true, b)
  {
    if ls != [] {
      OneOwner(ls[1..], handler, a, b);
    }
  }

  function Status(resp: Option<Response>): Option<nat> {
    match resp case None => None case Some(r) => Some(r.status)
  }

  // ----- what a request carries on its way in, and what serving it promises

  /** The observation reads the record the request can claim, and the request's id. */
  ghost predicate Agrees(req: Request)
    reads req.observation, req.quota
  {
    && (req.quota != null ==> req.quota.facts == NotChecked && !req.quota.writerTaken)
    && (req.observation != null ==>
          && req.observation.correlation == req.correlation
          && (req.quota != null ==> req.observation.quota == req.quota)
          && (req.operational.None? ==> req.observation.quota == null))
    && (req.operational.None? ==> req.quota == null && req.admitted.None?)
    && (req.operational.Some? ==> req.correlation == req.operational)
    && (req.admitted.Some? ==> req.admitted == req.operational)
  }

  /** Between layers, whoever owns the request's id also has it observed. */
  ghost predicate Consistent(req: Request)
    reads req.observation, req.quota
  {
    Agrees(req) && (req.operational.Some? ==> req.observation != null)
  }

  /** What an observer of this request would find now. */
  ghost function SlotOf(req: Request): Slot
    reads req.observation, if req.observation == null then null else req.observation.quota
  {
    if req.quota != null then Open
    else if req.observation == null || req.observation.quota == null then Absent
    else Written(req.observation.quota.facts)
  }

  /** What the handler saw, if the request reached it. */
  datatype Seen = Nothing | Reached(record: QuotaObservation?, admitted: Option<Id>)

  /** The facts found in a record. */
  ghost function FactsOf(record: QuotaObservation?): Option<QuotaFacts>
    reads record
  {
    if record == null then None else Some(record.facts)
  }

  /** What the handler is handed. */
  ghost predicate HandlerSees(ls: seq<Layer>, req: Request, id: Option<Id>, seen: Seen) {
    && (seen.Reached? <==> ReachesHandler(ls))
    && (seen.Reached? ==>
          seen.admitted == if req.admitted.Some? || AdmittedInside(ls, req.operational.Some?) then id else None)
  }

  /** The handler's record is the one the observer reads. */
  ghost predicate SharesRecord(ls: seq<Layer>, s: Slot, seen: Seen, record: QuotaObservation?) {
    seen.Reached? && (seen.record != null || (Unclaimed(ls) && !s.Written?)) ==> record == seen.record
  }

  twostate predicate Served(
    server: Server, ls: seq<Layer>, handler: Handler, req: Request, new resp: Option<Response>, new seen: Seen)
    reads *
  {
    var id := FinalId(ls, req, old(server.nextId));
    var s := old(SlotOf(req));
    && server.nextId == old(server.nextId) + (if req.operational.None? && OperationalEntered(ls) then 1 else 0)
    && HandlerSees(ls, req, id, seen)
    && resp == Answers(ls, handler, req.operational.Some?, old(server.nextId))
    && (seen.Reached? && seen.record != null ==> seen.record == req.quota || fresh(seen.record))
    && (resp.Some? && req.operational.None? && OperationalOutside(ls) ==> resp.value.requestId == id)
    && (if req.observation != null then
          && server.events == old(server.events)
          && req.observation.correlation == id
          && SharesRecord(ls, s, seen, req.observation.quota)
          && FactsOf(req.observation.quota) == Facts(Retained(ls, handler, s))
        else if ObserverEntered(ls) then
          && |server.events| == |old(server.events)| + 1
          && var e := server.events[|old(server.events)|];
             && server.events == old(server.events) + [e]
             && e.id == id
             && SharesRecord(ls, s, seen, e.record)
             && e.facts == Facts(Retained(ls, handler, s))
             && (ObserverOutside(ls) ==> e.status == Status(resp))
        else
          server.events == old(server.events))
  }

  // ----- serving

  /** A claim takes the record out of the request and writes through it at most once. */
  method ClaimAndCheck(req: Request, outcome: Outcome) returns (rest: Request)
    modifies req.quota
    ensures rest == req.(quota := null)
    ensures req.quota != null && !old(req.quota.writerTaken) ==>
              Some(req.quota.facts) == Facts(Check(Open, outcome))
    ensures req.quota != null && old(req.quota.writerTaken) ==> req.quota.facts == old(req.quota.facts)
  {
    if req.quota != null {
      var claimed := req.quota.Take();
      if claimed {
        req.quota.Check(outcome);
      }
    }
    rest := req.(quota := null);
  }

  method Serve(server: Server, ls: seq<Layer>, handler: Handler, req: Request)
    returns (resp: Option<Response>, ghost seen: Seen)
    requires Consistent(req)
    modifies server, req.observation, req.quota
    ensures Served(server, ls, handler, req, resp, seen)
    decreases |ls|, 1
  {
    if ls == [] {
      seen := Reached(req.quota, req.admitted);
      if handler.check.Some? {
        var _ := ClaimAndCheck(req, handler.check.value);
      }
      resp := handler.response;
      return;
    }
    var rest := ls[1..];
    assert ls == [ls[0]] + rest;
    match ls[0]
    case Observer => resp, seen := Observe(server, rest, handler, req);
    case Operational(quota) => resp, seen := Operate(server, quota, rest, handler, req);
    case Admission(decision) => resp, seen := AdmitRequest(server, decision, rest, handler, req);
    case Application(action) => resp, seen := Apply(server, action, rest, handler, req);
  }

  method Apply(server: Server, action: Action, rest: seq<Layer>, handler: Handler, req: Request)
    returns (resp: Option<Response>, ghost seen: Seen)
    requires Consistent(req)
    modifies server, req.observation, req.quota
    ensures Served(server, [Application(action)] + rest, handler, req, resp, seen)
    decreases |rest|, 3
  {
    ghost var ls := [Application(action)] + rest;
    assert ls[1..] == rest;
    match action
    case Pass =>
      resp, seen := Serve(server, rest, handler, req);
    case Claim(outcome) =>
      resp, seen := ClaimThen(server, outcome, rest, handler, req);
    case Rewrite(response) =>
      resp, seen := Serve(server, rest, handler, req);
      if resp.Some? {
        resp := Some(response);
      }
    case Answer(response) => resp, seen := Some(response), Nothing;
    case Stall => resp, seen := None, Nothing;
  }

  method ClaimThen(server: Server, outcome: Outcome, rest: seq<Layer>, handler: Handler, req: Request)
    returns (resp: Option<Response>, ghost seen: Seen)
    requires Consistent(req)
    modifies server, req.observation, req.quota
    ensures Served(server, [Application(Claim(outcome))] + rest, handler, req, resp, seen)
    decreases |rest|, 2
  {
    assert ([Application(Claim(outcome))] + rest)[1..] == rest;
    var claimed := ClaimAndCheck(req, outcome);
    resp, seen := Serve(server, rest, handler, claimed);
  }

  /** `observe_response`: only a request without an observation gets one, and its guard
      emits the completion event however the inside ends. */
  method Observe(server: Server, rest: seq<Layer>, handler: Handler, req: Request)
    returns (resp: Option<Response>, ghost seen: Seen)
    requires Agrees(req)
    modifies server, req.observation, req.quota
    ensures Served(server, [Observer] + rest, handler, req, resp, seen)
    decreases |rest|, 2
  {
    assert ([Observer] + rest)[1..] == rest;
    if req.observation != null {
      resp, seen := Serve(server, rest, handler, req);
      return;
    }
    var state := new ObservationState(req.quota, req.correlation);
    resp, seen := Serve(server, rest, handler, req.(observation := state));
    var facts := if state.quota == null then None else Some(state.quota.facts);
    server.events := server.events + [Event(state.correlation, state.quota, facts, Status(resp))];
  }

  /** `request_admission_inner`: refuse, or run the inside and answer for it if late. */
  method AdmitRequest(server: Server, decision: Decision, rest: seq<Layer>, handler: Handler, req: Request)
    returns (resp: Option<Response>, ghost seen: Seen)
    requires Consistent(req)
    modifies server, req.observation, req.quota
    ensures Served(server, [Admission(decision)] + rest, handler, req, resp, seen)
    decreases |rest|, 2
  {
    assert ([Admission(decision)] + rest)[1..] == rest;
    match decision
    case Refuse(status) => resp, seen := Some(Response(status, None)), Nothing;
    case Admit(late) =>
      resp, seen := Serve(server, rest, handler, req.(admitted := req.operational));
      if resp.None? && late.Some? {
        resp := Some(Response(late.value, None));
      }
  }

  /** `operational_http_inner`. */
  method Operate(server: Server, quota: bool, rest: seq<Layer>, handler: Handler, req: Request)
    returns (resp: Option<Response>, ghost seen: Seen)
    requires Consistent(req)
    modifies server, req.observation, req.quota
    ensures Served(server, [Operational(quota)] + rest, handler, req, resp, seen)
    decreases |rest|, 3
  {
    assert ([Operational(quota)] + rest)[1..] == rest;
    var req := req;
    if quota {
      var record := new QuotaObservation();
      if req.observation != null {
        req.observation.quota := record;
      }
      req := req.(quota := record);
    }
    if req.operational.Some? {
      resp, seen := Serve(server, rest, handler, req);
      return;
    }
    if !quota {
      req := req.(quota := null);
    }
    var id := server.nextId;
    server.nextId := id + 1;
    req := req.(correlation := Some(id), operational := Some(id));
    OneOwner(rest, handler, id, id + 1);
    if req.observation != null {
      req.observation.correlation := Some(id);
      resp, seen := Serve(server, rest, handler, req);
    } else {
      resp, seen := Observe(server, rest, handler, req);
    }
    if resp.Some? {
      resp := Some(resp.value.(requestId := Some(id)));
    }
  }

  // ----- what the layers amount to

  /** Whatever was recorded outside it, the innermost quota wrapper that is entered starts
      the record the event reports. */
  lemma {:induction false} InnermostQuotaDecides(outer: seq<Layer>, inner: seq<Layer>, handler: Handler, s: Slot)
    requires ReachesHandler(outer)
    ensures Retained(outer + [Operational(true)] + inner, handler, s) == Retained(inner, handler, Open)
    decreases |outer|
  {
    var ls := outer + [Operational(true)] + inner;
    if outer == [] {
      assert ls[1..] == inner;
    } else {
      var rest := outer[1..];
      assert ls[1..] == rest + [Operational(true)] + inner;
      forall t: Slot ensures Retained(ls[1..], handler, t) == Retained(inner, handler, Open) {
        InnermostQuotaDecides(rest, inner, handler, t);
      }
    }
  }

  /** No quota wrapper, no quota facts. */
  lemma {:induction false} NoQuotaNoFacts(ls: seq<Layer>, handler: Handler)
    requires forall i :: 0 <= i < |ls| ==> ls[i] != Operational(true)
    ensures Retained(ls, handler, Absent) == Absent
  {
    if ls != [] {
      NoQuotaNoFacts(ls[1..], handler);
    }
  }

  lemma OutsideIsEntered(ls: seq<Layer>)
    ensures OperationalOutside(ls) ==> OperationalEntered(ls)
    ensures ReachesHandler(ls) && AdmittedInside(ls, false) ==> OperationalEntered(ls)
  {
  }

  /** Who owns the id does not matter for the status. */
  lemma {:induction false} StatusIgnoresOwner(ls: seq<Layer>, handler: Handler, a: bool, i: Id, b: bool, j: Id)
    ensures Status(Answers(ls, handler, a, i)) == Status(Answers(ls, handler, b, j))
  {
    if ls != [] {
      var rest := ls[1..];
      StatusIgnoresOwner(rest, handler, a, i, b, j);
      StatusIgnoresOwner(rest, handler, true, i, true, j);
    }
  }

  /** `renderer_parts`: the private extensions are removed; the public id stays. */
  function RendererParts(req: Request): Request {
    Request(null, null, None, req.correlation, None)
  }

  /** A renderer that runs its own stack of layers on the metadata it was given cannot
      reach the original request's observation or quota record, and is not admitted by it. */
  method ServeFromRenderer(server: Server, ls: seq<Layer>, handler: Handler, original: Request)
    returns (resp: Option<Response>, ghost seen: Seen)
    modifies server
    ensures original.observation != null ==> unchanged(original.observation)
    ensures original.quota != null ==> unchanged(original.quota)
    ensures |server.events| == |old(server.events)| + (if ObserverEntered(ls) then 1 else 0)
    ensures seen.Reached? && seen.record != null ==> fresh(seen.record)
    ensures seen.Reached? && !AdmittedInside(ls, false) ==> seen.admitted.None?
  {
    resp, seen := Serve(server, ls, handler, RendererParts(original));
  }
}
