/** The incremental evidence parser of test-support/process/evidence.rs. */
module EvidenceRecords {
  import opened Bytes
  import opened Lines
  import opened Utf8

  const OUTPUT_LIMIT: nat := 64 * 1024
  const EVENT_LIMIT: nat := 64

  /** "batter-fixture:" */
  const EVENT_PREFIX: Bytes := [98, 97, 116, 116, 101, 114, 45, 102, 105, 120, 116, 117, 114, 101, 58]

  predicate IsPrefix(p: Bytes, b: Bytes) {
    |p| <= |b| && forall k :: 0 <= k < |p| ==> b[k] == p[k]
  }

  /** What follows `prefix` on a line given without its newline, if that is a name. */
  function NameAfter(prefix: Bytes, line: Bytes): Option<Bytes> {
    var end := if |line| > 0 && line[|line| - 1] == RETURN then |line| - 1 else |line|;
    if end > |prefix| && IsPrefix(prefix, line) && IsUtf8(Sub(line, |prefix|, end), 0)
    then Some(Sub(line, |prefix|, end)) else None
  }

  /** The event name on a line given without its newline, if it carries one. */
  function NameOn(line: Bytes): Option<Bytes> {
    NameAfter(EVENT_PREFIX, line)
  }

  /** The prefix, a nonempty valid name and at most one carriage return after it. */
  ghost predicate Carries(prefix: Bytes, line: Bytes, name: Bytes) {
    && |name| > 0 && IsUtf8(name, 0)
    && (line == prefix + name + [RETURN] || (line == prefix + name && name[|name| - 1] != RETURN))
  }

  lemma NameIsCarried(prefix: Bytes, line: Bytes)
    requires NameAfter(prefix, line).Some?
    ensures Carries(prefix, line, NameAfter(prefix, line).value)
  {
    var name := NameAfter(prefix, line).value;
    if line[|line| - 1] == RETURN {
      assert line == prefix + name + [RETURN];
    } else {
      assert line == prefix + name;
    }
  }

  lemma CarriedIsName(prefix: Bytes, line: Bytes, name: Bytes)
    requires Carries(prefix, line, name)
    ensures NameAfter(prefix, line) == Some(name)
  {
    var end := |prefix| + |name|;
    assert Sub(line, |prefix|, end) == name;
  }

  /** A line names an event exactly when it carries one. */
  lemma NameOnIff(line: Bytes, name: Bytes)
    ensures NameOn(line) == Some(name) <==> Carries(EVENT_PREFIX, line, name)
  {
    if NameOn(line).Some? {
      NameIsCarried(EVENT_PREFIX, line);
    }
    if Carries(EVENT_PREFIX, line, name) {
      CarriedIsName(EVENT_PREFIX, line, name);
    }
  }

  // ----- the batch parse

  /** A name and the position of the newline that completed its line. */
  datatype Named = Named(name: Bytes, at: nat)

  type Naming = Bytes -> Option<Bytes>

  function RecordFor(name: Option<Bytes>, at: nat): seq<Named> {
    match name case Some(n) => [Named(n, at)] case None => []
  }

  /** The events on the complete lines of b[..p], for any way of naming lines. */
  function RecordsTo(naming: Naming, b: Bytes, p: nat): seq<Named>
    requires IsLineStart(b, p)
  {
    if p == 0 then []
    else
      var q := StartOf(b, p - 1);
      RecordsTo(naming, b, q) + RecordFor(naming(Sub(b, q, p - 1)), p - 1)
  }

  predicate HasName(rs: seq<Named>, name: Bytes) {
    |rs| > 0 && (rs[|rs| - 1].name == name || HasName(rs[..|rs| - 1], name))
  }

  lemma {:induction false} HasNameAt(rs: seq<Named>, name: Bytes)
    ensures HasName(rs, name) <==> exists k :: 0 <= k < |rs| && rs[k].name == name
  {
    if |rs| > 0 {
      var front := rs[..|rs| - 1];
      HasNameAt(front, name);
      if HasName(front, name) {
        var k :| 0 <= k < |front| && front[k].name == name;
        assert rs[k].name == name;
      }
      if k :| 0 <= k < |rs| - 1 && rs[k].name == name {
        assert front[k].name == name;
      }
    }
  }

  /** The first occurrence of each name. */
  function Firsts(rs: seq<Named>): seq<Named> {
    if rs == [] then []
    else
      var last, fs := rs[|rs| - 1], Firsts(rs[..|rs| - 1]);
      if HasName(fs, last.name) then fs else fs + [last]
  }

  lemma HasNameAppend(rs: seq<Named>, last: Named, name: Bytes)
    ensures HasName(rs + [last], name) <==> HasName(rs, name) || name == last.name
  {
    assert (rs + [last])[..|rs|] == rs;
  }

  lemma FirstsStep(rs: seq<Named>, last: Named)
    ensures Firsts(rs + [last]) == if HasName(Firsts(rs), last.name) then Firsts(rs) else Firsts(rs) + [last]
  {
    assert (rs + [last])[..|rs|] == rs;
  }

  /** Keeping first occurrences keeps exactly the names, each once. */
  lemma {:induction false} FirstsKeepNames(rs: seq<Named>, name: Bytes)
    ensures HasName(Firsts(rs), name) <==> HasName(rs, name)
  {
    if rs != [] {
      var front, last := rs[..|rs| - 1], rs[|rs| - 1];
      assert rs == front + [last];
      FirstsKeepNames(front, name);
      FirstsKeepNames(front, last.name);
      HasNameAppend(front, last, name);
      HasNameAppend(Firsts(front), last, name);
    }
  }

  // ----- appending bytes

  lemma {:induction false} StartOfLine(b: Bytes, p: nat, k: nat)
    requires p <= k <= |b| && IsLineStart(b, p) && forall m :: p <= m < k ==> b[m] != NEWLINE
    ensures StartOf(b, k) == p
    decreases k
  {
    if p < k {
      StartOfLine(b, p, k - 1);
    }
  }

  /** The first records after a line with or without a name. */
  function AddLine(fs: seq<Named>, name: Option<Bytes>, at: nat): seq<Named> {
    match name case Some(n) => if HasName(fs, n) then fs else fs + [Named(n, at)] case None => fs
  }

  /** The first occurrence of each name, collected line by line. */
  function FirstsTo(naming: Naming, b: Bytes, p: nat): seq<Named>
    requires IsLineStart(b, p)
  {
    if p == 0 then []
    else
      var q := StartOf(b, p - 1);
      AddLine(FirstsTo(naming, b, q), naming(Sub(b, q, p - 1)), p - 1)
  }

  lemma FirstsAfter(rs: seq<Named>, name: Option<Bytes>, at: nat)
    ensures Firsts(rs + RecordFor(name, at)) == AddLine(Firsts(rs), name, at)
  {
    match name
    case Some(n) => FirstsStep(rs, Named(n, at));
    case None => assert rs + [] == rs;
  }

  /** Collecting line by line is the batch: all records first, then first occurrences. */
  lemma {:induction false} FirstsToIsBatch(naming: Naming, b: Bytes, p: nat)
    requires IsLineStart(b, p)
    ensures FirstsTo(naming, b, p) == Firsts(RecordsTo(naming, b, p))
  {
    if p != 0 {
      var q := StartOf(b, p - 1);
      FirstsToIsBatch(naming, b, q);
      FirstsAfter(RecordsTo(naming, b, q), naming(Sub(b, q, p - 1)), p - 1);
    }
  }

  lemma {:induction false} FirstsExtend(naming: Naming, b: Bytes, more: Bytes, p: nat)
    requires IsLineStart(b, p)
    ensures IsLineStart(b + more, p) && FirstsTo(naming, b + more, p) == FirstsTo(naming, b, p)
  {
    if p != 0 {
      StartOfExtend(b, more, p - 1);
      var q := StartOf(b, p - 1);
      SliceExtend(b, more, q, p - 1);
      FirstsExtend(naming, b, more, q);
    }
  }

  lemma FirstsNext(naming: Naming, b: Bytes, p: nat, newline: nat)
    requires p <= newline < |b| && IsLineStart(b, p) && b[newline] == NEWLINE
    requires forall m :: p <= m < newline ==> b[m] != NEWLINE
    ensures IsLineStart(b, newline + 1)
    ensures FirstsTo(naming, b, newline + 1)
         == AddLine(FirstsTo(naming, b, p), naming(Sub(b, p, newline)), newline)
  {
    StartOfLine(b, p, newline);
  }

  /** Where the complete lines of `b` end. */
  function Boundary(b: Bytes): nat {
    StartOf(b, |b|)
  }

  /** The batch parse: the first occurrence of every valid name on a complete line. */
  function Parse(b: Bytes): seq<Named> {
    Firsts(RecordsTo(NameOn, b, Boundary(b)))
  }

  /** `fs` are the first records of the complete lines before `p`, given on request. */
  ghost predicate FirstRecords(naming: Naming, bytes: Bytes, p: nat, fs: seq<Named>) {
    && IsLineStart(bytes, p)
    && forall n {:trigger Requested(n)} :: Requested(n) && n == p ==> fs == FirstsTo(naming, bytes, n)
  }

  /** Names a position; `FirstRecords` unfolds the parse only for a position that is named. */
  predicate Requested(n: nat) {
    true
  }

  lemma FirstRecordsNext(naming: Naming, b: Bytes, p: nat, newline: nat, fs: seq<Named>, name: Option<Bytes>)
    requires p <= newline < |b| && b[newline] == NEWLINE && forall m :: p <= m < newline ==> b[m] != NEWLINE
    requires FirstRecords(naming, b, p, fs) && name == naming(Sub(b, p, newline))
    ensures FirstRecords(naming, b, newline + 1, AddLine(fs, name, newline))
  {
    assert Requested(p);
    FirstsNext(naming, b, p, newline);
  }
}

module Evidence {
  import opened Bytes
  import opened Lines
  import opened EvidenceRecords

  datatype CaptureLimit = ByteLimit | EventLimit

  /** An event's name as a range of the retained bytes. */
  datatype Event = Event(start: nat, end: nat, observedAt: int)

  predicate Named?(bytes: Bytes, e: Event, name: Bytes) {
    e.start <= e.end <= |bytes| && Sub(bytes, e.start, e.end) == name
  }

  /** The stored events are the first records, each with its newline's arrival time. */
  ghost predicate Stored(bytes: Bytes, events: seq<Event>, fs: seq<Named>, arrival: seq<int>) {
    && |events| == Min(|fs|, EVENT_LIMIT)
    && forall k :: 0 <= k < |events| ==>
                     && Named?(bytes, events[k], fs[k].name)
                     && fs[k].at < |arrival| && events[k].observedAt == arrival[fs[k].at]
  }

  function FindNewline(b: Bytes, i: nat): (r: Option<nat>)
    requires i <= |b|
    ensures r.Some? ==> i <= r.value < |b| && b[r.value] == NEWLINE && forall m :: i <= m < r.value ==> b[m] != NEWLINE
    ensures r.None? ==> forall m :: i <= m < |b| ==> b[m] != NEWLINE
    decreases |b| - i
  {
    if i == |b| then None else if b[i] == NEWLINE then Some(i) else FindNewline(b, i + 1)
  }

  predicate Known(bytes: Bytes, events: seq<Event>, name: Bytes) {
    exists k :: 0 <= k < |events| && Named?(bytes, events[k], name)
  }

  /** A name is among the stored events exactly when it is among the first records kept. */
  lemma KnownIsStored(bytes: Bytes, events: seq<Event>, fs: seq<Named>, arrival: seq<int>, name: Bytes)
    requires Stored(bytes, events, fs, arrival)
    ensures Known(bytes, events, name) <==> HasName(fs[..|events|], name)
  {
    HasNameAt(fs[..|events|], name);
    if Known(bytes, events, name) {
      var k :| 0 <= k < |events| && Named?(bytes, events[k], name);
      assert fs[..|events|][k].name == name;
    }
    if HasName(fs[..|events|], name) {
      var k :| 0 <= k < |events| && fs[..|events|][k].name == name;
      assert Named?(bytes, events[k], name);
    }
  }

  lemma NameAt(bytes: Bytes, p: nat, newline: nat)
    requires p <= newline <= |bytes| && NameOn(Sub(bytes, p, newline)).Some?
    ensures var name, start := NameOn(Sub(bytes, p, newline)).value, p + |EVENT_PREFIX|;
            Named?(bytes, Event(start, start + |name|, 0), name)
  {
  }

  /** The stored events and the flag after the records `fs`, starting from `before`. */
  ghost predicate Parsed(bytes: Bytes, events: seq<Event>, fs: seq<Named>, arrival: seq<int>,
                         before: Option<CaptureLimit>, now: Option<CaptureLimit>)
  {
    && Stored(bytes, events, fs, arrival)
    && now == (if before.None? && |fs| > EVENT_LIMIT then Some(EventLimit) else before)
  }

  /** The loop body on a line that names an event: past 64 names only the flag changes. */
  method OnRecord(bytes: Bytes, events: seq<Event>, exceeded: Option<CaptureLimit>, name: Bytes, e: Event,
                  ghost fs: seq<Named>, ghost at: nat, ghost arrival: seq<int>, ghost before: Option<CaptureLimit>)
    returns (events': seq<Event>, exceeded': Option<CaptureLimit>)
    requires Parsed(bytes, events, fs, arrival, before, exceeded)
    requires Named?(bytes, e, name) && at < |arrival| && e.observedAt == arrival[at]
    ensures Parsed(bytes, events', AddLine(fs, Some(name), at), arrival, before, exceeded')
  {
    events', exceeded' := events, exceeded;
    KnownIsStored(bytes, events, fs, arrival, name);
    HasNameFront(fs, |events|, name);
    assert |fs| <= EVENT_LIMIT ==> fs[..|events|] == fs;
    if !Known(bytes, events, name) {
      if |events| == EVENT_LIMIT {
        exceeded' := if exceeded.Some? then exceeded else Some(EventLimit);
      } else {
        events' := events + [e];
      }
    }
  }

  lemma HasNameFront(fs: seq<Named>, n: nat, name: Bytes)
    requires n <= |fs|
    ensures HasName(fs[..n], name) ==> HasName(fs, name)
  {
    HasNameAt(fs[..n], name);
    HasNameAt(fs, name);
    if k :| 0 <= k < n && fs[..n][k].name == name {
      assert fs[k].name == name;
    }
  }

  /** The name on one complete line, its place in the bytes, and the records with it. */
  method ReadLine(bytes: Bytes, p: nat, newline: nat, ghost fs: seq<Named>)
    returns (name: Option<Bytes>, start: nat, ghost fs': seq<Named>)
    requires p <= newline < |bytes| && bytes[newline] == NEWLINE
    requires forall m :: p <= m < newline ==> bytes[m] != NEWLINE
    requires FirstRecords(NameOn, bytes, p, fs)
    ensures name.Some? ==> Named?(bytes, Event(start, start + |name.value|, 0), name.value)
    ensures fs' == AddLine(fs, name, newline)
    ensures FirstRecords(NameOn, bytes, newline + 1, fs')
  {
    name, start := NameOn(Sub(bytes, p, newline)), p + |EVENT_PREFIX|;
    fs' := AddLine(fs, name, newline);
    FirstRecordsNext(NameOn, bytes, p, newline, fs, name);
    if name.Some? {
      NameAt(bytes, p, newline);
    }
  }

  /** The loop over the lines completed since the last call. */
  method ParseLines(bytes: Bytes, from: nat, events: seq<Event>, exceeded: Option<CaptureLimit>, at: int,
                    ghost fs: seq<Named>, ghost arrival: seq<int>, ghost before: Option<CaptureLimit>)
    returns (parsed: nat, events': seq<Event>, exceeded': Option<CaptureLimit>, ghost fs': seq<Named>)
    requires FirstRecords(NameOn, bytes, from, fs) && Parsed(bytes, events, fs, arrival, before, exceeded)
    requires |arrival| >= |bytes| && forall m :: from <= m < |bytes| && bytes[m] == NEWLINE ==> arrival[m] == at
    ensures FirstRecords(NameOn, bytes, parsed, fs') && forall m :: parsed <= m < |bytes| ==> bytes[m] != NEWLINE
    ensures |fs'| >= |fs|
    ensures Parsed(bytes, events', fs', arrival, before, exceeded')
  {
    parsed, events', exceeded', fs' := from, events, exceeded, fs;
    while true
      invariant from <= parsed && FirstRecords(NameOn, bytes, parsed, fs') && |fs'| >= |fs|
      invariant Parsed(bytes, events', fs', arrival, before, exceeded')
      decreases |bytes| - parsed
    {
      var newline := FindNewline(bytes, parsed);
      if newline.None? {
        return;
      }
      ghost var prior := fs';
      var name, start;
      name, start, fs' := ReadLine(bytes, parsed, newline.value, fs');
      if name.Some? {
        events', exceeded' := OnRecord(bytes, events', exceeded', name.value, Event(start, start + |name.value|, at),
                                       prior, newline.value, arrival, before);
      }
      parsed := newline.value + 1;
    }
  }

  lemma StoredExtend(bytes: Bytes, more: Bytes, events: seq<Event>, fs: seq<Named>, arrival: seq<int>, later: seq<int>)
    requires Stored(bytes, events, fs, arrival)
    ensures Stored(bytes + more, events, fs, arrival + later)
  {
    forall k | 0 <= k < |events| ensures Named?(bytes + more, events[k], fs[k].name) {
      assert Named?(bytes, events[k], fs[k].name);
      SliceExtend(bytes, more, events[k].start, events[k].end);
    }
  }

  // ----- the accumulator

  /** The bytes kept of everything received. */
  function Kept(received: Bytes): Bytes {
    if |received| <= OUTPUT_LIMIT then received else received[..OUTPUT_LIMIT]
  }

  function Times(n: nat, at: int): (r: seq<int>)
    ensures |r| == n && forall k :: 0 <= k < n ==> r[k] == at
  {
    seq(n, _ => at)
  }

  lemma KeptAppend(received: Bytes, more: Bytes)
    ensures Kept(received + more) == Kept(received) + more[..Min(|more|, OUTPUT_LIMIT - |Kept(received)|)]
  {
  }

  lemma FirstRecordsExtend(b: Bytes, more: Bytes, p: nat, fs: seq<Named>)
    requires FirstRecords(NameOn, b, p, fs)
    ensures FirstRecords(NameOn, b + more, p, fs)
  {
    assert Requested(p);
    FirstsExtend(NameOn, b, more, p);
  }

  class Output {
    var bytes: Bytes
    var exceeded: Option<CaptureLimit>
    var parsed: nat
    var events: seq<Event>

    ghost var received: Bytes
    ghost var arrival: seq<int>
    ghost var records: seq<Named>

    ghost predicate Valid()
      reads this
    {
      && |arrival| == |received| && bytes == Kept(received)
      && FirstRecords(NameOn, bytes, parsed, records)
      && (forall m :: parsed <= m < |bytes| ==> bytes[m] != NEWLINE)
      && Stored(bytes, events, records, arrival)
      && (exceeded.Some? <==> |received| > OUTPUT_LIMIT || |records| > EVENT_LIMIT)
      && (exceeded == Some(ByteLimit) ==> |received| > OUTPUT_LIMIT)
      && (exceeded == Some(EventLimit) ==> |records| > EVENT_LIMIT)
    }

    constructor ()
      ensures Valid() && received == [] && arrival == []
    {
      bytes, exceeded, parsed, events := [], None, 0, [];
      received, arrival, records := [], [], [];
    }

    method Record(more: Bytes, at: int)
      requires Valid()
      modifies this
      ensures Valid()
      ensures received == old(received) + more
      ensures arrival == old(arrival) + Times(|more|, at)
    {
      ghost var received', arrival' := received + more, arrival + Times(|more|, at);
      var added := more[..Min(|more|, OUTPUT_LIMIT - |bytes|)];
      KeptAppend(received, more);
      FirstRecordsExtend(bytes, added, parsed, records);
      StoredExtend(bytes, added, events, records, arrival, Times(|more|, at));
      var all := bytes + added;
      var limit := if |added| < |more| && exceeded.None? then Some(ByteLimit) else exceeded;
      var parsed', events', limit';
      ghost var records';
      parsed', events', limit', records' := ParseLines(all, parsed, events, limit, at, records, arrival', limit);
      bytes, exceeded, parsed, events := all, limit', parsed', events';
      received, arrival, records := received', arrival', records';
    }

    /** When the named event was first observed, if it is stored. */
    method Observed(name: Bytes) returns (r: Option<int>)
      requires Valid()
      ensures r.Some? <==> HasName(records[..|events|], name)
      ensures r.Some? ==> exists k :: 0 <= k < |events| && records[k].name == name && r.value == arrival[records[k].at]
    {
      KnownIsStored(bytes, events, records, arrival, name);
      for k := 0 to |events|
        invariant forall j :: 0 <= j < k ==> !Named?(bytes, events[j], name)
      {
        if Named?(bytes, events[k], name) {
          assert records[k].name == name;
          return Some(events[k].observedAt);
        }
      }
      r := None;
    }

    /** `validate`: evidence is accepted only when nothing was cut off, the child did not
        panic, no protocol record is unfinished, every required event is on a complete
        line of everything received and no forbidden one is. */
    method Validate(required: seq<Bytes>, forbidden: seq<Bytes>) returns (r: Option<Complaint>)
      requires Valid()
      ensures r.None? <==> Acceptable(received, required, forbidden)
    {
      AcceptableIff(this, required, forbidden);
      if exceeded.Some? {
        return Some(LimitExceeded);
      }
      if Mentions(bytes, PANIC_TEXT) {
        return Some(ChildPanicked);
      }
      if Unfinished(Sub(bytes, parsed, |bytes|)) {
        return Some(IncompleteRecord);
      }
      r := FirstMissing(required);
      if r.None? {
        r := FirstUnexpected(forbidden);
      }
    }

    method FirstMissing(required: seq<Bytes>) returns (r: Option<Complaint>)
      requires Valid() && exceeded.None?
      ensures r.None? <==> forall k :: 0 <= k < |required| ==> HasName(records, required[k])
    {
      assert records[..|events|] == records;
      for k := 0 to |required|
        invariant forall j :: 0 <= j < k ==> HasName(records, required[j])
      {
        var at := Observed(required[k]);
        if at.None? {
          return Some(Missing(required[k]));
        }
      }
      r := None;
    }

    method FirstUnexpected(forbidden: seq<Bytes>) returns (r: Option<Complaint>)
      requires Valid() && exceeded.None?
      ensures r.None? <==> forall k :: 0 <= k < |forbidden| ==> !HasName(records, forbidden[k])
    {
      assert records[..|events|] == records;
      for k := 0 to |forbidden|
        invariant forall j :: 0 <= j < k ==> !HasName(records, forbidden[j])
      {
        var at := Observed(forbidden[k]);
        if at.Some? {
          return Some(Unexpected(forbidden[k]));
        }
      }
      r := None;
    }

    /** `require_final_event`: a stored event satisfies it even after a panic, but a cut-off
        capture never does. */
    method RequireFinalEvent(name: Bytes) returns (r: Option<Complaint>)
      requires Valid()
      ensures r.None? <==> exceeded.None? && HasName(records, name)
      ensures exceeded.Some? ==> r == Some(LimitExceeded)
      ensures exceeded.None? && !HasName(records, name) ==>
                r == Some(if Mentions(bytes, PANIC_TEXT) then ChildPanicked else Missing(name))
    {
      if exceeded.Some? {
        return Some(LimitExceeded);
      }
      assert records[..|events|] == records;
      var at := Observed(name);
      if at.Some? {
        return None;
      }
      r := Some(if Mentions(bytes, PANIC_TEXT) then ChildPanicked else Missing(name));
    }

    /** `event_by`: the arrival time of the event's line decides, not the time of asking. */
    method EventBy(name: Bytes, deadline: int, now: int) returns (r: Waiting)
      requires Valid()
      ensures exceeded.Some? ==> r == Rejected(LimitExceeded)
      ensures exceeded.None? && HasName(records, name) ==>
                exists k :: 0 <= k < |events| && records[k].name == name
                            && r == if arrival[records[k].at] <= deadline then Seen(arrival[records[k].at]) else Rejected(Late)
      ensures exceeded.None? ==> (r.Seen? || r == Rejected(Late) <==> HasName(records, name))
      ensures r.Seen? ==> r.at <= deadline && exists k :: 0 <= k < |events| && records[k].name == name && r.at == arrival[records[k].at]
      ensures r == Rejected(Late) ==> exists k :: 0 <= k < |events| && records[k].name == name && arrival[records[k].at] > deadline
      ensures exceeded.None? && !HasName(records, name) ==>
                r == if Mentions(bytes, PANIC_TEXT) then Rejected(ChildPanicked)
                     else if now >= deadline then Rejected(Missing(name)) else NotYet
    {
      if exceeded.Some? {
        return Rejected(LimitExceeded);
      }
      assert records[..|events|] == records;
      var at := Observed(name);
      if at.Some? {
        return if at.value <= deadline then Seen(at.value) else Rejected(Late);
      }
      if Mentions(bytes, PANIC_TEXT) {
        return Rejected(ChildPanicked);
      }
      r := if now >= deadline then Rejected(Missing(name)) else NotYet;
    }
  }

  /** Two accumulators that received the same bytes agree, however the bytes were split:
      on what they keep, where they are, the names in order and whether a limit was hit. */
  lemma ChunkingIsInvisible(a: Output, b: Output)
    requires a.Valid() && b.Valid() && a.received == b.received
    ensures a.bytes == b.bytes && a.parsed == b.parsed && |a.events| == |b.events|
    ensures forall k :: 0 <= k < |a.events| ==>
                          Sub(a.bytes, a.events[k].start, a.events[k].end) == Sub(b.bytes, b.events[k].start, b.events[k].end)
    ensures a.exceeded.Some? <==> b.exceeded.Some?
  {
    RecordsAreParse(a);
    RecordsAreParse(b);
    forall k | 0 <= k < |a.events|
      ensures Sub(a.bytes, a.events[k].start, a.events[k].end) == Sub(b.bytes, b.events[k].start, b.events[k].end)
    {
      assert Named?(a.bytes, a.events[k], a.records[k].name) && Named?(b.bytes, b.events[k], b.records[k].name);
    }
  }

  /** The incremental records are the batch parse of the kept bytes. */
  lemma RecordsAreParse(o: Output)
    requires o.Valid()
    ensures o.parsed == Boundary(o.bytes) && o.records == Parse(o.bytes)
  {
    assert Requested(o.parsed);
    StartOfLine(o.bytes, o.parsed, |o.bytes|);
    FirstsToIsBatch(NameOn, o.bytes, o.parsed);
  }

  // ----- judging the evidence

  /** "panicked at" */
  const PANIC_TEXT: Bytes := [112, 97, 110, 105, 99, 107, 101, 100, 32, 97, 116]

  predicate Mentions(b: Bytes, text: Bytes) {
    exists i :: 0 <= i <= |b| - |text| && IsPrefix(text, Sub(b, i, |b|))
  }

  /** A nonempty last line that is, or could still become, a protocol record. */
  predicate Unfinished(tail: Bytes) {
    |tail| > 0 && (IsPrefix(EVENT_PREFIX, tail) || IsPrefix(tail, EVENT_PREFIX))
  }

  /** The text is somewhere in the bytes. */
  lemma MentionsIff(b: Bytes, text: Bytes)
    ensures Mentions(b, text) <==> exists before: Bytes, after: Bytes :: b == before + text + after
  {
    if i :| 0 <= i <= |b| - |text| && IsPrefix(text, Sub(b, i, |b|)) {
      assert text == Sub(b, i, i + |text|);
      assert b == b[..i] + text + b[i + |text|..];
    }
    if before: Bytes, after: Bytes :| b == before + text + after {
      var i := |before|;
      assert forall k :: 0 <= k < |text| ==> Sub(b, i, |b|)[k] == text[k];
      assert 0 <= i <= |b| - |text| && IsPrefix(text, Sub(b, i, |b|));
    }
  }

  /** A last line is unfinished exactly when it is there and could still start with the prefix. */
  lemma UnfinishedIff(tail: Bytes)
    ensures Unfinished(tail) <==> |tail| > 0 && exists more: Bytes :: IsPrefix(EVENT_PREFIX, tail + more)
  {
    if Unfinished(tail) {
      var more := if |tail| < |EVENT_PREFIX| then EVENT_PREFIX[|tail|..] else [];
      assert forall k :: 0 <= k < |EVENT_PREFIX| ==> (tail + more)[k] == EVENT_PREFIX[k];
      assert IsPrefix(EVENT_PREFIX, tail + more);
    }
    if more: Bytes :| IsPrefix(EVENT_PREFIX, tail + more) {
      CommonPrefix(EVENT_PREFIX, tail, more);
    }
  }

  /** Every event on a complete line, repetitions included. */
  function AllEvents(b: Bytes): seq<Named> {
    RecordsTo(NameOn, b, Boundary(b))
  }

  /** What `validate` should accept, in terms of everything the child wrote. */
  ghost predicate Acceptable(received: Bytes, required: seq<Bytes>, forbidden: seq<Bytes>) {
    && |received| <= OUTPUT_LIMIT && |Parse(received)| <= EVENT_LIMIT
    && !Mentions(received, PANIC_TEXT) && !Unfinished(Sub(received, Boundary(received), |received|))
    && (forall k :: 0 <= k < |required| ==> HasName(AllEvents(received), required[k]))
    && (forall k :: 0 <= k < |forbidden| ==> !HasName(AllEvents(received), forbidden[k]))
  }

  /** The stored records know every event name, so judging by them is judging by all events. */
  lemma StoredKnowsAll(o: Output, name: Bytes)
    requires o.Valid() && |o.received| <= OUTPUT_LIMIT
    ensures HasName(o.records, name) <==> HasName(AllEvents(o.received), name)
  {
    RecordsAreParse(o);
    FirstsKeepNames(AllEvents(o.received), name);
  }

  lemma AcceptableIff(o: Output, required: seq<Bytes>, forbidden: seq<Bytes>)
    requires o.Valid()
    ensures Acceptable(o.received, required, forbidden) <==>
            && o.exceeded.None? && !Mentions(o.bytes, PANIC_TEXT) && !Unfinished(Sub(o.bytes, o.parsed, |o.bytes|))
            && (forall k :: 0 <= k < |required| ==> HasName(o.records, required[k]))
            && (forall k :: 0 <= k < |forbidden| ==> !HasName(o.records, forbidden[k]))
  {
    if |o.received| <= OUTPUT_LIMIT {
      RecordsAreParse(o);
      forall name: Bytes ensures HasName(o.records, name) <==> HasName(AllEvents(o.received), name) {
        StoredKnowsAll(o, name);
      }
    }
  }

  lemma CommonPrefix(p: Bytes, tail: Bytes, more: Bytes)
    ensures IsPrefix(p, tail + more) ==> IsPrefix(p, tail) || IsPrefix(tail, p)
  {
    assert forall k :: 0 <= k < |tail| ==> (tail + more)[k] == tail[k];
  }

  /** A last line accepted by `validate` names no event however it is completed. */
  lemma FinishedTailNamesNothing(tail: Bytes, more: Bytes)
    requires |tail| > 0 && !Unfinished(tail)
    ensures NameOn(tail + more) == None
  {
    CommonPrefix(EVENT_PREFIX, tail, more);
  }

  datatype Complaint =
    | LimitExceeded | ChildPanicked | IncompleteRecord | Late
    | Missing(name: Bytes) | Unexpected(name: Bytes)

  datatype Waiting = Seen(at: int) | NotYet | Rejected(complaint: Complaint)

  // ----- wait policies (test-support/process/timing.rs)

  datatype WaitPolicy =
    | ExitAfter(limit: nat)
    | AfterEvent(event: Bytes, startup: nat, observation: nat)

  function MaximumWait(policy: WaitPolicy): nat {
    match policy
    case ExitAfter(limit) => limit
    case AfterEvent(_, startup, observation) => startup + observation
  }

  datatype Allowance = Until(elapsed: nat) | Undecided | Failed(complaint: Complaint)

  /** `WaitPolicy::deadline`: an allowance never exceeds the policy's maximum wait. */
  method Deadline(policy: WaitPolicy, output: Output, started: int, now: int) returns (r: Allowance)
    requires output.Valid()
    ensures r.Until? ==> r.elapsed <= MaximumWait(policy)
    ensures policy.ExitAfter? ==> r == Until(policy.limit)
    ensures policy.AfterEvent? && output.exceeded.Some? ==> r == Failed(LimitExceeded)
    ensures policy.AfterEvent? && output.exceeded.None? && HasName(output.records, policy.event) ==>
              exists k :: 0 <= k < |output.events| && output.records[k].name == policy.event
                          && var at := output.arrival[output.records[k].at];
                             r == if at <= started + policy.startup then Until(Max(0, at - started) + policy.observation)
                                  else Failed(Late)
    ensures policy.AfterEvent? && output.exceeded.None? && !HasName(output.records, policy.event) ==>
              r == if Mentions(output.bytes, PANIC_TEXT) then Failed(ChildPanicked)
                   else if now >= started + policy.startup then Failed(Missing(policy.event)) else Undecided
    ensures policy.AfterEvent? && r.Until? ==>
              exists k :: 0 <= k < |output.events| && output.records[k].name == policy.event
                          && r.elapsed == Max(0, output.arrival[output.records[k].at] - started) + policy.observation
  {
    match policy
    case ExitAfter(limit) => r := Until(limit);
    case AfterEvent(event, startup, observation) =>
      var seen := output.EventBy(event, started + startup, now);
      match seen
      case Seen(at) => r := Until(Max(0, at - started) + observation);
      case NotYet => r := Undecided;
      case Rejected(complaint) => r := Failed(complaint);
  }
}
