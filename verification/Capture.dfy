/** The bounded two-stream output capture of scripts/scheduling_process.py.

    The first bytes to arrive on either stream fill one shared head. In tail
    mode everything after the head goes to two rolling tails, kept as deques of
    chunks and trimmed by a fair-share rule. The class below keeps the source's
    fields; `Valid` ties them to a closed form over every byte that arrived. */
module Capture {
  import opened Bytes

  type Stream = i: nat | i < 2

  /** One received byte and the stream it came from. */
  datatype Arrival = Arrival(stream: Stream, value: byte)

  function Tag(stream: Stream, data: Bytes): (r: seq<Arrival>)
    ensures |r| == |data|
  {
    seq(|data|, k requires 0 <= k < |data| => Arrival(stream, data[k]))
  }

  /** The bytes of one stream, in order. */
  function On(stream: Stream, a: seq<Arrival>): (r: Bytes)
    ensures |r| <= |a|
  {
    if a == [] then []
    else if a[|a| - 1].stream == stream then On(stream, a[..|a| - 1]) + [a[|a| - 1].value]
    else On(stream, a[..|a| - 1])
  }

  lemma {:induction false} OnConcat(stream: Stream, a: seq<Arrival>, b: seq<Arrival>)
    ensures On(stream, a + b) == On(stream, a) + On(stream, b)
  {
    if b == [] {
      assert a + b == a;
    } else {
      assert (a + b)[..|a + b| - 1] == a + b[..|b| - 1];
      OnConcat(stream, a, b[..|b| - 1]);
    }
  }

  lemma {:induction false} OnTag(stream: Stream, tagged: Stream, data: Bytes)
    ensures On(stream, Tag(tagged, data)) == if stream == tagged then data else []
    decreases |data|
  {
    if data != [] {
      var front := data[..|data| - 1];
      assert Tag(tagged, data)[..|data| - 1] == Tag(tagged, front);
      OnTag(stream, tagged, front);
    }
  }

  lemma {:induction false} StreamsPartition(a: seq<Arrival>)
    ensures |On(0, a)| + |On(1, a)| == |a|
  {
    if a != [] {
      StreamsPartition(a[..|a| - 1]);
    }
  }

  // ----- the closed form

  /** Bytes reserved for the shared head. */
  function HeadLimit(limit: nat, retainTail: bool): (h: nat)
    ensures h <= limit
  {
    if retainTail then limit / 2 else limit
  }

  function Head(a: seq<Arrival>, h: nat): seq<Arrival> {
    if |a| <= h then a else a[..h]
  }

  function Post(a: seq<Arrival>, h: nat): seq<Arrival> {
    if |a| <= h then [] else a[h..]
  }

  /** How much of a stream the tail keeps when `n0` and `n1` bytes followed the head. */
  function Share(stream: Stream, n0: nat, n1: nat, tailLimit: nat): (k: nat)
    ensures k <= (if stream == 0 then n0 else n1)
  {
    if n0 + n1 <= tailLimit then (if stream == 0 then n0 else n1)
    else
      var first := Min(n0, Max(tailLimit / 2, tailLimit - n1));
      if stream == 0 then first else tailLimit - first
  }

  function PostOn(stream: Stream, a: seq<Arrival>, h: nat): Bytes {
    On(stream, Post(a, h))
  }

  /** The tail kept of one stream, given everything both streams sent after the head. */
  function Trim(stream: Stream, p0: Bytes, p1: Bytes, tailLimit: nat): (r: Bytes)
    ensures |r| == Share(stream, |p0|, |p1|, tailLimit)
  {
    Suffix(if stream == 0 then p0 else p1, Share(stream, |p0|, |p1|, tailLimit))
  }

  function TailOf(stream: Stream, a: seq<Arrival>, h: nat, tailLimit: nat): Bytes {
    Trim(stream, PostOn(0, a, h), PostOn(1, a, h), tailLimit)
  }

  /** How many bytes were dropped from a stream, and which: those between head and tail. */
  function Gap(stream: Stream, a: seq<Arrival>, h: nat, tailLimit: nat): nat {
    |PostOn(stream, a, h)| - |TailOf(stream, a, h, tailLimit)|
  }

  function DroppedOf(stream: Stream, a: seq<Arrival>, h: nat, tailLimit: nat): Bytes {
    PostOn(stream, a, h)[..Gap(stream, a, h, tailLimit)]
  }

  // ----- what the closed form promises

  lemma PostSplits(stream: Stream, a: seq<Arrival>, h: nat, tailLimit: nat)
    ensures PostOn(stream, a, h) == DroppedOf(stream, a, h, tailLimit) + TailOf(stream, a, h, tailLimit)
  {
  }

  /** Every stream is its head, then what was dropped, then its tail. */
  lemma Conservation(stream: Stream, a: seq<Arrival>, h: nat, tailLimit: nat)
    ensures On(stream, a) ==
            On(stream, Head(a, h)) + (DroppedOf(stream, a, h, tailLimit) + TailOf(stream, a, h, tailLimit))
  {
    PostSplits(stream, a, h, tailLimit);
    OnConcat(stream, Head(a, h), Post(a, h));
    HeadThenPost(a, h);
  }

  lemma HeadThenPost(a: seq<Arrival>, h: nat)
    ensures a == Head(a, h) + Post(a, h)
  {
  }

  lemma ShareTotal(n0: nat, n1: nat, tailLimit: nat)
    ensures Share(0, n0, n1, tailLimit) + Share(1, n0, n1, tailLimit) == Min(n0 + n1, tailLimit)
  {
  }

  lemma DroppedIsExcess(a: seq<Arrival>, h: nat, tailLimit: nat)
    ensures Gap(0, a, h, tailLimit) + Gap(1, a, h, tailLimit) == Max(0, |a| - h - tailLimit)
  {
    StreamsPartition(Post(a, h));
    ShareTotal(|PostOn(0, a, h)|, |PostOn(1, a, h)|, tailLimit);
  }

  /** The retained source bytes are exactly as many as arrived, capped at the limit,
      and exactly the excess over the limit is dropped. */
  lemma RetainedIsCappedTotal(a: seq<Arrival>, limit: nat, retainTail: bool)
    ensures var h := HeadLimit(limit, retainTail);
            && |On(0, Head(a, h))| + |On(1, Head(a, h))|
               + |TailOf(0, a, h, limit - h)| + |TailOf(1, a, h, limit - h)| == Min(|a|, limit)
            && Gap(0, a, h, limit - h) + Gap(1, a, h, limit - h) == Max(0, |a| - limit)
  {
    var h := HeadLimit(limit, retainTail);
    StreamsPartition(Head(a, h));
    StreamsPartition(Post(a, h));
    ShareTotal(|PostOn(0, a, h)|, |PostOn(1, a, h)|, limit - h);
    DroppedIsExcess(a, h, limit - h);
  }

  /** The tails depend only on the two post-head byte streams, whatever the chunking
      or interleaving; together they fill the tail, and neither stream can push the
      other below its half. */
  lemma TailsIgnoreInterleaving(a: seq<Arrival>, b: seq<Arrival>, h: nat, tailLimit: nat)
    requires forall i: Stream :: PostOn(i, a, h) == PostOn(i, b, h)
    ensures forall i: Stream :: TailOf(i, a, h, tailLimit) == TailOf(i, b, h, tailLimit)
    ensures var n0, n1, half := |PostOn(0, a, h)|, |PostOn(1, a, h)|, tailLimit / 2;
            && |TailOf(0, a, h, tailLimit)| + |TailOf(1, a, h, tailLimit)| == Min(n0 + n1, tailLimit)
            && |TailOf(0, a, h, tailLimit)| >= Min(n0, half)
            && |TailOf(1, a, h, tailLimit)| >= Min(n1, tailLimit - half)
  {
    assert PostOn(0, a, h) == PostOn(0, b, h) && PostOn(1, a, h) == PostOn(1, b, h);
  }

  const OMITTED: Bytes := [10, 91, 46, 46, 46, 32, 111, 117, 116, 112, 117, 116, 32,
                           111, 109, 105, 116, 116, 101, 100, 32, 46, 46, 46, 93, 10]

  /** What `retained_buffers` shows of a stream: one gap marker wherever bytes are missing. */
  function Rendered(i: Stream, a: seq<Arrival>, h: nat, tailLimit: nat): Bytes {
    On(i, Head(a, h))
    + (if tailLimit > 0 && Gap(i, a, h, tailLimit) > 0 then OMITTED else [])
    + TailOf(i, a, h, tailLimit)
  }

  /** In tail mode an unmarked buffer is the complete stream. */
  lemma UnmarkedIsComplete(i: Stream, a: seq<Arrival>, h: nat, tailLimit: nat)
    requires tailLimit > 0 && Gap(i, a, h, tailLimit) == 0
    ensures Rendered(i, a, h, tailLimit) == On(i, a)
  {
    Conservation(i, a, h, tailLimit);
    assert DroppedOf(i, a, h, tailLimit) == [];
    WithoutGap(On(i, Head(a, h)), TailOf(i, a, h, tailLimit));
  }

  /** In tail mode a gap shows as a start of the stream, one marker and an end of the stream,
      with exactly the missing bytes in between. */
  lemma GapIsMarked(i: Stream, a: seq<Arrival>, h: nat, tailLimit: nat)
    requires tailLimit > 0 && Gap(i, a, h, tailLimit) > 0
    ensures exists head: Bytes, missing: Bytes, tail: Bytes ::
              && On(i, a) == head + (missing + tail) && |missing| == Gap(i, a, h, tailLimit)
              && Rendered(i, a, h, tailLimit) == head + OMITTED + tail
              && |head| == |On(i, Head(a, h))| && |tail| == |TailOf(i, a, h, tailLimit)|
  {
    Conservation(i, a, h, tailLimit);
    var head, missing, tail := On(i, Head(a, h)), DroppedOf(i, a, h, tailLimit), TailOf(i, a, h, tailLimit);
    assert On(i, a) == head + (missing + tail);
  }

  lemma WithoutGap(head: Bytes, tail: Bytes)
    ensures head + ([] + tail) == head + [] + tail
  {
  }

  /** Only the gap markers can exceed the limit. */
  lemma RenderedBound(a: seq<Arrival>, limit: nat, retainTail: bool)
    ensures var h := HeadLimit(limit, retainTail);
            |Rendered(0, a, h, limit - h)| + |Rendered(1, a, h, limit - h)| <= limit + 2 * |OMITTED|
  {
    RetainedIsCappedTotal(a, limit, retainTail);
  }

  // ----- one step of the closed form

  /** `s`, with `extra` appended when `grows`. */
  function Grow(s: Bytes, grows: bool, extra: Bytes): Bytes {
    s + (if grows then extra else [])
  }

  /** The shares of the trimmed sizes are the shares of the whole history. */
  lemma ShareStep(stream: Stream, index: Stream, n0: nat, n1: nat, extra: nat, tailLimit: nat,
                  s0: nat, s1: nat, m0: nat, m1: nat)
    requires extra > 0
    requires s0 == Share(0, n0, n1, tailLimit) + if index == 0 then extra else 0
    requires s1 == Share(1, n0, n1, tailLimit) + if index == 1 then extra else 0
    requires m0 == n0 + if index == 0 then extra else 0
    requires m1 == n1 + if index == 1 then extra else 0
    ensures Share(stream, s0, s1, tailLimit) == Share(stream, m0, m1, tailLimit)
  {
  }

  lemma SuffixGrow(s: Bytes, kept: nat, extra: Bytes, keep: nat)
    requires kept <= |s| && keep <= kept + |extra|
    ensures Suffix(Suffix(s, kept) + extra, keep) == Suffix(s + extra, keep)
  {
  }

  lemma GrowLength(s: Bytes, grows: bool, extra: Bytes)
    ensures |Grow(s, grows, extra)| == |s| + if grows then |extra| else 0
  {
  }

  lemma TrimShare(stream: Stream, p0: Bytes, p1: Bytes, index: Stream, rest: Bytes, tailLimit: nat)
    requires rest != []
    ensures Share(stream, |Grow(Trim(0, p0, p1, tailLimit), index == 0, rest)|,
                  |Grow(Trim(1, p0, p1, tailLimit), index == 1, rest)|, tailLimit)
         == Share(stream, |Grow(p0, index == 0, rest)|, |Grow(p1, index == 1, rest)|, tailLimit)
  {
    var t0, t1 := Trim(0, p0, p1, tailLimit), Trim(1, p0, p1, tailLimit);
    var g0, g1 := Grow(t0, index == 0, rest), Grow(t1, index == 1, rest);
    var q0, q1 := Grow(p0, index == 0, rest), Grow(p1, index == 1, rest);
    GrowLength(t0, index == 0, rest);
    GrowLength(t1, index == 1, rest);
    GrowLength(p0, index == 0, rest);
    GrowLength(p1, index == 1, rest);
    ShareStep(stream, index, |p0|, |p1|, |rest|, tailLimit, |g0|, |g1|, |q0|, |q1|);
  }

  /** Trimming the trimmed tails plus new bytes is trimming everything at once. */
  lemma TrimStep(stream: Stream, p0: Bytes, p1: Bytes, index: Stream, rest: Bytes, tailLimit: nat)
    requires rest != []
    ensures Trim(stream, Grow(Trim(0, p0, p1, tailLimit), index == 0, rest),
                 Grow(Trim(1, p0, p1, tailLimit), index == 1, rest), tailLimit)
         == Trim(stream, Grow(p0, index == 0, rest), Grow(p1, index == 1, rest), tailLimit)
  {
    TrimShare(stream, p0, p1, index, rest, tailLimit);
    var keep := Share(stream, |Grow(p0, index == 0, rest)|, |Grow(p1, index == 1, rest)|, tailLimit);
    if stream == 0 {
      SuffixGrow(p0, Share(0, |p0|, |p1|, tailLimit), if index == 0 then rest else [], keep);
    } else {
      SuffixGrow(p1, Share(1, |p0|, |p1|, tailLimit), if index == 1 then rest else [], keep);
    }
  }

  /** `kept` is what still fits the shared head and `rest` what overruns it. */
  ghost predicate Splits(a: seq<Arrival>, kept: Bytes, rest: Bytes, h: nat) {
    |kept| <= h - Min(|a|, h) && (|rest| > 0 ==> |kept| == h - Min(|a|, h))
  }

  /** More arrivals, of which `x` still fit the head and `y` do not. */
  lemma HeadPost(a: seq<Arrival>, x: seq<Arrival>, y: seq<Arrival>, h: nat)
    requires |x| <= h - Min(|a|, h) && (|y| > 0 ==> |x| == h - Min(|a|, h))
    ensures Head(a + (x + y), h) == Head(a, h) + x
    ensures Post(a + (x + y), h) == Post(a, h) + y
  {
    var all := a + (x + y);
    if |a| >= h {
      assert x == [] && x + y == y;
    } else if |y| == 0 {
      assert x + y == x && Post(a, h) == [];
    } else {
      assert all == (a + x) + y && |a + x| == h;
    }
  }

  lemma TagConcat(index: Stream, kept: Bytes, rest: Bytes)
    ensures Tag(index, kept + rest) == Tag(index, kept) + Tag(index, rest)
  {
  }

  lemma HeadPostExtend(a: seq<Arrival>, index: Stream, kept: Bytes, rest: Bytes, h: nat)
    requires Splits(a, kept, rest, h)
    ensures Head(a + Tag(index, kept + rest), h) == Head(a, h) + Tag(index, kept)
    ensures Post(a + Tag(index, kept + rest), h) == Post(a, h) + Tag(index, rest)
  {
    TagConcat(index, kept, rest);
    HeadPost(a, Tag(index, kept), Tag(index, rest), h);
  }

  lemma OnExtend(stream: Stream, a: seq<Arrival>, index: Stream, kept: Bytes, rest: Bytes, h: nat)
    requires Splits(a, kept, rest, h)
    ensures On(stream, Head(a + Tag(index, kept + rest), h)) == Grow(On(stream, Head(a, h)), stream == index, kept)
    ensures PostOn(stream, a + Tag(index, kept + rest), h) == Grow(PostOn(stream, a, h), stream == index, rest)
  {
    HeadPostExtend(a, index, kept, rest, h);
    OnConcat(stream, Head(a, h), Tag(index, kept));
    OnConcat(stream, Post(a, h), Tag(index, rest));
    OnTag(stream, index, kept);
    OnTag(stream, index, rest);
  }

  /** The new tails are the old tails with the new bytes appended, trimmed to their shares. */
  lemma TailExtend(stream: Stream, a: seq<Arrival>, index: Stream, kept: Bytes, rest: Bytes, h: nat, tailLimit: nat)
    requires Splits(a, kept, rest, h) && |rest| > 0
    ensures var g0 := Grow(TailOf(0, a, h, tailLimit), index == 0, rest);
            var g1 := Grow(TailOf(1, a, h, tailLimit), index == 1, rest);
            TailOf(stream, a + Tag(index, kept + rest), h, tailLimit) == Trim(stream, g0, g1, tailLimit)
  {
    OnExtend(0, a, index, kept, rest, h);
    OnExtend(1, a, index, kept, rest, h);
    TrimStep(stream, PostOn(0, a, h), PostOn(1, a, h), index, rest, tailLimit);
  }

  // ----- the object

  /** A tail deque and its recorded size agree, and no chunk is empty. */
  ghost predicate Sized(chunks: seq<Bytes>, size: nat) {
    && size == |Join(chunks)|
    && forall k :: 0 <= k < |chunks| ==> |chunks[k]| > 0
  }

  /** `popleft`, then `appendleft` of what survives of that chunk after dropping `dropped` bytes. */
  method PopOldest(chunks: seq<Bytes>, size: nat, dropped: nat) returns (left: seq<Bytes>)
    requires Sized(chunks, size) && chunks != [] && dropped <= |chunks[0]|
    ensures Sized(left, size - dropped) && Join(left) == Suffix(Join(chunks), size - dropped)
  {
    var chunk := chunks[0];
    left := chunks[1..];
    SuffixOfConcat(chunk, Join(left), dropped);
    if dropped < |chunk| {
      ghost var rest := left;
      left := [chunk[dropped..]] + left;
      assert left[1..] == rest;
    } else {
      assert chunk[dropped..] == [];
    }
  }

  lemma SuffixOfConcat(a: Bytes, b: Bytes, n: nat)
    requires n <= |a|
    ensures Suffix(a + b, |a + b| - n) == a[n..] + b
  {
  }

  lemma SuffixOfSuffix(s: Bytes, n: nat, k: nat)
    requires k <= n <= |s|
    ensures Suffix(Suffix(s, n), k) == Suffix(s, k)
  {
  }

  /** One turn of the eviction loop, on a deque that holds the end of `all`. */
  method EvictOldest(chunks: seq<Bytes>, size: nat, keep: nat, ghost all: Bytes) returns (kept: seq<Bytes>, left: nat)
    requires Sized(chunks, size) && keep < size <= |all| && Join(chunks) == Suffix(all, size)
    ensures Sized(kept, left) && keep <= left < size && Join(kept) == Suffix(all, left)
  {
    var dropped := Min(|chunks[0]|, size - keep);
    kept := PopOldest(chunks, size, dropped);
    SuffixOfSuffix(all, size, size - dropped);
    left := size - dropped;
  }

  lemma WholeSuffix(s: Bytes)
    ensures Suffix(s, |s|) == s
  {
  }

  /** The inner eviction loop: drop the oldest bytes of a deque until `keep` remain. */
  method Evict(chunks: seq<Bytes>, size: nat, keep: nat) returns (kept: seq<Bytes>, left: nat)
    requires Sized(chunks, size)
    ensures Sized(kept, left) && left == Min(size, keep)
    ensures Join(kept) == Suffix(Join(chunks), left)
  {
    kept, left := chunks, size;
    ghost var all := Join(chunks);
    WholeSuffix(all);
    while left > keep
      invariant Sized(kept, left) && Join(kept) == Suffix(all, left)
      invariant Min(size, keep) <= left <= size
    {
      kept, left := EvictOldest(kept, left, keep, all);
    }
  }

  method JoinChunks(chunks: seq<Bytes>) returns (joined: Bytes)
    ensures joined == Join(chunks)
  {
    joined := [];
    for k := 0 to |chunks|
      invariant joined == Join(chunks[..k])
    {
      JoinAppend(chunks[..k], chunks[k]);
      assert chunks[..k + 1] == chunks[..k] + [chunks[k]];
      joined := joined + chunks[k];
    }
    assert chunks[..|chunks|] == chunks;
  }

  /** One stream's entry in `buffers`, `tails`, `tail_sizes` and `omitted`. */
  datatype Channel = Channel(head: Bytes, chunks: seq<Bytes>, size: nat, omitted: bool)

  /** The channel's fields are the closed form over everything that arrived. */
  ghost predicate Tracked(i: Stream, c: Channel, a: seq<Arrival>, h: nat, tailLimit: nat) {
    && Sized(c.chunks, c.size)
    && c.head == On(i, Head(a, h))
    && Join(c.chunks) == TailOf(i, a, h, tailLimit)
    && (c.omitted <==> tailLimit > 0 && Gap(i, a, h, tailLimit) > 0)
  }

  /** New bytes that fit the head leave the tails alone. */
  lemma TrackedInHead(i: Stream, c: Channel, a: seq<Arrival>, index: Stream, kept: Bytes, h: nat, tailLimit: nat)
    requires Tracked(i, c, a, h, tailLimit) && Splits(a, kept, [], h)
    ensures Tracked(i, c.(head := Grow(c.head, i == index, kept)), a + Tag(index, kept), h, tailLimit)
  {
    assert kept + [] == kept;
    OnExtend(0, a, index, kept, [], h);
    OnExtend(1, a, index, kept, [], h);
    assert PostOn(0, a + Tag(index, kept), h) == PostOn(0, a, h);
    assert PostOn(1, a + Tag(index, kept), h) == PostOn(1, a, h);
  }

  lemma NoTail(i: Stream, a: seq<Arrival>, h: nat)
    ensures TailOf(i, a, h, 0) == []
  {
    ShareTotal(|PostOn(0, a, h)|, |PostOn(1, a, h)|, 0);
  }

  /** Prefix-only captures discard what overruns the head. */
  lemma TrackedPrefixOnly(i: Stream, c: Channel, a: seq<Arrival>, index: Stream, kept: Bytes, rest: Bytes, h: nat)
    requires Tracked(i, c, a, h, 0) && Splits(a, kept, rest, h)
    ensures Tracked(i, c.(head := Grow(c.head, i == index, kept)), a + Tag(index, kept + rest), h, 0)
  {
    OnExtend(i, a, index, kept, rest, h);
    NoTail(i, a, h);
    NoTail(i, a + Tag(index, kept + rest), h);
  }

  /** The gap grows by what trimming the grown tails takes away. */
  lemma GapExtend(i: Stream, a: seq<Arrival>, index: Stream, kept: Bytes, rest: Bytes, h: nat, tailLimit: nat)
    requires Splits(a, kept, rest, h) && |rest| > 0
    ensures Gap(i, a + Tag(index, kept + rest), h, tailLimit)
         == Gap(i, a, h, tailLimit) + |Grow(TailOf(i, a, h, tailLimit), i == index, rest)|
            - |TailOf(i, a + Tag(index, kept + rest), h, tailLimit)|
  {
    OnExtend(i, a, index, kept, rest, h);
    GrowLength(PostOn(i, a, h), i == index, rest);
    GrowLength(TailOf(i, a, h, tailLimit), i == index, rest);
  }

  /** Trimming never adds bytes, and what was dropped stays dropped. */
  lemma TrimShrinks(i: Stream, g0: Bytes, g1: Bytes, tailLimit: nat)
    ensures |Trim(i, g0, g1, tailLimit)| <= |if i == 0 then g0 else g1|
  {
  }

  /** New bytes past the head: append them and trim to the shares of the grown tails. */
  lemma TrackedWithTail(i: Stream, c: Channel, c': Channel, tail0: Bytes, tail1: Bytes,
                        a: seq<Arrival>, index: Stream, kept: Bytes, rest: Bytes, h: nat, tailLimit: nat)
    requires Tracked(i, c, a, h, tailLimit)
    requires tail0 == TailOf(0, a, h, tailLimit) && tail1 == TailOf(1, a, h, tailLimit)
    requires tailLimit > 0 && Splits(a, kept, rest, h) && |rest| > 0
    requires Sized(c'.chunks, c'.size)
    requires var g0, g1 := Grow(tail0, index == 0, rest), Grow(tail1, index == 1, rest);
             && c'.head == Grow(c.head, i == index, kept)
             && Join(c'.chunks) == Trim(i, g0, g1, tailLimit)
             && c'.omitted == (c.omitted || c'.size < |if i == 0 then g0 else g1|)
    ensures Tracked(i, c', a + Tag(index, kept + rest), h, tailLimit)
  {
    var g0, g1 := Grow(tail0, index == 0, rest), Grow(tail1, index == 1, rest);
    var all := a + Tag(index, kept + rest);
    assert c'.head == On(i, Head(all, h)) by {
      OnExtend(i, a, index, kept, rest, h);
    }
    assert Join(c'.chunks) == TailOf(i, all, h, tailLimit) by {
      TailExtend(i, a, index, kept, rest, h, tailLimit);
    }
    assert c'.omitted <==> Gap(i, all, h, tailLimit) > 0 by {
      GapExtend(i, a, index, kept, rest, h, tailLimit);
      TrimShrinks(i, g0, g1, tailLimit);
    }
  }

  /** Trim both tails to their shares once together they outgrow the tail limit. */
  method TrimTails(c0: Channel, c1: Channel, tailLimit: nat) returns (c0': Channel, c1': Channel)
    requires Sized(c0.chunks, c0.size) && Sized(c1.chunks, c1.size)
    ensures Sized(c0'.chunks, c0'.size) && Sized(c1'.chunks, c1'.size)
    ensures Join(c0'.chunks) == Trim(0, Join(c0.chunks), Join(c1.chunks), tailLimit)
    ensures Join(c1'.chunks) == Trim(1, Join(c0.chunks), Join(c1.chunks), tailLimit)
    ensures c0'.head == c0.head && c0'.omitted == (c0.omitted || c0'.size < c0.size)
    ensures c1'.head == c1.head && c1'.omitted == (c1.omitted || c1'.size < c1.size)
  {
    if c0.size + c1.size <= tailLimit {
      return c0, c1;
    }
    // Half the tail for each stream, lending unused space to the other.
    var first := Min(c0.size, Max(tailLimit / 2, tailLimit - c1.size));
    var kept0, left0 := Evict(c0.chunks, c0.size, first);
    var kept1, left1 := Evict(c1.chunks, c1.size, tailLimit - first);
    c0' := c0.(chunks := kept0, size := left0, omitted := c0.omitted || left0 < c0.size);
    c1' := c1.(chunks := kept1, size := left1, omitted := c1.omitted || left1 < c1.size);
  }

  /** Append one chunk to the deque of stream `index`. */
  method Append(c: Channel, grows: bool, rest: Bytes) returns (c': Channel)
    requires Sized(c.chunks, c.size) && rest != []
    ensures Sized(c'.chunks, c'.size) && Join(c'.chunks) == Grow(Join(c.chunks), grows, rest)
    ensures c'.head == c.head && c'.omitted == c.omitted
  {
    JoinAppend(c.chunks, rest);
    c' := if grows then c.(chunks := c.chunks + [rest], size := c.size + |rest|) else c;
  }

  /** The tail half of `retain`: `kept` fills the head and `rest` overruns it. */
  method RetainTail(c0: Channel, c1: Channel, index: Stream, kept: Bytes, rest: Bytes,
                    tailLimit: nat, ghost a: seq<Arrival>, ghost h: nat)
    returns (c0': Channel, c1': Channel)
    requires Tracked(0, c0, a, h, tailLimit) && Tracked(1, c1, a, h, tailLimit)
    requires tailLimit > 0 && |rest| > 0 && Splits(a, kept, rest, h)
    ensures Tracked(0, c0', a + Tag(index, kept + rest), h, tailLimit)
    ensures Tracked(1, c1', a + Tag(index, kept + rest), h, tailLimit)
  {
    var d0 := Append(c0.(head := c0.head + if index == 0 then kept else []), index == 0, rest);
    var d1 := Append(c1.(head := c1.head + if index == 1 then kept else []), index == 1, rest);
    c0', c1' := TrimTails(d0, d1, tailLimit);
    TrackedWithTail(0, c0, c0', Join(c0.chunks), Join(c1.chunks), a, index, kept, rest, h, tailLimit);
    TrackedWithTail(1, c1, c1', Join(c0.chunks), Join(c1.chunks), a, index, kept, rest, h, tailLimit);
  }

  /** The head half of `retain`: nothing overruns the head, or nothing past it is kept. */
  method RetainHead(c0: Channel, c1: Channel, index: Stream, kept: Bytes, ghost rest: Bytes,
                    ghost tailLimit: nat, ghost a: seq<Arrival>, ghost h: nat)
    returns (c0': Channel, c1': Channel)
    requires Tracked(0, c0, a, h, tailLimit) && Tracked(1, c1, a, h, tailLimit)
    requires (tailLimit == 0 || rest == []) && Splits(a, kept, rest, h)
    ensures Tracked(0, c0', a + Tag(index, kept + rest), h, tailLimit)
    ensures Tracked(1, c1', a + Tag(index, kept + rest), h, tailLimit)
  {
    c0' := c0.(head := c0.head + if index == 0 then kept else []);
    c1' := c1.(head := c1.head + if index == 1 then kept else []);
    if tailLimit == 0 {
      TrackedPrefixOnly(0, c0, a, index, kept, rest, h);
      TrackedPrefixOnly(1, c1, a, index, kept, rest, h);
    } else {
      assert kept + [] == kept;
      TrackedInHead(0, c0, a, index, kept, h, tailLimit);
      TrackedInHead(1, c1, a, index, kept, h, tailLimit);
    }
  }

  /** `data[:room]` and what follows it. */
  method Split(data: Bytes, room: nat) returns (kept: Bytes, rest: Bytes)
    ensures kept + rest == data && |kept| == Min(|data|, room)
  {
    kept := data[..Min(|data|, room)];
    rest := data[|kept|..];
  }

  /** The source's `retain`; `room` is what is left of the shared head. */
  method RetainInto(c0: Channel, c1: Channel, index: Stream, data: Bytes, room: nat, tailLimit: nat,
                    ghost a: seq<Arrival>, ghost h: nat)
    returns (c0': Channel, c1': Channel, left: nat, lost: bool)
    requires Tracked(0, c0, a, h, tailLimit) && Tracked(1, c1, a, h, tailLimit)
    requires room == h - Min(|a|, h)
    ensures Tracked(0, c0', a + Tag(index, data), h, tailLimit)
    ensures Tracked(1, c1', a + Tag(index, data), h, tailLimit)
    ensures left == h - Min(|a + Tag(index, data)|, h)
    ensures lost || |a| > h + tailLimit <==> |a + Tag(index, data)| > h + tailLimit
  {
    var kept, rest := Split(data, room);
    left := room - |kept|;
    if |rest| == 0 || tailLimit == 0 {
      c0', c1' := RetainHead(c0, c1, index, kept, rest, tailLimit, a, h);
      lost := |rest| > 0;
    } else {
      c0', c1' := RetainTail(c0, c1, index, kept, rest, tailLimit, a, h);
      lost := c0'.omitted || c1'.omitted;
      DroppedIsExcess(a + Tag(index, data), h, tailLimit);
    }
  }

  /** What is in the head stays there. */
  lemma HeadGrows(i: Stream, a: seq<Arrival>, more: seq<Arrival>, h: nat)
    ensures On(i, Head(a, h)) <= On(i, Head(a + more, h))
  {
    var room := h - Min(|a|, h);
    var x := if |more| <= room then more else more[..room];
    var y := if |more| <= room then [] else more[room..];
    assert more == x + y;
    HeadPost(a, x, y, h);
    OnConcat(i, Head(a, h), x);
  }

  /** Without overflow each buffer shows its whole stream, in either mode. */
  lemma NothingMissing(i: Stream, a: seq<Arrival>, h: nat, tailLimit: nat)
    requires |a| <= h + tailLimit
    ensures Rendered(i, a, h, tailLimit) == On(i, a)
  {
    DroppedIsExcess(a, h, tailLimit);
    assert Gap(i, a, h, tailLimit) == 0;
    Conservation(i, a, h, tailLimit);
    assert DroppedOf(i, a, h, tailLimit) == [];
    WithoutGap(On(i, Head(a, h)), TailOf(i, a, h, tailLimit));
  }

  /** A prefix-only buffer is its head. */
  lemma PrefixIsHead(i: Stream, a: seq<Arrival>, h: nat)
    ensures Rendered(i, a, h, 0) == On(i, Head(a, h))
  {
    NoTail(i, a, h);
  }

  /** Both heads only get longer. */
  ghost predicate HeadsGrow(before: seq<Channel>, after: seq<Channel>) {
    |before| == |after| == 2 && before[0].head <= after[0].head && before[1].head <= after[1].head
  }

  /** Both channels are the closed form over everything that arrived. */
  ghost predicate Follows(streams: seq<Channel>, a: seq<Arrival>, h: nat, tailLimit: nat) {
    && |streams| == 2
    && forall i: Stream {:trigger Tracked(i, streams[i], a, h, tailLimit)} :: Tracked(i, streams[i], a, h, tailLimit)
  }

  lemma BothTracked(c0: Channel, c1: Channel, a: seq<Arrival>, h: nat, tailLimit: nat)
    requires Tracked(0, c0, a, h, tailLimit) && Tracked(1, c1, a, h, tailLimit)
    ensures Follows([c0, c1], a, h, tailLimit)
  {
  }

  lemma HeadsFollow(before: seq<Channel>, after: seq<Channel>, a: seq<Arrival>, more: seq<Arrival>, h: nat, tailLimit: nat)
    requires Follows(before, a, h, tailLimit) && Follows(after, a + more, h, tailLimit)
    ensures HeadsGrow(before, after)
  {
    assert Tracked(0, before[0], a, h, tailLimit) && Tracked(0, after[0], a + more, h, tailLimit);
    assert Tracked(1, before[1], a, h, tailLimit) && Tracked(1, after[1], a + more, h, tailLimit);
    HeadGrows(0, a, more, h);
    HeadGrows(1, a, more, h);
  }

  class Capture {
    var streams: seq<Channel>
    var remaining: nat
    var overflow: bool
    const tailLimit: nat
    ghost const headLimit: nat
    ghost const owner: nat
    ghost var arrivals: seq<Arrival>

    ghost predicate Valid()
      reads this
    {
      && |streams| == 2
      && remaining == headLimit - Min(|arrivals|, headLimit)
      && Follows(streams, arrivals, headLimit, tailLimit)
      && (overflow <==> |arrivals| > headLimit + tailLimit)
    }

    constructor (limit: nat, retainTail: bool, ghost owner: nat)
      ensures Valid() && arrivals == [] && !overflow && this.owner == owner
      ensures headLimit == HeadLimit(limit, retainTail) && tailLimit == limit - headLimit
      ensures headLimit == if retainTail then limit / 2 else limit
    {
      streams := [Channel([], [], 0, false), Channel([], [], 0, false)];
      remaining := if retainTail then limit / 2 else limit;
      tailLimit := limit - (if retainTail then limit / 2 else limit);
      overflow := false;
      headLimit, this.owner, arrivals := HeadLimit(limit, retainTail), owner, [];
    }

    method Retain(index: Stream, data: Bytes)
      requires Valid()
      modifies this
      ensures Valid()
      ensures arrivals == old(arrivals) + Tag(index, data)
      ensures HeadsGrow(old(streams), streams)
    {
      ghost var all := arrivals + Tag(index, data);
      var c0, c1, left, lost :=
        RetainInto(streams[0], streams[1], index, data, remaining, tailLimit, arrivals, headLimit);
      BothTracked(c0, c1, all, headLimit, tailLimit);
      HeadsFollow(streams, [c0, c1], arrivals, Tag(index, data), headLimit, tailLimit);
      streams, remaining, overflow, arrivals := [c0, c1], left, overflow || lost, all;
    }

    method RetainedBuffers() returns (out: seq<Bytes>)
      requires Valid()
      ensures |out| == 2
      ensures out[0] == Rendered(0, arrivals, headLimit, tailLimit)
      ensures out[1] == Rendered(1, arrivals, headLimit, tailLimit)
    {
      var c0, c1 := streams[0], streams[1];
      assert Tracked(0, c0, arrivals, headLimit, tailLimit) && Tracked(1, c1, arrivals, headLimit, tailLimit);
      var tail0 := JoinChunks(c0.chunks);
      var tail1 := JoinChunks(c1.chunks);
      out := [c0.head + (if c0.omitted then OMITTED else []) + tail0,
              c1.head + (if c1.omitted then OMITTED else []) + tail1];
    }
  }

  /** A channel's tail is a function of the two post-head streams. */
  lemma SameTail(i: Stream, c: Channel, a: seq<Arrival>, c': Channel, b: seq<Arrival>, h: nat, tailLimit: nat)
    requires Tracked(i, c, a, h, tailLimit) && Tracked(i, c', b, h, tailLimit)
    requires PostOn(0, a, h) == PostOn(0, b, h) && PostOn(1, a, h) == PostOn(1, b, h)
    ensures Join(c.chunks) == Join(c'.chunks) && c.size == c'.size && c.omitted == c'.omitted
  {
  }

  /** Two captures whose streams continue alike after the head keep the same tails, however
      the bytes were cut into chunks and interleaved on the way. */
  lemma InterleavingIsInvisible(a: Capture, b: Capture, i: Stream)
    requires a.Valid() && b.Valid() && a.headLimit == b.headLimit && a.tailLimit == b.tailLimit
    requires PostOn(0, a.arrivals, a.headLimit) == PostOn(0, b.arrivals, b.headLimit)
    requires PostOn(1, a.arrivals, a.headLimit) == PostOn(1, b.arrivals, b.headLimit)
    ensures Join(a.streams[i].chunks) == Join(b.streams[i].chunks)
    ensures a.streams[i].size == b.streams[i].size && a.streams[i].omitted == b.streams[i].omitted
  {
    SameTail(i, a.streams[i], a.arrivals, b.streams[i], b.arrivals, a.headLimit, a.tailLimit);
  }
}
