/** The server-side helper's streaming decoder (`read_utterances` in tools/picocalc-ptt):
    its specification over whole streams, the loop proved to meet it, and what it yields
    when the stream is cut short. */
module Utterances {
  import opened Limits
  import opened PttFrame

  type bytes = seq<byte>

  // ---- the specification ----

  /** How a stream ends: between frames (or inside a length prefix), or inside a payload. */
  datatype Tail = Clean | Cut(size: nat, got: bytes)

  datatype Parsed = Parsed(frames: seq<bytes>, tail: Tail)

  /** The payloads of the complete frames of a stream, and how it ends. */
  function Parse(b: bytes): Parsed
    decreases |b|
  {
    if |b| < LEN_PREFIX_BYTES then Parsed([], Clean)
    else
      var size := U32Of(b[..LEN_PREFIX_BYTES]);
      var rest := b[LEN_PREFIX_BYTES..];
      if |rest| < size then Parsed([], Cut(size, rest))
      else
        var p := Parse(rest[size..]);
        Parsed([rest[..size]] + p.frames, p.tail)
  }

  /** Frames grouped by the empty ones: concatenated payloads of the finished groups, and
      what has arrived of the next. */
  datatype Split = Split(closed: seq<bytes>, open: bytes)

  function SplitFrames(frames: seq<bytes>): Split {
    if frames == [] then Split([], [])
    else
      var s := SplitFrames(frames[..|frames| - 1]);
      var last := frames[|frames| - 1];
      if last == [] then Split(s.closed + [s.open], []) else s.(open := s.open + last)
  }

  predicate Reportable(group: bytes, limit: nat) {
    1 <= |group| <= limit
  }

  function Kept(groups: seq<bytes>, limit: nat): seq<bytes> {
    if groups == [] then []
    else Kept(groups[..|groups| - 1], limit) +
         (if Reportable(groups[|groups| - 1], limit) then [groups[|groups| - 1]] else [])
  }

  /** What the end of the stream flushes: the open group, with the bytes of a cut frame that
      did arrive - and no check of the limit after those bytes. */
  function Flushed(open: bytes, tail: Tail, limit: nat): seq<bytes> {
    match tail
    case Clean => if Reportable(open, limit) then [open] else []
    case Cut(size, got) =>
      if size <= limit && |open| <= limit && open + got != [] then [open + got] else []
  }

  function Decoded(stream: bytes, limit: nat): seq<bytes> {
    var p := Parse(stream);
    var s := SplitFrames(p.frames);
    Kept(s.closed, limit) + Flushed(s.open, p.tail, limit)
  }

  // ---- the decoder ----

  /** A stream whose reads return what was asked for, or less only at its end. */
  class ByteStream {
    var rest: bytes

    constructor (contents: bytes)
      ensures rest == contents
    {
      rest := contents;
    }

    method Read(n: nat) returns (block: bytes)
      modifies this
      ensures block + rest == old(rest)
      ensures |block| == if n <= |old(rest)| then n else |old(rest)|
    {
      var k := if n <= |rest| then n else |rest|;
      block, rest := rest[..k], rest[k..];
    }
  }

  /** Discards `size` bytes in blocks; false when the stream ran out first. */
  method SkipPayload(stream: ByteStream, size: nat) returns (whole: bool)
    modifies stream
    ensures whole == (size <= |old(stream.rest)|)
    ensures whole ==> stream.rest == old(stream.rest)[size..]
  {
    ghost var before := stream.rest;
    var skip := size;
    while skip > 0
      invariant 0 <= skip <= size && size - skip <= |before|
      invariant stream.rest == before[size - skip..]
    {
      ghost var here := stream.rest;
      var block := stream.Read(if skip < 65536 then skip else 65536);
      if block == [] {
        return false;
      }
      assert stream.rest == here[|block|..];
      skip := skip - |block|;
    }
    return true;
  }

  /** The frames still to come continue the ones already taken from `all`. */
  ghost predicate Continues(all: bytes, taken: seq<bytes>, rest: bytes) {
    Parse(all) == Parsed(taken + Parse(rest).frames, Parse(rest).tail)
  }

  lemma SplitSnoc(frames: seq<bytes>, f: bytes)
    ensures SplitFrames(frames + [f]) ==
              var s := SplitFrames(frames);
              if f == [] then Split(s.closed + [s.open], []) else s.(open := s.open + f)
  {
    assert (frames + [f])[..|frames + [f]| - 1] == frames;
  }

  lemma KeptSnoc(groups: seq<bytes>, g: bytes, limit: nat)
    ensures Kept(groups + [g], limit) == Kept(groups, limit) + (if Reportable(g, limit) then [g] else [])
  {
    assert (groups + [g])[..|groups + [g]| - 1] == groups;
  }

  /** What the decoder remembers after whole frames: the utterances so far, whether the open
      group is already too long, and its bytes otherwise. */
  ghost predicate Tracks(taken: seq<bytes>, limit: nat, out: seq<bytes>, pending: bytes, dropping: bool) {
    var s := SplitFrames(taken);
    && out == Kept(s.closed, limit)
    && (dropping <==> |s.open| > limit)
    && (!dropping ==> pending == s.open)
    && |pending| <= limit
  }

  /** The utterance yielded when a group or the stream ends. */
  function Yield(pending: bytes, dropping: bool): seq<bytes> {
    if pending != [] && !dropping then [pending] else []
  }

  lemma AtMarker(taken: seq<bytes>, limit: nat, out: seq<bytes>, pending: bytes, dropping: bool)
    requires Tracks(taken, limit, out, pending, dropping)
    ensures Tracks(taken + [[]], limit, out + Yield(pending, dropping), [], false)
  {
    SplitSnoc(taken, []);
    KeptSnoc(SplitFrames(taken).closed, SplitFrames(taken).open, limit);
  }

  lemma AtOversize(taken: seq<bytes>, limit: nat, out: seq<bytes>, pending: bytes, dropping: bool, payload: bytes)
    requires Tracks(taken, limit, out, pending, dropping)
    requires |payload| > limit
    ensures Tracks(taken + [payload], limit, out, pending, true)
  {
    SplitSnoc(taken, payload);
  }

  lemma AtChunk(taken: seq<bytes>, limit: nat, out: seq<bytes>, pending: bytes, dropping: bool, chunk: bytes)
    requires Tracks(taken, limit, out, pending, dropping)
    requires chunk != []
    ensures var tooLong := |pending + chunk| > limit;
            Tracks(taken + [chunk], limit, out, if tooLong then [] else pending + chunk, dropping || tooLong)
  {
    SplitSnoc(taken, chunk);
  }

  /** What reading one frame met: the end of the stream before a whole length prefix, a
      payload that was skipped or ran out while being skipped, or one that was kept. */
  datatype Event = NoPrefix | Skipped | SkipCut | Chunk(payload: bytes) | ChunkCut(payload: bytes)

  /** Reads one frame; a payload longer than `limit` is discarded block by block. `payload`
      is what the stream held of it. */
  method ReadFrame(stream: ByteStream, limit: nat) returns (e: Event, ghost size: nat, ghost payload: bytes)
    modifies stream
    ensures match e
            case NoPrefix => Parse(old(stream.rest)) == Parsed([], Clean)
            case SkipCut => size > limit && Parse(old(stream.rest)) == Parsed([], Cut(size, payload))
            case ChunkCut(p) =>
              size <= limit && p == payload && Parse(old(stream.rest)) == Parsed([], Cut(size, payload))
            case Skipped => |payload| > limit
            case Chunk(p) => |p| <= limit && p == payload
    ensures e.Skipped? || e.Chunk? ==>
              && |stream.rest| < |old(stream.rest)|
              && Parse(old(stream.rest)) == Parsed([payload] + Parse(stream.rest).frames, Parse(stream.rest).tail)
  {
    ghost var rest := stream.rest;
    size, payload := 0, [];
    var prefix := stream.Read(LEN_PREFIX_BYTES);
    ghost var after := stream.rest;
    if |prefix| < LEN_PREFIX_BYTES {
      return NoPrefix, size, payload;
    }
    assert rest[..LEN_PREFIX_BYTES] == prefix && rest[LEN_PREFIX_BYTES..] == after;
    var count := U32Of(prefix);
    size := count;
    if count > limit {
      var whole := SkipPayload(stream, count);
      payload := if whole then after[..count] else after;
      e := if whole then Skipped else SkipCut;
    } else {
      var chunk := stream.Read(count);
      payload := chunk;
      assert |chunk| < count ==> chunk == after;
      assert |chunk| == count ==> after[..count] == chunk && after[count..] == stream.rest;
      e := if |chunk| < count then ChunkCut(chunk) else Chunk(chunk);
    }
  }

  lemma Continue(all: bytes, taken: seq<bytes>, rest: bytes, payload: bytes, after: bytes)
    requires Continues(all, taken, rest)
    requires Parse(rest) == Parsed([payload] + Parse(after).frames, Parse(after).tail)
    ensures Continues(all, taken + [payload], after)
  {
    assert taken + ([payload] + Parse(after).frames) == taken + [payload] + Parse(after).frames;
  }

  lemma AtStreamEnd(all: bytes, taken: seq<bytes>, rest: bytes, limit: nat,
                    out: seq<bytes>, pending: bytes, dropping: bool)
    requires Continues(all, taken, rest) && Tracks(taken, limit, out, pending, dropping)
    requires Parse(rest).frames == []
    ensures Parse(all).frames == taken
    ensures Decoded(all, limit) == out +
              match Parse(rest).tail
              case Clean => Yield(pending, dropping)
              case Cut(size, got) => if size > limit then [] else Yield(pending + got, dropping)
  {
    assert taken + [] == taken;
  }

  /** Yields each utterance of `stream`. `held` records how much audio is held at each loop
      head; oversize frames and utterances are dropped without losing the frame boundary. */
  method ReadUtterances(stream: ByteStream, limit: nat)
    returns (out: seq<bytes>, ghost held: seq<nat>)
    modifies stream
    ensures out == Decoded(old(stream.rest), limit)
    ensures forall i :: 0 <= i < |held| ==> held[i] <= limit
    ensures |held| == |Parse(old(stream.rest)).frames| + 1
  {
    out, held := [], [];
    var pending: bytes := [];
    var dropping := false;
    ghost var all := stream.rest;
    ghost var taken: seq<bytes> := [];
    assert [] + Parse(all).frames == Parse(all).frames;
    while true
      invariant Continues(all, taken, stream.rest)
      invariant Tracks(taken, limit, out, pending, dropping)
      invariant |held| == |taken| && forall i :: 0 <= i < |held| ==> held[i] <= limit
      decreases |stream.rest|
    {
      held := held + [|pending|];
      ghost var rest := stream.rest;
      var e, size, payload := ReadFrame(stream, limit);
      if !e.Skipped? && !e.Chunk? {
        AtStreamEnd(all, taken, rest, limit, out, pending, dropping);
        if e.SkipCut? {
          return;
        }
        if e.ChunkCut? {
          pending := pending + e.payload;
        }
        if pending != [] && !dropping {
          out := out + [pending];
        }
        return;
      }
      Continue(all, taken, rest, payload, stream.rest);
      if e.Skipped? {
        AtOversize(taken, limit, out, pending, dropping, payload);
        dropping := true;
      } else if e.payload == [] {
        AtMarker(taken, limit, out, pending, dropping);
        if pending != [] && !dropping {
          out := out + [pending];
        }
        pending, dropping := [], false;
      } else {
        AtChunk(taken, limit, out, pending, dropping, e.payload);
        pending := pending + e.payload;
        if |pending| > limit {
          dropping, pending := true, [];
        }
      }
      taken := taken + [payload];
    }
  }

  // ---- complete and truncated streams ----

  ghost predicate Sendable(frames: seq<bytes>) {
    forall i :: 0 <= i < |frames| ==> |frames[i]| <= MAX_U32
  }

  function Encoded(frames: seq<bytes>): bytes
    requires Sendable(frames)
  {
    if frames == [] then [] else Framed(frames[0]) + Encoded(frames[1..])
  }

  /** Every utterance of the frames: the finished groups, then the open one. */
  function AllGroups(frames: seq<bytes>): seq<bytes> {
    SplitFrames(frames).closed + [SplitFrames(frames).open]
  }

  /** A cut inside the first frame leaves none whole; a later cut parses the first frame
      and leaves the rest of the cut to the frames after it. */
  lemma ParseFirst(f: bytes, more: bytes, n: nat)
    requires |f| <= MAX_U32 && n <= LEN_PREFIX_BYTES + |f| + |more|
    ensures var p := Parse((Framed(f) + more)[..n]);
            if n < LEN_PREFIX_BYTES then p == Parsed([], Clean)
            else if n - LEN_PREFIX_BYTES < |f| then p == Parsed([], Cut(|f|, f[..n - LEN_PREFIX_BYTES]))
            else
              var q := Parse(more[..n - LEN_PREFIX_BYTES - |f|]);
              p == Parsed([f] + q.frames, q.tail)
  {
    var b := (Framed(f) + more)[..n];
    if n >= LEN_PREFIX_BYTES {
      assert b[..LEN_PREFIX_BYTES] == U32Bytes(|f|);
      LengthRoundTrip(|f|);
      var rest := b[LEN_PREFIX_BYTES..];
      assert rest == (f + more)[..n - LEN_PREFIX_BYTES];
      if |rest| < |f| {
        assert rest == f[..n - LEN_PREFIX_BYTES];
      } else {
        assert rest[..|f|] == f && rest[|f|..] == more[..n - LEN_PREFIX_BYTES - |f|];
      }
    }
  }

  /** A stream of `frames` cut so that its first `j` are whole and at most a proper prefix
      of the next is left. */
  ghost predicate CutAfter(frames: seq<bytes>, j: nat, p: Parsed) {
    && j <= |frames| && p.frames == frames[..j]
    && match p.tail
       case Clean => true
       case Cut(size, got) => j < |frames| && size == |frames[j]| && got < frames[j]
  }

  lemma CutAfterOneMore(f: bytes, rest: seq<bytes>, j: nat, q: Parsed)
    requires CutAfter(rest, j, q)
    ensures CutAfter([f] + rest, j + 1, Parsed([f] + q.frames, q.tail))
  {
    assert ([f] + rest)[..j + 1] == [f] + rest[..j];
  }

  lemma {:induction false} ParseCut(frames: seq<bytes>, n: nat) returns (j: nat)
    requires Sendable(frames) && n <= |Encoded(frames)|
    ensures CutAfter(frames, j, Parse(Encoded(frames)[..n]))
    ensures n == |Encoded(frames)| ==> j == |frames| && Parse(Encoded(frames)[..n]).tail == Clean
    decreases |frames|
  {
    j := 0;
    if frames != [] {
      var f, more := frames[0], Encoded(frames[1..]);
      ParseFirst(f, more, n);
      if n >= LEN_PREFIX_BYTES + |f| {
        j := ParseCut(frames[1..], n - LEN_PREFIX_BYTES - |f|);
        CutAfterOneMore(f, frames[1..], j, Parse(more[..n - LEN_PREFIX_BYTES - |f|]));
        assert [f] + frames[1..] == frames;
        j := j + 1;
      }
    }
  }

  /** Later frames only extend the open group and add groups after the finished ones. */
  lemma {:induction false} SplitGrows(frames: seq<bytes>, j: nat)
    requires j <= |frames|
    ensures var s := SplitFrames(frames[..j]);
            && |s.closed| < |AllGroups(frames)| && s.closed == AllGroups(frames)[..|s.closed|]
            && s.open <= AllGroups(frames)[|s.closed|]
            && (j < |frames| && frames[j] != [] ==> s.open + frames[j] <= AllGroups(frames)[|s.closed|])
    decreases |frames| - j
  {
    if j == |frames| {
      assert frames[..j] == frames;
    } else {
      SplitGrows(frames, j + 1);
      SplitSnoc(frames[..j], frames[j]);
      assert frames[..j + 1] == frames[..j] + [frames[j]];
    }
  }

  /** On complete frames the decoder yields exactly the groups of 1 to `limit` bytes, in
      order, the last one whether or not its end marker was sent. */
  lemma CompleteStream(frames: seq<bytes>, limit: nat)
    requires Sendable(frames)
    ensures Decoded(Encoded(frames), limit) == Kept(AllGroups(frames), limit)
  {
    var b := Encoded(frames);
    var j := ParseCut(frames, |b|);
    assert b[..|b|] == b && frames[..j] == frames;
    KeptSnoc(SplitFrames(frames).closed, SplitFrames(frames).open, limit);
  }

  /** Cutting a stream whose utterances all fit, at any byte, yields the finished utterances
      and at most one non-empty prefix of the next. */
  lemma TruncatedStream(frames: seq<bytes>, limit: nat, n: nat) returns (c: nat, part: bytes)
    requires Sendable(frames) && n <= |Encoded(frames)|
    requires forall i :: 0 <= i < |AllGroups(frames)| ==> |AllGroups(frames)[i]| <= limit
    ensures c < |AllGroups(frames)| && part <= AllGroups(frames)[c]
    ensures Decoded(Encoded(frames)[..n], limit) ==
              Kept(AllGroups(frames)[..c], limit) + (if part == [] then [] else [part])
  {
    var j := ParseCut(frames, n);
    var s := SplitFrames(frames[..j]);
    SplitGrows(frames, j);
    c := |s.closed|;
    match Parse(Encoded(frames)[..n]).tail
    case Clean =>
      part := s.open;
    case Cut(size, got) =>
      part := s.open + got;
      assert s.open + frames[j] <= AllGroups(frames)[c];
      assert got <= frames[j];
      assert part <= s.open + frames[j];
  }

  // ---- the limit ----

  /** The stream was cut inside a frame of a group that the bytes which did arrive take past
      the limit. */
  predicate CutOverflows(open: bytes, tail: Tail, limit: nat) {
    tail.Cut? && tail.size <= limit && |open| <= limit < |open| + |tail.got|
  }

  lemma {:induction false} KeptWithin(groups: seq<bytes>, limit: nat)
    ensures forall i :: 0 <= i < |Kept(groups, limit)| ==> 1 <= |Kept(groups, limit)[i]| <= limit
  {
    if groups != [] {
      KeptWithin(groups[..|groups| - 1], limit);
    }
  }

  lemma {:induction false} CutIsPartial(b: bytes)
    ensures Parse(b).tail.Cut? ==> |Parse(b).tail.got| < Parse(b).tail.size
    decreases |b|
  {
    if |b| >= LEN_PREFIX_BYTES {
      var size := U32Of(b[..LEN_PREFIX_BYTES]);
      if |b| - LEN_PREFIX_BYTES >= size {
        CutIsPartial(b[LEN_PREFIX_BYTES + size..]);
      }
    }
  }

  /** Every utterance is within the limit, unless and only unless the stream is cut so that it
      overflows; even then none is longer than twice the limit. */
  lemma WithinLimitIff(stream: bytes, limit: nat)
    ensures var out, p := Decoded(stream, limit), Parse(stream);
            (forall i :: 0 <= i < |out| ==> |out[i]| <= limit) <==>
              !CutOverflows(SplitFrames(p.frames).open, p.tail, limit)
    ensures forall i :: 0 <= i < |Decoded(stream, limit)| ==> |Decoded(stream, limit)[i]| <= 2 * limit
  {
    var p := Parse(stream);
    var s := SplitFrames(p.frames);
    var kept, flushed := Kept(s.closed, limit), Flushed(s.open, p.tail, limit);
    KeptWithin(s.closed, limit);
    CutIsPartial(stream);
    if CutOverflows(s.open, p.tail, limit) {
      assert flushed == [s.open + p.tail.got];
      assert Decoded(stream, limit)[|kept|] == s.open + p.tail.got;
    }
  }

  lemma OneFrameIsOpen(frame: bytes)
    requires frame != []
    ensures SplitFrames([frame]) == Split([], frame)
  {
    assert [frame][..0] == [] && [] + frame == frame;
  }

  lemma OneFrameThenCut(frame: bytes, next: bytes, n: nat)
    requires |frame| <= MAX_U32 && |next| <= MAX_U32 && n < |next|
    ensures Parse((Framed(frame) + Framed(next))[..2 * LEN_PREFIX_BYTES + |frame| + n]) ==
              Parsed([frame], Cut(|next|, next[..n]))
  {
    ParseFirst(next, [], LEN_PREFIX_BYTES + n);
    assert Framed(next) + [] == Framed(next);
    ParseFirst(frame, Framed(next), 2 * LEN_PREFIX_BYTES + |frame| + n);
  }

  /** Such streams exist for every limit of two bytes or more: an utterance that just fits,
      and a frame of two more bytes cut after the first. The one utterance yielded is too long. */
  lemma StreamThatOverflows(limit: nat, frame: bytes)
    requires 2 <= limit <= MAX_U32 && |frame| == limit
    ensures var stream := (Framed(frame) + Framed([0, 0]))[..2 * LEN_PREFIX_BYTES + limit + 1];
            && CutOverflows(SplitFrames(Parse(stream).frames).open, Parse(stream).tail, limit)
            && Decoded(stream, limit) == [frame + [0]]
  {
    var next: bytes := [0, 0];
    OneFrameThenCut(frame, next, 1);
    OneFrameIsOpen(frame);
    assert next[..1] == [0];
  }
}
