/** The capture task's drain of the DMA ring (src/mic.rs:653-722) over the ring arithmetic of
    terminal-model/src/dma_ring.rs and the extraction of terminal-model/src/pcm_extract.rs. */
module Capture {
  import opened Sequences
  import opened Limits
  import I2sProgram

  const DMA_RING_WORDS: nat := 2048
  const DMA_RING_MARGIN: nat := 2
  const CHUNK_WORDS: nat := 800

  // ---- ring arithmetic ----

  function AvailableWords(writeIndex: nat, readIndex: nat, capacity: nat): nat
    requires readIndex <= capacity && capacity > 0
  {
    (writeIndex + capacity - readIndex) % capacity
  }

  datatype Segment = Segment(start: nat, len: nat)

  function Segments(readIndex: nat, count: nat, capacity: nat): (Segment, Segment)
    requires readIndex <= capacity
  {
    if count == 0 then (Segment(readIndex, 0), Segment(0, 0))
    else
      var first := if count < capacity - readIndex then count else capacity - readIndex;
      (Segment(readIndex, first), Segment(0, count - first))
  }

  /** The index the segments visit in step `k`. */
  function Visited(segs: (Segment, Segment), k: nat): nat {
    if k < segs.0.len then segs.0.start + k else segs.1.start + (k - segs.0.len)
  }

  /** The segments visit exactly the run, in order and inside the ring. */
  lemma SegmentsCoverTheRun(readIndex: nat, count: nat, capacity: nat, k: nat)
    requires readIndex < capacity && count <= capacity
    ensures var segs := Segments(readIndex, count, capacity);
            && segs.0.len + segs.1.len == count
            && segs.0.start + segs.0.len <= capacity
            && segs.1.start + segs.1.len <= capacity
            && (k < count ==> Visited(segs, k) == (readIndex + k) % capacity)
  {
    if k < count {
      if readIndex + k < capacity {
        DivModIs(readIndex + k, 0, readIndex + k, capacity);
      } else {
        DivModIs(readIndex + k, 1, readIndex + k - capacity, capacity);
      }
    }
  }

  lemma QuotientIsUnique(a: int, r: int, b: int, s: int, d: int)
    requires 0 <= r < d && 0 <= s < d && a * d + r == b * d + s
    ensures a == b
  {
    assert (a - b) * d == s - r;
    if a > b {
      MulAtLeast(a - b, d);
      assert false;
    }
    if b > a {
      MulAtLeast(b - a, d);
      assert false;
    }
  }

  lemma MulAtLeast(k: int, d: int)
    requires k >= 1 && d >= 0
    ensures k * d >= d
  {
  }

  lemma DivModIs(x: nat, q: nat, r: nat, d: nat)
    requires 0 <= r < d && x == q * d + r
    ensures x % d == r
  {
    QuotientIsUnique(x / d, x % d, q, r, d);
  }

  /** The ring positions tell the backlog up to whole laps, whatever it is. */
  lemma AvailableIsBacklogModLap(written: nat, consumed: nat, capacity: nat)
    requires capacity > 0 && consumed <= written
    ensures AvailableWords(written % capacity, consumed % capacity, capacity) == (written - consumed) % capacity
  {
    var w, c, d := written % capacity, consumed % capacity, written - consumed;
    var qw, qc, qd := written / capacity, consumed / capacity, d / capacity;
    assert written == qw * capacity + w && consumed == qc * capacity + c && d == qd * capacity + d % capacity;
    var x := w + capacity - c;
    assert x - d % capacity == (1 - (qw - qc) + qd) * capacity;
    QuotientIsUnique(x / capacity, x % capacity, 1 - (qw - qc) + qd, d % capacity, capacity);
  }

  /** Below one lap, and only there, they tell it exactly. */
  lemma AvailableIsBacklogIff(written: nat, consumed: nat, capacity: nat)
    requires capacity > 0 && consumed <= written
    ensures AvailableWords(written % capacity, consumed % capacity, capacity) == written - consumed <==>
            written - consumed < capacity
  {
    var d := written - consumed;
    AvailableIsBacklogModLap(written, consumed, capacity);
    if d < capacity {
      DivModIs(d, 0, d, capacity);
    }
  }

  // ---- the ring ----

  /** Where in the ring, of DMA_RING_WORDS words, the word at `position` is kept. */
  function Index(position: int): (i: nat)
    ensures i < DMA_RING_WORDS
  {
    position % 2048
  }

  lemma IndexAdd(a: nat, b: nat)
    ensures Index(Index(a) + b) == Index(a + b)
  {
  }

  lemma AvailableInRing(now: nat, at: nat)
    requires at <= now
    ensures AvailableWords(Index(now), Index(at), DMA_RING_WORDS) == Index(now - at)
  {
    AvailableIsBacklogModLap(now, at, 2048);
  }

  /** Where chunk `c` starts among the words kept, CHUNK_WORDS to a chunk. */
  function ChunkStart(c: nat): nat {
    800 * c
  }

  /** The DMA wrote `written` from ring index 0 on; the last lap of it is still there. */
  predicate RingHolds(ring: seq<nat>, written: seq<nat>) {
    && |ring| == DMA_RING_WORDS
    && forall i :: 0 <= i < |written| && |written| - DMA_RING_WORDS <= i ==> ring[Index(i)] == written[i]
  }

  /** How much a poll takes: whole frames, clear of the margin, up to one chunk. */
  function Take(available: nat, filled: nat): (n: nat)
    requires filled <= CHUNK_WORDS
    ensures n % 2 == 0 && n <= CHUNK_WORDS - filled && n <= available
    ensures n > 0 ==> n + DMA_RING_MARGIN <= available
    ensures n + 1 >= CHUNK_WORDS - filled || n + 1 + DMA_RING_MARGIN >= available
  {
    var a := if available < DMA_RING_MARGIN then 0 else available - DMA_RING_MARGIN;
    var m := if a < CHUNK_WORDS - filled then a else CHUNK_WORDS - filled;
    m - m % 2
  }

  /** Where a resynchronised reader restarts, as a count of written words. */
  function ResyncAt(now: nat): (r: nat)
    requires now >= DMA_RING_MARGIN
    ensures r % 2 == 0 && r + DMA_RING_MARGIN <= now <= r + DMA_RING_MARGIN + 1
  {
    now - DMA_RING_MARGIN - now % 2
  }

  /** The index a resynchronised reader restarts from: even on purpose. */
  function RestartIndex(writeIndex: nat): (r: nat)
    requires writeIndex < DMA_RING_WORDS
  {
    var i := Index(writeIndex + DMA_RING_WORDS - DMA_RING_MARGIN);
    i - i % 2
  }

  lemma RestartInLap(w: nat)
    requires 2 <= w < 2048
    ensures RestartIndex(w) == w - 2 - w % 2
  {
  }

  lemma RestartAcrossLap(w: nat)
    requires w < 2
    ensures RestartIndex(w) == 2046
  {
  }

  lemma IndexIs(q: nat, r: nat)
    requires r < 2048
    ensures Index(2048 * q + r) == r
  {
  }

  lemma ResyncIndex(now: nat)
    requires now >= DMA_RING_MARGIN
    ensures RestartIndex(Index(now)) == Index(ResyncAt(now))
  {
    var q, w := now / 2048, Index(now);
    assert now == 2048 * q + w;
    LapsAreEven(q, w);
    if w >= 2 {
      RestartInLap(w);
      IndexIs(q, w - 2 - w % 2);
    } else {
      RestartAcrossLap(w);
      IndexIs(q - 1, 2046);
    }
  }

  lemma LapsAreEven(q: nat, w: nat)
    ensures (2048 * q + w) % 2 == w % 2
  {
    assert 2048 * q + w == 2 * (1024 * q) + w;
  }

  /** The samples of a chunk: one for each even (left slot) word. */
  function LeftSamples(words: seq<nat>, bits: nat): (r: seq<int>)
    ensures |r| == (|words| + 1) / 2
  {
    seq((|words| + 1) / 2, i requires 0 <= i < (|words| + 1) / 2 => I2sProgram.SlotSample(words[2 * i], bits))
  }

  /** Fills `pcm` from the left-slot words, stopping at the shorter of the two. */
  method ExtractLeftChannelPcm(raw: array<nat>, pcm: array<int>, bits: nat)
    modifies pcm
    ensures forall i :: 0 <= i < pcm.Length && 2 * i < raw.Length ==> pcm[i] == I2sProgram.SlotSample(raw[2 * i], bits)
    ensures forall i :: 0 <= i < pcm.Length && 2 * i >= raw.Length ==> pcm[i] == old(pcm[i])
    ensures (raw.Length + 1) / 2 == pcm.Length ==> pcm[..] == LeftSamples(old(raw[..]), bits)
  {
    var i := 0;
    while i < pcm.Length && 2 * i < raw.Length
      invariant 0 <= i <= pcm.Length && 2 * i <= raw.Length + 1
      invariant raw[..] == old(raw[..])
      invariant forall k :: 0 <= k < i ==> pcm[k] == I2sProgram.SlotSample(raw[2 * k], bits)
      invariant forall k :: i <= k < pcm.Length ==> pcm[k] == old(pcm[k])
    {
      pcm[i] := I2sProgram.SlotSample(raw[2 * i], bits);
      i := i + 1;
    }
  }

  /** The run of `count` words from `readIndex` on, wrapping. */
  function RunOf(ring: seq<nat>, readIndex: nat, count: nat): (r: seq<nat>)
    requires |ring| == DMA_RING_WORDS
    ensures |r| == count
  {
    seq(count, k requires 0 <= k < count => ring[Index(readIndex + k)])
  }

  lemma SegmentsAreTheRun(ring: seq<nat>, readIndex: nat, count: nat)
    requires |ring| == DMA_RING_WORDS && readIndex < DMA_RING_WORDS && count <= DMA_RING_WORDS
    ensures var segs := Segments(readIndex, count, DMA_RING_WORDS);
            && segs.0.start + segs.0.len <= |ring| && segs.1.start + segs.1.len <= |ring|
            && ring[segs.0.start..segs.0.start + segs.0.len] + ring[segs.1.start..segs.1.start + segs.1.len] ==
               RunOf(ring, readIndex, count)
  {
    var segs := Segments(readIndex, count, DMA_RING_WORDS);
    SegmentsCoverTheRun(readIndex, count, 2048, 0);
    var a, b := ring[segs.0.start..segs.0.start + segs.0.len], ring[segs.1.start..segs.1.start + segs.1.len];
    forall k | 0 <= k < count
      ensures (a + b)[k] == RunOf(ring, readIndex, count)[k]
    {
      SegmentsCoverTheRun(readIndex, count, 2048, k);
    }
  }

  /** Copies the run of `take` words at `readIndex` into the chunk, segment by segment. */
  method CopyRun(ring: array<nat>, chunk: array<nat>, filled: nat, readIndex: nat, take: nat)
    requires ring != chunk && ring.Length == DMA_RING_WORDS && readIndex < ring.Length
    requires filled + take <= chunk.Length && take <= ring.Length
    modifies chunk
    ensures chunk[..filled + take] == old(chunk[..filled]) + RunOf(ring[..], readIndex, take)
  {
    var segs := Segments(readIndex, take, DMA_RING_WORDS);
    SegmentsAreTheRun(ring[..], readIndex, take);
    SegmentsCoverTheRun(readIndex, take, 2048, 0);
    CopySegment(ring, chunk, filled, segs.0);
    CopySegment(ring, chunk, filled + segs.0.len, segs.1);
  }

  method CopySegment(ring: array<nat>, chunk: array<nat>, at: nat, seg: Segment)
    requires ring != chunk && seg.start + seg.len <= ring.Length && at + seg.len <= chunk.Length
    modifies chunk
    ensures chunk[..at + seg.len] == old(chunk[..at]) + ring[..][seg.start..seg.start + seg.len]
  {
    var offset := 0;
    while offset < seg.len
      invariant 0 <= offset <= seg.len
      invariant chunk[..at + offset] == old(chunk[..at]) + ring[..][seg.start..seg.start + offset]
    {
      chunk[at + offset] := ring[seg.start + offset];
      offset := offset + 1;
    }
  }

  /** What a run reads from the ring is what the DMA wrote there. */
  lemma RunIsWritten(ring: seq<nat>, written: seq<nat>, consumed: nat, count: nat)
    requires RingHolds(ring, written)
    requires consumed + count <= |written| <= consumed + DMA_RING_WORDS
    ensures RunOf(ring, Index(consumed), count) == written[consumed..consumed + count]
  {
    forall k | 0 <= k < count
      ensures RunOf(ring, Index(consumed), count)[k] == written[consumed..consumed + count][k]
    {
      IndexAdd(consumed, k);
      assert ring[Index(consumed + k)] == written[consumed + k];
    }
  }

  // ---- which words are taken ----

  /** Where the reader really is when it next takes something: whole laps it did not notice
      are lost. */
  function Resumed(at: nat, now: nat): (r: nat)
    requires at <= now
    ensures r <= now
  {
    ModAtMost(now - at, 2048);
    now - Index(now - at)
  }

  lemma ModAtMost(a: nat, n: nat)
    requires n > 0
    ensures 0 <= a % n <= a
  {
    assert a == n * (a / n) + a % n && n * (a / n) >= 0;
  }

  /** The laps are whole, and there are none below a backlog of one lap. */
  lemma ResumedIs(at: nat, now: nat)
    requires at <= now
    ensures at <= Resumed(at, now)
    ensures Index(Resumed(at, now)) == Index(at) && Resumed(at, now) % 2 == at % 2
    ensures Resumed(at, now) == at <==> now - at < DMA_RING_WORDS
  {
    var laps := (now - at) / 2048;
    assert now - at == 2048 * laps + Index(now - at);
    LapsApart(at, laps);
  }

  lemma LapsApart(at: nat, laps: nat)
    ensures Index(at + 2048 * laps) == Index(at) && (at + 2048 * laps) % 2 == at % 2
  {
    LapsAreEven(laps, at);
    var q, r := at / 2048, at % 2048;
    DivModIs(at + 2048 * laps, q + laps, r, 2048);
  }

  /** Consecutive positions. */
  function Span(at: nat, count: nat): (r: seq<nat>)
    ensures |r| == count
  {
    seq(count, k requires 0 <= k < count => at + k)
  }

  /** Positions go up, below `end`, left slot (even), right slot (odd), left, right, ... */
  predicate Alternating(places: seq<nat>, end: nat) {
    && (forall i :: 0 <= i < |places| ==> places[i] < end && places[i] % 2 == i % 2)
    && (forall i :: 1 <= i < |places| ==> places[i - 1] < places[i])
  }

  lemma AlternatingGrows(places: seq<nat>, end: nat, at: nat, count: nat)
    requires Alternating(places, end) && end <= at && |places| % 2 == 0 && at % 2 == 0
    ensures Alternating(places + Span(at, count), at + count)
  {
    var all := places + Span(at, count);
    forall i | 0 <= i < |all|
      ensures all[i] < at + count && all[i] % 2 == i % 2
    {
      if i >= |places| {
        assert all[i] == at + (i - |places|);
      }
    }
    forall i | 1 <= i < |all|
      ensures all[i - 1] < all[i]
    {
    }
  }

  lemma AlternatingPrefix(places: seq<nat>, end: nat, later: nat, n: nat)
    requires Alternating(places, end) && end <= later && n <= |places|
    ensures Alternating(places[..n], later)
  {
  }

  lemma SpanJoin(at: nat, a: nat, b: nat)
    ensures Span(at, a) + Span(at + a, b) == Span(at, a + b)
  {
  }

  /** The words at `places`, of those written so far. */
  function Pick(written: seq<nat>, places: seq<nat>): (r: seq<nat>)
    ensures |r| == |places|
  {
    seq(|places|, i requires 0 <= i < |places| => if places[i] < |written| then written[places[i]] else 0)
  }

  predicate Within(places: seq<nat>, size: nat) {
    forall i :: 0 <= i < |places| ==> places[i] < size
  }

  lemma PickGrows(written: seq<nat>, places: seq<nat>, at: nat, count: nat)
    requires at + count <= |written|
    ensures Pick(written, places + Span(at, count)) == Pick(written, places) + written[at..at + count]
  {
  }

  lemma PickLater(written: seq<nat>, later: seq<nat>, places: seq<nat>)
    requires Within(places, |written|) && written <= later
    ensures Within(places, |later|) && Pick(later, places) == Pick(written, places)
  {
  }

  // ---- what has been emitted ----

  /** A chunk of the samples whose words were taken from `kept[start]` on. */
  predicate ChunkIs(chunk: seq<int>, kept: seq<nat>, start: nat, written: seq<nat>, bits: nat) {
    && start + CHUNK_WORDS <= |kept| && Within(kept[start..start + CHUNK_WORDS], |written|)
    && chunk == LeftSamples(Pick(written, kept[start..start + CHUNK_WORDS]), bits)
  }

  /** The chunks are the samples of the words taken, 800 words to a chunk. */
  predicate ChunksAre(chunks: seq<seq<int>>, kept: seq<nat>, written: seq<nat>, bits: nat) {
    && |kept| == ChunkStart(|chunks|)
    && forall c :: 0 <= c < |chunks| ==> ChunkIs(chunks[c], kept, ChunkStart(c), written, bits)
  }

  lemma ChunkStays(chunk: seq<int>, kept: seq<nat>, more: seq<nat>, start: nat,
                   written: seq<nat>, later: seq<nat>, bits: nat)
    requires ChunkIs(chunk, kept, start, written, bits) && written <= later
    ensures ChunkIs(chunk, kept + more, start, later, bits)
  {
    assert (kept + more)[start..start + CHUNK_WORDS] == kept[start..start + CHUNK_WORDS];
    PickLater(written, later, kept[start..start + CHUNK_WORDS]);
  }

  lemma ChunksStay(chunks: seq<seq<int>>, kept: seq<nat>, written: seq<nat>, later: seq<nat>, bits: nat)
    requires ChunksAre(chunks, kept, written, bits) && written <= later
    ensures ChunksAre(chunks, kept, later, bits)
  {
    assert kept + [] == kept;
    forall c | 0 <= c < |chunks|
      ensures ChunkIs(chunks[c], kept, ChunkStart(c), later, bits)
    {
      ChunkStays(chunks[c], kept, [], ChunkStart(c), written, later, bits);
    }
  }

  lemma ChunksGrow(chunks: seq<seq<int>>, kept: seq<nat>, places: seq<nat>, written: seq<nat>, bits: nat)
    requires ChunksAre(chunks, kept, written, bits) && |places| == CHUNK_WORDS && Within(places, |written|)
    ensures ChunksAre(chunks + [LeftSamples(Pick(written, places), bits)], kept + places, written, bits)
  {
    var chunks' := chunks + [LeftSamples(Pick(written, places), bits)];
    assert (kept + places)[|kept|..|kept| + CHUNK_WORDS] == places;
    forall c | 0 <= c < |chunks'|
      ensures ChunkIs(chunks'[c], kept + places, ChunkStart(c), written, bits)
    {
      if c < |chunks| {
        ChunkStays(chunks[c], kept, places, ChunkStart(c), written, written, bits);
      }
    }
  }

  // ---- the reader's record ----

  /** What the DMA had written by the last poll and where in it the reader is; where the words
      of the chunk being filled, and of those emitted, were taken from; the emitted chunks; and
      how often words were skipped, by a restart or by laps nobody noticed. */
  datatype Tape = Tape(
    written: seq<nat>, at: nat, places: seq<nat>, kept: seq<nat>, chunks: seq<seq<int>>,
    resyncs: nat, lapped: nat)

  const NEW_TAPE := Tape([], 0, [], [], [], 0, 0)

  /** Nothing was taken out of order, and nothing skipped unless counted. */
  predicate Placed(t: Tape) {
    && Alternating(t.kept + t.places, t.at)
    && (t.resyncs + t.lapped == 0 ==> t.kept + t.places == Span(0, t.at))
  }

  predicate Good(t: Tape, bits: nat) {
    && ChunksAre(t.chunks, t.kept, t.written, bits) && Placed(t)
    && t.at % 2 == 0 && |t.places| % 2 == 0 && |t.places| < CHUNK_WORDS
    && (t.at == 0 || t.at + DMA_RING_MARGIN <= |t.written|)
  }

  /** The DMA goes on writing. */
  function Observed(t: Tape, words: seq<nat>): Tape {
    t.(written := words)
  }

  /** How much a poll at write head `now` takes: it sees the backlog less any whole laps. */
  function Taken(t: Tape, now: nat): (n: nat)
    requires t.at <= now && |t.places| <= CHUNK_WORDS
    ensures n % 2 == 0 && |t.places| + n <= CHUNK_WORDS
  {
    Take(Index(now - t.at), |t.places|)
  }

  function Took(t: Tape, from: nat, take: nat): Tape {
    t.(at := from + take, places := t.places + Span(from, take), lapped := t.lapped + (if from == t.at then 0 else 1))
  }

  function Filled(t: Tape, now: nat): Tape
    requires t.at <= now && |t.places| <= CHUNK_WORDS
  {
    if Taken(t, now) == 0 then t else Took(t, Resumed(t.at, now), Taken(t, now))
  }

  /** The chunk handed over, if it is full. */
  function Handed(t: Tape, bits: nat): Option<seq<int>> {
    if |t.places| < CHUNK_WORDS then None else Some(LeftSamples(Pick(t.written, t.places), bits))
  }

  /** A full chunk is handed over, and the next one started. */
  function Emitted(t: Tape, bits: nat): Tape {
    if |t.places| < CHUNK_WORDS then t
    else
      t.(chunks := t.chunks + [LeftSamples(Pick(t.written, t.places), bits)],
         kept := t.kept + t.places, places := [])
  }

  /** The chunk being filled is dropped and the reader restarts behind the write head. */
  function Restarted(t: Tape, now: nat): Tape
    requires now >= DMA_RING_MARGIN
  {
    t.(at := ResyncAt(now), places := [], resyncs := t.resyncs + 1)
  }

  /** A whole pass up to the hand-over. */
  function Read(t: Tape, late: bool, now: nat): Tape
    requires t.at <= now && |t.places| <= CHUNK_WORDS && (late ==> now >= DMA_RING_MARGIN)
  {
    Filled(if late then Restarted(t, now) else t, now)
  }

  /** A whole pass. */
  function Polled(t: Tape, bits: nat, late: bool, now: nat): Tape
    requires t.at <= now && |t.places| <= CHUNK_WORDS && (late ==> now >= DMA_RING_MARGIN)
  {
    Emitted(Read(t, late, now), bits)
  }

  /** What a pass hands over is what it adds to the chunks. */
  lemma PolledChunks(t: Tape, bits: nat, late: bool, now: nat)
    requires t.at <= now && |t.places| <= CHUNK_WORDS && (late ==> now >= DMA_RING_MARGIN)
    ensures Polled(t, bits, late, now).chunks ==
              match Handed(Read(t, late, now), bits) case None => t.chunks case Some(pcm) => t.chunks + [pcm]
  {
  }

  // ---- a pass keeps the record ----

  lemma NothingPlaced(t: Tape)
    requires t.kept == [] && t.places == [] && t.at == 0
    ensures Placed(t)
  {
    assert t.kept + t.places == [];
  }

  lemma NothingEmitted(t: Tape, bits: nat)
    requires t.kept == [] && t.chunks == []
    ensures ChunksAre(t.chunks, t.kept, t.written, bits)
  {
  }

  lemma NewIsGood(bits: nat)
    ensures Good(NEW_TAPE, bits)
  {
    NothingPlaced(NEW_TAPE);
    NothingEmitted(NEW_TAPE, bits);
  }

  lemma ObservedIsGood(t: Tape, bits: nat, words: seq<nat>)
    requires Good(t, bits) && t.written <= words
    ensures Good(Observed(t, words), bits)
    ensures Pick(words, t.places) == Pick(t.written, t.places)
  {
    ChunksStay(t.chunks, t.kept, t.written, words, bits);
    PlacesWithin(t);
    PickLater(t.written, words, t.places);
  }

  lemma PlacesWithin(t: Tape)
    requires Placed(t) && t.at <= |t.written|
    ensures Within(t.places, |t.written|)
  {
    forall i | 0 <= i < |t.places|
      ensures t.places[i] < |t.written|
    {
      assert t.places[i] == (t.kept + t.places)[|t.kept| + i];
    }
  }

  lemma TookIsPlaced(t: Tape, from: nat, take: nat)
    requires Placed(t) && (|t.kept| + |t.places|) % 2 == 0 && t.at <= from && from % 2 == 0
    ensures Placed(Took(t, from, take))
  {
    assert |t.kept + t.places| == |t.kept| + |t.places|;
    assert t.kept + (t.places + Span(from, take)) == t.kept + t.places + Span(from, take);
    AlternatingGrows(t.kept + t.places, t.at, from, take);
    SpanJoin(0, t.at, take);
  }

  lemma WhatIsTaken(t: Tape, now: nat)
    requires t.at <= now && |t.places| <= CHUNK_WORDS && t.at % 2 == 0
    ensures Taken(t, now) > 0 ==> Resumed(t.at, now) + Taken(t, now) + DMA_RING_MARGIN <= now
    ensures t.at <= Resumed(t.at, now) && Resumed(t.at, now) % 2 == 0 && Index(Resumed(t.at, now)) == Index(t.at)
    ensures Resumed(t.at, now) == t.at <==> now - t.at < DMA_RING_WORDS
  {
    ResumedIs(t.at, now);
  }

  /** What holds between filling and emitting. */
  predicate Full(t: Tape, bits: nat) {
    && ChunksAre(t.chunks, t.kept, t.written, bits) && Placed(t)
    && t.at % 2 == 0 && |t.places| % 2 == 0 && |t.places| <= CHUNK_WORDS
    && (t.at == 0 || t.at + DMA_RING_MARGIN <= |t.written|)
  }

  lemma StartsAreEven(c: nat)
    ensures ChunkStart(c) % 2 == 0
  {
    TwiceIsEven(ChunkStart(c), 400 * c);
  }

  lemma TwiceIsEven(a: nat, b: nat)
    requires a == b + b
    ensures a % 2 == 0
  {
  }

  lemma KeptIsEven(chunks: seq<seq<int>>, kept: seq<nat>, written: seq<nat>, bits: nat)
    requires ChunksAre(chunks, kept, written, bits)
    ensures |kept| % 2 == 0
  {
    StartsAreEven(|chunks|);
  }

  lemma TookIsFull(t: Tape, bits: nat, from: nat, take: nat)
    requires Good(t, bits) && t.at <= from && from % 2 == 0 && take % 2 == 0
    requires |t.places| + take <= CHUNK_WORDS && from + take + DMA_RING_MARGIN <= |t.written|
    ensures Full(Took(t, from, take), bits)
  {
    KeptIsEven(t.chunks, t.kept, t.written, bits);
    EvenSum(|t.kept|, |t.places|);
    EvenSum(from, take);
    EvenSum(|t.places|, take);
    TookIsPlaced(t, from, take);
  }

  lemma EvenSum(a: nat, b: nat)
    requires a % 2 == 0 && b % 2 == 0
    ensures (a + b) % 2 == 0
  {
  }

  lemma FilledIsFull(t: Tape, bits: nat, now: nat)
    requires Good(t, bits) && t.at <= now <= |t.written|
    ensures Full(Filled(t, now), bits)
  {
    if Taken(t, now) > 0 {
      WhatIsTaken(t, now);
      TookIsFull(t, bits, Resumed(t.at, now), Taken(t, now));
    }
  }

  lemma EmittedIsGood(t: Tape, bits: nat)
    requires Full(t, bits)
    ensures Good(Emitted(t, bits), bits)
  {
    if |t.places| == CHUNK_WORDS {
      PlacesWithin(t);
      ChunksGrow(t.chunks, t.kept, t.places, t.written, bits);
      assert t.kept + t.places + [] == t.kept + t.places;
    }
  }

  lemma RestartedIsGood(t: Tape, bits: nat, now: nat)
    requires Good(t, bits) && DMA_RING_MARGIN <= now <= |t.written| && (t.at == 0 || t.at + DMA_RING_MARGIN <= now)
    ensures Good(Restarted(t, now), bits) && Restarted(t, now).at <= now
  {
    AlternatingPrefix(t.kept + t.places, t.at, ResyncAt(now), |t.kept|);
    assert (t.kept + t.places)[..|t.kept|] == t.kept == t.kept + [];
  }

  lemma PolledIsGood(t: Tape, bits: nat, late: bool, now: nat)
    requires Good(t, bits) && t.at <= now <= |t.written|
    requires late ==> now >= DMA_RING_MARGIN && (t.at == 0 || t.at + DMA_RING_MARGIN <= now)
    ensures Good(Polled(t, bits, late, now), bits)
  {
    if late {
      RestartedIsGood(t, bits, now);
      FilledIsFull(Restarted(t, now), bits, now);
      EmittedIsGood(Filled(Restarted(t, now), now), bits);
    } else {
      FilledIsFull(t, bits, now);
      EmittedIsGood(Filled(t, now), bits);
    }
  }

  /** A late pass takes nothing: its restart is within a margin and a word of the write head. */
  lemma LateTakesNothing(t: Tape, bits: nat, now: nat)
    requires now >= DMA_RING_MARGIN && t.at <= now && |t.places| <= CHUNK_WORDS
    ensures Polled(t, bits, true, now) == Restarted(t, now)
  {
  }

  lemma PassIs(t: Tape, bits: nat, late: bool, now: nat)
    requires Good(t, bits) && t.at <= now && (late ==> now >= DMA_RING_MARGIN)
    ensures late ==> Handed(Read(t, true, now), bits) == None
    ensures Polled(t, bits, late, now).resyncs == if late then t.resyncs + 1 else t.resyncs
    ensures late ==> Polled(t, bits, late, now).places == []
    ensures late ==> Polled(t, bits, late, now).at + 2 <= now <= Polled(t, bits, late, now).at + 3
  {
    if late {
      LateTakesNothing(t, bits, now);
    }
  }

  /** Any other takes every whole frame clear of the margin that it sees, or fills its chunk;
      below a lap it sees the whole backlog, and it counts the laps it skips. */
  lemma PollTakesAll(t: Tape, now: nat)
    requires t.at <= now && |t.places| <= CHUNK_WORDS && t.at % 2 == 0
    ensures |Filled(t, now).places| == CHUNK_WORDS - 1 || |Filled(t, now).places| == CHUNK_WORDS ||
            Index(now - t.at) <= Taken(t, now) + DMA_RING_MARGIN + 1
    ensures now - t.at < DMA_RING_WORDS ==> Index(now - t.at) == now - t.at && Filled(t, now).lapped == t.lapped
    ensures now - t.at >= DMA_RING_WORDS && Taken(t, now) > 0 ==> Filled(t, now).lapped == t.lapped + 1
  {
    ResumedIs(t.at, now);
  }

  /** Words the DMA writes in a millisecond, two to a sample: at least one. */
  function WordsPerMs(rate: nat): nat {
    if rate * 2 / 1000 < 1 then 1 else rate * 2 / 1000
  }

  /** The drain loop's locals: the chunk being filled and the reader's position. */
  class Drain {
    const chunk: array<nat>
    const bits: nat
    const rate: nat
    const wordsPerMs: nat
    var readIndex: nat
    var filled: nat
    var overrunNoticed: bool
    ghost var tape: Tape

    /** The locals agree with the record. */
    ghost predicate Synced()
      reads this, chunk
    {
      && chunk.Length == CHUNK_WORDS && filled == |tape.places| <= CHUNK_WORDS
      && readIndex == Index(tape.at)
      && chunk[..filled] == Pick(tape.written, tape.places)
      && (overrunNoticed <==> tape.resyncs > 0)
    }

    ghost predicate Valid()
      reads this, chunk
    {
      Synced() && Good(tape, bits) && wordsPerMs == WordsPerMs(rate)
    }

    constructor (rate: nat, bits: nat)
      ensures Valid() && fresh(chunk) && this.bits == bits && this.rate == rate && tape == NEW_TAPE
    {
      chunk := new nat[CHUNK_WORDS];
      this.bits, this.rate := bits, rate;
      wordsPerMs := if rate * 2 / 1000 < 1 then 1 else rate * 2 / 1000;
      readIndex, filled, overrunNoticed, tape := 0, 0, false, NEW_TAPE;
      NewIsGood(bits);
    }

    /** Restarts behind the write head, on an even word, dropping the chunk being filled. */
    method Resync(writeIndex: nat, ghost now: nat) returns (notice: bool)
      requires Synced() && now >= DMA_RING_MARGIN && writeIndex == Index(now)
      modifies this`readIndex, this`filled, this`overrunNoticed, this`tape
      ensures Synced() && tape == Restarted(old(tape), now)
      ensures notice <==> old(tape.resyncs) == 0
    {
      notice := !overrunNoticed;
      overrunNoticed := true;
      ResyncIndex(now);
      readIndex := RestartIndex(writeIndex);
      filled := 0;
      tape := Restarted(tape, now);
    }

    /** Copies `take` words from where the reader really is to the end of the chunk. */
    method Copy(ring: array<nat>, take: nat, ghost from: nat)
      requires Synced() && ring != chunk && RingHolds(ring[..], tape.written)
      requires filled + take <= CHUNK_WORDS && readIndex == Index(from)
      requires from + take <= |tape.written| <= from + DMA_RING_WORDS
      modifies this`readIndex, this`filled, this`tape, chunk
      ensures Synced() && tape == Took(old(tape), from, take)
    {
      RunIsWritten(ring[..], tape.written, from, take);
      PickGrows(tape.written, tape.places, from, take);
      CopyRun(ring, chunk, filled, readIndex, take);
      IndexAdd(from, take);
      readIndex := Index(readIndex + take);
      filled := filled + take;
      tape := Took(tape, from, take);
    }

    /** Takes whole frames from the ring into the chunk. */
    method Fill(ring: array<nat>, writeIndex: nat, ghost now: nat)
      requires Synced() && ring != chunk && RingHolds(ring[..], tape.written) && writeIndex == Index(now)
      requires tape.at <= now <= |tape.written| && tape.at % 2 == 0
      requires Taken(tape, now) > 0 ==> |tape.written| <= Resumed(tape.at, now) + DMA_RING_WORDS
      modifies this`readIndex, this`filled, this`tape, chunk
      ensures Synced() && tape == Filled(old(tape), now)
    {
      AvailableInRing(now, tape.at);
      var take := Take(AvailableWords(writeIndex, readIndex, DMA_RING_WORDS), filled);
      if take > 0 {
        WhatIsTaken(tape, now);
        Copy(ring, take, Resumed(tape.at, now));
      }
    }

    /** Hands a full chunk over and starts the next one. */
    method Emit() returns (pcm: Option<seq<int>>)
      requires Synced()
      modifies this`filled, this`tape
      ensures Synced() && tape == Emitted(old(tape), bits) && pcm == Handed(old(tape), bits)
    {
      pcm := None;
      if filled == CHUNK_WORDS {
        assert chunk[..] == chunk[..filled];
        var samples := new int[SAMPLES_PER_CHUNK];
        ExtractLeftChannelPcm(chunk, samples, bits);
        pcm := Some(samples[..]);
        filled := 0;
      }
      tape := Emitted(tape, bits);
    }

    /** The DMA had written `words` by the time the ring is read. */
    ghost method Observe(words: seq<nat>)
      requires Valid() && tape.written <= words
      modifies this`tape
      ensures Valid() && tape == Observed(old(tape), words)
    {
      ObservedIsGood(tape, bits, words);
      tape := Observed(tape, words);
    }

    /** The overrun check: a pass late by the clock restarts. */
    method CheckOverrun(writeIndex: nat, late: bool, ghost now: nat) returns (notice: bool)
      requires Synced() && writeIndex == Index(now) && (late ==> now >= DMA_RING_MARGIN)
      modifies this`readIndex, this`filled, this`overrunNoticed, this`tape
      ensures Synced() && tape == (if late then Restarted(old(tape), now) else old(tape))
      ensures notice <==> late && old(tape.resyncs) == 0
    {
      notice := false;
      if late {
        notice := Resync(writeIndex, now);
      }
    }

    lemma ReadsWithinTheRing(late: bool, now: nat)
      requires Good(tape, bits) && tape.at <= now <= |tape.written| && (late ==> now >= DMA_RING_MARGIN)
      requires !late ==> Taken(tape, now) > 0 ==> |tape.written| <= Resumed(tape.at, now) + DMA_RING_WORDS
      ensures var t := if late then Restarted(tape, now) else tape;
              && t.at <= now && t.at % 2 == 0 && |t.places| <= CHUNK_WORDS
              && (Taken(t, now) > 0 ==> |tape.written| <= Resumed(t.at, now) + DMA_RING_WORDS)
    {
      if late {
        LateTakesNothing(tape, bits, now);
      }
    }

    /** A pass, `late` or not, once the DMA has written all it will before the ring is read. */
    method Pass(ring: array<nat>, writeIndex: nat, late: bool, ghost now: nat)
      returns (emitted: Option<seq<int>>, notice: bool)
      requires Valid() && ring != chunk && RingHolds(ring[..], tape.written) && writeIndex == Index(now)
      requires tape.at <= now <= |tape.written| && (tape.at == 0 || !late || tape.at + DMA_RING_MARGIN <= now)
      requires if late then now >= DMA_RING_MARGIN
               else Taken(tape, now) > 0 ==> |tape.written| <= Resumed(tape.at, now) + DMA_RING_WORDS
      modifies this, chunk
      ensures Valid() && tape == Polled(old(tape), bits, late, now)
      ensures emitted == Handed(Read(old(tape), late, now), bits)
      ensures notice <==> late && old(tape.resyncs) == 0
    {
      PolledIsGood(tape, bits, late, now);
      ReadsWithinTheRing(late, now);
      notice := CheckOverrun(writeIndex, late, now);
      Fill(ring, writeIndex, now);
      emitted := Emit();
    }

    /** One pass of the loop at `elapsedMs` since the last: the DMA had written `now` words
        when its write index was sampled, and `words` by the time the ring was read, when it
        had not yet lapped what is taken. It is late when at the nominal rate the DMA writes
        more than the ring holds in that time; only then it restarts, two or three words
        behind the write head, and says so the first time. */
    method Poll(ring: array<nat>, writeIndex: nat, elapsedMs: nat, ghost now: nat, ghost words: seq<nat>)
      returns (emitted: Option<seq<int>>, notice: bool)
      requires Valid() && ring != chunk && RingHolds(ring[..], words)
      requires tape.written <= words && |tape.written| <= now <= |words| && writeIndex == Index(now)
      requires if elapsedMs * WordsPerMs(rate) > 2048 then now >= DMA_RING_MARGIN
               else Taken(tape, now) > 0 ==> |words| <= Resumed(tape.at, now) + DMA_RING_WORDS
      modifies this, chunk
      ensures Valid()
      ensures var late := elapsedMs * WordsPerMs(rate) > 2048;
              && tape == Polled(Observed(old(tape), words), bits, late, now)
              && emitted == Handed(Read(Observed(old(tape), words), late, now), bits)
              && (notice <==> late && old(tape.resyncs) == 0)
      ensures elapsedMs * WordsPerMs(rate) > 2048 ==>
                && emitted.None? && tape.resyncs == old(tape.resyncs) + 1 && tape.places == []
                && tape.at + 2 <= now <= tape.at + 3
      ensures elapsedMs * WordsPerMs(rate) <= 2048 ==>
                && tape.resyncs == old(tape.resyncs)
                && tape == Emitted(Filled(Observed(old(tape), words), now), bits)
    {
      var late := elapsedMs * wordsPerMs > DMA_RING_WORDS;
      Observe(words);
      PassIs(tape, bits, late, now);
      emitted, notice := Pass(ring, writeIndex, late, now);
    }
  }

  // ---- what the samples are ----

  /** The sample of frame `k`: the one its left slot's word carries. */
  function FrameSample(bits: nat, pin: nat -> bool, t: nat, k: nat): int {
    I2sProgram.SlotSample(I2sProgram.SlotWord(bits, pin, t, 2 * k), bits)
  }

  /** It is the top 16 of the bits the microphone sent in that slot. */
  lemma FrameSampleIsTop16(bits: nat, pin: nat -> bool, t: nat, k: nat)
    requires 2 <= bits <= 32
    ensures FrameSample(bits, pin, t, k) ==
            I2sProgram.ToI16(I2sProgram.BitsValue(I2sProgram.Top16(
              I2sProgram.SlotBits(pin, t + I2sProgram.SlotTime(bits, 2 * k), bits))))
  {
    I2sProgram.SampleIsTop16(I2sProgram.SlotBits(pin, t + I2sProgram.SlotTime(bits, 2 * k), bits));
  }

  /** Within a good record the words emitted go up and alternate left and right. */
  lemma KeptAlternates(t: Tape, bits: nat)
    requires Good(t, bits)
    ensures Alternating(t.kept, t.at)
    ensures t.resyncs + t.lapped == 0 ==> t.kept == Span(0, |t.kept|)
  {
    AlternatingPrefix(t.kept + t.places, t.at, t.at, |t.kept|);
    assert (t.kept + t.places)[..|t.kept|] == t.kept;
    if t.resyncs + t.lapped == 0 {
      assert Span(0, t.at)[..|t.kept|] == Span(0, |t.kept|);
    }
  }

  lemma ChunkSample(chunk: seq<int>, kept: seq<nat>, start: nat, written: seq<nat>, bits: nat, j: nat, i: nat)
    requires ChunkIs(chunk, kept, start, written, bits) && j < SAMPLES_PER_CHUNK && i == start + 2 * j
    ensures |chunk| == SAMPLES_PER_CHUNK && i < |kept| && kept[i] < |written|
    ensures chunk[j] == I2sProgram.SlotSample(written[kept[i]], bits)
  {
    assert kept[start..start + CHUNK_WORDS][2 * j] == kept[i];
  }

  lemma WordAt(written: seq<nat>, bits: nat, pin: nat -> bool, t: nat, slots: nat, i: nat)
    requires written <= I2sProgram.AllWords(bits, pin, t, slots) && i < |written|
    ensures written[i] == I2sProgram.SlotWord(bits, pin, t, i)
  {
  }

  lemma ChunkAt(chunks: seq<seq<int>>, kept: seq<nat>, written: seq<nat>, bits: nat, c: nat, start: nat)
    requires ChunksAre(chunks, kept, written, bits) && c < |chunks| && start == ChunkStart(c)
    ensures ChunkIs(chunks[c], kept, start, written, bits)
  {
    assert ChunkIs(chunks[c], kept, ChunkStart(c), written, bits);
  }

  lemma ChunksStartEven(c: nat, j: nat, i: nat)
    requires i == ChunkStart(c) + 2 * j
    ensures i % 2 == 0 && i >= 2 * j
  {
    StartsAreEven(c);
    EvenSum(ChunkStart(c), 2 * j);
  }

  lemma PlaceSample(written: seq<nat>, bits: nat, pin: nat -> bool, t: nat, slots: nat, frame: nat)
    requires written <= I2sProgram.AllWords(bits, pin, t, slots) && 2 * frame < |written|
    ensures I2sProgram.SlotSample(written[2 * frame], bits) == FrameSample(bits, pin, t, frame)
  {
    WordAt(written, bits, pin, t, slots, 2 * frame);
  }

  /** Whatever was skipped, noticed or not: sample `j` of chunk `c` is a whole frame's, the one
      whose left slot was the word taken for it. As the words taken go up, so do the frames. */
  lemma SampleIsALeftSlot(tape: Tape, bits: nat, pin: nat -> bool, t: nat, slots: nat, c: nat, j: nat, i: nat)
    returns (frame: nat)
    requires Good(tape, bits) && tape.written <= I2sProgram.AllWords(bits, pin, t, slots)
    requires c < |tape.chunks| && j < SAMPLES_PER_CHUNK && i == ChunkStart(c) + 2 * j
    ensures i < |tape.kept| && tape.kept[i] == 2 * frame && (i >= 2 ==> tape.kept[i - 2] < tape.kept[i])
    ensures |tape.chunks[c]| == SAMPLES_PER_CHUNK && tape.chunks[c][j] == FrameSample(bits, pin, t, frame)
  {
    ChunksStartEven(c, j, i);
    ChunkAt(tape.chunks, tape.kept, tape.written, bits, c, i - 2 * j);
    ChunkSample(tape.chunks[c], tape.kept, i - 2 * j, tape.written, bits, j, i);
    KeptAlternates(tape, bits);
    EvenPlace(tape.kept, tape.at, i);
    frame := tape.kept[i] / 2;
    PlaceSample(tape.written, bits, pin, t, slots, frame);
  }

  lemma EvenPlace(kept: seq<nat>, end: nat, i: nat)
    requires Alternating(kept, end) && i < |kept| && i % 2 == 0
    ensures kept[i] % 2 == 0
    ensures i >= 2 ==> kept[i - 2] < kept[i]
  {
    if i >= 2 {
      assert kept[i - 2] < kept[i - 1] < kept[i];
    }
  }

  /** A recording of which nothing was skipped: sample `j` of chunk `c` is frame 400 * c + j,
      so the chunks are every frame's sample, each once, in order. */
  lemma CaptureIsGapless(tape: Tape, bits: nat, pin: nat -> bool, t: nat, slots: nat, c: nat, j: nat, k: nat)
    requires Good(tape, bits) && tape.written <= I2sProgram.AllWords(bits, pin, t, slots)
    requires tape.resyncs == 0 && tape.lapped == 0
    requires c < |tape.chunks| && j < SAMPLES_PER_CHUNK && 2 * k == ChunkStart(c) + 2 * j
    ensures |tape.chunks[c]| == SAMPLES_PER_CHUNK && tape.chunks[c][j] == FrameSample(bits, pin, t, k)
  {
    var frame := SampleIsALeftSlot(tape, bits, pin, t, slots, c, j, 2 * k);
    KeptAlternates(tape, bits);
    SpanAt(0, |tape.kept|, 2 * k);
  }

  lemma SpanAt(at: nat, count: nat, i: nat)
    requires i < count
    ensures Span(at, count)[i] == at + i
  {
  }
}
