/** Whole recordings as the drain loop sees them, pass after pass: which passes are late, and
    that with passes that come in time no word is ever skipped. */
module CaptureRuns {
  import opened Limits
  import opened Capture
  import I2sProgram

  /** A pass `elapsedMs` after the one before: the DMA had written `now` words when the write
      index was sampled and `words` by the time the ring was read. */
  datatype Pass = Pass(elapsedMs: nat, now: nat, words: seq<nat>)

  /** In the time since the pass before, at the nominal rate, the DMA writes no more words than
      the ring holds. */
  predicate InTime(rate: nat, p: Pass) {
    p.elapsedMs * WordsPerMs(rate) <= 2048
  }

  /** At 16 kHz a pass is in time up to 64 ms after the one before. */
  lemma InTimeAt16kHz(p: Pass)
    ensures InTime(16_000, p) <==> p.elapsedMs <= 64
  {
  }

  /** Below a thousand samples a second the rate counts as one word a millisecond. */
  lemma InTimeAtSlowRates(rate: nat, p: Pass)
    requires rate < 1000
    ensures InTime(rate, p) <==> p.elapsedMs <= 2048
  {
  }

  /** What the DMA has done by a pass. */
  predicate Follows(t: Tape, p: Pass) {
    t.written <= p.words && |t.written| <= p.now <= |p.words|
  }

  function AfterPass(t: Tape, rate: nat, bits: nat, p: Pass): Tape
    requires Good(t, bits) && Follows(t, p) && (!InTime(rate, p) ==> p.now >= DMA_RING_MARGIN)
  {
    Polled(Observed(t, p.words), bits, !InTime(rate, p), p.now)
  }

  lemma PassIsGood(t: Tape, rate: nat, bits: nat, p: Pass)
    requires Good(t, bits) && Follows(t, p) && (!InTime(rate, p) ==> p.now >= DMA_RING_MARGIN)
    ensures Good(AfterPass(t, rate, bits, p), bits)
  {
    ObservedIsGood(t, bits, p.words);
    PolledIsGood(Observed(t, p.words), bits, !InTime(rate, p), p.now);
  }

  /** A recording: the records after each of its passes. */
  ghost predicate IsRecording(tapes: seq<Tape>, passes: seq<Pass>, rate: nat, bits: nat) {
    && |tapes| == |passes| + 1 && tapes[0] == NEW_TAPE
    && forall i :: 0 <= i < |passes| ==> IsPass(tapes[i], passes[i], rate, bits, tapes[i + 1])
  }

  predicate IsPass(t: Tape, p: Pass, rate: nat, bits: nat, t': Tape) {
    && Good(t, bits) && Follows(t, p) && (!InTime(rate, p) ==> p.now >= DMA_RING_MARGIN)
    && t' == AfterPass(t, rate, bits, p)
  }

  /** Words written and not yet taken when pass `p` samples the write index. */
  function Backlog(t: Tape, p: Pass): int {
    p.now - t.at
  }

  // ---- passes in time, below a lap ----

  lemma OnTimeSkipsNothing(t: Tape, p: Pass, rate: nat, bits: nat, t': Tape)
    requires IsPass(t, p, rate, bits, t') && InTime(rate, p) && Backlog(t, p) < DMA_RING_WORDS
    ensures t'.resyncs == t.resyncs && t'.lapped == t.lapped
  {
    PollTakesAll(Observed(t, p.words), p.now);
  }

  /** The first `n` passes are in time and find less than a lap waiting. */
  ghost predicate BelowALap(tapes: seq<Tape>, passes: seq<Pass>, rate: nat, n: nat)
    requires n <= |passes| < |tapes|
  {
    n > 0 ==>
      && BelowALap(tapes, passes, rate, n - 1)
      && InTime(rate, passes[n - 1]) && Backlog(tapes[n - 1], passes[n - 1]) < DMA_RING_WORDS
  }

  /** While every pass is in time and finds less than a lap waiting, nothing is skipped. */
  lemma {:induction false} NothingSkipped(tapes: seq<Tape>, passes: seq<Pass>, rate: nat, bits: nat, n: nat)
    requires IsRecording(tapes, passes, rate, bits) && n <= |passes|
    requires BelowALap(tapes, passes, rate, n)
    ensures tapes[n].resyncs == 0 && tapes[n].lapped == 0 && Good(tapes[n], bits)
  {
    if n == 0 {
      NewIsGood(bits);
    } else {
      NothingSkipped(tapes, passes, rate, bits, n - 1);
      OnTimeSkipsNothing(tapes[n - 1], passes[n - 1], rate, bits, tapes[n]);
      PassIsGood(tapes[n - 1], rate, bits, passes[n - 1]);
    }
  }

  // ---- passes a chunk apart ----

  /** After a pass that sampled `now`: all but three words are taken, or a chunk was just
      handed over with little more than another waiting. */
  predicate CaughtUp(t: Tape, now: nat) {
    && t.at <= now <= |t.written|
    && (now - t.at <= 3 || (t.places == [] && now - t.at <= 803))
  }

  /** The write index sampled by the last of `n` passes. */
  function Head(passes: seq<Pass>, n: nat): nat
    requires n <= |passes|
  {
    if n == 0 then 0 else passes[n - 1].now
  }

  lemma TakesTheRest(t: Tape, now: nat)
    requires t.at <= now && now - t.at < DMA_RING_WORDS && t.at % 2 == 0
    requires |t.places| % 2 == 0 && |t.places| < CHUNK_WORDS
    ensures var t' := Filled(t, now);
            && t'.at <= now && |t'.places| <= CHUNK_WORDS && t'.written == t.written
            && (now - t'.at <= 3 ||
                (|t'.places| == CHUNK_WORDS && now - t'.at == now - t.at - (CHUNK_WORDS - |t.places|)))
  {
    ResumedIs(t.at, now);
    assert Index(now - t.at) == now - t.at;
  }

  lemma StaysCaughtUp(t: Tape, before: nat, p: Pass, rate: nat, bits: nat, t': Tape)
    requires IsPass(t, p, rate, bits, t') && InTime(rate, p)
    requires CaughtUp(t, before) && before <= p.now <= before + 800
    ensures Backlog(t, p) < DMA_RING_WORDS && CaughtUp(t', p.now)
  {
    TakesTheRest(Observed(t, p.words), p.now);
  }

  /** The first `n` passes are in time, with at most a chunk's words, 25 ms at 16 kHz, between
      them. */
  predicate Steady(passes: seq<Pass>, rate: nat, n: nat)
    requires n <= |passes|
  {
    n > 0 ==>
      && Steady(passes, rate, n - 1)
      && InTime(rate, passes[n - 1]) && Head(passes, n - 1) <= Head(passes, n) <= Head(passes, n - 1) + 800
  }

  lemma {:induction false} SteadyCatchesUp(tapes: seq<Tape>, passes: seq<Pass>, rate: nat, bits: nat, n: nat)
    requires IsRecording(tapes, passes, rate, bits) && n <= |passes| && Steady(passes, rate, n)
    ensures CaughtUp(tapes[n], Head(passes, n)) && BelowALap(tapes, passes, rate, n)
  {
    if n > 0 {
      SteadyCatchesUp(tapes, passes, rate, bits, n - 1);
      StaysCaughtUp(tapes[n - 1], Head(passes, n - 1), passes[n - 1], rate, bits, tapes[n]);
    }
  }

  /** Steady passes never let a word go: nothing is skipped or reported, and what is not handed
      over yet is less than two chunks and three words. */
  lemma SteadyRunIsComplete(tapes: seq<Tape>, passes: seq<Pass>, rate: nat, bits: nat, n: nat)
    requires IsRecording(tapes, passes, rate, bits) && n <= |passes| && Steady(passes, rate, n)
    ensures tapes[n].resyncs == 0 && tapes[n].lapped == 0 && Good(tapes[n], bits)
    ensures Head(passes, n) < ChunkStart(|tapes[n].chunks|) + 1603
  {
    SteadyCatchesUp(tapes, passes, rate, bits, n);
    NothingSkipped(tapes, passes, rate, bits, n);
    WhereItIs(tapes[n], bits);
  }

  lemma WhereItIs(t: Tape, bits: nat)
    requires Good(t, bits) && t.resyncs + t.lapped == 0
    ensures t.at == ChunkStart(|t.chunks|) + |t.places|
  {
    assert |t.kept + t.places| == |t.kept| + |t.places|;
  }

  lemma FrameOf(c: nat, j: nat, k: nat)
    requires k == 400 * c + j
    ensures 2 * k == ChunkStart(c) + 2 * j
  {
  }

  /** So the recording is gapless: sample `j` of chunk `c` is frame 400 * c + j of the
      microphone's. */
  lemma SteadyRunIsGapless(tapes: seq<Tape>, passes: seq<Pass>, rate: nat, bits: nat, n: nat,
                           pin: nat -> bool, t: nat, slots: nat, c: nat, j: nat, k: nat)
    requires IsRecording(tapes, passes, rate, bits) && n <= |passes| && Steady(passes, rate, n)
    requires tapes[n].written <= I2sProgram.AllWords(bits, pin, t, slots)
    requires c < |tapes[n].chunks| && j < SAMPLES_PER_CHUNK && k == 400 * c + j
    ensures |tapes[n].chunks[c]| == SAMPLES_PER_CHUNK
    ensures tapes[n].chunks[c][j] == FrameSample(bits, pin, t, k)
  {
    var tape := tapes[n];
    assert Good(tape, bits) && tape.resyncs == 0 && tape.lapped == 0 by {
      SteadyRunIsComplete(tapes, passes, rate, bits, n);
    }
    FrameOf(c, j, k);
    CaptureIsGapless(tape, bits, pin, t, slots, c, j, k);
  }
}
