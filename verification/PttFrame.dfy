/** The push-to-talk wire framing (terminal-model/src/ptt_frame.rs) and the queueing of
    frames for the session's audio channel (src/net.rs). */
module PttFrame {
  import opened Sequences
  import opened Limits
  import opened AudioRing

  type byte = x: int | 0 <= x < 0x100

  const LEN_PREFIX_BYTES: nat := 4

  function FrameSize(samples: nat): nat {
    LEN_PREFIX_BYTES + samples * 2
  }

  /** A 32-bit count, least significant byte first. */
  function U32Bytes(n: nat): (r: seq<byte>)
    requires n <= MAX_U32
    ensures |r| == LEN_PREFIX_BYTES
  {
    [n % 0x100, n / 0x100 % 0x100, n / 0x1_0000 % 0x100, n / 0x100_0000]
  }

  function U32Of(b: seq<byte>): (n: nat)
    requires |b| == LEN_PREFIX_BYTES
  {
    b[0] as int + b[1] as int * 0x100 + b[2] as int * 0x1_0000 + b[3] as int * 0x100_0000
  }

  lemma LengthRoundTrip(n: nat)
    requires n <= MAX_U32
    ensures U32Of(U32Bytes(n)) == n
  {
    var q1 := n / 0x100;
    var q2 := q1 / 0x100;
    assert n / 0x1_0000 == q2;
    assert n / 0x100_0000 == q2 / 0x100;
  }

  lemma NoCarry(n: nat)
    requires n % 0x100 < 0xFF
    ensures (n + 1) / 0x100 == n / 0x100 && (n + 1) % 0x100 == n % 0x100 + 1
  {
  }

  lemma ByteQuotients(n: nat)
    ensures n / 0x1_0000 == n / 0x100 / 0x100 && n / 0x100_0000 == n / 0x100 / 0x100 / 0x100
  {
  }

  /** The first byte counts ones: it alone goes up by one, short of a carry. */
  lemma LeastByteFirst(n: nat)
    requires n + 1 <= MAX_U32 && n % 0x100 < 0xFF
    ensures U32Bytes(n + 1) == [U32Bytes(n)[0] + 1] + U32Bytes(n)[1..]
  {
    NoCarry(n);
    ByteQuotients(n);
    ByteQuotients(n + 1);
  }

  lemma BytesInOrder()
    ensures U32Bytes(0x0403_0201) == [1, 2, 3, 4]
  {
  }

  /** The byte count of a payload, or nothing when 32 bits cannot hold it. */
  function LenBytes(payload: nat): Option<seq<byte>> {
    if payload <= MAX_U32 then Some(U32Bytes(payload)) else None
  }

  /** A sample in two's complement, least significant byte first. */
  function SampleBytes(s: Sample): (r: seq<byte>)
    ensures |r| == 2
  {
    var u := if s < 0 then s + 0x1_0000 else s;
    [u % 0x100, u / 0x100]
  }

  lemma SampleLeastByteFirst()
    ensures SampleBytes(0x0201) == [1, 2] && SampleBytes(-2) == [0xFE, 0xFF]
  {
  }

  function SampleOf(lo: byte, hi: byte): Sample {
    var u := lo as int + hi as int * 0x100;
    if u >= 0x8000 then u - 0x1_0000 else u
  }

  function Payload(samples: seq<Sample>): (r: seq<byte>)
    ensures |r| == 2 * |samples|
  {
    if samples == [] then []
    else Payload(samples[..|samples| - 1]) + SampleBytes(samples[|samples| - 1])
  }

  /** What a receiver makes of a payload; a trailing odd byte is dropped. */
  function SamplesOf(bytes: seq<byte>): seq<Sample> {
    if |bytes| < 2 then []
    else [SampleOf(bytes[0], bytes[1])] + SamplesOf(bytes[2..])
  }

  lemma {:induction false} PayloadConcat(a: seq<Sample>, b: seq<Sample>)
    ensures Payload(a + b) == Payload(a) + Payload(b)
    decreases |b|
  {
    if b == [] {
      assert a + b == a;
    } else {
      PayloadConcat(a, b[..|b| - 1]);
      assert (a + b)[..|a + b| - 1] == a + b[..|b| - 1];
    }
  }

  lemma {:induction false} PayloadRoundTrip(samples: seq<Sample>)
    ensures SamplesOf(Payload(samples)) == samples
  {
    if samples != [] {
      PayloadRoundTrip(samples[1..]);
      PayloadConcat(samples[..1], samples[1..]);
      assert samples == samples[..1] + samples[1..];
      assert Payload(samples[..1]) == SampleBytes(samples[0]);
      assert Payload(samples)[2..] == Payload(samples[1..]);
      assert Payload(samples)[..2] == SampleBytes(samples[0]);
      assert Payload(samples)[0] == SampleBytes(samples[0])[0] && Payload(samples)[1] == SampleBytes(samples[0])[1];
    }
  }

  /** One frame: the byte count, then the payload. */
  function Framed(payload: seq<byte>): (r: seq<byte>)
    requires |payload| <= MAX_U32
    ensures |r| == LEN_PREFIX_BYTES + |payload|
  {
    U32Bytes(|payload|) + payload
  }

  lemma {:induction false} PayloadIndex(samples: seq<Sample>, i: nat)
    requires i < |samples|
    ensures Payload(samples[..i + 1]) == Payload(samples[..i]) + SampleBytes(samples[i])
  {
    assert samples[..i + 1][..i] == samples[..i];
  }

  /** A buffer with `bytes` put in at `at`. */
  function Spliced(before: seq<byte>, at: nat, bytes: seq<byte>): (r: seq<byte>)
    requires at + |bytes| <= |before|
    ensures |r| == |before|
  {
    before[..at] + bytes + before[at + |bytes|..]
  }

  lemma SplicedNone(before: seq<byte>, at: nat)
    requires at <= |before|
    ensures Spliced(before, at, []) == before
  {
  }

  lemma SplicedNext(before: seq<byte>, at: nat, bytes: seq<byte>, more: seq<byte>)
    requires at + |bytes| + |more| <= |before|
    ensures Spliced(Spliced(before, at, bytes), at + |bytes|, more) == Spliced(before, at, bytes + more)
  {
    var once, twice := Spliced(before, at, bytes), Spliced(before, at, bytes + more);
    assert once[..at + |bytes|] == before[..at] + bytes;
    assert once[at + |bytes| + |more|..] == before[at + |bytes| + |more|..];
    assert before[..at] + (bytes + more) == before[..at] + bytes + more;
  }

  lemma SplicedParts(before: seq<byte>, bytes: seq<byte>)
    requires |bytes| <= |before|
    ensures Spliced(before, 0, bytes)[..|bytes|] == bytes
    ensures Spliced(before, 0, bytes)[|bytes|..] == before[|bytes|..]
  {
  }

  method PutLength(out: array<byte>, len: seq<byte>)
    requires |len| == LEN_PREFIX_BYTES <= out.Length
    modifies out
    ensures out[..] == Spliced(old(out[..]), 0, len)
  {
    out[0], out[1], out[2], out[3] := len[0], len[1], len[2], len[3];
  }

  method PutSample(out: array<byte>, at: nat, sample: Sample)
    requires at + 2 <= out.Length
    modifies out
    ensures out[..] == Spliced(old(out[..]), at, SampleBytes(sample))
  {
    var le := SampleBytes(sample);
    out[at] := le[0];
    out[at + 1] := le[1];
  }

  /** Sample `i` of those written at `out[at..]`. */
  method PutNext(out: array<byte>, at: nat, samples: seq<Sample>, i: nat, ghost before: seq<byte>)
    requires i < |samples| && at + 2 * |samples| <= out.Length == |before|
    requires out[..] == Spliced(before, at, Payload(samples[..i]))
    modifies out
    ensures out[..] == Spliced(before, at, Payload(samples[..i + 1]))
  {
    PayloadIndex(samples, i);
    SplicedNext(before, at, Payload(samples[..i]), SampleBytes(samples[i]));
    PutSample(out, at + 2 * i, samples[i]);
  }

  /** Writes the payload of `samples` at `out[at..]`, or writes nothing when it does not fit. */
  method EncodeSamples(out: array<byte>, at: nat, samples: seq<Sample>) returns (written: Option<nat>)
    requires at <= out.Length
    modifies out
    ensures written == if out.Length - at < 2 * |samples| then None else Some(2 * |samples|)
    ensures written.None? ==> out[..] == old(out[..])
    ensures written.Some? ==> out[..] == Spliced(old(out[..]), at, Payload(samples))
  {
    var total := |samples| * 2;
    if out.Length - at < total {
      return None;
    }
    ghost var before := out[..];
    SplicedNone(before, at);
    var i := 0;
    while i < |samples|
      invariant i <= |samples|
      invariant out[..] == Spliced(before, at, Payload(samples[..i]))
    {
      PutNext(out, at, samples, i, before);
      i := i + 1;
    }
    assert samples[..i] == samples;
    return Some(total);
  }

  /** Encodes a whole frame at the start of `out`, or leaves `out` alone: a truncated frame
      never follows a count that promises more. */
  method EncodeFrame(out: array<byte>, samples: seq<Sample>) returns (written: Option<nat>)
    modifies out
    ensures written ==
              if out.Length < FrameSize(|samples|) || 2 * |samples| > MAX_U32 then None
              else Some(FrameSize(|samples|))
    ensures written.None? ==> out[..] == old(out[..])
    ensures written.Some? ==> out[..written.value] == Framed(Payload(samples))
    ensures written.Some? ==> out[written.value..] == old(out[written.value..])
  {
    var total := FrameSize(|samples|);
    if out.Length < total {
      return None;
    }
    var len := LenBytes(|samples| * 2);
    if len.None? {
      return None;
    }
    ghost var before := out[..];
    PutLength(out, len.value);
    var payload := EncodeSamples(out, LEN_PREFIX_BYTES, samples);
    SplicedNext(before, 0, len.value, Payload(samples));
    SplicedParts(before, len.value + Payload(samples));
    return Some(total);
  }

  /** The session's outgoing frame queue and whether anybody drains it. */
  class AudioQueue {
    var ready: bool
    var queued: seq<seq<byte>>
    const frameBytes: nat

    constructor (samplesPerChunk: nat)
      ensures !ready && queued == [] && frameBytes == FrameSize(samplesPerChunk)
    {
      ready, queued, frameBytes := false, [], FrameSize(samplesPerChunk);
    }

    /** Encodes one chunk (nothing, for the end marker) and queues it. `timely` says whether
        the queue had room before the timeout. Refusal changes nothing. */
    method QueueAudioFrame(samples: seq<Sample>, timely: bool) returns (ok: bool)
      modifies this`queued
      ensures ok == (ready && FrameSize(|samples|) <= frameBytes && 2 * |samples| <= MAX_U32 && timely)
      ensures queued == if ok then old(queued) + [Framed(Payload(samples))] else old(queued)
    {
      if !ready {
        return false;
      }
      var bytes := new byte[frameBytes](_ => 0);
      var len := EncodeFrame(bytes, samples);
      if len.None? {
        return false;
      }
      if timely {
        queued := queued + [bytes[..len.value]];
      }
      return timely;
    }
  }
}
