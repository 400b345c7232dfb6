/** From captured samples to the utterances the server-side helper reports: the protocol's
    wire, framed (terminal-model/src/ptt_frame.rs) and decoded (tools/picocalc-ptt). */
module EndToEnd {
  import opened Limits
  import opened AudioRing
  import opened PttProtocol
  import opened PttTheorems
  import opened PttFrame
  import opened Utterances

  /** The payload each queued frame is sent with; the end marker's is empty. */
  function Payloads(wire: seq<Frame>): (r: seq<bytes>)
    ensures |r| == |wire|
    ensures forall i :: 0 <= i < |r| ==> r[i] == if wire[i].Data? then Payload(wire[i].samples) else []
  {
    seq(|wire|, i requires 0 <= i < |wire| => if wire[i].Data? then Payload(wire[i].samples) else [])
  }

  function PayloadsOf(groups: seq<seq<Sample>>): (r: seq<bytes>)
    ensures |r| == |groups| && forall i :: 0 <= i < |r| ==> r[i] == Payload(groups[i])
  {
    seq(|groups|, i requires 0 <= i < |groups| => Payload(groups[i]))
  }

  /** Every chunk fits one queued frame, so no frame is refused for its size. */
  lemma FramesFit(wire: seq<Frame>)
    requires SizedFrames(wire)
    ensures Sendable(Payloads(wire))
    ensures forall i :: 0 <= i < |wire| && wire[i].Data? ==>
              FrameSize(|wire[i].samples|) <= FrameSize(SAMPLES_PER_CHUNK) && Payloads(wire)[i] != []
  {
  }

  lemma PayloadsSnoc(wire: seq<Frame>)
    requires wire != []
    ensures var f := wire[|wire| - 1];
            Payloads(wire) == Payloads(wire[..|wire| - 1]) + [if f.Data? then Payload(f.samples) else []]
  {
  }

  lemma PayloadsOfSnoc(groups: seq<seq<Sample>>, g: seq<Sample>)
    ensures PayloadsOf(groups + [g]) == PayloadsOf(groups) + [Payload(g)]
  {
  }

  /** The receiver's byte groups are the payloads of the wire's sample groups: a data frame
      is never empty, so nothing but an end marker closes a group. */
  lemma {:induction false} GroupsMatch(wire: seq<Frame>)
    requires SizedFrames(wire)
    ensures SplitFrames(Payloads(wire)) ==
              Split(PayloadsOf(GroupsOf(wire).closed), Payload(GroupsOf(wire).open))
  {
    if wire != [] {
      var before, f := wire[..|wire| - 1], wire[|wire| - 1];
      var g := GroupsOf(before);
      GroupsMatch(before);
      PayloadsSnoc(wire);
      SplitSnoc(Payloads(before), if f.Data? then Payload(f.samples) else []);
      match f
      case Data(_, samples) =>
        PayloadConcat(g.open, samples);
        assert Payload(samples) != [];
      case End(_) => PayloadsOfSnoc(g.closed, g.open);
    }
  }

  /** The non-empty uploads of generations 1 to `n`, in order. */
  function Spoken(wire: seq<Frame>, n: nat): seq<bytes> {
    if n == 0 then []
    else Spoken(wire, n - 1) + (if WireOf(n, wire) == [] then [] else [Payload(WireOf(n, wire))])
  }

  /** Group `k` of the wire is the upload of generation `k`, within the helper's limit. */
  ghost predicate IsUpload(wire: seq<Frame>, k: nat, group: seq<Sample>, limit: nat) {
    group == WireOf(k, wire) && 2 * |group| <= limit
  }

  ghost predicate AreUploads(wire: seq<Frame>, groups: seq<seq<Sample>>, limit: nat) {
    forall i :: 0 <= i < |groups| ==> IsUpload(wire, i + 1, groups[i], limit)
  }

  lemma SpokenNext(wire: seq<Frame>, k: nat, g: seq<Sample>, limit: nat)
    requires IsUpload(wire, k + 1, g, limit)
    ensures Spoken(wire, k + 1) ==
              Spoken(wire, k) + (if Reportable(Payload(g), limit) then [Payload(g)] else [])
  {
  }

  lemma KeptNext(groups: seq<seq<Sample>>, limit: nat, k: nat)
    requires k < |groups|
    ensures Kept(PayloadsOf(groups[..k + 1]), limit) ==
              Kept(PayloadsOf(groups[..k]), limit) +
              (if Reportable(Payload(groups[k]), limit) then [Payload(groups[k])] else [])
  {
    PayloadsOfSnoc(groups[..k], groups[k]);
    KeptSnoc(PayloadsOf(groups[..k]), Payload(groups[k]), limit);
    assert groups[..k + 1] == groups[..k] + [groups[k]];
  }

  lemma KeptOfNone(groups: seq<seq<Sample>>, limit: nat)
    ensures Kept(PayloadsOf(groups[..0]), limit) == []
  {
    assert groups[..0] == [];
  }

  lemma {:induction false} KeptIsSpoken(wire: seq<Frame>, groups: seq<seq<Sample>>, limit: nat, n: nat)
    requires n <= |groups| && AreUploads(wire, groups, limit)
    ensures Kept(PayloadsOf(groups[..n]), limit) == Spoken(wire, n)
    decreases n
  {
    if n == 0 {
      KeptOfNone(groups, limit);
    } else {
      KeptIsSpoken(wire, groups, limit, n - 1);
      KeptNext(groups, limit, n - 1);
      SpokenNext(wire, n - 1, groups[n - 1], limit);
    }
  }

  /** The wire's groups are the uploads of generations 1 to `n`, the last one open. */
  ghost predicate Grouped(wire: seq<Frame>, n: nat) {
    var g := GroupsOf(wire);
    && SizedFrames(wire)
    && n == |g.closed| + 1
    && (forall i :: 0 <= i < |g.closed| ==> g.closed[i] == WireOf(i + 1, wire))
    && g.open == WireOf(n, wire)
  }

  lemma GroupsAreUploads(actions: seq<Action>)
    requires !Reached(actions).refused
    ensures Grouped(Reached(actions).wire, Reached(actions).upload.n)
  {
    var s := Reached(actions);
    ReachedInv(actions);
    forall i | 0 <= i < s.upload.n - 1
      ensures GroupsOf(s.wire).closed[i] == WireOf(i + 1, s.wire)
    {
      assert GroupsOf(s.wire).closed[i + 1 - 1] == Of(i + 1, s.ledger.read);
      assert WireOf(i + 1, s.wire) + InFlight(s.upload, i + 1) == WireOf(i + 1, s.wire);
    }
  }

  /** Every upload so far is within the helper's limit. */
  ghost predicate WithinLimit(wire: seq<Frame>, n: nat, limit: nat) {
    forall k: nat :: 1 <= k <= n ==> 2 * |WireOf(k, wire)| <= limit
  }

  lemma GroupedAreUploads(wire: seq<Frame>, n: nat, limit: nat)
    requires Grouped(wire, n) && WithinLimit(wire, n, limit)
    ensures AreUploads(wire, GroupsOf(wire).closed + [GroupsOf(wire).open], limit)
  {
    var g := GroupsOf(wire);
    var all := g.closed + [g.open];
    forall i | 0 <= i < n ensures IsUpload(wire, i + 1, all[i], limit) {
      assert all[i] == WireOf(i + 1, wire);
    }
  }

  lemma DecodeGroups(wire: seq<Frame>, limit: nat)
    requires SizedFrames(wire)
    ensures Sendable(Payloads(wire))
    ensures Decoded(Encoded(Payloads(wire)), limit) ==
            Kept(PayloadsOf(GroupsOf(wire).closed + [GroupsOf(wire).open]), limit)
  {
    FramesFit(wire);
    GroupsMatch(wire);
    CompleteStream(Payloads(wire), limit);
    PayloadsOfSnoc(GroupsOf(wire).closed, GroupsOf(wire).open);
  }

  lemma DecodeWire(wire: seq<Frame>, n: nat, limit: nat)
    requires Grouped(wire, n) && WithinLimit(wire, n, limit)
    ensures Sendable(Payloads(wire))
    ensures Decoded(Encoded(Payloads(wire)), limit) == Spoken(wire, n)
  {
    var all := GroupsOf(wire).closed + [GroupsOf(wire).open];
    GroupedAreUploads(wire, n, limit);
    DecodeGroups(wire, limit);
    KeptIsSpoken(wire, all, limit, n);
    assert all[..n] == all;
  }

  /** End to end: when no send was refused and every upload fits the helper's limit, the
      helper reports exactly the non-empty uploads, one per generation and in generation
      order - however the capture, upload and keyboard steps interleaved. */
  lemma HelperHearsEveryGeneration(actions: seq<Action>, limit: nat)
    requires var s := Reached(actions);
             !s.refused && WithinLimit(s.wire, s.upload.n, limit)
    ensures var s := Reached(actions);
            && Sendable(Payloads(s.wire))
            && Decoded(Encoded(Payloads(s.wire)), limit) == Spoken(s.wire, s.upload.n)
  {
    GroupsAreUploads(actions);
    DecodeWire(Reached(actions).wire, Reached(actions).upload.n, limit);
  }

  /** At rest, a generation of which nothing was evicted is reported with exactly its captured
      samples, unless it captured none. */
  lemma HelperHearsWhatWasCaptured(actions: seq<Action>, limit: nat, k: nat)
    requires var s := Reached(actions);
             && Quiescent(s) && !s.refused && 1 <= k <= s.cur
             && Of(k, s.ledger.evicted) == []
             && WithinLimit(s.wire, s.upload.n, limit)
    ensures var s := Reached(actions);
            && Sendable(Payloads(s.wire))
            && (Captured(actions, k) == [] ||
                exists u :: u in Decoded(Encoded(Payloads(s.wire)), limit) && SamplesOf(u) == Captured(actions, k))
  {
    var s := Reached(actions);
    QuiescentMeansServed(actions);
    HelperHearsEveryGeneration(actions, limit);
    UploadIsComplete(actions, k);
    if Captured(actions, k) != [] {
      SpokenHas(s.wire, s.upload.n, k);
      PayloadRoundTrip(Captured(actions, k));
    }
  }

  lemma {:induction false} SpokenHas(wire: seq<Frame>, n: nat, k: nat)
    requires 1 <= k <= n && WireOf(k, wire) != []
    ensures Payload(WireOf(k, wire)) in Spoken(wire, n)
  {
    var u := Payload(WireOf(k, wire));
    if k < n {
      SpokenHas(wire, n - 1, k);
      var i :| 0 <= i < |Spoken(wire, n - 1)| && Spoken(wire, n - 1)[i] == u;
      assert Spoken(wire, n)[i] == u;
    } else {
      assert Spoken(wire, n)[|Spoken(wire, n - 1)|] == u;
    }
  }
}
