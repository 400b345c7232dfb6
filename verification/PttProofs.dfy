/** Every interleaving keeps the protocol's invariant: first the control part, one step
    at a time, then the samples. */
module PttProofs {
  import opened Sequences
  import opened Limits
  import opened AudioRing
  import opened PttProtocol

  // ---- control: counters, signals and where the tasks wait ----

  predicate Control(s: State) {
    CaptureInv(s) && WakeInv(s)
  }

  lemma ArmControl(s: State, available: bool)
    requires Control(s) && !s.owed
    ensures Control(Arm(s, available))
  {
  }

  lemma AnnounceControl(s: State)
    requires Control(s) && s.owed
    ensures Control(Announce(s))
  {
  }

  lemma ReleaseControl(s: State)
    requires Control(s)
    ensures Control(s.(rec := 0))
  {
  }

  lemma TakeStartControl(s: State)
    requires Control(s) && s.capture.CapWaiting? && s.startSignal
    ensures Control(TakeStart(s))
  {
  }

  lemma EndCaptureControl(s: State, g: nat)
    requires Control(s) && Capturing(s) && s.capture.g == g && (s.rec == g ==> s.cur != g)
    ensures Control(EndCapture(s, g))
  {
  }

  lemma AfterPollControl(s: State, g: nat, capped: bool)
    requires Control(s) && s.capture == CapTicking(g)
    ensures Control(AfterPoll(s, g, capped))
  {
    if capped && s.rec == g {
      EndCaptureControl(s.(rec := 0), g);
    } else if capped {
      assert s.(rec := s.rec) == s;
      EndCaptureControl(s, g);
    } else {
      assert s.(capture := CapTicking(g)) == s;
    }
  }

  /** A recording that goes on may be ticking, whether or not it has just written. */
  lemma TickControl(s: State, g: nat)
    requires Control(s) && Capturing(s) && s.capture.g == g && Recording(s, g)
    ensures Control(s.(capture := CapTicking(g)))
  {
  }

  lemma DepositControl(s: State, g: nat, chunk: seq<Sample>)
    requires Control(s) && s.capture == CapTicking(g)
    ensures Control(Deposit(s, g, chunk))
  {
  }

  /** What follows a poll does not depend on how far the loop had come before it. */
  lemma AfterPollForgets(s: State, g: nat, chunk: seq<Sample>, capped: bool)
    ensures AfterPoll(s, g, capped) == AfterPoll(s.(capture := CapTicking(g)), g, capped)
    ensures Deposit(s, g, chunk).(capture := CapTicking(g)) == Deposit(s.(capture := CapTicking(g)), g, chunk)
  {
  }

  lemma PollControl(s: State, g: nat, chunk: Option<seq<Sample>>, capped: bool)
    requires Control(s) && Capturing(s) && s.capture.g == g
    ensures Control(PollStep(s, g, chunk, capped))
  {
    var t := s.(capture := CapTicking(g));
    if !Recording(s, g) {
      EndCaptureControl(s, g);
    } else if chunk.None? {
      TickControl(s, g);
      AfterPollControl(t, g, capped);
      AfterPollForgets(s, g, [], capped);
    } else {
      TickControl(s, g);
      DepositControl(t, g, chunk.value);
      AfterPollControl(Deposit(t, g, chunk.value), g, capped);
      AfterPollForgets(s, g, chunk.value, capped);
      AfterPollForgets(Deposit(s, g, chunk.value), g, [], capped);
    }
  }

  lemma WakeIdleControl(s: State)
    requires Control(s) && s.upload.UpIdle?
    ensures Control(AwaitGeneration(s.(uploadSignal := false), s.upload.n))
  {
  }

  lemma StartControl(s: State, available: bool)
    requires Control(s) && s.upload.UpStarting?
    ensures Control(StartStep(s, s.upload.n, available))
  {
  }

  lemma DrainControl(s: State, n: nat, ssh: bool)
    requires Control(s) && s.upload == UpDraining(n, ssh) && WellFormed(s.ledger.q, RING_SAMPLES)
    ensures Control(DrainStep(s, n, ssh))
  {
    if ReadTakes(s.ledger.q, n, SAMPLES_PER_CHUNK) == [] {
      ShortReadExhausts(s.ledger.q, RING_SAMPLES, n, SAMPLES_PER_CHUNK);
    }
  }

  lemma SendControl(s: State, ok: bool)
    requires Control(s) && s.upload.UpSending?
    ensures Control(SendStep(s, s.upload.n, s.upload.out, ok))
  {
  }

  lemma UnparkControl(s: State)
    requires Control(s) && s.upload.UpParked?
    ensures Control(UnparkStep(s, s.upload.n, s.upload.ssh))
  {
  }

  lemma FinishControl(s: State, n: nat, ssh: bool, ok: bool)
    requires Control(s) && s.upload == UpEnding(n, ssh)
    ensures Control(FinishStep(s, n, ssh, ok))
  {
  }

  lemma ControlStep(s: State, a: Action)
    requires Control(s) && WellFormed(s.ledger.q, RING_SAMPLES) && Enabled(s, a)
    ensures Control(Perform(s, a))
  {
    match a
    case Press(available) => ArmControl(s, available);
    case SignalStart => AnnounceControl(s);
    case Release => ReleaseControl(s);
    case PickUp => TakeStartControl(s);
    case Poll(chunk, capped) => PollControl(s, s.capture.g, chunk, capped);
    case WakeIdle => WakeIdleControl(s);
    case StartServing(available) => StartControl(s, available);
    case Drain => DrainControl(s, s.upload.n, s.upload.ssh);
    case Send(ok) => SendControl(s, ok);
    case Unpark => UnparkControl(s);
    case Finish(ok) => FinishControl(s, s.upload.n, s.upload.ssh, ok);
  }

  // ---- which steps leave the samples alone ----

  /** The step touches neither the ring, the wire nor the upload task, and the end of a
      capture is never taken back. */
  predicate SamplesUntouched(s: State, s': State) {
    && s'.ledger == s.ledger && s'.wire == s.wire && s'.upload == s.upload
    && s'.refused == s.refused
    && s'.cur == s.cur && s'.ended >= s.ended
  }

  lemma EndLeavesSamples(s: State, g: nat)
    ensures SamplesUntouched(s, EndCapture(s, g))
  {
  }

  lemma AfterPollLeavesSamples(s: State, g: nat, capped: bool)
    ensures SamplesUntouched(s, AfterPoll(s, g, capped))
  {
    EndLeavesSamples(s.(rec := if s.rec == g then 0 else s.rec), g);
  }

  lemma CaptureFrame(s: State, s': State)
    requires CompleteInv(s) && WireInv(s) && SamplesUntouched(s, s')
    ensures CompleteInv(s') && WireInv(s')
  {
  }

  lemma ArmData(s: State, available: bool)
    requires CompleteInv(s) && WireInv(s) && Control(s)
    ensures CompleteInv(Arm(s, available)) && WireInv(Arm(s, available))
  {
    var s' := Arm(s, available);
    assert DrainedInv(s'.upload, s'.cur, s'.ended, s'.ledger.q.items);
  }

  // ---- upload steps between samples ----

  /** A step that drains nothing more and reads nothing keeps completeness. */
  lemma DrainedKeeps(s: State, s': State)
    requires CompleteInv(s)
    requires s'.ledger == s.ledger && s'.cur == s.cur && s'.ended == s.ended
    requires s'.upload.n >= s.upload.n
    requires forall k: nat :: Drained(s'.upload, k) ==> Drained(s.upload, k)
    ensures CompleteInv(s')
  {
    assert DrainedInv(s'.upload, s'.cur, s'.ended, s'.ledger.q.items);
  }

  /** The upload task moves between two waits of the same utterance, none of them a send. */
  lemma UploadMoves(s: State, s': State)
    requires CompleteInv(s) && WireInv(s)
    requires s'.ledger == s.ledger && s'.wire == s.wire
    requires s'.cur == s.cur && s'.ended == s.ended
    requires s'.upload.n == s.upload.n && !s.upload.UpSending? && !s'.upload.UpSending?
    requires s'.upload.UpEnding? ==> s.upload.UpEnding?
    requires !s'.refused ==> !s.refused && ChannelUp(s'.upload)
    ensures CompleteInv(s') && WireInv(s')
  {
    assert forall k: nat :: InFlight(s'.upload, k) == InFlight(s.upload, k);
    assert forall k: nat :: Drained(s'.upload, k) ==> Drained(s.upload, k);
    assert WireWithin(s'.wire, s'.upload, s'.ledger.read);
    assert !s.refused ==> WireExact(s'.wire, s'.upload, s'.ledger.read);
  }

  // ---- the write ----

  /** The stale-generation guard of the ring never fires: captures write in generation order. */
  lemma NoWriteIsRefused(s: State)
    requires Control(s) && Capturing(s) && Recording(s, s.capture.g)
    ensures !Refused(s.ledger.q, s.capture.g)
  {
  }

  lemma OfSplitEmpty(k: nat, a: seq<Tagged>, b: seq<Tagged>)
    requires Of(k, a + b) == []
    ensures Of(k, a) == [] && Of(k, b) == []
  {
    OfConcat(k, a, b);
  }

  /** A write for `g` adds nothing of another generation to the buffer. */
  lemma WriteAddsOnlyOwn(q: Queue, g: nat, chunk: seq<Sample>, k: nat)
    requires !Refused(q, g) && k != g && Of(k, q.items) == []
    ensures Of(k, AfterWrite(q, RING_SAMPLES, g, chunk).items) == []
  {
    var all := q.items + Tag(g, chunk);
    var d := WriteDropped(q, RING_SAMPLES, g, chunk);
    OfConcat(k, q.items, Tag(g, chunk));
    OfNone(k, Tag(g, chunk));
    assert all == all[..d] + all[d..];
    OfSplitEmpty(k, all[..d], all[d..]);
  }

  lemma DepositDrained(u: Upload, cur: nat, ended: nat, q: Queue, chunk: seq<Sample>)
    requires DrainedInv(u, cur, ended, q.items) && ended < cur && !Refused(q, cur)
    ensures DrainedInv(u, cur, ended, AfterWrite(q, RING_SAMPLES, cur, chunk).items)
  {
    forall k: nat | Drained(u, k)
      ensures Of(k, AfterWrite(q, RING_SAMPLES, cur, chunk).items) == []
    {
      WriteAddsOnlyOwn(q, cur, chunk, k);
    }
  }

  lemma DepositData(s: State, g: nat, chunk: seq<Sample>)
    requires Control(s) && CompleteInv(s) && WireInv(s)
    requires Capturing(s) && s.capture.g == g && Recording(s, g)
    ensures CompleteInv(Deposit(s, g, chunk)) && WireInv(Deposit(s, g, chunk))
  {
    DepositDrained(s.upload, g, s.ended, s.ledger.q, chunk);
    DepositKeepsLogs(s.ledger, g, chunk);
  }

  lemma DepositKeepsLogs(l: Ledger, g: nat, chunk: seq<Sample>)
    ensures var l' := LedgerWrite(l, RING_SAMPLES, g, chunk);
            && l'.read == l.read && l'.discarded == l.discarded
            && l'.q == AfterWrite(l.q, RING_SAMPLES, g, chunk)
  {
  }

  // ---- the read ----

  lemma ReadAddsNothing(q: Queue, n: nat, k: nat)
    requires WellFormed(q, RING_SAMPLES) && Of(k, q.items) == []
    ensures Of(k, ReadDiscards(q, n)) == [] && Of(k, AfterRead(q, n, SAMPLES_PER_CHUNK).items) == []
  {
    ReadKeepsWellFormed(q, RING_SAMPLES, n, SAMPLES_PER_CHUNK);
    var d, t, r := ReadDiscards(q, n), ReadTakes(q, n, SAMPLES_PER_CHUNK), AfterRead(q, n, SAMPLES_PER_CHUNK).items;
    OfSplitEmpty(k, d + t, r);
    OfSplitEmpty(k, d, t);
  }

  /** After a read, whatever counts as drained has left the buffer. */
  lemma DrainLeaves(s: State, n: nat, ssh: bool, k: nat)
    requires Control(s) && CompleteInv(s) && WellFormed(s.ledger.q, RING_SAMPLES)
    requires s.upload == UpDraining(n, ssh)
    requires Drained(DrainStep(s, n, ssh).upload, k)
    ensures (k < s.cur || k <= s.ended) && Of(k, AfterRead(s.ledger.q, n, SAMPLES_PER_CHUNK).items) == []
  {
    if k < n {
      assert Drained(s.upload, k);
      ReadAddsNothing(s.ledger.q, n, k);
    } else {
      assert ReadTakes(s.ledger.q, n, SAMPLES_PER_CHUNK) == [];
      ShortReadExhausts(s.ledger.q, RING_SAMPLES, n, SAMPLES_PER_CHUNK);
    }
  }

  lemma DrainDiscards(s: State, n: nat, k: nat)
    requires CompleteInv(s) && WellFormed(s.ledger.q, RING_SAMPLES)
    requires s.upload.n == n && 1 <= k
    ensures Of(k, LedgerRead(s.ledger, n, SAMPLES_PER_CHUNK).discarded) == []
  {
    LedgerReadOf(s.ledger, RING_SAMPLES, n, SAMPLES_PER_CHUNK, k);
    if k < n {
      assert Drained(s.upload, k);
      ReadAddsNothing(s.ledger.q, n, k);
    }
  }

  lemma DrainCompletes(s: State, n: nat, ssh: bool)
    requires Control(s) && CompleteInv(s) && WellFormed(s.ledger.q, RING_SAMPLES)
    requires s.upload == UpDraining(n, ssh)
    ensures CompleteInv(DrainStep(s, n, ssh))
  {
    var s' := DrainStep(s, n, ssh);
    assert s'.ledger == LedgerRead(s.ledger, n, SAMPLES_PER_CHUNK);
    forall k: nat | Drained(s'.upload, k)
      ensures (k < s.cur || k <= s.ended) && Of(k, s'.ledger.q.items) == []
    {
      DrainLeaves(s, n, ssh, k);
    }
    forall k: nat | 1 <= k
      ensures Of(k, s'.ledger.discarded) == []
    {
      DrainDiscards(s, n, k);
    }
    forall k: nat | k > n
      ensures Of(k, s'.ledger.read) == []
    {
      LedgerReadOf(s.ledger, RING_SAMPLES, n, SAMPLES_PER_CHUNK, k);
    }
  }

  /** What the read adds to generation `k` is what is now in flight for it. */
  lemma DrainWireOf(l: Ledger, w: seq<Sample>, n: nat, ssh: bool, k: nat)
    requires WellFormed(l.q, RING_SAMPLES) && Subseq(w, Of(k, l.read))
    ensures var l' := LedgerRead(l, n, SAMPLES_PER_CHUNK);
            var out := Samples(ReadTakes(l.q, n, SAMPLES_PER_CHUNK));
            && Of(k, l'.read) == (if k == n then Of(k, l.read) + out else Of(k, l.read))
            && Subseq(w, Of(k, l'.read))
            && (k == n ==> Subseq(w + out, Of(k, l'.read)))
  {
    LedgerReadOf(l, RING_SAMPLES, n, SAMPLES_PER_CHUNK, k);
    var r := Of(k, l.read);
    var out := Samples(ReadTakes(l.q, n, SAMPLES_PER_CHUNK));
    if k == n {
      SubseqKeep(w, r, out);
      SubseqSkip(w, r, out);
    } else {
      assert r + [] == r;
    }
  }

  lemma DrainWithinAt(l: Ledger, w: seq<Sample>, u: Upload, n: nat, ssh: bool, k: nat)
    requires WellFormed(l.q, RING_SAMPLES) && Subseq(w, Of(k, l.read))
    requires var out := Samples(ReadTakes(l.q, n, SAMPLES_PER_CHUNK));
             !u.UpSending? || u == UpSending(n, out)
    ensures Subseq(w + InFlight(u, k), Of(k, LedgerRead(l, n, SAMPLES_PER_CHUNK).read))
  {
    assert w + [] == w;
    DrainWireOf(l, w, n, ssh, k);
  }

  lemma DrainWithin(s: State, n: nat, ssh: bool)
    requires WellFormed(s.ledger.q, RING_SAMPLES) && s.upload == UpDraining(n, ssh)
    requires WireWithin(s.wire, s.upload, s.ledger.read)
    ensures WireWithin(s.wire, DrainStep(s, n, ssh).upload, LedgerRead(s.ledger, n, SAMPLES_PER_CHUNK).read)
  {
    var u' := DrainStep(s, n, ssh).upload;
    forall k: nat
      ensures Subseq(WireOf(k, s.wire) + InFlight(u', k), Of(k, LedgerRead(s.ledger, n, SAMPLES_PER_CHUNK).read))
    {
      SubseqDrop(WireOf(k, s.wire), InFlight(s.upload, k), Of(k, s.ledger.read));
      DrainWithinAt(s.ledger, WireOf(k, s.wire), u', n, ssh, k);
    }
  }

  lemma DrainExact(s: State, n: nat, k: nat)
    requires WellFormed(s.ledger.q, RING_SAMPLES) && s.upload == UpDraining(n, true)
    requires WireExact(s.wire, s.upload, s.ledger.read)
    ensures var l' := LedgerRead(s.ledger, n, SAMPLES_PER_CHUNK);
            && WireOf(k, s.wire) + InFlight(DrainStep(s, n, true).upload, k) == Of(k, l'.read)
            && (k != n ==> Of(k, l'.read) == Of(k, s.ledger.read))
  {
    var w := WireOf(k, s.wire);
    assert w + InFlight(s.upload, k) == w && w + [] == w;
    SubseqRefl(w);
    DrainWireOf(s.ledger, w, n, true, k);
  }

  lemma DrainWires(s: State, n: nat, ssh: bool)
    requires WireInv(s) && WellFormed(s.ledger.q, RING_SAMPLES) && s.upload == UpDraining(n, ssh)
    ensures WireInv(DrainStep(s, n, ssh))
  {
    var s' := DrainStep(s, n, ssh);
    DrainWithin(s, n, ssh);
    if !s.refused {
      forall k: nat
        ensures WireOf(k, s.wire) + InFlight(s'.upload, k) == Of(k, s'.ledger.read)
        ensures k != n ==> Of(k, s'.ledger.read) == Of(k, s.ledger.read)
      {
        DrainExact(s, n, k);
      }
      assert GroupsInv(s'.wire, n, s'.ledger.read);
    }
  }

  // ---- sends ----

  lemma WireOfSnoc(k: nat, wire: seq<Frame>, f: Frame)
    ensures WireOf(k, wire + [f]) == WireOf(k, wire) + (if f.Data? && f.gen == k then f.samples else [])
  {
    assert (wire + [f])[..|wire + [f]| - 1] == wire;
  }

  lemma GroupsSnoc(wire: seq<Frame>, f: Frame)
    ensures GroupsOf(wire + [f]) ==
              (match f
               case Data(_, samples) => GroupsOf(wire).(open := GroupsOf(wire).open + samples)
               case End(_) => Groups(GroupsOf(wire).closed + [GroupsOf(wire).open], []))
  {
    assert (wire + [f])[..|wire + [f]| - 1] == wire;
  }

  lemma {:induction false} WireOfNone(k: nat, wire: seq<Frame>)
    requires forall i :: 0 <= i < |wire| ==> wire[i].gen < k
    ensures WireOf(k, wire) == []
  {
    if wire != [] {
      WireOfNone(k, wire[..|wire| - 1]);
    }
  }

  lemma SendMoves(wire: seq<Frame>, n: nat, out: seq<Sample>, k: nat)
    ensures WireOf(k, wire + [Data(n, out)]) + InFlight(UpDraining(n, true), k) ==
            WireOf(k, wire) + InFlight(UpSending(n, out), k)
  {
    WireOfSnoc(k, wire, Data(n, out));
  }

  lemma SendShape(wire: seq<Frame>, n: nat, out: seq<Sample>)
    requires WireShape(wire, n) && 1 <= n && 0 < |out| <= SAMPLES_PER_CHUNK
    ensures WireShape(wire + [Data(n, out)], n)
  {
    var wire' := wire + [Data(n, out)];
    assert OrderedFrames(wire');
    assert SizedFrames(wire');
  }

  lemma SendGroups(wire: seq<Frame>, n: nat, out: seq<Sample>, read: seq<Tagged>)
    requires GroupsInv(wire, n, read)
    ensures GroupsInv(wire + [Data(n, out)], n, read)
  {
    GroupsSnoc(wire, Data(n, out));
    WireOfSnoc(n, wire, Data(n, out));
  }

  lemma SendWires(s: State, n: nat, out: seq<Sample>)
    requires WireInv(s) && 1 <= n && s.upload == UpSending(n, out)
    ensures WireInv(SendStep(s, n, out, true))
  {
    var s' := SendStep(s, n, out, true);
    forall k: nat
      ensures WireOf(k, s'.wire) + InFlight(s'.upload, k) == WireOf(k, s.wire) + InFlight(s.upload, k)
    {
      SendMoves(s.wire, n, out, k);
    }
    assert WireWithin(s'.wire, s'.upload, s'.ledger.read);
    SendShape(s.wire, n, out);
    if !s.refused {
      SendGroups(s.wire, n, out, s.ledger.read);
    }
  }

  lemma SendFailWires(s: State, n: nat, out: seq<Sample>)
    requires WireInv(s) && s.upload == UpSending(n, out)
    ensures WireInv(SendStep(s, n, out, false))
  {
    var u' := UpDraining(n, false);
    forall k: nat
      ensures Subseq(WireOf(k, s.wire) + InFlight(u', k), Of(k, s.ledger.read))
    {
      SubseqDrop(WireOf(k, s.wire), InFlight(s.upload, k), Of(k, s.ledger.read));
      assert WireOf(k, s.wire) + InFlight(u', k) == WireOf(k, s.wire);
    }
  }

  lemma SendData(s: State, n: nat, out: seq<Sample>, ok: bool)
    requires Control(s) && CompleteInv(s) && WireInv(s) && s.upload == UpSending(n, out)
    ensures CompleteInv(SendStep(s, n, out, ok)) && WireInv(SendStep(s, n, out, ok))
  {
    if ok { SendWires(s, n, out); } else { SendFailWires(s, n, out); }
    DrainedKeeps(s, SendStep(s, n, out, ok));
  }

  // ---- the end of an utterance ----

  lemma EndShape(wire: seq<Frame>, n: nat)
    requires WireShape(wire, n) && 1 <= n
    ensures WireShape(wire + [End(n)], n + 1)
  {
    var wire' := wire + [End(n)];
    assert OrderedFrames(wire');
    assert SizedFrames(wire');
  }

  /** Moving on to the next generation with the wire as it is. */
  lemma NextShape(wire: seq<Frame>, n: nat)
    requires WireShape(wire, n)
    ensures WireShape(wire, n + 1)
    ensures WireOf(n + 1, wire) == []
  {
    WireOfNone(n + 1, wire);
  }

  lemma NextWithin(wire: seq<Frame>, u: Upload, u': Upload, read: seq<Tagged>, n: nat)
    requires !u.UpSending? && !u'.UpSending?
    ensures WireWithin(wire, u, read) ==> WireWithin(wire, u', read) && WireWithin(wire + [End(n)], u', read)
    ensures WireExact(wire, u, read) ==> WireExact(wire + [End(n)], u', read)
  {
    forall k: nat
      ensures WireOf(k, wire + [End(n)]) == WireOf(k, wire)
      ensures InFlight(u', k) == InFlight(u, k)
    {
      WireOfSnoc(k, wire, End(n));
    }
  }

  lemma NextGroups(wire: seq<Frame>, u: Upload, read: seq<Tagged>, n: nat)
    requires GroupsInv(wire, n, read) && WireShape(wire, n) && WireExact(wire, u, read) && !u.UpSending?
    ensures GroupsInv(wire + [End(n)], n + 1, read)
  {
    GroupsSnoc(wire, End(n));
    NextShape(wire, n);
    WireOfSnoc(n + 1, wire, End(n));
    assert WireOf(n, wire) + InFlight(u, n) == WireOf(n, wire);
  }

  /** The frames queued by the end of an utterance: the marker, if the channel took it. */
  function MarkedWire(wire: seq<Frame>, n: nat, ssh: bool, ok: bool): seq<Frame> {
    if ssh && ok then wire + [End(n)] else wire
  }

  lemma FinishIs(s: State, n: nat, ssh: bool, ok: bool)
    ensures var s' := FinishStep(s, n, ssh, ok);
            && s'.wire == MarkedWire(s.wire, n, ssh, ok) && s'.ledger == s.ledger
            && s'.upload == (if n + 1 > s.cur then UpIdle(n + 1) else UpStarting(n + 1))
            && (s'.refused <==> s.refused || (ssh && !ok))
  {
  }

  lemma MarkedShape(wire: seq<Frame>, n: nat, ssh: bool, ok: bool)
    requires WireShape(wire, n) && 1 <= n
    ensures WireShape(MarkedWire(wire, n, ssh, ok), n + 1)
  {
    if ssh && ok {
      EndShape(wire, n);
    } else {
      NextShape(wire, n);
    }
  }

  lemma FinishWires(s: State, n: nat, ssh: bool, ok: bool)
    requires WireInv(s) && 1 <= n && s.upload == UpEnding(n, ssh)
    ensures WireInv(FinishStep(s, n, ssh, ok))
  {
    FinishIs(s, n, ssh, ok);
    MarkedShape(s.wire, n, ssh, ok);
    NextWithin(s.wire, s.upload, FinishStep(s, n, ssh, ok).upload, s.ledger.read, n);
    if !FinishStep(s, n, ssh, ok).refused {
      NextGroups(s.wire, s.upload, s.ledger.read, n);
    }
  }

  lemma FinishData(s: State, n: nat, ssh: bool, ok: bool)
    requires Control(s) && CompleteInv(s) && WireInv(s) && s.upload == UpEnding(n, ssh)
    ensures CompleteInv(FinishStep(s, n, ssh, ok)) && WireInv(FinishStep(s, n, ssh, ok))
  {
    FinishWires(s, n, ssh, ok);
    DrainedKeeps(s, FinishStep(s, n, ssh, ok));
  }

  // ---- every reachable state ----

  lemma CaptureData(s: State, a: Action)
    requires Inv(s) && Enabled(s, a) && (a.SignalStart? || a.Release? || a.PickUp?)
    ensures CompleteInv(Perform(s, a)) && WireInv(Perform(s, a))
  {
    CaptureFrame(s, Perform(s, a));
  }

  lemma PollData(s: State, g: nat, chunk: Option<seq<Sample>>, capped: bool)
    requires Inv(s) && Capturing(s) && s.capture.g == g
    ensures CompleteInv(PollStep(s, g, chunk, capped)) && WireInv(PollStep(s, g, chunk, capped))
  {
    if !Recording(s, g) {
      EndLeavesSamples(s, g);
      CaptureFrame(s, EndCapture(s, g));
    } else if chunk.None? {
      AfterPollLeavesSamples(s, g, capped);
      CaptureFrame(s, AfterPoll(s, g, capped));
    } else {
      DepositData(s, g, chunk.value);
      AfterPollLeavesSamples(Deposit(s, g, chunk.value), g, capped);
      CaptureFrame(Deposit(s, g, chunk.value), AfterPoll(Deposit(s, g, chunk.value), g, capped));
    }
  }

  lemma UploadData(s: State, a: Action)
    requires Inv(s) && Enabled(s, a) && (a.WakeIdle? || a.StartServing? || a.Unpark?)
    ensures CompleteInv(Perform(s, a)) && WireInv(Perform(s, a))
  {
    UploadMoves(s, Perform(s, a));
  }

  lemma DataStep(s: State, a: Action)
    requires Inv(s) && Enabled(s, a)
    ensures CompleteInv(Perform(s, a)) && WireInv(Perform(s, a))
  {
    match a
    case Press(available) => ArmData(s, available);
    case SignalStart => CaptureData(s, a);
    case Release => CaptureData(s, a);
    case PickUp => CaptureData(s, a);
    case Poll(chunk, capped) => PollData(s, s.capture.g, chunk, capped);
    case WakeIdle => UploadData(s, a);
    case StartServing(_) => UploadData(s, a);
    case Unpark => UploadData(s, a);
    case Drain =>
      DrainCompletes(s, s.upload.n, s.upload.ssh);
      DrainWires(s, s.upload.n, s.upload.ssh);
    case Send(ok) => SendData(s, s.upload.n, s.upload.out, ok);
    case Finish(ok) => FinishData(s, s.upload.n, s.upload.ssh, ok);
  }

  /** The step is a poll that writes a chunk. */
  predicate Writes(s: State, a: Action) {
    Enabled(s, a) && a.Poll? && a.chunk.Some? && Recording(s, s.capture.g)
  }

  lemma PollLedger(s: State, g: nat, chunk: Option<seq<Sample>>, capped: bool)
    ensures PollStep(s, g, chunk, capped).ledger ==
              if Recording(s, g) && chunk.Some? then LedgerWrite(s.ledger, RING_SAMPLES, g, chunk.value) else s.ledger
    ensures PollStep(s, g, chunk, capped).ended >= s.ended
  {
    if !Recording(s, g) {
      EndLeavesSamples(s, g);
    } else if chunk.None? {
      AfterPollLeavesSamples(s, g, capped);
    } else {
      AfterPollLeavesSamples(Deposit(s, g, chunk.value), g, capped);
    }
  }

  lemma KeyLedger(s: State, a: Action)
    requires Enabled(s, a) && (a.Press? || a.SignalStart? || a.Release? || a.PickUp?)
    ensures Perform(s, a).ledger == s.ledger && Perform(s, a).ended == s.ended
  {
  }

  lemma UploadLedger(s: State, a: Action)
    requires Enabled(s, a) && (a.WakeIdle? || a.StartServing? || a.Unpark?)
    ensures Perform(s, a).ledger == s.ledger && Perform(s, a).ended == s.ended
  {
  }

  lemma SendLedger(s: State, a: Action)
    requires Enabled(s, a) && (a.Send? || a.Finish?)
    ensures Perform(s, a).ledger == s.ledger && Perform(s, a).ended == s.ended
  {
    if a.Finish? {
      FinishLedger(s, s.upload.n, s.upload.ssh, a.ok);
    }
  }

  lemma FinishLedger(s: State, n: nat, ssh: bool, ok: bool)
    ensures FinishStep(s, n, ssh, ok).ledger == s.ledger && FinishStep(s, n, ssh, ok).ended == s.ended
  {
  }

  lemma OtherLedger(s: State, a: Action)
    requires Enabled(s, a) && !a.Poll? && !a.Drain?
    ensures Perform(s, a).ledger == s.ledger && Perform(s, a).ended == s.ended
  {
    match a
    case Send(_) => SendLedger(s, a);
    case Finish(_) => SendLedger(s, a);
    case WakeIdle => UploadLedger(s, a);
    case StartServing(_) => UploadLedger(s, a);
    case Unpark => UploadLedger(s, a);
    case _ => KeyLedger(s, a);
  }

  lemma LedgerStep(s: State, a: Action)
    requires Enabled(s, a)
    ensures Perform(s, a).ledger ==
              if Writes(s, a) then LedgerWrite(s.ledger, RING_SAMPLES, s.capture.g, a.chunk.value)
              else if a.Drain? then LedgerRead(s.ledger, s.upload.n, SAMPLES_PER_CHUNK)
              else s.ledger
    ensures Perform(s, a).ended >= s.ended
  {
    if a.Poll? {
      PollLedger(s, s.capture.g, a.chunk, a.capped);
    } else if !a.Drain? {
      OtherLedger(s, a);
    }
  }

  lemma LedgerKeeps(s: State, a: Action)
    requires Inv(s) && Enabled(s, a)
    ensures LedgerInv(Perform(s, a).ledger, RING_SAMPLES)
  {
    LedgerStep(s, a);
    if Writes(s, a) {
      LedgerWriteInv(s.ledger, RING_SAMPLES, s.capture.g, a.chunk.value);
    } else if a.Drain? {
      LedgerReadInv(s.ledger, RING_SAMPLES, s.upload.n, SAMPLES_PER_CHUNK);
    }
  }

  lemma StepKeeps(s: State, a: Action)
    requires Inv(s)
    ensures Inv(Step(s, a))
  {
    if Enabled(s, a) {
      ControlStep(s, a);
      DataStep(s, a);
      LedgerKeeps(s, a);
    }
  }

  lemma {:induction false} RunKeeps(s: State, actions: seq<Action>)
    requires Inv(s)
    ensures Inv(Exec(s, actions))
    decreases |actions|
  {
    if actions != [] {
      RunKeeps(s, actions[..|actions| - 1]);
      StepKeeps(Exec(s, actions[..|actions| - 1]), actions[|actions| - 1]);
    }
  }

  lemma InitialInv()
    ensures Inv(INITIAL)
  {
    var s := INITIAL;
    assert forall k: nat :: WireOf(k, s.wire) + InFlight(s.upload, k) == [];
    assert GroupsInv(s.wire, 1, s.ledger.read);
  }
}
