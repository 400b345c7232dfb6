/** What the push-to-talk protocol guarantees over every interleaving of its tasks. */
module PttTheorems {
  import opened Sequences
  import opened AudioRing
  import opened PttProtocol
  import opened PttProofs

  /** The state after any interleaving of keyboard, capture and upload steps. */
  function Reached(actions: seq<Action>): State {
    Exec(INITIAL, actions)
  }

  /** What `a` writes for generation `k`. */
  function WrittenBy(s: State, a: Action, k: nat): seq<Sample> {
    if Writes(s, a) && s.capture.g == k then a.chunk.value else []
  }

  /** Everything `capture_task` wrote for generation `k`. */
  function Captured(actions: seq<Action>, k: nat): seq<Sample>
    decreases |actions|
  {
    if actions == [] then []
    else
      var before := actions[..|actions| - 1];
      Captured(before, k) + WrittenBy(Reached(before), actions[|actions| - 1], k)
  }

  lemma ReachedInv(actions: seq<Action>)
    ensures Inv(Reached(actions))
  {
    InitialInv();
    RunKeeps(INITIAL, actions);
  }

  lemma AcceptedStep(s: State, a: Action, k: nat)
    requires Control(s) && WellFormed(s.ledger.q, RING_SAMPLES)
    ensures Of(k, Step(s, a).ledger.accepted) == Of(k, s.ledger.accepted) + WrittenBy(s, a, k)
  {
    var x := Of(k, s.ledger.accepted);
    assert x + [] == x;
    if Enabled(s, a) {
      LedgerStep(s, a);
      if Writes(s, a) {
        LedgerWriteOf(s.ledger, RING_SAMPLES, s.capture.g, a.chunk.value, k);
      }
    }
  }

  /** The ring takes in every captured sample: its stale-write guard never fires. */
  lemma {:induction false} CapturedIsAccepted(actions: seq<Action>, k: nat)
    ensures Of(k, Reached(actions).ledger.accepted) == Captured(actions, k)
    decreases |actions|
  {
    if actions != [] {
      var before := actions[..|actions| - 1];
      CapturedIsAccepted(before, k);
      ReachedInv(before);
      AcceptedStep(Reached(before), actions[|actions| - 1], k);
    }
  }

  /** Whatever is uploaded for a generation is an in-order part of what was captured for
      that generation, and of no other: frames, losses and interleavings notwithstanding. */
  lemma UploadIsInOrder(actions: seq<Action>, k: nat)
    ensures Subseq(WireOf(k, Reached(actions).wire), Captured(actions, k))
  {
    var s := Reached(actions);
    ReachedInv(actions);
    CapturedIsAccepted(actions, k);
    SubseqDrop(WireOf(k, s.wire), InFlight(s.upload, k), Of(k, s.ledger.read));
    SubseqTrans(WireOf(k, s.wire), Of(k, s.ledger.read), Of(k, s.ledger.gone));
    SubseqSkip(WireOf(k, s.wire), Of(k, s.ledger.gone), Of(k, s.ledger.q.items));
    OfConcat(k, s.ledger.gone, s.ledger.q.items);
  }

  lemma {:induction false} SubseqTrans<T>(a: seq<T>, b: seq<T>, c: seq<T>)
    requires Subseq(a, b) && Subseq(b, c)
    ensures Subseq(a, c)
    decreases |c|, |b|
  {
    if a != [] {
      var b', c' := b[..|b| - 1], c[..|c| - 1];
      if Subseq(b, c') {
        SubseqTrans(a, b, c');
      } else if Subseq(a, b') {
        SubseqTrans(a, b', c');
      } else {
        SubseqTrans(a[..|a| - 1], b', c');
      }
    }
  }

  /** For a served generation of a session that refused nothing, the upload is complete
      exactly when no sample of it was evicted or left behind. */
  lemma UploadIsCompleteIff(actions: seq<Action>, k: nat)
    requires 1 <= k < Reached(actions).upload.n && !Reached(actions).refused
    ensures var s := Reached(actions);
            WireOf(k, s.wire) == Captured(actions, k) <==>
              Of(k, s.ledger.evicted) == [] && Of(k, s.ledger.discarded) == [] && Of(k, s.ledger.q.items) == []
  {
    var s := Reached(actions);
    ReachedInv(actions);
    CapturedIsAccepted(actions, k);
    OfConcat(k, s.ledger.gone, s.ledger.q.items);
    assert WireOf(k, s.wire) + InFlight(s.upload, k) == WireOf(k, s.wire);
    SubseqLength(Of(k, s.ledger.read), Of(k, s.ledger.gone));
    if Of(k, s.ledger.q.items) == [] {
      assert Of(k, s.ledger.gone) + [] == Of(k, s.ledger.gone);
    }
  }

  /** So eviction from the full ring is the only way to lose any of a generation, released
      and pressed again at whatever moment. */
  lemma UploadIsComplete(actions: seq<Action>, k: nat)
    requires 1 <= k < Reached(actions).upload.n && !Reached(actions).refused
    ensures WireOf(k, Reached(actions).wire) == Captured(actions, k) <==>
              Of(k, Reached(actions).ledger.evicted) == []
  {
    ReachedInv(actions);
    assert Drained(Reached(actions).upload, k);
    UploadIsCompleteIff(actions, k);
  }

  // ---- order ----

  /** The generations whose end markers were queued, in queue order. */
  function EndsOf(wire: seq<Frame>): seq<nat> {
    if wire == [] then []
    else EndsOf(wire[..|wire| - 1]) +
         (if wire[|wire| - 1].End? then [wire[|wire| - 1].gen] else [])
  }

  lemma {:induction false} EndsAreFrames(wire: seq<Frame>, i: nat) returns (j: nat)
    requires i < |EndsOf(wire)|
    ensures j < |wire| && wire[j] == End(EndsOf(wire)[i])
  {
    if i < |EndsOf(wire[..|wire| - 1])| {
      j := EndsAreFrames(wire[..|wire| - 1], i);
    } else {
      j := |wire| - 1;
    }
  }

  lemma {:induction false} EndsIncrease(wire: seq<Frame>)
    requires OrderedFrames(wire)
    ensures forall i, j :: 0 <= i < j < |EndsOf(wire)| ==> EndsOf(wire)[i] < EndsOf(wire)[j]
    ensures |EndsOf(wire)| == |GroupsOf(wire).closed|
  {
    if wire != [] {
      var before := wire[..|wire| - 1];
      EndsIncrease(before);
      forall i | 0 <= i < |EndsOf(before)| && wire[|wire| - 1].End?
        ensures EndsOf(before)[i] < wire[|wire| - 1].gen
      {
        var j := EndsAreFrames(before, i);
        assert wire[j] == End(EndsOf(before)[i]);
      }
    }
  }

  lemma {:induction false} ClimbsFrom(s: seq<nat>, i: nat)
    requires forall i, j :: 0 <= i < j < |s| ==> s[i] < s[j]
    requires forall i :: 0 <= i < |s| ==> 1 <= s[i]
    requires i < |s|
    ensures i + 1 <= s[i]
  {
    if i > 0 {
      ClimbsFrom(s, i - 1);
    }
  }

  lemma {:induction false} ClimbsTo(s: seq<nat>, top: nat, i: nat)
    requires forall i, j :: 0 <= i < j < |s| ==> s[i] < s[j]
    requires forall i :: 0 <= i < |s| ==> s[i] <= top
    requires i < |s|
    ensures s[i] <= top - (|s| - 1 - i)
    decreases |s| - i
  {
    if i < |s| - 1 {
      ClimbsTo(s, top, i + 1);
    }
  }

  /** Frames are queued in generation order with nothing after a generation's end; when no
      send was refused, the served generations are exactly 1, 2, ... each ended once. */
  lemma ServedOnceInOrder(actions: seq<Action>)
    ensures var s := Reached(actions);
            && OrderedFrames(s.wire) && SizedFrames(s.wire)
            && (!s.refused ==>
                  && |EndsOf(s.wire)| == s.upload.n - 1
                  && forall i :: 0 <= i < s.upload.n - 1 ==> EndsOf(s.wire)[i] == i + 1)
  {
    var s := Reached(actions);
    ReachedInv(actions);
    EndsIncrease(s.wire);
    if !s.refused {
      var ends := EndsOf(s.wire);
      forall i | 0 <= i < |ends| ensures 1 <= ends[i] <= s.upload.n - 1 {
        var j := EndsAreFrames(s.wire, i);
      }
      forall i | 0 <= i < |ends| ensures ends[i] == i + 1 {
        ClimbsFrom(ends, i);
        ClimbsTo(ends, s.upload.n - 1, i);
      }
    }
  }

  // ---- the end of a capture is final ----

  lemma EndedStays(s: State, a: Action, k: nat)
    requires Control(s) && WellFormed(s.ledger.q, RING_SAMPLES) && s.ended >= k
    ensures Step(s, a).ended >= k
    ensures Of(k, Step(s, a).ledger.accepted) == Of(k, s.ledger.accepted)
  {
    AcceptedStep(s, a, k);
    if Enabled(s, a) {
      LedgerStep(s, a);
    }
  }

  /** Generation `k` has reported its end with exactly `audio` captured. */
  ghost predicate EndedWith(actions: seq<Action>, k: nat, audio: seq<Sample>) {
    Reached(actions).ended >= k && Captured(actions, k) == audio
  }

  lemma OneMore(actions: seq<Action>, a: Action, k: nat, audio: seq<Sample>)
    requires EndedWith(actions, k, audio)
    ensures EndedWith(actions + [a], k, audio)
  {
    ExecSnoc(actions, a);
    ReachedInv(actions);
    EndedStays(Reached(actions), a, k);
    CapturedIsAccepted(actions, k);
    CapturedIsAccepted(actions + [a], k);
  }

  /** Once a generation's end is reported, nothing is ever written for it again - not even
      when its start signal is picked up a second time. */
  lemma {:induction false} NothingAfterEnd(actions: seq<Action>, more: seq<Action>, k: nat, audio: seq<Sample>)
    requires EndedWith(actions, k, audio)
    ensures EndedWith(actions + more, k, audio)
    decreases |more|
  {
    SplitLast(actions, more);
    if more != [] {
      var before := more[..|more| - 1];
      NothingAfterEnd(actions, before, k, audio);
      OneMore(actions + before, more[|more| - 1], k, audio);
    }
  }

  lemma SplitLast<T>(a: seq<T>, b: seq<T>)
    ensures if b == [] then a + b == a else a + b == a + b[..|b| - 1] + [b[|b| - 1]]
  {
    if b != [] {
      assert b == b[..|b| - 1] + [b[|b| - 1]];
    }
  }

  // ---- wake-ups ----

  /** The upload task is parked although there is something for it to do. */
  ghost predicate ParkedWithWork(s: State) {
    || (s.upload.UpIdle? && s.upload.n <= s.cur)
    || (s.upload.UpParked? &&
        (UtteranceEnded(s.cur, s.ended, s.upload.n) || Of(s.upload.n, s.ledger.q.items) != []))
  }

  /** No wake-up is lost: work for a parked upload task always comes with the signal it
      waits on, or with a start still owed, unseen or being captured, whose end will
      signal it; buffered audio and a reported end always come with their own signal. */
  lemma NoLostWakeup(actions: seq<Action>)
    ensures var s := Reached(actions);
            ParkedWithWork(s) ==>
              if s.upload.UpIdle? then s.uploadSignal || s.owed
              else
                && (s.dataReady || s.streamEnded || StartPending(s) || Capturing(s))
                && (Of(s.upload.n, s.ledger.q.items) != [] ==> s.dataReady)
                && (s.ended >= s.upload.n ==> s.streamEnded)
  {
    ReachedInv(actions);
  }

  /** Only the user can make the next thing happen. */
  predicate Quiescent(s: State) {
    && !s.owed
    && !Capturing(s) && !s.startSignal
    && (s.upload.UpIdle? || s.upload.UpParked?)
    && (s.upload.UpIdle? ==> !s.uploadSignal)
    && (s.upload.UpParked? ==> !s.dataReady && !s.streamEnded)
  }

  /** `Quiescent` is exactly: no step but a key press or release is possible. */
  lemma QuiescentIff(s: State)
    ensures Quiescent(s) <==> forall a: Action :: Enabled(s, a) ==> a.Press? || a.Release?
  {
    if !Quiescent(s) {
      var a := if s.owed then SignalStart
               else if Capturing(s) then Poll(None, false)
               else if s.startSignal then PickUp
               else match s.upload
                    case UpIdle(_) => WakeIdle
                    case UpStarting(_) => StartServing(true)
                    case UpDraining(_, _) => Drain
                    case UpSending(_, _) => Send(true)
                    case UpParked(_, _) => Unpark
                    case UpEnding(_, _) => Finish(true);
      assert Enabled(s, a);
    }
  }

  /** When nothing can move but the keyboard, everything armed has ended and been served. */
  lemma QuiescentMeansServed(actions: seq<Action>)
    requires Quiescent(Reached(actions))
    ensures var s := Reached(actions);
            s.upload == UpIdle(s.cur + 1) && s.ended == s.cur && s.rec == 0
  {
    ReachedInv(actions);
  }

  // ---- a second pick-up ----

  /** A generation already captured to its end can be picked up again (its own start signal
      outlives a pick-up caused by an older one); the second pick-up only ends at once. */
  lemma SecondPickUpWritesNothing(s: State, g: nat, chunk: Option<seq<Sample>>, capped: bool)
    requires Inv(s) && s.capture == CapLoading(g) && s.ended >= g
    ensures PollStep(s, g, chunk, capped) == EndCapture(s, g)
    ensures PollStep(s, g, chunk, capped).ledger == s.ledger
  {
  }

  lemma ExecSnoc(actions: seq<Action>, a: Action)
    ensures Reached(actions + [a]) == Step(Reached(actions), a)
  {
    assert (actions + [a])[..|actions + [a]| - 1] == actions;
  }
}
