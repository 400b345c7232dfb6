/** What the outside events of the push-to-talk protocol do, over everything that may follow
    them: a key press and its release, the duration cap, a channel that takes no audio. */
module PttEvents {
  import opened Sequences
  import opened Limits
  import opened AudioRing
  import opened PttProtocol
  import opened PttProofs
  import opened PttTheorems
  import opened PttProgress

  lemma CapturedSnoc(actions: seq<Action>, a: Action, k: nat)
    ensures Captured(actions + [a], k) == Captured(actions, k) + WrittenBy(Reached(actions), a, k)
  {
    assert (actions + [a])[..|actions + [a]| - 1] == actions;
  }

  // ---- which recording is on ----

  /** The step neither begins nor ends a recording. */
  predicate SameRecording(s: State, s': State) {
    s'.rec == s.rec && s'.cur == s.cur
  }

  /** What a poll leaves alone, ending the capture or not. */
  predicate OnlyCapture(s: State, s': State) {
    s'.cur == s.cur && s'.refused == s.refused && s'.wire == s.wire && s'.upload == s.upload
  }

  lemma EndCaptureIs(s: State, g: nat)
    ensures OnlyCapture(s, EndCapture(s, g)) && EndCapture(s, g).rec == s.rec && EndCapture(s, g).ended >= g
  {
  }

  lemma AfterPollIs(s: State, g: nat, capped: bool)
    ensures OnlyCapture(s, AfterPoll(s, g, capped))
    ensures AfterPoll(s, g, capped).rec == if capped && s.rec == g then 0 else s.rec
    ensures capped ==> AfterPoll(s, g, capped).ended >= g
  {
    EndCaptureIs(s.(rec := if s.rec == g then 0 else s.rec), g);
  }

  lemma DepositIs(s: State, g: nat, chunk: seq<Sample>)
    ensures OnlyCapture(s, Deposit(s, g, chunk)) && Deposit(s, g, chunk).rec == s.rec
  {
  }

  lemma PollIs(s: State, g: nat, chunk: Option<seq<Sample>>, capped: bool)
    ensures var s' := PollStep(s, g, chunk, capped);
            && OnlyCapture(s, s') && (capped || !Recording(s, g) ==> s'.ended >= g)
            && s'.rec == if Recording(s, g) && capped then 0 else s.rec
  {
    if !Recording(s, g) {
      EndCaptureIs(s, g);
    } else if chunk.None? {
      AfterPollIs(s, g, capped);
    } else {
      DepositIs(s, g, chunk.value);
      AfterPollIs(Deposit(s, g, chunk.value), g, capped);
    }
  }

  lemma WaitRecording(s: State, a: Action)
    requires Enabled(s, a) && (a.SignalStart? || a.PickUp? || a.WakeIdle? || a.StartServing? || a.Unpark?)
    ensures SameRecording(s, Perform(s, a))
  {
  }

  lemma UploadRecording(s: State, a: Action)
    requires Enabled(s, a) && (a.Drain? || a.Send? || a.Finish?)
    ensures SameRecording(s, Perform(s, a))
  {
    match a
    case Drain => DrainIs(s, s.upload.n, s.upload.ssh);
    case Send(_) =>
    case Finish(ok) => FinishMovesUpload(s, s.upload.n, s.upload.ssh, ok);
  }

  /** Only keys and the cap change what is being recorded. */
  lemma RecordingChanges(s: State, a: Action)
    requires Enabled(s, a) && !a.Press? && !a.Release?
    ensures Perform(s, a).cur == s.cur
    ensures Perform(s, a).rec == if a.Poll? && a.capped && Recording(s, s.capture.g) then 0 else s.rec
  {
    match a
    case Poll(chunk, capped) => PollIs(s, s.capture.g, chunk, capped);
    case Drain => UploadRecording(s, a);
    case Send(_) => UploadRecording(s, a);
    case Finish(_) => UploadRecording(s, a);
    case _ => WaitRecording(s, a);
  }

  // ---- a release ----

  /** No generation up to `c` is being recorded. */
  predicate Closed(s: State, c: nat) {
    c <= s.cur && (s.rec == 0 || s.rec > c)
  }

  lemma StaysClosed(s: State, a: Action, c: nat)
    requires Closed(s, c)
    ensures Closed(Step(s, a), c)
  {
    if Enabled(s, a) && !a.Press? && !a.Release? {
      RecordingChanges(s, a);
    }
  }

  lemma {:induction false} ClosedCapturesNothing(actions: seq<Action>, more: seq<Action>, c: nat, k: nat)
    requires Closed(Reached(actions), c) && k <= c
    ensures Closed(Reached(actions + more), c) && Captured(actions + more, k) == Captured(actions, k)
    decreases |more|
  {
    SplitLast(actions, more);
    if more != [] {
      var before, last := actions + more[..|more| - 1], more[|more| - 1];
      ClosedCapturesNothing(actions, more[..|more| - 1], c, k);
      ReachedInv(before);
      StaysClosed(Reached(before), last, c);
      ExecSnoc(before, last);
      CapturedSnoc(before, last, k);
    }
  }

  /** Releasing the key freezes what was captured of every generation armed so far, whatever
      happens afterwards. */
  lemma ReleaseStopsRecording(actions: seq<Action>, more: seq<Action>, k: nat)
    requires Enabled(Reached(actions), Release) && k <= Reached(actions).cur
    ensures Captured(actions + [Release] + more, k) == Captured(actions, k)
  {
    var c := Reached(actions).cur;
    ExecSnoc(actions, Release);
    CapturedSnoc(actions, Release, k);
    ClosedCapturesNothing(actions + [Release], more, c, k);
  }

  /** How many of `more` are steps of the tasks that were possible when their turn came. */
  function TaskSteps(actions: seq<Action>, more: seq<Action>): nat
    decreases |more|
  {
    if more == [] then 0
    else
      var before, last := more[..|more| - 1], more[|more| - 1];
      TaskSteps(actions, before) + One(IsTask(last) && Enabled(Reached(actions + before), last))
  }

  predicate NoPress(more: seq<Action>) {
    forall i :: 0 <= i < |more| ==> !more[i].Press?
  }

  lemma OneStepNearer(s: State, a: Action)
    requires Inv(s) && s.rec == 0 && !a.Press?
    ensures One(IsTask(a) && Enabled(s, a)) + Rank(Step(s, a)) <= Rank(s)
    ensures Step(s, a).rec == 0 && Step(s, a).cur == s.cur
  {
    if IsTask(a) && Enabled(s, a) {
      StepLowersRank(s, a);
    } else if Enabled(s, a) {
      assert s.(rec := 0) == s;
    }
  }

  lemma {:induction false} TaskStepsEnd(actions: seq<Action>, more: seq<Action>)
    requires Reached(actions).rec == 0 && NoPress(more)
    ensures TaskSteps(actions, more) + Rank(Reached(actions + more)) <= Rank(Reached(actions))
    ensures Reached(actions + more).rec == 0 && Reached(actions + more).cur == Reached(actions).cur
    decreases |more|
  {
    SplitLast(actions, more);
    if more != [] {
      var before, last := more[..|more| - 1], more[|more| - 1];
      TaskStepsEnd(actions, before);
      ReachedInv(actions + before);
      OneStepNearer(Reached(actions + before), last);
      ExecSnoc(actions + before, last);
    }
  }

  /** From a release on, until the key is pressed again, the tasks take at most `Rank` steps,
      and where they can take no more every generation armed so far has ended and been served. */
  lemma ReleaseServesEverything(actions: seq<Action>, more: seq<Action>)
    requires Enabled(Reached(actions), Release) && NoPress(more)
    ensures TaskSteps(actions + [Release], more) <= Rank(Reached(actions + [Release]))
    ensures Stuck(actions + [Release] + more) ==>
              var s := Reached(actions + [Release] + more);
              s.cur == Reached(actions).cur && s.upload == UpIdle(s.cur + 1) && s.ended == s.cur
  {
    var released := actions + [Release];
    ExecSnoc(actions, Release);
    TaskStepsEnd(released, more);
    ReachedInv(released + more);
    RankIsNatural(Reached(released + more));
    if Stuck(released + more) {
      StuckIsServed(released + more);
    }
  }

  // ---- the cap ----

  lemma CapEnds(s: State, g: nat, chunk: Option<seq<Sample>>)
    requires Inv(s) && Capturing(s) && s.capture.g == g
    ensures var s' := PollStep(s, g, chunk, true);
            s'.ended >= g && s'.rec == (if s.rec == g then 0 else s.rec) && s'.cur == s.cur
  {
    PollIs(s, g, chunk, true);
  }

  /** A capped poll is the last of its recording: nothing is captured for it any more. Another
      recording it leaves alone. */
  lemma CapStopsItsRecording(actions: seq<Action>, chunk: Option<seq<Sample>>, more: seq<Action>, k: nat)
    requires var s := Reached(actions); Enabled(s, Poll(chunk, true)) && k == s.capture.g
    ensures var capped := actions + [Poll(chunk, true)];
            && Captured(capped + more, k) == Captured(capped, k)
            && Reached(capped).ended >= k
            && Reached(capped).rec == (if Reached(actions).rec == k then 0 else Reached(actions).rec)
            && Reached(capped).cur == Reached(actions).cur
  {
    var capped := actions + [Poll(chunk, true)];
    ReachedInv(actions);
    ExecSnoc(actions, Poll(chunk, true));
    CapEnds(Reached(actions), k, chunk);
    NothingAfterEnd(capped, more, k, Captured(capped, k));
  }

  // ---- a press ----

  /** With a recording on, or without the audio channel, a press changes nothing, ever after. */
  lemma {:induction false} VainPress(actions: seq<Action>, available: bool, more: seq<Action>)
    requires Reached(actions).rec != 0 || !available
    ensures Reached(actions + [Press(available)] + more) == Reached(actions + more)
    decreases |more|
  {
    var pressed := actions + [Press(available)];
    SplitLast(actions, more);
    SplitLast(pressed, more);
    if more == [] {
      ExecSnoc(actions, Press(available));
    } else {
      var before, last := more[..|more| - 1], more[|more| - 1];
      VainPress(actions, available, before);
      ExecSnoc(actions + before, last);
      ExecSnoc(pressed + before, last);
    }
  }

  /** The step does not end the recording of `g`. */
  predicate Holds(s: State, a: Action, g: nat) {
    && !a.Release?
    && (a.Poll? && Enabled(s, a) && s.capture.g == g ==> !a.capped)
  }

  /** None of `more` ends the recording of `g`. */
  predicate Held(actions: seq<Action>, more: seq<Action>, g: nat)
    decreases |more|
  {
    more != [] ==>
      var before := more[..|more| - 1];
      Held(actions, before, g) && Holds(Reached(actions + before), more[|more| - 1], g)
  }

  /** The capture task is on generation `g`. */
  predicate On(s: State, g: nat) {
    Capturing(s) && s.capture.g == g
  }

  /** What a step fills while the capture task is on generation `g`. */
  function FilledBy(s: State, a: Action, g: nat): seq<Sample> {
    if Enabled(s, a) && a.Poll? && s.capture.g == g && a.chunk.Some? then a.chunk.value else []
  }

  /** All that `more` fills for generation `g`. */
  function FilledFor(actions: seq<Action>, more: seq<Action>, g: nat): seq<Sample>
    decreases |more|
  {
    if more == [] then []
    else
      var before := more[..|more| - 1];
      FilledFor(actions, before, g) + FilledBy(Reached(actions + before), more[|more| - 1], g)
  }

  predicate IsCaptureStep(a: Action) {
    a.SignalStart? || a.PickUp? || a.Poll?
  }

  /** How many of `more` were possible steps towards the capture. */
  function CaptureSteps(actions: seq<Action>, more: seq<Action>): nat
    decreases |more|
  {
    if more == [] then 0
    else
      var before, last := more[..|more| - 1], more[|more| - 1];
      CaptureSteps(actions, before) + One(IsCaptureStep(last) && Enabled(Reached(actions + before), last))
  }

  /** How many more of them the capture task needs to be on generation `g`. */
  function Distance(s: State, g: nat): nat {
    if On(s, g) then 0 else 1 + One(s.owed) + One(Capturing(s))
  }

  lemma CaptureComesNearer(s: State, a: Action, g: nat)
    requires Inv(s) && s.rec == g && s.cur == g && g > 0 && Holds(s, a, g)
    requires Enabled(s, a) && IsCaptureStep(a)
    ensures Distance(Step(s, a), g) == 0 || Distance(Step(s, a), g) < Distance(s, g)
  {
  }

  lemma UploadKeepsDistance(s: State, a: Action, g: nat)
    requires Enabled(s, a) && IsTask(a) && !IsCaptureStep(a)
    ensures Distance(Perform(s, a), g) == Distance(s, g)
  {
    match a
    case Drain => DrainIs(s, s.upload.n, s.upload.ssh);
    case Finish(ok) => FinishMovesUpload(s, s.upload.n, s.upload.ssh, ok);
    case Send(_) =>
    case _ => WaitKeepsCapture(s, a);
  }

  lemma WaitKeepsCapture(s: State, a: Action)
    requires Enabled(s, a) && (a.WakeIdle? || a.StartServing? || a.Unpark?)
    ensures Perform(s, a).capture == s.capture && Perform(s, a).owed == s.owed
  {
  }

  lemma HeldStep(s: State, a: Action, g: nat)
    requires Inv(s) && s.rec == g && s.cur == g && g > 0 && Holds(s, a, g)
    ensures var s' := Step(s, a);
            && s'.rec == g && s'.cur == g && WrittenBy(s, a, g) == FilledBy(s, a, g)
            && (Distance(s', g) == 0 ||
                Distance(s', g) + One(IsCaptureStep(a) && Enabled(s, a)) <= Distance(s, g))
  {
    if Enabled(s, a) && !a.Press? {
      RecordingChanges(s, a);
      if IsCaptureStep(a) {
        CaptureComesNearer(s, a, g);
      } else {
        UploadKeepsDistance(s, a, g);
      }
    }
  }

  /** What holds while generation `g` goes on being recorded since `actions`. */
  ghost predicate GoesOn(actions: seq<Action>, more: seq<Action>, g: nat) {
    var s := Reached(actions + more);
    && s.rec == g && s.cur == g
    && Captured(actions + more, g) == Captured(actions, g) + FilledFor(actions, more, g)
    && (On(s, g) || CaptureSteps(actions, more) + Distance(s, g) <= Distance(Reached(actions), g))
  }

  lemma GoesOnNext(actions: seq<Action>, before: seq<Action>, last: Action, more: seq<Action>, g: nat)
    requires more == before + [last] && g > 0
    requires GoesOn(actions, before, g) && Holds(Reached(actions + before), last, g)
    ensures GoesOn(actions, more, g)
  {
    var s := Reached(actions + before);
    SnocParts(actions, before, last);
    ReachedInv(actions + before);
    HeldStep(s, last, g);
    ExecSnoc(actions + before, last);
    CapturedSnoc(actions + before, last, g);
    Regroup(Captured(actions, g), FilledFor(actions, before, g), FilledBy(s, last, g));
  }

  lemma SnocParts<T>(a: seq<T>, b: seq<T>, x: T)
    ensures (b + [x])[..|b + [x]| - 1] == b && a + (b + [x]) == a + b + [x]
  {
  }

  lemma Regroup<T>(a: seq<T>, b: seq<T>, c: seq<T>)
    ensures a + b + c == a + (b + c)
  {
  }

  lemma {:induction false} RecordingGoesOn(actions: seq<Action>, more: seq<Action>, g: nat)
    requires Reached(actions).rec == Reached(actions).cur == g > 0 && Held(actions, more, g)
    ensures GoesOn(actions, more, g)
    decreases |more|
  {
    if more == [] {
      assert actions + more == actions;
      assert Captured(actions, g) + [] == Captured(actions, g);
    } else {
      var before := more[..|more| - 1];
      RecordingGoesOn(actions, before, g);
      GoesOnNext(actions, before, more[|more| - 1], more, g);
    }
  }

  lemma {:induction false} NothingYet(actions: seq<Action>, k: nat)
    requires k > Reached(actions).cur
    ensures Captured(actions, k) == []
    decreases |actions|
  {
    if actions != [] {
      var before, last := actions[..|actions| - 1], actions[|actions| - 1];
      CurGrows(Reached(before), last);
      NothingYet(before, k);
      ReachedInv(before);
      NothingWritten(Reached(before), last, k);
    }
  }

  lemma NothingWritten(s: State, a: Action, k: nat)
    requires Control(s) && k > s.cur
    ensures WrittenBy(s, a, k) == []
  {
  }

  lemma CurGrows(s: State, a: Action)
    ensures Step(s, a).cur >= s.cur
  {
    if Enabled(s, a) && !a.Press? && !a.Release? {
      RecordingChanges(s, a);
    }
  }

  /** With nothing recorded and the channel up, a press arms one generation, the next. Until
      its release or its cap - further presses included - exactly what the capture task fills
      on that generation is captured for it; and three steps of start signal and capture at
      the most bring the task there, one of them always being possible. */
  lemma PressRecordsOne(actions: seq<Action>, more: seq<Action>)
    requires Enabled(Reached(actions), Press(true)) && Reached(actions).rec == 0
    requires Held(actions + [Press(true)], more, Reached(actions).cur + 1)
    ensures var g, pressed := Reached(actions).cur + 1, actions + [Press(true)];
            var s := Reached(pressed + more);
            && s.cur == g && s.rec == g
            && Captured(pressed + more, g) == FilledFor(pressed, more, g)
            && (CaptureSteps(pressed, more) >= 3 ==> On(s, g))
            && (On(s, g) || exists a: Action :: IsCaptureStep(a) && Enabled(s, a))
  {
    var g, pressed := Reached(actions).cur + 1, actions + [Press(true)];
    ExecSnoc(actions, Press(true));
    CapturedSnoc(actions, Press(true), g);
    NothingYet(actions, g);
    RecordingGoesOn(pressed, more, g);
    assert [] + FilledFor(pressed, more, g) == FilledFor(pressed, more, g);
    ReachedInv(pressed + more);
    var s := Reached(pressed + more);
    if !On(s, g) {
      var a := if s.owed then SignalStart else if Capturing(s) then Poll(None, false) else PickUp;
      assert IsCaptureStep(a) && Enabled(s, a);
    }
  }

  // ---- the end of a service ----

  /** A read that finds nothing of its generation ends the service exactly when that generation
      was reported ended or a newer one has been armed; otherwise the upload task waits. One
      that finds something never does. */
  lemma ServiceEndsIff(actions: seq<Action>)
    requires Enabled(Reached(actions), Drain)
    ensures var s := Reached(actions);
            var n := s.upload.n;
            var nothing := ReadTakes(s.ledger.q, n, SAMPLES_PER_CHUNK) == [];
            && (Reached(actions + [Drain]).upload.UpEnding? <==> nothing && (s.ended >= n || s.cur > n))
            && (Reached(actions + [Drain]).upload.UpParked? <==> nothing && s.ended < n && s.cur <= n)
  {
    var s := Reached(actions);
    ExecSnoc(actions, Drain);
    DrainIs(s, s.upload.n, s.upload.ssh);
  }

  // ---- a channel that takes no audio ----

  /** The step loses audio to the channel. */
  predicate Refusing(s: State, a: Action) {
    Enabled(s, a) && (a == StartServing(false) || a == Send(false) || (a == Finish(false) && s.upload.ssh))
  }

  lemma RefusedStep(s: State, a: Action)
    ensures Step(s, a).refused <==> s.refused || Refusing(s, a)
  {
    if Enabled(s, a) {
      match a
      case Poll(chunk, capped) => PollIs(s, s.capture.g, chunk, capped);
      case Finish(ok) => FinishIs(s, s.upload.n, s.upload.ssh, ok);
      case _ =>
    }
  }

  /** `refused` remembers exactly that some step did. */
  lemma {:induction false} RefusedIff(actions: seq<Action>)
    ensures Reached(actions).refused <==>
              exists i :: 0 <= i < |actions| && Refusing(Reached(actions[..i]), actions[i])
    decreases |actions|
  {
    if actions != [] {
      var n := |actions| - 1;
      var before := actions[..n];
      RefusedIff(before);
      RefusedStep(Reached(before), actions[n]);
      assert forall i :: 0 <= i < n ==> before[..i] == actions[..i];
      if Reached(before).refused {
        var i :| 0 <= i < n && Refusing(Reached(before[..i]), before[i]);
        assert Refusing(Reached(actions[..i]), actions[i]);
      }
    }
  }

  /** The frames of generation `n`, its end marker included. */
  function FramesOf(wire: seq<Frame>, n: nat): seq<Frame> {
    if wire == [] then []
    else FramesOf(wire[..|wire| - 1], n) + (if wire[|wire| - 1].gen == n then [wire[|wire| - 1]] else [])
  }

  /** Generation `n` is served without the channel, or has been. */
  predicate Muted(u: Upload, n: nat) {
    u.n > n || (u.n == n && (u.UpDraining? || u.UpParked? || u.UpEnding?) && !u.ssh)
  }

  lemma FramesSnoc(wire: seq<Frame>, f: Frame, n: nat)
    ensures FramesOf(wire + [f], n) == FramesOf(wire, n) + (if f.gen == n then [f] else [])
  {
    assert (wire + [f])[..|wire|] == wire;
  }

  lemma MutedSends(s: State, a: Action, n: nat)
    requires Enabled(s, a) && (a.Send? || a.Finish?) && Muted(s.upload, n)
    ensures Muted(Perform(s, a).upload, n) && FramesOf(Perform(s, a).wire, n) == FramesOf(s.wire, n)
  {
    match a
    case Send(ok) =>
      FramesSnoc(s.wire, Data(s.upload.n, s.upload.out), n);
    case Finish(ok) =>
      FinishIs(s, s.upload.n, s.upload.ssh, ok);
      FramesSnoc(s.wire, End(s.upload.n), n);
  }

  lemma MutedMoves(s: State, a: Action, n: nat)
    requires Enabled(s, a) && (a.WakeIdle? || a.StartServing? || a.Unpark? || a.Drain?) && Muted(s.upload, n)
    ensures Muted(Perform(s, a).upload, n) && Perform(s, a).wire == s.wire
  {
  }

  lemma KeysLeaveWire(s: State, a: Action)
    requires Enabled(s, a) && (a.Press? || a.SignalStart? || a.Release? || a.PickUp?)
    ensures Perform(s, a).wire == s.wire && Perform(s, a).upload == s.upload
  {
  }

  lemma StaysMuted(s: State, a: Action, n: nat)
    requires Muted(s.upload, n)
    ensures Muted(Step(s, a).upload, n) && FramesOf(Step(s, a).wire, n) == FramesOf(s.wire, n)
  {
    if Enabled(s, a) {
      match a
      case Poll(chunk, capped) => PollIs(s, s.capture.g, chunk, capped);
      case Send(_) => MutedSends(s, a, n);
      case Finish(_) => MutedSends(s, a, n);
      case WakeIdle => MutedMoves(s, a, n);
      case StartServing(_) => MutedMoves(s, a, n);
      case Unpark => MutedMoves(s, a, n);
      case Drain => MutedMoves(s, a, n);
      case _ => KeysLeaveWire(s, a);
    }
  }

  predicate NotServing(u: Upload) {
    u.UpIdle? || u.UpStarting?
  }

  /** Before its service begins nothing of a generation is on the wire. */
  predicate Unsent(u: Upload, wire: seq<Frame>) {
    NotServing(u) ==> forall i :: 0 <= i < |wire| ==> wire[i].gen < u.n
  }

  lemma WaitsKeepWire(s: State, a: Action)
    requires Enabled(s, a) && (a.WakeIdle? || a.StartServing? || a.Unpark?)
    ensures Perform(s, a).wire == s.wire && Perform(s, a).upload.n == s.upload.n
    ensures NotServing(Perform(s, a).upload) ==> NotServing(s.upload)
  {
  }

  /** Only the two sends touch the wire, and only the end of a service moves to another. */
  lemma OthersKeepWire(s: State, a: Action)
    requires Enabled(s, a) && !a.Send? && !a.Finish?
    ensures Perform(s, a).wire == s.wire && Perform(s, a).upload.n == s.upload.n
    ensures NotServing(Perform(s, a).upload) ==> NotServing(s.upload)
  {
    match a
    case Poll(chunk, capped) => PollIs(s, s.capture.g, chunk, capped);
    case WakeIdle => WaitsKeepWire(s, a);
    case StartServing(_) => WaitsKeepWire(s, a);
    case Unpark => WaitsKeepWire(s, a);
    case Drain => DrainIs(s, s.upload.n, s.upload.ssh);
    case _ => KeysLeaveWire(s, a);
  }

  lemma FinishUnsent(s: State, n: nat, ssh: bool, ok: bool)
    requires WireShape(s.wire, n) && s.upload == UpEnding(n, ssh)
    ensures Unsent(FinishStep(s, n, ssh, ok).upload, FinishStep(s, n, ssh, ok).wire)
  {
    FinishIs(s, n, ssh, ok);
  }

  lemma StaysUnsent(s: State, a: Action)
    requires WireShape(s.wire, s.upload.n) && Unsent(s.upload, s.wire)
    ensures Unsent(Step(s, a).upload, Step(s, a).wire)
  {
    if Enabled(s, a) {
      match a
      case Finish(ok) => FinishUnsent(s, s.upload.n, s.upload.ssh, ok);
      case Send(ok) => assert !NotServing(SendStep(s, s.upload.n, s.upload.out, ok).upload);
      case _ => OthersKeepWire(s, a);
    }
  }

  lemma {:induction false} ReachedUnsent(actions: seq<Action>)
    ensures Unsent(Reached(actions).upload, Reached(actions).wire)
    decreases |actions|
  {
    if actions != [] {
      var before := actions[..|actions| - 1];
      ReachedUnsent(before);
      ReachedInv(before);
      StaysUnsent(Reached(before), actions[|actions| - 1]);
    }
  }

  lemma {:induction false} NoFramesOf(wire: seq<Frame>, n: nat)
    requires forall i :: 0 <= i < |wire| ==> wire[i].gen < n
    ensures FramesOf(wire, n) == []
  {
    if wire != [] {
      NoFramesOf(wire[..|wire| - 1], n);
    }
  }

  lemma {:induction false} MutedForGood(actions: seq<Action>, more: seq<Action>, n: nat)
    requires Muted(Reached(actions).upload, n)
    ensures Muted(Reached(actions + more).upload, n)
    ensures FramesOf(Reached(actions + more).wire, n) == FramesOf(Reached(actions).wire, n)
    decreases |more|
  {
    SplitLast(actions, more);
    if more != [] {
      var before := more[..|more| - 1];
      MutedForGood(actions, before, n);
      ExecSnoc(actions + before, more[|more| - 1]);
      StaysMuted(Reached(actions + before), more[|more| - 1], n);
    }
  }

  /** A generation whose service begins without the channel, or one of whose sends is refused,
      puts nothing more on the wire, no end marker either, although the channel may be back;
      in the first case it puts nothing there at all. */
  lemma RefusalMutesTheRest(actions: seq<Action>, a: Action, more: seq<Action>)
    requires Refusing(Reached(actions), a)
    ensures var n := Reached(actions).upload.n;
            && FramesOf(Reached(actions + [a] + more).wire, n) == FramesOf(Reached(actions).wire, n)
            && (a.StartServing? ==> FramesOf(Reached(actions).wire, n) == [])
  {
    var s := Reached(actions);
    var n := s.upload.n;
    ExecSnoc(actions, a);
    if a.Finish? {
      FinishIs(s, n, s.upload.ssh, false);
    }
    MutedForGood(actions + [a], more, n);
    if a.StartServing? {
      ReachedUnsent(actions);
      NoFramesOf(s.wire, n);
    }
  }
}
