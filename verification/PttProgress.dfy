/** With nobody recording, every step but a key press brings the push-to-talk tasks nearer to
    rest, and at rest everything armed has been served. */
module PttProgress {
  import opened Sequences
  import opened Limits
  import opened AudioRing
  import opened PttProtocol
  import opened PttProofs
  import opened PttTheorems

  /** A step of the tasks' own, no key press or release. */
  predicate IsTask(a: Action) {
    !a.Press? && !a.Release?
  }

  function One(b: bool): nat {
    if b then 1 else 0
  }

  /** How far the upload task is from its next wait. */
  function Phase(u: Upload): nat {
    match u
    case UpIdle(_) => 0
    case UpParked(_, _) => 1
    case UpEnding(_, _) => 1
    case UpDraining(_, _) => 2
    case UpSending(_, _) => 3
    case UpStarting(_) => 3
  }

  /** What the signals and waits still owe: each weighs more than what it can set off. */
  function SignalRank(s: State): nat {
    9 * One(s.owed) + 4 * One(s.startSignal) + 4 * One(s.uploadSignal) + 3 * One(Capturing(s)) +
    2 * One(s.dataReady) + 2 * One(s.streamEnded)
  }

  /** What is left to serve: generations, buffered samples, the current wait. */
  function UploadRank(cur: nat, u: Upload, buffered: nat): int {
    3 * (cur + 1 - u.n) + 2 * buffered + Phase(u)
  }

  function Rank(s: State): int {
    SignalRank(s) + UploadRank(s.cur, s.upload, |s.ledger.q.items|)
  }

  lemma RankIsNatural(s: State)
    requires Inv(s)
    ensures Rank(s) >= 0
  {
  }

  // ---- every step lowers it ----

  lemma CaptureLowers(s: State, a: Action)
    requires Enabled(s, a) && s.rec == 0 && (a.SignalStart? || a.PickUp?)
    ensures Rank(Perform(s, a)) < Rank(s) && Perform(s, a).rec == 0 && Perform(s, a).cur == s.cur
  {
  }

  lemma PollLowers(s: State, g: nat, chunk: Option<seq<Sample>>, capped: bool)
    requires Control(s) && s.rec == 0 && Capturing(s) && s.capture.g == g
    ensures Rank(PollStep(s, g, chunk, capped)) < Rank(s)
    ensures PollStep(s, g, chunk, capped).rec == 0 && PollStep(s, g, chunk, capped).cur == s.cur
  {
  }

  lemma WaitLowers(s: State, a: Action)
    requires Enabled(s, a) && s.rec == 0 && (a.WakeIdle? || a.StartServing?)
    ensures Rank(Perform(s, a)) < Rank(s) && Perform(s, a).rec == 0 && Perform(s, a).cur == s.cur
  {
  }

  lemma UnparkLowers(s: State, n: nat, ssh: bool)
    requires s.upload == UpParked(n, ssh) && (s.dataReady || s.streamEnded)
    ensures Rank(UnparkStep(s, n, ssh)) < Rank(s)
    ensures UnparkStep(s, n, ssh).rec == s.rec && UnparkStep(s, n, ssh).cur == s.cur
  {
  }

  /** The step moves the upload task and nothing that the other tasks wait for. */
  predicate OnlyUpload(s: State, s': State) {
    && s'.cur == s.cur && s'.rec == s.rec && s'.capture == s.capture
    && s'.owed == s.owed && s'.startSignal == s.startSignal && s'.uploadSignal == s.uploadSignal
    && s'.dataReady == s.dataReady && s'.streamEnded == s.streamEnded
  }

  lemma OnlyUploadLowers(s: State, s': State)
    requires OnlyUpload(s, s')
    requires UploadRank(s.cur, s'.upload, |s'.ledger.q.items|) < UploadRank(s.cur, s.upload, |s.ledger.q.items|)
    ensures Rank(s') < Rank(s)
  {
  }

  lemma ReadShrinks(q: Queue, n: nat)
    requires WellFormed(q, RING_SAMPLES)
    ensures |AfterRead(q, n, SAMPLES_PER_CHUNK).items| + |ReadTakes(q, n, SAMPLES_PER_CHUNK)| <= |q.items|
  {
    ReadKeepsWellFormed(q, RING_SAMPLES, n, SAMPLES_PER_CHUNK);
  }

  lemma DrainIs(s: State, n: nat, ssh: bool)
    ensures var s' := DrainStep(s, n, ssh);
            && OnlyUpload(s, s') && s'.ledger.q == AfterRead(s.ledger.q, n, SAMPLES_PER_CHUNK)
            && s'.upload.n == n
            && (if ReadTakes(s.ledger.q, n, SAMPLES_PER_CHUNK) == [] then s'.upload.UpEnding? || s'.upload.UpParked?
                else s'.upload.UpSending? || s'.upload.UpDraining?)
  {
    assert |Samples(ReadTakes(s.ledger.q, n, SAMPLES_PER_CHUNK))| == |ReadTakes(s.ledger.q, n, SAMPLES_PER_CHUNK)|;
  }

  /** A read that took samples leaves fewer; one that took none leaves the upload task waiting. */
  lemma DrainedLowers(s: State, s': State, took: nat)
    requires OnlyUpload(s, s') && s.upload.UpDraining? && s'.upload.n == s.upload.n
    requires |s'.ledger.q.items| + took <= |s.ledger.q.items|
    requires if took == 0 then s'.upload.UpEnding? || s'.upload.UpParked?
             else s'.upload.UpSending? || s'.upload.UpDraining?
    ensures Rank(s') < Rank(s)
  {
    OnlyUploadLowers(s, s');
  }

  lemma DrainLowers(s: State, n: nat, ssh: bool)
    requires WellFormed(s.ledger.q, RING_SAMPLES) && s.upload == UpDraining(n, ssh)
    ensures Rank(DrainStep(s, n, ssh)) < Rank(s) && OnlyUpload(s, DrainStep(s, n, ssh))
  {
    ReadShrinks(s.ledger.q, n);
    DrainIs(s, n, ssh);
    DrainedLowers(s, DrainStep(s, n, ssh), |ReadTakes(s.ledger.q, n, SAMPLES_PER_CHUNK)|);
  }

  lemma SendLowers(s: State, n: nat, out: seq<Sample>, ok: bool)
    requires s.upload == UpSending(n, out)
    ensures Rank(SendStep(s, n, out, ok)) < Rank(s) && OnlyUpload(s, SendStep(s, n, out, ok))
  {
    OnlyUploadLowers(s, SendStep(s, n, out, ok));
  }

  lemma FinishMovesUpload(s: State, n: nat, ssh: bool, ok: bool)
    ensures OnlyUpload(s, FinishStep(s, n, ssh, ok))
  {
  }

  lemma FinishLowers(s: State, n: nat, ssh: bool, ok: bool)
    requires s.upload == UpEnding(n, ssh)
    ensures Rank(FinishStep(s, n, ssh, ok)) < Rank(s) && OnlyUpload(s, FinishStep(s, n, ssh, ok))
  {
    FinishIs(s, n, ssh, ok);
    FinishMovesUpload(s, n, ssh, ok);
    OnlyUploadLowers(s, FinishStep(s, n, ssh, ok));
  }

  /** While nobody records, each of the tasks' steps comes strictly nearer to rest. */
  lemma StepLowersRank(s: State, a: Action)
    requires Inv(s) && s.rec == 0 && IsTask(a) && Enabled(s, a)
    ensures Rank(Step(s, a)) < Rank(s) && Step(s, a).rec == 0 && Step(s, a).cur == s.cur
  {
    match a
    case SignalStart => CaptureLowers(s, a);
    case PickUp => CaptureLowers(s, a);
    case Poll(chunk, capped) => PollLowers(s, s.capture.g, chunk, capped);
    case Drain => DrainLowers(s, s.upload.n, s.upload.ssh);
    case Send(ok) => SendLowers(s, s.upload.n, s.upload.out, ok);
    case Finish(ok) => FinishLowers(s, s.upload.n, s.upload.ssh, ok);
    case Unpark => UnparkLowers(s, s.upload.n, s.upload.ssh);
    case _ => WaitLowers(s, a);
  }

  // ---- every schedule ends, and ends with everything served ----

  /** Steps of the tasks, each possible when it is taken, after `actions`. */
  predicate Schedule(actions: seq<Action>, more: seq<Action>)
    decreases |more|
  {
    more != [] ==>
      var before := more[..|more| - 1];
      var last := more[|more| - 1];
      Schedule(actions, before) && IsTask(last) && Enabled(Reached(actions + before), last)
  }

  /** However the tasks are scheduled, they take at most `Rank` steps before they all wait. */
  lemma {:induction false} SchedulesEnd(actions: seq<Action>, more: seq<Action>)
    requires Reached(actions).rec == 0 && Schedule(actions, more)
    ensures |more| + Rank(Reached(actions + more)) <= Rank(Reached(actions))
    ensures Reached(actions + more).rec == 0 && Reached(actions + more).cur == Reached(actions).cur
    decreases |more|
  {
    SplitLast(actions, more);
    if more != [] {
      var before, last := more[..|more| - 1], more[|more| - 1];
      SchedulesEnd(actions, before);
      ReachedInv(actions + before);
      StepLowersRank(Reached(actions + before), last);
      ExecSnoc(actions + before, last);
    }
  }

  /** Nothing but a key press or release can happen after `actions`. */
  ghost predicate Stuck(actions: seq<Action>) {
    forall a: Action :: IsTask(a) ==> !Enabled(Reached(actions), a)
  }

  lemma StuckIsServed(actions: seq<Action>)
    requires Stuck(actions)
    ensures var s := Reached(actions);
            s.upload == UpIdle(s.cur + 1) && s.ended == s.cur && s.rec == 0
  {
    QuiescentIff(Reached(actions));
    QuiescentMeansServed(actions);
  }

  /** So whatever was pressed before, once nobody records every schedule takes at most `Rank`
      steps, and one that cannot go on has ended and served every generation ever armed. */
  lemma EverythingGetsServed(actions: seq<Action>, more: seq<Action>)
    requires Reached(actions).rec == 0 && Schedule(actions, more)
    ensures |more| <= Rank(Reached(actions))
    ensures Stuck(actions + more) ==>
              var s := Reached(actions + more);
              s.cur == Reached(actions).cur && s.upload == UpIdle(s.cur + 1) && s.ended == s.cur
  {
    SchedulesEnd(actions, more);
    ReachedInv(actions + more);
    RankIsNatural(Reached(actions + more));
    if Stuck(actions + more) {
      StuckIsServed(actions + more);
    }
  }

  lemma ScheduleGrows(actions: seq<Action>, more: seq<Action>, a: Action)
    requires Schedule(actions, more) && IsTask(a) && Enabled(Reached(actions + more), a)
    ensures Schedule(actions, more + [a])
  {
    assert (more + [a])[..|more + [a]| - 1] == more;
  }

  lemma {:induction false} RunOn(actions: seq<Action>, more: seq<Action>) returns (all: seq<Action>)
    requires Reached(actions).rec == 0 && Schedule(actions, more)
    ensures Schedule(actions, all) && Stuck(actions + all)
    decreases Rank(Reached(actions)) - |more|
  {
    EverythingGetsServed(actions, more);
    if Stuck(actions + more) {
      all := more;
    } else {
      var a: Action :| IsTask(a) && Enabled(Reached(actions + more), a);
      ScheduleGrows(actions, more, a);
      EverythingGetsServed(actions, more + [a]);
      all := RunOn(actions, more + [a]);
    }
  }

  /** And such a schedule exists from every state in which nobody records. */
  lemma RestIsReached(actions: seq<Action>) returns (more: seq<Action>)
    requires Reached(actions).rec == 0
    ensures Schedule(actions, more) && |more| <= Rank(Reached(actions))
    ensures var s := Reached(actions + more);
            s.cur == Reached(actions).cur && s.upload == UpIdle(s.cur + 1) && s.ended == s.cur
  {
    more := RunOn(actions, []);
    EverythingGetsServed(actions, more);
  }
}
