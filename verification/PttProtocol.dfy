/** The push-to-talk generation protocol of src/mic.rs: the keyboard, capture and upload
    tasks as a state machine whose steps are the stretches of code between two awaits that
    can suspend. The tasks share one cooperative executor, so each such stretch is atomic;
    the ring's lock is never held across an await, so taking it suspends nobody and a poll
    writes its chunk in its own step. */
module PttProtocol {
  import opened Sequences
  import opened Limits
  import opened AudioRing

  const RING_SAMPLES: nat := 2048

  /** What the upload task queues for the session's audio channel. */
  datatype Frame = Data(gen: nat, samples: seq<Sample>) | End(gen: nat)

  /** Where `capture_task` is suspended. */
  datatype Capture =
    | CapWaiting                                  // START_SIGNAL.wait()
    | CapLoading(g: nat)                          // load_settings()
    | CapTicking(g: nat)                          // ticker.next()

  /** Where `ptt_upload_task` is suspended; `n` is `next_generation`. */
  datatype Upload =
    | UpIdle(n: nat)                              // UPLOAD_START_SIGNAL.wait()
    | UpStarting(n: nat)                          // notices before serve_utterance
    | UpDraining(n: nat, ssh: bool)               // notices, if any, before a read
    | UpSending(n: nat, out: seq<Sample>)         // AUDIO_QUEUE.send of a data frame
    | UpParked(n: nat, ssh: bool)                 // select(DATA_READY, STREAM_ENDED)
    | UpEnding(n: nat, ssh: bool)                 // notices and the end marker

  /** `cur`, `ended`, `rec` are CURRENT_GEN, ENDED_GEN, RECORDING. `owed` holds while
      `start_recording` awaits the screen lock between arming and signalling. `refused`
      remembers that some utterance found the channel down or had a send refused. */
  datatype State = State(
    cur: nat, ended: nat, rec: nat, owed: bool,
    startSignal: bool, uploadSignal: bool, dataReady: bool, streamEnded: bool,
    ledger: Ledger, capture: Capture, upload: Upload,
    wire: seq<Frame>, refused: bool)

  const INITIAL := State(0, 0, 0, false, false, false, false, false,
                         NEW_LEDGER, CapWaiting, UpIdle(1), [], false)

  datatype Action =
    | Press(available: bool)
    | SignalStart
    | Release
    | PickUp
    | Poll(chunk: Option<seq<Sample>>, capped: bool)
    | WakeIdle
    | StartServing(available: bool)
    | Drain
    | Send(ok: bool)
    | Unpark
    | Finish(ok: bool)

  predicate Enabled(s: State, a: Action) {
    match a
    case Press(_) => !s.owed
    case SignalStart => s.owed
    case Release => !s.owed
    case PickUp => s.capture.CapWaiting? && s.startSignal
    case Poll(chunk, _) =>
      && (s.capture.CapLoading? || s.capture.CapTicking?)
      && (chunk.Some? ==> |chunk.value| == SAMPLES_PER_CHUNK)
    case WakeIdle => s.upload.UpIdle? && s.uploadSignal
    case StartServing(_) => s.upload.UpStarting?
    case Drain => s.upload.UpDraining?
    case Send(_) => s.upload.UpSending?
    case Unpark => s.upload.UpParked? && (s.dataReady || s.streamEnded)
    case Finish(_) => s.upload.UpEnding?
  }

  // ---- keyboard ----

  /** Arms a generation when idle and the channel is up; the signals follow only after
      the screen lock has been taken. */
  function Arm(s: State, available: bool): State {
    if s.rec == 0 && available then
      s.(cur := s.cur + 1, rec := s.cur + 1, owed := true)
    else s
  }

  function Announce(s: State): State {
    s.(owed := false, startSignal := true, uploadSignal := true)
  }

  // ---- capture ----

  /** The start signal says only that some generation was armed: take the newest. */
  function TakeStart(s: State): State {
    s.(startSignal := false, capture := CapLoading(s.cur))
  }

  /** Leaving the recording loop: report the end, then wait for the next start. */
  function EndCapture(s: State, g: nat): State {
    s.(ended := if s.ended < g then g else s.ended, streamEnded := true, capture := CapWaiting)
  }

  /** The tail of a poll: the duration cap stops only its own recording. */
  function AfterPoll(s: State, g: nat, capped: bool): State {
    if capped then EndCapture(s.(rec := if s.rec == g then 0 else s.rec), g)
    else s.(capture := CapTicking(g))
  }

  function Deposit(s: State, g: nat, chunk: seq<Sample>): State {
    s.(ledger := LedgerWrite(s.ledger, RING_SAMPLES, g, chunk), dataReady := true)
  }

  /** The recording loop's test: `g` is being recorded and no newer one was armed. */
  predicate Recording(s: State, g: nat) {
    s.rec == g && s.cur == g
  }

  /** One poll, writing the chunk it filled, if any. */
  function PollStep(s: State, g: nat, chunk: Option<seq<Sample>>, capped: bool): State {
    if !Recording(s, g) then EndCapture(s, g)
    else
      match chunk
      case Some(pcm) => AfterPoll(Deposit(s, g, pcm), g, capped)
      case None => AfterPoll(s, g, capped)
  }

  // ---- upload ----

  /** The `while next_generation > CURRENT_GEN` test. */
  function AwaitGeneration(s: State, n: nat): State {
    s.(upload := if n > s.cur then UpIdle(n) else UpStarting(n))
  }

  function StartStep(s: State, n: nat, available: bool): State {
    s.(refused := s.refused || !available, upload := UpDraining(n, available))
  }

  /** `select` polls DATA_READY first and consumes only the signal it returns for. */
  function UnparkStep(s: State, n: nat, ssh: bool): State {
    if s.dataReady then s.(dataReady := false, upload := UpDraining(n, ssh))
    else s.(streamEnded := false, upload := UpDraining(n, ssh))
  }

  /** One `read`, and when it returns nothing the end-of-utterance test in the same step. */
  function DrainStep(s: State, n: nat, ssh: bool): State {
    var out := Samples(ReadTakes(s.ledger.q, n, SAMPLES_PER_CHUNK));
    var s' := s.(ledger := LedgerRead(s.ledger, n, SAMPLES_PER_CHUNK));
    s'.(upload :=
          if out != [] then (if ssh then UpSending(n, out) else UpDraining(n, false))
          else if UtteranceEnded(s.cur, s.ended, n) then UpEnding(n, ssh)
          else UpParked(n, ssh))
  }

  function SendStep(s: State, n: nat, out: seq<Sample>, ok: bool): State {
    if ok then s.(wire := s.wire + [Data(n, out)], upload := UpDraining(n, true))
    else s.(refused := true, upload := UpDraining(n, false))
  }

  /** The end marker, when the channel still carries this utterance. */
  function MarkEnd(s: State, n: nat, ssh: bool, ok: bool): State {
    if !ssh then s
    else if ok then s.(wire := s.wire + [End(n)])
    else s.(refused := true)
  }

  function FinishStep(s: State, n: nat, ssh: bool, ok: bool): State {
    AwaitGeneration(MarkEnd(s, n, ssh, ok), n + 1)
  }

  /** A disabled action leaves the state as it is, so every action sequence is a run. */
  function Step(s: State, a: Action): State {
    if Enabled(s, a) then Perform(s, a) else s
  }

  function Perform(s: State, a: Action): State
    requires Enabled(s, a)
  {
    match a
    case Press(available) => Arm(s, available)
    case SignalStart => Announce(s)
    case Release => s.(rec := 0)
    case PickUp => TakeStart(s)
    case Poll(chunk, capped) => PollStep(s, s.capture.g, chunk, capped)
    case WakeIdle => AwaitGeneration(s.(uploadSignal := false), s.upload.n)
    case StartServing(available) => StartStep(s, s.upload.n, available)
    case Drain => DrainStep(s, s.upload.n, s.upload.ssh)
    case Send(ok) => SendStep(s, s.upload.n, s.upload.out, ok)
    case Unpark => UnparkStep(s, s.upload.n, s.upload.ssh)
    case Finish(ok) => FinishStep(s, s.upload.n, s.upload.ssh, ok)
  }

  function Exec(s: State, actions: seq<Action>): State
    decreases |actions|
  {
    if actions == [] then s
    else Step(Exec(s, actions[..|actions| - 1]), actions[|actions| - 1])
  }

  // ---- what the wire says ----

  /** The samples queued for generation `k`. */
  function WireOf(k: nat, wire: seq<Frame>): seq<Sample> {
    if wire == [] then []
    else
      var f := wire[|wire| - 1];
      WireOf(k, wire[..|wire| - 1]) + (if f.Data? && f.gen == k then f.samples else [])
  }

  /** The wire as a receiver sees it: sample groups closed by end markers, and an open one. */
  datatype Groups = Groups(closed: seq<seq<Sample>>, open: seq<Sample>)

  function GroupsOf(wire: seq<Frame>): Groups {
    if wire == [] then Groups([], [])
    else
      var g := GroupsOf(wire[..|wire| - 1]);
      match wire[|wire| - 1]
      case Data(_, samples) => g.(open := g.open + samples)
      case End(_) => Groups(g.closed + [g.open], [])
  }

  /** Frames come in generation order, and nothing of a generation follows its end. */
  ghost predicate OrderedFrames(wire: seq<Frame>) {
    forall i, j :: 0 <= i < j < |wire| ==>
      wire[i].gen <= wire[j].gen && (wire[i].End? ==> wire[i].gen < wire[j].gen)
  }

  /** Every data frame carries between one sample and one chunk. */
  ghost predicate SizedFrames(wire: seq<Frame>) {
    forall i :: 0 <= i < |wire| && wire[i].Data? ==> 0 < |wire[i].samples| <= SAMPLES_PER_CHUNK
  }

  /** Samples read from the ring and waiting for their send to complete. */
  function InFlight(u: Upload, k: nat): seq<Sample> {
    if u.UpSending? && u.n == k then u.out else []
  }

  // ---- the invariant ----

  predicate Capturing(s: State) { !s.capture.CapWaiting? }

  /** A start the capture task has not seen yet. */
  predicate StartPending(s: State) { s.owed || s.startSignal }

  predicate CaptureInv(s: State) {
    && s.ended <= s.cur
    && (s.rec != 0 ==> s.rec == s.cur && s.ended < s.cur)
    && (StartPending(s) || s.uploadSignal ==> 1 <= s.cur)
    && (Capturing(s) ==> 1 <= s.capture.g <= s.cur && s.ended <= s.capture.g)
    && (s.capture.CapTicking? ==> s.ended < s.capture.g)
    && s.ledger.q.newest <= (if s.capture.CapTicking? then s.capture.g else s.ended)
  }

  predicate WakeInv(s: State) {
    && (s.ended < s.cur ==> Capturing(s) || StartPending(s))
    && (Capturing(s) && s.capture.g < s.cur ==> StartPending(s))
    && 1 <= s.upload.n <= s.cur + 1
    && (!s.upload.UpIdle? ==> s.upload.n <= s.cur)
    && (s.upload.UpIdle? && s.upload.n <= s.cur ==> s.uploadSignal || s.owed)
    && (s.upload.UpParked? ==>
          && (Of(s.upload.n, s.ledger.q.items) != [] ==> s.dataReady)
          && (s.ended >= s.upload.n ==> s.streamEnded))
  }

  /** The upload task has drained generation `k` for the last time. */
  predicate Drained(u: Upload, k: nat) {
    1 <= k && (k < u.n || (k == u.n && u.UpEnding?))
  }

  /** What was drained for the last time is neither buffered nor written any more. */
  ghost predicate DrainedInv(u: Upload, cur: nat, ended: nat, items: seq<Tagged>) {
    forall k: nat :: Drained(u, k) ==> (k < cur || k <= ended) && Of(k, items) == []
  }

  ghost predicate DiscardInv(discarded: seq<Tagged>) {
    forall k: nat :: 1 <= k ==> Of(k, discarded) == []
  }

  ghost predicate NoReadAhead(n: nat, read: seq<Tagged>) {
    forall k: nat :: k > n ==> Of(k, read) == []
  }

  ghost predicate CompleteInv(s: State) {
    && DrainedInv(s.upload, s.cur, s.ended, s.ledger.q.items)
    && DiscardInv(s.ledger.discarded)
    && NoReadAhead(s.upload.n, s.ledger.read)
  }

  ghost predicate WireShape(wire: seq<Frame>, n: nat) {
    && OrderedFrames(wire) && SizedFrames(wire)
    && forall i :: 0 <= i < |wire| ==> 1 <= wire[i].gen <= n && (wire[i].End? ==> wire[i].gen < n)
  }

  /** What is queued or about to be is part of what was read, in order. */
  ghost predicate WireWithin(wire: seq<Frame>, u: Upload, read: seq<Tagged>) {
    forall k: nat :: Subseq(WireOf(k, wire) + InFlight(u, k), Of(k, read))
  }

  ghost predicate WireExact(wire: seq<Frame>, u: Upload, read: seq<Tagged>) {
    forall k: nat :: WireOf(k, wire) + InFlight(u, k) == Of(k, read)
  }

  ghost predicate GroupsInv(wire: seq<Frame>, n: nat, read: seq<Tagged>) {
    var g := GroupsOf(wire);
    && 1 <= n && |g.closed| == n - 1
    && (forall k :: 1 <= k < n ==> g.closed[k - 1] == Of(k, read))
    && g.open == WireOf(n, wire)
  }

  predicate UploadShape(u: Upload) {
    u.UpSending? ==> 0 < |u.out| <= SAMPLES_PER_CHUNK
  }

  /** A session that refused nothing still has its channel. */
  predicate ChannelUp(u: Upload) {
    u.UpDraining? || u.UpParked? || u.UpEnding? ==> u.ssh
  }

  ghost predicate WireInv(s: State) {
    && WireShape(s.wire, s.upload.n)
    && UploadShape(s.upload)
    && WireWithin(s.wire, s.upload, s.ledger.read)
    && (!s.refused ==>
          && ChannelUp(s.upload)
          && WireExact(s.wire, s.upload, s.ledger.read)
          && GroupsInv(s.wire, s.upload.n, s.ledger.read))
  }

  ghost predicate Inv(s: State) {
    && LedgerInv(s.ledger, RING_SAMPLES)
    && CaptureInv(s) && WakeInv(s) && CompleteInv(s) && WireInv(s)
  }
}
