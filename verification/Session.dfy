/** Consecutive SSH sessions and their push-to-talk audio channels (src/net.rs), as a state
    machine whose steps are the stretches of code between two awaits. */
module Session {
  import opened Sequences

  const PTT_SCRIPT_CHUNK_BYTES: nat := 1024
  const AUDIO_QUEUE_DEPTH: nat := 3

  /** What a session's audio channel runs; the embedded script's length is a parameter. */
  datatype Command = Embedded(scriptBytes: nat) | Configured

  datatype Kind = Terminal | Audio

  /** A queued wire frame and the session it was queued in. */
  datatype AudioFrame = AudioFrame(session: nat, data: seq<nat>)

  /** What is asked of, heard from or written to the server. Channels are numbered in the
      order in which they are requested; each request names the channel it really goes to. */
  datatype Event =
    | Request(kind: Kind)
    | Opened(channel: nat)
    | PtyRequest(channel: nat)
    | StartRequest(channel: nat)
    | HelperExec(channel: nat)
    | ScriptBytes(channel: nat, from: nat, to: nat)
    | FrameWritten(channel: nat, frame: AudioFrame)

  /** The ticker is waiting for an event, for the screen lock with the first open event in
      hand, or for the screen lock before it reports that the exec failed. */
  datatype Ticker = Waiting | OpeningPty(channel: nat) | ReportingFailure

  /** The audio branch: waiting for the terminal, then for the exec's result; sending the
      script; pumping; still inside the pump, reporting why it stops; or only draining. */
  datatype Branch =
    | AwaitPty
    | AwaitExec(channel: nat)
    | SendScript(channel: nat, sent: nat)
    | Pump(channel: nat)
    | StopPump(channel: nat)
    | Drain

  datatype Record = Record(command: Option<Command>, number: nat, log: seq<Event>)

  /** The statics, which outlive a session, then the current session's locals. */
  datatype State = State(
    audioReady: bool, terminalOpen: bool, ptyReady: bool, execSent: Option<bool>, queue: seq<AudioFrame>,
    running: bool, number: nat, command: Option<Command>, ptyOpened: bool, terminalAsked: bool,
    ticker: Ticker, branch: Branch, log: seq<Event>,
    past: seq<Record>)

  datatype Step =
    | Start(command: Option<Command>)
    | AskTerminal
    | SessionOpened(channel: nat, execOk: bool)
    | FinishPty(ptyOk: bool, startOk: bool)
    | ReportFailure
    | SessionExit
    | TickerStops
    | TerminalEof
    | RunnerStops
    | WakeBranch(openOk: bool)
    | HearExec
    | SendChunk(ok: bool)
    | PumpFrame(ok: bool)
    | PumpCloses
    | PumpReturns
    | DrainFrame
    | QueueFrame(data: seq<nat>)

  /** Booting leaves every static at its initial value. */
  function Boot(): State {
    State(false, false, false, None, [], false, 0, None, false, false, Waiting, Drain, [], [])
  }

  function ScriptLength(command: Command): nat {
    if command.Embedded? then command.scriptBytes else 0
  }

  function Requested(log: seq<Event>): (n: nat)
    ensures n <= |log|
  {
    if log == [] then 0 else Requested(log[..|log| - 1]) + (if log[|log| - 1].Request? then 1 else 0)
  }

  /** The server may confirm, once, any channel that was requested, in any order. */
  predicate Pending(log: seq<Event>, channel: nat) {
    channel < Requested(log) && Opened(channel) !in log
  }

  /** The select resolves: every future is dropped, the pump's guard with them. */
  function End(s: State): State {
    s.(audioReady := false, terminalOpen := false, running := false,
       past := s.past + [Record(s.command, s.number, s.log)])
  }

  predicate Enabled(s: State, step: Step) {
    match step
    case Start(_) => !s.running
    case AskTerminal => s.running && !s.terminalAsked
    case SessionOpened(channel, _) => s.running && s.ticker.Waiting? && Pending(s.log, channel)
    case FinishPty(_, _) => s.running && s.ticker.OpeningPty?
    case ReportFailure => s.running && s.ticker.ReportingFailure?
    case SessionExit => s.running && s.ticker.Waiting?
    case TickerStops => s.running
    case TerminalEof => s.running && s.terminalAsked
    case RunnerStops => s.running
    case WakeBranch(_) => s.running && s.branch == AwaitPty && s.ptyReady
    case HearExec => s.running && s.branch.AwaitExec? && s.execSent.Some?
    case SendChunk(_) => s.running && s.branch.SendScript?
    case PumpFrame(_) => s.running && s.branch.Pump? && s.queue != []
    case PumpCloses => s.running && s.branch.Pump?
    case PumpReturns => s.running && s.branch.StopPump?
    case DrainFrame => s.running && s.branch == Drain && s.queue != []
    case QueueFrame(_) => s.audioReady && |s.queue| < AUDIO_QUEUE_DEPTH
  }

  /** The resets of `reset_audio_session_state`, then the session's futures. */
  function StartSession(s: State, command: Option<Command>): State {
    s.(ptyReady := false, execSent := None, terminalOpen := false, queue := [],
       running := true, number := s.number + 1, command := command, ptyOpened := false, terminalAsked := false,
       ticker := Waiting, branch := if command.Some? then AwaitPty else Drain, log := [])
  }

  /** The first open event is taken for the terminal's, any later one for the audio's. */
  function OnOpened(s: State, channel: nat, execOk: bool): State {
    var t := s.(log := s.log + [Opened(channel)]);
    if !s.ptyOpened then t.(ptyOpened := true, ticker := OpeningPty(channel))
    else if s.command.Some? && execOk then t.(log := t.log + [HelperExec(channel)], execSent := Some(true))
    else t.(ticker := ReportingFailure)
  }

  function OnFinishPty(s: State, ptyOk: bool, startOk: bool): State
    requires s.ticker.OpeningPty?
  {
    if !ptyOk then End(s)
    else
      var t := s.(log := s.log + [PtyRequest(s.ticker.channel)]);
      if !startOk then End(t)
      else
        t.(log := t.log + [StartRequest(s.ticker.channel)],
           terminalOpen := true, ptyReady := true, ticker := Waiting)
  }

  /** Audio is pumped once nothing of the script is left to send. */
  function Deliver(s: State, channel: nat, sent: nat): State {
    if s.command.Some? && sent < ScriptLength(s.command.value) then s.(branch := SendScript(channel, sent))
    else s.(branch := Pump(channel), audioReady := true)
  }

  function ChunkEnd(from: nat, total: nat): nat {
    if from + PTT_SCRIPT_CHUNK_BYTES < total then from + PTT_SCRIPT_CHUNK_BYTES else total
  }

  function OnSendChunk(s: State, ok: bool): State
    requires s.branch.SendScript?
  {
    if !ok || s.command.None? then s.(branch := Drain)
    else
      var end := ChunkEnd(s.branch.sent, ScriptLength(s.command.value));
      Deliver(s.(log := s.log + [ScriptBytes(s.branch.channel, s.branch.sent, end)]), s.branch.channel, end)
  }

  function OnPumpFrame(s: State, ok: bool): State
    requires s.branch.Pump? && s.queue != []
  {
    var t := s.(queue := s.queue[1..]);
    if ok then t.(log := s.log + [FrameWritten(s.branch.channel, s.queue[0])])
    else t.(branch := StopPump(s.branch.channel))
  }

  function Next(s: State, step: Step): State
    requires Enabled(s, step)
  {
    match step
    case Start(command) => StartSession(s, command)
    case AskTerminal => s.(terminalAsked := true, log := s.log + [Request(Terminal)])
    case SessionOpened(channel, execOk) => OnOpened(s, channel, execOk)
    case FinishPty(ptyOk, startOk) => OnFinishPty(s, ptyOk, startOk)
    case ReportFailure => s.(execSent := Some(false), ticker := Waiting)
    case SessionExit => if s.terminalOpen then s else End(s)
    case TickerStops => End(s)
    case TerminalEof => End(s)
    case RunnerStops => End(s)
    case WakeBranch(openOk) =>
      var t := s.(ptyReady := false);
      if openOk then t.(log := s.log + [Request(Audio)], branch := AwaitExec(Requested(s.log)))
      else t.(branch := Drain)
    case HearExec =>
      var t := s.(execSent := None);
      if s.execSent.value then Deliver(t, s.branch.channel, 0) else t.(branch := Drain)
    case SendChunk(ok) => OnSendChunk(s, ok)
    case PumpFrame(ok) => OnPumpFrame(s, ok)
    case PumpCloses => s.(branch := StopPump(s.branch.channel))
    case PumpReturns => s.(branch := Drain, audioReady := false)
    case DrainFrame => s.(queue := s.queue[1..])
    case QueueFrame(data) => s.(queue := s.queue + [AudioFrame(s.number, data)])
  }

  /** Some run of steps leads from `s` to `t`. */
  predicate IsRun(states: seq<State>, steps: seq<Step>) {
    && |states| == |steps| + 1
    && forall i :: 0 <= i < |steps| ==> Enabled(states[i], steps[i]) && states[i + 1] == Next(states[i], steps[i])
  }

  // ---- what a session may say to the server ----

  /** A session whose audio comes up says exactly this, in this order, on these channels. */
  function Preamble(): (r: seq<Event>)
    ensures |r| == 7
  {
    [Request(Terminal), Opened(0), PtyRequest(0), StartRequest(0), Request(Audio), Opened(1), HelperExec(1)]
  }

  /** The script from byte `from` on, in chunks. */
  function Script(from: nat, total: nat): seq<Event>
    decreases total - from
  {
    if from >= total then []
    else [ScriptBytes(1, from, ChunkEnd(from, total))] + Script(ChunkEnd(from, total), total)
  }

  /** Frames of session `number`, written to the second channel. */
  predicate AreFrames(log: seq<Event>, number: nat) {
    forall i :: 0 <= i < |log| ==> log[i].FrameWritten? && log[i].channel == 1 && log[i].frame.session == number
  }

  function Opening(command: Option<Command>): seq<Event> {
    if command.None? then Preamble()[..4] else Preamble() + Script(0, ScriptLength(command.value))
  }

  /** All a session may say: its opening, then, with a helper, frames of that session; it may
      stop at any point. */
  predicate Follows(log: seq<Event>, command: Option<Command>, number: nat) {
    log <= Opening(command) ||
    (command.Some? && Opening(command) <= log && AreFrames(log[|Opening(command)|..], number))
  }

  // ---- the invariant ----

  /** Where a running session stands, by how much it has said. */
  predicate Standing(s: State) {
    var n := |s.log|;
    && (n <= 7 ==> s.log == Preamble()[..n])
    && (n >= 7 ==> s.log[..7] == Preamble() && Requested(s.log) == 2)
    && n != 3
    && (s.terminalAsked <==> n >= 1)
    && (s.ptyOpened <==> n >= 2)
    && (s.terminalOpen <==> n >= 4)
    && (s.ticker.OpeningPty? <==> n == 2)
    && (s.ticker.OpeningPty? ==> s.ticker.channel == 0)
    && (s.ticker.ReportingFailure? ==> n == 6 && s.branch == AwaitExec(1) && s.execSent.None?)
    && (s.ptyReady ==> n == 4)
    && (s.execSent.Some? ==> s.branch == AwaitExec(1) && n == if s.execSent.value then 7 else 6)
  }

  /** Everything in the opening was said, and then only frames. */
  predicate Pumped(log: seq<Event>, command: Option<Command>, number: nat) {
    command.Some? && Opening(command) <= log && AreFrames(log[|Opening(command)|..], number)
  }

  /** What is left of the opening is the script from byte `sent` on. */
  predicate Sending(log: seq<Event>, command: Option<Command>, sent: nat) {
    && command.Some? && sent < ScriptLength(command.value)
    && log + Script(sent, ScriptLength(command.value)) == Opening(command)
  }

  /** Where the audio branch stands. */
  predicate BranchStands(s: State) {
    var n := |s.log|;
    match s.branch
    case AwaitPty => s.command.Some? && n <= 4 && (n == 4 ==> s.ptyReady)
    case AwaitExec(channel) =>
      && s.command.Some? && 5 <= n <= 7 && channel == 1
      && (n == 6 ==> s.ticker.ReportingFailure? || s.execSent.Some?)
      && (n == 7 ==> s.execSent.Some?)
    case SendScript(channel, sent) => channel == 1 && n >= 7 && Sending(s.log, s.command, sent)
    case Pump(channel) => channel == 1 && n >= 7 && Pumped(s.log, s.command, s.number)
    case StopPump(channel) => channel == 1 && n >= 7 && Pumped(s.log, s.command, s.number)
    case Drain => n != 5 && Follows(s.log, s.command, s.number)
  }

  /** Every queued frame belongs to the session that is pumping, or was. */
  predicate QueueStands(queue: seq<AudioFrame>, number: nat) {
    forall i :: 0 <= i < |queue| ==> queue[i].session == number
  }

  predicate PastFollows(past: seq<Record>) {
    forall i :: 0 <= i < |past| ==> Follows(past[i].log, past[i].command, past[i].number)
  }

  predicate Inv(s: State) {
    && (s.audioReady <==> s.running && (s.branch.Pump? || s.branch.StopPump?))
    && (s.running ==> Standing(s) && BranchStands(s))
    && (!s.running ==> !s.terminalOpen)
    && QueueStands(s.queue, s.number)
    && PastFollows(s.past)
  }

  lemma BootInv()
    ensures Inv(Boot())
  {
  }

  // ---- logs ----

  lemma OpeningStarts(command: Option<Command>, n: nat)
    requires n <= if command.Some? then 7 else 4
    ensures n <= |Opening(command)| && Opening(command)[..n] == Preamble()[..n]
  {
  }

  lemma PreambleFollows(log: seq<Event>, command: Option<Command>, number: nat)
    requires |log| <= (if command.Some? then 7 else 4) && log == Preamble()[..|log|]
    ensures Follows(log, command, number)
  {
    OpeningStarts(command, |log|);
  }

  lemma Extend(log: seq<Event>, e: Event)
    requires |log| < 7 && log == Preamble()[..|log|] && e == Preamble()[|log|]
    ensures log + [e] == Preamble()[..|log| + 1]
  {
  }

  /** How many channels each part of the preamble asked for. */
  lemma RequestedInPreamble(n: nat)
    requires n <= 7
    ensures Requested(Preamble()[..n]) == if n == 0 then 0 else if n <= 4 then 1 else 2
  {
    if n > 0 {
      RequestedInPreamble(n - 1);
      assert Preamble()[..n][..n - 1] == Preamble()[..n - 1];
      assert Preamble()[..n][n - 1] == Preamble()[n - 1];
    }
  }

  lemma RequestedAppend(log: seq<Event>, e: Event)
    ensures Requested(log + [e]) == Requested(log) + (if e.Request? then 1 else 0)
  {
    assert (log + [e])[..|log|] == log;
  }

  lemma AtLeast(log: seq<Event>, n: nat)
    requires n <= |log| && n <= 7 && (if |log| <= 7 then log == Preamble()[..|log|] else log[..7] == Preamble())
    ensures log[..n] == Preamble()[..n]
  {
    if |log| > 7 {
      assert log[..n] == log[..7][..n];
    }
  }

  lemma ConfirmedInPreamble(log: seq<Event>)
    requires if |log| <= 7 then log == Preamble()[..|log|] else log[..7] == Preamble()
    ensures |log| >= 2 ==> Opened(0) in log
    ensures |log| >= 6 ==> Opened(1) in log
  {
    if |log| >= 2 {
      AtLeast(log, 2);
      assert log[1] == log[..2][1];
    }
    if |log| >= 6 {
      AtLeast(log, 6);
      assert log[5] == log[..6][5];
    }
  }

  lemma RequestedSoFar(log: seq<Event>)
    requires |log| <= 7 && log == Preamble()[..|log|]
    ensures Requested(log) == if |log| == 0 then 0 else if |log| <= 4 then 1 else 2
  {
    RequestedInPreamble(|log|);
  }

  /** The only channel the server can have left to confirm. */
  lemma PendingChannel(s: State, channel: nat)
    requires Standing(s) && Pending(s.log, channel)
    ensures (|s.log| == 1 && channel == 0) || (|s.log| == 5 && channel == 1)
  {
    ConfirmedInPreamble(s.log);
    if |s.log| <= 7 {
      RequestedSoFar(s.log);
    }
  }

  lemma StandsFollows(s: State)
    requires Standing(s) && BranchStands(s)
    ensures Follows(s.log, s.command, s.number)
  {
    if s.branch.AwaitPty? || s.branch.AwaitExec? {
      PreambleFollows(s.log, s.command, s.number);
    } else if s.branch.SendScript? {
      assert s.log <= Opening(s.command);
    }
  }

  // ---- steps ----

  lemma EndKeeps(s: State)
    requires QueueStands(s.queue, s.number) && PastFollows(s.past) && Follows(s.log, s.command, s.number)
    ensures Inv(End(s))
  {
  }

  lemma StartKeeps(s: State, command: Option<Command>)
    requires Inv(s) && !s.running
    ensures Inv(StartSession(s, command))
  {
    PreambleFollows([], command, s.number + 1);
  }

  lemma AskTerminalKeeps(s: State)
    requires Inv(s) && Enabled(s, AskTerminal)
    ensures Inv(Next(s, AskTerminal))
  {
    Extend(s.log, Request(Terminal));
    if s.branch == Drain {
      PreambleFollows(s.log + [Request(Terminal)], s.command, s.number);
    }
  }

  lemma FirstOpenedKeeps(s: State, execOk: bool)
    requires Inv(s) && s.running && |s.log| == 1 && s.ticker.Waiting?
    ensures Inv(OnOpened(s, 0, execOk))
  {
    Extend(s.log, Opened(0));
    if s.branch == Drain {
      PreambleFollows(s.log + [Opened(0)], s.command, s.number);
    }
  }

  lemma SecondOpenedKeeps(s: State, execOk: bool)
    requires Inv(s) && s.running && |s.log| == 5 && s.ticker.Waiting?
    ensures Inv(OnOpened(s, 1, execOk))
  {
    Extend(s.log, Opened(1));
    Extend(s.log + [Opened(1)], HelperExec(1));
    var full := s.log + [Opened(1)] + [HelperExec(1)];
    RequestedSoFar(full);
    assert full[..7] == full && Preamble()[..7] == Preamble();
  }

  lemma FinishPtyKeeps(s: State, ptyOk: bool, startOk: bool)
    requires Inv(s) && Enabled(s, FinishPty(ptyOk, startOk))
    ensures Inv(OnFinishPty(s, ptyOk, startOk))
  {
    var asked := s.log + [PtyRequest(0)];
    Extend(s.log, PtyRequest(0));
    Extend(asked, StartRequest(0));
    PreambleFollows(s.log, s.command, s.number);
    PreambleFollows(asked, s.command, s.number);
    PreambleFollows(asked + [StartRequest(0)], s.command, s.number);
    if !ptyOk {
      EndKeeps(s);
    } else if !startOk {
      EndKeeps(s.(log := asked));
    }
  }

  lemma WakeBranchKeeps(s: State, openOk: bool)
    requires Inv(s) && Enabled(s, WakeBranch(openOk))
    ensures Inv(Next(s, WakeBranch(openOk)))
  {
    Extend(s.log, Request(Audio));
    RequestedInPreamble(4);
    PreambleFollows(s.log, s.command, s.number);
  }

  lemma ScriptLeft(log: seq<Event>, command: Option<Command>, sent: nat)
    requires Sending(log, command, sent)
    ensures var total := ScriptLength(command.value);
            var next := log + [ScriptBytes(1, sent, ChunkEnd(sent, total))];
            if ChunkEnd(sent, total) < total then Sending(next, command, ChunkEnd(sent, total))
            else next == Opening(command)
  {
    var total := ScriptLength(command.value);
    var end := ChunkEnd(sent, total);
    var chunk := ScriptBytes(1, sent, end);
    assert Script(sent, total) == [chunk] + Script(end, total);
    assert log + ([chunk] + Script(end, total)) == log + [chunk] + Script(end, total);
  }

  lemma NothingPumped(log: seq<Event>, command: Option<Command>, number: nat)
    requires command.Some? && log == Opening(command)
    ensures Pumped(log, command, number)
  {
  }

  /** From the exec's success on, either the script or the pump. */
  lemma DeliverKeeps(s: State, sent: nat)
    requires s.running && s.command.Some? && Standing(s) && |s.log| >= 7 && s.ticker.Waiting? && s.execSent.None?
    requires if sent < ScriptLength(s.command.value) then Sending(s.log, s.command, sent)
             else s.log == Opening(s.command)
    requires !s.audioReady && QueueStands(s.queue, s.number) && PastFollows(s.past)
    ensures Inv(Deliver(s, 1, sent))
  {
    if sent >= ScriptLength(s.command.value) {
      NothingPumped(s.log, s.command, s.number);
    }
  }

  lemma HearExecKeeps(s: State)
    requires Inv(s) && Enabled(s, HearExec)
    ensures Inv(Next(s, HearExec))
  {
    var t := s.(execSent := None);
    if s.execSent.value {
      assert s.log == Preamble();
      if ScriptLength(s.command.value) == 0 {
        assert Preamble() + [] == Preamble();
      }
      DeliverKeeps(t, 0);
    } else {
      PreambleFollows(s.log, s.command, s.number);
    }
  }

  lemma LongLog(log: seq<Event>, e: Event)
    requires |log| >= 7 && log[..7] == Preamble() && Requested(log) == 2 && !e.Request?
    ensures (log + [e])[..7] == Preamble() && Requested(log + [e]) == 2
  {
    RequestedAppend(log, e);
    assert (log + [e])[..7] == log[..7];
  }

  lemma SendChunkKeeps(s: State, ok: bool)
    requires Inv(s) && Enabled(s, SendChunk(ok))
    ensures Inv(Next(s, SendChunk(ok)))
  {
    StandsFollows(s);
    if ok {
      var end := ChunkEnd(s.branch.sent, ScriptLength(s.command.value));
      var e := ScriptBytes(1, s.branch.sent, end);
      LongLog(s.log, e);
      ScriptLeft(s.log, s.command, s.branch.sent);
      assert s.ticker.Waiting? && s.execSent.None? && !s.audioReady;
      assert Standing(s.(log := s.log + [e]));
      DeliverKeeps(s.(log := s.log + [e]), end);
    }
  }

  lemma OneMoreFrame(log: seq<Event>, command: Option<Command>, number: nat, frame: AudioFrame)
    requires Pumped(log, command, number) && frame.session == number
    ensures Pumped(log + [FrameWritten(1, frame)], command, number)
  {
    var n := |Opening(command)|;
    assert (log + [FrameWritten(1, frame)])[n..] == log[n..] + [FrameWritten(1, frame)];
  }

  lemma PumpFrameKeeps(s: State, ok: bool)
    requires Inv(s) && Enabled(s, PumpFrame(ok))
    ensures Inv(Next(s, PumpFrame(ok)))
  {
    assert s.queue[0].session == s.number;
    LongLog(s.log, FrameWritten(1, s.queue[0]));
    OneMoreFrame(s.log, s.command, s.number, s.queue[0]);
  }

  lemma OtherStepsKeep(s: State, step: Step)
    requires Inv(s) && Enabled(s, step)
    requires step.ReportFailure? || step.PumpCloses? || step.PumpReturns? || step.DrainFrame? || step.QueueFrame?
    ensures Inv(Next(s, step))
  {
  }

  lemma StopKeeps(s: State, step: Step)
    requires Inv(s) && Enabled(s, step)
    requires step.SessionExit? || step.TickerStops? || step.TerminalEof? || step.RunnerStops?
    ensures Inv(Next(s, step))
  {
    StandsFollows(s);
    EndKeeps(s);
  }

  lemma OpenedKeeps(s: State, channel: nat, execOk: bool)
    requires Inv(s) && Enabled(s, SessionOpened(channel, execOk))
    ensures Inv(OnOpened(s, channel, execOk))
  {
    PendingChannel(s, channel);
    if |s.log| == 1 {
      FirstOpenedKeeps(s, execOk);
    } else {
      SecondOpenedKeeps(s, execOk);
    }
  }

  lemma StepKeeps(s: State, step: Step)
    requires Inv(s) && Enabled(s, step)
    ensures Inv(Next(s, step))
  {
    match step
    case Start(command) => StartKeeps(s, command);
    case AskTerminal => AskTerminalKeeps(s);
    case SessionOpened(channel, execOk) => OpenedKeeps(s, channel, execOk);
    case FinishPty(ptyOk, startOk) => FinishPtyKeeps(s, ptyOk, startOk);
    case WakeBranch(openOk) => WakeBranchKeeps(s, openOk);
    case HearExec => HearExecKeeps(s);
    case SendChunk(ok) => SendChunkKeeps(s, ok);
    case PumpFrame(ok) => PumpFrameKeeps(s, ok);
    case ReportFailure => OtherStepsKeep(s, step);
    case PumpCloses => OtherStepsKeep(s, step);
    case PumpReturns => OtherStepsKeep(s, step);
    case DrainFrame => OtherStepsKeep(s, step);
    case QueueFrame(_) => OtherStepsKeep(s, step);
    case SessionExit => StopKeeps(s, step);
    case TickerStops => StopKeeps(s, step);
    case TerminalEof => StopKeeps(s, step);
    case RunnerStops => StopKeeps(s, step);
  }

  lemma {:induction false} RunKeeps(states: seq<State>, steps: seq<Step>, n: nat)
    requires IsRun(states, steps) && Inv(states[0]) && n <= |steps|
    ensures Inv(states[n])
  {
    if n > 0 {
      RunKeeps(states, steps, n - 1);
      StepKeeps(states[n - 1], steps[n - 1]);
    }
  }

  /** Reachable from boot. */
  predicate IsReached(states: seq<State>, steps: seq<Step>) {
    IsRun(states, steps) && states[0] == Boot()
  }

  lemma Reached(states: seq<State>, steps: seq<Step>)
    requires IsReached(states, steps)
    ensures Inv(states[|steps|])
  {
    BootInv();
    RunKeeps(states, steps, |steps|);
  }

  // ---- what holds in every run ----

  /** However sessions come and go, each says to its server what it may, in order. */
  lemma EverySessionFollows(states: seq<State>, steps: seq<Step>)
    requires IsReached(states, steps)
    ensures var s := states[|steps|];
            && PastFollows(s.past)
            && (s.running ==> Follows(s.log, s.command, s.number))
  {
    Reached(states, steps);
    var s := states[|steps|];
    if s.running {
      StandsFollows(s);
    }
  }

  /** Event `i` of a session's log: from the opening, or a frame after all of it. */
  lemma LogAt(log: seq<Event>, command: Option<Command>, number: nat, i: nat)
    requires Follows(log, command, number) && i < |log|
    ensures i < |Opening(command)| ==> log[i] == Opening(command)[i] && log[..i] == Opening(command)[..i]
    ensures i >= |Opening(command)| ==>
              && command.Some? && log[..|Opening(command)|] == Opening(command)
              && log[i].FrameWritten? && log[i].channel == 1 && log[i].frame.session == number
  {
    if i >= |Opening(command)| {
      assert log[i] == log[|Opening(command)|..][i - |Opening(command)|];
    }
  }

  lemma {:induction false} ScriptIsBytes(from: nat, total: nat, i: nat)
    requires i < |Script(from, total)|
    ensures Script(from, total)[i].ScriptBytes?
    decreases total - from
  {
    if i > 0 {
      ScriptIsBytes(ChunkEnd(from, total), total, i - 1);
    }
  }

  lemma OpeningAt(command: Option<Command>, i: nat)
    requires i < |Opening(command)|
    ensures if i < 7 then Opening(command)[i] == Preamble()[i] && Opening(command)[..i] == Preamble()[..i]
            else Opening(command)[i].ScriptBytes?
    ensures command.None? ==> i < 4
  {
    if i >= 7 {
      ScriptIsBytes(0, ScriptLength(command.value), i - 7);
    }
  }

  lemma OnlyExecOfPreamble(i: nat)
    requires i < 7 && Preamble()[i].HelperExec?
    ensures i == 6
  {
  }

  /** The helper's exec goes to the second channel of its session, once, after that session's
      pty and its shell or command, and only in sessions with a helper. */
  lemma ExecIsOnTheSecondChannel(log: seq<Event>, command: Option<Command>, number: nat, i: nat)
    requires Follows(log, command, number) && i < |log| && log[i].HelperExec?
    ensures command.Some? && i == 6 && log[i].channel == 1
    ensures log[..6] == [Request(Terminal), Opened(0), PtyRequest(0), StartRequest(0), Request(Audio), Opened(1)]
  {
    LogAt(log, command, number, i);
    OpeningAt(command, i);
    OnlyExecOfPreamble(i);
  }

  /** Audio is written only to that channel, only with frames of this session, and only after
      the exec succeeded and every byte of the script was sent. */
  lemma AudioFollowsTheScript(log: seq<Event>, command: Option<Command>, number: nat, i: nat)
    requires Follows(log, command, number) && i < |log| && log[i].FrameWritten?
    ensures log[i].channel == 1 && log[i].frame.session == number
    ensures command.Some? && i >= |Opening(command)| && log[..|Opening(command)|] == Opening(command)
    ensures Opening(command) == Preamble() + Script(0, ScriptLength(command.value))
  {
    LogAt(log, command, number, i);
    if i < |Opening(command)| {
      OpeningAt(command, i);
    }
  }

  /** The script's chunks run from its first byte to its last without a gap. */
  lemma {:induction false} ScriptIsWhole(from: nat, total: nat, i: nat)
    requires from < total
    ensures var script := Script(from, total);
            && script != []
            && script[0].ScriptBytes? && script[0].from == from
            && script[|script| - 1].ScriptBytes? && script[|script| - 1].to == total
            && (i + 1 < |script| ==> script[i].ScriptBytes? && script[i + 1].ScriptBytes? &&
                                     script[i].to == script[i + 1].from)
    decreases total - from
  {
    var end := ChunkEnd(from, total);
    if end < total {
      ScriptIsWhole(end, total, if i > 0 then i - 1 else 0);
    } else {
      assert Script(end, total) == [];
    }
  }

  /** Audio counts as available exactly while a pump is running, and then on a channel whose
      helper was started and has the whole script. */
  lemma ReadyMeansPumping(states: seq<State>, steps: seq<Step>)
    requires IsReached(states, steps)
    ensures var s := states[|steps|];
            && (s.audioReady <==> s.running && (s.branch.Pump? || s.branch.StopPump?))
            && (s.audioReady ==> Pumped(s.log, s.command, s.number))
  {
    Reached(states, steps);
  }

  /** An exit event ends the session exactly when the terminal is not up: its shell or
      command was not yet requested. */
  lemma ExitSparesAnOpenTerminal(states: seq<State>, steps: seq<Step>)
    requires IsReached(states, steps) && Enabled(states[|steps|], SessionExit)
    ensures var s := states[|steps|];
            if StartRequest(0) in s.log then Next(s, SessionExit) == s else !Next(s, SessionExit).running
  {
    Reached(states, steps);
    var s := states[|steps|];
    if |s.log| >= 4 {
      AtLeast(s.log, 4);
      assert s.log[3] == s.log[..4][3];
    }
  }

  // ---- why the statics are reset ----

  /** Starting a session without the resets. */
  function StartUnreset(s: State, command: Option<Command>): State {
    StartSession(s, command).(ptyReady := s.ptyReady, execSent := s.execSent, queue := s.queue)
  }

  /** A session with the helper disabled never consumes its ready signal. */
  lemma DisabledSessionLeavesTheSignal(s: State)
    requires Inv(s) && !s.running
    ensures var a := StartSession(s, None);
            && var b := Next(a, AskTerminal);
            && Enabled(b, SessionOpened(0, false))
            && var c := Next(b, SessionOpened(0, false));
            && Enabled(c, FinishPty(true, true))
            && var d := Next(c, FinishPty(true, true));
            && Enabled(d, TerminalEof) && Next(d, TerminalEof).ptyReady && !Next(d, TerminalEof).running
  {
    RequestedAppend([], Request(Terminal));
    assert [] + [Request(Terminal)] == [Request(Terminal)];
  }

  /** Unreset, the next session's branch takes that signal for its own and asks for its channel
      before the terminal's is open. */
  lemma StaleSignalWakesTheBranch(s: State)
    requires !s.running && s.ptyReady
    ensures var a := StartUnreset(s, Some(Configured));
            && Enabled(a, WakeBranch(true))
            && Enabled(Next(a, WakeBranch(true)), AskTerminal)
            && ChannelsSwapped(Next(Next(a, WakeBranch(true)), AskTerminal))
  {
    assert [] + [Request(Audio)] + [Request(Terminal)] == [Request(Audio), Request(Terminal)];
  }

  predicate ChannelsSwapped(s: State) {
    && s.running && s.ticker.Waiting? && !s.ptyOpened && s.command == Some(Configured)
    && s.log == [Request(Audio), Request(Terminal)]
  }

  lemma BothRequested(log: seq<Event>)
    requires log == [Request(Audio), Request(Terminal)]
    ensures Requested(log) == 2
  {
    RequestedAppend([], Request(Audio));
    RequestedAppend([Request(Audio)], Request(Terminal));
    assert [] + [Request(Audio)] == [Request(Audio)] && log == [Request(Audio)] + [Request(Terminal)];
  }

  /** Then the audio channel gets the pty and the shell, and the helper's exec goes to the
      terminal. */
  lemma SwappedChannelsMisroute(s: State)
    requires ChannelsSwapped(s)
    ensures Enabled(s, SessionOpened(0, true))
    ensures var c := Next(s, SessionOpened(0, true));
            && Enabled(c, FinishPty(true, true))
            && var d := Next(c, FinishPty(true, true));
            && Enabled(d, SessionOpened(1, true))
            && Next(d, SessionOpened(1, true)).log ==
               s.log + [Opened(0)] + [PtyRequest(0)] + [StartRequest(0)] + [Opened(1)] + [HelperExec(1)]
  {
    BothRequested(s.log);
    RequestedAppend(s.log, Opened(0));
    RequestedAppend(s.log + [Opened(0)], PtyRequest(0));
    RequestedAppend(s.log + [Opened(0)] + [PtyRequest(0)], StartRequest(0));
  }
}
