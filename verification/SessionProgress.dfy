/** What a session achieves: when nothing fails its audio comes up, after a known number of
    steps, and what is queued then reaches the server in order. */
module SessionProgress {
  import opened Sequences
  import opened Session

  // ---- the audio comes up ----

  /** Nothing has failed so far in a session with a helper. */
  predicate Healthy(s: State) {
    && s.running && s.command.Some?
    && s.branch != Drain && !s.branch.StopPump?
    && !s.ticker.ReportingFailure? && s.execSent != Some(false)
  }

  /** The step fails nothing and ends nothing. */
  predicate Favourable(s: State, step: Step) {
    match step
    case SessionOpened(_, execOk) => s.ptyOpened ==> execOk
    case FinishPty(ptyOk, startOk) => ptyOk && startOk
    case SessionExit => s.terminalOpen
    case TickerStops => false
    case TerminalEof => false
    case RunnerStops => false
    case WakeBranch(openOk) => openOk
    case SendChunk(ok) => ok
    case PumpFrame(ok) => ok
    case PumpCloses => false
    case _ => true
  }

  function ChunksLeft(command: Option<Command>, sent: nat): nat {
    if command.None? then 0 else |Script(sent, ScriptLength(command.value))|
  }

  /** The steps between here and the pump: asking for the terminal, its opening, its shell,
      asking for the audio channel, its opening, the exec's result, and the script's chunks. */
  function Left(s: State): int {
    match s.branch
    case AwaitPty => ChunksLeft(s.command, 0) + (if |s.log| <= 2 then 6 - |s.log| else 3)
    case AwaitExec(_) => ChunksLeft(s.command, 0) + (if |s.log| <= 5 then 2 else 1)
    case SendScript(_, sent) => ChunksLeft(s.command, sent)
    case _ => 0
  }

  /** An exit event while the terminal is up is the one step that changes nothing. */
  function Moves(steps: seq<Step>): (n: nat)
    ensures n <= |steps|
  {
    if steps == [] then 0
    else Moves(steps[..|steps| - 1]) + (if steps[|steps| - 1].SessionExit? then 0 else 1)
  }

  /** The script takes as many chunks as 1024 bytes go into it, rounded up. */
  lemma {:induction false} ScriptChunks(from: nat, total: nat)
    requires from <= total
    ensures |Script(from, total)| == (total - from + 1023) / 1024
    decreases total - from
  {
    if from < total {
      ScriptChunks(ChunkEnd(from, total), total);
    }
  }

  lemma OpeningStep(s: State, step: Step)
    requires Inv(s) && Healthy(s) && s.branch == AwaitPty && Enabled(s, step) && Favourable(s, step)
    requires !step.WakeBranch?
    ensures Healthy(Next(s, step)) && Next(s, step).branch == AwaitPty && Next(s, step).command == s.command
    ensures Left(Next(s, step)) + (if step.SessionExit? then 0 else 1) == Left(s)
  {
    if step.SessionOpened? {
      PendingChannel(s, step.channel);
    }
  }

  lemma AudioOpeningStep(s: State, step: Step)
    requires Inv(s) && Healthy(s) && s.branch.AwaitExec? && Enabled(s, step) && Favourable(s, step)
    requires !step.HearExec?
    ensures Healthy(Next(s, step)) && Next(s, step).branch == s.branch && Next(s, step).command == s.command
    ensures Left(Next(s, step)) + (if step.SessionExit? then 0 else 1) == Left(s)
  {
    if step.SessionOpened? {
      PendingChannel(s, step.channel);
    }
  }

  lemma ScriptStep(s: State, step: Step)
    requires Inv(s) && Healthy(s) && s.branch.SendScript? && Enabled(s, step) && Favourable(s, step)
    ensures Healthy(Next(s, step)) && Left(Next(s, step)) + (if step.SessionExit? then 0 else 1) == Left(s)
    ensures Next(s, step).audioReady <==> Next(s, step).branch.Pump?
    ensures Next(s, step).branch.Pump? ==> Next(s, step).log == Opening(s.command)
  {
    if step.SessionOpened? {
      PendingChannel(s, step.channel);
    } else if step.SendChunk? {
      ScriptLeft(s.log, s.command, s.branch.sent);
    }
  }

  lemma ExecStep(s: State)
    requires Inv(s) && Healthy(s) && Enabled(s, HearExec)
    ensures Healthy(Next(s, HearExec)) && Left(Next(s, HearExec)) + 1 == Left(s)
    ensures Next(s, HearExec).audioReady <==> Next(s, HearExec).branch.Pump?
    ensures Next(s, HearExec).branch.Pump? ==> Next(s, HearExec).log == Opening(s.command)
  {
    assert s.log == Preamble();
    if ScriptLength(s.command.value) == 0 {
      assert Preamble() + [] == Preamble();
    }
  }

  /** Every favourable step but an idle exit brings a healthy session one step nearer. */
  lemma HealthyStep(s: State, step: Step)
    requires Inv(s) && Healthy(s) && !s.audioReady && Enabled(s, step) && Favourable(s, step)
    ensures Healthy(Next(s, step)) && Left(Next(s, step)) + (if step.SessionExit? then 0 else 1) == Left(s)
    ensures Next(s, step).audioReady ==> Next(s, step).log == Opening(s.command)
    ensures Next(s, step).command == s.command
  {
    StepKeeps(s, step);
    if s.branch.SendScript? {
      ScriptStep(s, step);
    } else if step.HearExec? {
      ExecStep(s);
    } else if step.WakeBranch? {
      assert |s.log| == 4;
    } else if s.branch == AwaitPty {
      OpeningStep(s, step);
    } else {
      AudioOpeningStep(s, step);
    }
  }

  lemma ReadyAtZero(s: State)
    requires Inv(s) && Healthy(s)
    ensures Left(s) >= 0 && (Left(s) == 0 <==> s.audioReady)
  {
  }

  /** There is always such a step to take. */
  lemma StepRemains(s: State) returns (step: Step)
    requires Inv(s) && Healthy(s) && !s.audioReady
    ensures Enabled(s, step) && Favourable(s, step) && !step.SessionExit?
  {
    var n := |s.log|;
    if n <= 7 {
      RequestedSoFar(s.log);
    }
    step := match s.branch
            case AwaitPty =>
              if n == 0 then AskTerminal
              else if n == 1 then SessionOpened(0, true)
              else if n == 2 then FinishPty(true, true)
              else WakeBranch(true)
            case AwaitExec(_) => if n == 5 then SessionOpened(1, true) else HearExec
            case _ => SendChunk(true);
    if n == 1 {
      NotOpenedYet(s.log, 0);
    } else if n == 5 {
      NotOpenedYet(s.log, 1);
    }
  }

  lemma NotOpenedYet(log: seq<Event>, channel: nat)
    requires |log| == (if channel == 0 then 1 else 5) && channel <= 1 && log == Preamble()[..|log|]
    ensures Opened(channel) !in log
  {
    forall i | 0 <= i < |log| ensures log[i] != Opened(channel) {
      assert log[i] == Preamble()[i];
    }
  }

  lemma MovesSnoc(steps: seq<Step>, i: nat, n: nat)
    requires i <= n < |steps|
    ensures Moves(steps[i..n + 1]) == Moves(steps[i..n]) + (if steps[n].SessionExit? then 0 else 1)
  {
    assert steps[i..n + 1][..n - i] == steps[i..n];
  }

  /** From states `i` to `n` of the run only favourable steps are taken and no audio is up. */
  predicate Uphill(states: seq<State>, steps: seq<Step>, i: nat, n: nat) {
    && IsReached(states, steps) && i <= n <= |steps|
    && forall j :: i <= j < n ==> Favourable(states[j], steps[j]) && !states[j].audioReady
  }

  lemma LastStep(states: seq<State>, steps: seq<Step>, i: nat, n: nat)
    requires Uphill(states, steps, i, n) && i < n
    ensures Uphill(states, steps, i, n - 1) && Inv(states[n - 1]) && !states[n - 1].audioReady
    ensures Enabled(states[n - 1], steps[n - 1]) && Favourable(states[n - 1], steps[n - 1])
    ensures states[n] == Next(states[n - 1], steps[n - 1])
  {
    BootInv();
    RunKeeps(states, steps, n - 1);
  }

  lemma {:induction false} Climb(states: seq<State>, steps: seq<Step>, i: nat, n: nat)
    requires Uphill(states, steps, i, n) && Healthy(states[i])
    ensures Healthy(states[n]) && states[n].command == states[i].command
    ensures Left(states[n]) + Moves(steps[i..n]) == Left(states[i])
    ensures i < n && states[n].audioReady ==> states[n].log == Opening(states[i].command)
  {
    if i < n {
      LastStep(states, steps, i, n);
      Climb(states, steps, i, n - 1);
      ClimbOne(states[n - 1], steps[n - 1], Moves(steps[i..n - 1]), Left(states[i]));
      MovesSnoc(steps, i, n - 1);
    }
  }

  lemma ClimbOne(s: State, step: Step, moved: nat, left: int)
    requires Inv(s) && Healthy(s) && !s.audioReady && Enabled(s, step) && Favourable(s, step)
    requires Left(s) + moved == left
    ensures var s' := Next(s, step);
            && Healthy(s') && s'.command == s.command
            && Left(s') + (moved + (if step.SessionExit? then 0 else 1)) == left
            && (s'.audioReady ==> s'.log == Opening(s.command))
  {
    HealthyStep(s, step);
  }

  /** A favourable step other than an idle exit is possible. */
  ghost predicate CanMove(s: State) {
    exists step :: Enabled(s, step) && Favourable(s, step) && !step.SessionExit?
  }

  lemma HealthyMoves(s: State)
    requires Inv(s) && Healthy(s)
    ensures Left(s) >= 0 && (Left(s) == 0 <==> s.audioReady) && (s.audioReady || CanMove(s))
  {
    ReadyAtZero(s);
    if !s.audioReady {
      var step := StepRemains(s);
    }
  }

  /** While nothing fails, a session with a helper comes nearer to its audio with every step
      but an idle exit, such a step can always be taken, and after exactly `Left` of them
      audio is up, with the preamble and every chunk of the script sent and nothing else. */
  lemma AudioComesUp(states: seq<State>, steps: seq<Step>, i: nat, n: nat)
    requires Uphill(states, steps, i, n) && Healthy(states[i])
    ensures Moves(steps[i..n]) <= Left(states[i])
    ensures states[n].audioReady <==> Moves(steps[i..n]) == Left(states[i])
    ensures i < n && states[n].audioReady ==> states[n].log == Opening(states[i].command)
    ensures states[n].audioReady || CanMove(states[n])
  {
    Climb(states, steps, i, n);
    BootInv();
    RunKeeps(states, steps, n);
    HealthyMoves(states[n]);
  }

  /** A session that has just begun needs six steps and the chunks of its script, 1024 bytes
      each; one whose exec was accepted the last of them and the chunks. */
  lemma StepsToAudio(s: State)
    requires Inv(s) && s.running && s.command.Some?
    ensures var chunks := (ScriptLength(s.command.value) + 1023) / 1024;
            && (s.log == [] && s.branch == AwaitPty ==> Healthy(s) && Left(s) == 6 + chunks)
            && (s.execSent == Some(true) ==> Healthy(s) && Left(s) == 1 + chunks)
  {
    ScriptChunks(0, ScriptLength(s.command.value));
  }

  /** Every session with a helper begins so. */
  lemma SessionStartsHealthy(s: State, command: Command)
    requires Inv(s) && !s.running
    ensures var t := Next(s, Start(Some(command)));
            Healthy(t) && t.log == [] && Left(t) == 6 + (ScriptLength(command) + 1023) / 1024
  {
    ScriptChunks(0, ScriptLength(command));
  }

  // ---- what is queued is written ----

  function DataOf(frames: seq<AudioFrame>): (r: seq<seq<nat>>)
    ensures |r| == |frames|
  {
    seq(|frames|, i requires 0 <= i < |frames| => frames[i].data)
  }

  /** The audio a session has written to the server. */
  function WrittenData(log: seq<Event>): seq<seq<nat>> {
    if log == [] then []
    else
      var last := log[|log| - 1];
      WrittenData(log[..|log| - 1]) + (if last.FrameWritten? then [last.frame.data] else [])
  }

  /** The audio queued since the last session began. */
  function QueuedData(steps: seq<Step>): seq<seq<nat>> {
    if steps == [] then []
    else
      var before := QueuedData(steps[..|steps| - 1]);
      match steps[|steps| - 1]
      case Start(_) => []
      case QueueFrame(data) => before + [data]
      case _ => before
  }

  lemma WrittenSnoc(log: seq<Event>, e: Event)
    ensures WrittenData(log + [e]) == WrittenData(log) + (if e.FrameWritten? then [e.frame.data] else [])
  {
    assert (log + [e])[..|log|] == log;
  }

  /** While pumping, what was written and what waits is all that was queued, in order; before
      the pump that is nothing, and after it what was written comes first. */
  predicate Fifo(s: State, queued: seq<seq<nat>>) {
    match s.branch
    case Pump(_) => WrittenData(s.log) + DataOf(s.queue) == queued
    case StopPump(_) => WrittenData(s.log) <= queued
    case Drain => WrittenData(s.log) <= queued
    case _ => WrittenData(s.log) == [] && s.queue == [] && queued == []
  }

  function QueuedNext(queued: seq<seq<nat>>, step: Step): seq<seq<nat>> {
    match step
    case Start(_) => []
    case QueueFrame(data) => queued + [data]
    case _ => queued
  }

  lemma QueueKeepsFifo(s: State, queued: seq<seq<nat>>, data: seq<nat>)
    requires Fifo(s, queued) && (s.branch.Pump? || s.branch.StopPump?)
    ensures Fifo(s.(queue := s.queue + [AudioFrame(s.number, data)]), queued + [data])
  {
    var more := s.queue + [AudioFrame(s.number, data)];
    assert DataOf(more) == DataOf(s.queue) + [data];
    assert WrittenData(s.log) + DataOf(more) == WrittenData(s.log) + DataOf(s.queue) + [data];
  }

  lemma PumpKeepsFifo(s: State, queued: seq<seq<nat>>, ok: bool)
    requires Fifo(s, queued) && s.branch.Pump? && s.queue != []
    ensures Fifo(OnPumpFrame(s, ok), queued)
  {
    var head, rest := s.queue[0], s.queue[1..];
    WrittenSnoc(s.log, FrameWritten(s.branch.channel, head));
    assert DataOf(s.queue) == [head.data] + DataOf(rest);
    assert WrittenData(s.log) + ([head.data] + DataOf(rest)) == WrittenData(s.log) + [head.data] + DataOf(rest);
  }

  /** Anything but a frame said while no pump runs. */
  lemma TalkKeepsFifo(s: State, s': State, queued: seq<seq<nat>>, e: Event)
    requires Fifo(s, queued) && !s.branch.Pump? && !e.FrameWritten?
    requires s'.log == s.log + [e] && s'.queue == s.queue
    requires s'.branch == s.branch || (s.branch == AwaitPty && s'.branch.AwaitExec?)
    ensures Fifo(s', queued)
  {
    WrittenSnoc(s.log, e);
  }

  lemma AskKeepsFifo(s: State, queued: seq<seq<nat>>)
    requires Inv(s) && Fifo(s, queued) && Enabled(s, AskTerminal)
    ensures Fifo(Next(s, AskTerminal), queued)
  {
    TalkKeepsFifo(s, Next(s, AskTerminal), queued, Request(Terminal));
  }

  lemma OpenedKeepsFifo(s: State, queued: seq<seq<nat>>, channel: nat, execOk: bool)
    requires Inv(s) && Fifo(s, queued) && Enabled(s, SessionOpened(channel, execOk))
    ensures Fifo(OnOpened(s, channel, execOk), queued)
  {
    PendingChannel(s, channel);
    var t := s.(log := s.log + [Opened(channel)]);
    TalkKeepsFifo(s, t, queued, Opened(channel));
    if OnOpened(s, channel, execOk).log == t.log {
      assert WrittenData(OnOpened(s, channel, execOk).log) == WrittenData(t.log);
    } else {
      TalkKeepsFifo(t, OnOpened(s, channel, execOk), queued, HelperExec(channel));
    }
  }

  lemma PtyKeepsFifo(s: State, queued: seq<seq<nat>>)
    requires Inv(s) && Fifo(s, queued) && Enabled(s, FinishPty(true, true))
    ensures Fifo(OnFinishPty(s, true, true), queued)
  {
    var t := s.(log := s.log + [PtyRequest(s.ticker.channel)]);
    TalkKeepsFifo(s, t, queued, PtyRequest(s.ticker.channel));
    TalkKeepsFifo(t, OnFinishPty(s, true, true), queued, StartRequest(s.ticker.channel));
  }

  lemma WakeKeepsFifo(s: State, queued: seq<seq<nat>>, openOk: bool)
    requires Inv(s) && Fifo(s, queued) && Enabled(s, WakeBranch(openOk))
    ensures Fifo(Next(s, WakeBranch(openOk)), queued)
  {
    if openOk {
      TalkKeepsFifo(s, Next(s, WakeBranch(true)), queued, Request(Audio));
    }
  }

  lemma NothingQueued(s: State)
    requires WrittenData(s.log) == [] && s.queue == [] && s.branch.Pump?
    ensures Fifo(s, [])
  {
    assert WrittenData(s.log) + DataOf(s.queue) == [];
  }

  lemma DeliveryKeepsFifo(s: State, queued: seq<seq<nat>>, step: Step)
    requires Inv(s) && Fifo(s, queued) && Enabled(s, step) && (step.HearExec? || step.SendChunk?)
    ensures Fifo(Next(s, step), queued)
  {
    if step.SendChunk? && step.ok {
      WrittenSnoc(s.log, ScriptBytes(s.branch.channel, s.branch.sent,
                                     ChunkEnd(s.branch.sent, ScriptLength(s.command.value))));
    }
    if Next(s, step).branch.Pump? {
      NothingQueued(Next(s, step));
    }
  }

  lemma RestKeepsFifo(s: State, queued: seq<seq<nat>>, step: Step)
    requires Inv(s) && Fifo(s, queued) && Enabled(s, step)
    requires step.ReportFailure? || step.PumpCloses? || step.PumpReturns? || step.DrainFrame?
    ensures Fifo(Next(s, step), queued)
  {
  }

  lemma StepKeepsFifo(s: State, queued: seq<seq<nat>>, step: Step)
    requires Inv(s) && Enabled(s, step) && (s.running ==> Fifo(s, queued))
    ensures Next(s, step).running ==> Fifo(Next(s, step), QueuedNext(queued, step))
  {
    match step
    case Start(_) =>
    case QueueFrame(data) => QueueKeepsFifo(s, queued, data);
    case PumpFrame(ok) => PumpKeepsFifo(s, queued, ok);
    case HearExec => DeliveryKeepsFifo(s, queued, step);
    case SendChunk(_) => DeliveryKeepsFifo(s, queued, step);
    case ReportFailure => RestKeepsFifo(s, queued, step);
    case PumpCloses => RestKeepsFifo(s, queued, step);
    case PumpReturns => RestKeepsFifo(s, queued, step);
    case DrainFrame => RestKeepsFifo(s, queued, step);
    case AskTerminal => AskKeepsFifo(s, queued);
    case SessionOpened(channel, execOk) => OpenedKeepsFifo(s, queued, channel, execOk);
    case FinishPty(ptyOk, startOk) => if ptyOk && startOk { PtyKeepsFifo(s, queued); }
    case WakeBranch(openOk) => WakeKeepsFifo(s, queued, openOk);
    case _ =>
  }

  lemma {:induction false} RunKeepsFifo(states: seq<State>, steps: seq<Step>, n: nat)
    requires IsReached(states, steps) && n <= |steps|
    ensures states[n].running ==> Fifo(states[n], QueuedData(steps[..n]))
  {
    if n > 0 {
      RunKeepsFifo(states, steps, n - 1);
      BootInv();
      RunKeeps(states, steps, n - 1);
      assert steps[..n][..n - 1] == steps[..n - 1];
      StepKeepsFifo(states[n - 1], QueuedData(steps[..n - 1]), steps[n - 1]);
    }
  }

  lemma {:induction false} QueueStaysShort(states: seq<State>, steps: seq<Step>, n: nat)
    requires IsReached(states, steps) && n <= |steps|
    ensures |states[n].queue| <= 3
  {
    if n > 0 {
      QueueStaysShort(states, steps, n - 1);
      ShortAfterStep(states[n - 1], steps[n - 1]);
    }
  }

  lemma ShortAfterStep(s: State, step: Step)
    requires Enabled(s, step) && |s.queue| <= 3
    ensures |Next(s, step).queue| <= 3
  {
    if step.SessionOpened? || step.FinishPty? || step.WakeBranch? || step.AskTerminal? {
      TalkKeepsQueue(s, step);
    } else if step.HearExec? || step.SendChunk? {
      DeliveryKeepsQueue(s, step);
    }
  }

  lemma TalkKeepsQueue(s: State, step: Step)
    requires Enabled(s, step)
    requires step.SessionOpened? || step.FinishPty? || step.WakeBranch? || step.AskTerminal?
    ensures Next(s, step).queue == s.queue
  {
  }

  lemma DeliverKeepsQueue(s: State, channel: nat, sent: nat)
    ensures Deliver(s, channel, sent).queue == s.queue
  {
  }

  lemma DeliveryKeepsQueue(s: State, step: Step)
    requires Enabled(s, step) && (step.HearExec? || step.SendChunk?)
    ensures Next(s, step).queue == s.queue
  {
    if step.HearExec? {
      DeliverKeepsQueue(s.(execSent := None), s.branch.channel, 0);
    } else {
      ChunkKeepsQueue(s, step.ok);
    }
  }

  lemma ChunkKeepsQueue(s: State, ok: bool)
    requires s.branch.SendScript?
    ensures OnSendChunk(s, ok).queue == s.queue
  {
  }

  /** A send that succeeds writes the oldest waiting frame. */
  lemma SuccessWritesHead(s: State)
    requires s.running && s.branch.Pump? && s.queue != []
    ensures Enabled(s, PumpFrame(true)) && Next(s, PumpFrame(true)).queue == s.queue[1..]
    ensures WrittenData(Next(s, PumpFrame(true)).log) == WrittenData(s.log) + [s.queue[0].data]
  {
    WrittenSnoc(s.log, FrameWritten(s.branch.channel, s.queue[0]));
  }

  /** In every run: what a session writes is what was queued in it, in order and each frame
      once, and while its pump runs only what still waits is missing. */
  lemma QueuedAudioIsWritten(states: seq<State>, steps: seq<Step>)
    requires IsReached(states, steps) && states[|steps|].running
    ensures var s := states[|steps|];
            && WrittenData(s.log) <= QueuedData(steps)
            && (s.branch.Pump? ==> WrittenData(s.log) + DataOf(s.queue) == QueuedData(steps))
  {
    RunKeepsFifo(states, steps, |steps|);
    assert steps[..|steps|] == steps;
  }
}
