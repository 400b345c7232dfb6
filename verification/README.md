# A verified model of the PicoCalc SSH client's core

The firmware in this repository is a pocket SSH terminal with push-to-talk dictation. This
project models its five intricate parts in Dafny and proves what they promise over every
input, run or interleaving.

* **The terminal.** `Terminal.dfy` says what every control function, scroll, viewport and
  overlay operation means. `ScreenModel.dfy` is the model updated in place, method by method,
  proved against that meaning. `TerminalLaws.dfy` says of each control function what the cells
  show of it, `TerminalProofs.dfy` what every step keeps, `Layout.dfy` that text output is line
  layout, `Painter.dfy` and `PainterTheorems.dfy` that the
  dirty-row painter shows what drawing everything would, `OverlayBox.dfy` what the overlay's own
  box does to that, pixel by pixel, `PainterExamples.dfy` a run where it fails,
  `TextWrap.dfy` that greedy wrapping of overlay text is lossless and optimal, and
  `WrapMeaning.dfy` what its paragraphs, words and lines are.
* **Push-to-talk.** `AudioRing.dfy` is the drop-oldest ring and its queue semantics,
  `PttProtocol.dfy` the keyboard, capture and upload tasks as steps cut at their awaits,
  `PttProofs.dfy` the invariant, `PttTheorems.dfy` what holds in every interleaving,
  `PttProgress.dfy` that with nobody recording every schedule ends with everything served, and
  `PttEvents.dfy` what a press, a release, the cap and a refusal do to all that follows.
* **The wire.** `PttFrame.dfy` encodes and queues frames, `Utterances.dfy` is the server-side
  helper's streaming decoder with its specification, and `EndToEnd.dfy` puts protocol, framing
  and decoder together.
* **Sessions.** `Session.dfy` follows the SSH sessions, one after the other, and the module
  level signals and flags they share; `SessionProgress.dfy` shows when audio comes up and that what
  is queued is written.
* **The microphone.** `MicConfig.dfy` is the settings store, its repair and the console's
  guard, `SettingsLaws.dfy` what its texts and numbers mean; `I2sProgram.dfy` the assembled PIO program on a small step semantics; `Capture.dfy`
  the drain of the DMA ring, `CaptureRuns.dfy` whole recordings of it; `Meter.dfy` the level meter. `Strings.dfy`, `Sequences.dfy` and
  `Limits.dfy` are shared.

State machines follow one convention: a step is the code between two awaits that can suspend, atomic on
the cooperative executor; signals are booleans or options; whatever the hardware, the network or
the user decides (a send that fails, a channel that closes, a poll that is capped) is an argument
of the step. In the push-to-talk and painter models an undefined or disabled step leaves the state
alone, so every sequence is a run; a run of sessions is a sequence of enabled steps.

## Findings

Where the code does less than its comments suggest, the model follows the code and lemmas say when
it does what is promised and when it does not.

* Setting `ptt_bits` to its reported value is not always accepted, although the comment at
  terminal-model/src/mic_config.rs:319-321 says a repair is. It is refused exactly when the
  stored rate is not the one in effect but is legal at that width (`BitsRepairIsAcceptedIff`,
  with a witness in `BitsRepairCanBeRefused`). Setting `ptt_rate` so is always accepted.
* An overlay's box is taller while a recording is running. When the flag changes between two
  paints of the same overlay, what is on the display is what drawing from scratch gives if and only
  if the second box reaches every tile of the first (`FlagChangeAgreesIff`). With the box of
  `draw_overlay`, pixel by pixel: a paint made while recording always agrees, after any run
  (`RecordingPaintAgrees`); the first one after the recording leaves a strip of the taller box until
  the next full repaint, if and only if the box without the meter is at least two pixels lower than
  the screen (`StripIsLeftIff`). While the flag is constant, and whenever no overlay is up, the
  incremental painter agrees with drawing from scratch.
* Lowering the scrollback cap below the viewport moves what is visible without asking for a
  repaint. `LimitFollowedIff` has the exact condition, `KeepsView`: the painter can follow the change
  if and only if the viewport fits the new cap or a full repaint is already due. In the run of
  `ClampedViewIsStale` the display keeps a row that is no longer the one in view.
* Erasing up to the cursor needs a cell under it, which a pending wrap does not have. That state
  is reachable from ordinary output (`PendingWrapIsReachable`), and it is the only one: the erase
  ends inside its row exactly when it has that cell (`EraseEndsInRowIff`).
* The decoder checks its limit after whole frames only, so a stream cut inside a frame can yield
  more than the limit: `WithinLimitIff` says exactly when, and `StreamThatOverflows` has such a
  stream for every limit.
* The ring's guard against stale writes never fires (`CapturedIsAccepted`): captures write in
  generation order, since a poll writes its chunk before any other task runs.
* Because division truncates toward zero, a constant offset can move the meter: `OffsetCanShow` has
  a window and a whole chunk for which it does. `OffsetIsRemovedIff` says exactly when a window's
  level stays, from its sum, its squares and the offset; no offset moves a level, or the meter of
  any chunk, by more than one (`OffsetMovesByAtMostOne`, `OffsetMovesMeterByAtMostOne`).
* The drain detects a lap by elapsed time alone. The ring positions tell the backlog only up to whole
  laps (`AvailableIsBacklogModLap`), so a lap the clock does not show is skipped in silence; even
  then every sample is a whole frame's and the frames go up (`SampleIsALeftSlot`).
* Without the resets at the start of a session, the ready signal a helperless session leaves
  behind would send the next session's shell to the audio channel and the helper's exec to the
  terminal (`DisabledSessionLeavesTheSignal`, `StaleSignalWakesTheBranch`,
  `SwappedChannelsMisroute`).

## Model

| member | source | states |
|---|---|---|
| AudioRing.WriteKeepsNewest | terminal-model/src/audio_ring.rs:97-152 | an accepted write leaves exactly the newest N of the old contents plus the tagged samples, tags stay ordered, and the report is what fell off |
| AudioRing.ReadKeepsWellFormed | terminal-model/src/audio_ring.rs:160-177 | a read splits the contents into discarded, taken and kept, in that order |
| AudioRing.ShortReadExhausts | terminal-model/src/audio_ring.rs:154-177 | a read that returns fewer samples than asked leaves none of that generation |
| AudioRing.RunInv | terminal-model/src/audio_ring.rs:103-177 | every run of writes and reads keeps the capacity, the tag order and the balance of the books |
| AudioRing.EverySampleAccountedFor | terminal-model/src/audio_ring.rs:1-34 | over any run, per generation: accepted = read + evicted + discarded + buffered, reads come in order, and overflow is reported exactly once if it happened |
| AudioRing.AudioRing.constructor | terminal-model/src/audio_ring.rs:58-67 | a new ring means the empty queue |
| AudioRing.AudioRing.Clear | terminal-model/src/audio_ring.rs:70-74 | empties the queue and the overflow report, keeping the newest generation |
| AudioRing.AudioRing.HeadGeneration | terminal-model/src/audio_ring.rs:89-95 | the oldest sample's generation, if any |
| AudioRing.AudioRing.EvictUntilRoomFor | terminal-model/src/audio_ring.rs:127-134 | drops exactly the excess, oldest first |
| AudioRing.AudioRing.Push | terminal-model/src/audio_ring.rs:136-141 | appends one tagged sample, in the circular arrays |
| AudioRing.AudioRing.FinishWrite | terminal-model/src/audio_ring.rs:143-152 | the first overflow of a generation is the one reported |
| AudioRing.AudioRing.Write | terminal-model/src/audio_ring.rs:103-125 | the in-place loop does what the queue's closed-form write says, result included |
| AudioRing.AudioRing.Read | terminal-model/src/audio_ring.rs:160-177 | the in-place loops do what the queue's read says; the rest of the output buffer is untouched |
| PttProofs.NoWriteIsRefused | terminal-model/src/audio_ring.rs:112-117 | in a reachable state a capture never writes for a generation older than one already written |
| PttProofs.ControlStep | src/mic.rs:385-433 | every step keeps the relations between counters, signals and where the tasks wait |
| PttProofs.DataStep | src/mic.rs:625-863 | every step keeps what is known of the samples: completeness, order and grouping of what is sent |
| PttTheorems.ReachedInv | src/mic.rs:385-863 | the protocol's invariant holds in every interleaving |
| PttTheorems.CapturedIsAccepted | src/mic.rs:714-720 | everything a capture writes for a generation is accepted by the ring |
| PttTheorems.UploadIsInOrder | src/mic.rs:784-843 | what is uploaded for a generation is an in-order subsequence of what was captured for it, never of another |
| PttTheorems.UploadIsCompleteIff | src/mic.rs:784-843 | for a served generation with nothing refused, the upload is complete exactly when nothing of it was evicted, discarded or left |
| PttTheorems.UploadIsComplete | src/mic.rs:784-843 | for every served generation with nothing refused, whenever the next was armed, the upload is complete exactly when nothing of it was evicted |
| PttTheorems.ServedOnceInOrder | src/mic.rs:847-863 | frames come in generation order with nothing after an end, each 1 to 400 samples; with nothing refused, generations 1, 2, ... are ended once each |
| PttTheorems.NothingAfterEnd | src/mic.rs:729-736 | once a generation's end is reported, no sample is ever written for it again |
| PttTheorems.NoLostWakeup | src/mic.rs:365-417 | an upload task parked with work to do always has a signal pending or still owed to it |
| PttTheorems.QuiescentIff | src/mic.rs:821-831 | quiescent states are exactly those in which only a key can act |
| PttTheorems.QuiescentMeansServed | src/mic.rs:847-863 | at rest everything armed has ended and been served |
| PttTheorems.SecondPickUpWritesNothing | src/mic.rs:629-655 | a start signal picked up again for an ended generation only ends it again |
| PttProgress.StepLowersRank | src/mic.rs:625-863 | with nobody recording, every step of the three tasks brings them strictly nearer to rest |
| PttProgress.EverythingGetsServed | src/mic.rs:784-863 | so every schedule of theirs ends after boundedly many steps, and where it cannot go on every generation ever armed has ended and been served |
| PttProgress.RestIsReached | src/mic.rs:784-863 | and from every state without a recording there is a schedule that gets there |
| PttEvents.ReleaseStopsRecording | src/mic.rs:427-433 | after a release nothing is captured any more for any generation armed so far, whatever follows |
| PttEvents.ReleaseServesEverything | src/mic.rs:427-433 | from a release until the next press the tasks take boundedly many steps, and where they can take no more everything armed has ended and been served |
| PttEvents.PressRecordsOne | src/mic.rs:385-417 | idle with the channel up, a press arms exactly one generation, and until its release or cap exactly what the capture task fills on it is captured, the task being there after three steps at most |
| PttEvents.VainPress | src/mic.rs:385-406 | while recording, or without the channel, a press changes nothing that ever follows |
| PttEvents.CapStopsItsRecording | src/mic.rs:724-729 | a capped poll is the last of its generation and leaves a newer recording alone |
| PttEvents.ServiceEndsIff | src/mic.rs:821-829 | a read that finds nothing ends the service exactly when the generation has ended or a newer one is armed |
| PttEvents.RefusalMutesTheRest | src/mic.rs:784-815 | a generation served without the channel, or refused a send, puts nothing more on the wire |
| PttEvents.RefusedIff | src/mic.rs:784-843 | a run counts as having refused something exactly when one of its steps did |
| PttFrame.LengthRoundTrip | terminal-model/src/ptt_frame.rs:44-47 | a 32-bit byte count survives its little-endian encoding |
| PttFrame.LeastByteFirst | terminal-model/src/ptt_frame.rs:44-47 | of the count's four bytes the first counts ones |
| PttFrame.BytesInOrder | terminal-model/src/ptt_frame.rs:44-47 | a count whose bytes are 4, 3, 2, 1 is sent as 1, 2, 3, 4 |
| PttFrame.SampleLeastByteFirst | terminal-model/src/ptt_frame.rs:53-62 | so is a sample, a negative one in two's complement |
| PttFrame.PayloadRoundTrip | terminal-model/src/ptt_frame.rs:53-62 | decoding an encoded payload gives the samples back, for every sample value |
| PttFrame.EncodeSamples | terminal-model/src/ptt_frame.rs:53-62 | writes exactly the payload or, when it does not fit, nothing |
| PttFrame.EncodeFrame | terminal-model/src/ptt_frame.rs:64-77 | writes a whole frame or leaves the buffer alone: never a truncated one |
| PttFrame.AudioQueue.QueueAudioFrame | src/net.rs:396-418 | queues exactly the encoded frame, and refuses, changing nothing, exactly when audio is unavailable, the frame too large or the queue full too long |
| Utterances.SkipPayload | tools/picocalc-ptt:292-298 | discards exactly the announced bytes in blocks, or reports that the stream ran out |
| Utterances.ReadFrame | tools/picocalc-ptt:273-304 | takes one frame off the stream, and nothing else, whatever its announced size |
| Utterances.ReadUtterances | tools/picocalc-ptt:261-309 | on any byte stream the loop yields what the specification says, and holds at most the limit at each loop head |
| Utterances.CompleteStream | tools/picocalc-ptt:261-309 | on complete frames: exactly the groups of 1 to limit bytes between empty frames, in order |
| Utterances.TruncatedStream | tools/picocalc-ptt:261-309 | an in-limit stream cut at any byte yields the finished utterances and at most one non-empty prefix of the next |
| Utterances.WithinLimitIff | tools/picocalc-ptt:299-309 | every yielded utterance is within the limit exactly when the stream is not cut so as to overflow it, and never more than twice the limit |
| Utterances.StreamThatOverflows | tools/picocalc-ptt:299-309 | for every limit, a stream whose one utterance is longer |
| EndToEnd.FramesFit | src/mic.rs:795-813 | every chunk fits its frame and no data frame is empty |
| EndToEnd.GroupsMatch | tools/picocalc-ptt:279-284 | the receiver's groups are the sender's utterances: the end marker is unambiguous |
| EndToEnd.HelperHearsEveryGeneration | src/mic.rs:784-843 | with nothing refused and every upload in limit, the helper reports exactly the non-empty uploads, in generation order |
| EndToEnd.HelperHearsWhatWasCaptured | src/mic.rs:784-843 | at rest, every generation of which nothing was evicted is reported with exactly its captured samples |
| Session.EverySessionFollows | src/net.rs:429-618 | in any run of sessions, every session says to its server only the prescribed events, in order, on the prescribed channels |
| Session.ExecIsOnTheSecondChannel | src/net.rs:907-931 | the helper's exec goes to the second channel of that session, once, after its pty and its shell or command, and only with a helper configured |
| Session.AudioFollowsTheScript | src/net.rs:587-618 | audio is written only there, only with that session's frames, after the exec succeeded and the whole script was sent |
| Session.ScriptIsWhole | src/net.rs:592-604 | the script's chunks run from the first byte to the last without a gap |
| Session.ReadyMeansPumping | src/net.rs:436-446 | audio counts as available exactly while a pump is running |
| SessionProgress.AudioComesUp | src/net.rs:540-618 | while nothing fails, a session with a helper has audio after exactly the steps it has left, the preamble and the whole script sent and nothing else, and can always take the next |
| SessionProgress.StepsToAudio | src/net.rs:585-618 | a session begins six steps and its script's chunks from audio; once the exec is accepted it is one step and the chunks |
| SessionProgress.SessionStartsHealthy | src/net.rs:429-434 | every session with a helper begins so |
| SessionProgress.QueuedAudioIsWritten | src/net.rs:650-665 | what a session writes is what was queued in it, in order, and while it pumps only what still waits is missing |
| SessionProgress.SuccessWritesHead | src/net.rs:650-665 | a send that succeeds writes the oldest waiting frame |
| SessionProgress.QueueStaysShort | src/net.rs:396-418 | at most three frames wait |
| Session.ExitSparesAnOpenTerminal | src/net.rs:984-1007 | an exit event ends the session exactly when its terminal is not up |
| Session.DisabledSessionLeavesTheSignal | src/net.rs:420-434 | a session without a helper can end with its ready signal set |
| Session.StaleSignalWakesTheBranch | src/net.rs:540-546 | unreset, that signal makes the next session ask for its audio channel first |
| Session.SwappedChannelsMisroute | src/net.rs:907-983 | and the ticker then sends the pty and the shell to the audio channel, the exec to the terminal |
| TerminalProofs.StepValid | terminal-model/src/screen_model.rs:273-763 | every step keeps the rectangle, the cursor, the margins, the viewport and the scrollback cap |
| TerminalProofs.PendingWrapIsReachable | terminal-model/src/screen_model.rs:579-595 | a full row leaves the cursor where an erase up to it has no cell to end at |
| TerminalProofs.EraseEndsInRowIff | terminal-model/src/screen_model.rs:662-705 | on every screen, an erase up to the cursor ends inside its row exactly when there is a cell under the cursor |
| TerminalProofs.WithinHeapBudget | terminal-model/src/screen_model.rs:482-502 | lines up to the screen plus a safe scrollback fit the heap budget |
| TerminalProofs.SafeIsLargest | terminal-model/src/screen_model.rs:482-502 | one line more than the safe scrollback would not fit |
| TerminalProofs.ScrollbackGrows | terminal-model/src/screen_model.rs:300-351 | a step's scrollback is the old one plus the rows it scrolls off row 0, newest kept |
| TerminalProofs.VisibleRowIsWindow | src/screen.rs:160-179 | the rows the painter picks are a contiguous window of scrollback followed by lines |
| TerminalProofs.StepFollowed | terminal-model/src/screen_model.rs:300-763 | after any step, unless a full repaint is requested, each visible row is unchanged or marked dirty and a shown overlay is the same; a clamped viewport aside |
| TerminalProofs.LimitFollowedIff | terminal-model/src/screen_model.rs:465-476 | exactly when lowering the scrollback cap keeps the painter informed: the viewport is not clamped, or a full repaint is due |
| TerminalLaws.CursorPosition | terminal-model/src/screen_model.rs:650-656 | after Cursor Position the next character changes exactly the cell of that row and column, or of the edge |
| TerminalLaws.LinePosition | terminal-model/src/screen_model.rs:657-661 | Line Position Absolute is Cursor Position with the column kept |
| TerminalLaws.CursorRows | terminal-model/src/screen_model.rs:629-638 | Cursor Up and Down move the row by the count, stopping at the first and last |
| TerminalLaws.CursorColumns | terminal-model/src/screen_model.rs:639-648 | Cursor Right and Left do so with the column |
| TerminalLaws.MovesUndo | terminal-model/src/screen_model.rs:629-648 | where there is room each undoes the other |
| TerminalLaws.ControlBytes | terminal-model/src/screen_model.rs:597-615 | carriage return, backspace and all other bytes but the line feed move the cursor along its row or do nothing |
| TerminalLaws.LineFeeds | terminal-model/src/screen_model.rs:597-604 | a line feed goes down a row or moves every row up, the top one scrolling off |
| TerminalLaws.EraseBelow | terminal-model/src/screen_model.rs:662-676 | Erase in Display 0 blanks exactly the cells from the cursor on |
| TerminalLaws.EraseAbove | terminal-model/src/screen_model.rs:677-687 | mode 1 exactly those up to and including it |
| TerminalLaws.EraseAll | terminal-model/src/screen_model.rs:688-691 | mode 2 all of them, homing cursor and view |
| TerminalLaws.EraseRight | terminal-model/src/screen_model.rs:693-699 | Erase in Line 0 blanks exactly the cells of the row from the cursor on |
| TerminalLaws.EraseLeft | terminal-model/src/screen_model.rs:693-700 | mode 1 exactly those up to and including it |
| TerminalLaws.EraseRow | terminal-model/src/screen_model.rs:693-701 | mode 2 exactly those of the row |
| TerminalLaws.EraseNothing | terminal-model/src/screen_model.rs:662-705 | other modes blank nothing |
| TerminalLaws.EraseCharacters | terminal-model/src/screen_model.rs:706-714 | Erase Character blanks exactly as many cells from the cursor on |
| TerminalLaws.RenditionOfNext | terminal-model/src/screen_model.rs:739-760 | what each rendition number makes of each attribute of the next printed cell |
| TerminalLaws.RenditionsInOrder | terminal-model/src/screen_model.rs:739-760 | several numbers act one after another |
| TerminalLaws.MarginsThenScroll | terminal-model/src/screen_model.rs:715-738 | setting margins and scrolling up moves exactly the rows between them |
| TerminalLaws.MarginsIgnored | terminal-model/src/screen_model.rs:715-733 | margins out of order are ignored |
| TerminalLaws.MarginsReset | terminal-model/src/screen_model.rs:715-733 | without parameters the margins are the whole screen |
| TerminalLaws.OthersIgnored | terminal-model/src/screen_model.rs:617-763 | marked sequences and all other final characters do nothing |
| TerminalLaws.ViewUpShows | terminal-model/src/screen_model.rs:370-373 | scrolling the view back shows the rows as many rows earlier |
| TerminalLaws.ViewDownShows | terminal-model/src/screen_model.rs:375-378 | and forward those as many rows later |
| TerminalLaws.ViewResetShows | terminal-model/src/screen_model.rs:380-385 | and ending a look back the live rows |
| TerminalLaws.OverlayShown | terminal-model/src/screen_model.rs:391-446 | over any run, the overlay is the current notice or, after its time, the lasting overlay it covered, or none |
| ScreenModel.RotatedOnce | terminal-model/src/screen_model.rs:336-349 | removing the region's top row and inserting a blank at its bottom moves the region up by one more |
| ScreenModel.ScreenModel.constructor | terminal-model/src/screen_model.rs:225-270 | a new screen is blank, unscrolled, within its budget and due a full repaint |
| ScreenModel.ScreenModel.HeldLinesFit | terminal-model/src/screen_model.rs:482-502 | the lines held, at any moment so far, fit the heap budget when the screen and one line do |
| ScreenModel.ScreenModel.ScrollUp | terminal-model/src/screen_model.rs:300-315 | moves the top row to the capped scrollback and adds a blank row |
| ScreenModel.ScreenModel.ScrollRegionUp | terminal-model/src/screen_model.rs:328-351 | the loop equals its closed form: the region shifted by min(n, height), blanks below, rows outside untouched |
| ScreenModel.ScreenModel.ScrollIfCursorPastBottom | terminal-model/src/screen_model.rs:363-368 | scrolls once and puts the cursor back on the last row |
| ScreenModel.ScreenModel.ScrollViewUp | terminal-model/src/screen_model.rs:370-373 | moves the viewport back, at most to the oldest row |
| ScreenModel.ScreenModel.ScrollViewDown | terminal-model/src/screen_model.rs:375-378 | moves the viewport forward, at most to the live screen |
| ScreenModel.ScreenModel.ResetView | terminal-model/src/screen_model.rs:380-385 | returns to the live screen, repainting only if it was scrolled back |
| ScreenModel.ScreenModel.SetMaxScrollback | terminal-model/src/screen_model.rs:465-476 | clamps the cap to the safe one, drops the oldest rows and clamps the viewport |
| ScreenModel.ScreenModel.EraseRow | terminal-model/src/screen_model.rs:176-183 | the cell loop blanks exactly its range and marks the row |
| ScreenModel.ScreenModel.Clear | terminal-model/src/screen_model.rs:282-290 | clears every row, homes the cursor and the viewport |
| ScreenModel.ScreenModel.Print | terminal-model/src/screen_model.rs:579-595 | carries out a pending wrap, scrolls if needed, and puts one character |
| ScreenModel.ScreenModel.Execute | terminal-model/src/screen_model.rs:597-615 | line feed, carriage return and backspace |
| ScreenModel.ScreenModel.EraseInDisplay | terminal-model/src/screen_model.rs:662-692 | Erase in Display in each mode |
| ScreenModel.ScreenModel.EraseInLine | terminal-model/src/screen_model.rs:693-705 | Erase in Line in each mode |
| ScreenModel.ScreenModel.SetScrollRegion | terminal-model/src/screen_model.rs:715-733 | margins, ignored unless top is above bottom |
| ScreenModel.ScreenModel.SelectGraphicRendition | terminal-model/src/screen_model.rs:739-760 | the parameters take effect one after the other |
| ScreenModel.ScreenModel.CsiDispatch | terminal-model/src/screen_model.rs:617-763 | every control sequence does what the meaning says |
| ScreenModel.ScreenModel.ShowOverlay | terminal-model/src/screen_model.rs:391-395 | an untimed overlay, remembered for restoring |
| ScreenModel.ScreenModel.ShowTimedOverlay | terminal-model/src/screen_model.rs:400-403 | a timed overlay with a saturating deadline |
| ScreenModel.ScreenModel.TickOverlay | terminal-model/src/screen_model.rs:420-435 | on expiry restores the covered overlay or clears |
| ScreenModel.ScreenModel.ClearOverlay | terminal-model/src/screen_model.rs:440-446 | removes the overlay and repaints in full |
| Painter.CleanOne | src/screen.rs:160-182 | painting a row of the window marks that row, wherever it is stored |
| Painter.PaintRow | src/screen.rs:181-274 | skips a clean row, else draws it and marks it painted |
| Painter.DrawRows | src/screen.rs:151-275 | one pass draws exactly the dirty rows, or all of them after clearing |
| Painter.UpdateDisplay | src/screen.rs:117-120 | lets an expired overlay go, paints and composites the overlay |
| PainterTheorems.RunInSync | src/screen.rs:151-275 | over any run of steps and paints, a row not marked dirty is on the display |
| PainterTheorems.NothingRemainsOfAnOverlay | src/screen.rs:290-298 | a paint with no overlay shows exactly the visible rows, whatever was shown before |
| PainterTheorems.PaintingAgreesWithScratch | src/screen.rs:151-298 | over any run, a paint equals drawing everything from scratch whenever its box reaches as far as those of the same text drawn before |
| PainterTheorems.OnlyTheCurrentOverlayShows | src/screen.rs:290-298 | with the flag changing, each tile still shows its cell or the current overlay's box, never an older overlay's |
| PainterTheorems.ConstantFlagAgrees | src/screen.rs:151-298 | with the recording flag constant, every paint equals drawing everything from scratch |
| PainterTheorems.FlagChangeAgreesIff | src/screen.rs:317-394 | after the flag changed between two paints of an overlay, the display is what drawing from scratch gives exactly when the second box reaches every tile of the first |
| OverlayBox.RecordingPaintAgrees | src/screen.rs:317-361 | with the box as drawn, a paint made while recording equals drawing from scratch at every pixel of the text area, after any run |
| OverlayBox.StripIsLeftIff | src/screen.rs:317-361 | the first paint after the recording agrees at every pixel exactly when the box without the meter leaves fewer than two pixel rows of the screen free |
| OverlayBox.TextInsideBox | src/screen.rs:334-355 | the box is in the middle of the screen, on it from side to side, and every line lies inside it with its paddings |
| OverlayBox.BoxIsCentred | src/screen.rs:350-354 | from top to bottom it is in the middle too, or starts at the top |
| PainterExamples.ClampedViewIsStale | terminal-model/src/screen_model.rs:465-476 | a run in which a clamped viewport leaves a row on the display that is no longer in view |
| PainterTheorems.ScrollbackIsRecentHistory | terminal-model/src/screen_model.rs:300-351 | the scrollback is always a suffix of all rows ever scrolled off row 0 |
| Layout.TextRowsNext | terminal-model/src/screen_model.rs:579-615 | one more token extends the layout: a full row is followed by a new one only when a character comes |
| Layout.FeedLaid | terminal-model/src/screen_model.rs:300-368 | any text of characters and line breaks keeps the screen in step with the layout |
| Layout.FeedGrows | terminal-model/src/screen_model.rs:300-315 | the scrollback holds the newest of what it held and all rows the text scrolled off |
| Layout.OutputIsLayout | terminal-model/src/screen_model.rs:579-615 | from a cleared screen, scrolled-off and visible rows are the paragraphs cut into rows of the width, cursor at their end, and the scrollback keeps the newest of the scrolled-off ones |
| Layout.CutRowsExact | terminal-model/src/screen_model.rs:579-588 | the rows of a paragraph join to it, all but the last are full, and no blank row is added |
| TextWrap.BreakWord | terminal-model/src/screen_model.rs:531-543 | a word too wide is cut into full lines and a rest |
| TextWrap.WrapWords | terminal-model/src/screen_model.rs:529-552 | the greedy loop over one paragraph's words |
| TextWrap.WrapText | terminal-model/src/screen_model.rs:523-555 | the whole wrap: every line at most the width in pixels, or one character where not even that fits |
| TextWrap.WrapIsFaithful | terminal-model/src/screen_model.rs:514-555 | every line fits and every character that is not white space is kept, in order |
| TextWrap.GreedyIsOptimal | terminal-model/src/screen_model.rs:514-555 | with no word too wide, no in-order split takes fewer lines, and the result is such a split |
| TextWrap.MaxCharsIsLargest | terminal-model/src/screen_model.rs:523-525 | a line takes as many characters as fit the width in pixels, one more would not |
| WrapMeaning.SplitJoins | terminal-model/src/screen_model.rs:528-528 | the paragraphs contain no newline and, joined by newlines, are the text |
| WrapMeaning.SplitIsUnique | terminal-model/src/screen_model.rs:528-528 | there is no other such splitting |
| WrapMeaning.WordsAreWoven | terminal-model/src/screen_model.rs:530-530 | the words with white space around and between them are the paragraph |
| WrapMeaning.WordsAreUnique | terminal-model/src/screen_model.rs:530-530 | there are no other such words |
| WrapMeaning.EachParagraphItsOwn | terminal-model/src/screen_model.rs:514-555 | each paragraph gets lines of its own, at least one, with its characters and no other's, none too wide in pixels |
| Strings.ParseFormat | terminal-model/src/mic_config.rs:90-93 | a formatted number reads back |
| SettingsLaws.NumbersAreRead | terminal-model/src/mic_config.rs:90-93 | a number is read with white space around it and a plus sign |
| SettingsLaws.SwitchWordsAreRead | terminal-model/src/mic_config.rs:95-102 | the words for on and off are read with white space around them |
| Strings.ParsesOnlyDigits | terminal-model/src/mic_config.rs:90-93 | nothing but digits after at most one plus sign is read |
| Strings.DecimalExample | terminal-model/src/mic_config.rs:90-93 | digits count decimally |
| SettingsLaws.OnlySwitchWordsAreRead | terminal-model/src/mic_config.rs:95-102 | exactly four words each mean on and off, with white space around them or not |
| SettingsLaws.WindowInNumbers | terminal-model/src/pcm_extract.rs:48-61 | a clock is legal exactly with 8 to 32 bits a slot and 512,000 to 2,048,000 of them a second and channel |
| SettingsLaws.UnreadableMeansDefault | terminal-model/src/mic_config.rs:114-132 | missing or unreadable values mean 32 bits at 16 kHz, not flipped |
| SettingsLaws.ReadableIsInEffect | terminal-model/src/mic_config.rs:114-132 | readable values are in effect if their pair is legal, else the default pair is |
| SettingsLaws.AcceptedIff | terminal-model/src/mic_config.rs:245-336 | on an agreeing store a set is accepted exactly when its value is readable and legal |
| MicConfig.EffectiveIsInWindow | terminal-model/src/mic_config.rs:114-132 | whatever is stored, the settings in effect clock the microphone inside its window |
| MicConfig.PairWritesKeepEffect | terminal-model/src/mic_config.rs:150-166 | rewriting a stale clock pair, rate first, changes nothing in effect at any point in between |
| MicConfig.SingleWriteKeepsEffect | terminal-model/src/mic_config.rs:181-209 | rewriting a single stale key changes nothing in effect and only that key's staleness |
| MicConfig.RepairsAre | terminal-model/src/mic_config.rs:181-209 | the repairs are exactly those of the stale keys |
| MicConfig.NothingStaleIsConsistent | terminal-model/src/mic_config.rs:168-180 | with no stale key the store resolves to itself and needs no repair |
| MicConfig.UnreconciledIsStale | src/mic.rs:209-239 | the keys flagged on the console are exactly those whose stored value is not in effect |
| MicConfig.ConfigStore.RepairPair | src/mic.rs:179-195 | a stale pair's repair, its rollback and a failing rollback leave the settings in effect alone |
| MicConfig.ConfigStore.ReadAndReconcile | src/mic.rs:168-262 | for every content and every pattern of failing writes no write changes what is in effect; when all land nothing is left to repair; the report is exact |
| MicConfig.ConfigStore.ConfigSet | src/mic.rs:279-288 | a set never disturbs the other settings; with all writes landing it is accepted exactly when legal and makes exactly its value effective |
| MicConfig.AcceptedSetKeepsOthers | terminal-model/src/mic_config.rs:285-336 | an accepted set leaves the other clock key and the edge alone, however unreconciled the store |
| MicConfig.SetTakesEffectIff | terminal-model/src/mic_config.rs:245-336 | exactly when an accepted set takes effect |
| MicConfig.SetOnConsistentStoreTakesEffect | terminal-model/src/mic_config.rs:245-336 | when store and effective settings agree, it makes exactly the given value effective |
| MicConfig.RateRepairIsAccepted | terminal-model/src/mic_config.rs:315-336 | setting the rate to its reported value is always accepted |
| MicConfig.BitsRepairIsAcceptedIff | terminal-model/src/mic_config.rs:315-336 | exactly when setting the slot width to its reported value is accepted |
| MicConfig.BitsRepairCanBeRefused | terminal-model/src/mic_config.rs:315-336 | a store for which it is refused |
| I2sProgram.BuildProgram | terminal-model/src/i2s_program.rs:41-113 | emits exactly the eight instructions |
| I2sProgram.ProgramIsReceiver | terminal-model/src/i2s_program.rs:41-113 | the program is two slot loops, for either edge |
| I2sProgram.ShiftedSlot | src/mic.rs:569-575 | a slot of at most 32 bits never overflows the shift register |
| I2sProgram.SlotRun | terminal-model/src/i2s_program.rs:41-113 | where the machine is at every cycle of a slot |
| I2sProgram.EverySlotIsPushed | src/mic.rs:569-575 | however long it runs, one word per slot of 2 * bits cycles: that slot's bits, left and right alternating |
| I2sProgram.Clocks | terminal-model/src/i2s_program.rs:55-111 | in every wrap the bit clock toggles each cycle, word select holds each level for 2 * bits cycles, and the edge flip complements the bit clock only |
| I2sProgram.FlipReceivesTheSame | terminal-model/src/i2s_program.rs:30-32 | the edge flip changes nothing that is received |
| I2sProgram.FramesPerSecond | src/mic.rs:567-568 | at twice the bit clock, one second is exactly `rate` frames |
| I2sProgram.EveryStoreClocksTheMic | src/mic.rs:545-575 | so whatever the settings store holds |
| I2sProgram.SampleIsTop16 | terminal-model/src/pcm_extract.rs:85-92 | the sample of a word is its slot's top 16 bits, left-justified below 16 |
| Capture.SegmentsCoverTheRun | terminal-model/src/dma_ring.rs:28-37 | the segments are in bounds and visit exactly the wrapped run, in order |
| Capture.AvailableIsBacklogModLap | terminal-model/src/dma_ring.rs:16-26 | the ring positions tell the backlog, whatever it is, up to whole laps |
| Capture.AvailableIsBacklogIff | terminal-model/src/dma_ring.rs:16-26 | and exactly, if and only if it is below one lap |
| Capture.ResyncIndex | src/mic.rs:665-671 | the restart index is an even word two or three behind the write head |
| Capture.ExtractLeftChannelPcm | terminal-model/src/pcm_extract.rs:75-79 | one sample per even word, stopping at the shorter buffer, the rest untouched |
| Capture.CopyRun | src/mic.rs:685-698 | the two-segment copy appends exactly the wrapped run |
| Capture.Drain.Poll | src/mic.rs:648-722 | a pass is late exactly when its elapsed milliseconds times the words a millisecond exceed 2048; then it only restarts behind the write head and reports the first time, otherwise it takes and hands over what its closed form on the words the DMA wrote says, however far behind |
| Capture.PolledIsGood | src/mic.rs:657-722 | every pass keeps chunks made of words taken in order, left and right alternating, with nothing skipped that is not counted |
| Capture.PolledChunks | src/mic.rs:701-722 | what a pass hands over is exactly what it adds to the chunks |
| Capture.PollTakesAll | src/mic.rs:674-700 | a pass takes every whole frame clear of the margin that it sees or fills its chunk; below a lap it sees the whole backlog |
| Capture.LateTakesNothing | src/mic.rs:657-671 | a late pass only drops the chunk being filled and restarts behind the write head |
| Capture.SampleIsALeftSlot | src/mic.rs:701-722 | every sample of every chunk, resynchronised, lapped or not, is the left slot of a frame, and the frames go up |
| Capture.CaptureIsGapless | src/mic.rs:653-722 | with no restart and no lap skipped the chunks are every frame's sample, each once, in order |
| CaptureRuns.InTimeAt16kHz | src/mic.rs:648-660 | at 16 kHz a pass is in time up to 64 ms after the one before |
| CaptureRuns.InTimeAtSlowRates | src/mic.rs:648-648 | below 1000 samples a second the rate counts as one word a millisecond |
| CaptureRuns.NothingSkipped | src/mic.rs:653-722 | while passes are in time and find less than a lap, nothing is skipped |
| CaptureRuns.SteadyRunIsComplete | src/mic.rs:653-722 | with at most a chunk's words between passes in time nothing is skipped, and less than two chunks and three words are left to hand over |
| CaptureRuns.SteadyRunIsGapless | src/mic.rs:653-722 | so each sample handed over is its frame's |
| Capture.FrameSampleIsTop16 | terminal-model/src/pcm_extract.rs:85-92 | and each is the top 16 of the bits on the data line in that slot |
| Meter.IntegerSqrt | terminal-model/src/pcm_extract.rs:94-105 | terminates with the floor square root of every 64-bit value, without overflow |
| Meter.FloorSqrtIsUnique | terminal-model/src/pcm_extract.rs:94-105 | there is only one |
| Meter.LevelFits | terminal-model/src/pcm_extract.rs:142-151 | a window's level fits the cast to 32 bits |
| Meter.WindowsAreEven | terminal-model/src/pcm_extract.rs:130-142 | no window differs from an eighth of the chunk by more than a sample |
| Meter.SortSorts | terminal-model/src/pcm_extract.rs:113-119 | the order the median is taken in is sorted and a permutation |
| Meter.WindowedAcLevel | terminal-model/src/pcm_extract.rs:130-154 | the loops compute the median of the windows' levels |
| Meter.OneWindowIsOutvoted | terminal-model/src/pcm_extract.rs:121-154 | changing one window arbitrarily keeps the meter between the fourth and fifth smallest of the other seven levels |
| Meter.TruncDivShift | terminal-model/src/pcm_extract.rs:143-143 | exactly when an offset moves the truncated mean along |
| Meter.SquaresAfter | terminal-model/src/pcm_extract.rs:143-150 | what an offset does to the sum of squared deviations, from the two sums alone |
| Meter.OffsetIsRemovedIff | terminal-model/src/pcm_extract.rs:121-151 | exactly when an offset leaves a window's level alone |
| Meter.OffsetMovesByAtMostOne | terminal-model/src/pcm_extract.rs:121-151 | no offset moves a window's level by more than one |
| Meter.OffsetMovesMeterByAtMostOne | terminal-model/src/pcm_extract.rs:121-154 | nor the meter of any chunk |
| Meter.OffsetCanShow | terminal-model/src/pcm_extract.rs:143-143 | a window whose level, and a chunk whose meter, an offset does change |

## Left out

* The cursor block, which the painter draws without marking its row; glyph shapes and colours; the
  border of the display outside the cells. The painter is proved for any assignment of tiles to
  boxes, and for the box's own pixels in `OverlayBox`; the level meter's bar is part of its box.
- AudioRing.RunInv: runs are of writes and reads; `clear`, which the firmware never calls, is a method only.
- TerminalProofs.StepFollowed: leaves out lowering the scrollback cap below the viewport, where it is false; `LimitFollowedIff` has the exact condition.
- PainterTheorems.PaintingAgreesWithScratch: needs the box drawn to reach as far as earlier ones of the same text; `FlagChangeAgreesIff` shows that this is exact.
- OverlayBox.StripIsLeftIff: for fonts from 2 to 160 pixels high and up to 160 wide, on a screen of as many cells as fit.
- ScreenModel.ScreenModel.EraseInDisplay: mode 1 requires a cell under the cursor, as the code does.
- ScreenModel.ScreenModel.EraseInLine: mode 1 requires a cell under the cursor, as the code does.
* A row's characters and attributes are one sequence of cells. Parameters carry their first number
  only, as the code reads them. Line and viewport arithmetic does not wrap around.
* The byte parser that calls the screen model; screen resizing, whose functions are empty.
* Generation counters do not wrap around, and atomics are sequentially consistent.
* A queue send that is still pending when its session ends; the protocol's notices and overlays.
* The audio queue between the sender and the pump is a sequence that loses nothing while a pump runs.
- PttProgress.EverythingGetsServed: takes a send that waits for room in the audio queue to complete or fail in the end.
- EndToEnd.HelperHearsEveryGeneration: needs no refused send, since a refused send also drops the end marker.
* Reads of the settings store that fail; values too long for a stored string count as writes that
  fail; error texts; removing a key; keys are a datatype rather than strings.
* The clock divider's rounding, PIO FIFO overflow and the transfer from FIFO to ring: the DMA is
  taken to write the pushed words in order.
- Capture.Drain.Poll: takes the DMA not to lap the words being taken while they are read, and to have written two words before a poll is late; the elapsed time times the words a millisecond does not wrap around.
* The level meter's 64-bit sums, which no chunk comes near.
* Host keys, authentication and the rest of the SSH event loop; the terminal's own traffic; what the
  helper prints. The embedded script is known by its length.
* WiFi, storage, keys, power, alias and key tables, transcription and tmux, wrappers over hardware
  or libraries.
