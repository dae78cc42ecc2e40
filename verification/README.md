# Dongle driver: model and proofs

This project models the modem driver of `asterisk-chan-dongle` and two parts of the adapter layer
around it, and proves what they promise.

- **Ring, framer and mixer** (`RingCells`, `RingBuffer`, `Search`, `WrapSearch`, `AtRead`, `Classify`,
  `Monitor`, `Printed`, `Streaming`, `Tearing`, `Samples`, `MixSum`, `MixOrder`, `MixBuffer`).
  One circular buffer is a byte queue, a text to search across its physical end, and a timeline that several
  writers mix into. Each operation is a method on the array; its contract speaks of the logical content. Framing is
  a function of the content and of where the storage ends; the read loop is proved against it for any input, and
  for a stream of responses as they are printed it delivers exactly these, unless a read tears one.
- **Commands and calls** (`AtQueue`, `LockSections`, `TaskOrder`, `Calls`, `Handlers`, `CallStories`, `CallNaming`,
  `DeviceRuns`, `CallAudio`, `Requests`, `HangupFlag`, `Pvt`). What the lock of a device protects changes in steps.
  The queue keeps a log of what was written and retired, from which the discipline of the wire is read off. Calls,
  tasks, counters and mixed streams are kept consistent by every step of every run. `AtQueue.CommandQueue` and
  `Pvt.DevicePvt` are the records changed in place, each method tied to the function of the same step.
- **Messages** (`Hex`, `Septets`, `Pdu`, `Validity`). 3GPP TS 23.038 sections 4 and 6.1.2.1.1, and 3GPP TS 23.040
  sections 9.1.2.3, 9.1.2.5, 9.2.2.1 and 9.2.3.12.1.
- **Restart and selection** (`Restart`, `RoundRobin`).
- **Adapter and scanners** (`ResponseSlot`, `SmsBridge`, `ImsiScan`).

`Wrappers` holds the option and result types.

## What the proofs found

- `rb_read_until_mem_iov` compares the bytes after the wrap with `mem + i` where `mem + len - i` belongs
  (`ringbuffer.c:183`). Patterns of one and two bytes are found right everywhere. The seven bytes that end a
  multi-line response are not: `AtRead.OkTailDefect` gives a ring in which they are missed and one in which
  they are found though they are not there. `WrapSearch.FindAcrossExact` and `FindAcrossNowhereSimilar` say
  exactly when the search is right. The loop may compare memory behind the pattern; it is a parameter
  (`after`, `beyond`), and what is proved holds for all of it.
- What is delivered depends on where the reads end: a read that ends within the header of a response with one more
  line break in front, as `+CMGS:`, or right before the line break after text that is no response, makes the framer
  deliver an empty line and lose a response (`Tearing.DeliveredIffUntorn`, `Tearing.TornNoise`). All other responses
  come through however the stream is cut, those of many lines where they do not wrap (`Streaming.ReadLoop`).
- "Retired only after it was written" does not hold: when the write of a command with IGNORE, as `AT+CLIR`
  of a dial, falls short, the insertion fails but its task goes on, and a response that comes then retires the
  next command unwritten (`LockSections.RetiredUnwritten`). It holds in just the runs in which every response
  finds the head of the queue on the wire (`LockSections.RetiredWrittenIff`), which an insertion that falls short
  is the only way to prevent (`LockSections.SectionSettles`). "Written only after the one before was retired as expected" always holds.
- A call hung up before `^ORIG` is forgotten, but `OK` to its dial command makes it the last one dialed again,
  and `^ORIG` is then taken to be about it (`CallNaming.HungUpIsNamed`). This can happen just when a dial command of
  the call is in the queue when it is hung up (`CallNaming.HungUpNamedIff`).
- `activate_call` links the stream of a call before it looks whether the audio port is open
  (`channel.c:271-279`). With the port closed the stream would stay linked when the call is freed
  (`Calls.ActivatedAudio`, `DeviceRuns.StreamLeftBehind`); this state is not reached in a run, as events come only
  while the ports are open.
- `incoming_sms` is one flag for any number of messages, so that a graceful stop may find messages on their way
  (`Restart.LostRun`). It does just when the flag was lost, by reading one of several messages or by clearing it
  while one is on its way, and nothing made up for it since (`Restart.MessageLostIff`); with messages one at a
  time none is lost. Nothing sets `outgoing_sms`.
- While discovery waits for the monitor thread, the lock is free. A request in that time opens the device for work
  that is then lost iff it wants the device started, or wants to wait for a convenient time while there is
  something to do (`Restart.RequestInBetween`, `Restart.WorkOnlyIfOpened`).
- A request to stop a device at a good time that comes while it starts is overlooked: with nothing to do it stays up
  until something else happens to it. This is the only such case (`Restart.DueWhenIdle`). A request that comes while
  discovery takes a device down for a restart is overridden by it (`Restart.CarriedOut`).
- A device that drops off with a message flagged, while a restart is to be made at a good time, is not restarted before
  the next request (`Restart.RestartAfterDrop`).
- A device that drops off is started again iff the time set for changes is "now" (`Restart.StartedAgain`); a
  request to start a running device gracefully or when convenient leaves another time (`Restart.StartedLater`).
- With no member marked, selection in turn begins at the second member; a search that finds none takes all
  marks away (`RoundRobin.NoMarkStartsSecond`, `RoundRobin.OneMark`).
- The 7-bit encoder emits one octet too many when the length is a positive multiple of 8, and checks the room for
  one fewer: with no more than two characters of room above what it checks for, it writes past the end
  (`Septets.RoomExact`, `Septets.RoomTooSmall`). The parser's length formula does not allow for that octet either
  (`Septets.PackLength`, `Pdu.PackedFits`).
- The other three codecs modelled of `char_conv.c` stay within their buffers, but for a size of 0, for which their
  checks wrap around as well (`Hex.Chars8bitToHexstr`, `Hex.HexstrTo8bitChars`, `Septets.Hexstr7bitToChar`).
- `pdu_parse_number` does not check the room for `+` (`Pdu.NumberFits`).
- An SMS-DELIVER with an empty originating address is refused (`Pdu.DecidesOctets`); a semi-octet of an odd number that
  should be the filler may be a digit, which is then read as one more (`Pdu.DigitsDecided`).
- Saturation makes mixing depend on the order of the writers, but just where some order saturates and the writers
  do not all pull one way (`MixOrder.SameIff`, `MixOrder.SameAudioIff`; `MixSum.SaturationIsOrdered` is an instance).
- The scan for an IMSI starts over at every second CR in a row, so that a line behind an even number of them is
  missed (`ImsiScan.HandleCimi`, `ImsiScan.CanMiss`).

## Modelling choices

- Pointers into a buffer are offsets; vectors of `iovec` are pairs of offset and length.
- `rb_write_core` takes its write method as a function from cells and data to cells; `SumInPlace` is the loop
  that does what the summing one says. Samples are little-endian. Lengths and positions of audio are even, as
  the sum handles whole samples only.
- A call is known by a number of its own in place of the address of its record, a task likewise.
- `AST_LIST_*` are sequences. `write`, memory, ports and the lines of the modem are inputs that may be anything.
- Discovery gives up the lock while it stops a device and while it starts one; each of the two is a step that
  begins and a step that ends, and anything else may come in between.
- Counters have the width of the source: 32 bits for calls, tasks and commands, 8 bits for calls by state.
- Ghost fields (`log`, `issued`, `played`, `writes`, `pending`, `latest`, `patient`, `reopened`) record what
  happened; no operation depends on them.

## Model

| member | source | states |
|---|---|---|
| `Search.FindIs` | asterisk-chan-svistok/asterisk-chan-dongle/ringbuffer.c:164 | `memmem`, as used by the searches, is the first occurrence or none |
| `RingBuffer.RingBuffer.constructor` | asterisk-chan-svistok/asterisk-chan-dongle/ringbuffer.h:28-35 | an empty ring over the given storage |
| `RingBuffer.RingBuffer.MemCmp` | asterisk-chan-svistok/asterisk-chan-dongle/ringbuffer.c:18-50 | 0 iff the content starts with the text, 1 iff it does not, -1 when there is too little to tell; across the wrap too |
| `RingBuffer.RingBuffer.ReadAll` | asterisk-chan-svistok/asterisk-chan-dongle/ringbuffer.c:53-75 | vectors that denote the whole content, none iff it is empty |
| `RingBuffer.RingBuffer.ReadN` | asterisk-chan-svistok/asterisk-chan-dongle/ringbuffer.c:77-104 | vectors that denote the first `len` bytes, none iff `len` is 0 or fewer are there |
| `RingBuffer.RingBuffer.ReadUntilChar` | asterisk-chan-svistok/asterisk-chan-dongle/ringbuffer.c:106-144 | vectors that denote the content before the first such byte of the whole content, none iff there is none |
| `RingBuffer.RingBuffer.ReadUntilMem` | asterisk-chan-svistok/asterisk-chan-dongle/ringbuffer.c:146-230 | vectors that denote the content before what the source takes for the pattern; the next rows say when that is its first occurrence |
| `WrapSearch.FindAcrossExact` | asterisk-chan-svistok/asterisk-chan-dongle/ringbuffer.c:181-197 | the search is right in every ring iff, for each split of the pattern, the bytes it compares after the wrap are those that belong there |
| `WrapSearch.FindAcrossNowhereSimilar` | asterisk-chan-svistok/asterisk-chan-dongle/ringbuffer.c:156-230 | for a pattern with no such split: the search is right in a ring iff the pattern lies before the wrap, or nothing before the wrap starts it and goes on after it as it should or as the source expects |
| `WrapSearch.FindAcrossSelfSimilar` | asterisk-chan-svistok/asterisk-chan-dongle/ringbuffer.c:146-230 | for a pattern with all such splits, the search finds the first occurrence in the logical content, straddling ones included |
| `WrapSearch.FoundStartsAlike` | asterisk-chan-svistok/asterisk-chan-dongle/ringbuffer.c:181-197 | whatever follows the pattern in memory, what is found starts with its first byte |
| `AtRead.LineBreakFound` | asterisk-chan-svistok/asterisk-chan-dongle/at_read.c:186 | CR LF is found wherever it lies in the ring |
| `AtRead.OkTailExact` | asterisk-chan-svistok/asterisk-chan-dongle/at_read.c:176 | the exact condition on a ring under which the end of a multi-line response is found where it is |
| `AtRead.OkTailDefect` | asterisk-chan-svistok/asterisk-chan-dongle/at_read.c:176 | a response whose last byte lies past the wrap is not found; one that is not complete there is delivered |
| `RingBuffer.RingBuffer.ReadUpd` | asterisk-chan-svistok/asterisk-chan-dongle/ringbuffer.c:232-267 | drops the first bytes of the content, as many as are there; an emptied ring starts over at 0 |
| `RingBuffer.RingBuffer.WriteVectors` | asterisk-chan-svistok/asterisk-chan-dongle/ringbuffer.c:315-341 | vectors over all free cells in the order they are filled |
| `RingBuffer.RingBuffer.WriteUpd` | asterisk-chan-svistok/asterisk-chan-dongle/ringbuffer.c:343-371 | counts bytes in, as many as fit; `write` stays congruent to `read + used` |
| `RingBuffer.RingBuffer.WriteCore` | asterisk-chan-svistok/asterisk-chan-dongle/ringbuffer.c:373-411 | hands at most the free cells to the write method, in one or two pieces, and leaves every other cell alone |
| `RingBuffer.RingBuffer.Write` | asterisk-chan-svistok/asterisk-chan-dongle/ringbuffer.h:69-72 | appends to the content as much as fits |
| `RingBuffer.RingBuffer.Receive` | asterisk-chan-svistok/asterisk-chan-dongle/at_read.c:55-106 | what `readv` delivers is appended to the content, wherever the free cells wrap |
| `AtRead.ReadResult` | asterisk-chan-svistok/asterisk-chan-dongle/at_read.c:108-199 | the recursion ends, and leaves the ring as the framer function says: a part dropped, then a frame at the front, or a request for more; what this is for each kind of response is in the rows of `Printed` and `Streaming` |
| `AtRead.ReportSought` | asterisk-chan-svistok/asterisk-chan-dongle/at_read.c:174-182 | a response that starts with `+CMGR:`, `+CNUM:`, `ERROR+CNUM:` or `+CLCC:` and lies in the ring in one piece is read up to the first end of a response there is |
| `Classify.MatchTable` | asterisk-chan-svistok/asterisk-chan-dongle/at_read.c:206-213 | the first entry of the table that the content starts with |
| `Classify.ClassifiedIs` | asterisk-chan-svistok/asterisk-chan-dongle/at_response.c:38-87 | the search through the table gives a response iff one of its texts is at the front, and unknown iff none is: no text hides another |
| `Classify.SpecialIds` | asterisk-chan-svistok/asterisk-chan-dongle/at_response.c:38-87 | the table tells the three responses with a length of their own by their text alone |
| `Classify.ReadClassification` | asterisk-chan-svistok/asterisk-chan-dongle/at_read.c:201-239 | drops the response by the length its class has |
| `Classify.FrameComplete` | asterisk-chan-svistok/asterisk-chan-dongle/at_read.c:152-195 | a frame is not empty, and as many bytes as terminate it are there: the line feed of a line, none after `> ` and `+CSSI:`, and after `+CMGR:` seven bytes that begin with a line feed, which is all the framer makes sure of |
| `Classify.MessageComplete` | asterisk-chan-svistok/asterisk-chan-dongle/at_read.c:165-182 | a response that starts with one of the four texts is delivered up to its first end, and not before that is there, iff the ring meets the condition of `OkTailExact`; of `+CMGR:` this very end is then dropped with it |
| `Classify.CompleteLength` | asterisk-chan-svistok/asterisk-chan-dongle/at_read.c:215-233 | classification drops the frame and its terminator, nothing more |
| `Monitor.DrainConserves` | asterisk-chan-svistok/asterisk-chan-dongle/chan_dongle.c:447-458 | for any input, bytes discarded, framed, terminating and left are the input, in order |
| `Monitor.DrainFrames` | asterisk-chan-svistok/asterisk-chan-dongle/chan_dongle.c:447-458 | every frame is right before what terminates it |
| `Monitor.NextFrame` | asterisk-chan-svistok/asterisk-chan-dongle/chan_dongle.c:447-449 | one round takes the next frame and its terminator from the ring |
| `Monitor.DrainRing` | asterisk-chan-svistok/asterisk-chan-dongle/chan_dongle.c:447-458 | the inner loop ends and delivers exactly the frames of what was in the ring |
| `Printed.ReportFramed` | asterisk-chan-svistok/asterisk-chan-dongle/at_read.c:174-182 | of a response of many lines as it is printed nothing is delivered until its end is there, and then all its lines at once |
| `Printed.ItemFramed` | asterisk-chan-svistok/asterisk-chan-dongle/at_read.c:152-195 | what is delivered at the front of any part of a printed line, prompt, notice or response of many lines, and when |
| `Streaming.DrainStream` | asterisk-chan-svistok/asterisk-chan-dongle/at_read.c:108-199 | on any part of what is printed — lines, lines with one more break in front, prompts, notices, responses of many lines that do not wrap, text that is no response — that does not end within the bytes that tell an item: the frames of the next items are delivered, each in one piece, and an unfinished part of what is then to come is kept |
| `Streaming.ReadLoop` | asterisk-chan-svistok/asterisk-chan-dongle/chan_dongle.c:440-458 | for any stream, however it is cut into reads: what is discarded, framed and kept is what arrived, in order, and each frame is right before its end; for a stream printed from such items that fit the ring, if no read tears one, or none can be torn: each response comes out in one piece, in order, none is lost, and the ring never overflows |
| `Tearing.DeliveredIffUntorn` | asterisk-chan-svistok/asterisk-chan-dongle/at_read.c:164-168 | a response with one more line break in front that arrives in two reads is delivered iff the first does not end from its second line break on within its header |
| `Tearing.TornExtra` | asterisk-chan-svistok/asterisk-chan-dongle/at_read.c:186-194 | if it does, an empty line is delivered in its place, and the rest goes as text that is no response |
| `Tearing.TornNoise` | asterisk-chan-svistok/asterisk-chan-dongle/at_read.c:140-147 | if a read ends right before the line break after text that is no response, an empty line is delivered in place of the next line |
| `Samples.SumInPlace` | asterisk-chan-svistok/asterisk-chan-dongle/mixbuffer.c:31-41 | the loop adds the data to the cells, sample by sample, in place |
| `Samples.SaturatedSumAt` | asterisk-chan-svistok/asterisk-chan-dongle/mixbuffer.c:31-41 | each sample of the sum is the two samples added and kept in 16 bits |
| `Samples.SplicedSum` | asterisk-chan-svistok/asterisk-chan-dongle/mixbuffer.c:44-66 | as positions are even, summing in two pieces around the wrap is summing at once |
| `MixBuffer.MixedInRing` | asterisk-chan-svistok/asterisk-chan-dongle/mixbuffer.c:44-66 | writing the cells at a stream position is mixing into the logical content at the offset of the stream |
| `MixBuffer.MixBuffer.constructor` | asterisk-chan-svistok/asterisk-chan-dongle/mixbuffer.h:27-32 | no streams, no audio |
| `MixBuffer.MixBuffer.Attach` | asterisk-chan-svistok/asterisk-chan-dongle/mixbuffer.c:14-21 | the stream starts at the read position; the audio and the other streams stay |
| `MixBuffer.MixBuffer.Detach` | asterisk-chan-svistok/asterisk-chan-dongle/mixbuffer.c:24-28 | takes out this stream and keeps the order of the others |
| `MixBuffer.MixBuffer.MixWrite` | asterisk-chan-svistok/asterisk-chan-dongle/mixbuffer.c:44-66 | with its position lent to the ring and taken back, mixes into what is there and leaves the ring where it was |
| `MixBuffer.MixBuffer.Write` | asterisk-chan-svistok/asterisk-chan-dongle/mixbuffer.c:69-99 | takes the smaller of the data and the room of the stream; sums into what is there, appends the rest, changes nothing else; all streams stay aligned |
| `MixBuffer.MixBuffer.ReadUpd` | asterisk-chan-svistok/asterisk-chan-dongle/mixbuffer.c:102-121 | the oldest audio is played; every stream keeps its place, or goes on from the start |
| `MixBuffer.MixBuffer.TimingWrite` | asterisk-chan-svistok/asterisk-chan-dongle/channel.c:457-493 | vectors of the oldest bytes up to 320 and silence up to 320 in all; exactly these bytes are drained |
| `MixBuffer.MixBuffer.ChannelWrite` | asterisk-chan-svistok/asterisk-chan-dongle/channel.c:764-777 | drops just what the frame lacks in room; a frame no longer than the ring is taken whole, and the other streams stay aligned |
| `MixSum.PlaysPlainSum` | asterisk-chan-svistok/asterisk-chan-dongle/mixbuffer.c:69-99 | if no sum on the way overflows, each sample of the audio is the plain sum of what was written to it |
| `MixSum.OrderIndependent` | asterisk-chan-svistok/asterisk-chan-dongle/mixbuffer.c:69-99 | the same writes in another order give the same audio, byte by byte, if no sum on the way overflows |
| `MixOrder.SameIff` | asterisk-chan-svistok/asterisk-chan-dongle/mixbuffer.c:36-38 | at a sample, all orders of the same writes give the same value iff nothing saturates in any of them, or no share is negative, or none is positive |
| `MixOrder.PlaysFold` | asterisk-chan-svistok/asterisk-chan-dongle/mixbuffer.c:69-99 | each sample of the audio is what was there, with the shares of the later writes added one after the other and each sum kept in 16 bits |
| `MixOrder.SameAudioIff` | asterisk-chan-svistok/asterisk-chan-dongle/mixbuffer.c:69-99 | for writes that may come next in any order: all orders play the same audio, byte by byte, iff that condition holds at every sample |
| `MixOrder.OrderNotHeard` | asterisk-chan-svistok/asterisk-chan-dongle/mixbuffer.c:69-99 | any two orders that leave no gap play the same audio if the condition holds at every sample |
| `AtQueue.Contiguous` | asterisk-chan-svistok/asterisk-chan-dongle/at_queue.c:97-281 | what is on the wire of one task is in one piece |
| `AtQueue.InOrder` | asterisk-chan-svistok/asterisk-chan-dongle/at_queue.c:97-281 | commands of a task are written and retired in its order, none is written twice |
| `AtQueue.AnsweredBefore` | asterisk-chan-svistok/asterisk-chan-dongle/at_queue.c:211-231 | a command is dealt with only after every earlier one of its task was retired by the expected response or had IGNORE |
| `AtQueue.NoTextWithoutPrompt` | asterisk-chan-svistok/asterisk-chan-dongle/at_command.c:245-288 | in every run the text of a message is written only right after the prompt retired its first command |
| `AtQueue.EveryRunValid` | asterisk-chan-svistok/asterisk-chan-dongle/at_queue.c:97-345 | in every run of add, write, response, flush and relinking: only the head is begun or written, and both counters count modulo 2^32 |
| `AtQueue.FlushedValid` | asterisk-chan-svistok/asterisk-chan-dongle/at_queue.c:337-345 | flushing ends with an empty queue and both counters at zero |
| `LockSections.HeadWritten` | asterisk-chan-svistok/asterisk-chan-dongle/at_queue.c:239-266 | the last thing on the wire is the command at the head, or it had nothing to write, iff its length is 0 |
| `LockSections.RetiredWrittenIff` | asterisk-chan-svistok/asterisk-chan-dongle/chan_dongle.c:452-456 | in every run of the lock sections of the driver: each command retired was written, or tried, right before, iff every response finds the head of the queue with length 0 |
| `LockSections.SectionSettles` | asterisk-chan-svistok/asterisk-chan-dongle/at_queue.c:239-312 | after a lock section the head has length 0, but for an insertion whose write falls short while tasks are left, or one that does not run and finds it unwritten |
| `LockSections.WholeWritesSuffice` | asterisk-chan-svistok/asterisk-chan-dongle/at_queue.c:239-312 | in every run in which no insertion falls short, each command retired was written right before |
| `LockSections.RetiredUnwritten` | asterisk-chan-svistok/asterisk-chan-dongle/at_command.c:548-597 | a run in which it fails: of a dial that says whether to show the number, the write of `AT+CLIR`, which has IGNORE, falls short, and the response that comes then retires `ATD` unwritten |
| `AtQueue.WriteAll` | asterisk-chan-svistok/asterisk-chan-dongle/at_queue.c:149-174 | stops short only at an error, or after ten calls that took nothing |
| `AtQueue.CommandQueue.Add` | asterisk-chan-svistok/asterisk-chan-dongle/at_queue.c:97-133 | the queue with the task added, unless there are no commands or no memory |
| `AtQueue.RemovedValid` | asterisk-chan-svistok/asterisk-chan-dongle/at_queue.c:62-76 | the queue without its head is sound, whatever was left of the head |
| `AtQueue.CmdRemovedValid` | asterisk-chan-svistok/asterisk-chan-dongle/at_queue.c:211-231 | a response keeps the queue sound: the next command comes to the head only after an expected one, else the next task does |
| `AtQueue.CommandQueue.HandleResult` | asterisk-chan-svistok/asterisk-chan-dongle/at_queue.c:325-329 | the response retires the command at the head, in place, and the queue stays sound |
| `AtQueue.CommandQueue.Run` | asterisk-chan-svistok/asterisk-chan-dongle/at_queue.c:239-281 | writes the head command if it is not on the wire yet; fails iff the write is short, and then the command is retired unanswered; the queue stays sound |
| `AtQueue.CommandQueue.InsertConst` | asterisk-chan-svistok/asterisk-chan-dongle/at_queue.c:289-292 | runs the queue only if the task was added |
| `AtQueue.CommandQueue.InsertTask` | asterisk-chan-svistok/asterisk-chan-dongle/at_queue.c:295-312 | runs the queue in any case |
| `AtQueue.CommandQueue.Relink` | asterisk-chan-svistok/asterisk-chan-dongle/cpvt.c:103-109 | tasks of a freed call go on for the system channel, all else the same |
| `AtQueue.CommandQueue.Flush` | asterisk-chan-svistok/asterisk-chan-dongle/at_queue.c:337-345 | the loop ends with an empty queue |
| `TaskOrder.FirstComeFirstServed` | asterisk-chan-svistok/asterisk-chan-dongle/at_queue.c:97-281 | in every run without priority tasks, commands are written and retired in the order their tasks came |
| `TaskOrder.PlaceOfNew` | asterisk-chan-svistok/asterisk-chan-dongle/at_queue.c:115-119 | a task queued with priority is next after the head, one without it last; all other tasks stay in their order |
| `TaskOrder.PriorityGoesFirst` | asterisk-chan-svistok/asterisk-chan-dongle/at_queue.c:97-281 | in every run, whatever happens later: no command of a task that waited behind the head when a task came with priority is written or retired while that task is queued, nor any of the new task after it; a task without priority comes after all that were there in the same way |
| `TaskOrder.FlushedOrRelinked` | asterisk-chan-svistok/asterisk-chan-dongle/at_queue.c:337-345 | a flush leaves no task and both counters at zero, relinking no task of the call, and neither writes anything |
| `TaskOrder.TaskComesThrough` | asterisk-chan-svistok/asterisk-chan-dongle/at_queue.c:211-281 | written whole and answered as expected, a task puts all its commands on the wire in order, and the next task is at the head |
| `Calls.AllocTable` | asterisk-chan-svistok/asterisk-chan-dongle/cpvt.c:44-79 | a new call keeps the table in order |
| `Calls.FreedTable` | asterisk-chan-svistok/asterisk-chan-dongle/cpvt.c:82-120 | freeing a call leaves no task and no last dialed call that refers to it, and the counters right |
| `Calls.StateChangedTable` | asterisk-chan-svistok/asterisk-chan-dongle/channel.c:926-1038 | any change of state keeps the table; a release takes out one call |
| `Calls.StateChangedEffect` | asterisk-chan-svistok/asterisk-chan-dongle/channel.c:926-1018 | the call is in the new state; the others keep all but the mastership |
| `Calls.StateHeard` | asterisk-chan-svistok/asterisk-chan-dongle/channel.c:979-1036 | with the port open, a call that has a channel: dialing, alerting or active it is the one master, activated and mixed; put on hold it is none of these; released it is gone with its stream; any other state changes nothing else |
| `Calls.StateUnheard` | asterisk-chan-svistok/asterisk-chan-dongle/channel.c:971-977 | without a channel only the state changes, and a released call goes |
| `Calls.ReleasedGone` | asterisk-chan-svistok/asterisk-chan-dongle/channel.c:1020-1033 | a released call is gone, the others stay as they are |
| `Calls.ActivatedAudio` | asterisk-chan-svistok/asterisk-chan-dongle/channel.c:237-294 | activating keeps the audio in order iff the port is open or the call was activated before |
| `Calls.ActivatedIsMaster` | asterisk-chan-svistok/asterisk-chan-dongle/channel.c:237-294 | with the port open the call is the one master; the others keep everything else |
| `Calls.DisactivatedAudio` | asterisk-chan-svistok/asterisk-chan-dongle/channel.c:223-234 | takes the stream out of the mixer and both flags from the call |
| `Calls.FreedAudio` | asterisk-chan-svistok/asterisk-chan-dongle/cpvt.c:82-120 | freeing a call that is not activated leaves no stream of it in the mixer |
| `Calls.AllocAudio` | asterisk-chan-svistok/asterisk-chan-dongle/cpvt.c:63-67 | a new call keeps the audio in order, though the first one sets up the mixer anew |
| `Handlers.Find` | asterisk-chan-svistok/asterisk-chan-dongle/cpvt.c:123-132 | the first call of the list with the index |
| `Requests.CreatedCall` | asterisk-chan-svistok/asterisk-chan-dongle/channel.c:1061-1117 | a call with a channel is the last in the list, to be hung up iff it came from outside; without one the list is as it was |
| `Requests.DialedCalls` | asterisk-chan-svistok/asterisk-chan-dongle/at_command.c:548-597 | dialing notes hold and conference of the dial string, and that the call is to be hung up, for this call only |
| `Requests.DialedAsks` | asterisk-chan-svistok/asterisk-chan-dongle/at_command.c:548-592 | it asks for the commands of the dial, for its call, before everything that waits behind the head |
| `Requests.HungUpAsks` | asterisk-chan-svistok/asterisk-chan-dongle/channel.c:311-318 | hanging up asks for the hangup and the list of calls, before everything that waits behind the head, iff the call needs it |
| `Requests.TaskLost` | asterisk-chan-svistok/asterisk-chan-dongle/at_queue.c:295-312 | without memory the task is lost, but the command at the head is written all the same; an insertion of constants does nothing |
| `Requests.CendAsks` | asterisk-chan-svistok/asterisk-chan-dongle/at_response.c:719-756 | `^CEND` asks for the list of calls in the same way, in a task of the system |
| `Requests.OrigAsks` | asterisk-chan-svistok/asterisk-chan-dongle/at_response.c:610-660 | `^ORIG` of a voice call with an index in range asks for the volume, if that is to be set, and then for the list of calls; any other asks for nothing |
| `Requests.ConnAsks` | asterisk-chan-svistok/asterisk-chan-dongle/at_response.c:788-833 | `^CONN` asks for the list of calls, and for the hangup of a voice call that is not known, or to join a conference |
| `Requests.ClccTells` | asterisk-chan-svistok/asterisk-chan-dongle/at_response.c:901-928 | a line of the list of calls brings the first call with its index to its state, if the direction is the same, and changes nothing else |
| `Requests.FreedTasks` | asterisk-chan-svistok/asterisk-chan-dongle/cpvt.c:103-109 | the tasks of a call that is freed are the system's; those of others, and all else about them, stay |
| `HangupFlag.StepNeeds` | asterisk-chan-svistok/asterisk-chan-dongle/at_response.c:208-244 | what makes that a call is to be hung up, and what ends it, exactly |
| `HangupFlag.NeedsIff` | asterisk-chan-svistok/asterisk-chan-dongle/channel.c:297-334 | in every run, a call is to be hung up iff it came from outside or was dialed, or the modem agreed to dial, answer or take it, and since then its hangup was not queued, nor agreed to, nor is the call gone |
| `Handlers.CreatedSound` | asterisk-chan-svistok/asterisk-chan-dongle/channel.c:1061-1117 | a call that gets no channel is freed again; table and audio stay in order |
| `Handlers.DialedSound` | asterisk-chan-svistok/asterisk-chan-dongle/channel.c:151-220 | dialing keeps table and audio in order |
| `Handlers.HungUpSound` | asterisk-chan-svistok/asterisk-chan-dongle/channel.c:297-334 | hanging up keeps table and audio in order |
| `Handlers.OkReceivedSound` | asterisk-chan-svistok/asterisk-chan-dongle/at_response.c:112-308 | so does OK, which sets the last dialed call and the hangup flags |
| `Handlers.AnsweredSound` | asterisk-chan-svistok/asterisk-chan-dongle/at_response.c:317-542 | and so does any other response that moves the queue |
| `Handlers.OrigReceivedSound` | asterisk-chan-svistok/asterisk-chan-dongle/at_response.c:610-670 | and `^ORIG` |
| `Handlers.CendReceivedSound` | asterisk-chan-svistok/asterisk-chan-dongle/at_response.c:719-756 | and `^CEND` |
| `Handlers.ConnReceivedSound` | asterisk-chan-svistok/asterisk-chan-dongle/at_response.c:788-833 | and `^CONN` |
| `CallStories.OkForDial` | asterisk-chan-svistok/asterisk-chan-dongle/at_response.c:208-222 | OK to the dial command makes its call the last dialed one, to be hung up later |
| `CallStories.OrigNamesCall` | asterisk-chan-svistok/asterisk-chan-dongle/at_response.c:610-670 | the last dialed call gets the index of the modem and is dialing; if it has a channel and was not dialing it is now the audio master, and if it was dialing its part in the audio stays |
| `CallStories.ConnAnswers` | asterisk-chan-svistok/asterisk-chan-dongle/at_response.c:788-824 | the call with the index is active; if it has a channel and was not active it is now the only master, and if it was active no call changes |
| `CallStories.CendEnds` | asterisk-chan-svistok/asterisk-chan-dongle/at_response.c:719-756 | the first call with the index is gone and no other call changes |
| `CallStories.HungUpIsQuiet` | asterisk-chan-svistok/asterisk-chan-dongle/channel.c:297-334 | a call hung up has no channel and no stream in the mixer, stays listed, and the others stay as they are |
| `CallNaming.HungUpNamedIff` | asterisk-chan-svistok/asterisk-chan-dongle/channel.c:297-334 | a call hung up can be the one that a later `^ORIG` is taken to be about, in some run, iff it is still the last one dialed or a dial command of it is in the queue; with the head on the wire, that command is there iff it was before the hangup |
| `CallNaming.NamedIff` | asterisk-chan-svistok/asterisk-chan-dongle/at_response.c:208-211 | the same for any call without channel: no run names it unless it is the last one dialed or its dial is pending, and then one does, in which each command is written and answered as expected |
| `CallNaming.LastDialedIff` | asterisk-chan-svistok/asterisk-chan-dongle/at_response.c:208-211 | over runs: a call is the last one dialed iff `OK` came to its dial command, or it was so at the start, and nothing since made the device forget it: `OK` to the dial of another call, a hangup of a call in state INIT, `^ORIG`, a disconnect, or its own end |
| `CallNaming.StepDialed` | asterisk-chan-svistok/asterisk-chan-dongle/at_command.c:853-857 | the same for one step |
| `CallNaming.HungUpIsNamed` | asterisk-chan-svistok/asterisk-chan-dongle/at_command.c:548-597 | a run from the start of a device, with the task the driver queues for a dial: dialed, hung up, then `OK` and `^ORIG`: the call has the index of the modem and is dialing |
| `DeviceRuns.EveryRunSound` | asterisk-chan-svistok/asterisk-chan-dongle/cpvt.c:44-120 | in every run: calls are told apart, no reference dangles, counters count modulo their width, no listed call is released, the queue is sound, one master at most, masters are activated, activated calls have a channel, and the linked streams are exactly theirs |
| `CallAudio.StateTellsAudio` | asterisk-chan-svistok/asterisk-chan-dongle/channel.c:926-1038 | in every run: a call that has a channel and is dialing, alerting or active is in the mixer; one on hold, not yet begun, or without a channel is not, and is not the master |
| `CallAudio.EventsTakeEffect` | asterisk-chan-svistok/asterisk-chan-dongle/at_response.c:788-928 | a step of a run does it: the call of `^CONN` is active, the one of a line of the list of calls is in its state, and what is queued is queued |
| `DeviceRuns.NoDanglingCalls` | asterisk-chan-svistok/asterisk-chan-dongle/cpvt.c:103-112 | in every run each task and the last dialed call refer to a listed call or none |
| `DeviceRuns.HangupAllSound` | asterisk-chan-svistok/asterisk-chan-dongle/chan_dongle.c:258-264 | the loop over the calls empties the list |
| `DeviceRuns.DisconnectedEmpty` | asterisk-chan-svistok/asterisk-chan-dongle/chan_dongle.c:250-277 | disconnecting leaves no call, no task, no stream, no last dialed call, and all these counters at zero |
| `DeviceRuns.StreamLeftBehind` | asterisk-chan-svistok/asterisk-chan-dongle/channel.c:270-279 | a call activated with the port closed would leave its stream in the mixer when it is released; no run comes to this |
| `Pvt.DevicePvt.CpvtFree` | asterisk-chan-svistok/asterisk-chan-dongle/cpvt.c:82-120 | the new state is that of `Calls.Freed`, for which `FreedTable` and `FreedAudio` hold; the table stays in order |
| `Pvt.DevicePvt.FindCpvt` | asterisk-chan-svistok/asterisk-chan-dongle/cpvt.c:123-132 | the loop finds the first call with the index |
| `Pvt.DevicePvt.DisactivateCall` | asterisk-chan-svistok/asterisk-chan-dongle/channel.c:223-234 | the new state is that of `Calls.Disactivated`, for which `DisactivatedAudio` holds; the table stays in order |
| `Pvt.DevicePvt.ActivateCall` | asterisk-chan-svistok/asterisk-chan-dongle/channel.c:237-294 | the loop over the other calls ends in the state of `Calls.Activated`, for which `ActivatedAudio` and `ActivatedIsMaster` hold; the table stays in order |
| `Pvt.DevicePvt.ChangeState` | asterisk-chan-svistok/asterisk-chan-dongle/channel.c:926-1038 | the new state is that of `Calls.StateChanged`, for which `StateHeard`, `StateUnheard` and `ReleasedGone` hold; a call that talks is the master and mixed, one put on hold or released is not; the table stays in order |
| `Pvt.DevicePvt.DisconnectDongle` | asterisk-chan-svistok/asterisk-chan-dongle/chan_dongle.c:250-277 | the loop over a list that shrinks ends, in the state of `Handlers.Disconnected`, for which `DisconnectedEmpty` holds |
| `Hex.OctetsOfHexText` | asterisk-chan-svistok/asterisk-chan-dongle/char_conv.c:66-118 | octets written as text are read again |
| `Hex.HexTextOfOctets` | asterisk-chan-svistok/asterisk-chan-dongle/char_conv.c:66-118 | text read as octets is written again, in upper case |
| `Hex.OctetsIff` | asterisk-chan-svistok/asterisk-chan-dongle/char_conv.c:66-96 | text is read iff it is all digits, but for an odd character at the end |
| `Hex.DigitValue` | asterisk-chan-svistok/asterisk-chan-dongle/char_conv.c:55-64 | the digits by their values: upper case written, either case read |
| `Hex.Chars8bitToHexstr` | asterisk-chan-svistok/asterisk-chan-dongle/char_conv.c:98-118 | the loop writes the text, if there is room; it stays in the buffer, unless the size given is 0 and the check wraps around |
| `Hex.HexstrTo8bitChars` | asterisk-chan-svistok/asterisk-chan-dongle/char_conv.c:66-96 | the loop reads the octets; an odd length, no room and a bad digit are errors; it stays in the buffer, unless the size given is 0 |
| `Septets.PackDenotes` | asterisk-chan-svistok/asterisk-chan-dongle/char_conv.c:162-207 | packed octets in base 256 are the number the septets are in base 128 |
| `Septets.PackLength` | asterisk-chan-svistok/asterisk-chan-dongle/char_conv.c:162-207 | as many octets as 7 bits each need, and one more iff the length is a positive multiple of 8 |
| `Septets.UnpackedDenotes` | asterisk-chan-svistok/asterisk-chan-dongle/char_conv.c:209-252 | unpacked septets are the number of the octets, less what does not fill another septet |
| `Septets.UnpackedLength` | asterisk-chan-svistok/asterisk-chan-dongle/char_conv.c:219-224 | the number of septets is what the check for room assumes |
| `Septets.RoundTrip` | asterisk-chan-svistok/asterisk-chan-dongle/char_conv.c:162-252 | decoding gives the septets back, and one NUL iff there are any and their number is 0 or 7 modulo 8 |
| `Septets.StringRoundTrip` | asterisk-chan-svistok/asterisk-chan-dongle/char_conv.c:162-252 | on C strings decoding undoes encoding |
| `Septets.CodecRoundTrip` | asterisk-chan-svistok/asterisk-chan-dongle/char_conv.c:162-252 | the same through the hexadecimal text |
| `Septets.DecodedNumbers` | asterisk-chan-svistok/asterisk-chan-dongle/char_conv.c:227-246 | decoding gives the septets of the numbers read two characters at a time, and is an error iff there is none in some two |
| `Septets.ScanIs` | asterisk-chan-svistok/asterisk-chan-dongle/char_conv.c:229 | what `sscanf` reads of two characters: which of them make a number, and which one |
| `Septets.CharToHexstr7bit` | asterisk-chan-svistok/asterisk-chan-dongle/char_conv.c:162-207 | the loop writes the text of the packed octets and a NUL; what it writes stays in the buffer iff the length is no positive multiple of 8 or there is room to spare, and never if the size given is 0 and the check wraps around |
| `Septets.RoomExact` | asterisk-chan-svistok/asterisk-chan-dongle/char_conv.c:172-176 | the same condition for the packed octets: once the check is passed they fit iff not (length a positive multiple of 8, and no more room than two characters above what the check asks for) |
| `Septets.RoomTooSmall` | asterisk-chan-svistok/asterisk-chan-dongle/char_conv.c:172-176 | an instance: eight septets, fifteen characters of room, seventeen written |
| `Septets.Hexstr7bitToChar` | asterisk-chan-svistok/asterisk-chan-dongle/char_conv.c:209-252 | the loop reads the septets, or fails where `sscanf` does; it stays in the buffer, unless the size given is 0 |
| `Validity.AdjointExactly` | asterisk-chan-svistok/asterisk-chan-dongle/pdu.c:359-381 | codes compare as the periods they stand for, for every code iff the time is at most 635040 minutes |
| `Validity.ShortestPeriod` | asterisk-chan-svistok/asterisk-chan-dongle/pdu.c:359-381 | the code is in range iff there is a minute at least, and is that of the shortest period that is long enough |
| `Validity.MonotoneAndExact` | asterisk-chan-svistok/asterisk-chan-dongle/pdu.c:359-381 | longer times never get smaller codes; a representable time gets its own code |
| `Pdu.StoredDigits` | asterisk-chan-svistok/asterisk-chan-dongle/pdu.c:415-478 | a stored number is read again up to the case of letters iff it is all digits, and is an error otherwise |
| `Pdu.StoredAt` | asterisk-chan-svistok/asterisk-chan-dongle/pdu.c:275-317 | each digit is stored as its value in the table of the standard, the two of an octet swapped, an odd one beside the filler |
| `Pdu.DigitsDecided` | asterisk-chan-svistok/asterisk-chan-dongle/pdu.c:458-470 | any text is read as a number iff it is digits, but for a filler as the last semi-octet of an odd one, and what is read are these digits |
| `Pdu.CodeMeans` | asterisk-chan-svistok/asterisk-chan-dongle/pdu.c:315-352 | which digit each semi-octet stands for |
| `Pdu.StoreNumber` | asterisk-chan-svistok/asterisk-chan-dongle/pdu.c:415-431 | the loop swaps pairs of digits and fills an odd one |
| `Pdu.ReadDigits` | asterisk-chan-svistok/asterisk-chan-dongle/pdu.c:458-470 | the loop reads the pairs, and a filler only at the end of an odd number |
| `Pdu.NumberFits` | asterisk-chan-svistok/asterisk-chan-dongle/pdu.c:445-472 | a number read takes one place more than its digits, and one more for `+`; it fits the room that is checked for iff not (international, and room for the digits and the NUL only) |
| `Pdu.DecidesOctets` | asterisk-chan-svistok/asterisk-chan-dongle/pdu.c:667-822 | what becomes of any octets, by their values: the type, the address, the protocol, the coding group, the length and the header decide in this order whether they are refused and why; else address, alphabet and the text behind the header are read |
| `Pdu.ParsesPrinted` | asterisk-chan-svistok/asterisk-chan-dongle/pdu.c:667-822 | every SMS-DELIVER printed from its fields is read: its address, with `+` iff the number is international in the telephone plan, the alphabet it was printed in, and the text behind its header |
| `Pdu.CutIsRefused` | asterisk-chan-svistok/asterisk-chan-dongle/pdu.c:677-816 | cut after any octet, it is refused for the field that is missing |
| `Pdu.LengthMustFit` | asterisk-chan-svistok/asterisk-chan-dongle/pdu.c:672-676 | text of another length than announced is refused, and text that ends within the address of the service centre |
| `Pdu.DataOctetsIsCeiling` | asterisk-chan-svistok/asterisk-chan-dongle/pdu.c:723-724 | the length formula for septets is 7 bits each, rounded up to octets |
| `Pdu.PackedFits` | asterisk-chan-svistok/asterisk-chan-dongle/pdu.c:723-725 | user data from the 7-bit codec has that length iff its septets are not a positive multiple of 8 |
| `Restart.EveryRunSafe` | asterisk-chan-svistok/asterisk-chan-dongle/chan_dongle.c:628-662 | in every run, a stop that is due after a patient request finds the device idle |
| `Restart.DueWhenIdle` | asterisk-chan-svistok/asterisk-chan-dongle/chan_dongle.c:1437-1443 | in every run: a device that is up and free, and of which something else is wanted, can be stopped by discovery as soon as it has nothing to do, but for one case: a start has just succeeded in which a request came to stop at a good time |
| `Restart.CarriedOut` | asterisk-chan-svistok/asterisk-chan-dongle/chan_dongle.c:642-659 | what comes of a stop: a restart ends with the device up, whatever was asked for while it went down, a removal with its mark set, a stop with a device that waits for the next request |
| `Restart.RequestTakenUp` | asterisk-chan-svistok/asterisk-chan-dongle/helpers.c:191-217 | a request that is to be met at once, or finds nothing to do, lets discovery stop or start the device |
| `Restart.CallsCounted` | asterisk-chan-svistok/asterisk-chan-dongle/cpvt.c:82-120 | in every run the calls are those that came less those that went since the device was up last, and the mark for removal is there iff a stop for that was done |
| `Restart.GracefulIsGraceful` | asterisk-chan-svistok/asterisk-chan-dongle/chan_dongle.c:642-659 | asked to stop gracefully or when convenient, discovery decides to stop a device only without calls and without flagged messages, in every run |
| `Restart.GoesDownIdle` | asterisk-chan-svistok/asterisk-chan-dongle/chan_dongle.c:502-504 | and the device goes down so, unless a request in between opened it |
| `Restart.WorkOnlyIfOpened` | asterisk-chan-svistok/asterisk-chan-dongle/chan_dongle.c:502-504 | while discovery waits for it, a device takes a call or a message only if a request since then opened it: to have it started, or to wait for a convenient time while it has something to do |
| `Restart.RequestInBetween` | asterisk-chan-svistok/asterisk-chan-dongle/helpers.c:191-217 | on a device that is up, a request lets in a call or a message iff it is such a one; the call is then lost when the monitor ends |
| `Restart.MessageLostIff` | asterisk-chan-svistok/asterisk-chan-dongle/at_response.c:1144-1198 | in every run: discovery decides on a graceful stop while messages are on their way iff the flag was lost before (one of several messages was read, or it was cleared while one was on its way) and since then no message came, the device did not go down, and the last message on its way was not dealt with |
| `Restart.UntrackedIff` | asterisk-chan-svistok/asterisk-chan-dongle/at_response.c:486-490 | the same condition at every moment of every run for messages on their way without the flag |
| `Restart.NoMessageLost` | asterisk-chan-svistok/asterisk-chan-dongle/at_response.c:1144-1153 | so with messages one at a time, a graceful stop finds none on its way |
| `Restart.LostRun` | asterisk-chan-svistok/asterisk-chan-dongle/at_response.c:1194-1198 | a run from the start in which one is lost: two messages, a graceful restart, one message read |
| `Restart.SecondMessageLost` | asterisk-chan-svistok/asterisk-chan-dongle/at_response.c:1194-1198 | an instance from any idle state: a message comes, a graceful restart is asked for, a message is read: the flag is lost, and the device stopped with a message unread, iff one was on its way before |
| `Restart.ClearedMessageLost` | asterisk-chan-svistok/asterisk-chan-dongle/at_response.c:486-490 | the same when a failed deletion, or a message read by the user, clears the flag |
| `Restart.StartedAgain` | asterisk-chan-svistok/asterisk-chan-dongle/chan_dongle.c:642-652 | a device that is to be up and drops off is started again by discovery iff the time set for changes is now |
| `Restart.NotStartedAgain` | asterisk-chan-svistok/asterisk-chan-dongle/helpers.c:198-201 | in every run, when it is not, the next thing to happen to the device is a request |
| `Restart.RestartAfterDrop` | asterisk-chan-svistok/asterisk-chan-dongle/chan_dongle.c:250-277 | a device that drops off while a restart or removal is wanted goes on with it iff it was due, or has calls and no message flagged; else nothing happens until the next request |
| `Restart.DevicePvt.Disconnect` | asterisk-chan-svistok/asterisk-chan-dongle/chan_dongle.c:250-326 | the last call freed may make it time to restate, before the flags are cleared; what is safe stays so |
| `RoundRobin.NextInTurn` | asterisk-chan-svistok/asterisk-chan-dongle/chan_dongle.c:998-1016 | finds a member iff one can be used, and then the first in cyclic order after the last used |
| `RoundRobin.HandsOver` | asterisk-chan-svistok/asterisk-chan-dongle/chan_dongle.c:980-1010 | the marks hand the place over: after a search that found a device, the next one starts after that device |
| `RoundRobin.EveryoneHasATurn` | asterisk-chan-svistok/asterisk-chan-dongle/chan_dongle.c:963-1020 | in every run of searches over the marks, between which devices get busy and free: before a device is found again, every other member that could be used all the time is found |
| `RoundRobin.EachOnce` | asterisk-chan-svistok/asterisk-chan-dongle/chan_dongle.c:963-1020 | in every such run, whatever was marked before: as many searches as members, all of them usable, find each member exactly once |
| `RoundRobin.Collect` | asterisk-chan-svistok/asterisk-chan-dongle/chan_dongle.c:972-995 | the members, up to 128, and the last marked; their marks go, others stay |
| `RoundRobin.SearchInTurn` | asterisk-chan-svistok/asterisk-chan-dongle/chan_dongle.c:998-1016 | the loop goes once around |
| `RoundRobin.FindInTurn` | asterisk-chan-svistok/asterisk-chan-dongle/chan_dongle.c:963-1020 | returns the member found and marks it |
| `RoundRobin.NoMarkStartsSecond` | asterisk-chan-svistok/asterisk-chan-dongle/chan_dongle.c:973 | with no mark left the search finds the first usable member from the second on, and the first member iff no other can be used |
| `ResponseSlot.Append` | src/simbox_modem.c:417-437 | in place: what fits of the text, CR LF if there is text, and the stripped line, with NUL behind |
| `ResponseSlot.EveryRunSound` | src/simbox_modem.c:398-508 | in every interleaving one caller at most is in the slot; its buffer is what fits of the lines captured for it, and the flags are about these lines |
| `ResponseSlot.OnlyOwnersBuffer` | src/simbox_modem.c:410-437 | no step writes to a buffer whose caller is not in the slot |
| `ResponseSlot.LeavesWithAnswer` | src/simbox_modem.c:495-506 | a caller returns the result of the last line that ended an answer, or -1, with the lines in its buffer |
| `ResponseSlot.AnswerOfCall` | src/simbox_modem.c:462-508 | in every run, whatever other callers do: a caller that got the slot and leaves it returns the result of the last line that ended an answer among those that came in between, and has what fits of all of them |
| `ResponseSlot.OutcomeIs` | src/simbox_modem.c:439-448 | that result is 0 for `OK` and -1 for an error, of the last such line, and -1 if there was none |
| `ResponseSlot.TerminalIs` | src/simbox_modem.c:439-444 | which lines end an answer, by their texts, whatever line breaks follow |
| `ResponseSlot.StrippedIs` | src/simbox_modem.c:422-425 | CR and LF at the end of a line are cut off, and nothing else |
| `ResponseSlot.LinesJoined` | src/simbox_modem.c:426-437 | the lines are put together in order with CR LF between, from the first that is not empty on |
| `ResponseSlot.Acquires` | src/simbox_modem.c:469-481 | a caller gets the slot iff no other is inside, and is turned away with -1 and nothing changed if one is |
| `ResponseSlot.MayAsk` | src/simbox_modem.c:451-456 | a caller may ask iff it is not inside and its buffer has a size |
| `ResponseSlot.EnqueueFails` | src/simbox_modem.c:483-491 | a caller whose command was not queued returns the error and leaves the slot free |
| `ResponseSlot.LeavesWhenAnswered` | src/simbox_modem.c:493-506 | a waiting caller can leave before its time is up iff a line that ends an answer has come |
| `SmsBridge.MessageComesThrough` | adapters/src/shim_manager.c:46-79 | for any message, the parser gives the lines the printer was given, without empty ones and leading spaces, joined by newlines |
| `SmsBridge.TokensParted` | asterisk-chan-svistok/asterisk-chan-dongle/manager.c:412-421 | a message is parted at each CR and each LF |
| `SmsBridge.NonEmptyIs` | asterisk-chan-svistok/asterisk-chan-dongle/manager.c:414-421 | empty texts are left out, and no others |
| `SmsBridge.MessageIsColumn` | adapters/src/shim_manager.c:46-79 | what comes out, written out: the texts without their leading spaces, with newlines between, from the first that is not empty on |
| `SmsBridge.OtherLines` | adapters/src/shim_manager.c:58-64 | lines without the label, without a colon, or with nothing between the two are not of the message |
| `SmsBridge.PrintedRead` | asterisk-chan-svistok/asterisk-chan-dongle/manager.c:414-421 | each printed line is read as one line of the message |
| `SmsBridge.MessageFits` | adapters/src/shim_manager.c:54-75 | for any payload the text and its NUL fit the memory allocated |
| `SmsBridge.MessageLines` | adapters/src/shim_manager.c:46-79 | the loop fills the buffer within its bounds |
| `SmsBridge.HeadersComeThrough` | adapters/src/shim_manager.c:16-44 | device and sender come through, without leading spaces and cut to the buffer |
| `SmsBridge.HeaderLine` | adapters/src/shim_manager.c:16-44 | a header is read from a line that is its name, a colon and one character at least |
| `SmsBridge.NoHeaderLine` | adapters/src/shim_manager.c:16-44 | and from no other |
| `SmsBridge.CutFits` | adapters/src/shim_manager.c:34-38 | what is copied leaves room for the NUL, and is as much as does |
| `ImsiScan.HandleCimi` | asterisk-chan-svistok/asterisk-chan-dongle/pdiscovery.c:449-507 | for every text: the first line of 15 digits between line breaks that comes behind an odd number of CRs, and none iff there is none; the text is as it was |
| `ImsiScan.NextTracks` | asterisk-chan-svistok/asterisk-chan-dongle/pdiscovery.c:460-504 | the state of the automaton tells just which such line is being read, for every text |
| `ImsiScan.RegularSeen` | asterisk-chan-svistok/asterisk-chan-dongle/pdiscovery.c:460-504 | with CR in line breaks only, these are all the lines of 15 digits |
| `ImsiScan.CanMiss` | asterisk-chan-svistok/asterisk-chan-dongle/pdiscovery.c:466-471 | a line behind `n` CRs and a line feed is seen iff `n` is odd |

## Left out

- RingBuffer.RingBuffer.ReadUntilMem: states what the source finds, defect included; that it is the first occurrence holds under the conditions of `FindAcrossExact` and `FindAcrossNowhereSimilar` only.
- Streaming.DrainStream: for texts without CR, the prompt, the notice of eight characters, and responses of many lines that lie before the wrap of the ring; across the wrap these are framed under the conditions of `OkTailExact` only.
- AtQueue.EveryRunValid: `at_hangup_immediality` writes to the modem past the queue when a device disconnects, and is not on the log.
- LockSections.RetiredWrittenIff: for tasks whose commands all have something to write, as all have that the driver queues; a failed write counts as tried.
- DeviceRuns.EveryRunSound: events of the modem happen only while its ports are open, as the monitor thread runs only then; dialing and hanging up are asked for by the channel a call has, and only `at_enque_dial` dials; the number of calls stays below 2^32, as memory does not hold more.
- Restart.GracefulIsGraceful: `pvt_reconfigure` and `reload_config` are not among the requests, and the adapter's direct allocation of a call is not among the ways to get one.
- HangupFlag.NeedsIff: `at_response_busy`, which raises the flag of the call dialed last, is not among the steps.
- Restart.CallsCounted: a device marked for removal is taken off the list by the same round; here it may go on.
- Septets.Hexstr7bitToChar: `sscanf` of two characters is as the C standard has it; a lone `0x` is no number.
- Pdu.DecidesOctets: the position at which an error is reported is not modelled.
- Which of the two hangup commands `at_enque_hangup` sends is a parameter of the steps that use it.
- The handlers `at_response_ok` and so on are functions on the state of a device; only the operations of cpvt.c and channel.c they are made of are also methods on a record. Aliasing between records of calls is thereby not modelled.
- The mixer of a device is its list of linked streams in `Calls`; what is in the ring is in `MixBuffer`.
- The flags of a call that only say how it is listed or bridged, and the device flags `ring`, `dialing`, `cwaiting`: nothing proved depends on them.
- File descriptors of channels in `activate_call`: it tests the flags of the new call where it means the other.
- `at_response_busy`: it assumes a queue that is not empty. The tail of `at_response_clcc` after its loop is not reached.
- `iov_write`: a short write does not advance the base pointer, so nothing is said of the bytes that reach the audio port.
- Timeouts of commands, `pdu_build`, iconv, serial ports, locks on files, threads, logging, CLI and manager registration, configuration, the G.711 tables, INI parsing, and the stubs of the reader, programmer and discovery.
