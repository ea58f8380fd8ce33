# libgpiod examples, modelled in Dafny

The repository holds four small C++ programs that drive GPIO lines of a
Raspberry Pi through libgpiod v2:

- `input_events` asks the kernel for debounced edge events on GPIO23 and
  GPIO24. It prints one line per event and a blank line after each batch
  read.
- `input_simple` polls the same two pins. It prints a line for each pin
  whose level changed since the last sample.
- `output_simple` drives GPIO23 and GPIO24 as a two-bit counter. GPIO23 is
  the low bit.
- `output1_simple` toggles GPIO23 and closes the chip as soon as the line
  is requested.

Each program runs until ctrl-c. It then releases what it holds and returns
0. Every failed `assert` aborts it on the spot.

The model has eight modules, one file each:

- `Gpiod` (gpiod.dfy) is the library as the programs see it.
  - Its value types mirror libgpiod's enums and structs: line values, edge
    events, line settings and line configurations.
  - The class `Controller` stands for the chip and the request. Each
    library call is a method of it. The method appends a `Call` to a ghost
    `trace` and answers from a script fixed in advance:
    - the results of the edge-event waits;
    - the batches of queued events;
    - the samples `get_values` returns.
  - Opening the chip and granting the request are fixed flags.
  - The class `EdgeEventBuffer` is the fixed-capacity event buffer. It is
    an `array` that every read overwrites from index 0.
- `Process` (process.dfy) holds three things:
  - `Console`: standard output, a sequence of lines that only grows.
  - `Interrupt`: the `quitting` flag that ctrl-c sets. The moment the
    operator presses ctrl-c is a count of the flag checks that still read
    false.
  - `Exit`: how `main` ends, by returning a status or by a failed
    `assert`.
- `Decimal` (decimal.dfy) models printf. Its parts:
  - the decimal text of `%u`/`%lu`/`PRIu64` conversions;
  - a printf call as a format with its arguments filled in;
  - a scanner that reads such text back.
  It proves that every printf line whose numbers are separated by literal
  text scans back to its arguments. Every line the programs print is such a
  line or the blank line: the reminder (`ReminderRoundTrip`), the event
  lines (`EventLineRoundTrip`) and the change lines (`ChangeLineRoundTrip`).
- `Seqs` (seqs.dfy) holds two facts about sequence concatenation that the
  proofs use throughout.
- `InputEvents`, `InputSimple`, `OutputSimple` and `Output1Simple` follow
  the library calls and the control flow of the four `main` functions, as
  imperative methods with loop invariants. Each `main` is proved against specification
  functions of the whole session:
  - the exact sequence of library calls;
  - everything printed;
  - the exit status.
  Lemmas beside those functions state what the programs promise: the form
  of each output line and what a reader recovers from it, the counter
  encoding and the toggle order, and that teardown happens exactly once,
  in order.

## Model

| member | source | states |
|---|---|---|
| Decimal.Dec | input_events.cpp:172-175 | the decimal text of a number is non-empty and all digits, and starts with '0' only for 0 |
| Decimal.ValueOfDec | input_events.cpp:172-175 | the digits printed for n denote n |
| Decimal.TakeNat | input_simple.cpp:147 | scanning a number succeeds exactly when the text starts with a digit, consumes a non-empty prefix and stops before a non-digit |
| Decimal.Expect | input_events.cpp:172 | stripping literal format text succeeds exactly when the text starts with it, and leaves what follows |
| Decimal.TakeNatDec | input_events.cpp:172-175 | a printed number followed by a non-digit scans back to that number and leaves the rest |
| Decimal.ScanFormat | input_events.cpp:172-173 | a successful scan yields one number per conversion of the format |
| Decimal.ScanRender | input_events.cpp:172-177 | every printf line whose numbers are separated by non-digit text scans back, against its own format, to its arguments |
| Decimal.Render | input_events.cpp:172-177 | the text a printf call writes: its literal pieces and the decimal text of its numbers, in order; `ScanRender` states that it scans back to the call's arguments |
| Gpiod.Controller.OpenChip | input_events.cpp:91 | gpiod_chip_open succeeds exactly when the chip is present, and is recorded in the trace |
| Gpiod.Controller.RequestLines | input_events.cpp:116 | gpiod_chip_request_lines is granted or refused as scripted, and is recorded with its consumer and configuration |
| Gpiod.Controller.WaitEdgeEvents | input_events.cpp:151 | the wait returns the next scripted result; with none left it returns -1 with errno EINTR, as a wait cut short by ctrl-c |
| Gpiod.Controller.ReadEdgeEvents | input_events.cpp:159 | a read takes at most max_events queued events of the next batch (`Taken`), writes them from index 0 and returns their number; the rest stays queued (`Left`); a missing or empty head batch in the script stands for a failed read, which returns -1 and leaves the queue as it was |
| Gpiod.Taken | input_events.cpp:159 | what one read takes off the queue: the head batch cut to max_events, nothing when the head is missing or empty; `ReadEdgeEvents` states that this is what the buffer receives |
| Gpiod.Left | input_events.cpp:159 | the queue after one read: the uncopied rest of the head batch stays first, an empty read changes nothing; `ReadEdgeEvents` states that this is the new queue |
| Gpiod.Controller.GetValues | input_simple.cpp:135-141 | get_values returns 0 and fills the array with the next scripted sample when it has the right width, and otherwise returns -1 and leaves the array alone |
| Gpiod.Controller.SetValues | output_simple.cpp:150 | set_values is recorded with the levels written |
| Gpiod.Controller.SetValue | output1_simple.cpp:134 | set_value is recorded with the offset and level written |
| Gpiod.Controller.Release | input_events.cpp:184 | releasing the request is recorded and the request is no longer held |
| Gpiod.Controller.CloseChip | input_events.cpp:187 | closing the chip is recorded and the chip is no longer open |
| Gpiod.EdgeEventBuffer.constructor | input_events.cpp:38 | a new buffer has the requested capacity and holds no events |
| Gpiod.DefaultSettings | input_events.cpp:45-46 | the settings a fresh gpiod_line_settings_new object holds: direction and bias as-is, no edge detection, push-pull, active-high, no debounce, monotonic clock, output inactive; each program's `Config` overrides only the fields it sets |
| Gpiod.Controller.constructor | input_events.cpp:91-117 | a new controller has made no call and holds neither a chip nor a request; whether the chip opens, whether the request is granted and what waits, reads and samples return are the script it is given |
| Process.Console.PrintLine | input_events.cpp:177 | printing a line appends it to the output and changes nothing before it |
| Process.Interrupt.Quitting | input_events.cpp:145 | the flag reads false for the fixed number of checks before ctrl-c and true from then on |
| InputEvents.Sub64 | input_events.cpp:175 | timestamp_ns - last_ns in uint64_t: the difference modulo 2^64, the plain difference when no wrap occurs |
| InputEvents.Config | input_events.cpp:57-78 | GPIO23 and GPIO24 as inputs, both edges detected, pulled up, 1000 µs debounce, monotonic clock, no output values; `Run`'s trace records it as the configuration of the request |
| InputEvents.PinValue | input_events.cpp:169-170 | 1 for a rising edge and 0 for a falling one; `EventCallShape` and `EventLineRoundTrip` state that this is the level printed |
| InputEvents.DeltaCall | input_events.cpp:174-175 | the " +delta" suffix, present only while last_ns is not 0; `EventLineRoundTrip` states that the line reads back to a delta exactly then, equal to `Sub64` |
| InputEvents.EventLine | input_events.cpp:165-177 | one event's line; `EventLineRoundTrip` states what a reader recovers from it and `BatchLinesNotBlank` that it is never blank |
| InputEvents.EventCallShape | input_events.cpp:165-173 | an event's printf call has the format "%lu:%lu pin %u = %u @ %" PRIu64 and the event's fields as arguments, with 1 for a rising edge |
| InputEvents.EventCall | input_events.cpp:172-175 | the printf call of one event; `EventCallShape` states its format and arguments |
| InputEvents.ReminderCall | input_events.cpp:138 | the printf call "debounce time = %lu usec" with debounce_us |
| InputEvents.ReminderLine | input_events.cpp:138 | the reminder's text; `ReminderRoundTrip` states what a reader recovers from it |
| InputEvents.ReminderRoundTrip | input_events.cpp:138 | the reminder reads back, against its format, to the debounce period 1000 and nothing after it |
| InputEvents.EventLineRoundTrip | input_events.cpp:165-177 | every event line reads back to the sequence numbers, pin, 0/1 level and timestamp of its event, and to a delta exactly when last_ns is not 0, equal to the uint64_t difference |
| InputEvents.BatchLinesLength | input_events.cpp:163-178 | one line per event of a batch |
| InputEvents.BatchLineAt | input_events.cpp:163-178 | line k of a batch is event k rendered against the timestamp of event k-1, or against the incoming last_ns for k = 0 |
| InputEvents.LastAfterConcat | input_events.cpp:176 | last_ns after two stretches of events is last_ns after the second, started from the first |
| InputEvents.LastAfter | input_events.cpp:176 | last_ns after a stretch of events; `LastAfterConcat` and `CursorIsLastEvent` state that it is the last event's timestamp, or the start value |
| InputEvents.CursorAfter | input_events.cpp:140-176 | last_ns after a sequence of batches, from 0 at line 140; `CursorIsLastEvent` states that it is the last event's timestamp, or the start value |
| InputEvents.Flatten | input_events.cpp:159-163 | the events of a sequence of batches in read order; `FlattenConcat` and `FlattenExtends` characterise it |
| InputEvents.BatchLinesConcat | input_events.cpp:163-178 | rendering two stretches of events one after the other equals rendering them as one, with last_ns carried over |
| InputEvents.FlattenConcat | input_events.cpp:159-163 | the events of concatenated batch sequences are the concatenated events |
| InputEvents.CursorIsLastEvent | input_events.cpp:140-176 | last_ns after any number of batches is the timestamp of the last event read, or its start value if none was |
| InputEvents.EventLinesConcat | input_events.cpp:177-180 | non-blank lines and blank-line counts of concatenated outputs add up |
| InputEvents.BatchLinesNotBlank | input_events.cpp:172-177 | event lines are never blank |
| InputEvents.ReportStructure | input_events.cpp:163-180 | the non-blank lines of the loop's output are exactly the event lines of all events in read order; there is one blank line per batch, so a batch of n events adds n + 1 lines; the output ends with a blank line |
| InputEvents.ReportedEvent | input_events.cpp:140-180 | the k-th event line reads back to the k-th event read; the first shows no delta; each later one shows the uint64_t difference to the previous event unless that event's timestamp was 0 |
| InputEvents.ReportLines | input_events.cpp:143-182 | everything the loop prints for the batches read; `ReportStructure`, `ReportedEvent` and `ReportExtends` characterise it |
| InputEvents.PrintBatch | input_events.cpp:163-178 | prints the buffer's events in index order and returns last_ns at the last one |
| InputEvents.BatchLines | input_events.cpp:163-178 | the lines of one batch; `BatchLinesLength`, `BatchLineAt` and `BatchLinesConcat` characterise it, and `PrintBatch` is proved equal to it |
| InputEvents.CycleCallsKeepHandles | input_events.cpp:145-182 | the loop's waits and reads never release or close anything |
| InputEvents.TeardownOnce | input_events.cpp:184-190 | a session that returns releases the request and then closes the chip, each exactly once, as its last two calls; a session that aborts does neither |
| InputEvents.TeardownAfterSetup | input_events.cpp:145-190 | TeardownOnce for sessions whose chip open and request succeeded |
| InputEvents.TailCounts | input_events.cpp:151-190 | the calls after the last full round hold one release and one close exactly when main returns 0 |
| InputEvents.CycleCallsExtend | input_events.cpp:151-160 | a full round adds one wait and one read of that batch's size to the trace |
| InputEvents.ReportExtends | input_events.cpp:163-180 | a round adds its batch's lines and one blank line to the output and moves last_ns to the batch's last event |
| InputEvents.FlattenExtends | input_events.cpp:159 | the events read grow by the new batch |
| InputEvents.ReadKeepsStream | input_events.cpp:156-160 | a read of count events takes a prefix of the queued stream and leaves the rest, in order |
| InputEvents.ReadAndReport | input_events.cpp:159-180 | a positive count means count ≤ 32 events taken from the front of the queue, printed with the blank line after them; otherwise nothing is printed and nothing is taken |
| InputEvents.Round | input_events.cpp:148-182 | the wait comes first; only a result of 1 leads to the read and the printing |
| InputEvents.Cycle | input_events.cpp:145-182 | one round either keeps the loop's invariant over one more batch, the next one the queue holds, or stops the loop: on the next scripted wait result (EINTR when the script is used up) if it is not 1, or on a read that returned -1 because nothing was queued |
| InputEvents.Monitor | input_events.cpp:140-182 | the loop ends on ctrl-c at the top, on an EINTR wait, on any other wait result but 1, or on a read that found nothing queued; the stopping wait result is the next one the script gives; the batches are what the reads took off the queue in turn, each printed in order; it runs one round per check of the flag that read false, and stops inside a round only before ctrl-c |
| InputEvents.LoopStep | input_events.cpp:151-176 | bookkeeping of one full round: trace, scripts, events read and last_ns |
| InputEvents.Run | input_events.cpp:38-190 | the whole program: its exact calls, the waits that returned 1, the batches it read off the queue in turn, everything it printed, and the exit status; the chip and request asserts fail exactly when the chip is absent or the request refused; a stop inside the loop comes from the next scripted wait result or from a read of an empty queue, and only before ctrl-c; when it returns 0 the request and the chip are let go |
| InputEvents.Session | input_events.cpp:138-190 | the reminder line, then the loop's output; the trace after setup; the stop reason tied to the scripted waits, the queue and the flag checks, and the exit status for it |
| InputEvents.Finish | input_events.cpp:184-190 | release and close, then return 0, exactly when the loop ended without a failed assert |
| InputEvents.Teardown | input_events.cpp:184-190 | release then close, exactly for the stops that return 0; `Finish` is proved to make these calls and `TailCounts` counts them |
| InputEvents.SetupCalls | input_events.cpp:91-117 | the chip open and the request, both succeeding |
| InputEvents.CycleCalls | input_events.cpp:151-160 | one wait and one read per full round; `CycleCallsExtend` and `CycleCallsKeepHandles` characterise it |
| InputEvents.LoopCalls | input_events.cpp:151-160 | the calls of the unfinished round the loop stopped in |
| InputEvents.StopCalls | input_events.cpp:151-190 | the calls after the last full round; `StopCallsSplit` and `TailCounts` characterise it |
| InputEvents.SessionTrace | input_events.cpp:91-190 | every library call of a session; `Run` is proved to make exactly these, and `TeardownOnce` states the release and close order |
| InputEvents.SessionOutput | input_events.cpp:138-180 | everything a session prints: nothing on a failed setup, else the reminder and the loop's output; `Run` is proved to print exactly this |
| InputEvents.StopCallsSplit | input_events.cpp:151-190 | the calls after the last full round are those of the unfinished round followed by the teardown |
| InputEvents.QueueStep | input_events.cpp:156-160 | a read of what the queue holds next keeps the batches read in turn, and leaves the queue as it is after one more read |
| InputEvents.QueueAfter | input_events.cpp:143-160 | the queue after n reads that each found events; `Cycle`, `Monitor` and `Run` state that the queue left at the end is this one |
| InputEvents.NextWait | input_events.cpp:151 | the result the next wait gets: the scripted one, or an EINTR failure once the script is used up; `Run` states that a stop inside the loop carries it |
| InputEvents.Outcome | input_events.cpp:92-190 | the exit for each stop reason: the failed assert on the chip, the request, r2 == 1 or num_events > 0, or return 0 after ctrl-c and after an interrupted wait |
| InputSimple.ChangeLineRoundTrip | input_simple.cpp:147 | every change line reads back to the pin's offset and to 1 exactly when the new level is active |
| InputSimple.Config | input_simple.cpp:53-72 | GPIO23 and GPIO24 as inputs, no edge detection, pulled up, 1000 µs debounce; `Run`'s trace records it as the configuration of the request |
| InputSimple.ChangeLine | input_simple.cpp:147 | the line "pin N = V"; `ChangeLineRoundTrip` states what a reader recovers from it |
| InputSimple.ChangeCall | input_simple.cpp:147 | the printf call "pin %u = %d" of one change; `ChangeLineRoundTrip` states what it reads back to |
| InputSimple.ReminderCall | input_simple.cpp:127 | the printf call "debounce time = %lu usec" with debounce_us |
| InputSimple.ReminderLine | input_simple.cpp:127 | the reminder's text; `ReminderRoundTrip` states what a reader recovers from it |
| InputSimple.ReminderRoundTrip | input_simple.cpp:127 | the reminder reads back, against its format, to the debounce period 1000 and nothing after it |
| InputSimple.Apply | input_simple.cpp:147 | reading one line keeps the reader's view of the two pins two entries wide |
| InputSimple.Replay | input_simple.cpp:144-150 | reading any output keeps the reader's view two entries wide |
| InputSimple.ReplayConcat | input_simple.cpp:138-154 | reading two outputs one after the other is reading their concatenation |
| InputSimple.ApplyChange | input_simple.cpp:147-148 | the change line of pin i sets pin i's level and no other |
| InputSimple.ScanLines | input_simple.cpp:144-150 | the lines of one scan; `ScanLinesAreChanges`, `ScanReplay` and `QuietScan` characterise it, and `ScanChanges` is proved equal to it |
| InputSimple.ScanReplay | input_simple.cpp:144-150 | after the scan of pins below n, a reader who started from the saved levels knows the new levels of those pins and the saved levels of the rest |
| InputSimple.ScanTracksSample | input_simple.cpp:144-150 | after a full scan such a reader knows the whole new sample |
| InputSimple.ScanLinesAreChanges | input_simple.cpp:144-150 | the lines of a scan are exactly the change lines of the pins whose level differs, and no others |
| InputSimple.QuietScan | input_simple.cpp:144-150 | a scan prints nothing exactly when the sample equals the saved copy |
| InputSimple.ScanChanges | input_simple.cpp:144-150 | the in-place scan prints the lines of the changed pins in index order and leaves values_old equal to values_new |
| InputSimple.PollReplay | input_simple.cpp:135-154 | a reader who starts from the baseline and reads all the loop printed knows the levels of the last sample |
| InputSimple.PollLines | input_simple.cpp:138-154 | everything the loop prints for the samples it took; `PollReplay` states what a reader recovers from it |
| InputSimple.SavedAfter | input_simple.cpp:148 | values_old after the scans: the last sample, or the baseline; `ScanChanges` and `Poll` state that the array holds it |
| InputSimple.Reads | input_simple.cpp:140-141 | one successful get_values call per sample; `ReadsKeepHandles` characterises it |
| InputSimple.ReadsKeepHandles | input_simple.cpp:135-141 | get_values calls never release or close anything |
| InputSimple.PollOnce | input_simple.cpp:140-150 | one read of values_new; on success the scan follows; on failure nothing is printed and values_old is untouched |
| InputSimple.GoodRound | input_simple.cpp:140-150 | a round that reads a good sample extends the loop's invariant by that sample |
| InputSimple.FailedRound | input_simple.cpp:140-141 | a round whose read fails leaves only its failed call behind |
| InputSimple.Poll | input_simple.cpp:138-154 | the loop takes one scripted sample per check of the flag that read false, prints every change, keeps values_old at the last sample, and stops at ctrl-c or at the first failed read, which comes only before ctrl-c |
| InputSimple.PollRound | input_simple.cpp:140-150 | one round on the loop's bookkeeping |
| InputSimple.SetupKeepsHandles | input_simple.cpp:86-141 | the setup calls and the reads never release or close anything |
| InputSimple.TeardownOnce | input_simple.cpp:156-162 | a session that returns releases the request and then closes the chip, each exactly once, as its last two calls; one that aborts does neither |
| InputSimple.SetupCalls | input_simple.cpp:86-108 | the chip open and the request, both succeeding |
| InputSimple.AfterSetup | input_simple.cpp:135-162 | the calls after the request: the baseline read, the loop's reads and the failed read or the teardown |
| InputSimple.Tail | input_simple.cpp:140-162 | the failed read that stops the loop, or the release and close after ctrl-c |
| InputSimple.SessionTrace | input_simple.cpp:86-162 | every library call of a session; `Run` is proved to make exactly these, and `TeardownOnce` states the release and close order |
| InputSimple.SessionOutput | input_simple.cpp:127-150 | everything a session prints: nothing on a failed setup, else the reminder and the loop's output; `Run` is proved to print exactly this |
| InputSimple.Run | input_simple.cpp:86-162 | the whole program: its exact calls, the baseline and samples it took from the script, everything it printed, and the exit status; the chip and request asserts fail exactly when the chip is absent or the request refused; the assert on r2 fails exactly when the first scripted sample is bad, and the one on r3 exactly at the first bad sample after it, before ctrl-c |
| InputSimple.Session | input_simple.cpp:127-162 | the reminder line; the baseline read, which prints nothing; then the loop and the teardown; a failed sample in the loop only before ctrl-c |
| InputSimple.Watch | input_simple.cpp:138-162 | the loop, then release and close only when it ended on ctrl-c; a failed sample only before ctrl-c |
| InputSimple.Outcome | input_simple.cpp:87-162 | the exit for each stop reason: the failed assert on the chip, the request, r2 == 0 or r3 == 0, or return 0 after ctrl-c |
| OutputSimple.CodeValuesEncode | output_simple.cpp:19-138 | code_values[c] is the two-bit binary encoding of c: GPIO23 is active exactly when c is odd and GPIO24 exactly when c ≥ 2; every pair of levels is the entry of the number it shows |
| OutputSimple.Config | output_simple.cpp:51-82 | GPIO23 and GPIO24 as push-pull outputs, requested active and inactive; `Run`'s trace records it as the configuration of the request |
| OutputSimple.Next | output_simple.cpp:152-153 | ++code with the wrap to 0 at code_max; `NextCounts` states that it counts modulo 4, and `Count` uses it |
| OutputSimple.NextCounts | output_simple.cpp:152-153 | the wrapped increment stays in [0, 4) and counts modulo 4 |
| OutputSimple.CounterWriteAt | output_simple.cpp:139-155 | write k of the loop is code_values[k mod 4] and shows k mod 4 |
| OutputSimple.CounterSteps | output_simple.cpp:150-153 | consecutive writes of the loop show consecutive counter values, 3 wrapping to 0 |
| OutputSimple.CounterWrites | output_simple.cpp:139-155 | the loop's first k writes; `CounterWriteAt`, `CounterSteps` and `CounterKeepsHandles` characterise it, and `Count` is proved to make these writes |
| OutputSimple.CounterKeepsHandles | output_simple.cpp:144-155 | the loop's writes never release or close anything |
| OutputSimple.Count | output_simple.cpp:139-155 | the loop writes code_values[k mod 4] in round k, once per check of the flag that read false |
| OutputSimple.TeardownOnce | output_simple.cpp:157-168 | a session that returns writes both pins inactive last, then releases the request and closes the chip, each exactly once; one that aborts does neither |
| OutputSimple.SetupCalls | output_simple.cpp:91-113 | the chip open and the request, both succeeding |
| OutputSimple.TeardownCalls | output_simple.cpp:158-165 | both pins written low, then the release and the close; `TeardownOnce` states that these end a returning session |
| OutputSimple.SessionTrace | output_simple.cpp:91-168 | every library call of a session; `Run` is proved to make exactly these, and `TeardownOnce` states the order at the end |
| OutputSimple.Run | output_simple.cpp:91-168 | the whole program: its exact calls and exit status; the chip-open and request asserts fail exactly when the chip is absent or the request refused |
| OutputSimple.Outcome | output_simple.cpp:92-168 | the exit for each stop reason: the failed assert on the chip or the request, or return 0 after ctrl-c |
| Output1Simple.FlipToggles | output1_simple.cpp:120-136 | code = 1 - code keeps code in {0, 1}, switches the level written and undoes itself |
| Output1Simple.Config | output1_simple.cpp:51-71 | GPIO23 as a push-pull output, requested inactive; `Run`'s trace records it as the configuration of the request |
| Output1Simple.Flip | output1_simple.cpp:136 | code = 1 - code; `FlipToggles` states that it switches between the two table entries, and `Toggle` uses it |
| Output1Simple.ToggleWriteAt | output1_simple.cpp:128-138 | write k of the loop drives GPIO23 active exactly when k is odd, so the writes start inactive |
| Output1Simple.Alternates | output1_simple.cpp:134-136 | consecutive writes of the loop drive opposite levels |
| Output1Simple.ToggleWrites | output1_simple.cpp:123-138 | the loop's first k writes; `ToggleWriteAt`, `Alternates` and `ToggleKeepsHandles` characterise it, and `Toggle` is proved to make these writes |
| Output1Simple.ToggleKeepsHandles | output1_simple.cpp:128-138 | the loop's writes never release or close anything |
| Output1Simple.Toggle | output1_simple.cpp:123-138 | the loop writes one level per check of the flag that read false, alternating from inactive |
| Output1Simple.TeardownOnce | output1_simple.cpp:114-148 | a session that returns closes the chip exactly once, as the call right after the request; it writes GPIO23 inactive last and releases the request once, as its last call; one that aborts does neither |
| Output1Simple.SetupCalls | output1_simple.cpp:80-116 | the chip open, the request and the chip close at line 116, before any write; `TeardownOnce` states that this is the only close |
| Output1Simple.TeardownCalls | output1_simple.cpp:141-145 | GPIO23 written low, then the release; `TeardownOnce` states that these end a returning session |
| Output1Simple.SessionTrace | output1_simple.cpp:80-148 | every library call of a session; `Run` is proved to make exactly these, and `TeardownOnce` states where the close and the release sit |
| Output1Simple.Run | output1_simple.cpp:80-148 | the whole program: its exact calls and exit status, with the chip closed before the loop |
| Output1Simple.Outcome | output1_simple.cpp:81-148 | the exit for each stop reason: the failed assert on the chip or the request, or return 0 after ctrl-c |

Configuration facts are stated as data: `Config()` in each module and the
constant tables `Offsets`, `InitValues` and `CodeValues`. Each program's
trace records the configuration it requests with. So `Run` fixes these
values:

- output_simple requests GPIO23 active and GPIO24 inactive as outputs.
- output1_simple requests GPIO23 inactive.
- input_simple requests pulled-up inputs with a 1000 µs debounce.
- input_events requests the same inputs with both edges detected.

The code keeps the previous timestamp as `last_ns`, with 0 for "no
previous event" (input_events.cpp:140, 174). An optional value would say
"unset" without using up a timestamp. The model follows the code, so an
event whose timestamp is 0 suppresses the delta on the next event's line.
`InputEvents.ReportedEvent` states this case. input_simple requests its
lines under the consumer name "input_events" (input_simple.cpp:97), and the
model keeps that name.

## Left out

- The library and kernel themselves. Each call is a method with a scripted
  result. Debounce filtering, seqno order and timestamp order are not
  assumed, so the proofs hold for any events.
- The SIGINT handler runs asynchronously. The model fixes the number of
  `quitting` checks that read false before ctrl-c. A ctrl-c during a wait
  is a wait result of -1 with errno EINTR.
- `sleep`/`usleep` and all timing.
- The `GPIOD_INCLUDE_SHOW` debug dumps and the commented-out show calls.
- The configuration objects and the `assert`s on them. The model assumes
  every one of these succeeds. None is in the trace. A failure would abort
  the program where it happens, which the model does not represent. They are:
  - `events != nullptr` on the edge-event buffer (input_events.cpp:39),
    before any modelled call;
  - `settings != nullptr` and `line_config != nullptr` after the allocation
    of the settings and the line configuration (input_events.cpp:46, 66;
    input_simple.cpp:42, 61; output_simple.cpp:37, 42;
    output1_simple.cpp:35, 40), before the chip open;
  - `r1 == 0` after `gpiod_line_config_add_line_settings`
    (input_events.cpp:78, input_simple.cpp:73, output_simple.cpp:66,
    output1_simple.cpp:59), before the chip open;
  - `r2 == 0` after `gpiod_line_config_set_output_values`
    (output_simple.cpp:82, output1_simple.cpp:71), before the chip open;
  - `request_config != nullptr` after `gpiod_request_config_new`
    (input_events.cpp:101, input_simple.cpp:94, output_simple.cpp:99,
    output1_simple.cpp:88), between the chip open and the request;
  - the frees: the settings after they are added to the line configuration,
    and the request configuration and the line configuration after the
    request.
- Consumer-name truncation, which happens inside the library.
- `GPIOD_LINE_VALUE_ERROR`, which only the single-line getter returns. No
  program calls that getter.
- A failed `assert` is an `AssertionFailed` exit that names the condition.
  The process-level abort is not modelled.
- `Gpiod.Controller.WaitEdgeEvents`: a wait the script has no answer for
  returns EINTR. The loop ends then, as on a ctrl-c during the wait. Timeouts
  do not arise, because the programs wait forever.
- `Gpiod.Controller.ReadEdgeEvents`: the buffer's contents are tied to the
  scripted batch. The kernel's internal event queue is not modelled. A real
  read on a request with nothing queued blocks until an event arrives; in
  the model a missing or empty head batch stands for a read that fails
  with -1 instead.
