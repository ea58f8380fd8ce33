/** input_events.cpp: request GPIO23 and GPIO24 as debounced inputs with edge
    detection on both edges, then report every edge event the kernel delivers,
    one line per event and one blank line after each batch, until ctrl-c. */
module InputEvents {
  import opened Decimal
  import opened Gpiod
  import opened Process
  import opened Seqs

  const ChipPath: string := "/dev/gpiochip0"
  const Consumer: string := "input_events"
  const AGpioNum: u32 := 23
  const BGpioNum: u32 := 24
  /** Capacity of the event buffer and the most events one read may return. */
  const MaxEvents: int := 32
  const DebounceUs: nat := 1000
  /** The wait's timeout argument: negative means wait forever. */
  const WaitForever: int := -1

  /** The line configuration handed to the request. */
  function Config(): LineConfig
  {
    LineConfig(
      [AGpioNum, BGpioNum],
      DefaultSettings().(direction := Input, edgeDetection := EdgeBoth, bias := PullUp,
                         debouncePeriodUs := DebounceUs, eventClock := Monotonic),
      [])
  }

  // ---------------------------------------------------------------------
  // Rendering one event

  /** timestamp_ns - last_ns in uint64_t arithmetic: the difference modulo 2^64. */
  function Sub64(a: u64, b: u64): (d: u64)
    ensures (b + d) % TWO_64 == a
    ensures b <= a ==> d == a - b
  {
    if b <= a then a - b else a - b + TWO_64
  }

  /** The printed pin value: 1 for a rising edge, 0 otherwise. */
  function PinValue(t: EdgeType): nat
  {
    if t == RisingEdge then 1 else 0
  }

  /** The printf call for event e, format "%lu:%lu pin %u = %u @ %" PRIu64. */
  function EventCall(e: EdgeEvent): Line
  {
    Number(e.globalSeqno, Text(":", Number(e.lineSeqno, Text(" pin ", Number(e.lineOffset,
      Text(" = ", Number(PinValue(e.eventType), Text(" @ ", Number(e.timestampNs, Done)))))))))
  }

  /** The printf call " +%" PRIu64 for the delta, made only while last_ns is not 0. */
  function DeltaCall(timestampNs: u64, lastNs: u64): Line
  {
    if lastNs != 0 then Text(" +", Number(Sub64(timestampNs, lastNs), Done)) else Done
  }

  /** The line printed for event e while last_ns holds lastNs. */
  function EventLine(e: EdgeEvent, lastNs: u64): string
  {
    Render(EventCall(e)) + Render(DeltaCall(e.timestampNs, lastNs))
  }

  const EventFormat: Format :=
    Conv(Literal(":", Conv(Literal(" pin ", Conv(Literal(" = ", Conv(Literal(" @ ", Conv(End)))))))))
  const DeltaFormat: Format := Literal(" +", Conv(End))

  /** The fields a reader of the output recovers from one event line. */
  datatype EventRecord = EventRecord(
    globalSeqno: nat,
    lineSeqno: nat,
    pin: nat,
    value: nat,
    timestampNs: nat,
    delta: Option<nat>)

  /** Reads an event line back. */
  function ParseEventLine(s: string): Option<EventRecord>
  {
    var head :- ScanFormat(EventFormat, s);
    var ns := head.0;
    if head.1 == [] then
      Some(EventRecord(ns[0], ns[1], ns[2], ns[3], ns[4], None))
    else
      var delta :- ScanFormat(DeltaFormat, head.1);
      if delta.1 == [] then Some(EventRecord(ns[0], ns[1], ns[2], ns[3], ns[4], Some(delta.0[0]))) else None
  }

  /** The event's printf call has format EventFormat and the event's fields
      as its arguments, and every number in it is separated from the next. */
  lemma EventCallShape(e: EdgeEvent)
    ensures Separated(EventCall(e)) && EndsInNumber(EventCall(e))
    ensures FormatOf(EventCall(e)) == EventFormat
    ensures ArgsOf(EventCall(e)) == [e.globalSeqno, e.lineSeqno, e.lineOffset, PinValue(e.eventType), e.timestampNs]
  {
    var l8 := Number(e.timestampNs, Done);
    var l7 := Text(" @ ", l8);
    var l6 := Number(PinValue(e.eventType), l7);
    var l5 := Text(" = ", l6);
    var l4 := Number(e.lineOffset, l5);
    var l3 := Text(" pin ", l4);
    var l2 := Number(e.lineSeqno, l3);
    var l1 := Text(":", l2);
    var l0 := Number(e.globalSeqno, l1);
    assert l0 == EventCall(e);
    assert Separated(l8) && EndsInNumber(l8) && FormatOf(l8) == Conv(End) && ArgsOf(l8) == [e.timestampNs];
    assert Separated(l7) && EndsInNumber(l7) && FormatOf(l7) == Literal(" @ ", Conv(End)) && ArgsOf(l7) == ArgsOf(l8);
    assert Separated(l6) && EndsInNumber(l6) && FormatOf(l6) == Conv(FormatOf(l7));
    assert Separated(l5) && EndsInNumber(l5) && FormatOf(l5) == Literal(" = ", FormatOf(l6)) && ArgsOf(l5) == ArgsOf(l6);
    assert Separated(l4) && EndsInNumber(l4) && FormatOf(l4) == Conv(FormatOf(l5));
    assert Separated(l3) && EndsInNumber(l3) && FormatOf(l3) == Literal(" pin ", FormatOf(l4)) && ArgsOf(l3) == ArgsOf(l4);
    assert Separated(l2) && EndsInNumber(l2) && FormatOf(l2) == Conv(FormatOf(l3));
    assert Separated(l1) && EndsInNumber(l1) && FormatOf(l1) == Literal(":", FormatOf(l2)) && ArgsOf(l1) == ArgsOf(l2);
    assert Separated(l0) && EndsInNumber(l0) && FormatOf(l0) == Conv(FormatOf(l1));
    assert ArgsOf(l6) == [PinValue(e.eventType)] + ArgsOf(l7);
    assert ArgsOf(l4) == [e.lineOffset] + ArgsOf(l5);
    assert ArgsOf(l2) == [e.lineSeqno] + ArgsOf(l3);
    assert ArgsOf(l0) == [e.globalSeqno] + ArgsOf(l1);
  }

  /** Every event line has the documented shape and gives back the event's
      fields; the value is 1 exactly for a rising edge; a delta is present
      exactly when last_ns was not 0, and is then the uint64_t difference. */
  lemma EventLineRoundTrip(e: EdgeEvent, lastNs: u64)
    ensures ParseEventLine(EventLine(e, lastNs)) == Some(EventRecord(
      e.globalSeqno, e.lineSeqno, e.lineOffset,
      if e.eventType == RisingEdge then 1 else 0,
      e.timestampNs,
      if lastNs != 0 then Some(Sub64(e.timestampNs, lastNs)) else None))
  {
    var ev, delta := EventCall(e), DeltaCall(e.timestampNs, lastNs);
    var args := ArgsOf(ev);
    EventCallShape(e);
    ScanRender(ev, Render(delta));
    assert ScanFormat(EventFormat, EventLine(e, lastNs)) == Some((args, Render(delta)));
    if lastNs != 0 {
      var d := Sub64(e.timestampNs, lastNs);
      var last := Number(d, Done);
      assert FormatOf(last) == Conv(End) && ArgsOf(last) == [d] && Separated(last);
      assert Separated(delta) && FormatOf(delta) == DeltaFormat && ArgsOf(delta) == [d];
      ScanRender(delta, []);
      assert Render(delta) + [] == Render(delta);
      assert Render(delta) != [];
    } else {
      assert Render(delta) == [];
    }
  }

  // ---------------------------------------------------------------------
  // Rendering batches and the whole session

  /** last_ns after reporting batch, starting from lastNs. */
  function LastAfter(batch: seq<EdgeEvent>, lastNs: u64): u64
  {
    if batch == [] then lastNs else batch[|batch| - 1].timestampNs
  }

  /** The lines printed for the events of one batch, in buffer index order. */
  function BatchLines(batch: seq<EdgeEvent>, lastNs: u64): seq<string>
    decreases |batch|
  {
    if batch == [] then []
    else
      var prior := batch[..|batch| - 1];
      BatchLines(prior, lastNs) + [EventLine(batch[|batch| - 1], LastAfter(prior, lastNs))]
  }

  /** All events of a sequence of batches, in the order they were read. */
  function Flatten(batches: seq<seq<EdgeEvent>>): seq<EdgeEvent>
    decreases |batches|
  {
    if batches == [] then [] else Flatten(batches[..|batches| - 1]) + batches[|batches| - 1]
  }

  /** last_ns after reporting every batch, starting from lastNs. */
  function CursorAfter(batches: seq<seq<EdgeEvent>>, lastNs: u64): u64
    decreases |batches|
  {
    if batches == [] then lastNs
    else LastAfter(batches[|batches| - 1], CursorAfter(batches[..|batches| - 1], lastNs))
  }

  /** Everything the monitoring loop prints for the batches it read: each
      batch's event lines followed by one blank line. */
  function ReportLines(batches: seq<seq<EdgeEvent>>, lastNs: u64): seq<string>
    decreases |batches|
  {
    if batches == [] then []
    else
      var prior := batches[..|batches| - 1];
      ReportLines(prior, lastNs) + BatchLines(batches[|batches| - 1], CursorAfter(prior, lastNs)) + [""]
  }

  /** The non-blank lines of an output, in order. */
  function EventLines(lines: seq<string>): seq<string>
    decreases |lines|
  {
    if lines == [] then []
    else EventLines(lines[..|lines| - 1]) + (if lines[|lines| - 1] == "" then [] else [lines[|lines| - 1]])
  }

  /** The number of blank lines of an output. */
  function Blanks(lines: seq<string>): nat
    decreases |lines|
  {
    if lines == [] then 0
    else Blanks(lines[..|lines| - 1]) + (if lines[|lines| - 1] == "" then 1 else 0)
  }

  lemma {:induction false} BatchLinesLength(batch: seq<EdgeEvent>, lastNs: u64)
    ensures |BatchLines(batch, lastNs)| == |batch|
    decreases |batch|
  {
    if batch != [] {
      BatchLinesLength(batch[..|batch| - 1], lastNs);
    }
  }

  /** The k-th line of a batch is event k rendered against the previous
      event's timestamp, or against the incoming last_ns for the first. */
  lemma {:induction false} BatchLineAt(batch: seq<EdgeEvent>, lastNs: u64, k: nat)
    requires k < |batch|
    ensures |BatchLines(batch, lastNs)| == |batch|
    ensures BatchLines(batch, lastNs)[k] ==
      EventLine(batch[k], if k == 0 then lastNs else batch[k - 1].timestampNs)
    decreases |batch|
  {
    BatchLinesLength(batch, lastNs);
    var prior := batch[..|batch| - 1];
    BatchLinesLength(prior, lastNs);
    if k < |batch| - 1 {
      BatchLineAt(prior, lastNs, k);
    }
  }

  lemma LastAfterConcat(s: seq<EdgeEvent>, t: seq<EdgeEvent>, lastNs: u64)
    ensures LastAfter(s + t, lastNs) == LastAfter(t, LastAfter(s, lastNs))
  {
    if t == [] {
      assert s + t == s;
    }
  }

  /** Rendering two stretches of events one after the other gives the same
      lines as rendering them together. */
  lemma {:induction false} BatchLinesConcat(s: seq<EdgeEvent>, t: seq<EdgeEvent>, lastNs: u64)
    ensures BatchLines(s + t, lastNs) == BatchLines(s, lastNs) + BatchLines(t, LastAfter(s, lastNs))
    decreases |t|
  {
    if t == [] {
      assert s + t == s;
    } else {
      var init := t[..|t| - 1];
      assert (s + t)[..|s + t| - 1] == s + init;
      BatchLinesConcat(s, init, lastNs);
      LastAfterConcat(s, init, lastNs);
    }
  }

  lemma {:induction false} FlattenConcat(a: seq<seq<EdgeEvent>>, b: seq<seq<EdgeEvent>>)
    ensures Flatten(a + b) == Flatten(a) + Flatten(b)
    decreases |b|
  {
    if b == [] {
      assert a + b == a;
    } else {
      assert (a + b)[..|a + b| - 1] == a + b[..|b| - 1];
      FlattenConcat(a, b[..|b| - 1]);
    }
  }

  /** The cursor carried across batches is the timestamp of the last event
      of the whole stream. */
  lemma {:induction false} CursorIsLastEvent(batches: seq<seq<EdgeEvent>>, lastNs: u64)
    ensures CursorAfter(batches, lastNs) == LastAfter(Flatten(batches), lastNs)
    decreases |batches|
  {
    if batches != [] {
      var prior := batches[..|batches| - 1];
      CursorIsLastEvent(prior, lastNs);
      LastAfterConcat(Flatten(prior), batches[|batches| - 1], lastNs);
    }
  }

  lemma {:induction false} EventLinesConcat(a: seq<string>, b: seq<string>)
    ensures EventLines(a + b) == EventLines(a) + EventLines(b)
    ensures Blanks(a + b) == Blanks(a) + Blanks(b)
    decreases |b|
  {
    if b == [] {
      assert a + b == a;
    } else {
      assert (a + b)[..|a + b| - 1] == a + b[..|b| - 1];
      EventLinesConcat(a, b[..|b| - 1]);
    }
  }

  /** Event lines are never blank. */
  lemma {:induction false} BatchLinesNotBlank(batch: seq<EdgeEvent>, lastNs: u64)
    ensures EventLines(BatchLines(batch, lastNs)) == BatchLines(batch, lastNs)
    ensures Blanks(BatchLines(batch, lastNs)) == 0
    decreases |batch|
  {
    if batch != [] {
      var prior := batch[..|batch| - 1];
      var line := EventLine(batch[|batch| - 1], LastAfter(prior, lastNs));
      assert line != "" by { assert |Dec(batch[|batch| - 1].globalSeqno)| > 0; }
      BatchLinesNotBlank(prior, lastNs);
      EventLinesConcat(BatchLines(prior, lastNs), [line]);
      assert EventLines([line]) == [line] by { assert [line][..0] == []; }
      assert Blanks([line]) == 0 by { assert [line][..0] == []; }
    }
  }

  /** Batching only adds separators: the non-blank output lines are exactly
      the lines of the whole event stream rendered in read order, with each
      delta taken across batch boundaries; there is one blank line per batch
      and the output ends with one. */
  lemma {:induction false} ReportStructure(batches: seq<seq<EdgeEvent>>, lastNs: u64)
    ensures EventLines(ReportLines(batches, lastNs)) == BatchLines(Flatten(batches), lastNs)
    ensures Blanks(ReportLines(batches, lastNs)) == |batches|
    ensures |ReportLines(batches, lastNs)| == |Flatten(batches)| + |batches|
    ensures batches != [] ==> ReportLines(batches, lastNs)[|ReportLines(batches, lastNs)| - 1] == ""
    decreases |batches|
  {
    if batches != [] {
      var prior := batches[..|batches| - 1];
      var last := batches[|batches| - 1];
      var cursor := CursorAfter(prior, lastNs);
      var front := ReportLines(prior, lastNs);
      var middle := BatchLines(last, cursor);
      ReportStructure(prior, lastNs);
      BatchLinesNotBlank(last, cursor);
      BatchLinesLength(last, cursor);
      EventLinesConcat(front, middle);
      EventLinesConcat(front + middle, [""]);
      assert EventLines([""]) == [] by { assert [""][..0] == []; }
      assert Blanks([""]) == 1 by { assert [""][..0] == []; }
      CursorIsLastEvent(prior, lastNs);
      BatchLinesConcat(Flatten(prior), last, lastNs);
      BatchLinesLength(Flatten(prior), lastNs);
    }
  }

  /** The k-th event reported in a session (blank lines skipped) carries the
      fields of the k-th event read; the first event ever reported carries no
      delta, and every later one carries the uint64_t difference to the
      event before it unless that event's timestamp was 0, the value that
      last_ns uses for "unset". */
  lemma ReportedEvent(batches: seq<seq<EdgeEvent>>, k: nat)
    requires k < |Flatten(batches)|
    ensures var events := Flatten(batches);
      var e := events[k];
      var shown := EventLines(ReportLines(batches, 0));
      && k < |shown|
      && ParseEventLine(shown[k]) == Some(EventRecord(
        e.globalSeqno, e.lineSeqno, e.lineOffset,
        if e.eventType == RisingEdge then 1 else 0,
        e.timestampNs,
        if k == 0 || events[k - 1].timestampNs == 0 then None
        else Some(Sub64(e.timestampNs, events[k - 1].timestampNs))))
  {
    var events := Flatten(batches);
    ReportStructure(batches, 0);
    BatchLineAt(events, 0, k);
    EventLineRoundTrip(events[k], if k == 0 then 0 else events[k - 1].timestampNs);
  }

  // ---------------------------------------------------------------------
  // The program

  /** Lines 163-178: print every event of the buffer, in index order, and
      return the new last_ns. */
  method PrintBatch(buffer: EdgeEventBuffer, lastNs: u64, console: Console) returns (newLastNs: u64)
    requires buffer.Valid()
    modifies console
    ensures console.lines == old(console.lines) + BatchLines(buffer.Contents(), lastNs)
    ensures newLastNs == LastAfter(buffer.Contents(), lastNs)
  {
    newLastNs := lastNs;
    var i := 0;
    while i < buffer.numEvents
      invariant 0 <= i <= buffer.numEvents
      invariant console.lines == old(console.lines) + BatchLines(buffer.events[..i], lastNs)
      invariant newLastNs == LastAfter(buffer.events[..i], lastNs)
    {
      var event := buffer.events[i];
      console.PrintLine(EventLine(event, newLastNs));
      newLastNs := event.timestampNs;
      assert buffer.events[..i + 1][..i] == buffer.events[..i];
      i := i + 1;
    }
    assert buffer.events[..i] == buffer.Contents();
  }

  /** Why the session ended. */
  datatype Stop =
    | ChipOpenFailed
    | RequestFailed
    | QuitFlagSet                    // `quitting` was seen at the top of the loop
    | WaitInterrupted(w: WaitResult) // the wait returned < 0 with errno EINTR
    | WaitFailed(w: WaitResult)      // any other wait result but 1
    | ReadFailed(w: WaitResult, count: int)

  function Outcome(stop: Stop): Exit
  {
    match stop
    case ChipOpenFailed => AssertionFailed("chip != nullptr")
    case RequestFailed => AssertionFailed("request != nullptr")
    case QuitFlagSet => Returned(0)
    case WaitInterrupted(_) => Returned(0)
    case WaitFailed(_) => AssertionFailed("r2 == 1")
    case ReadFailed(_, _) => AssertionFailed("num_events > 0")
  }

  /** What the results seen at the end must have been for the loop to stop there. */
  predicate StopConsistent(stop: Stop)
  {
    match stop
    case WaitInterrupted(w) => Interrupted(w)
    case WaitFailed(w) => !Interrupted(w) && w.ret != 1
    case ReadFailed(w, n) => w.ret == 1 && n <= 0
    case _ => true
  }

  /** The loop stopped inside a round, on the wait's or the read's result. */
  predicate RoundStop(stop: Stop)
  {
    stop.WaitInterrupted? || stop.WaitFailed? || stop.ReadFailed?
  }

  /** The answer the n-th wait gets from script: the scripted result, or the
      interrupted wait once the script is used up. */
  function NextWait(script: seq<WaitResult>, n: nat): WaitResult
  {
    if n < |script| then script[n] else WaitResult(-1, EINTR)
  }

  function SetupCalls(): seq<Call>
  {
    [ChipOpen(ChipPath, true), RequestLines(Consumer, Config(), true)]
  }

  /** One wait and one read per batch reported. */
  function CycleCalls(waits: seq<WaitResult>, batches: seq<seq<EdgeEvent>>): seq<Call>
    requires |waits| == |batches|
    decreases |batches|
  {
    if batches == [] then []
    else
      CycleCalls(waits[..|waits| - 1], batches[..|batches| - 1]) +
      [WaitEdgeEvents(WaitForever, waits[|waits| - 1]), ReadEdgeEvents(MaxEvents, |batches[|batches| - 1]|)]
  }

  /** The calls after the last full cycle. */
  function StopCalls(stop: Stop): seq<Call>
  {
    match stop
    case QuitFlagSet => [RequestRelease, ChipClose]
    case WaitInterrupted(w) => [WaitEdgeEvents(WaitForever, w), RequestRelease, ChipClose]
    case WaitFailed(w) => [WaitEdgeEvents(WaitForever, w)]
    case ReadFailed(w, n) => [WaitEdgeEvents(WaitForever, w), ReadEdgeEvents(MaxEvents, n)]
    case _ => []
  }

  /** Every library call of a session, in order. */
  function SessionTrace(waits: seq<WaitResult>, batches: seq<seq<EdgeEvent>>, stop: Stop): seq<Call>
    requires |waits| == |batches|
  {
    match stop
    case ChipOpenFailed => [ChipOpen(ChipPath, false)]
    case RequestFailed => [ChipOpen(ChipPath, true), RequestLines(Consumer, Config(), false)]
    case _ => SetupCalls() + CycleCalls(waits, batches) + StopCalls(stop)
  }

  lemma {:induction false} CycleCallsKeepHandles(waits: seq<WaitResult>, batches: seq<seq<EdgeEvent>>)
    requires |waits| == |batches|
    ensures Occurrences(CycleCalls(waits, batches), RequestRelease) == 0
    ensures Occurrences(CycleCalls(waits, batches), ChipClose) == 0
    decreases |batches|
  {
    if batches != [] {
      var front := CycleCalls(waits[..|waits| - 1], batches[..|batches| - 1]);
      var pair := [WaitEdgeEvents(WaitForever, waits[|waits| - 1]), ReadEdgeEvents(MaxEvents, |batches[|batches| - 1]|)];
      CycleCallsKeepHandles(waits[..|waits| - 1], batches[..|batches| - 1]);
      OccurrencesAppend(front, pair, RequestRelease);
      OccurrencesAppend(front, pair, ChipClose);
      assert pair == [pair[0]] + [pair[1]];
      OccurrencesAppend([pair[0]], [pair[1]], RequestRelease);
      OccurrencesAppend([pair[0]], [pair[1]], ChipClose);
      OccurrencesSingleton(pair[0], RequestRelease);
      OccurrencesSingleton(pair[1], RequestRelease);
      OccurrencesSingleton(pair[0], ChipClose);
      OccurrencesSingleton(pair[1], ChipClose);
    }
  }

  /** A session that returns releases the request and then closes the chip,
      each exactly once and as its last two calls; a session that aborts on
      a failed assert does neither. */
  lemma TeardownOnce(waits: seq<WaitResult>, batches: seq<seq<EdgeEvent>>, stop: Stop)
    requires |waits| == |batches|
    ensures var t := SessionTrace(waits, batches, stop);
      && Occurrences(t, RequestRelease) == (if Outcome(stop) == Returned(0) then 1 else 0)
      && Occurrences(t, ChipClose) == (if Outcome(stop) == Returned(0) then 1 else 0)
      && (Outcome(stop) == Returned(0) ==> |t| >= 2 && t[|t| - 2..] == [RequestRelease, ChipClose])
  {
    var t := SessionTrace(waits, batches, stop);
    match stop
    case ChipOpenFailed =>
      OccurrencesSingleton(ChipOpen(ChipPath, false), RequestRelease);
      OccurrencesSingleton(ChipOpen(ChipPath, false), ChipClose);
    case RequestFailed =>
      OccurrencesPair(ChipOpen(ChipPath, true), RequestLines(Consumer, Config(), false), RequestRelease);
      OccurrencesPair(ChipOpen(ChipPath, true), RequestLines(Consumer, Config(), false), ChipClose);
    case _ =>
      TeardownAfterSetup(waits, batches, stop);
  }

  lemma TeardownAfterSetup(waits: seq<WaitResult>, batches: seq<seq<EdgeEvent>>, stop: Stop)
    requires |waits| == |batches| && !stop.ChipOpenFailed? && !stop.RequestFailed?
    ensures var t := SessionTrace(waits, batches, stop);
      && Occurrences(t, RequestRelease) == (if Outcome(stop) == Returned(0) then 1 else 0)
      && Occurrences(t, ChipClose) == (if Outcome(stop) == Returned(0) then 1 else 0)
      && (Outcome(stop) == Returned(0) ==> |t| >= 2 && t[|t| - 2..] == [RequestRelease, ChipClose])
  {
    var head := SetupCalls() + CycleCalls(waits, batches);
    OccurrencesPair(ChipOpen(ChipPath, true), RequestLines(Consumer, Config(), true), RequestRelease);
    OccurrencesPair(ChipOpen(ChipPath, true), RequestLines(Consumer, Config(), true), ChipClose);
    CycleCallsKeepHandles(waits, batches);
    OccurrencesAppend(SetupCalls(), CycleCalls(waits, batches), RequestRelease);
    OccurrencesAppend(SetupCalls(), CycleCalls(waits, batches), ChipClose);
    OccurrencesAppend(head, StopCalls(stop), RequestRelease);
    OccurrencesAppend(head, StopCalls(stop), ChipClose);
    TailCounts(stop);
    if stop.QuitFlagSet? {
      EndsWith(head, [RequestRelease, ChipClose]);
    } else if stop.WaitInterrupted? {
      var mid := [WaitEdgeEvents(WaitForever, stop.w)];
      assert StopCalls(stop) == mid + [RequestRelease, ChipClose];
      Associative(head, mid, [RequestRelease, ChipClose]);
      EndsWith(head + mid, [RequestRelease, ChipClose]);
    }
  }

  lemma TailCounts(stop: Stop)
    requires !stop.ChipOpenFailed? && !stop.RequestFailed?
    ensures Occurrences(StopCalls(stop), RequestRelease) == (if Outcome(stop) == Returned(0) then 1 else 0)
    ensures Occurrences(StopCalls(stop), ChipClose) == (if Outcome(stop) == Returned(0) then 1 else 0)
  {
    var release := [RequestRelease, ChipClose];
    OccurrencesPair(RequestRelease, ChipClose, RequestRelease);
    OccurrencesPair(RequestRelease, ChipClose, ChipClose);
    match stop
    case QuitFlagSet =>
    case WaitInterrupted(w) =>
      var wait := [WaitEdgeEvents(WaitForever, w)];
      OccurrencesSingleton(wait[0], RequestRelease);
      OccurrencesSingleton(wait[0], ChipClose);
      assert StopCalls(stop) == wait + release;
      OccurrencesAppend(wait, release, RequestRelease);
      OccurrencesAppend(wait, release, ChipClose);
    case WaitFailed(w) =>
      OccurrencesSingleton(WaitEdgeEvents(WaitForever, w), RequestRelease);
      OccurrencesSingleton(WaitEdgeEvents(WaitForever, w), ChipClose);
    case ReadFailed(w, n) =>
      OccurrencesPair(WaitEdgeEvents(WaitForever, w), ReadEdgeEvents(MaxEvents, n), RequestRelease);
      OccurrencesPair(WaitEdgeEvents(WaitForever, w), ReadEdgeEvents(MaxEvents, n), ChipClose);
  }

  /** One more wait and read add their two calls to the trace. */
  lemma CycleCallsExtend(waits: seq<WaitResult>, batches: seq<seq<EdgeEvent>>, w: WaitResult, batch: seq<EdgeEvent>)
    requires |waits| == |batches|
    ensures CycleCalls(waits + [w], batches + [batch]) ==
      CycleCalls(waits, batches) + [WaitEdgeEvents(WaitForever, w), ReadEdgeEvents(MaxEvents, |batch|)]
  {
    assert (batches + [batch])[..|batches|] == batches;
    assert (waits + [w])[..|waits|] == waits;
  }

  /** One more batch reported adds its lines and a blank line. */
  lemma ReportExtends(batches: seq<seq<EdgeEvent>>, batch: seq<EdgeEvent>)
    ensures ReportLines(batches + [batch], 0) ==
      ReportLines(batches, 0) + BatchLines(batch, CursorAfter(batches, 0)) + [""]
    ensures CursorAfter(batches + [batch], 0) == LastAfter(batch, CursorAfter(batches, 0))
  {
    assert (batches + [batch])[..|batches|] == batches;
  }

  lemma FlattenExtends(batches: seq<seq<EdgeEvent>>, batch: seq<EdgeEvent>)
    ensures Flatten(batches + [batch]) == Flatten(batches) + batch
  {
    assert (batches + [batch])[..|batches|] == batches;
  }

  /** A read that takes count events off the head of the queue loses and
      reorders nothing. */
  lemma ReadKeepsStream(queued: seq<EdgeEvent>, rest: seq<seq<EdgeEvent>>, count: int)
    requires 0 < count <= |queued|
    ensures queued[..count] + Flatten((if count < |queued| then [queued[count..]] else []) + rest)
         == Flatten([queued] + rest)
  {
    FlattenConcat([queued], rest);
    FlattenOne(queued);
    if count < |queued| {
      FlattenConcat([queued[count..]], rest);
      FlattenOne(queued[count..]);
      Associative(queued[..count], queued[count..], Flatten(rest));
      assert queued[..count] + queued[count..] == queued;
    } else {
      assert queued[..count] == queued;
      assert [] + rest == rest;
    }
  }

  lemma FlattenOne(batch: seq<EdgeEvent>)
    ensures Flatten([batch]) == batch
  {
    assert [batch][..0] == [];
  }

  /** Lines 160-182: read the pending events into the buffer and, when the
      read returned some, print them and the blank line after them. The
      caller aborts on a count that is not positive before anything is
      printed. */
  method ReadAndReport(gpio: Controller, buffer: EdgeEventBuffer, lastNs: u64, console: Console)
    returns (count: int, newLastNs: u64, ghost batch: seq<EdgeEvent>)
    requires gpio.requestHeld && buffer.Valid() && buffer.capacity == MaxEvents
    modifies gpio`trace, gpio`batchScript, buffer`numEvents, buffer.events, console
    ensures buffer.Valid()
    ensures gpio.trace == old(gpio.trace) + [ReadEdgeEvents(MaxEvents, count)]
    ensures count <= 0 ==> gpio.batchScript == old(gpio.batchScript) && console.lines == old(console.lines)
    ensures count <= 0 ==> count == -1 && (old(gpio.batchScript) == [] || old(gpio.batchScript[0]) == [])
    ensures gpio.batchScript == Left(old(gpio.batchScript), MaxEvents)
    ensures count > 0 ==> batch == Taken(old(gpio.batchScript), MaxEvents) && buffer.Contents() == batch
    ensures count > 0 ==>
      && |batch| == count <= MaxEvents
      && old(gpio.batchScript) != [] && batch <= old(gpio.batchScript[0])
      && batch + Flatten(gpio.batchScript) == Flatten(old(gpio.batchScript))
      && console.lines == old(console.lines) + BatchLines(batch, lastNs) + [""]
      && newLastNs == LastAfter(batch, lastNs)
  {
    ghost var queue := gpio.batchScript;
    count := gpio.ReadEdgeEvents(buffer, MaxEvents);
    batch := buffer.Contents();
    newLastNs := lastNs;
    if count > 0 {
      ReadKeepsStream(queue[0], queue[1..], count);
      assert queue == [queue[0]] + queue[1..];
      newLastNs := PrintBatch(buffer, lastNs, console);
      console.PrintLine("");
    }
  }

  /** The printf call "debounce time = %lu usec" of the reminder printed once
      the request is made. */
  function ReminderCall(): Line
  {
    Text("debounce time = ", Number(DebounceUs, Text(" usec", Done)))
  }

  function ReminderLine(): string
  {
    Render(ReminderCall())
  }

  const ReminderFormat: Format := Literal("debounce time = ", Conv(Literal(" usec", End)))

  /** The reminder reads back to the debounce period. */
  lemma ReminderRoundTrip()
    ensures ScanFormat(ReminderFormat, ReminderLine()) == Some(([DebounceUs], []))
  {
    var l2 := Text(" usec", Done);
    var l1 := Number(DebounceUs, l2);
    var l0 := Text("debounce time = ", l1);
    assert l0 == ReminderCall();
    assert Separated(l2) && !EndsInNumber(l2) && FormatOf(l2) == Literal(" usec", End) && ArgsOf(l2) == [];
    assert Separated(l1) && !EndsInNumber(l1) && FormatOf(l1) == Conv(FormatOf(l2));
    assert ArgsOf(l1) == [DebounceUs] + ArgsOf(l2) == [DebounceUs];
    assert Separated(l0) && !EndsInNumber(l0) && FormatOf(l0) == ReminderFormat && ArgsOf(l0) == ArgsOf(l1);
    ScanRender(l0, []);
    assert Render(l0) + [] == Render(l0);
  }

  /** Everything a session prints. */
  function SessionOutput(batches: seq<seq<EdgeEvent>>, stop: Stop): seq<string>
  {
    if stop.ChipOpenFailed? || stop.RequestFailed? then []
    else [ReminderLine()] + ReportLines(batches, 0)
  }

  /** The calls of the loop's last, unfinished round. */
  function LoopCalls(stop: Stop): seq<Call>
  {
    match stop
    case WaitInterrupted(w) => [WaitEdgeEvents(WaitForever, w)]
    case WaitFailed(w) => [WaitEdgeEvents(WaitForever, w)]
    case ReadFailed(w, n) => [WaitEdgeEvents(WaitForever, w), ReadEdgeEvents(MaxEvents, n)]
    case _ => []
  }

  /** Lines 148-182: one round of the monitoring loop after the quit check.
      The wait comes first; the read and the printing follow only when it
      returned 1, and the caller stops the loop on any other result. */
  method Round(gpio: Controller, buffer: EdgeEventBuffer, lastNs: u64, console: Console)
    returns (w: WaitResult, count: int, newLastNs: u64, ghost batch: seq<EdgeEvent>)
    requires gpio.requestHeld && buffer.Valid() && buffer.capacity == MaxEvents
    modifies gpio`trace, gpio`waitScript, gpio`batchScript, buffer`numEvents, buffer.events, console
    ensures buffer.Valid()
    ensures old(gpio.waitScript) == [] ==> w == WaitResult(-1, EINTR) && gpio.waitScript == []
    ensures old(gpio.waitScript) != [] ==> w == old(gpio.waitScript[0]) && gpio.waitScript == old(gpio.waitScript[1..])
    ensures w.ret != 1 ==>
      && gpio.trace == old(gpio.trace) + [WaitEdgeEvents(WaitForever, w)]
      && count == 0 && gpio.batchScript == old(gpio.batchScript) && console.lines == old(console.lines)
    ensures w.ret == 1 ==>
      gpio.trace == old(gpio.trace) + [WaitEdgeEvents(WaitForever, w), ReadEdgeEvents(MaxEvents, count)]
    ensures count <= 0 ==> gpio.batchScript == old(gpio.batchScript) && console.lines == old(console.lines)
    ensures w.ret == 1 && count <= 0 ==>
      count == -1 && (old(gpio.batchScript) == [] || old(gpio.batchScript[0]) == [])
    ensures w.ret == 1 ==> gpio.batchScript == Left(old(gpio.batchScript), MaxEvents)
    ensures count > 0 ==> batch == Taken(old(gpio.batchScript), MaxEvents) && buffer.Contents() == batch
    ensures count > 0 ==>
      && w.ret == 1 && 0 < |batch| == count <= MaxEvents
      && batch + Flatten(gpio.batchScript) == Flatten(old(gpio.batchScript))
      && console.lines == old(console.lines) + BatchLines(batch, lastNs) + [""]
      && newLastNs == LastAfter(batch, lastNs)
  {
    w := gpio.WaitEdgeEvents(WaitForever);
    count, newLastNs, batch := 0, lastNs, [];
    if w.ret == 1 {
      count, newLastNs, batch := ReadAndReport(gpio, buffer, lastNs, console);
    }
  }

  /** The queue of pending events after n reads that each found some. */
  function QueueAfter(queue: seq<seq<EdgeEvent>>, n: nat): seq<seq<EdgeEvent>>
  {
    if n == 0 then queue else Left(QueueAfter(queue, n - 1), MaxEvents)
  }

  /** Batch k was what read k took off the queue. */
  predicate ReadInTurn(queue: seq<seq<EdgeEvent>>, batches: seq<seq<EdgeEvent>>)
  {
    forall k | 0 <= k < |batches| :: batches[k] == Taken(QueueAfter(queue, k), MaxEvents)
  }

  /** One more read, of what the queue holds next, keeps the batches read in turn. */
  lemma QueueStep(queue: seq<seq<EdgeEvent>>, batches: seq<seq<EdgeEvent>>, batch: seq<EdgeEvent>)
    requires ReadInTurn(queue, batches) && batch == Taken(QueueAfter(queue, |batches|), MaxEvents)
    ensures ReadInTurn(queue, batches + [batch])
    ensures Left(QueueAfter(queue, |batches|), MaxEvents) == QueueAfter(queue, |batches + [batch]|)
  {
    var batches' := batches + [batch];
    forall k | 0 <= k < |batches'|
      ensures batches'[k] == Taken(QueueAfter(queue, k), MaxEvents)
    {
      if k < |batches| {
        assert batches'[k] == batches[k];
      }
    }
  }

  /** The state of the library, the buffer and the console when the loop starts. */
  datatype Start = Start(trace: seq<Call>, waitScript: seq<WaitResult>, batchScript: seq<seq<EdgeEvent>>, lines: seq<string>)

  /** After the full rounds that waited with waits and read batches: every
      call is in the trace, the scripts have been consumed that far, and
      every event read has been printed, in order, with last_ns at the last
      event printed. */
  ghost predicate Progress(gpio: Controller, console: Console, s: Start,
                           waits: seq<WaitResult>, batches: seq<seq<EdgeEvent>>, lastNs: u64)
    reads gpio, console
  {
    && |waits| == |batches| && gpio.trace == s.trace + CycleCalls(waits, batches)
    && (forall k | 0 <= k < |waits| :: waits[k].ret == 1)
    && s.waitScript == waits + gpio.waitScript
    && (forall k | 0 <= k < |batches| :: 0 < |batches[k]| <= MaxEvents)
    && ReadInTurn(s.batchScript, batches) && gpio.batchScript == QueueAfter(s.batchScript, |batches|)
    && Flatten(batches) + Flatten(gpio.batchScript) == Flatten(s.batchScript)
    && console.lines == s.lines + ReportLines(batches, 0)
    && lastNs == CursorAfter(batches, 0)
  }

  /** The loop has stopped for the reason stop after the full rounds that
      waited with waits and read batches. */
  ghost predicate Stopped(gpio: Controller, console: Console, s: Start,
                          waits: seq<WaitResult>, batches: seq<seq<EdgeEvent>>, stop: Stop)
    reads gpio, console
  {
    && StopConsistent(stop) && !stop.ChipOpenFailed? && !stop.RequestFailed?
    && |waits| == |batches| && gpio.trace == s.trace + CycleCalls(waits, batches) + LoopCalls(stop)
    && (forall k | 0 <= k < |waits| :: waits[k].ret == 1)
    && waits <= s.waitScript
    && (stop.QuitFlagSet? ==> s.waitScript == waits + gpio.waitScript)
    && (RoundStop(stop) ==> stop.w == NextWait(s.waitScript, |waits|))
    && (stop.ReadFailed? ==> stop.count == -1 && (gpio.batchScript == [] || gpio.batchScript[0] == []))
    && (forall k | 0 <= k < |batches| :: 0 < |batches[k]| <= MaxEvents)
    && ReadInTurn(s.batchScript, batches) && gpio.batchScript == QueueAfter(s.batchScript, |batches|)
    && Flatten(batches) + Flatten(gpio.batchScript) == Flatten(s.batchScript)
    && console.lines == s.lines + ReportLines(batches, 0)
  }

  /** Lines 148-183: one round of the loop after the quitting check. It
      either completes, adding one wait and one batch to the rounds done, or
      stops the loop. */
  method Cycle(gpio: Controller, buffer: EdgeEventBuffer, console: Console, ghost s: Start, lastNs: u64,
               ghost waits: seq<WaitResult>, ghost batches: seq<seq<EdgeEvent>>)
    returns (done: bool, stop: Stop, newLastNs: u64, ghost waits': seq<WaitResult>, ghost batches': seq<seq<EdgeEvent>>)
    requires gpio.requestHeld && buffer.Valid() && buffer.capacity == MaxEvents
    requires Progress(gpio, console, s, waits, batches, lastNs)
    modifies gpio`trace, gpio`waitScript, gpio`batchScript, buffer`numEvents, buffer.events, console
    ensures buffer.Valid()
    ensures !done ==> Progress(gpio, console, s, waits', batches', newLastNs) && |batches'| == |batches| + 1
    ensures !done ==> buffer.Contents() == batches'[|batches|]
    ensures done ==> Stopped(gpio, console, s, waits', batches', stop) && !stop.QuitFlagSet?
    ensures done ==> batches' == batches
  {
    ghost var waits0 := gpio.waitScript;
    var w, count;
    ghost var batch;
    w, count, newLastNs, batch := Round(gpio, buffer, lastNs, console);
    waits', batches' := waits, batches;
    stop := QuitFlagSet;
    done := true;
    if w.ret < 0 && w.errno == EINTR {
      stop := WaitInterrupted(w);
    } else if w.ret != 1 {
      stop := WaitFailed(w);
    } else if count <= 0 {
      stop := ReadFailed(w, count);
    } else {
      LoopStep(s.trace, s.lines, waits, batches, waits0, w, batch, lastNs);
      QueueStep(s.batchScript, batches, batch);
      done := false;
      batches', waits' := batches + [batch], waits + [w];
    }
  }

  /** Lines 143-184: the monitoring loop, up to the point where it stops. */
  method Monitor(gpio: Controller, sigint: Interrupt, buffer: EdgeEventBuffer, console: Console)
    returns (stop: Stop, ghost waits: seq<WaitResult>, ghost batches: seq<seq<EdgeEvent>>)
    requires gpio.requestHeld && buffer.Valid() && buffer.capacity == MaxEvents
    modifies gpio`trace, gpio`waitScript, gpio`batchScript, buffer`numEvents, buffer.events, sigint, console
    ensures Stopped(gpio, console, Start(old(gpio.trace), old(gpio.waitScript), old(gpio.batchScript), old(console.lines)),
                    waits, batches, stop)
    ensures |batches| <= old(sigint.checksBeforeInterrupt)
    ensures stop == QuitFlagSet ==> |batches| == old(sigint.checksBeforeInterrupt)
    ensures stop != QuitFlagSet ==> |batches| < old(sigint.checksBeforeInterrupt)
  {
    ghost var s := Start(gpio.trace, gpio.waitScript, gpio.batchScript, console.lines);
    waits, batches := [], [];
    var lastNs: u64 := 0;
    stop := QuitFlagSet;
    while true
      invariant buffer.Valid()
      invariant Progress(gpio, console, s, waits, batches, lastNs)
      invariant |batches| + sigint.checksBeforeInterrupt == old(sigint.checksBeforeInterrupt)
      decreases sigint.checksBeforeInterrupt
    {
      var quitting := sigint.Quitting();
      if quitting {
        stop := QuitFlagSet;
        assert gpio.trace + LoopCalls(stop) == gpio.trace;
        break;
      }
      var done;
      done, stop, lastNs, waits, batches := Cycle(gpio, buffer, console, s, lastNs, waits, batches);
      if done {
        break;
      }
    }
  }

  /** The bookkeeping of one full round of the loop, on values. */
  lemma LoopStep(trace0: seq<Call>, lines0: seq<string>, waits: seq<WaitResult>, batches: seq<seq<EdgeEvent>>,
                 waitScript: seq<WaitResult>, w: WaitResult, batch: seq<EdgeEvent>, lastNs: u64)
    requires |waits| == |batches| && waitScript != [] && w == waitScript[0]
    ensures (trace0 + CycleCalls(waits, batches)) + [WaitEdgeEvents(WaitForever, w), ReadEdgeEvents(MaxEvents, |batch|)]
         == trace0 + CycleCalls(waits + [w], batches + [batch])
    ensures waits + waitScript == (waits + [w]) + waitScript[1..]
    ensures CursorAfter(batches, 0) == lastNs ==>
      (lines0 + ReportLines(batches, 0)) + BatchLines(batch, lastNs) + [""] == lines0 + ReportLines(batches + [batch], 0)
    ensures CursorAfter(batches + [batch], 0) == LastAfter(batch, CursorAfter(batches, 0))
    ensures forall rest :: Flatten(batches) + (batch + rest) == Flatten(batches + [batch]) + rest
  {
    CycleCallsExtend(waits, batches, w, batch);
    Associative(trace0, CycleCalls(waits, batches), [WaitEdgeEvents(WaitForever, w), ReadEdgeEvents(MaxEvents, |batch|)]);
    assert waitScript == [w] + waitScript[1..];
    Associative(waits, [w], waitScript[1..]);
    ReportExtends(batches, batch);
    Associative(lines0, ReportLines(batches, 0), BatchLines(batch, CursorAfter(batches, 0)));
    Associative(lines0, ReportLines(batches, 0) + BatchLines(batch, CursorAfter(batches, 0)), [""]);
    FlattenExtends(batches, batch);
    forall rest: seq<EdgeEvent> {
      Associative(Flatten(batches), batch, rest);
    }
  }

  /** input_events.cpp main, from the buffer allocation to the return. */
  method Run(gpio: Controller, sigint: Interrupt, console: Console)
    returns (exit: Exit, ghost waits: seq<WaitResult>, ghost batches: seq<seq<EdgeEvent>>, ghost stop: Stop)
    requires gpio.Idle()
    modifies gpio, sigint, console
    ensures StopConsistent(stop) && exit == Outcome(stop)
    ensures stop == ChipOpenFailed <==> !gpio.chipPresent
    ensures stop == RequestFailed <==> gpio.chipPresent && !gpio.requestGranted
    ensures |waits| == |batches| && gpio.trace == SessionTrace(waits, batches, stop)
    ensures forall k | 0 <= k < |waits| :: waits[k].ret == 1
    ensures waits <= old(gpio.waitScript)
    ensures RoundStop(stop) ==> stop.w == NextWait(old(gpio.waitScript), |waits|)
    ensures stop.ReadFailed? ==> stop.count == -1 && (gpio.batchScript == [] || gpio.batchScript[0] == [])
    ensures forall k | 0 <= k < |batches| :: 0 < |batches[k]| <= MaxEvents
    ensures ReadInTurn(old(gpio.batchScript), batches) && gpio.batchScript == QueueAfter(old(gpio.batchScript), |batches|)
    ensures Flatten(batches) + Flatten(gpio.batchScript) == Flatten(old(gpio.batchScript))
    ensures console.lines == old(console.lines) + SessionOutput(batches, stop)
    ensures |batches| <= old(sigint.checksBeforeInterrupt)
    ensures stop == QuitFlagSet ==> |batches| == old(sigint.checksBeforeInterrupt)
    ensures RoundStop(stop) ==> |batches| < old(sigint.checksBeforeInterrupt)
    ensures exit == Returned(0) ==> !gpio.requestHeld && !gpio.chipOpen
  {
    waits, batches := [], [];
    var buffer := new EdgeEventBuffer(MaxEvents);
    var chipOk := gpio.OpenChip(ChipPath);
    if !chipOk {
      stop := ChipOpenFailed;
      return AssertionFailed("chip != nullptr"), waits, batches, stop;
    }
    var granted := gpio.RequestLines(Consumer, Config());
    if !granted {
      stop := RequestFailed;
      return AssertionFailed("request != nullptr"), waits, batches, stop;
    }
    assert gpio.trace == SetupCalls();
    exit, waits, batches, stop := Session(gpio, sigint, buffer, console);
  }

  /** Lines 138-190: the reminder, the loop and, when the loop ends without a
      failed assert, the release of the request and the chip. */
  method Session(gpio: Controller, sigint: Interrupt, buffer: EdgeEventBuffer, console: Console)
    returns (exit: Exit, ghost waits: seq<WaitResult>, ghost batches: seq<seq<EdgeEvent>>, ghost stop: Stop)
    requires gpio.requestHeld && gpio.chipOpen && buffer.Valid() && buffer.capacity == MaxEvents
    modifies gpio, buffer`numEvents, buffer.events, sigint, console
    ensures StopConsistent(stop) && !stop.ChipOpenFailed? && !stop.RequestFailed? && exit == Outcome(stop)
    ensures |waits| == |batches| && gpio.trace == old(gpio.trace) + CycleCalls(waits, batches) + StopCalls(stop)
    ensures forall k | 0 <= k < |waits| :: waits[k].ret == 1
    ensures waits <= old(gpio.waitScript)
    ensures RoundStop(stop) ==> stop.w == NextWait(old(gpio.waitScript), |waits|)
    ensures stop.ReadFailed? ==> stop.count == -1 && (gpio.batchScript == [] || gpio.batchScript[0] == [])
    ensures forall k | 0 <= k < |batches| :: 0 < |batches[k]| <= MaxEvents
    ensures ReadInTurn(old(gpio.batchScript), batches) && gpio.batchScript == QueueAfter(old(gpio.batchScript), |batches|)
    ensures Flatten(batches) + Flatten(gpio.batchScript) == Flatten(old(gpio.batchScript))
    ensures console.lines == old(console.lines) + ([ReminderLine()] + ReportLines(batches, 0))
    ensures |batches| <= old(sigint.checksBeforeInterrupt)
    ensures stop == QuitFlagSet ==> |batches| == old(sigint.checksBeforeInterrupt)
    ensures stop != QuitFlagSet ==> |batches| < old(sigint.checksBeforeInterrupt)
    ensures exit == Returned(0) ==> !gpio.requestHeld && !gpio.chipOpen
  {
    console.PrintLine(ReminderLine());
    ghost var trace0 := gpio.trace;
    var ended;
    ended, waits, batches := Monitor(gpio, sigint, buffer, console);
    stop := ended;
    Associative(old(console.lines), [ReminderLine()], ReportLines(batches, 0));
    exit := Finish(gpio, ended);
    StopCallsSplit(stop);
    Associative(trace0 + CycleCalls(waits, batches), LoopCalls(stop), Teardown(stop));
  }

  /** Lines 184-190, reached when the loop ends without a failed assert:
      release the request, close the chip and return 0. */
  method Finish(gpio: Controller, stop: Stop) returns (exit: Exit)
    requires gpio.requestHeld && gpio.chipOpen
    modifies gpio`trace, gpio`requestHeld, gpio`chipOpen
    ensures exit == Outcome(stop)
    ensures gpio.trace == old(gpio.trace) + Teardown(stop)
    ensures exit == Returned(0) ==> !gpio.requestHeld && !gpio.chipOpen
  {
    if stop.QuitFlagSet? || stop.WaitInterrupted? {
      gpio.Release();
      gpio.CloseChip();
      exit := Returned(0);
    } else {
      exit := Outcome(stop);
    }
  }

  /** The calls main makes after the loop: release and close when it returns. */
  function Teardown(stop: Stop): seq<Call>
  {
    if Outcome(stop) == Returned(0) then [RequestRelease, ChipClose] else []
  }

  lemma StopCallsSplit(stop: Stop)
    requires !stop.ChipOpenFailed? && !stop.RequestFailed?
    ensures StopCalls(stop) == LoopCalls(stop) + Teardown(stop)
  {
  }
}
