/** The part of libgpiod (version 2 API) and of the kernel's GPIO character
    device that the example programs use, seen from the outside. Each library
    call becomes a method of Controller that records itself, with the result
    it returned, in a ghost trace; what the hardware answers (whether the chip
    opens, whether the lines are granted, what each wait returns, what each
    read delivers, what each sample reads) is a script fixed when the
    Controller is created. */
module Gpiod {

  const TWO_64: int := 0x1_0000_0000_0000_0000

  /** C's unsigned int and uint64_t / unsigned long (LP64). */
  type u32 = x: int | 0 <= x < 0x1_0000_0000
  type u64 = x: int | 0 <= x < 0x1_0000_0000_0000_0000

  /** errno value of an interrupted system call on Linux. */
  const EINTR: int := 4

  /** enum gpiod_line_value, apart from GPIOD_LINE_VALUE_ERROR, which only
      the single-line getter returns. */
  datatype LineValue = Inactive | Active

  /** enum gpiod_edge_event_type. */
  datatype EdgeType = RisingEdge | FallingEdge

  /** struct gpiod_edge_event, as its getters report it. */
  datatype EdgeEvent = EdgeEvent(
    globalSeqno: u64,
    lineSeqno: u64,
    lineOffset: u32,
    eventType: EdgeType,
    timestampNs: u64)

  datatype Direction = DirectionAsIs | Input | Output
  datatype EdgeDetection = EdgeNone | EdgeRising | EdgeFalling | EdgeBoth
  datatype Bias = BiasAsIs | BiasDisabled | PullUp | PullDown
  datatype Drive = PushPull | OpenDrain | OpenSource
  datatype EventClock = Monotonic | Realtime | Hte

  /** struct gpiod_line_settings. */
  datatype LineSettings = LineSettings(
    direction: Direction,
    edgeDetection: EdgeDetection,
    bias: Bias,
    drive: Drive,
    activeLow: bool,
    debouncePeriodUs: nat,
    eventClock: EventClock,
    outputValue: LineValue)

  /** What gpiod_line_settings_new starts from. */
  function DefaultSettings(): LineSettings
  {
    LineSettings(DirectionAsIs, EdgeNone, BiasAsIs, PushPull, false, 0, Monotonic, Inactive)
  }

  /** struct gpiod_line_config as the programs fill it: one settings object
      attached to every offset, and optionally one output value per offset,
      in the order of the offsets. */
  datatype LineConfig = LineConfig(
    offsets: seq<u32>,
    settings: LineSettings,
    outputValues: seq<LineValue>)

  /** The return value of gpiod_line_request_wait_edge_events together with
      the errno the call left behind. */
  datatype WaitResult = WaitResult(ret: int, errno: int)

  predicate Interrupted(w: WaitResult) { w.ret < 0 && w.errno == EINTR }

  /** One scripted answer to gpiod_line_request_get_values. */
  datatype Sample = Sampled(levels: seq<LineValue>) | SampleError

  /** One library call, with what it returned. */
  datatype Call =
    | ChipOpen(path: string, succeeded: bool)
    | RequestLines(consumer: string, config: LineConfig, granted: bool)
    | WaitEdgeEvents(timeoutNs: int, result: WaitResult)
    | ReadEdgeEvents(maxEvents: int, count: int)
    | GetValues(ret: int)
    | SetValues(values: seq<LineValue>)
    | SetValue(offset: u32, value: LineValue)
    | RequestRelease
    | ChipClose

  /** How often c occurs in t. */
  function Occurrences(t: seq<Call>, c: Call): nat
    decreases |t|
  {
    if t == [] then 0
    else Occurrences(t[..|t| - 1], c) + (if t[|t| - 1] == c then 1 else 0)
  }

  lemma {:induction false} OccurrencesAppend(a: seq<Call>, b: seq<Call>, c: Call)
    ensures Occurrences(a + b, c) == Occurrences(a, c) + Occurrences(b, c)
    decreases |b|
  {
    if b == [] {
      assert a + b == a;
    } else {
      assert (a + b)[..|a + b| - 1] == a + b[..|b| - 1];
      OccurrencesAppend(a, b[..|b| - 1], c);
    }
  }

  lemma OccurrencesSingleton(x: Call, c: Call)
    ensures Occurrences([x], c) == if x == c then 1 else 0
  {
    assert [x][..0] == [];
  }

  lemma OccurrencesSnoc(a: seq<Call>, x: Call, c: Call)
    ensures Occurrences(a + [x], c) == Occurrences(a, c) + (if x == c then 1 else 0)
  {
    assert (a + [x])[..|a|] == a;
  }

  /** Releasing the request and then closing the chip adds one of each, as
      the last two calls. */
  lemma ReleaseThenClose(calls: seq<Call>)
    ensures Occurrences(calls + [RequestRelease, ChipClose], RequestRelease) == Occurrences(calls, RequestRelease) + 1
    ensures Occurrences(calls + [RequestRelease, ChipClose], ChipClose) == Occurrences(calls, ChipClose) + 1
    ensures (calls + [RequestRelease, ChipClose])[|calls|..] == [RequestRelease, ChipClose]
  {
    OccurrencesPair(RequestRelease, ChipClose, RequestRelease);
    OccurrencesPair(RequestRelease, ChipClose, ChipClose);
    OccurrencesAppend(calls, [RequestRelease, ChipClose], RequestRelease);
    OccurrencesAppend(calls, [RequestRelease, ChipClose], ChipClose);
  }

  lemma OccurrencesPair(x: Call, y: Call, c: Call)
    ensures Occurrences([x, y], c) == (if x == c then 1 else 0) + (if y == c then 1 else 0)
  {
    assert [x, y][..1] == [x];
    OccurrencesSingleton(x, c);
  }

  /** The events a read with room for maxEvents takes off the queue: the head
      batch, cut to maxEvents; nothing when the head is missing or empty. */
  function Taken(queue: seq<seq<EdgeEvent>>, maxEvents: nat): seq<EdgeEvent>
  {
    if queue == [] || queue[0] == [] then []
    else if |queue[0]| <= maxEvents then queue[0]
    else queue[0][..maxEvents]
  }

  /** The queue after that read: what the read left of the head batch stays
      first; a read that found nothing leaves the queue as it was. */
  function Left(queue: seq<seq<EdgeEvent>>, maxEvents: nat): seq<seq<EdgeEvent>>
  {
    if queue == [] || queue[0] == [] then queue
    else (if maxEvents < |queue[0]| then [queue[0][maxEvents..]] else []) + queue[1..]
  }

  /** struct gpiod_edge_event_buffer: a fixed-capacity array that every read
      refills from index 0, and the number of events the last read stored. */
  class EdgeEventBuffer {
    const capacity: nat
    const events: array<EdgeEvent>
    var numEvents: nat

    ghost predicate Valid()
      reads this
    {
      events.Length == capacity && numEvents <= capacity
    }

    /** gpiod_edge_event_buffer_new(capacity). */
    constructor (capacity: nat)
      ensures Valid() && fresh(events)
      ensures this.capacity == capacity && numEvents == 0
    {
      this.capacity := capacity;
      events := new EdgeEvent[capacity](_ => EdgeEvent(0, 0, 0, FallingEdge, 0));
      numEvents := 0;
    }

    /** The events the last read stored, in buffer index order. */
    ghost function Contents(): seq<EdgeEvent>
      reads this, events
      requires Valid()
    {
      events[..numEvents]
    }
  }

  /** A GPIO chip, the one line request the programs make on it, and the
      kernel behind both. */
  class Controller {
    /** Every call made so far, in order. */
    ghost var trace: seq<Call>
    var chipOpen: bool
    var requestHeld: bool

    // The script.
    const chipPresent: bool
    const requestGranted: bool
    var waitScript: seq<WaitResult>
    var batchScript: seq<seq<EdgeEvent>>
    var sampleScript: seq<Sample>

    ghost predicate Idle()
      reads this
    {
      trace == [] && !chipOpen && !requestHeld
    }

    constructor (chipPresent: bool, requestGranted: bool, waits: seq<WaitResult>,
                 batches: seq<seq<EdgeEvent>>, samples: seq<Sample>)
      ensures Idle()
      ensures this.chipPresent == chipPresent && this.requestGranted == requestGranted
      ensures waitScript == waits && batchScript == batches && sampleScript == samples
    {
      trace := [];
      chipOpen, requestHeld := false, false;
      this.chipPresent, this.requestGranted := chipPresent, requestGranted;
      waitScript, batchScript, sampleScript := waits, batches, samples;
    }

    /** gpiod_chip_open: a null result is modelled as ok == false. */
    method OpenChip(path: string) returns (ok: bool)
      requires !chipOpen
      modifies this`trace, this`chipOpen
      ensures ok == chipPresent && chipOpen == ok
      ensures trace == old(trace) + [ChipOpen(path, ok)]
    {
      ok := chipPresent;
      chipOpen := ok;
      trace := trace + [ChipOpen(path, ok)];
    }

    /** gpiod_chip_request_lines: a null result is modelled as granted == false. */
    method RequestLines(consumer: string, config: LineConfig) returns (granted: bool)
      requires chipOpen && !requestHeld
      modifies this`trace, this`requestHeld
      ensures granted == requestGranted && requestHeld == granted
      ensures trace == old(trace) + [Call.RequestLines(consumer, config, granted)]
    {
      granted := requestGranted;
      requestHeld := granted;
      trace := trace + [Call.RequestLines(consumer, config, granted)];
    }

    /** gpiod_line_request_wait_edge_events: 1 when events are ready, 0 on
        timeout, -1 on error. Once the script is used up the wait blocks
        until the operator's interrupt breaks it off with EINTR. */
    method WaitEdgeEvents(timeoutNs: int) returns (result: WaitResult)
      requires requestHeld
      modifies this`trace, this`waitScript
      ensures old(waitScript) == [] ==> result == WaitResult(-1, EINTR) && waitScript == []
      ensures old(waitScript) != [] ==> result == old(waitScript[0]) && waitScript == old(waitScript[1..])
      ensures trace == old(trace) + [Call.WaitEdgeEvents(timeoutNs, result)]
    {
      if waitScript == [] {
        result := WaitResult(-1, EINTR);
      } else {
        result := waitScript[0];
        waitScript := waitScript[1..];
      }
      trace := trace + [Call.WaitEdgeEvents(timeoutNs, result)];
    }

    /** gpiod_line_request_read_edge_events: stores up to maxEvents of the
        queued events into the buffer from index 0 (never appending) and
        returns how many it stored; events beyond maxEvents stay queued for
        the next read. With nothing queued the read fails with -1. */
    method ReadEdgeEvents(buffer: EdgeEventBuffer, maxEvents: int) returns (count: int)
      requires requestHeld && buffer.Valid() && 0 < maxEvents <= buffer.capacity
      modifies this`trace, this`batchScript, buffer`numEvents, buffer.events
      ensures buffer.Valid()
      ensures trace == old(trace) + [Call.ReadEdgeEvents(maxEvents, count)]
      ensures old(batchScript) == [] || old(batchScript[0]) == [] ==>
        count == -1 && batchScript == old(batchScript) &&
        buffer.numEvents == old(buffer.numEvents) && buffer.events[..] == old(buffer.events[..])
      ensures old(batchScript) != [] && old(batchScript[0]) != [] ==>
        var queued := old(batchScript[0]);
        && count == (if |queued| <= maxEvents then |queued| else maxEvents)
        && 0 < count <= maxEvents
        && buffer.numEvents == count
        && buffer.events[..count] == queued[..count]
        && buffer.events[count..] == old(buffer.events[count..])
        && batchScript == (if count < |queued| then [queued[count..]] else []) + old(batchScript[1..])
      ensures count == (if Taken(old(batchScript), maxEvents) == [] then -1 else |Taken(old(batchScript), maxEvents)|)
      ensures count > 0 ==> buffer.events[..count] == Taken(old(batchScript), maxEvents)
      ensures batchScript == Left(old(batchScript), maxEvents)
    {
      if batchScript == [] || batchScript[0] == [] {
        count := -1;
      } else {
        var queued := batchScript[0];
        count := if |queued| <= maxEvents then |queued| else maxEvents;
        forall i | 0 <= i < count {
          buffer.events[i] := queued[i];
        }
        buffer.numEvents := count;
        batchScript := (if count < |queued| then [queued[count..]] else []) + batchScript[1..];
      }
      trace := trace + [Call.ReadEdgeEvents(maxEvents, count)];
    }

    /** gpiod_line_request_get_values: fills values with the current level
        of every requested line and returns 0, or returns -1 on failure. */
    method GetValues(values: array<LineValue>) returns (ret: int)
      requires requestHeld
      modifies this`trace, this`sampleScript, values
      ensures trace == old(trace) + [Call.GetValues(ret)]
      ensures old(sampleScript) == [] ==>
        ret == -1 && sampleScript == [] && values[..] == old(values[..])
      ensures old(sampleScript) != [] ==> sampleScript == old(sampleScript[1..])
      ensures old(sampleScript) != [] ==>
        var s := old(sampleScript[0]);
        if s.Sampled? && |s.levels| == values.Length then ret == 0 && values[..] == s.levels
        else ret == -1 && values[..] == old(values[..])
    {
      if sampleScript == [] {
        ret := -1;
      } else {
        var s := sampleScript[0];
        sampleScript := sampleScript[1..];
        if s.Sampled? && |s.levels| == values.Length {
          forall i | 0 <= i < values.Length {
            values[i] := s.levels[i];
          }
          ret := 0;
        } else {
          ret := -1;
        }
      }
      trace := trace + [Call.GetValues(ret)];
    }

    /** gpiod_line_request_set_values; every caller ignores its result. */
    method SetValues(values: seq<LineValue>)
      requires requestHeld
      modifies this`trace
      ensures trace == old(trace) + [Call.SetValues(values)]
    {
      trace := trace + [Call.SetValues(values)];
    }

    /** gpiod_line_request_set_value; every caller ignores its result. */
    method SetValue(offset: u32, value: LineValue)
      requires requestHeld
      modifies this`trace
      ensures trace == old(trace) + [Call.SetValue(offset, value)]
    {
      trace := trace + [Call.SetValue(offset, value)];
    }

    /** gpiod_line_request_release: frees the request, so it may happen once. */
    method Release()
      requires requestHeld
      modifies this`trace, this`requestHeld
      ensures !requestHeld
      ensures trace == old(trace) + [RequestRelease]
    {
      requestHeld := false;
      trace := trace + [RequestRelease];
    }

    /** gpiod_chip_close: frees the chip, so it may happen once. */
    method CloseChip()
      requires chipOpen
      modifies this`trace, this`chipOpen
      ensures !chipOpen
      ensures trace == old(trace) + [ChipClose]
    {
      chipOpen := false;
      trace := trace + [ChipClose];
    }
  }
}
