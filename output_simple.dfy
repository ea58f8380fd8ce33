/** output_simple.cpp: request GPIO23 and GPIO24 as push-pull outputs and
    drive them as a two-bit counter, GPIO23 the low bit, one step per round,
    until ctrl-c; then drive both low and let go of them. */
module OutputSimple {
  import opened Gpiod
  import opened Process
  import opened Seqs

  const ChipPath: string := "/dev/gpiochip0"
  const Consumer: string := "output_simple"
  const LsbGpioNum: u32 := 23
  const MsbGpioNum: u32 := 24
  const GpioPinCnt: nat := 2
  const CodeMax: nat := 4

  /** offsets[]: the pins, low bit first. */
  const Offsets: seq<u32> := [LsbGpioNum, MsbGpioNum]

  /** init_values[]: the levels the lines take when they are requested. */
  const InitValues: seq<LineValue> := [Active, Inactive]

  /** code_values[]: the levels of both pins for each counter value. */
  const CodeValues: seq<seq<LineValue>> := [
    [Inactive, Inactive],
    [Active, Inactive],
    [Inactive, Active],
    [Active, Active]
  ]

  /** The line configuration handed to the request. */
  function Config(): LineConfig
  {
    LineConfig(Offsets, DefaultSettings().(direction := Output, drive := PushPull), InitValues)
  }

  // ---------------------------------------------------------------------
  // The counter

  function Bit(v: LineValue): nat
  {
    if v == Active then 1 else 0
  }

  /** The number two pin levels show, reading the first as the low bit. */
  function CodeOf(levels: seq<LineValue>): nat
    requires |levels| == GpioPinCnt
  {
    Bit(levels[0]) + 2 * Bit(levels[1])
  }

  /** The table is the two-bit binary encoding: entry c shows c, and every
      pair of levels is the entry of the number it shows. */
  lemma CodeValuesEncode()
    ensures |CodeValues| == CodeMax
    ensures forall c | 0 <= c < CodeMax :: |CodeValues[c]| == GpioPinCnt && CodeOf(CodeValues[c]) == c
    ensures forall c | 0 <= c < CodeMax ::
      (CodeValues[c][0] == Active <==> c % 2 == 1) && (CodeValues[c][1] == Active <==> c >= 2)
    ensures forall levels: seq<LineValue> | |levels| == GpioPinCnt ::
      CodeOf(levels) < CodeMax && CodeValues[CodeOf(levels)] == levels
  {
    forall levels: seq<LineValue> | |levels| == GpioPinCnt
      ensures CodeOf(levels) < CodeMax && CodeValues[CodeOf(levels)] == levels
    {
      assert levels == [levels[0], levels[1]];
    }
  }

  /** Lines 152-153: `++code`, wrapping to 0 at code_max. */
  function Next(code: nat): nat
  {
    if code + 1 >= CodeMax then 0 else code + 1
  }

  /** The step counts modulo four and never leaves the table. */
  lemma NextCounts(code: nat)
    requires code < CodeMax
    ensures Next(code) < CodeMax && Next(code) == (code + 1) % CodeMax
  {
  }

  /** The first k writes of the loop: write i sets the levels of code i mod 4. */
  function CounterWrites(k: nat): seq<Call>
  {
    if k == 0 then [] else CounterWrites(k - 1) + [SetValues(CodeValues[(k - 1) % CodeMax])]
  }

  /** Write i of the loop shows i modulo four on the pins, and only writes
      of the loop are in it. */
  lemma {:induction false} CounterWriteAt(k: nat, i: nat)
    requires i < k
    ensures |CounterWrites(k)| == k
    ensures CounterWrites(k)[i].SetValues?
    ensures |CounterWrites(k)[i].values| == GpioPinCnt && CodeOf(CounterWrites(k)[i].values) == i % CodeMax
  {
    CounterLength(k);
    CodeValuesEncode();
    if i < k - 1 {
      CounterWriteAt(k - 1, i);
    }
  }

  lemma {:induction false} CounterLength(k: nat)
    ensures |CounterWrites(k)| == k
  {
    if k > 0 {
      CounterLength(k - 1);
    }
  }

  /** Consecutive writes of the loop step the counter by one, from 3 back to 0. */
  lemma CounterSteps(k: nat, i: nat)
    requires i + 1 < k
    ensures |CounterWrites(k)| == k && CounterWrites(k)[i].SetValues? && CounterWrites(k)[i + 1].SetValues?
    ensures |CounterWrites(k)[i].values| == GpioPinCnt && |CounterWrites(k)[i + 1].values| == GpioPinCnt
    ensures CodeOf(CounterWrites(k)[i + 1].values) == Next(CodeOf(CounterWrites(k)[i].values))
  {
    CounterWriteAt(k, i);
    CounterWriteAt(k, i + 1);
  }

  lemma {:induction false} CounterKeepsHandles(k: nat)
    ensures Occurrences(CounterWrites(k), RequestRelease) == 0 && Occurrences(CounterWrites(k), ChipClose) == 0
  {
    if k > 0 {
      var w := SetValues(CodeValues[(k - 1) % CodeMax]);
      CounterKeepsHandles(k - 1);
      OccurrencesSnoc(CounterWrites(k - 1), w, RequestRelease);
      OccurrencesSnoc(CounterWrites(k - 1), w, ChipClose);
    }
  }

  /** Lines 139-155: the loop, which writes one counter value per round
      until `quitting` is seen. */
  method Count(gpio: Controller, sigint: Interrupt) returns (ghost k: nat)
    requires gpio.requestHeld
    modifies gpio`trace, sigint
    ensures gpio.trace == old(gpio.trace) + CounterWrites(k)
    ensures k == old(sigint.checksBeforeInterrupt) && sigint.checksBeforeInterrupt == 0
  {
    var code := 0;
    k := 0;
    while true
      invariant code == k % CodeMax
      invariant gpio.trace == old(gpio.trace) + CounterWrites(k)
      invariant k + sigint.checksBeforeInterrupt == old(sigint.checksBeforeInterrupt)
      decreases sigint.checksBeforeInterrupt
    {
      var quitting := sigint.Quitting();
      if quitting {
        break;
      }
      gpio.SetValues(CodeValues[code]);
      code := Next(code);
      k := k + 1;
    }
  }

  // ---------------------------------------------------------------------
  // The whole program

  datatype Stop = ChipOpenFailed | RequestFailed | QuitFlagSet

  function Outcome(stop: Stop): Exit
  {
    match stop
    case ChipOpenFailed => AssertionFailed("chip != nullptr")
    case RequestFailed => AssertionFailed("request != nullptr")
    case QuitFlagSet => Returned(0)
  }

  function SetupCalls(): seq<Call>
  {
    [ChipOpen(ChipPath, true), RequestLines(Consumer, Config(), true)]
  }

  /** Lines 158-165: drive both pins low, release the request, close the chip. */
  function TeardownCalls(): seq<Call>
  {
    [SetValues(CodeValues[0]), RequestRelease, ChipClose]
  }

  /** Every library call of a session whose loop ran k rounds. */
  function SessionTrace(k: nat, stop: Stop): seq<Call>
  {
    match stop
    case ChipOpenFailed => [ChipOpen(ChipPath, false)]
    case RequestFailed => [ChipOpen(ChipPath, true), RequestLines(Consumer, Config(), false)]
    case QuitFlagSet => SetupCalls() + CounterWrites(k) + TeardownCalls()
  }

  /** A session that returns drives both pins low as its last write, then
      releases the request and closes the chip, each exactly once; one that
      aborts on a failed assert does neither. */
  lemma TeardownOnce(k: nat, stop: Stop)
    ensures var t := SessionTrace(k, stop);
      && Occurrences(t, RequestRelease) == (if Outcome(stop) == Returned(0) then 1 else 0)
      && Occurrences(t, ChipClose) == (if Outcome(stop) == Returned(0) then 1 else 0)
      && (Outcome(stop) == Returned(0) ==>
            |t| >= 3 && t[|t| - 3..] == [SetValues([Inactive, Inactive]), RequestRelease, ChipClose])
  {
    if stop.ChipOpenFailed? {
      OccurrencesSingleton(ChipOpen(ChipPath, false), RequestRelease);
      OccurrencesSingleton(ChipOpen(ChipPath, false), ChipClose);
    } else if stop.RequestFailed? {
      OccurrencesPair(ChipOpen(ChipPath, true), RequestLines(Consumer, Config(), false), RequestRelease);
      OccurrencesPair(ChipOpen(ChipPath, true), RequestLines(Consumer, Config(), false), ChipClose);
    } else {
      var head := SetupCalls() + CounterWrites(k);
      OccurrencesPair(ChipOpen(ChipPath, true), RequestLines(Consumer, Config(), true), RequestRelease);
      OccurrencesPair(ChipOpen(ChipPath, true), RequestLines(Consumer, Config(), true), ChipClose);
      CounterKeepsHandles(k);
      OccurrencesAppend(SetupCalls(), CounterWrites(k), RequestRelease);
      OccurrencesAppend(SetupCalls(), CounterWrites(k), ChipClose);
      assert TeardownCalls() == [SetValues(CodeValues[0])] + [RequestRelease, ChipClose];
      Associative(head, [SetValues(CodeValues[0])], [RequestRelease, ChipClose]);
      OccurrencesSnoc(head, SetValues(CodeValues[0]), RequestRelease);
      OccurrencesSnoc(head, SetValues(CodeValues[0]), ChipClose);
      ReleaseThenClose(head + [SetValues(CodeValues[0])]);
      EndsWith(head, TeardownCalls());
    }
  }

  /** output_simple.cpp main, from the chip open to the return. */
  method Run(gpio: Controller, sigint: Interrupt) returns (exit: Exit, ghost k: nat, ghost stop: Stop)
    requires gpio.Idle()
    modifies gpio, sigint
    ensures exit == Outcome(stop) && gpio.trace == SessionTrace(k, stop)
    ensures stop == ChipOpenFailed <==> !gpio.chipPresent
    ensures stop == RequestFailed <==> gpio.chipPresent && !gpio.requestGranted
    ensures stop == QuitFlagSet ==> k == old(sigint.checksBeforeInterrupt)
    ensures exit == Returned(0) ==> !gpio.requestHeld && !gpio.chipOpen
  {
    k := 0;
    var chipOk := gpio.OpenChip(ChipPath);
    if !chipOk {
      stop := ChipOpenFailed;
      return AssertionFailed("chip != nullptr"), k, stop;
    }
    var granted := gpio.RequestLines(Consumer, Config());
    if !granted {
      stop := RequestFailed;
      return AssertionFailed("request != nullptr"), k, stop;
    }
    assert gpio.trace == SetupCalls();
    k := Count(gpio, sigint);
    gpio.SetValues(CodeValues[0]);
    gpio.Release();
    gpio.CloseChip();
    stop := QuitFlagSet;
    exit := Returned(0);
    assert gpio.trace == SetupCalls() + CounterWrites(k) + TeardownCalls();
  }
}
