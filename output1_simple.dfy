/** output1_simple.cpp: request GPIO23 as a push-pull output, close the chip
    straight after the request, and toggle the pin once per round until
    ctrl-c; then drive it low and release it. */
module Output1Simple {
  import opened Gpiod
  import opened Process
  import opened Seqs

  const ChipPath: string := "/dev/gpiochip0"
  const Consumer: string := "output1_simple"
  const GpioNum: u32 := 23

  /** init_value: the level the line takes when it is requested. */
  const InitValue: LineValue := Inactive

  /** code_values[]: code 0 is low, code 1 is high. */
  const CodeValues: seq<LineValue> := [Inactive, Active]

  /** The line configuration handed to the request. */
  function Config(): LineConfig
  {
    LineConfig([GpioNum], DefaultSettings().(direction := Output, drive := PushPull), [InitValue])
  }

  // ---------------------------------------------------------------------
  // The toggle

  /** Line 136: `code = 1 - code`. */
  function Flip(code: int): int
  {
    1 - code
  }

  /** The flip keeps the code in the table, swaps its two entries and is
      its own inverse. */
  lemma FlipToggles(code: int)
    requires 0 <= code < |CodeValues|
    ensures 0 <= Flip(code) < |CodeValues| && CodeValues[Flip(code)] != CodeValues[code]
    ensures Flip(Flip(code)) == code
  {
  }

  /** The first k writes of the loop: low, high, low, ... */
  function ToggleWrites(k: nat): seq<Call>
  {
    if k == 0 then [] else ToggleWrites(k - 1) + [SetValue(GpioNum, CodeValues[(k - 1) % 2])]
  }

  /** Write i of the loop drives GPIO23 high exactly when i is odd. */
  lemma {:induction false} ToggleWriteAt(k: nat, i: nat)
    requires i < k
    ensures |ToggleWrites(k)| == k
    ensures ToggleWrites(k)[i] == SetValue(GpioNum, if i % 2 == 1 then Active else Inactive)
  {
    ToggleLength(k);
    if i < k - 1 {
      ToggleWriteAt(k - 1, i);
    }
  }

  lemma {:induction false} ToggleLength(k: nat)
    ensures |ToggleWrites(k)| == k
  {
    if k > 0 {
      ToggleLength(k - 1);
    }
  }

  /** Consecutive writes of the loop drive opposite levels. */
  lemma Alternates(k: nat, i: nat)
    requires i + 1 < k
    ensures |ToggleWrites(k)| == k && ToggleWrites(k)[i].SetValue? && ToggleWrites(k)[i + 1].SetValue?
    ensures ToggleWrites(k)[i + 1].value != ToggleWrites(k)[i].value
  {
    ToggleWriteAt(k, i);
    ToggleWriteAt(k, i + 1);
  }

  lemma {:induction false} ToggleKeepsHandles(k: nat)
    ensures Occurrences(ToggleWrites(k), RequestRelease) == 0 && Occurrences(ToggleWrites(k), ChipClose) == 0
  {
    if k > 0 {
      var w := SetValue(GpioNum, CodeValues[(k - 1) % 2]);
      ToggleKeepsHandles(k - 1);
      OccurrencesSnoc(ToggleWrites(k - 1), w, RequestRelease);
      OccurrencesSnoc(ToggleWrites(k - 1), w, ChipClose);
    }
  }

  /** Lines 123-138: the loop, which writes one level per round until
      `quitting` is seen. The request is used with the chip closed. */
  method Toggle(gpio: Controller, sigint: Interrupt) returns (ghost k: nat)
    requires gpio.requestHeld
    modifies gpio`trace, sigint
    ensures gpio.trace == old(gpio.trace) + ToggleWrites(k)
    ensures k == old(sigint.checksBeforeInterrupt) && sigint.checksBeforeInterrupt == 0
  {
    var code := 0;
    k := 0;
    while true
      invariant code == k % 2
      invariant gpio.trace == old(gpio.trace) + ToggleWrites(k)
      invariant k + sigint.checksBeforeInterrupt == old(sigint.checksBeforeInterrupt)
      decreases sigint.checksBeforeInterrupt
    {
      var quitting := sigint.Quitting();
      if quitting {
        break;
      }
      gpio.SetValue(GpioNum, CodeValues[code]);
      code := Flip(code);
      k := k + 1;
    }
  }

  // ---------------------------------------------------------------------
  // The whole program

  datatype Stop = ChipOpenFailed | RequestFailed | QuitFlagSet

  function Outcome(stop: Stop): Exit
  {
    match stop
    case ChipOpenFailed => AssertionFailed("chip != nullptr")
    case RequestFailed => AssertionFailed("request != nullptr")
    case QuitFlagSet => Returned(0)
  }

  /** Lines 80-117: open the chip, request the line, close the chip. */
  function SetupCalls(): seq<Call>
  {
    [ChipOpen(ChipPath, true), RequestLines(Consumer, Config(), true), ChipClose]
  }

  /** Lines 141-145: drive the pin low and release the request. */
  function TeardownCalls(): seq<Call>
  {
    [SetValue(GpioNum, CodeValues[0]), RequestRelease]
  }

  /** Every library call of a session whose loop ran k rounds. */
  function SessionTrace(k: nat, stop: Stop): seq<Call>
  {
    match stop
    case ChipOpenFailed => [ChipOpen(ChipPath, false)]
    case RequestFailed => [ChipOpen(ChipPath, true), RequestLines(Consumer, Config(), false)]
    case QuitFlagSet => SetupCalls() + ToggleWrites(k) + TeardownCalls()
  }

  /** A session that returns closes the chip exactly once, right after the
      request and before any write, drives the pin low as its last write and
      releases the request once, last; one that aborts on a failed assert
      does neither. */
  lemma TeardownOnce(k: nat, stop: Stop)
    ensures var t := SessionTrace(k, stop);
      && Occurrences(t, RequestRelease) == (if Outcome(stop) == Returned(0) then 1 else 0)
      && Occurrences(t, ChipClose) == (if Outcome(stop) == Returned(0) then 1 else 0)
      && (Outcome(stop) == Returned(0) ==>
            && |t| >= 5 && t[2] == ChipClose
            && t[|t| - 2..] == [SetValue(GpioNum, Inactive), RequestRelease])
  {
    if stop.ChipOpenFailed? {
      OccurrencesSingleton(ChipOpen(ChipPath, false), RequestRelease);
      OccurrencesSingleton(ChipOpen(ChipPath, false), ChipClose);
    } else if stop.RequestFailed? {
      OccurrencesPair(ChipOpen(ChipPath, true), RequestLines(Consumer, Config(), false), RequestRelease);
      OccurrencesPair(ChipOpen(ChipPath, true), RequestLines(Consumer, Config(), false), ChipClose);
    } else {
      var setup := SetupCalls();
      var head := setup + ToggleWrites(k);
      var last := SetValue(GpioNum, CodeValues[0]);
      assert setup == [ChipOpen(ChipPath, true), RequestLines(Consumer, Config(), true)] + [ChipClose];
      OccurrencesPair(ChipOpen(ChipPath, true), RequestLines(Consumer, Config(), true), RequestRelease);
      OccurrencesPair(ChipOpen(ChipPath, true), RequestLines(Consumer, Config(), true), ChipClose);
      OccurrencesSnoc([ChipOpen(ChipPath, true), RequestLines(Consumer, Config(), true)], ChipClose, RequestRelease);
      OccurrencesSnoc([ChipOpen(ChipPath, true), RequestLines(Consumer, Config(), true)], ChipClose, ChipClose);
      ToggleKeepsHandles(k);
      OccurrencesAppend(setup, ToggleWrites(k), RequestRelease);
      OccurrencesAppend(setup, ToggleWrites(k), ChipClose);
      assert TeardownCalls() == [last] + [RequestRelease];
      Associative(head, [last], [RequestRelease]);
      OccurrencesSnoc(head, last, RequestRelease);
      OccurrencesSnoc(head, last, ChipClose);
      OccurrencesSnoc(head + [last], RequestRelease, RequestRelease);
      OccurrencesSnoc(head + [last], RequestRelease, ChipClose);
      EndsWith(head, TeardownCalls());
    }
  }

  /** output1_simple.cpp main, from the chip open to the return. */
  method Run(gpio: Controller, sigint: Interrupt) returns (exit: Exit, ghost k: nat, ghost stop: Stop)
    requires gpio.Idle()
    modifies gpio, sigint
    ensures exit == Outcome(stop) && gpio.trace == SessionTrace(k, stop)
    ensures stop == ChipOpenFailed <==> !gpio.chipPresent
    ensures stop == RequestFailed <==> gpio.chipPresent && !gpio.requestGranted
    ensures stop == QuitFlagSet ==> k == old(sigint.checksBeforeInterrupt)
    ensures exit == Returned(0) ==> !gpio.requestHeld && !gpio.chipOpen
  {
    k := 0;
    var chipOk := gpio.OpenChip(ChipPath);
    if !chipOk {
      stop := ChipOpenFailed;
      return AssertionFailed("chip != nullptr"), k, stop;
    }
    var granted := gpio.RequestLines(Consumer, Config());
    if !granted {
      stop := RequestFailed;
      return AssertionFailed("request != nullptr"), k, stop;
    }
    gpio.CloseChip();
    assert gpio.trace == SetupCalls();
    k := Toggle(gpio, sigint);
    gpio.SetValue(GpioNum, CodeValues[0]);
    gpio.Release();
    stop := QuitFlagSet;
    exit := Returned(0);
    assert gpio.trace == SetupCalls() + ToggleWrites(k) + TeardownCalls();
  }
}
