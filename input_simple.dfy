/** input_simple.cpp: request GPIO23 and GPIO24 as pulled-up inputs, take one
    sample of both as the baseline, then poll them and print one line for
    every pin whose level differs from the saved copy, until ctrl-c. */
module InputSimple {
  import opened Decimal
  import opened Gpiod
  import opened Process
  import opened Seqs

  const ChipPath: string := "/dev/gpiochip0"
  /** The program requests its lines under the event example's name. */
  const Consumer: string := "input_events"
  const AGpioNum: u32 := 23
  const BGpioNum: u32 := 24
  const GpioPinCnt: nat := 2
  const DebounceUs: nat := 1000

  /** offsets[]: the pins, in request order. */
  const Offsets: seq<u32> := [AGpioNum, BGpioNum]

  /** The line configuration handed to the request. */
  function Config(): LineConfig
  {
    LineConfig(
      Offsets,
      DefaultSettings().(direction := Input, edgeDetection := EdgeNone, bias := PullUp,
                         debouncePeriodUs := DebounceUs),
      [])
  }

  /** The printf call "debounce time = %lu usec" of the reminder printed once
      the request is made. */
  function ReminderCall(): Line
  {
    Text("debounce time = ", Number(DebounceUs, Text(" usec", Done)))
  }

  function ReminderLine(): string
  {
    Render(ReminderCall())
  }

  const ReminderFormat: Format := Literal("debounce time = ", Conv(Literal(" usec", End)))

  /** The reminder reads back to the debounce period. */
  lemma ReminderRoundTrip()
    ensures ScanFormat(ReminderFormat, ReminderLine()) == Some(([DebounceUs], []))
  {
    var l2 := Text(" usec", Done);
    var l1 := Number(DebounceUs, l2);
    var l0 := Text("debounce time = ", l1);
    assert l0 == ReminderCall();
    assert Separated(l2) && !EndsInNumber(l2) && FormatOf(l2) == Literal(" usec", End) && ArgsOf(l2) == [];
    assert Separated(l1) && !EndsInNumber(l1) && FormatOf(l1) == Conv(FormatOf(l2));
    assert ArgsOf(l1) == [DebounceUs] + ArgsOf(l2) == [DebounceUs];
    assert Separated(l0) && !EndsInNumber(l0) && FormatOf(l0) == ReminderFormat && ArgsOf(l0) == ArgsOf(l1);
    ScanRender(l0, []);
    assert Render(l0) + [] == Render(l0);
  }

  // ---------------------------------------------------------------------
  // Rendering one change

  /** The printed level: 1 for active, 0 for inactive. */
  function LevelBit(v: LineValue): nat
  {
    if v == Active then 1 else 0
  }

  /** The printf call "pin %u = %d" for a pin that now reads v. */
  function ChangeCall(pin: u32, v: LineValue): Line
  {
    Text("pin ", Number(pin, Text(" = ", Number(LevelBit(v), Done))))
  }

  function ChangeLine(pin: u32, v: LineValue): string
  {
    Render(ChangeCall(pin, v))
  }

  const ChangeFormat: Format := Literal("pin ", Conv(Literal(" = ", Conv(End))))

  /** Reads a change line back: the pin and the printed level. */
  function ParseChangeLine(s: string): Option<(nat, nat)>
  {
    var r :- ScanFormat(ChangeFormat, s);
    if r.1 == [] then Some((r.0[0], r.0[1])) else None
  }

  /** Every change line names its pin and prints 1 exactly for an active level. */
  lemma ChangeLineRoundTrip(pin: u32, v: LineValue)
    ensures ParseChangeLine(ChangeLine(pin, v)) == Some((pin as nat, if v == Active then 1 else 0))
  {
    var l3 := Number(LevelBit(v), Done);
    var l2 := Text(" = ", l3);
    var l1 := Number(pin, l2);
    var l0 := Text("pin ", l1);
    assert l0 == ChangeCall(pin, v);
    assert Separated(l3) && EndsInNumber(l3) && FormatOf(l3) == Conv(End) && ArgsOf(l3) == [LevelBit(v)];
    assert Separated(l2) && EndsInNumber(l2) && FormatOf(l2) == Literal(" = ", Conv(End)) && ArgsOf(l2) == ArgsOf(l3);
    assert Separated(l1) && EndsInNumber(l1) && FormatOf(l1) == Conv(FormatOf(l2)) && ArgsOf(l1) == [pin as nat] + ArgsOf(l2);
    assert Separated(l0) && EndsInNumber(l0) && FormatOf(l0) == ChangeFormat && ArgsOf(l0) == ArgsOf(l1);
    ScanRender(l0, []);
    assert Render(l0) + [] == Render(l0);
  }

  // ---------------------------------------------------------------------
  // What a reader of the output learns

  /** The levels a reader believes the pins have after reading one line,
      starting from levels: the line's pin takes the line's level. */
  function Apply(levels: seq<LineValue>, line: string): (r: seq<LineValue>)
    requires |levels| == GpioPinCnt
    ensures |r| == GpioPinCnt
  {
    match ParseChangeLine(line)
    case Some((pin, bit)) =>
      var v := if bit == 1 then Active else Inactive;
      if pin == Offsets[0] as nat then levels[0 := v]
      else if pin == Offsets[1] as nat then levels[1 := v]
      else levels
    case None => levels
  }

  /** The levels a reader believes the pins have after reading lines, in order. */
  function Replay(levels: seq<LineValue>, lines: seq<string>): (r: seq<LineValue>)
    requires |levels| == GpioPinCnt
    ensures |r| == GpioPinCnt
    decreases |lines|
  {
    if lines == [] then levels else Apply(Replay(levels, lines[..|lines| - 1]), lines[|lines| - 1])
  }

  lemma {:induction false} ReplayConcat(levels: seq<LineValue>, a: seq<string>, b: seq<string>)
    requires |levels| == GpioPinCnt
    ensures Replay(levels, a + b) == Replay(Replay(levels, a), b)
    decreases |b|
  {
    if b == [] {
      assert a + b == a;
    } else {
      assert (a + b)[..|a + b| - 1] == a + b[..|b| - 1];
      ReplayConcat(levels, a, b[..|b| - 1]);
    }
  }

  // ---------------------------------------------------------------------
  // One scan over the pins

  /** The lines one scan prints for the pins below n: one per pin whose
      sampled level differs from the saved one, in index order. */
  function ScanLines(saved: seq<LineValue>, sample: seq<LineValue>, n: nat): seq<string>
    requires |saved| == |sample| == GpioPinCnt && n <= GpioPinCnt
  {
    if n == 0 then []
    else
      ScanLines(saved, sample, n - 1) +
      (if saved[n - 1] != sample[n - 1] then [ChangeLine(Offsets[n - 1], sample[n - 1])] else [])
  }

  /** Reading the change line of pin i sets that pin's level and no other. */
  lemma ApplyChange(levels: seq<LineValue>, i: nat, v: LineValue)
    requires |levels| == GpioPinCnt && i < GpioPinCnt
    ensures Apply(levels, ChangeLine(Offsets[i], v)) == levels[i := v]
  {
    ChangeLineRoundTrip(Offsets[i], v);
  }

  /** Reading the lines of a scan over the pins below n, starting from the
      saved levels, gives the sampled levels of those pins and the saved
      levels of the others. */
  lemma {:induction false} ScanReplay(saved: seq<LineValue>, sample: seq<LineValue>, n: nat)
    requires |saved| == |sample| == GpioPinCnt && n <= GpioPinCnt
    ensures Replay(saved, ScanLines(saved, sample, n)) == sample[..n] + saved[n..]
  {
    if n > 0 {
      var before := ScanLines(saved, sample, n - 1);
      var mid := sample[..n - 1] + saved[n - 1..];
      ScanReplay(saved, sample, n - 1);
      if saved[n - 1] != sample[n - 1] {
        var line := ChangeLine(Offsets[n - 1], sample[n - 1]);
        assert ScanLines(saved, sample, n) == before + [line];
        ReplayConcat(saved, before, [line]);
        assert Replay(mid, [line]) == Apply(mid, line);
        ApplyChange(mid, n - 1, sample[n - 1]);
      } else {
        assert ScanLines(saved, sample, n) == before + [];
        assert before + [] == before;
      }
      Overwrite(saved, sample, n);
    }
  }

  lemma Overwrite(saved: seq<LineValue>, sample: seq<LineValue>, n: nat)
    requires |saved| == |sample| == GpioPinCnt && 0 < n <= GpioPinCnt
    ensures (sample[..n - 1] + saved[n - 1..])[n - 1 := sample[n - 1]] == sample[..n] + saved[n..]
    ensures saved[n - 1] == sample[n - 1] ==> sample[..n - 1] + saved[n - 1..] == sample[..n] + saved[n..]
  {
    if n == 1 {
      assert sample[..0] + saved[0..] == [saved[0], saved[1]];
      assert sample[..1] + saved[1..] == [sample[0], saved[1]];
    } else {
      assert sample[..1] + saved[1..] == [sample[0], saved[1]];
      assert sample[..2] + saved[2..] == [sample[0], sample[1]];
    }
  }

  /** A full scan tells the reader the sampled levels. */
  lemma ScanTracksSample(saved: seq<LineValue>, sample: seq<LineValue>)
    requires |saved| == |sample| == GpioPinCnt
    ensures Replay(saved, ScanLines(saved, sample, GpioPinCnt)) == sample
  {
    ScanReplay(saved, sample, GpioPinCnt);
    assert sample[..GpioPinCnt] + saved[GpioPinCnt..] == sample;
  }

  /** The lines of a scan are exactly the change lines of the pins whose level changed. */
  lemma {:induction false} ScanLinesAreChanges(saved: seq<LineValue>, sample: seq<LineValue>, n: nat)
    requires |saved| == |sample| == GpioPinCnt && n <= GpioPinCnt
    ensures forall line | line in ScanLines(saved, sample, n) ::
      exists i | 0 <= i < n :: saved[i] != sample[i] && line == ChangeLine(Offsets[i], sample[i])
    ensures forall i | 0 <= i < n :: saved[i] != sample[i] ==> ChangeLine(Offsets[i], sample[i]) in ScanLines(saved, sample, n)
  {
    if n > 0 {
      ScanLinesAreChanges(saved, sample, n - 1);
    }
  }

  /** A scan prints nothing exactly when no level changed. */
  lemma QuietScan(saved: seq<LineValue>, sample: seq<LineValue>)
    requires |saved| == |sample| == GpioPinCnt
    ensures ScanLines(saved, sample, GpioPinCnt) == [] <==> saved == sample
  {
    ScanTracksSample(saved, sample);
    if saved == sample {
      assert ScanLines(saved, sample, 1) == [];
    }
  }

  /** Lines 144-150: the scan, which prints each change and copies the new
      level into the saved copy in place. */
  method ScanChanges(valuesOld: array<LineValue>, valuesNew: array<LineValue>, console: Console)
    requires valuesOld.Length == GpioPinCnt && valuesNew.Length == GpioPinCnt && valuesOld != valuesNew
    modifies valuesOld, console
    ensures valuesOld[..] == valuesNew[..]
    ensures console.lines == old(console.lines) + ScanLines(old(valuesOld[..]), valuesNew[..], GpioPinCnt)
  {
    for i := 0 to GpioPinCnt
      invariant valuesOld[..i] == valuesNew[..i]
      invariant valuesOld[i..] == old(valuesOld[i..])
      invariant console.lines == old(console.lines) + ScanLines(old(valuesOld[..]), valuesNew[..], i)
    {
      if valuesOld[i] != valuesNew[i] {
        console.PrintLine(ChangeLine(Offsets[i], valuesNew[i]));
        valuesOld[i] := valuesNew[i];
      }
    }
  }

  // ---------------------------------------------------------------------
  // The polling loop

  /** A sample get_values can deliver into a two-element array. */
  predicate Good(s: Sample)
  {
    s.Sampled? && |s.levels| == GpioPinCnt
  }

  predicate Width(samples: seq<seq<LineValue>>)
  {
    forall k | 0 <= k < |samples| :: |samples[k]| == GpioPinCnt
  }

  /** values_old after the scans of samples: the last sample, or the baseline. */
  function SavedAfter(baseline: seq<LineValue>, samples: seq<seq<LineValue>>): seq<LineValue>
  {
    if samples == [] then baseline else samples[|samples| - 1]
  }

  /** Everything the loop prints for the samples it took. */
  function PollLines(baseline: seq<LineValue>, samples: seq<seq<LineValue>>): seq<string>
    requires |baseline| == GpioPinCnt && Width(samples)
    decreases |samples|
  {
    if samples == [] then []
    else
      var prior := samples[..|samples| - 1];
      PollLines(baseline, prior) + ScanLines(SavedAfter(baseline, prior), samples[|samples| - 1], GpioPinCnt)
  }

  /** A reader who starts from the baseline and reads every line printed
      knows the levels of the last sample. */
  lemma {:induction false} PollReplay(baseline: seq<LineValue>, samples: seq<seq<LineValue>>)
    requires |baseline| == GpioPinCnt && Width(samples)
    ensures Replay(baseline, PollLines(baseline, samples)) == SavedAfter(baseline, samples)
    decreases |samples|
  {
    if samples != [] {
      var prior := samples[..|samples| - 1];
      PollReplay(baseline, prior);
      ReplayConcat(baseline, PollLines(baseline, prior),
                   ScanLines(SavedAfter(baseline, prior), samples[|samples| - 1], GpioPinCnt));
      ScanTracksSample(SavedAfter(baseline, prior), samples[|samples| - 1]);
    }
  }

  /** n successful get_values calls. */
  function Reads(n: nat): seq<Call>
  {
    if n == 0 then [] else Reads(n - 1) + [GetValues(0)]
  }

  lemma {:induction false} ReadsCons(n: nat)
    ensures [GetValues(0)] + Reads(n) == Reads(n + 1)
  {
    if n > 0 {
      ReadsCons(n - 1);
      Associative([GetValues(0)], Reads(n - 1), [GetValues(0)]);
    }
  }

  lemma {:induction false} ReadsKeepHandles(n: nat)
    ensures Occurrences(Reads(n), RequestRelease) == 0 && Occurrences(Reads(n), ChipClose) == 0
  {
    if n > 0 {
      ReadsKeepHandles(n - 1);
      OccurrencesSnoc(Reads(n - 1), GetValues(0), RequestRelease);
      OccurrencesSnoc(Reads(n - 1), GetValues(0), ChipClose);
    }
  }

  /** Lines 140-149: one round of the loop after the quitting check: sample
      both pins and, when that succeeded, print the changes. */
  method PollOnce(gpio: Controller, valuesOld: array<LineValue>, valuesNew: array<LineValue>, console: Console)
    returns (ok: bool)
    requires gpio.requestHeld
    requires valuesOld.Length == GpioPinCnt && valuesNew.Length == GpioPinCnt && valuesOld != valuesNew
    modifies gpio`trace, gpio`sampleScript, valuesOld, valuesNew, console
    ensures ok == (old(gpio.sampleScript) != [] && Good(old(gpio.sampleScript[0])))
    ensures gpio.trace == old(gpio.trace) + [GetValues(if ok then 0 else -1)]
    ensures gpio.sampleScript == if old(gpio.sampleScript) == [] then [] else old(gpio.sampleScript[1..])
    ensures ok ==>
      && valuesNew[..] == old(gpio.sampleScript[0]).levels && valuesOld[..] == valuesNew[..]
      && console.lines == old(console.lines) + ScanLines(old(valuesOld[..]), valuesNew[..], GpioPinCnt)
    ensures !ok ==> valuesOld[..] == old(valuesOld[..]) && console.lines == old(console.lines)
  {
    var r3 := gpio.GetValues(valuesNew);
    ok := r3 == 0;
    if ok {
      ScanChanges(valuesOld, valuesNew, console);
    }
  }

  /** The script after its first k answers have been taken. */
  function Drop(script: seq<Sample>, k: nat): seq<Sample>
  {
    if k <= |script| then script[k..] else []
  }

  /** The state of the library, the saved copy and the console when the loop starts. */
  datatype Start = Start(trace: seq<Call>, sampleScript: seq<Sample>, baseline: seq<LineValue>, lines: seq<string>)

  /** After the rounds that took samples, and a failed read `tail` if any: the
      trace records one successful read per sample, then the tail; the samples
      are the script's first answers; the saved copy is the last sample; and
      every change has been printed. */
  ghost predicate Polled(gpio: Controller, valuesOld: array<LineValue>, console: Console, s: Start,
                         samples: seq<seq<LineValue>>, tail: seq<Call>)
    reads gpio, valuesOld, console
  {
    PolledState(gpio.trace, gpio.sampleScript, valuesOld[..], console.lines, s, samples, tail)
  }

  /** Polled, on the values of the trace, the script, the saved copy and the console. */
  predicate PolledState(trace: seq<Call>, script: seq<Sample>, saved: seq<LineValue>, lines: seq<string>,
                        s: Start, samples: seq<seq<LineValue>>, tail: seq<Call>)
  {
    && |s.baseline| == GpioPinCnt && Width(samples)
    && trace == s.trace + Reads(|samples|) + tail
    && |samples| <= |s.sampleScript| && script == Drop(s.sampleScript, |samples| + |tail|)
    && (forall k | 0 <= k < |samples| :: s.sampleScript[k] == Sampled(samples[k]))
    && saved == SavedAfter(s.baseline, samples)
    && lines == s.lines + PollLines(s.baseline, samples)
  }

  /** A round that reads a good sample adds it to the samples. */
  lemma GoodRound(trace: seq<Call>, script: seq<Sample>, saved: seq<LineValue>, lines: seq<string>,
                  s: Start, samples: seq<seq<LineValue>>, sample: seq<LineValue>)
    requires PolledState(trace, script, saved, lines, s, samples, [])
    requires script != [] && script[0] == Sampled(sample) && |sample| == GpioPinCnt
    ensures PolledState(trace + [GetValues(0)], script[1..], sample, lines + ScanLines(saved, sample, GpioPinCnt),
                        s, samples + [sample], [])
  {
    var samples' := samples + [sample];
    assert samples'[..|samples|] == samples;
    DropOne(s.sampleScript, |samples|);
    assert Reads(|samples'|) == Reads(|samples|) + [GetValues(0)];
    Associative(s.trace, Reads(|samples|), [GetValues(0)]);
    Associative(s.lines, PollLines(s.baseline, samples), ScanLines(saved, sample, GpioPinCnt));
  }

  /** A round whose read fails leaves its record at the end of the trace. */
  lemma FailedRound(trace: seq<Call>, script: seq<Sample>, saved: seq<LineValue>, lines: seq<string>,
                    s: Start, samples: seq<seq<LineValue>>)
    requires PolledState(trace, script, saved, lines, s, samples, [])
    ensures PolledState(trace + [GetValues(-1)], if script == [] then [] else script[1..], saved, lines,
                        s, samples, [GetValues(-1)])
    ensures script != [] ==> script[0] == s.sampleScript[|samples|]
  {
    DropOne(s.sampleScript, |samples|);
  }

  /** Lines 138-154: the polling loop, up to the point where it stops: on
      ctrl-c (ok is true) or on a failed sample (ok is false). */
  method Poll(gpio: Controller, sigint: Interrupt, valuesOld: array<LineValue>, valuesNew: array<LineValue>,
              console: Console)
    returns (ok: bool, ghost samples: seq<seq<LineValue>>)
    requires gpio.requestHeld
    requires valuesOld.Length == GpioPinCnt && valuesNew.Length == GpioPinCnt && valuesOld != valuesNew
    modifies gpio`trace, gpio`sampleScript, valuesOld, valuesNew, sigint, console
    ensures Polled(gpio, valuesOld, console,
                   Start(old(gpio.trace), old(gpio.sampleScript), old(valuesOld[..]), old(console.lines)),
                   samples, if ok then [] else [GetValues(-1)])
    ensures !ok ==> |samples| < |old(gpio.sampleScript)| ==> !Good(old(gpio.sampleScript)[|samples|])
    ensures |samples| <= old(sigint.checksBeforeInterrupt)
    ensures ok ==> |samples| == old(sigint.checksBeforeInterrupt)
    ensures !ok ==> |samples| < old(sigint.checksBeforeInterrupt)
  {
    ghost var s := Start(gpio.trace, gpio.sampleScript, valuesOld[..], console.lines);
    samples := [];
    ok := true;
    while true
      invariant Polled(gpio, valuesOld, console, s, samples, [])
      invariant |samples| + sigint.checksBeforeInterrupt == old(sigint.checksBeforeInterrupt)
      decreases sigint.checksBeforeInterrupt
    {
      var quitting := sigint.Quitting();
      if quitting {
        break;
      }
      ok, samples := PollRound(gpio, valuesOld, valuesNew, console, s, samples);
      if !ok {
        break;
      }
    }
  }

  /** One round of the loop after the quitting check, stated on the loop's
      bookkeeping: a good sample extends the samples by one, a failed one
      leaves its record at the end of the trace. */
  method PollRound(gpio: Controller, valuesOld: array<LineValue>, valuesNew: array<LineValue>, console: Console,
                   ghost s: Start, ghost samples: seq<seq<LineValue>>)
    returns (ok: bool, ghost samples': seq<seq<LineValue>>)
    requires gpio.requestHeld
    requires valuesOld.Length == GpioPinCnt && valuesNew.Length == GpioPinCnt && valuesOld != valuesNew
    requires Polled(gpio, valuesOld, console, s, samples, [])
    modifies gpio`trace, gpio`sampleScript, valuesOld, valuesNew, console
    ensures ok ==> Polled(gpio, valuesOld, console, s, samples', []) && |samples'| == |samples| + 1
    ensures !ok ==> Polled(gpio, valuesOld, console, s, samples', [GetValues(-1)]) && samples' == samples
    ensures !ok ==> |samples| < |s.sampleScript| ==> !Good(s.sampleScript[|samples|])
  {
    ghost var trace := gpio.trace;
    ghost var script := gpio.sampleScript;
    ghost var saved := valuesOld[..];
    ghost var lines := console.lines;
    ok := PollOnce(gpio, valuesOld, valuesNew, console);
    samples' := samples;
    if ok {
      GoodRound(trace, script, saved, lines, s, samples, valuesNew[..]);
      samples' := samples + [valuesNew[..]];
    } else {
      FailedRound(trace, script, saved, lines, s, samples);
    }
  }

  /** Taking one more answer off a script that has given k. */
  lemma DropOne(script: seq<Sample>, k: nat)
    requires k <= |script|
    ensures Drop(script, k) == [] ==> Drop(script, k + 1) == []
    ensures Drop(script, k) != [] ==> Drop(script, k)[0] == script[k] && Drop(script, k)[1..] == Drop(script, k + 1)
  {
  }

  // ---------------------------------------------------------------------
  // The whole program

  /** Why a session ended. */
  datatype Stop =
    | ChipOpenFailed
    | RequestFailed
    | BaselineFailed  // the get_values before the loop failed
    | SampleFailed    // a get_values in the loop failed
    | QuitFlagSet     // `quitting` was seen at the top of the loop

  function Outcome(stop: Stop): Exit
  {
    match stop
    case ChipOpenFailed => AssertionFailed("chip != nullptr")
    case RequestFailed => AssertionFailed("request != nullptr")
    case BaselineFailed => AssertionFailed("r2 == 0")
    case SampleFailed => AssertionFailed("r3 == 0")
    case QuitFlagSet => Returned(0)
  }

  function SetupCalls(): seq<Call>
  {
    [ChipOpen(ChipPath, true), RequestLines(Consumer, Config(), true)]
  }

  /** The calls after a successful request, for a loop that took n samples:
      the baseline read, the loop's reads and the teardown. */
  function AfterSetup(n: nat, stop: Stop): seq<Call>
  {
    match stop
    case ChipOpenFailed => []
    case RequestFailed => []
    case BaselineFailed => [GetValues(-1)]
    case SampleFailed => Reads(n + 1) + [GetValues(-1)]
    case QuitFlagSet => Reads(n + 1) + [RequestRelease, ChipClose]
  }

  /** Every library call of a session that took n samples in its loop. */
  function SessionTrace(n: nat, stop: Stop): seq<Call>
  {
    if stop.ChipOpenFailed? then [ChipOpen(ChipPath, false)]
    else if stop.RequestFailed? then [ChipOpen(ChipPath, true), RequestLines(Consumer, Config(), false)]
    else SetupCalls() + AfterSetup(n, stop)
  }

  /** Everything a session prints, given the baseline and the loop's samples. */
  function SessionOutput(baseline: seq<LineValue>, samples: seq<seq<LineValue>>, stop: Stop): seq<string>
    requires |baseline| == GpioPinCnt && Width(samples)
  {
    match stop
    case ChipOpenFailed => []
    case RequestFailed => []
    case BaselineFailed => [ReminderLine()]
    case SampleFailed => [ReminderLine()] + PollLines(baseline, samples)
    case QuitFlagSet => [ReminderLine()] + PollLines(baseline, samples)
  }

  lemma SetupKeepsHandles(n: nat)
    ensures Occurrences(SetupCalls() + Reads(n), RequestRelease) == 0
    ensures Occurrences(SetupCalls() + Reads(n), ChipClose) == 0
  {
    OccurrencesPair(ChipOpen(ChipPath, true), RequestLines(Consumer, Config(), true), RequestRelease);
    OccurrencesPair(ChipOpen(ChipPath, true), RequestLines(Consumer, Config(), true), ChipClose);
    ReadsKeepHandles(n);
    OccurrencesAppend(SetupCalls(), Reads(n), RequestRelease);
    OccurrencesAppend(SetupCalls(), Reads(n), ChipClose);
  }

  /** A session that returns releases the request and then closes the chip,
      each exactly once and as its last two calls; a session that aborts on
      a failed assert does neither. */
  lemma TeardownOnce(n: nat, stop: Stop)
    ensures var t := SessionTrace(n, stop);
      && Occurrences(t, RequestRelease) == (if Outcome(stop) == Returned(0) then 1 else 0)
      && Occurrences(t, ChipClose) == (if Outcome(stop) == Returned(0) then 1 else 0)
      && (Outcome(stop) == Returned(0) ==> |t| >= 2 && t[|t| - 2..] == [RequestRelease, ChipClose])
  {
    if stop.ChipOpenFailed? {
      OccurrencesSingleton(ChipOpen(ChipPath, false), RequestRelease);
      OccurrencesSingleton(ChipOpen(ChipPath, false), ChipClose);
    } else if stop.RequestFailed? {
      OccurrencesPair(ChipOpen(ChipPath, true), RequestLines(Consumer, Config(), false), RequestRelease);
      OccurrencesPair(ChipOpen(ChipPath, true), RequestLines(Consumer, Config(), false), ChipClose);
    } else if stop.BaselineFailed? {
      SetupKeepsHandles(0);
      assert SetupCalls() + Reads(0) == SetupCalls();
      OccurrencesSnoc(SetupCalls(), GetValues(-1), RequestRelease);
      OccurrencesSnoc(SetupCalls(), GetValues(-1), ChipClose);
    } else if stop.SampleFailed? {
      SetupKeepsHandles(n + 1);
      Associative(SetupCalls(), Reads(n + 1), [GetValues(-1)]);
      OccurrencesSnoc(SetupCalls() + Reads(n + 1), GetValues(-1), RequestRelease);
      OccurrencesSnoc(SetupCalls() + Reads(n + 1), GetValues(-1), ChipClose);
    } else {
      SetupKeepsHandles(n + 1);
      Associative(SetupCalls(), Reads(n + 1), [RequestRelease, ChipClose]);
      ReleaseThenClose(SetupCalls() + Reads(n + 1));
    }
  }

  /** input_simple.cpp main, from the chip open to the return. */
  method Run(gpio: Controller, sigint: Interrupt, console: Console)
    returns (exit: Exit, ghost baseline: seq<LineValue>, ghost samples: seq<seq<LineValue>>, ghost stop: Stop)
    requires gpio.Idle()
    modifies gpio, sigint, console
    ensures exit == Outcome(stop) && gpio.trace == SessionTrace(|samples|, stop)
    ensures stop == ChipOpenFailed <==> !gpio.chipPresent
    ensures stop == RequestFailed <==> gpio.chipPresent && !gpio.requestGranted
    ensures |baseline| == GpioPinCnt && Width(samples)
    ensures stop.SampleFailed? || stop.QuitFlagSet? ==>
      && |samples| < |old(gpio.sampleScript)| && old(gpio.sampleScript)[0] == Sampled(baseline)
      && forall k | 0 <= k < |samples| :: old(gpio.sampleScript)[k + 1] == Sampled(samples[k])
    ensures stop.BaselineFailed? ==> old(gpio.sampleScript) == [] || !Good(old(gpio.sampleScript)[0])
    ensures stop.SampleFailed? ==>
      |samples| + 1 < |old(gpio.sampleScript)| ==> !Good(old(gpio.sampleScript)[|samples| + 1])
    ensures console.lines == old(console.lines) + SessionOutput(baseline, samples, stop)
    ensures |samples| <= old(sigint.checksBeforeInterrupt)
    ensures stop == QuitFlagSet ==> |samples| == old(sigint.checksBeforeInterrupt)
    ensures stop == SampleFailed ==> |samples| < old(sigint.checksBeforeInterrupt)
    ensures exit == Returned(0) ==> !gpio.requestHeld && !gpio.chipOpen
  {
    baseline, samples := [Inactive, Inactive], [];
    var chipOk := gpio.OpenChip(ChipPath);
    if !chipOk {
      stop := ChipOpenFailed;
      return AssertionFailed("chip != nullptr"), baseline, samples, stop;
    }
    var granted := gpio.RequestLines(Consumer, Config());
    if !granted {
      stop := RequestFailed;
      return AssertionFailed("request != nullptr"), baseline, samples, stop;
    }
    assert gpio.trace == SetupCalls();
    var valuesOld := new LineValue[GpioPinCnt];
    var valuesNew := new LineValue[GpioPinCnt];
    exit, baseline, samples, stop := Session(gpio, sigint, valuesOld, valuesNew, console);
  }

  /** Lines 127-162: the reminder, the baseline sample, the loop and, when
      the loop ends on ctrl-c, the release of the request and the chip. */
  method Session(gpio: Controller, sigint: Interrupt, valuesOld: array<LineValue>, valuesNew: array<LineValue>,
                 console: Console)
    returns (exit: Exit, ghost baseline: seq<LineValue>, ghost samples: seq<seq<LineValue>>, ghost stop: Stop)
    requires gpio.requestHeld && gpio.chipOpen
    requires valuesOld.Length == GpioPinCnt && valuesNew.Length == GpioPinCnt && valuesOld != valuesNew
    modifies gpio, valuesOld, valuesNew, sigint, console
    ensures exit == Outcome(stop) && !stop.ChipOpenFailed? && !stop.RequestFailed?
    ensures |baseline| == GpioPinCnt && Width(samples)
    ensures gpio.trace == old(gpio.trace) + AfterSetup(|samples|, stop)
    ensures stop.SampleFailed? || stop.QuitFlagSet? ==>
      && |samples| < |old(gpio.sampleScript)| && old(gpio.sampleScript)[0] == Sampled(baseline)
      && forall k | 0 <= k < |samples| :: old(gpio.sampleScript)[k + 1] == Sampled(samples[k])
    ensures stop.BaselineFailed? ==> old(gpio.sampleScript) == [] || !Good(old(gpio.sampleScript)[0])
    ensures stop.SampleFailed? ==>
      |samples| + 1 < |old(gpio.sampleScript)| ==> !Good(old(gpio.sampleScript)[|samples| + 1])
    ensures console.lines == old(console.lines) + SessionOutput(baseline, samples, stop)
    ensures |samples| <= old(sigint.checksBeforeInterrupt)
    ensures stop == QuitFlagSet ==> |samples| == old(sigint.checksBeforeInterrupt)
    ensures stop == SampleFailed ==> |samples| < old(sigint.checksBeforeInterrupt)
    ensures exit == Returned(0) ==> !gpio.requestHeld && !gpio.chipOpen
  {
    console.PrintLine(ReminderLine());
    samples := [];
    var r2 := gpio.GetValues(valuesOld);
    baseline := valuesOld[..];
    if r2 != 0 {
      stop := BaselineFailed;
      exit := AssertionFailed("r2 == 0");
      return;
    }
    ghost var trace1 := gpio.trace;
    ghost var script1 := gpio.sampleScript;
    exit, samples, stop := Watch(gpio, sigint, valuesOld, valuesNew, console);
    ReadsCons(|samples|);
    Associative(old(gpio.trace), [GetValues(0)], Reads(|samples|));
    Associative(old(gpio.trace) + [GetValues(0)], Reads(|samples|), Tail(stop));
    Associative([GetValues(0)], Reads(|samples|), Tail(stop));
    Associative(old(console.lines), [ReminderLine()], PollLines(baseline, samples));
    assert forall k | 0 <= k < |samples| :: old(gpio.sampleScript)[k + 1] == script1[k];
  }

  /** The calls after the loop's reads: the failed read, or the teardown. */
  function Tail(stop: Stop): seq<Call>
  {
    if stop.QuitFlagSet? then [RequestRelease, ChipClose] else [GetValues(-1)]
  }

  /** Lines 138-162: the loop and, when it ends on ctrl-c, the release of
      the request and the chip. */
  method Watch(gpio: Controller, sigint: Interrupt, valuesOld: array<LineValue>, valuesNew: array<LineValue>,
               console: Console)
    returns (exit: Exit, ghost samples: seq<seq<LineValue>>, ghost stop: Stop)
    requires gpio.requestHeld && gpio.chipOpen
    requires valuesOld.Length == GpioPinCnt && valuesNew.Length == GpioPinCnt && valuesOld != valuesNew
    modifies gpio`trace, gpio`sampleScript, gpio`requestHeld, gpio`chipOpen, valuesOld, valuesNew, sigint, console
    ensures exit == Outcome(stop) && (stop.SampleFailed? || stop.QuitFlagSet?)
    ensures Width(samples) && |samples| <= |old(gpio.sampleScript)|
    ensures gpio.trace == old(gpio.trace) + Reads(|samples|) + Tail(stop)
    ensures forall k | 0 <= k < |samples| :: old(gpio.sampleScript)[k] == Sampled(samples[k])
    ensures stop.SampleFailed? ==>
      |samples| < |old(gpio.sampleScript)| ==> !Good(old(gpio.sampleScript)[|samples|])
    ensures console.lines == old(console.lines) + PollLines(old(valuesOld[..]), samples)
    ensures |samples| <= old(sigint.checksBeforeInterrupt)
    ensures stop == QuitFlagSet ==> |samples| == old(sigint.checksBeforeInterrupt)
    ensures stop == SampleFailed ==> |samples| < old(sigint.checksBeforeInterrupt)
    ensures exit == Returned(0) ==> !gpio.requestHeld && !gpio.chipOpen
  {
    var ok;
    ok, samples := Poll(gpio, sigint, valuesOld, valuesNew, console);
    if ok {
      gpio.Release();
      gpio.CloseChip();
      stop := QuitFlagSet;
      exit := Returned(0);
    } else {
      stop := SampleFailed;
      exit := AssertionFailed("r3 == 0");
    }
  }
}
