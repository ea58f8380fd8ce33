/** Decimal text of natural numbers, as printf's %u, %lu, %d (of a non-negative
    value) and PRIu64 conversions write it, lines made of such numbers and
    literal text the way a printf format string lays them out, and a scanner
    that reads them back. The scanner is the partner of the renderer: every
    line the programs print scans back to the values it was printed from. */
module Decimal {
  import opened Seqs

  datatype Option<+T> = None | Some(value: T) {
    predicate IsFailure() { None? }

    function PropagateFailure<U>(): Option<U>
      requires None?
    {
      None
    }

    function Extract(): T
      requires Some?
    {
      value
    }
  }

  /** A number scanned from the front of a text, and the text that follows it. */
  datatype Scan = Scan(n: nat, rest: string)

  predicate IsDigit(c: char) { '0' <= c <= '9' }

  predicate AllDigits(s: string) { forall i :: 0 <= i < |s| ==> IsDigit(s[i]) }

  function DigitChar(d: nat): (c: char)
    requires d < 10
    ensures IsDigit(c)
    ensures DigitValue(c) == d
  {
    ('0' as int + d) as char
  }

  function DigitValue(c: char): nat
  {
    if IsDigit(c) then c as int - '0' as int else 0
  }

  /** The decimal digits of n, most significant first, without leading zeros. */
  function Dec(n: nat): (s: string)
    ensures |s| > 0 && AllDigits(s)
    ensures s[0] == '0' <==> n == 0
    decreases n
  {
    if n < 10 then [DigitChar(n)] else Dec(n / 10) + [DigitChar(n % 10)]
  }

  /** The number a string of decimal digits denotes. */
  function Value(s: string): nat
    decreases |s|
  {
    if s == [] then 0 else Value(s[..|s| - 1]) * 10 + DigitValue(s[|s| - 1])
  }

  lemma {:induction false} ValueOfDec(n: nat)
    ensures Value(Dec(n)) == n
    decreases n
  {
    var s := Dec(n);
    if n < 10 {
      assert s[..|s| - 1] == [];
    } else {
      assert s[..|s| - 1] == Dec(n / 10);
      ValueOfDec(n / 10);
    }
  }

  /** The length of the longest prefix of s made of digits. */
  function LeadingDigits(s: string): (k: nat)
    ensures k <= |s| && AllDigits(s[..k])
    ensures k < |s| ==> !IsDigit(s[k])
    decreases |s|
  {
    if s == [] || !IsDigit(s[0]) then 0 else 1 + LeadingDigits(s[1..])
  }

  /** Scans the longest run of digits at the front of s, as strtoul would. */
  function TakeNat(s: string): (r: Option<Scan>)
    ensures r.Some? <==> |s| > 0 && IsDigit(s[0])
    ensures r.Some? ==> |r.value.rest| < |s| && s[|s| - |r.value.rest|..] == r.value.rest
    ensures r.Some? && r.value.rest != [] ==> !IsDigit(r.value.rest[0])
  {
    var k := LeadingDigits(s);
    if k == 0 then None else Some(Scan(Value(s[..k]), s[k..]))
  }

  /** Strips the literal text lit from the front of s. */
  function Expect(lit: string, s: string): (r: Option<string>)
    ensures r.Some? <==> |lit| <= |s| && s[..|lit|] == lit
    ensures r.Some? ==> lit + r.value == s
  {
    if |lit| <= |s| && s[..|lit|] == lit then Some(s[|lit|..]) else None
  }

  /** Decimal text followed by anything that is not a digit scans back to its number. */
  lemma TakeNatDec(n: nat, rest: string)
    requires rest == [] || !IsDigit(rest[0])
    ensures TakeNat(Dec(n) + rest) == Some(Scan(n, rest))
  {
    var d := Dec(n);
    var s := d + rest;
    LeadingDigitsAppend(d, rest);
    assert s[..|d|] == d && s[|d|..] == rest;
    ValueOfDec(n);
  }

  lemma {:induction false} LeadingDigitsAppend(ds: string, rest: string)
    requires AllDigits(ds)
    requires rest == [] || !IsDigit(rest[0])
    ensures LeadingDigits(ds + rest) == |ds|
    decreases |ds|
  {
    if ds != [] {
      assert (ds + rest)[1..] == ds[1..] + rest;
      LeadingDigitsAppend(ds[1..], rest);
    } else {
      assert ds + rest == rest;
    }
  }

  lemma ExpectLiteral(lit: string, rest: string)
    ensures Expect(lit, lit + rest) == Some(rest)
  {
    assert (lit + rest)[..|lit|] == lit;
    assert (lit + rest)[|lit|..] == rest;
  }

  // ---------------------------------------------------------------------
  // printf-style lines

  /** A printf format string: conversions of numbers and literal text. */
  datatype Format = End | Conv(next: Format) | Literal(text: string, next: Format)

  /** A printf call: its format with the arguments filled in, piece by piece. */
  datatype Line = Done | Number(n: nat, rest: Line) | Text(text: string, rest: Line)

  /** The format string of a call. */
  function FormatOf(line: Line): Format
  {
    match line
    case Done => End
    case Number(_, r) => Conv(FormatOf(r))
    case Text(t, r) => Literal(t, FormatOf(r))
  }

  /** The arguments of a call, in order. */
  function ArgsOf(line: Line): seq<nat>
  {
    match line
    case Done => []
    case Number(n, r) => [n] + ArgsOf(r)
    case Text(_, r) => ArgsOf(r)
  }

  /** The text printf writes. */
  function Render(line: Line): string
  {
    match line
    case Done => []
    case Number(n, r) => Dec(n) + Render(r)
    case Text(t, r) => t + Render(r)
  }

  /** Every number is followed by the end of the line or by literal text that
      does not start with a digit, so that a reader can tell where it ends. */
  predicate Separated(line: Line)
  {
    match line
    case Done => true
    case Number(_, r) => !r.Number? && (r.Text? ==> r.text != [] && !IsDigit(r.text[0])) && Separated(r)
    case Text(_, r) => Separated(r)
  }

  /** The line ends with a number, so that what follows it must not be a digit. */
  predicate EndsInNumber(line: Line)
  {
    match line
    case Done => false
    case Number(_, r) => r == Done || EndsInNumber(r)
    case Text(_, r) => EndsInNumber(r)
  }

  /** The number of conversions in a format. */
  function Arity(format: Format): nat
  {
    match format
    case End => 0
    case Conv(next) => 1 + Arity(next)
    case Literal(_, next) => Arity(next)
  }

  /** Reads text of the given format off the front of s, as sscanf would:
      the numbers found at its conversions and the text after it. */
  function ScanFormat(format: Format, s: string): (r: Option<(seq<nat>, string)>)
    ensures r.Some? ==> |r.value.0| == Arity(format)
  {
    match format
    case End => Some(([], s))
    case Conv(next) =>
      var r :- TakeNat(s);
      var more :- ScanFormat(next, r.rest);
      Some(([r.n] + more.0, more.1))
    case Literal(t, next) =>
      var r :- Expect(t, s);
      ScanFormat(next, r)
  }

  /** A printed line followed by text that cannot continue its last number
      scans back to its arguments and leaves that text. */
  lemma {:induction false} ScanRender(line: Line, rest: string)
    requires Separated(line)
    requires EndsInNumber(line) ==> rest == [] || !IsDigit(rest[0])
    ensures ScanFormat(FormatOf(line), Render(line) + rest) == Some((ArgsOf(line), rest))
  {
    match line
    case Done =>
      assert Render(line) + rest == rest;
    case Number(n, r) =>
      ScanRender(r, rest);
      var after := Render(r) + rest;
      Associative(Dec(n), Render(r), rest);
      if r.Text? {
        Associative(r.text, Render(r.rest), rest);
      }
      TakeNatDec(n, after);
    case Text(t, r) =>
      ScanRender(r, rest);
      Associative(t, Render(r), rest);
      ExpectLiteral(t, Render(r) + rest);
  }
}
