/** internal/bytesize/parse.go: sizes such as "1.5 MiB". Every suffix is a power of two, and a fraction
    has to come out at a whole byte. */
module ByteSize {
  import opened Wrappers
  import opened Text

  const KIBIBYTE: nat := 0x400
  const MEBIBYTE: nat := 0x10_0000
  const GIBIBYTE: nat := 0x4000_0000
  const MAX_INT64_DIGITS: nat := 19

  datatype Error = Empty | Negative | NoNumber | BadSuffix | UnknownSuffix | TooLarge | Fractional

  // ---------------------------------------------------------------- what a size says

  /** A decimal number as written. */
  datatype Number = Number(plus: bool, whole: string, dot: bool, fraction: string) {
    predicate Ok() {
      && AllDigits(whole) && AllDigits(fraction) && !(whole == "" && fraction == "")
      && (!dot ==> fraction == "")
    }

    function Body(): string {
      whole + if dot then "." + fraction else ""
    }

    function Text(): string {
      (if plus then "+" else "") + Body()
    }
  }

  predicate IsLetter(c: char) { 'a' <= c <= 'z' || 'A' <= c <= 'Z' }

  predicate IsLetters(s: string) { forall i | 0 <= i < |s| :: IsLetter(s[i]) }

  function ScaleForSuffix(suffix: string): Option<nat> {
    var s := ToLower(suffix);
    if s == "" || s == "b" then Some(1)
    else if s == "kb" || s == "kib" then Some(KIBIBYTE)
    else if s == "mb" || s == "mib" then Some(MEBIBYTE)
    else if s == "gb" || s == "gib" then Some(GIBIBYTE)
    else None
  }

  /** v is the decimal whole.fraction, times scale, without rounding. */
  predicate Exactly(whole: string, fraction: string, scale: nat, v: nat)
    requires AllDigits(whole) && AllDigits(fraction)
  {
    v * Pow10(|fraction|) == (NatOf(whole) * Pow10(|fraction|) + NatOf(fraction)) * scale
  }

  /** A size: a number, white space, and a suffix of letters. */
  ghost predicate Written(input: string, n: Number, gap: string, suffix: string) {
    input == n.Text() + (gap + suffix) && n.Ok() && AllSpace(gap) && IsLetters(suffix)
  }

  /** What raw says is v bytes. */
  ghost predicate Says(raw: string, v: nat) {
    exists n: Number, gap: string, suffix: string ::
      && Written(Trim(raw), n, gap, suffix)
      && ScaleForSuffix(suffix).Some? && Exactly(n.whole, n.fraction, ScaleForSuffix(suffix).value, v)
  }

  // ---------------------------------------------------------------- twos, fives and tens

  function Pow2(n: nat): (p: nat)
    ensures p > 0
  {
    if n == 0 then 1 else 2 * Pow2(n - 1)
  }

  /** bits.TrailingZeros64. */
  function TrailingZeros(n: nat): nat
    requires n > 0
  {
    if n % 2 == 1 then 0 else 1 + TrailingZeros(n / 2)
  }

  lemma {:induction false} TrailingZerosOfPow2(e: nat)
    ensures TrailingZeros(Pow2(e)) == e
  {
    if e > 0 {
      TrailingZerosOfPow2(e - 1);
    }
  }

  /** Every scale is two to the number of its trailing zeros. */
  lemma ScalesArePowersOfTwo(suffix: string)
    requires ScaleForSuffix(suffix).Some?
    ensures ScaleForSuffix(suffix).value > 0
    ensures ScaleForSuffix(suffix).value == Pow2(TrailingZeros(ScaleForSuffix(suffix).value))
  {
    assert Pow2(10) == KIBIBYTE;
    Pow2Add(10, 10);
    Pow2Add(20, 10);
    TrailingZerosOfPow2(0);
    TrailingZerosOfPow2(10);
    TrailingZerosOfPow2(20);
    TrailingZerosOfPow2(30);
  }

  lemma {:induction false} Pow2Add(m: nat, n: nat)
    ensures Pow2(m + n) == Pow2(m) * Pow2(n)
  {
    if m > 0 {
      Pow2Add(m - 1, n);
      assert Pow2(m + n) == 2 * (Pow2(m - 1) * Pow2(n)) == Pow2(m) * Pow2(n);
    }
  }

  lemma Regroup(a: nat, b: nat)
    ensures 10 * (a * b) == (2 * a) * (5 * b)
  {
  }

  /** Ten to the n holds two to the n. */
  lemma {:induction false} Pow10HoldsPow2(n: nat) returns (five: nat)
    ensures Pow10(n) == Pow2(n) * five
  {
    five := 1;
    if n > 0 {
      var f := Pow10HoldsPow2(n - 1);
      five := 5 * f;
      Regroup(Pow2(n - 1), f);
    }
  }

  lemma Cancel(a: nat, b: nat, c: nat)
    requires a > 0 && a * b == a * c
    ensures b == c
  {
  }

  lemma FromLeft(p: nat, f: nat, t: nat, v: nat, num: nat)
    requires num * p == v * ((p * f) * (10 * t))
    ensures p * num == p * (10 * (v * f * t))
  {
    assert v * ((p * f) * (10 * t)) == p * (10 * (v * f * t)) by {
      assert (p * f) * (10 * t) == p * (10 * (f * t)) by { Shuffle(p, f, t); }
      Associate(v, p, f * t);
      assert v * (f * t) == v * f * t;
    }
  }

  lemma Shuffle(p: nat, f: nat, t: nat)
    ensures (p * f) * (10 * t) == p * (10 * (f * t))
  {
  }

  lemma Associate(v: nat, p: nat, x: nat)
    ensures v * (p * (10 * x)) == p * (10 * (v * x))
  {
  }

  /** Two to the n cannot make a decimal whole that has more than n fractional digits, the last of
      them not a zero. */
  lemma FractionTooLong(num: nat, n: nat, k: nat, v: nat)
    requires k > n && num * Pow2(n) == v * Pow10(k)
    ensures num % 10 == 0
  {
    var five := Pow10HoldsPow2(n);
    var t := Pow10(k - n - 1);
    Pow10Add(n, k - n);
    assert Pow10(k) == (Pow2(n) * five) * (10 * t);
    FromLeft(Pow2(n), five, t, v, num);
    Cancel(Pow2(n), num, 10 * (v * five * t));
  }

  lemma LastDigit(w: string, f: string)
    requires AllDigits(w) && AllDigits(f) && f != "" && f[|f| - 1] != '0'
    ensures (NatOf(w) * Pow10(|f|) + NatOf(f)) % 10 != 0
  {
    assert Pow10(|f|) == 10 * Pow10(|f| - 1);
    TenTimes(NatOf(w), Pow10(|f| - 1), NatOf(f[..|f| - 1]), DigitValue(f[|f| - 1]));
  }

  lemma TenTimes(a: nat, p: nat, b: nat, d: nat)
    requires 0 < d < 10
    ensures (a * (10 * p) + (10 * b + d)) % 10 != 0
  {
    assert a * (10 * p) + (10 * b + d) == 10 * (a * p + b) + d;
  }

  /** Neither zeros in front nor zeros behind change what a number says. */
  lemma ZerosDoNotCount(whole: string, fraction: string, scale: nat)
    requires AllDigits(whole) && AllDigits(fraction)
    ensures var w, f := TrimZerosLeft(whole), TrimZerosRight(fraction);
            && AllDigits(w) && AllDigits(f) && (w != "" ==> w[0] != '0') && (f != "" ==> f[|f| - 1] != '0')
            && forall v: nat :: Exactly(whole, fraction, scale, v) <==> Exactly(w, f, scale, v)
  {
    hide NatOf, Pow10, TrimZerosLeft, TrimZerosRight;
    var w, f := TrimZerosLeft(whole), TrimZerosRight(fraction);
    TrimZerosLeftSuffix(whole);
    TrimZerosRightPrefix(fraction);
    var zw, zf := whole[..|whole| - |w|], fraction[|f|..];
    assert whole == zw + w && fraction == f + zf;
    NatOfZeros(zw);
    NatOfZeros(zf);
    NatOfConcat(zw, w);
    NatOfConcat(f, zf);
    Pow10Add(|f|, |zf|);
    forall v: nat ensures Exactly(whole, fraction, scale, v) <==> Exactly(w, f, scale, v) {
      Rescale(NatOf(w), Pow10(|f|), NatOf(f), Pow10(|zf|), scale, v);
    }
  }

  lemma Rescale(w: nat, p: nat, f: nat, q: nat, scale: nat, v: nat)
    requires q > 0
    ensures v * (p * q) == (w * (p * q) + f * q) * scale <==> v * p == (w * p + f) * scale
  {
    assert v * (p * q) == q * (v * p);
    assert w * (p * q) + f * q == q * (w * p + f);
    assert (q * (w * p + f)) * scale == q * ((w * p + f) * scale);
    if q * (v * p) == q * ((w * p + f) * scale) {
      Cancel(q, v * p, (w * p + f) * scale);
    }
  }

  /** A number with more than nineteen whole digits, the first of them not a zero, is out of range. */
  lemma TooManyDigits(w: string, f: string, scale: nat, v: nat)
    requires AllDigits(w) && AllDigits(f) && |w| > MAX_INT64_DIGITS && w[0] != '0' && scale > 0
    requires Exactly(w, f, scale, v)
    ensures v > MAX_INT64
  {
    hide NatOf, Pow10;
    NatOfLeading(w);
    Pow10Monotone(MAX_INT64_DIGITS, |w| - 1);
    TwentyDigits();
    AtLeastWhole(NatOf(w), Pow10(|f|), NatOf(f), scale, v);
  }

  lemma TwentyDigits()
    ensures Pow10(MAX_INT64_DIGITS) > MAX_INT64
  {
    assert Pow10(9) == 1_000_000_000;
    Pow10Add(9, 9);
    assert Pow10(18) == 1_000_000_000 * 1_000_000_000;
  }

  lemma AtLeastWhole(w: nat, p: nat, f: nat, scale: nat, v: nat)
    requires p > 0 && scale > 0 && v * p == (w * p + f) * scale
    ensures v >= w
  {
    Scaled(w * p + f, scale);
    Grows(v, w, p);
  }

  lemma Scaled(a: nat, scale: nat)
    requires scale > 0
    ensures a * scale >= a
  {
  }

  lemma Grows(v: nat, w: nat, p: nat)
    requires p > 0
    ensures v < w ==> v * p < w * p
  {
  }

  // ---------------------------------------------------------------- scaling

  /** strings.Cut at the first c. */
  function Cut(s: string, c: char): (string, string) {
    if s == "" then ("", "")
    else if s[0] == c then ("", s[1..])
    else var (a, b) := Cut(s[1..], c); ([s[0]] + a, b)
  }

  lemma {:induction false} CutBody(whole: string, rest: string)
    requires AllDigits(whole)
    ensures Cut(whole, '.') == (whole, "") && Cut(whole + ("." + rest), '.') == (whole, rest)
    decreases |whole|
  {
    if whole == "" {
      assert whole + ("." + rest) == "." + rest;
    } else {
      assert (whole + ("." + rest))[1..] == whole[1..] + ("." + rest);
      assert whole == [whole[0]] + whole[1..];
      CutBody(whole[1..], rest);
    }
  }

  /** The size of a number that splitValue accepts, at a power of two: it is returned exactly when it
      is whole and fits, although two shortcuts reject before any arithmetic. */
  method ScaleDecimal(number: string, scale: nat, ghost n: Number) returns (r: Result<nat, Error>)
    requires n.Ok() && number == n.Text()
    requires scale > 0 && scale == Pow2(TrailingZeros(scale))
    ensures forall v: nat :: r == Ok(v) <==> v <= MAX_INT64 && Exactly(n.whole, n.fraction, scale, v)
  {
    hide TrimZerosLeft, TrimZerosRight, AllZeros, Exactly, NatOf, Pow10, TrailingZeros, Pow2;
    var body := number;
    if body != "" && body[0] == '+' {
      body := body[1..];
    }
    BodyOf(n);
    var (whole, fraction) := Cut(body, '.');
    ZerosDoNotCount(n.whole, n.fraction, scale);
    whole := TrimZerosLeft(whole);
    fraction := TrimZerosRight(fraction);
    if whole == "" {
      NoWholeDigits(fraction, scale);
      whole := "0";
    }
    r := ScaleTrimmed(whole, fraction, scale);
  }

  lemma BodyOf(n: Number)
    requires n.Ok()
    ensures n.plus <==> n.Text() != "" && n.Text()[0] == '+'
    ensures n.plus ==> n.Text()[1..] == n.Body()
    ensures !n.plus ==> n.Text() == n.Body()
    ensures Cut(n.Body(), '.') == (n.whole, n.fraction)
  {
    hide Cut;
    CutBody(n.whole, n.fraction);
    if n.plus {
      assert n.Text() == "+" + n.Body();
    } else {
      assert n.Text() == n.Body();
      if n.whole != "" { assert n.Body()[0] == n.whole[0]; } else { assert n.Body()[0] == '.'; }
    }
    if n.dot { assert n.Body() == n.whole + ("." + n.fraction); } else { assert n.Body() == n.whole; }
  }

  lemma NoWholeDigits(f: string, scale: nat)
    requires AllDigits(f)
    ensures AllDigits("0") && forall v: nat :: Exactly("", f, scale, v) <==> Exactly("0", f, scale, v)
  {
    NatOfZeros("0");
    NatOfZeros("");
    hide NatOf;
  }

  /** The rest of scaleDecimal, once the zeros are gone. */
  method ScaleTrimmed(w: string, f: string, scale: nat) returns (r: Result<nat, Error>)
    requires AllDigits(w) && AllDigits(f) && scale > 0 && scale == Pow2(TrailingZeros(scale))
    requires w == "0" || (w != "" && w[0] != '0')
    requires f != "" ==> f[|f| - 1] != '0'
    ensures forall v: nat :: r == Ok(v) <==> v <= MAX_INT64 && Exactly(w, f, scale, v)
  {
    hide Exactly, NatOf, Pow10, TrailingZeros, Pow2;
    if |w| > MAX_INT64_DIGITS {
      forall v: nat | Exactly(w, f, scale, v) ensures v > MAX_INT64 {
        TooManyDigits(w, f, scale, v);
      }
      return Err(TooLarge);
    }
    if |f| > TrailingZeros(scale) {
      forall v: nat ensures !Exactly(w, f, scale, v) {
        TooManyFractionDigits(w, f, scale, v);
      }
      return Err(Fractional);
    }
    var num, den := (NatOf(w) * Pow10(|f|) + NatOf(f)) * scale, Pow10(|f|);
    forall v: nat ensures Exactly(w, f, scale, v) <==> num % den == 0 && v == num / den {
      ExactlyTheQuotient(w, f, scale, v);
    }
    if num % den != 0 { return Err(Fractional); }
    if num / den > MAX_INT64 { return Err(TooLarge); }
    return Ok(num / den);
  }

  lemma TooManyFractionDigits(w: string, f: string, scale: nat, v: nat)
    requires AllDigits(w) && AllDigits(f) && f != "" && f[|f| - 1] != '0'
    requires scale > 0 && scale == Pow2(TrailingZeros(scale)) && |f| > TrailingZeros(scale)
    ensures !Exactly(w, f, scale, v)
  {
    hide NatOf, Pow10, TrailingZeros, Pow2;
    LastDigit(w, f);
    if Exactly(w, f, scale, v) {
      FractionTooLong(NatOf(w) * Pow10(|f|) + NatOf(f), TrailingZeros(scale), |f|, v);
    }
  }

  lemma ExactlyTheQuotient(w: string, f: string, scale: nat, v: nat)
    requires AllDigits(w) && AllDigits(f)
    ensures var num, den := (NatOf(w) * Pow10(|f|) + NatOf(f)) * scale, Pow10(|f|);
            Exactly(w, f, scale, v) <==> num % den == 0 && v == num / den
  {
    hide NatOf, Pow10;
    Quotient(v, Pow10(|f|), (NatOf(w) * Pow10(|f|) + NatOf(f)) * scale);
  }

  lemma Quotient(v: nat, den: nat, num: nat)
    requires den > 0
    ensures v * den == num <==> num % den == 0 && v == num / den
  {
    if v * den == num {
      Divides(v, den);
    } else if num % den == 0 {
      assert num == (num / den) * den;
    }
  }

  lemma Divides(v: nat, den: nat)
    requires den > 0
    ensures (v * den) % den == 0 && (v * den) / den == v
  {
    var q, r := (v * den) / den, (v * den) % den;
    assert v * den == q * den + r;
    Grows(v, q, den);
    if q < v {
      assert v * den == (v - q) * den + q * den;
      MulAtLeast(v - q, den);
    }
  }

  // ---------------------------------------------------------------- reading a size

  /** Where the number at the start of input ends, and the number. */
  function Scan(input: string): (r: (Number, nat))
    ensures r.1 <= |input| && AllDigits(r.0.whole) && AllDigits(r.0.fraction)
  {
    var start := if input != "" && input[0] == '+' then 1 else 0;
    var i := DigitsEnd(input, start);
    if i < |input| && input[i] == '.' then
      var j := DigitsEnd(input, i + 1);
      (Number(start == 1, input[start..i], true, input[i + 1..j]), j)
    else (Number(start == 1, input[start..i], false, ""), i)
  }

  method SkipDigits(input: string, i: nat) returns (j: nat, seen: bool)
    requires i <= |input|
    ensures j == DigitsEnd(input, i) && (seen <==> j > i)
  {
    j, seen := i, false;
    while j < |input| && IsDigit(input[j])
      invariant i <= j <= |input| && DigitsEnd(input, j) == DigitsEnd(input, i)
      invariant seen <==> j > i
    {
      seen := true;
      j := j + 1;
    }
  }

  /** splitValue: the number and the suffix of a size. */
  method SplitValue(input: string) returns (r: Result<(string, string), Error>)
    requires input != ""
    ensures var (n, end) := Scan(input);
            r == if input[0] == '-' then Err(Negative)
                 else if !n.Ok() then Err(NoNumber)
                 else if !IsLetters(Trim(input[end..])) then Err(BadSuffix)
                 else Ok((input[..end], Trim(input[end..])))
  {
    hide Trim, IsLetters, DigitsEnd;
    if input[0] == '-' { return Err(Negative); }
    var end := 0;
    if input[0] == '+' {
      end := end + 1;
    }
    var digitSeen, more;
    end, digitSeen := SkipDigits(input, end);
    if end < |input| && input[end] == '.' {
      end, more := SkipDigits(input, end + 1);
      digitSeen := digitSeen || more;
    }
    if !digitSeen { return Err(NoNumber); }
    var suffix := Trim(input[end..]);
    if !IsLetters(suffix) { return Err(BadSuffix); }
    return Ok((input[..end], suffix));
  }

  /** Parse: v is returned exactly when raw says v bytes and v fits; anything else is an error. */
  method Parse(raw: string) returns (r: Result<nat, Error>)
    ensures forall v: nat :: r == Ok(v) <==> v <= MAX_INT64 && Says(raw, v)
  {
    hide Trim, Scan, Written, ScaleForSuffix, Exactly, Number.Ok, Number.Text, IsLetters;
    var input := Trim(raw);
    SizeIsScanned(raw);
    if input == "" { return Err(Empty); }
    ghost var n := Scan(input).0;
    var split := SplitValue(input);
    if split.Err? { return Err(split.error); }
    var (number, suffix) := split.value;
    var scale := ScaleForSuffix(suffix);
    if scale.None? { return Err(UnknownSuffix); }
    ScalesArePowersOfTwo(suffix);
    ScanReads(input);
    r := ScaleDecimal(number, scale.value, n);
  }

  lemma ScanReads(input: string)
    ensures var (n, end) := Scan(input); input[..end] == n.Text()
  {
    hide DigitsEnd;
    var (n, end) := Scan(input);
    var start := if n.plus then 1 else 0;
    var i := start + |n.whole|;
    Glue(input, start, i);
    Glue(input, i, end);
    assert n.dot ==> input[i..end] == "." + n.fraction;
    assert !n.dot ==> input[i..end] == "";
    TextParts(n, input[..start], input[i..end]);
    Cat(input[..start], n.whole, input[i..end]);
  }

  lemma Glue(s: string, i: nat, j: nat)
    requires i <= j <= |s|
    ensures s[..i] + s[i..j] == s[..j]
  {
  }

  /** What a number can be followed by. */
  predicate Ends(rest: string) {
    rest != "" ==> !IsDigit(rest[0]) && rest[0] != '.'
  }

  /** Where the parts of a number stand. */
  lemma Parts(n: Number, rest: string)
    requires !n.dot ==> n.fraction == ""
    ensures var input, start := n.Text() + rest, if n.plus then 1 else 0;
            var i := start + |n.whole|;
            var j := if n.dot then i + 1 + |n.fraction| else i;
            && j == |n.Text()| && input[start..i] == n.whole
            && (n.dot ==> input[i] == '.' && input[i + 1..j] == n.fraction)
            && (rest != "" ==> input[j] == rest[0])
  {
    hide AllDigits;
    var plus := if n.plus then "+" else "";
    var tail := if n.dot then "." + n.fraction else "";
    TextParts(n, plus, tail);
    Cat(plus, n.whole + tail, rest);
    Cat(n.whole, tail, rest);
    Middle(plus, n.whole, tail + rest);
    EndStart(plus + (n.whole + tail), rest);
    if n.dot {
      var p := plus + n.whole;
      Cat(plus, n.whole, tail + rest);
      Cat(".", n.fraction, rest);
      Middle(p, ".", n.fraction + rest);
      Cat(p, ".", n.fraction + rest);
      Middle(p + ".", n.fraction, rest);
    }
  }

  lemma TextParts(n: Number, plus: string, tail: string)
    requires plus == (if n.plus then "+" else "") && tail == (if n.dot then "." + n.fraction else "")
    ensures n.Text() == plus + (n.whole + tail)
  {
  }

  lemma Cat(a: string, b: string, c: string)
    ensures a + b + c == a + (b + c)
  {
  }

  lemma EndStart(a: string, b: string)
    ensures b != "" ==> (a + b)[|a|] == b[0]
  {
  }

  lemma Middle(a: string, b: string, c: string)
    ensures var s := a + (b + c);
            |a| + |b| <= |s| && s[|a|..|a| + |b|] == b && (b != "" ==> s[|a|] == b[0])
  {
  }

  lemma ScanFinds(n: Number, rest: string)
    requires n.Ok() && Ends(rest)
    ensures Scan(n.Text() + rest) == (n, |n.Text()|) && n.Text() != "" && n.Text()[0] != '-'
  {
    hide DigitsEnd, Number.Text;
    var input := n.Text() + rest;
    var start := if n.plus then 1 else 0;
    var i := start + |n.whole|;
    Parts(n, rest);
    FirstOfNumber(n);
    DigitsEndUnique(input, start, i);
    if n.dot {
      DigitsEndUnique(input, i + 1, |n.Text()|);
    }
  }

  lemma FirstOfNumber(n: Number)
    requires n.Ok()
    ensures n.Text() != "" && n.Text()[0] != '-' && (n.plus <==> n.Text()[0] == '+')
  {
    if !n.plus {
      assert n.Text() == n.Body();
      assert n.Text()[0] == if n.whole != "" then n.whole[0] else '.';
    }
  }

  lemma Suffixes(gap: string, suffix: string)
    requires AllSpace(gap) && IsLetters(suffix)
    ensures Trim(gap + suffix) == suffix && Ends(gap + suffix)
  {
    hide Trim;
    LettersAreNoSpace(suffix);
    TrimOfPadded(gap, suffix, "");
    assert gap + suffix + "" == gap + suffix;
    TrimFixed(suffix);
    if gap != "" { assert IsSpace((gap + suffix)[0]); }
  }

  lemma LettersAreNoSpace(s: string)
    requires IsLetters(s)
    ensures Trimmed(s) && Ends(s)
  {
  }

  lemma NothingBehind(s: string, q: string)
    requires AllSpace(q) && (s + q != "" ==> !IsSpace((s + q)[|s + q| - 1]))
    ensures q == ""
  {
    hide IsSpace;
  }

  lemma RestOfTrimmed(input: string, end: nat)
    requires end <= |input| && Trimmed(input)
    ensures exists gap :: AllSpace(gap) && input[end..] == gap + Trim(input[end..])
  {
    hide Trim, IsSpace;
    var rest := input[end..];
    var p, q := TrimSplits(rest);
    assert rest != "" ==> !IsSpace(rest[|rest| - 1]);
    NothingBehind(p + Trim(rest), q);
    assert p + Trim(rest) + "" == p + Trim(rest);
  }

  /** The units, whatever the case of their letters. */
  predicate IsUnit(suffix: string, factor: nat) {
    var s := ToLower(suffix);
    || (s in ["", "b"] && factor == 1)
    || (s in ["kb", "kib"] && factor == 1_024)
    || (s in ["mb", "mib"] && factor == 1_048_576)
    || (s in ["gb", "gib"] && factor == 1_073_741_824)
  }

  /** Ten to the n as a number with a fraction has it. */
  function Tenth(n: nat): (p: real)
    ensures p > 0.0
  {
    if n == 0 then 1.0 else Tenth(n - 1) / 10.0
  }

  lemma {:induction false} TenthOfPow10(n: nat)
    ensures Tenth(n) * Pow10(n) as real == 1.0
  {
    if n > 0 {
      TenthOfPow10(n - 1);
      TenthStep(Tenth(n - 1), Pow10(n - 1));
    }
  }

  lemma TenthStep(t: real, p: nat)
    requires t * p as real == 1.0
    ensures (t / 10.0) * (10 * p) as real == 1.0
  {
    assert (10 * p) as real == 10.0 * p as real;
    assert (t / 10.0) * (10.0 * p as real) == t * p as real;
  }

  /** A size says the product of its number and its unit, and with anything but a unit behind the number it
      says nothing: v bytes, where v is (whole + fraction / 10^n) * unit. */
  lemma SizesAreProducts(n: Number, gap: string, suffix: string, v: nat)
    requires n.Ok() && AllSpace(gap) && IsLetters(suffix) && (suffix == "" ==> gap == "")
    ensures Says(n.Text() + (gap + suffix), v) <==>
              exists factor: nat :: IsUnit(suffix, factor)
                && v as real == (NatOf(n.whole) as real + NatOf(n.fraction) as real * Tenth(|n.fraction|)) * factor as real
  {
    hide Scan, Trim, Exactly, Says, Tenth, NatOf, Number.Ok, Number.Text, IsLetters, AllSpace, IsUnit, ScaleForSuffix;
    var raw := n.Text() + (gap + suffix);
    SizeIsTrimmed(n, gap, suffix);
    SizeIsScanned(raw);
    Suffixes(gap, suffix);
    ScanFinds(n, gap + suffix);
    assert raw[|n.Text()|..] == gap + suffix;
    UnitsAreScales(suffix);
    assert AllDigits(n.whole) && AllDigits(n.fraction) by { NumberDigits(n); }
    forall factor: nat {
      ExactlyTheProduct(n.whole, n.fraction, factor, v);
    }
  }

  lemma NumberDigits(n: Number)
    requires n.Ok()
    ensures AllDigits(n.whole) && AllDigits(n.fraction)
  {
  }

  lemma UnitsAreScales(suffix: string)
    ensures forall factor: nat :: IsUnit(suffix, factor) <==> ScaleForSuffix(suffix) == Some(factor)
  {
  }

  lemma ExactlyTheProduct(whole: string, fraction: string, factor: nat, v: nat)
    requires AllDigits(whole) && AllDigits(fraction)
    ensures Exactly(whole, fraction, factor, v) <==>
              v as real == (NatOf(whole) as real + NatOf(fraction) as real * Tenth(|fraction|)) * factor as real
  {
    hide NatOf, Tenth, Pow10;
    TenthOfPow10(|fraction|);
    Unscaled(v, NatOf(whole), NatOf(fraction), Pow10(|fraction|), Tenth(|fraction|), factor);
  }

  lemma Unscaled(v: nat, w: nat, f: nat, p: nat, t: real, factor: nat)
    requires t * p as real == 1.0 && t > 0.0
    ensures v * p == (w * p + f) * factor <==> v as real == (w as real + f as real * t) * factor as real
  {
    var x, y := v as real, (w as real + f as real * t) * factor as real;
    var q := p as real;
    assert (v * p) as real == x * q;
    Distributes(w as real, f as real, q, t, factor as real);
    assert ((w * p + f) * factor) as real == y * q;
    CancelReal(x, y, q, t);
  }

  lemma Distributes(w: real, f: real, q: real, t: real, factor: real)
    requires t * q == 1.0
    ensures (w + f * t) * factor * q == (w * q + f) * factor
  {
    assert (w + f * t) * q == w * q + f * (t * q);
    assert (w + f * t) * factor * q == ((w + f * t) * q) * factor;
  }

  lemma CancelReal(x: real, y: real, q: real, t: real)
    requires t * q == 1.0
    ensures x * q == y * q <==> x == y
  {
    if x * q == y * q {
      assert x * (q * t) == (x * q) * t == (y * q) * t == y * (q * t);
    }
  }

  lemma SizeIsTrimmed(n: Number, gap: string, suffix: string)
    requires n.Ok() && AllSpace(gap) && IsLetters(suffix) && (suffix == "" ==> gap == "")
    ensures Trim(n.Text() + (gap + suffix)) == n.Text() + (gap + suffix)
  {
    hide Trim, IsSpace, IsLetters;
    var s := n.Text() + (gap + suffix);
    NumberEnds(n);
    LettersAreNoSpace(suffix);
    assert s[|s| - 1] == if suffix != "" then suffix[|suffix| - 1] else n.Text()[|n.Text()| - 1];
    TrimFixed(s);
  }

  lemma NumberEnds(n: Number)
    requires n.Ok()
    ensures n.Text() != "" && !IsSpace(n.Text()[0]) && !IsSpace(n.Text()[|n.Text()| - 1])
  {
    FirstOfNumber(n);
    var t := n.Text();
    assert t[|t| - 1] == if n.fraction != "" then n.fraction[|n.fraction| - 1] else if n.dot then '.' else n.whole[|n.whole| - 1];
    assert t[0] == if n.plus then '+' else if n.whole != "" then n.whole[0] else '.';
  }

  /** The one way to read a size is the scan. */
  lemma SizeIsScanned(raw: string)
    ensures forall v: nat :: Says(raw, v) <==>
              var input := Trim(raw);
              var (n, end) := Scan(input);
              var suffix := Trim(input[end..]);
              && input != "" && input[0] != '-' && n.Ok() && IsLetters(suffix) && ScaleForSuffix(suffix).Some?
              && Exactly(n.whole, n.fraction, ScaleForSuffix(suffix).value, v)
  {
    hide Trim, Scan, ScaleForSuffix, Exactly, Number.Ok, Number.Text, IsLetters, AllSpace, Trimmed;
    var input := Trim(raw);
    var (n, end) := Scan(input);
    var suffix := Trim(input[end..]);
    TrimIdempotent(raw);
    forall m: Number, gap: string, s: string | Written(input, m, gap, s) ensures m == n && s == suffix && input != "" && input[0] != '-' {
      Suffixes(gap, s);
      ScanFinds(m, gap + s);
      assert input[|m.Text()|..] == gap + s;
    }
    RestOfTrimmed(input, end);
    ScanReads(input);
    var gap :| AllSpace(gap) && input[end..] == gap + suffix;
    assert input == n.Text() + (gap + suffix);
    assert n.Ok() && IsLetters(suffix) ==> Written(input, n, gap, suffix);
  }
}
