/** internal/mock/number.go: decimal literals of unbounded length compared without rounding. */
module MockNumber {
  import opened Wrappers
  import opened Text

  const EXP_LIMIT: int := 1_000_000_000_000_000_000
  const SCAN_MAX: int := 4 * EXP_LIMIT

  predicate InInt64(x: int) {
    -MAX_INT64 - 1 <= x <= MAX_INT64
  }

  /** 0.<digits> * 10^exp; zero has no digits. */
  datatype Number = Number(neg: bool, digits: string, exp: int)

  const ZERO := Number(false, "", 0)

  function Clamp(x: int, limit: int): int {
    if x < -limit then -limit else if x > limit then limit else x
  }

  predicate Finite(e: int) {
    -EXP_LIMIT < e < EXP_LIMIT
  }

  function Shift(e: int, digits: int): int {
    Clamp(e + digits, EXP_LIMIT)
  }

  // ---------------------------------------------------------------- what the parser accepts

  datatype Sign = NoSign | Minus | Plus {
    function Text(): string { match this case NoSign => "" case Minus => "-" case Plus => "+" }
  }

  predicate IsMark(c: char) { c == 'e' || c == 'E' }

  predicate IsSign(c: char) { c == '-' || c == '+' }

  datatype Exponent = Exponent(mark: char, sign: Sign, digits: string)

  /** A number as it is written. */
  datatype Literal = Literal(sign: Sign, whole: string, frac: Option<string>, exp: Option<Exponent>) {
    predicate WellFormed() {
      && whole != "" && AllDigits(whole)
      && (frac.Some? ==> frac.value != "" && AllDigits(frac.value))
      && (exp.Some? ==> IsMark(exp.value.mark) && exp.value.digits != "" && AllDigits(exp.value.digits))
    }

    /** The grammar of section 6 of RFC 8259. */
    predicate JSON() {
      WellFormed() && sign != Plus && (whole == "0" || whole[0] != '0')
    }

    function Fraction(): string { if frac.Some? then frac.value else "" }

    function Digits(): string { whole + Fraction() }

    function FractionText(): string { if frac.Some? then "." + frac.value else "" }

    function ExpText(): string {
      if exp.Some? then [exp.value.mark] + (exp.value.sign.Text() + exp.value.digits) else ""
    }

    function Text(): string {
      sign.Text() + (whole + (FractionText() + ExpText()))
    }

    /** The exponent as written, however long. */
    function Power(): int
      requires WellFormed()
    {
      if exp.None? then 0
      else if exp.value.sign == Minus then 0 - NatOf(exp.value.digits)
      else NatOf(exp.value.digits)
    }

    /** Leading zeros of the digits, and the digits without zeros at either end. */
    function Lead(): nat
    {
      TrimZerosLeftSuffix(Digits());
      |Digits()| - |TrimZerosLeft(Digits())|
    }

    function Core(): string { TrimZerosRight(TrimZerosLeft(Digits())) }

    /** The exponent of the normal form 0.<core> * 10^Scale, before any cap. */
    function Scale(): int
      requires WellFormed()
    {
      Power() + |whole| - Lead()
    }

    /** What parseNumber makes of the literal. */
    function Parsed(): Number
      requires WellFormed()
    {
      if Core() == "" then ZERO
      else Number(sign == Minus, Core(), Shift(Clamp(Power(), SCAN_MAX), |whole| - Lead()))
    }
  }

  // ---------------------------------------------------------------- the parser

  method CutDigits(s: string) returns (digits: string, rest: string)
    ensures digits == s[..DigitsEnd(s, 0)] && rest == s[DigitsEnd(s, 0)..]
  {
    var i := 0;
    while i < |s| && '0' <= s[i] <= '9'
      invariant 0 <= i <= |s| && AllDigits(s[..i])
    {
      i := i + 1;
    }
    assert s[0..i] == s[..i];
    DigitsEndUnique(s, 0, i);
    return s[..i], s[i..];
  }

  /** The exponent part of a number, as the parser reads it. */
  function ExponentOf(s: string): Option<int> {
    if s == "" then Some(0)
    else if s[0] != 'e' && s[0] != 'E' then None
    else
      var t := s[1..];
      var neg := t != "" && t[0] == '-';
      var u := if t != "" && IsSign(t[0]) then t[1..] else t;
      if u == "" || !AllDigits(u) then None
      else if neg then Some(-Clamp(NatOf(u), SCAN_MAX))
      else Some(Clamp(NatOf(u), SCAN_MAX))
  }

  method ParseExponent(s: string) returns (r: Option<int>)
    ensures r == ExponentOf(s)
  {
    if s == "" { return Some(0); }
    if s[0] != 'e' && s[0] != 'E' { return None; }
    var t := s[1..];
    var neg := t != "" && t[0] == '-';
    if neg || (t != "" && t[0] == '+') {
      t := t[1..];
    }
    var digits, rest := CutDigits(t);
    assert t == digits + rest && AllDigits(digits) by { assert t[0..DigitsEnd(t, 0)] == digits; }
    if digits == "" || rest != "" {
      assert rest != "" ==> !IsDigit(t[|digits|]);
      return None;
    }
    assert t == digits;
    LeadingZerosDoNotCount(t);
    var e := ScanExponent(TrimZerosLeft(t));
    if neg { return Some(-e); }
    return Some(e);
  }

  /** The scanning loop: it stops as soon as the cap is out of reach, and never leaves int64. */
  method ScanExponent(digits: string) returns (e: int)
    requires AllDigits(digits)
    ensures e == Clamp(NatOf(digits), SCAN_MAX)
  {
    e := 0;
    var i := 0;
    while i < |digits|
      invariant 0 <= i <= |digits|
      invariant e == NatOf(digits[..i])
    {
      if e > SCAN_MAX / 10 {
        PrefixIsSmaller(digits, i);
        return SCAN_MAX;
      }
      assert digits[..i + 1][..i] == digits[..i];
      assert InInt64(e * 10 + DigitValue(digits[i]));
      e := e * 10 + DigitValue(digits[i]);
      i := i + 1;
    }
    assert digits[..i] == digits;
    e := if e < SCAN_MAX then e else SCAN_MAX;
  }

  lemma LeadingZerosDoNotCount(s: string)
    requires AllDigits(s)
    ensures AllDigits(TrimZerosLeft(s)) && NatOf(TrimZerosLeft(s)) == NatOf(s)
  {
    TrimZerosLeftSuffix(s);
    var z := s[..|s| - |TrimZerosLeft(s)|];
    assert s == z + TrimZerosLeft(s);
    NatOfConcat(z, TrimZerosLeft(s));
    NatOfZeros(z);
  }

  /** A digit more multiplies by ten. */
  lemma PrefixIsSmaller(s: string, i: nat)
    requires AllDigits(s) && i < |s|
    ensures NatOf(s) >= 10 * NatOf(s[..i])
  {
    var p, q := s[..i], s[i..];
    assert s == p + q;
    NatOfConcat(p, q);
    Pow10Monotone(1, |q|);
    assert Pow10(1) == 10 * Pow10(0) == 10;
    MulMonotone(NatOf(p), 10, Pow10(|q|));
  }

  lemma MulMonotone(a: nat, b: nat, c: nat)
    requires b <= c
    ensures a * b <= a * c && b * a <= c * a
  {
  }

  /** parseNumber, as a function of the text. */
  function NumberOf(text: string): Option<Number> {
    if text != "" && IsSign(text[0]) then Unsigned(text[0] == '-', text[1..]) else Unsigned(false, text)
  }

  /** What parseNumber does behind the sign. */
  function Unsigned(neg: bool, s: string): Option<Number> {
    var whole, s1 := s[..DigitsEnd(s, 0)], s[DigitsEnd(s, 0)..];
    if whole == "" then None else
      var dot := s1 != "" && s1[0] == '.';
      var rest := if dot then s1[1..] else s1;
      var frac, s2 := if dot then rest[..DigitsEnd(rest, 0)] else "", if dot then rest[DigitsEnd(rest, 0)..] else s1;
      if dot && frac == "" then None else
        match ExponentOf(s2)
        case None => None
        case Some(e) => Some(Normal(neg, whole, frac, e))
  }

  function Normal(neg: bool, whole: string, frac: string, e: int): Number {
    var digits := whole + frac;
    var lead := |digits| - |TrimZerosLeft(digits)|;
    var core := TrimZerosRight(TrimZerosLeft(digits));
    if core == "" then ZERO else Number(neg, core, Shift(e, |whole| - lead))
  }

  method ParseNumber(text: string) returns (r: Option<Number>)
    ensures r == NumberOf(text)
  {
    hide ExponentOf, DigitsEnd, Normal;
    var neg, s := false, text;
    if |s| > 0 && (s[0] == '-' || s[0] == '+') {
      neg := s[0] == '-';
      s := s[1..];
    }
    var whole, s1 := CutDigits(s);
    if whole == "" { return None; }
    var frac := "";
    if s1 != "" && s1[0] == '.' {
      frac, s1 := CutDigits(s1[1..]);
      if frac == "" { return None; }
    }
    var exp := ParseExponent(s1);
    if exp.None? { return None; }
    var n := Normalized(neg, whole, frac, exp.value);
    return Some(n);
  }

  /** The end of parseNumber: outer zeros go, and those in front move the point. */
  method Normalized(neg: bool, whole: string, frac: string, e: int) returns (n: Number)
    ensures n == Normal(neg, whole, frac, e)
  {
    hide TrimZerosLeft, TrimZerosRight, Shift;
    var digits := whole;
    if frac != "" {
      digits := digits + frac;
    }
    assert digits == whole + frac;
    var lead := |digits| - |TrimZerosLeft(digits)|;
    TrimZerosLeftSuffix(digits);
    assert digits[lead..] == TrimZerosLeft(digits);
    digits := TrimZerosRight(digits[lead..]);
    if digits == "" { return ZERO; }
    return Number(neg, digits, Shift(e, |whole| - lead));
  }

  // ---------------------------------------------------------------- exactly the literals parse

  lemma DigitsThen(digits: string, rest: string)
    requires AllDigits(digits) && (rest != "" ==> !IsDigit(rest[0]))
    ensures var s := digits + rest; s[..DigitsEnd(s, 0)] == digits && s[DigitsEnd(s, 0)..] == rest
  {
    var s := digits + rest;
    assert s[0..|digits|] == digits;
    DigitsEndUnique(s, 0, |digits|);
  }

  lemma FirstIsDigit(digits: string)
    requires AllDigits(digits) && digits != ""
    ensures IsDigit(digits[0])
  {
  }

  lemma ExponentParses(l: Literal)
    requires l.WellFormed()
    ensures ExponentOf(l.ExpText()) == Some(Clamp(l.Power(), SCAN_MAX))
  {
    if l.exp.Some? {
      var Exponent(mark, sign, digits) := l.exp.value;
      hide NatOf, AllDigits;
      var t := sign.Text() + digits;
      assert l.ExpText()[1..] == t;
      if sign == NoSign {
        assert t == digits;
        assert IsDigit(t[0]) by { FirstIsDigit(digits); }
      } else {
        assert t[1..] == digits;
      }
    }
  }

  lemma TailStart(l: Literal, tail: string)
    requires l.WellFormed() && tail == l.FractionText() + l.ExpText()
    ensures tail != "" ==> !IsDigit(tail[0]) && (tail[0] == '.' <==> l.frac.Some?)
    ensures l.frac.Some? ==> tail != "" && tail[1..] == l.frac.value + l.ExpText()
    ensures l.frac.None? ==> tail == l.ExpText()
  {
    hide Literal.ExpText;
    ExpTextStart(l);
  }

  lemma UnsignedParses(l: Literal, neg: bool)
    requires l.WellFormed()
    ensures Unsigned(neg, l.whole + (l.FractionText() + l.ExpText()))
            == Some(Normal(neg, l.whole, l.Fraction(), Clamp(l.Power(), SCAN_MAX)))
  {
    hide Normal, ExponentOf, DigitsEnd, AllDigits, Literal.ExpText, Literal.FractionText;
    ExpTextStart(l);
    var tail := l.FractionText() + l.ExpText();
    TailStart(l, tail);
    DigitsThen(l.whole, tail);
    ExponentParses(l);
    if l.frac.Some? {
      DigitsThen(l.frac.value, l.ExpText());
    }
  }

  /** Every literal parses, to the normal form of its digits and exponent. */
  lemma LiteralParses(l: Literal)
    requires l.WellFormed()
    ensures NumberOf(l.Text()) == Some(l.Parsed())
  {
    hide Normal, Unsigned, Literal.Parsed, Literal.ExpText, Literal.FractionText;
    UnsignedParses(l, l.sign == Minus);
    NormalIsParsed(l);
    var s := l.whole + (l.FractionText() + l.ExpText());
    if l.sign == NoSign {
      assert l.Text() == s && s[0] == l.whole[0];
    } else {
      assert l.Text()[1..] == s;
    }
  }

  lemma ExpTextStart(l: Literal)
    requires l.WellFormed()
    ensures l.ExpText() != "" ==> !IsDigit(l.ExpText()[0]) && l.ExpText()[0] != '.'
  {
  }

  lemma NormalIsParsed(l: Literal)
    requires l.WellFormed()
    ensures Normal(l.sign == Minus, l.whole, l.Fraction(), Clamp(l.Power(), SCAN_MAX)) == l.Parsed()
  {
  }

  /** Nothing but a literal parses. */
  lemma OnlyLiteralsParse(text: string) returns (l: Literal)
    requires NumberOf(text).Some?
    ensures l.WellFormed() && l.Text() == text
  {
    hide Unsigned, AllDigits;
    if text != "" && IsSign(text[0]) {
      l := OnlyUnsignedParse(text[0] == '-', text[1..]);
      l := l.(sign := if text[0] == '-' then Minus else Plus);
      assert text == [text[0]] + text[1..];
    } else {
      l := OnlyUnsignedParse(false, text);
      l := l.(sign := NoSign);
    }
  }

  lemma OnlyUnsignedParse(neg: bool, s: string) returns (l: Literal)
    requires Unsigned(neg, s).Some?
    ensures l.WellFormed() && l.whole + (l.FractionText() + l.ExpText()) == s
  {
    hide ExponentOf, Normal, DigitsEnd, AllDigits, Unsigned, Literal.WellFormed, Literal.ExpText, Literal.FractionText;
    UnsignedSays(neg, s);
    var n := DigitsEnd(s, 0);
    var whole, s1 := s[..n], s[n..];
    assert whole == s[0..n];
    Rejoin(s, n);
    if s1 != "" && s1[0] == '.' {
      var rest := s1[1..];
      var m := DigitsEnd(rest, 0);
      assert rest[..m] == rest[0..m];
      var exp := OnlyExponentsParse(rest[m..]);
      l := Assemble(whole, Some(rest[..m]), exp);
      FractionRejoins(s1, m);
    } else {
      var exp := OnlyExponentsParse(s1);
      l := Assemble(whole, None, exp);
      assert "" + s1 == s1;
    }
  }

  lemma Assemble(whole: string, frac: Option<string>, exp: Option<Exponent>) returns (l: Literal)
    requires whole != "" && AllDigits(whole) && (frac.Some? ==> frac.value != "" && AllDigits(frac.value))
    requires Literal(NoSign, "0", None, exp).WellFormed()
    ensures l.WellFormed() && l.whole == whole && l.ExpText() == Literal(NoSign, "0", None, exp).ExpText()
    ensures l.FractionText() == if frac.Some? then "." + frac.value else ""
  {
    hide AllDigits;
    l := Literal(NoSign, whole, frac, exp);
  }

  lemma FractionRejoins(s: string, m: nat)
    requires s != "" && s[0] == '.' && m <= |s| - 1
    ensures "." + s[1..][..m] + s[1..][m..] == s
  {
    Rejoin(s[1..], m);
    Rejoin(s, 1);
  }

  lemma Rejoin(s: string, n: nat)
    requires n <= |s|
    ensures s[..n] + s[n..] == s
    ensures n == 1 ==> [s[0]] + s[1..] == s
  {
  }

  lemma UnsignedSays(neg: bool, s: string)
    requires Unsigned(neg, s).Some?
    ensures var s1 := s[DigitsEnd(s, 0)..];
            && DigitsEnd(s, 0) > 0
            && if s1 != "" && s1[0] == '.' then
                 var rest := s1[1..]; DigitsEnd(rest, 0) > 0 && ExponentOf(rest[DigitsEnd(rest, 0)..]).Some?
               else ExponentOf(s1).Some?
  {
    hide ExponentOf, Normal, DigitsEnd, AllDigits;
  }

  lemma OnlyExponentsParse(s: string) returns (exp: Option<Exponent>)
    requires ExponentOf(s).Some?
    ensures Literal(NoSign, "0", None, exp).WellFormed() && Literal(NoSign, "0", None, exp).ExpText() == s
  {
    hide NatOf, AllDigits;
    assert AllDigits("0") by { ZeroIsDigit(); }
    if s == "" { return None; }
    var t := s[1..];
    Rejoin(s, 1);
    if t != "" && IsSign(t[0]) {
      Rejoin(t, 1);
      exp := Some(Exponent(s[0], if t[0] == '-' then Minus else Plus, t[1..]));
    } else {
      assert "" + t == t;
      exp := Some(Exponent(s[0], NoSign, t));
    }
  }

  lemma ZeroIsDigit()
    ensures AllDigits("0")
  {
  }

  // ---------------------------------------------------------------- exact values

  function RPow10(e: int): (p: real)
    ensures p > 0.0
    decreases if e < 0 then -e else e
  {
    if e == 0 then 1.0 else if e > 0 then 10.0 * RPow10(e - 1) else RPow10(e + 1) / 10.0
  }

  lemma RPow10Step(e: int)
    ensures RPow10(e + 1) == 10.0 * RPow10(e)
  {
  }

  lemma {:induction false} RPow10Nat(n: nat)
    ensures RPow10(n) == Pow10(n) as real
  {
    if n > 0 {
      RPow10Nat(n - 1);
    }
  }

  lemma {:induction false} RPow10Add(e: int, n: nat)
    ensures RPow10(e + n) == RPow10(e) * RPow10(n)
    decreases n
  {
    hide RPow10;
    if n > 0 {
      RPow10Add(e, n - 1);
      RPow10Step(e + n - 1);
      RPow10Step(n - 1);
      TimesTen(RPow10(e), RPow10(n - 1));
    } else {
      RPow10Nat(0);
    }
  }

  lemma TimesTen(a: real, b: real)
    ensures 10.0 * (a * b) == a * (10.0 * b)
  {
  }

  lemma {:induction false} RPow10Monotone(d: int, e: int)
    requires d <= e
    ensures RPow10(d) <= RPow10(e)
    decreases e - d
  {
    if d < e {
      RPow10Monotone(d, e - 1);
      RPow10Step(e - 1);
    }
  }

  /** The rational number a literal stands for. */
  ghost function Value(l: Literal): real
    requires l.WellFormed()
  {
    NatOfConcat(l.whole, l.Fraction());
    var magnitude := NatOf(l.Digits()) as real * RPow10(l.Power() - |l.Fraction()|);
    if l.sign == Minus then -magnitude else magnitude
  }

  /** 0.<digits> */
  function Decimals(digits: string): real
    requires AllDigits(digits)
  {
    if digits == "" then 0.0 else (DigitValue(digits[0]) as real + Decimals(digits[1..])) / 10.0
  }

  lemma FirstDigit(digits: string)
    requires AllDigits(digits) && digits != ""
    ensures var d, t := DigitValue(digits[0]), digits[1..];
            && NatOf(digits) == d * Pow10(|t|) + NatOf(t)
            && Decimals(digits) == (d as real + Decimals(t)) / 10.0
            && RPow10(|digits|) == 10.0 * RPow10(|t|) && RPow10(|t|) == Pow10(|t|) as real
  {
    var h, t := digits[..1], digits[1..];
    assert digits == h + t;
    NatOfConcat(h, t);
    assert NatOf(h) == DigitValue(digits[0]) by { assert h[..0] == ""; }
    RPow10Nat(|t|);
    RPow10Step(|t|);
  }

  lemma {:induction false} DecimalsScale(digits: string)
    requires AllDigits(digits)
    ensures Decimals(digits) * RPow10(|digits|) == NatOf(digits) as real
  {
    hide Decimals, RPow10, Pow10, NatOf;
    if digits == "" {
      NoDigits();
      ZeroProduct(RPow10(0));
    } else {
      var t := digits[1..];
      DecimalsScale(t);
      FirstDigit(digits);
      ScaleStep(Decimals(digits), RPow10(|digits|), DigitValue(digits[0]), Decimals(t), RPow10(|t|),
                Pow10(|t|), NatOf(t), NatOf(digits));
    }
  }

  lemma NoDigits()
    ensures Decimals("") == 0.0 && NatOf("") == 0
  {
  }

  lemma ZeroProduct(x: real)
    ensures 0.0 * x == 0.0
  {
  }

  lemma ScaleStep(x: real, y: real, d: nat, f: real, p: real, q: nat, v: nat, n: nat)
    requires x == (d as real + f) / 10.0 && y == 10.0 * p && p == q as real && f * p == v as real && n == d * q + v
    ensures x * y == n as real
  {
    var e := d as real;
    assert x * y == (10.0 * x) * p;
    assert (10.0 * x) * p == (e + f) * p;
    assert (e + f) * p == e * p + f * p;
    assert e * p == (d * q) as real;
  }

  /** No zero at either end. */
  predicate Core(digits: string) {
    && AllDigits(digits)
    && (digits != "" ==> digits[0] != '0' && digits[|digits| - 1] != '0')
  }

  predicate NoTrailingZero(digits: string) {
    AllDigits(digits) && (digits != "" ==> digits[|digits| - 1] != '0')
  }

  lemma {:induction false} DecimalsRange(digits: string)
    requires NoTrailingZero(digits)
    ensures 0.0 <= Decimals(digits) < 1.0
    ensures digits != "" ==> Decimals(digits) > 0.0
    ensures digits != "" && digits[0] != '0' ==> Decimals(digits) >= 0.1
  {
    if digits != "" {
      DecimalsRange(digits[1..]);
    }
  }

  /** Comparing digit strings compares the numbers behind the decimal point. */
  lemma {:induction false} LessIsSmaller(s: string, t: string)
    requires NoTrailingZero(s) && NoTrailingZero(t)
    ensures Less(s, t) <==> Decimals(s) < Decimals(t)
  {
    if t != "" && s != "" {
      DecimalsRange(s[1..]);
      DecimalsRange(t[1..]);
      if s[0] == t[0] {
        LessIsSmaller(s[1..], t[1..]);
      }
    } else {
      DecimalsRange(s);
      DecimalsRange(t);
    }
  }

  /** The value of 0.<digits> * 10^scale. */
  ghost function Magnitude(digits: string, scale: int): real
    requires AllDigits(digits)
  {
    Decimals(digits) * RPow10(scale)
  }

  lemma MagnitudeOrder(s: string, m: int, t: string, n: int)
    requires Core(s) && Core(t) && s != "" && t != ""
    ensures Magnitude(s, m) > 0.0
    ensures m < n ==> Magnitude(s, m) < Magnitude(t, n)
    ensures m == n ==> (Less(s, t) <==> Magnitude(s, m) < Magnitude(t, n))
  {
    hide Decimals, RPow10, Less;
    DecimalsRange(s);
    DecimalsRange(t);
    LessIsSmaller(s, t);
    if m < n {
      RPow10Step(m);
      RPow10Monotone(m + 1, n);
    }
    OrderOfProducts(Decimals(s), RPow10(m), Decimals(t), RPow10(n));
  }

  lemma OrderOfProducts(a: real, p: real, b: real, q: real)
    requires 0.1 <= a < 1.0 && 0.1 <= b < 1.0 && p > 0.0
    ensures a * p > 0.0
    ensures q >= 10.0 * p ==> a * p < b * q
    ensures p == q ==> (a < b <==> a * p < b * q)
  {
    if q >= 10.0 * p {
      assert a * p < p by { assert (1.0 - a) * p > 0.0; }
      assert 10.0 * (b * q) >= q by { assert (10.0 * b - 1.0) * q >= 0.0; }
      Between(a * p, p, q, b * q);
    }
  }

  lemma Between(u: real, p: real, q: real, v: real)
    requires u < p && q >= 10.0 * p && 10.0 * v >= q
    ensures u < v
  {
  }

  /** Dropping zeros and counting them in the exponent does not change the value. */
  lemma ValueOfNormalForm(l: Literal)
    requires l.WellFormed()
    ensures Core(l.Core())
    ensures Value(l) == if l.sign == Minus then -Magnitude(l.Core(), l.Scale()) else Magnitude(l.Core(), l.Scale())
  {
    hide Decimals, RPow10, Pow10, NatOf, TrimZerosLeft, TrimZerosRight;
    NatOfConcat(l.whole, l.Fraction());
    var core := l.Core();
    var k := TrailingZeros(l.Digits());
    var p := l.Power() - |l.Fraction()|;
    assert p + k + |core| == l.Scale();
    DecimalsScale(core);
    RPow10Nat(k);
    RPow10Add(p, k);
    RPow10Add(p + k, |core|);
    WholeProduct(NatOf(core), Pow10(k));
    Regroup(Decimals(core), RPow10(|core|), RPow10(k), RPow10(p));
  }

  lemma WholeProduct(a: nat, b: nat)
    ensures (a * b) as real == a as real * b as real
  {
  }

  /** A digit string is its core between zeros, and only the trailing ones weigh. */
  lemma TrailingZeros(d: string) returns (k: nat)
    requires AllDigits(d)
    ensures var t := TrimZerosLeft(d); var core := TrimZerosRight(t);
            && Core(core) && k + |core| == |t| && NatOf(d) == NatOf(core) * Pow10(k)
            && |t| <= |d|
  {
    hide NatOf, Pow10, TrimZerosLeft, TrimZerosRight;
    var t := TrimZerosLeft(d);
    var core := TrimZerosRight(t);
    LeadingZerosDoNotCount(d);
    TrimZerosLeftSuffix(d);
    TrimZerosRightPrefix(t);
    k := |t| - |core|;
    var z := t[|core|..];
    assert t == core + z;
    assert core != "" ==> core[0] == t[0];
    NatOfConcat(core, z);
    NatOfZeros(z);
  }

  lemma Regroup(f: real, c: real, z: real, p: real)
    ensures f * c * z * p == f * (p * z * c)
  {
  }

  // ---------------------------------------------------------------- comparison

  /** strings.Compare and cmp.Compare. */
  function CompareText(s: string, t: string): int {
    if Less(s, t) then -1 else if Less(t, s) then 1 else 0
  }

  function CompareInt(m: int, n: int): int {
    if m < n then -1 else if m > n then 1 else 0
  }

  /** number.cmp */
  function Cmp(n: Number, o: Number): int {
    if n.neg != o.neg then (if n.neg then -1 else 1)
    else if n.digits == "" && o.digits == "" then 0
    else if n.digits == "" then -1
    else if o.digits == "" then 1
    else
      var byExp := CompareInt(n.exp, o.exp);
      var c := if byExp == 0 && Finite(n.exp) then CompareText(n.digits, o.digits) else byExp;
      if n.neg then -c else c
  }

  /** Both exponents hit the cap on the same side. */
  predicate SaturatedTogether(n: Number, o: Number) {
    n.digits != "" && o.digits != "" && n.neg == o.neg && n.exp == o.exp && !Finite(n.exp)
  }

  ghost function SignOf(x: real): int {
    if x < 0.0 then -1 else if x > 0.0 then 1 else 0
  }

  /** The longest literal for which a capped exponent stays capped behind the decimal point. */
  const EXACT_LENGTH: nat := 3_000_000_000_000_000_000

  lemma PointMoves(l: Literal)
    requires l.WellFormed()
    ensures -|l.Text()| <= |l.whole| - l.Lead() <= |l.Text()|
  {
  }

  /** The capped exponent is the exact one, capped. */
  lemma CapIsExact(l: Literal)
    requires l.WellFormed() && |l.Text()| <= EXACT_LENGTH && l.Core() != ""
    ensures l.Parsed().exp == Clamp(l.Scale(), EXP_LIMIT)
  {
    hide NatOf, TrimZerosLeft, TrimZerosRight, Literal.Text, Literal.Power;
    PointMoves(l);
  }

  /** No step of the parser leaves int64, up to a length only a text of exabytes exceeds. */
  lemma ExponentsFitInt64(l: Literal)
    requires l.WellFormed() && |l.Text()| <= MAX_INT64 - SCAN_MAX
    ensures InInt64(Clamp(l.Power(), SCAN_MAX) + (|l.whole| - l.Lead())) && InInt64(l.Parsed().exp)
  {
    PointMoves(l);
  }

  /** Comparing two magnitudes by capped exponent and digits. */
  lemma MagnitudesCompare(s: string, m: int, t: string, n: int)
    requires Core(s) && Core(t) && s != "" && t != ""
    ensures Magnitude(s, m) > 0.0
    ensures var d := SignOf(Magnitude(s, m) - Magnitude(t, n));
            && (Clamp(m, EXP_LIMIT) != Clamp(n, EXP_LIMIT) ==> d == CompareInt(Clamp(m, EXP_LIMIT), Clamp(n, EXP_LIMIT)))
            && (Clamp(m, EXP_LIMIT) == Clamp(n, EXP_LIMIT) && Finite(Clamp(m, EXP_LIMIT)) ==> d == CompareText(s, t))
  {
    hide Magnitude, Less, Core;
    MagnitudeOrder(s, m, t, n);
    MagnitudeOrder(t, n, s, m);
  }

  lemma ZeroHasNoMagnitude(scale: int)
    ensures Magnitude("", scale) == 0.0
  {
  }

  /** Parsing and comparing gives the order of the exact values, except that two numbers whose
      exponents were capped on the same side always compare equal. */
  lemma ComparisonIsExact(l: Literal, r: Literal)
    requires l.WellFormed() && r.WellFormed() && |l.Text()| <= EXACT_LENGTH && |r.Text()| <= EXACT_LENGTH
    ensures var x, y := l.Parsed(), r.Parsed();
            Cmp(x, y) == SignOf(Value(l) - Value(r)) <==> !SaturatedTogether(x, y) || Value(l) == Value(r)
    ensures SaturatedTogether(l.Parsed(), r.Parsed()) ==> Cmp(l.Parsed(), r.Parsed()) == 0
  {
    hide Magnitude, Literal.Text, Literal.Scale, Literal.Core, Value, Less, Core;
    ValueOfNormalForm(l);
    ValueOfNormalForm(r);
    var s, t := l.Core(), r.Core();
    ParsedParts(l);
    ParsedParts(r);
    if s == "" {
      ZeroHasNoMagnitude(l.Scale());
    }
    if t == "" {
      ZeroHasNoMagnitude(r.Scale());
    }
    if s != "" && t != "" {
      MagnitudesCompare(s, l.Scale(), t, r.Scale());
      MagnitudesCompare(t, r.Scale(), s, l.Scale());
    } else if s != "" {
      MagnitudesCompare(s, l.Scale(), s, l.Scale());
    } else if t != "" {
      MagnitudesCompare(t, r.Scale(), t, r.Scale());
    }
  }

  lemma ParsedParts(l: Literal)
    requires l.WellFormed() && |l.Text()| <= EXACT_LENGTH
    ensures l.Core() == "" ==> l.Parsed() == ZERO
    ensures l.Core() != "" ==> l.Parsed() == Number(l.sign == Minus, l.Core(), Clamp(l.Scale(), EXP_LIMIT))
  {
    if l.Core() != "" {
      CapIsExact(l);
    }
  }

  /** 0.0...01e<d>000000000000000000, with n zeros between the point and the one. */
  function Tiny(n: nat, d: char): Literal {
    Literal(NoSign, "0", Some(Zeros(n) + "1"), Some(Exponent('e', NoSign, [d] + Zeros(18))))
  }

  lemma TinyParts(n: nat, d: char)
    requires IsDigit(d)
    ensures var l := Tiny(n, d);
            && l.JSON() && |l.Text()| == n + 23 && l.Core() == "1"
            && l.Lead() == n + 1 && l.Power() == DigitValue(d) * EXP_LIMIT
  {
    hide NatOf, Zeros, TrimZerosLeft, TrimZerosRight;
    var l := Tiny(n, d);
    assert l.Digits() == Zeros(n + 1) + "1" by { ZerosCons(n); }
    CoreOfOne(n + 1);
    TinyPower(d);
  }

  lemma ZerosCons(n: nat)
    ensures "0" + (Zeros(n) + "1") == Zeros(n + 1) + "1"
  {
  }

  lemma TinyPower(d: char)
    requires IsDigit(d)
    ensures AllDigits([d] + Zeros(18)) && NatOf([d] + Zeros(18)) == DigitValue(d) * EXP_LIMIT
  {
    hide Zeros;
    PowerOf([d], 18);
    assert NatOf([d]) == DigitValue(d) by { assert [d][..0] == ""; }
    hide NatOf;
    assert Pow10(6) == 1_000_000;
    Pow10Add(6, 6);
    Pow10Add(12, 6);
  }

  /** The bound is not slack: a longer literal can make the cap mislead the comparison. */
  lemma LongerLiteralsCanMislead() returns (l: Literal, r: Literal)
    ensures l.JSON() && r.JSON() && |l.Text()| == EXACT_LENGTH + 24 && |r.Text()| <= EXACT_LENGTH
    ensures Value(l) > Value(r) && Cmp(l.Parsed(), r.Parsed()) < 0
  {
    hide Value, Magnitude, NatOf, Literal.Lead, Literal.Core, Literal.Text, Literal.Power;
    l, r := Tiny(EXACT_LENGTH + 1, '5'), Tiny(0, '1');
    TinyParts(EXACT_LENGTH + 1, '5');
    TinyParts(0, '1');
    assert DigitValue('5') == 5 && DigitValue('1') == 1;
    ValueOfNormalForm(l);
    ValueOfNormalForm(r);
    MagnitudeOrder("1", r.Scale(), "1", l.Scale());
  }

  function Zeros(n: nat): (s: string)
    ensures |s| == n && AllZeros(s)
  {
    seq(n, _ => '0')
  }

  lemma CoreOfOne(n: nat)
    ensures TrimZerosLeft(Zeros(n) + "1") == "1" && TrimZerosRight("1") == "1"
    decreases n
  {
    if n > 0 {
      assert (Zeros(n) + "1")[1..] == Zeros(n - 1) + "1";
      CoreOfOne(n - 1);
    } else {
      assert Zeros(0) + "1" == "1";
    }
  }

  lemma PowerOf(d: string, n: nat)
    requires AllDigits(d)
    ensures AllDigits(d + Zeros(n)) && NatOf(d + Zeros(n)) == NatOf(d) * Pow10(n)
  {
    NatOfConcat(d, Zeros(n));
    NatOfZeros(Zeros(n));
  }

  // ---------------------------------------------------------------- a total preorder, and equality of JSON numbers

  /** What the parser produces: zero carries no sign. */
  predicate Canonical(n: Number) {
    n.digits == "" ==> n == ZERO
  }

  lemma ParsedIsCanonical(text: string)
    ensures NumberOf(text).Some? ==> Canonical(NumberOf(text).value)
  {
  }

  lemma CompareTextOrder(s: string, t: string, u: string)
    ensures CompareText(s, t) == -CompareText(t, s)
    ensures CompareText(s, t) == 0 <==> s == t
    ensures CompareText(s, t) <= 0 && CompareText(t, u) <= 0 ==> CompareText(s, u) <= 0
  {
    LessTotal(s, t);
    LessIrreflexive(s);
    if Less(s, t) && Less(t, s) {
      LessTransitive(s, t, s);
    }
    if Less(s, t) && Less(t, u) {
      LessTransitive(s, t, u);
      if Less(u, s) {
        LessTransitive(s, u, s);
      }
    }
    LessTotal(t, u);
  }

  /** Whatever was capped, comparison is a total preorder on parsed numbers. */
  lemma CmpIsTotalPreorder(x: Number, y: Number, z: Number)
    requires Canonical(x) && Canonical(y) && Canonical(z)
    ensures Cmp(x, y) == -Cmp(y, x) && -1 <= Cmp(x, y) <= 1
    ensures Cmp(x, y) <= 0 && Cmp(y, z) <= 0 ==> Cmp(x, z) <= 0
    ensures Cmp(x, y) == 0 <==> x.neg == y.neg && (x.digits == "" <==> y.digits == "") && x.exp == y.exp
                                && (x.digits == y.digits || !Finite(x.exp))
  {
    hide Less;
    CompareTextOrder(x.digits, y.digits, z.digits);
    CompareTextOrder(z.digits, y.digits, x.digits);
    CompareTextOrder(x.digits, z.digits, x.digits);
  }

  predicate EqualJSONNumbers(want: string, got: string) {
    want == got
    || (NumberOf(want).Some? && NumberOf(got).Some? && Cmp(NumberOf(want).value, NumberOf(got).value) == 0)
  }

  /** Equality of JSON numbers is an equivalence on all texts, also on those that are no numbers. */
  lemma EqualJSONNumbersIsEquivalence(a: string, b: string, c: string)
    ensures EqualJSONNumbers(a, a)
    ensures EqualJSONNumbers(a, b) ==> EqualJSONNumbers(b, a)
    ensures EqualJSONNumbers(a, b) && EqualJSONNumbers(b, c) ==> EqualJSONNumbers(a, c)
  {
    hide NumberOf, Cmp;
    ParsedIsCanonical(a);
    ParsedIsCanonical(b);
    ParsedIsCanonical(c);
    if NumberOf(a).Some? && NumberOf(b).Some? {
      CmpIsTotalPreorder(NumberOf(a).value, NumberOf(b).value, NumberOf(a).value);
      if NumberOf(c).Some? {
        CmpIsTotalPreorder(NumberOf(a).value, NumberOf(b).value, NumberOf(c).value);
        CmpIsTotalPreorder(NumberOf(b).value, NumberOf(c).value, NumberOf(b).value);
        CmpIsTotalPreorder(NumberOf(a).value, NumberOf(c).value, NumberOf(a).value);
      }
    }
  }

  /** Every number of section 6 of RFC 8259 parses, and two of them are equal exactly when their values
      are or both exponents were capped on the same side. */
  lemma JSONNumbersParse(l: Literal, r: Literal)
    requires l.JSON() && r.JSON()
    ensures NumberOf(l.Text()) == Some(l.Parsed()) && NumberOf(r.Text()) == Some(r.Parsed())
    ensures |l.Text()| <= EXACT_LENGTH && |r.Text()| <= EXACT_LENGTH ==>
              (EqualJSONNumbers(l.Text(), r.Text()) <==> Value(l) == Value(r) || SaturatedTogether(l.Parsed(), r.Parsed()))
  {
    hide NumberOf, Cmp, Value, Literal.Text, Literal.Parsed, SaturatedTogether;
    LiteralParses(l);
    LiteralParses(r);
    ParsedIsCanonical(l.Text());
    CmpIsTotalPreorder(l.Parsed(), l.Parsed(), l.Parsed());
    if |l.Text()| <= EXACT_LENGTH && |r.Text()| <= EXACT_LENGTH {
      ComparisonIsExact(l, r);
    }
  }

  // ---------------------------------------------------------------- relations of json-rules

  datatype Relation = GT | GTE | LT | LTE {
    function Holds(c: int): bool {
      match this case GT => c > 0 case GTE => c >= 0 case LT => c < 0 case LTE => c <= 0
    }

    /** The relation takes equal numbers. */
    predicate Inclusive() {
      GTE? || LTE?
    }

    ghost predicate Orders(x: real, y: real) {
      match this case GT => x > y case GTE => x >= y case LT => x < y case LTE => x <= y
    }
  }
}
