/** Results that may be missing or may be errors. */
module Wrappers {
  datatype Option<+T> = None | Some(value: T)

  datatype Result<+T, +E> = Ok(value: T) | Err(error: E)
}

/** The text helpers of Go's strings, strconv and unicode packages that the models share.
    A string is a sequence of characters; a cache key is a string whose characters are bytes. */
module Text {

  // ---------------------------------------------------------------- white space

  /** The characters with Unicode's White_Space property. */
  predicate IsSpace(c: char) {
    || '\t' <= c <= '\r'
    || c == ' '
    || c == '\U{85}' || c == '\U{A0}' || c == '\U{1680}'
    || '\U{2000}' <= c <= '\U{200A}'
    || c == '\U{2028}' || c == '\U{2029}' || c == '\U{202F}' || c == '\U{205F}' || c == '\U{3000}'
  }

  /** One by one. */
  lemma WhiteSpaceCharacters()
    ensures forall c :: IsSpace(c) <==>
              c in "\t\n\U{B}\U{C}\r \U{85}\U{A0}\U{1680}\U{2000}\U{2001}\U{2002}\U{2003}\U{2004}\U{2005}\U{2006}\U{2007}\U{2008}\U{2009}\U{200A}\U{2028}\U{2029}\U{202F}\U{205F}\U{3000}"
  {
  }

  predicate AllSpace(s: string) {
    forall i | 0 <= i < |s| :: IsSpace(s[i])
  }

  function TrimLeft(s: string): string {
    if s != "" && IsSpace(s[0]) then TrimLeft(s[1..]) else s
  }

  function TrimRight(s: string): string {
    if s != "" && IsSpace(s[|s| - 1]) then TrimRight(s[..|s| - 1]) else s
  }

  function Trim(s: string): string {
    TrimRight(TrimLeft(s))
  }

  predicate Trimmed(s: string) {
    s != "" ==> !IsSpace(s[0]) && !IsSpace(s[|s| - 1])
  }

  /** TrimLeft is a suffix; what it drops is white space. */
  lemma {:induction false} TrimLeftSuffix(s: string)
    ensures |TrimLeft(s)| <= |s|
    ensures TrimLeft(s) == s[|s| - |TrimLeft(s)|..]
    ensures forall i | 0 <= i < |s| - |TrimLeft(s)| :: IsSpace(s[i])
    ensures TrimLeft(s) != "" ==> !IsSpace(TrimLeft(s)[0])
  {
    if s != "" && IsSpace(s[0]) {
      var t := s[1..];
      TrimLeftSuffix(t);
      forall i | 0 <= i < |s| - |TrimLeft(s)| ensures IsSpace(s[i]) {
        assert i > 0 ==> s[i] == t[i - 1];
      }
    }
  }

  /** TrimRight is a prefix; what it drops is white space. */
  lemma {:induction false} TrimRightPrefix(s: string)
    ensures |TrimRight(s)| <= |s|
    ensures TrimRight(s) == s[..|TrimRight(s)|]
    ensures forall i | |TrimRight(s)| <= i < |s| :: IsSpace(s[i])
    ensures TrimRight(s) != "" ==> !IsSpace(TrimRight(s)[|TrimRight(s)| - 1])
  {
    if s != "" && IsSpace(s[|s| - 1]) {
      var t := s[..|s| - 1];
      TrimRightPrefix(t);
      forall i | |TrimRight(s)| <= i < |s| ensures IsSpace(s[i]) {
        assert i < |s| - 1 ==> s[i] == t[i];
      }
    }
  }

  /** Trimming leaves a core without outer white space and removes nothing else. */
  lemma TrimSplits(s: string) returns (p: string, q: string)
    ensures s == p + Trim(s) + q && AllSpace(p) && AllSpace(q)
    ensures Trimmed(Trim(s))
  {
    hide TrimLeft, TrimRight, IsSpace;
    var t := TrimLeft(s);
    TrimLeftSuffix(s);
    TrimRightPrefix(t);
    p, q := s[..|s| - |t|], t[|TrimRight(t)|..];
    assert t == TrimRight(t) + q && s == p + t;
    assert s == p + TrimRight(t) + q;
    if TrimRight(t) != "" {
      assert TrimRight(t)[0] == t[0];
    }
  }

  lemma TrimFixed(s: string)
    requires Trimmed(s)
    ensures Trim(s) == s
  {
  }

  lemma TrimIdempotent(s: string)
    ensures Trimmed(Trim(s)) && Trim(Trim(s)) == Trim(s)
  {
    var _, _ := TrimSplits(s);
    TrimFixed(Trim(s));
  }

  lemma {:induction false} TrimLeftOfPadded(p: string, s: string)
    requires AllSpace(p)
    ensures TrimLeft(p + s) == TrimLeft(s)
  {
    if p == "" {
      assert p + s == s;
    } else {
      assert (p + s)[1..] == p[1..] + s;
      TrimLeftOfPadded(p[1..], s);
    }
  }

  lemma {:induction false} TrimRightOfPadded(s: string, q: string)
    requires AllSpace(q)
    ensures TrimRight(s + q) == TrimRight(s)
  {
    if q == "" {
      assert s + q == s;
    } else {
      assert (s + q)[..|s + q| - 1] == s + q[..|q| - 1];
      TrimRightOfPadded(s, q[..|q| - 1]);
    }
  }

  /** Outer white space does not matter to Trim. */
  lemma TrimOfPadded(p: string, s: string, q: string)
    requires AllSpace(p) && AllSpace(q) && Trimmed(s)
    ensures Trim(p + s + q) == s
  {
    assert p + s + q == p + (s + q);
    TrimLeftOfPadded(p, s + q);
    if s == "" {
      assert s + q == q + "";
      TrimLeftOfPadded(q, "");
    } else {
      TrimRightOfPadded(s, q);
    }
  }

  /** More white space around a string is trimmed with the rest. */
  lemma PaddingIsTrimmed(p: string, s: string, q: string)
    requires AllSpace(p) && AllSpace(q)
    ensures Trim(p + s + q) == Trim(s)
  {
    hide Trim, IsSpace;
    var a, b := TrimSplits(s);
    assert p + s + q == (p + a) + Trim(s) + (b + q);
    TrimOfPadded(p + a, Trim(s), b + q);
    TrimFixed(Trim(s));
  }

  // ---------------------------------------------------------------- letters

  function LowerChar(c: char): (r: char)
    ensures !('A' <= r <= 'Z')
    ensures IsSpace(r) <==> IsSpace(c)
  {
    if 'A' <= c <= 'Z' then c - 'A' + 'a' else c
  }

  /** strings.ToLower on ASCII letters; other letters have no case here. */
  function ToLower(s: string): (r: string)
    ensures |r| == |s|
    ensures forall i | 0 <= i < |s| :: r[i] == LowerChar(s[i])
  {
    seq(|s|, i requires 0 <= i < |s| => LowerChar(s[i]))
  }

  /** Capitals become small letters, and nothing else changes. */
  lemma LowerLetters()
    ensures forall c | 'A' <= c <= 'Z' :: 'a' <= LowerChar(c) <= 'z' && LowerChar(c) as int - 'a' as int == c as int - 'A' as int
    ensures forall c | !('A' <= c <= 'Z') :: LowerChar(c) == c
  {
  }

  lemma LowerIdempotent(s: string)
    ensures ToLower(ToLower(s)) == ToLower(s)
  {
  }

  lemma LowerTrimmed(s: string)
    requires Trimmed(s)
    ensures Trimmed(ToLower(s))
  {
  }

  predicate IsQuote(c: char) {
    c == '"' || c == '\''
  }

  // ---------------------------------------------------------------- decimal digits

  const MAX_INT64: int := 0x7FFF_FFFF_FFFF_FFFF

  predicate IsDigit(c: char) {
    '0' <= c <= '9'
  }

  predicate AllDigits(s: string) {
    forall i | 0 <= i < |s| :: IsDigit(s[i])
  }

  function DigitValue(c: char): nat
    requires IsDigit(c)
  {
    (c - '0') as nat
  }

  /** The number a digit string denotes. */
  function NatOf(s: string): nat
    requires AllDigits(s)
  {
    if s == "" then 0 else 10 * NatOf(s[..|s| - 1]) + DigitValue(s[|s| - 1])
  }

  function Pow10(n: nat): (p: nat)
    ensures p > 0
  {
    if n == 0 then 1 else 10 * Pow10(n - 1)
  }

  lemma {:induction false} Pow10Add(m: nat, n: nat)
    ensures Pow10(m + n) == Pow10(m) * Pow10(n)
  {
    if m > 0 {
      Pow10Add(m - 1, n);
      assert Pow10(m + n) == 10 * (Pow10(m - 1) * Pow10(n)) == Pow10(m) * Pow10(n);
    }
  }

  lemma {:induction false} Pow10Monotone(m: nat, n: nat)
    requires m <= n
    ensures Pow10(m) <= Pow10(n)
  {
    if m < n {
      Pow10Monotone(m, n - 1);
    }
  }

  lemma ShiftDigit(a: nat, p: nat, b: nat, d: nat)
    ensures 10 * (a * p + b) + d == a * (10 * p) + (10 * b + d)
  {
  }

  /** Digits of a concatenation weigh by position. */
  lemma {:induction false} NatOfConcat(s: string, t: string)
    requires AllDigits(s) && AllDigits(t)
    ensures AllDigits(s + t)
    ensures NatOf(s + t) == NatOf(s) * Pow10(|t|) + NatOf(t)
  {
    if t == "" {
      assert s + t == s;
    } else {
      var u := t[..|t| - 1];
      NatOfConcat(s, u);
      assert (s + t)[..|s + t| - 1] == s + u;
      assert (s + t)[|s + t| - 1] == t[|t| - 1];
      ShiftDigit(NatOf(s), Pow10(|u|), NatOf(u), DigitValue(t[|t| - 1]));
    }
  }

  lemma {:induction false} NatOfBound(s: string)
    requires AllDigits(s)
    ensures NatOf(s) < Pow10(|s|)
  {
    if s != "" {
      NatOfBound(s[..|s| - 1]);
    }
  }

  lemma MulAtLeast(a: nat, p: nat)
    requires a >= 1
    ensures a * p >= p
  {
  }

  /** A first digit other than zero bounds the number from below. */
  lemma NatOfLeading(s: string)
    requires AllDigits(s) && s != "" && s[0] != '0'
    ensures NatOf(s) >= Pow10(|s| - 1)
  {
    var h, t := s[..1], s[1..];
    assert s == h + t;
    NatOfConcat(h, t);
    assert NatOf(h) == DigitValue(s[0]) >= 1 by {
      assert h[..0] == "";
    }
    MulAtLeast(NatOf(h), Pow10(|t|));
  }

  predicate AllZeros(s: string) {
    forall i | 0 <= i < |s| :: s[i] == '0'
  }

  lemma {:induction false} NatOfZeros(s: string)
    requires AllZeros(s)
    ensures AllDigits(s) && NatOf(s) == 0
  {
    if s != "" {
      NatOfZeros(s[..|s| - 1]);
    }
  }

  /** strings.TrimLeft and strings.TrimRight of "0". */
  function TrimZerosLeft(s: string): string {
    if s != "" && s[0] == '0' then TrimZerosLeft(s[1..]) else s
  }

  function TrimZerosRight(s: string): string {
    if s != "" && s[|s| - 1] == '0' then TrimZerosRight(s[..|s| - 1]) else s
  }

  lemma {:induction false} TrimZerosLeftSuffix(s: string)
    ensures |TrimZerosLeft(s)| <= |s|
    ensures TrimZerosLeft(s) == s[|s| - |TrimZerosLeft(s)|..]
    ensures AllZeros(s[..|s| - |TrimZerosLeft(s)|])
    ensures TrimZerosLeft(s) != "" ==> TrimZerosLeft(s)[0] != '0'
  {
    if s != "" && s[0] == '0' {
      var t := s[1..];
      TrimZerosLeftSuffix(t);
      var k := |t| - |TrimZerosLeft(t)|;
      forall i | 0 <= i < k + 1 ensures s[i] == '0' {
        assert i > 0 ==> s[i] == t[..k][i - 1];
      }
    }
  }

  lemma {:induction false} TrimZerosRightPrefix(s: string)
    ensures |TrimZerosRight(s)| <= |s|
    ensures TrimZerosRight(s) == s[..|TrimZerosRight(s)|]
    ensures AllZeros(s[|TrimZerosRight(s)|..])
    ensures TrimZerosRight(s) != "" ==> TrimZerosRight(s)[|TrimZerosRight(s)| - 1] != '0'
  {
    if s != "" && s[|s| - 1] == '0' {
      var t := s[..|s| - 1];
      TrimZerosRightPrefix(t);
      var k := |TrimZerosRight(t)|;
      forall i | k <= i < |s| ensures s[i] == '0' {
        assert i < |s| - 1 ==> s[i] == t[k..][i - k];
      }
    }
  }

  /** The position where the run of digits from i stops. */
  function DigitsEnd(s: string, i: nat): (j: nat)
    requires i <= |s|
    ensures i <= j <= |s|
    ensures AllDigits(s[i..j])
    ensures j < |s| ==> !IsDigit(s[j])
    decreases |s| - i
  {
    if i < |s| && IsDigit(s[i]) then
      var j := DigitsEnd(s, i + 1);
      assert s[i..j] == [s[i]] + s[i + 1..j];
      j
    else i
  }

  lemma {:induction false} DigitsEndUnique(s: string, i: nat, j: nat)
    requires i <= j <= |s| && AllDigits(s[i..j])
    requires j < |s| ==> !IsDigit(s[j])
    ensures DigitsEnd(s, i) == j
    decreases |s| - i
  {
    if i < j {
      assert s[i] == s[i..j][0];
      assert s[i + 1..j] == s[i..j][1..];
      DigitsEndUnique(s, i + 1, j);
    }
  }

  // ---------------------------------------------------------------- strconv.Itoa

  function DigitChar(d: nat): (c: char)
    requires d < 10
    ensures IsDigit(c) && DigitValue(c) == d
  {
    '0' + d as char
  }

  function Itoa(n: nat): string {
    if n < 10 then [DigitChar(n)] else Itoa(n / 10) + [DigitChar(n % 10)]
  }

  /** Reading a printed number gives the number back. */
  lemma {:induction false} ItoaReads(n: nat)
    ensures Itoa(n) != "" && AllDigits(Itoa(n)) && NatOf(Itoa(n)) == n
  {
    var s := Itoa(n);
    if n < 10 {
      assert s[..0] == "" && NatOf(s[..0]) == 0;
    } else {
      ItoaReads(n / 10);
      assert s[..|s| - 1] == Itoa(n / 10);
    }
  }

  // ---------------------------------------------------------------- byte order of strings

  /** strings.Compare(s, t) < 0. */
  predicate Less(s: string, t: string) {
    t != "" && (s == "" || s[0] < t[0] || (s[0] == t[0] && Less(s[1..], t[1..])))
  }

  lemma {:induction false} LessTotal(s: string, t: string)
    ensures s == t || Less(s, t) || Less(t, s)
  {
    if s != "" && t != "" && s[0] == t[0] {
      LessTotal(s[1..], t[1..]);
      assert s == [s[0]] + s[1..] && t == [t[0]] + t[1..];
    }
  }

  lemma {:induction false} LessIrreflexive(s: string)
    ensures !Less(s, s)
  {
    if s != "" {
      LessIrreflexive(s[1..]);
    }
  }

  lemma {:induction false} LessTransitive(s: string, t: string, u: string)
    requires Less(s, t) && Less(t, u)
    ensures Less(s, u)
  {
    if s != "" && s[0] == t[0] == u[0] {
      LessTransitive(s[1..], t[1..], u[1..]);
    }
  }

  /** The order is the one of the first character that differs, a shorter string first. */
  lemma LessIsAlphabetical(front: string, c: char, d: char, s: string, t: string)
    ensures c < d ==> Less(front + ([c] + s), front + ([d] + t))
    ensures Less(front, front + ([c] + s))
    decreases |front|
  {
    if front == "" {
      assert front + ([c] + s) == [c] + s && front + ([d] + t) == [d] + t;
    } else {
      LessIsAlphabetical(front[1..], c, d, s, t);
      assert (front + ([c] + s))[1..] == front[1..] + ([c] + s) && (front + ([d] + t))[1..] == front[1..] + ([d] + t);
    }
  }

  ghost predicate IsLeast(k: string, ks: set<string>) {
    k in ks && forall j | j in ks && j != k :: Less(k, j)
  }

  lemma LeastExists(ks: set<string>)
    requires ks != {}
    ensures exists k :: IsLeast(k, ks)
  {
    var k :| k in ks;
    if ks - {k} == {} {
      assert ks == {k};
      assert IsLeast(k, ks);
    } else {
      LeastExists(ks - {k});
      var m :| IsLeast(m, ks - {k});
      LessTotal(k, m);
      if Less(k, m) {
        forall j | j in ks && j != k ensures Less(k, j) {
          if j != m { LessTransitive(k, m, j); }
        }
        assert IsLeast(k, ks);
      } else {
        assert IsLeast(m, ks);
      }
    }
  }

  ghost function Least(ks: set<string>): (k: string)
    requires ks != {}
    ensures IsLeast(k, ks)
  {
    LeastExists(ks);
    var k :| IsLeast(k, ks);
    k
  }

  /** sort.Strings over the keys of a map. */
  ghost function Sorted(ks: set<string>): seq<string> {
    if ks == {} then [] else
      var k := Least(ks);
      [k] + Sorted(ks - {k})
  }

  ghost predicate Ascending(s: seq<string>) {
    forall i, j | 0 <= i < j < |s| :: Less(s[i], s[j])
  }

  /** Sorting keeps exactly the keys, once each, in ascending order. */
  lemma {:induction false} SortedIsAscending(ks: set<string>)
    ensures Ascending(Sorted(ks))
    ensures forall k :: k in Sorted(ks) <==> k in ks
    ensures |Sorted(ks)| == |ks|
  {
    if ks != {} {
      var k := Least(ks);
      SortedIsAscending(ks - {k});
    }
  }
}
