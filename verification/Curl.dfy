/** internal/curl: the quote state machine (token_state.go), the tokenizer that decodes
    (tokenizer.go) and the line scanner that does not (scan.go). */
module Curl {
  import opened Wrappers

  datatype Options = Options(decodeANSI: bool, lineContinuation: bool)

  const DECODING := Options(true, true)
  const SCANNING := Options(false, false)

  datatype Flags = Flags(inSingle: bool, inDouble: bool, inANSI: bool, escape: bool, skipLF: bool) {
    predicate Open() { inSingle || inDouble || inANSI }

    predicate InQuote() { inSingle || inDouble }
  }

  const CLOSED := Flags(false, false, false, false, false)

  datatype TokenError = BadHex | UnterminatedEscape | UnterminatedQuote

  /** One step of the machine: the new flags, the index of the last character it used, and what
      it made of it. */
  datatype Step =
    | Fail(error: TokenError)
    | Took(flags: Flags, last: nat, emit: Option<char>)   // handled
    | Left(flags: Flags)                                  // for the caller to handle

  // ---------------------------------------------------------------- escapes

  predicate IsLineBreak(c: char) { c == '\n' || c == '\r' }

  predicate IsWhitespace(c: char) { c == ' ' || c == '\t' || c == '\n' || c == '\r' }

  function HexVal(c: char): Option<nat> {
    if '0' <= c <= '9' then Some((c - '0') as nat)
    else if 'a' <= c <= 'f' then Some((c - 'a') as nat + 10)
    else if 'A' <= c <= 'F' then Some((c - 'A') as nat + 10)
    else None
  }

  predicate AllHex(s: string) {
    forall i | 0 <= i < |s| :: HexVal(s[i]).Some?
  }

  function HexOf(s: string): nat
    requires AllHex(s)
  {
    if s == "" then 0 else 16 * HexOf(s[..|s| - 1]) + HexVal(s[|s| - 1]).value
  }

  /** A rune as it is written out: what is no Unicode scalar becomes the replacement character. */
  function RuneOf(v: nat): char {
    if v < 0xD800 || 0xE000 <= v < 0x11_0000 then v as char else '\U{FFFD}'
  }

  /** The n hex digits behind index i, which must not be the last characters of all. */
  function HexAt(rs: string, i: nat, n: nat): Result<(char, nat), TokenError> {
    if i + n >= |rs| || !AllHex(rs[i + 1..i + 1 + n]) then Err(BadHex)
    else Ok((RuneOf(HexOf(rs[i + 1..i + 1 + n])), i + n))
  }

  method ReadHex(rs: string, i: nat, n: nat) returns (r: Result<(char, nat), TokenError>)
    ensures r == HexAt(rs, i, n)
  {
    if i + n >= |rs| { return Err(BadHex); }
    var val := 0;
    for j := 0 to n
      invariant AllHex(rs[i + 1..i + 1 + j]) && val == HexOf(rs[i + 1..i + 1 + j])
    {
      var d := HexVal(rs[i + 1 + j]);
      assert rs[i + 1..i + 1 + n][j] == rs[i + 1 + j];
      if d.None? { return Err(BadHex); }
      var now := rs[i + 1..i + 1 + j + 1];
      assert now[..j] == rs[i + 1..i + 1 + j] && now == rs[i + 1..i + 1 + j] + [rs[i + 1 + j]];
      val := val * 16 + d.value;
    }
    return Ok((RuneOf(val), i + n));
  }

  /** An escape inside $'...'; the result is the character and the last index it used. */
  function AnsiEscape(rs: string, i: nat): Result<(char, nat), TokenError>
    requires i < |rs|
  {
    match rs[i]
    case 'n' => Ok(('\n', i))
    case 'r' => Ok(('\r', i))
    case 't' => Ok(('\t', i))
    case 'x' => HexAt(rs, i, 2)
    case 'u' => HexAt(rs, i, 4)
    case c => Ok((c, i))
  }

  // ---------------------------------------------------------------- one step

  /** What the character behind a backslash does, the escape being over. */
  function AfterEscape(f: Flags, rs: string, i: nat, opts: Options): (r: Step)
    requires i < |rs|
    ensures !r.Left?
  {
    if f.inANSI then
      if opts.decodeANSI then
        match AnsiEscape(rs, i)
        case Err(e) => Fail(e)
        case Ok((c, last)) => Took(f, last, Some(c))
      else Took(f, i, Some(rs[i]))
    else if opts.lineContinuation && IsLineBreak(rs[i]) then Took(f.(skipLF := f.skipLF || rs[i] == '\r'), i, None)
    else Took(f, i, Some(rs[i]))
  }

  /** TokenState.advance behind the check for a line feed to skip. */
  function AdvancePlain(f: Flags, rs: string, i: nat, opts: Options): Step
    requires i < |rs|
  {
    var r := rs[i];
    if f.escape then AfterEscape(f.(escape := false), rs, i, opts)
    else if f.inANSI then
      if r == '\\' then Took(f.(escape := true), i, None)
      else if r == '\'' then Took(f.(inANSI := false), i, None)
      else Took(f, i, Some(r))
    else if r == '\\' then
      if f.inSingle then Took(f, i, Some(r)) else Took(f.(escape := true), i, None)
    else if r == '\'' then
      if f.inDouble then Took(f, i, Some(r)) else Took(f.(inSingle := !f.inSingle), i, None)
    else if r == '"' then
      if f.inSingle then Took(f, i, Some(r)) else Took(f.(inDouble := !f.inDouble), i, None)
    else if !f.inSingle && !f.inDouble && r == '$' && i + 1 < |rs| && rs[i + 1] == '\'' then
      Took(f.(inANSI := true), i + 1, None)
    else Left(f)
  }

  function AdvanceOf(f: Flags, rs: string, i: nat, opts: Options): Step
    requires i < |rs|
  {
    if f.skipLF && rs[i] == '\n' then Took(f.(skipLF := false), i, None)
    else AdvancePlain(f.(skipLF := false), rs, i, opts)
  }

  /** The machine as an object whose flags advance flips. */
  class TokenState {
    var inSingle: bool
    var inDouble: bool
    var inANSI: bool
    var escape: bool
    var skipLF: bool

    constructor ()
      ensures State() == CLOSED
    {
      inSingle, inDouble, inANSI, escape, skipLF := false, false, false, false, false;
    }

    function State(): Flags
      reads this
    {
      Flags(inSingle, inDouble, inANSI, escape, skipLF)
    }

    method TakeEscaped(rs: string, i: nat, opts: Options) returns (last: nat, emit: Option<char>, ok: bool)
      requires i < |rs|
      modifies this`skipLF
      ensures match AfterEscape(old(State()), rs, i, opts)
              case Fail(_) => !ok
              case Took(g, l, e) => ok && State() == g && last == l && emit == e
              case Left(_) => false
    {
      var r := rs[i];
      last, emit, ok := i, None, true;
      if inANSI {
        if opts.decodeANSI {
          var val := AnsiEscape(rs, i);
          if val.Err? {
            ok := false;
            return;
          }
          emit, last := Some(val.value.0), val.value.1;
          return;
        }
        emit := Some(r);
        return;
      }
      if opts.lineContinuation && IsLineBreak(r) {
        if r == '\r' {
          skipLF := true;
        }
        return;
      }
      emit := Some(r);
    }

    /** ok is false when a hex escape is malformed; the flags it leaves then are not used. */
    method Advance(rs: string, i: nat, opts: Options) returns (last: nat, emit: Option<char>, handled: bool, ok: bool)
      requires i < |rs|
      modifies this
      ensures match AdvanceOf(old(State()), rs, i, opts)
              case Fail(_) => !ok
              case Took(g, l, e) => ok && handled && State() == g && last == l && emit == e
              case Left(g) => ok && !handled && State() == g && last == i
    {
      hide AfterEscape;
      var r := rs[i];
      last, emit, handled, ok := i, None, true, true;
      if skipLF {
        skipLF := false;
        if r == '\n' { return; }
      }
      if escape {
        escape := false;
        last, emit, ok := TakeEscaped(rs, i, opts);
        return;
      }
      if inANSI {
        if r == '\\' {
          escape := true;
        } else if r == '\'' {
          inANSI := false;
        } else {
          emit := Some(r);
        }
        return;
      }
      if r == '\\' {
        if inSingle {
          emit := Some(r);
        } else {
          escape := true;
        }
        return;
      }
      if r == '\'' {
        if inDouble {
          emit := Some(r);
        } else {
          inSingle := !inSingle;
        }
        return;
      }
      if r == '"' {
        if inSingle {
          emit := Some(r);
        } else {
          inDouble := !inDouble;
        }
        return;
      }
      if !inSingle && !inDouble && r == '$' && i + 1 < |rs| && rs[i + 1] == '\'' {
        inANSI := true;
        last := i + 1;
        return;
      }
      handled := false;
    }
  }

  // ---------------------------------------------------------------- the tokenizer

  function Flush(buf: string, out: seq<string>): seq<string> {
    if buf == "" then out else out + [buf]
  }

  /** splitTokens from index i on. */
  function TokensFrom(f: Flags, buf: string, out: seq<string>, rs: string, i: nat): Result<seq<string>, TokenError>
    decreases |rs| - i
  {
    if i >= |rs| then
      if f.escape then Err(UnterminatedEscape)
      else if f.Open() then Err(UnterminatedQuote)
      else Ok(Flush(buf, out))
    else
      match AdvanceOf(f, rs, i, DECODING)
      case Fail(e) => Err(e)
      case Took(g, last, emit) =>
        if last < i then Err(BadHex)
        else TokensFrom(g, if emit.Some? then buf + [emit.value] else buf, out, rs, last + 1)
      case Left(g) =>
        if IsWhitespace(rs[i]) && !g.InQuote() then TokensFrom(g, "", Flush(buf, out), rs, i + 1)
        else TokensFrom(g, buf + [rs[i]], out, rs, i + 1)
  }

  lemma AdvanceMoves(f: Flags, rs: string, i: nat, opts: Options)
    requires i < |rs|
    ensures AdvanceOf(f, rs, i, opts).Took? ==> i <= AdvanceOf(f, rs, i, opts).last < |rs|
    ensures AdvanceOf(f, rs, i, opts).Fail? ==> AdvanceOf(f, rs, i, opts) == Fail(BadHex)
  {
  }

  method SplitTokens(input: string) returns (r: Result<seq<string>, TokenError>)
    ensures r == TokensFrom(CLOSED, "", [], input, 0)
  {
    hide AdvanceOf, IsWhitespace;
    var token := new TokenState();
    var buf: string, out: seq<string> := "", [];
    var i := 0;
    while i < |input|
      invariant 0 <= i <= |input|
      invariant fresh(token)
      invariant TokensFrom(token.State(), buf, out, input, i) == TokensFrom(CLOSED, "", [], input, 0)
      decreases |input| - i
    {
      AdvanceMoves(token.State(), input, i, DECODING);
      ghost var before := token.State();
      var last, emit, handled, ok := token.Advance(input, i, DECODING);
      if !ok {
        return Err(BadHex);
      }
      if handled {
        if emit.Some? {
          buf := buf + [emit.value];
        }
      } else if IsWhitespace(input[i]) && !(token.inSingle || token.inDouble) {
        if buf != "" {
          out := out + [buf];
          buf := "";
        }
      } else {
        buf := buf + [input[i]];
      }
      i := last + 1;
    }
    if token.escape { return Err(UnterminatedEscape); }
    if token.inSingle || token.inDouble || token.inANSI { return Err(UnterminatedQuote); }
    if buf != "" {
      out := out + [buf];
    }
    return Ok(out);
  }

  // ---------------------------------------------------------------- the line scanner

  /** The flags after scanning rs from index i on, and after decoding it. */
  function ScanFrom(f: Flags, rs: string, i: nat): Flags
    decreases |rs| - i
  {
    if i >= |rs| then f else
      match AdvanceOf(f, rs, i, SCANNING)
      case Took(g, last, _) => if last < i then g else ScanFrom(g, rs, last + 1)
      case Left(g) => ScanFrom(g, rs, i + 1)
      case Fail(_) => f
  }

  function DecodeFrom(f: Flags, rs: string, i: nat): Option<Flags>
    decreases |rs| - i
  {
    if i >= |rs| then Some(f) else
      match AdvanceOf(f, rs, i, DECODING)
      case Took(g, last, _) => if last < i then None else DecodeFrom(g, rs, last + 1)
      case Left(g) => DecodeFrom(g, rs, i + 1)
      case Fail(_) => None
  }

  /** scanState.consume */
  method Consume(token: TokenState, v: string)
    modifies token
    ensures token.State() == ScanFrom(old(token.State()), v, 0)
  {
    ghost var goal := ScanFrom(token.State(), v, 0);
    var i := 0;
    while i < |v|
      invariant 0 <= i <= |v| && ScanFrom(token.State(), v, i) == goal
      decreases |v| - i
    {
      AdvanceMoves(token.State(), v, i, SCANNING);
      var last, _, _, _ := token.Advance(v, i, SCANNING);
      i := last + 1;
    }
  }

  // ---------------------------------------------------------------- the two modes agree

  /** The flags that say whether something is open. */
  predicate SameQuotes(f: Flags, g: Flags) {
    f.inSingle == g.inSingle && f.inDouble == g.inDouble && f.inANSI == g.inANSI && f.escape == g.escape
  }

  /** At most one kind of quote is open, and a line feed is skipped only outside escapes. */
  predicate Proper(f: Flags) {
    && !(f.inSingle && f.inDouble) && !(f.inANSI && (f.inSingle || f.inDouble))
    && (f.skipLF ==> !f.escape && !f.inANSI)
  }

  lemma AdvanceProper(f: Flags, rs: string, i: nat, opts: Options)
    requires i < |rs| && Proper(f)
    ensures match AdvanceOf(f, rs, i, opts) case Took(g, _, _) => Proper(g) case Left(g) => Proper(g) case Fail(_) => opts.decodeANSI
  {
  }

  /** Hex digits inside $'...' mean nothing to the scanner. */
  lemma {:induction false} ScanSkipsHex(f: Flags, rs: string, i: nat, n: nat)
    requires f.inANSI && !f.escape && !f.skipLF && i + n <= |rs| && AllHex(rs[i..i + n])
    ensures ScanFrom(f, rs, i) == ScanFrom(f, rs, i + n)
    decreases n
  {
    if n > 0 {
      assert rs[i..i + n][0] == rs[i] && rs[i + 1..i + n] == rs[i..i + n][1..];
      ScanSkipsHex(f, rs, i + 1, n - 1);
    }
  }

  lemma DecodeStep(f: Flags, rs: string, i: nat)
    requires i < |rs| && DecodeFrom(f, rs, i).Some?
    ensures !AdvanceOf(f, rs, i, DECODING).Fail?
    ensures var (g, k) := Next(AdvanceOf(f, rs, i, DECODING), i); i < k <= |rs| && DecodeFrom(f, rs, i) == DecodeFrom(g, rs, k)
  {
    hide AdvanceOf;
    AdvanceMoves(f, rs, i, DECODING);
  }

  lemma ScannerStep(f: Flags, rs: string, i: nat)
    requires i < |rs|
    ensures !AdvanceOf(f, rs, i, SCANNING).Fail?
    ensures var (g, k) := Next(AdvanceOf(f, rs, i, SCANNING), i); i < k <= |rs| && ScanFrom(f, rs, i) == ScanFrom(g, rs, k)
  {
    hide AdvanceOf;
    AdvanceMoves(f, rs, i, SCANNING);
    ScanNeverFails(f, rs, i);
  }

  lemma ScanNeverFails(f: Flags, rs: string, i: nat)
    requires i < |rs|
    ensures !AdvanceOf(f, rs, i, SCANNING).Fail?
  {
  }

  /** One decoding step, and the scanner's one step or more over the same characters. */
  lemma BothStep(f: Flags, g: Flags, rs: string, i: nat) returns (f': Flags, g': Flags, k: nat)
    requires i < |rs| && Proper(f) && SameQuotes(f, g) && !g.skipLF && DecodeFrom(f, rs, i).Some?
    ensures i < k <= |rs| && Proper(f') && SameQuotes(f', g') && !g'.skipLF
    ensures DecodeFrom(f, rs, i) == DecodeFrom(f', rs, k) && ScanFrom(g, rs, i) == ScanFrom(g', rs, k)
  {
    hide DecodeFrom, ScanFrom;
    DecodeStep(f, rs, i);
    ScannerStep(g, rs, i);
    AdvanceProper(f, rs, i, DECODING);
    var next, s := Next(AdvanceOf(f, rs, i, DECODING), i), Next(AdvanceOf(g, rs, i, SCANNING), i);
    f', g', k := next.0, s.0, next.1;
    if f.escape && f.inANSI && rs[i] in {'x', 'u'} {
      ScanSkipsHex(g', rs, i + 1, k - (i + 1));
    }
  }

  /** Where decoding goes on, the scanner arrives with the same quotes. */
  lemma {:induction false} ModesAgreeFrom(f: Flags, g: Flags, rs: string, i: nat)
    requires Proper(f) && SameQuotes(f, g) && !g.skipLF
    requires DecodeFrom(f, rs, i).Some?
    ensures SameQuotes(DecodeFrom(f, rs, i).value, ScanFrom(g, rs, i)) && !ScanFrom(g, rs, i).skipLF
    ensures Proper(DecodeFrom(f, rs, i).value)
    decreases |rs| - i
  {
    if i < |rs| {
      var f', g', k := BothStep(f, g, rs, i);
      ModesAgreeFrom(f', g', rs, k);
    }
  }

  /** The flags and the index a step goes on with. */
  function Next(s: Step, i: nat): (Flags, nat)
    requires !s.Fail?
  {
    match s case Took(g, last, _) => (g, last + 1) case Left(g) => (g, i + 1)
  }

  /** The tokenizer's result determines its flags: they are closed if it accepts. */
  lemma {:induction false} AcceptedIsClosed(f: Flags, buf: string, out: seq<string>, rs: string, i: nat)
    requires TokensFrom(f, buf, out, rs, i).Ok?
    ensures DecodeFrom(f, rs, i).Some?
    ensures var g := DecodeFrom(f, rs, i).value; !g.escape && !g.Open()
    decreases |rs| - i
  {
    if i < |rs| {
      match AdvanceOf(f, rs, i, DECODING)
      case Took(g, last, emit) => AcceptedIsClosed(g, if emit.Some? then buf + [emit.value] else buf, out, rs, last + 1);
      case Left(g) =>
        if IsWhitespace(rs[i]) && !g.InQuote() {
          AcceptedIsClosed(g, "", Flush(buf, out), rs, i + 1);
        } else {
          AcceptedIsClosed(g, buf + [rs[i]], out, rs, i + 1);
        }
    }
  }

  /** Whatever the tokenizer gets through without a malformed escape, the scanner leaves with the
      same quotes and the same pending escape; what the tokenizer accepts, the scanner finds closed. */
  lemma ModesAgree(rs: string)
    ensures DecodeFrom(CLOSED, rs, 0).Some? ==>
              SameQuotes(DecodeFrom(CLOSED, rs, 0).value, ScanFrom(CLOSED, rs, 0))
    ensures TokensFrom(CLOSED, "", [], rs, 0).Ok? ==> ScanFrom(CLOSED, rs, 0) == CLOSED
  {
    if DecodeFrom(CLOSED, rs, 0).Some? {
      ModesAgreeFrom(CLOSED, CLOSED, rs, 0);
    }
    if TokensFrom(CLOSED, "", [], rs, 0).Ok? {
      AcceptedIsClosed(CLOSED, "", [], rs, 0);
    }
  }

  // ---------------------------------------------------------------- line continuation

  /** How many backslashes rs ends with. */
  function Backslashes(rs: string): (n: nat)
    ensures n <= |rs|
  {
    if rs != "" && rs[|rs| - 1] == '\\' then 1 + Backslashes(rs[..|rs| - 1]) else 0
  }

  method LineContinues(v: string) returns (r: bool)
    ensures r <==> Backslashes(v) % 2 == 1
  {
    var count := 0;
    var i := |v| - 1;
    assert v[..i + 1] == v;
    while i >= 0 && v[i] == '\\'
      invariant -1 <= i < |v|
      invariant count + Backslashes(v[..i + 1]) == Backslashes(v)
    {
      assert v[..i + 1][..i] == v[..i];
      count := count + 1;
      i := i - 1;
    }
    return count % 2 == 1;
  }

  lemma {:induction false} BackslashesOfTail(rs: string, i: nat)
    requires i <= |rs|
    ensures Backslashes(rs[i..]) == if Backslashes(rs) < |rs| - i then Backslashes(rs) else |rs| - i
    decreases |rs|
  {
    if i < |rs| && rs[|rs| - 1] == '\\' {
      BackslashesOfTail(rs[..|rs| - 1], i);
      assert rs[i..][..|rs[i..]| - 1] == rs[..|rs| - 1][i..];
    }
  }

  /** One step of the scanner, as far as backslashes are concerned. */
  lemma ScanStep(f: Flags, rs: string, i: nat) returns (g: Flags, k: nat)
    requires i < |rs| && Proper(f) && !f.skipLF && (f.escape ==> !f.inSingle)
    ensures ScanFrom(f, rs, i) == ScanFrom(g, rs, k) && i < k <= |rs| && k <= i + 2
    ensures Proper(g) && !g.skipLF && (g.escape ==> !g.inSingle)
    ensures g.escape <==> rs[i] == '\\' && !f.escape && !f.inSingle
    ensures rs[i] == '\\' ==> k == i + 1 && g.inSingle == f.inSingle
    ensures k == i + 2 ==> rs[i + 1] != '\\'
  {
    AdvanceProper(f, rs, i, SCANNING);
    AdvanceMoves(f, rs, i, SCANNING);
    var next := Next(AdvanceOf(f, rs, i, SCANNING), i);
    g, k := next.0, next.1;
  }

  /** What the scanner knows at the end about a run of backslashes it is in the middle of. */
  lemma {:induction false} EscapeAtEnd(f: Flags, rs: string, i: nat)
    requires i <= |rs| && Proper(f) && !f.skipLF && (f.escape ==> !f.inSingle)
    ensures var e := ScanFrom(f, rs, i); var n := Backslashes(rs[i..]);
            && (e.escape <==> !e.inSingle && (n + if f.escape && n == |rs| - i then 1 else 0) % 2 == 1)
            && (n == |rs| - i ==> e.inSingle == f.inSingle)
    decreases |rs| - i
  {
    if i < |rs| {
      var g, k := ScanStep(f, rs, i);
      BackslashesOfTail(rs, i);
      BackslashesOfTail(rs, k);
      BackslashBefore(rs, i);
      BackslashBefore(rs, k - 1);
      EscapeAtEnd(g, rs, k);
    } else {
      assert rs[i..] == "";
    }
  }

  lemma {:induction false} BackslashBefore(rs: string, i: nat)
    requires i < |rs|
    ensures Backslashes(rs) >= |rs| - i ==> forall k | i <= k < |rs| :: rs[k] == '\\'
    ensures Backslashes(rs) == |rs| - i - 1 ==> rs[i] != '\\'
    decreases |rs|
  {
    if rs[|rs| - 1] == '\\' {
      var front := rs[..|rs| - 1];
      if i < |front| {
        BackslashBefore(front, i);
        assert forall k | i <= k < |front| :: front[k] == rs[k];
      }
    }
  }

  /** A line that is scanned from a clean start ends in an escape exactly when lineContinues says
      so and no single quote is open. */
  lemma ContinuationIsEscape(v: string)
    ensures ScanFrom(CLOSED, v, 0).escape <==> Backslashes(v) % 2 == 1 && !ScanFrom(CLOSED, v, 0).inSingle
  {
    assert v[0..] == v;
    EscapeAtEnd(CLOSED, v, 0);
  }

  // ---------------------------------------------------------------- shell quoting

  /** A character inside $'...': itself, an escape by a letter, or an escape by two or four hex digits, each
      given by its value. */
  datatype AnsiChar = Itself(c: char) | Letter(c: char) | Two(d0: nat, d1: nat) | Four(d0: nat, d1: nat, d2: nat, d3: nat) {
    predicate Ok() {
      match this
      case Itself(c) => c != '\\' && c != '\''
      case Letter(c) => c != 'x' && c != 'u'
      case Two(a, b) => a < 16 && b < 16
      case Four(a, b, c, d) => a < 16 && b < 16 && c < 16 && d < 16
    }

    function Text(): string {
      match this
      case Itself(c) => [c]
      case Letter(c) => ['\\', c]
      case Two(a, b) => ['\\', 'x', HexDigit(a), HexDigit(b)]
      case Four(a, b, c, d) => ['\\', 'u', HexDigit(a), HexDigit(b), HexDigit(c), HexDigit(d)]
    }

    function Value(): char {
      match this
      case Itself(c) => c
      case Letter(c) => if c == 'n' then '\n' else if c == 'r' then '\r' else if c == 't' then '\t' else c
      case Two(a, b) => CharOf(16 * a + b)
      case Four(a, b, c, d) => CharOf(4096 * a + 256 * b + 16 * c + d)
    }
  }

  /** The character of a code point; surrogates have none. */
  function CharOf(v: nat): char {
    if v < 0x11_0000 && !(0xD800 <= v <= 0xDFFF) then v as char else '\U{FFFD}'
  }

  function HexDigit(d: nat): char {
    if d < 16 then "0123456789abcdef"[d] else '?'
  }

  /** A character inside "...": itself, or behind a backslash. */
  datatype DoubleChar = Bare(c: char) | Behind(c: char) {
    predicate Ok() {
      match this case Bare(c) => c != '"' && c != '\\' case Behind(c) => !IsLineBreak(c)
    }

    function Text(): string {
      match this case Bare(c) => [c] case Behind(c) => ['\\', c]
    }
  }

  predicate AnsiOk(chars: seq<AnsiChar>) {
    forall i | 0 <= i < |chars| :: chars[i].Ok()
  }

  function AnsiText(chars: seq<AnsiChar>): string {
    if chars == [] then "" else chars[0].Text() + AnsiText(chars[1..])
  }

  function AnsiValue(chars: seq<AnsiChar>): string {
    if chars == [] then "" else [chars[0].Value()] + AnsiValue(chars[1..])
  }

  predicate DoubleOk(chars: seq<DoubleChar>) {
    forall i | 0 <= i < |chars| :: chars[i].Ok()
  }

  function DoubleText(chars: seq<DoubleChar>): string {
    if chars == [] then "" else chars[0].Text() + DoubleText(chars[1..])
  }

  function DoubleValue(chars: seq<DoubleChar>): string {
    if chars == [] then "" else [chars[0].c] + DoubleValue(chars[1..])
  }

  /** A piece of a shell word: quoted with single quotes, escaped by a backslash (sections 2.2.2 and 2.2.1 of
      the POSIX Shell Command Language), or plain; quoted with double quotes or with $'...', as this
      tokenizer reads them; or a backslash and a line end, which stand for nothing. */
  datatype Piece =
    | Single(text: string)
    | Escaped(c: char)
    | Plain(c: char)
    | Double(chars: seq<DoubleChar>)
    | Ansi(codes: seq<AnsiChar>)
    | Joined(crlf: bool)
  {
    predicate Ok() {
      match this
      case Single(text) => '\'' !in text
      case Escaped(c) => !IsLineBreak(c)
      case Plain(c) => !IsWhitespace(c) && c !in {'\'', '"', '\\', '$'}
      case Double(chars) => DoubleOk(chars)
      case Ansi(codes) => AnsiOk(codes)
      case Joined(_) => true
    }

    function Text(): string {
      match this
      case Single(text) => "'" + text + "'"
      case Escaped(c) => ['\\', c]
      case Plain(c) => [c]
      case Double(chars) => "\"" + (DoubleText(chars) + "\"")
      case Ansi(codes) => "$'" + (AnsiText(codes) + "'")
      case Joined(crlf) => if crlf then "\\\r\n" else "\\\n"
    }

    function Value(): string {
      match this
      case Single(text) => text
      case Escaped(c) => [c]
      case Plain(c) => [c]
      case Double(chars) => DoubleValue(chars)
      case Ansi(codes) => AnsiValue(codes)
      case Joined(_) => ""
    }
  }

  function WordText(word: seq<Piece>): string {
    if word == [] then "" else word[0].Text() + WordText(word[1..])
  }

  function WordValue(word: seq<Piece>): string {
    if word == [] then "" else word[0].Value() + WordValue(word[1..])
  }

  predicate WordOk(word: seq<Piece>) {
    forall i | 0 <= i < |word| :: word[i].Ok()
  }

  lemma {:induction false} ReadSingle(text: string, buf: string, out: seq<string>, rs: string, i: nat)
    requires '\'' !in text && i + |text| < |rs| && rs[i..i + |text|] == text && rs[i + |text|] == '\''
    ensures TokensFrom(CLOSED.(inSingle := true), buf, out, rs, i) == TokensFrom(CLOSED, buf + text, out, rs, i + |text| + 1)
    decreases |text|
  {
    hide AnsiEscape, AfterEscape;
    if text == "" {
      assert buf + text == buf;
    } else {
      assert rs[i] == rs[i..i + |text|][0] == text[0];
      assert rs[i + 1..i + |text|] == rs[i..i + |text|][1..];
      ReadSingle(text[1..], buf + [text[0]], out, rs, i + 1);
      assert buf + [text[0]] + text[1..] == buf + text;
    }
  }

  lemma ReadPiece(p: Piece, buf: string, out: seq<string>, rs: string, i: nat)
    requires p.Ok() && i + |p.Text()| <= |rs| && rs[i..i + |p.Text()|] == p.Text()
    ensures TokensFrom(CLOSED, buf, out, rs, i) == TokensFrom(CLOSED, buf + p.Value(), out, rs, i + |p.Text()|)
  {
    hide TokensFrom, DoubleText, DoubleValue, AnsiText, AnsiValue, DoubleOk, AnsiOk;
    match p
    case Single(text) => ReadQuoted(text, buf, out, rs, i);
    case Escaped(c) =>
      assert rs[i] == rs[i..i + 2][0] == '\\' && rs[i + 1] == rs[i..i + 2][1] == c;
      ReadEscaped(buf, out, rs, i);
    case Plain(c) =>
      assert rs[i] == rs[i..i + 1][0] == c;
      ReadPlain(buf, out, rs, i);
    case Double(chars) => ReadDouble(chars, buf, out, rs, i);
    case Ansi(codes) => ReadAnsi(codes, buf, out, rs, i);
    case Joined(crlf) => ReadJoined(crlf, buf, out, rs, i);
  }

  lemma ReadPlain(buf: string, out: seq<string>, rs: string, i: nat)
    requires i < |rs| && !IsWhitespace(rs[i]) && rs[i] !in {'\'', '"', '\\', '$'}
    ensures TokensFrom(CLOSED, buf, out, rs, i) == TokensFrom(CLOSED, buf + [rs[i]], out, rs, i + 1)
  {
  }

  lemma ReadJoined(crlf: bool, buf: string, out: seq<string>, rs: string, i: nat)
    requires var text := if crlf then "\\\r\n" else "\\\n"; i + |text| <= |rs| && rs[i..i + |text|] == text
    ensures TokensFrom(CLOSED, buf, out, rs, i) == TokensFrom(CLOSED, buf + "", out, rs, i + if crlf then 3 else 2)
  {
    var text := if crlf then "\\\r\n" else "\\\n";
    assert rs[i] == rs[i..i + |text|][0] && rs[i + 1] == rs[i..i + |text|][1] && (crlf ==> rs[i + 2] == rs[i..i + |text|][2]);
    assert buf + "" == buf;
    var f := CLOSED.(escape := true);
    assert TokensFrom(CLOSED, buf, out, rs, i) == TokensFrom(f, buf, out, rs, i + 1);
    if crlf {
      var g := CLOSED.(skipLF := true);
      assert TokensFrom(f, buf, out, rs, i + 1) == TokensFrom(g, buf, out, rs, i + 2);
      assert TokensFrom(g, buf, out, rs, i + 2) == TokensFrom(CLOSED, buf, out, rs, i + 3);
    }
  }

  const IN_DOUBLE := CLOSED.(inDouble := true)

  const IN_ANSI := CLOSED.(inANSI := true)

  lemma ReadDouble(chars: seq<DoubleChar>, buf: string, out: seq<string>, rs: string, i: nat)
    requires DoubleOk(chars) && i + |DoubleText(chars)| + 2 <= |rs|
    requires rs[i..i + |DoubleText(chars)| + 2] == "\"" + (DoubleText(chars) + "\"")
    ensures TokensFrom(CLOSED, buf, out, rs, i) == TokensFrom(CLOSED, buf + DoubleValue(chars), out, rs, i + |DoubleText(chars)| + 2)
  {
    hide TokensFrom;
    var text := DoubleText(chars);
    Apart(rs, i, "\"", text + "\"");
    Apart(rs, i + 1, text, "\"");
    assert rs[i] == rs[i..i + 1][0] && rs[i + 1 + |text|] == rs[i + 1 + |text|..i + 1 + |text| + 1][0];
    DoubleOpens(buf, out, rs, i);
    ReadDoubleChars(chars, buf, out, rs, i + 1);
    DoubleCloses(buf + DoubleValue(chars), out, rs, i + 1 + |text|);
  }

  lemma DoubleOpens(buf: string, out: seq<string>, rs: string, i: nat)
    requires i < |rs| && rs[i] == '"'
    ensures TokensFrom(CLOSED, buf, out, rs, i) == TokensFrom(IN_DOUBLE, buf, out, rs, i + 1)
  {
  }

  lemma DoubleCloses(buf: string, out: seq<string>, rs: string, i: nat)
    requires i < |rs| && rs[i] == '"'
    ensures TokensFrom(IN_DOUBLE, buf, out, rs, i) == TokensFrom(CLOSED, buf, out, rs, i + 1)
  {
  }

  lemma {:induction false} ReadDoubleChars(chars: seq<DoubleChar>, buf: string, out: seq<string>, rs: string, i: nat)
    requires DoubleOk(chars) && i + |DoubleText(chars)| < |rs| && rs[i..i + |DoubleText(chars)|] == DoubleText(chars)
    ensures TokensFrom(IN_DOUBLE, buf, out, rs, i) == TokensFrom(IN_DOUBLE, buf + DoubleValue(chars), out, rs, i + |DoubleText(chars)|)
    decreases |chars|
  {
    hide TokensFrom, DoubleChar.Text;
    if chars == [] {
      assert buf + "" == buf;
    } else {
      var p, rest := chars[0].Text(), DoubleText(chars[1..]);
      Apart(rs, i, p, rest);
      ReadDoubleChar(chars[0], buf, out, rs, i);
      ReadDoubleChars(chars[1..], buf + [chars[0].c], out, rs, i + |p|);
      assert buf + [chars[0].c] + DoubleValue(chars[1..]) == buf + DoubleValue(chars);
    }
  }

  lemma ReadDoubleChar(p: DoubleChar, buf: string, out: seq<string>, rs: string, i: nat)
    requires p.Ok() && i + |p.Text()| < |rs| && rs[i..i + |p.Text()|] == p.Text()
    ensures TokensFrom(IN_DOUBLE, buf, out, rs, i) == TokensFrom(IN_DOUBLE, buf + [p.c], out, rs, i + |p.Text()|)
  {
    assert rs[i] == rs[i..i + |p.Text()|][0];
    if p.Behind? {
      assert rs[i + 1] == rs[i..i + 2][1];
      assert TokensFrom(IN_DOUBLE, buf, out, rs, i) == TokensFrom(IN_DOUBLE.(escape := true), buf, out, rs, i + 1);
    }
  }

  lemma ReadAnsi(codes: seq<AnsiChar>, buf: string, out: seq<string>, rs: string, i: nat)
    requires AnsiOk(codes) && i + |AnsiText(codes)| + 3 <= |rs|
    requires rs[i..i + |AnsiText(codes)| + 3] == "$'" + (AnsiText(codes) + "'")
    ensures TokensFrom(CLOSED, buf, out, rs, i) == TokensFrom(CLOSED, buf + AnsiValue(codes), out, rs, i + |AnsiText(codes)| + 3)
  {
    hide TokensFrom, AnsiOk;
    var text := AnsiText(codes);
    Apart(rs, i, "$'", text + "'");
    Apart(rs, i + 2, text, "'");
    assert rs[i] == rs[i..i + 2][0] && rs[i + 1] == rs[i..i + 2][1];
    assert rs[i + 2 + |text|] == rs[i + 2 + |text|..i + 2 + |text| + 1][0];
    AnsiOpens(buf, out, rs, i);
    ReadAnsiChars(codes, buf, out, rs, i + 2);
    AnsiCloses(buf + AnsiValue(codes), out, rs, i + 2 + |text|);
  }

  lemma AnsiOpens(buf: string, out: seq<string>, rs: string, i: nat)
    requires i + 1 < |rs| && rs[i] == '$' && rs[i + 1] == '\''
    ensures TokensFrom(CLOSED, buf, out, rs, i) == TokensFrom(IN_ANSI, buf, out, rs, i + 2)
  {
  }

  lemma AnsiCloses(buf: string, out: seq<string>, rs: string, i: nat)
    requires i < |rs| && rs[i] == '\''
    ensures TokensFrom(IN_ANSI, buf, out, rs, i) == TokensFrom(CLOSED, buf, out, rs, i + 1)
  {
  }

  lemma {:induction false} ReadAnsiChars(codes: seq<AnsiChar>, buf: string, out: seq<string>, rs: string, i: nat)
    requires AnsiOk(codes) && i + |AnsiText(codes)| < |rs| && rs[i..i + |AnsiText(codes)|] == AnsiText(codes)
    ensures TokensFrom(IN_ANSI, buf, out, rs, i) == TokensFrom(IN_ANSI, buf + AnsiValue(codes), out, rs, i + |AnsiText(codes)|)
    decreases |codes|
  {
    hide TokensFrom, AnsiChar.Text, AnsiChar.Value, AnsiChar.Ok;
    if codes == [] {
      assert buf + "" == buf;
    } else {
      var p, rest := codes[0].Text(), AnsiText(codes[1..]);
      Apart(rs, i, p, rest);
      ReadAnsiChar(codes[0], buf, out, rs, i);
      ReadAnsiChars(codes[1..], buf + [codes[0].Value()], out, rs, i + |p|);
      assert buf + [codes[0].Value()] + AnsiValue(codes[1..]) == buf + AnsiValue(codes);
    }
  }

  lemma ReadAnsiChar(p: AnsiChar, buf: string, out: seq<string>, rs: string, i: nat)
    requires p.Ok() && i + |p.Text()| < |rs| && rs[i..i + |p.Text()|] == p.Text()
    ensures TokensFrom(IN_ANSI, buf, out, rs, i) == TokensFrom(IN_ANSI, buf + [p.Value()], out, rs, i + |p.Text()|)
  {
    hide HexOf, AllHex;
    var here := rs[i..i + |p.Text()|];
    assert rs[i] == here[0];
    if !p.Itself? {
      assert rs[i + 1] == here[1];
      AnsiEscapeIs(p, rs, i);
      AnsiBackslash(buf, out, rs, i);
      AnsiEscapeTakes(buf, out, rs, i + 1, p.Value(), i + |p.Text()| - 1);
    }
  }

  lemma AnsiBackslash(buf: string, out: seq<string>, rs: string, i: nat)
    requires i < |rs| && rs[i] == '\\'
    ensures TokensFrom(IN_ANSI, buf, out, rs, i) == TokensFrom(IN_ANSI.(escape := true), buf, out, rs, i + 1)
  {
  }

  lemma AnsiEscapeTakes(buf: string, out: seq<string>, rs: string, i: nat, c: char, last: nat)
    requires i < |rs| && AnsiEscape(rs, i) == Ok((c, last)) && i <= last < |rs|
    ensures TokensFrom(IN_ANSI.(escape := true), buf, out, rs, i) == TokensFrom(IN_ANSI, buf + [c], out, rs, last + 1)
  {
    hide AnsiEscape;
  }

  /** The escape of a code is read as its character, up to its last digit. */
  lemma AnsiEscapeIs(p: AnsiChar, rs: string, i: nat)
    requires p.Ok() && !p.Itself? && i + |p.Text()| < |rs| && rs[i..i + |p.Text()|] == p.Text()
    ensures AnsiEscape(rs, i + 1) == Ok((p.Value(), i + |p.Text()| - 1))
  {
    var here := rs[i..i + |p.Text()|];
    assert rs[i + 1] == here[1];
    match p
    case Letter(c) =>
    case Two(a, b) =>
      hide HexDigit, HexOf, AllHex;
      assert rs[i + 2] == here[2] && rs[i + 3] == here[3];
      HexOfTwo(a, b);
      assert rs[i + 2..i + 4] == [HexDigit(a), HexDigit(b)];
    case Four(a, b, c, d) =>
      hide HexDigit, HexOf, AllHex;
      assert rs[i + 2] == here[2] && rs[i + 3] == here[3] && rs[i + 4] == here[4] && rs[i + 5] == here[5];
      HexOfFour(a, b, c, d);
      assert rs[i + 2..i + 6] == [HexDigit(a), HexDigit(b), HexDigit(c), HexDigit(d)];
  }

  lemma HexDigitReads(d: nat)
    requires d < 16
    ensures HexVal(HexDigit(d)) == HexVal("0123456789ABCDEF"[d]) == Some(d)
  {
  }

  lemma HexOfSnoc(s: string, d: nat)
    requires AllHex(s) && d < 16
    ensures AllHex(s + [HexDigit(d)]) && HexOf(s + [HexDigit(d)]) == 16 * HexOf(s) + d
  {
    HexDigitReads(d);
    hide HexDigit, HexVal;
    assert (s + [HexDigit(d)])[..|s|] == s;
  }

  lemma HexOfTwo(a: nat, b: nat)
    requires a < 16 && b < 16
    ensures AllHex([HexDigit(a), HexDigit(b)]) && HexOf([HexDigit(a), HexDigit(b)]) == 16 * a + b
  {
    hide HexDigit;
    HexOfSnoc("", a);
    assert "" + [HexDigit(a)] == [HexDigit(a)];
    HexOfSnoc([HexDigit(a)], b);
    assert [HexDigit(a)] + [HexDigit(b)] == [HexDigit(a), HexDigit(b)];
  }

  lemma HexOfFour(a: nat, b: nat, c: nat, d: nat)
    requires a < 16 && b < 16 && c < 16 && d < 16
    ensures var s := [HexDigit(a), HexDigit(b), HexDigit(c), HexDigit(d)]; AllHex(s) && HexOf(s) == 4096 * a + 256 * b + 16 * c + d
  {
    hide HexDigit;
    var ab := [HexDigit(a), HexDigit(b)];
    HexOfTwo(a, b);
    HexOfSnoc(ab, c);
    HexOfSnoc(ab + [HexDigit(c)], d);
    assert ab + [HexDigit(c)] + [HexDigit(d)] == [HexDigit(a), HexDigit(b), HexDigit(c), HexDigit(d)];
  }

  lemma ReadEscaped(buf: string, out: seq<string>, rs: string, i: nat)
    requires i + 1 < |rs| && rs[i] == '\\' && !IsLineBreak(rs[i + 1])
    ensures TokensFrom(CLOSED, buf, out, rs, i) == TokensFrom(CLOSED, buf + [rs[i + 1]], out, rs, i + 2)
  {
    assert TokensFrom(CLOSED, buf, out, rs, i) == TokensFrom(CLOSED.(escape := true), buf, out, rs, i + 1);
  }

  lemma ReadQuoted(text: string, buf: string, out: seq<string>, rs: string, i: nat)
    requires '\'' !in text && i + |text| + 2 <= |rs| && rs[i..i + |text| + 2] == "'" + text + "'"
    ensures TokensFrom(CLOSED, buf, out, rs, i) == TokensFrom(CLOSED, buf + text, out, rs, i + |text| + 2)
  {
    hide TokensFrom;
    assert "'" + text + "'" == "'" + (text + "'");
    Apart(rs, i, "'", text + "'");
    Apart(rs, i + 1, text, "'");
    assert rs[i] == rs[i..i + 1][0] && rs[i + 1 + |text|] == rs[i + 1 + |text|..i + 1 + |text| + 1][0];
    OpenSingle(buf, out, rs, i);
    ReadSingle(text, buf, out, rs, i + 1);
  }

  lemma OpenSingle(buf: string, out: seq<string>, rs: string, i: nat)
    requires i < |rs| && rs[i] == '\''
    ensures TokensFrom(CLOSED, buf, out, rs, i) == TokensFrom(CLOSED.(inSingle := true), buf, out, rs, i + 1)
  {
  }

  lemma {:induction false} ReadWord(word: seq<Piece>, buf: string, out: seq<string>, rs: string, i: nat)
    requires WordOk(word) && i + |WordText(word)| <= |rs| && rs[i..i + |WordText(word)|] == WordText(word)
    ensures TokensFrom(CLOSED, buf, out, rs, i)
            == TokensFrom(CLOSED, buf + WordValue(word), out, rs, i + |WordText(word)|)
    decreases |word|
  {
    hide TokensFrom, Piece.Text, Piece.Value, Piece.Ok;
    if word == [] {
      assert buf + WordValue(word) == buf;
    } else {
      var p, rest := word[0].Text(), WordText(word[1..]);
      Apart(rs, i, p, rest);
      ReadPiece(word[0], buf, out, rs, i);
      ReadWord(word[1..], buf + word[0].Value(), out, rs, i + |p|);
      assert buf + word[0].Value() + WordValue(word[1..]) == buf + WordValue(word);
    }
  }

  /** A stretch of rs that is a followed by b holds a and then b. */
  lemma Apart(rs: string, i: nat, a: string, b: string)
    requires i + |a| + |b| <= |rs| && rs[i..i + |a| + |b|] == a + b
    ensures rs[i..i + |a|] == a && rs[i + |a|..i + |a| + |b|] == b
  {
    var here := rs[i..i + |a| + |b|];
    assert rs[i..i + |a|] == here[..|a|] && rs[i + |a|..i + |a| + |b|] == here[|a|..];
  }

  predicate Blank(s: string) {
    forall i | 0 <= i < |s| :: IsWhitespace(s[i])
  }

  /** White space ends a word once. */
  lemma {:induction false} ReadBlank(gap: string, buf: string, out: seq<string>, rs: string, i: nat)
    requires Blank(gap) && i + |gap| <= |rs| && rs[i..i + |gap|] == gap
    ensures TokensFrom(CLOSED, buf, out, rs, i)
            == if gap == "" then TokensFrom(CLOSED, buf, out, rs, i) else TokensFrom(CLOSED, "", Flush(buf, out), rs, i + |gap|)
    decreases |gap|
  {
    if gap != "" {
      var here := rs[i..i + |gap|];
      assert here[0] == rs[i] && rs[i + 1..i + |gap|] == here[1..];
      ReadBlank(gap[1..], "", Flush(buf, out), rs, i + 1);
    }
  }

  /** Words and the white space behind each; only the last may have none. */
  datatype Item = Item(word: seq<Piece>, gap: string)

  predicate LineOk(items: seq<Item>) {
    forall i | 0 <= i < |items| ::
      && WordOk(items[i].word) && WordValue(items[i].word) != ""
      && Blank(items[i].gap) && (items[i].gap == "" ==> i == |items| - 1)
  }

  function LineText(items: seq<Item>): string {
    if items == [] then "" else WordText(items[0].word) + (items[0].gap + LineText(items[1..]))
  }

  function LineWords(items: seq<Item>): seq<string> {
    if items == [] then [] else [WordValue(items[0].word)] + LineWords(items[1..])
  }

  lemma LineParts(items: seq<Item>, rs: string, i: nat)
    requires items != [] && i + |LineText(items)| == |rs| && rs[i..|rs|] == LineText(items)
    ensures var j := i + |WordText(items[0].word)|; var k := j + |items[0].gap|;
            && rs[i..j] == WordText(items[0].word) && rs[j..k] == items[0].gap
            && k + |LineText(items[1..])| == |rs| && rs[k..|rs|] == LineText(items[1..])
  {
    hide WordText;
    var text, gap, rest := WordText(items[0].word), items[0].gap, LineText(items[1..]);
    Apart(rs, i, text, gap + rest);
    Apart(rs, i + |text|, gap, rest);
  }

  lemma LineOkParts(items: seq<Item>, out: seq<string>)
    requires LineOk(items) && items != []
    ensures WordOk(items[0].word) && WordValue(items[0].word) != "" && Blank(items[0].gap) && LineOk(items[1..])
    ensures items[0].gap == "" ==> items[1..] == []
    ensures out + LineWords(items) == out + [WordValue(items[0].word)] + LineWords(items[1..])
  {
    hide WordOk, WordValue, Blank;
  }

  lemma {:induction false} ReadLine(items: seq<Item>, out: seq<string>, rs: string, i: nat)
    requires LineOk(items) && i + |LineText(items)| == |rs| && rs[i..|rs|] == LineText(items)
    ensures TokensFrom(CLOSED, "", out, rs, i) == Ok(out + LineWords(items))
    decreases |items|
  {
    hide TokensFrom, WordText, WordValue, Blank, WordOk, LineOk, LineText, LineWords;
    if items == [] {
      NoWords(out);
      NothingLeft(out, rs, i);
    } else {
      var Item(word, gap) := items[0];
      LineParts(items, rs, i);
      LineOkParts(items, out);
      ReadWord(word, "", out, rs, i);
      assert "" + WordValue(word) == WordValue(word);
      var j := i + |WordText(word)|;
      ReadBlank(gap, WordValue(word), out, rs, j);
      if gap == "" {
        NoWords(out + [WordValue(word)]);
        LastWord(WordValue(word), out, rs, j);
      } else {
        ReadLine(items[1..], out + [WordValue(word)], rs, j + |gap|);
      }
    }
  }

  lemma NoWords(out: seq<string>)
    ensures LineText([]) == "" && out + LineWords([]) == out
  {
  }

  lemma NothingLeft(out: seq<string>, rs: string, i: nat)
    requires i >= |rs|
    ensures TokensFrom(CLOSED, "", out, rs, i) == Ok(out)
  {
  }

  lemma LastWord(buf: string, out: seq<string>, rs: string, i: nat)
    requires i >= |rs| && buf != ""
    ensures TokensFrom(CLOSED, buf, out, rs, i) == Ok(out + [buf])
  {
  }

  /** Tokenizing inverts quoting: words that are not empty, each written in pieces that are
      single-quoted, escaped or plain, separated by white space, come back as they were. */
  lemma TokenizeInvertsQuoting(lead: string, items: seq<Item>)
    requires Blank(lead) && LineOk(items)
    ensures TokensFrom(CLOSED, "", [], lead + LineText(items), 0) == Ok(LineWords(items))
  {
    var rs := lead + LineText(items);
    assert rs[0..|lead|] == lead && rs[|lead|..|rs|] == LineText(items);
    ReadBlank(lead, "", [], rs, 0);
    ReadLine(items, [], rs, |lead|);
    assert [] + LineWords(items) == LineWords(items);
  }

  /** The usual way to quote a word: single-quoted pieces joined by \'. */
  function QuoteWord(w: string): seq<Piece> {
    var k := QuoteIn(w);
    if k == |w| then [Single(w)] else [Single(w[..k]), Escaped('\'')] + QuoteWord(w[k + 1..])
  }

  function QuoteIn(w: string): (k: nat)
    ensures k <= |w| && '\'' !in w[..k] && (k < |w| ==> w[k] == '\'')
  {
    if w == "" || w[0] == '\'' then 0 else
      var k := 1 + QuoteIn(w[1..]);
      assert w[..k] == [w[0]] + w[1..][..k - 1];
      k
  }

  lemma {:induction false} QuoteWordValue(w: string)
    ensures WordOk(QuoteWord(w)) && WordValue(QuoteWord(w)) == w
    decreases |w|
  {
    hide WordValue, WordOk, QuoteIn;
    var k := QuoteIn(w);
    if k < |w| {
      QuoteWordValue(w[k + 1..]);
      ValueOfTwo(Single(w[..k]), Escaped('\''), QuoteWord(w[k + 1..]));
      assert w == w[..k] + (['\''] + w[k + 1..]);
    } else {
      assert w[..k] == w;
      ValueOfOne(w);
    }
  }

  lemma ValueOfOne(w: string)
    requires '\'' !in w
    ensures WordOk([Single(w)]) && WordValue([Single(w)]) == w
  {
    assert [Single(w)][1..] == [] && w + "" == w;
  }

  lemma ValueOfTwo(p: Piece, q: Piece, rest: seq<Piece>)
    requires p.Ok() && q.Ok() && WordOk(rest)
    ensures WordOk([p, q] + rest) && WordValue([p, q] + rest) == p.Value() + (q.Value() + WordValue(rest))
  {
    var word := [p, q] + rest;
    assert word[1..] == [q] + rest && ([q] + rest)[1..] == rest;
  }

  function QuoteLine(words: seq<string>): (items: seq<Item>)
    ensures |items| == |words| && forall i | 0 <= i < |words| :: items[i] == Item(QuoteWord(words[i]), " ")
  {
    seq(|words|, i requires 0 <= i < |words| => Item(QuoteWord(words[i]), " "))
  }

  /** Any list of words that are not empty survives quoting each word and tokenizing the line. */
  lemma QuotedWordsComeBack(words: seq<string>)
    requires forall i | 0 <= i < |words| :: words[i] != ""
    ensures TokensFrom(CLOSED, "", [], LineText(QuoteLine(words)), 0) == Ok(words)
  {
    var items := QuoteLine(words);
    forall i | 0 <= i < |items| ensures WordOk(items[i].word) && WordValue(items[i].word) == words[i] {
      QuoteWordValue(words[i]);
    }
    TokenizeInvertsQuoting("", items);
    assert "" + LineText(items) == LineText(items);
    LineWordsAre(items, words);
  }

  lemma {:induction false} LineWordsAre(items: seq<Item>, words: seq<string>)
    requires |items| == |words| && forall i | 0 <= i < |items| :: WordValue(items[i].word) == words[i]
    ensures LineWords(items) == words
  {
    if items != [] {
      assert forall i | 0 <= i < |items[1..]| :: items[1..][i] == items[i + 1] && words[1..][i] == words[i + 1];
      LineWordsAre(items[1..], words[1..]);
      assert words == [words[0]] + words[1..];
    }
  }
}
