/** internal/directive/word.go: words of a directive line, bare or quoted. */
module DirectiveWord {
  import opened Text
  import opened DirectiveLexer
  import opened DirectiveLaws

  predicate NeedsQuote(c: char) {
    IsSpace(c) || c == '"' || c == '\'' || c == '\\' || c == '='
  }

  predicate Bare(value: string) {
    forall i | 0 <= i < |value| :: !NeedsQuote(value[i])
  }

  function Escape(value: string): string {
    if value == "" then ""
    else (if value[0] == '"' || value[0] == '\\' then "\\" else "") + [value[0]] + Escape(value[1..])
  }

  function QuoteOf(value: string): string {
    if Bare(value) then value else "\"" + Escape(value) + "\""
  }

  lemma {:induction false} EscapeConcat(s: string, t: string)
    ensures Escape(s + t) == Escape(s) + Escape(t)
  {
    if s == "" {
      assert s + t == t;
    } else {
      assert (s + t)[0] == s[0] && (s + t)[1..] == s[1..] + t;
      EscapeConcat(s[1..], t);
    }
  }

  method Quote(value: string) returns (r: string)
    ensures r == QuoteOf(value)
  {
    var bare := true;
    for i := 0 to |value|
      invariant bare <==> Bare(value[..i])
    {
      assert value[..i + 1] == value[..i] + [value[i]];
      if NeedsQuote(value[i]) {
        assert value[..i + 1][i] == value[i];
        bare := false;
      }
    }
    assert value[..|value|] == value;
    if bare { return value; }
    var b := "\"";
    for i := 0 to |value|
      invariant b == "\"" + Escape(value[..i])
    {
      assert value[..i + 1] == value[..i] + [value[i]];
      EscapeConcat(value[..i], [value[i]]);
      assert [value[i]][1..] == "";
      if value[i] == '"' || value[i] == '\\' {
        b := b + "\\";
      }
      b := b + [value[i]];
    }
    return b + "\"";
  }

  // ---------------------------------------------------------------- options

  /** A name, then an equals sign outside quotes that no second one follows. */
  predicate EqAt(raw: string, i: nat) {
    && 0 < i < |raw| && raw[i] == '='
    && (forall j | 0 <= j < i :: IsKeyRune(raw[j]))
    && !(i + 1 < |raw| && raw[i + 1] == '=')
  }

  ghost predicate IsOption(raw: string) {
    exists i: nat :: EqAt(raw, i)
  }

  /** Where the equals sign is that makes raw an option, or -1. */
  method OptionEq(raw: string) returns (eq: int)
    ensures eq >= 0 ==> EqAt(raw, eq)
    ensures eq < 0 ==> eq == -1 && !IsOption(raw)
  {
    for i := 0 to |raw|
      invariant forall j | 0 <= j < i :: IsKeyRune(raw[j])
    {
      if raw[i] == '=' {
        if i > 0 && !(i + 1 < |raw| && raw[i + 1] == '=') { return i; }
        assert forall k: nat :: EqAt(raw, k) ==> k == i;
        return -1;
      }
      if !IsKeyRune(raw[i]) {
        assert forall k: nat :: EqAt(raw, k) ==> k < i;
        return -1;
      }
    }
    return -1;
  }

  // ---------------------------------------------------------------- cutting a name off

  datatype Cut = NotQuoted | QuotedName(name: string, tail: string)

  /** What follows the opening quote, read up to the closing one. */
  function Unquote(s: string, quote: char, name: string, esc: bool): Cut {
    if s == "" then NotQuoted
    else if esc then Unquote(s[1..], quote, name + (if s[0] != quote && s[0] != '\\' then "\\" else "") + [s[0]], false)
    else if s[0] == '\\' then Unquote(s[1..], quote, name, true)
    else if s[0] == quote then QuotedName(name, s[1..])
    else Unquote(s[1..], quote, name + [s[0]], false)
  }

  method CutQuoted(input: string, quote: char) returns (r: Cut)
    requires input != ""
    ensures r == Unquote(input[1..], quote, "", false)
  {
    var b, esc := "", false;
    for i := 1 to |input|
      invariant Unquote(input[1..], quote, "", false) == Unquote(input[i..], quote, b, esc)
    {
      var c := input[i];
      assert input[i..][0] == c && input[i..][1..] == input[i + 1..];
      if esc {
        esc := false;
        if c != quote && c != '\\' {
          b := b + "\\";
        } else {
          assert b + "" == b;
        }
        b := b + [c];
      } else if c == '\\' {
        esc := true;
      } else if c == quote {
        return QuotedName(b, input[i + 1..]);
      } else {
        b := b + [c];
      }
    }
    return NotQuoted;
  }

  function SpaceAt(s: string): (i: nat)
    ensures i <= |s| && (i < |s| ==> IsSpace(s[i])) && forall j | 0 <= j < i :: !IsSpace(s[j])
  {
    if s == "" || IsSpace(s[0]) then 0 else
      var i := SpaceAt(s[1..]);
      assert forall j | 0 < j < 1 + i :: s[j] == s[1..][j - 1];
      1 + i
  }

  /** CutName: the leading name and what follows it as written. */
  ghost function CutNameOf(input: string): (string, string) {
    var rest := TrimLeft(input);
    if rest == "" || IsOption(rest) then ("", input)
    else if IsQuote(rest[0]) && Unquote(rest[1..], rest[0], "", false).QuotedName? then
      var cut := Unquote(rest[1..], rest[0], "", false);
      (cut.name, cut.tail)
    else (rest[..SpaceAt(rest)], rest[SpaceAt(rest)..])
  }

  method CutName(input: string) returns (name: string, tail: string)
    ensures (name, tail) == CutNameOf(input)
  {
    var rest := TrimLeft(input);
    if rest == "" { return "", input; }
    var eq := OptionEq(rest);
    if eq >= 0 {
      assert IsOption(rest);
      return "", input;
    }
    if IsQuote(rest[0]) {
      var cut := CutQuoted(rest, rest[0]);
      if cut.QuotedName? { return cut.name, cut.tail; }
    }
    var i := SpaceAt(rest);
    return rest[..i], rest[i..];
  }

  lemma {:induction false} UnquoteEscaped(value: string, tail: string, name: string)
    ensures Unquote(Escape(value) + "\"" + tail, '"', name, false) == QuotedName(name + value, tail)
  {
    hide Unquote;
    if value == "" {
      assert Escape(value) + "\"" + tail == ['"'] + tail;
      UnquoteEnds(tail, name);
      assert name + value == name;
    } else {
      var c, rest := value[0], Escape(value[1..]) + "\"" + tail;
      UnquoteEscaped(value[1..], tail, name + [c]);
      assert name + [c] + value[1..] == name + value;
      if c == '"' || c == '\\' {
        assert Escape(value) + "\"" + tail == ['\\', c] + rest;
        UnquoteTakesEscaped(c, rest, name);
      } else {
        assert Escape(value) + "\"" + tail == [c] + rest;
        UnquoteTakes(c, rest, name);
      }
    }
  }

  lemma UnquoteEnds(tail: string, name: string)
    ensures Unquote(['"'] + tail, '"', name, false) == QuotedName(name, tail)
  {
    assert (['"'] + tail)[1..] == tail;
  }

  lemma UnquoteTakes(c: char, rest: string, name: string)
    requires c != '"' && c != '\\'
    ensures Unquote([c] + rest, '"', name, false) == Unquote(rest, '"', name + [c], false)
  {
    assert ([c] + rest)[1..] == rest;
  }

  lemma UnquoteTakesEscaped(c: char, rest: string, name: string)
    requires c == '"' || c == '\\'
    ensures Unquote(['\\', c] + rest, '"', name, false) == Unquote(rest, '"', name + [c], false)
  {
    var text := ['\\', c] + rest;
    assert text[1..] == [c] + rest && text[1..][1..] == rest;
    assert name + "" + [c] == name + [c];
  }

  lemma {:induction false} SpaceAfter(v: string, tail: string)
    requires Bare(v)
    ensures SpaceAt(v + tail) == |v| + SpaceAt(tail)
  {
    if v == "" {
      assert v + tail == tail;
    } else {
      assert !NeedsQuote(v[0]) && (v + tail)[0] == v[0] && (v + tail)[1..] == v[1..] + tail;
      assert forall i | 0 <= i < |v[1..]| :: v[1..][i] == v[i + 1];
      SpaceAfter(v[1..], tail);
    }
  }

  lemma NoOptionAt(v: string, tail: string, i: nat)
    requires Bare(v) && (tail == "" || IsSpace(tail[0]))
    ensures !EqAt(v + tail, i)
  {
    if i < |v| {
      assert (v + tail)[i] == v[i];
    } else if i < |v + tail| {
      assert (v + tail)[|v|] == tail[0];
    }
  }

  lemma BareCut(v: string, tail: string)
    requires v != "" && Bare(v)
    ensures CutNameOf(v + tail) == (v, tail) <==> tail == "" || IsSpace(tail[0])
  {
    var text := v + tail;
    assert !NeedsQuote(v[0]) && text[0] == v[0] && TrimLeft(text) == text;
    SpaceAfter(v, tail);
    if tail == "" || IsSpace(tail[0]) {
      forall i: nat ensures !EqAt(text, i) {
        NoOptionAt(v, tail, i);
      }
      assert text[..|v|] == v && text[|v|..] == tail;
    }
  }

  lemma QuotedCut(v: string, tail: string)
    ensures CutNameOf("\"" + Escape(v) + "\"" + tail) == (v, tail)
  {
    hide Escape, IsKeyRune;
    var rest := Escape(v) + "\"" + tail;
    var text := "\"" + rest;
    assert "\"" + Escape(v) + "\"" + tail == text;
    assert text[0] == '"' && text[1..] == rest;
    UnquoteEscaped(v, tail, "");
    hide Unquote;
    assert "" + v == v;
    forall i: nat ensures !EqAt(text, i) {
      QuoteIsNoKey(text, i);
    }
    assert TrimLeft(text) == text;
  }

  lemma QuoteIsNoKey(text: string, i: nat)
    requires text != "" && text[0] == '"'
    ensures !EqAt(text, i)
  {
    assert !IsKeyRune(text[0]);
  }

  /** Quote and CutName are inverses: a quoted name comes back whatever follows it, a bare one
      exactly when white space or nothing does. */
  lemma CutNameInvertsQuote(v: string, tail: string)
    requires v != ""
    ensures CutNameOf(QuoteOf(v) + tail) == (v, tail) <==> !Bare(v) || tail == "" || IsSpace(tail[0])
  {
    hide CutNameOf;
    if Bare(v) {
      BareCut(v, tail);
    } else {
      QuotedCut(v, tail);
    }
  }

  // ---------------------------------------------------------------- words and the lexer

  predicate InQuotes(l: Lex) {
    l.closers == "" && !l.escaped && l.quote == '"' && l.begun
  }

  /** Inside quotes a character stands for itself, and an escaped quote or backslash for itself. */
  lemma QuoteTakes(l: Lex, c: char, at: nat)
    requires InQuotes(l)
    ensures !l.Ends(c) && !l.Ends('\\') && !l.Feed(true, '\\', at).Ends(c)
    ensures c != '"' && c != '\\' ==> l.Feed(true, c, at) == l.(tok := l.tok + [c], last := c)
    ensures c == '"' || c == '\\' ==> l.Feed(true, '\\', at).Feed(true, c, at + 1) == l.(tok := l.tok + [c], last := c)
  {
  }

  lemma AfterTwo(c: char, d: char, t: string, l: Lex, at: nat)
    requires !l.Ends(c) && !l.Feed(true, c, at).Ends(d)
    ensures var m := l.Feed(true, c, at).Feed(true, d, at + 1);
            && After([c, d] + t, true, l, at) == After(t, true, m, at + 2)
            && Emitted([c, d] + t, true, l, at) == Emitted(t, true, m, at + 2)
  {
    hide Lex.Feed, Lex.Ends;
    AfterOne(c, [d] + t, l, at);
    AfterOne(d, t, l.Feed(true, c, at), at + 1);
    assert [c] + ([d] + t) == [c, d] + t;
  }

  lemma AfterOne(c: char, t: string, l: Lex, at: nat)
    requires !l.Ends(c)
    ensures After([c] + t, true, l, at) == After(t, true, l.Feed(true, c, at), at + 1)
    ensures Emitted([c] + t, true, l, at) == Emitted(t, true, l.Feed(true, c, at), at + 1)
  {
    hide Lex.Feed;
    assert ([c] + t)[0] == c && ([c] + t)[1..] == t;
  }

  /** The lexer inside quotes reads an escaped value as the value. */
  lemma {:induction false} LexEscaped(value: string, l: Lex, at: nat)
    requires InQuotes(l)
    ensures After(Escape(value), true, l, at).tok == l.tok + value && InQuotes(After(Escape(value), true, l, at))
    ensures Emitted(Escape(value), true, l, at) == []
  {
    hide Lex.Feed, Lex.Ends;
    if value == "" {
      assert l.tok + value == l.tok;
    } else {
      var c, rest := value[0], Escape(value[1..]);
      var m := l.(tok := l.tok + [c], last := c);
      QuoteTakes(l, c, at);
      assert m.tok + value[1..] == l.tok + value;
      if c == '"' || c == '\\' {
        assert Escape(value) == ['\\', c] + rest;
        AfterTwo('\\', c, rest, l, at);
        LexEscaped(value[1..], m, at + 2);
      } else {
        assert Escape(value) == [c] + rest;
        AfterOne(c, rest, l, at);
        LexEscaped(value[1..], m, at + 1);
      }
    }
  }

  lemma LexQuoted(value: string, l: Lex, at: nat)
    requires l.Quiet() && l.StartsValue() && !l.Opens('"') && l.begun
    ensures var text := "\"" + Escape(value) + "\""; var m := After(text, true, l, at);
            m.tok == l.tok + value && m.Quiet() && Emitted(text, true, l, at) == []
  {
    hide Escape;
    var text := "\"" + Escape(value) + "\"";
    var l1 := l.(quote := '"');
    assert l.Feed(true, '"', at) == l1 && !l.Ends('"');
    assert text == ['"'] + (Escape(value) + ['"'] + "");
    AfterOne('"', Escape(value) + ['"'] + "", l, at);
    LexEscaped(value, l1, at + 1);
    var l2 := After(Escape(value), true, l1, at + 1);
    StreamSplits(Escape(value), ['"'] + "", true, l1, at + 1);
    assert Escape(value) + (['"'] + "") == Escape(value) + ['"'] + "";
    AfterOne('"', "", l2, at + 1 + |Escape(value)|);
    assert l2.Feed(true, '"', at + 1 + |Escape(value)|) == l2.(quote := NUL);
  }

  lemma {:induction false} LexBare(value: string, l: Lex, at: nat)
    requires Bare(value) && l.Quiet() && l.state == InKey && l.last != '=' && l.begun
    ensures var m := After(value, true, l, at);
            m.tok == l.tok + value && m.Quiet() && m.state == InKey && m.last != '=' && m.begun
    ensures Emitted(value, true, l, at) == []
  {
    if value == "" {
      assert l.tok + value == l.tok;
    } else {
      var l1 := l.Feed(true, value[0], at);
      assert l1 == l.(tok := l.tok + [value[0]], last := value[0]);
      assert forall i | 0 <= i < |value[1..]| :: value[1..][i] == value[i + 1];
      LexBare(value[1..], l1, at + 1);
      assert l.tok + [value[0]] + value[1..] == l.tok + value;
    }
  }

  /** A word, quoted if it must be, is one field, and it leaves nothing open. */
  lemma WordIsOneField(value: string)
    requires value != ""
    ensures FieldsOf(QuoteOf(value), true) == [value] && EndOf(QuoteOf(value), true).Quiet()
  {
    var text := QuoteOf(value);
    var l := FRESH.(begun := true, start := 0);
    assert text != "";
    if Bare(value) {
      assert !NeedsQuote(value[0]);
      LexBare(value, l, 0);
      FirstBegins(text);
    } else {
      LexQuoted(value, l, 0);
      FirstBegins(text);
    }
    assert "" + value == value;
    StreamEnds(text, true, FRESH, 0);
  }

  /** Having begun at a visible first character is the same as beginning there. */
  lemma FirstBegins(text: string)
    requires text != "" && !IsSpace(text[0])
    ensures var l := FRESH.(begun := true, start := 0);
            After(text, true, FRESH, 0) == After(text, true, l, 0) && Emitted(text, true, FRESH, 0) == Emitted(text, true, l, 0)
  {
    var l := FRESH.(begun := true, start := 0);
    assert FRESH.Feed(true, text[0], 0) == l.Feed(true, text[0], 0);
  }

  function JoinQuoted(words: seq<string>, space: char): string {
    if words == [] then ""
    else if |words| == 1 then QuoteOf(words[0])
    else QuoteOf(words[0]) + [space] + JoinQuoted(words[1..], space)
  }

  /** Quoting words, joining them with white space and lexing the line gives the words back. */
  lemma {:induction false} FieldsInvertQuote(words: seq<string>, space: char)
    requires IsSpace(space) && forall i | 0 <= i < |words| :: words[i] != ""
    ensures FieldsOf(JoinQuoted(words, space), true) == words
  {
    if words != [] {
      WordIsOneField(words[0]);
      if |words| > 1 {
        FieldsInvertQuote(words[1..], space);
        FieldsCompose(QuoteOf(words[0]), space, JoinQuoted(words[1..], space), true);
        assert words == [words[0]] + words[1..];
      } else {
        assert words == [words[0]];
      }
    }
  }
}
