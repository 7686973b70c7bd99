/** Quotes and escapes of directive lines (internal/directive/lexer.go and word.go), told by a grammar of their own. */
module DirectiveQuotes {
  import opened Text
  import opened DirectiveLexer
  import opened DirectiveLaws
  import opened DirectiveWord
  import opened DirectiveOptions

  /** A character as written: itself, or behind a backslash. */
  datatype Written = Itself(c: char) | Escaped(c: char)

  /** Inside quotes a backslash counts in front of the quote and of a backslash, and stays anywhere else. */
  predicate QuotedOk(quote: char, chars: seq<Written>) {
    forall i | 0 <= i < |chars| :: chars[i].Itself? ==> chars[i].c != quote && chars[i].c != '\\'
  }

  /** Outside quotes white space, quotes, backslashes, equals signs and opening brackets are not themselves. */
  predicate BareOk(chars: seq<Written>) {
    forall i | 0 <= i < |chars| :: chars[i].Itself? ==> !IsSpace(chars[i].c) && chars[i].c !in {'"', '\'', '\\', '=', '[', '{', '('}
  }

  function TextOf(chars: seq<Written>): string {
    if chars == [] then ""
    else if chars[0].Escaped? then ['\\', chars[0].c] + TextOf(chars[1..])
    else [chars[0].c] + TextOf(chars[1..])
  }

  function QuotedValue(quote: char, chars: seq<Written>): string {
    if chars == [] then ""
    else if chars[0].Escaped? && chars[0].c != quote && chars[0].c != '\\' then ['\\', chars[0].c] + QuotedValue(quote, chars[1..])
    else [chars[0].c] + QuotedValue(quote, chars[1..])
  }

  function BareValue(chars: seq<Written>): string {
    if chars == [] then "" else [chars[0].c] + BareValue(chars[1..])
  }

  // ---------------------------------------------------------------- cutting a quoted name

  /** A quoted name is cut off behind its closing quote, and its escapes are read. */
  lemma {:induction false} UnquoteReads(quote: char, chars: seq<Written>, tail: string, name: string)
    requires IsQuote(quote) && QuotedOk(quote, chars)
    ensures Unquote(TextOf(chars) + ([quote] + tail), quote, name, false) == QuotedName(name + QuotedValue(quote, chars), tail)
    decreases |chars|
  {
    hide Unquote, TextOf, QuotedValue;
    if chars == [] {
      NothingWritten(quote, [quote] + tail, name);
      QuoteEnds(quote, tail, name);
    } else {
      var c, rest := chars[0].c, TextOf(chars[1..]) + ([quote] + tail);
      var here := FirstWritten(quote, chars, [quote] + tail, name);
      UnquoteReads(quote, chars[1..], tail, name + here);
      if chars[0].Escaped? {
        EscapeIsRead(quote, c, rest, name);
      } else {
        CharIsRead(quote, c, rest, name);
      }
    }
  }

  lemma NothingWritten(quote: char, t: string, name: string)
    ensures TextOf([]) + t == t && name + QuotedValue(quote, []) == name
  {
  }

  lemma FirstWritten(quote: char, chars: seq<Written>, t: string, name: string) returns (here: string)
    requires chars != []
    ensures here == if chars[0].Escaped? && chars[0].c != quote && chars[0].c != '\\' then ['\\', chars[0].c] else [chars[0].c]
    ensures TextOf(chars) + t == (if chars[0].Escaped? then ['\\', chars[0].c] else [chars[0].c]) + (TextOf(chars[1..]) + t)
    ensures name + here + QuotedValue(quote, chars[1..]) == name + QuotedValue(quote, chars)
  {
    here := if chars[0].Escaped? && chars[0].c != quote && chars[0].c != '\\' then ['\\', chars[0].c] else [chars[0].c];
  }

  lemma QuoteEnds(quote: char, tail: string, name: string)
    requires quote != '\\'
    ensures Unquote([quote] + tail, quote, name, false) == QuotedName(name, tail)
  {
    assert ([quote] + tail)[1..] == tail;
  }

  lemma CharIsRead(quote: char, c: char, rest: string, name: string)
    requires c != quote && c != '\\'
    ensures Unquote([c] + rest, quote, name, false) == Unquote(rest, quote, name + [c], false)
  {
    assert ([c] + rest)[1..] == rest;
  }

  lemma EscapeIsRead(quote: char, c: char, rest: string, name: string)
    ensures Unquote(['\\', c] + rest, quote, name, false)
            == Unquote(rest, quote, name + if c != quote && c != '\\' then ['\\', c] else [c], false)
  {
    var text := ['\\', c] + rest;
    assert text[1..] == [c] + rest && text[1..][1..] == rest;
    assert name + "\\" + [c] == name + ['\\', c] && name + "" + [c] == name + [c];
  }

  /** CutName on a name in either kind of quotes. */
  lemma QuotedNamesAreCut(quote: char, chars: seq<Written>, tail: string)
    requires IsQuote(quote) && QuotedOk(quote, chars)
    ensures CutNameOf([quote] + (TextOf(chars) + ([quote] + tail))) == (QuotedValue(quote, chars), tail)
  {
    hide Unquote, IsSpace;
    var input := [quote] + (TextOf(chars) + ([quote] + tail));
    assert !IsSpace(quote) by { QuotesAreNoSpace(quote); }
    assert input[0] == quote && input[1..] == TextOf(chars) + ([quote] + tail);
    assert TrimLeft(input) == input;
    assert !IsKeyRune(quote) by { QuotesAreNoSpace(quote); }
    assert forall i: nat | EqAt(input, i) :: i > 0 && IsKeyRune(input[0]);
    UnquoteReads(quote, chars, tail, "");
    assert "" + QuotedValue(quote, chars) == QuotedValue(quote, chars);
  }

  lemma QuotesAreNoSpace(quote: char)
    requires IsQuote(quote)
    ensures !IsSpace(quote) && !IsKeyRune(quote)
  {
  }

  /** What makes a word an option: a key of letters, digits, underscores, dashes and dots, one equals sign,
      and no second one. */
  lemma OptionsAreKeyAndValue(raw: string)
    ensures IsOption(raw) <==> exists key: string, value: string :: IsKeyAndValue(raw, key, value)
  {
    if IsOption(raw) {
      var i: nat :| EqAt(raw, i);
      assert raw == raw[..i] + ("=" + raw[i + 1..]);
      assert IsKeyAndValue(raw, raw[..i], raw[i + 1..]);
    }
    if key: string, value: string :| IsKeyAndValue(raw, key, value) {
      assert raw[|key|] == '=' && (value != "" ==> raw[|key| + 1] == value[0]);
      assert forall j | 0 <= j < |key| :: raw[j] == key[j];
      assert EqAt(raw, |key|);
    }
  }

  predicate IsKeyAndValue(raw: string, key: string, value: string) {
    && raw == key + ("=" + value) && key != "" && (value != "" ==> value[0] != '=')
    && forall i | 0 <= i < |key| ::
         'a' <= key[i] <= 'z' || 'A' <= key[i] <= 'Z' || '0' <= key[i] <= '9' || key[i] == '_' || key[i] == '-' || key[i] == '.'
  }

  // ---------------------------------------------------------------- lexing quoted and bare words

  /** Reading s makes m of l and ends no token, wherever s stands. */
  ghost predicate Reads(s: string, esc: bool, l: Lex, m: Lex) {
    forall at :: After(s, esc, l, at) == m && Emitted(s, esc, l, at) == []
  }

  lemma ReadsNothing(esc: bool, l: Lex)
    ensures Reads("", esc, l, l)
  {
  }

  lemma ReadsChar(c: char, esc: bool, l: Lex)
    requires !l.Ends(c) && l.begun
    ensures Reads([c], esc, l, l.Feed(esc, c, 0))
  {
    forall at: nat ensures l.Feed(esc, c, at) == l.Feed(esc, c, 0) {
    }
    hide Lex.Feed, Lex.Ends;
    forall at: nat ensures After([c], esc, l, at) == l.Feed(esc, c, at) && Emitted([c], esc, l, at) == [] {
      assert [c][1..] == "";
    }
  }

  lemma ReadsBoth(s: string, t: string, esc: bool, l: Lex, m: Lex, n: Lex)
    requires Reads(s, esc, l, m) && Reads(t, esc, m, n)
    ensures Reads(s + t, esc, l, n)
  {
    hide After, Emitted;
    forall at: nat ensures After(s + t, esc, l, at) == n && Emitted(s + t, esc, l, at) == [] {
      StreamSplits(s, t, esc, l, at);
    }
  }

  predicate Inside(l: Lex, quote: char) {
    l.closers == "" && !l.escaped && l.quote == quote && l.begun
  }

  /** The state with some more text in its token. */
  predicate More(l: Lex, m: Lex, text: string) {
    m.(last := l.last) == l.(tok := l.tok + text)
  }

  lemma MoreTwice(l: Lex, m: Lex, n: Lex, s: string, t: string)
    requires More(l, m, s) && More(m, n, t)
    ensures More(l, n, s + t)
  {
    assert l.tok + s + t == l.tok + (s + t);
  }

  lemma OneWritten(w: Written)
    ensures TextOf([w]) == (if w.Escaped? then ['\\', w.c] else [w.c]) && BareValue([w]) == [w.c]
    ensures forall quote :: QuotedValue(quote, [w]) == if w.Escaped? && w.c != quote && w.c != '\\' then ['\\', w.c] else [w.c]
  {
    assert [w][0] == w && [w][1..] == [];
  }

  lemma WrittenIsRead(w: Written, quote: char, l: Lex) returns (m: Lex)
    requires IsQuote(quote) && Inside(l, quote) && QuotedOk(quote, [w])
    ensures Reads(TextOf([w]), true, l, m) && More(l, m, QuotedValue(quote, [w]))
  {
    hide After, Emitted, TextOf, QuotedValue, BareValue;
    OneWritten(w);
    assert [w][0] == w;
    assert l.tok + ['\\'] + [w.c] == l.tok + ['\\', w.c];
    if w.Escaped? {
      var e := l.Feed(true, '\\', 0);
      ReadsChar('\\', true, l);
      ReadsChar(w.c, true, e);
      m := e.Feed(true, w.c, 0);
      ReadsBoth(['\\'], [w.c], true, l, e, m);
      assert ['\\'] + [w.c] == ['\\', w.c] == TextOf([w]);
      assert l.tok + ['\\'] + [w.c] == l.tok + ['\\', w.c];
    } else {
      m := l.Feed(true, w.c, 0);
      ReadsChar(w.c, true, l);
    }
  }

  lemma {:induction false} QuotedIsRead(quote: char, chars: seq<Written>, l: Lex) returns (m: Lex)
    requires IsQuote(quote) && Inside(l, quote) && QuotedOk(quote, chars)
    ensures Reads(TextOf(chars), true, l, m) && More(l, m, QuotedValue(quote, chars))
    decreases |chars|
  {
    hide After, Emitted, Reads, Lex.Feed;
    if chars == [] {
      m := l;
      ReadsNothing(true, l);
      assert l.tok + "" == l.tok;
    } else {
      assert [chars[0]][1..] == [] && TextOf([chars[0]]) + TextOf(chars[1..]) == TextOf(chars);
      assert QuotedValue(quote, [chars[0]]) + QuotedValue(quote, chars[1..]) == QuotedValue(quote, chars);
      var n := WrittenIsRead(chars[0], quote, l);
      m := QuotedIsRead(quote, chars[1..], n);
      ReadsBoth(TextOf([chars[0]]), TextOf(chars[1..]), true, l, n, m);
      MoreTwice(l, n, m, QuotedValue(quote, [chars[0]]), QuotedValue(quote, chars[1..]));
    }
  }

  /** Beginning at a visible first character. */
  lemma BeginsThere(text: string, esc: bool)
    requires text != "" && !IsSpace(text[0])
    ensures var l := FRESH.(begun := true);
            After(text, esc, FRESH, 0) == After(text, esc, l, 0) && Emitted(text, esc, FRESH, 0) == Emitted(text, esc, l, 0)
  {
    var l := FRESH.(begun := true);
    assert FRESH.Feed(esc, text[0], 0) == l.Feed(esc, text[0], 0);
  }

  /** A word in either kind of quotes is one field, and without its last quote that quote is what is missing. */
  lemma QuotedWordIsItsValue(quote: char, chars: seq<Written>)
    requires IsQuote(quote) && QuotedOk(quote, chars) && chars != []
    ensures FieldsOf([quote] + TextOf(chars) + [quote], true) == [QuotedValue(quote, chars)]
    ensures EndOf([quote] + TextOf(chars) + [quote], true).Quiet()
    ensures OpenDelimiter([quote] + TextOf(chars)) == quote
  {
    hide After, Emitted, Reads, IsSpace;
    assert !IsSpace(quote) by { QuotesAreNoSpace(quote); }
    var l := FRESH.(begun := true);
    var i := l.(quote := quote);
    assert Reads([quote], true, l, i) by { ReadsChar(quote, true, l); }
    var m := QuotedIsRead(quote, chars, i);
    ReadsBoth([quote], TextOf(chars), true, l, i, m);
    var z := m.(quote := NUL);
    assert Reads([quote], true, m, z) by { ReadsChar(quote, true, m); }
    ReadsBoth([quote] + TextOf(chars), [quote], true, l, m, z);
    WholeIsRead([quote] + TextOf(chars), true, m);
    WholeIsRead([quote] + TextOf(chars) + [quote], true, z);
    assert "" + QuotedValue(quote, chars) == QuotedValue(quote, chars);
  }

  lemma WholeIsRead(text: string, esc: bool, m: Lex)
    requires text != "" && !IsSpace(text[0]) && Reads(text, esc, FRESH.(begun := true), m)
    ensures EndOf(text, esc) == m && FieldsOf(text, esc) == if m.Text() == "" then [] else [m.Text()]
  {
    hide After, Emitted, Stream, IsSpace;
    BeginsThere(text, esc);
    StreamEnds(text, esc, FRESH, 0);
  }

  predicate Plain(l: Lex) {
    l.Quiet() && l.begun && l.state == InKey && l.last != '='
  }

  lemma BareCharIsRead(w: Written, l: Lex) returns (m: Lex)
    requires Plain(l) && BareOk([w]) && (w.Escaped? ==> w.c != '=')
    ensures Reads(TextOf([w]), true, l, m) && More(l, m, [w.c]) && m.last != '='
  {
    hide After, Emitted, TextOf, QuotedValue, BareValue;
    OneWritten(w);
    assert [w][0] == w;
    assert l.tok + ['\\'] + [w.c] == l.tok + ['\\', w.c];
    if w.Escaped? {
      var e := l.Feed(true, '\\', 0);
      ReadsChar('\\', true, l);
      ReadsChar(w.c, true, e);
      m := e.Feed(true, w.c, 0);
      ReadsBoth(['\\'], [w.c], true, l, e, m);
      assert ['\\'] + [w.c] == ['\\', w.c] == TextOf([w]);
    } else {
      m := l.Feed(true, w.c, 0);
      ReadsChar(w.c, true, l);
    }
  }

  lemma {:induction false} BareIsRead(chars: seq<Written>, l: Lex) returns (m: Lex)
    requires Plain(l) && BareOk(chars) && forall i | 0 <= i < |chars| :: chars[i].c != '='
    ensures Reads(TextOf(chars), true, l, m) && More(l, m, BareValue(chars)) && m.last != '='
    decreases |chars|
  {
    hide After, Emitted, Reads, Lex.Feed, IsSpace;
    if chars == [] {
      m := l;
      ReadsNothing(true, l);
      assert l.tok + "" == l.tok;
    } else {
      assert [chars[0]][1..] == [] && TextOf([chars[0]]) + TextOf(chars[1..]) == TextOf(chars);
      var n := BareCharIsRead(chars[0], l);
      m := BareIsRead(chars[1..], n);
      ReadsBoth(TextOf([chars[0]]), TextOf(chars[1..]), true, l, n, m);
      MoreTwice(l, n, m, [chars[0].c], BareValue(chars[1..]));
    }
  }

  /** A bare word is one field, escapes taken off: an escaped space or quote is an ordinary character. */
  lemma BareWordIsItsValue(chars: seq<Written>)
    requires BareOk(chars) && chars != [] && forall i | 0 <= i < |chars| :: chars[i].c != '='
    ensures FieldsOf(TextOf(chars), true) == [BareValue(chars)] && EndOf(TextOf(chars), true).Quiet()
  {
    hide After, Emitted, Reads;
    var m := BareIsRead(chars, FRESH.(begun := true));
    assert !IsSpace(TextOf(chars)[0]);
    WholeIsRead(TextOf(chars), true, m);
    assert "" + BareValue(chars) == BareValue(chars);
  }

  lemma {:induction false} RawIsRead(quote: char, s: string, l: Lex) returns (m: Lex)
    requires IsQuote(quote) && Inside(l, quote) && quote !in s
    ensures Reads(s, false, l, m) && More(l, m, s)
    decreases |s|
  {
    hide After, Emitted, Reads;
    if s == "" {
      m := l;
      ReadsNothing(false, l);
      assert l.tok + "" == l.tok;
    } else {
      var n := l.Feed(false, s[0], 0);
      ReadsChar(s[0], false, l);
      m := RawIsRead(quote, s[1..], n);
      assert [s[0]] + s[1..] == s;
      ReadsBoth([s[0]], s[1..], false, l, n, m);
      MoreTwice(l, n, m, [s[0]], s[1..]);
    }
  }

  /** Where escapes are off, everything between two quotes is itself, backslashes included. */
  lemma RawWordIsItself(quote: char, s: string)
    requires IsQuote(quote) && quote !in s && s != ""
    ensures FieldsOf([quote] + s + [quote], false) == [s]
  {
    hide After, Emitted, Reads, Stream, IsSpace;
    assert !IsSpace(quote) by { QuotesAreNoSpace(quote); }
    var l := FRESH.(begun := true);
    var i := l.(quote := quote);
    assert Reads([quote], false, l, i) by { ReadsChar(quote, false, l); }
    var m := RawIsRead(quote, s, i);
    ReadsBoth([quote], s, false, l, i, m);
    var z := m.(quote := NUL);
    assert Reads([quote], false, m, z) by { ReadsChar(quote, false, m); }
    ReadsBoth([quote] + s, [quote], false, l, m, z);
    WholeIsRead([quote] + s + [quote], false, z);
    assert "" + s == s;
  }

  /** What a single token gives: a key and what follows the first equals sign, the key in small letters and
      both trimmed; a token without one is a flag where flags are allowed, and nothing otherwise. */
  lemma OneOption(key: string, value: string)
    requires '=' !in key && Trim(key) != ""
    ensures forall bareIsTrue :: ValuesOf([key + ("=" + value)], bareIsTrue) == map[ToLower(Trim(key)) := Trim(value)]
    ensures ValuesOf([key], true) == map[ToLower(Trim(key)) := "true"] && ValuesOf([key], false) == map[]
  {
    hide Trim, ToLower;
    var tok := key + ("=" + value);
    EqualsIsAt(key, value);
    assert tok[..|key|] == key && tok[|key| + 1..] == value && key[..|key|] == key;
    assert Trim("true") == "true" by { TrimFixed("true"); }
    assert [tok][..0] == [] && [key][..0] == [];
    assert ToLower(Trim(key)) != "";
  }

  lemma {:induction false} EqualsIsAt(key: string, value: string)
    requires '=' !in key
    ensures EqualsAt(key + ("=" + value)) == |key| && EqualsAt(key) == |key|
    decreases |key|
  {
    if key == "" {
      assert "" + ("=" + value) == "=" + value;
    } else {
      assert (key + ("=" + value))[1..] == key[1..] + ("=" + value);
      EqualsIsAt(key[1..], value);
    }
  }
}
