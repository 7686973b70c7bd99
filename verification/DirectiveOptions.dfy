/** internal/directive/option.go: option lists of directive lines. */
module DirectiveOptions {
  import opened Wrappers
  import opened Text
  import opened DirectiveLexer
  import opened DirectiveLaws
  import opened DirectiveWord

  // ---------------------------------------------------------------- what a line leaves open

  /** The delimiter that is missing at the end of the input, or NUL. */
  function OpenDelimiter(input: string): char {
    var l := EndOf(input, true);
    if l.Text() == "" then NUL
    else if l.closers != "" then l.closers[|l.closers| - 1]
    else l.quote
  }

  method OptionsOpen(input: string) returns (closer: char)
    ensures closer == OpenDelimiter(input)
  {
    hide After;
    var lex := new Lexer(input, true);
    assert input[0..] == input;
    closer := NUL;
    var t, ok := lex.Next();
    while ok
      invariant lex.src == input && lex.escapes && lex.pos <= |input|
      invariant ok ==> || (lex.closers == "" && lex.quote == NUL && lex.End() == EndOf(input, true))
                       || (lex.pos == |input| && lex.Rest() == [] && EndOf(input, true).Text() != ""
                           && lex.closers == EndOf(input, true).closers && lex.quote == EndOf(input, true).quote)
      invariant !ok ==> closer == OpenDelimiter(input)
      decreases |input| - lex.pos, if ok then 1 else 0
    {
      if |lex.closers| > 0 {
        closer := lex.closers[|lex.closers| - 1];
      } else if lex.quote != NUL {
        closer := lex.quote;
      } else {
        closer := NUL;
      }
      t, ok := lex.Next();
    }
  }

  /** OptionsOpen finds nothing missing exactly when the line is outside every quote and bracket,
      up to a quote just opened and a backslash at the end. */
  lemma NothingOpen(input: string)
    ensures OpenDelimiter(input) == NUL <==>
            EndOf(input, true).Text() == "" || (EndOf(input, true).closers == "" && EndOf(input, true).quote == NUL)
  {
    FreshSound();
    AfterKeepsClosers(input, FRESH, 0);
  }

  /** Closers are closing brackets. */
  predicate Closing(closers: string) {
    forall i | 0 <= i < |closers| :: closers[i] in {']', '}', ')'}
  }

  lemma {:induction false} AfterKeepsClosers(s: string, l: Lex, at: nat)
    requires Closing(l.closers)
    ensures Closing(After(s, true, l, at).closers)
  {
    hide Lex.Ends;
    if s != "" {
      if l.Ends(s[0]) {
        AfterKeepsClosers(s[1..], FRESH, at + 1);
      } else {
        FeedKeepsClosers(l, s[0], at);
        AfterKeepsClosers(s[1..], l.Feed(true, s[0], at), at + 1);
      }
    }
  }

  lemma FeedKeepsClosers(l: Lex, r: char, at: nat)
    requires Closing(l.closers)
    ensures Closing(l.Feed(true, r, at).closers)
  {
    hide Lex.Group, Lex.Push, IsSpace, IsKeyRune, Closing;
    var m := if !l.begun && !IsSpace(r) then l.(begun := true, start := at) else l;
    GroupKeepsClosers(m, r);
    PushKeepsClosers(m.Write(r), r);
  }

  lemma PushKeepsClosers(l: Lex, r: char)
    requires Closing(l.closers)
    ensures Closing(l.Push(r).closers)
  {
  }

  lemma GroupKeepsClosers(l: Lex, r: char)
    requires Closing(l.closers)
    ensures Closing(l.Group(r).closers)
  {
    hide Lex.Push;
    PushKeepsClosers(l.Write(r), r);
  }

  // ---------------------------------------------------------------- field spans

  datatype FieldSpan = FieldSpan(start: nat, end: nat, eq: int)

  /** A span and the equals sign that makes its text an option. */
  ghost predicate SpanOf(input: string, t: Token, s: FieldSpan) {
    && s.start == t.start && s.end == t.end && t.start < t.end <= |input|
    && (s.eq >= 0 ==> t.start < s.eq < t.end && EqAt(input[t.start..t.end], s.eq - t.start))
    && (s.eq < 0 ==> s.eq == -1 && !IsOption(input[t.start..t.end]))
  }

  method FieldSpans(input: string) returns (spans: seq<FieldSpan>)
    ensures var ts := Stream(input, true, FRESH, 0);
            |spans| == |ts| && forall k | 0 <= k < |ts| :: SpanOf(input, ts[k], spans[k])
  {
    hide Stream, After;
    var lex := new Lexer(input, true);
    assert input[0..] == input;
    ghost var all := Stream(input, true, FRESH, 0);
    SpansAreLocal(input, true);
    spans := [];
    var tok, ok := lex.Next();
    while ok
      invariant lex.src == input && lex.escapes && lex.pos <= |input|
      invariant |spans| <= |all| && forall k | 0 <= k < |spans| :: SpanOf(input, all[k], spans[k])
      invariant ok <==> |spans| < |all|
      invariant ok ==> tok == all[|spans|] && lex.Rest() == all[|spans| + 1..]
      decreases |all| - |spans|
    {
      assert tok.start < tok.end <= |input|;
      var eq := OptionEq(input[tok.start..tok.end]);
      spans := spans + [FieldSpan(tok.start, tok.end, if eq >= 0 then eq + tok.start else eq)];
      tok, ok := lex.Next();
    }
  }

  // ---------------------------------------------------------------- one option on a line

  function OptionText(key: string, value: string): string {
    key + "=" + QuoteOf(value)
  }

  predicate IsKey(key: string) {
    key != "" && forall i | 0 <= i < |key| :: IsKeyRune(key[i])
  }

  /** A value that is being read as it is written: bare, or inside brackets. */
  predicate Reads(l: Lex) {
    && !l.escaped && l.quote == NUL && l.begun && l.tok != ""
    && (l.closers == "" ==> !l.inString)
  }

  lemma ReadsBare(l: Lex, c: char, at: nat)
    requires Reads(l) && !NeedsQuote(c)
    ensures !l.Ends(c) && Reads(l.Feed(true, c, at)) && l.Feed(true, c, at).tok == l.tok + [c]
  {
  }

  lemma {:induction false} LexBareValue(value: string, l: Lex, at: nat)
    requires Bare(value) && Reads(l)
    ensures Reads(After(value, true, l, at)) && After(value, true, l, at).tok == l.tok + value
    ensures Emitted(value, true, l, at) == []
  {
    hide Lex.Feed, Lex.Ends, Reads, NeedsQuote;
    if value == "" {
      assert l.tok + value == l.tok;
    } else {
      ReadsBare(l, value[0], at);
      assert forall i | 0 <= i < |value[1..]| :: value[1..][i] == value[i + 1];
      LexBareValue(value[1..], l.Feed(true, value[0], at), at + 1);
      assert l.tok + [value[0]] + value[1..] == l.tok + value;
    }
  }

  lemma KeyIsBare(key: string)
    requires IsKey(key)
    ensures Bare(key) && !IsSpace(key[0]) && !('=' in key)
  {
    forall i | 0 <= i < |key| ensures !NeedsQuote(key[i]) && key[i] != '=' {
      assert IsKeyRune(key[i]);
    }
  }

  lemma LexKeyEq(key: string)
    requires IsKey(key)
    ensures var l, m := FRESH.(begun := true), After(key, true, FRESH.(begun := true), 0);
            && Emitted(key, true, l, 0) == [] && m.Quiet() && m.tok == key && m.begun && !m.Ends('=')
            && var v := m.Feed(true, '=', |key|);
               v.tok == key + "=" && v.last == '=' && v.state == InName && Reads(v) && v.Quiet()
  {
    hide After, Emitted, Lex.Feed, Lex.Ends, Reads, Sound, Bare;
    KeyIsBare(key);
    LexBare(key, FRESH.(begun := true), 0);
    assert "" + key == key;
    assert Sound(FRESH.(begun := true)) by { BegunIsSound(); }
    AfterSound(key, true, FRESH.(begun := true), 0);
    EqualsFeeds(After(key, true, FRESH.(begun := true), 0), |key|);
  }

  lemma BegunIsSound()
    ensures Sound(FRESH.(begun := true))
  {
  }

  lemma EqualsFeeds(m: Lex, at: nat)
    requires m.Quiet() && m.state == InKey && m.begun && m.tok != "" && Sound(m)
    ensures !m.Ends('=')
    ensures var v := m.Feed(true, '=', at);
            v.tok == m.tok + "=" && v.last == '=' && v.state == InName && Reads(v) && v.Quiet()
  {
  }

  /** An option whose value is quoted if it must be is read as key=value; only a bare value can
      leave a bracket open. */
  lemma OptionReads(key: string, value: string)
    requires IsKey(key)
    ensures var l := EndOf(OptionText(key, value), true);
            && Emitted(OptionText(key, value), true, FRESH, 0) == [] && l.tok == key + "=" + value
            && !l.escaped && l.quote == NUL && (!Bare(value) ==> l.Quiet())
  {
    hide After, Emitted, Lex.Feed, NeedsQuote, IsSpace, QuoteOf;
    var text := OptionText(key, value);
    var l := FRESH.(begun := true);
    KeyIsBare(key);
    LexKeyEq(key);
    assert text[0] == key[0];
    FirstBegins(text);
    var m := After(key, true, l, 0);
    var v := m.Feed(true, '=', |key|);
    assert text == key + (['='] + QuoteOf(value));
    StreamSplits(key, ['='] + QuoteOf(value), true, l, 0);
    AfterOne('=', QuoteOf(value), m, |key|);
    ValueReads(value, v, |key| + 1);
    assert EndOf(text, true) == After(QuoteOf(value), true, v, |key| + 1);
    assert v.tok + value == key + "=" + value;
  }

  lemma ValueReads(value: string, v: Lex, at: nat)
    requires Reads(v) && v.Quiet() && v.last == '='
    ensures var l := After(QuoteOf(value), true, v, at);
            && Emitted(QuoteOf(value), true, v, at) == [] && l.tok == v.tok + value
            && !l.escaped && l.quote == NUL && (!Bare(value) ==> l.Quiet())
  {
    hide After, Emitted, Lex.Feed, NeedsQuote, Escape;
    if Bare(value) {
      LexBareValue(value, v, at);
    } else {
      LexQuoted(value, v, at);
    }
  }

  /** An option keeps its value and its neighbours exactly when OptionsOpen sees nothing missing
      in it, which a quoted value guarantees and a bare value with an open bracket does not. */
  lemma OptionKeepsToItself(key: string, value: string, c: char, rest: string)
    requires IsKey(key) && IsSpace(c)
    ensures FieldsOf(OptionText(key, value), true) == [key + "=" + value]
    ensures FieldsOf(OptionText(key, value) + [c] + rest, true) == [key + "=" + value] + FieldsOf(rest, true)
            <==> OpenDelimiter(OptionText(key, value)) == NUL
    ensures !Bare(value) ==> OpenDelimiter(OptionText(key, value)) == NUL
  {
    hide After, Emitted, OptionText, IsSpace;
    var text := OptionText(key, value);
    OptionReads(key, value);
    StreamEnds(text, true, FRESH, 0);
    FieldsComposeExactly(text, c, rest, true);
    NothingOpen(text);
  }

  // ---------------------------------------------------------------- collecting options

  /** The option a token stands for, if it has a name: a bare name means true, or nothing. */
  function Entry(tok: string, bareIsTrue: bool): Option<(string, string)> {
    var i := EqualsAt(tok);
    if i == |tok| && !bareIsTrue then None
    else
      var key := ToLower(Trim(tok[..i]));
      if key == "" then None else Some((key, Trim(if i < |tok| then tok[i + 1..] else "true")))
  }

  /** Where strings.Cut would cut at the first equals sign. */
  function EqualsAt(tok: string): (i: nat)
    ensures i <= |tok| && (i < |tok| ==> tok[i] == '=') && forall j | 0 <= j < i :: tok[j] != '='
  {
    if tok == "" || tok[0] == '=' then 0 else
      var i := EqualsAt(tok[1..]);
      assert forall j | 0 < j < 1 + i :: tok[j] == tok[1..][j - 1];
      1 + i
  }

  /** The last value given for each name. */
  function ValuesOf(toks: seq<string>, bareIsTrue: bool): map<string, string> {
    if toks == [] then map[] else
      var vals, e := ValuesOf(toks[..|toks| - 1], bareIsTrue), Entry(toks[|toks| - 1], bareIsTrue);
      if e.None? then vals else vals[e.value.0 := e.value.1]
  }

  /** Tokens i and j give the same option. */
  ghost predicate Repeats(toks: seq<string>, bareIsTrue: bool, i: nat, j: nat, key: string) {
    && i < j < |toks| && Entry(toks[i], bareIsTrue).Some? && Entry(toks[j], bareIsTrue).Some?
    && Entry(toks[i], bareIsTrue).value.0 == key && Entry(toks[j], bareIsTrue).value.0 == key
  }

  ghost predicate Repeated(toks: seq<string>, bareIsTrue: bool, key: string) {
    exists i: nat, j: nat :: Repeats(toks, bareIsTrue, i, j, key)
  }

  class Options {
    var vals: map<string, string>

    constructor ()
      ensures vals == map[]
    {
      vals := map[];
    }

    /** Stores a lowercase key with a trimmed value, and names the key if it was there already. */
    method Put(key: string, val: string) returns (repeated: string)
      modifies this
      ensures var k := ToLower(Trim(key));
              && vals == (if k == "" then old(vals) else old(vals)[k := Trim(val)])
              && repeated == (if k != "" && k in old(vals) then k else "")
    {
      var k := ToLower(Trim(key));
      if k == "" { return ""; }
      var seen := k in vals;
      vals := vals[k := Trim(val)];
      if !seen { return ""; }
      return k;
    }
  }

  /** Token i gives option k. */
  ghost predicate Gives(toks: seq<string>, bareIsTrue: bool, i: nat, k: string) {
    i < |toks| && Entry(toks[i], bareIsTrue).Some? && Entry(toks[i], bareIsTrue).value.0 == k
  }

  lemma {:induction false} ValuesOfKeys(toks: seq<string>, bareIsTrue: bool)
    ensures forall k :: k in ValuesOf(toks, bareIsTrue) <==> exists i: nat :: Gives(toks, bareIsTrue, i, k)
  {
    hide Entry;
    if toks != [] {
      var n := |toks| - 1;
      var front := toks[..n];
      ValuesOfKeys(front, bareIsTrue);
      forall k ensures k in ValuesOf(toks, bareIsTrue) <==> exists i: nat :: Gives(toks, bareIsTrue, i, k) {
        if k in ValuesOf(front, bareIsTrue) {
          var i: nat :| Gives(front, bareIsTrue, i, k);
          assert Gives(toks, bareIsTrue, i, k);
        }
        if i: nat :| Gives(toks, bareIsTrue, i, k) && i < n {
          assert Gives(front, bareIsTrue, i, k);
        }
        assert Gives(toks, bareIsTrue, n, k) <==> Entry(toks[n], bareIsTrue).Some? && Entry(toks[n], bareIsTrue).value.0 == k;
      }
    }
  }

  /** collectOptions: the options, and the names given more than once, each named once. */
  method CollectOptions(toks: seq<string>, bareIsTrue: bool) returns (opts: Options, repeats: seq<string>)
    ensures fresh(opts) && opts.vals == ValuesOf(toks, bareIsTrue)
    ensures forall k :: k in repeats <==> Repeated(toks, bareIsTrue, k)
    ensures forall a, b | 0 <= a < b < |repeats| :: repeats[a] != repeats[b]
  {
    hide Repeated, Entry, ValuesOf;
    opts := new Options();
    repeats := [];
    NoRepeats(bareIsTrue);
    for n := 0 to |toks|
      invariant fresh(opts) && opts.vals == ValuesOf(toks[..n], bareIsTrue)
      invariant forall k :: k in repeats <==> Repeated(toks[..n], bareIsTrue, k)
      invariant forall a, b | 0 <= a < b < |repeats| :: repeats[a] != repeats[b]
    {
      var tok := toks[n];
      assert toks[..n + 1][..n] == toks[..n] && toks[..n + 1][n] == tok;
      RepeatsGrow(toks, bareIsTrue, n);
      ValuesGrow(toks[..n + 1], bareIsTrue);
      EntryRead(tok, bareIsTrue);
      var i := EqualsAt(tok);
      if i == |tok| && !bareIsTrue { continue; }
      var key, val := tok[..i], if i < |tok| then tok[i + 1..] else "true";
      var again := opts.Put(key, val);
      if again != "" && again !in repeats {
        repeats := repeats + [again];
      }
    }
    assert toks[..|toks|] == toks;
  }

  lemma ValuesGrow(toks: seq<string>, bareIsTrue: bool)
    requires toks != []
    ensures var vals, e := ValuesOf(toks[..|toks| - 1], bareIsTrue), Entry(toks[|toks| - 1], bareIsTrue);
            ValuesOf(toks, bareIsTrue) == if e.None? then vals else vals[e.value.0 := e.value.1]
  {
    hide Entry;
  }

  lemma EntryRead(tok: string, bareIsTrue: bool)
    ensures var i := EqualsAt(tok);
            if i == |tok| && !bareIsTrue then Entry(tok, bareIsTrue).None?
            else
              var key, val := tok[..i], if i < |tok| then tok[i + 1..] else "true";
              Entry(tok, bareIsTrue) == if ToLower(Trim(key)) == "" then None else Some((ToLower(Trim(key)), Trim(val)))
  {
    hide ToLower, Trim, EqualsAt;
  }

  lemma NoRepeats(bareIsTrue: bool)
    ensures forall k :: !Repeated([], bareIsTrue, k)
    ensures ValuesOf([], bareIsTrue) == map[]
  {
  }

  /** One more token repeats what was repeated before, and its own name if that was given. */
  lemma RepeatsGrow(toks: seq<string>, bareIsTrue: bool, n: nat)
    requires n < |toks|
    ensures forall k :: Repeated(toks[..n + 1], bareIsTrue, k) <==>
              || Repeated(toks[..n], bareIsTrue, k)
              || (Entry(toks[n], bareIsTrue).Some? && Entry(toks[n], bareIsTrue).value.0 == k && k in ValuesOf(toks[..n], bareIsTrue))
  {
    hide Entry;
    var front, now := toks[..n], toks[..n + 1];
    ValuesOfKeys(front, bareIsTrue);
    forall k
      ensures Repeated(now, bareIsTrue, k) <==>
                || Repeated(front, bareIsTrue, k)
                || (Entry(toks[n], bareIsTrue).Some? && Entry(toks[n], bareIsTrue).value.0 == k && k in ValuesOf(front, bareIsTrue))
    {
      if Repeated(front, bareIsTrue, k) {
        var i: nat, j: nat :| Repeats(front, bareIsTrue, i, j, k);
        assert Repeats(now, bareIsTrue, i, j, k);
      }
      if Repeated(now, bareIsTrue, k) {
        var i: nat, j: nat :| Repeats(now, bareIsTrue, i, j, k);
        assert now[i] == front[i] && now[j] == toks[j];
        if j < n {
          assert Repeats(front, bareIsTrue, i, j, k);
        } else {
          assert Gives(front, bareIsTrue, i, k);
        }
      }
      if Entry(toks[n], bareIsTrue).Some? && Entry(toks[n], bareIsTrue).value.0 == k && k in ValuesOf(front, bareIsTrue) {
        var i: nat :| Gives(front, bareIsTrue, i, k);
        assert now[i] == front[i] && now[n] == toks[n];
        assert Repeats(now, bareIsTrue, i, n, k);
      }
    }
  }

  // ---------------------------------------------------------------- writing options and reading them back

  function OptionLine(opts: seq<(string, string)>, space: char): string {
    if opts == [] then ""
    else if |opts| == 1 then OptionText(opts[0].0, opts[0].1)
    else OptionText(opts[0].0, opts[0].1) + [space] + OptionLine(opts[1..], space)
  }

  function OptionTokens(opts: seq<(string, string)>): (toks: seq<string>)
    ensures |toks| == |opts| && forall i | 0 <= i < |opts| :: toks[i] == opts[i].0 + "=" + opts[i].1
  {
    seq(|opts|, i requires 0 <= i < |opts| => opts[i].0 + "=" + opts[i].1)
  }

  function OptionMap(opts: seq<(string, string)>): map<string, string> {
    if opts == [] then map[] else OptionMap(opts[..|opts| - 1])[opts[|opts| - 1].0 := opts[|opts| - 1].1]
  }

  /** An option as the reader stores it, whose text leaves no bracket open. */
  predicate Writable(o: (string, string)) {
    && IsKey(o.0) && ToLower(o.0) == o.0 && Trimmed(o.1)
    && OpenDelimiter(OptionText(o.0, o.1)) == NUL
  }

  predicate AllWritable(opts: seq<(string, string)>) {
    && (forall i | 0 <= i < |opts| :: Writable(opts[i]))
    && (forall i, j | 0 <= i < j < |opts| :: opts[i].0 != opts[j].0)
  }

  lemma {:induction false} OptionLineFields(opts: seq<(string, string)>, space: char)
    requires IsSpace(space) && forall i | 0 <= i < |opts| :: Writable(opts[i])
    ensures FieldsOf(OptionLine(opts, space), true) == OptionTokens(opts)
  {
    hide FieldsOf, OptionText, OpenDelimiter, IsSpace;
    if opts == [] {
      NoFields();
    } else {
      OptionKeepsToItself(opts[0].0, opts[0].1, space, OptionLine(opts[1..], space));
      if |opts| > 1 {
        OptionLineFields(opts[1..], space);
      }
    }
  }

  lemma NoFields()
    ensures FieldsOf("", true) == []
  {
  }

  lemma EqualsAfter(key: string, value: string)
    requires !('=' in key)
    ensures EqualsAt(key + "=" + value) == |key|
  {
    var text := key + "=" + value;
    if key == "" {
      assert text[0] == '=';
    } else {
      assert text[0] == key[0] && text[1..] == key[1..] + "=" + value;
      EqualsAfter(key[1..], value);
    }
  }

  lemma EntryOf(o: (string, string), bareIsTrue: bool)
    requires Writable(o)
    ensures Entry(o.0 + "=" + o.1, bareIsTrue) == Some(o)
  {
    var (key, value) := o;
    var text := key + "=" + value;
    KeyIsBare(key);
    EqualsAfter(key, value);
    assert text[..|key|] == key && text[|key| + 1..] == value;
    forall i | 0 <= i < |key| ensures !IsSpace(key[i]) {
      assert IsKeyRune(key[i]);
    }
    TrimFixed(key);
    TrimFixed(value);
  }

  lemma {:induction false} TokensMean(opts: seq<(string, string)>)
    requires forall i | 0 <= i < |opts| :: Writable(opts[i])
    ensures ValuesOf(OptionTokens(opts), true) == OptionMap(opts)
  {
    hide Writable, Entry;
    if opts != [] {
      var n := |opts| - 1;
      TokensMean(opts[..n]);
      assert OptionTokens(opts)[..n] == OptionTokens(opts[..n]);
      EntryOf(opts[n], true);
    }
  }

  lemma DistinctTokens(opts: seq<(string, string)>, key: string)
    requires AllWritable(opts)
    ensures !Repeated(OptionTokens(opts), true, key)
  {
    hide Writable, Entry;
    var toks := OptionTokens(opts);
    forall i: nat, j: nat ensures !Repeats(toks, true, i, j, key) {
      if i < j < |toks| {
        EntryOf(opts[i], true);
        EntryOf(opts[j], true);
      }
    }
  }

  /** Options written out and read back are the same options, none of them repeated. */
  lemma OptionsRoundTrip(opts: seq<(string, string)>, space: char)
    requires AllWritable(opts) && IsSpace(space)
    ensures ValuesOf(FieldsOf(OptionLine(opts, space), true), true) == OptionMap(opts)
    ensures forall i | 0 <= i < |opts| :: opts[i].0 in OptionMap(opts) && OptionMap(opts)[opts[i].0] == opts[i].1
    ensures forall key :: !Repeated(FieldsOf(OptionLine(opts, space), true), true, key)
  {
    hide Writable, FieldsOf, IsSpace, ValuesOf, Repeated;
    OptionLineFields(opts, space);
    TokensMean(opts);
    OptionMapHas(opts);
    forall key ensures !Repeated(OptionTokens(opts), true, key) {
      DistinctTokens(opts, key);
    }
  }

  lemma {:induction false} OptionMapHas(opts: seq<(string, string)>)
    requires forall i, j | 0 <= i < j < |opts| :: opts[i].0 != opts[j].0
    ensures forall i | 0 <= i < |opts| :: opts[i].0 in OptionMap(opts) && OptionMap(opts)[opts[i].0] == opts[i].1
  {
    if opts != [] {
      var n := |opts| - 1;
      OptionMapHas(opts[..n]);
      forall i | 0 <= i < n ensures opts[i].0 in OptionMap(opts) && OptionMap(opts)[opts[i].0] == opts[i].1 {
        assert opts[..n][i] == opts[i];
      }
    }
  }
}
