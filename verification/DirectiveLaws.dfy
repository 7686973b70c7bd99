/** Laws of the directive lexer: where lexing may be split, and what a field's span says about it. */
module DirectiveLaws {
  import opened Text
  import opened DirectiveLexer

  // ---------------------------------------------------------------- splitting the input

  lemma {:induction false} StreamSplits(s: string, t: string, esc: bool, l: Lex, at: nat)
    ensures Stream(s + t, esc, l, at) == Emitted(s, esc, l, at) + Stream(t, esc, After(s, esc, l, at), at + |s|)
    ensures After(s + t, esc, l, at) == After(t, esc, After(s, esc, l, at), at + |s|)
    ensures Emitted(s + t, esc, l, at) == Emitted(s, esc, l, at) + Emitted(t, esc, After(s, esc, l, at), at + |s|)
  {
    hide Lex.Ends, Lex.Feed;
    if s == "" {
      assert s + t == t;
    } else {
      assert (s + t)[0] == s[0] && (s + t)[1..] == s[1..] + t;
      if l.Ends(s[0]) {
        StreamSplits(s[1..], t, esc, FRESH, at + 1);
      } else {
        StreamSplits(s[1..], t, esc, l.Feed(esc, s[0], at), at + 1);
      }
    }
  }

  lemma StreamEnds(s: string, esc: bool, l: Lex, at: nat)
    ensures Stream(s, esc, l, at) == Emitted(s, esc, l, at) + Finish(After(s, esc, l, at), at + |s|)
  {
    assert s + "" == s;
    StreamSplits(s, "", esc, l, at);
  }

  lemma ValuesConcat(a: seq<Token>, b: seq<Token>)
    ensures Values(a + b) == Values(a) + Values(b)
  {
  }

  /** States that differ only in where their token began. */
  predicate Alike(l: Lex, m: Lex) {
    l.(begun := m.begun, start := m.start) == m
  }

  /** The state with its token begun, if r begins it. */
  function Begin(l: Lex, r: char, at: nat): Lex {
    if !l.begun && !IsSpace(r) then l.(begun := true, start := at) else l
  }

  lemma BeginAlike(l: Lex, m: Lex, r: char, at: nat, at': nat)
    requires Alike(l, m)
    ensures Alike(Begin(l, r, at), Begin(m, r, at'))
  {
    hide IsSpace;
  }

  lemma FeedAlike(l: Lex, m: Lex, esc: bool, r: char, at: nat, at': nat)
    requires Alike(l, m)
    ensures Alike(l.Feed(esc, r, at), m.Feed(esc, r, at'))
  {
    hide Lex.Feed, Alike;
    SameParts(l, m);
    if l.closers != "" {
      FeedGroupAlike(l, m, esc, r, at, at');
    } else if l.escaped {
      FeedEscapedAlike(l, m, esc, r, at, at');
    } else {
      FeedPlainAlike(l, m, esc, r, at, at');
    }
  }

  lemma FeedGroupAlike(l: Lex, m: Lex, esc: bool, r: char, at: nat, at': nat)
    requires Alike(l, m) && l.closers != "" && m.closers != ""
    ensures Alike(l.Feed(esc, r, at), m.Feed(esc, r, at'))
  {
    hide IsSpace, Lex.Group, Alike;
    BeginAlike(l, m, r, at, at');
    GroupAlike(Begin(l, r, at), Begin(m, r, at'), r);
  }

  lemma FeedEscapedAlike(l: Lex, m: Lex, esc: bool, r: char, at: nat, at': nat)
    requires Alike(l, m) && l.closers == "" == m.closers && l.escaped && m.escaped
    ensures Alike(l.Feed(esc, r, at), m.Feed(esc, r, at'))
  {
    hide IsSpace, Lex.Write, Alike;
    SameParts(l, m);
    BeginAlike(l, m, r, at, at');
    SameParts(Begin(l, r, at), Begin(m, r, at'));
    var lp, mp := Begin(l, r, at).(escaped := false), Begin(m, r, at').(escaped := false);
    WriteAlike(lp, mp, r);
    WriteAlike(lp, mp, '\\');
    WriteAlike(lp.Write('\\'), mp.Write('\\'), r);
  }

  lemma FeedPlainAlike(l: Lex, m: Lex, esc: bool, r: char, at: nat, at': nat)
    requires Alike(l, m) && l.closers == "" == m.closers && !l.escaped && !m.escaped
    ensures Alike(l.Feed(esc, r, at), m.Feed(esc, r, at'))
  {
    hide IsSpace, IsKeyRune, Lex.Push, Lex.Name, Lex.Write, Alike;
    SameParts(l, m);
    var l0, m0 := Begin(l, r, at), Begin(m, r, at');
    BeginAlike(l, m, r, at, at');
    SameParts(l0, m0);
    WriteAlike(l0, m0, r);
    NameAlike(l0, m0, r);
    PushAlike(l0.Write(r), m0.Write(r), r);
    WriteAlike(l0.Name(r), m0.Name(r), r);
  }

  lemma EndsAlike(l: Lex, m: Lex, r: char)
    requires Alike(l, m)
    ensures l.Ends(r) == m.Ends(r) && l.tok == m.tok && l.Text() == m.Text()
  {
  }

  lemma SameParts(l: Lex, m: Lex)
    requires Alike(l, m)
    ensures l.tok == m.tok && l.last == m.last && l.quote == m.quote && l.escaped == m.escaped && l.closers == m.closers
            && l.inString == m.inString && l.strEsc == m.strEsc && l.state == m.state
    ensures forall e :: Alike(l.(escaped := e), m.(escaped := e))
    ensures forall q :: Alike(l.(quote := q), m.(quote := q))
  {
  }

  lemma WriteAlike(l: Lex, m: Lex, r: char)
    requires Alike(l, m)
    ensures Alike(l.Write(r), m.Write(r))
  {
  }

  lemma NameAlike(l: Lex, m: Lex, r: char)
    requires Alike(l, m)
    ensures Alike(l.Name(r), m.Name(r))
  {
  }

  lemma PushAlike(l: Lex, m: Lex, r: char)
    requires Alike(l, m)
    ensures Alike(l.Push(r), m.Push(r))
  {
  }

  lemma PopAlike(l: Lex, m: Lex, r: char)
    requires Alike(l, m)
    ensures Alike(l.Pop(r), m.Pop(r))
  {
  }

  lemma GroupAlike(l: Lex, m: Lex, r: char)
    requires Alike(l, m)
    ensures Alike(l.Group(r), m.Group(r))
  {
    hide Lex.Push, Lex.Pop;
    WriteAlike(l, m, r);
    PushAlike(l.Write(r), m.Write(r), r);
    PopAlike(l.Write(r), m.Write(r), r);
  }

  /** Values do not depend on positions. */
  lemma {:induction false} ValuesAlike(s: string, esc: bool, l: Lex, m: Lex, at: nat, at': nat)
    requires Alike(l, m)
    ensures Values(Stream(s, esc, l, at)) == Values(Stream(s, esc, m, at'))
    ensures Alike(After(s, esc, l, at), After(s, esc, m, at'))
  {
    hide Lex.Feed, Lex.Ends, Lex.Text;
    if s == "" {
      EndsAlike(l, m, ' ');
    } else {
      FeedAlike(l, m, esc, s[0], at, at');
      EndsAlike(l, m, s[0]);
      if l.Ends(s[0]) {
        ValuesAlike(s[1..], esc, FRESH, FRESH, at + 1, at' + 1);
      } else {
        ValuesAlike(s[1..], esc, l.Feed(esc, s[0], at), m.Feed(esc, s[0], at'), at + 1, at' + 1);
      }
    }
  }

  /** What holds of every state the lexer reaches. */
  predicate Sound(l: Lex) {
    && (l.tok == "" ==> l.last == NUL && l.state == InKey && l.closers == "")
    && (l.closers == "" ==> !l.inString) && (!l.inString ==> !l.strEsc)
    && (l.tok != "" || l.escaped || l.quote != NUL ==> l.begun)
    && (l.quote != NUL ==> IsQuote(l.quote))
  }

  lemma FeedSound(l: Lex, esc: bool, r: char, at: nat)
    requires Sound(l)
    ensures Sound(l.Feed(esc, r, at))
    ensures l.tok <= l.Feed(esc, r, at).tok
    ensures l.begun ==> l.Feed(esc, r, at).begun && l.Feed(esc, r, at).start == l.start
    ensures !l.begun && !IsSpace(r) ==> l.Feed(esc, r, at).begun && l.Feed(esc, r, at).start == at
    ensures !l.begun && IsSpace(r) ==> l.Feed(esc, r, at) == l
  {
  }

  lemma {:induction false} AfterSound(s: string, esc: bool, l: Lex, at: nat)
    requires Sound(l)
    ensures Sound(After(s, esc, l, at))
  {
    hide Lex.Feed, Lex.Ends, Sound;
    if s != "" {
      if l.Ends(s[0]) {
        assert Sound(FRESH) by { FreshSound(); }
        AfterSound(s[1..], esc, FRESH, at + 1);
      } else {
        FeedSound(l, esc, s[0], at);
        AfterSound(s[1..], esc, l.Feed(esc, s[0], at), at + 1);
      }
    }
  }

  lemma FreshSound()
    ensures Sound(FRESH)
  {
  }

  /** White space in a quiet state ends the token, if there is one, and starts over. */
  lemma SpaceStartsOver(l: Lex, c: char, t: string, esc: bool, at: nat)
    requires Sound(l) && l.Quiet() && IsSpace(c)
    ensures Values(Stream([c] + t, esc, l, at)) == Values(Finish(l, at)) + FieldsOf(t, esc)
  {
    assert ([c] + t)[0] == c && ([c] + t)[1..] == t;
    ValuesAlike(t, esc, FRESH, FRESH, at + 1, 0);
    if l.tok != "" {
      ValuesConcat([Token(l.tok, l.start, at)], Stream(t, esc, FRESH, at + 1));
    } else {
      BlankStays(l, c, esc, at);
      ValuesAlike(t, esc, l.Feed(esc, c, at), FRESH, at + 1, 0);
      assert Values(Finish(l, at)) + FieldsOf(t, esc) == FieldsOf(t, esc);
    }
  }

  lemma BlankStays(l: Lex, c: char, esc: bool, at: nat)
    requires Sound(l) && l.Quiet() && IsSpace(c) && l.tok == ""
    ensures Alike(l.Feed(esc, c, at), FRESH)
  {
  }

  /** If the lexer ends s outside every quote, bracket and escape, the fields of s and t stay
      apart when white space separates them. */
  lemma FieldsCompose(s: string, c: char, t: string, esc: bool)
    requires IsSpace(c) && EndOf(s, esc).Quiet()
    ensures FieldsOf(s + [c] + t, esc) == FieldsOf(s, esc) + FieldsOf(t, esc)
  {
    hide Lex.Quiet, Sound, Finish, Stream, Emitted, After, Values, IsSpace;
    var l := EndOf(s, esc);
    FreshSound();
    AfterSound(s, esc, FRESH, 0);
    assert s + [c] + t == s + ([c] + t);
    StreamSplits(s, [c] + t, esc, FRESH, 0);
    StreamEnds(s, esc, FRESH, 0);
    SpaceStartsOver(l, c, t, esc, |s|);
    ValuesConcat(Emitted(s, esc, FRESH, 0), Stream([c] + t, esc, l, |s|));
    ValuesConcat(Emitted(s, esc, FRESH, 0), Finish(l, |s|));
    Associate(Values(Emitted(s, esc, FRESH, 0)), Values(Finish(l, |s|)), FieldsOf(t, esc));
  }

  lemma Associate(a: seq<string>, b: seq<string>, c: seq<string>)
    ensures a + (b + c) == (a + b) + c
  {
  }

  lemma {:induction false} FirstTokenGrows(s: string, esc: bool, l: Lex, at: nat)
    requires Sound(l) && l.tok != ""
    ensures Stream(s, esc, l, at) != [] && l.tok <= Stream(s, esc, l, at)[0].val
  {
    hide Lex.Feed, Sound;
    if s != "" && !l.Ends(s[0]) {
      FeedSound(l, esc, s[0], at);
      FirstTokenGrows(s[1..], esc, l.Feed(esc, s[0], at), at + 1);
    }
  }

  /** In an open state white space goes into the token, or is escaped into it. */
  lemma SpaceGoesIn(l: Lex, c: char, esc: bool, at: nat)
    requires Sound(l) && !l.Quiet() && IsSpace(c) && l.Text() != ""
    ensures !l.Ends(c)
    ensures var m := l.Feed(esc, c, at);
            m.tok != "" && (|m.tok| > |l.Text()| || (|m.tok| == |l.Text()| && m.tok[|m.tok| - 1] != l.Text()[|m.tok| - 1]))
  {
  }

  lemma OpenHasText(l: Lex)
    requires Sound(l) && !l.Quiet() && (l.Text() != "" || l.quote == NUL)
    ensures l.Text() != ""
  {
  }

  lemma OneThen(c: char, t: string, esc: bool, l: Lex, at: nat)
    requires !l.Ends(c)
    ensures Stream([c] + t, esc, l, at) == Stream(t, esc, l.Feed(esc, c, at), at + 1)
  {
    assert ([c] + t)[0] == c && ([c] + t)[1..] == t;
  }

  /** And only then: unless s ends in a quote with nothing read inside, a token that ends s open
      swallows what follows. */
  lemma FieldsComposeExactly(s: string, c: char, t: string, esc: bool)
    requires IsSpace(c) && (EndOf(s, esc).Text() != "" || EndOf(s, esc).quote == NUL)
    ensures FieldsOf(s + [c] + t, esc) == FieldsOf(s, esc) + FieldsOf(t, esc) <==> EndOf(s, esc).Quiet()
  {
    hide Sound, Stream, Emitted, After, Lex.Feed, IsSpace;
    var l := EndOf(s, esc);
    FreshSound();
    AfterSound(s, esc, FRESH, 0);
    if l.Quiet() {
      FieldsCompose(s, c, t, esc);
    } else {
      var before := Emitted(s, esc, FRESH, 0);
      var m := l.Feed(esc, c, |s|);
      OpenHasText(l);
      SpaceGoesIn(l, c, esc, |s|);
      FeedSound(l, esc, c, |s|);
      FirstTokenGrows(t, esc, m, |s| + 1);
      assert s + [c] + t == s + ([c] + t);
      StreamSplits(s, [c] + t, esc, FRESH, 0);
      StreamEnds(s, esc, FRESH, 0);
      OneThen(c, t, esc, l, |s|);
      var whole := Stream(s + [c] + t, esc, FRESH, 0);
      assert whole[|before|] == Stream(t, esc, m, |s| + 1)[0];
      assert Stream(s, esc, FRESH, 0)[|before|].val == l.Text();
      assert FieldsOf(s + [c] + t, esc)[|before|] != (FieldsOf(s, esc) + FieldsOf(t, esc))[|before|];
    }
  }

  /** The one case left out: after a lone quote either can happen. */
  lemma LoneQuoteIsUndecided()
    ensures FieldsOf("\" ", true) != FieldsOf("\"", true) + FieldsOf("", true)
    ensures FieldsOf("\" \" \"", true) == FieldsOf("\"", true) + FieldsOf("\" \"", true)
  {
    var q := FRESH.(begun := true, quote := '"');
    var sp := q.(tok := " ", last := ' ');
    assert Stream("", true, q, 1) == [];
    assert "\""[1..] == "" && FRESH.Feed(true, '"', 0) == q;
    assert Stream("\"", true, FRESH, 0) == [];
    assert " "[1..] == "" && "\" "[1..] == " ";
    assert q.Feed(true, ' ', 1) == sp;
    assert Stream("", true, sp, 2) == [Token(" ", 0, 2)];
    assert Stream(" ", true, q, 1) == [Token(" ", 0, 2)];
    assert Stream("\" ", true, FRESH, 0) == [Token(" ", 0, 2)];
    assert FieldsOf("\" ", true) == [" "] && FieldsOf("\"", true) == [] && FieldsOf("", true) == [];
    LoneQuotes(q, sp);
  }

  lemma LoneQuotes(q: Lex, sp: Lex)
    requires q == FRESH.(begun := true, quote := '"') && sp == q.(tok := " ", last := ' ')
    ensures FieldsOf("\" \" \"", true) == FieldsOf("\" \"", true) == [" "]
  {
    var done := sp.(quote := NUL);
    assert sp.Feed(true, '"', 2) == done && q.Feed(true, ' ', 1) == sp && FRESH.Feed(true, '"', 0) == q;
    assert "\" \""[1..] == " \"" && " \""[1..] == "\"" && "\""[1..] == "";
    assert Stream("", true, done, 3) == [Token(" ", 0, 3)];
    assert Stream("\"", true, sp, 2) == [Token(" ", 0, 3)];
    assert Stream(" \"", true, q, 1) == [Token(" ", 0, 3)];
    assert Stream("\" \"", true, FRESH, 0) == [Token(" ", 0, 3)];
    var q4 := q.(start := 4);
    assert FRESH.Feed(true, '"', 4) == q4 && Stream("", true, q4, 5) == [];
    assert Stream("\"", true, FRESH, 4) == [];
    assert done.Ends(' ') && " \""[0] == ' ';
    assert Stream(" \"", true, done, 3) == [Token(" ", 0, 3)];
    assert "\" \" \""[1..] == " \" \"" && " \" \""[1..] == "\" \"" && "\" \""[0] == '"';
    assert Stream("\" \"", true, sp, 2) == [Token(" ", 0, 3)];
    assert Stream(" \" \"", true, q, 1) == [Token(" ", 0, 3)];
    assert Stream("\" \" \"", true, FRESH, 0) == [Token(" ", 0, 3)];
  }

  // ---------------------------------------------------------------- spans

  /** Spans lie in lo..hi, in order, apart from each other, and start at a visible character. */
  ghost predicate InOrder(ts: seq<Token>, lo: nat, hi: nat) {
    && (forall i | 0 <= i < |ts| :: lo <= ts[i].start < ts[i].end <= hi)
    && (forall i, j | 0 <= i < j < |ts| :: ts[i].end < ts[j].start)
  }

  lemma {:induction false} StreamInOrder(s: string, esc: bool, l: Lex, at: nat, lo: nat)
    requires Sound(l) && lo <= at && (l.begun ==> lo <= l.start < at)
    ensures InOrder(Stream(s, esc, l, at), lo, at + |s|)
  {
    hide Lex.Feed;
    if s != "" {
      if l.Ends(s[0]) {
        FreshSound();
        StreamInOrder(s[1..], esc, FRESH, at + 1, at + 1);
      } else {
        FeedSound(l, esc, s[0], at);
        StreamInOrder(s[1..], esc, l.Feed(esc, s[0], at), at + 1, lo);
      }
    }
  }

  /** The lexer is where lexing the token so far, alone, would have taken it. */
  ghost predicate Tracks(full: string, esc: bool, l: Lex, i: nat) {
    && i <= |full| && Sound(l)
    && (l.begun ==> l.start < i && After(full[l.start..i], esc, FRESH, l.start) == l
                    && Emitted(full[l.start..i], esc, FRESH, l.start) == [])
    && (!l.begun ==> l == FRESH)
  }

  lemma TracksOn(full: string, esc: bool, l: Lex, i: nat)
    requires Tracks(full, esc, l, i) && i < |full| && !l.Ends(full[i])
    ensures Tracks(full, esc, l.Feed(esc, full[i], i), i + 1)
  {
    var c := full[i];
    var m := l.Feed(esc, c, i);
    FeedSound(l, esc, c, i);
    hide Lex.Feed, Sound;
    if l.begun {
      assert full[l.start..i + 1] == full[l.start..i] + [c];
      StreamSplits(full[l.start..i], [c], esc, FRESH, l.start);
      OneMore(c, esc, l, i);
    } else if m.begun {
      assert full[m.start..i + 1] == [c];
      OneMore(c, esc, l, i);
    }
  }

  lemma OneMore(c: char, esc: bool, l: Lex, i: nat)
    requires !l.Ends(c)
    ensures After([c], esc, l, i) == l.Feed(esc, c, i) && Emitted([c], esc, l, i) == []
  {
    assert [c][1..] == "";
  }

  /** Lexing the text of a span alone gives that one field. */
  lemma {:induction false} SpansRelexFrom(full: string, esc: bool, l: Lex, i: nat, k: nat)
    requires Tracks(full, esc, l, i) && k < |Stream(full[i..], esc, l, i)|
    ensures var tok := Stream(full[i..], esc, l, i)[k];
            tok.start <= tok.end <= |full| && FieldsOf(full[tok.start..tok.end], esc) == [tok.val]
    decreases |full| - i
  {
    hide Lex.Feed, Sound;
    if i < |full| {
      assert full[i..][0] == full[i] && full[i..][1..] == full[i + 1..];
    }
    if i == |full| || (l.Ends(full[i]) && k == 0) {
      SpanRelexes(full, esc, l, i);
    } else if l.Ends(full[i]) {
      FreshSound();
      SpansRelexFrom(full, esc, FRESH, i + 1, k - 1);
    } else {
      TracksOn(full, esc, l, i);
      SpansRelexFrom(full, esc, l.Feed(esc, full[i], i), i + 1, k);
    }
  }

  lemma SpanRelexes(full: string, esc: bool, l: Lex, i: nat)
    requires Tracks(full, esc, l, i) && l.Text() != ""
    ensures l.start <= i && FieldsOf(full[l.start..i], esc) == [l.Text()]
  {
    hide Lex.Feed;
    assert l.begun;
    var text := full[l.start..i];
    StreamEnds(text, esc, FRESH, l.start);
    ValuesAlike(text, esc, FRESH, FRESH, l.start, 0);
    assert Stream(text, esc, FRESH, l.start) == Finish(l, i);
  }

  /** The spans of an input are in bounds, in order and disjoint, and each holds exactly its field. */
  lemma SpansAreLocal(input: string, esc: bool)
    ensures var ts := Stream(input, esc, FRESH, 0);
            && InOrder(ts, 0, |input|)
            && forall k | 0 <= k < |ts| :: FieldsOf(input[ts[k].start..ts[k].end], esc) == [ts[k].val]
  {
    FreshSound();
    StreamInOrder(input, esc, FRESH, 0, 0);
    var ts := Stream(input, esc, FRESH, 0);
    forall k | 0 <= k < |ts| ensures FieldsOf(input[ts[k].start..ts[k].end], esc) == [ts[k].val] {
      assert input[0..] == input;
      SpansRelexFrom(input, esc, FRESH, 0, k);
    }
  }
}
