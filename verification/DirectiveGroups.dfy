/** Bracketed values of directive lines (internal/directive/lexer.go): what stands in brackets, told by a grammar of its own. */
module DirectiveGroups {
  import opened Text
  import opened DirectiveLexer
  import opened DirectiveLaws
  import opened DirectiveWord
  import opened DirectiveOptions

  // ---------------------------------------------------------------- the grammar of bracketed text

  datatype Bracket = Square | Curly | Round {
    function Left(): char {
      match this case Square => '[' case Curly => '{' case Round => '('
    }

    function Right(): char {
      match this case Square => ']' case Curly => '}' case Round => ')'
    }
  }

  datatype StrChar = Raw(c: char) | Esc(c: char)

  /** What stands in a pair of brackets, piece after piece: a character, a JSON string, or a group with what
      stands in it. */
  datatype Inside =
    | Nothing
    | Plain(c: char, rest: Inside)
    | Str(chars: seq<StrChar>, rest: Inside)
    | Group(bracket: Bracket, inner: Inside, rest: Inside)
  {
    /** Inside b a plain character opens nothing, starts no string and does not close b; any other character
        may stand there, white space, backslashes and stray closing brackets included. */
    predicate Ok(b: Bracket) {
      match this
      case Nothing => true
      case Plain(c, rest) => c != '[' && c != '{' && c != '(' && c != '"' && c != b.Right() && rest.Ok(b)
      case Str(chars, rest) => (forall i | 0 <= i < |chars| :: chars[i].Raw? ==> chars[i].c != '"' && chars[i].c != '\\') && rest.Ok(b)
      case Group(inner, text, rest) => text.Ok(inner) && rest.Ok(b)
    }

    function Text(): string {
      match this
      case Nothing => ""
      case Plain(c, rest) => [c] + rest.Text()
      case Str(chars, rest) => ['"'] + (StrText(chars) + (['"'] + rest.Text()))
      case Group(b, inner, rest) => [b.Left()] + (inner.Text() + ([b.Right()] + rest.Text()))
    }
  }

  function StrText(chars: seq<StrChar>): string {
    if chars == [] then ""
    else if chars[0].Esc? then ['\\', chars[0].c] + StrText(chars[1..])
    else [chars[0].c] + StrText(chars[1..])
  }

  // ---------------------------------------------------------------- reading it

  /** The lexer is inside brackets, the innermost of which is b, and outside strings. */
  predicate Within(l: Lex, b: Bracket) {
    l.closers != "" && l.closers[|l.closers| - 1] == b.Right() && !l.inString && !l.strEsc
  }

  /** s goes into the token as it is, and changes nothing else that matters. */
  ghost predicate Swallows(s: string, esc: bool, l: Lex, m: Lex) {
    && (forall at :: After(s, esc, l, at) == m && Emitted(s, esc, l, at) == [])
    && m.tok == l.tok + s && m.closers == l.closers && m.quote == l.quote && m.escaped == l.escaped && m.begun == l.begun
    && m.start == l.start && m.state == l.state && m.inString == l.inString && m.strEsc == l.strEsc
  }

  lemma SwallowsNothing(esc: bool, l: Lex)
    ensures Swallows("", esc, l, l)
  {
    assert l.tok + "" == l.tok;
  }

  lemma SwallowsBoth(s: string, t: string, esc: bool, l: Lex, m: Lex, n: Lex)
    requires Swallows(s, esc, l, m) && Swallows(t, esc, m, n)
    ensures Swallows(s + t, esc, l, n)
  {
    hide After, Emitted;
    forall at ensures After(s + t, esc, l, at) == n && Emitted(s + t, esc, l, at) == [] {
      StreamSplits(s, t, esc, l, at);
    }
    assert l.tok + s + t == l.tok + (s + t);
  }

  lemma OneStep(c: char, esc: bool, l: Lex, at: nat)
    requires !l.Ends(c)
    ensures After([c], esc, l, at) == l.Feed(esc, c, at) && Emitted([c], esc, l, at) == []
  {
    hide Lex.Feed, Lex.Ends;
    assert [c][1..] == "";
  }

  /** One character inside brackets. */
  lemma GroupStep(c: char, esc: bool, l: Lex)
    requires l.closers != "" && l.begun
    ensures forall at :: After([c], esc, l, at) == l.Group(c) && Emitted([c], esc, l, at) == []
  {
    hide Lex.Group;
    forall at ensures After([c], esc, l, at) == l.Group(c) && Emitted([c], esc, l, at) == [] {
      OneStep(c, esc, l, at);
    }
  }

  lemma {:induction false} StringIsSwallowed(chars: seq<StrChar>, esc: bool, l: Lex) returns (m: Lex)
    requires forall i | 0 <= i < |chars| :: chars[i].Raw? ==> chars[i].c != '"' && chars[i].c != '\\'
    requires l.closers != "" && l.begun && l.inString && !l.strEsc
    ensures Swallows(StrText(chars), esc, l, m)
    decreases |chars|
  {
    hide Swallows, After, Emitted;
    if chars == [] {
      m := l;
      SwallowsNothing(esc, l);
    } else {
      var c := chars[0].c;
      var n := l.(tok := l.tok + (if chars[0].Esc? then ['\\', c] else [c]), last := c);
      if chars[0].Esc? {
        StringEscape(c, esc, l);
      } else {
        StringChar(c, esc, l);
      }
      m := StringIsSwallowed(chars[1..], esc, n);
      SwallowsBoth(if chars[0].Esc? then ['\\', c] else [c], StrText(chars[1..]), esc, l, n, m);
    }
  }

  lemma StringChar(c: char, esc: bool, l: Lex)
    requires c != '"' && c != '\\' && l.closers != "" && l.begun && l.inString && !l.strEsc
    ensures Swallows([c], esc, l, l.(tok := l.tok + [c], last := c))
  {
    hide After, Emitted;
    GroupStep(c, esc, l);
  }

  lemma StringEscape(c: char, esc: bool, l: Lex)
    requires l.closers != "" && l.begun && l.inString && !l.strEsc
    ensures Swallows(['\\', c], esc, l, l.(tok := l.tok + ['\\', c], last := c))
  {
    hide After, Emitted;
    var m := l.Group('\\');
    GroupStep('\\', esc, l);
    GroupStep(c, esc, m);
    forall at ensures After(['\\', c], esc, l, at) == m.Group(c) && Emitted(['\\', c], esc, l, at) == [] {
      StreamSplits(['\\'], [c], esc, l, at);
      assert ['\\'] + [c] == ['\\', c];
    }
    assert l.tok + ['\\'] + [c] == l.tok + ['\\', c];
  }

  lemma PlainIsSwallowed(c: char, b: Bracket, esc: bool, l: Lex)
    requires Within(l, b) && l.begun && c != '[' && c != '{' && c != '(' && c != '"' && c != b.Right()
    ensures Swallows([c], esc, l, l.(tok := l.tok + [c], last := c))
  {
    hide After, Emitted;
    GroupStep(c, esc, l);
  }

  /** A quote inside brackets starts a string, and ends it. */
  lemma QuoteInside(esc: bool, l: Lex)
    requires l.closers != "" && l.begun && !l.strEsc
    ensures forall at :: After(['"'], esc, l, at) == l.(tok := l.tok + ['"'], last := '"', inString := !l.inString) && Emitted(['"'], esc, l, at) == []
  {
    hide After, Emitted;
    GroupStep('"', esc, l);
  }

  /** An opening bracket inside brackets asks for its own closing one, which takes it off again. */
  lemma BracketInside(b: Bracket, esc: bool, l: Lex)
    requires l.closers != "" && l.begun && !l.inString
    ensures forall at :: After([b.Left()], esc, l, at) == l.(tok := l.tok + [b.Left()], last := b.Left(), closers := l.closers + [b.Right()])
                         && Emitted([b.Left()], esc, l, at) == []
  {
    hide After, Emitted;
    GroupStep(b.Left(), esc, l);
  }

  lemma BracketCloses(b: Bracket, esc: bool, l: Lex)
    requires Within(l, b) && l.begun
    ensures forall at :: After([b.Right()], esc, l, at) == l.(tok := l.tok + [b.Right()], last := b.Right(), closers := l.closers[..|l.closers| - 1])
                         && Emitted([b.Right()], esc, l, at) == []
  {
    hide After, Emitted;
    GroupStep(b.Right(), esc, l);
  }

  /** Two stretches in a row, and three. */
  lemma TwoInARow(s: string, z: string, esc: bool, l1: Lex, l2: Lex, l3: Lex)
    requires forall at :: After(s, esc, l1, at) == l2 && Emitted(s, esc, l1, at) == []
    requires forall at :: After(z, esc, l2, at) == l3 && Emitted(z, esc, l2, at) == []
    ensures forall at :: After(s + z, esc, l1, at) == l3 && Emitted(s + z, esc, l1, at) == []
  {
    hide After, Emitted;
    forall at: nat ensures After(s + z, esc, l1, at) == l3 && Emitted(s + z, esc, l1, at) == [] {
      StreamSplits(s, z, esc, l1, at);
    }
  }

  lemma InARow(a: string, s: string, z: string, esc: bool, l: Lex, l1: Lex, l2: Lex, l3: Lex)
    requires forall at :: After(a, esc, l, at) == l1 && Emitted(a, esc, l, at) == []
    requires forall at :: After(s, esc, l1, at) == l2 && Emitted(s, esc, l1, at) == []
    requires forall at :: After(z, esc, l2, at) == l3 && Emitted(z, esc, l2, at) == []
    ensures forall at :: After(a + (s + z), esc, l, at) == l3 && Emitted(a + (s + z), esc, l, at) == []
  {
    hide After, Emitted;
    TwoInARow(s, z, esc, l1, l2, l3);
    TwoInARow(a, s + z, esc, l, l1, l3);
  }

  /** What stands in a bracket leaves the lexer inside that bracket. */
  lemma {:induction false} InsideIsSwallowed(text: Inside, b: Bracket, esc: bool, l: Lex) returns (m: Lex)
    requires text.Ok(b) && Within(l, b) && l.begun
    ensures Swallows(text.Text(), esc, l, m)
    decreases text
  {
    hide Swallows, After, Emitted, StrText;
    match text
    case Nothing =>
      m := l;
      SwallowsNothing(esc, l);
    case Plain(c, rest) =>
      var n := l.(tok := l.tok + [c], last := c);
      PlainIsSwallowed(c, b, esc, l);
      m := InsideIsSwallowed(rest, b, esc, n);
      SwallowsBoth([c], rest.Text(), esc, l, n, m);
    case Str(chars, rest) =>
      var n := StringInsideIsSwallowed(chars, b, esc, l);
      m := InsideIsSwallowed(rest, b, esc, n);
      SwallowsBoth(['"'] + (StrText(chars) + ['"']), rest.Text(), esc, l, n, m);
      assert ['"'] + (StrText(chars) + ['"']) + rest.Text() == text.Text();
    case Group(inner, within, rest) =>
      var l1 := l.(tok := l.tok + [inner.Left()], last := inner.Left(), closers := l.closers + [inner.Right()]);
      BracketInside(inner, esc, l);
      var l2 := InsideIsSwallowed(within, inner, esc, l1);
      var n := GroupIsSwallowed(inner, within.Text(), esc, l, l1, l2);
      StillWithin(l, n, [inner.Left()] + (within.Text() + [inner.Right()]), esc, b);
      m := InsideIsSwallowed(rest, b, esc, n);
      SwallowsBoth([inner.Left()] + (within.Text() + [inner.Right()]), rest.Text(), esc, l, n, m);
      assert [inner.Left()] + (within.Text() + [inner.Right()]) + rest.Text() == text.Text();
  }

  lemma StillWithin(l: Lex, n: Lex, s: string, esc: bool, b: Bracket)
    requires Within(l, b) && l.begun && Swallows(s, esc, l, n)
    ensures Within(n, b) && n.begun
  {
    hide After, Emitted;
  }

  lemma StringInsideIsSwallowed(chars: seq<StrChar>, b: Bracket, esc: bool, l: Lex) returns (n: Lex)
    requires forall i | 0 <= i < |chars| :: chars[i].Raw? ==> chars[i].c != '"' && chars[i].c != '\\'
    requires Within(l, b) && l.begun
    ensures Swallows(['"'] + (StrText(chars) + ['"']), esc, l, n) && Within(n, b) && n.begun
  {
    hide After, Emitted, StrText;
    var l1 := l.(tok := l.tok + ['"'], last := '"', inString := true);
    QuoteInside(esc, l);
    var l2 := StringIsSwallowed(chars, esc, l1);
    n := l2.(tok := l2.tok + ['"'], last := '"', inString := false);
    QuoteInside(esc, l2);
    InARow(['"'], StrText(chars), ['"'], esc, l, l1, l2, n);
    assert l.tok + ['"'] + StrText(chars) + ['"'] == l.tok + (['"'] + (StrText(chars) + ['"']));
  }

  lemma GroupIsSwallowed(b: Bracket, s: string, esc: bool, l: Lex, l1: Lex, l2: Lex) returns (n: Lex)
    requires l.closers != "" && l.begun && !l.inString && !l.strEsc
    requires l1 == l.(tok := l.tok + [b.Left()], last := b.Left(), closers := l.closers + [b.Right()]) && Swallows(s, esc, l1, l2)
    ensures Swallows([b.Left()] + (s + [b.Right()]), esc, l, n)
  {
    hide After, Emitted;
    n := l2.(tok := l2.tok + [b.Right()], last := b.Right(), closers := l2.closers[..|l2.closers| - 1]);
    BracketInside(b, esc, l);
    BracketCloses(b, esc, l2);
    InARow([b.Left()], s, [b.Right()], esc, l, l1, l2, n);
    assert (l.closers + [b.Right()])[..|l.closers|] == l.closers;
    assert l.tok + [b.Left()] + s + [b.Right()] == l.tok + ([b.Left()] + (s + [b.Right()]));
  }

  // ---------------------------------------------------------------- bracketed values

  /** The text in front of a bracketed value: a key and the equals sign, and for a round bracket a name. */
  predicate Opening(b: Bracket, front: string) {
    exists k: nat ::
      && 0 < k < |front| && front[k] == '='
      && (forall i | 0 <= i < |front| && i != k :: IsKeyRune(front[i]))
      && if b == Round then k < |front| - 1 else k == |front| - 1
  }

  /** The state behind such a front. */
  predicate Fronted(l: Lex, front: string, k: nat) {
    && l.Quiet() && l.begun && l.start == 0 && l.tok == front && !l.inString && !l.strEsc
    && (front != "" ==> l.last == front[|front| - 1])
    && l.state == (if k < |front| then InName else InKey)
  }

  lemma {:induction false} FrontIsRead(front: string, k: nat, esc: bool)
    requires 0 < k && (k < |front| ==> front[k] == '=')
    requires forall i | 0 <= i < |front| && i != k :: IsKeyRune(front[i])
    ensures var l := FRESH.(begun := true);
            Fronted(After(front, esc, l, 0), front, k) && Emitted(front, esc, l, 0) == []
    decreases |front|
  {
    hide After, Emitted, Fronted, Lex.Feed, Lex.Ends, IsKeyRune;
    var l := FRESH.(begun := true);
    if front == "" {
      NothingRead(esc, l, k);
    } else {
      var n := |front| - 1;
      var m := After(front[..n], esc, l, 0);
      FrontIsRead(front[..n], k, esc);
      assert front == front[..n] + [front[n]];
      StreamSplits(front[..n], [front[n]], esc, l, 0);
      FrontStep(m, front[..n], front[n], k, esc, n);
      OneStep(front[n], esc, m, n);
    }
  }

  lemma NothingRead(esc: bool, l: Lex, k: nat)
    requires l == FRESH.(begun := true)
    ensures After("", esc, l, 0) == l && Emitted("", esc, l, 0) == [] && Fronted(l, "", k)
  {
  }

  lemma FrontStep(m: Lex, front: string, c: char, k: nat, esc: bool, at: nat)
    requires Fronted(m, front, k) && 0 < k && (if |front| == k then c == '=' else IsKeyRune(c))
    ensures !m.Ends(c) && Fronted(m.Feed(esc, c, at), front + [c], k)
  {
  }

  lemma BracketOpens(m: Lex, b: Bracket, front: string, k: nat, esc: bool, at: nat)
    requires Fronted(m, front, k) && 0 < k < |front| && front[k] == '='
    requires if b == Round then k < |front| - 1 && IsKeyRune(front[|front| - 1]) else k == |front| - 1
    ensures !m.Ends(b.Left()) && m.Feed(esc, b.Left(), at) == m.(tok := front + [b.Left()], last := b.Left(), closers := [b.Right()])
  {
  }

  lemma FrontBegins(text: string, esc: bool)
    requires text != "" && IsKeyRune(text[0])
    ensures var l := FRESH.(begun := true);
            After(text, esc, FRESH, 0) == After(text, esc, l, 0) && Emitted(text, esc, FRESH, 0) == Emitted(text, esc, l, 0)
  {
    var l := FRESH.(begun := true);
    assert FRESH.Feed(esc, text[0], 0) == l.Feed(esc, text[0], 0);
    hide Lex.Feed;
  }

  /** Up to the last bracket. */
  function Cut(b: Bracket, front: string, text: Inside): string {
    front + ([b.Left()] + text.Text())
  }

  function Whole(b: Bracket, front: string, text: Inside): string {
    Cut(b, front, text) + [b.Right()]
  }

  /** The state right behind the opening bracket. */
  lemma BracketIsRead(b: Bracket, front: string, esc: bool) returns (m: Lex)
    requires Opening(b, front)
    ensures After(front + [b.Left()], esc, FRESH, 0) == m && Emitted(front + [b.Left()], esc, FRESH, 0) == []
    ensures m.tok == front + [b.Left()] && m.closers == [b.Right()] && !m.escaped && m.quote == NUL && Within(m, b) && m.begun
  {
    hide After, Emitted, IsKeyRune, Lex.Feed, Lex.Ends;
    var k: nat :| 0 < k < |front| && front[k] == '='
      && (forall i | 0 <= i < |front| && i != k :: IsKeyRune(front[i]))
      && if b == Round then k < |front| - 1 else k == |front| - 1;
    FrontIsRead(front, k, esc);
    FrontBegins(front, esc);
    var m0 := After(front, esc, FRESH, 0);
    BracketOpens(m0, b, front, k, esc, |front|);
    OneStep(b.Left(), esc, m0, |front|);
    StreamSplits(front, [b.Left()], esc, FRESH, 0);
    m := m0.(tok := front + [b.Left()], last := b.Left(), closers := [b.Right()]);
  }

  lemma CutIsRead(b: Bracket, front: string, text: Inside, esc: bool) returns (m: Lex)
    requires Opening(b, front) && text.Ok(b)
    ensures m == EndOf(Cut(b, front, text), esc) && Emitted(Cut(b, front, text), esc, FRESH, 0) == []
    ensures m.tok == Cut(b, front, text) && m.closers == [b.Right()] && !m.escaped && m.quote == NUL && Within(m, b) && m.begun
  {
    hide After, Emitted, Opening, Inside.Text, Inside.Ok, Swallows, Bracket.Left, Bracket.Right;
    var l := BracketIsRead(b, front, esc);
    m := InsideIsSwallowed(text, b, esc, l);
    SwallowedAt(text.Text(), esc, l, m, |front| + 1);
    StreamSplits(front + [b.Left()], text.Text(), esc, FRESH, 0);
    assert front + [b.Left()] + text.Text() == Cut(b, front, text);
  }

  lemma SwallowedAt(s: string, esc: bool, l: Lex, m: Lex, at: nat)
    requires Swallows(s, esc, l, m)
    ensures After(s, esc, l, at) == m && Emitted(s, esc, l, at) == [] && m.tok == l.tok + s && m.closers == l.closers
    ensures m.quote == l.quote && m.escaped == l.escaped && m.begun == l.begun && m.inString == l.inString && m.strEsc == l.strEsc
  {
    hide After, Emitted;
  }

  /** key=[...], key={...} and key=name(...) are one field each, whatever stands in the brackets, and white
      space behind them starts the next field. */
  lemma GroupIsOneField(b: Bracket, front: string, text: Inside, esc: bool, c: char, rest: string)
    requires Opening(b, front) && text.Ok(b) && IsSpace(c)
    ensures var whole := Whole(b, front, text);
            && FieldsOf(whole, esc) == [whole] && EndOf(whole, esc).Quiet()
            && FieldsOf(whole + [c] + rest, esc) == [whole] + FieldsOf(rest, esc)
  {
    hide After, Emitted, Opening, Stream, IsSpace;
    var m := CutIsRead(b, front, text, esc);
    var cut, whole := Cut(b, front, text), Whole(b, front, text);
    var z := m.(tok := m.tok + [b.Right()], last := b.Right(), closers := m.closers[..|m.closers| - 1]);
    BracketCloses(b, esc, m);
    StreamSplits(cut, [b.Right()], esc, FRESH, 0);
    StreamEnds(whole, esc, FRESH, 0);
    assert After(whole, esc, FRESH, 0) == z && z.Text() == whole;
    FieldsCompose(whole, c, rest, esc);
  }

  /** Without its last bracket, that bracket is what is missing. */
  lemma CutGroupMissesItsBracket(b: Bracket, front: string, text: Inside)
    requires Opening(b, front) && text.Ok(b)
    ensures OpenDelimiter(Cut(b, front, text)) == match b case Square => ']' case Curly => '}' case Round => ')'
  {
    hide After, Opening;
    var m := CutIsRead(b, front, text, true);
  }

  /** Without the brackets of a group within a group, and of what is around it, the inner one comes first. */
  lemma CutGroupMissesTheInnerBracket(b: Bracket, front: string, before: Inside, inner: Bracket, text: Inside)
    requires Opening(b, front) && before.Ok(b) && text.Ok(inner)
    ensures OpenDelimiter(Cut(b, front, before) + ([inner.Left()] + text.Text())) == inner.Right()
  {
    hide After, Emitted, Opening, Inside.Text, Inside.Ok, Swallows;
    var l := CutIsRead(b, front, before, true);
    BracketInside(inner, true, l);
    var l1 := l.(tok := l.tok + [inner.Left()], last := inner.Left(), closers := l.closers + [inner.Right()]);
    var m := InsideIsSwallowed(text, inner, true, l1);
    var cut := Cut(b, front, before);
    StreamSplits(cut, [inner.Left()] + text.Text(), true, FRESH, 0);
    StreamSplits([inner.Left()], text.Text(), true, l, |cut|);
    SwallowedAt(text.Text(), true, l1, m, |cut| + 1);
  }

  /** A bracket opens nothing without a key in front, nor further into a value if it is square or curly, nor
      right behind the equals sign if it is round. */
  lemma BracketsElsewhereArePlain(b: Bracket, front: string, k: nat, esc: bool)
    requires front != "" && 0 < k && (k < |front| ==> front[k] == '=') && forall i | 0 <= i < |front| && i != k :: IsKeyRune(front[i])
    requires k >= |front| || (if b == Round then k == |front| - 1 else k < |front| - 1)
    ensures EndOf(front + [b.Left()], esc).Quiet()
  {
    hide After, Emitted, IsKeyRune, Lex.Feed, Lex.Ends;
    FrontIsRead(front, k, esc);
    FrontBegins(front, esc);
    var m := After(front, esc, FRESH, 0);
    EqualsIsNoKeyRune();
    BracketIsPlain(m, b, front, k, esc, |front|);
    OneStep(b.Left(), esc, m, |front|);
    StreamSplits(front, [b.Left()], esc, FRESH, 0);
  }

  lemma EqualsIsNoKeyRune()
    ensures !IsKeyRune('=')
  {
  }

  lemma BracketIsPlain(m: Lex, b: Bracket, front: string, k: nat, esc: bool, at: nat)
    requires Fronted(m, front, k) && front != "" && 0 < k && (k < |front| ==> front[k] == '=')
    requires forall i | 0 <= i < |front| && i != k :: front[i] != '='
    requires k >= |front| || (if b == Round then k == |front| - 1 else k < |front| - 1)
    ensures !m.Ends(b.Left()) && m.Feed(esc, b.Left(), at).Quiet()
  {
  }

  /** Nor does a round bracket once the value has a character no name has. */
  lemma RoundNeedsAName(front: string, c: char, esc: bool)
    requires Opening(Round, front) && !IsKeyRune(c) && !IsSpace(c) && c !in {'[', '{', '(', '\\', '='}
    ensures EndOf(front + [c, '('], esc).Quiet()
  {
    hide After, Emitted, IsKeyRune, IsSpace, Lex.Feed, Lex.Ends;
    var k: nat :| 0 < k < |front| && front[k] == '='
      && (forall i | 0 <= i < |front| && i != k :: IsKeyRune(front[i])) && k < |front| - 1;
    FrontIsRead(front, k, esc);
    FrontBegins(front, esc);
    var m := After(front, esc, FRESH, 0);
    EqualsIsNoKeyRune();
    CharThenRound(m, front, k, c, esc, |front|);
    OneStep(c, esc, m, |front|);
    var n := m.Feed(esc, c, |front|);
    OneStep('(', esc, n, |front| + 1);
    StreamSplits(front, [c, '('], esc, FRESH, 0);
    StreamSplits([c], ['('], esc, m, |front|);
    assert [c] + ['('] == [c, '('];
  }

  lemma CharThenRound(m: Lex, front: string, k: nat, c: char, esc: bool, at: nat)
    requires Fronted(m, front, k) && 0 < k < |front| - 1 && front[|front| - 1] != '='
    requires !IsKeyRune(c) && !IsSpace(c) && c !in {'[', '{', '(', '\\', '='}
    ensures !m.Ends(c) && !m.Feed(esc, c, at).Ends('(') && m.Feed(esc, c, at).Feed(esc, '(', at + 1).Quiet()
  {
  }
}
