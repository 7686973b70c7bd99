/** internal/directive/lexer.go: the lexer of directive lines.
    Positions count characters where the program counts bytes. */
module DirectiveLexer {
  import opened Text

  const NUL := '\U{0}'

  /** IsKeyRune: what option, setting and variable names are made of. */
  predicate IsKeyRune(c: char) {
    c == '_' || 'A' <= c <= 'Z' || 'a' <= c <= 'z' || '0' <= c <= '9' || c == '-' || c == '.'
  }

  datatype NameState = InKey | InName | InText

  datatype Token = Token(val: string, start: nat, end: nat)

  /** The lexer inside one token. No quote, and no last character, is NUL. */
  datatype Lex = Lex(
    tok: string, last: char, quote: char, escaped: bool, begun: bool, start: nat,
    closers: seq<char>, inString: bool, strEsc: bool, state: NameState)
  {
    function Write(r: char): Lex {
      this.(tok := tok + [r], last := r)
    }

    predicate Opens(r: char) {
      if r == '[' || r == '{' then last == '='
      else r == '(' && state == InName && last != '='
    }

    predicate StartsValue() {
      tok == "" || last == '='
    }

    function Name(r: char): Lex {
      if state == InKey then (if r == '=' && tok != "" then this.(state := InName) else this)
      else if state == InName && !IsKeyRune(r) then this.(state := InText)
      else this
    }

    function Push(r: char): Lex {
      this.(closers := closers + (match r case '[' => "]" case '{' => "}" case '(' => ")" case _ => ""))
    }

    function Pop(r: char): Lex {
      if closers != "" && closers[|closers| - 1] == r then this.(closers := closers[..|closers| - 1]) else this
    }

    function Group(r: char): Lex {
      var l := Write(r);
      if inString then
        if strEsc then l.(strEsc := false)
        else if r == '\\' then l.(strEsc := true)
        else if r == '"' then l.(inString := false)
        else l
      else if r == '"' then l.(inString := true)
      else if r in {'[', '{', '('} then l.Push(r)
      else l.Pop(r)
    }

    /** Outside every bracket, escape and quote. */
    predicate Quiet() {
      closers == "" && !escaped && quote == NUL
    }

    /** The token ends in front of r. */
    predicate Ends(r: char) {
      Quiet() && IsSpace(r) && tok != ""
    }

    /** One character that does not end the token, at position at. */
    function Feed(escapes: bool, r: char, at: nat): Lex {
      var l := if !begun && !IsSpace(r) then this.(begun := true, start := at) else this;
      if closers != "" then l.Group(r)
      else if escaped then
        var plain := l.(escaped := false);
        (if quote != NUL && r != quote && r != '\\' then plain.Write('\\') else plain).Write(r)
      else if escapes && r == '\\' then l.(escaped := true)
      else if quote != NUL then (if r == quote then l.(quote := NUL) else l.Write(r))
      else if Opens(r) then l.Write(r).Push(r)
      else if IsQuote(r) && StartsValue() then l.(quote := r)
      else if IsSpace(r) then l
      else l.Name(r).Write(r)
    }

    /** What is left at the end of the input; a trailing backslash stays as it is. */
    function Text(): string {
      if escaped then tok + "\\" else tok
    }
  }

  const FRESH := Lex("", NUL, NUL, false, false, 0, "", false, false, InKey)

  function Finish(l: Lex, at: nat): seq<Token> {
    if l.Text() == "" then [] else [Token(l.Text(), l.start, at)]
  }

  /** The tokens of src, which starts at position at, when the lexer is in state l. */
  function Stream(src: string, escapes: bool, l: Lex, at: nat): seq<Token> {
    if src == "" then Finish(l, at)
    else if l.Ends(src[0]) then [Token(l.tok, l.start, at)] + Stream(src[1..], escapes, FRESH, at + 1)
    else Stream(src[1..], escapes, l.Feed(escapes, src[0], at), at + 1)
  }

  /** The state after src, and the tokens that ended inside it. */
  function After(src: string, escapes: bool, l: Lex, at: nat): Lex {
    if src == "" then l
    else if l.Ends(src[0]) then After(src[1..], escapes, FRESH, at + 1)
    else After(src[1..], escapes, l.Feed(escapes, src[0], at), at + 1)
  }

  function Emitted(src: string, escapes: bool, l: Lex, at: nat): seq<Token> {
    if src == "" then []
    else if l.Ends(src[0]) then [Token(l.tok, l.start, at)] + Emitted(src[1..], escapes, FRESH, at + 1)
    else Emitted(src[1..], escapes, l.Feed(escapes, src[0], at), at + 1)
  }

  function Values(ts: seq<Token>): (vs: seq<string>)
    ensures |vs| == |ts| && forall i | 0 <= i < |ts| :: vs[i] == ts[i].val
  {
    seq(|ts|, i requires 0 <= i < |ts| => ts[i].val)
  }

  /** Fields (escapes off) and fieldsEscaped (escapes on). */
  function FieldsOf(input: string, escapes: bool): seq<string> {
    Values(Stream(input, escapes, FRESH, 0))
  }

  function EndOf(input: string, escapes: bool): Lex {
    After(input, escapes, FRESH, 0)
  }

  // ---------------------------------------------------------------- the lexer object

  class Lexer {
    const src: string
    const escapes: bool
    var pos: nat
    var tok: string
    var last: char
    var quote: char
    var escaped: bool
    var begun: bool
    var start: nat
    var closers: string
    var inString: bool
    var strEsc: bool
    var state: NameState

    constructor (src: string, escapes: bool)
      ensures this.src == src && this.escapes == escapes && pos == 0
    {
      this.src, this.escapes := src, escapes;
      pos, tok, last, quote, escaped, begun, start := 0, "", NUL, NUL, false, false, 0;
      closers, inString, strEsc, state := "", false, false, InKey;
    }

    /** The start of a token that has not begun is left over from the one before. */
    function State(): Lex
      reads this
    {
      Lex(tok, last, quote, escaped, begun, if begun then start else 0, closers, inString, strEsc, state)
    }

    /** The tokens still to come. */
    ghost function Rest(): seq<Token>
      reads this
      requires pos <= |src|
    {
      Stream(src[pos..], escapes, FRESH, pos)
    }

    method Reset()
      modifies this
      ensures State() == FRESH && pos == old(pos)
    {
      tok := "";
      last := NUL;
      quote := NUL;
      escaped := false;
      begun := false;
      closers := "";
      inString := false;
      strEsc := false;
      state := InKey;
    }

    method Write(r: char)
      modifies this`tok, this`last
      ensures State() == old(State()).Write(r)
    {
      tok := tok + [r];
      last := r;
    }

    method Name(r: char)
      modifies this`state
      ensures State() == old(State()).Name(r)
    {
      if state == InKey {
        if r == '=' && |tok| > 0 {
          state := InName;
        }
      } else if state == InName && !IsKeyRune(r) {
        state := InText;
      }
    }

    method Push(r: char)
      modifies this`closers
      ensures State() == old(State()).Push(r)
    {
      match r
      case '[' => closers := closers + "]";
      case '{' => closers := closers + "}";
      case '(' => closers := closers + ")";
      case _ => closers := closers + "";
    }

    method Pop(r: char)
      modifies this`closers
      ensures State() == old(State()).Pop(r)
    {
      var n := |closers|;
      if n > 0 && closers[n - 1] == r {
        closers := closers[..n - 1];
      }
    }

    method Group(r: char)
      modifies this`tok, this`last, this`inString, this`strEsc, this`closers
      ensures State() == old(State()).Group(r)
    {
      Write(r);
      if inString {
        if strEsc {
          strEsc := false;
        } else if r == '\\' {
          strEsc := true;
        } else if r == '"' {
          inString := false;
        }
      } else if r == '"' {
        inString := true;
      } else if r == '[' || r == '{' || r == '(' {
        Push(r);
      } else {
        Pop(r);
      }
    }

    /** One round of the loop in next: a character that does not end the token. */
    method Take(r: char, i: nat)
      requires !State().Ends(r)
      modifies this`tok, this`last, this`quote, this`escaped, this`begun, this`start,
               this`closers, this`inString, this`strEsc, this`state
      ensures State() == old(State()).Feed(escapes, r, i)
    {
      if !begun && !IsSpace(r) {
        begun := true;
        start := i;
      }
      if |closers| > 0 {
        Group(r);
      } else if escaped {
        escaped := false;
        if quote != NUL && r != quote && r != '\\' {
          Write('\\');
        }
        Write(r);
      } else if escapes && r == '\\' {
        escaped := true;
      } else if quote != NUL {
        if r == quote {
          quote := NUL;
        } else {
          Write(r);
        }
      } else if State().Opens(r) {
        Write(r);
        Push(r);
      } else if IsQuote(r) && State().StartsValue() {
        quote := r;
      } else if !IsSpace(r) {
        Name(r);
        Write(r);
      }
    }

    /** The state at the end of the input, had the lexer run on from where it stands. */
    ghost function End(): Lex
      reads this
      requires pos <= |src|
    {
      After(src[pos..], escapes, FRESH, pos)
    }

    /** The next token. A token that white space ended left nothing open; the last one leaves its
        brackets and its quote in the fields. */
    method Next() returns (t: Token, ok: bool)
      requires pos <= |src|
      modifies this
      ensures pos <= |src|
      ensures ok <==> old(Rest()) != []
      ensures ok ==> t == old(Rest())[0] && Rest() == old(Rest())[1..] && old(pos) < pos
      ensures !ok ==> pos == |src| && old(End()).Text() == ""
      ensures ok ==> || (closers == "" && quote == NUL && End() == old(End()))
                     || (pos == |src| && closers == old(End()).closers && quote == old(End()).quote && old(End()).Text() != "")
    {
      hide Lex.Feed, IsSpace;
      Reset();
      var base := pos;
      ghost var all, end := Rest(), End();
      var i := base;
      while i < |src| && !State().Ends(src[i])
        invariant base <= i <= |src| && pos == base
        invariant Stream(src[i..], escapes, State(), i) == all
        invariant After(src[i..], escapes, State(), i) == end
      {
        assert src[i..][0] == src[i] && src[i..][1..] == src[i + 1..];
        Take(src[i], i);
        i := i + 1;
      }
      if i < |src| {
        assert src[i..][0] == src[i] && src[i..][1..] == src[i + 1..];
        pos := i + 1;
        return Token(tok, State().start, i), true;
      }
      assert src[i..] == "";
      pos := |src|;
      assert Rest() == [];
      if escaped {
        Write('\\');
      }
      if |tok| == 0 { return Token("", 0, 0), false; }
      return Token(tok, State().start, |src|), true;
    }

    method Collect() returns (fields: seq<string>)
      requires pos <= |src|
      modifies this
      ensures fields == Values(old(Rest()))
    {
      hide Stream, After;
      fields := [];
      ghost var all := Rest();
      var t, ok := Next();
      while ok
        invariant pos <= |src|
        invariant |fields| <= |all| && fields == Values(all[..|fields|])
        invariant ok <==> |fields| < |all|
        invariant ok ==> t == all[|fields|] && Rest() == all[|fields| + 1..]
        decreases |all| - |fields|
      {
        fields := fields + [t.val];
        t, ok := Next();
      }
    }
  }

  method Fields(input: string) returns (fields: seq<string>)
    ensures fields == FieldsOf(input, false)
  {
    var l := new Lexer(input, false);
    assert input[0..] == input;
    fields := l.Collect();
  }

  method FieldsEscaped(input: string) returns (fields: seq<string>)
    ensures fields == FieldsOf(input, true)
  {
    var l := new Lexer(input, true);
    assert input[0..] == input;
    fields := l.Collect();
  }
}
