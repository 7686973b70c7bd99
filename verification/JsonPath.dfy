/** internal/jsonpath/path.go: the validator and the resolver of JSON paths, written separately,
    and the grammar both follow. Characters stand for the bytes and runes of the program. */
module JsonPath {
  import opened Wrappers
  import opened Text
  import opened Json

  datatype Segment = Key(key: string) | Idx(index: int)

  predicate IsControl(c: char) {
    c < ' ' || '\U{7F}' <= c <= '\U{9F}'
  }

  predicate IsGap(c: char) { c == ' ' || c == '\t' || c == '\n' || c == '\r' }

  /** What a bare name may hold. */
  predicate IsNameChar(c: char) {
    c != '.' && c != '[' && c != ']' && !IsSpace(c) && !IsControl(c)
  }

  // ---------------------------------------------------------------- the parts of a bracket

  function Unescape(c: char): char {
    match c case 'n' => '\n' case 'r' => '\r' case 't' => '\t' case _ => c
  }

  /** strconv.Atoi on a 64-bit platform. */
  function Atoi(s: string): Option<int> {
    var digits := if s != "" && s[0] in {'+', '-'} then s[1..] else s;
    if digits == "" || !AllDigits(digits) then None
    else
      var v: int := if s[0] == '-' then 0 - NatOf(digits) else NatOf(digits);
      if -MAX_INT64 - 1 <= v <= MAX_INT64 then Some(v) else None
  }

  function GapEnd(path: string, i: nat): (j: nat)
    requires i <= |path|
    ensures i <= j <= |path| && (j < |path| ==> !IsGap(path[j])) && forall k | i <= k < j :: IsGap(path[k])
    decreases |path| - i
  {
    if i < |path| && IsGap(path[i]) then GapEnd(path, i + 1) else i
  }

  method SkipSpace(path: string, i: nat) returns (j: nat)
    requires i <= |path|
    ensures j == GapEnd(path, i)
  {
    j := i;
    while j < |path| && IsGap(path[j])
      invariant i <= j <= |path| && GapEnd(path, j) == GapEnd(path, i)
    {
      j := j + 1;
    }
  }

  /** readQuoted behind the quote: the key so far is buf, and the result is the whole key and the
      index of the closing bracket. */
  function QuotedFrom(path: string, quote: char, i: nat, buf: string): (r: Option<(string, nat)>)
    requires i <= |path|
    ensures r.Some? ==> i < r.value.1 < |path| && path[r.value.1] == ']'
    decreases |path| - i
  {
    if i >= |path| then None
    else if path[i] == '\\' then
      if i + 1 >= |path| then None else QuotedFrom(path, quote, i + 2, buf + [Unescape(path[i + 1])])
    else if path[i] == quote then
      var j := GapEnd(path, i + 1);
      if j >= |path| || path[j] != ']' then None else Some((buf, j))
    else QuotedFrom(path, quote, i + 1, buf + [path[i]])
  }

  method ReadQuoted(path: string, i: nat) returns (r: Option<(string, nat)>)
    requires i < |path|
    ensures r == QuotedFrom(path, path[i], i + 1, "")
  {
    var quote := path[i];
    var k, buf := i + 1, "";
    while k < |path|
      invariant i < k <= |path| && QuotedFrom(path, quote, k, buf) == QuotedFrom(path, quote, i + 1, "")
    {
      var c := path[k];
      if c == '\\' {
        if k + 1 >= |path| { return None; }
        k := k + 1;
        buf := buf + [Unescape(path[k])];
        k := k + 1;
      } else if c == quote {
        var j := SkipSpace(path, k + 1);
        if j >= |path| || path[j] != ']' { return None; }
        return Some((buf, j));
      } else {
        buf := buf + [c];
        k := k + 1;
      }
    }
    return None;
  }

  function BracketEnd(path: string, i: nat): (j: nat)
    requires i <= |path|
    ensures i <= j <= |path| && (j < |path| ==> path[j] == ']') && ']' !in path[i..j]
    decreases |path| - i
  {
    if i < |path| && path[i] != ']' then
      var j := BracketEnd(path, i + 1);
      assert path[i..j] == [path[i]] + path[i + 1..j];
      j
    else i
  }

  /** Stop: no closing bracket. Skip: what it closes is no index. */
  datatype IndexResult = Stop | Skip(next: nat) | Index(index: int, next: nat)

  function IndexAt(path: string, i: nat): IndexResult
    requires i <= |path|
  {
    var j := BracketEnd(path, i);
    if j >= |path| then Stop
    else match Atoi(Trim(path[i..j])) case None => Skip(j) case Some(n) => Index(n, j)
  }

  method ReadIndex(path: string, i: nat) returns (r: IndexResult)
    requires i <= |path|
    ensures r == IndexAt(path, i)
  {
    var j := i;
    while j < |path| && path[j] != ']'
      invariant i <= j <= |path| && BracketEnd(path, j) == BracketEnd(path, i)
    {
      j := j + 1;
    }
    if j >= |path| { return Stop; }
    var n := Atoi(Trim(path[i..j]));
    if n.None? { return Skip(j); }
    return Index(n.value, j);
  }

  // ---------------------------------------------------------------- the validator

  /** validBracket: where a valid bracket that opens at i ends. */
  function BracketNext(path: string, i: nat): (r: Option<nat>)
    requires i < |path|
    ensures r.Some? ==> i + 1 < r.value <= |path|
  {
    if i + 1 >= |path| then None
    else if IsQuote(path[i + 1]) then
      match QuotedFrom(path, path[i + 1], i + 2, "") case None => None case Some(q) => Some(q.1 + 1)
    else
      match IndexAt(path, i + 1)
      case Index(n, next) => if n >= 0 then Some(next + 1) else None
      case _ => None
  }

  method ValidBracket(path: string, start: nat) returns (r: Option<nat>)
    requires start < |path|
    ensures r == BracketNext(path, start)
  {
    if start + 1 >= |path| { return None; }
    var i := start + 1;
    if IsQuote(path[i]) {
      var q := ReadQuoted(path, i);
      if q.None? { return None; }
      return Some(q.value.1 + 1);
    }
    var res := ReadIndex(path, i);
    if res.Index? && res.index >= 0 { return Some(res.next + 1); }
    return None;
  }

  /** Where a bare name ends, if it holds nothing it may not hold. */
  function NameEnd(path: string, i: nat): (r: Option<nat>)
    requires i <= |path|
    ensures r.Some? ==> i <= r.value <= |path|
    decreases |path| - i
  {
    if i >= |path| || path[i] == '.' || path[i] == '[' then Some(i)
    else if !IsNameChar(path[i]) then None
    else NameEnd(path, i + 1)
  }

  method ValidName(path: string, start: nat) returns (r: Option<nat>)
    requires start <= |path|
    ensures r == NameEnd(path, start)
    ensures r.Some? && start < |path| && path[start] != '.' && path[start] != '[' ==> r.value > start
  {
    hide IsNameChar;
    var i := start;
    while i < |path| && path[i] != '.' && path[i] != '['
      invariant start <= i <= |path| && NameEnd(path, i) == NameEnd(path, start)
    {
      if !IsNameChar(path[i]) { return None; }
      i := i + 1;
    }
    return Some(i);
  }

  predicate ValidFrom(path: string, i: nat, needKey: bool)
    requires i <= |path|
    decreases |path| - i
  {
    if i >= |path| then !needKey
    else if path[i] == '.' then !needKey && ValidFrom(path, i + 1, true)
    else if path[i] == '[' then
      (match BracketNext(path, i) case None => false case Some(next) => ValidFrom(path, next, false))
    else
      && needKey
      && match NameEnd(path, i)
         case None => false
         case Some(j) => j > i && ValidFrom(path, j, false)
  }

  /** What the root sign leaves of a path: the whole value, nothing valid, or a path proper. */
  datatype Root = Whole | Bad | Rest(p: string)

  function RootOf(path: string): Root {
    var p := Trim(path);
    if p == "" || p == "$" then Whole
    else if p[0] != '$' then Rest(p)
    else if p[1] == '.' then (if |p| == 2 then Bad else Rest(p[2..]))
    else if p[1] == '[' then Rest(p[1..])
    else Bad
  }

  predicate IsValid(path: string) {
    match RootOf(path) case Whole => true case Bad => false case Rest(p) => ValidFrom(p, 0, true)
  }

  method Valid(path: string) returns (valid: bool)
    ensures valid == IsValid(path)
  {
    var p := Trim(path);
    if p == "" { return true; }
    if p[0] == '$' {
      p := p[1..];
      if p == "" { return true; }
      if p[0] == '.' {
        p := p[1..];
        if p == "" { return false; }
        assert p == Trim(path)[2..];
      } else if p[0] != '[' {
        return false;
      }
    }
    hide Trim, NameEnd, BracketNext;
    var needKey, i := true, 0;
    while i < |p|
      invariant 0 <= i <= |p| && ValidFrom(p, i, needKey) == ValidFrom(p, 0, true)
    {
      if p[i] == '.' {
        if needKey { return false; }
        needKey := true;
        i := i + 1;
      } else if p[i] == '[' {
        var next := ValidBracket(p, i);
        if next.None? { return false; }
        needKey := false;
        i := next.value;
      } else {
        if !needKey { return false; }
        var end := ValidName(p, i);
        if end.None? { return false; }
        i := end.value;
        needKey := false;
      }
    }
    return !needKey;
  }

  // ---------------------------------------------------------------- the resolver

  datatype SegmentResult = NoSegment | SkipTo(next: nat) | Found(segment: Segment, next: nat)

  function SegmentAt(path: string, i: nat): (r: SegmentResult)
    requires i < |path|
    ensures !r.NoSegment? ==> i < r.next < |path|
  {
    if i + 1 >= |path| then NoSegment
    else if IsQuote(path[i + 1]) then
      match QuotedFrom(path, path[i + 1], i + 2, "")
      case None => NoSegment
      case Some(q) => Found(Key(q.0), q.1)
    else
      match IndexAt(path, i + 1)
      case Stop => NoSegment
      case Skip(next) => SkipTo(next)
      case Index(n, next) => Found(Idx(n), next)
  }

  method ReadSegment(path: string, i: nat) returns (r: SegmentResult)
    requires i < |path|
    ensures r == SegmentAt(path, i)
  {
    if i + 1 >= |path| { return NoSegment; }
    if IsQuote(path[i + 1]) {
      var q := ReadQuoted(path, i + 1);
      if q.None? { return NoSegment; }
      return Found(Key(q.value.0), q.value.1);
    }
    var res := ReadIndex(path, i + 1);
    match res
    case Stop => return NoSegment;
    case Skip(next) => return SkipTo(next);
    case Index(n, next) => return Found(Idx(n), next);
  }

  function AddKey(out: seq<Segment>, buf: string): seq<Segment> {
    if buf == "" then out else out + [Key(buf)]
  }

  function SplitFrom(path: string, i: nat, buf: string, out: seq<Segment>): seq<Segment>
    requires i <= |path|
    decreases |path| - i
  {
    if i >= |path| then AddKey(out, buf)
    else if path[i] == '.' then SplitFrom(path, i + 1, "", AddKey(out, buf))
    else if path[i] == '[' then
      match SegmentAt(path, i)
      case NoSegment => AddKey(out, buf)
      case SkipTo(next) => SplitFrom(path, next + 1, "", AddKey(out, buf))
      case Found(s, next) => SplitFrom(path, next + 1, "", AddKey(out, buf) + [s])
    else SplitFrom(path, i + 1, buf + [path[i]], out)
  }

  method Split(path: string) returns (out: seq<Segment>)
    ensures out == SplitFrom(path, 0, "", [])
  {
    out := [];
    var buf, i := "", 0;
    while i < |path|
      invariant 0 <= i <= |path| && SplitFrom(path, i, buf, out) == SplitFrom(path, 0, "", [])
      decreases |path| - i
    {
      if path[i] == '.' {
        if buf != "" { out := out + [Key(buf)]; }
        buf := "";
        i := i + 1;
      } else if path[i] == '[' {
        if buf != "" { out := out + [Key(buf)]; }
        buf := "";
        var res := ReadSegment(path, i);
        if res.NoSegment? { return out; }
        if res.Found? {
          out := out + [res.segment];
        }
        i := res.next + 1;
      } else {
        buf := buf + [path[i]];
        i := i + 1;
      }
    }
    if buf != "" { out := out + [Key(buf)]; }
  }

  /** One lookup. */
  function Lookup(v: JSON, s: Segment): Option<JSON> {
    match s
    case Key(k) => if v.Obj? && k in v.fields then Some(v.fields[k]) else None
    case Idx(n) => if v.Arr? && 0 <= n < |v.items| then Some(v.items[n]) else None
  }

  function Resolve(v: JSON, segments: seq<Segment>): Option<JSON> {
    if segments == [] then Some(v)
    else match Lookup(v, segments[0]) case None => None case Some(w) => Resolve(w, segments[1..])
  }

  /** The path Get splits: it takes off the root sign and a dot, and asks no more. */
  function Stripped(path: string): string {
    var p := Trim(path);
    if p != "" && p[0] == '$' then (if |p| > 1 && p[1] == '.' then p[2..] else p[1..]) else p
  }

  /** What Get returns. */
  function GetOf(v: JSON, path: string): Option<JSON> {
    Resolve(v, SplitFrom(Stripped(path), 0, "", []))
  }

  method Get(v: JSON, path: string) returns (r: Option<JSON>)
    ensures r == GetOf(v, path)
  {
    var p := Trim(path);
    if p == "" { return Some(v); }
    if p[0] == '$' {
      p := p[1..];
      if p != "" && p[0] == '.' {
        p := p[1..];
      }
    }
    assert p == Stripped(path);
    var segments := Split(p);
    var cur := v;
    for i := 0 to |segments|
      invariant Resolve(cur, segments[i..]) == Resolve(v, segments)
    {
      var s := segments[i];
      assert segments[i..][0] == s && segments[i..][1..] == segments[i + 1..];
      match s
      case Idx(n) =>
        if !cur.Arr? || n < 0 || n >= |cur.items| { return None; }
        cur := cur.items[n];
      case Key(k) =>
        if !cur.Obj? || k !in cur.fields { return None; }
        cur := cur.fields[k];
    }
    return Some(cur);
  }

  // ---------------------------------------------------------------- the grammar

  datatype Ch = Raw(c: char) | Esc(c: char)

  /** A step of a path as written: a bare name, a quoted key, or an index. */
  datatype Step = Name(text: string) | Quoted(quote: char, chars: seq<Ch>, gap: string) | At(text: string) {
    predicate Ok() {
      match this
      case Name(text) => text != "" && forall i | 0 <= i < |text| :: IsNameChar(text[i])
      case Quoted(quote, chars, gap) =>
        && IsQuote(quote) && (forall i | 0 <= i < |gap| :: IsGap(gap[i]))
        && forall i | 0 <= i < |chars| :: chars[i].Raw? ==> chars[i].c != quote && chars[i].c != '\\'
      case At(text) =>
        && ']' !in text && (text != "" ==> !IsQuote(text[0]))
        && Atoi(Trim(text)).Some? && Atoi(Trim(text)).value >= 0
    }

    function Text(): string {
      match this
      case Name(text) => text
      case Quoted(quote, chars, gap) => "[" + ([quote] + (CharsText(chars) + ([quote] + (gap + "]"))))
      case At(text) => "[" + (text + "]")
    }

    function Meaning(): Segment
      requires Ok()
    {
      match this
      case Name(text) => Key(text)
      case Quoted(_, chars, _) => Key(CharsKey(chars))
      case At(text) => Idx(Atoi(Trim(text)).value)
    }
  }

  function CharsText(chars: seq<Ch>): string {
    if chars == [] then ""
    else (if chars[0].Esc? then ['\\', chars[0].c] else [chars[0].c]) + CharsText(chars[1..])
  }

  function CharsKey(chars: seq<Ch>): string {
    if chars == [] then ""
    else [if chars[0].Esc? then Unescape(chars[0].c) else chars[0].c] + CharsKey(chars[1..])
  }

  /** A step, with a dot in front or not. */
  datatype Item = Item(dot: bool, step: Step)

  /** Where a step has to follow, there is one and it has no dot of its own; anywhere else a bare
      name needs a dot. */
  predicate ItemsOk(items: seq<Item>, needKey: bool) {
    if items == [] then !needKey
    else
      && items[0].step.Ok() && ItemsOk(items[1..], false)
      && (if needKey then !items[0].dot else items[0].step.Name? ==> items[0].dot)
  }

  function ItemText(item: Item): string {
    (if item.dot then "." else "") + item.step.Text()
  }

  function ItemsText(items: seq<Item>): string {
    if items == [] then "" else ItemText(items[0]) + ItemsText(items[1..])
  }

  function Meanings(items: seq<Item>): seq<Segment>
    requires forall i | 0 <= i < |items| :: items[i].step.Ok()
  {
    if items == [] then [] else [items[0].step.Meaning()] + Meanings(items[1..])
  }

  lemma {:induction false} ItemsAreOk(items: seq<Item>, needKey: bool)
    requires ItemsOk(items, needKey)
    ensures forall i | 0 <= i < |items| :: items[i].step.Ok()
  {
    hide Step.Ok;
    if items != [] {
      ItemsAreOk(items[1..], false);
    }
  }

  // ---------------------------------------------------------------- steps are read back

  /** text stands in path at index i. */
  predicate Here(path: string, i: nat, text: string) {
    i + |text| <= |path| && path[i..i + |text|] == text
  }

  lemma HereParts(path: string, i: nat, a: string, b: string)
    ensures Here(path, i, a + b) <==> Here(path, i, a) && Here(path, i + |a|, b)
  {
    if Here(path, i, a + b) {
      var whole := path[i..i + |a + b|];
      assert path[i..i + |a|] == whole[..|a|] && path[i + |a|..i + |a| + |b|] == whole[|a|..];
    }
    if Here(path, i, a) && Here(path, i + |a|, b) {
      assert path[i..i + |a + b|] == path[i..i + |a|] + path[i + |a|..i + |a| + |b|];
    }
  }

  lemma HereChar(path: string, i: nat, c: char)
    ensures Here(path, i, [c]) <==> i < |path| && path[i] == c
  {
  }

  lemma HereTail(path: string, i: nat, text: string)
    requires text != ""
    ensures Here(path, i, text) <==> i < |path| && path[i] == text[0] && Here(path, i + 1, text[1..])
  {
    assert text == [text[0]] + text[1..];
    HereParts(path, i, [text[0]], text[1..]);
    HereChar(path, i, text[0]);
  }

  lemma HereNothing(path: string, i: nat)
    requires i <= |path|
    ensures Here(path, i, "")
  {
  }

  lemma {:induction false} GapReads(path: string, i: nat, gap: string)
    requires Here(path, i, gap) && (forall k | 0 <= k < |gap| :: IsGap(gap[k]))
    requires i + |gap| < |path| ==> !IsGap(path[i + |gap|])
    ensures GapEnd(path, i) == i + |gap|
    decreases |gap|
  {
    if gap != "" {
      HereTail(path, i, gap);
      GapReads(path, i + 1, gap[1..]);
    }
  }

  /** What ends a quoted key: the quote, a gap and the bracket. */
  ghost predicate Closes(path: string, i: nat, quote: char, gap: string) {
    && i < |path| && path[i] == quote && Here(path, i + 1, gap)
    && i + 1 + |gap| < |path| && path[i + 1 + |gap|] == ']'
  }

  lemma {:induction false} QuotedReads(path: string, quote: char, i: nat, chars: seq<Ch>, gap: string, buf: string)
    requires Here(path, i, CharsText(chars)) && Closes(path, i + |CharsText(chars)|, quote, gap)
    requires Quoted(quote, chars, gap).Ok()
    ensures QuotedFrom(path, quote, i, buf) == Some((buf + CharsKey(chars), i + |CharsText(chars)| + 1 + |gap|))
    decreases |chars|
  {
    hide QuotedFrom, GapEnd, CharsText, CharsKey, Here;
    if chars == [] {
      NoChars();
      GapReads(path, i + 1, gap);
      QuoteCloses(path, quote, i, buf);
      assert buf + "" == buf;
    } else {
      var here, key := OneChar(chars);
      HereParts(path, i, here, CharsText(chars[1..]));
      HereTail(path, i, here);
      HereChar(path, i + 1, chars[0].c);
      QuoteGoesOn(path, quote, i, chars[0], buf);
      QuotedReads(path, quote, i + |here|, chars[1..], gap, buf + key);
      assert buf + key + CharsKey(chars[1..]) == buf + CharsKey(chars);
    }
  }

  lemma NoChars()
    ensures CharsText([]) == "" && CharsKey([]) == ""
  {
  }

  lemma OneChar(chars: seq<Ch>) returns (here: string, key: string)
    requires chars != []
    ensures here == if chars[0].Esc? then ['\\', chars[0].c] else [chars[0].c]
    ensures here[1..] == if chars[0].Esc? then [chars[0].c] else ""
    ensures key == [if chars[0].Esc? then Unescape(chars[0].c) else chars[0].c]
    ensures CharsText(chars) == here + CharsText(chars[1..]) && CharsKey(chars) == key + CharsKey(chars[1..])
  {
    here, key := if chars[0].Esc? then ['\\', chars[0].c] else [chars[0].c],
                 [if chars[0].Esc? then Unescape(chars[0].c) else chars[0].c];
  }

  lemma QuoteCloses(path: string, quote: char, i: nat, buf: string)
    requires i < |path| && path[i] == quote && quote != '\\'
    requires GapEnd(path, i + 1) < |path| && path[GapEnd(path, i + 1)] == ']'
    ensures QuotedFrom(path, quote, i, buf) == Some((buf, GapEnd(path, i + 1)))
  {
  }

  lemma QuoteGoesOn(path: string, quote: char, i: nat, ch: Ch, buf: string)
    requires ch.Raw? ==> i < |path| && path[i] == ch.c && ch.c != quote && ch.c != '\\'
    requires ch.Esc? ==> i + 1 < |path| && path[i] == '\\' && path[i + 1] == ch.c
    ensures QuotedFrom(path, quote, i, buf)
            == if ch.Esc? then QuotedFrom(path, quote, i + 2, buf + [Unescape(ch.c)]) else QuotedFrom(path, quote, i + 1, buf + [ch.c])
  {
  }

  lemma {:induction false} BracketReads(path: string, i: nat, text: string)
    requires Here(path, i, text) && ']' !in text && i + |text| < |path| && path[i + |text|] == ']'
    ensures BracketEnd(path, i) == i + |text|
    decreases |text|
  {
    if text != "" {
      HereTail(path, i, text);
      BracketReads(path, i + 1, text[1..]);
    }
  }

  /** A quoted step stands in a path piece by piece. */
  lemma QuotedStands(path: string, i: nat, quote: char, chars: seq<Ch>, gap: string)
    ensures Here(path, i, Quoted(quote, chars, gap).Text()) <==>
            && i < |path| && path[i] == '[' && i + 1 < |path| && path[i + 1] == quote
            && Here(path, i + 2, CharsText(chars)) && Closes(path, i + 2 + |CharsText(chars)|, quote, gap)
    ensures |Quoted(quote, chars, gap).Text()| == 4 + |CharsText(chars)| + |gap|
  {
    hide Here, CharsText, Closes;
    var t := CharsText(chars);
    var j := i + 2 + |t|;
    HereParts(path, i, "[", [quote] + (t + ([quote] + (gap + "]"))));
    HereParts(path, i + 1, [quote], t + ([quote] + (gap + "]")));
    HereParts(path, i + 2, t, [quote] + (gap + "]"));
    ClosingStands(path, j, quote, gap);
    HereChar(path, i, '[');
    HereChar(path, i + 1, quote);
  }

  lemma ClosingStands(path: string, j: nat, quote: char, gap: string)
    ensures Here(path, j, [quote] + (gap + "]")) <==> Closes(path, j, quote, gap)
  {
    hide Here;
    HereParts(path, j, [quote], gap + "]");
    HereParts(path, j + 1, gap, "]");
    HereChar(path, j, quote);
    HereChar(path, j + 1 + |gap|, ']');
  }

  lemma AtStands(path: string, i: nat, text: string)
    ensures Here(path, i, At(text).Text()) <==>
            && i < |path| && path[i] == '[' && Here(path, i + 1, text)
            && i + 1 + |text| < |path| && path[i + 1 + |text|] == ']'
    ensures |At(text).Text()| == 2 + |text|
  {
    hide Here;
    HereParts(path, i, "[", text + "]");
    HereParts(path, i + 1, text, "]");
    HereChar(path, i, '[');
    HereChar(path, i + 1 + |text|, ']');
  }

  /** Both readers of a bracket rest on the same scans. */
  lemma QuotedBracket(path: string, i: nat)
    requires i + 1 < |path| && IsQuote(path[i + 1])
    ensures var q := QuotedFrom(path, path[i + 1], i + 2, "");
            && BracketNext(path, i) == (if q.Some? then Some(q.value.1 + 1) else None)
            && SegmentAt(path, i) == (if q.Some? then Found(Key(q.value.0), q.value.1) else NoSegment)
  {
  }

  lemma IndexBracket(path: string, i: nat)
    requires i + 1 < |path| && !IsQuote(path[i + 1])
    ensures match IndexAt(path, i + 1)
            case Index(n, next) => BracketNext(path, i) == (if n >= 0 then Some(next + 1) else None)
                                   && SegmentAt(path, i) == Found(Idx(n), next)
            case _ => BracketNext(path, i) == None
  {
  }

  /** Both readers take the bracket at i for the segment s, and go on at next. */
  ghost predicate BracketRead(path: string, i: nat, s: Segment, next: nat) {
    && i + 1 < next <= |path| && path[i] == '['
    && BracketNext(path, i) == Some(next) && SegmentAt(path, i) == Found(s, next - 1)
  }

  lemma QuotedStepReads(path: string, i: nat, quote: char, chars: seq<Ch>, gap: string)
    requires Quoted(quote, chars, gap).Ok()
    requires i < |path| && path[i] == '[' && i + 1 < |path| && path[i + 1] == quote
    requires Here(path, i + 2, CharsText(chars)) && Closes(path, i + 2 + |CharsText(chars)|, quote, gap)
    ensures BracketRead(path, i, Key(CharsKey(chars)), i + 4 + |CharsText(chars)| + |gap|)
  {
    hide BracketNext, SegmentAt, QuotedFrom, CharsText, CharsKey, Here;
    QuotedReads(path, quote, i + 2, chars, gap, "");
    QuotedBracket(path, i);
    assert "" + CharsKey(chars) == CharsKey(chars);
  }

  lemma IndexStepReads(path: string, i: nat, text: string, n: int)
    requires ']' !in text && (text != "" ==> !IsQuote(text[0])) && Atoi(Trim(text)) == Some(n) && n >= 0
    requires i < |path| && path[i] == '[' && Here(path, i + 1, text)
    requires i + 1 + |text| < |path| && path[i + 1 + |text|] == ']'
    ensures BracketRead(path, i, Idx(n), i + 2 + |text|)
  {
    hide BracketNext, SegmentAt, BracketEnd, Atoi, Trim, IndexAt;
    BracketReads(path, i + 1, text);
    assert path[i + 1] == if text == "" then ']' else text[0] by {
      if text != "" {
        HereTail(path, i + 1, text);
      }
    }
    assert path[i + 1..i + 1 + |text|] == text;
    IndexFound(path, i + 1, i + 1 + |text|, n);
    IndexBracket(path, i);
  }

  lemma IndexFound(path: string, i: nat, j: nat, n: int)
    requires i <= |path| && BracketEnd(path, i) == j < |path| && Atoi(Trim(path[i..j])) == Some(n)
    ensures IndexAt(path, i) == Index(n, j)
  {
    hide BracketEnd, Atoi, Trim;
  }

  /** Both readers take a bracket step as a whole and mean the same by it. */
  lemma BracketStepReads(path: string, i: nat, step: Step)
    requires Here(path, i, step.Text()) && step.Ok() && !step.Name?
    ensures BracketRead(path, i, step.Meaning(), i + |step.Text()|)
  {
    hide BracketRead, CharsText, CharsKey, Atoi, Trim, Here, Closes, IsQuote, IsGap, IsNameChar, Step.Text;
    match step
    case Quoted(quote, chars, gap) =>
      QuotedStands(path, i, quote, chars, gap);
      QuotedStepReads(path, i, quote, chars, gap);
    case At(text) =>
      AtStands(path, i, text);
      IndexStepReads(path, i, text, Atoi(Trim(text)).value);
  }

  lemma BracketUnfolds(path: string, i: nat, s: Segment, next: nat, out: seq<Segment>)
    requires BracketRead(path, i, s, next)
    ensures ValidFrom(path, i, true) == ValidFrom(path, next, false)
    ensures ValidFrom(path, i, false) == ValidFrom(path, next, false)
    ensures SplitFrom(path, i, "", out) == SplitFrom(path, next, "", out + [s])
  {
    hide BracketNext, SegmentAt, NameEnd;
  }

  lemma NameUnfolds(path: string, i: nat, next: nat)
    requires i < next && i < |path| && path[i] != '.' && path[i] != '[' && NameEnd(path, i) == Some(next)
    ensures ValidFrom(path, i, true) == ValidFrom(path, next, false)
  {
    hide BracketNext, SegmentAt, NameEnd;
  }

  lemma {:induction false} NameReads(path: string, i: nat, text: string, buf: string, out: seq<Segment>)
    requires Here(path, i, text) && (forall k | 0 <= k < |text| :: IsNameChar(text[k]))
    requires i + |text| < |path| ==> path[i + |text|] == '.' || path[i + |text|] == '['
    ensures i + |text| <= |path| && NameEnd(path, i) == Some(i + |text|)
    ensures SplitFrom(path, i, buf, out) == SplitFrom(path, i + |text|, buf + text, out)
    decreases |text|
  {
    if text == "" {
      assert buf + text == buf;
    } else {
      HereTail(path, i, text);
      NameReads(path, i + 1, text[1..], buf + [text[0]], out);
      assert buf + [text[0]] + text[1..] == buf + text;
    }
  }

  lemma NameIsFlushed(path: string, j: nat, name: string, out: seq<Segment>)
    requires j <= |path| && name != "" && (j < |path| ==> path[j] == '.' || path[j] == '[')
    ensures SplitFrom(path, j, name, out) == SplitFrom(path, j, "", out + [Key(name)])
  {
  }

  /** A bare name, read by both. */
  lemma NameStepReads(path: string, j: nat, name: string, out: seq<Segment>)
    requires name != "" && (forall i | 0 <= i < |name| :: IsNameChar(name[i])) && Here(path, j, name)
    requires j + |name| < |path| ==> path[j + |name|] == '.' || path[j + |name|] == '['
    ensures j + |name| <= |path| && j < |path| && path[j] != '.'
    ensures ValidFrom(path, j, true) == ValidFrom(path, j + |name|, false)
    ensures SplitFrom(path, j, "", out) == SplitFrom(path, j + |name|, "", out + [Key(name)])
  {
    hide ValidFrom, SplitFrom, NameEnd, Here, IsSpace, IsControl;
    HereTail(path, j, name);
    assert IsNameChar(name[0]);
    NameReads(path, j, name, "", out);
    assert "" + name == name;
    NameIsFlushed(path, j + |name|, name, out);
    NameUnfolds(path, j, j + |name|);
  }

  lemma NameStepIsItsText(step: Step)
    requires step.Name? && step.Ok()
    ensures step.Text() == step.text != "" && step.Meaning() == Key(step.text)
    ensures forall i | 0 <= i < |step.text| :: IsNameChar(step.text[i])
  {
    hide IsNameChar;
  }

  /** One step, read by both. */
  lemma StepReads(path: string, j: nat, step: Step, out: seq<Segment>)
    requires step.Ok() && Here(path, j, step.Text())
    requires var k := j + |step.Text()|; k < |path| ==> path[k] == '.' || path[k] == '['
    ensures j + |step.Text()| <= |path| && j < |path| && path[j] != '.'
    ensures ValidFrom(path, j, true) == ValidFrom(path, j + |step.Text()|, false)
    ensures !step.Name? ==> ValidFrom(path, j, false) == ValidFrom(path, j + |step.Text()|, false)
    ensures SplitFrom(path, j, "", out) == SplitFrom(path, j + |step.Text()|, "", out + [step.Meaning()])
  {
    hide ValidFrom, SplitFrom, Here, Step.Ok, Step.Text, Step.Meaning, BracketNext, SegmentAt;
    if step.Name? {
      NameStepIsItsText(step);
      NameStepReads(path, j, step.text, out);
    } else {
      BracketStepReads(path, j, step);
      BracketUnfolds(path, j, step.Meaning(), j + |step.Text()|, out);
    }
  }

  /** What follows a step starts with a dot or a bracket. */
  lemma NextStarts(path: string, i: nat, items: seq<Item>)
    requires ItemsOk(items, false) && Here(path, i, ItemsText(items)) && i + |ItemsText(items)| == |path|
    ensures i < |path| ==> path[i] == '.' || path[i] == '['
  {
    if items != [] {
      assert ItemsText(items)[0] == '.' || ItemsText(items)[0] == '[';
      HereTail(path, i, ItemsText(items));
    }
  }

  /** Every path of the grammar is valid, and splitting it yields one segment per step, in order. */
  lemma {:induction false} GrammarReads(path: string, i: nat, items: seq<Item>, needKey: bool, out: seq<Segment>)
    requires ItemsOk(items, needKey) && Here(path, i, ItemsText(items)) && i + |ItemsText(items)| == |path|
    ensures ValidFrom(path, i, needKey)
    ensures (forall k | 0 <= k < |items| :: items[k].step.Ok()) && SplitFrom(path, i, "", out) == out + Meanings(items)
    decreases |items|
  {
    hide ValidFrom, SplitFrom, Step.Text, Step.Ok, Step.Meaning, ItemsText, Here, Meanings;
    ItemsAreOk(items, needKey);
    if items == [] {
      NoMeanings(items, out);
      NoItems();
      PathEnds(path, i, out);
    } else {
      var Item(dot, step) := items[0];
      var before, text, rest := if dot then "." else "", step.Text(), ItemsText(items[1..]);
      var j := i + |before|;
      ItemsCons(items);
      HereParts(path, i, before, text + rest);
      HereParts(path, j, text, rest);
      NextStarts(path, j + |text|, items[1..]);
      StepReads(path, j, step, out);
      if dot {
        HereChar(path, i, '.');
        DotReads(path, i, out);
      }
      GrammarReads(path, j + |text|, items[1..], false, out + [step.Meaning()]);
      MeaningsCons(items, out);
    }
  }

  lemma NoMeanings(items: seq<Item>, out: seq<Segment>)
    requires items == []
    ensures out + Meanings(items) == out
  {
  }

  lemma MeaningsCons(items: seq<Item>, out: seq<Segment>)
    requires items != [] && forall i | 0 <= i < |items| :: items[i].step.Ok()
    ensures out + Meanings(items) == out + [items[0].step.Meaning()] + Meanings(items[1..])
  {
    hide Step.Ok, Step.Meaning;
  }

  lemma NoItems()
    ensures ItemsText([]) == ""
  {
  }

  lemma ItemsCons(items: seq<Item>)
    requires items != []
    ensures ItemsText(items) == (if items[0].dot then "." else "") + (items[0].step.Text() + ItemsText(items[1..]))
  {
    hide Step.Text;
  }

  lemma PathEnds(path: string, i: nat, out: seq<Segment>)
    requires i == |path|
    ensures ValidFrom(path, i, false) && SplitFrom(path, i, "", out) == out
  {
  }

  lemma DotReads(path: string, i: nat, out: seq<Segment>)
    requires i < |path| && path[i] == '.'
    ensures ValidFrom(path, i, false) == ValidFrom(path, i + 1, true)
    ensures SplitFrom(path, i, "", out) == SplitFrom(path, i + 1, "", out)
  {
  }

  // ---------------------------------------------------------------- valid paths are in the grammar

  lemma {:induction false} QuotedShape(path: string, quote: char, i: nat, buf: string) returns (chars: seq<Ch>, gap: string)
    requires i <= |path| && IsQuote(quote) && QuotedFrom(path, quote, i, buf).Some?
    ensures Quoted(quote, chars, gap).Ok()
    ensures Here(path, i, CharsText(chars)) && Closes(path, i + |CharsText(chars)|, quote, gap)
    ensures QuotedFrom(path, quote, i, buf).value.1 == i + |CharsText(chars)| + 1 + |gap|
    decreases |path| - i
  {
    hide CharsText, GapEnd, Here, Closes;
    if path[i] == '\\' {
      chars, gap := QuotedShape(path, quote, i + 2, buf + [Unescape(path[i + 1])]);
      chars := Prepend(path, i, Esc(path[i + 1]), quote, chars, gap);
    } else if path[i] == quote {
      NoChars();
      HereNothing(path, i);
      chars, gap := [], path[i + 1..GapEnd(path, i + 1)];
      ClosingShape(path, quote, i);
    } else {
      chars, gap := QuotedShape(path, quote, i + 1, buf + [path[i]]);
      chars := Prepend(path, i, Raw(path[i]), quote, chars, gap);
    }
  }

  lemma ClosingShape(path: string, quote: char, i: nat)
    requires i < |path| && path[i] == quote && GapEnd(path, i + 1) < |path| && path[GapEnd(path, i + 1)] == ']'
    ensures Closes(path, i, quote, path[i + 1..GapEnd(path, i + 1)])
  {
    hide GapEnd;
  }

  lemma Prepend(path: string, i: nat, ch: Ch, quote: char, chars: seq<Ch>, gap: string) returns (all: seq<Ch>)
    requires Quoted(quote, chars, gap).Ok() && (ch.Raw? ==> ch.c != quote && ch.c != '\\')
    requires i < |path| && (if ch.Esc? then path[i] == '\\' && i + 1 < |path| && path[i + 1] == ch.c else path[i] == ch.c)
    requires var k := i + if ch.Esc? then 2 else 1;
             Here(path, k, CharsText(chars)) && Closes(path, k + |CharsText(chars)|, quote, gap)
    ensures Quoted(quote, all, gap).Ok() && |CharsText(all)| == |CharsText(chars)| + if ch.Esc? then 2 else 1
    ensures Here(path, i, CharsText(all)) && Closes(path, i + |CharsText(all)|, quote, gap)
  {
    hide CharsText, Here, Closes;
    all := [ch] + chars;
    var here, _ := OneChar(all);
    assert all[1..] == chars;
    HereParts(path, i, here, CharsText(chars));
    HereTail(path, i, here);
    HereChar(path, i + 1, ch.c);
    HereNothing(path, i + 1);
  }

  lemma BracketShape(path: string, i: nat) returns (step: Step)
    requires i < |path| && path[i] == '[' && BracketNext(path, i).Some?
    ensures step.Ok() && !step.Name? && Here(path, i, step.Text()) && i + |step.Text()| == BracketNext(path, i).value
  {
    hide QuotedFrom, CharsText, Atoi, Trim, BracketEnd, Here, Closes;
    if IsQuote(path[i + 1]) {
      var chars, gap := QuotedShape(path, path[i + 1], i + 2, "");
      step := Quoted(path[i + 1], chars, gap);
      QuotedStands(path, i, path[i + 1], chars, gap);
    } else {
      var j := BracketEnd(path, i + 1);
      step := At(path[i + 1..j]);
      AtStands(path, i, path[i + 1..j]);
      HereSlice(path, i + 1, j);
    }
  }

  lemma HereSlice(path: string, i: nat, j: nat)
    requires i <= j <= |path|
    ensures Here(path, i, path[i..j])
  {
  }

  lemma {:induction false} NameShape(path: string, i: nat)
    requires i <= |path| && NameEnd(path, i).Some?
    ensures var j := NameEnd(path, i).value;
            && (forall k | i <= k < j :: IsNameChar(path[k]))
            && (j < |path| ==> path[j] == '.' || path[j] == '[')
    decreases |path| - i
  {
    if i < |path| && path[i] != '.' && path[i] != '[' {
      NameShape(path, i + 1);
    }
  }

  /** What the validator accepts is written by the grammar. */
  lemma {:induction false} ValidShape(path: string, i: nat, needKey: bool) returns (items: seq<Item>)
    requires i <= |path| && ValidFrom(path, i, needKey)
    ensures ItemsOk(items, needKey) && Here(path, i, ItemsText(items)) && i + |ItemsText(items)| == |path|
    decreases |path| - i
  {
    hide NameEnd, BracketNext, Step.Ok, Step.Text, ItemText, Here;
    if i == |path| {
      HereNothing(path, i);
      return [];
    }
    if path[i] == '.' {
      var rest := ValidShape(path, i + 1, true);
      items := WithDot(path, i, rest);
    } else if path[i] == '[' {
      var step := BracketShape(path, i);
      var rest := ValidShape(path, BracketNext(path, i).value, false);
      items := WithStep(path, i, step, rest, needKey);
    } else {
      var j := NameEnd(path, i).value;
      NameShape(path, i);
      var rest := ValidShape(path, j, false);
      NameStands(path, i, j);
      items := WithStep(path, i, Name(path[i..j]), rest, needKey);
    }
  }

  lemma NameStands(path: string, i: nat, j: nat)
    requires i < j <= |path| && forall k | i <= k < j :: IsNameChar(path[k])
    ensures Name(path[i..j]).Ok() && Here(path, i, Name(path[i..j]).Text()) && |Name(path[i..j]).Text()| == j - i
  {
  }

  lemma WithStep(path: string, i: nat, step: Step, rest: seq<Item>, needKey: bool) returns (items: seq<Item>)
    requires step.Ok() && (step.Name? ==> needKey) && ItemsOk(rest, false)
    requires Here(path, i, step.Text()) && Here(path, i + |step.Text()|, ItemsText(rest))
    ensures ItemsOk(items, needKey) && Here(path, i, ItemsText(items)) && |ItemsText(items)| == |step.Text()| + |ItemsText(rest)|
  {
    hide Step.Ok, Step.Text, Here, ItemsText;
    items := [Item(false, step)] + rest;
    assert items[1..] == rest;
    ItemsCons(items);
    assert "" + (step.Text() + ItemsText(rest)) == step.Text() + ItemsText(rest);
    HereParts(path, i, step.Text(), ItemsText(rest));
  }

  lemma WithDot(path: string, i: nat, rest: seq<Item>) returns (items: seq<Item>)
    requires i < |path| && path[i] == '.' && ItemsOk(rest, true) && Here(path, i + 1, ItemsText(rest))
    ensures ItemsOk(items, false) && Here(path, i, ItemsText(items)) && |ItemsText(items)| == 1 + |ItemsText(rest)|
  {
    hide Step.Ok, Step.Text, Here, ItemsText;
    items := [rest[0].(dot := true)] + rest[1..];
    assert items[1..] == rest[1..];
    ItemsCons(items);
    ItemsCons(rest);
    var tail := rest[0].step.Text() + ItemsText(rest[1..]);
    assert "" + tail == tail;
    HereParts(path, i, ".", tail);
    HereChar(path, i, '.');
  }

  /** The validator accepts exactly the grammar, and on what it accepts the splitter neither stops
      early nor drops a step: it yields one segment per step, in order. */
  lemma ValidatorAndSplitterAgree(p: string)
    ensures ValidFrom(p, 0, true) <==> exists items: seq<Item> :: ItemsOk(items, true) && ItemsText(items) == p
    ensures forall items: seq<Item> | ItemsOk(items, true) && ItemsText(items) == p ::
              (forall k | 0 <= k < |items| :: items[k].step.Ok()) && SplitFrom(p, 0, "", []) == Meanings(items)
  {
    hide ValidFrom, SplitFrom, ItemsOk, ItemsText, Meanings;
    if ValidFrom(p, 0, true) {
      var items := ValidShape(p, 0, true);
      assert ItemsOk(items, true) && ItemsText(items) == p[0..|p|] == p;
    }
    forall items: seq<Item> | ItemsOk(items, true) && ItemsText(items) == p
      ensures ValidFrom(p, 0, true)
      ensures (forall k | 0 <= k < |items| :: items[k].step.Ok()) && SplitFrom(p, 0, "", []) == Meanings(items)
    {
      assert p[0..|p|] == p;
      GrammarReads(p, 0, items, true, []);
      assert [] + Meanings(items) == Meanings(items);
    }
  }

  /** Get splits what Valid validates. */
  lemma GetReadsWhatValidChecks(path: string)
    requires IsValid(path)
    ensures RootOf(path) == Rest(Stripped(path)) || (RootOf(path) == Whole && Stripped(path) == "")
  {
  }

  // ---------------------------------------------------------------- printing paths

  function PrintChars(key: string): seq<Ch> {
    if key == "" then []
    else [if key[0] == '"' || key[0] == '\\' then Esc(key[0]) else Raw(key[0])] + PrintChars(key[1..])
  }

  function PrintStep(s: Segment): Step {
    match s
    case Key(k) => Quoted('"', PrintChars(k), "")
    case Idx(n) => At(if n >= 0 then Itoa(n) else "")
  }

  function PrintItems(segments: seq<Segment>): seq<Item> {
    if segments == [] then [] else [Item(false, PrintStep(segments[0]))] + PrintItems(segments[1..])
  }

  /** ["key"] and [index], one after the other, with quotes and backslashes escaped. */
  function Print(segments: seq<Segment>): string {
    ItemsText(PrintItems(segments))
  }

  predicate Printable(s: Segment) {
    s.Idx? ==> 0 <= s.index <= MAX_INT64
  }

  lemma {:induction false} PrintCharsRead(key: string)
    ensures CharsKey(PrintChars(key)) == key
    ensures forall i | 0 <= i < |PrintChars(key)| :: PrintChars(key)[i].Raw? ==> PrintChars(key)[i].c != '"' && PrintChars(key)[i].c != '\\'
  {
    if key != "" {
      PrintCharsRead(key[1..]);
    }
  }

  lemma PrintStepReads(s: Segment)
    requires Printable(s)
    ensures PrintStep(s).Ok() && PrintStep(s).Meaning() == s && !PrintStep(s).Name?
  {
    match s
    case Key(k) => PrintCharsRead(k);
    case Idx(n) => IndexReads(n);
  }

  lemma IndexReads(n: nat)
    requires n <= MAX_INT64
    ensures var t := Itoa(n); t != "" && AllDigits(t) && ']' !in t && Trim(t) == t && Atoi(t) == Some(n)
  {
    ItoaReads(n);
    var t := Itoa(n);
    assert IsDigit(t[0]) && IsDigit(t[|t| - 1]);
    TrimFixed(t);
    forall i | 0 <= i < |t| ensures t[i] != ']' {
      assert IsDigit(t[i]);
    }
  }

  lemma {:induction false} PrintItemsOk(segments: seq<Segment>, needKey: bool)
    requires (forall i | 0 <= i < |segments| :: Printable(segments[i])) && (needKey ==> segments != [])
    ensures ItemsOk(PrintItems(segments), needKey)
    ensures (forall i | 0 <= i < |PrintItems(segments)| :: PrintItems(segments)[i].step.Ok())
            && Meanings(PrintItems(segments)) == segments
    decreases |segments|
  {
    hide Step.Ok, Step.Meaning, PrintStep, Printable;
    if segments != [] {
      PrintStepReads(segments[0]);
      PrintItemsOk(segments[1..], false);
      var items := PrintItems(segments);
      assert items[1..] == PrintItems(segments[1..]);
      assert segments == [segments[0]] + segments[1..];
    }
  }

  lemma PrintCons(segments: seq<Segment>)
    requires segments != []
    ensures Print(segments) == PrintStep(segments[0]).Text() + Print(segments[1..])
  {
    hide Step.Text, PrintStep;
    var items := PrintItems(segments);
    assert items[1..] == PrintItems(segments[1..]);
    assert ItemText(items[0]) == "" + PrintStep(segments[0]).Text() == PrintStep(segments[0]).Text();
  }

  /** A printed path stands between its brackets. */
  lemma {:induction false} PrintEnds(segments: seq<Segment>)
    requires segments != []
    ensures Print(segments) != "" && Print(segments)[0] == '[' && Print(segments)[|Print(segments)| - 1] == ']'
    decreases |segments|
  {
    hide Step.Text, PrintStep, Print;
    PrintCons(segments);
    StepEnds(segments[0]);
    if |segments| > 1 {
      PrintEnds(segments[1..]);
    } else {
      PrintNothing();
      assert segments[1..] == [];
    }
  }

  lemma PrintNothing()
    ensures Print([]) == ""
  {
  }

  lemma StepEnds(s: Segment)
    ensures var t := PrintStep(s).Text(); t != "" && t[0] == '[' && t[|t| - 1] == ']'
  {
  }

  /** Any list of keys and indices, printed, is a valid path that splits back into the list, and
      getting it is looking its segments up one after the other. */
  lemma PrintRoundTrip(segments: seq<Segment>, v: JSON)
    requires forall i | 0 <= i < |segments| :: Printable(segments[i])
    ensures IsValid(Print(segments)) && SplitFrom(Stripped(Print(segments)), 0, "", []) == segments
    ensures Resolve(v, SplitFrom(Stripped(Print(segments)), 0, "", [])) == Resolve(v, segments)
  {
    hide ValidFrom, SplitFrom, ItemsOk, Step.Ok, Meanings, Trim, PrintItems, ItemsText;
    if segments == [] {
      PrintNothing();
      TrimNothing();
      NothingToSplit();
    } else {
      var p := Print(segments);
      PrintEnds(segments);
      TrimFixed(p);
      PrintItemsOk(segments, true);
      assert p[0..|p|] == p;
      GrammarReads(p, 0, PrintItems(segments), true, []);
      assert [] + segments == segments;
    }
  }

  /** Getting goes one step deeper with every segment that is printed behind a path: into the n-th item of an
      array, counted from zero, into the field of an object, and nowhere else. */
  lemma GetGoesDeeper(v: JSON, segments: seq<Segment>, s: Segment)
    requires (forall i | 0 <= i < |segments| :: Printable(segments[i])) && Printable(s)
    ensures GetOf(v, Print([])) == Some(v)
    ensures var next := GetOf(v, Print(segments + [s]));
            match (GetOf(v, Print(segments)), s)
            case (Some(Arr(items)), Idx(n)) => next == if n < |items| then Some(items[n]) else None
            case (Some(Obj(fields)), Key(k)) => next == if k in fields then Some(fields[k]) else None
            case _ => next == None
  {
    hide Print, SplitFrom, Stripped;
    PrintRoundTrip([], v);
    PrintRoundTrip(segments, v);
    PrintRoundTrip(segments + [s], v);
    ResolveSplits(v, segments, [s]);
    forall w: JSON ensures Resolve(w, [s]) == Lookup(w, s) {
      assert [s][1..] == [];
    }
  }

  /** What a path says is printed segment by segment: a key between quotes, with quotes and backslashes
      escaped, or an index. */
  lemma PrintedStep(segments: seq<Segment>, s: Segment)
    ensures Print(segments + [s]) == Print(segments) + Print([s])
    decreases |segments|
  {
    hide Print, Step.Text, PrintStep;
    if segments == [] {
      PrintNothing();
      assert [] + [s] == [s];
      assert "" + Print([s]) == Print([s]);
    } else {
      assert (segments + [s])[1..] == segments[1..] + [s];
      PrintCons(segments + [s]);
      PrintCons(segments);
      PrintedStep(segments[1..], s);
      Associate(PrintStep(segments[0]).Text(), Print(segments[1..]), Print([s]));
    }
  }

  lemma Associate(a: string, b: string, c: string)
    ensures a + (b + c) == a + b + c
  {
  }

  /** A root sign and its dot change nothing, and neither does white space around the path. */
  lemma RootSignIsLeftOut(v: JSON, p: string)
    requires p != "" && Trimmed(p) && p[0] != '$'
    ensures GetOf(v, "$." + p) == GetOf(v, p) && (IsValid("$." + p) <==> IsValid(p))
    ensures p[0] == '[' ==> GetOf(v, "$" + p) == GetOf(v, p) && (IsValid("$" + p) <==> IsValid(p))
    ensures GetOf(v, "$") == GetOf(v, "") == Some(v) && IsValid("$") && IsValid("") && !IsValid("$.")
    ensures GetOf(v, " " + p) == GetOf(v, p) && (IsValid(" " + p) <==> IsValid(p))
  {
    hide ValidFrom, SplitFrom, Trim, IsSpace;
    assert !IsSpace('$') && !IsSpace('.') && IsSpace(' ') by { Spaces(); }
    TrimFixed(p);
    TrimFixed("$." + p);
    TrimFixed("$" + p);
    TrimFixed("$");
    TrimFixed("$.");
    TrimNothing();
    TrimOfPadded(" ", p, "");
    assert " " + p + "" == " " + p;
    assert ("$." + p)[2..] == p && ("$" + p)[1..] == p && "$"[1..] == "";
    NothingToSplit();
  }

  lemma Spaces()
    ensures !IsSpace('$') && !IsSpace('.') && IsSpace(' ')
  {
  }

  /** What an index may look like: digits with a sign in front or not, in the range of 64 bits; a negative
      one is read and refused by the validator, and anything else is no index. */
  lemma IndexTexts(digits: string)
    requires digits != "" && AllDigits(digits)
    ensures Atoi(digits) == Atoi("+" + digits) == if NatOf(digits) < 0x8000_0000_0000_0000 then Some(NatOf(digits)) else None
    ensures Atoi("-" + digits) == if NatOf(digits) <= 0x8000_0000_0000_0000 then Some(0 - NatOf(digits)) else None
    ensures Atoi("") == None && Atoi("+") == None && Atoi("-") == None
    ensures forall s: string :: Atoi(s).Some? ==> s != "" && (AllDigits(s) || (s[0] in "+-" && s != "+" && s != "-" && AllDigits(s[1..])))
  {
    hide NatOf;
    assert ("+" + digits)[1..] == digits && ("-" + digits)[1..] == digits && IsDigit(digits[0]);
    assert "+"[1..] == "" && "-"[1..] == "";
    forall s: string | Atoi(s).Some? ensures s != "" && (AllDigits(s) || (s[0] in "+-" && s != "+" && s != "-" && AllDigits(s[1..]))) {
    }
  }

  /** What may stand in a bare name, and what counts as white space behind a quoted key. */
  lemma CharacterClasses()
    ensures forall c | 'a' <= c <= 'z' || 'A' <= c <= 'Z' || '0' <= c <= '9' || c in "_-$*@:/\"'" :: IsNameChar(c)
    ensures forall c | c in ".[] \t\n\r\U{0}\U{7F}\U{A0}" :: !IsNameChar(c)
    ensures forall c :: IsGap(c) <==> c in " \t\n\r"
  {
  }

  /** Escapes in a quoted key: the letters n, r and t are white space, any other character is itself. */
  lemma EscapesMean(c: char)
    ensures var segments := SplitFrom("['\\" + [c] + "']", 0, "", []);
            && (c == 'n' ==> segments == [Key("\n")]) && (c == 'r' ==> segments == [Key("\r")]) && (c == 't' ==> segments == [Key("\t")])
            && (c !in "nrt" ==> segments == [Key([c])])
  {
    var path := "['\\" + [c] + "']";
    assert path == ['[', '\'', '\\', c, '\'', ']'];
    assert GapEnd(path, 5) == 5;
    assert "" + [Unescape(c)] == [Unescape(c)];
    assert QuotedFrom(path, '\'', 4, [Unescape(c)]) == Some(([Unescape(c)], 5));
    assert QuotedFrom(path, '\'', 2, "") == Some(([Unescape(c)], 5));
    assert SegmentAt(path, 0) == Found(Key([Unescape(c)]), 5);
    assert [] + [Key([Unescape(c)])] == [Key([Unescape(c)])];
  }

  lemma TrimNothing()
    ensures Trim("") == ""
  {
  }

  lemma NothingToSplit()
    ensures SplitFrom("", 0, "", []) == []
  {
  }

  /** A path of two halves resolves one half after the other. */
  lemma {:induction false} ResolveSplits(v: JSON, a: seq<Segment>, b: seq<Segment>)
    ensures Resolve(v, a + b) == match Resolve(v, a) case None => None case Some(w) => Resolve(w, b)
    decreases |a|
  {
    if a == [] {
      assert a + b == b;
    } else {
      assert (a + b)[1..] == a[1..] + b;
      var next := Lookup(v, a[0]);
      if next.Some? {
        ResolveSplits(next.value, a[1..], b);
      }
    }
  }
}
