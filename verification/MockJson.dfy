/** internal/mock/json.go and internal/mock/json_rules.go: matching request bodies against JSON
    patterns and compiled rules. */
module MockJson {
  import opened Wrappers
  import opened Json
  import opened MockNumber

  // ---------------------------------------------------------------- json.go

  datatype Compare = Subset | Exact

  function Matches(c: Compare, want: JSON, got: JSON): bool {
    match want
    case Obj(fields) =>
      && got.Obj? && (c.Exact? ==> |fields| == |got.fields|)
      && forall k | k in fields :: k in got.fields && Matches(c, fields[k], got.fields[k])
    case Arr(items) =>
      && got.Arr? && |items| == |got.items|
      && forall i | 0 <= i < |items| :: Matches(c, items[i], got.items[i])
    case Num(text) => got.Num? && EqualJSONNumbers(text, got.text)
    case _ => want == got
  }

  lemma {:induction false} MatchesReflexive(c: Compare, v: JSON)
    ensures Matches(c, v, v)
  {
    hide EqualJSONNumbers;
    match v
    case Obj(fields) =>
      forall k | k in fields ensures Matches(c, fields[k], fields[k]) {
        MatchesReflexive(c, fields[k]);
      }
    case Arr(items) =>
      forall i | 0 <= i < |items| ensures Matches(c, items[i], items[i]) {
        MatchesReflexive(c, items[i]);
      }
    case Num(text) => EqualJSONNumbersIsEquivalence(text, text, text);
    case _ =>
  }

  lemma {:induction false} MatchesTransitive(c: Compare, a: JSON, b: JSON, d: JSON)
    requires Matches(c, a, b) && Matches(c, b, d)
    ensures Matches(c, a, d)
    decreases a
  {
    hide EqualJSONNumbers;
    match a
    case Obj(fields) =>
      forall k | k in fields ensures k in d.fields && Matches(c, fields[k], d.fields[k]) {
        MatchesTransitive(c, fields[k], b.fields[k], d.fields[k]);
      }
    case Arr(items) =>
      forall i | 0 <= i < |items| ensures Matches(c, items[i], d.items[i]) {
        MatchesTransitive(c, items[i], b.items[i], d.items[i]);
      }
    case Num(text) => EqualJSONNumbersIsEquivalence(text, b.text, d.text);
    case _ =>
  }

  lemma SameSizeSameKeys(m: map<string, JSON>, n: map<string, JSON>)
    requires |m| == |n| && m.Keys <= n.Keys
    ensures m.Keys == n.Keys
  {
    SubsetOfSize(m.Keys, n.Keys);
  }

  lemma {:induction false} SubsetOfSize(a: set<string>, b: set<string>)
    requires a <= b
    ensures |a| <= |b| && (|a| == |b| ==> a == b)
  {
    if a != {} {
      var k :| k in a;
      SubsetOfSize(a - {k}, b - {k});
    }
  }

  /** Exact matching is symmetric, and it is subset matching both ways. */
  lemma {:induction false} ExactIsSubsetBothWays(a: JSON, b: JSON)
    ensures Matches(Exact, a, b) <==> Matches(Subset, a, b) && Matches(Subset, b, a)
    ensures Matches(Exact, a, b) ==> Matches(Exact, b, a)
    decreases a
  {
    hide EqualJSONNumbers;
    match a
    case Obj(fields) =>
      if b.Obj? {
        ObjectsBothWays(fields, b.fields);
      }
    case Arr(items) =>
      if b.Arr? && |items| == |b.items| {
        forall i | 0 <= i < |items|
          ensures Matches(Exact, items[i], b.items[i])
                  <==> Matches(Subset, items[i], b.items[i]) && Matches(Subset, b.items[i], items[i])
          ensures Matches(Exact, items[i], b.items[i]) ==> Matches(Exact, b.items[i], items[i])
        {
          ExactIsSubsetBothWays(items[i], b.items[i]);
        }
      }
    case Num(text) =>
      if b.Num? {
        EqualJSONNumbersIsEquivalence(text, b.text, text);
      }
    case _ =>
  }

  lemma {:induction false} ObjectsBothWays(m: map<string, JSON>, n: map<string, JSON>)
    ensures Matches(Exact, Obj(m), Obj(n)) <==> Matches(Subset, Obj(m), Obj(n)) && Matches(Subset, Obj(n), Obj(m))
    ensures Matches(Exact, Obj(m), Obj(n)) ==> Matches(Exact, Obj(n), Obj(m))
    decreases Obj(m), 0
  {
    forall k | k in m && k in n
      ensures Matches(Exact, m[k], n[k]) <==> Matches(Subset, m[k], n[k]) && Matches(Subset, n[k], m[k])
      ensures Matches(Exact, m[k], n[k]) ==> Matches(Exact, n[k], m[k])
    {
      ExactIsSubsetBothWays(m[k], n[k]);
    }
    if Matches(Exact, Obj(m), Obj(n)) {
      SameSizeSameKeys(m, n);
    }
    if Matches(Subset, Obj(m), Obj(n)) && Matches(Subset, Obj(n), Obj(m)) {
      assert m.Keys == n.Keys && |m| == |m.Keys| && |n| == |n.Keys|;
    }
  }

  /** jsonExact is an equivalence and jsonSubset a preorder whose equivalence is jsonExact. */
  lemma ComparisonLaws(a: JSON, b: JSON, d: JSON)
    ensures Matches(Exact, a, a) && Matches(Subset, a, a)
    ensures Matches(Exact, a, b) ==> Matches(Exact, b, a)
    ensures Matches(Exact, a, b) && Matches(Exact, b, d) ==> Matches(Exact, a, d)
    ensures Matches(Subset, a, b) && Matches(Subset, b, d) ==> Matches(Subset, a, d)
    ensures Matches(Subset, a, b) && Matches(Subset, b, a) <==> Matches(Exact, a, b)
  {
    hide Matches;
    MatchesReflexive(Exact, a);
    MatchesReflexive(Subset, a);
    ExactIsSubsetBothWays(a, b);
    if Matches(Exact, a, b) && Matches(Exact, b, d) {
      MatchesTransitive(Exact, a, b, d);
    }
    if Matches(Subset, a, b) && Matches(Subset, b, d) {
      MatchesTransitive(Subset, a, b, d);
    }
  }

  // ---------------------------------------------------------------- what matching comes to, place by place

  datatype Step = Field(name: string) | Item(index: nat)

  /** What stands in a value at a place. */
  function At(v: JSON, place: seq<Step>): Option<JSON> {
    if place == [] then Some(v)
    else match (v, place[0])
      case (Obj(fields), Field(k)) => if k in fields then At(fields[k], place[1..]) else None
      case (Arr(items), Item(i)) => if i < |items| then At(items[i], place[1..]) else None
      case _ => None
  }

  /** Two values at the same place go together: the same kind; for objects, in exact mode only, the same
      names; for arrays the same length; numbers of equal value; and any other scalar the same. */
  ghost predicate GoTogether(c: Compare, want: JSON, got: JSON) {
    match (want, got)
    case (Obj(f), Obj(g)) => c == Exact ==> f.Keys == g.Keys
    case (Arr(f), Arr(g)) => |f| == |g|
    case (Num(s), Num(t)) => EqualJSONNumbers(s, t)
    case _ => want == got
  }

  ghost predicate GoTogetherEverywhere(c: Compare, want: JSON, got: JSON) {
    forall place: seq<Step> | At(want, place).Some? ::
      At(got, place).Some? && GoTogether(c, At(want, place).value, At(got, place).value)
  }

  /** Matching, told without recursion: every place of the pattern is there in the value, and the two go
      together there. */
  lemma {:induction false} MatchingIsPlaceByPlace(c: Compare, want: JSON, got: JSON)
    ensures Matches(c, want, got) <==> GoTogetherEverywhere(c, want, got)
    decreases want
  {
    hide GoTogether, EqualJSONNumbers;
    assert At(want, []) == Some(want) && At(got, []) == Some(got);
    if Matches(c, want, got) {
      forall place: seq<Step> | At(want, place).Some?
        ensures At(got, place).Some? && GoTogether(c, At(want, place).value, At(got, place).value)
      {
        MatchesAt(c, want, got, place);
      }
    }
    if GoTogetherEverywhere(c, want, got) {
      TogetherMatches(c, want, got);
    }
  }

  lemma {:induction false} MatchesAt(c: Compare, want: JSON, got: JSON, place: seq<Step>)
    requires Matches(c, want, got) && At(want, place).Some?
    ensures At(got, place).Some? && GoTogether(c, At(want, place).value, At(got, place).value)
    decreases |place|
  {
    if place == [] {
      MatchesHere(c, want, got);
    } else {
      hide EqualJSONNumbers, GoTogether;
      match (want, place[0])
      case (Obj(fields), Field(k)) => MatchesAt(c, fields[k], got.fields[k], place[1..]);
      case (Arr(items), Item(i)) => MatchesAt(c, items[i], got.items[i], place[1..]);
    }
  }

  lemma MatchesHere(c: Compare, want: JSON, got: JSON)
    requires Matches(c, want, got)
    ensures GoTogether(c, want, got)
  {
    hide EqualJSONNumbers;
    if want.Obj? && c == Exact {
      assert want.fields.Keys <= got.fields.Keys;
      SameSizeSameKeys(want.fields, got.fields);
    }
  }

  lemma {:induction false} TogetherMatches(c: Compare, want: JSON, got: JSON)
    requires GoTogetherEverywhere(c, want, got)
    ensures Matches(c, want, got)
    decreases want
  {
    hide EqualJSONNumbers;
    assert At(want, []) == Some(want) && At(got, []) == Some(got);
    assert GoTogether(c, want, got);
    match want
    case Obj(fields) =>
      forall k | k in fields ensures k in got.fields && Matches(c, fields[k], got.fields[k]) {
        assert At(want, [Field(k)]) == At(fields[k], [Field(k)][1..]) == Some(fields[k]);
        assert At(got, [Field(k)]).Some?;
        TogetherBelow(c, want, got, Field(k), fields[k], got.fields[k]);
        TogetherMatches(c, fields[k], got.fields[k]);
      }
      if c == Exact {
        assert fields.Keys == got.fields.Keys && |fields| == |fields.Keys| && |got.fields| == |got.fields.Keys|;
      }
    case Arr(items) =>
      forall i | 0 <= i < |items| ensures Matches(c, items[i], got.items[i]) {
        TogetherBelow(c, want, got, Item(i), items[i], got.items[i]);
        TogetherMatches(c, items[i], got.items[i]);
      }
    case _ =>
  }

  lemma TogetherBelow(c: Compare, want: JSON, got: JSON, step: Step, x: JSON, y: JSON)
    requires GoTogetherEverywhere(c, want, got)
    requires forall rest: seq<Step> :: At(want, [step] + rest) == At(x, rest) && At(got, [step] + rest) == At(y, rest)
    ensures GoTogetherEverywhere(c, x, y)
  {
    hide GoTogether, At;
    forall rest: seq<Step> | At(x, rest).Some? ensures At(y, rest).Some? && GoTogether(c, At(x, rest).value, At(y, rest).value) {
      assert At(want, [step] + rest).Some?;
    }
  }

  /** The value with a field added to the object at a place, if there is one and the name is new to it. */
  function Added(v: JSON, place: seq<Step>, name: string, value: JSON): JSON {
    if place == [] then (if v.Obj? && name !in v.fields then Obj(v.fields[name := value]) else v)
    else match (v, place[0])
      case (Obj(fields), Field(k)) =>
        if k in fields then Obj(fields[k := Added(fields[k], place[1..], name, value)]) else v
      case (Arr(items), Item(i)) =>
        if i < |items| then Arr(items[i := Added(items[i], place[1..], name, value)]) else v
      case _ => v
  }

  /** A subset pattern goes on matching when a field is added anywhere in the value. */
  lemma {:induction false} AddedFieldsDoNotMatter(want: JSON, got: JSON, place: seq<Step>, name: string, value: JSON)
    requires Matches(Subset, want, got)
    ensures Matches(Subset, want, Added(got, place, name, value))
    decreases |place|
  {
    hide EqualJSONNumbers;
    if place != [] {
      match (got, place[0])
      case (Obj(fields), Field(k)) =>
        if k in fields && want.Obj? && k in want.fields {
          AddedFieldsDoNotMatter(want.fields[k], fields[k], place[1..], name, value);
        }
      case (Arr(items), Item(i)) =>
        if i < |items| && want.Arr? {
          AddedFieldsDoNotMatter(want.items[i], items[i], place[1..], name, value);
        }
      case _ =>
    }
  }

  /** The empty object is a pattern of every object, and of nothing else; taking a field out of a pattern
      keeps what matches it. An exact match allows for neither. */
  lemma FewerFieldsMatchMore(fields: map<string, JSON>, got: JSON, name: string, value: JSON)
    ensures Matches(Subset, Obj(map[]), got) <==> got.Obj?
    ensures Matches(Subset, Obj(fields), got) ==> Matches(Subset, Obj(fields - {name}), got)
    ensures name in fields && Matches(Exact, Obj(fields), got) ==> !Matches(Exact, Obj(fields - {name}), got)
    ensures got.Obj? && name !in got.fields && Matches(Exact, Obj(fields), got) ==>
              !Matches(Exact, Obj(fields), Obj(got.fields[name := value]))
  {
    hide EqualJSONNumbers;
    if name in fields {
      assert fields == (fields - {name})[name := fields[name]];
      assert |fields| == |fields - {name}| + 1;
    }
  }

  // ---------------------------------------------------------------- json_rules.go: what a rule means

  const OPERATORS := {"gt", "gte", "lt", "lte", "oneOf"}

  function RelationOf(name: string): Relation {
    if name == "gt" then GT else if name == "gte" then GTE else if name == "lt" then LT else LTE
  }

  predicate OperandOk(name: string, operand: JSON) {
    if name == "oneOf" then operand.Arr? && operand.items != [] else operand.Num?
  }

  /** The number got stands in the relation to the number that want says, or to zero if it says none. */
  predicate NumberHolds(rel: Relation, want: string, got: JSON) {
    var n := match NumberOf(want) case Some(n) => n case None => ZERO;
    got.Num? && NumberOf(got.text).Some? && rel.Holds(Cmp(NumberOf(got.text).value, n))
  }

  predicate OperatorHolds(name: string, operand: JSON, got: JSON)
    requires OperandOk(name, operand)
  {
    if name == "oneOf" then exists i | 0 <= i < |operand.items| :: Matches(Exact, got, operand.items[i])
    else NumberHolds(RelationOf(name), operand.text, got)
  }

  /** Every entry is an operator with a valid operand. */
  predicate IsLeaf(rules: map<string, JSON>) {
    forall k | k in rules :: k in OPERATORS && OperandOk(k, rules[k])
  }

  /** The rule grammar: an object that is not empty, of operators or of rules. */
  predicate Accepted(node: JSON) {
    && node.Obj? && node.fields != map[]
    && (IsLeaf(node.fields) || forall k | k in node.fields :: Accepted(node.fields[k]))
  }

  /** What an accepted rule says of a value. */
  predicate Holds(node: JSON, got: JSON)
    requires Accepted(node)
  {
    if IsLeaf(node.fields) then forall k | k in node.fields :: OperatorHolds(k, node.fields[k], got)
    else got.Obj? && forall k | k in node.fields :: k in got.fields && Holds(node.fields[k], got.fields[k])
  }

  /** No rule can be read both ways: operands are never objects. */
  lemma GrammarIsUnambiguous(node: JSON)
    requires Accepted(node)
    ensures IsLeaf(node.fields) <==> !(forall k | k in node.fields :: Accepted(node.fields[k]))
  {
    if IsLeaf(node.fields) {
      var k :| k in node.fields;
      assert !Accepted(node.fields[k]);
    }
  }

  // ---------------------------------------------------------------- json_rules.go: the compiler

  datatype RuleProblem = EmptyObject | NotAnObject | BadOperand

  datatype RuleError = RuleError(path: string, problem: RuleProblem)

  type Predicate = JSON -> bool

  function ChildPath(path: string, name: string): string {
    if path == "" then name else path + "." + name
  }

  /** A literal short enough that its capped exponent does not mislead. */
  predicate Readable(l: Literal) {
    l.WellFormed() && |l.Text()| <= EXACT_LENGTH
  }

  /** The exact values stand in the relation; where both exponents were capped on the same side, the
      relation has to take equal numbers. */
  ghost predicate TrulyStands(rel: Relation, g: Literal, w: Literal)
    requires Readable(g) && Readable(w)
  {
    if SaturatedTogether(g.Parsed(), w.Parsed()) then rel.Inclusive() else rel.Orders(Value(g), Value(w))
  }

  /** The number says something, and it stands in the relation to want. */
  function Stands(rel: Relation, text: string, want: Number): bool {
    match NumberOf(text) case None => false case Some(v) => rel.Holds(Cmp(v, want))
  }

  /** numberRule: the wanted number is parsed once, and the predicate orders numbers by their exact values,
      two numbers whose exponents were capped on the same side being as good as equal. */
  method NumberRule(rel: Relation, operand: JSON) returns (r: Option<Predicate>)
    ensures r.Some? <==> operand.Num?
    ensures r.Some? ==> forall got: JSON | !got.Num? || NumberOf(got.text).None? :: !r.value(got)
    ensures r.Some? ==> forall w: Literal, g: Literal | Readable(w) && Readable(g) && operand.text == w.Text() ::
              r.value(Num(g.Text())) <==> TrulyStands(rel, g, w)
    ensures r.Some? ==> forall got :: r.value(got) == NumberHolds(rel, operand.text, got)
  {
    hide NumberOf, Cmp, Literal.Text, Readable, TrulyStands;
    if !operand.Num? { return None; }
    var parsed := ParseNumber(operand.text);
    var want := match parsed case Some(n) => n case None => ZERO;
    forall w: Literal, g: Literal | Readable(w) && Readable(g) && operand.text == w.Text()
      ensures NumberHolds(rel, operand.text, Num(g.Text())) <==> TrulyStands(rel, g, w)
    {
      NumberRulesAreExact(rel, w, g);
    }
    return Some((got: JSON) => got.Num? && Stands(rel, got.text, want));
  }

  /** Rules on numbers are the true order of their values. */
  lemma NumberRulesAreExact(rel: Relation, w: Literal, g: Literal)
    requires Readable(w) && Readable(g)
    ensures NumberHolds(rel, w.Text(), Num(g.Text())) <==> TrulyStands(rel, g, w)
  {
    hide NumberOf, Cmp, Literal.Text, Literal.Parsed, Literal.WellFormed, Value, SaturatedTogether;
    LiteralParses(w);
    LiteralParses(g);
    ComparisonIsExact(g, w);
  }

  /** The four operators on numbers, read aloud, wherever not both exponents were capped on the same side. */
  lemma OperatorsOrderValues(w: Literal, g: Literal)
    requires Readable(w) && Readable(g) && !SaturatedTogether(g.Parsed(), w.Parsed())
    ensures OperatorHolds("gt", Num(w.Text()), Num(g.Text())) <==> Value(g) > Value(w)
    ensures OperatorHolds("gte", Num(w.Text()), Num(g.Text())) <==> Value(g) >= Value(w)
    ensures OperatorHolds("lt", Num(w.Text()), Num(g.Text())) <==> Value(g) < Value(w)
    ensures OperatorHolds("lte", Num(w.Text()), Num(g.Text())) <==> Value(g) <= Value(w)
  {
    hide NumberHolds, Literal.Text, Readable, Value, SaturatedTogether;
    assert Readable(w) && Readable(g);
    NumberRulesAreExact(GT, w, g);
    NumberRulesAreExact(GTE, w, g);
    NumberRulesAreExact(LT, w, g);
    NumberRulesAreExact(LTE, w, g);
  }

  /** slices.ContainsFunc with exact matching. */
  function ContainsExactly(allowed: seq<JSON>, got: JSON): (r: bool)
    ensures r <==> exists i | 0 <= i < |allowed| :: Matches(Exact, got, allowed[i])
  {
    if allowed == [] then false
    else
      ExactIsSubsetBothWays(allowed[0], got);
      ExactIsSubsetBothWays(got, allowed[0]);
      var rest := ContainsExactly(allowed[1..], got);
      assert allowed == [allowed[0]] + allowed[1..];
      Matches(Exact, allowed[0], got) || rest
  }

  /** oneOfRule: the value is one of the allowed ones, which there must be. */
  method OneOfRule(operand: JSON) returns (r: Option<Predicate>)
    ensures r.Some? <==> operand.Arr? && operand.items != []
    ensures r.Some? ==> forall got :: r.value(got) <==> exists i | 0 <= i < |operand.items| :: Matches(Exact, got, operand.items[i])
  {
    if !operand.Arr? || operand.items == [] { return None; }
    var allowed := operand.items;
    return Some((got: JSON) => ContainsExactly(allowed, got));
  }

  /** What the operators take: oneOf an array with an item, the others a number; and oneOf is equality with an
      item, place by place. */
  lemma OperandsAndChoices(name: string, items: seq<JSON>, text: string, got: JSON)
    requires name in ["gt", "gte", "lt", "lte"]
    ensures OperandOk("oneOf", Arr(items)) <==> items != []
    ensures OperandOk(name, Num(text)) && !OperandOk("oneOf", Num(text)) && !OperandOk(name, Arr(items)) && !OperandOk(name, Str(text))
    ensures items != [] ==> (OperatorHolds("oneOf", Arr(items), got) <==> exists i | 0 <= i < |items| :: GoTogetherEverywhere(Exact, items[i], got))
    ensures !got.Num? ==> !OperatorHolds(name, Num(text), got)
  {
    hide GoTogetherEverywhere;
    forall i | 0 <= i < |items| ensures Matches(Exact, got, items[i]) <==> GoTogetherEverywhere(Exact, items[i], got) {
      ExactIsSubsetBothWays(got, items[i]);
      ExactIsSubsetBothWays(items[i], got);
      MatchingIsPlaceByPlace(Exact, items[i], got);
    }
    hide Matches;
  }

  /** The rule of an operator. */
  method CompileOperator(name: string, operand: JSON) returns (r: Option<Predicate>)
    requires name in OPERATORS
    ensures r.Some? <==> OperandOk(name, operand)
    ensures r.Some? ==> forall got :: r.value(got) == OperatorHolds(name, operand, got)
  {
    hide Matches;
    match name
    case "gt" => r := NumberRule(GT, operand);
    case "gte" => r := NumberRule(GTE, operand);
    case "lt" => r := NumberRule(LT, operand);
    case "lte" => r := NumberRule(LTE, operand);
    case _ => r := OneOfRule(operand);
  }

  /** The names of an object, in an order that does not matter to what is compiled. */
  method NamesOf(rules: map<string, JSON>) returns (names: seq<string>)
    ensures forall k :: k in names <==> k in rules
  {
    names := [];
    var rest := rules.Keys;
    while rest != {}
      invariant rest <= rules.Keys
      invariant forall k :: k in names <==> k in rules.Keys - rest
    {
      var k :| k in rest;
      names, rest := names + [k], rest - {k};
    }
  }

  /** The operators of an object, if that is what it holds. An object operand may be a nested field
      instead; any other bad operand is an error. */
  method OperatorLeaf(rules: map<string, JSON>, names: seq<string>, path: string)
    returns (r: Result<Option<Predicate>, RuleError>)
    requires forall k :: k in names <==> k in rules
    ensures r.Ok? && r.value.Some? <==> IsLeaf(rules)
    ensures r.Ok? && r.value.Some? ==>
              forall got :: r.value.value(got) == forall k | k in rules :: OperatorHolds(k, rules[k], got)
    ensures r.Err? ==> exists k :: k in rules && k in OPERATORS && !OperandOk(k, rules[k]) && !rules[k].Obj?
  {
    hide OperatorHolds;
    var ops: seq<Predicate> := [];
    for i := 0 to |names|
      invariant |ops| == i
      invariant forall j | 0 <= j < i :: names[j] in OPERATORS && OperandOk(names[j], rules[names[j]])
      invariant forall j, got | 0 <= j < i :: ops[j](got) == OperatorHolds(names[j], rules[names[j]], got)
    {
      var name := names[i];
      assert name in names;
      if name !in OPERATORS { return Ok(None); }
      var op := CompileOperator(name, rules[name]);
      if op.None? {
        if rules[name].Obj? { return Ok(None); }
        return Err(RuleError(ChildPath(path, name), BadOperand));
      }
      ops := ops + [op.value];
    }
    forall k | k in rules ensures k in OPERATORS && OperandOk(k, rules[k]) {
      var j :| 0 <= j < |names| && names[j] == k;
    }
    var all := (got: JSON) => forall j | 0 <= j < |ops| :: ops[j](got);
    forall got ensures all(got) == forall k | k in rules :: OperatorHolds(k, rules[k], got) {
      forall k | k in rules ensures exists j :: 0 <= j < |names| && names[j] == k {
        assert k in names;
      }
      forall j | 0 <= j < |names| ensures names[j] in rules {
        assert names[j] in names;
      }
    }
    return Ok(Some(all));
  }

  lemma LeafHolds(rules: map<string, JSON>)
    requires rules != map[] && IsLeaf(rules)
    ensures Accepted(Obj(rules))
    ensures forall got :: Holds(Obj(rules), got) == forall k | k in rules :: OperatorHolds(k, rules[k], got)
  {
  }

  /** Compiling accepts exactly the grammar, whatever the order of the names, and the predicate it
      returns says what the rule means. */
  method CompileRuleObject(rules: map<string, JSON>, path: string) returns (r: Result<Predicate, RuleError>)
    ensures r.Ok? <==> Accepted(Obj(rules))
    ensures r.Ok? ==> forall got :: r.value(got) == Holds(Obj(rules), got)
    decreases Obj(rules), 2
  {
    hide OperatorHolds, Holds;
    if rules == map[] { return Err(RuleError(path, EmptyObject)); }
    var names := NamesOf(rules);
    var leaf := OperatorLeaf(rules, names, path);
    if leaf.Err? {
      assert !IsLeaf(rules);
      return Err(leaf.error);
    }
    if leaf.value.Some? {
      LeafHolds(rules);
      return Ok(leaf.value.value);
    }
    var fields := CompileFields(rules, names, path);
    if fields.Err? { return Err(fields.error); }
    forall got ensures AllFields(fields.value)(got) == Holds(Obj(rules), got) {
      AllFieldsHold(rules, names, fields.value, got);
    }
    r := Ok(AllFields(fields.value));
  }

  /** The nested rules of an object, in the order of names. */
  method CompileFields(rules: map<string, JSON>, names: seq<string>, path: string)
    returns (r: Result<seq<(string, Predicate)>, RuleError>)
    requires forall k :: k in names <==> k in rules
    ensures r.Ok? <==> forall k | k in rules :: Accepted(rules[k])
    ensures r.Ok? ==>
              && |r.value| == |names| && (forall j | 0 <= j < |names| :: names[j] in rules && r.value[j].0 == names[j])
              && forall j, got | 0 <= j < |names| :: r.value[j].1(got) == Holds(rules[names[j]], got)
    decreases Obj(rules), 1
  {
    hide OperatorHolds, Holds, Accepted;
    var fields: seq<(string, Predicate)> := [];
    for i := 0 to |names|
      invariant |fields| == i
      invariant forall j | 0 <= j < i :: names[j] in rules && fields[j].0 == names[j] && Accepted(rules[names[j]])
      invariant forall j, got | 0 <= j < i :: fields[j].1(got) == Holds(rules[names[j]], got)
    {
      var name := names[i];
      assert name in names;
      var field := CompileRuleNode(rules[name], ChildPath(path, name), rules, name);
      if field.Err? { return Err(field.error); }
      fields := fields + [(name, field.value)];
    }
    forall k | k in rules ensures Accepted(rules[k]) {
      assert k in names;
    }
    return Ok(fields);
  }

  /** The predicate of an object of nested rules. */
  function AllFields(fields: seq<(string, Predicate)>): Predicate {
    (got: JSON) => got.Obj? && forall j | 0 <= j < |fields| :: fields[j].0 in got.fields && fields[j].1(got.fields[fields[j].0])
  }

  lemma AllFieldsHold(rules: map<string, JSON>, names: seq<string>, fields: seq<(string, Predicate)>, got: JSON)
    requires forall k :: k in names <==> k in rules
    requires Accepted(Obj(rules)) && !IsLeaf(rules) && forall k | k in rules :: Accepted(rules[k])
    requires |fields| == |names| && forall j | 0 <= j < |names| :: names[j] in rules && fields[j].0 == names[j]
    requires forall j, v | 0 <= j < |names| :: fields[j].1(v) == Holds(rules[names[j]], v)
    ensures AllFields(fields)(got) == Holds(Obj(rules), got)
  {
    hide IsLeaf, Accepted, OperatorHolds;
    if Holds(Obj(rules), got) {
      forall j | 0 <= j < |names| ensures fields[j].0 in got.fields && fields[j].1(got.fields[fields[j].0]) {
        assert names[j] in rules;
      }
    }
    if AllFields(fields)(got) {
      forall k | k in rules ensures k in got.fields && Holds(rules[k], got.fields[k]) {
        assert k in names;
        var j :| 0 <= j < |names| && names[j] == k;
        assert fields[j].0 in got.fields;
      }
    }
  }

  method CompileRuleNode(node: JSON, path: string, ghost parent: map<string, JSON>, ghost name: string)
    returns (r: Result<Predicate, RuleError>)
    requires name in parent && parent[name] == node
    ensures r.Ok? <==> Accepted(node)
    ensures r.Ok? ==> forall got :: r.value(got) == Holds(node, got)
    decreases Obj(parent), 0
  {
    match node
    case Obj(fields) => r := CompileRuleObject(fields, path);
    case _ => r := Err(RuleError(path, NotAnObject));
  }

  /** compileJSONBody: a pattern the body must contain, rules it must satisfy, or both. */
  method CompileJSONBody(subset: Option<JSON>, rules: Option<JSON>) returns (r: Result<Option<Predicate>, RuleError>)
    ensures r.Ok? <==> (rules.Some? ==> Accepted(rules.value))
    ensures r.Ok? ==> (r.value.None? <==> subset.None? && rules.None?)
    ensures r.Ok? && r.value.Some? ==>
              forall got :: r.value.value(got) <==>
                (subset.Some? ==> Matches(Subset, subset.value, got)) && (rules.Some? ==> Holds(rules.value, got))
  {
    var literal: Option<Predicate> := None;
    if subset.Some? {
      var pattern := subset.value;
      literal := Some((got: JSON) => Matches(Subset, pattern, got));
    }
    if rules.None? { return Ok(literal); }
    if !rules.value.Obj? { return Err(RuleError("", NotAnObject)); }
    var compiled := CompileRuleObject(rules.value.fields, "");
    if compiled.Err? { return Err(compiled.error); }
    var rule := compiled.value;
    if literal.None? { return Ok(Some(rule)); }
    var contains := literal.value;
    return Ok(Some((got: JSON) => contains(got) && rule(got)));
  }
}
