/** internal/bindings/bindings.go: the key-binding table. Steps are the normalised key names, a
    sequence is one or two of them, and a family gives every action its sequences. A family can be
    held if no two sequences of it get in each other's way; the table of a family has one map for
    shortcuts and one for chords. Building goes through the sequences one by one, in any order, and
    notices what cannot be held; the theorems say that it notices exactly that, that lookups give
    back exactly the family, and that defaults which step aside do so only where they must. */
module Bindings {
  import opened Wrappers

  const SEND_REQUEST := "send_request"

  type Steps = seq<string>

  /** The sequences of every action. */
  type Family = map<string, seq<Steps>>

  datatype Definition = Definition(id: string, defaults: seq<Steps>, repeatable: bool, soft: bool)

  datatype Ref = Ref(action: string, steps: Steps, repeatable: bool) {
    /** What a lookup hands out: only chords repeat. */
    function Binding(): Ref {
      Ref(action, steps, repeatable && |steps| > 1)
    }
  }

  datatype KeyMap = KeyMap(single: map<string, Ref>, chords: map<string, map<string, Ref>>, prefixes: set<string>,
                           actions: map<string, seq<Ref>>)
  {
    function MatchSingle(key: string): Option<Ref> {
      if key in single then Some(single[key].Binding()) else None
    }

    predicate HasChordPrefix(key: string) {
      key in prefixes
    }

    function ResolveChord(prefix: string, next: string): Option<Ref> {
      if prefix in chords && next in chords[prefix] then Some(chords[prefix][next].Binding()) else None
    }
  }

  // ---------------------------------------------------------------- collisions

  predicate IsPrefix(a: Steps, b: Steps) {
    |a| <= |b| && a == b[..|a|]
  }

  function Min(a: nat, b: nat): nat { if a < b then a else b }

  predicate SequencesCollide(a: Steps, b: Steps) {
    var n := Min(|a|, |b|);
    a[..n] == b[..n]
  }

  /** Sequences collide when one is a prefix of the other. */
  lemma CollidingIsPrefixing(a: Steps, b: Steps)
    ensures SequencesCollide(a, b) <==> IsPrefix(a, b) || IsPrefix(b, a)
  {
    assert a[..|a|] == a && b[..|b|] == b;
  }

  /** How the check for duplicates within an action writes a sequence. */
  function Joined(s: Steps): string
    requires 1 <= |s| <= 2
  {
    if |s| == 1 then s[0] else s[0] + " \U{21D2} " + s[1]
  }

  predicate Fits(action: string, s: Steps) {
    |s| <= 2 && (action == SEND_REQUEST ==> |s| == 1)
  }

  /** Two sequences the table cannot hold together. */
  predicate Clash(a: string, s: Steps, b: string, t: Steps) {
    || SequencesCollide(s, t)
    || (a == b && 1 <= |s| <= 2 && 1 <= |t| <= 2 && Joined(s) == Joined(t))
  }

  predicate SpaceFree(s: Steps) {
    forall i | 0 <= i < |s| :: ' ' !in s[i]
  }

  lemma JoinedTellsApart(s: Steps, t: Steps)
    requires 1 <= |s| <= 2 && 1 <= |t| <= 2 && SpaceFree(s) && SpaceFree(t) && Joined(s) == Joined(t)
    ensures s == t
  {
    FirstSpace(s);
    FirstSpace(t);
  }

  lemma FirstSpace(s: Steps)
    requires 1 <= |s| <= 2 && SpaceFree(s)
    ensures |s| == 1 <==> ' ' !in Joined(s)
    ensures |s| == 1 ==> s == [Joined(s)]
    ensures |s| == 2 ==>
              var k := |s[0]|;
              && k + 3 <= |Joined(s)| && Joined(s)[k] == ' ' && (forall i | 0 <= i < k :: Joined(s)[i] != ' ')
              && s == [Joined(s)[..k], Joined(s)[k + 3..]]
  {
    if |s| == 2 {
      var sep := " \U{21D2} ";
      assert sep[0] == ' ' && |sep| == 3;
      assert Joined(s)[|s[0]|] == sep[0];
      assert Joined(s) == s[0] + (sep + s[1]);
    }
  }

  /** Steps hold no spaces, since bindings are split at them: then clashing is colliding. */
  lemma SpaceFreeClashIsCollision(a: string, s: Steps, b: string, t: Steps)
    requires s != [] && t != [] && SpaceFree(s) && SpaceFree(t)
    ensures Clash(a, s, b, t) <==> IsPrefix(s, t) || IsPrefix(t, s)
  {
    CollidingIsPrefixing(s, t);
    if 1 <= |s| <= 2 && 1 <= |t| <= 2 && Joined(s) == Joined(t) {
      JoinedTellsApart(s, t);
    }
  }

  // ---------------------------------------------------------------- families

  /** The sequences of an action in order; past their end there are only empty ones. */
  ghost function Nth(f: Family, id: string, i: int): Steps {
    if id in f && 0 <= i < |f[id]| then f[id][i] else []
  }

  ghost predicate Has(f: Family, id: string, i: int) {
    Nth(f, id, i) != []
  }

  /** A family the table can hold: sequences of one or two steps, one for sending a request, no two of
      which clash. Empty sequences are skipped. */
  ghost predicate FamilyOk(f: Family) {
    && (forall id, i | Has(f, id, i) :: Fits(id, Nth(f, id, i)))
    && (forall a, i, b, j | Has(f, a, i) && Has(f, b, j) && (a, i) != (b, j) :: !Clash(a, Nth(f, a, i), b, Nth(f, b, j)))
  }

  ghost predicate SpaceFreeFamily(f: Family) {
    forall id, i | Has(f, id, i) :: SpaceFree(Nth(f, id, i))
  }

  /** With steps as they are parsed, a family is held exactly when its sequences have one or two
      steps and none is a prefix of another. */
  lemma HeldIsPrefixFree(f: Family)
    requires SpaceFreeFamily(f)
    ensures FamilyOk(f) <==>
            && (forall id, i | Has(f, id, i) :: |Nth(f, id, i)| == 1 || (|Nth(f, id, i)| == 2 && id != "send_request"))
            && (forall a, i, b, j | Has(f, a, i) && Has(f, b, j) && (a, i) != (b, j) :: !IsPrefix(Nth(f, a, i), Nth(f, b, j)))
  {
    hide Clash, IsPrefix, SpaceFree;
    forall a, i, b, j | Has(f, a, i) && Has(f, b, j) && (a, i) != (b, j)
      ensures Clash(a, Nth(f, a, i), b, Nth(f, b, j)) <==> IsPrefix(Nth(f, a, i), Nth(f, b, j)) || IsPrefix(Nth(f, b, j), Nth(f, a, i))
    {
      SpaceFreeClashIsCollision(a, Nth(f, a, i), b, Nth(f, b, j));
    }
  }

  // ---------------------------------------------------------------- the table of a family

  predicate Repeats(rep: map<string, bool>, id: string) { id in rep && rep[id] }

  function RefOf(rep: map<string, bool>, id: string, s: Steps): Ref {
    Ref(id, s, Repeats(rep, id))
  }

  function Refs(rep: map<string, bool>, id: string, seqs: seq<Steps>): seq<Ref> {
    if seqs == [] then []
    else
      var n := |seqs| - 1;
      Refs(rep, id, seqs[..n]) + if seqs[n] == [] then [] else [RefOf(rep, id, seqs[n])]
  }

  /** The bindings of an action are its sequences in order, the empty ones left out. */
  lemma RefsInOrder(rep: map<string, bool>, id: string, seqs: seq<Steps>, s: Steps)
    ensures Refs(rep, id, []) == [] && Refs(rep, id, seqs + [[]]) == Refs(rep, id, seqs)
    ensures s != [] ==> Refs(rep, id, seqs + [s]) == Refs(rep, id, seqs) + [Ref(id, s, id in rep && rep[id])]
  {
    assert (seqs + [s])[..|seqs|] == seqs && (seqs + [[]])[..|seqs|] == seqs;
  }

  ghost predicate Binds(f: Family, id: string, s: Steps) {
    exists i :: Has(f, id, i) && Nth(f, id, i) == s
  }

  /** The lookups hold what the family binds, and nothing else. */
  ghost predicate IsTable(f: Family, rep: map<string, bool>, single: map<string, Ref>, chords: map<string, map<string, Ref>>) {
    && (forall id, i | Has(f, id, i) :: Recorded(rep, id, Nth(f, id, i), single, chords))
    && (forall k | k in single :: Binds(f, single[k].action, [k]) && single[k] == RefOf(rep, single[k].action, [k]))
    && (forall p | p in chords :: chords[p] != map[])
    && (forall p | p in chords :: forall n | n in chords[p] ::
      Binds(f, chords[p][n].action, [p, n]) && chords[p][n] == RefOf(rep, chords[p][n].action, [p, n]))
  }

  ghost predicate Recorded(rep: map<string, bool>, id: string, s: Steps, single: map<string, Ref>, chords: map<string, map<string, Ref>>) {
    if |s| == 1 then s[0] in single && single[s[0]] == RefOf(rep, id, s)
    else |s| == 2 && s[0] in chords && s[1] in chords[s[0]] && chords[s[0]][s[1]] == RefOf(rep, id, s)
  }

  ghost predicate IsKeyMap(f: Family, rep: map<string, bool>, m: KeyMap) {
    && IsTable(f, rep, m.single, m.chords) && m.prefixes == m.chords.Keys
    && m.actions.Keys == f.Keys && forall id | id in f :: m.actions[id] == Refs(rep, id, f[id])
  }

  /** The lookups of a table are exactly the relation of its family, and no key is both a shortcut and
      the start of a chord. */
  lemma LookupsAreTheFamily(f: Family, rep: map<string, bool>, m: KeyMap, k: string, n: string)
    requires FamilyOk(f) && IsKeyMap(f, rep, m)
    ensures forall r: Ref :: m.MatchSingle(k) == Some(r) <==> Binds(f, r.action, [k]) && r == Ref(r.action, [k], false)
    ensures forall r: Ref :: m.ResolveChord(k, n) == Some(r) <==> Binds(f, r.action, [k, n]) && r == RefOf(rep, r.action, [k, n])
    ensures m.HasChordPrefix(k) <==> exists id, last :: Binds(f, id, [k, last])
    ensures m.MatchSingle(k) == None || !m.HasChordPrefix(k)
  {
    hide Clash, Fits;
    if k in m.chords {
      var last :| last in m.chords[k];
      assert Binds(f, m.chords[k][last].action, [k, last]);
      if k in m.single {
        ShortcutOrChord(f, m.single[k].action, m.chords[k][last].action, k, last);
      }
    }
  }

  lemma ShortcutOrChord(f: Family, a: string, b: string, k: string, last: string)
    requires FamilyOk(f)
    ensures !(Binds(f, a, [k]) && Binds(f, b, [k, last]))
  {
    CollidingIsPrefixing([k], [k, last]);
    assert [k, last][..1] == [k];
    assert Clash(a, [k], b, [k, last]);
  }

  /** A family has one table, so the order in which the actions are visited leaves no trace. */
  lemma TableIsUnique(f: Family, rep: map<string, bool>, m: KeyMap, n: KeyMap)
    requires IsKeyMap(f, rep, m) && IsKeyMap(f, rep, n)
    ensures m == n
  {
    hide IsTable;
    TableIsContained(f, rep, m, n);
    TableIsContained(f, rep, n, m);
    assert m.single == n.single;
    ChordsAreEqual(m.chords, n.chords);
    assert m.actions == n.actions;
  }

  lemma ChordsAreEqual(m: map<string, map<string, Ref>>, n: map<string, map<string, Ref>>)
    requires forall p | p in m :: p in n && forall k | k in m[p] :: k in n[p] && n[p][k] == m[p][k]
    requires forall p | p in n :: p in m && forall k | k in n[p] :: k in m[p] && m[p][k] == n[p][k]
    ensures m == n
  {
    forall p | p in m ensures p in n && m[p] == n[p] {
    }
  }

  lemma TableIsContained(f: Family, rep: map<string, bool>, m: KeyMap, n: KeyMap)
    requires IsKeyMap(f, rep, m) && IsKeyMap(f, rep, n)
    ensures forall k | k in m.single :: k in n.single && n.single[k] == m.single[k]
    ensures forall p | p in m.chords :: p in n.chords && forall k | k in m.chords[p] :: k in n.chords[p] && n.chords[p][k] == m.chords[p][k]
  {
    hide RefOf;
    forall k | k in m.single ensures k in n.single && n.single[k] == m.single[k] {
      ShortcutIsThere(f, rep, m, n, k);
    }
    forall p | p in m.chords
      ensures p in n.chords && forall k | k in m.chords[p] :: k in n.chords[p] && n.chords[p][k] == m.chords[p][k]
    {
      var k :| k in m.chords[p];
      ChordIsThere(f, rep, m, n, p, k);
      forall k | k in m.chords[p] ensures k in n.chords[p] && n.chords[p][k] == m.chords[p][k] {
        ChordIsThere(f, rep, m, n, p, k);
      }
    }
  }

  lemma ShortcutIsThere(f: Family, rep: map<string, bool>, m: KeyMap, n: KeyMap, k: string)
    requires IsKeyMap(f, rep, m) && IsKeyMap(f, rep, n) && k in m.single
    ensures k in n.single && n.single[k] == m.single[k]
  {
    hide RefOf, Nth;
    assert Binds(f, m.single[k].action, [k]);
    var i :| Has(f, m.single[k].action, i) && Nth(f, m.single[k].action, i) == [k];
    assert Recorded(rep, m.single[k].action, [k], n.single, n.chords);
  }

  lemma ChordIsThere(f: Family, rep: map<string, bool>, m: KeyMap, n: KeyMap, p: string, k: string)
    requires IsKeyMap(f, rep, m) && IsKeyMap(f, rep, n) && p in m.chords && k in m.chords[p]
    ensures p in n.chords && k in n.chords[p] && n.chords[p][k] == m.chords[p][k]
  {
    hide RefOf, Nth;
    var id := m.chords[p][k].action;
    assert Binds(f, id, [p, k]);
    var i :| Has(f, id, i) && Nth(f, id, i) == [p, k];
    assert Recorded(rep, id, [p, k], n.single, n.chords);
  }

  // ---------------------------------------------------------------- building the table

  /** What the build notices while it goes through the sequences: the same one twice. */
  predicate Same(a: string, s: Steps, b: string, t: Steps) {
    || s == t
    || (a == b && 1 <= |s| <= 2 && 1 <= |t| <= 2 && Joined(s) == Joined(t))
  }

  ghost predicate Good(f: Family) {
    && (forall id, i | Has(f, id, i) :: Fits(id, Nth(f, id, i)))
    && (forall a, i, b, j | Has(f, a, i) && Has(f, b, j) && (a, i) != (b, j) :: !Same(a, Nth(f, a, i), b, Nth(f, b, j)))
  }

  ghost predicate New(f: Family, id: string, s: Steps) {
    forall a, i | Has(f, a, i) :: !Same(a, Nth(f, a, i), id, s)
  }

  function At(f: Family, id: string): seq<Steps> {
    if id in f then f[id] else []
  }

  function With(f: Family, id: string, s: Steps): Family {
    f[id := At(f, id) + [s]]
  }

  lemma NthWith(f: Family, id: string, s: Steps)
    ensures forall a, i :: Nth(With(f, id, s), a, i) == if (a, i) == (id, |At(f, id)|) then s else Nth(f, a, i)
    ensures Nth(f, id, |At(f, id)|) == []
  {
  }

  /** One more sequence is good when it fits and is new. */
  lemma GoodWith(f: Family, id: string, s: Steps)
    ensures Good(With(f, id, s)) <==> Good(f) && (s == [] || (Fits(id, s) && New(f, id, s)))
  {
    hide Fits, Same, Nth, With, At;
    var g, n := With(f, id, s), |At(f, id)|;
    NthWith(f, id, s);
    assert Nth(g, id, n) == s;
    if Good(g) {
      forall a, i | Has(f, a, i) ensures Fits(a, Nth(f, a, i)) && (s != [] ==> !Same(a, Nth(f, a, i), id, s)) {
        assert Has(g, a, i) && (s != [] ==> Has(g, id, n));
      }
      forall a, i, b, j | Has(f, a, i) && Has(f, b, j) && (a, i) != (b, j) ensures !Same(a, Nth(f, a, i), b, Nth(f, b, j)) {
        assert Has(g, a, i) && Has(g, b, j);
      }
    }
    if Good(f) && (s == [] || (Fits(id, s) && New(f, id, s))) {
      forall a, i, b, j | Has(g, a, i) && Has(g, b, j) && (a, i) != (b, j) ensures !Same(a, Nth(g, a, i), b, Nth(g, b, j)) {
        SameIsSymmetric(a, Nth(g, a, i), b, Nth(g, b, j));
      }
    }
  }

  lemma SameIsSymmetric(a: string, s: Steps, b: string, t: Steps)
    ensures Same(a, s, b, t) <==> Same(b, t, a, s)
  {
  }

  /** A sequence that is new finds its place in the lookups empty; one that is already bound finds it
      taken. */
  lemma TakenIsBound(f: Family, rep: map<string, bool>, single: map<string, Ref>, chords: map<string, map<string, Ref>>, s: Steps)
    requires IsTable(f, rep, single, chords) && 1 <= |s| <= 2
    ensures (if |s| == 1 then s[0] in single else s[0] in chords && s[1] in chords[s[0]])
            <==> exists a, i :: Has(f, a, i) && Nth(f, a, i) == s
  {
    hide Nth;
    if |s| == 1 {
      assert s == [s[0]];
      if s[0] in single {
        assert Binds(f, single[s[0]].action, s);
      }
    } else {
      assert s == [s[0], s[1]];
      if s[0] in chords && s[1] in chords[s[0]] {
        assert Binds(f, chords[s[0]][s[1]].action, s);
      }
    }
  }

  lemma TableWithNothing(f: Family, rep: map<string, bool>, single: map<string, Ref>, chords: map<string, map<string, Ref>>, id: string)
    requires IsTable(f, rep, single, chords)
    ensures IsTable(With(f, id, []), rep, single, chords)
  {
    hide Nth, With, At, Recorded;
    NthWith(f, id, []);
    BindsWith(f, id, []);
  }

  lemma BindsWith(f: Family, id: string, s: Steps)
    ensures forall a, t :: Binds(f, a, t) ==> Binds(With(f, id, s), a, t)
    ensures s != [] ==> Binds(With(f, id, s), id, s)
  {
    hide Nth, With, At;
    var g := With(f, id, s);
    NthWith(f, id, s);
    forall a, t | Binds(f, a, t) ensures Binds(g, a, t) {
      var i :| Has(f, a, i) && Nth(f, a, i) == t;
      assert Has(g, a, i) && Nth(g, a, i) == t;
    }
    if s != [] {
      assert Has(g, id, |At(f, id)|) && Nth(g, id, |At(f, id)|) == s;
    }
  }

  lemma TableWithShortcut(f: Family, rep: map<string, bool>, single: map<string, Ref>, chords: map<string, map<string, Ref>>, id: string, s: Steps)
    requires IsTable(f, rep, single, chords) && |s| == 1 && s[0] !in single
    ensures IsTable(With(f, id, s), rep, single[s[0] := RefOf(rep, id, s)], chords)
  {
    hide Nth, With, At;
    NthWith(f, id, s);
    BindsWith(f, id, s);
    assert s == [s[0]];
  }

  lemma RecordedWithChord(rep: map<string, bool>, a: string, t: Steps, single: map<string, Ref>, chords: map<string, map<string, Ref>>,
                          s: Steps, bucket: map<string, Ref>, ref: Ref)
    requires |s| == 2 && bucket == (if s[0] in chords then chords[s[0]] else map[]) && s[1] !in bucket
    requires Recorded(rep, a, t, single, chords)
    ensures Recorded(rep, a, t, single, chords[s[0] := bucket[s[1] := ref]])
  {
  }

  lemma TableWithChord(f: Family, rep: map<string, bool>, single: map<string, Ref>, chords: map<string, map<string, Ref>>, id: string, s: Steps,
                       bucket: map<string, Ref>)
    requires IsTable(f, rep, single, chords) && |s| == 2
    requires bucket == (if s[0] in chords then chords[s[0]] else map[]) && s[1] !in bucket
    ensures IsTable(With(f, id, s), rep, single, chords[s[0] := bucket[s[1] := RefOf(rep, id, s)]])
  {
    hide Nth, With, At, Recorded, Binds, RefOf;
    var g, ref := With(f, id, s), RefOf(rep, id, s);
    var all := chords[s[0] := bucket[s[1] := ref]];
    NthWith(f, id, s);
    BindsWith(f, id, s);
    assert s == [s[0], s[1]];
    assert Recorded(rep, id, s, single, all) by { NewChordIsRecorded(rep, id, s, single, all); }
    forall a, i | Has(g, a, i) ensures Recorded(rep, a, Nth(g, a, i), single, all) {
      if (a, i) != (id, |At(f, id)|) {
        assert Has(f, a, i);
        RecordedWithChord(rep, a, Nth(f, a, i), single, chords, s, bucket, ref);
      }
    }
    forall p, n | p in all && n in all[p]
      ensures Binds(g, all[p][n].action, [p, n]) && all[p][n] == RefOf(rep, all[p][n].action, [p, n])
    {
      if p == s[0] && n == s[1] {
        RefNames(rep, id, s);
      } else if p == s[0] {
        assert p in chords && n in chords[p];
      }
    }
  }

  lemma NewChordIsRecorded(rep: map<string, bool>, id: string, s: Steps, single: map<string, Ref>, all: map<string, map<string, Ref>>)
    requires |s| == 2 && s[0] in all && s[1] in all[s[0]] && all[s[0]][s[1]] == RefOf(rep, id, s)
    ensures Recorded(rep, id, s, single, all)
  {
  }

  lemma RefNames(rep: map<string, bool>, id: string, s: Steps)
    ensures RefOf(rep, id, s).action == id
  {
  }

  /** What the check for duplicates within an action has written. */
  ghost predicate SeenAs(f: Family, id: string, key: string) {
    exists i :: Has(f, id, i) && 1 <= |Nth(f, id, i)| <= 2 && Joined(Nth(f, id, i)) == key
  }

  ghost predicate IsSeen(f: Family, id: string, seen: set<string>) {
    forall key :: key in seen <==> SeenAs(f, id, key)
  }

  lemma NewIsUnseen(f: Family, id: string, s: Steps)
    requires 1 <= |s| <= 2 && forall a, i | Has(f, a, i) :: Fits(a, Nth(f, a, i))
    ensures New(f, id, s) <==>
            && !(exists a, i :: Has(f, a, i) && Nth(f, a, i) == s)
            && !SeenAs(f, id, Joined(s))
  {
    hide Nth, Joined;
    if New(f, id, s) {
      forall i | Has(f, id, i) && 1 <= |Nth(f, id, i)| <= 2 ensures Joined(Nth(f, id, i)) != Joined(s) {
        assert !Same(id, Nth(f, id, i), id, s);
      }
    }
  }

  lemma GoodPart(f: Family, id: string, seqs: seq<Steps>, k: nat)
    requires k <= |seqs| && Good(f[id := seqs])
    ensures Good(f[id := seqs[..k]])
  {
    hide Fits, Same;
    var g, h := f[id := seqs], f[id := seqs[..k]];
    assert forall a, i | Has(h, a, i) :: Has(g, a, i) && Nth(g, a, i) == Nth(h, a, i);
  }

  lemma NoSequencesYet(f: Family, rep: map<string, bool>, single: map<string, Ref>, chords: map<string, map<string, Ref>>, id: string)
    requires id !in f && Good(f) && IsTable(f, rep, single, chords)
    ensures Good(f[id := []]) && IsTable(f[id := []], rep, single, chords)
  {
    hide Fits, Same, Recorded;
    var g := f[id := []];
    assert forall a, i :: Nth(g, a, i) == Nth(f, a, i);
    forall a, t | Binds(f, a, t) ensures Binds(g, a, t) {
      var i :| Has(f, a, i) && Nth(f, a, i) == t;
      assert Has(g, a, i);
    }
  }

  /** One sequence: it is refused unless it is new, and otherwise entered. */
  method AddSequence(ghost f: Family, rep: map<string, bool>, id: string, s: Steps, seen: set<string>,
                     single: map<string, Ref>, chords: map<string, map<string, Ref>>)
    returns (ok: bool, single': map<string, Ref>, chords': map<string, map<string, Ref>>)
    requires Good(f) && IsTable(f, rep, single, chords) && s != []
    requires IsSeen(f, id, seen)
    ensures ok <==> Good(With(f, id, s))
    ensures ok ==> IsTable(With(f, id, s), rep, single', chords') && |s| <= 2
  {
    hide IsTable, Same, Nth, With, Recorded;
    single', chords', ok := single, chords, false;
    GoodWith(f, id, s);
    if |s| > 2 { return; }
    if id == SEND_REQUEST && |s| != 1 { return; }
    TakenIsBound(f, rep, single, chords, s);
    NewIsUnseen(f, id, s);
    if Joined(s) in seen { return; }
    if |s| == 1 {
      if s[0] in single { return; }
      TableWithShortcut(f, rep, single, chords, id, s);
      single' := single[s[0] := RefOf(rep, id, s)];
    } else {
      var bucket := if s[0] in chords then chords[s[0]] else map[];
      if s[1] in bucket { return; }
      TableWithChord(f, rep, single, chords, id, s, bucket);
      chords' := chords[s[0] := bucket[s[1] := RefOf(rep, id, s)]];
    }
    ok := true;
  }

  lemma SeenWith(f: Family, id: string, s: Steps, seen: set<string>)
    requires 0 <= |s| <= 2
    requires IsSeen(f, id, seen)
    ensures IsSeen(With(f, id, s), id, if s == [] then seen else seen + {Joined(s)})
  {
    hide Nth, With, At, Joined;
    var g, n := With(f, id, s), |At(f, id)|;
    NthWith(f, id, s);
    assert Nth(g, id, n) == s;
    forall key | SeenAs(f, id, key) ensures SeenAs(g, id, key) {
      var i :| Has(f, id, i) && 1 <= |Nth(f, id, i)| <= 2 && Joined(Nth(f, id, i)) == key;
      assert Has(g, id, i) && 1 <= |Nth(g, id, i)| <= 2 && Joined(Nth(g, id, i)) == key;
    }
  }

  lemma WithOneMore(f: Family, id: string, seqs: seq<Steps>, i: nat)
    requires i < |seqs|
    ensures With(f[id := seqs[..i]], id, seqs[i]) == f[id := seqs[..i + 1]]
  {
    assert seqs[..i + 1] == seqs[..i] + [seqs[i]];
  }

  /** The sequences of one action. */
  method AddAction(ghost f: Family, rep: map<string, bool>, id: string, seqs: seq<Steps>,
                   single: map<string, Ref>, chords: map<string, map<string, Ref>>)
    returns (ok: bool, single': map<string, Ref>, chords': map<string, map<string, Ref>>, refs: seq<Ref>)
    requires id !in f && Good(f) && IsTable(f, rep, single, chords)
    ensures ok <==> Good(f[id := seqs])
    ensures ok ==> IsTable(f[id := seqs], rep, single', chords') && refs == Refs(rep, id, seqs)
  {
    hide IsTable, Good, Joined;
    single', chords', refs := single, chords, [];
    var seen: set<string> := {};
    NoSequencesYet(f, rep, single, chords, id);
    for i := 0 to |seqs|
      invariant Good(f[id := seqs[..i]]) && IsTable(f[id := seqs[..i]], rep, single', chords')
      invariant refs == Refs(rep, id, seqs[..i])
      invariant IsSeen(f[id := seqs[..i]], id, seen)
    {
      ghost var g := f[id := seqs[..i]];
      var s := seqs[i];
      WithOneMore(f, id, seqs, i);
      assert seqs[..i + 1][..i] == seqs[..i];
      if s == [] {
        GoodWith(g, id, s);
        TableWithNothing(g, rep, single', chords', id);
        SeenWith(g, id, s, seen);
        continue;
      }
      ok, single', chords' := AddSequence(g, rep, id, s, seen, single', chords');
      if !ok {
        if Good(f[id := seqs]) {
          GoodPart(f, id, seqs, i + 1);
        }
        return;
      }
      SeenWith(g, id, s, seen);
      seen := seen + {Joined(s)};
      refs := refs + [RefOf(rep, id, s)];
    }
    assert seqs[..|seqs|] == seqs;
    ok := true;
  }

  // ---------------------------------------------------------------- the whole build

  /** A soft default steps aside when one of its keys is claimed without rebinding the action. */
  predicate Yields(d: Definition, overrides: Family) {
    && d.id !in overrides
    && exists id | id in overrides ::
         exists i, j | 0 <= i < |overrides[id]| && 0 <= j < |d.defaults| :: SequencesCollide(d.defaults[j], overrides[id][i])
  }

  function Defaults(defs: seq<Definition>, overrides: Family): Family {
    if defs == [] then map[]
    else
      var n := |defs| - 1;
      var rest := Defaults(defs[..n], overrides);
      if defs[n].soft && Yields(defs[n], overrides) then rest else rest[defs[n].id := defs[n].defaults]
  }

  /** What is to be bound: the overrides, and the defaults of the other actions. */
  function Effective(defs: seq<Definition>, overrides: Family): Family {
    Defaults(defs, overrides) + overrides
  }

  function Repeatables(defs: seq<Definition>): map<string, bool> {
    if defs == [] then map[]
    else Repeatables(defs[..|defs| - 1])[defs[|defs| - 1].id := defs[|defs| - 1].repeatable]
  }

  /** An action repeats as its definition says, and one without a definition does not. */
  lemma {:induction false} RepeatsAsDefined(defs: seq<Definition>, id: string)
    requires forall i, j | 0 <= i < j < |defs| :: defs[i].id != defs[j].id
    ensures forall d | d in defs && d.id == id :: Repeats(Repeatables(defs), id) == d.repeatable
    ensures (forall d | d in defs :: d.id != id) ==> !Repeats(Repeatables(defs), id)
  {
    if defs != [] {
      var n := |defs| - 1;
      RepeatsAsDefined(defs[..n], id);
      assert defs == defs[..n] + [defs[n]];
    }
  }

  /** So a lookup tells whether to repeat: never for a shortcut, for a chord as the definition says. */
  lemma LookupsRepeatAsDefined(defs: seq<Definition>, overrides: Family, m: KeyMap, d: Definition, k: string, n: string)
    requires (forall i, j | 0 <= i < j < |defs| :: defs[i].id != defs[j].id) && d in defs
    requires FamilyOk(Effective(defs, overrides)) && IsKeyMap(Effective(defs, overrides), Repeatables(defs), m)
    ensures m.MatchSingle(k).Some? ==> !m.MatchSingle(k).value.repeatable
    ensures m.ResolveChord(k, n).Some? && m.ResolveChord(k, n).value.action == d.id ==> m.ResolveChord(k, n).value.repeatable == d.repeatable
  {
    hide Effective, FamilyOk, Repeatables, IsKeyMap;
    LookupsAreTheFamily(Effective(defs, overrides), Repeatables(defs), m, k, n);
    RepeatsAsDefined(defs, d.id);
  }

  ghost function Part(f: Family, ids: set<string>): Family {
    map id | id in f && id in ids :: f[id]
  }

  lemma GoodParts(f: Family, ids: set<string>)
    requires Good(f)
    ensures Good(Part(f, ids))
  {
    hide Fits, Same;
    var g := Part(f, ids);
    assert forall a, i | Has(g, a, i) :: Has(f, a, i) && Nth(f, a, i) == Nth(g, a, i);
  }

  lemma PartWith(f: Family, ids: set<string>, id: string)
    requires id in f && id !in ids
    ensures id !in Part(f, ids) && Part(f, ids)[id := f[id]] == Part(f, ids + {id})
  {
  }

  lemma NothingIsTable(f: Family, rep: map<string, bool>)
    ensures Good(Part(f, {})) && IsTable(Part(f, {}), rep, map[], map[])
  {
  }

  lemma SameIsClash(a: string, s: Steps, b: string, t: Steps)
    ensures Same(a, s, b, t) ==> Clash(a, s, b, t)
    ensures 1 <= |s| <= 2 && 1 <= |t| <= 2 ==>
              (Clash(a, s, b, t) <==> Same(a, s, b, t) || (|s| == 1 && |t| == 2 && s[0] == t[0]) || (|t| == 1 && |s| == 2 && s[0] == t[0]))
  {
    CollidingIsPrefixing(s, t);
    hide Joined;
    assert s[..|s|] == s && t[..|t|] == t;
    if |s| == 1 { assert s == [s[0]]; }
    if |t| == 1 { assert t == [t[0]]; }
  }

  /** What the final pass over the chord prefixes adds to what the build has noticed. */
  lemma OkIsGoodUnlessShadowed(f: Family, rep: map<string, bool>, single: map<string, Ref>, chords: map<string, map<string, Ref>>)
    requires Good(f) && IsTable(f, rep, single, chords)
    ensures FamilyOk(f) <==> forall p | p in chords :: p !in single
  {
    hide Nth, Joined, Fits, Same, Clash, Recorded;
    if FamilyOk(f) {
      forall p | p in chords ensures p !in single {
        var n :| n in chords[p];
        if p in single {
          ShortcutOrChord(f, single[p].action, chords[p][n].action, p, n);
        }
      }
    }
    if forall p | p in chords :: p !in single {
      forall a, i, b, j | Has(f, a, i) && Has(f, b, j) && (a, i) != (b, j) ensures !Clash(a, Nth(f, a, i), b, Nth(f, b, j)) {
        NoClash(rep, a, Nth(f, a, i), b, Nth(f, b, j), single, chords);
      }
    }
  }

  lemma NoClash(rep: map<string, bool>, a: string, s: Steps, b: string, t: Steps, single: map<string, Ref>, chords: map<string, map<string, Ref>>)
    requires Recorded(rep, a, s, single, chords) && Recorded(rep, b, t, single, chords)
    requires s != [] && t != [] && Fits(a, s) && Fits(b, t) && !Same(a, s, b, t) && forall p | p in chords :: p !in single
    ensures !Clash(a, s, b, t)
  {
    hide Recorded, Same, Clash;
    NotShadowed(rep, a, s, b, t, single, chords);
    NotShadowed(rep, b, t, a, s, single, chords);
    SameIsClash(a, s, b, t);
  }

  lemma NotShadowed(rep: map<string, bool>, a: string, s: Steps, b: string, t: Steps, single: map<string, Ref>, chords: map<string, map<string, Ref>>)
    requires Recorded(rep, a, s, single, chords) && Recorded(rep, b, t, single, chords)
    requires forall p | p in chords :: p !in single
    ensures !(|s| == 1 && |t| == 2 && s[0] == t[0])
  {
  }

  lemma OkIsGood(f: Family)
    requires FamilyOk(f)
    ensures Good(f)
  {
    hide Nth, Fits, Same, Clash;
    forall a, i, b, j | Has(f, a, i) && Has(f, b, j) && (a, i) != (b, j) ensures !Same(a, Nth(f, a, i), b, Nth(f, b, j)) {
      SameIsClash(a, Nth(f, a, i), b, Nth(f, b, j));
    }
  }

  /** The overrides over the defaults. */
  method Collect(defs: seq<Definition>, overrides: Family) returns (byAction: Family, rep: map<string, bool>)
    ensures byAction == Effective(defs, overrides) && rep == Repeatables(defs)
  {
    hide Yields;
    byAction, rep := map[], map[];
    for i := 0 to |defs|
      invariant byAction == Defaults(defs[..i], overrides) && rep == Repeatables(defs[..i])
    {
      assert defs[..i + 1][..i] == defs[..i];
      rep := rep[defs[i].id := defs[i].repeatable];
      if defs[i].soft && Yields(defs[i], overrides) {
        continue;
      }
      byAction := byAction[defs[i].id := defs[i].defaults];
    }
    assert defs[..|defs|] == defs;
    byAction := Override(byAction, overrides);
  }

  method Override(defaults: Family, overrides: Family) returns (byAction: Family)
    ensures byAction == defaults + overrides
  {
    byAction := defaults;
    var todo := overrides.Keys;
    while todo != {}
      invariant todo <= overrides.Keys
      invariant byAction == defaults + Part(overrides, overrides.Keys - todo)
    {
      var id :| id in todo;
      byAction := byAction[id := overrides[id]];
      todo := todo - {id};
    }
    assert Part(overrides, overrides.Keys) == overrides;
  }

  /** The build, visiting maps in whatever order: it takes the family of the definitions and the
      overrides if and only if the table can hold it, and then makes the table of it. */
  method BuildMap(defs: seq<Definition>, overrides: Family) returns (r: Option<KeyMap>)
    ensures r.Some? <==> FamilyOk(Effective(defs, overrides))
    ensures r.Some? ==> IsKeyMap(Effective(defs, overrides), Repeatables(defs), r.value)
  {
    hide Good, IsTable, FamilyOk, Part, Effective, Repeatables, Refs;
    var f, rep := Collect(defs, overrides);
    var single, chords, actions := map[], map[], map[];
    NothingIsTable(f, rep);
    var todo := f.Keys;
    ghost var done: set<string> := {};
    while todo != {}
      invariant todo == f.Keys - done && done <= f.Keys
      invariant Good(Part(f, done)) && IsTable(Part(f, done), rep, single, chords)
      invariant actions.Keys == done && forall id | id in done :: actions[id] == Refs(rep, id, f[id])
    {
      var id :| id in todo;
      var ok, refs;
      PartWith(f, done, id);
      ok, single, chords, refs := AddAction(Part(f, done), rep, id, f[id], single, chords);
      if !ok {
        NotGoodNotOk(f, done + {id});
        return None;
      }
      actions := actions[id := refs];
      todo := todo - {id};
      done := done + {id};
    }
    WholePart(f, done);
    OkIsGoodUnlessShadowed(f, rep, single, chords);
    var prefixes := chords.Keys;
    todo := prefixes;
    while todo != {}
      invariant todo <= prefixes && forall p | p in prefixes - todo :: p !in single
    {
      var p :| p in todo;
      if p in single {
        return None;
      }
      todo := todo - {p};
    }
    return Some(KeyMap(single, chords, prefixes, actions));
  }

  lemma NotGoodNotOk(f: Family, ids: set<string>)
    requires !Good(Part(f, ids))
    ensures !FamilyOk(f)
  {
    if FamilyOk(f) {
      OkIsGood(f);
      GoodParts(f, ids);
    }
  }

  lemma WholePart(f: Family, ids: set<string>)
    requires ids == f.Keys
    ensures Part(f, ids) == f
  {
  }

  // ---------------------------------------------------------------- soft defaults

  ghost predicate UniqueIds(defs: seq<Definition>) {
    forall i, j | 0 <= i < j < |defs| :: defs[i].id != defs[j].id
  }

  /** The definitions without the soft ones. */
  function Hard(defs: seq<Definition>): seq<Definition> {
    if defs == [] then []
    else
      var n := |defs| - 1;
      Hard(defs[..n]) + if defs[n].soft then [] else [defs[n]]
  }

  lemma {:induction false} HardOnes(defs: seq<Definition>)
    requires UniqueIds(defs)
    ensures forall d :: d in Hard(defs) <==> d in defs && !d.soft
    ensures UniqueIds(Hard(defs))
  {
    if defs != [] {
      HardOnes(defs[..|defs| - 1]);
      assert defs == defs[..|defs| - 1] + [defs[|defs| - 1]];
    }
  }

  lemma {:induction false} DefaultsOf(defs: seq<Definition>, overrides: Family)
    requires UniqueIds(defs)
    ensures forall d | d in defs && !(d.soft && Yields(d, overrides)) :: d.id in Defaults(defs, overrides) && Defaults(defs, overrides)[d.id] == d.defaults
    ensures forall id | id in Defaults(defs, overrides) :: exists d :: d in defs && d.id == id && !(d.soft && Yields(d, overrides))
  {
    hide Yields;
    if defs != [] {
      var n := |defs| - 1;
      DefaultsOf(defs[..n], overrides);
      assert defs == defs[..n] + [defs[n]];
    }
  }

  /** The definition of an action, if it has one. */
  ghost predicate Defines(defs: seq<Definition>, d: Definition, id: string) {
    d in defs && d.id == id
  }

  lemma DefinesOnce(defs: seq<Definition>, d: Definition, e: Definition, id: string)
    requires UniqueIds(defs) && Defines(defs, d, id) && Defines(defs, e, id)
    ensures d == e
  {
    var i :| 0 <= i < |defs| && defs[i] == d;
    var j :| 0 <= j < |defs| && defs[j] == e;
  }

  lemma EffectiveAt(defs: seq<Definition>, overrides: Family, id: string)
    requires UniqueIds(defs)
    ensures id in overrides ==> id in Effective(defs, overrides) && Effective(defs, overrides)[id] == overrides[id]
    ensures id !in overrides && id in Effective(defs, overrides) ==> exists d :: Defines(defs, d, id)
    ensures forall d | Defines(defs, d, id) && id !in overrides ::
              if d.soft && Yields(d, overrides) then id !in Effective(defs, overrides)
              else id in Effective(defs, overrides) && Effective(defs, overrides)[id] == d.defaults
  {
    hide Yields, UniqueIds;
    DefaultsOf(defs, overrides);
    if id !in overrides && id in Effective(defs, overrides) {
      var d :| d in defs && d.id == id && !(d.soft && Yields(d, overrides));
      assert Defines(defs, d, id);
    }
    forall d | Defines(defs, d, id) && id !in overrides && d.soft && Yields(d, overrides) ensures id !in Effective(defs, overrides) {
      if id in Defaults(defs, overrides) {
        var e :| e in defs && e.id == id && !(e.soft && Yields(e, overrides));
        DefinesOnce(defs, d, e, id);
      }
    }
  }

  /** Every override leaves the sequence alone. */
  ghost predicate KeepsClear(s: Steps, overrides: Family) {
    forall b, j | Has(overrides, b, j) :: !SequencesCollide(s, Nth(overrides, b, j))
  }

  lemma UnyieldingKeepsClear(d: Definition, overrides: Family, i: nat)
    requires d.id !in overrides && !Yields(d, overrides) && i < |d.defaults|
    ensures KeepsClear(d.defaults[i], overrides)
  {
    hide SequencesCollide;
  }

  /** A sequence of the effective family is an override, or a default the hard ones hold as well, or one
      of a soft default no override comes near. */
  lemma Origin(defs: seq<Definition>, overrides: Family, a: string, i: int)
    requires UniqueIds(defs) && Has(Effective(defs, overrides), a, i)
    ensures var s := Nth(Effective(defs, overrides), a, i);
            if a in overrides then Nth(overrides, a, i) == s && Nth(Effective(Hard(defs), overrides), a, i) == s
            else Nth(Effective(defs, map[]), a, i) == s
                 && (Nth(Effective(Hard(defs), overrides), a, i) == s || KeepsClear(s, overrides))
  {
    hide Yields, UniqueIds, Effective, KeepsClear, Hard;
    EffectiveAt(defs, overrides, a);
    EffectiveAt(defs, map[], a);
    HardOnes(defs);
    EffectiveAt(Hard(defs), overrides, a);
    if a !in overrides {
      var d :| Defines(defs, d, a);
      WithoutOverridesAllStay(d);
      if d.soft {
        UnyieldingKeepsClear(d, overrides, i);
      } else {
        assert Defines(Hard(defs), d, a);
      }
    }
  }

  lemma HardIsPart(defs: seq<Definition>, overrides: Family, a: string, i: int)
    requires UniqueIds(defs) && Has(Effective(Hard(defs), overrides), a, i)
    ensures Nth(Effective(defs, overrides), a, i) == Nth(Effective(Hard(defs), overrides), a, i)
  {
    hide Yields, UniqueIds, Effective, Hard;
    EffectiveAt(defs, overrides, a);
    HardOnes(defs);
    EffectiveAt(Hard(defs), overrides, a);
    if a !in overrides {
      var d :| Defines(Hard(defs), d, a);
      assert Defines(defs, d, a);
    }
  }

  lemma WithoutOverridesAllStay(d: Definition)
    ensures !Yields(d, map[])
  {
  }

  lemma ClashIsSymmetric(a: string, s: Steps, b: string, t: Steps)
    ensures Clash(a, s, b, t) <==> Clash(b, t, a, s)
  {
  }

  /** Soft defaults never turn a configuration down: with a default table that is fine by itself, the
      overrides are taken with the soft defaults exactly when they are taken without them. */
  lemma SoftDefaultsAreHarmless(defs: seq<Definition>, overrides: Family)
    requires UniqueIds(defs) && FamilyOk(Effective(defs, map[]))
    ensures FamilyOk(Effective(defs, overrides)) <==> FamilyOk(Effective(Hard(defs), overrides))
  {
    hide Effective, Hard, UniqueIds, Nth, Clash, Fits;
    var all, hard, table := Effective(defs, overrides), Effective(Hard(defs), overrides), Effective(defs, map[]);
    if FamilyOk(all) {
      PartIsOk(all, hard) by {
        forall a, i | Has(hard, a, i) ensures Nth(all, a, i) == Nth(hard, a, i) {
          HardIsPart(defs, overrides, a, i);
        }
      }
    }
    if FamilyOk(hard) {
      forall a, i | Has(all, a, i) ensures Fits(a, Nth(all, a, i)) {
        Origin(defs, overrides, a, i);
        assert Has(hard, a, i) || Has(table, a, i);
      }
      forall a, i, b, j | Has(all, a, i) && Has(all, b, j) && (a, i) != (b, j) ensures !Clash(a, Nth(all, a, i), b, Nth(all, b, j)) {
        DoNotClash(defs, overrides, a, i, b, j);
      }
    }
  }

  lemma PartIsOk(f: Family, part: Family)
    requires FamilyOk(f) && forall a, i | Has(part, a, i) :: Nth(f, a, i) == Nth(part, a, i)
    ensures FamilyOk(part)
  {
    hide Nth, Clash, Fits;
    forall a, i, b, j | Has(part, a, i) && Has(part, b, j) && (a, i) != (b, j) ensures !Clash(a, Nth(part, a, i), b, Nth(part, b, j)) {
      assert Has(f, a, i) && Has(f, b, j);
    }
    forall a, i | Has(part, a, i) ensures Fits(a, Nth(part, a, i)) {
      assert Has(f, a, i);
    }
  }

  lemma ClearDoesNotClash(a: string, s: Steps, b: string, j: int, overrides: Family)
    requires KeepsClear(s, overrides) && Has(overrides, b, j) && a != b
    ensures !Clash(a, s, b, Nth(overrides, b, j))
  {
    hide SequencesCollide, Nth;
  }

  lemma OkDoesNotClash(f: Family, a: string, i: int, b: string, j: int)
    requires FamilyOk(f) && Has(f, a, i) && Has(f, b, j) && (a, i) != (b, j)
    ensures !Clash(a, Nth(f, a, i), b, Nth(f, b, j))
  {
    hide Nth, Clash, Fits;
  }

  lemma DoNotClash(defs: seq<Definition>, overrides: Family, a: string, i: int, b: string, j: int)
    requires UniqueIds(defs) && FamilyOk(Effective(defs, map[])) && FamilyOk(Effective(Hard(defs), overrides))
    requires Has(Effective(defs, overrides), a, i) && Has(Effective(defs, overrides), b, j) && (a, i) != (b, j)
    ensures !Clash(a, Nth(Effective(defs, overrides), a, i), b, Nth(Effective(defs, overrides), b, j))
  {
    hide Effective, Hard, UniqueIds, Nth, Clash, FamilyOk, KeepsClear;
    var all, hard, table := Effective(defs, overrides), Effective(Hard(defs), overrides), Effective(defs, map[]);
    Origin(defs, overrides, a, i);
    Origin(defs, overrides, b, j);
    ClashIsSymmetric(a, Nth(all, a, i), b, Nth(all, b, j));
    if Nth(hard, a, i) == Nth(all, a, i) && Nth(hard, b, j) == Nth(all, b, j) {
      OkDoesNotClash(hard, a, i, b, j);
    } else if a !in overrides && b !in overrides {
      OkDoesNotClash(table, a, i, b, j);
    } else if a in overrides {
      ClearDoesNotClash(b, Nth(all, b, j), a, i, overrides);
    } else {
      ClearDoesNotClash(a, Nth(all, a, i), b, j, overrides);
    }
  }

  /** And they step aside only where they have to: put back, a soft default that yields to overrides
      spoils the table. */
  lemma YieldingIsNeeded(defs: seq<Definition>, overrides: Family, d: Definition)
    requires UniqueIds(defs) && d in defs && d.soft && Yields(d, overrides)
    requires forall id | id in overrides :: [] !in overrides[id]
    requires [] !in d.defaults
    ensures !FamilyOk(Effective(defs, overrides)[d.id := d.defaults])
  {
    hide UniqueIds, Effective, SequencesCollide, Fits;
    var id :| id in overrides && exists i, j | 0 <= i < |overrides[id]| && 0 <= j < |d.defaults| :: SequencesCollide(d.defaults[j], overrides[id][i]);
    var i, j :| 0 <= i < |overrides[id]| && 0 <= j < |d.defaults| && SequencesCollide(d.defaults[j], overrides[id][i]);
    EffectiveAt(defs, overrides, id);
    var f := Effective(defs, overrides)[d.id := d.defaults];
    assert Nth(f, id, i) == overrides[id][i] != [] && Nth(f, d.id, j) == d.defaults[j] != [];
    assert Has(f, d.id, j) && Has(f, id, i);
  }
}
