/** internal/mock/journal.go and the matching order of internal/mock/pattern.go: the bounded
    request journal, and the tap that copies a request body into it. */
module MockJournal {
  import opened Wrappers
  import opened Text

  type Byte = b: int | 0 <= b < 256

  // ---------------------------------------------------------------- requests and records

  datatype Head = Head(
    verb: string, path: string, rawPath: string, host: string,
    query: map<string, seq<string>>, headers: map<string, seq<string>>)

  datatype End = EOF | Broken(code: int)

  /** What a body delivers: its bytes, and how it ends. */
  datatype Stream = Stream(bytes: seq<Byte>, end: End)

  datatype Request = Request(head: Head, body: Stream)

  datatype Record = Record(head: Head, body: seq<Byte>, bodyTruncated: bool, size: nat)

  function Lengths(values: seq<string>): nat {
    if values == [] then 0 else |values[0]| + Lengths(values[1..])
  }

  ghost function MapSize(m: map<string, seq<string>>): nat
    decreases |m|
  {
    if m == map[] then 0 else
      var k := Least(m.Keys);
      |k| + Lengths(m[k]) + MapSize(m - {k})
  }

  /** The size of a map does not depend on the order in which it is walked. */
  lemma {:induction false} MapSizeWithout(m: map<string, seq<string>>, k: string)
    requires k in m
    ensures MapSize(m) == |k| + Lengths(m[k]) + MapSize(m - {k})
    decreases |m|
  {
    var l := Least(m.Keys);
    if l != k {
      MapSizeWithout(m - {l}, k);
      var rest := m - {k};
      LeastOfFewer(m.Keys, l, k);
      assert rest.Keys == m.Keys - {k} && Least(rest.Keys) == l;
      assert m - {l} - {k} == rest - {l};
    }
  }

  lemma LeastOfFewer(ks: set<string>, l: string, k: string)
    requires IsLeast(l, ks) && k != l
    ensures IsLeast(l, ks - {k}) && Least(ks - {k}) == l
  {
    var other := Least(ks - {k});
    if other != l {
      LessTransitive(l, other, l);
      LessIrreflexive(l);
    }
  }

  method SizeOfMap(m: map<string, seq<string>>) returns (size: nat)
    ensures size == MapSize(m)
  {
    size := 0;
    var rest := m;
    while rest != map[]
      invariant size + MapSize(rest) == MapSize(m)
      decreases |rest|
    {
      var k :| k in rest;
      MapSizeWithout(rest, k);
      size := size + |k|;
      var values := rest[k];
      for i := 0 to |values|
        invariant size + Lengths(values[i..]) + MapSize(rest - {k}) == MapSize(m)
      {
        assert values[i..][0] == values[i] && values[i..][1..] == values[i + 1..];
        size := size + |values[i]|;
      }
      rest := rest - {k};
    }
  }

  ghost function RetainedSize(head: Head, body: seq<Byte>): nat {
    |head.verb| + |head.path| + |head.rawPath| + |head.host| + MapSize(head.query) + MapSize(head.headers) + |body|
  }

  function Prefix(bytes: seq<Byte>, limit: nat): seq<Byte> {
    if |bytes| <= limit then bytes else bytes[..limit]
  }

  /** The record a request leaves under a body limit. */
  ghost function RecordOf(req: Request, limit: nat): Record {
    var body := Prefix(req.body.bytes, limit);
    Record(req.head, body, req.body.end != EOF || |req.body.bytes| > limit, RetainedSize(req.head, body))
  }

  /** What a record weighs: every character of the request line and the host, every name and value of the
      query and the headers, and every byte of the body that is kept. */
  lemma RetainedSizeAddsUp(head: Head, body: seq<Byte>, more: string, name: string, values: seq<string>, bytes: seq<Byte>)
    ensures RetainedSize(Head("", "", "", "", map[], map[]), []) == 0
    ensures var size := RetainedSize(head, body);
            && RetainedSize(head.(verb := head.verb + more), body) == RetainedSize(head.(path := head.path + more), body)
               == RetainedSize(head.(rawPath := head.rawPath + more), body) == RetainedSize(head.(host := head.host + more), body)
               == size + |more|
            && (name !in head.query ==> RetainedSize(head.(query := head.query[name := values]), body) == size + |name| + Lengths(values))
            && (name !in head.headers ==> RetainedSize(head.(headers := head.headers[name := values]), body) == size + |name| + Lengths(values))
            && RetainedSize(head, body + bytes) == size + |bytes|
            && Lengths([more] + values) == |more| + Lengths(values)
  {
    hide MapSize;
    MapSizeOfNothing();
    if name !in head.query {
      MapSizeWithout(head.query[name := values], name);
      assert head.query[name := values] - {name} == head.query;
    }
    if name !in head.headers {
      MapSizeWithout(head.headers[name := values], name);
      assert head.headers[name := values] - {name} == head.headers;
    }
    assert ([more] + values)[1..] == values;
  }

  lemma MapSizeOfNothing()
    ensures MapSize(map[]) == 0
  {
  }

  // ---------------------------------------------------------------- reading a body

  /** A request body: how much one read delivers, and whether the end comes with the last bytes or
      behind them, is up to the reader. */
  class Body {
    var rest: seq<Byte>
    const end: End

    constructor (stream: Stream)
      ensures Remaining() == stream
    {
      rest, end := stream.bytes, stream.end;
    }

    ghost function Remaining(): Stream
      reads this
    {
      Stream(rest, end)
    }

    method Read(max: nat) returns (chunk: seq<Byte>, err: Option<End>)
      requires max > 0
      modifies this
      ensures old(rest) == chunk + rest && |chunk| <= max
      ensures err.Some? ==> err.value == end && rest == []
      ensures err.None? ==> chunk != []
    {
      if rest == [] { return [], Some(end); }
      var n: nat :| 0 < n <= |rest| && n <= max;
      chunk := rest[..n];
      rest := rest[n..];
      var together: bool :| true;
      err := if rest == [] && together then Some(end) else None;
    }
  }

  /** io.ReadAll of an io.LimitReader. */
  method ReadAllLimited(body: Body, limit: nat) returns (b: seq<Byte>, err: Option<int>)
    modifies body
    ensures old(body.rest) == b + body.rest && |b| <= limit
    ensures err.Some? ==> body.end == Broken(err.value) && body.rest == []
    ensures err.None? ==> |b| == limit || (body.rest == [] && body.end == EOF)
  {
    b := [];
    while |b| < limit
      invariant old(body.rest) == b + body.rest && |b| <= limit
      decreases limit - |b|
    {
      var space: nat :| 0 < space <= limit - |b|;
      var chunk, end := body.Read(space);
      b := b + chunk;
      if end.Some? {
        match end.value
        case EOF => return b, None;
        case Broken(code) => return b, Some(code);
      }
    }
    return b, None;
  }

  /** What the handler is given in place of the body. */
  datatype Replay = PrefixOnly(b: seq<Byte>) | PrefixThenError(b: seq<Byte>, code: int) | PrefixThenBody(b: seq<Byte>)

  /** What reading the replacement delivers. */
  ghost function Delivers(r: Replay, body: Body): Stream
    reads body
  {
    match r
    case PrefixOnly(b) => Stream(b, EOF)
    case PrefixThenError(b, code) => Stream(b, Broken(code))
    case PrefixThenBody(b) => Stream(b + body.rest, body.end)
  }

  /** The tap: whatever the body does, the handler reads the same bytes and the same end, and the
      record holds the first bytes up to the limit. A request without a body has an empty one. */
  method Capture(head: Head, body: Body, limit: nat) returns (entry: Record, replay: Replay, readErr: Option<int>)
    modifies body
    ensures Delivers(replay, body) == old(body.Remaining())
    ensures entry == RecordOf(Request(head, old(body.Remaining())), limit)
    ensures readErr.Some? ==> body.end == Broken(readErr.value)
    ensures body.end != EOF && |old(body.rest)| <= limit ==> readErr.Some?
  {
    var b, err := ReadAllLimited(body, limit + 1);
    var truncated := false;
    readErr := err;
    if err.Some? {
      truncated := true;
      replay := PrefixThenError(b, err.value);
      assert b + [] == b;
    } else if |b| > limit {
      truncated := true;
      replay := PrefixThenBody(b);
    } else {
      replay := PrefixOnly(b);
      assert b + [] == b;
    }
    ghost var bytes := old(body.rest);
    assert bytes[..|b|] == b;
    if |b| > limit {
      assert bytes[..limit] == b[..limit];
      b := b[..limit];
    }
    assert b == Prefix(bytes, limit);
    var q := SizeOfMap(head.query);
    var h := SizeOfMap(head.headers);
    entry := Record(head, b, truncated, |head.verb| + |head.path| + |head.rawPath| + |head.host| + q + h + |b|);
  }

  /** A record is marked truncated exactly when its body is not the whole of a clean stream. */
  lemma TruncatedMeansNotWhole(req: Request, limit: nat)
    ensures var r := RecordOf(req, limit);
            && r.bodyTruncated == !(req.body.end == EOF && r.body == req.body.bytes)
            && r.body <= req.body.bytes && |r.body| == if |req.body.bytes| < limit then |req.body.bytes| else limit
  {
  }

  // ---------------------------------------------------------------- patterns

  /** A compiled pattern: what it asks of the head (method, path, query, headers), and of a JSON
      body if it asks anything. A body that does not decode does not match. */
  datatype Pattern = Pattern(head: Head -> bool, body: Option<seq<Byte> -> bool>)

  datatype Verdict = Match | NoMatch | Truncated

  /** compiledPattern.matches: the body is looked at last. */
  function Matches(p: Pattern, isJSON: Head -> bool, r: Record): Verdict {
    if !p.head(r.head) then NoMatch
    else if p.body.None? then Match
    else if !isJSON(r.head) then NoMatch
    else if r.bodyTruncated then Truncated
    else if p.body.value(r.body) then Match else NoMatch
  }

  /** Whether the request itself, with all its bytes, matches. */
  predicate Fits(p: Pattern, isJSON: Head -> bool, req: Request) {
    p.head(req.head) && (p.body.Some? ==> isJSON(req.head) && p.body.value(req.body.bytes))
  }

  lemma VerdictIsTrue(p: Pattern, isJSON: Head -> bool, req: Request, limit: nat)
    ensures var v := Matches(p, isJSON, RecordOf(req, limit));
            && (v.Match? ==> Fits(p, isJSON, req)) && (v.NoMatch? ==> !Fits(p, isJSON, req))
            && (v.Truncated? ==> req.body.end != EOF || |req.body.bytes| > limit)
  {
  }

  ghost function CountFitting(p: Pattern, isJSON: Head -> bool, log: seq<Request>): nat {
    if log == [] then 0
    else CountFitting(p, isJSON, log[..|log| - 1]) + if Fits(p, isJSON, log[|log| - 1]) then 1 else 0
  }

  // ---------------------------------------------------------------- the journal

  datatype Limits = Limits(entries: nat, bytes: nat, body: nat)

  const DEFAULTS := Limits(2000, 16 * 1024 * 1024, 64 * 1024)
  datatype LimitError = BodyLimitTooLarge | BodyLimitExceedsTotal

  /** newRequestJournal: a limit that is not positive takes its default. */
  function ResolveLimits(entries: int, bytes: int, body: int): (r: Result<Limits, LimitError>)
    ensures r.Ok? ==> 0 < r.value.entries && 0 < r.value.body <= r.value.bytes && r.value.body < MAX_INT64
  {
    var e: nat := if entries <= 0 then DEFAULTS.entries else entries;
    var t: nat := if bytes <= 0 then DEFAULTS.bytes else bytes;
    var b: nat := if body <= 0 then DEFAULTS.body else body;
    if b >= MAX_INT64 then Err(BodyLimitTooLarge)
    else if b > t then Err(BodyLimitExceedsTotal)
    else Ok(Limits(e, t, b))
  }

  /** The limits in force: those given, and 2000 entries, 16 MiB and 64 KiB of a body where none is. */
  lemma LimitsInForce(entries: int, bytes: int, body: int)
    ensures ResolveLimits(0, 0, 0) == Ok(Limits(2_000, 16_777_216, 65_536))
    ensures entries > 0 && bytes > 0 && 0 < body <= bytes && body < MAX_INT64 ==> ResolveLimits(entries, bytes, body) == Ok(Limits(entries, bytes, body))
    ensures entries <= 0 ==> ResolveLimits(entries, bytes, body) == ResolveLimits(2_000, bytes, body)
    ensures bytes <= 0 ==> ResolveLimits(entries, bytes, body) == ResolveLimits(entries, 16_777_216, body)
    ensures body <= 0 ==> ResolveLimits(entries, bytes, body) == ResolveLimits(entries, bytes, 65_536)
    ensures 0 < bytes < body ==> ResolveLimits(entries, bytes, body).Err?
  {
  }

  ghost function Sizes(entries: seq<Record>): nat {
    if entries == [] then 0 else entries[0].size + Sizes(entries[1..])
  }

  lemma {:induction false} SizesSnoc(entries: seq<Record>, e: Record)
    ensures Sizes(entries + [e]) == Sizes(entries) + e.size
  {
    if entries != [] {
      assert (entries + [e])[1..] == entries[1..] + [e];
      SizesSnoc(entries[1..], e);
    }
  }

  ghost function Records(log: seq<Request>, body: nat): (rs: seq<Record>)
    ensures |rs| == |log| && forall i | 0 <= i < |log| :: rs[i] == RecordOf(log[i], body)
  {
    seq(|log|, i requires 0 <= i < |log| => RecordOf(log[i], body))
  }

  /** The records of the requests that fit into the journal at all. */
  ghost function Admissible(log: seq<Request>, limits: Limits): (rs: seq<Record>)
    ensures |rs| <= |log|
  {
    if log == [] then [] else
      var r := RecordOf(log[|log| - 1], limits.body);
      Admissible(log[..|log| - 1], limits) + if r.size <= limits.bytes then [r] else []
  }

  lemma {:induction false} AllAdmissible(log: seq<Request>, limits: Limits)
    requires |Admissible(log, limits)| == |log|
    ensures Admissible(log, limits) == Records(log, limits.body)
  {
    if log != [] {
      AllAdmissible(log[..|log| - 1], limits);
    }
  }

  lemma AdmissibleSnoc(log: seq<Request>, req: Request, limits: Limits)
    ensures var r := RecordOf(req, limits.body);
            Admissible(log + [req], limits)
            == if r.size <= limits.bytes then Admissible(log, limits) + [r] else Admissible(log, limits)
  {
    hide RecordOf;
    assert (log + [req])[..|log|] == log;
  }

  ghost predicate IsSuffix(a: seq<Record>, b: seq<Record>) {
    |a| <= |b| && a == b[|b| - |a|..]
  }

  lemma SuffixIsShorter(a: seq<Record>, b: seq<Record>)
    requires IsSuffix(a, b)
    ensures |a| <= |b|
  {
  }

  lemma SuffixTail(a: seq<Record>, b: seq<Record>)
    requires IsSuffix(a, b) && a != []
    ensures IsSuffix(a[1..], b) && |a| <= |b|
  {
  }

  lemma SuffixSnoc(a: seq<Record>, b: seq<Record>, e: Record)
    requires IsSuffix(a, b)
    ensures IsSuffix(a + [e], b + [e])
  {
  }

  /** There is room for one more record of this size. */
  ghost predicate Room(entries: seq<Record>, size: nat, limits: Limits) {
    |entries| < limits.entries && Sizes(entries) + size <= limits.bytes
  }

  /** What is left of the entries when a record of this size has been given room. */
  ghost function Evict(entries: seq<Record>, size: nat, limits: Limits): seq<Record> {
    if entries == [] || Room(entries, size, limits) then entries else Evict(entries[1..], size, limits)
  }

  lemma EvictStep(entries: seq<Record>, size: nat, limits: Limits)
    requires limits.entries > 0 && size <= limits.bytes
    ensures Room(entries, size, limits) ==> Evict(entries, size, limits) == entries
    ensures !Room(entries, size, limits) ==>
              entries != [] && Evict(entries, size, limits) == Evict(entries[1..], size, limits)
              && Sizes(entries[1..]) <= Sizes(entries)
  {
  }

  /** Eviction keeps the longest suffix that leaves room. */
  lemma {:induction false} EvictKeepsMost(entries: seq<Record>, size: nat, limits: Limits, n: nat)
    requires limits.entries > 0 && size <= limits.bytes && n <= |entries|
    ensures var kept := Evict(entries, size, limits);
            IsSuffix(kept, entries) && |kept| + 1 <= limits.entries && Sizes(kept) + size <= limits.bytes
    ensures |entries[n..]| + 1 <= limits.entries && Sizes(entries[n..]) + size <= limits.bytes ==>
              |entries[n..]| <= |Evict(entries, size, limits)|
  {
    if entries != [] && !Room(entries, size, limits) {
      EvictKeepsMost(entries[1..], size, limits, if n == 0 then 0 else n - 1);
      assert n > 0 ==> entries[n..] == entries[1..][n - 1..];
      assert n == 0 ==> entries[n..] == entries;
    }
  }

  datatype CountError = Incomplete | Cancelled

  class Journal {
    var entries: seq<Record>
    const limits: Limits
    var retained: nat
    var isIncomplete: bool
    /** Every request since the journal was made or last cleared. */
    ghost var log: seq<Request>

    ghost predicate Valid()
      reads this
    {
      && limits.entries > 0
      && retained == Sizes(entries) && retained <= limits.bytes && |entries| <= limits.entries
      && IsSuffix(entries, Admissible(log, limits))
      && (isIncomplete <==> |entries| < |log|)
    }

    constructor (limits: Limits)
      requires limits.entries > 0
      ensures Valid() && this.limits == limits && log == []
    {
      this.limits := limits;
      entries, retained, isIncomplete, log := [], 0, false, [];
    }

    /** Advances the head of the list; there must be an entry when add calls it. */
    method DropOldest()
      modifies this`entries, this`retained
      requires retained == Sizes(entries)
      ensures entries == if old(entries) == [] then [] else old(entries)[1..]
      ensures retained == Sizes(entries)
    {
      if |entries| == 0 { return; }
      retained := retained - entries[0].size;
      entries := entries[1..];
    }

    /** Adds the record of a request, evicting the oldest ones it has no room beside. */
    method Add(entry: Record, ghost req: Request)
      requires Valid() && entry == RecordOf(req, limits.body)
      modifies this
      ensures Valid() && log == old(log) + [req]
      ensures entry.size <= limits.bytes ==> entries == Evict(old(entries), entry.size, limits) + [entry]
      ensures entry.size > limits.bytes ==> entries == old(entries) && isIncomplete
    {
      hide RecordOf, Admissible, Sizes, Evict, IsSuffix;
      if entry.size > limits.bytes {
        Refuse(req);
        return;
      }
      MakeRoom(entry.size);
      Append(entry, req);
    }

    method Refuse(ghost req: Request)
      requires Valid() && RecordOf(req, limits.body).size > limits.bytes
      modifies this`isIncomplete, this`log
      ensures Valid() && isIncomplete && log == old(log) + [req]
    {
      hide RecordOf, Admissible, Sizes, IsSuffix;
      AdmissibleSnoc(log, req, limits);
      SuffixIsShorter(entries, Admissible(log, limits));
      isIncomplete := true;
      log := log + [req];
    }

    method Append(entry: Record, ghost req: Request)
      requires Valid() && RecordOf(req, limits.body) == entry && Room(entries, entry.size, limits)
      modifies this`entries, this`retained, this`log
      ensures Valid() && entries == old(entries) + [entry] && log == old(log) + [req]
    {
      hide RecordOf, Admissible, Sizes, IsSuffix;
      AdmissibleSnoc(log, req, limits);
      SizesSnoc(entries, entry);
      SuffixSnoc(entries, Admissible(log, limits), entry);
      entries := entries + [entry];
      retained := retained + entry.size;
      log := log + [req];
    }

    /** The eviction loop of add. */
    method MakeRoom(size: nat)
      requires Valid() && size <= limits.bytes
      modifies this`entries, this`retained, this`isIncomplete
      ensures Valid() && entries == Evict(old(entries), size, limits) && Room(entries, size, limits)
    {
      hide Admissible, Evict, IsSuffix, Sizes, RecordOf;
      while |entries| >= limits.entries || size > limits.bytes - retained
        invariant Valid()
        invariant Evict(entries, size, limits) == Evict(old(entries), size, limits)
        decreases |entries|
      {
        EvictStep(entries, size, limits);
        SuffixTail(entries, Admissible(log, limits));
        DropOldest();
        isIncomplete := true;
      }
      EvictStep(entries, size, limits);
    }

    method Clear()
      modifies this
      requires Valid()
      ensures Valid() && log == [] && entries == [] && !isIncomplete
    {
      entries := [];
      retained := 0;
      isIncomplete := false;
      log := [];
    }

    /** Counts the requests a pattern matches. cancelAt is the first entry at which the caller's
        context is found done. A number is never wrong: it counts every request since the last
        clear. Without it the journal says it is incomplete, or the caller gave up. */
    method Count(p: Pattern, isJSON: Head -> bool, cancelAt: nat) returns (r: Result<nat, CountError>)
      requires Valid()
      ensures r.Ok? ==> r.value == CountFitting(p, isJSON, log) && |entries| == |log|
      ensures r == Err(Incomplete) <==>
              || |entries| < |log|
              || exists i :: 0 <= i < |entries| && i < cancelAt && Matches(p, isJSON, entries[i]) == Truncated
      ensures r == Err(Cancelled) ==> cancelAt < |entries|
    {
      hide Matches, Fits, RecordOf;
      if isIncomplete { return Err(Incomplete); }
      AllAdmissible(log, limits);
      assert entries == Records(log, limits.body);
      var count := 0;
      for i := 0 to |entries|
        invariant i <= cancelAt
        invariant count == CountFitting(p, isJSON, log[..i])
        invariant forall j | 0 <= j < i :: Matches(p, isJSON, entries[j]) != Truncated
      {
        if i == cancelAt { return Err(Cancelled); }
        VerdictIsTrue(p, isJSON, log[i], limits.body);
        assert log[..i + 1][..i] == log[..i];
        var v := Matches(p, isJSON, entries[i]);
        if v.Truncated? { return Err(Incomplete); }
        if v.Match? {
          count := count + 1;
        }
      }
      assert log[..|entries|] == log;
      return Ok(count);
    }

    /** Completeness is exact: it is claimed just when every request is still there. */
    lemma CompleteMeansAll()
      requires Valid()
      ensures !isIncomplete <==> entries == Records(log, limits.body)
    {
      if !isIncomplete {
        AllAdmissible(log, limits);
      }
    }
  }
}
