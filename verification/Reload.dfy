/** internal/mock/reload.go and what it loads in internal/mock/source.go: the hot-reload cache. */
module Reload {
  import opened Wrappers
  import opened Text

  // A file's stat stands for its contents, and the fingerprint hash for what is written into it; one
  // call sees one state of the disk.

  // ---------------------------------------------------------------- disk, sources and loader

  datatype World = World(files: map<string, string>, dirs: set<string>)

  datatype Stat = Missing | Folder | File(text: string)

  function StatOf(w: World, path: string): Stat {
    if path in w.files then File(w.files[path]) else if path in w.dirs then Folder else Missing
  }

  datatype Doc = Doc(path: string, text: string)

  datatype Handler = Handler(digest: string, fixtures: seq<string>)

  /** The sources of one server, and what the model does not look into: which paths a directory
      listing takes, when two paths are the same, how many mocks a text declares, which fixtures
      documents read, and the digest they compile to. */
  datatype Env = Env(
    path: string, listed: seq<string>,
    inScope: string -> bool, isRequest: string -> bool, underRoot: string -> bool,
    samePath: (string, string) -> bool, mocks: string -> nat,
    refs: seq<Doc> -> seq<string>, build: (seq<Doc>, seq<Option<string>>) -> Option<string>)
  {
    /** Paths are only the same as paths, an empty text declares nothing, and digests are not empty. */
    ghost predicate Valid() {
      && (forall p :: !samePath("", p) && !samePath(p, "")) && mocks("") == 0
      && forall docs, bodies :: build(docs, bodies) != Some("")
    }
  }

  datatype Call = Call(world: World, overlayPath: string, overlay: Option<string>) {
    function Overlay(): Option<Doc> {
      match overlay case None => None case Some(text) => Some(Doc(overlayPath, text))
    }

    /** The overlay bytes as the fingerprint writes them: none and the empty ones read the same. */
    function Bytes(): string {
      match overlay case None => "" case Some(text) => text
    }
  }

  datatype Resolved = Resolved(files: seq<string>, workspace: bool)

  function RootPath(env: Env): string {
    if Trim(env.path) == "" then "." else Trim(env.path)
  }

  /** The request files of the directory, as listing it returns them. */
  ghost function Listing(env: Env, w: World): seq<string> {
    Sorted(set p | p in w.files && env.inScope(p))
  }

  /** Where the sources name neither files nor a file, the listing of the directory. */
  function Resolve(env: Env, w: World, listing: seq<string>): Option<Resolved> {
    var path := RootPath(env);
    match StatOf(w, path)
    case Missing => None
    case stat =>
      if env.listed != [] then
        if exists i | 0 <= i < |env.listed| :: !env.isRequest(env.listed[i]) then None
        else Some(Resolved(env.listed, false))
      else if stat.File? then (if env.isRequest(path) then Some(Resolved([path], false)) else None)
      else Some(Resolved(listing, true))
  }

  predicate IsOverlay(env: Env, overlay: Option<Doc>, path: string) {
    overlay.Some? && env.samePath(path, overlay.value.path)
  }

  predicate IncludeOverlay(env: Env, overlay: Option<Doc>) {
    && overlay.Some?
    && var Doc(path, text) := overlay.value;
       if Trim(path) == "" then env.mocks(text) > 0 else env.isRequest(path) && env.underRoot(path)
  }

  function LoadDoc(env: Env, w: World, overlay: Option<Doc>, path: string): Option<Doc> {
    if IsOverlay(env, overlay, path) && overlay.value.path != "" then overlay
    else match StatOf(w, path) case File(text) => Some(Doc(path, text)) case _ => None
  }

  /** The documents of some files, unless one cannot be read. */
  function DocsOf(env: Env, w: World, overlay: Option<Doc>, files: seq<string>): (r: Option<seq<Doc>>)
    ensures r.Some? <==> forall i | 0 <= i < |files| :: LoadDoc(env, w, overlay, files[i]).Some?
    ensures r.Some? ==> |r.value| == |files| && forall i | 0 <= i < |files| :: Some(r.value[i]) == LoadDoc(env, w, overlay, files[i])
  {
    if files == [] then Some([])
    else
      var n := |files| - 1;
      match DocsOf(env, w, overlay, files[..n])
      case None => None
      case Some(docs) =>
        match LoadDoc(env, w, overlay, files[n]) case None => None case Some(doc) => Some(docs + [doc])
  }

  /** The overlay replaces its own file; one outside the set joins a whole directory only. */
  function Documents(env: Env, w: World, res: Resolved, overlay: Option<Doc>): Option<seq<Doc>> {
    match DocsOf(env, w, overlay, res.files)
    case None => None
    case Some(docs) =>
      if res.workspace && (forall i | 0 <= i < |res.files| :: !IsOverlay(env, overlay, res.files[i])) && IncludeOverlay(env, overlay)
      then Some(docs + [overlay.value])
      else Some(docs)
  }

  /** What is loaded: every file in order, the overlay in place of the one at its own path, and the overlay
      as well if it has no place in a whole directory but belongs there; one unreadable file spoils it all. */
  lemma LoadedDocuments(env: Env, w: World, res: Resolved, overlay: Option<Doc>)
    ensures var docs := Documents(env, w, res, overlay); var n := |res.files|;
            && (docs.Some? <==> forall i | 0 <= i < n :: OverlaidBy(env, overlay, res.files[i]) || res.files[i] in w.files)
            && (docs.Some? ==> |docs.value| >= n
                               && forall i | 0 <= i < n :: docs.value[i] == if OverlaidBy(env, overlay, res.files[i]) then overlay.value else Doc(res.files[i], w.files[res.files[i]]))
            && (docs.Some? ==> docs.value[n..] == if Joins(env, res, overlay) then [overlay.value] else [])
    requires env.Valid()
  {
    assert forall i | 0 <= i < |res.files| :: LoadDoc(env, w, overlay, res.files[i]).Some? <==> OverlaidBy(env, overlay, res.files[i]) || res.files[i] in w.files;
    hide LoadDoc, DocsOf;
    if Documents(env, w, res, overlay).Some? {
      forall i | 0 <= i < |res.files|
        ensures LoadDoc(env, w, overlay, res.files[i])
                == Some(if OverlaidBy(env, overlay, res.files[i]) then overlay.value else Doc(res.files[i], w.files[res.files[i]]))
      {
        LoadedDoc(env, w, overlay, res.files[i]);
      }
    }
  }

  lemma LoadedDoc(env: Env, w: World, overlay: Option<Doc>, path: string)
    requires OverlaidBy(env, overlay, path) || path in w.files
    ensures LoadDoc(env, w, overlay, path) == Some(if OverlaidBy(env, overlay, path) then overlay.value else Doc(path, w.files[path]))
  {
  }

  predicate OverlaidBy(env: Env, overlay: Option<Doc>, path: string) {
    overlay.Some? && overlay.value.path != "" && env.samePath(path, overlay.value.path)
  }

  /** A nameless overlay belongs to a directory if it declares a mock, a named one if it is a request file
      below the root. */
  predicate Joins(env: Env, res: Resolved, overlay: Option<Doc>) {
    && res.workspace && overlay.Some? && (forall i | 0 <= i < |res.files| :: !env.samePath(res.files[i], overlay.value.path))
    && if Trim(overlay.value.path) == "" then env.mocks(overlay.value.text) > 0
       else env.isRequest(overlay.value.path) && env.underRoot(overlay.value.path)
  }

  /** Which files are in scope: those named, if all are request files; else the one file, if it is one; else
      the request files of the directory. A root that is missing has none. */
  lemma ResolvedFiles(env: Env, w: World)
    requires Trim(env.path) == env.path != ""
    ensures var r := Resolve(env, w, Listing(env, w)); var (file, folder) := (env.path in w.files, env.path in w.dirs && env.path !in w.files);
            && (!file && !folder ==> r == None)
            && ((file || folder) && env.listed != [] ==>
                  r == if forall i | 0 <= i < |env.listed| :: env.isRequest(env.listed[i]) then Some(Resolved(env.listed, false)) else None)
            && (file && env.listed == [] ==> r == if env.isRequest(env.path) then Some(Resolved([env.path], false)) else None)
            && (folder && env.listed == [] ==> r.Some? && r.value.workspace && forall p :: p in r.value.files <==> p in w.files && env.inScope(p))
  {
    hide Listing, Trim;
    ListingHolds(env, w);
  }

  function Read(w: World, path: string): Option<string> {
    match StatOf(w, path) case File(text) => Some(text) case _ => None
  }

  function Reads(w: World, paths: seq<string>): seq<Option<string>> {
    seq(|paths|, i requires 0 <= i < |paths| => Read(w, paths[i]))
  }

  function Compile(env: Env, w: World, docs: seq<Doc>): Option<Handler> {
    var fixtures := env.refs(docs);
    match env.build(docs, Reads(w, fixtures)) case None => None case Some(d) => Some(Handler(d, fixtures))
  }

  /** The handler of the sources as they are now. */
  function Load(env: Env, call: Call, listing: seq<string>): Option<Handler> {
    match Resolve(env, call.world, listing)
    case None => None
    case Some(res) =>
      match Documents(env, call.world, res, call.Overlay()) case None => None case Some(docs) => Compile(env, call.world, docs)
  }

  ghost function Current(env: Env, call: Call): Option<Handler> {
    Load(env, call, Listing(env, call.world))
  }

  method LoadDocuments(env: Env, w: World, res: Resolved, overlay: Option<Doc>) returns (r: Option<seq<Doc>>)
    ensures r == Documents(env, w, res, overlay)
  {
    hide LoadDoc, IsOverlay;
    var docs, found := [], false;
    for i := 0 to |res.files|
      invariant Some(docs) == DocsOf(env, w, overlay, res.files[..i])
      invariant found <==> exists k | 0 <= k < i :: IsOverlay(env, overlay, res.files[k])
    {
      assert res.files[..i + 1][..i] == res.files[..i];
      var doc := LoadDoc(env, w, overlay, res.files[i]);
      if doc.None? { return None; }
      if IsOverlay(env, overlay, res.files[i]) {
        found := true;
      }
      docs := docs + [doc.value];
    }
    assert res.files[..|res.files|] == res.files;
    if res.workspace && !found && IncludeOverlay(env, overlay) {
      docs := docs + [overlay.value];
    }
    return Some(docs);
  }

  // ---------------------------------------------------------------- the reloader

  datatype Entry = Entry(path: string, stat: Stat)

  /** What is hashed: the stats of the files and of the fixtures, with nothing in between, then the
      overlay. */
  datatype Print = Print(entries: seq<Entry>, overlayPath: string, overlay: string)

  function Entries(w: World, paths: seq<string>): seq<Entry> {
    seq(|paths|, i requires 0 <= i < |paths| => Entry(paths[i], StatOf(w, paths[i])))
  }

  function Fingerprint(env: Env, call: Call, listing: seq<string>, fixtures: seq<string>): Option<Print> {
    match Resolve(env, call.world, listing)
    case None => None
    case Some(res) => Some(Print(Entries(call.world, res.files) + Entries(call.world, fixtures), call.overlayPath, call.Bytes()))
  }

  datatype State = State(digest: string, fp: Option<Print>, fixtures: seq<string>, failing: bool)

  const INITIAL := State("", None, [], false)

  datatype Outcome = Failed | Same | New(handler: Handler)

  /** One call: the state after it, and what it returns. */
  ghost function Next(env: Env, s: State, call: Call): (State, Outcome) {
    var fp := Fingerprint(env, call, Listing(env, call.world), s.fixtures);
    if !s.failing && fp.Some? && fp == s.fp then (s, Same)
    else match Current(env, call)
      case None => (s.(failing := true), Failed)
      case Some(h) =>
        if !s.failing && h.digest == s.digest then (s.(fp := fp, fixtures := h.fixtures), Same)
        else (State(h.digest, fp, h.fixtures, false), New(h))
  }

  class Reloader {
    const env: Env
    var digest: string
    var fp: Option<Print>
    var fixtures: seq<string>
    var failing: bool

    ghost function Abs(): State
      reads this
    {
      State(digest, fp, fixtures, failing)
    }

    constructor (env: Env)
      ensures this.env == env && Abs() == INITIAL
    {
      this.env := env;
      digest, fp, fixtures, failing := "", None, [], false;
    }

    method TakeFingerprint(call: Call, listing: seq<string>) returns (r: Option<Print>)
      ensures r == Fingerprint(env, call, listing, fixtures)
    {
      var res := Resolve(env, call.world, listing);
      if res.None? { return None; }
      var files := res.value.files;
      var written: seq<Entry> := [];
      for i := 0 to |files|
        invariant written == Entries(call.world, files[..i])
      {
        written := written + [Entry(files[i], StatOf(call.world, files[i]))];
      }
      assert files[..|files|] == files;
      ghost var first := written;
      for i := 0 to |fixtures|
        invariant written == first + Entries(call.world, fixtures[..i])
      {
        written := written + [Entry(fixtures[i], StatOf(call.world, fixtures[i]))];
      }
      assert fixtures[..|fixtures|] == fixtures;
      return Some(Print(written, call.overlayPath, call.Bytes()));
    }

    method Reload(call: Call, listing: seq<string>) returns (r: Outcome)
      requires listing == Listing(env, call.world)
      modifies this
      ensures (Abs(), r) == Next(env, old(Abs()), call)
    {
      var taken := TakeFingerprint(call, listing);
      if !failing && taken.Some? && taken == fp {
        return Same;
      }
      var h := Load(env, call, listing);
      if h.None? {
        failing := true;
        return Failed;
      }
      fp := taken;
      fixtures := h.value.fixtures;
      if !failing && h.value.digest == digest {
        return Same;
      }
      failing := false;
      digest := h.value.digest;
      return New(h.value);
    }
  }

  // ---------------------------------------------------------------- runs

  ghost function Run(env: Env, calls: seq<Call>): State {
    if calls == [] then INITIAL else Next(env, Run(env, calls[..|calls| - 1]), calls[|calls| - 1]).0
  }

  ghost function OutcomeAt(env: Env, calls: seq<Call>, i: nat): Outcome
    requires i < |calls|
  {
    Next(env, Run(env, calls[..i]), calls[i]).1
  }

  /** The last handler handed out: the one the server serves with. */
  ghost function Served(env: Env, calls: seq<Call>): Option<Handler> {
    if calls == [] then None
    else
      var n := |calls| - 1;
      match OutcomeAt(env, calls, n) case New(h) => Some(h) case _ => Served(env, calls[..n])
  }

  /** The two calls overlay the same path, one with nothing and the other with an empty text. */
  predicate Mixed(a: Call, b: Call) {
    a.overlayPath == b.overlayPath != "" && a.overlay != b.overlay && a.Bytes() == b.Bytes()
  }

  /** No call is mixed with the one right before it. */
  ghost predicate Unmixed(calls: seq<Call>) {
    forall i | 0 < i < |calls| :: !Mixed(calls[i - 1], calls[i])
  }

  /** What a fingerprint shows of the overlay. */
  predicate SameOverlay(a: Call, b: Call) {
    a.overlayPath == b.overlayPath && a.Bytes() == b.Bytes()
  }

  /** The state remembers the last call that loaded: its fingerprint, taken with the fixtures known
      before it, its fixtures, and a digest that is the one of the handler that is served. Unless the
      last call failed, all calls since showed the same overlay. */
  ghost predicate Remembers(env: Env, calls: seq<Call>, k: nat) {
    var s := Run(env, calls);
    && k < |calls|
    && s.fp == Fingerprint(env, calls[k], Listing(env, calls[k].world), Run(env, calls[..k]).fixtures)
    && s.fp.Some?
    && Current(env, calls[k]) == Some(Handler(s.digest, s.fixtures))
    && Served(env, calls).Some? && Served(env, calls).value.digest == s.digest
    && (!s.failing ==> forall i | k <= i < |calls| :: SameOverlay(calls[k], calls[i]))
  }

  ghost predicate Fresh(env: Env, calls: seq<Call>) {
    var s := Run(env, calls);
    s.digest == "" && s.fp == None && s.fixtures == [] && Served(env, calls) == None
  }

  lemma {:induction false} StateRemembers(env: Env, calls: seq<Call>) returns (k: nat)
    requires env.Valid()
    ensures Fresh(env, calls) || Remembers(env, calls, k)
  {
    hide Fingerprint, Load, Listing;
    k := 0;
    if calls != [] {
      var n := |calls| - 1;
      var before := calls[..n];
      var k' := StateRemembers(env, before);
      assert k' < n ==> before[..k'] == calls[..k'] && before[k'] == calls[k'];
      var (s, outcome) := Next(env, Run(env, before), calls[n]);
      assert forall i | 0 <= i < n :: before[i] == calls[i];
      FingerprintShows(env, calls[n], Run(env, before).fixtures);
      if k' < n {
        FingerprintShows(env, calls[k'], Run(env, calls[..k']).fixtures);
      }
      if s.fp == Run(env, before).fp && s.fixtures == Run(env, before).fixtures && !outcome.New? {
        k := k';
      } else {
        LoadedIsResolved(env, calls[n], Run(env, before).fixtures);
        DigestIsNotEmpty(env, calls[n]);
        k := n;
      }
    }
  }

  lemma FingerprintShows(env: Env, call: Call, fixtures: seq<string>)
    ensures var fp := Fingerprint(env, call, Listing(env, call.world), fixtures);
            fp.Some? ==> fp.value.overlayPath == call.overlayPath && fp.value.overlay == call.Bytes()
  {
    hide Listing, Resolve;
  }

  lemma LoadedIsResolved(env: Env, call: Call, fixtures: seq<string>)
    requires Current(env, call).Some?
    ensures Fingerprint(env, call, Listing(env, call.world), fixtures).Some?
  {
    hide Listing, Resolve;
  }

  lemma DigestIsNotEmpty(env: Env, call: Call)
    requires env.Valid()
    ensures Current(env, call).Some? ==> Current(env, call).value.digest != ""
  {
    hide Listing, Resolve, Documents;
  }

  // ---------------------------------------------------------------- equal fingerprints

  lemma ListingHolds(env: Env, w: World)
    ensures forall p :: p in Listing(env, w) <==> p in w.files && env.inScope(p)
    ensures var l := Listing(env, w); forall i, j | 0 <= i < j < |l| :: l[i] != l[j]
  {
    SortedIsAscending(set p | p in w.files && env.inScope(p));
    var l := Listing(env, w);
    forall i, j | 0 <= i < j < |l| ensures l[i] != l[j] {
      assert Less(l[i], l[j]);
      LessIrreflexive(l[i]);
    }
  }

  /** A listed file that turns up as a fixture in the other fingerprint is listed there as well, so
      the boundary between files and fixtures cannot move. */
  lemma ListingsAlign(env: Env, a: World, b: World, fa: seq<string>, fb: seq<string>)
    requires Entries(a, Listing(env, a)) + Entries(a, fa) == Entries(b, Listing(env, b)) + Entries(b, fb)
    ensures |Listing(env, b)| <= |Listing(env, a)|
  {
    hide Listing;
    var la, lb := Listing(env, a), Listing(env, b);
    ListingHolds(env, a);
    ListingHolds(env, b);
    if |la| < |lb| {
      var p := lb[|la|];
      assert p in lb;
      var all := Entries(a, la) + Entries(a, fa);
      assert all[|la|] == Entry(fa[0], StatOf(a, fa[0])) == Entry(p, StatOf(b, p));
      forall i | 0 <= i < |la| ensures la[i] == lb[i] {
        assert all[i] == Entry(la[i], StatOf(a, la[i])) == Entry(lb[i], StatOf(b, lb[i]));
      }
      assert false;
    }
  }

  ghost predicate SameEntries(a: World, b: World, paths: seq<string>) {
    forall i | 0 <= i < |paths| :: StatOf(a, paths[i]) == StatOf(b, paths[i])
  }

  lemma EntriesAlign(a: World, b: World, pa: seq<string>, pb: seq<string>, fa: seq<string>, fb: seq<string>)
    requires |pa| == |pb| && Entries(a, pa) + Entries(a, fa) == Entries(b, pb) + Entries(b, fb)
    ensures pa == pb && fa == fb && SameEntries(a, b, pa) && SameEntries(a, b, fa)
  {
    var all := Entries(a, pa) + Entries(a, fa);
    assert |all| == |pb| + |fb|;
    forall i | 0 <= i < |pa| ensures pa[i] == pb[i] && StatOf(a, pa[i]) == StatOf(b, pb[i]) {
      assert all[i] == Entry(pa[i], StatOf(a, pa[i])) == Entry(pb[i], StatOf(b, pb[i]));
    }
    forall i | 0 <= i < |fa| ensures fa[i] == fb[i] && StatOf(a, fa[i]) == StatOf(b, fb[i]) {
      assert all[|pa| + i] == Entry(fa[i], StatOf(a, fa[i])) == Entry(fb[i], StatOf(b, fb[i]));
    }
  }

  /** While the sources are one file in one world, the fingerprint differs from any of a directory. */
  lemma FileIsNoFolder(env: Env, a: World, b: World, fa: seq<string>, fb: seq<string>)
    requires StatOf(a, RootPath(env)).File? && StatOf(b, RootPath(env)).Folder?
    ensures Entries(a, [RootPath(env)]) + Entries(a, fa) != Entries(b, Listing(env, b)) + Entries(b, fb)
  {
    hide Listing, RootPath;
    var path, lb := RootPath(env), Listing(env, b);
    ListingHolds(env, b);
    var file, folder := Entries(a, [path]) + Entries(a, fa), Entries(b, lb) + Entries(b, fb);
    assert file[0] == Entry(path, StatOf(a, path));
    if folder != [] {
      assert folder[0] == if lb == [] then Entry(fb[0], StatOf(b, fb[0])) else Entry(lb[0], StatOf(b, lb[0]));
      assert lb != [] ==> lb[0] in lb;
      assert folder[0] != Entry(path, StatOf(a, path));
    }
  }

  /** Although nothing separates the files from the fixtures in the fingerprint, equal fingerprints
      come from the same files and the same fixtures, and each of them is unchanged. */
  lemma FingerprintPinsTheDisk(env: Env, a: Call, b: Call, fa: seq<string>, fb: seq<string>)
    requires Fingerprint(env, a, Listing(env, a.world), fa) == Fingerprint(env, b, Listing(env, b.world), fb)
    requires Fingerprint(env, a, Listing(env, a.world), fa).Some?
    ensures Resolve(env, a.world, Listing(env, a.world)) == Resolve(env, b.world, Listing(env, b.world)) && fa == fb
    ensures SameEntries(a.world, b.world, Resolve(env, a.world, Listing(env, a.world)).value.files)
    ensures SameEntries(a.world, b.world, fa)
  {
    hide Listing, RootPath, Entries;
    var ra, rb := Resolve(env, a.world, Listing(env, a.world)).value, Resolve(env, b.world, Listing(env, b.world)).value;
    if env.listed == [] && ra.workspace && rb.workspace {
      ListingsAlign(env, a.world, b.world, fa, fb);
      ListingsAlign(env, b.world, a.world, fb, fa);
    } else if env.listed == [] && ra.workspace {
      FileIsNoFolder(env, b.world, a.world, fb, fa);
      assert false;
    } else if env.listed == [] && rb.workspace {
      FileIsNoFolder(env, a.world, b.world, fa, fb);
      assert false;
    }
    EntriesAlign(a.world, b.world, ra.files, rb.files, fa, fb);
  }

  lemma {:induction false} SameFilesSameDocs(env: Env, a: World, b: World, overlay: Option<Doc>, files: seq<string>)
    requires SameEntries(a, b, files)
    ensures DocsOf(env, a, overlay, files) == DocsOf(env, b, overlay, files)
  {
    var x, y := DocsOf(env, a, overlay, files), DocsOf(env, b, overlay, files);
    assert forall i | 0 <= i < |files| :: LoadDoc(env, a, overlay, files[i]) == LoadDoc(env, b, overlay, files[i]);
    if x.Some? && y.Some? {
      assert forall i | 0 <= i < |files| :: x.value[i] == y.value[i];
      assert x.value == y.value;
    }
  }

  /** Without a path of its own an empty overlay is no overlay. */
  lemma {:induction false} NamelessEmptyOverlay(env: Env, w: World, res: Resolved)
    requires env.Valid()
    ensures Documents(env, w, res, Some(Doc("", ""))) == Documents(env, w, res, None)
  {
    var o := Some(Doc("", ""));
    TrimmedNothing();
    assert forall i | 0 <= i < |res.files| :: LoadDoc(env, w, o, res.files[i]) == LoadDoc(env, w, None, res.files[i]);
    var x, y := DocsOf(env, w, o, res.files), DocsOf(env, w, None, res.files);
    if x.Some? && y.Some? {
      assert forall i | 0 <= i < |res.files| :: x.value[i] == y.value[i];
      assert x.value == y.value;
    }
  }

  lemma TrimmedNothing()
    ensures Trim("") == ""
  {
  }

  /** What a fingerprint stands for: equal ones, taken with the fixtures of the first handler, mean
      that the sources still compile to that handler. */
  lemma EqualFingerprintsEqualHandlers(env: Env, a: Call, b: Call, fa: seq<string>, h: Handler)
    requires env.Valid() && Current(env, a) == Some(h) && !Mixed(a, b)
    requires Fingerprint(env, a, Listing(env, a.world), fa) == Fingerprint(env, b, Listing(env, b.world), h.fixtures)
    ensures Current(env, b) == Some(h)
  {
    hide Listing, Resolve, Documents, Compile, SameEntries;
    LoadedIsResolved(env, a, fa);
    FingerprintPinsTheDisk(env, a, b, fa, h.fixtures);
    var res := Resolve(env, a.world, Listing(env, a.world)).value;
    var docs := Documents(env, a.world, res, a.Overlay()).value;
    SameDocuments(env, a, b, res);
    SameCompilation(env, a.world, b.world, docs, h);
  }

  lemma SameDocuments(env: Env, a: Call, b: Call, res: Resolved)
    requires env.Valid() && SameEntries(a.world, b.world, res.files)
    requires a.overlayPath == b.overlayPath && a.Bytes() == b.Bytes() && !Mixed(a, b)
    ensures Documents(env, a.world, res, a.Overlay()) == Documents(env, b.world, res, b.Overlay())
  {
    hide DocsOf, SameEntries, IncludeOverlay;
    SameFilesSameDocs(env, a.world, b.world, a.Overlay(), res.files);
    NamelessEmptyOverlay(env, b.world, res);
  }

  lemma SameCompilation(env: Env, a: World, b: World, docs: seq<Doc>, h: Handler)
    requires Compile(env, a, docs) == Some(h) && SameEntries(a, b, h.fixtures)
    ensures Compile(env, b, docs) == Some(h)
  {
    assert Reads(a, h.fixtures) == Reads(b, h.fixtures);
  }

  // ---------------------------------------------------------------- what the server serves

  /** Where all overlays look the same and no neighbours are mixed, no two calls are. */
  lemma {:induction false} UnmixedOverASpan(calls: seq<Call>, k: nat, n: nat)
    requires Unmixed(calls) && k <= n < |calls| && forall i | k <= i <= n :: SameOverlay(calls[k], calls[i])
    ensures !Mixed(calls[k], calls[n])
    decreases n - k
  {
    if k < n {
      UnmixedOverASpan(calls, k, n - 1);
      assert SameOverlay(calls[k], calls[n - 1]) && !Mixed(calls[n - 1], calls[n]);
    }
  }

  /** After every call that does not fail, whatever happened to the files and fixtures before it, the
      handler that is served is one of the sources as they are. */
  lemma ServedIsCurrent(env: Env, calls: seq<Call>)
    requires env.Valid() && Unmixed(calls) && calls != []
    requires !OutcomeAt(env, calls, |calls| - 1).Failed?
    ensures var now := Current(env, calls[|calls| - 1]);
            now.Some? && Served(env, calls).Some? && Served(env, calls).value.digest == now.value.digest
  {
    hide Fingerprint, Load, Listing;
    var n := |calls| - 1;
    var before := calls[..n];
    var k := StateRemembers(env, before);
    var s := Run(env, before);
    var fp := Fingerprint(env, calls[n], Listing(env, calls[n].world), s.fixtures);
    DigestIsNotEmpty(env, calls[n]);
    if !s.failing && fp.Some? && fp == s.fp {
      assert before[..k] == calls[..k];
      assert forall i | 0 <= i < n :: before[i] == calls[i];
      FingerprintShows(env, calls[n], s.fixtures);
      FingerprintShows(env, calls[k], Run(env, calls[..k]).fixtures);
      UnmixedOverASpan(calls, k, n);
      EqualFingerprintsEqualHandlers(env, calls[k], calls[n], Run(env, calls[..k]).fixtures, Handler(s.digest, s.fixtures));
    }
  }

  /** A failed call leaves what is served alone, and the next call that does not fail hands out a
      handler whatever has changed. */
  lemma FailureIsFollowedByAHandler(env: Env, calls: seq<Call>)
    requires |calls| >= 2 && OutcomeAt(env, calls, |calls| - 2).Failed?
    ensures Served(env, calls[..|calls| - 1]) == Served(env, calls[..|calls| - 2])
    ensures var o := OutcomeAt(env, calls, |calls| - 1);
            o == match Current(env, calls[|calls| - 1]) case None => Failed case Some(h) => New(h)
  {
    hide Fingerprint, Load, Listing;
    var n := |calls| - 1;
    assert calls[..n][..n - 1] == calls[..n - 1];
  }

  /** Between successes a handler is handed out only for a new digest. */
  lemma NoNeedlessHandler(env: Env, calls: seq<Call>)
    requires env.Valid() && calls != []
    requires OutcomeAt(env, calls, |calls| - 1).New? && !Run(env, calls[..|calls| - 1]).failing
    ensures var was := Served(env, calls[..|calls| - 1]);
            was.Some? ==> was.value.digest != OutcomeAt(env, calls, |calls| - 1).handler.digest
  {
    hide Fingerprint, Load, Listing;
    var _ := StateRemembers(env, calls[..|calls| - 1]);
  }

  /** Called again and again on unchanged sources: from the third call on nothing is loaded, and from
      the second on nothing is handed out; or every call fails. */
  lemma UnchangedSourcesGoQuiet(env: Env, s: State, call: Call)
    ensures var (s1, o1) := Next(env, s, call); var (s2, o2) := Next(env, s1, call); var (s3, o3) := Next(env, s2, call);
            && !o2.New? && s3 == s2
            && (if o1.Failed? then o2 == o3 == Failed
                else o2 == o3 == Same && s3.fp == Fingerprint(env, call, Listing(env, call.world), s3.fixtures) && !s3.failing)
  {
    hide Fingerprint, Load, Listing;
    if Current(env, call).Some? {
      LoadedIsResolved(env, call, s.fixtures);
      LoadedIsResolved(env, call, Current(env, call).value.fixtures);
    }
  }

  // ---------------------------------------------------------------- empty overlays

  /** The server whose one source is the file at path, and whose digest is what the documents say. */
  ghost function OneFile(path: string): Env {
    Env("", [path], _ => true, _ => true, _ => true, (a, b) => a == b != "", text => |text|, _ => [],
        (docs: seq<Doc>, _: seq<Option<string>>) => Some("digest " + if docs == [] then "" else docs[0].text))
  }

  /** Every call that does not fail leaves a handler in place that is current. */
  ghost predicate AlwaysCurrent(env: Env, calls: seq<Call>) {
    forall n | 0 < n <= |calls| :: CurrentAfter(env, calls[..n])
  }

  ghost predicate CurrentAfter(env: Env, calls: seq<Call>)
    requires calls != []
  {
    var n := |calls| - 1;
    || OutcomeAt(env, calls, n).Failed?
    || (&& Current(env, calls[n]).Some? && Served(env, calls).Some?
        && Served(env, calls).value.digest == Current(env, calls[n]).value.digest)
  }

  ghost function OneFileWorld(path: string): World {
    World(map[path := "text"], {"."})
  }

  lemma OneFileLoads(path: string, c: Call)
    requires path != "" && c.world == OneFileWorld(path)
    ensures var text := if c.overlay.Some? && c.overlayPath == path then c.overlay.value else "text";
            Current(OneFile(path), c) == Some(Handler("digest " + text, []))
    ensures Fingerprint(OneFile(path), c, Listing(OneFile(path), c.world), [])
            == Some(Print(Entries(c.world, [path]) + Entries(c.world, []), c.overlayPath, c.Bytes()))
  {
    hide Listing;
    var env := OneFile(path);
    TrimmedNothing();
    var res := Resolved([path], false);
    assert Resolve(env, c.world, Listing(env, c.world)) == Some(res);
    var text := if c.overlay.Some? && c.overlayPath == path then c.overlay.value else "text";
    var docs := DocsOf(env, c.world, c.Overlay(), [path]);
    assert LoadDoc(env, c.world, c.Overlay(), path) == Some(Doc(path, text));
    assert docs.Some? && docs.value == [Doc(path, text)];
  }

  /** On such a server and a disk that stays as it is, the state is the one of the last call. */
  lemma {:induction false} OneFileState(path: string, calls: seq<Call>)
    requires path != "" && calls != [] && forall i | 0 <= i < |calls| :: calls[i].world == OneFileWorld(path)
    ensures var env, c := OneFile(path), calls[|calls| - 1];
            var s := Run(env, calls);
            && !s.failing && s.fixtures == [] && s.fp == Fingerprint(env, c, Listing(env, c.world), [])
            && !OutcomeAt(env, calls, |calls| - 1).Failed?
  {
    hide Fingerprint, Current, Listing, OneFile, OneFileWorld;
    var n := |calls| - 1;
    if n > 0 {
      OneFileState(path, calls[..n]);
    }
    OneFileLoads(path, calls[n]);
  }

  /** An overlay that is taken away and one that is emptied leave the same fingerprint. So on any run with
      such a swap at call i there are a server and a disk, never touched, where the file at path is served as
      its text although its overlay says otherwise, or the other way round. */
  lemma MixedOverlaysCanBeStale(calls: seq<Call>, i: nat)
    requires 0 < i < |calls| && Mixed(calls[i - 1], calls[i])
    requires forall j | 0 <= j < |calls| :: calls[j].world == OneFileWorld(calls[i].overlayPath)
    ensures OneFile(calls[i].overlayPath).Valid() && !AlwaysCurrent(OneFile(calls[i].overlayPath), calls)
  {
    hide Fingerprint, Current, Listing, OneFileWorld, Run, Served;
    var path := calls[i].overlayPath;
    var env := OneFile(path);
    var a, b := calls[..i], calls[..i + 1];
    assert b[..i] == a;
    OneFileState(path, a);
    OneFileState(path, b);
    OneFileLoads(path, a[i - 1]);
    OneFileLoads(path, b[i]);
    assert OutcomeAt(env, b, i) == Same;
    SameKeepsServing(env, b);
    assert [a[i - 1].overlay, b[i].overlay] == [None, Some("")] || [a[i - 1].overlay, b[i].overlay] == [Some(""), None];
    assert ("digest " + "text")[7] == 't' && |"digest " + ""| == 7;
    assert !CurrentAfter(env, a) || !CurrentAfter(env, b);
  }

  lemma SameKeepsServing(env: Env, calls: seq<Call>)
    requires calls != [] && OutcomeAt(env, calls, |calls| - 1) == Same
    ensures Served(env, calls) == Served(env, calls[..|calls| - 1])
  {
    hide Run, Next;
  }

  /** The calls as they are, on a disk that is in some state at each of them. */
  ghost function OnDisk(calls: seq<Call>, worlds: seq<World>): seq<Call>
    requires |worlds| == |calls|
  {
    seq(|calls|, i requires 0 <= i < |calls| => calls[i].(world := worlds[i]))
  }

  ghost predicate SafeEverywhere(calls: seq<Call>) {
    forall env: Env, worlds: seq<World> | env.Valid() && |worlds| == |calls| :: AlwaysCurrent(env, OnDisk(calls, worlds))
  }

  /** So a run of overlays is safe, on every server and whatever happens to the disk between the calls,
      exactly when no call swaps no overlay for an empty one, or back, at the path of the call before. */
  lemma OverlaysAreSafeUnlessMixed(calls: seq<Call>)
    ensures SafeEverywhere(calls) <==> Unmixed(calls)
  {
    hide AlwaysCurrent;
    if Unmixed(calls) {
      forall env: Env, worlds: seq<World> | env.Valid() && |worlds| == |calls| ensures AlwaysCurrent(env, OnDisk(calls, worlds)) {
        assert Unmixed(OnDisk(calls, worlds)) by { OnDiskMixes(calls, worlds); }
        UnmixedIsCurrent(env, OnDisk(calls, worlds));
      }
    } else {
      var i :| 0 < i < |calls| && Mixed(calls[i - 1], calls[i]);
      var w := OneFileWorld(calls[i].overlayPath);
      var worlds := seq(|calls|, _ => w);
      OnDiskMixes(calls, worlds);
      MixedOverlaysCanBeStale(OnDisk(calls, worlds), i);
    }
  }

  lemma OnDiskMixes(calls: seq<Call>, worlds: seq<World>)
    requires |worlds| == |calls|
    ensures forall i | 0 < i < |calls| :: Mixed(OnDisk(calls, worlds)[i - 1], OnDisk(calls, worlds)[i]) <==> Mixed(calls[i - 1], calls[i])
  {
  }

  lemma UnmixedIsCurrent(env: Env, calls: seq<Call>)
    requires env.Valid() && Unmixed(calls)
    ensures AlwaysCurrent(env, calls)
  {
    hide OutcomeAt, Served, Current;
    forall n | 0 < n <= |calls| ensures CurrentAfter(env, calls[..n]) {
      var part := calls[..n];
      assert forall i | 0 <= i < n :: part[i] == calls[i];
      if !OutcomeAt(env, part, n - 1).Failed? {
        ServedIsCurrent(env, part);
      }
    }
  }
}
