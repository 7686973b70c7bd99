/** internal/authcmd/manager.go: the locked sections of the credential manager.
    Decisions are functions of what a section reads, so that the class below and the interleaving
    model in SingleFlight share them: what preparing a request inherits, what planning it decides, and
    what is saved and restored. The class is one caller's view of the manager, each method a section
    under the lock; the flights in its table are objects, since an owner publishes into the very one
    its waiters hold. */
module AuthManager {
  import opened Wrappers
  import opened Text
  import opened AuthConfig
  import opened CacheKeys

  datatype AuthError =
    | Invalid                                     // Finalize rejected the configuration
    | Conflict(cacheKey: string, field: string)   // the seed differs from the one cached
    | Failed(code: int)                           // the command or its output failed
    | Cancelled                                   // the caller's context ended

  datatype Record = Record(cred: Credential, cfg: Config)

  datatype SnapshotEntry = SnapshotEntry(key: string, cfg: Config, cred: Credential)

  datatype Plan =
    | Refuse(error: AuthError)
    | Hit(result: Rendered)
    | Join
    | Start(seed: Config)

  datatype Prepared = Prepared(key: string, cfg: Config)

  // ---------------------------------------------------------------- decisions

  function Get<K, V>(m: map<K, V>, k: K): Option<V> {
    if k in m then Some(m[k]) else None
  }

  function CachedCredential(rec: Record, ttl: int, now: Time): Option<Credential> {
    if rec.cred == NO_CREDENTIAL || !ValidAt(rec.cred, ttl, now) then None else Some(rec.cred)
  }

  function ResolveRecord(rec: Record, cfg: Config, now: Time): Result<Option<Credential>, AuthError> {
    match rec.cfg.SeedDiff(cfg)
    case Differs(field) => Err(Conflict(cfg.cacheKey, field))
    case Same => Ok(CachedCredential(rec, cfg.ttl, now))
  }

  /** planResolve, as a function of the record and of the configuration of the flight in the air. */
  function Decide(rec: Option<Record>, flight: Option<Config>, cfg: Config, now: Time): Plan {
    if rec.Some? && ResolveRecord(rec.value, cfg, now).Err? then
      Refuse(ResolveRecord(rec.value, cfg, now).error)
    else if rec.Some? && ResolveRecord(rec.value, cfg, now).value.Some? then
      Hit(Render(cfg, ResolveRecord(rec.value, cfg, now).value.value))
    else if flight.Some? then
      match flight.value.SeedDiff(cfg)
      case Differs(field) => Refuse(Conflict(cfg.cacheKey, field))
      case Same => Join
    else
      Start(if rec.Some? then rec.value.cfg else cfg)
  }

  /** prepareConfig, as a function of the record its unlocked lookup saw. */
  function PrepareWith(env: string, cfg: Config, cache: map<string, Record>): Result<Prepared, AuthError> {
    var norm := cfg.Normalize();
    var key := CacheEntryKey(env, norm);
    if key == "" then
      match Finalize(norm)
      case None => Err(Invalid)
      case Some(final) => Ok(Prepared("", final))
    else
      var rec := Get(cache, key);
      var merged := if rec.Some? then norm.InheritedFrom(rec.value.cfg) else norm;
      match Finalize(merged)
      case None => Err(Invalid)
      case Some(final) =>
        if rec.Some? && !rec.value.cfg.SameSeed(final) then
          Err(Conflict(final.cacheKey, rec.value.cfg.SeedDiff(final).field))
        else Ok(Prepared(key, final))
  }

  /** What one entry of a snapshot restores, if anything. */
  function Restorable(e: SnapshotEntry): Option<SnapshotEntry> {
    if Trim(e.key) == "" || e.cred == NO_CREDENTIAL then None
    else Some(SnapshotEntry(Trim(e.key), e.cfg.Normalize(), e.cred))
  }

  function RestoreAll(entries: seq<SnapshotEntry>): map<string, Record> {
    if entries == [] then map[] else
      var cache, last := RestoreAll(entries[..|entries| - 1]), Restorable(entries[|entries| - 1]);
      if last.None? then cache else cache[last.value.key := Record(last.value.cred, last.value.cfg)]
  }

  /** The records a snapshot writes out: a record without a credential is left behind. */
  function SnapshotKeys(cache: map<string, Record>): set<string> {
    set k | k in cache && cache[k].cred != NO_CREDENTIAL
  }

  ghost function EntriesOf(cache: map<string, Record>, keys: seq<string>): seq<SnapshotEntry>
    requires forall k | k in keys :: k in cache
  {
    seq(|keys|, i requires 0 <= i < |keys| => SnapshotEntry(keys[i], cache[keys[i]].cfg, cache[keys[i]].cred))
  }

  ghost function SnapshotOf(cache: map<string, Record>): seq<SnapshotEntry> {
    SortedIsAscending(SnapshotKeys(cache));
    EntriesOf(cache, Sorted(SnapshotKeys(cache)))
  }

  // ---------------------------------------------------------------- the manager

  /** A fetch in the air. Its results are written once, before done is set. */
  class InflightCall {
    const cfg: Config
    var done: bool
    var cred: Credential
    var err: Option<AuthError>

    constructor (cfg: Config)
      ensures this.cfg == cfg && !done
    {
      this.cfg := cfg;
      done, cred, err := false, NO_CREDENTIAL, None;
    }

    function Outcome(): Result<Credential, AuthError>
      reads this
    {
      match err case Some(e) => Err(e) case None => Ok(cred)
    }
  }

  class Manager {
    var cache: map<string, Record>
    var inflight: map<string, InflightCall>

    constructor ()
      ensures cache == map[] && inflight == map[]
    {
      cache, inflight := map[], map[];
    }

    ghost function FlightConfig(key: string): Option<Config>
      reads this
    {
      if key in inflight then Some(inflight[key].cfg) else None
    }

    method Prepare(env: string, cfg: Config) returns (r: Result<Prepared, AuthError>)
      ensures r == PrepareWith(env, cfg, cache)
    {
      var norm := cfg.Normalize();
      var key := CacheEntryKey(env, norm);
      if key == "" {
        var final := Finalize(norm);
        if final.None? { return Err(Invalid); }
        return Ok(Prepared("", final.value));
      }
      var rec := Get(cache, key);
      var merged := norm;
      if rec.Some? {
        merged := merged.InheritedFrom(rec.value.cfg);
      }
      var final := Finalize(merged);
      if final.None? { return Err(Invalid); }
      if rec.Some? {
        var diff := rec.value.cfg.SeedDiff(final.value);
        if diff.Differs? { return Err(Conflict(final.value.cacheKey, diff.field)); }
      }
      return Ok(Prepared(key, final.value));
    }

    /** The probe that never fetches. */
    method CachedPrepared(prep: Prepared, now: Time) returns (r: Result<Option<Rendered>, AuthError>)
      ensures prep.key == "" || prep.key !in cache ==> r == Ok(None)
      ensures prep.key != "" && prep.key in cache ==>
                match ResolveRecord(cache[prep.key], prep.cfg, now)
                case Err(e) => r == Err(e)
                case Ok(None) => r == Ok(None)
                case Ok(Some(cred)) => r == Ok(Some(Render(prep.cfg, cred)))
    {
      if prep.key == "" || prep.key !in cache { return Ok(None); }
      var found := ResolveRecord(cache[prep.key], prep.cfg, now);
      if found.Err? { return Err(found.error); }
      if found.value.None? { return Ok(None); }
      return Ok(Some(Render(prep.cfg, found.value.value)));
    }

    method PlanResolve(key: string, cfg: Config, now: Time) returns (plan: Plan, call: InflightCall?)
      modifies this`inflight
      ensures plan == Decide(Get(cache, key), old(FlightConfig(key)), cfg, now)
      ensures plan.Start? ==> fresh(call) && !call.done && call.cfg == plan.seed
                              && key !in old(inflight) && inflight == old(inflight)[key := call]
      ensures !plan.Start? ==> inflight == old(inflight)
      ensures plan.Join? ==> key in inflight && call == inflight[key]
      ensures plan.Refuse? || plan.Hit? ==> call == null
    {
      var seed := cfg;
      if key in cache {
        var rec := cache[key];
        var found := ResolveRecord(rec, cfg, now);
        if found.Err? { return Refuse(found.error), null; }
        if found.value.Some? { return Hit(Render(cfg, found.value.value)), null; }
        seed := rec.cfg;
      }
      if key in inflight {
        var c := inflight[key];
        var diff := c.cfg.SeedDiff(cfg);
        if diff.Differs? { return Refuse(Conflict(cfg.cacheKey, diff.field)), null; }
        return Join, c;
      }
      var start := new InflightCall(seed);
      inflight := inflight[key := start];
      return Start(seed), start;
    }

    /** The owner's path after the command ran: store, publish, then leave the flight table. */
    method ResolveByFetch(key: string, cfg: Config, seed: Config, call: InflightCall,
                          got: Result<Credential, AuthError>)
      returns (r: Result<Rendered, AuthError>)
      requires key in inflight && inflight[key] == call && !call.done
      modifies this, call
      ensures cache == if got.Ok? then old(cache)[key := Record(got.value, seed)] else old(cache)
      ensures inflight == map k | k in old(inflight) && k != key :: old(inflight)[k]
      ensures call.done && call.Outcome() == got
      ensures r == if got.Ok? then Ok(Render(cfg, got.value)) else Err(got.error)
    {
      if got.Ok? {
        cache := cache[key := Record(got.value, seed)];
        call.cred, call.err := got.value, None;
      } else {
        call.cred, call.err := NO_CREDENTIAL, Some(got.error);
      }
      call.done := true;
      inflight := inflight - {key};
      if got.Err? { return Err(got.error); }
      return Ok(Render(cfg, got.value));
    }

    /** A waiter that was not cancelled returns what the flight it joined published. */
    method WaitResolve(cfg: Config, call: InflightCall, cancelled: bool) returns (r: Result<Rendered, AuthError>)
      requires call.done || cancelled
      ensures cancelled ==> r == Err(Cancelled)
      ensures !cancelled ==> r == match call.Outcome() case Err(e) => Err(e) case Ok(cred) => Ok(Render(cfg, cred))
    {
      if cancelled { return Err(Cancelled); }
      if call.err.Some? { return Err(call.err.value); }
      return Ok(Render(cfg, call.cred));
    }

    /** Collecting and sorting are one loop here: each round takes the least key that is left. */
    method Snapshot() returns (out: seq<SnapshotEntry>)
      ensures out == SnapshotOf(cache)
    {
      var rest := SnapshotKeys(cache);
      ghost var keys: seq<string> := [];
      out := [];
      while rest != {}
        invariant rest <= SnapshotKeys(cache)
        invariant keys + Sorted(rest) == Sorted(SnapshotKeys(cache))
        invariant forall k | k in keys :: k in cache
        invariant out == EntriesOf(cache, keys)
      {
        LeastExists(rest);
        ghost var all := Sorted(rest);
        var key :| key in rest && forall j | j in rest && j != key :: Less(key, j);
        LeastUnique(rest, key);
        assert all == [key] + Sorted(rest - {key});
        out := out + [SnapshotEntry(key, cache[key].cfg, cache[key].cred)];
        assert keys + all == (keys + [key]) + Sorted(rest - {key});
        keys := keys + [key];
        rest := rest - {key};
      }
      assert keys == Sorted(SnapshotKeys(cache)) by {
        assert keys + [] == keys;
      }
    }

    method Restore(entries: seq<SnapshotEntry>)
      modifies this`cache
      ensures cache == RestoreAll(entries)
    {
      cache := map[];
      for i := 0 to |entries|
        invariant cache == RestoreAll(entries[..i])
      {
        var entry := entries[i];
        assert entries[..i + 1][..i] == entries[..i] && entries[..i + 1][i] == entry;
        var key := Trim(entry.key);
        if key == "" { continue; }
        var cfg := entry.cfg.Normalize();
        if entry.cred == NO_CREDENTIAL { continue; }
        cache := cache[key := Record(entry.cred, cfg)];
      }
      assert entries[..|entries|] == entries;
    }
  }

  // ---------------------------------------------------------------- properties

  lemma LeastUnique(ks: set<string>, k: string)
    requires IsLeast(k, ks)
    ensures Least(ks) == k
  {
    var l := Least(ks);
    if l != k {
      LessTransitive(k, l, k);
      LessIrreflexive(k);
    }
  }

  ghost predicate Unusable(rec: Record, cfg: Config, now: Time) {
    rec.cfg.SameSeed(cfg) && (rec.cred == NO_CREDENTIAL || !ValidAt(rec.cred, cfg.ttl, now))
  }

  /** A fetch starts only when the cache has no usable credential and no flight is in the air, and
      it carries the stored seed if there is one; in every other case the caller is served, joins a
      flight of its own seed, or is refused because a seed differs. */
  lemma DecideStartsOnlyWhenNeeded(rec: Option<Record>, flight: Option<Config>, cfg: Config, now: Time)
    ensures var plan := Decide(rec, flight, cfg, now);
            && (plan.Start? <==> flight.None? && (rec.Some? ==> Unusable(rec.value, cfg, now)))
            && (plan.Start? ==> plan.seed.SameSeed(cfg))
            && (plan.Hit? ==> rec.Some? && rec.value.cfg.SameSeed(cfg) && ValidAt(rec.value.cred, rec.value.cfg.ttl, now)
                              && plan.result == Render(cfg, rec.value.cred))
            && (plan.Join? ==> flight.Some? && flight.value.SameSeed(cfg))
            && (plan.Refuse? <==> || (rec.Some? && !rec.value.cfg.SameSeed(cfg))
                                  || (flight.Some? && !flight.value.SameSeed(cfg) && !plan.Hit?))
  {
  }

  /** When a record of the caller's own seed is handed out, whatever flight is in the air: while the
      credential's own expiry is ahead, or, if it has none, while its time to live lasts, if that can be told
      at all. The caller is told that moment. A record past it is fetched anew with its own configuration. */
  lemma HitsAreExact(rec: Record, flight: Option<Config>, cfg: Config, now: Time)
    requires rec.cfg.SameSeed(cfg) && rec.cred != NO_CREDENTIAL
    ensures var plan := Decide(Some(rec), flight, cfg, now); var Credential(token, _, expiry, fetchedAt) := rec.cred;
            && (plan.Hit? <==>
                  if expiry != 0 then now < expiry
                  else cfg.ttl <= 0 || fetchedAt == 0 || fetchedAt + cfg.ttl == 0 || now < fetchedAt + cfg.ttl)
            && (plan.Hit? ==>
                  && plan.result.token == token
                  && plan.result.expiry == (if expiry != 0 then expiry else if cfg.ttl > 0 && fetchedAt != 0 then fetchedAt + cfg.ttl else 0))
            && (!plan.Hit? && flight == None ==> plan == Start(rec.cfg))
  {
    hide Config.SameSeed;
    assert rec.cfg.SeedDiff(cfg) == SeedDiff.Same by { SameSeedIsNoDifference(rec.cfg, cfg); }
  }

  lemma SameSeedIsNoDifference(a: Config, b: Config)
    ensures a.SameSeed(b) <==> a.SeedDiff(b) == SeedDiff.Same
  {
    hide Config.SeedDiff;
  }

  /** What may be prepared: a command that is no shell, one of the two formats, times that are not negative, a
      time to live only under a cache key, and a path to the token in JSON output. */
  lemma PreparedIsRunnable(env: string, cfg: Config, cache: map<string, Record>)
    ensures match PrepareWith(env, cfg, cache)
            case Err(_) => true
            case Ok(Prepared(_, c)) =>
              && c.argv != [] && c.argv[0] != "" && !IsShell(c.argv[0]) && c.format in {"", "text", "json"} && c.ttl >= 0 && c.timeout >= 0
              && (c.ttl > 0 ==> c.cacheKey != "") && (c.format == "json" ==> c.tokenPath != "")
  {
    hide IsShell, Config.Normalize;
  }

  /** A follow-up request under a cached key is prepared with what the cached command says wherever it is
      silent; without a record, a request is prepared as it is. */
  lemma FollowUpsInherit(env: string, cfg: Config, cache: map<string, Record>)
    requires cfg.Normalize() == cfg
    ensures var key := CacheEntryKey(env, cfg);
            && (key == "" || key !in cache ==> PrepareWith(env, cfg, cache) == if Valid(cfg) then Ok(Prepared(key, cfg)) else Err(Invalid))
            && (key != "" && key in cache && cache[key].cfg.Normalize() == cache[key].cfg && Valid(cache[key].cfg) && Agrees(cfg, cache[key].cfg)
                && cfg.timeout >= 0 && cache[key].cfg.cacheKey == cfg.cacheKey ==>
                  exists prepared: Config ::
                    && PrepareWith(env, cfg, cache) == Ok(Prepared(key, prepared)) && cache[key].cfg.SameSeed(prepared)
                    && prepared.header == (if cfg.header == "" then cache[key].cfg.header else cfg.header)
                    && prepared.scheme == (if cfg.scheme == "" then cache[key].cfg.scheme else cfg.scheme))
  {
    hide CacheEntryKey, Config.SameSeed, Agrees;
    var key := CacheEntryKey(env, cfg);
    if key != "" && key in cache && cache[key].cfg.Normalize() == cache[key].cfg && Valid(cache[key].cfg) && Agrees(cfg, cache[key].cfg)
       && cfg.timeout >= 0 && cache[key].cfg.cacheKey == cfg.cacheKey {
      var base := cache[key].cfg;
      var merged := cfg.InheritedFrom(base);
      InheritedIsValid(cfg, base);
      InheritedSeedAgrees(cfg, base);
      assert PrepareWith(env, cfg, cache) == Ok(Prepared(key, merged)) by { PreparesMerged(env, cfg, cache, key); }
    }
  }

  lemma PreparesMerged(env: string, cfg: Config, cache: map<string, Record>, key: string)
    requires cfg.Normalize() == cfg && key == CacheEntryKey(env, cfg) && key != "" && key in cache
    requires var m := cfg.InheritedFrom(cache[key].cfg); m.Normalize() == m && Valid(m) && cache[key].cfg.SameSeed(m)
    ensures PrepareWith(env, cfg, cache) == Ok(Prepared(key, cfg.InheritedFrom(cache[key].cfg)))
  {
    hide CacheEntryKey, Config.SameSeed, Config.Normalize, Valid, Config.InheritedFrom;
  }

  lemma InheritedIsValid(cfg: Config, base: Config)
    requires cfg.Normalize() == cfg && base.Normalize() == base && Valid(base) && Agrees(cfg, base) && cfg.timeout >= 0
    requires cfg.cacheKey == base.cacheKey
    ensures var m := cfg.InheritedFrom(base); m.Normalize() == m && Valid(m)
  {
    hide Trim, IsShell, NormalizeFormat, ToLower;
    var m := cfg.InheritedFrom(base);
    assert m.argv == base.argv && m.argv == [m.argv[0]] + m.argv[1..];
  }

  /** A configuration the manager stores: normalised, under a key that survives trimming. */
  ghost predicate WellKept(cache: map<string, Record>) {
    forall k | k in cache :: k != "" && Trimmed(k) && cache[k].cfg.Normalize() == cache[k].cfg
  }

  /** Saving a cache and restoring it loses nothing but records without a credential. */
  lemma SnapshotRestores(cache: map<string, Record>)
    requires WellKept(cache)
    ensures RestoreAll(SnapshotOf(cache)) == map k | k in SnapshotKeys(cache) :: cache[k]
  {
    hide RestoreAll, WellKept;
    var keys := Sorted(SnapshotKeys(cache));
    SortedIsAscending(SnapshotKeys(cache));
    RestoreEntries(cache, keys);
  }

  lemma {:induction false} RestoreEntries(cache: map<string, Record>, keys: seq<string>)
    requires WellKept(cache)
    requires forall k | k in keys :: k in cache && cache[k].cred != NO_CREDENTIAL
    ensures forall k :: k in RestoreAll(EntriesOf(cache, keys)) <==> k in keys
    ensures forall k | k in keys :: RestoreAll(EntriesOf(cache, keys))[k] == cache[k]
  {
    if keys != [] {
      RestoreEntries(cache, keys[..|keys| - 1]);
      EntriesOfLast(cache, keys);
      RestoreLast(EntriesOf(cache, keys), keys[|keys| - 1], cache[keys[|keys| - 1]]);
    }
  }

  lemma EntriesOfLast(cache: map<string, Record>, keys: seq<string>)
    requires keys != [] && forall k | k in keys :: k in cache
    ensures var n := |keys| - 1;
            && EntriesOf(cache, keys)[..n] == EntriesOf(cache, keys[..n])
            && EntriesOf(cache, keys)[n] == SnapshotEntry(keys[n], cache[keys[n]].cfg, cache[keys[n]].cred)
    ensures keys == keys[..|keys| - 1] + [keys[|keys| - 1]]
  {
  }

  lemma RestoreLast(entries: seq<SnapshotEntry>, key: string, rec: Record)
    requires key != "" && Trimmed(key) && rec.cfg.Normalize() == rec.cfg && rec.cred != NO_CREDENTIAL
    requires entries != [] && entries[|entries| - 1] == SnapshotEntry(key, rec.cfg, rec.cred)
    ensures RestoreAll(entries) == RestoreAll(entries[..|entries| - 1])[key := rec]
  {
    TrimFixed(key);
  }

  /** The record for k was saved as entry i. */
  ghost predicate SavedAs(entries: seq<SnapshotEntry>, i: nat, k: string, rec: Record) {
    i < |entries| && Restorable(entries[i]) == Some(SnapshotEntry(k, rec.cfg, rec.cred))
  }

  /** Every record of a restored cache comes from an entry that was saved. */
  lemma {:induction false} RestoreTakesEntries(entries: seq<SnapshotEntry>)
    ensures forall k | k in RestoreAll(entries) :: exists i :: SavedAs(entries, i, k, RestoreAll(entries)[k])
    ensures WellKept(RestoreAll(entries))
    ensures forall k | k in RestoreAll(entries) :: RestoreAll(entries)[k].cred != NO_CREDENTIAL
  {
    hide Restorable, Trimmed, Config.Normalize;
    if entries != [] {
      var front, last := entries[..|entries| - 1], entries[|entries| - 1];
      RestoreTakesEntries(front);
      RestorableIsKept(last);
      var all := RestoreAll(entries);
      forall k | k in all ensures exists i :: SavedAs(entries, i, k, all[k]) {
        if Restorable(last).Some? && k == Restorable(last).value.key {
          assert SavedAs(entries, |entries| - 1, k, all[k]);
        } else {
          var i :| SavedAs(front, i, k, RestoreAll(front)[k]);
          assert SavedAs(entries, i, k, all[k]);
        }
      }
    }
  }

  lemma RestorableIsKept(e: SnapshotEntry)
    ensures Restorable(e).Some? ==>
              var r := Restorable(e).value;
              r.key != "" && Trimmed(r.key) && r.cfg.Normalize() == r.cfg && r.cred != NO_CREDENTIAL
  {
    TrimIdempotent(e.key);
    NormalizeIdempotent(e.cfg);
  }

  /** Preparing keeps the key and yields a normalised configuration that agrees with the record it saw. */
  lemma PrepareIsNormal(env: string, cfg: Config, cache: map<string, Record>)
    ensures match PrepareWith(env, cfg, cache)
            case Err(_) => true
            case Ok(prep) => && prep.cfg.Normalize() == prep.cfg && Valid(prep.cfg) && Trimmed(prep.key)
                             && (prep.key in cache && prep.key != "" ==> cache[prep.key].cfg.SameSeed(prep.cfg))
  {
    hide Config.Normalize, Valid, Trim, CacheEntryKey;
    var norm := cfg.Normalize();
    NormalizeIdempotent(cfg);
    NormalizeIdempotent(norm);
    var key := CacheEntryKey(env, norm);
    CacheEntryKeyTrimmed(env, norm);
    if key in cache {
      NormalizeIdempotent(norm.InheritedFrom(cache[key].cfg));
    }
  }
}
