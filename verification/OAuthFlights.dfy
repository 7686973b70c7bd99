/** internal/oauth/manager.go: the token cache and its flights. A caller's critical sections are steps
    that interleave with those of others; the token server, the clock and the cancelling of a caller
    answer as they like. */
module OAuthFlights {
  import opened Wrappers
  import opened Text
  import opened CacheKeys
  import AuthConfig

  const EXPIRY_SLACK: int := 30

  /** A token; one without an expiry does not expire. */
  datatype Token = Token(access: string, refresh: string, expiry: Option<int>) {
    predicate Valid(now: int) {
      access != "" && (expiry.Some? ==> now + EXPIRY_SLACK < expiry.value)
    }
  }

  type Cache = map<string, Token>

  // ---------------------------------------------------------------- the keys of a lookup

  /** Config.Resolved on a normalised configuration. */
  function Resolved(cfg: OAuthConfig): OAuthConfig {
    var grant := if cfg.grantType == "" then cfg.(grantType := GRANT_CLIENT_CREDENTIALS) else cfg;
    if grant.header == "" then grant.(header := AuthConfig.DEFAULT_HEADER) else grant
  }

  /** The key a token is kept under, and the key an older version may have left it under, if any. */
  ghost function LookupKeys(env: string, cfg: OAuthConfig): (string, string) {
    var resolved := Resolved(cfg);
    var key, fallback := OAuthKey(env, resolved), OAuthKey(env, cfg);
    var older := if fallback == key && resolved.cacheKey == "" && resolved.grantType == GRANT_CLIENT_CREDENTIALS
                 then OAuthKey(env, resolved.(grantType := "")) else fallback;
    (key, if older == key then "" else older)
  }

  /** What is not said: the grant is client_credentials and the header Authorization; the rest stays. */
  lemma ResolvedDefaults(cfg: OAuthConfig)
    ensures Resolved(cfg).(grantType := cfg.grantType, header := cfg.header) == cfg
    ensures Resolved(cfg).grantType == (if cfg.grantType == "" then "client_credentials" else cfg.grantType)
    ensures Resolved(cfg).header == (if cfg.header == "" then "Authorization" else cfg.header)
    ensures Resolved(Resolved(cfg)) == Resolved(cfg)
  {
  }

  lemma ResolvedIsNormal(cfg: OAuthConfig)
    requires Normal(cfg)
    ensures Normal(Resolved(cfg)) && Normal(Resolved(cfg).(grantType := ""))
  {
    hide NormalExtra;
  }

  /** Both keys depend on the resolved configuration alone: there is a fallback exactly for derived keys
      of the default grant, and it is the key without a grant. */
  lemma LookupKeysOfResolved(env: string, cfg: OAuthConfig)
    requires Normal(cfg)
    ensures var (key, fallback) := LookupKeys(env, cfg); var resolved := Resolved(cfg);
            && key == OAuthKey(env, resolved) && key != "" && key != fallback
            && (if resolved.cacheKey == "" && resolved.grantType == GRANT_CLIENT_CREDENTIALS
                then fallback == OAuthKey(env, resolved.(grantType := "")) else fallback == "")
            && LookupKeys(env, resolved) == (key, fallback)
  {
    hide OAuthKey, NormalExtra;
    var resolved := Resolved(cfg);
    var bare := resolved.(grantType := "");
    ResolvedIsNormal(cfg);
    OAuthKeyInjective(env, resolved, env, cfg);
    OAuthKeyInjective(env, resolved, env, bare);
    OAuthKeyInjective(env, cfg, env, bare);
    FieldsTellGrants(resolved, cfg);
    FieldsTellGrants(resolved, bare);
    FieldsTellGrants(cfg, bare);
  }

  lemma FieldsTellGrants(a: OAuthConfig, b: OAuthConfig)
    requires a.(grantType := "", header := "") == b.(grantType := "", header := "")
    ensures DerivedFields(a) == DerivedFields(b) <==> a.grantType == b.grantType
  {
    assert DerivedFields(a)[7] == a.grantType && DerivedFields(b)[7] == b.grantType;
  }

  // ---------------------------------------------------------------- the cache

  /** What a lookup finds: the first key that is present, whether or not its token is still valid. */
  function Lookup(cache: Cache, key: string, fallback: string): Option<(string, Token)> {
    if key != "" && key in cache then Some((key, cache[key]))
    else if fallback != "" && fallback in cache then Some((fallback, cache[fallback]))
    else None
  }

  function Promoted(cache: Cache, primary: string, actual: string): Cache {
    if primary == "" || actual == "" || primary == actual then cache
    else if primary in cache then cache - {actual}
    else if actual in cache then cache[primary := cache[actual]] - {actual}
    else cache
  }

  function Dropped(cache: Cache, key: string): Cache {
    if key == "" then cache else cache - {key}
  }

  class TokenCache {
    var cache: Cache

    method CachedToken(keys: seq<string>) returns (r: Option<(string, Token)>)
      requires |keys| == 2
      ensures r == Lookup(cache, keys[0], keys[1])
    {
      for i := 0 to |keys|
        invariant forall j | 0 <= j < i :: keys[j] == "" || keys[j] !in cache
      {
        if keys[i] == "" { continue; }
        if keys[i] in cache { return Some((keys[i], cache[keys[i]])); }
      }
      return None;
    }

    method PromoteCacheKey(primary: string, actual: string)
      modifies this
      ensures cache == Promoted(old(cache), primary, actual)
    {
      if primary == "" || actual == "" || primary == actual { return; }
      if primary in cache {
        cache := cache - {actual};
        return;
      }
      if actual !in cache { return; }
      cache := cache[primary := cache[actual]];
      cache := cache - {actual};
    }

    method DropCacheKey(key: string)
      modifies this
      ensures cache == Dropped(old(cache), key)
    {
      if key == "" { return; }
      cache := cache - {key};
    }

    method StoreToken(key: string, token: Token)
      modifies this
      ensures cache == old(cache)[key := token]
    {
      cache := cache[key := token];
    }

    /** obtainToken with nobody else at the cache; what the token server answers to a refresh and to a
        request is given. */
    method ObtainToken(key: string, fallback: string, now: int, refreshed: Option<Token>, fetched: Option<Token>) returns (r: Outcome)
      modifies this
      ensures (cache, r) == Obtained(old(cache), now, key, fallback, Recheck, refreshed, fetched)
    {
      hide Lookup, Promoted, Dropped, Obtained, Token.Valid;
      ObtainedInOneStep(cache, now, key, fallback, refreshed, fetched);
      var found := CachedToken([key, fallback]);
      if found.Some? && found.value.1.Valid(now) {
        PromoteCacheKey(key, found.value.0);
        return Got(found.value.1);
      }
      var entry := CachedToken([key, fallback]);
      if entry.Some? && entry.value.1.refresh != "" && refreshed.Some? {
        var used := entry.value.0;
        StoreToken(key, refreshed.value);
        DropCacheKey(fallback);
        if used != "" && used != key {
          DropCacheKey(used);
        }
        return Got(refreshed.value);
      }
      if fetched.None? { return Failed; }
      StoreToken(key, fetched.value);
      DropCacheKey(fallback);
      return Got(fetched.value);
    }
  }

  /** Promoting what a lookup found keeps what it found, moves it under the key, and leaves every other
      key alone; doing it again changes nothing. A token that another flight has stored under the key in
      the meantime stays. */
  lemma PromotionKeepsTheToken(cache: Cache, now: Cache, key: string, fallback: string)
    requires key != "" && key != fallback && Lookup(cache, key, fallback).Some?
    ensures var (used, token) := Lookup(cache, key, fallback).value;
            var after := Promoted(cache, key, used);
            && Lookup(after, key, fallback) == Some((key, token)) && (fallback in after ==> used == key)
            && Promoted(after, key, used) == after
            && (forall k | k != key && k != fallback :: (k in after <==> k in cache) && (k in cache ==> after[k] == cache[k]))
            && (key in now ==> key in Promoted(now, key, used) && Promoted(now, key, used)[key] == now[key])
  {
  }

  predicate Usable(cache: Cache, now: int, key: string, fallback: string) {
    var found := Lookup(cache, key, fallback);
    found.Some? && found.value.1.Valid(now)
  }

  predicate ValidUnder(cache: Cache, now: int, key: string) {
    key != "" && key in cache && cache[key].Valid(now)
  }

  /** A lookup uses a valid token that is there, unless an invalid one under the key hides it. */
  lemma UsableUnlessHidden(cache: Cache, now: int, key: string, fallback: string)
    requires key != ""
    ensures Usable(cache, now, key, fallback) <==>
            && (ValidUnder(cache, now, key) || ValidUnder(cache, now, fallback))
            && (key in cache ==> cache[key].Valid(now))
  {
  }

  // ---------------------------------------------------------------- callers and flights

  datatype Outcome = Got(token: Token) | Failed

  datatype Call = Call(key: string, owner: nat, done: Option<Outcome>)

  datatype Stage =
    | Recheck
    | Promoting(used: string, token: Token)
    | Looking
    | Refreshing(used: string, refresh: string)
    | Fetching
    | Storing(token: Token, used: string)
    | DroppingFallback(token: Token, used: string)
    | DroppingUsed(token: Token, used: string)
    | Publishing(outcome: Outcome)
    | Removing(outcome: Outcome)

  datatype Source = FromCache | FromFlight(call: nat) | FromOwnFlight(call: nat) | Cancelled

  datatype Phase =
    | Asked(key: string, fallback: string)
    | Hit(key: string, used: string, token: Token)
    | Missed(key: string, fallback: string)
    | Waiting(key: string, fallback: string, call: nat)
    | Owner(key: string, fallback: string, call: nat, stage: Stage)
    | Returned(outcome: Outcome, source: Source)

  datatype State = State(cache: Cache, inflight: map<string, nat>, calls: seq<Call>, callers: map<nat, Phase>, now: int)

  /** A caller comes in, moves on by one critical section or answer of the token server, or is cancelled;
      the clock advances; clearing and restoring leave any cache. */
  datatype Event =
    | Begin(id: nat, key: string, fallback: string)
    | Move(id: nat, answer: Option<Token>)
    | Cancel(id: nat)
    | Tick(seconds: nat)
    | Replace(cache: Cache)

  const INITIAL := State(map[], map[], [], map[], 0)

  function Goes(s: State, id: nat, p: Phase): State {
    s.(callers := s.callers[id := p])
  }

  function Step(s: State, e: Event): State {
    match e
    case Begin(id, key, fallback) =>
      if id in s.callers || key == "" || key == fallback then s else Goes(s, id, Asked(key, fallback))
    case Move(id, answer) => if id in s.callers then MoveOn(s, id, s.callers[id], answer) else s
    case Cancel(id) =>
      if id in s.callers && s.callers[id].Waiting? then Goes(s, id, Returned(Failed, Cancelled)) else s
    case Tick(seconds) => s.(now := s.now + seconds)
    case Replace(cache) => s.(cache := cache)
  }

  function MoveOn(s: State, id: nat, p: Phase, answer: Option<Token>): State {
    match p
    case Asked(key, fallback) =>
      var found := Lookup(s.cache, key, fallback);
      Goes(s, id, if found.Some? && found.value.1.Valid(s.now) then Hit(key, found.value.0, found.value.1) else Missed(key, fallback))
    case Hit(key, used, token) =>
      Goes(s.(cache := Promoted(s.cache, key, used)), id, Returned(Got(token), FromCache))
    case Missed(key, fallback) =>
      if key in s.inflight then Goes(s, id, Waiting(key, fallback, s.inflight[key]))
      else if fallback != "" && fallback in s.inflight then Goes(s, id, Waiting(key, fallback, s.inflight[fallback]))
      else
        var c := |s.calls|;
        Goes(s.(inflight := s.inflight[key := c], calls := s.calls + [Call(key, id, None)]), id, Owner(key, fallback, c, Recheck))
    case Waiting(_, _, c) =>
      if c < |s.calls| && s.calls[c].done.Some? then Goes(s, id, Returned(s.calls[c].done.value, FromFlight(c))) else s
    case Owner(key, fallback, c, stage) => OwnerMoves(s, id, key, fallback, c, stage, answer)
    case Returned(_, _) => s
  }

  /** The owner of a flight obtains a token, publishes it, and takes the flight out of the table. */
  function OwnerMoves(s: State, id: nat, key: string, fallback: string, c: nat, stage: Stage, answer: Option<Token>): State {
    match stage
    case Publishing(outcome) =>
      var calls := if c < |s.calls| then s.calls[c := s.calls[c].(done := Some(outcome))] else s.calls;
      Goes(s.(calls := calls), id, Owner(key, fallback, c, Removing(outcome)))
    case Removing(outcome) =>
      Goes(s.(inflight := s.inflight - {key}), id, Returned(outcome, FromOwnFlight(c)))
    case _ =>
      var (cache, next) := Obtain(s.cache, s.now, key, fallback, stage, answer);
      Goes(s.(cache := cache), id, Owner(key, fallback, c, next))
  }

  /** obtainToken, one critical section or answer at a time. */
  function Obtain(cache: Cache, now: int, key: string, fallback: string, stage: Stage, answer: Option<Token>): (r: (Cache, Stage))
    requires !stage.Publishing? && !stage.Removing?
    ensures !r.1.Removing?
  {
    var found := Lookup(cache, key, fallback);
    match stage
    case Recheck =>
      if found.Some? && found.value.1.Valid(now) then (cache, Promoting(found.value.0, found.value.1)) else (cache, Looking)
    case Promoting(used, token) => (Promoted(cache, key, used), Publishing(Got(token)))
    case Looking =>
      if found.Some? && found.value.1.refresh != "" then (cache, Refreshing(found.value.0, found.value.1.refresh)) else (cache, Fetching)
    case Refreshing(used, _) => (cache, if answer.Some? then Storing(answer.value, used) else Fetching)
    case Fetching => (cache, if answer.Some? then Storing(answer.value, "") else Publishing(Failed))
    case Storing(token, used) => (cache[key := token], DroppingFallback(token, used))
    case DroppingFallback(token, used) =>
      (Dropped(cache, fallback), if used != "" && used != key then DroppingUsed(token, used) else Publishing(Got(token)))
    case DroppingUsed(token, used) => (Dropped(cache, used), Publishing(Got(token)))
  }

  function Rank(stage: Stage): nat {
    match stage
    case Recheck => 7
    case Looking => 6
    case Refreshing(_, _) => 5
    case Fetching => 4
    case Storing(_, _) => 3
    case DroppingFallback(_, _) => 2
    case DroppingUsed(_, _) => 1
    case Promoting(_, _) => 1
    case _ => 0
  }

  /** The steps of obtainToken one after the other, from a stage on to its outcome. */
  function Obtained(cache: Cache, now: int, key: string, fallback: string, stage: Stage, refreshed: Option<Token>, fetched: Option<Token>): (Cache, Outcome)
    decreases Rank(stage)
  {
    match stage
    case Publishing(outcome) => (cache, outcome)
    case Removing(outcome) => (cache, outcome)
    case _ =>
      var (c, next) := Obtain(cache, now, key, fallback, stage, if stage.Refreshing? then refreshed else fetched);
      Obtained(c, now, key, fallback, next, refreshed, fetched)
  }

  function Stored(cache: Cache, key: string, fallback: string, token: Token, used: string): Cache {
    var c := Dropped(cache[key := token], fallback);
    if used != "" && used != key then Dropped(c, used) else c
  }

  lemma StoringObtains(cache: Cache, now: int, key: string, fallback: string, token: Token, used: string, refreshed: Option<Token>, fetched: Option<Token>)
    ensures Obtained(cache, now, key, fallback, Storing(token, used), refreshed, fetched) == (Stored(cache, key, fallback, token, used), Got(token))
  {
    hide Lookup, Dropped;
    var c := cache[key := token];
    var d := Dropped(c, fallback);
    assert Obtained(cache, now, key, fallback, Storing(token, used), refreshed, fetched)
        == Obtained(c, now, key, fallback, DroppingFallback(token, used), refreshed, fetched);
    assert Obtained(d, now, key, fallback, Publishing(Got(token)), refreshed, fetched) == (d, Got(token));
    if used != "" && used != key {
      assert Obtained(Dropped(d, used), now, key, fallback, Publishing(Got(token)), refreshed, fetched) == (Dropped(d, used), Got(token));
      assert Obtained(d, now, key, fallback, DroppingUsed(token, used), refreshed, fetched) == (Dropped(d, used), Got(token));
    }
  }

  lemma ObtainedInOneStep(cache: Cache, now: int, key: string, fallback: string, refreshed: Option<Token>, fetched: Option<Token>)
    ensures var found := Lookup(cache, key, fallback);
            Obtained(cache, now, key, fallback, Recheck, refreshed, fetched)
            == (if Usable(cache, now, key, fallback) then (Promoted(cache, key, found.value.0), Got(found.value.1))
                else if found.Some? && found.value.1.refresh != "" && refreshed.Some? then
                  (Stored(cache, key, fallback, refreshed.value, found.value.0), Got(refreshed.value))
                else if fetched.Some? then (Stored(cache, key, fallback, fetched.value, ""), Got(fetched.value))
                else (cache, Failed))
  {
    hide Lookup, Promoted, Stored, Token.Valid;
    var found := Lookup(cache, key, fallback);
    if !Usable(cache, now, key, fallback) {
      ObtainedAfterALook(cache, now, key, fallback, refreshed, fetched);
    } else {
      var (used, token) := found.value;
      assert Obtained(cache, now, key, fallback, Promoting(used, token), refreshed, fetched) == (Promoted(cache, key, used), Got(token));
    }
  }

  lemma ObtainedAfterALook(cache: Cache, now: int, key: string, fallback: string, refreshed: Option<Token>, fetched: Option<Token>)
    ensures var found := Lookup(cache, key, fallback);
            Obtained(cache, now, key, fallback, Looking, refreshed, fetched)
            == (if found.Some? && found.value.1.refresh != "" && refreshed.Some? then
                  (Stored(cache, key, fallback, refreshed.value, found.value.0), Got(refreshed.value))
                else if fetched.Some? then (Stored(cache, key, fallback, fetched.value, ""), Got(fetched.value))
                else (cache, Failed))
  {
    hide Lookup, Promoted, Stored, Token.Valid;
    var found := Lookup(cache, key, fallback);
    if fetched.Some? {
      StoringObtains(cache, now, key, fallback, fetched.value, "", refreshed, fetched);
    }
    if found.Some? && found.value.1.refresh != "" {
      var (used, token) := found.value;
      if refreshed.Some? {
        StoringObtains(cache, now, key, fallback, refreshed.value, used, refreshed, fetched);
        assert Obtained(cache, now, key, fallback, Refreshing(used, token.refresh), refreshed, fetched)
            == Obtained(cache, now, key, fallback, Storing(refreshed.value, used), refreshed, fetched);
      } else {
        assert Obtained(cache, now, key, fallback, Refreshing(used, token.refresh), refreshed, fetched)
            == Obtained(cache, now, key, fallback, Fetching, refreshed, fetched);
      }
    }
  }

  /** What obtaining a token alone comes to. A token that is handed out is the one that later lookups find,
      under the key; nothing is left under the fallback, unless the key itself held a usable token; other keys
      are left alone, and a failure leaves the whole cache alone. The token server is asked only for want of
      a usable token, for a refresh only if what is found can be refreshed, and for a new token only if that
      fails. */
  lemma ObtainedIsFoundAgain(cache: Cache, now: int, key: string, fallback: string, refreshed: Option<Token>, fetched: Option<Token>)
    requires key != "" && key != fallback
    ensures var (after, outcome) := Obtained(cache, now, key, fallback, Recheck, refreshed, fetched);
            var found := Lookup(cache, key, fallback);
            && (outcome.Got? ==> Lookup(after, key, fallback) == Some((key, outcome.token)))
            && (outcome.Got? && fallback in after ==> fallback == "" || (key in cache && Usable(cache, now, key, fallback)))
            && (outcome.Failed? ==> after == cache)
            && (forall k | k != key && k != fallback :: (k in after <==> k in cache) && (k in cache ==> after[k] == cache[k]))
            && outcome == (
              if Usable(cache, now, key, fallback) then Got(found.value.1)
              else if found.Some? && found.value.1.refresh != "" && refreshed.Some? then Got(refreshed.value)
              else if fetched.Some? then Got(fetched.value)
              else Failed)
  {
    ObtainedInOneStep(cache, now, key, fallback, refreshed, fetched);
    hide Obtained, Token.Valid;
  }

  /** The token under the key, or under the fallback if there is none. */
  predicate Holds(cache: Cache, key: string, fallback: string, token: Token) {
    if key in cache then cache[key] == token else fallback != "" && fallback in cache && cache[fallback] == token
  }

  /** A cached token is handed out without the server for as long as more than thirty seconds are left of
      it, or for ever if it does not expire; once one that expires is refused, it stays refused. */
  lemma CachedTokensLast(cache: Cache, now: int, key: string, fallback: string, token: Token, later: int)
    requires key != "" && key != fallback && Holds(cache, key, fallback, token) && now <= later
    ensures var (_, outcome) := Obtained(cache, now, key, fallback, Recheck, None, None);
            && (outcome == Got(token) <==> token.access != "" && (token.expiry == None || token.expiry.value - now > 30))
            && (outcome != Got(token) ==> outcome == Failed && Obtained(cache, later, key, fallback, Recheck, None, None) == (cache, Failed))
  {
    ObtainedInOneStep(cache, now, key, fallback, None, None);
    ObtainedInOneStep(cache, later, key, fallback, None, None);
    hide Obtained;
  }

  /** Nothing cached, or nothing that lasts: a refresh is tried first if there is something to refresh with,
      then a new token; the first answer is handed out and kept. */
  lemma ServerAnswers(cache: Cache, now: int, key: string, fallback: string, token: Token, answer: Token)
    requires key != "" && key != fallback && Holds(cache, key, fallback, token)
    requires token.access == "" || (token.expiry.Some? && token.expiry.value - now <= 30)
    ensures Obtained(cache, now, key, fallback, Recheck, Some(answer), None).1 == (if token.refresh != "" then Got(answer) else Failed)
    ensures Obtained(cache, now, key, fallback, Recheck, None, Some(answer)).1 == Got(answer)
    ensures token.refresh != "" ==>
              Obtain(cache, now, key, fallback, Looking, None) == (cache, Refreshing(if key in cache then key else fallback, token.refresh))
  {
    ObtainedInOneStep(cache, now, key, fallback, Some(answer), None);
    ObtainedInOneStep(cache, now, key, fallback, None, Some(answer));
    hide Obtained;
  }

  ghost function Run(events: seq<Event>): State {
    if events == [] then INITIAL else Step(Run(events[..|events| - 1]), events[|events| - 1])
  }

  // ---------------------------------------------------------------- what every step keeps

  ghost predicate FlightOk(s: State, key: string) {
    key in s.inflight ==>
      var c := s.inflight[key];
      && c < |s.calls| && s.calls[c].key == key
      && s.calls[c].owner in s.callers && s.callers[s.calls[c].owner].Owner? && s.callers[s.calls[c].owner].call == c
  }

  ghost predicate PhaseOk(s: State, id: nat, p: Phase) {
    match p
    case Owner(key, _, c, stage) =>
      && c < |s.calls| && s.calls[c].key == key && s.calls[c].owner == id
      && key in s.inflight && s.inflight[key] == c
      && s.calls[c].done == (if stage.Removing? then Some(stage.outcome) else None)
    case Waiting(key, fallback, c) =>
      c < |s.calls| && (s.calls[c].key == key || (fallback != "" && s.calls[c].key == fallback))
    case Returned(outcome, FromFlight(c)) => c < |s.calls| && s.calls[c].done == Some(outcome)
    case Returned(outcome, FromOwnFlight(c)) => c < |s.calls| && s.calls[c].done == Some(outcome)
    case _ => true
  }

  ghost predicate Inv(s: State) {
    && (forall key :: FlightOk(s, key))
    && (forall id | id in s.callers :: PhaseOk(s, id, s.callers[id]))
  }

  /** A published flight stays as it is. */
  ghost predicate Frozen(s: State, t: State) {
    && |s.calls| <= |t.calls|
    && forall c | 0 <= c < |s.calls| ::
         t.calls[c].key == s.calls[c].key && t.calls[c].owner == s.calls[c].owner
         && (s.calls[c].done.Some? ==> t.calls[c].done == s.calls[c].done)
  }

  /** A caller whose phase changes without taking up or leaving a flight. */
  lemma GoesKeepsInv(s: State, id: nat, cache: Cache, p: Phase)
    requires Inv(s) && PhaseOk(s, id, p)
    requires id in s.callers && s.callers[id].Owner? ==> p.Owner? && p.call == s.callers[id].call
    ensures Inv(Goes(s.(cache := cache), id, p))
  {
    hide PhaseOk;
    var t := Goes(s.(cache := cache), id, p);
    forall i | i in t.callers ensures PhaseOk(t, i, t.callers[i]) {
      SamePhase(s, t, i, t.callers[i]);
    }
    forall k ensures FlightOk(t, k) {
      assert FlightOk(s, k);
    }
  }

  lemma SamePhase(s: State, t: State, id: nat, p: Phase)
    requires s.calls == t.calls && s.inflight == t.inflight
    ensures PhaseOk(s, id, p) <==> PhaseOk(t, id, p)
  {
  }

  lemma StartKeepsInv(s: State, id: nat, key: string, fallback: string)
    requires Inv(s) && key !in s.inflight && id in s.callers && !s.callers[id].Owner?
    ensures var c := |s.calls|;
            Inv(Goes(s.(inflight := s.inflight[key := c], calls := s.calls + [Call(key, id, None)]), id, Owner(key, fallback, c, Recheck)))
  {
    hide PhaseOk, FlightOk;
    var c := |s.calls|;
    var t := Goes(s.(inflight := s.inflight[key := c], calls := s.calls + [Call(key, id, None)]), id, Owner(key, fallback, c, Recheck));
    forall k ensures FlightOk(t, k) {
      StartKeepsFlight(s, id, key, fallback, k);
    }
    forall i | i in t.callers ensures PhaseOk(t, i, t.callers[i]) {
      StartKeepsPhase(s, id, key, fallback, i);
    }
  }

  lemma StartKeepsFlight(s: State, id: nat, key: string, fallback: string, k: string)
    requires FlightOk(s, k) && key !in s.inflight && id in s.callers && !s.callers[id].Owner?
    ensures var c := |s.calls|;
            FlightOk(Goes(s.(inflight := s.inflight[key := c], calls := s.calls + [Call(key, id, None)]), id, Owner(key, fallback, c, Recheck)), k)
  {
  }

  lemma StartKeepsPhase(s: State, id: nat, key: string, fallback: string, i: nat)
    requires i in s.callers && PhaseOk(s, i, s.callers[i]) && key !in s.inflight
    ensures var c := |s.calls|;
            var t := Goes(s.(inflight := s.inflight[key := c], calls := s.calls + [Call(key, id, None)]), id, Owner(key, fallback, c, Recheck));
            PhaseOk(t, i, t.callers[i])
  {
  }

  lemma PublishKeepsInv(s: State, id: nat, key: string, fallback: string, c: nat, outcome: Outcome)
    requires Inv(s) && id in s.callers && s.callers[id] == Owner(key, fallback, c, Publishing(outcome))
    ensures Inv(OwnerMoves(s, id, key, fallback, c, Publishing(outcome), None))
  {
    var t := OwnerMoves(s, id, key, fallback, c, Publishing(outcome), None);
    forall i | i in t.callers ensures PhaseOk(t, i, t.callers[i]) {
      assert PhaseOk(s, i, s.callers[i]);
    }
    forall k ensures FlightOk(t, k) {
      assert FlightOk(s, k);
    }
  }

  lemma RemoveKeepsInv(s: State, id: nat, key: string, fallback: string, c: nat, outcome: Outcome)
    requires Inv(s) && id in s.callers && s.callers[id] == Owner(key, fallback, c, Removing(outcome))
    ensures Inv(OwnerMoves(s, id, key, fallback, c, Removing(outcome), None))
  {
    var t := OwnerMoves(s, id, key, fallback, c, Removing(outcome), None);
    forall i | i in t.callers ensures PhaseOk(t, i, t.callers[i]) {
      assert PhaseOk(s, i, s.callers[i]);
    }
    forall k ensures FlightOk(t, k) {
      assert FlightOk(s, k);
    }
  }

  lemma StepKeepsInv(s: State, e: Event)
    requires Inv(s)
    ensures Inv(Step(s, e))
  {
    hide PhaseOk, FlightOk, Inv, MoveOn;
    match e
    case Begin(id, key, fallback) =>
      if id !in s.callers && key != "" && key != fallback {
        Untied(s, id, Asked(key, fallback));
        GoesKeepsInv(s, id, s.cache, Asked(key, fallback));
      }
    case Move(id, answer) => if id in s.callers { MoveKeepsInv(s, id, answer); }
    case Cancel(id) =>
      if id in s.callers && s.callers[id].Waiting? {
        Untied(s, id, Returned(Failed, Cancelled));
        GoesKeepsInv(s, id, s.cache, Returned(Failed, Cancelled));
      }
    case Tick(seconds) => SameTables(s, Step(s, e));
    case Replace(cache) => SameTables(s, Step(s, e));
  }

  lemma SameTables(s: State, t: State)
    requires Inv(s) && s.calls == t.calls && s.inflight == t.inflight && s.callers == t.callers
    ensures Inv(t)
  {
    forall k ensures FlightOk(t, k) {
      assert FlightOk(s, k);
    }
    forall i | i in t.callers ensures PhaseOk(t, i, t.callers[i]) {
      assert PhaseOk(s, i, s.callers[i]);
    }
  }

  /** Phases that say nothing of a flight. */
  lemma Untied(s: State, id: nat, p: Phase)
    requires p.Asked? || p.Hit? || p.Missed? || (p.Returned? && (p.source.FromCache? || p.source.Cancelled?))
    ensures PhaseOk(s, id, p)
  {
  }

  lemma MoveKeepsInv(s: State, id: nat, answer: Option<Token>)
    requires Inv(s) && id in s.callers
    ensures Inv(MoveOn(s, id, s.callers[id], answer))
  {
    hide PhaseOk, FlightOk, Inv, OwnerMoves, Goes, Promoted, Lookup;
    var p := s.callers[id];
    match p
    case Asked(key, fallback) =>
      var found := Lookup(s.cache, key, fallback);
      var q := if found.Some? && found.value.1.Valid(s.now) then Hit(key, found.value.0, found.value.1) else Missed(key, fallback);
      Untied(s, id, q);
      GoesKeepsInv(s, id, s.cache, q);
    case Hit(key, used, token) =>
      Untied(s, id, Returned(Got(token), FromCache));
      GoesKeepsInv(s, id, Promoted(s.cache, key, used), Returned(Got(token), FromCache));
    case Missed(key, fallback) => JoinKeepsInv(s, id, key, fallback);
    case Waiting(_, _, c) =>
      if c < |s.calls| && s.calls[c].done.Some? {
        var q := Returned(s.calls[c].done.value, FromFlight(c));
        assert PhaseOk(s, id, q) by { FlightReturns(s, id, c); }
        GoesKeepsInv(s, id, s.cache, q);
      }
    case Owner(key, fallback, c, stage) => OwnerKeepsInv(s, id, key, fallback, c, stage, answer);
    case Returned(_, _) =>
  }

  lemma FlightReturns(s: State, id: nat, c: nat)
    requires c < |s.calls| && s.calls[c].done.Some?
    ensures PhaseOk(s, id, Returned(s.calls[c].done.value, FromFlight(c)))
  {
  }

  lemma JoinKeepsInv(s: State, id: nat, key: string, fallback: string)
    requires Inv(s) && id in s.callers && s.callers[id] == Missed(key, fallback)
    ensures Inv(MoveOn(s, id, Missed(key, fallback), None))
  {
    hide Inv;
    if key in s.inflight {
      JoinedFlight(s, id, key, fallback, key);
      GoesKeepsInv(s, id, s.cache, Waiting(key, fallback, s.inflight[key]));
    } else if fallback != "" && fallback in s.inflight {
      JoinedFlight(s, id, key, fallback, fallback);
      GoesKeepsInv(s, id, s.cache, Waiting(key, fallback, s.inflight[fallback]));
    } else {
      StartKeepsInv(s, id, key, fallback);
    }
  }

  lemma JoinedFlight(s: State, id: nat, key: string, fallback: string, k: string)
    requires Inv(s) && k in s.inflight && (k == key || k == fallback != "")
    ensures PhaseOk(s, id, Waiting(key, fallback, s.inflight[k]))
  {
    assert FlightOk(s, k);
  }

  lemma OwnerKeepsInv(s: State, id: nat, key: string, fallback: string, c: nat, stage: Stage, answer: Option<Token>)
    requires Inv(s) && id in s.callers && s.callers[id] == Owner(key, fallback, c, stage)
    ensures Inv(OwnerMoves(s, id, key, fallback, c, stage, answer))
  {
    hide Inv, Obtain;
    match stage
    case Publishing(outcome) => PublishKeepsInv(s, id, key, fallback, c, outcome);
    case Removing(outcome) => RemoveKeepsInv(s, id, key, fallback, c, outcome);
    case _ =>
      var (cache, next) := Obtain(s.cache, s.now, key, fallback, stage, answer);
      OwnerStays(s, id, key, fallback, c, stage, next);
      GoesKeepsInv(s, id, cache, Owner(key, fallback, c, next));
  }

  lemma OwnerStays(s: State, id: nat, key: string, fallback: string, c: nat, stage: Stage, next: Stage)
    requires Inv(s) && id in s.callers && s.callers[id] == Owner(key, fallback, c, stage) && !stage.Removing? && !next.Removing?
    ensures PhaseOk(s, id, Owner(key, fallback, c, next))
  {
  }

  lemma StepFreezes(s: State, e: Event)
    requires Inv(s)
    ensures Frozen(s, Step(s, e))
  {
    hide FlightOk, Obtain, Lookup;
    if e.Move? && e.id in s.callers && s.callers[e.id].Owner? {
      assert PhaseOk(s, e.id, s.callers[e.id]);
    }
  }

  lemma {:induction false} RunKeepsInv(events: seq<Event>)
    ensures Inv(Run(events))
  {
    hide Inv, Step;
    if events == [] {
      assert Inv(INITIAL) by { NothingYet(); }
    } else {
      RunKeepsInv(events[..|events| - 1]);
      StepKeepsInv(Run(events[..|events| - 1]), events[|events| - 1]);
    }
  }

  lemma NothingYet()
    ensures Inv(INITIAL)
  {
  }

  // ---------------------------------------------------------------- runs

  /** Between joining the table and leaving it, flights with the same key have one owner. */
  lemma OneFlightPerKey(events: seq<Event>, i: nat, j: nat)
    requires i in Run(events).callers && j in Run(events).callers && i != j
    requires Run(events).callers[i].Owner? && Run(events).callers[j].Owner?
    ensures Run(events).callers[i].key != Run(events).callers[j].key
  {
    hide Run, FlightOk;
    RunKeepsInv(events);
    var s := Run(events);
    assert PhaseOk(s, i, s.callers[i]) && PhaseOk(s, j, s.callers[j]);
  }

  /** What becomes of a caller that waits for flight c. */
  ghost predicate Served(s: State, id: nat, key: string, fallback: string, c: nat) {
    && c < |s.calls| && (s.calls[c].key == key || s.calls[c].key == fallback != "") && id in s.callers
    && match s.callers[id]
       case Waiting(k, f, d) => (k, f, d) == (key, fallback, c)
       case Returned(outcome, FromFlight(d)) => d == c && s.calls[c].done == Some(outcome)
       case Returned(outcome, Cancelled) => outcome == Failed
       case _ => false
  }

  lemma ServedStep(s: State, e: Event, id: nat, key: string, fallback: string, c: nat)
    requires Inv(s) && Served(s, id, key, fallback, c)
    ensures Served(Step(s, e), id, key, fallback, c)
  {
    hide Inv, Lookup, Obtain;
    StepFreezes(s, e);
    if !(e.Move? && e.id == id) && !(e.Cancel? && e.id == id) {
      StepMovesOne(s, e, id);
    }
  }

  lemma StepMovesOne(s: State, e: Event, id: nat)
    requires id in s.callers && !(e.Move? && e.id == id) && !(e.Cancel? && e.id == id)
    ensures id in Step(s, e).callers && Step(s, e).callers[id] == s.callers[id]
  {
    hide Lookup, Obtain;
  }

  /** A waiting caller gets exactly the token or the error of the flight it joined, which is one under its
      key or its fallback, or it is cancelled; and what a flight has published never changes. */
  lemma {:induction false} WaitersGetTheirFlight(events: seq<Event>, more: seq<Event>, id: nat)
    requires id in Run(events).callers && Run(events).callers[id].Waiting?
    ensures var Waiting(key, fallback, c) := Run(events).callers[id]; Served(Run(events + more), id, key, fallback, c)
    ensures Frozen(Run(events), Run(events + more))
    decreases |more|
  {
    hide Run, Step, Inv, Served, Frozen;
    var s := Run(events);
    var Waiting(key, fallback, c) := s.callers[id];
    if more == [] {
      assert events + more == events;
      RunKeepsInv(events);
      WaitingIsServed(s, id);
      FrozenAlready(s);
    } else {
      var n := |more| - 1;
      WaitersGetTheirFlight(events, more[..n], id);
      RunStep(events, more);
      var t := Run(events + more[..n]);
      RunKeepsInv(events + more[..n]);
      ServedStep(t, more[n], id, key, fallback, c);
      StepFreezes(t, more[n]);
      FrozenOn(s, t, Step(t, more[n]));
    }
  }

  lemma RunStep(events: seq<Event>, more: seq<Event>)
    requires more != []
    ensures Run(events + more) == Step(Run(events + more[..|more| - 1]), more[|more| - 1])
  {
    hide Step, Run;
    var all := events + more;
    RunUnfolds(all);
    assert all[..|all| - 1] == events + more[..|more| - 1];
    assert all[|all| - 1] == more[|more| - 1];
  }

  lemma RunUnfolds(events: seq<Event>)
    requires events != []
    ensures Run(events) == Step(Run(events[..|events| - 1]), events[|events| - 1])
  {
    hide Step;
  }

  lemma WaitingIsServed(s: State, id: nat)
    requires Inv(s) && id in s.callers && s.callers[id].Waiting?
    ensures var Waiting(key, fallback, c) := s.callers[id]; Served(s, id, key, fallback, c)
  {
    assert PhaseOk(s, id, s.callers[id]);
  }

  lemma FrozenAlready(s: State)
    ensures Frozen(s, s)
  {
  }

  lemma FrozenOn(s: State, t: State, u: State)
    requires Frozen(s, t) && Frozen(t, u)
    ensures Frozen(s, u)
  {
  }

  // ---------------------------------------------------------------- when the network is reached

  /** The owner of a flight is past its second look at the cache and on its way to the token server, or
      back from it. */
  predicate BeyondRecheck(stage: Stage) {
    !stage.Recheck? && !stage.Promoting? && !stage.Publishing? && !stage.Removing?
  }

  /** At event i the caller, with its flight in the table, looked again and found no token to use. */
  ghost predicate LookedInVain(events: seq<Event>, i: nat, id: nat, key: string, fallback: string) {
    && i < |events| && events[i].Move? && events[i].id == id
    && var s := Run(events[..i]);
       && id in s.callers && s.callers[id].Owner? && s.callers[id].stage == Recheck
       && s.callers[id].key == key && s.callers[id].fallback == fallback
       && !Usable(s.cache, s.now, key, fallback)
  }

  /** On any run the token server is reached only after that look: with no valid token under the key, and
      none under the fallback either, unless an invalid one under the key hid it. */
  lemma {:induction false} NetworkFollowsAVainLook(events: seq<Event>, id: nat) returns (i: nat)
    requires var s := Run(events); id in s.callers && s.callers[id].Owner? && BeyondRecheck(s.callers[id].stage)
    ensures var p := Run(events).callers[id]; LookedInVain(events, i, id, p.key, p.fallback)
  {
    hide Run, LookedInVain;
    var n := |events| - 1;
    RunFirst(events);
    var s, e := Run(events[..n]), events[n];
    var p := Run(events).callers[id];
    StageBefore(s, e, id);
    if e.Move? && e.id == id && s.callers[id].stage == Recheck {
      i := n;
      LooksInVain(events, id, p.key, p.fallback);
    } else {
      i := NetworkFollowsAVainLook(events[..n], id);
      EarlierLook(events, n, i, id, p.key, p.fallback);
    }
  }

  lemma RunFirst(events: seq<Event>)
    requires Run(events).callers != map[]
    ensures events != [] && Run(events) == Step(Run(events[..|events| - 1]), events[|events| - 1])
  {
    hide Step;
  }

  /** Where an owner on its way to the token server was one step before. */
  lemma StageBefore(s: State, e: Event, id: nat)
    requires var t := Step(s, e); id in t.callers && t.callers[id].Owner? && BeyondRecheck(t.callers[id].stage)
    ensures id in s.callers && s.callers[id].Owner?
    ensures var t := Step(s, e); s.callers[id].key == t.callers[id].key && s.callers[id].fallback == t.callers[id].fallback
    ensures if e.Move? && e.id == id && s.callers[id].stage == Recheck then !Usable(s.cache, s.now, s.callers[id].key, s.callers[id].fallback)
            else BeyondRecheck(s.callers[id].stage)
  {
    hide Lookup, Obtain, Promoted, Usable, BeyondRecheck;
    if e.Move? && e.id == id && id in s.callers {
      MovesBeyond(s, id, e.answer);
    } else if id in s.callers && !(e.Cancel? && e.id == id) {
      StepMovesOne(s, e, id);
    }
  }

  lemma MovesBeyond(s: State, id: nat, answer: Option<Token>)
    requires id in s.callers
    requires var t := Step(s, Move(id, answer)); t.callers[id].Owner? && BeyondRecheck(t.callers[id].stage)
    ensures s.callers[id].Owner?
    ensures var t := Step(s, Move(id, answer)); s.callers[id].key == t.callers[id].key && s.callers[id].fallback == t.callers[id].fallback
    ensures if s.callers[id].stage == Recheck then !Usable(s.cache, s.now, s.callers[id].key, s.callers[id].fallback)
            else BeyondRecheck(s.callers[id].stage)
  {
    hide Lookup, Promoted, Dropped;
  }

  lemma LooksInVain(events: seq<Event>, id: nat, key: string, fallback: string)
    requires events != []
    requires var n := |events| - 1; var s := Run(events[..n]);
             && events[n].Move? && events[n].id == id && id in s.callers && s.callers[id].Owner? && s.callers[id].stage == Recheck
             && s.callers[id].key == key && s.callers[id].fallback == fallback && !Usable(s.cache, s.now, key, fallback)
    ensures LookedInVain(events, |events| - 1, id, key, fallback)
  {
    hide Run, Usable;
  }

  lemma EarlierLook(events: seq<Event>, n: nat, i: nat, id: nat, key: string, fallback: string)
    requires n <= |events| && LookedInVain(events[..n], i, id, key, fallback)
    ensures LookedInVain(events, i, id, key, fallback)
  {
    hide Run, Usable;
    assert events[..n][..i] == events[..i];
  }

  /** One caller alone, on whatever cache. */
  function Alone(cache: Cache, key: string, fallback: string): seq<Event> {
    [Replace(cache), Begin(0, key, fallback), Move(0, None), Move(0, None), Move(0, None), Move(0, None)]
  }

  ghost predicate AtNetwork(s: State, id: nat) {
    id in s.callers && s.callers[id].Owner? && (s.callers[id].stage.Fetching? || s.callers[id].stage.Refreshing?)
  }

  lemma RunPrefix(events: seq<Event>, k: nat)
    requires 0 < k <= |events|
    ensures Run(events[..k]) == Step(Run(events[..k - 1]), events[k - 1])
  {
    hide Step;
    assert events[..k][..k - 1] == events[..k - 1];
  }

  lemma AloneGoes(cache: Cache, key: string, fallback: string)
    requires key != "" && key != fallback
    ensures AtNetwork(Run(Alone(cache, key, fallback)), 0) <==> !Usable(cache, 0, key, fallback)
  {
    hide Run, Usable, AtNetwork, MoveOn;
    var es := Alone(cache, key, fallback);
    assert Run(es[..0]) == INITIAL by { RunNothing(); }
    RunPrefix(es, 1);
    RunPrefix(es, 2);
    var s := Run(es[..2]);
    assert s == State(cache, map[], [], map[0 := Asked(key, fallback)], 0);
    RunPrefix(es, 3);
    RunPrefix(es, 4);
    RunPrefix(es, 5);
    RunPrefix(es, 6);
    assert es[..6] == es;
    MovesAlone(s, key, fallback);
  }

  function Moved(s: State): State {
    Step(s, Move(0, None))
  }

  lemma MovesAlone(s: State, key: string, fallback: string)
    requires s.inflight == map[] && s.calls == [] && s.callers == map[0 := Asked(key, fallback)]
    ensures AtNetwork(Moved(Moved(Moved(Moved(s)))), 0) <==> !Usable(s.cache, s.now, key, fallback)
  {
    hide Lookup, Promoted;
    var t := Moved(Moved(s));
    if Usable(s.cache, s.now, key, fallback) {
      assert t.callers[0].Returned?;
    } else {
      assert t.callers[0] == Owner(key, fallback, 0, Recheck) && t.cache == s.cache && t.now == s.now;
      assert Moved(t).callers[0] == Owner(key, fallback, 0, Looking);
    }
  }

  lemma RunNothing()
    ensures Run([]) == INITIAL
  {
  }

  /** Keys are never empty, and never their own fallback. */
  ghost predicate KeysOk(s: State) {
    forall id | id in s.callers && (s.callers[id].Asked? || s.callers[id].Missed? || s.callers[id].Owner?) ::
      s.callers[id].key != "" && s.callers[id].key != s.callers[id].fallback
  }

  lemma {:induction false} RunKeepsKeys(events: seq<Event>)
    ensures KeysOk(Run(events))
  {
    if events != [] {
      var n := |events| - 1;
      RunKeepsKeys(events[..n]);
      StepKeepsKeys(Run(events[..n]), events[n]);
    }
  }

  lemma StepKeepsKeys(s: State, e: Event)
    requires KeysOk(s)
    ensures KeysOk(Step(s, e))
  {
    hide Lookup, Promoted, Obtain;
    forall i | i in Step(s, e).callers && i in s.callers && !((e.Move? || e.Cancel?) && e.id == i)
      ensures Step(s, e).callers[i] == s.callers[i]
    {
      StepMovesOne(s, e, i);
    }
  }

  /** What is to happen to an owner that looks again: it is on its way to the token server, which its next
      step reaches whatever happens in between. */
  ghost predicate BoundForNetwork(s: State, id: nat) {
    id in s.callers && s.callers[id].Owner? && s.callers[id].stage == Looking
  }

  /** So the promise that a flight reaches the token server only when neither key holds a valid token holds,
      at every second look of every run, exactly where an invalid token under the key does not hide a valid
      one under the fallback. */
  lemma NetworkDespiteAValidToken(events: seq<Event>, id: nat, answer: Option<Token>)
    requires var s := Run(events); id in s.callers && s.callers[id].Owner? && s.callers[id].stage == Recheck
    ensures var s := Run(events);
            var Owner(key, fallback, _, _) := s.callers[id];
            var network := BoundForNetwork(Step(s, Move(id, answer)), id);
            && (network <==> !Usable(s.cache, s.now, key, fallback))
            && ((network ==> !ValidUnder(s.cache, s.now, key) && !ValidUnder(s.cache, s.now, fallback))
                <==> !(key in s.cache && !s.cache[key].Valid(s.now) && ValidUnder(s.cache, s.now, fallback)))
  {
    hide Run, Lookup, Promoted;
    RunKeepsKeys(events);
    var s := Run(events);
    UsableUnlessHidden(s.cache, s.now, s.callers[id].key, s.callers[id].fallback);
  }

  /** Whatever others do meanwhile, and whatever comes into the cache, the owner goes on to the network. */
  lemma BoundReachesNetwork(s: State, e: Event, id: nat)
    requires BoundForNetwork(s, id)
    ensures if e.Move? && e.id == id then AtNetwork(Step(s, e), id) else BoundForNetwork(Step(s, e), id)
  {
    if !(e.Move? && e.id == id) && !(e.Cancel? && e.id == id) {
      StepMovesOne(s, e, id);
    }
    hide Lookup, Promoted;
  }

  /** An expired token under the key, and a good one under the fallback. */
  lemma ExpiredTokenHidesAGoodOne(key: string, fallback: string, good: Token)
    requires key != "" && fallback != "" && key != fallback && good.Valid(0)
    ensures AtNetwork(Run(Alone(map[key := Token("old", "", Some(0)), fallback := good], key, fallback)), 0)
  {
    hide Run;
    var cache := map[key := Token("old", "", Some(0)), fallback := good];
    assert cache[key] == Token("old", "", Some(0));
    AloneGoes(cache, key, fallback);
  }
}
