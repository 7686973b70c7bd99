/** Every interleaving of callers of the credential manager (internal/authcmd/manager.go). */
module SingleFlight {
  import opened Wrappers
  import opened Text
  import opened AuthConfig
  import opened CacheKeys
  import opened AuthManager

  // One event is one locked section, or one write or read that another goroutine can see: the lookup
  // of prepareConfig, planResolve, the end of the command, store, the publication of a flight (cred,
  // err and close(done)), its removal from the table, the return of a waiter, and Restore. A sequence
  // of events is a schedule; an event that is not enabled does nothing.

  type Got = Result<Credential, AuthError>

  /** The flight's key and owner are not stored by the program; the model keeps them to say whose
      flight it is. done is closed when outcome is there. */
  datatype Flight = Flight(key: string, owner: nat, cfg: Config, outcome: Option<Got>)

  datatype Outcome = Served(result: Rendered) | Refused(error: AuthError)

  datatype Phase =
    | Ready(key: string, cfg: Config)
    | Alone(cfg: Config)   // no cache key: fetches for itself
    | Waiting(key: string, cfg: Config, flight: nat)
    | Fetching(key: string, cfg: Config, seed: Config, flight: nat)
    | Storing(key: string, cfg: Config, seed: Config, flight: nat, cred: Credential)
    | Publishing(key: string, cfg: Config, flight: nat, got: Got)
    | Removing(key: string, cfg: Config, flight: nat, got: Got)
    | Done(key: string, cfg: Config, outcome: Outcome)
  {
    predicate Owns() { Fetching? || Storing? || Publishing? || Removing? }
  }

  /** Where a credential entered: a command that ran with cfg, or a restored snapshot. */
  datatype Source = Source(key: string, cfg: Config, cred: Credential)

  datatype State = State(
    cache: map<string, Record>,
    inflight: map<string, nat>,
    flights: seq<Flight>,
    callers: map<nat, Phase>,
    log: seq<Source>)

  datatype Event =
    | Begin(id: nat, env: string, cfg: Config)
    | PlanAt(id: nat, now: Time)
    | Return(id: nat, got: Got)   // the command returned
    | Store(id: nat)
    | Publish(id: nat)
    | Remove(id: nat)
    | Wake(id: nat)
    | Cancel(id: nat)
    | RestoreAllOf(entries: seq<SnapshotEntry>)

  const INIT := State(map[], map[], [], map[], [])

  // ---------------------------------------------------------------- steps

  function Finish(cfg: Config, got: Got): Outcome {
    match got case Ok(cred) => Served(Render(cfg, cred)) case Err(e) => Refused(e)
  }

  function BeginWith(s: State, id: nat, cfg: Config, prep: Result<Prepared, AuthError>): State {
    if id in s.callers then s else
      match prep
      case Err(e) => s.(callers := s.callers[id := Done("", cfg, Refused(e))])
      case Ok(p) => s.(callers := s.callers[id := if p.key == "" then Alone(p.cfg) else Ready(p.key, p.cfg)])
  }

  function BeginStep(s: State, id: nat, env: string, cfg: Config): State {
    BeginWith(s, id, cfg, PrepareWith(env, cfg, s.cache))
  }

  function FlightConfig(s: State, key: string): Option<Config> {
    if key in s.inflight && s.inflight[key] < |s.flights| then Some(s.flights[s.inflight[key]].cfg) else None
  }

  function PlanWith(s: State, id: nat, key: string, cfg: Config, plan: Plan): State {
    match plan
    case Refuse(e) => s.(callers := s.callers[id := Done(key, cfg, Refused(e))])
    case Hit(result) => s.(callers := s.callers[id := Done(key, cfg, Served(result))])
    case Join => if key in s.inflight then s.(callers := s.callers[id := Waiting(key, cfg, s.inflight[key])]) else s
    case Start(seed) =>
      s.(flights := s.flights + [Flight(key, id, seed, None)],
         inflight := s.inflight[key := |s.flights|],
         callers := s.callers[id := Fetching(key, cfg, seed, |s.flights|)])
  }

  function PlanStep(s: State, id: nat, now: Time): State {
    if id !in s.callers || !s.callers[id].Ready? then s else
      var Ready(key, cfg) := s.callers[id];
      PlanWith(s, id, key, cfg, Decide(Get(s.cache, key), FlightConfig(s, key), cfg, now))
  }

  /** A command that succeeds yields a token that is not empty (extract.go:41-99). */
  predicate Extracted(got: Got) {
    got.Ok? ==> got.value.token != ""
  }

  function ReturnStep(s: State, id: nat, got: Got): State {
    if id !in s.callers || !Extracted(got) then s else
      match s.callers[id]
      case Alone(cfg) => s.(callers := s.callers[id := Done("", cfg, Finish(cfg, got))])
      case Fetching(key, cfg, seed, f) =>
        (match got
         case Ok(cred) => s.(callers := s.callers[id := Storing(key, cfg, seed, f, cred)],
                             log := s.log + [Source(key, cfg, cred)])
         case Err(_) => s.(callers := s.callers[id := Publishing(key, cfg, f, got)]))
      case _ => s
  }

  function StoreStep(s: State, id: nat): State {
    if id !in s.callers || !s.callers[id].Storing? then s else
      var Storing(key, cfg, seed, f, cred) := s.callers[id];
      s.(cache := s.cache[key := Record(cred, seed)], callers := s.callers[id := Publishing(key, cfg, f, Ok(cred))])
  }

  function PublishStep(s: State, id: nat): State {
    if id !in s.callers || !s.callers[id].Publishing? || s.callers[id].flight >= |s.flights| then s else
      var Publishing(key, cfg, f, got) := s.callers[id];
      s.(flights := s.flights[f := s.flights[f].(outcome := Some(got))],
         callers := s.callers[id := Removing(key, cfg, f, got)])
  }

  function RemoveStep(s: State, id: nat): State {
    if id !in s.callers || !s.callers[id].Removing? then s else
      var Removing(key, cfg, f, got) := s.callers[id];
      s.(inflight := s.inflight - {key}, callers := s.callers[id := Done(key, cfg, Finish(cfg, got))])
  }

  function WakeStep(s: State, id: nat): State {
    if id !in s.callers || !s.callers[id].Waiting? then s else
      var Waiting(key, cfg, f) := s.callers[id];
      if f >= |s.flights| || s.flights[f].outcome.None? then s else
        s.(callers := s.callers[id := Done(key, cfg, Finish(cfg, s.flights[f].outcome.value))])
  }

  function CancelStep(s: State, id: nat): State {
    if id !in s.callers || !s.callers[id].Waiting? then s else
      s.(callers := s.callers[id := Done(s.callers[id].key, s.callers[id].cfg, Refused(Cancelled))])
  }

  function RestoredSources(entries: seq<SnapshotEntry>): seq<Source> {
    if entries == [] then [] else
      var front, last := RestoredSources(entries[..|entries| - 1]), Restorable(entries[|entries| - 1]);
      if last.None? then front else front + [Source(last.value.key, last.value.cfg, last.value.cred)]
  }

  function Step(s: State, ev: Event): State {
    match ev
    case Begin(id, env, cfg) => BeginStep(s, id, env, cfg)
    case PlanAt(id, now) => PlanStep(s, id, now)
    case Return(id, got) => ReturnStep(s, id, got)
    case Store(id) => StoreStep(s, id)
    case Publish(id) => PublishStep(s, id)
    case Remove(id) => RemoveStep(s, id)
    case Wake(id) => WakeStep(s, id)
    case Cancel(id) => CancelStep(s, id)
    case RestoreAllOf(entries) => s.(cache := RestoreAll(entries), log := s.log + RestoredSources(entries))
  }

  function Run(s: State, evs: seq<Event>): State
    decreases |evs|
  {
    if evs == [] then s else Run(Step(s, evs[0]), evs[1..])
  }

  // ---------------------------------------------------------------- the protocol invariant

  /** Caller id owns flight f. */
  ghost predicate Holds(callers: map<nat, Phase>, id: nat, f: nat) {
    id in callers && callers[id].Owns() && callers[id].flight == f
  }

  /** Flight f is in the table under its key. */
  ghost predicate InTable(s: State, f: nat) {
    f < |s.flights| && s.flights[f].key in s.inflight && s.inflight[s.flights[f].key] == f
  }

  ghost predicate PhaseOk(s: State, id: nat, p: Phase) {
    match p
    case Waiting(key, cfg, f) => f < |s.flights| && s.flights[f].key == key && s.flights[f].cfg.SameSeed(cfg)
    case Fetching(key, cfg, seed, f) => OwnerOk(s, id, key, cfg, f) && s.flights[f].outcome == None && s.flights[f].cfg == seed
    case Storing(key, cfg, seed, f, _) => OwnerOk(s, id, key, cfg, f) && s.flights[f].outcome == None && s.flights[f].cfg == seed
    case Publishing(key, cfg, f, _) => OwnerOk(s, id, key, cfg, f) && s.flights[f].outcome == None
    case Removing(key, cfg, f, got) => OwnerOk(s, id, key, cfg, f) && s.flights[f].outcome == Some(got)
    case _ => true
  }

  ghost predicate OwnerOk(s: State, id: nat, key: string, cfg: Config, f: nat) {
    InTable(s, f) && s.flights[f].key == key && s.flights[f].owner == id && s.flights[f].cfg.SameSeed(cfg)
  }

  /** Every flight in the table has an owner still at work, every flight that is not done has one
      too, and callers agree with the flights they own or wait for. */
  ghost predicate Inv(s: State) {
    && (forall key | key in s.inflight :: s.inflight[key] < |s.flights| && s.flights[s.inflight[key]].key == key
                                          && Holds(s.callers, s.flights[s.inflight[key]].owner, s.inflight[key]))
    && (forall id | id in s.callers :: PhaseOk(s, id, s.callers[id]))
    && (forall f | 0 <= f < |s.flights| && s.flights[f].outcome == None :: Holds(s.callers, s.flights[f].owner, f))
  }

  /** A step that changes one caller's phase, and no flight, keeps the invariant when the caller
      goes on owning what it owned. */
  lemma MoveKeepsInv(s: State, id: nat, p: Phase, s': State)
    requires Inv(s) && PhaseOk(s, id, p)
    requires id in s.callers && s.callers[id].Owns() ==> p.Owns() && p.flight == s.callers[id].flight
    requires s'.callers == s.callers[id := p] && s'.inflight == s.inflight && s'.flights == s.flights
    ensures Inv(s')
  {
    hide PhaseOk, Holds;
    forall i | i in s'.callers ensures PhaseOk(s', i, s'.callers[i]) {
      assert PhaseOk(s, i, s'.callers[i]);
      SamePhase(s, s', i, s'.callers[i]);
    }
    forall o: nat, f | Holds(s.callers, o, f) ensures Holds(s'.callers, o, f) {
      StillHolds(s.callers, id, p, o, f);
    }
  }

  lemma SamePhase(s: State, s': State, id: nat, p: Phase)
    requires PhaseOk(s, id, p) && s'.inflight == s.inflight && s'.flights == s.flights
    ensures PhaseOk(s', id, p)
  {
    hide Config.SameSeed;
  }

  lemma StillHolds(callers: map<nat, Phase>, id: nat, p: Phase, o: nat, f: nat)
    requires Holds(callers, o, f)
    requires id in callers && callers[id].Owns() ==> p.Owns() && p.flight == callers[id].flight
    ensures Holds(callers[id := p], o, f)
  {
  }

  lemma PlanKeepsInv(s: State, id: nat, now: Time)
    requires Inv(s)
    ensures Inv(PlanStep(s, id, now))
  {
    hide Decide, Config.SameSeed, Unusable, Holds;
    if id in s.callers && s.callers[id].Ready? {
      var Ready(key, cfg) := s.callers[id];
      var plan := Decide(Get(s.cache, key), FlightConfig(s, key), cfg, now);
      DecideStartsOnlyWhenNeeded(Get(s.cache, key), FlightConfig(s, key), cfg, now);
      var s' := PlanStep(s, id, now);
      if plan.Start? {
        StartKeepsInv(s, id, key, cfg, plan.seed, s');
      } else {
        MoveKeepsInv(s, id, s'.callers[id], s');
      }
    }
  }

  lemma StartKeepsInv(s: State, id: nat, key: string, cfg: Config, seed: Config, s': State)
    requires Inv(s) && id in s.callers && !s.callers[id].Owns() && key !in s.inflight && seed.SameSeed(cfg)
    requires s'.flights == s.flights + [Flight(key, id, seed, None)]
    requires s'.inflight == s.inflight[key := |s.flights|]
    requires s'.callers == s.callers[id := Fetching(key, cfg, seed, |s.flights|)]
    ensures Inv(s')
  {
    hide Config.SameSeed;
    forall k | k in s'.inflight
      ensures s'.inflight[k] < |s'.flights| && s'.flights[s'.inflight[k]].key == k
      ensures Holds(s'.callers, s'.flights[s'.inflight[k]].owner, s'.inflight[k])
    {
      if k != key {
        assert Holds(s.callers, s.flights[s.inflight[k]].owner, s.inflight[k]);
      }
    }
    forall i | i in s'.callers ensures PhaseOk(s', i, s'.callers[i]) {
      StartKeepsPhase(s, id, key, cfg, seed, s', i);
    }
    forall g | 0 <= g < |s'.flights| && s'.flights[g].outcome == None ensures Holds(s'.callers, s'.flights[g].owner, g) {
      if g < |s.flights| {
        assert Holds(s.callers, s.flights[g].owner, g);
      }
    }
  }

  lemma StartKeepsPhase(s: State, id: nat, key: string, cfg: Config, seed: Config, s': State, i: nat)
    requires i in s'.callers && (i != id ==> i in s.callers && PhaseOk(s, i, s.callers[i])) && key !in s.inflight && seed.SameSeed(cfg)
    requires s'.flights == s.flights + [Flight(key, id, seed, None)]
    requires s'.inflight == s.inflight[key := |s.flights|]
    requires s'.callers == s.callers[id := Fetching(key, cfg, seed, |s.flights|)]
    ensures PhaseOk(s', i, s'.callers[i])
  {
    hide Config.SameSeed;
  }

  lemma PublishKeepsInv(s: State, id: nat, key: string, cfg: Config, f: nat, got: Got, s': State)
    requires Inv(s) && id in s.callers && s.callers[id] == Publishing(key, cfg, f, got) && f < |s.flights|
    requires s'.flights == s.flights[f := s.flights[f].(outcome := Some(got))] && s'.inflight == s.inflight
    requires s'.callers == s.callers[id := Removing(key, cfg, f, got)]
    ensures Inv(s')
  {
    hide Config.SameSeed;
    assert PhaseOk(s, id, s.callers[id]);
    forall i | i in s'.callers ensures PhaseOk(s', i, s'.callers[i]) {
      assert PhaseOk(s, i, s.callers[i]);
      PublishKeepsPhase(s, id, key, cfg, f, got, s', i);
    }
  }

  lemma PublishKeepsPhase(s: State, id: nat, key: string, cfg: Config, f: nat, got: Got, s': State, i: nat)
    requires id in s.callers && s.callers[id] == Publishing(key, cfg, f, got) && f < |s.flights| && PhaseOk(s, id, s.callers[id])
    requires i in s.callers && PhaseOk(s, i, s.callers[i])
    requires s'.flights == s.flights[f := s.flights[f].(outcome := Some(got))] && s'.inflight == s.inflight
    requires s'.callers == s.callers[id := Removing(key, cfg, f, got)]
    ensures PhaseOk(s', i, s'.callers[i])
  {
    hide Config.SameSeed;
  }

  lemma RemoveKeepsInv(s: State, id: nat, key: string, cfg: Config, f: nat, got: Got, s': State)
    requires Inv(s) && id in s.callers && s.callers[id] == Removing(key, cfg, f, got)
    requires s'.flights == s.flights && s'.inflight == s.inflight - {key}
    requires s'.callers == s.callers[id := Done(key, cfg, Finish(cfg, got))]
    ensures Inv(s')
  {
    hide Config.SameSeed, Finish;
    assert PhaseOk(s, id, s.callers[id]);
    forall k | k in s'.inflight
      ensures s'.inflight[k] < |s'.flights| && s'.flights[s'.inflight[k]].key == k
      ensures Holds(s'.callers, s'.flights[s'.inflight[k]].owner, s'.inflight[k])
    {
      assert s.inflight[k] != f;
      assert Holds(s.callers, s.flights[s.inflight[k]].owner, s.inflight[k]);
    }
    forall i | i in s'.callers ensures PhaseOk(s', i, s'.callers[i]) {
      RemoveKeepsPhase(s, id, key, cfg, f, got, s', i);
    }
    forall g | 0 <= g < |s'.flights| && s'.flights[g].outcome == None ensures Holds(s'.callers, s'.flights[g].owner, g) {
      assert Holds(s.callers, s.flights[g].owner, g);
      assert s.flights[g].owner != id;
    }
  }

  lemma RemoveKeepsPhase(s: State, id: nat, key: string, cfg: Config, f: nat, got: Got, s': State, i: nat)
    requires id in s.callers && s.callers[id] == Removing(key, cfg, f, got) && PhaseOk(s, id, s.callers[id])
    requires i in s.callers && PhaseOk(s, i, s.callers[i])
    requires s'.flights == s.flights && s'.inflight == s.inflight - {key}
    requires s'.callers == s.callers[id := Done(key, cfg, Finish(cfg, got))]
    ensures PhaseOk(s', i, s'.callers[i])
  {
    hide Config.SameSeed, Finish;
    assert i != id && s.callers[i].Owns() ==> s.callers[i].key != key;
  }

  /** Nothing moved, or one caller moved on to a phase that fits the flights, keeping what it owns. */
  ghost predicate Moves(s: State, id: nat, s': State) {
    && s'.inflight == s.inflight && s'.flights == s.flights
    && (s'.callers == s.callers
        || (&& id in s'.callers && s'.callers == s.callers[id := s'.callers[id]] && PhaseOk(s, id, s'.callers[id])
            && (id in s.callers && s.callers[id].Owns() ==>
                  s'.callers[id].Owns() && s'.callers[id].flight == s.callers[id].flight)))
  }

  lemma BeginMoves(s: State, id: nat, cfg: Config, prep: Result<Prepared, AuthError>)
    ensures Moves(s, id, BeginWith(s, id, cfg, prep))
  {
  }

  lemma ReturnMoves(s: State, id: nat, got: Got)
    requires Inv(s)
    ensures Moves(s, id, ReturnStep(s, id, got))
  {
    hide Config.SameSeed, Finish, Extracted, Holds;
    if id in s.callers {
      assert PhaseOk(s, id, s.callers[id]);
    }
  }

  lemma StoreMoves(s: State, id: nat)
    requires Inv(s)
    ensures Moves(s, id, StoreStep(s, id))
  {
    if id in s.callers {
      assert PhaseOk(s, id, s.callers[id]);
    }
  }

  lemma WaiterMoves(s: State, id: nat)
    ensures Moves(s, id, WakeStep(s, id)) && Moves(s, id, CancelStep(s, id))
  {
  }

  lemma MovesKeepsInv(s: State, id: nat, s': State)
    requires Inv(s) && Moves(s, id, s')
    ensures Inv(s')
  {
    if s'.callers != s.callers {
      MoveKeepsInv(s, id, s'.callers[id], s');
    } else {
      SameTablesKeepInv(s, s');
    }
  }

  lemma StepKeepsInv(s: State, ev: Event)
    requires Inv(s)
    ensures Inv(Step(s, ev))
  {
    var s' := Step(s, ev);
    match ev
    case PlanAt(id, now) => PlanKeepsInv(s, id, now);
    case Publish(id) =>
      if s' != s {
        var p := s.callers[id];
        PublishKeepsInv(s, id, p.key, p.cfg, p.flight, p.got, s');
      }
    case Remove(id) =>
      if s' != s {
        var p := s.callers[id];
        RemoveKeepsInv(s, id, p.key, p.cfg, p.flight, p.got, s');
      }
    case RestoreAllOf(_) => SameTablesKeepInv(s, s');
    case Begin(id, env, cfg) => BeginMoves(s, id, cfg, PrepareWith(env, cfg, s.cache)); MovesKeepsInv(s, id, s');
    case Return(id, got) => ReturnMoves(s, id, got); MovesKeepsInv(s, id, s');
    case Store(id) => StoreMoves(s, id); MovesKeepsInv(s, id, s');
    case Wake(id) => WaiterMoves(s, id); MovesKeepsInv(s, id, s');
    case Cancel(id) => WaiterMoves(s, id); MovesKeepsInv(s, id, s');
  }

  lemma SameTablesKeepInv(s: State, s': State)
    requires Inv(s) && s'.callers == s.callers && s'.inflight == s.inflight && s'.flights == s.flights
    ensures Inv(s')
  {
    forall i | i in s'.callers ensures PhaseOk(s', i, s'.callers[i]) {
      assert PhaseOk(s, i, s.callers[i]);
    }
  }

  lemma {:induction false} RunKeepsInv(s: State, evs: seq<Event>)
    requires Inv(s)
    ensures Inv(Run(s, evs))
    decreases |evs|
  {
    if evs != [] {
      StepKeepsInv(s, evs[0]);
      RunKeepsInv(Step(s, evs[0]), evs[1..]);
    }
  }

  // ---------------------------------------------------------------- one fetch per key

  /** In every schedule, at most one caller per key is between starting a fetch and leaving the table. */
  lemma AtMostOneFetch(evs: seq<Event>, i: nat, j: nat)
    requires var s := Run(INIT, evs);
             && i in s.callers && j in s.callers && s.callers[i].Owns() && s.callers[j].Owns()
             && s.callers[i].key == s.callers[j].key
    ensures i == j
  {
    RunKeepsInv(INIT, evs);
    var s := Run(INIT, evs);
    assert PhaseOk(s, i, s.callers[i]) && PhaseOk(s, j, s.callers[j]);
  }

  /** A key is in the table exactly while a caller owns a flight for it. */
  lemma TableHoldsOwners(s: State, key: string)
    requires Inv(s)
    ensures key in s.inflight <==> Busy(s, key)
  {
    if key in s.inflight {
      var owner := s.flights[s.inflight[key]].owner;
      assert Holds(s.callers, owner, s.inflight[key]);
      assert PhaseOk(s, owner, s.callers[owner]);
    }
    if Busy(s, key) {
      var j :| j in s.callers && s.callers[j].Owns() && s.callers[j].key == key;
      assert PhaseOk(s, j, s.callers[j]);
    }
  }

  ghost predicate Busy(s: State, key: string) {
    exists j :: j in s.callers && s.callers[j].Owns() && s.callers[j].key == key
  }

  lemma PlanOutcome(s: State, id: nat, now: Time)
    requires id in s.callers && s.callers[id].Ready?
    ensures var Ready(key, cfg) := s.callers[id];
            var s' := PlanStep(s, id, now);
            id in s'.callers && s'.callers[id].Fetching? <==>
            Decide(Get(s.cache, key), FlightConfig(s, key), cfg, now).Start?
  {
  }

  /** A fetch starts only if its key is free and holds no credential usable at the planner's clock. */
  lemma NoFetchWhileUsable(evs: seq<Event>, id: nat, now: Time)
    requires var s := Run(INIT, evs); id in s.callers && s.callers[id].Ready?
    ensures var s := Run(INIT, evs);
            var Ready(key, cfg) := s.callers[id];
            var s' := Step(s, PlanAt(id, now));
            id in s'.callers && s'.callers[id].Fetching? <==>
              && !Busy(s, key)
              && (key in s.cache ==> Unusable(s.cache[key], cfg, now))
  {
    hide Decide, Unusable;
    RunKeepsInv(INIT, evs);
    var s := Run(INIT, evs);
    var Ready(key, cfg) := s.callers[id];
    DecideStartsOnlyWhenNeeded(Get(s.cache, key), FlightConfig(s, key), cfg, now);
    TableHoldsOwners(s, key);
    PlanOutcome(s, id, now);
  }

  /** Nobody waits in vain: a flight that is not done has an owner at work, and once nobody is
      at work the table is empty. */
  lemma NobodyIsStranded(evs: seq<Event>)
    ensures var s := Run(INIT, evs);
            && (forall w | w in s.callers && s.callers[w].Waiting? ::
                  var f := s.callers[w].flight;
                  f < |s.flights| && (s.flights[f].outcome.Some? || Holds(s.callers, s.flights[f].owner, f)))
            && ((forall i | i in s.callers :: !s.callers[i].Owns()) ==> s.inflight == map[])
  {
    RunKeepsInv(INIT, evs);
    var s := Run(INIT, evs);
    forall w | w in s.callers && s.callers[w].Waiting?
      ensures var f := s.callers[w].flight;
              f < |s.flights| && (s.flights[f].outcome.Some? || Holds(s.callers, s.flights[f].owner, f))
    {
      assert PhaseOk(s, w, s.callers[w]);
    }
  }

  // ---------------------------------------------------------------- flights are frozen, waiters get theirs

  /** Flights keep their identity, and their result from the moment it is published. */
  ghost predicate Frozen(s: State, s': State) {
    && |s.flights| <= |s'.flights|
    && forall f | 0 <= f < |s.flights| ::
         && s'.flights[f].key == s.flights[f].key && s'.flights[f].owner == s.flights[f].owner
         && s'.flights[f].cfg == s.flights[f].cfg
         && (s.flights[f].outcome.Some? ==> s'.flights[f].outcome == s.flights[f].outcome)
  }

  lemma StepFreezes(s: State, ev: Event)
    requires Inv(s)
    ensures Frozen(s, Step(s, ev))
  {
    hide PrepareWith, Decide;
    if ev.Publish? && ev.id in s.callers {
      assert PhaseOk(s, ev.id, s.callers[ev.id]);
    } else if ev.Begin? {
      BeginMoves(s, ev.id, ev.cfg, PrepareWith(ev.env, ev.cfg, s.cache));
    }
  }

  lemma {:induction false} PublishedFlightsAreFrozen(s: State, evs: seq<Event>)
    requires Inv(s)
    ensures Frozen(s, Run(s, evs))
    decreases |evs|
  {
    if evs != [] {
      StepFreezes(s, evs[0]);
      StepKeepsInv(s, evs[0]);
      PublishedFlightsAreFrozen(Step(s, evs[0]), evs[1..]);
    }
  }

  /** Caller id waits for flight f, or owns it. */
  ghost predicate TiedTo(s: State, id: nat, key: string, cfg: Config, f: nat, waits: bool) {
    && id in s.callers && (if waits then s.callers[id].Waiting? else s.callers[id].Owns())
    && s.callers[id].key == key && s.callers[id].cfg == cfg && s.callers[id].flight == f
  }

  /** Caller id ended with exactly what flight f published. */
  ghost predicate Delivered(s: State, id: nat, key: string, cfg: Config, f: nat) {
    && id in s.callers && f < |s.flights| && s.flights[f].outcome.Some?
    && s.callers[id] == Done(key, cfg, Finish(cfg, s.flights[f].outcome.value))
  }

  ghost predicate GaveUp(s: State, id: nat, key: string, cfg: Config, waits: bool) {
    waits && id in s.callers && s.callers[id] == Done(key, cfg, Refused(Cancelled))
  }

  ghost predicate OnCourse(s: State, id: nat, key: string, cfg: Config, f: nat, waits: bool) {
    TiedTo(s, id, key, cfg, f, waits) || Delivered(s, id, key, cfg, f) || GaveUp(s, id, key, cfg, waits)
  }

  /** An event moves no caller but its own. */
  lemma OthersUntouched(s: State, ev: Event, id: nat)
    requires id in s.callers && (ev.RestoreAllOf? || ev.id != id || s.callers[id].Done?)
    ensures var s' := Step(s, ev); id in s'.callers && s'.callers[id] == s.callers[id]
  {
    if ev.Begin? {
      BeginMoves(s, ev.id, ev.cfg, PrepareWith(ev.env, ev.cfg, s.cache));
    } else if ev.PlanAt? {
      PlanMoves(s, ev.id, ev.now);
    }
  }

  /** Planning concerns only callers that neither wait nor own. */
  lemma PlanMoves(s: State, id: nat, now: Time)
    ensures var s' := PlanStep(s, id, now);
            s' == s || (id in s.callers && s.callers[id].Ready? && id in s'.callers && s'.callers == s.callers[id := s'.callers[id]])
  {
    if id in s.callers && s.callers[id].Ready? {
      var plan := Decide(Get(s.cache, s.callers[id].key), FlightConfig(s, s.callers[id].key), s.callers[id].cfg, now);
    }
  }

  lemma StepStaysOnCourse(s: State, ev: Event, id: nat, key: string, cfg: Config, f: nat, waits: bool)
    requires Inv(s) && OnCourse(s, id, key, cfg, f, waits)
    ensures OnCourse(Step(s, ev), id, key, cfg, f, waits)
  {
    StepFreezes(s, ev);
    assert PhaseOk(s, id, s.callers[id]);
    if ev.RestoreAllOf? || ev.id != id || s.callers[id].Done? {
      OthersUntouched(s, ev, id);
    } else {
      match ev
      case Begin(_, env, cfg') => BeginMoves(s, id, cfg', PrepareWith(env, cfg', s.cache));
      case PlanAt(_, now) => PlanMoves(s, id, now);
      case _ => OwnStepStaysOnCourse(s, ev, key, cfg, f, waits);
    }
  }

  lemma OwnStepStaysOnCourse(s: State, ev: Event, key: string, cfg: Config, f: nat, waits: bool)
    requires Inv(s) && !ev.Begin? && !ev.PlanAt? && !ev.RestoreAllOf? && TiedTo(s, ev.id, key, cfg, f, waits)
    ensures OnCourse(Step(s, ev), ev.id, key, cfg, f, waits)
  {
    hide Config.SameSeed, Finish, Extracted, Holds, BeginStep, PlanStep, RestoreAll;
    assert PhaseOk(s, ev.id, s.callers[ev.id]);
  }

  /** However the schedule goes on, a caller that joined or started a flight ends with what that
      flight published, rendered for its own configuration; only a waiter can give up instead. */
  lemma {:induction false} CallersGetTheirFlight(s: State, evs: seq<Event>, id: nat, key: string, cfg: Config, f: nat, waits: bool)
    requires Inv(s) && OnCourse(s, id, key, cfg, f, waits)
    ensures OnCourse(Run(s, evs), id, key, cfg, f, waits)
    decreases |evs|
  {
    if evs != [] {
      StepStaysOnCourse(s, evs[0], id, key, cfg, f, waits);
      StepKeepsInv(s, evs[0]);
      CallersGetTheirFlight(Step(s, evs[0]), evs[1..], id, key, cfg, f, waits);
    }
  }

  /** The next thing that has to happen for flight f to be published and waiter w to return. */
  ghost function NextFor(s: State, w: nat, f: nat): Event
    requires f < |s.flights|
  {
    var o := s.flights[f].owner;
    if s.flights[f].outcome.Some? || o !in s.callers then Wake(w)
    else match s.callers[o]
      case Fetching(_, _, _, _) => Return(o, Err(Failed(0)))
      case Storing(_, _, _, _, _) => Store(o)
      case _ => Publish(o)
  }

  ghost function StepsLeft(s: State, f: nat): nat
    requires f < |s.flights|
  {
    var o := s.flights[f].owner;
    if s.flights[f].outcome.Some? || o !in s.callers then 1
    else if s.callers[o].Publishing? then 2 else 3
  }

  lemma NextGetsCloser(s: State, w: nat, key: string, cfg: Config, f: nat)
    requires Inv(s) && TiedTo(s, w, key, cfg, f, true) && f < |s.flights|
    ensures var s' := Step(s, NextFor(s, w, f));
            Delivered(s', w, key, cfg, f)
            || (TiedTo(s', w, key, cfg, f, true) && f < |s'.flights| && StepsLeft(s', f) < StepsLeft(s, f))
  {
    if s.flights[f].outcome == None {
      OwnerGetsCloser(s, s.flights[f].owner, f);
      assert s.flights[f].owner != w;
    }
  }

  /** What NextFor makes the owner do moves only the owner, and moves it towards publication. */
  lemma OwnerGetsCloser(s: State, o: nat, f: nat)
    requires Inv(s) && f < |s.flights| && s.flights[f].outcome == None && s.flights[f].owner == o
    ensures Holds(s.callers, o, f)
    ensures forall w: nat | w != o ::
              var s' := Step(s, NextFor(s, w, f));
              && (w in s.callers ==> w in s'.callers && s'.callers[w] == s.callers[w])
              && f < |s'.flights| && StepsLeft(s', f) < StepsLeft(s, f)
  {
    hide PhaseOk, Step, StepsLeft, NextFor;
    assert Holds(s.callers, o, f);
    assert PhaseOk(s, o, s.callers[o]);
    forall w: nat | w != o
      ensures var s' := Step(s, NextFor(s, w, f));
              && (w in s.callers ==> w in s'.callers && s'.callers[w] == s.callers[w])
              && f < |s'.flights| && StepsLeft(s', f) < StepsLeft(s, f)
    {
      OwnerStep(s, o, f, w);
    }
  }

  lemma OwnerStep(s: State, o: nat, f: nat, w: nat)
    requires f < |s.flights| && s.flights[f].outcome == None && s.flights[f].owner == o && w != o
    requires Holds(s.callers, o, f) && PhaseOk(s, o, s.callers[o])
    ensures var s' := Step(s, NextFor(s, w, f));
            && (w in s.callers ==> w in s'.callers && s'.callers[w] == s.callers[w])
            && f < |s'.flights| && StepsLeft(s', f) < StepsLeft(s, f)
  {
    hide Config.SameSeed, PrepareWith, BeginStep, PlanStep, RestoreAll, RestoredSources, Finish;
    match s.callers[o]
    case Fetching(key, cfg, _, _) =>
      assert Step(s, NextFor(s, w, f)) == s.(callers := s.callers[o := Publishing(key, cfg, f, Err(Failed(0)))]);
    case Storing(key, cfg, _, _, cred) =>
      assert Step(s, NextFor(s, w, f)).callers == s.callers[o := Publishing(key, cfg, f, Ok(cred))];
    case _ =>
  }

  lemma {:induction false} CanFinish(s: State, w: nat, key: string, cfg: Config, f: nat) returns (more: seq<Event>)
    requires Inv(s) && TiedTo(s, w, key, cfg, f, true) && f < |s.flights|
    ensures |more| <= StepsLeft(s, f) && Delivered(Run(s, more), w, key, cfg, f)
    decreases StepsLeft(s, f)
  {
    var e := NextFor(s, w, f);
    var s' := After(s, w, key, cfg, f, e);
    if Delivered(s', w, key, cfg, f) {
      more := [];
    } else {
      more := CanFinish(s', w, key, cfg, f);
    }
    RunCons(s, e, more);
    more := [e] + more;
  }

  lemma After(s: State, w: nat, key: string, cfg: Config, f: nat, e: Event) returns (s': State)
    requires Inv(s) && TiedTo(s, w, key, cfg, f, true) && f < |s.flights| && e == NextFor(s, w, f)
    ensures s' == Step(s, e) && Inv(s') && StepsLeft(s, f) >= 1
    ensures Delivered(s', w, key, cfg, f)
            || (TiedTo(s', w, key, cfg, f, true) && f < |s'.flights| && StepsLeft(s', f) < StepsLeft(s, f))
  {
    s' := Step(s, e);
    NextGetsCloser(s, w, key, cfg, f);
    StepKeepsInv(s, e);
  }

  lemma RunCons(s: State, e: Event, more: seq<Event>)
    ensures Run(s, [e] + more) == Run(Step(s, e), more)
  {
    assert ([e] + more)[1..] == more;
  }

  /** From every reachable state a waiter can still be served: the owner of its flight needs no
      one else to publish it. */
  lemma WaiterCanFinish(evs: seq<Event>, w: nat)
    requires var s := Run(INIT, evs); w in s.callers && s.callers[w].Waiting?
    ensures var s := Run(INIT, evs);
            exists more :: |more| <= 3 && Delivered(Run(s, more), w, s.callers[w].key, s.callers[w].cfg, s.callers[w].flight)
  {
    RunKeepsInv(INIT, evs);
    var s := Run(INIT, evs);
    var Waiting(key, cfg, f) := s.callers[w];
    assert PhaseOk(s, w, s.callers[w]);
    var more := CanFinish(s, w, key, cfg, f);
    assert |more| <= 3 && Delivered(Run(s, more), w, key, cfg, f);
  }

  // ---------------------------------------------------------------- seeds

  /** A flight for a cached key carries the cached seed until its credential is stored. */
  ghost predicate SeedInv(s: State) {
    forall id | id in s.callers && (s.callers[id].Fetching? || s.callers[id].Storing?) && s.callers[id].key in s.cache ::
      s.cache[s.callers[id].key].cfg == s.callers[id].seed
  }

  ghost predicate SeedsKept(s: State, s': State) {
    forall k | k in s.cache :: k in s'.cache && s'.cache[k].cfg == s.cache[k].cfg
  }

  predicate NoRestore(evs: seq<Event>) {
    forall i | 0 <= i < |evs| :: !evs[i].RestoreAllOf?
  }

  lemma StepKeepsSeeds(s: State, ev: Event)
    requires Inv(s) && SeedInv(s) && !ev.RestoreAllOf?
    ensures SeedInv(Step(s, ev)) && SeedsKept(s, Step(s, ev))
  {
    if ev.Begin? {
      BeginKeepsSeeds(s, ev.id, ev.cfg, PrepareWith(ev.env, ev.cfg, s.cache));
    } else if ev.PlanAt? {
      if ev.id in s.callers && s.callers[ev.id].Ready? {
        PlanKeepsSeeds(s, ev.id, ev.now);
      }
    } else if ev.Store? {
      if ev.id in s.callers && s.callers[ev.id].Storing? {
        StoreKeepsSeeds(s, ev.id);
      }
    } else {
      QuietStepKeepsSeeds(s, ev);
    }
  }

  lemma BeginKeepsSeeds(s: State, id: nat, cfg: Config, prep: Result<Prepared, AuthError>)
    requires SeedInv(s)
    ensures SeedInv(BeginWith(s, id, cfg, prep)) && BeginWith(s, id, cfg, prep).cache == s.cache
  {
  }

  lemma QuietStepKeepsSeeds(s: State, ev: Event)
    requires SeedInv(s) && (ev.Return? || ev.Publish? || ev.Remove? || ev.Wake? || ev.Cancel?)
    ensures SeedInv(Step(s, ev)) && Step(s, ev).cache == s.cache
  {
  }

  lemma PlanKeepsSeeds(s: State, id: nat, now: Time)
    requires SeedInv(s) && id in s.callers && s.callers[id].Ready?
    ensures SeedInv(PlanStep(s, id, now)) && PlanStep(s, id, now).cache == s.cache
  {
    var Ready(key, cfg) := s.callers[id];
    StartsWithKeptSeed(Get(s.cache, key), FlightConfig(s, key), cfg, now);
    hide Decide;
  }

  lemma StoreKeepsSeeds(s: State, id: nat)
    requires Inv(s) && SeedInv(s) && id in s.callers && s.callers[id].Storing?
    ensures SeedInv(StoreStep(s, id)) && SeedsKept(s, StoreStep(s, id))
  {
    var s' := StoreStep(s, id);
    forall j | j in s'.callers && (s'.callers[j].Fetching? || s'.callers[j].Storing?) && s'.callers[j].key in s'.cache
      ensures s'.cache[s'.callers[j].key].cfg == s'.callers[j].seed
    {
      assert PhaseOk(s, j, s.callers[j]) && PhaseOk(s, id, s.callers[id]);
    }
  }

  lemma {:induction false} SeedsNeverChangeFrom(s: State, evs: seq<Event>)
    requires Inv(s) && SeedInv(s) && NoRestore(evs)
    ensures SeedInv(Run(s, evs)) && SeedsKept(s, Run(s, evs))
    decreases |evs|
  {
    if evs != [] {
      StepKeepsSeeds(s, evs[0]);
      StepKeepsInv(s, evs[0]);
      SeedsNeverChangeFrom(Step(s, evs[0]), evs[1..]);
    }
  }

  lemma {:induction false} RunSplits(s: State, evs: seq<Event>, more: seq<Event>)
    ensures Run(s, evs + more) == Run(Run(s, evs), more)
    decreases |evs|
  {
    if evs == [] {
      assert evs + more == more;
    } else {
      assert (evs + more)[1..] == evs[1..] + more;
      RunSplits(Step(s, evs[0]), evs[1..], more);
    }
  }

  /** Without Restore, a key that is cached keeps its configuration for the rest of the run. */
  lemma SeedsNeverChange(evs: seq<Event>, more: seq<Event>)
    requires NoRestore(evs + more)
    ensures SeedsKept(Run(INIT, evs), Run(INIT, evs + more))
  {
    RunKeepsInv(INIT, evs);
    assert forall i | 0 <= i < |evs| :: evs[i] == (evs + more)[i];
    assert forall i | 0 <= i < |more| :: more[i] == (evs + more)[|evs| + i];
    SeedsNeverChangeFrom(INIT, evs);
    SeedsNeverChangeFrom(Run(INIT, evs), more);
    RunSplits(INIT, evs, more);
  }

  /** A fetch in the air with a seed of its own, once it comes back, puts that seed over the cached one. */
  lemma OwnSeedIsStored(s: State, id: nat) returns (more: seq<Event>)
    requires id in s.callers && (s.callers[id].Fetching? || s.callers[id].Storing?) && s.callers[id].key in s.cache
    requires s.cache[s.callers[id].key].cfg != s.callers[id].seed
    ensures NoRestore(more) && !SeedsKept(s, Run(s, more))
  {
    hide SeedsKept;
    if s.callers[id].Storing? {
      more := [Store(id)];
      RunOne(s, more[0]);
      StoreReplaces(s, id);
    } else {
      var cred := NO_CREDENTIAL.(token := "t");
      more := [Return(id, Ok(cred)), Store(id)];
      var t := Step(s, more[0]);
      assert t.callers[id].Storing? && t.cache == s.cache;
      RunCons(s, more[0], [more[1]]);
      RunOne(t, more[1]);
      StoreReplaces(t, id);
      SameCacheSameSeeds(s, t, Step(t, more[1]));
      assert [more[0]] + [more[1]] == more;
    }
  }

  lemma RunOne(s: State, ev: Event)
    ensures Run(s, [ev]) == Step(s, ev)
  {
    hide Step;
    assert [ev][1..] == [];
  }

  lemma SameCacheSameSeeds(s: State, t: State, u: State)
    requires s.cache == t.cache
    ensures SeedsKept(s, u) <==> SeedsKept(t, u)
  {
  }

  lemma StoreReplaces(s: State, id: nat)
    requires id in s.callers && s.callers[id].Storing? && s.callers[id].key in s.cache
    requires s.cache[s.callers[id].key].cfg != s.callers[id].seed
    ensures !SeedsKept(s, Step(s, Store(id)))
  {
    var key := s.callers[id].key;
    assert StoreStep(s, id).cache[key].cfg == s.callers[id].seed;
  }

  /** What is cached keeps its configuration whatever follows, short of another Restore, exactly when no
      fetch in the air carries a seed other than the one cached under its key. */
  lemma SeedsStayExactly(s: State)
    requires Inv(s)
    ensures (forall more: seq<Event> | NoRestore(more) :: SeedsKept(s, Run(s, more))) <==> SeedInv(s)
  {
    hide Inv, SeedsKept;
    if SeedInv(s) {
      forall more: seq<Event> | NoRestore(more) ensures SeedsKept(s, Run(s, more)) {
        SeedsNeverChangeFrom(s, more);
      }
    } else {
      var id :| id in s.callers && (s.callers[id].Fetching? || s.callers[id].Storing?) && s.callers[id].key in s.cache
                && s.cache[s.callers[id].key].cfg != s.callers[id].seed;
      var more := OwnSeedIsStored(s, id);
    }
  }

  /** At any moment of any schedule: what is restored then keeps its configuration, whatever follows,
      exactly when every fetch in the air for a restored key carries the restored seed. */
  lemma RestoredSeedsStay(evs: seq<Event>, entries: seq<SnapshotEntry>)
    ensures var s := Run(INIT, evs);
            var restored := Step(s, RestoreAllOf(entries));
            (forall more: seq<Event> | NoRestore(more) :: SeedsKept(restored, Run(restored, more)))
            <==> forall id | id in s.callers && (s.callers[id].Fetching? || s.callers[id].Storing?) && s.callers[id].key in RestoreAll(entries) ::
                   RestoreAll(entries)[s.callers[id].key].cfg == s.callers[id].seed
  {
    hide Inv, SeedsKept, Run, RestoreAll, RestoredSources;
    var s := Run(INIT, evs);
    RunKeepsInv(INIT, evs);
    StepKeepsInv(s, RestoreAllOf(entries));
    SeedsStayExactly(Step(s, RestoreAllOf(entries)));
  }

  /** The command t under the cache key k. */
  function Plain(t: string): Config {
    Config([t], "", "", "", "", "", "", "", "", "k", 0, 0)
  }

  lemma PlainPrepares(t: string)
    requires |t| == 1 && !IsSpace(t[0]) && t[0] != '/'
    ensures Plain(t).Normalize() == Plain(t) && Valid(Plain(t))
    ensures PrepareWith("", Plain(t), map[]) == Ok(Prepared(CacheEntryKey("", Plain(t)), Plain(t)))
  {
    hide CacheEntryKey;
    TrimFixed(t);
    TrimFixed("");
    TrimFixed("k");
    assert ToLower("") == "";
    OneLetterIsNoShell(t);
    CacheEntryKeyInjective("", Plain(t), "", Plain(t));
  }

  lemma OneLetterIsNoShell(t: string)
    requires |t| == 1 && t[0] != '/'
    ensures !IsShell(t)
  {
    assert BaseName(t) == t;
    forall shell | shell in SHELLS ensures |shell| > 1 {
    }
  }

  /** A schedule on which that fails: a command starts, a snapshot with another command under its key is
      restored, and the command's credential comes back over it. */
  lemma RestoredSeedIsLost() returns (evs: seq<Event>, entries: seq<SnapshotEntry>, more: seq<Event>)
    ensures NoRestore(evs) && NoRestore(more)
    ensures var restored := Step(Run(INIT, evs), RestoreAllOf(entries)); !SeedsKept(restored, Run(restored, more))
  {
    hide PrepareWith, Decide, SeedsKept, CacheEntryKey, Valid, Config.Normalize;
    var mine, other := Plain("t"), Plain("u");
    PlainPrepares("t");
    PlainPrepares("u");
    var key := CacheEntryKey("", mine);
    evs := [Begin(0, "", mine), PlanAt(0, 0)];
    RunCons(INIT, evs[0], [evs[1]]);
    RunOne(Step(INIT, evs[0]), evs[1]);
    assert [evs[0]] + [evs[1]] == evs;
    CacheEntryKeyInjective("", mine, "", mine);
    var s := Run(INIT, evs);
    assert Step(INIT, evs[0]).callers == map[0 := Ready(key, mine)];
    NothingCachedStarts(mine, 0);
    assert s.callers == map[0 := Fetching(key, mine, mine, 0)];
    var cred := NO_CREDENTIAL.(token := "old");
    entries := [SnapshotEntry(key, other, cred)];
    CacheEntryKeyTrimmed("", mine);
    TrimFixed(key);
    OneRestored(entries[0]);
    var restored := Step(s, RestoreAllOf(entries));
    assert restored.cache[key].cfg == other != mine;
    more := OwnSeedIsStored(restored, 0);
  }

  lemma NothingCachedStarts(cfg: Config, now: Time)
    ensures Decide(None, None, cfg, now) == Start(cfg)
  {
  }

  lemma OneRestored(e: SnapshotEntry)
    requires Restorable(e).Some?
    ensures RestoreAll([e]) == map[Restorable(e).value.key := Record(Restorable(e).value.cred, Restorable(e).value.cfg)]
  {
    hide Restorable;
    assert [e][..0] == [];
  }

  /** Everybody tied to one flight has the same seed, whatever was restored meanwhile. */
  lemma FlightMatesShareSeed(evs: seq<Event>, i: nat, j: nat, f: nat)
    requires var s := Run(INIT, evs);
             && i in s.callers && j in s.callers
             && (s.callers[i].Waiting? || s.callers[i].Owns()) && (s.callers[j].Waiting? || s.callers[j].Owns())
             && s.callers[i].flight == f && s.callers[j].flight == f
    ensures var s := Run(INIT, evs);
            s.callers[i].key == s.callers[j].key && s.callers[i].cfg.SameSeed(s.callers[j].cfg)
  {
    RunKeepsInv(INIT, evs);
    var s := Run(INIT, evs);
    assert PhaseOk(s, i, s.callers[i]) && PhaseOk(s, j, s.callers[j]);
    SeedThrough(s.callers[i].cfg, s.flights[f].cfg, s.callers[j].cfg);
  }

  lemma SeedThrough(a: Config, mid: Config, b: Config)
    requires mid.SameSeed(a) && mid.SameSeed(b)
    ensures a.SameSeed(b)
  {
    SameSeedIsEquivalence(mid, a, b);
    SameSeedIsEquivalence(a, mid, b);
  }

  // ---------------------------------------------------------------- where credentials come from

  /** Entry i of the log delivered cred for this key to a command with this seed. */
  ghost predicate From(log: seq<Source>, i: nat, key: string, cfg: Config, cred: Credential) {
    i < |log| && log[i].key == key && log[i].cred == cred && log[i].cfg.SameSeed(cfg)
  }

  ghost predicate Sourced(log: seq<Source>, key: string, cfg: Config, cred: Credential) {
    exists i: nat :: From(log, i, key, cfg, cred)
  }

  ghost predicate GotSourced(log: seq<Source>, key: string, cfg: Config, got: Got) {
    got.Ok? ==> Sourced(log, key, cfg, got.value)
  }

  /** The result a caller was given renders a credential that was obtained for its key and seed. */
  ghost predicate ResultSourced(log: seq<Source>, key: string, cfg: Config, r: Rendered) {
    exists cred :: Sourced(log, key, cfg, cred) && r == Render(cfg, cred)
  }

  ghost predicate PhaseSourced(log: seq<Source>, p: Phase) {
    match p
    case Storing(key, cfg, seed, _, cred) => Sourced(log, key, cfg, cred)
    case Publishing(key, cfg, _, got) => GotSourced(log, key, cfg, got)
    case Removing(key, cfg, _, got) => GotSourced(log, key, cfg, got)
    case Done(key, cfg, Served(r)) => key != "" ==> ResultSourced(log, key, cfg, r)
    case _ => true
  }

  ghost predicate CacheSourced(log: seq<Source>, cache: map<string, Record>) {
    forall k | k in cache :: Sourced(log, k, cache[k].cfg, cache[k].cred)
  }

  ghost predicate FlightsSourced(log: seq<Source>, flights: seq<Flight>) {
    forall f | 0 <= f < |flights| && flights[f].outcome.Some? ::
      GotSourced(log, flights[f].key, flights[f].cfg, flights[f].outcome.value)
  }

  ghost predicate AllSourced(s: State) {
    && CacheSourced(s.log, s.cache) && FlightsSourced(s.log, s.flights)
    && forall id | id in s.callers :: PhaseSourced(s.log, s.callers[id])
  }

  lemma SourcedKeeps(log: seq<Source>, more: seq<Source>, key: string, cfg: Config, cred: Credential)
    requires Sourced(log, key, cfg, cred)
    ensures Sourced(log + more, key, cfg, cred)
  {
    var i: nat :| From(log, i, key, cfg, cred);
    assert From(log + more, i, key, cfg, cred);
  }

  lemma SourcedForSeed(log: seq<Source>, key: string, cfg: Config, cfg': Config, cred: Credential)
    requires Sourced(log, key, cfg, cred) && cfg.SameSeed(cfg')
    ensures Sourced(log, key, cfg', cred)
  {
    var i: nat :| From(log, i, key, cfg, cred);
    SameSeedIsEquivalence(log[i].cfg, cfg, cfg');
    assert From(log, i, key, cfg', cred);
  }

  lemma PhaseSourcedKeeps(log: seq<Source>, more: seq<Source>, p: Phase)
    requires PhaseSourced(log, p)
    ensures PhaseSourced(log + more, p)
  {
    match p
    case Storing(key, cfg, _, _, cred) => SourcedKeeps(log, more, key, cfg, cred);
    case Publishing(key, cfg, _, got) => if got.Ok? { SourcedKeeps(log, more, key, cfg, got.value); }
    case Removing(key, cfg, _, got) => if got.Ok? { SourcedKeeps(log, more, key, cfg, got.value); }
    case Done(key, cfg, Served(r)) =>
      if key != "" {
        var cred :| Sourced(log, key, cfg, cred) && r == Render(cfg, cred);
        SourcedKeeps(log, more, key, cfg, cred);
      }
    case _ =>
  }

  /** A longer log still accounts for everything it accounted for. */
  lemma LongerLog(s: State, more: seq<Source>)
    requires AllSourced(s)
    ensures AllSourced(s.(log := s.log + more))
  {
    forall k | k in s.cache ensures Sourced(s.log + more, k, s.cache[k].cfg, s.cache[k].cred) {
      SourcedKeeps(s.log, more, k, s.cache[k].cfg, s.cache[k].cred);
    }
    forall f | 0 <= f < |s.flights| && s.flights[f].outcome.Some?
      ensures GotSourced(s.log + more, s.flights[f].key, s.flights[f].cfg, s.flights[f].outcome.value)
    {
      if s.flights[f].outcome.value.Ok? {
        SourcedKeeps(s.log, more, s.flights[f].key, s.flights[f].cfg, s.flights[f].outcome.value.value);
      }
    }
    forall id | id in s.callers ensures PhaseSourced(s.log + more, s.callers[id]) {
      PhaseSourcedKeeps(s.log, more, s.callers[id]);
    }
  }

  lemma PlanKeepsSourced(s: State, id: nat, now: Time)
    requires AllSourced(s)
    ensures AllSourced(PlanStep(s, id, now))
  {
    hide Decide, Config.SameSeed, Sourced, ValidAt, Unusable;
    if id in s.callers && s.callers[id].Ready? {
      var Ready(key, cfg) := s.callers[id];
      var plan := Decide(Get(s.cache, key), FlightConfig(s, key), cfg, now);
      DecideStartsOnlyWhenNeeded(Get(s.cache, key), FlightConfig(s, key), cfg, now);
      if plan.Hit? {
        SourcedForSeed(s.log, key, s.cache[key].cfg, cfg, s.cache[key].cred);
        assert ResultSourced(s.log, key, cfg, plan.result);
      }
    }
  }

  lemma ReturnKeepsSourced(s: State, id: nat, got: Got)
    requires AllSourced(s)
    ensures AllSourced(ReturnStep(s, id, got))
  {
    hide Config.SameSeed, Render, FlightsSourced, CacheSourced;
    if id in s.callers && s.callers[id].Fetching? && got.Ok? && Extracted(got) {
      var p := s.callers[id];
      var more := [Source(p.key, p.cfg, got.value)];
      LongerLog(s, more);
      SameSeedIsEquivalence(p.cfg, p.cfg, p.cfg);
      assert From(s.log + more, |s.log|, p.key, p.cfg, got.value);
    }
  }

  lemma StoreKeepsSourced(s: State, id: nat)
    requires Inv(s) && AllSourced(s)
    ensures AllSourced(StoreStep(s, id))
  {
    hide Config.SameSeed, Render, FlightsSourced, Sourced;
    if id in s.callers && s.callers[id].Storing? {
      var p := s.callers[id];
      assert PhaseOk(s, id, p) && PhaseSourced(s.log, p);
      SameSeedIsEquivalence(p.seed, p.cfg, p.seed);
      SourcedForSeed(s.log, p.key, p.cfg, p.seed, p.cred);
    }
  }

  lemma PublishKeepsSourced(s: State, id: nat)
    requires Inv(s) && AllSourced(s)
    ensures AllSourced(PublishStep(s, id))
  {
    hide Config.SameSeed, Render, CacheSourced, Sourced;
    if id in s.callers && s.callers[id].Publishing? {
      var p := s.callers[id];
      assert PhaseOk(s, id, p) && PhaseSourced(s.log, p);
      if p.got.Ok? {
        SameSeedIsEquivalence(s.flights[p.flight].cfg, p.cfg, p.cfg);
        SourcedForSeed(s.log, p.key, p.cfg, s.flights[p.flight].cfg, p.got.value);
      }
    }
  }

  lemma FinishSourced(log: seq<Source>, key: string, cfg: Config, got: Got)
    requires GotSourced(log, key, cfg, got)
    ensures PhaseSourced(log, Done(key, cfg, Finish(cfg, got)))
  {
    if got.Ok? {
      assert Sourced(log, key, cfg, got.value) && Render(cfg, got.value) == Finish(cfg, got).result;
    }
  }

  lemma EndKeepsSourced(s: State, ev: Event)
    requires Inv(s) && AllSourced(s) && (ev.Remove? || ev.Wake? || ev.Cancel?)
    ensures AllSourced(Step(s, ev))
  {
    hide PrepareWith, Config.SameSeed, Render, CacheSourced, Sourced;
    if ev.id in s.callers {
      var p := s.callers[ev.id];
      assert PhaseOk(s, ev.id, p) && PhaseSourced(s.log, p);
      if ev.Remove? && p.Removing? {
        FinishSourced(s.log, p.key, p.cfg, p.got);
      } else if ev.Wake? && p.Waiting? && s.flights[p.flight].outcome.Some? {
        var f := s.flights[p.flight];
        if f.outcome.value.Ok? {
          SourcedForSeed(s.log, p.key, f.cfg, p.cfg, f.outcome.value.value);
        }
        FinishSourced(s.log, p.key, p.cfg, f.outcome.value);
      }
    }
  }

  lemma {:induction false} RestoredSourcesCover(entries: seq<SnapshotEntry>, i: nat)
    requires i < |entries| && Restorable(entries[i]).Some?
    ensures var e := Restorable(entries[i]).value; Source(e.key, e.cfg, e.cred) in RestoredSources(entries)
  {
    if i < |entries| - 1 {
      RestoredSourcesCover(entries[..|entries| - 1], i);
    }
  }

  lemma RestoredCacheSourced(log: seq<Source>, entries: seq<SnapshotEntry>)
    ensures CacheSourced(log + RestoredSources(entries), RestoreAll(entries))
  {
    var more, cache := RestoredSources(entries), RestoreAll(entries);
    RestoreTakesEntries(entries);
    forall k | k in cache ensures Sourced(log + more, k, cache[k].cfg, cache[k].cred) {
      var i :| SavedAs(entries, i, k, cache[k]);
      RestoredSourcesCover(entries, i);
      var j :| 0 <= j < |more| && more[j] == Source(k, cache[k].cfg, cache[k].cred);
      SameSeedIsEquivalence(cache[k].cfg, cache[k].cfg, cache[k].cfg);
      assert From(log + more, |log| + j, k, cache[k].cfg, cache[k].cred);
    }
  }

  lemma RestoreKeepsSourced(s: State, entries: seq<SnapshotEntry>)
    requires AllSourced(s)
    ensures AllSourced(Step(s, RestoreAllOf(entries)))
  {
    LongerLog(s, RestoredSources(entries));
    RestoredCacheSourced(s.log, entries);
  }

  lemma StepKeepsSourced(s: State, ev: Event)
    requires Inv(s) && AllSourced(s)
    ensures AllSourced(Step(s, ev))
  {
    match ev
    case Begin(id, env, cfg) => BeginKeepsSourced(s, id, cfg, PrepareWith(env, cfg, s.cache));
    case PlanAt(id, now) => PlanKeepsSourced(s, id, now);
    case Return(id, got) => ReturnKeepsSourced(s, id, got);
    case Store(id) => StoreKeepsSourced(s, id);
    case Publish(id) => PublishKeepsSourced(s, id);
    case RestoreAllOf(entries) => RestoreKeepsSourced(s, entries);
    case _ => EndKeepsSourced(s, ev);
  }

  lemma BeginKeepsSourced(s: State, id: nat, cfg: Config, prep: Result<Prepared, AuthError>)
    requires AllSourced(s)
    ensures AllSourced(BeginWith(s, id, cfg, prep))
  {
  }

  lemma {:induction false} RunKeepsSourced(s: State, evs: seq<Event>)
    requires Inv(s) && AllSourced(s)
    ensures AllSourced(Run(s, evs))
    decreases |evs|
  {
    if evs != [] {
      StepKeepsSourced(s, evs[0]);
      StepKeepsInv(s, evs[0]);
      RunKeepsSourced(Step(s, evs[0]), evs[1..]);
    }
  }

  /** In every schedule, Restore included, whatever a caller with a cache key is served was
      obtained under that key by a command with the caller's own seed, or restored as such. */
  lemma ServedCredentialsFit(evs: seq<Event>, id: nat)
    requires var s := Run(INIT, evs);
             id in s.callers && s.callers[id].Done? && s.callers[id].key != "" && s.callers[id].outcome.Served?
    ensures var s := Run(INIT, evs);
            exists i: nat, cred :: From(s.log, i, s.callers[id].key, s.callers[id].cfg, cred)
                              && s.callers[id].outcome.result == Render(s.callers[id].cfg, cred)
  {
    RunKeepsSourced(INIT, evs);
    var s := Run(INIT, evs);
    var p := s.callers[id];
    assert PhaseSourced(s.log, p);
    var cred :| Sourced(s.log, p.key, p.cfg, cred) && p.outcome.result == Render(p.cfg, cred);
    var i: nat :| From(s.log, i, p.key, p.cfg, cred);
  }

  // ---------------------------------------------------------------- snapshots of a running manager

  ghost predicate KeptWell(key: string, cfg: Config) {
    key != "" && Trimmed(key) && cfg.Normalize() == cfg
  }

  /** Only trimmed keys, normalised configurations and real credentials get near the cache. */
  ghost predicate Tidy(s: State) {
    && (forall k | k in s.cache :: KeptWell(k, s.cache[k].cfg) && s.cache[k].cred != NO_CREDENTIAL)
    && (forall id | id in s.callers :: TidyPhase(s.callers[id]))
  }

  ghost predicate TidyPhase(p: Phase) {
    match p
    case Ready(key, cfg) => KeptWell(key, cfg)
    case Fetching(key, _, seed, _) => KeptWell(key, seed)
    case Storing(key, _, seed, _, cred) => KeptWell(key, seed) && cred != NO_CREDENTIAL
    case _ => true
  }

  lemma StepKeepsTidy(s: State, ev: Event)
    requires Tidy(s)
    ensures Tidy(Step(s, ev))
  {
    match ev
    case Begin(id, env, cfg) =>
      PrepareIsNormal(env, cfg, s.cache);
      BeginKeepsTidy(s, id, cfg, PrepareWith(env, cfg, s.cache));
    case PlanAt(id, now) => PlanKeepsTidy(s, id, now);
    case Store(id) => StoreKeepsTidy(s, id);
    case RestoreAllOf(entries) => RestoreTakesEntries(entries);
    case _ => QuietStepKeepsTidy(s, ev);
  }

  lemma BeginKeepsTidy(s: State, id: nat, cfg: Config, prep: Result<Prepared, AuthError>)
    requires Tidy(s) && (prep.Ok? ==> Trimmed(prep.value.key) && prep.value.cfg.Normalize() == prep.value.cfg)
    ensures Tidy(BeginWith(s, id, cfg, prep))
  {
  }

  lemma PlanKeepsTidy(s: State, id: nat, now: Time)
    requires Tidy(s)
    ensures Tidy(PlanStep(s, id, now))
  {
    if id in s.callers && s.callers[id].Ready? {
      var Ready(key, cfg) := s.callers[id];
      assert TidyPhase(s.callers[id]);
      StartsWithKeptSeed(Get(s.cache, key), FlightConfig(s, key), cfg, now);
      PlanWithKeepsTidy(s, id, key, cfg, Decide(Get(s.cache, key), FlightConfig(s, key), cfg, now));
    }
  }

  lemma StartsWithKeptSeed(rec: Option<Record>, flight: Option<Config>, cfg: Config, now: Time)
    ensures var plan := Decide(rec, flight, cfg, now);
            plan.Start? ==> plan.seed == if rec.Some? then rec.value.cfg else cfg
  {
  }

  lemma PlanWithKeepsTidy(s: State, id: nat, key: string, cfg: Config, plan: Plan)
    requires Tidy(s) && (plan.Start? ==> KeptWell(key, plan.seed))
    ensures Tidy(PlanWith(s, id, key, cfg, plan))
  {
  }

  lemma StoreKeepsTidy(s: State, id: nat)
    requires Tidy(s)
    ensures Tidy(StoreStep(s, id))
  {
    if id in s.callers {
      assert TidyPhase(s.callers[id]);
    }
  }

  lemma QuietStepKeepsTidy(s: State, ev: Event)
    requires Tidy(s) && (ev.Return? || ev.Publish? || ev.Remove? || ev.Wake? || ev.Cancel?)
    ensures Tidy(Step(s, ev))
  {
    if ev.id in s.callers {
      if ev.Return? {
        ReturnKeepsTidy(s, ev.id, ev.got);
      } else {
        var p := EndsSomewhere(s, ev);
        MoveKeepsTidy(s, ev.id, p, Step(s, ev));
      }
    }
  }

  lemma EndsSomewhere(s: State, ev: Event) returns (p: Phase)
    requires Tidy(s) && (ev.Publish? || ev.Remove? || ev.Wake? || ev.Cancel?) && ev.id in s.callers
    ensures TidyPhase(p) && Step(s, ev).cache == s.cache && Step(s, ev).callers == s.callers[ev.id := p]
  {
    hide KeptWell;
    p := Step(s, ev).callers[ev.id];
  }

  lemma MoveKeepsTidy(s: State, id: nat, p: Phase, s': State)
    requires Tidy(s) && TidyPhase(p) && s'.cache == s.cache && s'.callers == s.callers[id := p]
    ensures Tidy(s')
  {
  }

  lemma TidyCaller(s: State, id: nat)
    requires Tidy(s) && id in s.callers
    ensures TidyPhase(s.callers[id])
  {
    hide KeptWell;
  }

  lemma ReturnKeepsTidy(s: State, id: nat, got: Got)
    requires Tidy(s) && id in s.callers
    ensures Tidy(ReturnStep(s, id, got))
  {
    hide KeptWell, Finish, Tidy;
    assert TidyPhase(s.callers[id]) by { TidyCaller(s, id); }
    var s' := ReturnStep(s, id, got);
    var p := s.callers[id];
    if Extracted(got) && p.Fetching? {
      var q := if got.Ok? then Storing(p.key, p.cfg, p.seed, p.flight, got.value)
               else Publishing(p.key, p.cfg, p.flight, got);
      assert s'.callers == s.callers[id := q];
      MoveKeepsTidy(s, id, q, s');
    } else if Extracted(got) && p.Alone? {
      MoveKeepsTidy(s, id, Done("", p.cfg, Finish(p.cfg, got)), s');
    }
  }

  lemma {:induction false} RunKeepsTidy(s: State, evs: seq<Event>)
    requires Tidy(s)
    ensures Tidy(Run(s, evs))
    decreases |evs|
  {
    if evs != [] {
      StepKeepsTidy(s, evs[0]);
      RunKeepsTidy(Step(s, evs[0]), evs[1..]);
    }
  }

  /** At any moment of any schedule, restoring a snapshot just taken leaves the cache as it was. */
  lemma SnapshotRoundTrip(evs: seq<Event>)
    ensures RestoreAll(SnapshotOf(Run(INIT, evs).cache)) == Run(INIT, evs).cache
  {
    RunKeepsTidy(INIT, evs);
    var cache := Run(INIT, evs).cache;
    SnapshotRestores(cache);
    assert SnapshotKeys(cache) == cache.Keys;
  }
}
