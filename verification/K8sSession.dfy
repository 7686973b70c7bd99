/** internal/k8s/session.go: a port-forward session that ends while its diagnostic collector is being
    attached. Locked sections are steps of a thread, and threads interleave; closing a collector takes
    two of them under its once. */
module K8sSession {
  import opened Wrappers
  import opened K8sRing

  // ---------------------------------------------------------------- threads and steps

  /** Taking a collector out of the registry and marking it closed, by one thread only. */
  datatype Once = Open | Busy(thread: nat) | Closed(closer: nat)

  datatype Handle = Handle(key: PortKey, once: Once)

  datatype Kind = Finish | Set(c: nat)

  /** Where a thread is: about to take the session's lock, about to signal that the session is done, about
      to close a collector, in the middle of that, or through, with the collector it had to close. */
  datatype Phase =
    | Ready
    | Signalling(diag: Option<nat>)
    | Closing(c: nat)
    | Marking(c: nat)
    | Through(closed: Option<nat>)

  datatype Thread = Thread(kind: Kind, phase: Phase)

  datatype State = State(ended: bool, done: bool, diag: Option<nat>, slots: Slots, collectors: map<nat, Handle>, threads: map<nat, Thread>)

  datatype Event = Create(c: nat, key: PortKey) | Call(t: nat, kind: Kind) | Advance(t: nat)

  const INITIAL := State(false, false, None, map[], map[], map[])

  function Step(s: State, e: Event): State {
    match e
    case Create(c, key) =>
      if c in s.collectors then s
      else s.(collectors := s.collectors[c := Handle(key, Open)], slots := Register(s.slots, key, c))
    case Call(t, kind) =>
      if t in s.threads || (kind.Set? && kind.c !in s.collectors) then s else Goes(s, t, kind, Ready)
    case Advance(t) => if t in s.threads then Next(s, t, s.threads[t].kind, s.threads[t].phase) else s
  }

  function Goes(s: State, t: nat, kind: Kind, phase: Phase): State {
    s.(threads := s.threads[t := Thread(kind, phase)])
  }

  function Next(s: State, t: nat, kind: Kind, phase: Phase): State {
    match phase
    case Ready =>
      (match kind
       case Finish => Goes(s.(ended := true), t, kind, Signalling(s.diag))
       case Set(c) => if s.ended then Goes(s, t, kind, Closing(c)) else Goes(s.(diag := Some(c)), t, kind, Through(None)))
    case Signalling(diag) => Goes(s.(done := true), t, kind, if diag.Some? then Closing(diag.value) else Through(None))
    case Closing(c) =>
      if c !in s.collectors then s
      else
        var handle := s.collectors[c];
        (match handle.once
         case Open =>
           Goes(s.(slots := Unregister(s.slots, handle.key, c), collectors := s.collectors[c := Handle(handle.key, Busy(t))]), t, kind, Marking(c))
         case Busy(_) => s
         case Closed(_) => Goes(s, t, kind, Through(Some(c))))
    case Marking(c) =>
      if c !in s.collectors then s
      else Goes(s.(collectors := s.collectors[c := Handle(s.collectors[c].key, Closed(t))]), t, kind, Through(Some(c)))
    case Through(_) => s
  }

  ghost function Run(events: seq<Event>): State {
    if events == [] then INITIAL else Step(Run(events[..|events| - 1]), events[|events| - 1])
  }

  // ---------------------------------------------------------------- what every step keeps

  /** A collector is registered exactly until somebody starts to close it; who has started is in the
      middle of it, and who has closed it is through. */
  ghost predicate HandleOk(s: State, c: nat, h: Handle) {
    && (forall key :: Registered(s.slots, key, c) <==> h.once.Open? && key == h.key)
    && (h.once.Busy? ==> h.once.thread in s.threads && s.threads[h.once.thread].phase == Marking(c))
    && (h.once.Closed? ==> h.once.closer in s.threads && s.threads[h.once.closer].phase == Through(Some(c)))
  }

  /** A finishing thread closes the session's collector, an attaching thread that is turned away its own. */
  ghost predicate ThreadOk(s: State, t: nat, th: Thread) {
    && (th.kind.Set? ==> th.kind.c in s.collectors)
    && match th.phase
       case Ready => true
       case Signalling(diag) => th.kind.Finish? && s.ended && diag == s.diag
       case Closing(c) => s.ended && Owed(s, th.kind, c)
       case Marking(c) => s.ended && Owed(s, th.kind, c) && s.collectors[c].once == Busy(t)
       case Through(Some(c)) => s.ended && Owed(s, th.kind, c) && s.collectors[c].once.Closed?
       case Through(None) => if th.kind.Finish? then s.ended && s.diag == None else s.diag.Some?
  }

  ghost predicate Owed(s: State, kind: Kind, c: nat) {
    c in s.collectors && if kind.Finish? then s.diag == Some(c) else kind.c == c
  }

  /** The session's collector was attached by a thread that is through. */
  ghost predicate Attached(s: State, t: nat) {
    s.diag.Some? ==> t in s.threads && s.threads[t] == Thread(Set(s.diag.value), Through(None)) && s.diag.value in s.collectors
  }

  ghost predicate Inv(s: State) {
    && (forall c | c in s.collectors :: HandleOk(s, c, s.collectors[c]))
    && (forall t | t in s.threads :: ThreadOk(s, t, s.threads[t]))
    && (exists t :: Attached(s, t))
    && NoEmptySlot(s.slots)
    && (forall key, c :: Registered(s.slots, key, c) ==> c in s.collectors)
    && (s.done ==> s.ended)
  }

  lemma StepKeepsInv(s: State, e: Event)
    requires Inv(s)
    ensures Inv(Step(s, e))
  {
    hide Inv, Next;
    match e
    case Create(c, key) => CreateKeepsInv(s, c, key);
    case Call(t, kind) => CallKeepsInv(s, t, kind);
    case Advance(t) => if t in s.threads { NextKeepsInv(s, t); }
  }

  lemma CreateKeepsInv(s: State, c: nat, key: PortKey)
    requires Inv(s)
    ensures Inv(Step(s, Create(c, key)))
  {
    hide Register, Registered, NoEmptySlot, HandleOk, ThreadOk;
    RegistryKeepsNoEmptySlot(s.slots, key, c);
    var u := Step(s, Create(c, key));
    var t :| Attached(s, t);
    assert Attached(u, t);
    if c !in s.collectors {
      forall d | d in u.collectors ensures HandleOk(u, d, u.collectors[d]) {
        CreateKeepsHandle(s, c, key, d);
      }
      forall i | i in u.threads ensures ThreadOk(u, i, u.threads[i]) {
        CreateKeepsThread(s, c, key, i);
      }
    }
  }

  lemma CreateKeepsHandle(s: State, c: nat, key: PortKey, d: nat)
    requires c !in s.collectors && NoEmptySlot(s.slots) && forall k :: !Registered(s.slots, k, c)
    requires d in s.collectors ==> HandleOk(s, d, s.collectors[d])
    ensures var u := Step(s, Create(c, key)); d in u.collectors ==> HandleOk(u, d, u.collectors[d])
  {
    hide Register, Registered, NoEmptySlot;
    RegistryKeepsNoEmptySlot(s.slots, key, c);
  }

  lemma CreateKeepsThread(s: State, c: nat, key: PortKey, i: nat)
    requires c !in s.collectors && i in s.threads && ThreadOk(s, i, s.threads[i])
    ensures var u := Step(s, Create(c, key)); ThreadOk(u, i, u.threads[i])
  {
    hide Register;
  }

  lemma CallKeepsInv(s: State, t: nat, kind: Kind)
    requires Inv(s)
    ensures Inv(Step(s, Call(t, kind)))
  {
    hide Registered, NoEmptySlot, HandleOk;
    var u := Step(s, Call(t, kind));
    var a :| Attached(s, a);
    assert Attached(u, a);
    forall c | c in u.collectors ensures HandleOk(u, c, u.collectors[c]) {
      CallKeepsHandle(s, t, kind, c);
    }
  }

  lemma CallKeepsHandle(s: State, t: nat, kind: Kind, c: nat)
    requires c in s.collectors && HandleOk(s, c, s.collectors[c])
    ensures var u := Step(s, Call(t, kind)); c in u.collectors && HandleOk(u, c, u.collectors[c])
  {
    hide Registered;
  }

  lemma NextKeepsInv(s: State, t: nat)
    requires Inv(s) && t in s.threads
    ensures Inv(Next(s, t, s.threads[t].kind, s.threads[t].phase))
  {
    var Thread(kind, phase) := s.threads[t];
    match phase
    case Ready => ReadyKeepsInv(s, t, kind);
    case Signalling(diag) => SignalKeepsInv(s, t, kind, diag);
    case Closing(c) => ClosingKeepsInv(s, t, kind, c);
    case Marking(c) => MarkingKeepsInv(s, t, kind, c);
    case Through(_) =>
  }

  lemma ReadyKeepsInv(s: State, t: nat, kind: Kind)
    requires Inv(s) && t in s.threads && s.threads[t] == Thread(kind, Ready)
    ensures Inv(Next(s, t, kind, Ready))
  {
    hide Registered, NoEmptySlot, HandleOk;
    var u := Next(s, t, kind, Ready);
    var a :| Attached(s, a);
    assert Attached(u, a) || Attached(u, t);
    forall c | c in u.collectors ensures HandleOk(u, c, u.collectors[c]) {
      HandleStays(s, u, t, c);
    }
  }

  lemma HandleStays(s: State, u: State, t: nat, c: nat)
    requires c in s.collectors && HandleOk(s, c, s.collectors[c])
    requires u.slots == s.slots && u.collectors == s.collectors && t in u.threads && u.threads == s.threads[t := u.threads[t]]
    requires t in s.threads && !s.threads[t].phase.Marking? && !s.threads[t].phase.Through?
    ensures HandleOk(u, c, u.collectors[c])
  {
    hide Registered;
  }

  lemma SignalKeepsInv(s: State, t: nat, kind: Kind, diag: Option<nat>)
    requires Inv(s) && t in s.threads && s.threads[t] == Thread(kind, Signalling(diag))
    ensures Inv(Next(s, t, kind, Signalling(diag)))
  {
    hide Registered, NoEmptySlot;
    var u := Next(s, t, kind, Signalling(diag));
    var a :| Attached(s, a);
    assert Attached(u, a);
  }

  lemma ClosingKeepsInv(s: State, t: nat, kind: Kind, c: nat)
    requires Inv(s) && t in s.threads && s.threads[t] == Thread(kind, Closing(c))
    ensures Inv(Next(s, t, kind, Closing(c)))
  {
    hide Registered, NoEmptySlot, Unregister, HandleOk, ThreadOk;
    var u := Next(s, t, kind, Closing(c));
    assert ThreadOk(s, t, s.threads[t]) && c in s.collectors by { OwedExists(s, t, kind, c); }
    RegistryKeepsNoEmptySlot(s.slots, s.collectors[c].key, c);
    var a :| Attached(s, a);
    assert Attached(u, a);
    forall d | d in u.collectors ensures HandleOk(u, d, u.collectors[d]) {
      ClosingKeepsHandle(s, t, kind, c, d);
    }
    forall i | i in u.threads ensures ThreadOk(u, i, u.threads[i]) {
      ClosingKeepsThread(s, t, kind, c, i);
    }
  }

  lemma OwedExists(s: State, t: nat, kind: Kind, c: nat)
    requires Inv(s) && t in s.threads && s.threads[t] == Thread(kind, Closing(c))
    ensures ThreadOk(s, t, s.threads[t]) && c in s.collectors
  {
    hide HandleOk;
  }

  lemma ClosingKeepsHandle(s: State, t: nat, kind: Kind, c: nat, d: nat)
    requires t in s.threads && s.threads[t] == Thread(kind, Closing(c)) && c in s.collectors && d in s.collectors
    requires HandleOk(s, c, s.collectors[c]) && HandleOk(s, d, s.collectors[d]) && NoEmptySlot(s.slots)
    ensures var u := Next(s, t, kind, Closing(c)); HandleOk(u, d, u.collectors[d])
  {
    hide Registered, NoEmptySlot, Unregister;
    RegistryKeepsNoEmptySlot(s.slots, s.collectors[c].key, c);
  }

  lemma ClosingKeepsThread(s: State, t: nat, kind: Kind, c: nat, i: nat)
    requires t in s.threads && s.threads[t] == Thread(kind, Closing(c)) && c in s.collectors && i in s.threads
    requires ThreadOk(s, t, s.threads[t]) && ThreadOk(s, i, s.threads[i])
    ensures var u := Next(s, t, kind, Closing(c)); i in u.threads && ThreadOk(u, i, u.threads[i])
  {
    hide Unregister;
  }

  lemma MarkingKeepsInv(s: State, t: nat, kind: Kind, c: nat)
    requires Inv(s) && t in s.threads && s.threads[t] == Thread(kind, Marking(c))
    ensures Inv(Next(s, t, kind, Marking(c)))
  {
    hide Registered, NoEmptySlot, HandleOk, ThreadOk;
    var u := Next(s, t, kind, Marking(c));
    var a :| Attached(s, a);
    assert Attached(u, a);
    ThreadIsOk(s, t);
    assert c in s.collectors by { MarkedExists(s, t, kind, c); }
    forall d | d in u.collectors ensures HandleOk(u, d, u.collectors[d]) {
      MarkingKeepsHandle(s, t, kind, c, d);
    }
    forall i | i in u.threads ensures ThreadOk(u, i, u.threads[i]) {
      MarkingKeepsThread(s, t, kind, c, i);
    }
  }

  lemma MarkedExists(s: State, t: nat, kind: Kind, c: nat)
    requires ThreadOk(s, t, Thread(kind, Marking(c)))
    ensures c in s.collectors
  {
  }

  lemma MarkingKeepsHandle(s: State, t: nat, kind: Kind, c: nat, d: nat)
    requires t in s.threads && s.threads[t] == Thread(kind, Marking(c)) && ThreadOk(s, t, s.threads[t])
    requires c in s.collectors && d in s.collectors && HandleOk(s, d, s.collectors[d]) && HandleOk(s, c, s.collectors[c])
    ensures var u := Next(s, t, kind, Marking(c)); d in u.collectors && HandleOk(u, d, u.collectors[d])
  {
    hide Registered;
  }

  lemma MarkingKeepsThread(s: State, t: nat, kind: Kind, c: nat, i: nat)
    requires t in s.threads && s.threads[t] == Thread(kind, Marking(c)) && ThreadOk(s, t, s.threads[t])
    requires i in s.threads && ThreadOk(s, i, s.threads[i])
    ensures var u := Next(s, t, kind, Marking(c)); i in u.threads && ThreadOk(u, i, u.threads[i])
  {
  }

  lemma {:induction false} RunKeepsInv(events: seq<Event>)
    ensures Inv(Run(events))
  {
    hide Inv, Step;
    if events == [] {
      NothingYet();
    } else {
      RunKeepsInv(events[..|events| - 1]);
      StepKeepsInv(Run(events[..|events| - 1]), events[|events| - 1]);
    }
  }

  lemma NothingYet()
    ensures Inv(INITIAL)
  {
    assert Attached(INITIAL, 0);
  }

  // ---------------------------------------------------------------- the end of a session

  predicate IsThrough(s: State, t: nat, kind: Kind) {
    t in s.threads && s.threads[t].kind == kind && s.threads[t].phase.Through?
  }

  /** Closed for good, and out of the registry. */
  ghost predicate IsClosed(s: State, c: nat) {
    && c in s.collectors && s.collectors[c].once.Closed?
    && forall key :: !Registered(s.slots, key, c)
  }

  ghost predicate TurnedAway(s: State, c: nat) {
    exists t :: t in s.threads && s.threads[t] == Thread(Set(c), Through(Some(c)))
  }

  /** A thread that was turned away is taking its collector out right now. */
  ghost predicate BeingTurnedAway(s: State, c: nat) {
    exists t :: t in s.threads && s.threads[t] == Thread(Set(c), Marking(c))
  }

  /** Once finish has returned, and however the calls were interleaved, exactly the collector that was
      attached last and those that came too late are closed; any other one is registered, unless it came
      too late and is just being closed. */
  lemma ClosedAfterFinish(events: seq<Event>, f: nat, c: nat)
    requires IsThrough(Run(events), f, Finish) && c in Run(events).collectors
    ensures IsClosed(Run(events), c) <==> Run(events).diag == Some(c) || TurnedAway(Run(events), c)
    ensures !IsClosed(Run(events), c) ==>
              Registered(Run(events).slots, Run(events).collectors[c].key, c) || BeingTurnedAway(Run(events), c)
  {
    hide Run, Registered;
    RunKeepsInv(events);
    var s := Run(events);
    assert ThreadOk(s, f, s.threads[f]);
    assert HandleOk(s, c, s.collectors[c]);
    CloserOwesIt(s, c);
    if TurnedAway(s, c) {
      var t :| t in s.threads && s.threads[t] == Thread(Set(c), Through(Some(c)));
      assert ThreadOk(s, t, s.threads[t]);
    }
  }

  /** No other thread attaches a collector. */
  ghost predicate AttachedOnce(s: State, t: nat) {
    forall i | i in s.threads && i != t :: s.threads[i].kind.Finish?
  }

  /** Whatever the order of the steps of finish and of the one setDiag of a session, once both have
      returned the collector is closed and unregistered. */
  lemma BothReturnedMeansClosed(events: seq<Event>, f: nat, t: nat, c: nat)
    requires IsThrough(Run(events), f, Finish) && IsThrough(Run(events), t, Set(c)) && AttachedOnce(Run(events), t)
    ensures IsClosed(Run(events), c)
  {
    hide Run, Registered, IsClosed;
    RunKeepsInv(events);
    var s := Run(events);
    assert ThreadOk(s, t, s.threads[t]);
    ClosedAfterFinish(events, f, c);
    var a :| Attached(s, a);
    if s.threads[t].phase == Through(Some(c)) {
      assert TurnedAway(s, c);
    }
  }

  /** Nobody is left who would close c. */
  ghost predicate Lost(s: State, c: nat) {
    && s.ended && s.diag != Some(c) && c in s.collectors && s.collectors[c].once.Open?
    && forall t | t in s.threads && s.threads[t].kind == Set(c) :: s.threads[t].phase == Through(None)
  }

  predicate NoMoreSets(events: seq<Event>, c: nat) {
    forall i | 0 <= i < |events| :: !(events[i].Call? && events[i].kind == Set(c))
  }

  lemma StepKeepsLost(s: State, e: Event, c: nat)
    requires Inv(s) && Lost(s, c) && !(e.Call? && e.kind == Set(c))
    ensures Lost(Step(s, e), c)
  {
    hide Next, Inv;
    if e.Advance? && e.t in s.threads {
      assert ThreadOk(s, e.t, s.threads[e.t]) by { ThreadIsOk(s, e.t); }
      NextKeepsLost(s, e.t, c);
    }
    hide Register;
  }

  lemma ThreadIsOk(s: State, t: nat)
    requires Inv(s) && t in s.threads
    ensures ThreadOk(s, t, s.threads[t])
  {
    hide HandleOk;
  }

  lemma NextKeepsLost(s: State, t: nat, c: nat)
    requires t in s.threads && ThreadOk(s, t, s.threads[t]) && Lost(s, c)
    ensures Lost(Next(s, t, s.threads[t].kind, s.threads[t].phase), c)
  {
    hide Unregister;
  }

  lemma {:induction false} LostForGood(events: seq<Event>, more: seq<Event>, c: nat)
    requires Lost(Run(events), c) && NoMoreSets(more, c)
    ensures Lost(Run(events + more), c)
    decreases |more|
  {
    hide Run, Step, Lost;
    if more == [] {
      assert events + more == events;
    } else {
      var n := |more| - 1;
      LostForGood(events, more[..n], c);
      RunKeepsInv(events + more[..n]);
      StepKeepsLost(Run(events + more[..n]), more[n], c);
      RunPrefix(events + more, |events + more|);
      assert (events + more)[..|events + more|] == events + more;
      assert (events + more)[..|events + more| - 1] == events + more[..n];
    }
  }

  predicate AllSetsThrough(s: State, c: nat) {
    forall t | t in s.threads && s.threads[t].kind == Set(c) :: s.threads[t].phase.Through?
  }

  ghost predicate NeverCloses(events: seq<Event>, c: nat) {
    forall more: seq<Event> | NoMoreSets(more, c) :: !IsClosed(Run(events + more), c)
  }

  /** When finish and all attachments of a collector have returned, it is never closed, whatever follows
      short of attaching it again, exactly when another one was attached after it in time. */
  lemma LeakedExactly(events: seq<Event>, f: nat, c: nat)
    requires IsThrough(Run(events), f, Finish) && c in Run(events).collectors && AllSetsThrough(Run(events), c)
    ensures NeverCloses(events, c) <==> Run(events).diag != Some(c) && !TurnedAway(Run(events), c)
  {
    hide Run, Lost, IsClosed;
    var s := Run(events);
    ClosedAfterFinish(events, f, c);
    if s.diag == Some(c) || TurnedAway(s, c) {
      assert events + [] == events;
      assert NoMoreSets([], c);
    } else {
      NotClosedIsLost(events, f, c);
      forall more: seq<Event> | NoMoreSets(more, c) ensures !IsClosed(Run(events + more), c) {
        LostForGood(events, more, c);
        LostIsOpen(Run(events + more), c);
      }
    }
  }

  lemma LostIsOpen(s: State, c: nat)
    requires Lost(s, c)
    ensures !IsClosed(s, c)
  {
  }

  lemma NotClosedIsLost(events: seq<Event>, f: nat, c: nat)
    requires IsThrough(Run(events), f, Finish) && c in Run(events).collectors && AllSetsThrough(Run(events), c)
    requires Run(events).diag != Some(c) && !TurnedAway(Run(events), c)
    ensures Lost(Run(events), c)
  {
    hide Run, Registered;
    RunKeepsInv(events);
    var s := Run(events);
    assert ThreadOk(s, f, s.threads[f]);
    assert HandleOk(s, c, s.collectors[c]);
    forall t | t in s.threads && s.threads[t].kind == Set(c) ensures s.threads[t].phase == Through(None) {
      assert ThreadOk(s, t, s.threads[t]);
    }
    CloserOwesIt(s, c);
  }

  /** Whoever closes or has closed a collector owed it. */
  lemma CloserOwesIt(s: State, c: nat)
    requires Inv(s) && c in s.collectors
    ensures match s.collectors[c].once
            case Open => true
            case Busy(t) => t in s.threads && s.threads[t].phase == Marking(c) && s.ended && Owed(s, s.threads[t].kind, c)
            case Closed(t) => t in s.threads && s.threads[t].phase == Through(Some(c)) && s.ended && Owed(s, s.threads[t].kind, c)
  {
    hide Registered;
    assert HandleOk(s, c, s.collectors[c]);
    match s.collectors[c].once
    case Open =>
    case Busy(t) => assert ThreadOk(s, t, s.threads[t]);
    case Closed(t) => assert ThreadOk(s, t, s.threads[t]);
  }

  /** Attaching two collectors to a session that goes on leaves the first one registered for good. */
  function TwoAttached(a: nat, b: nat, key: PortKey): seq<Event> {
    [Create(a, key), Create(b, key), Call(0, Set(a)), Advance(0), Call(1, Set(b)), Advance(1),
     Call(2, Finish), Advance(2), Advance(2), Advance(2), Advance(2)]
  }

  lemma RunPrefix(events: seq<Event>, k: nat)
    requires 0 < k <= |events|
    ensures Run(events[..k]) == Step(Run(events[..k - 1]), events[k - 1])
  {
    hide Step;
    assert events[..k][..k - 1] == events[..k - 1];
  }

  /** A setDiag that comes in time, on its own. */
  lemma SetInTime(s: State, t: nat, c: nat)
    requires t !in s.threads && c in s.collectors && !s.ended
    ensures Step(Step(s, Call(t, Set(c))), Advance(t)) == s.(diag := Some(c), threads := s.threads[t := Thread(Set(c), Through(None))])
  {
    var u := Step(s, Call(t, Set(c)));
    assert s.threads[t := Thread(Set(c), Ready)][t := Thread(Set(c), Through(None))] == s.threads[t := Thread(Set(c), Through(None))];
  }

  lemma TwoCreated(a: nat, b: nat, key: PortKey)
    requires a != b
    ensures var s := Step(Step(INITIAL, Create(a, key)), Create(b, key));
            s.diag == None && !s.ended && s.threads == map[] && s.collectors == map[a := Handle(key, Open), b := Handle(key, Open)]
  {
    hide Register;
  }

  lemma TwoSets(a: nat, b: nat, key: PortKey)
    requires a != b
    ensures var s := Run(TwoAttached(a, b, key)[..6]);
            && s.diag == Some(b) && !s.ended && s.collectors == map[a := Handle(key, Open), b := Handle(key, Open)]
            && s.threads == map[0 := Thread(Set(a), Through(None)), 1 := Thread(Set(b), Through(None))]
  {
    hide Run, Step;
    var es := TwoAttached(a, b, key);
    assert Run(es[..0]) == INITIAL by { RunNothing(); }
    RunPrefix(es, 1);
    RunPrefix(es, 2);
    TwoCreated(a, b, key);
    RunPrefix(es, 3);
    RunPrefix(es, 4);
    SetInTime(Run(es[..2]), 0, a);
    RunPrefix(es, 5);
    RunPrefix(es, 6);
    SetInTime(Run(es[..4]), 1, b);
  }

  lemma FirstOfTwoLeaks(a: nat, b: nat, key: PortKey)
    requires a != b
    ensures var s := Run(TwoAttached(a, b, key));
            && IsThrough(s, 0, Set(a)) && IsThrough(s, 1, Set(b)) && IsThrough(s, 2, Finish)
            && IsClosed(s, b) && !IsClosed(s, a) && Registered(s.slots, key, a)
    ensures NeverCloses(TwoAttached(a, b, key), a)
  {
    hide Run, Unregister, Registered, IsClosed, NeverCloses;
    var es := TwoAttached(a, b, key);
    TwoSets(a, b, key);
    RunPrefix(es, 7);
    RunPrefix(es, 8);
    assert Run(es[..8]).threads[2] == Thread(Finish, Signalling(Some(b)));
    RunPrefix(es, 9);
    RunPrefix(es, 10);
    assert Run(es[..10]).threads[2] == Thread(Finish, Marking(b));
    RunPrefix(es, 11);
    assert es[..11] == es;
    ClosedAfterFinish(es, 2, a);
    ClosedAfterFinish(es, 2, b);
    LeakedExactly(es, 2, a);
  }

  lemma RunNothing()
    ensures Run([]) == INITIAL
  {
  }
}
