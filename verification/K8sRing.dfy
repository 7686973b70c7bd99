/** internal/k8s/runtime_diag.go: the ring of diagnostic records, the scan for the newest one of a
    request, and the registry of collectors. Times are nanoseconds. */
module K8sRing {
  import opened Wrappers

  const DIAG_SKEW: int := 300_000_000

  datatype PfErr = PfErr(local: int, remote: int, summary: string)

  datatype Record = Record(at: int, raw: string, pf: Option<PfErr>)

  // ---------------------------------------------------------------- the ring

  /** The last cap elements of a history. */
  function Last<T>(h: seq<T>, cap: nat): seq<T> {
    if |h| <= cap then h else h[|h| - cap..]
  }

  lemma LastOfLast<T>(h: seq<T>, cap: nat, v: T)
    ensures Last(Last(h, cap) + [v], cap) == Last(h + [v], cap)
  {
  }

  /** Where the k-th newest of a ring's elements is kept. */
  function Slot(len: nat, next: nat, k: nat): (j: nat)
    requires next < len && k < len
    ensures j < len
  {
    if next >= 1 + k then next - 1 - k else next - 1 - k + len
  }

  /** The elements of a ring, oldest first. */
  function Ordered<T>(vals: seq<T>, next: nat, n: nat): (s: seq<T>)
    requires next < |vals| && n <= |vals|
    ensures |s| == n
  {
    seq(n, i requires 0 <= i < n => vals[Slot(|vals|, next, n - 1 - i)])
  }

  /** A step of the cursor moves every element one back, and the newest one to where it stood. */
  lemma SlotsShift(len: nat, next: nat, k: nat)
    requires next < len && k < len
    ensures (next + 1) % len == if next + 1 == len then 0 else next + 1
    ensures Slot(len, (next + 1) % len, k) == (if k == 0 then next else Slot(len, next, k - 1))
    ensures k > 0 ==> Slot(len, next, k - 1) != next
  {
    CursorWraps(len, next);
  }

  lemma CursorWraps(len: nat, next: nat)
    requires next < len
    ensures (next + 1) % len == if next + 1 == len then 0 else next + 1
  {
  }

  /** The newest element stands where it was written, the others stay where they were, and in a full
      ring the oldest one is gone. */
  lemma OrderedPush<T>(vals: seq<T>, next: nat, n: nat, v: T)
    requires next < |vals| && n <= |vals|
    ensures (next + 1) % |vals| < |vals|
    ensures Ordered(vals[next := v], (next + 1) % |vals|, if n < |vals| then n + 1 else n) == Last(Ordered(vals, next, n) + [v], |vals|)
  {
    hide Slot;
    var len, m := |vals|, if n < |vals| then n + 1 else n;
    var ahead := (next + 1) % len;
    var was := Ordered(vals, next, n);
    var after, kept := Ordered(vals[next := v], ahead, m), Last(was + [v], len);
    forall i | 0 <= i < m ensures after[i] == kept[i] {
      SlotsShift(len, next, m - 1 - i);
      assert after[i] == vals[next := v][Slot(len, ahead, m - 1 - i)];
      assert kept[i] == (was + [v])[n + 1 - m + i];
    }
  }

  class Ring<T(0)> {
    const vals: array<T>
    var next: nat
    var n: nat

    ghost predicate Valid()
      reads this
    {
      0 < vals.Length && next < vals.Length && n <= vals.Length
    }

    /** The elements, oldest first. */
    ghost function Contents(): (s: seq<T>)
      requires Valid()
      reads this, vals
      ensures |s| == n
    {
      Ordered(vals[..], next, n)
    }

    constructor (capacity: int)
      ensures Valid() && fresh(vals) && vals.Length == (if capacity < 1 then 1 else capacity) && Contents() == []
    {
      vals := new T[if capacity < 1 then 1 else capacity];
      next, n := 0, 0;
    }

    /** Pushing one element after the other keeps the last ones of the whole history. */
    method Push(v: T, ghost history: seq<T>)
      requires Valid() && Contents() == Last(history, vals.Length)
      modifies this, vals
      ensures Valid() && Contents() == Last(history + [v], vals.Length)
    {
      OrderedPush(vals[..], next, n, v);
      vals[next] := v;
      next := (next + 1) % vals.Length;
      if n < vals.Length {
        n := n + 1;
      }
      LastOfLast(history, vals.Length, v);
    }
  }

  // ---------------------------------------------------------------- the newest record of a request

  /** The record is neither too old nor from before the request, as far as there are such limits. */
  predicate InWindows(r: Record, now: int, startedAt: Option<int>, maxAge: int) {
    && (maxAge > 0 ==> now - r.at <= maxAge)
    && (startedAt.Some? ==> r.at >= startedAt.value - DIAG_SKEW)
  }

  /** The scan: from the newest record back, it stops at the first one outside the windows. */
  function Scan(records: seq<Record>, now: int, startedAt: Option<int>, maxAge: int): Option<PfErr> {
    if records == [] then None
    else
      var r := records[|records| - 1];
      if !InWindows(r, now, startedAt, maxAge) then None
      else if r.pf.None? then Scan(records[..|records| - 1], now, startedAt, maxAge)
      else r.pf
  }

  /** Record i is the newest forwarding error inside the windows. */
  ghost predicate IsNewest(records: seq<Record>, i: nat, now: int, startedAt: Option<int>, maxAge: int) {
    && i < |records| && records[i].pf.Some? && InWindows(records[i], now, startedAt, maxAge)
    && forall j | i < j < |records| :: records[j].pf.None? || !InWindows(records[j], now, startedAt, maxAge)
  }

  /** The scan finds the newest forwarding error inside the windows exactly when no younger record lies
      outside them, and it finds nothing else. */
  lemma {:induction false} ScanFindsNewest(records: seq<Record>, now: int, startedAt: Option<int>, maxAge: int)
    ensures forall i: nat | IsNewest(records, i, now, startedAt, maxAge) ::
              if forall j | i < j < |records| :: InWindows(records[j], now, startedAt, maxAge)
              then Scan(records, now, startedAt, maxAge) == records[i].pf
              else Scan(records, now, startedAt, maxAge) == None
    ensures Scan(records, now, startedAt, maxAge).Some? ==>
              exists i: nat :: IsNewest(records, i, now, startedAt, maxAge) && records[i].pf == Scan(records, now, startedAt, maxAge)
  {
    if records != [] {
      var n := |records| - 1;
      var rest := records[..n];
      ScanFindsNewest(rest, now, startedAt, maxAge);
      var r := records[n];
      forall i: nat | IsNewest(records, i, now, startedAt, maxAge) && i < n ensures IsNewest(rest, i, now, startedAt, maxAge) {
      }
      if InWindows(r, now, startedAt, maxAge) {
        if r.pf.None? {
          if Scan(rest, now, startedAt, maxAge).Some? {
            var i: nat :| IsNewest(rest, i, now, startedAt, maxAge) && rest[i].pf == Scan(rest, now, startedAt, maxAge);
            assert IsNewest(records, i, now, startedAt, maxAge);
          }
        } else {
          assert IsNewest(records, n, now, startedAt, maxAge);
        }
      }
    }
  }

  /** A record counts from 300 milliseconds before the request starts on, and up to its greatest age. */
  lemma WindowsOfOne(at: int, raw: string, pf: PfErr, now: int, startedAt: Option<int>, maxAge: int)
    ensures Scan([Record(at, raw, Some(pf))], now, startedAt, maxAge) == Some(pf)
            <==> (maxAge <= 0 || at >= now - maxAge) && (startedAt == None || at + 300_000_000 >= startedAt.value)
  {
  }

  /** A record that is no forwarding error is passed over, one of them is returned whole. */
  lemma OthersArePassedOver(records: seq<Record>, at: int, raw: string, now: int, startedAt: Option<int>)
    requires startedAt == None || at >= startedAt.value
    ensures Scan(records + [Record(at, raw, None)], now, startedAt, 0) == Scan(records, now, startedAt, 0)
  {
    assert (records + [Record(at, raw, None)])[..|records|] == records;
  }

  ghost predicate NonDecreasing(records: seq<Record>) {
    forall i, j | 0 <= i < j < |records| :: records[i].at <= records[j].at
  }

  /** Where the records come in order, stopping early loses nothing. */
  lemma OrderedScanFindsNewest(records: seq<Record>, now: int, startedAt: Option<int>, maxAge: int)
    requires NonDecreasing(records)
    ensures forall i: nat | IsNewest(records, i, now, startedAt, maxAge) :: Scan(records, now, startedAt, maxAge) == records[i].pf
    ensures Scan(records, now, startedAt, maxAge).None? <==> !exists i: nat :: IsNewest(records, i, now, startedAt, maxAge)
  {
    ScanFindsNewest(records, now, startedAt, maxAge);
    forall i: nat, j | IsNewest(records, i, now, startedAt, maxAge) && i < j < |records| ensures InWindows(records[j], now, startedAt, maxAge) {
      assert records[i].at <= records[j].at;
    }
  }

  /** One late record with an old time stamp hides the error before it. */
  lemma LateRecordHides(pf: PfErr)
    ensures var records := [Record(100, "", Some(pf)), Record(0, "", None)];
            IsNewest(records, 0, 100, None, 50) && Scan(records, 100, None, 50) == None
  {
  }

  class Collector {
    const buf: Ring<Record>
    var closed: bool

    ghost predicate Valid()
      reads this, buf
    {
      buf.Valid()
    }

    constructor (capacity: int)
      ensures Valid() && fresh(buf) && fresh(buf.vals) && !closed && buf.Contents() == []
    {
      buf := new Ring(capacity);
      closed := false;
    }

    /** A closed collector takes no more records. */
    method Push(rec: Record, ghost history: seq<Record>)
      requires Valid() && buf.Contents() == Last(history, buf.vals.Length)
      modifies buf, buf.vals
      ensures Valid() && closed == old(closed)
      ensures buf.Contents() == if closed then old(buf.Contents()) else Last(history + [rec], buf.vals.Length)
    {
      if closed { return; }
      buf.Push(rec, history);
    }

    method LatestPfErr(now: int, startedAt: Option<int>, maxAge: int) returns (r: Option<PfErr>)
      requires Valid()
      ensures r == Scan(buf.Contents(), now, startedAt, maxAge)
    {
      ghost var records := buf.Contents();
      var vals := buf.vals;
      assert records[..buf.n] == records;
      for i := 0 to buf.n
        invariant Scan(records[..buf.n - i], now, startedAt, maxAge) == Scan(records, now, startedAt, maxAge)
      {
        var j: int := buf.next - 1 - i;
        if j < 0 {
          j := j + vals.Length;
        }
        var rec := vals[j];
        assert j == Slot(vals.Length, buf.next, i) && vals[..][j] == records[buf.n - i - 1];
        assert records[..buf.n - i][..buf.n - i - 1] == records[..buf.n - i - 1];
        if maxAge > 0 && now - rec.at > maxAge { return None; }
        if startedAt.Some? && rec.at < startedAt.value - DIAG_SKEW { return None; }
        if rec.pf.Some? { return rec.pf; }
      }
      return None;
    }
  }

  // ---------------------------------------------------------------- the registry

  type PortKey = (int, int)

  type Slots = map<PortKey, set<nat>>

  predicate NoEmptySlot(slots: Slots) {
    forall key | key in slots :: slots[key] != {}
  }

  predicate Registered(slots: Slots, key: PortKey, id: nat) {
    key in slots && id in slots[key]
  }

  function Register(slots: Slots, key: PortKey, id: nat): Slots {
    slots[key := (if key in slots then slots[key] else {}) + {id}]
  }

  function Unregister(slots: Slots, key: PortKey, id: nat): Slots {
    if key !in slots || slots[key] == {} then slots
    else if slots[key] - {id} == {} then slots - {key}
    else slots[key := slots[key] - {id}]
  }

  /** Registering and unregistering touch one collector, and never leave an empty slot behind. */
  lemma RegistryKeepsNoEmptySlot(slots: Slots, key: PortKey, id: nat)
    requires NoEmptySlot(slots)
    ensures NoEmptySlot(Register(slots, key, id)) && NoEmptySlot(Unregister(slots, key, id))
    ensures forall k, i: nat :: Registered(Register(slots, key, id), k, i) <==> Registered(slots, k, i) || (k, i) == (key, id)
    ensures forall k, i: nat :: Registered(Unregister(slots, key, id), k, i) <==> Registered(slots, k, i) && (k, i) != (key, id)
    ensures !(exists i :: Registered(slots, key, i)) ==> Unregister(Register(slots, key, id), key, id) == slots
  {
    if !(exists i :: Registered(slots, key, i)) {
      if key in slots {
        var i :| i in slots[key];
        assert Registered(slots, key, i);
      }
      assert Unregister(Register(slots, key, id), key, id) == slots;
    }
  }

  class DiagState {
    var slots: Slots

    method RegisterCollector(key: PortKey, id: nat)
      modifies this
      ensures slots == Register(old(slots), key, id)
    {
      var slot := if key in slots then slots[key] else {};
      slots := slots[key := slot + {id}];
    }

    method UnregisterCollector(key: PortKey, id: nat)
      modifies this
      ensures slots == Unregister(old(slots), key, id)
    {
      var slot := if key in slots then slots[key] else {};
      if slot == {} { return; }
      slot := slot - {id};
      slots := slots[key := slot];
      if slot == {} {
        slots := slots - {key};
      }
    }
  }
}
