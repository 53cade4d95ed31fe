/** Read transactions and the reference counts that pin the snapshots they read. */
module Transactions {
  import opened Words

  datatype Txn = Txn(readSnapshot: uint64, startedAt: int)

  type Active = map<uint64, Txn>
  type Pins = map<uint64, int>

  // ----- the counts a manager should hold

  /** The active transactions that read a snapshot. */
  function Readers(active: Active, snapshot: uint64): set<uint64> {
    set t | t in active && active[t].readSnapshot == snapshot
  }

  /** Every count is exact and no zero entry is left behind. */
  ghost predicate Agrees(active: Active, pins: Pins) {
    forall s: uint64 ::
      && (s in pins <==> Readers(active, s) != {})
      && (s in pins ==> pins[s] == |Readers(active, s)|)
  }

  function Count(pins: Pins, s: uint64): int {
    if s in pins then pins[s] else 0
  }

  /** The pins of a snapshot that no active transaction accounts for. */
  function Surplus(active: Active, pins: Pins, s: uint64): int {
    Count(pins, s) - |Readers(active, s)|
  }

  /** Every reader is counted and no zero entry is left behind; there may be further pins. */
  ghost predicate Covers(active: Active, pins: Pins) {
    && (forall s :: s in pins ==> pins[s] > 0)
    && (forall s: uint64 :: Surplus(active, pins, s) >= 0)
  }

  // ----- effect of the operations on the two maps

  /** One pin more; a snapshot without an entry has none so far. */
  function Pin(pins: Pins, s: uint64): Pins {
    pins[s := Count(pins, s) + 1]
  }

  function Unpin(pins: Pins, s: uint64): Pins {
    if s !in pins || pins[s] <= 1 then pins - {s} else pins[s := pins[s] - 1]
  }

  predicate Expired(t: Txn, now: int, timeout: int) {
    now - t.startedAt > timeout
  }

  // ----- the calls of the manager, as functions of its state

  datatype Call =
    | Register(id: uint64, snapshot: uint64, now: int)
    | Commit(id: uint64, now: int)
    | Abort(id: uint64)
    | Cleanup(now: int)

  datatype State = State(active: Active, pins: Pins)

  /** One call, as the methods below change the state. */
  function Apply(timeout: int, st: State, call: Call): State {
    match call
    case Register(id, s, now) => State(st.active[id := Txn(s, now)], Pin(st.pins, s))
    case Commit(id, _) => Remove(st, id)
    case Abort(id) => Remove(st, id)
    case Cleanup(now) => RemoveAll(st, set t | t in st.active && Expired(st.active[t], now, timeout))
  }

  function Remove(st: State, id: uint64): State {
    if id in st.active then State(st.active - {id}, Unpin(st.pins, st.active[id].readSnapshot)) else st
  }

  class MVCCManager {
    var active: Active
    var pins: Pins
    const timeout: int

    constructor (timeout: int)
      ensures active == map[] && pins == map[] && this.timeout == timeout
      ensures Agrees(active, pins) && Covers(active, pins)
    {
      active, pins := map[], map[];
      this.timeout := timeout;
    }

    /** A repeated id overwrites its entry but never gives back the old pin. */
    method RegisterTransaction(txnId: uint64, readSnapshot: uint64, now: int)
      modifies this
      ensures State(active, pins) == Apply(timeout, old(State(active, pins)), Register(txnId, readSnapshot, now))
      ensures old(Agrees(active, pins)) ==> (Agrees(active, pins) <==> txnId !in old(active))
      ensures old(Covers(active, pins)) ==> Covers(active, pins)
    {
      if Agrees(active, pins) {
        RegisterAgreesIff(active, pins, txnId, Txn(readSnapshot, now));
      }
      if Covers(active, pins) {
        RegisterCovers(active, pins, txnId, Txn(readSnapshot, now));
      }
      active := active[txnId := Txn(readSnapshot, now)];
      pins := pins[readSnapshot := (if readSnapshot in pins then pins[readSnapshot] else 0) + 1];
    }

    method Unpinned(snapshot: uint64)
      modifies this`pins
      ensures pins == Unpin(old(pins), snapshot)
    {
      var count := if snapshot in pins then pins[snapshot] else 0;
      if count <= 1 {
        pins := pins - {snapshot};
        return;
      }
      pins := pins[snapshot := count - 1];
    }

    /** True exactly for a known transaction that has not timed out; either way the id is gone. */
    method CommitTransaction(txnId: uint64, now: int) returns (ok: bool)
      modifies this
      ensures ok <==> txnId in old(active) && now - old(active)[txnId].startedAt <= timeout
      ensures State(active, pins) == Apply(timeout, old(State(active, pins)), Commit(txnId, now))
      ensures old(Agrees(active, pins)) ==> Agrees(active, pins)
      ensures old(Covers(active, pins)) ==> Covers(active, pins)
    {
      if txnId !in active {
        return false;
      }
      var tx := active[txnId];
      if Agrees(active, pins) {
        RemoveAgrees(active, pins, txnId);
      }
      if Covers(active, pins) {
        RemoveCovers(active, pins, txnId);
      }
      if now - tx.startedAt > timeout {
        Unpinned(tx.readSnapshot);
        active := active - {txnId};
        return false;
      }
      Unpinned(tx.readSnapshot);
      active := active - {txnId};
      return true;
    }

    method AbortTransaction(txnId: uint64)
      modifies this
      ensures State(active, pins) == Apply(timeout, old(State(active, pins)), Abort(txnId))
      ensures old(Agrees(active, pins)) ==> Agrees(active, pins)
      ensures old(Covers(active, pins)) ==> Covers(active, pins)
    {
      if txnId !in active {
        return;
      }
      if Agrees(active, pins) {
        RemoveAgrees(active, pins, txnId);
      }
      if Covers(active, pins) {
        RemoveCovers(active, pins, txnId);
      }
      Unpinned(active[txnId].readSnapshot);
      active := active - {txnId};
    }

    /** Unpins the snapshot of an active transaction and forgets the transaction. */
    method Discard(txnId: uint64)
      requires txnId in active
      modifies this
      ensures active == old(active) - {txnId} && |active| == |old(active)| - 1
      ensures pins == Unpin(old(pins), old(active)[txnId].readSnapshot)
    {
      RemovedSize(active, txnId);
      Unpinned(active[txnId].readSnapshot);
      active := active - {txnId};
    }

    /** Deletes while walking the map in an arbitrary order; removes the expired ones and no other. */
    method CleanupExpiredTransactions(now: int) returns (cleaned: nat)
      modifies this
      ensures forall t :: t in active <==> t in old(active) && now - old(active)[t].startedAt <= timeout
      ensures forall t :: t in active ==> active[t] == old(active)[t]
      ensures cleaned == |old(active)| - |active|
      ensures old(Agrees(active, pins)) ==> Agrees(active, pins)
      ensures old(Covers(active, pins)) ==> Covers(active, pins)
      ensures old(Covers(active, pins)) ==> State(active, pins) == Apply(timeout, old(State(active, pins)), Cleanup(now))
    {
      cleaned := 0;
      var rest := active.Keys;
      while rest != {}
        invariant old(Covers(active, pins)) ==> Covers(active, pins) && SameSurplus(old(active), old(pins), active, pins)
        invariant forall t :: t in rest ==> t in active
        invariant forall t :: t in active <==> t in old(active) && (t in rest || !Expired(old(active)[t], now, timeout))
        invariant forall t :: t in active ==> active[t] == old(active)[t]
        invariant cleaned == |old(active)| - |active|
      {
        var txnId :| txnId in rest;
        if now - active[txnId].startedAt > timeout {
          if Covers(active, pins) {
            RemoveCovers(active, pins, txnId);
          }
          Discard(txnId);
          cleaned := cleaned + 1;
        }
        rest := rest - {txnId};
      }
      if old(Covers(active, pins)) {
        CleanedState(timeout, old(State(active, pins)), active, pins, now);
      }
      AgreesIffExact(old(active), old(pins));
      AgreesIffExact(active, pins);
    }

    method IsSnapshotPinned(snapshot: uint64) returns (pinned: bool)
      ensures pinned <==> snapshot in pins && pins[snapshot] > 0
      ensures Agrees(active, pins) ==> (pinned <==> exists t :: t in active && active[t].readSnapshot == snapshot)
    {
      pinned := (if snapshot in pins then pins[snapshot] else 0) > 0;
      assert Agrees(active, pins) ==> (pinned <==> Readers(active, snapshot) != {});
      assert forall t :: t in Readers(active, snapshot) <==> t in active && active[t].readSnapshot == snapshot;
    }
  }

  lemma CleanedState(timeout: int, before: State, active: Active, pins: Pins, now: int)
    requires Covers(before.active, before.pins) && Covers(active, pins)
    requires SameSurplus(before.active, before.pins, active, pins)
    requires forall t :: t in active <==> t in before.active && !Expired(before.active[t], now, timeout)
    requires forall t :: t in active ==> active[t] == before.active[t]
    ensures State(active, pins) == Apply(timeout, before, Cleanup(now))
  {
    var expired := set t | t in before.active && Expired(before.active[t], now, timeout);
    RemoveAllCovers(before, expired);
    assert active == before.active - expired;
    PinsUnique(active, pins, RemoveAll(before, expired).pins);
  }

  ghost predicate SameSurplus(active: Active, pins: Pins, active': Active, pins': Pins) {
    forall s: uint64 :: Surplus(active', pins', s) == Surplus(active, pins, s)
  }

  /** The active set and the surplus determine the counts. */
  lemma PinsUnique(active: Active, p: Pins, q: Pins)
    requires Covers(active, p) && Covers(active, q) && SameSurplus(active, p, active, q)
    ensures p == q
  {
    forall s: uint64
      ensures (s in p <==> s in q) && (s in p ==> p[s] == q[s])
    {
      assert Surplus(active, q, s) == Surplus(active, p, s);
    }
  }

  lemma AgreesIffExact(active: Active, pins: Pins)
    ensures Agrees(active, pins) <==> Covers(active, pins) && forall s: uint64 :: Surplus(active, pins, s) == 0
  {
    if Covers(active, pins) && forall s: uint64 :: Surplus(active, pins, s) == 0 {
      forall s: uint64
        ensures (s in pins <==> Readers(active, s) != {}) && (s in pins ==> pins[s] == |Readers(active, s)|)
      {
        assert Surplus(active, pins, s) == 0;
      }
    }
  }

  lemma RemoveCovers(active: Active, pins: Pins, id: uint64)
    requires Covers(active, pins) && id in active
    ensures var pins' := Unpin(pins, active[id].readSnapshot);
            Covers(active - {id}, pins') && SameSurplus(active, pins, active - {id}, pins')
  {
    var after, s0 := active - {id}, active[id].readSnapshot;
    assert Surplus(active, pins, s0) >= 0 && id in Readers(active, s0);
    forall s: uint64
      ensures Surplus(after, Unpin(pins, s0), s) == Surplus(active, pins, s)
    {
      assert Readers(after, s) == if s == s0 then Readers(active, s) - {id} else Readers(active, s);
    }
  }

  lemma RegisterCovers(active: Active, pins: Pins, id: uint64, tx: Txn)
    requires Covers(active, pins)
    ensures Covers(active[id := tx], Pin(pins, tx.readSnapshot))
  {
    var after, pins' := active[id := tx], Pin(pins, tx.readSnapshot);
    forall s: uint64
      ensures Surplus(after, pins', s) >= 0
    {
      assert Surplus(active, pins, s) >= 0;
      RegisterSurplus(active, pins, id, tx, s);
    }
  }

  /** Only the snapshot that an active transaction read so far gains a pin without a reader. */
  lemma RegisterSurplus(active: Active, pins: Pins, id: uint64, tx: Txn, s: uint64)
    ensures Surplus(active[id := tx], Pin(pins, tx.readSnapshot), s)
         == Surplus(active, pins, s) + (if id in active && active[id].readSnapshot == s then 1 else 0)
  {
    var after := active[id := tx];
    if tx.readSnapshot == s {
      assert Readers(after, s) == Readers(active, s) + {id};
    } else {
      assert Readers(after, s) == Readers(active, s) - {id};
    }
    assert id in Readers(active, s) <==> id in active && active[id].readSnapshot == s;
  }

  lemma {:induction false} RemoveAllCovers(st: State, ids: set<uint64>)
    requires Covers(st.active, st.pins)
    ensures var after := RemoveAll(st, ids);
            && after.active == st.active - ids
            && Covers(after.active, after.pins)
            && SameSurplus(st.active, st.pins, after.active, after.pins)
    decreases ids
  {
    if ids != {} {
      var id := Least(ids);
      if id in st.active {
        RemoveCovers(st.active, st.pins, id);
      }
      RemoveAllCovers(Remove(st, id), ids - {id});
      assert st.active - {id} - (ids - {id}) == st.active - ids;
    }
  }

  lemma RemoveAgrees(active: Active, pins: Pins, id: uint64)
    requires Agrees(active, pins) && id in active
    ensures Agrees(active - {id}, Unpin(pins, active[id].readSnapshot))
  {
    var after, pins' := active - {id}, Unpin(pins, active[id].readSnapshot);
    AgreesIffExact(active, pins);
    AgreesIffExact(after, pins');
    RemoveCovers(active, pins, id);
    forall s: uint64
      ensures Surplus(after, pins', s) == 0
    {
      assert Surplus(active, pins, s) == 0;
    }
  }

  /** Registration keeps the counts exact if and only if the id is new. */
  lemma RegisterAgreesIff(active: Active, pins: Pins, id: uint64, tx: Txn)
    requires Agrees(active, pins)
    ensures Agrees(active[id := tx], Pin(pins, tx.readSnapshot)) <==> id !in active
  {
    var after, pins' := active[id := tx], Pin(pins, tx.readSnapshot);
    AgreesIffExact(active, pins);
    AgreesIffExact(after, pins');
    RegisterCovers(active, pins, id, tx);
    forall s: uint64
      ensures Surplus(after, pins', s) == if id in active && active[id].readSnapshot == s then 1 else 0
    {
      RegisterSurplus(active, pins, id, tx, s);
    }
    if id in active {
      assert Surplus(after, pins', active[id].readSnapshot) == 1;
    }
  }

  function RemoveAll(st: State, ids: set<uint64>): State
    decreases ids
  {
    if ids == {} then st
    else
      var id := Least(ids);
      RemoveAll(Remove(st, id), ids - {id})
  }

  /** A fixed choice from a set, so that `RemoveAll` is a function. */
  function Least(ids: set<uint64>): (id: uint64)
    requires ids != {}
    ensures id in ids
  {
    LeastExists(ids);
    var id: uint64 :| id in ids && forall other :: other in ids ==> id <= other;
    id
  }

  lemma {:induction false} Smallest(ids: set<uint64>) returns (least: uint64)
    requires ids != {}
    ensures least in ids && forall other :: other in ids ==> least <= other
    decreases ids
  {
    var x :| x in ids;
    var rest := ids - {x};
    assert forall other :: other in ids ==> other == x || other in rest;
    least := x;
    if rest != {} {
      var y := Smallest(rest);
      least := if x < y then x else y;
    }
  }

  lemma LeastExists(ids: set<uint64>)
    requires ids != {}
    ensures exists id: uint64 :: id in ids && forall other: uint64 :: other in ids ==> id <= other
  {
    var least := Smallest(ids);
    assert least in ids && forall other :: other in ids ==> least <= other;
  }

  // ----- whole runs of the manager

  function StateAfter(timeout: int, calls: seq<Call>): State {
    if calls == [] then State(map[], map[])
    else Apply(timeout, StateAfter(timeout, calls[..|calls| - 1]), calls[|calls| - 1])
  }

  /** What the i-th call, a commit, returned. */
  ghost predicate CommitSucceeded(timeout: int, calls: seq<Call>, i: nat)
    requires i < |calls| && calls[i].Commit?
  {
    var active := StateAfter(timeout, calls[..i]).active;
    calls[i].id in active && !Expired(active[calls[i].id], calls[i].now, timeout)
  }

  /** Transaction ids come from a database sequence, so no two registrations share one. */
  ghost predicate FreshIds(calls: seq<Call>) {
    forall i, j :: 0 <= i < j < |calls| && calls[i].Register? && calls[j].Register? ==> calls[i].id != calls[j].id
  }

  /** The registrations of a run that overwrote an active transaction which read `s`. */
  function Overwrites(timeout: int, calls: seq<Call>, s: uint64): nat {
    if calls == [] then 0
    else
      var prefix := calls[..|calls| - 1];
      Overwrites(timeout, prefix, s) + if Overwrite(StateAfter(timeout, prefix), calls[|calls| - 1], s) then 1 else 0
  }

  predicate Overwrite(st: State, call: Call, s: uint64) {
    call.Register? && call.id in st.active && st.active[call.id].readSnapshot == s
  }

  /** After any run the pins of a snapshot are its readers and the overwrites it suffered so far: a leaked pin stays. */
  lemma {:induction false} LeakedPinsStay(timeout: int, calls: seq<Call>, s: uint64)
    ensures var st := StateAfter(timeout, calls);
            Covers(st.active, st.pins) && Count(st.pins, s) == |Readers(st.active, s)| + Overwrites(timeout, calls, s)
  {
    if calls != [] {
      var prefix, call := calls[..|calls| - 1], calls[|calls| - 1];
      LeakedPinsStay(timeout, prefix, s);
      CallSurplus(timeout, StateAfter(timeout, prefix), call, s);
    }
  }

  /** One call moves the surplus of a snapshot exactly when it overwrites one of its readers. */
  lemma CallSurplus(timeout: int, st: State, call: Call, s: uint64)
    requires Covers(st.active, st.pins)
    ensures var after := Apply(timeout, st, call);
            && Covers(after.active, after.pins)
            && Surplus(after.active, after.pins, s)
               == Surplus(st.active, st.pins, s) + if Overwrite(st, call, s) then 1 else 0
  {
    match call
    case Register(id, s0, now) =>
      RegisterSurplus(st.active, st.pins, id, Txn(s0, now), s);
      RegisterCovers(st.active, st.pins, id, Txn(s0, now));
    case Commit(id, _) =>
      if id in st.active {
        RemoveCovers(st.active, st.pins, id);
      }
    case Abort(id) =>
      if id in st.active {
        RemoveCovers(st.active, st.pins, id);
      }
    case Cleanup(now) =>
      RemoveAllCovers(st, set t | t in st.active && Expired(st.active[t], now, timeout));
  }

  /** The counts are exact after a run if and only if no call of it registered an active id. */
  lemma PinsAgreeIff(timeout: int, calls: seq<Call>)
    ensures Agrees(StateAfter(timeout, calls).active, StateAfter(timeout, calls).pins)
       <==> forall i :: 0 <= i < |calls| && calls[i].Register? ==> calls[i].id !in StateAfter(timeout, calls[..i]).active
  {
    var st := StateAfter(timeout, calls);
    LeakedPinsStay(timeout, calls, 0);
    AgreesIffExact(st.active, st.pins);
    forall s: uint64
      ensures Surplus(st.active, st.pins, s) == Overwrites(timeout, calls, s)
    {
      LeakedPinsStay(timeout, calls, s);
    }
    if i :| 0 <= i < |calls| && calls[i].Register? && calls[i].id in StateAfter(timeout, calls[..i]).active {
      var s := StateAfter(timeout, calls[..i]).active[calls[i].id].readSnapshot;
      OverwriteCounts(timeout, calls, i, s);
      assert Surplus(st.active, st.pins, s) > 0;
    } else {
      forall s: uint64
        ensures Surplus(st.active, st.pins, s) == 0
      {
        NoOverwrites(timeout, calls, s);
      }
    }
  }

  lemma {:induction false} OverwriteCounts(timeout: int, calls: seq<Call>, i: nat, s: uint64)
    requires i < |calls| && Overwrite(StateAfter(timeout, calls[..i]), calls[i], s)
    ensures Overwrites(timeout, calls, s) > 0
  {
    var prefix := calls[..|calls| - 1];
    if i < |prefix| {
      assert prefix[..i] == calls[..i];
      OverwriteCounts(timeout, prefix, i, s);
    }
  }

  lemma {:induction false} NoOverwrites(timeout: int, calls: seq<Call>, s: uint64)
    requires forall i :: 0 <= i < |calls| && calls[i].Register? ==> calls[i].id !in StateAfter(timeout, calls[..i]).active
    ensures Overwrites(timeout, calls, s) == 0
  {
    if calls != [] {
      var prefix := calls[..|calls| - 1];
      forall i | 0 <= i < |prefix| && prefix[i].Register?
        ensures prefix[i].id !in StateAfter(timeout, prefix[..i]).active
      {
        assert prefix[..i] == calls[..i];
      }
      NoOverwrites(timeout, prefix, s);
    }
  }

  /** An active id was registered by an earlier call. */
  lemma {:induction false} ActiveWasRegistered(timeout: int, calls: seq<Call>, id: uint64) returns (i: nat)
    requires FreshIds(calls) && id in StateAfter(timeout, calls).active
    ensures i < |calls| && calls[i].Register? && calls[i].id == id
  {
    var prefix, call := calls[..|calls| - 1], calls[|calls| - 1];
    if call.Register? && call.id == id {
      i := |prefix|;
    } else {
      if call.Cleanup? {
        LeakedPinsStay(timeout, prefix, 0);
        var st := StateAfter(timeout, prefix);
        RemoveAllCovers(st, set t | t in st.active && Expired(st.active[t], call.now, timeout));
      }
      i := ActiveWasRegistered(timeout, prefix, id);
    }
  }

  /** Over any run with fresh ids the pin counts are the reader counts. */
  lemma PinsAgree(timeout: int, calls: seq<Call>)
    requires FreshIds(calls)
    ensures Agrees(StateAfter(timeout, calls).active, StateAfter(timeout, calls).pins)
  {
    forall i | 0 <= i < |calls| && calls[i].Register?
      ensures calls[i].id !in StateAfter(timeout, calls[..i]).active
    {
      if calls[i].id in StateAfter(timeout, calls[..i]).active {
        var j := ActiveWasRegistered(timeout, calls[..i], calls[i].id);
        assert false;
      }
    }
    PinsAgreeIff(timeout, calls);
  }

  /** Once registered and gone, an id stays gone. */
  lemma {:induction false} GoneStaysGone(timeout: int, calls: seq<Call>, id: uint64, r: nat, i: nat, j: nat)
    requires FreshIds(calls) && r < i <= j <= |calls|
    requires calls[r].Register? && calls[r].id == id
    requires id !in StateAfter(timeout, calls[..i]).active
    ensures id !in StateAfter(timeout, calls[..j]).active
    decreases j - i
  {
    if i < j {
      GoneStaysGone(timeout, calls, id, r, i, j - 1);
      var prefix := calls[..j - 1];
      assert calls[..j][..j - 1] == prefix && calls[..j][j - 1] == calls[j - 1];
      if calls[j - 1].Cleanup? {
        var st := StateAfter(timeout, prefix);
        LeakedPinsStay(timeout, prefix, 0);
        RemoveAllCovers(st, set t | t in st.active && Expired(st.active[t], calls[j - 1].now, timeout));
      }
    }
  }

  /** A commit reports success at most once for an id: whatever happens later, no second one does. */
  lemma CommitSucceedsOnce(timeout: int, calls: seq<Call>, i: nat, j: nat)
    requires FreshIds(calls) && i < j < |calls|
    requires calls[i].Commit? && calls[j].Commit? && calls[i].id == calls[j].id
    requires CommitSucceeded(timeout, calls, i)
    ensures !CommitSucceeded(timeout, calls, j)
  {
    var id := calls[i].id;
    var r := ActiveWasRegistered(timeout, calls[..i], id);
    assert calls[..i + 1][..i] == calls[..i];
    GoneStaysGone(timeout, calls, id, r, i + 1, j);
  }

  /** Once an id is no longer active - aborted, committed, found expired or cleaned up - no commit of it succeeds. */
  lemma RemovedNeverCommits(timeout: int, calls: seq<Call>, r: nat, i: nat, j: nat)
    requires FreshIds(calls) && r < i <= j < |calls|
    requires calls[r].Register? && calls[j].Commit? && calls[r].id == calls[j].id
    requires calls[r].id !in StateAfter(timeout, calls[..i]).active
    ensures !CommitSucceeded(timeout, calls, j)
  {
    GoneStaysGone(timeout, calls, calls[r].id, r, i, j);
  }

  // ----- timing out

  /** A call that ends transaction `id` of start `t0` at once: its commit, its abort, or a cleanup too late for it. */
  predicate Ends(timeout: int, call: Call, id: uint64, t0: int) {
    match call
    case Register(_, _, _) => false
    case Commit(other, _) => other == id
    case Abort(other) => other == id
    case Cleanup(now) => now - t0 > timeout
  }

  lemma CallKeeps(timeout: int, st: State, call: Call, id: uint64, t0: int)
    requires Covers(st.active, st.pins) && id in st.active && st.active[id].startedAt == t0
    requires !Ends(timeout, call, id, t0) && (call.Register? ==> call.id != id)
    ensures var after := Apply(timeout, st, call); id in after.active && after.active[id].startedAt == t0
  {
    if call.Cleanup? {
      RemoveAllCovers(st, set t | t in st.active && Expired(st.active[t], call.now, timeout));
    }
  }

  lemma {:induction false} StaysActive(timeout: int, calls: seq<Call>, r: nat, j: nat)
    requires FreshIds(calls) && r < j <= |calls| && calls[r].Register?
    requires forall m :: r < m < j ==> !Ends(timeout, calls[m], calls[r].id, calls[r].now)
    ensures var active := StateAfter(timeout, calls[..j]).active;
            calls[r].id in active && active[calls[r].id].startedAt == calls[r].now
  {
    var prefix := calls[..j - 1];
    assert calls[..j][..j - 1] == prefix && calls[..j][j - 1] == calls[j - 1];
    if r < j - 1 {
      StaysActive(timeout, calls, r, j - 1);
      LeakedPinsStay(timeout, prefix, 0);
      CallKeeps(timeout, StateAfter(timeout, prefix), calls[j - 1], calls[r].id, calls[r].now);
    }
  }

  /**
    The commit of a registered transaction that nothing has ended before succeeds
    exactly if no more than the timeout has passed since its registration.
   */
  lemma CommitsInTimeIff(timeout: int, calls: seq<Call>, r: nat, j: nat)
    requires FreshIds(calls) && r < j < |calls| && calls[r].Register? && calls[j].Commit? && calls[j].id == calls[r].id
    requires forall m :: r < m < j && (calls[m].Commit? || calls[m].Abort?) ==> calls[m].id != calls[r].id
    requires forall m :: r < m < j && calls[m].Cleanup? ==> calls[m].now - calls[r].now <= timeout
    ensures CommitSucceeded(timeout, calls, j) <==> calls[j].now - calls[r].now <= timeout
  {
    StaysActive(timeout, calls, r, j);
  }

  /** A cleanup ends a transaction exactly if more than the timeout has passed since its registration. */
  lemma CleanupEndsIff(timeout: int, calls: seq<Call>, id: uint64, now: int)
    requires id in StateAfter(timeout, calls).active
    ensures id in StateAfter(timeout, calls + [Cleanup(now)]).active
       <==> now - StateAfter(timeout, calls).active[id].startedAt <= timeout
  {
    var st := StateAfter(timeout, calls);
    assert (calls + [Cleanup(now)])[..|calls|] == calls;
    LeakedPinsStay(timeout, calls, 0);
    RemoveAllCovers(st, set t | t in st.active && Expired(st.active[t], now, timeout));
  }
}
