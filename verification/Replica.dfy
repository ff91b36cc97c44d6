/**
 What a client of the connection stream holds: after every tick exactly the active connections,
 with their current totals up to a drift that is characterised in full.
 */
module Replica {
  import opened ConnectionStream

  ghost predicate IsActive(c: Client, id: Id)
  {
    id in c && c[id].closedAt == 0
  }

  /**
   The client shows as active what the sender has a snapshot of, except for connections in `gone`, which it may know to
   be closed before the sender does.
   */
  ghost predicate SameIds(c: Client, snaps: Snapshots, gone: set<Id>)
  {
    forall id :: (IsActive(c, id) ==> id in snaps) && (id in snaps ==> IsActive(c, id) || id in gone)
  }

  /** A connection whose last tick saw no traffic is shown with no rate. */
  ghost predicate IdleShownIdle(c: Client, snaps: Snapshots)
  {
    forall id :: id in snaps && IsActive(c, id) && !snaps[id].hadTraffic ==> c[id].rate == NO_RATE
  }

  ghost predicate InStep(c: Client, snaps: Snapshots, gone: set<Id>)
  {
    SameIds(c, snaps, gone) && IdleShownIdle(c, snaps)
  }

  ghost function Plus(a: Totals, b: Totals): Totals
  {
    Totals(a.up + b.up, a.down + b.down)
  }

  ghost function Minus(a: Totals, b: Totals): Totals
  {
    Totals(a.up - b.up, a.down - b.down)
  }

  /** The entry the client ends up with after a tick looked at `r`. */
  ghost function Expected(c: Client, snaps: Snapshots, r: Reading): Entry
    requires r.id in snaps ==> r.id in c
  {
    if r.id !in snaps then Entry(NO_RATE, r.sent, 0)
    else
      var d := Delta(r, snaps[r.id]);
      if WentBack(d) then Entry(NO_RATE, c[r.id].totals, 0)
      else Entry(d, Plus(c[r.id].totals, d), 0)
  }

  lemma VisitEffect(c: Client, snaps: Snapshots, r: Reading, gone: set<Id>)
    requires InStep(c, snaps, gone) && r.id !in gone
    ensures var p := Visit(snaps, r);
            var c' := Replay(c, p.events);
            && InStep(c', p.snapshots, gone)
            && (r.id in snaps ==> IsActive(c, r.id))
            && r.id in c' && c'[r.id] == Expected(c, snaps, r)
            && r.id in p.snapshots && p.snapshots[r.id].totals == r.seen
            && p.snapshots - {r.id} == snaps - {r.id}
            && c' - {r.id} == c - {r.id}
  {
    var p := Visit(snaps, r);
    ReplayShort(c, p.events);
    assert r.id in snaps ==> IsActive(c, r.id);
  }

  lemma ReplayShort(c: Client, events: seq<Event>)
    requires |events| <= 1
    ensures Replay(c, events) == if events == [] then c else ApplyOne(c, events[0])
  {
    if events != [] {
      assert events[..0] == [];
    }
  }

  lemma {:induction false} ReplayConcat(c: Client, a: seq<Event>, b: seq<Event>)
    ensures Replay(c, a + b) == Replay(Replay(c, a), b)
    decreases |b|
  {
    if b == [] {
      assert a + b == a;
    } else {
      var last := |b| - 1;
      ReplayConcat(c, a, b[..last]);
      assert (a + b)[..|a + b| - 1] == a + b[..last];
    }
  }

  /** After visiting: every visited connection as expected, everything else untouched. */
  ghost predicate VisitedWell(c: Client, snaps: Snapshots, active: seq<Reading>, c': Client, snaps': Snapshots,
      gone: set<Id>)
  {
    && InStep(c', snaps', gone)
    && (forall i :: 0 <= i < |active| ==>
          && (active[i].id in snaps ==> active[i].id in c)
          && active[i].id in c' && c'[active[i].id] == Expected(c, snaps, active[i])
          && active[i].id in snaps' && snaps'[active[i].id].totals == active[i].seen)
    && (forall id :: id !in IdsOf(active) ==> (id in c' <==> id in c) && (id in c ==> c'[id] == c[id]))
    && (forall id :: id !in IdsOf(active) ==>
       (id in snaps' <==> id in snaps) && (id in snaps ==> snaps'[id] == snaps[id]))
  }

  lemma VisitOneMore(c: Client, snaps: Snapshots, active: seq<Reading>, c1: Client, snaps1: Snapshots, gone: set<Id>)
    requires active != [] && DistinctIds(active) && IdsOf(active) !! gone
    requires VisitedWell(c, snaps, active[..|active| - 1], c1, snaps1, gone)
    ensures var p := Visit(snaps1, active[|active| - 1]);
            VisitedWell(c, snaps, active, Replay(c1, p.events), p.snapshots, gone)
  {
    var last := |active| - 1;
    var front := active[..last];
    var r := active[last];
    assert active[last].id in IdsOf(active);
    VisitEffect(c1, snaps1, r, gone);
    assert active[..last + 1] == active;
    IdsOfOneMore(active, last);
    assert r.id !in IdsOf(front);
    var p := Visit(snaps1, r);
    var c' := Replay(c1, p.events);
    Untouched(c1, c', r.id);
    Untouched(snaps1, p.snapshots, r.id);
    forall i | 0 <= i < |active|
      ensures (active[i].id in snaps ==> active[i].id in c)
      ensures active[i].id in c' && c'[active[i].id] == Expected(c, snaps, active[i])
      ensures active[i].id in p.snapshots && p.snapshots[active[i].id].totals == active[i].seen
    {
      if i < last {
        assert front[i] == active[i];
      }
    }
  }

  lemma Untouched<T>(c: map<Id, T>, c': map<Id, T>, id: Id)
    requires c' - {id} == c - {id}
    ensures forall k :: k != id ==> (k in c' <==> k in c) && (k in c ==> c'[k] == c[k])
  {
    forall k | k != id ensures (k in c' <==> k in c) && (k in c ==> c'[k] == c[k]) {
      assert (k in c' <==> k in c' - {id}) && (k in c <==> k in c - {id});
      assert k in c' ==> (c' - {id})[k] == c'[k];
    }
  }

  lemma {:induction false} VisitAllEffect(c: Client, snaps: Snapshots, active: seq<Reading>, gone: set<Id>)
    requires InStep(c, snaps, gone) && DistinctIds(active) && IdsOf(active) !! gone
    ensures var p := VisitAll(snaps, active);
            VisitedWell(c, snaps, active, Replay(c, p.events), p.snapshots, gone)
    decreases |active|
  {
    if active != [] {
      var front := active[..|active| - 1];
      assert active[..|active| - 1 + 1] == active;
      IdsOfOneMore(active, |active| - 1);
      VisitAllEffect(c, snaps, front, gone);
      var before := VisitAll(snaps, front);
      VisitOneMore(c, snaps, active, Replay(c, before.events), before.snapshots, gone);
      ReplayConcat(c, before.events, Visit(before.snapshots, active[|active| - 1]).events);
    }
  }

  /** Closing events make exactly their ids inactive. */
  lemma {:induction false} ClosingsEffect(c: Client, order: seq<Id>, closed: map<Id, ClosedConnection>, now: Millis)
    ensures var c' := Replay(c, Closings(order, closed, now));
            forall id :: if id in order then !IsActive(c', id)
                else (id in c' <==> id in c) && (id in c ==> c'[id] == c[id])
    decreases |order|
  {
    var events := Closings(order, closed, now);
    if order != [] {
      var last := |order| - 1;
      ClosingsEffect(c, order[..last], closed, now);
      assert events[..last] == Closings(order[..last], closed, now);
      assert order == order[..last] + [order[last]];
    }
  }

  /** Evicting old closed entries changes nothing that is shown as active. */
  lemma EvictKeepsActive(c: Client, now: int)
    ensures forall id :: IsActive(Evict(c, now), id) <==> IsActive(c, id)
    ensures forall id :: IsActive(c, id) ==> Evict(c, now)[id] == c[id]
  {
  }

  // ----- whole runs -----

  datatype World = World(snaps: Snapshots, client: Client)

  /** A batch from the queue, or a tick; `clientNow` is when the client evicts. */
  datatype Op =
    | Deliver(batch: seq<Announcement>, now: Millis, clientNow: int)
    | Tick(active: seq<Reading>, closed: map<Id, ClosedConnection>, now: Millis, order: seq<Id>, clientNow: int)

  function AnnounceAll(snaps: Snapshots, batch: seq<Announcement>, now: Millis): Pass
  {
    if batch == [] then Pass([], snaps)
    else
      var before := AnnounceAll(snaps, batch[..|batch| - 1], now);
      var last := Announce(before.snapshots, batch[|batch| - 1], now);
      Pass(before.events + last.events, last.snapshots)
  }

  /** An empty batch of events is not sent. */
  ghost function Receive(c: Client, events: seq<Event>, clientNow: int): Client
  {
    if events == [] then c else Evict(Replay(c, events), clientNow)
  }

  /** A tick lists each connection once, and none of those in `gone`: a closed connection does not come back. */
  ghost predicate Possible(w: World, op: Op, gone: set<Id>)
  {
    op.Tick? ==> DistinctIds(op.active) && ListsStale(op.order, w.snaps, op.active) && IdsOf(op.active) !! gone
  }

  ghost function After(w: World, op: Op): World
  {
    match op
    case Deliver(batch, now, clientNow) =>
      var p := AnnounceAll(w.snaps, batch, now);
      World(p.snapshots, Receive(w.client, p.events, clientNow))
    case Tick(active, closed, now, order, clientNow) =>
      var p := TickPass(w.snaps, active, closed, now, order);
      World(p.snapshots, Receive(w.client, p.events, clientNow))
  }

  /** How far the client's totals of `id` are from the sender's snapshot. */
  ghost function Drift(w: World, id: Id): Totals
    requires id in w.snaps && id in w.client
  {
    Minus(w.client[id].totals, w.snaps[id].totals)
  }

  /**
   The drift a tick leaves: of a new connection what flowed between the two loads, of a known one what it had, plus any
   step back.
   */
  ghost function DriftAfter(w: World, r: Reading): Totals
    requires r.id in w.snaps ==> r.id in w.client
  {
    if r.id !in w.snaps then Minus(r.sent, r.seen)
    else if WentBack(Delta(r, w.snaps[r.id])) then Minus(w.client[r.id].totals, r.seen)
    else Drift(w, r.id)
  }

  lemma ReceiveShows(c: Client, events: seq<Event>, clientNow: int)
    ensures forall id :: IsActive(Receive(c, events, clientNow), id) <==> IsActive(Replay(c, events), id)
    ensures forall id :: IsActive(Replay(c, events), id) ==> Receive(c, events, clientNow)[id] == Replay(c, events)[id]
  {
    EvictKeepsActive(Replay(c, events), clientNow);
  }

  lemma InStepReceived(c: Client, events: seq<Event>, clientNow: int, snaps: Snapshots, gone: set<Id>)
    requires InStep(Replay(c, events), snaps, gone)
    ensures InStep(Receive(c, events, clientNow), snaps, gone)
  {
    ReceiveShows(c, events, clientNow);
    var c' := Receive(c, events, clientNow);
    forall id | id in snaps && IsActive(c', id) && !snaps[id].hadTraffic ensures c'[id].rate == NO_RATE {
      assert IsActive(Replay(c, events), id);
    }
  }

  /** The state after a tick over `active`, as the world `w` before it determines it. */
  ghost predicate Shows(w: World, active: seq<Reading>, c: Client, snaps: Snapshots)
  {
    && InStep(c, snaps, {})
    && (forall id :: IsActive(c, id) <==> id in IdsOf(active))
    && (forall i :: 0 <= i < |active| ==> ShowsReading(w, active[i], c, snaps))
  }

  ghost predicate ShowsReading(w: World, r: Reading, c: Client, snaps: Snapshots)
  {
    && (r.id in w.snaps ==> r.id in w.client)
    && IsActive(c, r.id)
    && r.id in snaps && snaps[r.id].totals == r.seen
    && c[r.id] == Expected(w.client, w.snaps, r)
  }

  lemma TickReplayed(w: World, op: Op, gone: set<Id>)
    requires InStep(w.client, w.snaps, gone) && op.Tick? && Possible(w, op, gone)
    ensures var p := TickPass(w.snaps, op.active, op.closed, op.now, op.order);
            Shows(w, op.active, Replay(w.client, p.events), p.snapshots)
  {
    var p := TickPass(w.snaps, op.active, op.closed, op.now, op.order);
    var visited := VisitAll(w.snaps, op.active);
    var c1 := Replay(w.client, visited.events);
    var c2 := Replay(c1, Closings(op.order, op.closed, op.now));
    VisitAllEffect(w.client, w.snaps, op.active, gone);
    VisitedKeys(w.snaps, op.active);
    ClosingsEffect(c1, op.order, op.closed, op.now);
    ReplayConcat(w.client, visited.events, Closings(op.order, op.closed, op.now));
    TickAgrees(c1, c2, visited.snapshots, p.snapshots, op, gone);
    forall i | 0 <= i < |op.active| ensures ShowsReading(w, op.active[i], c2, p.snapshots) {
      assert op.active[i].id in IdsOf(op.active);
    }
  }

  lemma ShownReceived(w: World, active: seq<Reading>, events: seq<Event>, clientNow: int, snaps: Snapshots)
    requires Shows(w, active, Replay(w.client, events), snaps)
    ensures Shows(w, active, Receive(w.client, events, clientNow), snaps)
  {
    ReceiveShows(w.client, events, clientNow);
    InStepReceived(w.client, events, clientNow, snaps, {});
    forall i | 0 <= i < |active| ensures ShowsReading(w, active[i], Receive(w.client, events, clientNow), snaps) {
      assert ShowsReading(w, active[i], Replay(w.client, events), snaps);
    }
  }

  /**
   After every tick the client shows exactly the manager's active connections, each with the rate
   since the previous tick and its current totals plus the drift.
   */
  lemma TickShowsTheManager(w: World, op: Op, gone: set<Id>)
    requires InStep(w.client, w.snaps, gone) && op.Tick? && Possible(w, op, gone)
    ensures Shows(w, op.active, After(w, op).client, After(w, op).snaps)
    ensures forall i :: 0 <= i < |op.active| ==>
              ShowsReading(w, op.active[i], After(w, op).client, After(w, op).snaps)
              && After(w, op).client[op.active[i].id].totals == Plus(op.active[i].seen, DriftAfter(w, op.active[i]))
  {
    TickReplayed(w, op, gone);
    var p := TickPass(w.snaps, op.active, op.closed, op.now, op.order);
    ShownReceived(w, op.active, p.events, op.clientNow, p.snapshots);
  }

  lemma TickAgrees(c1: Client, c2: Client, snaps1: Snapshots, snaps2: Snapshots, op: Op, gone: set<Id>)
    requires op.Tick? && InStep(c1, snaps1, gone) && IdsOf(op.active) !! gone
    requires snaps2 == snaps1 - (set id | id in op.order)
    requires IdsOf(op.active) <= snaps1.Keys
    requires forall id :: id in op.order <==> id in snaps1 && id !in IdsOf(op.active)
    requires forall id :: if id in op.order then !IsActive(c2, id)
               else (id in c2 <==> id in c1) && (id in c1 ==> c2[id] == c1[id])
    ensures InStep(c2, snaps2, {})
    ensures forall id :: IsActive(c2, id) <==> id in IdsOf(op.active)
    ensures forall id :: id in IdsOf(op.active) ==>
              id in c1 && id in c2 && c2[id] == c1[id] && id in snaps2 && snaps2[id] == snaps1[id]
  {
    forall id ensures id in snaps2 <==> id in IdsOf(op.active) {
    }
    forall id ensures IsActive(c2, id) <==> id in IdsOf(op.active) {
      assert (IsActive(c1, id) ==> id in snaps1) && (id in snaps1 ==> IsActive(c1, id) || id in gone);
    }
    forall id | id in IdsOf(op.active) ensures id in c1 && id in c2 && c2[id] == c1[id] && id in snaps2
        && snaps2[id] == snaps1[id] {
      assert IsActive(c1, id);
    }
  }

  lemma AnnounceKeepsInStep(c: Client, snaps: Snapshots, a: Announcement, now: Millis, gone: set<Id>)
    requires InStep(c, snaps, gone)
    ensures var p := Announce(snaps, a, now);
            InStep(Replay(c, p.events), p.snapshots, gone)
  {
    var p := Announce(snaps, a, now);
    ReplayShort(c, p.events);
  }

  lemma {:induction false} BatchKeepsInStep(c: Client, snaps: Snapshots, batch: seq<Announcement>, now: Millis,
      gone: set<Id>)
    requires InStep(c, snaps, gone)
    ensures var p := AnnounceAll(snaps, batch, now);
            InStep(Replay(c, p.events), p.snapshots, gone)
    decreases |batch|
  {
    if batch != [] {
      var front := batch[..|batch| - 1];
      BatchKeepsInStep(c, snaps, front, now, gone);
      var before := AnnounceAll(snaps, front, now);
      var last := Announce(before.snapshots, batch[|batch| - 1], now);
      AnnounceKeepsInStep(Replay(c, before.events), before.snapshots, batch[|batch| - 1], now, gone);
      ReplayConcat(c, before.events, last.events);
    }
  }

  lemma OpKeepsInStep(w: World, op: Op, gone: set<Id>)
    requires InStep(w.client, w.snaps, gone) && Possible(w, op, gone)
    ensures InStep(After(w, op).client, After(w, op).snaps, gone)
  {
    if op.Tick? {
      TickShowsTheManager(w, op, gone);
    } else {
      BatchKeepsInStep(w.client, w.snaps, op.batch, op.now, gone);
      InStepReceived(w.client, AnnounceAll(w.snaps, op.batch, op.now).events, op.clientNow, After(w, op).snaps, gone);
    }
  }

  ghost function RunOps(w: World, ops: seq<Op>): World
  {
    if ops == [] then w else After(RunOps(w, ops[..|ops| - 1]), ops[|ops| - 1])
  }

  ghost predicate PossibleRun(w: World, ops: seq<Op>, gone: set<Id>)
  {
    ops == [] || (PossibleRun(w, ops[..|ops| - 1], gone) && Possible(RunOps(w, ops[..|ops| - 1]), ops[|ops| - 1], gone))
  }

  lemma {:induction false} RunKeepsInStep(w: World, ops: seq<Op>, gone: set<Id>)
    requires InStep(w.client, w.snaps, gone) && PossibleRun(w, ops, gone)
    ensures InStep(RunOps(w, ops).client, RunOps(w, ops).snaps, gone)
    decreases |ops|
  {
    if ops != [] {
      RunKeepsInStep(w, ops[..|ops| - 1], gone);
      OpKeepsInStep(RunOps(w, ops[..|ops| - 1]), ops[|ops| - 1], gone);
    }
  }

  // ----- when the totals are exact -----

  ghost predicate NoDrift(w: World)
  {
    forall id :: id in w.snaps && IsActive(w.client, id) ==> w.client[id].totals == w.snaps[id].totals
  }

  /** Both loads agree. */
  ghost predicate Atomic(r: Reading)
  {
    r.sent == r.seen
  }

  ghost predicate AtomicAnnouncement(a: Announcement)
  {
    a.Joined? ==> Atomic(a.reading)
  }

  /** Loads are atomic and no counter is behind its snapshot. */
  ghost predicate Orderly(w: World, op: Op)
  {
    match op
    case Deliver(batch, _, _) => forall i :: 0 <= i < |batch| ==> AtomicAnnouncement(batch[i])
    case Tick(active, _, _, _, _) =>
      forall i :: 0 <= i < |active| ==>
          Atomic(active[i]) && (active[i].id in w.snaps ==> !WentBack(Delta(active[i], w.snaps[active[i].id])))
  }

  lemma AnnounceKeepsNoDrift(c: Client, snaps: Snapshots, a: Announcement, now: Millis)
    requires NoDrift(World(snaps, c)) && AtomicAnnouncement(a)
    ensures var p := Announce(snaps, a, now);
            NoDrift(World(p.snapshots, Replay(c, p.events)))
  {
    var p := Announce(snaps, a, now);
    ReplayShort(c, p.events);
  }

  lemma {:induction false} BatchKeepsNoDrift(c: Client, snaps: Snapshots, batch: seq<Announcement>, now: Millis)
    requires NoDrift(World(snaps, c)) && forall i :: 0 <= i < |batch| ==> AtomicAnnouncement(batch[i])
    ensures var p := AnnounceAll(snaps, batch, now);
            NoDrift(World(p.snapshots, Replay(c, p.events)))
    decreases |batch|
  {
    if batch != [] {
      var front := batch[..|batch| - 1];
      BatchKeepsNoDrift(c, snaps, front, now);
      var before := AnnounceAll(snaps, front, now);
      AnnounceKeepsNoDrift(Replay(c, before.events), before.snapshots, batch[|batch| - 1], now);
      ReplayConcat(c, before.events, Announce(before.snapshots, batch[|batch| - 1], now).events);
    }
  }

  lemma NoDriftReceived(c: Client, events: seq<Event>, clientNow: int, snaps: Snapshots)
    requires NoDrift(World(snaps, Replay(c, events)))
    ensures NoDrift(World(snaps, Receive(c, events, clientNow)))
  {
  }

  lemma OpKeepsNoDrift(w: World, op: Op, gone: set<Id>)
    requires InStep(w.client, w.snaps, gone) && Possible(w, op, gone) && Orderly(w, op) && NoDrift(w)
    ensures NoDrift(After(w, op))
  {
    if op.Deliver? {
      BatchKeepsNoDrift(w.client, w.snaps, op.batch, op.now);
      NoDriftReceived(w.client, AnnounceAll(w.snaps, op.batch, op.now).events, op.clientNow, After(w, op).snaps);
    } else {
      TickShowsTheManager(w, op, gone);
      var w' := After(w, op);
      forall id | id in w'.snaps && IsActive(w'.client, id) ensures w'.client[id].totals == w'.snaps[id].totals {
        var i :| 0 <= i < |op.active| && op.active[i].id == id;
        assert op.active[i].id in w.snaps ==> IsActive(w.client, op.active[i].id);
      }
    }
  }

  // ----- counters that only grow -----

  /** The counters of every connection at every time. */
  type Counters = (Id, nat) -> Totals

  ghost predicate AtMost(a: Totals, b: Totals)
  {
    a.up <= b.up && a.down <= b.down
  }

  ghost predicate NonDecreasing(counters: Counters)
  {
    forall id, j: nat, k: nat {:trigger counters(id, j), counters(id, k)} :: j <= k ==>
        AtMost(counters(id, j), counters(id, k))
  }

  /** A reading taken at time `t`, both loads at once. */
  ghost predicate TakenAt(counters: Counters, r: Reading, t: nat)
  {
    r.seen == counters(r.id, t) && r.sent == counters(r.id, t)
  }

  ghost predicate OpTakenAt(counters: Counters, op: Op, t: nat)
  {
    match op
    case Deliver(batch, _, _) => forall i :: 0 <= i < |batch| && batch[i].Joined? ==>
        TakenAt(counters, batch[i].reading, t)
    case Tick(active, _, _, _, _) => forall i :: 0 <= i < |active| ==> TakenAt(counters, active[i], t)
  }

  /** Step number `k` of the run reads the counters at time `k + 1`; the first message read them at time 0. */
  ghost predicate RunTaken(counters: Counters, ops: seq<Op>)
  {
    forall k :: 0 <= k < |ops| ==> OpTakenAt(counters, ops[k], k + 1)
  }

  /** No snapshot is ahead of its counter. */
  ghost predicate SnapshotsBehind(counters: Counters, snaps: Snapshots, t: nat)
  {
    forall id :: id in snaps ==> AtMost(snaps[id].totals, counters(id, t))
  }

  lemma {:induction false} BatchStaysBehind(counters: Counters, snaps: Snapshots, batch: seq<Announcement>,
      now: Millis, t: nat)
    requires SnapshotsBehind(counters, snaps, t)
    requires forall i :: 0 <= i < |batch| && batch[i].Joined? ==> TakenAt(counters, batch[i].reading, t)
    ensures SnapshotsBehind(counters, AnnounceAll(snaps, batch, now).snapshots, t)
    decreases |batch|
  {
    if batch != [] {
      BatchStaysBehind(counters, snaps, batch[..|batch| - 1], now, t);
    }
  }

  lemma OpStaysBehind(counters: Counters, w: World, op: Op, gone: set<Id>, t: nat)
    requires InStep(w.client, w.snaps, gone) && Possible(w, op, gone)
    requires SnapshotsBehind(counters, w.snaps, t) && OpTakenAt(counters, op, t)
    ensures SnapshotsBehind(counters, After(w, op).snaps, t) && Orderly(w, op)
  {
    if op.Deliver? {
      BatchStaysBehind(counters, w.snaps, op.batch, op.now, t);
    } else {
      TickShowsTheManager(w, op, gone);
      var snaps' := After(w, op).snaps;
      forall id | id in snaps' ensures AtMost(snaps'[id].totals, counters(id, t)) {
        var i :| 0 <= i < |op.active| && op.active[i].id == id;
        assert ShowsReading(w, op.active[i], After(w, op).client, snaps');
      }
    }
  }

  lemma TimePasses(counters: Counters, snaps: Snapshots, t: nat)
    requires NonDecreasing(counters) && SnapshotsBehind(counters, snaps, t)
    ensures SnapshotsBehind(counters, snaps, t + 1)
  {
    forall id | id in snaps ensures AtMost(snaps[id].totals, counters(id, t + 1)) {
      assert AtMost(counters(id, t), counters(id, t + 1));
    }
  }

  /** With counters that never go back and loads at one time, no run introduces a drift, and no snapshot gets ahead. */
  lemma {:induction false} RunKeepsNoDrift(counters: Counters, w: World, ops: seq<Op>, gone: set<Id>)
    requires InStep(w.client, w.snaps, gone) && PossibleRun(w, ops, gone) && NoDrift(w)
    requires NonDecreasing(counters) && SnapshotsBehind(counters, w.snaps, 0) && RunTaken(counters, ops)
    ensures NoDrift(RunOps(w, ops)) && SnapshotsBehind(counters, RunOps(w, ops).snaps, |ops|)
    decreases |ops|
  {
    if ops != [] {
      var front, last := ops[..|ops| - 1], |ops| - 1;
      assert forall k :: 0 <= k < |front| ==> front[k] == ops[k];
      RunKeepsNoDrift(counters, w, front, gone);
      RunKeepsInStep(w, front, gone);
      var before := RunOps(w, front);
      TimePasses(counters, before.snaps, last);
      OpStaysBehind(counters, before, ops[last], gone, last + 1);
      OpKeepsNoDrift(before, ops[last], gone);
    }
  }

  /** The client's active list, with the totals it shows. */
  ghost predicate Mirrors(c: Client, active: seq<Reading>)
  {
    && (forall id :: IsActive(c, id) <==> id in IdsOf(active))
    && (forall i :: 0 <= i < |active| ==> active[i].id in c && c[active[i].id].totals == active[i].seen)
  }

  /**
   However the queue lost, repeated or reordered announcements: after every tick of such a run the client mirrors the
   manager.
   */
  lemma TickResynchronises(counters: Counters, w: World, ops: seq<Op>, tick: Op, gone: set<Id>)
    requires InStep(w.client, w.snaps, gone) && PossibleRun(w, ops, gone) && NoDrift(w)
    requires NonDecreasing(counters) && SnapshotsBehind(counters, w.snaps, 0) && RunTaken(counters, ops)
    requires tick.Tick? && Possible(RunOps(w, ops), tick, gone) && OpTakenAt(counters, tick, |ops| + 1)
    ensures Mirrors(After(RunOps(w, ops), tick).client, tick.active)
  {
    RunKeepsInStep(w, ops, gone);
    RunKeepsNoDrift(counters, w, ops, gone);
    var now := RunOps(w, ops);
    TimePasses(counters, now.snaps, |ops|);
    OpStaysBehind(counters, now, tick, gone, |ops| + 1);
    TickShowsTheManager(now, tick, gone);
    OpKeepsNoDrift(now, tick, gone);
  }

  /** Without that assumption: a tick leaves the client exact precisely when no connection drifts. */
  lemma TickIsExactWithoutDrift(w: World, tick: Op, gone: set<Id>)
    requires InStep(w.client, w.snaps, gone) && tick.Tick? && Possible(w, tick, gone)
    ensures (forall i :: 0 <= i < |tick.active| && tick.active[i].id in w.snaps ==> tick.active[i].id in w.client)
    ensures Mirrors(After(w, tick).client, tick.active) <==> forall i :: 0 <= i < |tick.active| ==>
              DriftAfter(w, tick.active[i]) == NO_RATE
  {
    TickShowsTheManager(w, tick, gone);
    var w' := After(w, tick);
    if Mirrors(w'.client, tick.active) {
      forall i | 0 <= i < |tick.active| ensures DriftAfter(w, tick.active[i]) == NO_RATE {
        assert w'.client[tick.active[i].id].totals == tick.active[i].seen;
      }
    }
  }

  // ----- the first message -----

  /** What the first message tells of the active connections, and what the sender remembers of them. */
  ghost predicate StartsWith(active: seq<Reading>, c: Client, s: Snapshots)
  {
    && s.Keys == IdsOf(active)
    && c.Keys == IdsOf(active)
    && (forall i :: 0 <= i < |active| ==>
          && active[i].id in s && s[active[i].id] == Snapshot(active[i].seen, false)
          && active[i].id in c && c[active[i].id] == Entry(NO_RATE, active[i].sent, 0))
  }

  lemma StartsWithOneMore(active: seq<Reading>, c: Client, s: Snapshots)
    requires active != [] && DistinctIds(active) && StartsWith(active[..|active| - 1], c, s)
    ensures var r := active[|active| - 1];
            StartsWith(active, c[r.id := Entry(NO_RATE, r.sent, 0)], s[r.id := Snapshot(r.seen, false)])
  {
    var last := |active| - 1;
    assert active[..last + 1] == active;
    IdsOfOneMore(active, last);
    var r := active[last];
    var c', s' := c[r.id := Entry(NO_RATE, r.sent, 0)], s[r.id := Snapshot(r.seen, false)];
    assert s'.Keys == s.Keys + {r.id} && c'.Keys == c.Keys + {r.id};
    forall i | 0 <= i < |active|
      ensures active[i].id in s' && s'[active[i].id] == Snapshot(active[i].seen, false)
      ensures active[i].id in c' && c'[active[i].id] == Entry(NO_RATE, active[i].sent, 0)
    {
      if i < last {
        assert active[i] == active[..last][i] && active[i].id != r.id;
      }
    }
  }

  lemma {:induction false} InitialActive(active: seq<Reading>)
    requires DistinctIds(active)
    ensures StartsWith(active, Replay(map[], InitialEvents(active, [])), InitialSnapshots(active))
    decreases |active|
  {
    if active != [] {
      var front := active[..|active| - 1];
      var r := active[|active| - 1];
      InitialActive(front);
      var before := InitialEvents(front, []);
      StartsWithOneMore(active, Replay(map[], before), InitialSnapshots(front));
      assert InitialEvents(active, []) == before + [New(r.id, Proto(r.sent, 0))];
      assert InitialEvents(active, [])[..|before|] == before;
    }
  }

  ghost function ClosedIds(closed: seq<ClosedConnection>): set<Id>
  {
    set i | 0 <= i < |closed| :: closed[i].id
  }

  /** After the first message the client shows as active exactly the active connections not listed as closed too. */
  lemma {:induction false} InitialClosed(active: seq<Reading>, closed: seq<ClosedConnection>)
    requires DistinctIds(active) && forall i :: 0 <= i < |closed| ==> closed[i].closedAt.Some?
    ensures var c0 := Replay(map[], InitialEvents(active, []));
            var c := Replay(map[], InitialEvents(active, closed));
            && (forall id :: IsActive(c, id) <==> id in IdsOf(active) && id !in ClosedIds(closed))
            && (forall id :: IsActive(c, id) ==> id in c0 && c[id] == c0[id])
    decreases |closed|
  {
    InitialActive(active);
    if closed == [] {
      assert ClosedIds(closed) == {};
    } else {
      var last := |closed| - 1;
      var front := closed[..last];
      InitialClosed(active, front);
      assert ClosedIds(closed) == ClosedIds(front) + {closed[last].id};
      var e := New(closed[last].id, Proto(closed[last].totals, closed[last].closedAt.value));
      assert InitialEvents(active, closed) == InitialEvents(active, front) + [e];
      assert (InitialEvents(active, front) + [e])[..|InitialEvents(active, front)|] == InitialEvents(active, front);
    }
  }

  /** Sender and client after the first message, which the client takes in like any other. */
  ghost function Start(active: seq<Reading>, closed: seq<ClosedConnection>, clientNow: int): World
    requires forall i :: 0 <= i < |closed| ==> closed[i].closedAt.Some?
  {
    World(InitialSnapshots(active), Evict(Replay(map[], InitialEvents(active, closed)), clientNow))
  }

  /**
   A client that starts from the first message is in step but for the connections that closed
   between the two reads and so are in both lists; it is in step entirely if and only if there is
   none. It is exact when its loads were atomic.
   */
  lemma SubscriptionStartsInStep(active: seq<Reading>, closed: seq<ClosedConnection>, clientNow: int)
    requires DistinctIds(active) && forall i :: 0 <= i < |closed| ==> closed[i].closedAt.Some?
    ensures var w := Start(active, closed, clientNow);
            && InStep(w.client, w.snaps, IdsOf(active) * ClosedIds(closed))
            && (InStep(w.client, w.snaps, {}) <==> IdsOf(active) !! ClosedIds(closed))
            && ((forall i :: 0 <= i < |active| ==> Atomic(active[i])) ==> NoDrift(w))
  {
    InitialActive(active);
    InitialClosed(active, closed);
    EvictKeepsActive(Replay(map[], InitialEvents(active, closed)), clientNow);
    var w := Start(active, closed, clientNow);
    forall id | id in w.snaps && IsActive(w.client, id)
      ensures w.client[id].rate == NO_RATE
      ensures (forall i :: 0 <= i < |active| ==> Atomic(active[i])) ==> w.client[id].totals == w.snaps[id].totals
    {
      var i :| 0 <= i < |active| && active[i].id == id;
    }
    if InStep(w.client, w.snaps, {}) {
      forall id ensures !(id in IdsOf(active) && id in ClosedIds(closed)) {
        assert id in IdsOf(active) ==> id in w.snaps;
        assert id in w.snaps ==> IsActive(w.client, id);
      }
    }
  }

  lemma StartsBehind(counters: Counters, active: seq<Reading>)
    requires DistinctIds(active) && forall i :: 0 <= i < |active| ==> TakenAt(counters, active[i], 0)
    ensures SnapshotsBehind(counters, InitialSnapshots(active), 0)
  {
    InitialActive(active);
    forall id | id in InitialSnapshots(active) ensures AtMost(InitialSnapshots(active)[id].totals, counters(id, 0)) {
      var i :| 0 <= i < |active| && active[i].id == id;
    }
  }

  /**
   The whole life of a subscription: from its first message, over any run of queue batches and ticks
   in which announcements are lost, repeated or reordered, the client holds after every tick exactly
   the active connections with their current counters; given counters that never go back, loads at
   one time, and closed connections that stay closed.
   */
  lemma EveryTickResynchronises(
    counters: Counters, active: seq<Reading>, closed: seq<ClosedConnection>, clientNow: int, ops: seq<Op>, tick: Op)
    requires DistinctIds(active) && forall i :: 0 <= i < |closed| ==> closed[i].closedAt.Some?
    requires NonDecreasing(counters) && (forall i :: 0 <= i < |active| ==> TakenAt(counters, active[i], 0))
    requires RunTaken(counters, ops) && OpTakenAt(counters, tick, |ops| + 1)
    requires var gone := IdsOf(active) * ClosedIds(closed);
             var w := Start(active, closed, clientNow);
             PossibleRun(w, ops, gone) && tick.Tick? && Possible(RunOps(w, ops), tick, gone)
    ensures var c := After(RunOps(Start(active, closed, clientNow), ops), tick).client;
            && (forall id :: IsActive(c, id) <==> id in IdsOf(tick.active))
            && (forall id :: IsActive(c, id) ==> c[id].totals == counters(id, |ops| + 1))
  {
    var w, gone := Start(active, closed, clientNow), IdsOf(active) * ClosedIds(closed);
    SubscriptionStartsInStep(active, closed, clientNow);
    StartsBehind(counters, active);
    TickResynchronises(counters, w, ops, tick, gone);
    var c := After(RunOps(w, ops), tick).client;
    forall id | IsActive(c, id) ensures c[id].totals == counters(id, |ops| + 1) {
      var i :| 0 <= i < |tick.active| && tick.active[i].id == id;
      assert TakenAt(counters, tick.active[i], |ops| + 1);
    }
  }

  // ----- a drift stays -----

  /**
   A step that leaves `id` alive: it is not announced as left, and a tick lists it, with counters that did not go back.
   */
  ghost predicate Steady(w: World, op: Op, id: Id)
  {
    match op
    case Deliver(batch, _, _) => forall i :: 0 <= i < |batch| ==> !(batch[i].Left? && batch[i].id == id)
    case Tick(active, _, _, _, _) =>
      exists i :: 0 <= i < |active| && active[i].id == id
          && (id in w.snaps ==> !WentBack(Delta(active[i], w.snaps[id])))
  }

  ghost predicate SteadyRun(w: World, ops: seq<Op>, id: Id)
  {
    ops == [] || (SteadyRun(w, ops[..|ops| - 1], id) && Steady(RunOps(w, ops[..|ops| - 1]), ops[|ops| - 1], id))
  }

  /** What the sender remembers of `id`, and what the client shows of it, are unchanged. */
  ghost predicate SameOf(c: Client, snaps: Snapshots, c': Client, snaps': Snapshots, id: Id)
  {
    && id in snaps && id in snaps' && snaps'[id] == snaps[id]
    && IsActive(c, id) && IsActive(c', id) && c'[id] == c[id]
  }

  lemma AnnounceLeavesAlone(c: Client, snaps: Snapshots, a: Announcement, now: Millis, id: Id)
    requires id in snaps && IsActive(c, id) && !(a.Left? && a.id == id)
    ensures var p := Announce(snaps, a, now);
            SameOf(c, snaps, Replay(c, p.events), p.snapshots, id)
  {
    ReplayShort(c, Announce(snaps, a, now).events);
  }

  lemma {:induction false} BatchLeavesAlone(c: Client, snaps: Snapshots, batch: seq<Announcement>, now: Millis, id: Id)
    requires id in snaps && IsActive(c, id)
    requires forall i :: 0 <= i < |batch| ==> !(batch[i].Left? && batch[i].id == id)
    ensures var p := AnnounceAll(snaps, batch, now);
            SameOf(c, snaps, Replay(c, p.events), p.snapshots, id)
    decreases |batch|
  {
    if batch != [] {
      var front := batch[..|batch| - 1];
      BatchLeavesAlone(c, snaps, front, now, id);
      var before := AnnounceAll(snaps, front, now);
      AnnounceLeavesAlone(Replay(c, before.events), before.snapshots, batch[|batch| - 1], now, id);
      ReplayConcat(c, before.events, Announce(before.snapshots, batch[|batch| - 1], now).events);
    }
  }

  lemma OpKeepsDrift(w: World, op: Op, gone: set<Id>, id: Id)
    requires InStep(w.client, w.snaps, gone) && Possible(w, op, gone) && Steady(w, op, id)
    requires id in w.snaps && IsActive(w.client, id)
    ensures var w' := After(w, op);
            id in w'.snaps && IsActive(w'.client, id) && Drift(w', id) == Drift(w, id)
  {
    if op.Deliver? {
      BatchLeavesAlone(w.client, w.snaps, op.batch, op.now, id);
      ReceiveShows(w.client, AnnounceAll(w.snaps, op.batch, op.now).events, op.clientNow);
    } else {
      TickShowsTheManager(w, op, gone);
      var i :| 0 <= i < |op.active| && op.active[i].id == id && !WentBack(Delta(op.active[i], w.snaps[id]));
      assert ShowsReading(w, op.active[i], After(w, op).client, After(w, op).snaps);
    }
  }

  /** The drift of a connection stays what it is for as long as the connection lives. */
  lemma {:induction false} DriftLasts(w: World, ops: seq<Op>, gone: set<Id>, id: Id)
    requires InStep(w.client, w.snaps, gone) && PossibleRun(w, ops, gone) && SteadyRun(w, ops, id)
    requires id in w.snaps && IsActive(w.client, id)
    ensures var w' := RunOps(w, ops);
            id in w'.snaps && IsActive(w'.client, id) && Drift(w', id) == Drift(w, id)
    decreases |ops|
  {
    if ops != [] {
      DriftLasts(w, ops[..|ops| - 1], gone, id);
      RunKeepsInStep(w, ops[..|ops| - 1], gone);
      OpKeepsDrift(RunOps(w, ops[..|ops| - 1]), ops[|ops| - 1], gone, id);
    }
  }

  /** A new connection, announced while five bytes flow between the two loads of its counters. */
  const APART := Deliver([Joined(Reading(7, Totals(0, 0), Totals(5, 0)))], 1, 1)

  const AFTER_APART := World(map[7 := Snapshot(Totals(0, 0), false)], map[7 := Entry(NO_RATE, Totals(5, 0), 0)])

  lemma LoadsApart()
    ensures After(World(map[], map[]), APART) == AFTER_APART
  {
    var batch := APART.batch;
    assert batch == [Joined(Reading(7, Totals(0, 0), Totals(5, 0)))] && batch[..0] == [];
    assert AnnounceAll(map[], [], 1) == Pass([], map[]);
    var p := AnnounceAll(map[], batch, 1);
    assert p.events == [New(7, Proto(Totals(5, 0), 0))] && p.snapshots == map[7 := Snapshot(Totals(0, 0), false)];
    ReplayShort(map[], p.events);
  }

  /** The drift is real, and for good: the five bytes stay in excess for as long as the connection lives. */
  lemma LoadsApartDriftForGood(ops: seq<Op>)
    requires PossibleRun(AFTER_APART, ops, {}) && SteadyRun(AFTER_APART, ops, 7)
    ensures var w := RunOps(AFTER_APART, ops);
            7 in w.snaps && IsActive(w.client, 7) && Drift(w, 7) == Totals(5, 0)
  {
    DriftLasts(AFTER_APART, ops, {}, 7);
  }
}
