/**
 The stream that keeps a remote list of connections in step with the traffic manager: events
 come from a queue that may lose, repeat or reorder them, and a periodic tick repairs the rest.
 */
module ConnectionStream {
  import opened Basics

  type Id = nat

  /** A timestamp in milliseconds; zero stands for "not closed". */
  type Millis = x: int | x > 0 witness 1

  datatype Totals = Totals(up: int, down: int)

  /**
   One look at a live connection.  The counters are loaded twice: `seen` goes into the snapshot,
   `sent` into the message, and they may differ when traffic flows in between.
   */
  datatype Reading = Reading(id: Id, seen: Totals, sent: Totals)

  datatype ClosedConnection = ClosedConnection(id: Id, totals: Totals, closedAt: Option<Millis>)

  /** What the manager announces on the queue. */
  datatype Announcement =
    | Joined(reading: Reading)
    | Left(id: Id, totals: Option<Totals>, closedAt: Option<Millis>, recordedAt: Option<Millis>)
    | Other

  datatype Proto = Proto(totals: Totals, closedAt: int)

  datatype Event =
    | New(id: Id, conn: Proto)
    | Update(id: Id, delta: Totals)
    | Closed(id: Id, closedAt: Millis, last: Option<Proto>)

  // ----- the receiving side -----

  datatype Entry = Entry(rate: Totals, totals: Totals, closedAt: int)

  type Client = map<Id, Entry>

  const NO_RATE := Totals(0, 0)
  const MAX_CLOSED_AGE := 300000

  function ApplyOne(c: Client, e: Event): Client
  {
    match e
    case New(id, conn) => c[id := Entry(NO_RATE, conn.totals, conn.closedAt)]
    case Update(id, d) =>
      if id in c then c[id := Entry(d, Totals(c[id].totals.up + d.up, c[id].totals.down + d.down), c[id].closedAt)]
          else c
    case Closed(id, at, conn) =>
      if conn.Some? then c[id := Entry(NO_RATE, conn.value.totals, at)]
      else if id in c then c[id := c[id].(rate := NO_RATE, closedAt := at)]
      else c
  }

  function Replay(c: Client, events: seq<Event>): Client
  {
    if events == [] then c else ApplyOne(Replay(c, events[..|events| - 1]), events[|events| - 1])
  }

  function Evict(c: Client, now: int): Client
  {
    map id | id in c && !(c[id].closedAt != 0 && now - c[id].closedAt > MAX_CLOSED_AGE) :: c[id]
  }

  /** The remote list, changed in place by each message. */
  class Connections {
    var connectionMap: Client

    constructor ()
      ensures connectionMap == map[]
    {
      connectionMap := map[];
    }

    method ApplyEvents(reset: bool, events: seq<Event>, now: int)
      modifies this
      ensures connectionMap == Evict(Replay(if reset then map[] else old(connectionMap), events), now)
    {
      if reset {
        connectionMap := map[];
      }
      ghost var start := connectionMap;
      for i := 0 to |events|
        invariant connectionMap == Replay(start, events[..i])
      {
        var e := events[i];
        assert events[..i + 1][..i] == events[..i];
        match e
        case New(id, conn) =>
          connectionMap := connectionMap[id := Entry(NO_RATE, conn.totals, conn.closedAt)];
        case Update(id, d) =>
          if id in connectionMap {
            var t := connectionMap[id].totals;
            connectionMap := connectionMap[id := Entry(d, Totals(t.up + d.up, t.down + d.down),
                connectionMap[id].closedAt)];
          }
        case Closed(id, at, conn) =>
          if conn.Some? {
            connectionMap := connectionMap[id := Entry(NO_RATE, conn.value.totals, at)];
          } else if id in connectionMap {
            connectionMap := connectionMap[id := connectionMap[id].(rate := NO_RATE, closedAt := at)];
          }
      }
      assert events[..|events|] == events;
      connectionMap := Evict(connectionMap, now);
    }
  }

  // ----- the sending side -----

  datatype Snapshot = Snapshot(totals: Totals, hadTraffic: bool)

  type Snapshots = map<Id, Snapshot>

  /** What one step does: the events it emits and the snapshots it leaves. */
  datatype Pass = Pass(events: seq<Event>, snapshots: Snapshots)

  function Delta(r: Reading, s: Snapshot): Totals
  {
    Totals(r.seen.up - s.totals.up, r.seen.down - s.totals.down)
  }

  predicate WentBack(d: Totals)
  {
    d.up < 0 || d.down < 0
  }

  /** The tick's treatment of one active connection. */
  function Visit(snaps: Snapshots, r: Reading): Pass
  {
    if r.id !in snaps then Pass([New(r.id, Proto(r.sent, 0))], snaps[r.id := Snapshot(r.seen, false)])
    else
      var s := snaps[r.id];
      var d := Delta(r, s);
      if WentBack(d) then
        Pass(if s.hadTraffic then [Update(r.id, NO_RATE)] else [], snaps[r.id := Snapshot(r.seen, false)])
      else if d != NO_RATE then
        Pass([Update(r.id, d)], snaps[r.id := Snapshot(r.seen, true)])
      else if s.hadTraffic then
        Pass([Update(r.id, NO_RATE)], snaps[r.id := Snapshot(r.seen, false)])
      else Pass([], snaps)
  }

  function VisitAll(snaps: Snapshots, active: seq<Reading>): Pass
  {
    if active == [] then Pass([], snaps)
    else
      var before := VisitAll(snaps, active[..|active| - 1]);
      var last := Visit(before.snapshots, active[|active| - 1]);
      Pass(before.events + last.events, last.snapshots)
  }

  ghost function IdsOf(active: seq<Reading>): set<Id>
  {
    set i | 0 <= i < |active| :: active[i].id
  }

  ghost predicate DistinctIds(active: seq<Reading>)
  {
    forall i, j :: 0 <= i < j < |active| ==> active[i].id != active[j].id
  }

  /** A closing event of a tick; the record of the closed connection is used when it is still kept. */
  function ClosingEvent(id: Id, closed: map<Id, ClosedConnection>, now: Millis): Event
  {
    if id in closed then
      var at: Millis := if closed[id].closedAt.Some? then closed[id].closedAt.value else now;
      Closed(id, at, Some(Proto(closed[id].totals, at)))
    else Closed(id, now, None)
  }

  function Closings(order: seq<Id>, closed: map<Id, ClosedConnection>, now: Millis): (r: seq<Event>)
    ensures |r| == |order|
  {
    seq(|order|, i requires 0 <= i < |order| => ClosingEvent(order[i], closed, now))
  }

  /** `order` lists every snapshot without an active connection once; the map decides the order. */
  ghost predicate ListsStale(order: seq<Id>, snaps: Snapshots, active: seq<Reading>)
  {
    && (forall i, j :: 0 <= i < j < |order| ==> order[i] != order[j])
    && (forall id :: id in order <==> id in snaps && id !in IdsOf(active))
  }

  /** One whole tick. */
  ghost function TickPass(snaps: Snapshots, active: seq<Reading>, closed: map<Id, ClosedConnection>, now: Millis,
      order: seq<Id>): Pass
  {
    var visited := VisitAll(snaps, active);
    Pass(visited.events + Closings(order, closed, now), visited.snapshots - (set id | id in order))
  }

  /** The answer to one announcement. */
  function Announce(snaps: Snapshots, a: Announcement, now: Millis): Pass
  {
    match a
    case Joined(r) =>
      if r.id in snaps then Pass([], snaps)
      else Pass([New(r.id, Proto(r.sent, 0))], snaps[r.id := Snapshot(r.seen, false)])
    case Left(id, totals, closedAt, recordedAt) =>
      var at: Millis := if closedAt.Some? then closedAt.value else if recordedAt.Some? then recordedAt.value else now;
      Pass([Closed(id, at, if totals.Some? then Some(Proto(totals.value, at)) else None)], snaps - {id})
    case Other => Pass([], snaps)
  }

  /** The snapshots a subscription keeps for its client. */
  class Subscription {
    var snapshots: Snapshots

    constructor ()
      ensures snapshots == map[]
    {
      snapshots := map[];
    }

    method BuildInitialConnectionState(active: seq<Reading>, closed: seq<ClosedConnection>) returns (events: seq<Event>)
      requires snapshots == map[]
      requires DistinctIds(active)
      requires forall i :: 0 <= i < |closed| ==> closed[i].closedAt.Some?
      modifies this
      ensures snapshots == InitialSnapshots(active)
      ensures events == InitialEvents(active, closed)
    {
      events := [];
      for i := 0 to |active|
        invariant snapshots == InitialSnapshots(active[..i])
        invariant events == InitialEvents(active[..i], [])
      {
        assert active[..i + 1][..i] == active[..i];
        events := events + [New(active[i].id, Proto(active[i].sent, 0))];
        snapshots := snapshots[active[i].id := Snapshot(active[i].seen, false)];
      }
      assert active[..|active|] == active;
      for i := 0 to |closed|
        invariant events == InitialEvents(active, closed[..i])
      {
        assert closed[..i + 1][..i] == closed[..i];
        events := events + [New(closed[i].id, Proto(closed[i].totals, closed[i].closedAt.value))];
      }
      assert closed[..|closed|] == closed;
    }

    method ApplyConnectionEvent(a: Announcement, now: Millis) returns (e: Option<Event>)
      modifies this
      ensures var p := Announce(old(snapshots), a, now);
              snapshots == p.snapshots && p.events == (if e.Some? then [e.value] else [])
    {
      match a
      case Joined(r) =>
        if r.id in snapshots {
          return None;
        }
        snapshots := snapshots[r.id := Snapshot(r.seen, false)];
        return Some(New(r.id, Proto(r.sent, 0)));
      case Left(id, totals, closedAt, recordedAt) =>
        snapshots := snapshots - {id};
        var at: Millis;
        if closedAt.Some? {
          at := closedAt.value;
        } else if recordedAt.Some? {
          at := recordedAt.value;
        } else {
          at := now;
        }
        return Some(Closed(id, at, if totals.Some? then Some(Proto(totals.value, at)) else None));
      case Other =>
        return None;
    }

    /** Compares one active connection with its snapshot. */
    method UpdateOne(r: Reading) returns (e: Option<Event>)
      modifies this
      ensures Visit(old(snapshots), r) == Pass(if e.Some? then [e.value] else [], snapshots)
    {
      if r.id !in snapshots {
        snapshots := snapshots[r.id := Snapshot(r.seen, false)];
        return Some(New(r.id, Proto(r.sent, 0)));
      }
      var snapshot := snapshots[r.id];
      var up := r.seen.up - snapshot.totals.up;
      var down := r.seen.down - snapshot.totals.down;
      if up < 0 || down < 0 {
        snapshots := snapshots[r.id := Snapshot(r.seen, false)];
        return if snapshot.hadTraffic then Some(Update(r.id, NO_RATE)) else None;
      }
      if up > 0 || down > 0 {
        snapshots := snapshots[r.id := Snapshot(r.seen, true)];
        return Some(Update(r.id, Totals(up, down)));
      }
      if snapshot.hadTraffic {
        snapshots := snapshots[r.id := Snapshot(r.seen, false)];
        return Some(Update(r.id, NO_RATE));
      }
      return None;
    }

    method UpdateActive(active: seq<Reading>) returns (events: seq<Event>, activeIndex: set<Id>)
      modifies this
      ensures Pass(events, snapshots) == VisitAll(old(snapshots), active)
      ensures activeIndex == IdsOf(active)
    {
      events := [];
      activeIndex := {};
      ghost var start := snapshots;
      for i := 0 to |active|
        invariant activeIndex == IdsOf(active[..i])
        invariant Pass(events, snapshots) == VisitAll(start, active[..i])
      {
        assert active[..i + 1][..i] == active[..i];
        IdsOfOneMore(active, i);
        activeIndex := activeIndex + {active[i].id};
        var e := UpdateOne(active[i]);
        events := events + if e.Some? then [e.value] else [];
      }
      assert active[..|active|] == active;
    }

    /** Reports and forgets every snapshot whose connection is gone. */
    method CloseStale(activeIndex: set<Id>, closed: map<Id, ClosedConnection>, now: Millis)
      returns (events: seq<Event>, ghost order: seq<Id>)
      modifies this
      ensures events == Closings(order, closed, now)
      ensures forall i, j :: 0 <= i < j < |order| ==> order[i] != order[j]
      ensures forall id :: id in order <==> id in old(snapshots) && id !in activeIndex
      ensures snapshots == old(snapshots) - (set id | id in order)
    {
      events := [];
      order := [];
      ghost var start := snapshots;
      var todo := snapshots.Keys - activeIndex;
      while todo != {}
        invariant forall id :: id in todo || id in order <==> id in start && id !in activeIndex
        invariant forall id :: id in order ==> id !in todo
        invariant forall i, j :: 0 <= i < j < |order| ==> order[i] != order[j]
        invariant events == Closings(order, closed, now)
        invariant snapshots == start - (set id | id in order)
        decreases todo
      {
        var id :| id in todo;
        todo := todo - {id};
        events := events + [ClosingEvent(id, closed, now)];
        snapshots := snapshots - {id};
        order := order + [id];
      }
    }

    method BuildTrafficUpdates(active: seq<Reading>, closed: map<Id, ClosedConnection>, now: Millis)
      returns (events: seq<Event>, ghost order: seq<Id>)
      requires DistinctIds(active)
      modifies this
      ensures ListsStale(order, old(snapshots), active)
      ensures var p := TickPass(old(snapshots), active, closed, now, order);
              events == p.events && snapshots == p.snapshots
    {
      ghost var start := snapshots;
      var updates, activeIndex := UpdateActive(active);
      VisitedKeys(start, active);
      var closings;
      closings, order := CloseStale(activeIndex, closed, now);
      events := updates + closings;
    }
  }

  lemma IdsOfOneMore(active: seq<Reading>, i: nat)
    requires i < |active|
    ensures IdsOf(active[..i + 1]) == IdsOf(active[..i]) + {active[i].id}
  {
    var more := active[..i + 1];
    assert forall k :: 0 <= k <= i ==> more[k] == active[k];
    forall id | id in IdsOf(active[..i]) ensures id in IdsOf(more) {
      var k :| 0 <= k < i && active[..i][k].id == id;
      assert more[k].id == id;
    }
    assert more[i].id == active[i].id;
    forall id | id in IdsOf(more) ensures id in IdsOf(active[..i]) + {active[i].id} {
      var k :| 0 <= k <= i && more[k].id == id;
      assert k < i ==> active[..i][k].id == id;
    }
  }

  function InitialSnapshots(active: seq<Reading>): Snapshots
  {
    if active == [] then map[]
    else InitialSnapshots(active[..|active| - 1])[active[|active| - 1].id := Snapshot(active[|active| - 1].seen, false)]
  }

  function InitialEvents(active: seq<Reading>, closed: seq<ClosedConnection>): seq<Event>
    requires forall i :: 0 <= i < |closed| ==> closed[i].closedAt.Some?
  {
    if closed != [] then
      var c := closed[|closed| - 1];
      InitialEvents(active, closed[..|closed| - 1]) + [New(c.id, Proto(c.totals, c.closedAt.value))]
    else if active != [] then
      var r := active[|active| - 1];
      InitialEvents(active[..|active| - 1], []) + [New(r.id, Proto(r.sent, 0))]
    else []
  }

  lemma {:induction false} VisitedKeys(snaps: Snapshots, active: seq<Reading>)
    ensures VisitAll(snaps, active).snapshots.Keys == snaps.Keys + IdsOf(active)
  {
    if active != [] {
      var front := active[..|active| - 1];
      VisitedKeys(snaps, front);
      assert active[..|active|] == active;
      IdsOfOneMore(active, |active| - 1);
    }
  }
}
