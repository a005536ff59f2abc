/**
 The connection table of the TCP server and its periodic sweep (tcp-auth-server/main.go:156-186 and 250-271): the
 table as it is changed in place, and what holds of it over any timed run.
 */
module Connections {
  /** Durations are counted in nanoseconds. */
  const MINUTE := 60_000_000_000
  const TICK := 5 * MINUTE
  const IDLE := 30 * MINUTE

  type Id = string

  /** When each registered connection was last seen. */
  type Table = map<Id, int>

  datatype Event =
    | Connect(id: Id)  // the handler registers a new connection
    | Line(id: Id)     // the connection's scanner returns a line
    | End(id: Id)      // the handler's deferred removal
    | Tick             // the sweep

  datatype Timed = Timed(time: int, event: Event)

  predicate IsStale(table: Table, id: Id, now: int)
    requires id in table
  {
    now - table[id] > IDLE
  }

  function Swept(table: Table, now: int): Table {
    map id | id in table && !IsStale(table, id, now) :: table[id]
  }

  function Step(table: Table, timed: Timed): Table {
    match timed.event
    case Connect(id) => table[id := timed.time]
    case Line(id) => if id in table then table[id := timed.time] else table
    case End(id) => table - {id}
    case Tick => Swept(table, timed.time)
  }

  /** The connections that one event closes: the sweep those it removes, the handler its own. */
  function ClosedBy(table: Table, timed: Timed): set<Id> {
    match timed.event
    case End(id) => {id}
    case Tick => table.Keys - Swept(table, timed.time).Keys
    case _ => {}
  }

  lemma SweepLeaves(table: Table, left: Table, now: int)
    requires forall id :: id in left ==> id in table && left[id] == table[id]
    requires forall id :: id in table ==> (id in left <==> !IsStale(table, id, now))
    ensures left == Step(table, Timed(now, Tick)) && ClosedBy(table, Timed(now, Tick)) == table.Keys - left.Keys
  {}

  // ----- the table in place

  class Connection {
    const id: Id
    var lastSeen: int
    var closed: bool

    constructor (id: Id, now: int)
      ensures this.id == id && lastSeen == now && !closed
    {
      this.id := id;
      lastSeen := now;
      closed := false;
    }
  }

  class Server {
    var connections: map<Id, Connection>

    ghost predicate Valid()
      reads this
    {
      forall id :: id in connections ==> connections[id].id == id
    }

    ghost function Seen(): Table
      reads this, connections.Values
    {
      map id | id in connections :: connections[id].lastSeen
    }

    constructor ()
      ensures Valid() && Seen() == map[]
    {
      connections := map[];
    }

    /** The id is a new UUID. */
    method Register(id: Id, now: int) returns (connection: Connection)
      requires Valid() && id !in connections
      modifies this
      ensures Valid() && fresh(connection) && connection.id == id
      ensures connections == old(connections)[id := connection]
      ensures Seen() == Step(old(Seen()), Timed(now, Connect(id)))
    {
      connection := new Connection(id, now);
      connections := connections[id := connection];
    }

    /** The handler keeps its connection, which a sweep may have taken out of the table. */
    method Touch(connection: Connection, now: int)
      requires Valid() && (connection.id in connections ==> connections[connection.id] == connection)
      modifies connection`lastSeen
      ensures Valid() && connection.lastSeen == now
      ensures Seen() == Step(old(Seen()), Timed(now, Line(connection.id)))
    {
      connection.lastSeen := now;
    }

    method Unregister(connection: Connection, now: int)
      requires Valid()
      modifies this, connection`closed
      ensures Valid() && connections == old(connections) - {connection.id}
      ensures connection.closed && connection.id in ClosedBy(old(Seen()), Timed(now, End(connection.id)))
      ensures Seen() == Step(old(Seen()), Timed(now, End(connection.id)))
    {
      connections := connections - {connection.id};
      connection.closed := true;
    }

    /** One round of the sweep's loop. */
    method CloseIfStale(id: Id, now: int)
      requires Valid() && id in connections
      modifies this, connections[id]
      ensures Valid()
      ensures var stale := now - old(connections[id].lastSeen) > IDLE;
              && connections == (if stale then old(connections) - {id} else old(connections))
              && old(connections[id]).lastSeen == old(connections[id].lastSeen)
              && (old(connections[id]).closed <==> old(connections[id].closed) || stale)
    {
      if now - connections[id].lastSeen > IDLE {
        connections[id].closed := true;
        connections := connections - {id};
      }
    }

    /** Entries are deleted while the table is iterated over, in any order. */
    method Sweep(now: int)
      requires Valid()
      modifies this, connections.Values
      ensures Valid()
      ensures Seen() == Step(old(Seen()), Timed(now, Tick))
      ensures forall id :: id in connections ==> id in old(connections) && connections[id] == old(connections)[id]
      ensures forall id :: id in old(connections) ==>
                var connection := old(connections)[id];
                && connection.lastSeen == old(connection.lastSeen)
                && (connection.closed <==> old(connection.closed) || id in ClosedBy(old(Seen()), Timed(now, Tick)))
    {
      hide Step, ClosedBy;
      ghost var all, seen := connections, Seen();
      var pending := connections.Keys;
      while pending != {}
        invariant Valid()
        invariant pending <= connections.Keys <= all.Keys
        invariant forall id :: id in connections ==> connections[id] == all[id]
        invariant forall id :: id in all && id !in pending ==> (id in connections <==> !IsStale(seen, id, now))
        invariant forall id :: id in all ==> all[id].id == id && all[id].lastSeen == seen[id]
        invariant forall id :: id in all ==> (all[id].closed <==> old(all[id].closed) || id !in connections)
        decreases pending
      {
        var id :| id in pending;
        pending := pending - {id};
        CloseIfStale(id, now);
      }
      SweepLeaves(seen, Seen(), now);
    }
  }

  // ----- timed runs

  function StepAll(table: Table, events: seq<Timed>): Table {
    if events == [] then table else Step(StepAll(table, events[..|events| - 1]), events[|events| - 1])
  }

  function TableAfter(events: seq<Timed>): Table {
    StepAll(map[], events)
  }

  /** The connections closed so far. */
  function Closed(events: seq<Timed>): set<Id> {
    if events == [] then {}
    else
      var before := events[..|events| - 1];
      Closed(before) + ClosedBy(TableAfter(before), events[|events| - 1])
  }

  predicate Speaks(timed: Timed, id: Id) {
    timed.event == Connect(id) || timed.event == Line(id)
  }

  predicate Names(timed: Timed, id: Id) {
    Speaks(timed, id) || timed.event == End(id)
  }

  function Ticks(events: seq<Timed>): nat {
    if events == [] then 0
    else Ticks(events[..|events| - 1]) + if events[|events| - 1].event.Tick? then 1 else 0
  }

  /** The clock is monotone, connection ids are new, and the k-th sweep runs k times five minutes after the start. */
  ghost predicate IsRun(start: int, events: seq<Timed>) {
    events == [] ||
    var before, last := events[..|events| - 1], events[|events| - 1];
    && IsRun(start, before)
    && (if before == [] then start else before[|before| - 1].time) <= last.time
    && (if last.event.Tick? then last.time == start + TICK * (Ticks(before) + 1)
        else last.time <= start + TICK * (Ticks(before) + 1))
    && (last.event.Connect? ==> forall k :: 0 <= k < |before| ==> !Names(before[k], last.event.id))
  }

  lemma {:induction false} RunIsOrdered(start: int, events: seq<Timed>, i: nat)
    requires IsRun(start, events) && i < |events|
    ensures start <= events[i].time <= events[|events| - 1].time
    ensures IsRun(start, events[..i])
  {
    var before := events[..|events| - 1];
    if i < |before| {
      RunIsOrdered(start, before, i);
      assert events[..i] == before[..i];
    } else if before != [] {
      RunIsOrdered(start, before, |before| - 1);
    }
  }

  lemma TimesAreOrdered(start: int, events: seq<Timed>, i: nat, j: nat)
    requires IsRun(start, events) && i <= j < |events|
    ensures events[i].time <= events[j].time
  {
    if j + 1 < |events| {
      RunIsOrdered(start, events, j + 1);
    } else {
      assert events[..j + 1] == events;
    }
    RunIsOrdered(start, events[..j + 1], i);
  }

  /** Up to the latest message of the connection, the table holds its time. */
  ghost predicate IsLatest(events: seq<Timed>, id: Id, k: nat) {
    k < |events| && Speaks(events[k], id) && forall j :: k < j < |events| ==> !Speaks(events[j], id)
  }

  /** Was the connection heard at most half an hour before event j? */
  ghost predicate HeardBefore(events: seq<Timed>, id: Id, j: nat)
    requires j < |events|
  {
    exists k :: 0 <= k < j && Speaks(events[k], id) && events[j].time - events[k].time <= IDLE
  }

  /** Connected at event i, not ended, and found silent by no sweep. */
  ghost predicate IsOpen(events: seq<Timed>, id: Id, i: nat) {
    && i < |events| && events[i].event == Connect(id)
    && forall j :: i < j < |events| ==>
         events[j].event != End(id) && (events[j].event.Tick? ==> HeardBefore(events, id, j))
  }

  lemma IsOpenBefore(events: seq<Timed>, id: Id, i: nat)
    requires i < |events| - 1
    ensures var before, last := events[..|events| - 1], events[|events| - 1];
            IsOpen(events, id, i) <==>
            IsOpen(before, id, i) && last.event != End(id)
            && (last.event.Tick? ==> HeardBefore(events, id, |events| - 1))
  {
    var before := events[..|events| - 1];
    assert forall j :: 0 <= j < |before| ==> (HeardBefore(events, id, j) <==> HeardBefore(before, id, j));
  }

  lemma {:induction false} TableHoldsLatest(events: seq<Timed>, id: Id, k: nat)
    requires id in TableAfter(events) && IsLatest(events, id, k)
    ensures TableAfter(events)[id] == events[k].time
  {
    var before := events[..|events| - 1];
    if k < |before| {
      assert IsLatest(before, id, k);
      TableHoldsLatest(before, id, k);
    }
  }

  lemma {:induction false} Latest(events: seq<Timed>, id: Id, i: nat) returns (k: nat)
    requires i < |events| && Speaks(events[i], id)
    ensures IsLatest(events, id, k)
  {
    k := |events| - 1;
    if !Speaks(events[k], id) {
      k := Latest(events[..k], id, i);
    }
  }

  /** In a run the table holds exactly the connections that are open, whatever else happens. */
  lemma {:induction false} TableHoldsExactlyTheOpen(start: int, events: seq<Timed>, id: Id)
    requires IsRun(start, events)
    ensures id in TableAfter(events) <==> exists i :: IsOpen(events, id, i)
  {
    if events != [] {
      var n := |events| - 1;
      var before, last := events[..n], events[n];
      TableHoldsExactlyTheOpen(start, before, id);
      if last.event == Connect(id) {
        assert IsOpen(events, id, n);
      } else {
        assert forall i: nat :: IsOpen(events, id, i) ==> i < n;
        forall i | 0 <= i < n
          ensures IsOpen(events, id, i) <==>
                  IsOpen(before, id, i) && last.event != End(id) && (last.event.Tick? ==> HeardBefore(events, id, n))
        {
          IsOpenBefore(events, id, i);
        }
        if last.event.Tick? && id in TableAfter(before) {
          var i :| IsOpen(before, id, i);
          var k := Latest(before, id, i);
          TableHoldsLatest(before, id, k);
          forall j | 0 <= j < n && Speaks(events[j], id) ensures events[j].time <= events[k].time {
            TimesAreOrdered(start, events, j, k);
          }
        }
      }
    }
  }

  // ----- the idle bound

  /** No sweep after event i has run more than half an hour after it. */
  ghost predicate NoLateTick(events: seq<Timed>, i: nat)
    requires i < |events|
  {
    forall j :: i < j < |events| && events[j].event.Tick? ==> events[j].time - events[i].time <= IDLE
  }

  /** From event i on the connection says nothing and its handler does not end. */
  ghost predicate SilentAfter(events: seq<Timed>, id: Id, i: nat) {
    forall j :: i < j < |events| ==> !Names(events[j], id)
  }

  lemma {:induction false} SilentStaysUntilLateTick(events: seq<Timed>, id: Id, i: nat)
    requires i < |events| && Speaks(events[i], id) && id in TableAfter(events[..i + 1]) && SilentAfter(events, id, i)
    ensures id in TableAfter(events) <==> NoLateTick(events, i)
  {
    var n := |events| - 1;
    var before := events[..n];
    if i < n {
      assert before[..i + 1] == events[..i + 1];
      SilentStaysUntilLateTick(before, id, i);
      assert NoLateTick(events, i) <==>
               NoLateTick(before, i) && (events[n].event.Tick? ==> events[n].time - events[i].time <= IDLE);
      if id in TableAfter(before) {
        assert IsLatest(before, id, i);
        TableHoldsLatest(before, id, i);
      }
    } else {
      assert events[..i + 1] == events;
    }
  }

  /** The last sweep before event n ran when it was due. */
  lemma {:induction false} LastTick(start: int, events: seq<Timed>) returns (j: nat)
    requires IsRun(start, events) && Ticks(events) > 0
    ensures j < |events| && events[j].event.Tick? && events[j].time == start + TICK * Ticks(events)
  {
    j := |events| - 1;
    if !events[j].event.Tick? {
      j := LastTick(start, events[..j]);
    }
  }

  lemma DueByNextTick(start: int, events: seq<Timed>, n: nat)
    requires IsRun(start, events) && n < |events|
    ensures events[n].time <= start + TICK * (Ticks(events[..n]) + 1)
  {
    if n + 1 < |events| {
      RunIsOrdered(start, events, n + 1);
    }
    assert events[..n + 1][..n] == events[..n] && (n + 1 == |events| ==> events[..n + 1] == events);
  }

  lemma NextTickIsDueSoon(start: int, events: seq<Timed>, i: nat, n: nat)
    requires IsRun(start, events) && i < n < |events| && NoLateTick(events[..n], i)
    ensures events[n].time <= events[i].time + IDLE + TICK
  {
    RunIsOrdered(start, events, i);
    RunIsOrdered(start, events, n);
    hide IsRun;
    DueByNextTick(start, events, n);
    var before := events[..n];
    if Ticks(before) > 0 {
      var j := LastTick(start, before);
      hide Ticks;
      if j < i {
        TimesAreOrdered(start, events, j, i);
      }
    }
  }

  /** The first sweep that finds the connection silent for too long. */
  lemma {:induction false} FirstLateTick(events: seq<Timed>, i: nat) returns (j: nat)
    requires i < |events| && !NoLateTick(events, i)
    ensures i < j < |events| && events[j].event.Tick? && events[j].time - events[i].time > IDLE
    ensures NoLateTick(events[..j], i)
  {
    j := |events| - 1;
    if i < j && !NoLateTick(events[..j], i) {
      var k := FirstLateTick(events[..j], i);
      assert events[..j][..k] == events[..k];
      j := k;
    }
  }

  /**
   Removed and closed by event j, a sweep more than 30 and at most 35 minutes after event i; in the table and open until
   then, gone from then on.
   */
  ghost predicate RemovedAt(events: seq<Timed>, id: Id, i: nat, j: nat) {
    && i < j < |events| && events[j].event.Tick?
    && events[i].time + 1_800_000_000_000 < events[j].time <= events[i].time + 2_100_000_000_000
    && (forall k :: i < k <= j ==> id in TableAfter(events[..k]) && id !in Closed(events[..k]))
    && (forall k :: j < k <= |events| ==> id !in TableAfter(events[..k]) && id in Closed(events[..k]))
  }

  lemma {:induction false} ClosedWereNamedBefore(start: int, events: seq<Timed>, id: Id)
    requires IsRun(start, events) && (id in TableAfter(events) || id in Closed(events))
    ensures exists k :: 0 <= k < |events| && Names(events[k], id)
  {
    var n := |events| - 1;
    var before := events[..n];
    if Names(events[n], id) {
    } else if id in TableAfter(before) || id in Closed(before) {
      ClosedWereNamedBefore(start, before, id);
    }
  }

  /** In a run no connection of the table is closed: ids are new. */
  lemma {:induction false} TableIsOpen(start: int, events: seq<Timed>, id: Id)
    requires IsRun(start, events) && id in TableAfter(events)
    ensures id !in Closed(events)
  {
    var before := events[..|events| - 1];
    if id in TableAfter(before) {
      TableIsOpen(start, before, id);
    } else if id in Closed(before) {
      ClosedWereNamedBefore(start, before, id);
    }
  }

  lemma {:induction false} ClosedStaysClosed(events: seq<Timed>, j: nat, k: nat, id: Id)
    requires j <= k <= |events| && id in Closed(events[..j])
    ensures id in Closed(events[..k])
    decreases k
  {
    if j < k {
      assert events[..k][..k - 1] == events[..k - 1];
      ClosedStaysClosed(events, j, k - 1, id);
    }
  }

  lemma RemovedMeansClosed(start: int, events: seq<Timed>, id: Id, i: nat, j: nat)
    requires IsRun(start, events) && i < j < |events| && events[j].event.Tick?
    requires forall k :: i < k <= |events| ==> (id in TableAfter(events[..k]) <==> k <= j)
    ensures forall k :: i < k <= j ==> id !in Closed(events[..k])
    ensures forall k :: j < k <= |events| ==> id in Closed(events[..k])
  {
    forall k | i < k <= j ensures id !in Closed(events[..k]) {
      RunIsOrdered(start, events, k);
      TableIsOpen(start, events[..k], id);
    }
    assert events[..j + 1][..j] == events[..j];
    assert id in TableAfter(events[..j]) && id !in TableAfter(events[..j + 1]);
    assert id in Closed(events[..j + 1]);
    forall k | j < k <= |events| ensures id in Closed(events[..k]) {
      ClosedStaysClosed(events, j + 1, k, id);
    }
  }

  /**
   A registered connection that falls silent at event i, and whose handler does not end, is removed by exactly one
   sweep, more than 30 and at most 35 minutes later, provided the run goes on for that long.
   */
  lemma SilentConnectionIsRemovedInTime(start: int, events: seq<Timed>, id: Id, i: nat) returns (j: nat)
    requires IsRun(start, events) && i < |events| && Speaks(events[i], id) && id in TableAfter(events[..i + 1])
    requires SilentAfter(events, id, i)
    requires events[|events| - 1].time > events[i].time + 2_100_000_000_000
    ensures RemovedAt(events, id, i, j)
  {
    var n := |events| - 1;
    if NoLateTick(events[..n], i) {
      NextTickIsDueSoon(start, events, i, n);
      assert false;
    }
    j := FirstLateTick(events, i);
    NextTickIsDueSoon(start, events, i, j);
    forall k | i < k <= |events| ensures id in TableAfter(events[..k]) <==> k <= j {
      assert events[..k][..i + 1] == events[..i + 1];
      SilentStaysUntilLateTick(events[..k], id, i);
      if k <= j {
        assert NoLateTick(events[..k], i) by {
          assert forall m :: i < m < k ==> events[..k][m] == events[..j][m];
        }
      } else {
        assert events[..k][j] == events[j];
      }
    }
    RemovedMeansClosed(start, events, id, i, j);
  }

  // ----- the deferred removal

  lemma {:induction false} NothingComesBack(table: Table, id: Id, events: seq<Timed>)
    requires id !in table && forall k :: 0 <= k < |events| ==> events[k].event != Connect(id)
    ensures id !in StepAll(table, events)
  {
    if events != [] {
      NothingComesBack(table, id, events[..|events| - 1]);
    }
  }

  /** After a sweep has removed a connection, its handler's deferred removal changes nothing, however late it comes. */
  lemma DeferredRemovalChangesNothing(table: Table, id: Id, sweep: int, end: int, others: seq<Timed>)
    requires id !in Step(table, Timed(sweep, Tick))
    requires forall k :: 0 <= k < |others| ==> others[k].event != Connect(id)
    ensures var later := StepAll(Step(table, Timed(sweep, Tick)), others); Step(later, Timed(end, End(id))) == later
  {
    NothingComesBack(Step(table, Timed(sweep, Tick)), id, others);
  }

  /** Whether the handler ends before or after the sweep makes no difference to the table. */
  lemma EndingCommutesWithSweeping(table: Table, id: Id, sweep: int, end: int)
    ensures Step(Step(table, Timed(end, End(id))), Timed(sweep, Tick)) ==
              Step(Step(table, Timed(sweep, Tick)), Timed(end, End(id)))
  {}
}
