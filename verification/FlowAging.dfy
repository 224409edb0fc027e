/** When the worker loop forgets a flow, told from its turns alone. */
module FlowAging {
  import opened Types
  import opened Sequences
  import opened Flow
  import opened FlowHistory
  import opened FastPath

  const START := Progress(map[], 0, [])

  /** The events of the first `i` turns and the packet of the next one. */
  function EventsUpTo(env: Env, turns: seq<Turn>, i: nat): seq<Event>
    requires i < |turns|
  {
    LoopEvents(env, START, turns[..i]) + [Packet(Arriving(turns[i]))]
  }

  /** The packets of an entry after the packet of turn `i`, before its cleanup. */
  function HistoryAt(env: Env, turns: seq<Turn>, i: nat, key: FiveTuple): seq<Arrival>
    requires i < |turns|
  {
    History(env, EventsUpTo(env, turns, i), key)
  }

  lemma TurnHandles(env: Env, turns: seq<Turn>, i: nat)
    requires i < |turns|
    ensures var at, handled := TakeTurns(env, START, turns[..i]), Run(env, EventsUpTo(env, turns, i));
            && handled == Handle(env, at.flows, Arriving(turns[i])) && at.processed == i
            && TakeTurns(env, START, turns[..i + 1]).flows == handled - StaleAfter(handled, i, turns[i])
  {
    LoopIsRun(env, [], START, turns[..i]);
    assert [] + LoopEvents(env, START, turns[..i]) == LoopEvents(env, START, turns[..i]);
    RunSnoc(env, LoopEvents(env, START, turns[..i]), Packet(Arriving(turns[i])));
    OneMoreTurn(env, START, turns, i);
    TurnsCounted(env, turns[..i]);
  }

  lemma {:induction false} TurnsCounted(env: Env, turns: seq<Turn>)
    ensures TakeTurns(env, START, turns).processed == |turns|
  {
    if turns != [] {
      TurnsCounted(env, turns[..|turns| - 1]);
    }
  }

  lemma OldEnough(now: int, lastSeen: int)
    ensures Age(now, lastSeen) >= 120 <==> now - lastSeen >= 120_000_000_000
  {
  }

  /**
   The cleanup of a turn removes an entry exactly when the turn is a 10000th one and the last
   packet of the entry was handled at least 120 seconds before the cleanup.
   */
  lemma EvictedExactlyWhen(env: Env, turns: seq<Turn>, i: nat, key: FiveTuple)
    requires i < |turns| && HistoryAt(env, turns, i, key) != []
    ensures var h := HistoryAt(env, turns, i, key);
            key !in TakeTurns(env, START, turns[..i + 1]).flows <==>
              (i + 1) % 10000 == 0 && turns[i].later - h[|h| - 1].now >= 120_000_000_000
  {
    var handled := Run(env, EventsUpTo(env, turns, i));
    TurnHandles(env, turns, i);
    EntryExactly(env, EventsUpTo(env, turns, i), key);
    OldEnough(turns[i].later, handled[key].lastSeen);
  }

  // ----- on a clock that does not go back -----

  predicate Steady(turns: seq<Turn>) {
    && (forall i :: 0 <= i < |turns| ==> turns[i].now <= turns[i].later)
    && forall i, j :: 0 <= i < j < |turns| ==> turns[i].later <= turns[j].now
  }

  predicate NotAfter(events: seq<Event>, time: int) {
    forall i :: 0 <= i < |events| && events[i].Packet? ==> events[i].a.now <= time
  }

  /** Packets in the order of their times. */
  predicate InTime(events: seq<Event>) {
    forall i, j ::
      0 <= i < j < |events| && events[i].Packet? && events[j].Packet? ==> events[i].a.now <= events[j].a.now
  }

  lemma {:induction false} HistoryFrom(env: Env, events: seq<Event>, key: FiveTuple, k: nat)
    requires k < |History(env, events, key)|
    ensures Packet(History(env, events, key)[k]) in events
  {
    var front, e := events[..|events| - 1], events[|events| - 1];
    assert events == front + [e];
    if k < |History(env, front, key)| {
      HistoryFrom(env, front, key, k);
    }
  }

  predicate Ascending(h: seq<Arrival>) {
    forall k :: 0 <= k < |h| ==> h[k].now <= h[|h| - 1].now
  }

  lemma EarlierIn(events: seq<Event>, a: Arrival)
    requires InTime(events) && events != [] && events[|events| - 1].Packet? && Packet(a) in events[..|events| - 1]
    ensures a.now <= events[|events| - 1].a.now
  {
    var i := Position(events[..|events| - 1], Packet(a));
    assert events[i] == Packet(a);
  }

  lemma {:induction false} HistoryAscends(env: Env, events: seq<Event>, key: FiveTuple)
    requires InTime(events)
    ensures Ascending(History(env, events, key))
  {
    if events != [] {
      var front, e := events[..|events| - 1], events[|events| - 1];
      var before := History(env, front, key);
      HistoryAscends(env, front, key);
      if e.Packet? {
        forall k | 0 <= k < |before| ensures before[k].now <= e.a.now {
          HistoryFrom(env, front, key, k);
          EarlierIn(events, before[k]);
        }
      }
    }
  }

  lemma {:induction false} LoopInTime(env: Env, turns: seq<Turn>)
    requires Steady(turns)
    ensures var events := LoopEvents(env, START, turns);
            InTime(events) && (turns != [] ==> NotAfter(events, turns[|turns| - 1].now))
            && (turns == [] ==> events == [])
  {
    if turns != [] {
      var front, last := turns[..|turns| - 1], turns[|turns| - 1];
      LoopInTime(env, front);
    }
  }

  predicate AllBy(h: seq<Arrival>, time: int) {
    forall k :: 0 <= k < |h| ==> h[k].now <= time
  }

  /** On such a clock: exactly when every packet of the entry was handled that long ago. */
  lemma EvictedWhenIdle(env: Env, turns: seq<Turn>, i: nat, key: FiveTuple)
    requires i < |turns| && HistoryAt(env, turns, i, key) != [] && Steady(turns)
    ensures key !in TakeTurns(env, START, turns[..i + 1]).flows <==>
              (i + 1) % 10000 == 0 && AllBy(HistoryAt(env, turns, i, key), turns[i].later - 120_000_000_000)
  {
    EvictedExactlyWhen(env, turns, i, key);
    LoopInTime(env, turns[..i]);
    HistoryAscends(env, EventsUpTo(env, turns, i), key);
    AllByLast(HistoryAt(env, turns, i, key), turns[i].later - 120_000_000_000);
  }

  lemma AllByLast(h: seq<Arrival>, time: int)
    requires h != [] && Ascending(h)
    ensures AllBy(h, time) <==> h[|h| - 1].now <= time
  {
  }

  // ----- a busy flow stays -----

  /** Before each cleanup from turn `first` on, a packet of this tuple less than 120 seconds old. */
  ghost predicate Busy(turns: seq<Turn>, first: nat, t: FiveTuple) {
    forall i :: first <= i < |turns| && (i + 1) % 10000 == 0 ==> SeenLately(turns, first, i, t)
  }

  ghost predicate SeenLately(turns: seq<Turn>, first: nat, i: nat, t: FiveTuple)
    requires i < |turns|
  {
    exists k :: first <= k <= i && turns[k].job.tuple == t && turns[i].later - turns[k].now < 120_000_000_000
  }

  /** After the turns before `i` the tuple still has the entry, last seen with its last packet or later. */
  ghost predicate Alive(env: Env, turns: seq<Turn>, first: nat, i: nat, t: FiveTuple, key: FiveTuple,
                        flows: FlowTable) {
    && i <= |turns| && key in flows && Resolve(flows, t) == key
    && forall k :: first <= k < i && turns[k].job.tuple == t ==> turns[k].now <= flows[key].lastSeen
  }

  lemma HandleKeepsAlive(env: Env, turns: seq<Turn>, first: nat, i: nat, t: FiveTuple, key: FiveTuple, flows: FlowTable)
    requires Steady(turns) && first <= i < |turns| && Alive(env, turns, first, i, t, key, flows)
    ensures Alive(env, turns, first, i + 1, t, key, Handle(env, flows, Arriving(turns[i])))
  {
    TouchShowsTime(env, EntryOf(flows, Arriving(turns[i])), Arriving(turns[i]));
  }

  lemma TouchShowsTime(env: Env, conn: Connection, a: Arrival)
    ensures Touch(env, conn, a).lastSeen == a.now
  {
  }

  lemma FirstIsAlive(env: Env, turns: seq<Turn>, first: nat, t: FiveTuple, flows: FlowTable)
    requires first < |turns| && turns[first].job.tuple == t
    ensures Alive(env, turns, first, first + 1, t, Resolve(flows, t), Handle(env, flows, Arriving(turns[first])))
  {
    TouchShowsTime(env, EntryOf(flows, Arriving(turns[first])), Arriving(turns[first]));
  }

  lemma CleanupKeepsAlive(env: Env, turns: seq<Turn>, first: nat, i: nat, t: FiveTuple, key: FiveTuple,
                          handled: FlowTable)
    requires first <= i < |turns| && Alive(env, turns, first, i + 1, t, key, handled) && Busy(turns, first, t)
    ensures Alive(env, turns, first, i + 1, t, key, handled - StaleAfter(handled, i, turns[i]))
  {
    if (i + 1) % 10000 == 0 {
      assert SeenLately(turns, first, i, t);
      var k :| first <= k <= i && turns[k].job.tuple == t && turns[i].later - turns[k].now < 120_000_000_000;
      assert turns[k].now <= handled[key].lastSeen;
      OldEnough(turns[i].later, handled[key].lastSeen);
    }
  }

  lemma OneTurn(env: Env, turns: seq<Turn>, i: nat, flows: FlowTable, handled: FlowTable)
    requires i < |turns| && flows == TakeTurns(env, START, turns[..i]).flows
    requires handled == Handle(env, flows, Arriving(turns[i]))
    ensures TakeTurns(env, START, turns[..i + 1]).flows == handled - StaleAfter(handled, i, turns[i])
  {
    TurnHandles(env, turns, i);
  }

  lemma AliveAfterFirst(env: Env, turns: seq<Turn>, first: nat, t: FiveTuple, flows: FlowTable)
    requires first < |turns| && turns[first].job.tuple == t && Busy(turns, first, t)
    requires flows == TakeTurns(env, START, turns[..first]).flows
    ensures Alive(env, turns, first, first + 1, t, Resolve(flows, t), TakeTurns(env, START, turns[..first + 1]).flows)
  {
    var handled := Handle(env, flows, Arriving(turns[first]));
    OneTurn(env, turns, first, flows, handled);
    FirstIsAlive(env, turns, first, t, flows);
    CleanupKeepsAlive(env, turns, first, first, t, Resolve(flows, t), handled);
  }

  lemma AliveAfterNext(env: Env, turns: seq<Turn>, first: nat, i: nat, t: FiveTuple, key: FiveTuple, flows: FlowTable)
    requires Steady(turns) && first <= i < |turns| && Busy(turns, first, t)
    requires flows == TakeTurns(env, START, turns[..i]).flows && Alive(env, turns, first, i, t, key, flows)
    ensures Alive(env, turns, first, i + 1, t, key, TakeTurns(env, START, turns[..i + 1]).flows)
  {
    var handled := Handle(env, flows, Arriving(turns[i]));
    OneTurn(env, turns, i, flows, handled);
    HandleKeepsAlive(env, turns, first, i, t, key, flows);
    CleanupKeepsAlive(env, turns, first, i, t, key, handled);
  }

  ghost predicate AliveAfter(env: Env, turns: seq<Turn>, first: nat, i: nat, t: FiveTuple, key: FiveTuple)
    requires i <= |turns|
  {
    Alive(env, turns, first, i, t, key, TakeTurns(env, START, turns[..i]).flows)
  }

  lemma {:induction false} StaysAlive(env: Env, turns: seq<Turn>, first: nat, i: nat, t: FiveTuple, key: FiveTuple)
    requires first < i <= |turns| && AliveAfter(env, turns, first, first + 1, t, key)
    requires forall k: nat :: first < k < |turns| && AliveAfter(env, turns, first, k, t, key) ==>
               AliveAfter(env, turns, first, k + 1, t, key)
    ensures AliveAfter(env, turns, first, i, t, key)
    decreases i
  {
    if i > first + 1 {
      StaysAlive(env, turns, first, i - 1, t, key);
    }
  }

  /** A tuple with a packet less than 120 seconds old at every cleanup keeps the entry of its first one. */
  lemma BusyFlowStays(env: Env, turns: seq<Turn>, first: nat, i: nat, t: FiveTuple)
    requires Steady(turns) && first < i <= |turns| && turns[first].job.tuple == t && Busy(turns, first, t)
    ensures var key := Resolve(TakeTurns(env, START, turns[..first]).flows, t);
            var flows := TakeTurns(env, START, turns[..i]).flows;
            key in flows && Resolve(flows, t) == key
  {
    var before := TakeTurns(env, START, turns[..first]).flows;
    var key := Resolve(before, t);
    AliveAfterFirst(env, turns, first, t, before);
    forall k: nat | first < k < |turns| && AliveAfter(env, turns, first, k, t, key)
      ensures AliveAfter(env, turns, first, k + 1, t, key)
    {
      AliveAfterNext(env, turns, first, k, t, key, TakeTurns(env, START, turns[..k]).flows);
    }
    StaysAlive(env, turns, first, i, t, key);
  }
}
