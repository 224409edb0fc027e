/** Every packet and byte handled is counted by a live entry or was counted by an evicted one. */
module FlowCounting {
  import opened Types
  import opened Flow

  ghost function Total(f: Connection -> nat, flows: FlowTable): nat
    decreases |flows|
  {
    if flows == map[] then 0
    else
      var key :| key in flows;
      f(flows[key]) + Total(f, flows - {key})
  }

  /** The total does not depend on the order in which entries are added up. */
  lemma {:induction false} TotalRemove(f: Connection -> nat, flows: FlowTable, key: FiveTuple)
    requires key in flows
    ensures Total(f, flows) == f(flows[key]) + Total(f, flows - {key})
    decreases |flows|
  {
    var first :| first in flows && Total(f, flows) == f(flows[first]) + Total(f, flows - {first});
    if first != key {
      TotalRemove(f, flows - {first}, key);
      TotalRemove(f, flows - {key}, first);
      assert flows - {first} - {key} == flows - {key} - {first};
    }
  }

  lemma TotalUpdate(f: Connection -> nat, flows: FlowTable, key: FiveTuple, conn: Connection)
    ensures Total(f, flows[key := conn]) == f(conn) + Total(f, flows - {key})
  {
    TotalRemove(f, flows[key := conn], key);
    assert flows[key := conn] - {key} == flows - {key};
  }

  lemma TotalAbsent(f: Connection -> nat, flows: FlowTable, key: FiveTuple)
    requires key !in flows
    ensures Total(f, flows - {key}) == Total(f, flows)
  {
    assert flows - {key} == flows;
  }

  function Part(flows: FlowTable, keys: set<FiveTuple>): FlowTable {
    map t | t in flows && t in keys :: flows[t]
  }

  lemma {:induction false} TotalSplit(f: Connection -> nat, flows: FlowTable, stale: set<FiveTuple>)
    ensures Total(f, flows) == Total(f, flows - stale) + Total(f, Part(flows, stale))
    decreases |flows|
  {
    if flows == map[] {
      assert flows - stale == map[] && Part(flows, stale) == map[];
    } else {
      var key :| key in flows;
      TotalRemove(f, flows, key);
      TotalSplit(f, flows - {key}, stale);
      if key in stale {
        TotalRemove(f, Part(flows, stale), key);
        assert Part(flows, stale) - {key} == Part(flows - {key}, stale);
        assert flows - stale == flows - {key} - stale;
      } else {
        TotalRemove(f, flows - stale, key);
        assert flows - stale - {key} == flows - {key} - stale;
        assert Part(flows, stale) == Part(flows - {key}, stale);
      }
    }
  }

  function PacketsIn(conn: Connection): nat {
    conn.packetsIn
  }

  function BytesIn(conn: Connection): nat {
    conn.bytesIn
  }

  /** What the entries removed by cleanup had counted. */
  ghost function Evicted(env: Env, f: Connection -> nat, events: seq<Event>): nat {
    if events == [] then 0
    else
      var front, e := events[..|events| - 1], events[|events| - 1];
      Evicted(env, f, front) + if e.Cleanup? then Total(f, Part(Run(env, front), e.stale)) else 0
  }

  function PacketsHandled(events: seq<Event>): nat {
    if events == [] then 0
    else PacketsHandled(events[..|events| - 1]) + if events[|events| - 1].Packet? then 1 else 0
  }

  function BytesHandled(events: seq<Event>): nat {
    if events == [] then 0
    else
      var e := events[|events| - 1];
      BytesHandled(events[..|events| - 1]) + if e.Packet? then |e.a.job.data| else 0
  }

  /** One packet adds `n` to the total if it adds `n` to its entry. */
  lemma HandleAdds(env: Env, f: Connection -> nat, flows: FlowTable, a: Arrival, n: nat)
    requires f(Touch(env, EntryOf(flows, a), a)) == f(EntryOf(flows, a)) + n
    requires f(Fresh(a.job.tuple, a.now)) == 0
    ensures Total(f, Handle(env, flows, a)) == Total(f, flows) + n
  {
    var key := Resolve(flows, a.job.tuple);
    TotalUpdate(f, flows, key, Touch(env, EntryOf(flows, a), a));
    if key in flows {
      TotalRemove(f, flows, key);
    } else {
      TotalAbsent(f, flows, key);
    }
  }

  /** Live plus evicted counts equal the packets and bytes handled, whatever was evicted when. */
  lemma {:induction false} CountsAreComplete(env: Env, events: seq<Event>)
    ensures Total(PacketsIn, Run(env, events)) + Evicted(env, PacketsIn, events) == PacketsHandled(events)
    ensures Total(BytesIn, Run(env, events)) + Evicted(env, BytesIn, events) == BytesHandled(events)
    decreases |events|
  {
    if events != [] {
      var front, e := events[..|events| - 1], events[|events| - 1];
      CountsAreComplete(env, front);
      var flows := Run(env, front);
      match e {
        case Packet(a) =>
          HandleAdds(env, PacketsIn, flows, a, 1);
          HandleAdds(env, BytesIn, flows, a, |a.job.data|);
        case Cleanup(stale) =>
          TotalSplit(PacketsIn, flows, stale);
          TotalSplit(BytesIn, flows, stale);
      }
    }
  }
}
