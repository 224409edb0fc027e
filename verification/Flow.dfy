/**
 The flow table and the per-flow state machine as functions: what src/connection_tracker.cpp and
 processPacket and classifyFlow of src/fast_path.cpp do to a table of connections.
 */
module Flow {
  import opened Prelude
  import opened Types
  import opened Rules

  /** A name found in a payload and the application it stands for. */
  datatype Name = Name(host: string, app: AppType)

  /** Fixed for a run: the rules, and the name each packet carries, if any. */
  datatype Env = Env(rules: RuleSet, nameIn: PacketJob -> Option<Name>)

  datatype Arrival = Arrival(job: PacketJob, now: int)

  // ----- one connection -----

  /** What classification knows about a flow. */
  datatype Identity = Identity(app: AppType, sni: string, classified: bool)

  const UNIDENTIFIED := Identity(UNKNOWN, "", false)

  /** A name settles the identity; otherwise the port may suggest an application. */
  function Identify(env: Env, id: Identity, job: PacketJob): Identity {
    if id.classified then id
    else
      match env.nameIn(job)
      case Some(name) => Identity(name.app, name.host, true)
      case None =>
        if job.tuple.dstPort == 443 && id.app == UNKNOWN then id.(app := HTTPS)
        else if job.tuple.dstPort == 80 && id.app == UNKNOWN then id.(app := HTTP)
        else id
  }

  function IdentityOf(conn: Connection): Identity {
    Identity(conn.app, conn.sni, conn.classified)
  }

  function Classify(env: Env, conn: Connection, job: PacketJob): Connection {
    var id := Identify(env, IdentityOf(conn), job);
    conn.(app := id.app, sni := id.sni, classified := id.classified,
          state := if id.classified && !conn.classified then CLASSIFIED else conn.state)
  }

  predicate Condemns(env: Env, id: Identity, job: PacketJob) {
    Blocks(env.rules, job.tuple.srcIp, job.tuple.dstPort, id.app, id.sni)
  }

  function Fresh(tuple: FiveTuple, now: int): Connection {
    Connection(tuple, NEW, UNKNOWN, FORWARD, "", 0, 0, now, now, false)
  }

  /** The state after classification and the blocking decision. */
  function Judge(env: Env, conn: Connection, a: Arrival): Connection {
    var seen := conn.(lastSeen := a.now, packetsIn := conn.packetsIn + 1, bytesIn := conn.bytesIn + |a.job.data|);
    var known := Classify(env, seen, a.job);
    if known.action.FORWARD? && Condemns(env, IdentityOf(known), a.job) then known.(action := DROP) else known
  }

  /** A dropped packet marks the flow blocked, with a log line if it was not marked already. */
  function Touch(env: Env, conn: Connection, a: Arrival): Connection {
    var judged := Judge(env, conn, a);
    if judged.action.DROP? then judged.(state := BLOCKED) else judged
  }

  function LogLines(env: Env, conn: Connection, a: Arrival): nat {
    var judged := Judge(env, conn, a);
    if judged.action.DROP? && !judged.state.BLOCKED? then 1 else 0
  }

  // ----- the table -----

  /** The tuple itself, else its canonical form, else the tuple. */
  function Resolve(flows: FlowTable, t: FiveTuple): FiveTuple {
    if t in flows then t else if t.Normalised() in flows then t.Normalised() else t
  }

  function EntryOf(flows: FlowTable, a: Arrival): Connection {
    var key := Resolve(flows, a.job.tuple);
    if key in flows then flows[key] else Fresh(a.job.tuple, a.now)
  }

  function Handle(env: Env, flows: FlowTable, a: Arrival): FlowTable {
    flows[Resolve(flows, a.job.tuple) := Touch(env, EntryOf(flows, a), a)]
  }

  /** The verdict on the packet, and the application it is counted under. */
  function Handled(env: Env, flows: FlowTable, a: Arrival): Connection {
    Touch(env, EntryOf(flows, a), a)
  }

  datatype Event = Packet(a: Arrival) | Cleanup(stale: set<FiveTuple>)

  function After(env: Env, flows: FlowTable, e: Event): FlowTable {
    match e {
      case Packet(a) => Handle(env, flows, a)
      case Cleanup(stale) => flows - stale
    }
  }

  function Run(env: Env, events: seq<Event>): FlowTable {
    if events == [] then map[] else After(env, Run(env, events[..|events| - 1]), events[|events| - 1])
  }

  // ----- the life of one entry -----

  /** An entry created by the first arrival and touched by all of them. */
  function TouchAll(env: Env, arrivals: seq<Arrival>): Connection
    requires arrivals != []
    decreases |arrivals|
  {
    var last := arrivals[|arrivals| - 1];
    if |arrivals| == 1 then Touch(env, Fresh(last.job.tuple, last.now), last)
    else Touch(env, TouchAll(env, arrivals[..|arrivals| - 1]), last)
  }

  /** Classification alone, blind to every blocking decision. */
  function IdentifyAll(env: Env, arrivals: seq<Arrival>): Identity {
    if arrivals == [] then UNIDENTIFIED
    else Identify(env, IdentifyAll(env, arrivals[..|arrivals| - 1]), arrivals[|arrivals| - 1].job)
  }

  function LogLinesOf(env: Env, arrivals: seq<Arrival>): nat {
    if arrivals == [] then 0
    else
      var front, last := arrivals[..|arrivals| - 1], arrivals[|arrivals| - 1];
      LogLinesOf(env, front)
      + LogLines(env, if front == [] then Fresh(last.job.tuple, last.now) else TouchAll(env, front), last)
  }

  /** The arrival at `j` matched a rule with the application and name known at that point. */
  predicate CondemnedAt(env: Env, arrivals: seq<Arrival>, j: nat)
    requires j < |arrivals|
  {
    Condemns(env, IdentifyAll(env, arrivals[..j + 1]), arrivals[j].job)
  }

  /** Some arrival up to now did. */
  ghost predicate Condemned(env: Env, arrivals: seq<Arrival>) {
    exists j :: 0 <= j < |arrivals| && CondemnedAt(env, arrivals, j)
  }

  lemma CondemnedSnoc(env: Env, arrivals: seq<Arrival>)
    requires arrivals != []
    ensures Condemned(env, arrivals) <==>
              || Condemned(env, arrivals[..|arrivals| - 1])
              || Condemns(env, IdentifyAll(env, arrivals), arrivals[|arrivals| - 1].job)
  {
    var front := arrivals[..|arrivals| - 1];
    assert arrivals[..|arrivals|] == arrivals;
    assert CondemnedAt(env, arrivals, |front|) <==> Condemns(env, IdentifyAll(env, arrivals), arrivals[|front|].job);
    forall j | 0 <= j < |front| ensures CondemnedAt(env, front, j) <==> CondemnedAt(env, arrivals, j) {
      assert front[..j + 1] == arrivals[..j + 1];
    }
    if j :| 0 <= j < |front| && CondemnedAt(env, front, j) {
      assert CondemnedAt(env, arrivals, j);
    }
  }

  /** One packet: identity by classification alone, verdict sticky, blocked exactly when dropping. */
  lemma TouchKeeps(env: Env, conn: Connection, a: Arrival)
    requires conn.action.DROP? <==> conn.state.BLOCKED?
    ensures var conn' := Touch(env, conn, a);
            && IdentityOf(conn') == Identify(env, IdentityOf(conn), a.job)
            && (conn'.action.DROP? <==> conn.action.DROP? || Condemns(env, IdentityOf(conn'), a.job))
            && (conn'.action.DROP? <==> conn'.state.BLOCKED?)
            && conn'.tuple == conn.tuple
            && conn'.packetsIn == conn.packetsIn + 1 && conn'.bytesIn == conn.bytesIn + |a.job.data|
  {
  }

  /** At most one line while the name is unknown, and one more if it is found later. */
  lemma TouchLogs(env: Env, conn: Connection, a: Arrival, lines: nat)
    requires conn.action.DROP? <==> conn.state.BLOCKED?
    requires lines <= (if conn.action.DROP? then 1 else 0) + (if conn.action.DROP? && conn.classified then 1 else 0)
    ensures var conn' := Touch(env, conn, a);
            lines + LogLines(env, conn, a)
              <= (if conn'.action.DROP? then 1 else 0) + (if conn'.action.DROP? && conn'.classified then 1 else 0)
  {
  }

  /**
   The life of an entry, from the packet that creates it: its k-th packet is dropped exactly when
   some packet up to it would be blocked given the application and name known at that packet;
   at packet boundaries it drops exactly when it is marked blocked; classification is never
   influenced by blocking; and at most two block lines are logged.
   */
  lemma {:induction false} EntryLife(env: Env, arrivals: seq<Arrival>)
    requires arrivals != []
    ensures var conn := TouchAll(env, arrivals);
            && (conn.action.DROP? <==> Condemned(env, arrivals))
            && (conn.action.DROP? <==> conn.state.BLOCKED?)
            && IdentityOf(conn) == IdentifyAll(env, arrivals)
            && conn.tuple == arrivals[0].job.tuple
            && conn.packetsIn == |arrivals|
            && LogLinesOf(env, arrivals)
                 <= (if conn.action.DROP? then 1 else 0) + (if conn.action.DROP? && conn.classified then 1 else 0)
    decreases |arrivals|
  {
    var front, last := arrivals[..|arrivals| - 1], arrivals[|arrivals| - 1];
    CondemnedSnoc(env, arrivals);
    if front == [] {
      var born := Fresh(last.job.tuple, last.now);
      assert LogLinesOf(env, front) == 0;
      TouchKeeps(env, born, last);
      TouchLogs(env, born, last, 0);
    } else {
      EntryLife(env, front);
      TouchKeeps(env, TouchAll(env, front), last);
      TouchLogs(env, TouchAll(env, front), last, LogLinesOf(env, front));
    }
  }

  /** Once classified, application and name never change. */
  lemma {:induction false} ClassifiedOnce(env: Env, arrivals: seq<Arrival>, k: nat)
    requires k <= |arrivals| && IdentifyAll(env, arrivals[..k]).classified
    ensures IdentifyAll(env, arrivals) == IdentifyAll(env, arrivals[..k])
    decreases |arrivals|
  {
    if k < |arrivals| {
      assert arrivals[..|arrivals| - 1][..k] == arrivals[..k];
      ClassifiedOnce(env, arrivals[..|arrivals| - 1], k);
    } else {
      assert arrivals[..k] == arrivals;
    }
  }

  // ----- entries inside the table -----

  /** The arrivals an entry has seen since it was last created. */
  function History(env: Env, events: seq<Event>, key: FiveTuple): seq<Arrival> {
    if events == [] then []
    else
      var front, e := events[..|events| - 1], events[|events| - 1];
      var before := History(env, front, key);
      match e {
        case Packet(a) => if Resolve(Run(env, front), a.job.tuple) == key then before + [a] else before
        case Cleanup(stale) => if key in stale then [] else before
      }
  }

  lemma TouchAllSnoc(env: Env, arrivals: seq<Arrival>, a: Arrival)
    ensures TouchAll(env, arrivals + [a])
         == Touch(env, if arrivals == [] then Fresh(a.job.tuple, a.now) else TouchAll(env, arrivals), a)
  {
    assert (arrivals + [a])[..|arrivals|] == arrivals;
  }

  /**
   With evictions at arbitrary points, every entry of the table is exactly the life of the
   packets that resolved to it since it was created, and its key is its tuple.
   */
  lemma {:induction false} TableIsItsHistory(env: Env, events: seq<Event>, key: FiveTuple)
    ensures key in Run(env, events) <==> History(env, events, key) != []
    ensures key in Run(env, events) ==>
              && Run(env, events)[key] == TouchAll(env, History(env, events, key))
              && Run(env, events)[key].tuple == key
              && History(env, events, key)[0].job.tuple == key
    decreases |events|
  {
    if events != [] {
      var front, e := events[..|events| - 1], events[|events| - 1];
      TableIsItsHistory(env, front, key);
      var flows, history := Run(env, front), History(env, front, key);
      if e.Packet? && Resolve(flows, e.a.job.tuple) == key {
        TouchAllSnoc(env, history, e.a);
        if history != [] {
          assert (history + [e.a])[0] == history[0];
        }
        EntryLife(env, history + [e.a]);
      }
    }
  }

  // ----- resolution -----

  lemma NormalisedBothWays(t: FiveTuple)
    ensures t.Reversed().Normalised() == t.Normalised()
    ensures t.Normalised().Normalised() == t.Normalised()
    ensures t.Normalised() == t || t.Normalised() == t.Reversed()
  {
  }

  /** The canonical form is the direction whose source, address then port, is not above its destination. */
  lemma CanonicalIsLeast(t: FiveTuple)
    ensures var c := t.Normalised();
            && (c == t || c == FiveTuple(t.dstIp, t.srcIp, t.dstPort, t.srcPort, t.protocol))
            && (c.srcIp < c.dstIp || (c.srcIp == c.dstIp && c.srcPort <= c.dstPort))
  {
  }

  /** Cleanup removes other entries only. */
  predicate Spares(events: seq<Event>, key: FiveTuple) {
    forall i :: 0 <= i < |events| && events[i].Cleanup? ==> key !in events[i].stale
  }

  lemma SparesFront(events: seq<Event>, n: nat, key: FiveTuple)
    requires n < |events| && Spares(events[n..], key)
    ensures var front, e := events[..|events| - 1], events[|events| - 1];
            && front[..n] == events[..n] && events[n..][..|front| - n] == front[n..] && events[n..][|front| - n] == e
            && Spares(front[n..], key) && (e.Cleanup? ==> key !in e.stale)
  {
    var front := events[..|events| - 1];
    assert events[n..][..|front| - n] == front[n..];
    assert forall i :: 0 <= i < |front[n..]| ==> front[n..][i] == events[n..][i];
    assert events[n..][|front| - n] == events[|events| - 1];
  }

  /** Until its entry is evicted, a tuple whose entry exists keeps resolving to that entry. */
  lemma {:induction false} ResolutionStable(env: Env, events: seq<Event>, n: nat, t: FiveTuple)
    requires n <= |events| && Resolve(Run(env, events[..n]), t) in Run(env, events[..n])
    requires Spares(events[n..], Resolve(Run(env, events[..n]), t))
    ensures Resolve(Run(env, events), t) == Resolve(Run(env, events[..n]), t)
    ensures Resolve(Run(env, events), t) in Run(env, events)
    decreases |events|
  {
    if n == |events| {
      assert events[..n] == events;
    } else {
      SparesFront(events, n, Resolve(Run(env, events[..n]), t));
      ResolutionStable(env, events[..|events| - 1], n, t);
    }
  }

  /** Which of two tuples arrives first. */
  function FirstOf(events: seq<Event>, t: FiveTuple, u: FiveTuple): Option<FiveTuple> {
    if events == [] then None
    else
      var before := FirstOf(events[..|events| - 1], t, u);
      var e := events[|events| - 1];
      if before.Some? then before
      else if e.Packet? && (e.a.job.tuple == t || e.a.job.tuple == u) then Some(e.a.job.tuple)
      else None
  }

  /** From any point where neither direction has an entry, as long as neither is evicted. */
  ghost predicate NewPair(env: Env, events: seq<Event>, n: nat, t: FiveTuple) {
    && n <= |events|
    && Spares(events[n..], t.Normalised()) && Spares(events[n..], t.Normalised().Reversed())
    && t.Normalised() !in Run(env, events[..n]) && t.Normalised().Reversed() !in Run(env, events[..n])
  }

  lemma {:induction false} PairEntries(env: Env, events: seq<Event>, n: nat, t: FiveTuple)
    requires NewPair(env, events, n, t)
    ensures var c := t.Normalised();
            var r := c.Reversed();
            var flows, first := Run(env, events), FirstOf(events[n..], c, r);
            && (first == None ==> c !in flows && r !in flows)
            && (first == Some(c) ==> c in flows)
            && (c != r && first == Some(c) ==> r !in flows)
            && (c != r && first == Some(r) ==> r in flows)
            && (first.Some? ==> first.value in {c, r})
    decreases |events|
  {
    NormalisedBothWays(t);
    if n == |events| {
      assert events[..n] == events;
    } else {
      var front, e := events[..|events| - 1], events[|events| - 1];
      SparesFront(events, n, t.Normalised());
      SparesFront(events, n, t.Normalised().Reversed());
      PairEntries(env, front, n, t);
      if e.Packet? {
        NormalisedBothWays(e.a.job.tuple);
      }
    }
  }

  /** Both tuples of a pair have arrived. */
  ghost predicate Seen(events: seq<Event>, t: FiveTuple) {
    exists i :: 0 <= i < |events| && events[i].Packet? && events[i].a.job.tuple == t
  }

  lemma {:induction false} SeenFirst(events: seq<Event>, t: FiveTuple, u: FiveTuple)
    requires Seen(events, t)
    ensures FirstOf(events, t, u).Some?
    decreases |events|
  {
    var i :| 0 <= i < |events| && events[i].Packet? && events[i].a.job.tuple == t;
    if i < |events| - 1 {
      assert events[..|events| - 1][i] == events[i];
      SeenFirst(events[..|events| - 1], t, u);
    }
  }

  /**
   Between any two evictions of the flow: once both directions of a new flow have been seen, they share one
   entry exactly when the canonical direction was seen first; otherwise each has its own.
   */
  lemma DirectionsShare(env: Env, events: seq<Event>, n: nat, t: FiveTuple)
    requires NewPair(env, events, n, t) && t.Normalised() != t.Normalised().Reversed()
    requires Seen(events[n..], t.Normalised()) && Seen(events[n..], t.Normalised().Reversed())
    ensures var c := t.Normalised();
            var r := c.Reversed();
            Resolve(Run(env, events), c) == Resolve(Run(env, events), r) <==> FirstOf(events[n..], c, r) == Some(c)
  {
    var c := t.Normalised();
    PairEntries(env, events, n, t);
    SeenFirst(events[n..], c, c.Reversed());
    NormalisedBothWays(t);
    NormalisedBothWays(c);
  }

  // ----- a dropped flow stays dropped until it is evicted -----

  lemma {:induction false} StaysDropped(env: Env, before: seq<Event>, more: seq<Event>, key: FiveTuple)
    requires key in Run(env, before) && Run(env, before)[key].action.DROP? && Spares(more, key)
    ensures key in Run(env, before + more) && Run(env, before + more)[key].action.DROP?
    decreases |more|
  {
    if more == [] {
      assert before + more == before;
    } else {
      var front := more[..|more| - 1];
      StaysDropped(env, before, front, key);
      assert (before + more)[..|before + more| - 1] == before + front;
    }
  }

  lemma DropsWhenBlocked(env: Env, flows: FlowTable, a: Arrival)
    requires Resolve(flows, a.job.tuple) in flows && flows[Resolve(flows, a.job.tuple)].action.DROP?
    ensures Handled(env, flows, a).action.DROP?
  {
  }

  lemma DroppedSoFar(env: Env, events: seq<Event>, a: Arrival)
    requires Handled(env, Run(env, events), a).action.DROP?
    ensures var flows := Run(env, events + [Packet(a)]);
            var key := Resolve(flows, a.job.tuple);
            key == Resolve(Run(env, events), a.job.tuple) && key in flows && flows[key].action.DROP?
  {
    assert (events + [Packet(a)])[..|events|] == events;
  }

  lemma StaysDroppedUntil(env: Env, events: seq<Event>, n: nat, t: FiveTuple)
    requires n <= |events| && Spares(events[n..], Resolve(Run(env, events[..n]), t))
    requires var flows := Run(env, events[..n]);
             Resolve(flows, t) in flows && flows[Resolve(flows, t)].action.DROP?
    ensures var flows := Run(env, events);
            Resolve(flows, t) in flows && flows[Resolve(flows, t)].action.DROP?
  {
    ResolutionStable(env, events, n, t);
    StaysDropped(env, events[..n], events[n..], Resolve(Run(env, events[..n]), t));
    assert events[..n] + events[n..] == events;
  }

  // ----- names -----

  /** Until some packet of a flow, in either direction, carries a name, no entry of it is classified. */
  lemma {:induction false} UnnamedUnclassified(env: Env, events: seq<Event>, key: FiveTuple)
    requires forall i ::
               0 <= i < |events| && events[i].Packet? && events[i].a.job.tuple.Normalised() == key.Normalised() ==>
               env.nameIn(events[i].a.job) == None
    ensures key in Run(env, events) ==> !Run(env, events)[key].classified
    decreases |events|
  {
    if events != [] {
      var front, e := events[..|events| - 1], events[|events| - 1];
      assert forall i :: 0 <= i < |front| ==> front[i] == events[i];
      UnnamedUnclassified(env, front, key);
      if e.Packet? {
        NormalisedBothWays(e.a.job.tuple);
      }
    }
  }

  // ----- timestamps play no part -----

  function Untimed(conn: Connection): Connection {
    conn.(firstSeen := 0, lastSeen := 0)
  }

  function UntimedTable(flows: FlowTable): FlowTable {
    map t | t in flows :: Untimed(flows[t])
  }

  lemma HandleUntimed(env: Env, flows: FlowTable, a: Arrival)
    ensures UntimedTable(Handle(env, flows, a)) == Handle(env, UntimedTable(flows), a.(now := 0))
    ensures Handled(env, flows, a).action == Handled(env, UntimedTable(flows), a.(now := 0)).action
    ensures Handled(env, flows, a).app == Handled(env, UntimedTable(flows), a.(now := 0)).app
  {
    TouchUntimed(env, EntryOf(flows, a), a);
  }

  lemma TouchUntimed(env: Env, conn: Connection, a: Arrival)
    ensures Untimed(Touch(env, conn, a)) == Touch(env, Untimed(conn), a.(now := 0))
  {
  }

  /** The same events with every time set to zero. */
  function Erased(events: seq<Event>): (r: seq<Event>)
    ensures |r| == |events|
  {
    if events == [] then []
    else
      var e := events[|events| - 1];
      Erased(events[..|events| - 1]) + [if e.Packet? then Packet(e.a.(now := 0)) else e]
  }

  /** A whole run with clocks and the run without them have the same table, timestamps aside. */
  lemma {:induction false} RunUntimed(env: Env, events: seq<Event>)
    ensures UntimedTable(Run(env, events)) == Run(env, Erased(events))
  {
    if events != [] {
      var front, e := events[..|events| - 1], events[|events| - 1];
      RunUntimed(env, front);
      assert Erased(events)[..|front|] == Erased(front);
      if e.Packet? {
        HandleUntimed(env, Run(env, front), e.a);
      }
    }
  }

  lemma RunSnoc(env: Env, events: seq<Event>, e: Event)
    ensures Run(env, events + [e]) == After(env, Run(env, events), e)
  {
    assert (events + [e])[..|events|] == events;
  }
}
