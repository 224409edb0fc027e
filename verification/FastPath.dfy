/** The worker of src/fast_path.cpp and its flow table, as the classes of the source. */
module FastPath {
  import opened Prelude
  import opened Types
  import opened Sequences
  import opened Rules
  import opened Flow
  import Tls
  import Http
  import Dns

  const STALE_SECONDS: nat := 120
  const TICKS_PER_SECOND: nat := 1_000_000_000

  // ----- which name a packet carries -----

  /** The payload lies inside the packet. */
  predicate InWindow(job: PacketJob) {
    job.payloadOffset + job.payloadLength <= |job.data|
  }

  function Window(job: PacketJob): seq<byte> {
    if InWindow(job) then job.data[job.payloadOffset..job.payloadOffset + job.payloadLength] else []
  }

  function TlsName(appOf: string -> AppType, job: PacketJob): Option<Name> {
    if job.tuple.dstPort == 443 && |Window(job)| > 5 then Named(appOf, Tls.Sni(Window(job))) else None
  }

  function HttpName(appOf: string -> AppType, job: PacketJob): Option<Name> {
    if job.tuple.dstPort == 80 && |Window(job)| > 10 then Named(appOf, Http.Host(Window(job))) else None
  }

  function DnsName(job: PacketJob): Option<Name> {
    if (job.tuple.dstPort == 53 || job.tuple.srcPort == 53) && |Window(job)| >= 12 then
      Named(host => DNS, Dns.Query(Window(job)))
    else None
  }

  function Named(appOf: string -> AppType, host: Option<string>): Option<Name> {
    match host
    case None => None
    case Some(h) => Some(Name(h, appOf(h)))
  }

  function Either<T>(a: Option<T>, b: Option<T>): Option<T> {
    if a.Some? then a else b
  }

  /** TLS on 443, HTTP on 80, DNS on 53, in that order. */
  function NameIn(appOf: string -> AppType, job: PacketJob): Option<Name> {
    Either(TlsName(appOf, job), Either(HttpName(appOf, job), DnsName(job)))
  }

  function EnvOf(rules: RuleSet, appOf: string -> AppType): Env {
    Env(rules, job => NameIn(appOf, job))
  }

  // ----- the flow table -----

  /** Whole seconds since an entry was last seen, truncated as duration_cast does. */
  function Age(now: int, lastSeen: int): int {
    if now >= lastSeen then (now - lastSeen) / TICKS_PER_SECOND else -((lastSeen - now) / TICKS_PER_SECOND)
  }

  function StaleKeys(flows: FlowTable, now: int, timeout: int): set<FiveTuple> {
    set t | t in flows && Age(now, flows[t].lastSeen) >= timeout
  }

  // ----- the worker loop as events on the table -----

  /** One turn of the worker loop: a packet, the time it is handled and the time after that. */
  datatype Turn = Turn(job: PacketJob, now: int, later: int)

  function Arriving(turn: Turn): Arrival {
    Arrival(turn.job, turn.now)
  }

  /** What the periodic cleanup removes after a turn, `processed` turns having gone before. */
  function StaleAfter(handled: FlowTable, processed: nat, turn: Turn): set<FiveTuple> {
    if (processed + 1) % CLEANUP_INTERVAL == 0 then StaleKeys(handled, turn.later, STALE_SECONDS) else {}
  }

  function AfterTurn(env: Env, flows: FlowTable, processed: nat, turn: Turn): FlowTable {
    var handled := Handle(env, flows, Arriving(turn));
    handled - StaleAfter(handled, processed, turn)
  }

  function VerdictOn(env: Env, flows: FlowTable, turn: Turn): FlowAction {
    Handled(env, flows, Arriving(turn)).action
  }

  /** The table, the counter and the packets pushed to the output queue. */
  datatype Progress = Progress(flows: FlowTable, processed: nat, pushed: seq<PacketJob>)

  function TakeTurn(env: Env, at: Progress, turn: Turn): Progress {
    Progress(AfterTurn(env, at.flows, at.processed, turn), at.processed + 1,
             at.pushed + if VerdictOn(env, at.flows, turn) == FORWARD then [turn.job] else [])
  }

  function TakeTurns(env: Env, from: Progress, turns: seq<Turn>): Progress
    decreases |turns|
  {
    if turns == [] then from
    else TakeTurn(env, TakeTurns(env, from, turns[..|turns| - 1]), turns[|turns| - 1])
  }

  lemma OneMoreTurn(env: Env, from: Progress, turns: seq<Turn>, i: nat)
    requires i < |turns|
    ensures TakeTurns(env, from, turns[..i + 1]) == TakeTurn(env, TakeTurns(env, from, turns[..i]), turns[i])
  {
    assert turns[..i + 1][..i] == turns[..i];
  }

  // ----- those turns as events on the table -----

  function TurnEvents(env: Env, at: Progress, turn: Turn): (events: seq<Event>)
    ensures |events| == 2
  {
    [Packet(Arriving(turn)), Cleanup(StaleAfter(Handle(env, at.flows, Arriving(turn)), at.processed, turn))]
  }

  function LoopEvents(env: Env, from: Progress, turns: seq<Turn>): seq<Event>
    decreases |turns|
  {
    if turns == [] then []
    else
      var front, last := turns[..|turns| - 1], turns[|turns| - 1];
      LoopEvents(env, from, front) + TurnEvents(env, TakeTurns(env, from, front), last)
  }

  lemma RunTurn(env: Env, before: seq<Event>, at: Progress, turn: Turn)
    requires at.flows == Run(env, before)
    ensures Run(env, before + TurnEvents(env, at, turn)) == TakeTurn(env, at, turn).flows
  {
    var events := TurnEvents(env, at, turn);
    RunSnoc(env, before, events[0]);
    RunSnoc(env, before + [events[0]], events[1]);
    assert events == [events[0]] + [events[1]];
    Assoc(before, [events[0]], [events[1]]);
  }

  /** The worker loop is a run of the flow table: packets, and cleanups of exactly the stale entries. */
  lemma {:induction false} LoopIsRun(env: Env, past: seq<Event>, from: Progress, turns: seq<Turn>)
    requires from.flows == Run(env, past)
    ensures TakeTurns(env, from, turns).flows == Run(env, past + LoopEvents(env, from, turns))
    decreases |turns|
  {
    if turns == [] {
      assert past + [] == past;
    } else {
      var front, last := turns[..|turns| - 1], turns[|turns| - 1];
      var at, events := TakeTurns(env, from, front), LoopEvents(env, from, front);
      LoopIsRun(env, past, from, front);
      RunTurn(env, past + events, at, last);
      Assoc(past, events, TurnEvents(env, at, last));
    }
  }

  class ConnectionTracker {
    var table: FlowTable

    constructor ()
      ensures table == map[]
    {
      table := map[];
    }

    /** The key stands for the reference the source returns. */
    method GetOrCreate(tuple: FiveTuple, now: int) returns (key: FiveTuple)
      modifies this
      ensures key == Resolve(old(table), tuple)
      ensures table == if key in old(table) then old(table) else old(table)[key := Fresh(tuple, now)]
    {
      if tuple in table { return tuple; }
      var rev := tuple.Normalised();
      if rev in table { return rev; }
      table := table[tuple := Fresh(tuple, now)];
      return tuple;
    }

    method Find(tuple: FiveTuple) returns (key: Option<FiveTuple>)
      ensures key == if Resolve(table, tuple) in table then Some(Resolve(table, tuple)) else None
    {
      if tuple in table { return Some(tuple); }
      var rev := tuple.Normalised();
      if rev in table { return Some(rev); }
      return None;
    }

    /** Erases while iterating: exactly the entries at least `timeout` seconds old go. */
    method CleanupStale(now: int, timeout: int) returns (count: nat)
      modifies this
      ensures table == old(table) - StaleKeys(old(table), now, timeout)
      ensures count == |StaleKeys(old(table), now, timeout)|
    {
      count := 0;
      var todo := table.Keys;
      ghost var start := table;
      ghost var gone: set<FiveTuple> := {};
      while todo != {}
        invariant todo <= table.Keys && table == start - gone
        invariant gone <= start.Keys && gone !! todo && count == |gone|
        invariant forall t :: t in start && t !in todo ==> (t in gone <==> Age(now, start[t].lastSeen) >= timeout)
        decreases todo
      {
        var t :| t in todo;
        if Age(now, table[t].lastSeen) >= timeout {
          table := table - {t};
          count := count + 1;
          gone := gone + {t};
        }
        todo := todo - {t};
      }
      assert gone == StaleKeys(start, now, timeout);
    }
  }

  lemma SameElsewhere(a: FlowTable, b: FlowTable, key: FiveTuple, conn: Connection)
    requires a - {key} == b - {key}
    ensures a[key := conn] == b[key := conn]
  {
    assert forall t :: t != key ==> (t in a <==> t in a - {key}) && (t in b <==> t in b - {key});
    assert forall t :: t != key && t in a ==> a[t] == (a - {key})[t] && b[t] == (b - {key})[t];
  }

  class DPIStats {
    var totalPackets: nat
    var totalBytes: nat
    var forwardedPackets: nat
    var droppedPackets: nat
    var appPackets: seq<nat>

    predicate Valid()
      reads this
    {
      |appPackets| == APP_COUNT
    }

    constructor ()
      ensures Valid() && totalPackets == totalBytes == forwardedPackets == droppedPackets == 0
    {
      totalPackets, totalBytes, forwardedPackets, droppedPackets := 0, 0, 0, 0;
      appPackets := seq(APP_COUNT, i => 0);
    }
  }

  class FastPathWorker {
    const rules: RuleManager
    const stats: DPIStats
    const tracker: ConnectionTracker
    const appOf: string -> AppType
    var processed: nat
    var forwarded: nat
    var dropped: nat
    var blockLines: nat

    constructor (rules: RuleManager, stats: DPIStats, appOf: string -> AppType)
      ensures this.rules == rules && this.stats == stats && this.appOf == appOf
      ensures fresh(tracker) && tracker.table == map[]
      ensures processed == forwarded == dropped == blockLines == 0
    {
      this.rules, this.stats, this.appOf := rules, stats, appOf;
      tracker := new ConnectionTracker();
      processed, forwarded, dropped, blockLines := 0, 0, 0, 0;
    }

    function Environment(): Env
      reads this, rules
    {
      EnvOf(rules.Value(), appOf)
    }

    method FindTlsName(pkt: PacketJob) returns (name: Option<Name>)
      requires InWindow(pkt)
      ensures name == TlsName(appOf, pkt)
    {
      if pkt.tuple.dstPort == 443 && pkt.payloadLength > 5 {
        var sni := Tls.Extract(pkt.data[pkt.payloadOffset..pkt.payloadOffset + pkt.payloadLength]);
        if sni.Some? { return Some(Name(sni.value, appOf(sni.value))); }
      }
      return None;
    }

    method FindHttpName(pkt: PacketJob) returns (name: Option<Name>)
      requires InWindow(pkt)
      ensures name == HttpName(appOf, pkt)
    {
      if pkt.tuple.dstPort == 80 && pkt.payloadLength > 10 {
        var host := Http.Extract(pkt.data[pkt.payloadOffset..pkt.payloadOffset + pkt.payloadLength]);
        if host.Some? { return Some(Name(host.value, appOf(host.value))); }
      }
      return None;
    }

    method FindDnsName(pkt: PacketJob) returns (name: Option<Name>)
      requires InWindow(pkt)
      ensures name == DnsName(pkt)
    {
      if (pkt.tuple.dstPort == 53 || pkt.tuple.srcPort == 53) && pkt.payloadLength >= 12 {
        var domain := Dns.ExtractQuery(pkt.data[pkt.payloadOffset..pkt.payloadOffset + pkt.payloadLength]);
        if domain.Some? { return Some(Name(domain.value, DNS)); }
      }
      return None;
    }

    method ClassifyFlow(pkt: PacketJob, conn: Connection) returns (known: Connection)
      requires InWindow(pkt) && !conn.classified
      ensures known == Classify(Environment(), conn, pkt)
    {
      var name := FindTlsName(pkt);
      if name.None? { name := FindHttpName(pkt); }
      if name.None? { name := FindDnsName(pkt); }
      if name.Some? {
        return conn.(sni := name.value.host, app := name.value.app, state := CLASSIFIED, classified := true);
      }
      known := conn;
      if pkt.tuple.dstPort == 443 && conn.app == UNKNOWN {
        known := known.(app := HTTPS);
      } else if pkt.tuple.dstPort == 80 && conn.app == UNKNOWN {
        known := known.(app := HTTP);
      }
    }

    /** Find the flow, classify it, decide. The entry is written back by the caller. */
    method Decide(pkt: PacketJob, now: int) returns (key: FiveTuple, conn: Connection)
      requires InWindow(pkt)
      modifies tracker
      ensures key == Resolve(old(tracker.table), pkt.tuple)
      ensures conn == Judge(Environment(), EntryOf(old(tracker.table), Arrival(pkt, now)), Arrival(pkt, now))
      ensures tracker.table - {key} == old(tracker.table) - {key}
    {
      key := tracker.GetOrCreate(pkt.tuple, now);
      conn := tracker.table[key];
      conn := conn.(lastSeen := now, packetsIn := conn.packetsIn + 1, bytesIn := conn.bytesIn + |pkt.data|);
      if !conn.classified {
        conn := ClassifyFlow(pkt, conn);
      }
      if conn.action == FORWARD {
        var verdict := rules.ShouldBlock(pkt.tuple.srcIp, pkt.tuple.dstPort, conn.app, conn.sni);
        conn := conn.(action := verdict);
      }
    }

    /** Count the packet in the engine's statistics. */
    method Count(app: AppType, bytes: nat, action: FlowAction)
      requires stats.Valid()
      modifies stats, this`forwarded, this`dropped
      ensures stats.Valid() && stats.appPackets == old(stats.appPackets)[app := old(stats.appPackets)[app] + 1]
      ensures stats.totalPackets == old(stats.totalPackets) + 1 && stats.totalBytes == old(stats.totalBytes) + bytes
      ensures stats.droppedPackets - old(stats.droppedPackets) == dropped - old(dropped)
              == (if action == DROP then 1 else 0)
      ensures stats.forwardedPackets - old(stats.forwardedPackets)
              == forwarded - old(forwarded) == (if action == FORWARD then 1 else 0)
    {
      stats.totalPackets := stats.totalPackets + 1;
      stats.totalBytes := stats.totalBytes + bytes;
      stats.appPackets := stats.appPackets[app := stats.appPackets[app] + 1];
      if action == DROP {
        stats.droppedPackets := stats.droppedPackets + 1;
        dropped := dropped + 1;
      } else {
        stats.forwardedPackets := stats.forwardedPackets + 1;
        forwarded := forwarded + 1;
      }
    }

    /** One packet: the table takes one step, and exactly one verdict is counted. */
    method ProcessPacket(pkt: PacketJob, now: int) returns (action: FlowAction)
      requires InWindow(pkt) && stats.Valid()
      modifies tracker, stats, this`forwarded, this`dropped, this`blockLines
      ensures tracker.table == Handle(Environment(), old(tracker.table), Arrival(pkt, now))
      ensures var conn := Handled(Environment(), old(tracker.table), Arrival(pkt, now));
              && action == conn.action
              && stats.Valid()
              && stats.appPackets == old(stats.appPackets)[conn.app := old(stats.appPackets)[conn.app] + 1]
      ensures stats.totalPackets == old(stats.totalPackets) + 1
              && stats.totalBytes == old(stats.totalBytes) + |pkt.data|
      ensures stats.droppedPackets - old(stats.droppedPackets) == dropped - old(dropped)
              == (if action == DROP then 1 else 0)
      ensures stats.forwardedPackets - old(stats.forwardedPackets)
              == forwarded - old(forwarded) == (if action == FORWARD then 1 else 0)
      ensures blockLines == old(blockLines)
                            + LogLines(Environment(), EntryOf(old(tracker.table), Arrival(pkt, now)), Arrival(pkt, now))
    {
      var key, conn := Decide(pkt, now);
      Count(conn.app, |pkt.data|, conn.action);
      if conn.action == DROP && conn.state != BLOCKED {
        conn := conn.(state := BLOCKED);
        blockLines := blockLines + 1;
      }
      SameElsewhere(tracker.table, old(tracker.table), key, conn);
      tracker.table := tracker.table[key := conn];
      action := conn.action;
    }

    /** One round of the worker loop: the packet, then the periodic cleanup. */
    method Round(turn: Turn) returns (action: FlowAction)
      requires InWindow(turn.job) && stats.Valid()
      modifies tracker, stats, this
      ensures stats.Valid() && processed == old(processed) + 1
      ensures action == VerdictOn(Environment(), old(tracker.table), turn)
      ensures tracker.table == AfterTurn(Environment(), old(tracker.table), old(processed), turn)
    {
      action := ProcessPacket(turn.job, turn.now);
      processed := processed + 1;
      if processed % CLEANUP_INTERVAL == 0 {
        var removed := tracker.CleanupStale(turn.later, STALE_SECONDS);
      } else {
        assert tracker.table - {} == tracker.table;
      }
    }

    /** The worker loop over the packets it pops, and the packets it pushes to the output queue. */
    method RunLoop(turns: seq<Turn>) returns (pushed: seq<PacketJob>)
      requires stats.Valid() && forall i :: 0 <= i < |turns| ==> InWindow(turns[i].job)
      modifies tracker, stats, this
      ensures stats.Valid()
      ensures Progress(tracker.table, processed, pushed)
           == TakeTurns(Environment(), Progress(old(tracker.table), old(processed), []), turns)
    {
      pushed := [];
      ghost var env, from := Environment(), Progress(tracker.table, processed, []);
      assert turns[..0] == [];
      for i := 0 to |turns|
        invariant stats.Valid() && env == Environment()
        invariant Progress(tracker.table, processed, pushed) == TakeTurns(env, from, turns[..i])
      {
        OneMoreTurn(env, from, turns, i);
        var action := Round(turns[i]);
        if action == FORWARD {
          pushed := pushed + [turns[i].job];
        }
      }
      assert turns[..|turns|] == turns;
    }
  }
}
