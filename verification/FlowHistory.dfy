/** What an entry of the flow table is, told from the packets it has seen and the rules alone. */
module FlowHistory {
  import opened Prelude
  import opened Types
  import opened Sequences
  import opened Rules
  import opened Flow

  // ----- what its packets say about a flow -----

  /** The first name the packets carry. */
  function FirstName(env: Env, arrivals: seq<Arrival>): Option<Name> {
    if arrivals == [] then None
    else if env.nameIn(arrivals[0].job).Some? then env.nameIn(arrivals[0].job)
    else FirstName(env, arrivals[1..])
  }

  /** Where the first packet to a web port went. */
  function FirstWebPort(arrivals: seq<Arrival>): Option<u16> {
    if arrivals == [] then None
    else if arrivals[0].job.tuple.dstPort in {80, 443} then Some(arrivals[0].job.tuple.dstPort)
    else FirstWebPort(arrivals[1..])
  }

  /** The application of the first name; without one, what the first web port suggests. */
  function KnownApp(env: Env, arrivals: seq<Arrival>): AppType {
    match FirstName(env, arrivals)
    case Some(name) => name.app
    case None =>
      match FirstWebPort(arrivals)
      case None => UNKNOWN
      case Some(port) => if port == 443 then HTTPS else HTTP
  }

  function KnownHost(env: Env, arrivals: seq<Arrival>): string {
    if FirstName(env, arrivals).Some? then FirstName(env, arrivals).value.host else ""
  }

  /** A rule names this source, this destination port, this application or a part of this host. */
  predicate RuleFor(r: RuleSet, srcIp: u32, dstPort: u16, app: AppType, host: string) {
    || srcIp in r.ips
    || dstPort in r.ports
    || app in r.apps
    || (host != "" && exists pattern :: pattern in r.domains && Matches(pattern, host))
  }

  /** At the `j`-th packet there was a rule for it and what was then known of its flow. */
  predicate HitAt(env: Env, arrivals: seq<Arrival>, j: nat)
    requires j < |arrivals|
  {
    var tuple, known := arrivals[j].job.tuple, arrivals[..j + 1];
    RuleFor(env.rules, tuple.srcIp, tuple.dstPort, KnownApp(env, known), KnownHost(env, known))
  }

  ghost predicate Hit(env: Env, arrivals: seq<Arrival>) {
    exists j :: 0 <= j < |arrivals| && HitAt(env, arrivals, j)
  }

  /** A rule was met before the flow had a name. */
  ghost predicate HitUnnamed(env: Env, arrivals: seq<Arrival>) {
    exists j :: 0 <= j < |arrivals| && HitAt(env, arrivals, j) && FirstName(env, arrivals[..j + 1]) == None
  }

  function Bytes(a: Arrival): int {
    |a.job.data|
  }

  // ----- one more packet -----

  lemma {:induction false} FirstNameSnoc(env: Env, arrivals: seq<Arrival>, a: Arrival)
    ensures FirstName(env, arrivals + [a])
         == if FirstName(env, arrivals).Some? then FirstName(env, arrivals) else env.nameIn(a.job)
  {
    if arrivals != [] {
      assert (arrivals + [a])[1..] == arrivals[1..] + [a];
      FirstNameSnoc(env, arrivals[1..], a);
    } else {
      assert ([] + [a])[1..] == [];
    }
  }

  lemma {:induction false} FirstWebPortSnoc(arrivals: seq<Arrival>, a: Arrival)
    ensures FirstWebPort(arrivals + [a])
         == if FirstWebPort(arrivals).Some? then FirstWebPort(arrivals)
            else if a.job.tuple.dstPort in {80, 443} then Some(a.job.tuple.dstPort) else None
  {
    if arrivals != [] {
      assert (arrivals + [a])[1..] == arrivals[1..] + [a];
      FirstWebPortSnoc(arrivals[1..], a);
    } else {
      assert ([] + [a])[1..] == [];
    }
  }

  lemma {:induction false} WebPorts(arrivals: seq<Arrival>)
    ensures FirstWebPort(arrivals).Some? ==> FirstWebPort(arrivals).value in {80, 443}
  {
    if arrivals != [] {
      WebPorts(arrivals[1..]);
    }
  }

  /** Classification knows the first name, or failing that the first web port. */
  lemma {:induction false} IdentityExactly(env: Env, arrivals: seq<Arrival>)
    ensures IdentifyAll(env, arrivals)
         == Identity(KnownApp(env, arrivals), KnownHost(env, arrivals), FirstName(env, arrivals).Some?)
  {
    if arrivals != [] {
      var front, last := arrivals[..|arrivals| - 1], arrivals[|arrivals| - 1];
      assert arrivals == front + [last];
      IdentityExactly(env, front);
      FirstNameSnoc(env, front, last);
      FirstWebPortSnoc(front, last);
      WebPorts(front);
    }
  }

  lemma RuleForBlocks(r: RuleSet, srcIp: u32, dstPort: u16, app: AppType, host: string)
    ensures Blocks(r, srcIp, dstPort, app, host) <==> RuleFor(r, srcIp, dstPort, app, host)
  {
    if host != "" {
      if pattern :| pattern in r.domains && Matches(pattern, host) {
        var i := Position(r.domains, pattern);
        assert Matches(r.domains[i], host);
      }
      if i :| 0 <= i < |r.domains| && Matches(r.domains[i], host) {
        assert r.domains[i] in r.domains;
      }
    }
  }

  lemma HitIsCondemned(env: Env, arrivals: seq<Arrival>, j: nat)
    requires j < |arrivals|
    ensures HitAt(env, arrivals, j) <==> CondemnedAt(env, arrivals, j)
  {
    var tuple, known := arrivals[j].job.tuple, arrivals[..j + 1];
    IdentityExactly(env, known);
    RuleForBlocks(env.rules, tuple.srcIp, tuple.dstPort, KnownApp(env, known), KnownHost(env, known));
  }

  lemma HitIffCondemned(env: Env, arrivals: seq<Arrival>)
    ensures Hit(env, arrivals) <==> Condemned(env, arrivals)
  {
    forall j | 0 <= j < |arrivals| ensures HitAt(env, arrivals, j) <==> CondemnedAt(env, arrivals, j) {
      HitIsCondemned(env, arrivals, j);
    }
  }

  // ----- the entry -----

  /** Every field of the entry these packets made, the first of them creating it. */
  ghost predicate MadeBy(env: Env, conn: Connection, arrivals: seq<Arrival>)
    requires arrivals != []
  {
    && conn.tuple == arrivals[0].job.tuple
    && conn.app == KnownApp(env, arrivals) && conn.sni == KnownHost(env, arrivals)
    && conn.classified == FirstName(env, arrivals).Some?
    && (conn.action == DROP <==> Hit(env, arrivals))
    && conn.state == (if conn.action == DROP then BLOCKED else if conn.classified then CLASSIFIED else NEW)
    && conn.packetsIn == |arrivals| && conn.bytesIn == Sum(Bytes, arrivals)
    && conn.firstSeen == arrivals[0].now && conn.lastSeen == arrivals[|arrivals| - 1].now
  }

  lemma TouchShows(env: Env, conn: Connection, a: Arrival)
    requires conn.action.DROP? <==> conn.state.BLOCKED?
    requires conn.action.FORWARD? ==> conn.state == if conn.classified then CLASSIFIED else NEW
    ensures var conn' := Touch(env, conn, a);
            && (conn'.action.FORWARD? ==> conn'.state == if conn'.classified then CLASSIFIED else NEW)
            && conn'.firstSeen == conn.firstSeen && conn'.lastSeen == a.now
            && conn'.packetsIn == conn.packetsIn + 1 && conn'.bytesIn == conn.bytesIn + Bytes(a)
  {
  }

  lemma {:induction false} LifeShows(env: Env, arrivals: seq<Arrival>)
    requires arrivals != []
    ensures var conn := TouchAll(env, arrivals);
            && (conn.action.DROP? <==> conn.state.BLOCKED?)
            && (conn.action.FORWARD? ==> conn.state == if conn.classified then CLASSIFIED else NEW)
            && conn.firstSeen == arrivals[0].now && conn.lastSeen == arrivals[|arrivals| - 1].now
            && conn.packetsIn == |arrivals| && conn.bytesIn == Sum(Bytes, arrivals)
  {
    var front, last := arrivals[..|arrivals| - 1], arrivals[|arrivals| - 1];
    EntryLife(env, arrivals);
    if front == [] {
      assert Sum(Bytes, front) == 0;
      TouchShows(env, Fresh(last.job.tuple, last.now), last);
    } else {
      LifeShows(env, front);
      TouchShows(env, TouchAll(env, front), last);
    }
  }

  /** The life of an entry without the code that lives it. */
  lemma LifeExactly(env: Env, arrivals: seq<Arrival>)
    requires arrivals != []
    ensures MadeBy(env, TouchAll(env, arrivals), arrivals)
  {
    EntryLife(env, arrivals);
    LifeShows(env, arrivals);
    IdentityExactly(env, arrivals);
    HitIffCondemned(env, arrivals);
  }

  /** With evictions anywhere, each entry is what the packets since its creation make it. */
  lemma EntryExactly(env: Env, events: seq<Event>, key: FiveTuple)
    ensures key in Run(env, events) <==> History(env, events, key) != []
    ensures key in Run(env, events) ==>
              Run(env, events)[key].tuple == key && MadeBy(env, Run(env, events)[key], History(env, events, key))
  {
    TableIsItsHistory(env, events, key);
    if key in Run(env, events) {
      LifeExactly(env, History(env, events, key));
    }
  }

  /** The packets of the entry that a packet is handled on, up to and including it. */
  function HistoryWith(env: Env, before: seq<Event>, a: Arrival): (h: seq<Arrival>)
    ensures h != [] && h[|h| - 1] == a
  {
    History(env, before, Resolve(Run(env, before), a.job.tuple)) + [a]
  }

  /** The verdict on a packet and the application it is counted under, from those packets. */
  lemma VerdictExactly(env: Env, before: seq<Event>, a: Arrival)
    ensures MadeBy(env, Handled(env, Run(env, before), a), HistoryWith(env, before, a))
  {
    var key := Resolve(Run(env, before), a.job.tuple);
    TableIsItsHistory(env, before, key);
    TouchAllSnoc(env, History(env, before, key), a);
    LifeExactly(env, HistoryWith(env, before, a));
  }

  // ----- block lines -----

  lemma HitSnoc(env: Env, arrivals: seq<Arrival>)
    requires arrivals != []
    ensures var front, n := arrivals[..|arrivals| - 1], |arrivals| - 1;
            && (Hit(env, arrivals) <==> Hit(env, front) || HitAt(env, arrivals, n))
            && (HitUnnamed(env, arrivals) <==>
                  HitUnnamed(env, front) || (HitAt(env, arrivals, n) && FirstName(env, arrivals) == None))
  {
    var front, n := arrivals[..|arrivals| - 1], |arrivals| - 1;
    assert arrivals[..n + 1] == arrivals;
    forall j | 0 <= j < n
      ensures arrivals[..j + 1] == front[..j + 1] && (HitAt(env, front, j) <==> HitAt(env, arrivals, j))
    {
      assert arrivals[..j + 1] == front[..j + 1];
    }
  }

  /** A drop before the flow has a name was a hit before it had one. */
  lemma {:induction false} UnnamedHits(env: Env, arrivals: seq<Arrival>)
    requires Hit(env, arrivals) && FirstName(env, arrivals) == None
    ensures HitUnnamed(env, arrivals)
  {
    var front, last := arrivals[..|arrivals| - 1], arrivals[|arrivals| - 1];
    assert arrivals == front + [last];
    HitSnoc(env, arrivals);
    FirstNameSnoc(env, front, last);
    if Hit(env, front) {
      UnnamedHits(env, front);
    }
  }

  lemma LinesNow(env: Env, conn: Connection, a: Arrival)
    requires conn.action.DROP? <==> conn.state.BLOCKED?
    ensures var conn' := Touch(env, conn, a);
            LogLines(env, conn, a)
            == if conn'.action.DROP? && (conn.action.FORWARD? || (conn'.classified && !conn.classified)) then 1 else 0
  {
  }

  /** One line when the flow is first dropped, and one more when it gets its name after that. */
  lemma {:induction false} LinesExactly(env: Env, arrivals: seq<Arrival>)
    ensures LogLinesOf(env, arrivals)
         == (if Hit(env, arrivals) then 1 else 0)
            + (if HitUnnamed(env, arrivals) && FirstName(env, arrivals).Some? then 1 else 0)
  {
    if arrivals != [] {
      var front, last := arrivals[..|arrivals| - 1], arrivals[|arrivals| - 1];
      assert arrivals == front + [last];
      LinesExactly(env, front);
      HitSnoc(env, arrivals);
      FirstNameSnoc(env, front, last);
      LifeExactly(env, arrivals);
      if front == [] {
        LinesNow(env, Fresh(last.job.tuple, last.now), last);
      } else {
        LifeExactly(env, front);
        LinesNow(env, TouchAll(env, front), last);
        if Hit(env, front) && FirstName(env, front) == None {
          UnnamedHits(env, front);
        }
      }
    }
  }
}
