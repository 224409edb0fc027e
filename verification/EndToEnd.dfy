/** From a rules file and the bytes of a frame to what the output file can and cannot hold. */
module EndToEnd {
  import opened Prelude
  import opened Types
  import opened Sequences
  import opened Rules
  import opened RulesText
  import opened Flow
  import opened FastPath
  import opened Engine
  import opened EngineHistory
  import PP = PacketParser
  import FG = FrameGrammar
  import Pcap
  import Tls
  import Http
  import Dns
  import TRT = TlsRoundTrip
  import P = Pipeline
  import PI = PipelineInvariants
  import PT = PipelineTheorems
  import PD = PipelineDrain

  // ----- which name a frame carries -----

  /**
   The name a frame carries: the server name of a ClientHello to port 443, else the Host of a
   request to port 80, else the name queried from or to port 53.
   */
  predicate Carries(x: FG.Frame, appOf: string -> AppType, name: Name) {
    && x.Valid()
    && var p, named := x.payload, name.app == appOf(name.host);
       if x.tuple.dstPort == 443 && Tls.Sni(p).Some? then Tls.Sni(p) == Some(name.host) && named
       else if x.tuple.dstPort == 80 && Http.Host(p).Some? then Http.Host(p) == Some(name.host) && named
       else (x.tuple.srcPort == 53 || x.tuple.dstPort == 53) && Dns.Query(p) == Some(name.host) && name.app == DNS
  }

  /** A ClientHello and a DNS query are never too short for the worker to look, nor is a request with a host. */
  lemma NamesAreLong(p: seq<byte>)
    ensures Tls.Sni(p).Some? ==> |p| > 5
    ensures Http.Host(p).Some? ==> |p| > 10
    ensures Dns.Query(p).Some? ==> |p| >= 12
  {
    if Http.IsRequest(p) && |p| <= 10 {
      Http.HostIsLate(p);
    }
  }

  /** The reader keeps such a frame, and the worker finds in it the name it carries, or none. */
  lemma NameExactly(x: FG.Frame, appOf: string -> AppType, name: Name, packet: Pcap.Packet, id: nat)
    requires x.Valid() && packet.data == x.Encode()
    ensures PP.Kept(packet.data) && JobOf(packet, id).tuple == x.tuple
    ensures NameIn(appOf, JobOf(packet, id)) == Some(name) <==> Carries(x, appOf, name)
  {
    FrameIsKept(x, packet, id);
    NamesAreLong(x.payload);
  }

  lemma FrameIsKept(x: FG.Frame, packet: Pcap.Packet, id: nat)
    requires x.Valid() && packet.data == x.Encode()
    ensures PP.Kept(packet.data) && JobOf(packet, id).tuple == x.tuple && Window(JobOf(packet, id)) == x.payload
    ensures JobOf(packet, id).tcpFlags == if x.segment.TcpSegment? then x.segment.flags else 0
  {
    FG.FrameRoundTrip(x);
    var job := JobOf(packet, id);
    assert job.data[job.payloadOffset..] == x.payload;
  }

  /** Any well-formed hello carries its host, whatever its fields, its other extensions and what follows it. */
  lemma HelloCarries(x: FG.Frame, appOf: string -> AppType, h: TRT.ClientHello, host: seq<byte>, trailing: seq<byte>)
    requires x.Valid() && x.tuple.dstPort == 443
    requires TRT.LeadsWith(h, host) && x.payload == h.Encode() + trailing
    ensures Carries(x, appOf, Name(Text(host), appOf(Text(host))))
  {
    TRT.HelloNames(h, host, trailing);
  }

  /** What the test generator writes for a TLS flow, headers and hello, carries its name. */
  lemma GeneratedCarries(srcMac: seq<byte>, dstMac: seq<byte>, id: u16, tuple: FiveTuple,
                         seqNum: u32, ackNum: u32, flags: byte, host: string, random: seq<byte>,
                         appOf: string -> AppType)
    requires |srcMac| == 6 && |dstMac| == 6 && tuple.protocol == 6 && tuple.dstPort == 443
    requires IsByteString(host) && |host| <= TRT.MAX_GENERATED_NAME && |random| == 32
    requires 40 + |TRT.HelloRecord(Raw(host), random)| < 0x1_0000
    ensures var hello := TRT.HelloRecord(Raw(host), random);
            var x := FG.GeneratedTcp(dstMac + srcMac, id, tuple, seqNum, ackNum, flags, hello);
            && Carries(x, appOf, Name(host, appOf(host)))
            && FG.Eth(srcMac, dstMac, 0x0800) + FG.IpHdr(tuple.srcIp, tuple.dstIp, 6, 20 + |hello|, id)
               + FG.TcpHdr(tuple.srcPort, tuple.dstPort, seqNum, ackNum, flags) + hello == x.Encode()
  {
    var hello := TRT.HelloRecord(Raw(host), random);
    assert hello + [] == hello;
    TRT.GeneratedRoundTrip(host, random, []);
    FG.GeneratedTcpBytes(srcMac, dstMac, id, tuple, seqNum, ackNum, flags, hello);
  }

  lemma RequestCarries(x: FG.Frame, appOf: string -> AppType, host: string)
    requires x.Valid() && x.tuple.dstPort == 80 && Http.Host(x.payload) == Some(host)
    ensures Carries(x, appOf, Name(host, appOf(host)))
  {
  }

  /** And so does what it writes for an HTTP flow. */
  lemma GeneratedRequestCarries(srcMac: seq<byte>, dstMac: seq<byte>, id: u16, tuple: FiveTuple,
                                seqNum: u32, ackNum: u32, flags: byte, host: string, path: string,
                                appOf: string -> AppType)
    requires |srcMac| == 6 && |dstMac| == 6 && tuple.protocol == 6 && tuple.dstPort == 80
    requires IsByteString(host) && IsByteString(path) && Http.PlainHost(Raw(host)) && Http.FreeOfHost(Raw(path))
    requires 40 + |Http.HttpRequest(host, path)| < 0x1_0000
    ensures var request := Http.HttpRequest(host, path);
            var x := FG.GeneratedTcp(dstMac + srcMac, id, tuple, seqNum, ackNum, flags, request);
            && Carries(x, appOf, Name(host, appOf(host)))
            && FG.Eth(srcMac, dstMac, 0x0800) + FG.IpHdr(tuple.srcIp, tuple.dstIp, 6, 20 + |request|, id)
               + FG.TcpHdr(tuple.srcPort, tuple.dstPort, seqNum, ackNum, flags) + request == x.Encode()
  {
    var request := Http.HttpRequest(host, path);
    Http.GeneratedRoundTrip(host, path);
    RequestCarries(FG.GeneratedTcp(dstMac + srcMac, id, tuple, seqNum, ackNum, flags, request), appOf, host);
    FG.GeneratedTcpBytes(srcMac, dstMac, id, tuple, seqNum, ackNum, flags, request);
  }

  /** And for a DNS query, which is counted as DNS whatever it asks for. */
  lemma GeneratedQueryCarries(srcMac: seq<byte>, dstMac: seq<byte>, id: u16, tuple: FiveTuple,
                              domain: string, txid: u16, appOf: string -> AppType)
    requires |srcMac| == 6 && |dstMac| == 6 && tuple.protocol == 17 && tuple.dstPort == 53
    requires Dns.ValidDomain(domain) && 28 + |Dns.DnsQuery(domain, txid)| < 0x1_0000
    ensures var query := Dns.DnsQuery(domain, txid);
            var x := FG.GeneratedUdp(dstMac + srcMac, id, tuple, query);
            && Carries(x, appOf, Name(domain, DNS))
            && FG.Eth(srcMac, dstMac, 0x0800) + FG.IpHdr(tuple.srcIp, tuple.dstIp, 17, 8 + |query|, id)
               + FG.UdpHdr(tuple.srcPort, tuple.dstPort, |query|) + query == x.Encode()
  {
    Dns.DnsRoundTrip(domain, txid);
    FG.GeneratedUdpBytes(srcMac, dstMac, id, tuple, Dns.DnsQuery(domain, txid));
  }

  // ----- a blocked name -----

  /** A packet is stopped by the rules once its name is known. */
  predicate StoppedAs(env: Env, job: PacketJob, name: Name) {
    env.nameIn(job) == Some(name) && Blocks(env.rules, job.tuple.srcIp, job.tuple.dstPort, name.app, name.host)
  }

  /** The first name found on an unclassified flow is what the rules are asked about. */
  lemma NamedAndBlocked(env: Env, flows: FlowTable, a: Arrival, name: Name)
    requires StoppedAs(env, a.job, name) && !EntryOf(flows, a).classified
    ensures var key := Resolve(flows, a.job.tuple);
            var flows' := Handle(env, flows, a);
            && Flow.Handled(env, flows, a).action.DROP?
            && key in flows' && flows'[key].action.DROP?
            && flows'[key].sni == name.host && flows'[key].app == name.app
  {
  }

  /** `a` is dropped when it arrives, and so is whatever resolves to its entry after `more`. */
  ghost predicate BlockedFrom(env: Env, before: seq<Event>, a: Arrival, more: seq<Event>) {
    var key := Resolve(Run(env, before), a.job.tuple);
    var later := Run(env, before + [Packet(a)] + more);
    && Flow.Handled(env, Run(env, before), a).action.DROP?
    && forall b: Arrival :: Resolve(later, b.job.tuple) == key ==> Flow.Handled(env, later, b).action.DROP?
  }

  lemma NamedIsBlockedFrom(env: Env, before: seq<Event>, a: Arrival, more: seq<Event>, name: Name)
    requires StoppedAs(env, a.job, name)
    requires !EntryOf(Run(env, before), a).classified && Spares(more, Resolve(Run(env, before), a.job.tuple))
    ensures BlockedFrom(env, before, a, more)
  {
    var flows := Run(env, before);
    var key := Resolve(flows, a.job.tuple);
    NamedAndBlocked(env, flows, a, name);
    RunSnoc(env, before, Packet(a));
    StaysDropped(env, before + [Packet(a)], more, key);
    var later := Run(env, before + [Packet(a)] + more);
    forall b: Arrival | Resolve(later, b.job.tuple) == key ensures Flow.Handled(env, later, b).action.DROP? {
      DropsWhenBlocked(env, later, b);
    }
  }

  /** The environment of a worker with a rules file of this text loaded. */
  function EnvWith(r: RuleSet, text: string, appOf: string -> AppType): Env
    requires AllDefined(Lines(text))
  {
    EnvOf(LoadedFrom(r, text), appOf)
  }

  /** Some line of the file stops this frame once its name is known: for the name, the application or its tuple. */
  ghost predicate TextStopsFrame(text: string, x: FG.Frame, name: Name) {
    AllDefined(Lines(text)) && TextStops(text, x.tuple.srcIp, x.tuple.dstPort, name.app, name.host)
  }

  lemma FrameIsStopped(r: RuleSet, text: string, appOf: string -> AppType, x: FG.Frame, name: Name,
                       packet: Pcap.Packet, id: nat)
    requires TextStopsFrame(text, x, name) && Carries(x, appOf, name) && packet.data == x.Encode()
    ensures PP.Kept(packet.data) && JobOf(packet, id).tuple == x.tuple
    ensures StoppedAs(EnvWith(r, text, appOf), JobOf(packet, id), name)
  {
    NameExactly(x, appOf, name, packet, id);
    BlockedExactly(r, text, x.tuple.srcIp, x.tuple.dstPort, name.app, name.host);
  }

  /**
   Blocking end to end: if some line of the rules file stops the name or the application a frame
   carries, the frame, arriving after any events on an unclassified entry, is dropped; and so is
   every later packet that resolves to that entry, whatever happens in between short of evicting it.
   */
  lemma BlockedNameEndToEnd(r: RuleSet, text: string, appOf: string -> AppType, x: FG.Frame, name: Name,
                            packet: Pcap.Packet, a: Arrival, before: seq<Event>, more: seq<Event>)
    requires TextStopsFrame(text, x, name) && Carries(x, appOf, name)
    requires packet.data == x.Encode() && PP.Kept(packet.data) && a.job == JobOf(packet, a.job.packetId)
    requires var flows := Run(EnvWith(r, text, appOf), before);
             !EntryOf(flows, a).classified && Spares(more, Resolve(flows, x.tuple))
    ensures BlockedFrom(EnvWith(r, text, appOf), before, a, more)
  {
    FrameIsStopped(r, text, appOf, x, name, packet, a.job.packetId);
    NamedIsBlockedFrom(EnvWith(r, text, appOf), before, a, more, name);
  }

  // ----- a blocked address, in the whole engine -----

  lemma WrittenWereEmitted(c: P.Setup, acts: seq<P.Action>)
    requires P.Schedulable(c, acts) && PT.Numbered(c.jobs)
    ensures forall i :: 0 <= i < |P.StateAfter(c, acts).written| ==> P.StateAfter(c, acts).written[i] in c.jobs
  {
    PT.PerFlowOrder(c, acts);
    var s := P.StateAfter(c, acts);
    forall i | 0 <= i < |s.written| ensures s.written[i] in c.jobs {
      assert c.jobs[s.written[i].packetId] == s.written[i];
    }
  }

  lemma TupleIsDropped(env: Env, flows: FlowTable, a: Arrival)
    requires a.job.tuple.srcIp in env.rules.ips || a.job.tuple.dstPort in env.rules.ports
    ensures Flow.Handled(env, flows, a).action.DROP?
  {
  }

  /** The destination port stands after the IP header, whatever its length. */
  predicate SentTo(f: seq<byte>, port: u16)
    requires PP.IpOk(f)
  {
    var k := 14 + f[14] % 16 * 4;
    k + 4 <= |f| && U16At(f, k + 2) == port
  }

  /** Where the fields of its tuple stand in a frame the reader keeps. */
  lemma TupleBytes(packets: seq<Pcap.Packet>, job: PacketJob)
    requires job in JobsOf(packets)
    ensures PP.IpOk(job.data) && U32At(job.data, 26) == job.tuple.srcIp && SentTo(job.data, job.tuple.dstPort)
  {
    JobsAreSound(packets);
    FG.KeptMeans(job.data);
  }

  /** A packet whose address or port is blocked is never written. */
  lemma BlockedTupleNeverWritten(env: Env, packets: seq<Pcap.Packet>, workers: nat, hash: FiveTuple -> nat,
                                 acts: seq<P.Action>, job: PacketJob)
    requires workers > 0 && P.Schedulable(EngineOf(workers, JobsOf(packets), hash, env), acts)
    requires job in P.StateAfter(EngineOf(workers, JobsOf(packets), hash, env), acts).written
    ensures job in JobsOf(packets) && job.tuple.srcIp !in env.rules.ips && job.tuple.dstPort !in env.rules.ports
  {
    var c := EngineOf(workers, JobsOf(packets), hash, env);
    JobsAreSound(packets);
    WrittenWereEmitted(c, acts);
    if job.tuple.srcIp in env.rules.ips || job.tuple.dstPort in env.rules.ports {
      forall flows ensures c.process(flows, job).action.DROP? {
        TupleIsDropped(env, flows, At(job));
      }
      PT.DoomedNeverWritten(c, acts, job);
    }
  }

  /**
   A line that says "block_ip" and the address as ipToString spells it keeps every frame with those source
   bytes out of the output file, for any number of workers, any schedule and any evictions.
   */
  lemma BlockedAddressNeverWritten(r: RuleSet, text: string, ip: u32, appOf: string -> AppType,
                                   packets: seq<Pcap.Packet>, workers: nat, hash: FiveTuple -> nat, acts: seq<P.Action>)
    requires AllDefined(Lines(text)) && TextSays(text, "block_ip", IpToString(ip)) && workers > 0
    requires P.Schedulable(EngineOf(workers, JobsOf(packets), hash, EnvWith(r, text, appOf)), acts)
    ensures var c := EngineOf(workers, JobsOf(packets), hash, EnvWith(r, text, appOf));
            var file := P.StateAfter(c, acts).written;
            forall i :: 0 <= i < |file| ==> PP.IpOk(file[i].data) && U32At(file[i].data, 26) != ip
  {
    var env := EnvWith(r, text, appOf);
    var file := P.StateAfter(EngineOf(workers, JobsOf(packets), hash, env), acts).written;
    BlockIpLine(r, text, ip);
    forall i | 0 <= i < |file| ensures PP.IpOk(file[i].data) && U32At(file[i].data, 26) != ip {
      BlockedTupleNeverWritten(env, packets, workers, hash, acts, file[i]);
      TupleBytes(packets, file[i]);
    }
  }

  /** A "block_port" line does the same for the destination port. */
  lemma BlockedPortNeverWritten(r: RuleSet, text: string, port: u16, appOf: string -> AppType,
                                packets: seq<Pcap.Packet>, workers: nat, hash: FiveTuple -> nat, acts: seq<P.Action>)
    requires AllDefined(Lines(text)) && TextSays(text, "block_port", Dec(port)) && workers > 0
    requires P.Schedulable(EngineOf(workers, JobsOf(packets), hash, EnvWith(r, text, appOf)), acts)
    ensures var c := EngineOf(workers, JobsOf(packets), hash, EnvWith(r, text, appOf));
            var file := P.StateAfter(c, acts).written;
            forall i :: 0 <= i < |file| ==> PP.IpOk(file[i].data) && !SentTo(file[i].data, port)
  {
    var env := EnvWith(r, text, appOf);
    var file := P.StateAfter(EngineOf(workers, JobsOf(packets), hash, env), acts).written;
    BlockPortLine(r, text, port);
    forall i | 0 <= i < |file| ensures PP.IpOk(file[i].data) && !SentTo(file[i].data, port) {
      BlockedTupleNeverWritten(env, packets, workers, hash, acts, file[i]);
      TupleBytes(packets, file[i]);
    }
  }

  // ----- the output file -----

  function PacketsOf(jobs: seq<PacketJob>): (packets: seq<Pcap.Packet>)
    ensures |packets| == |jobs|
    ensures forall i :: 0 <= i < |jobs| ==> packets[i] == Pcap.Packet(jobs[i].tsSec, jobs[i].tsUsec, jobs[i].data)
  {
    seq(|jobs|, i requires 0 <= i < |jobs| => Pcap.Packet(jobs[i].tsSec, jobs[i].tsUsec, jobs[i].data))
  }

  lemma {:induction false} RecordsAreWritable(f: seq<byte>, k: nat, swap: bool)
    ensures Pcap.Writable(Pcap.Records(f, k, swap))
    decreases |f| - k
  {
    if Pcap.RecordAt(f, k, swap) {
      RecordsAreWritable(f, k + Pcap.RECORD_HEADER + Pcap.InclLen(f, k, swap), swap);
    }
  }

  lemma WrittenAreWritable(input: seq<Pcap.Packet>, written: seq<PacketJob>)
    requires Pcap.Writable(input)
    requires forall i :: 0 <= i < |written| ==> written[i] in JobsOf(input)
    ensures Pcap.Writable(PacketsOf(written))
    ensures forall i :: 0 <= i < |written| ==> PacketsOf(written)[i] in input
  {
    JobsAreSound(input);
    forall i | 0 <= i < |written|
      ensures PacketsOf(written)[i] in input && 1 <= |PacketsOf(written)[i].data| <= Pcap.MAX_PACKET
    {
      var job := written[i];
      var k := Position(input, Pcap.Packet(job.tsSec, job.tsUsec, job.data));
    }
  }

  /**
   For a capture with a native header, under every schedule the output file reads back as exactly
   the packets written, each of which is a packet of the capture.
   */
  lemma OutputReadsBack(capture: seq<byte>, workers: nat, hash: FiveTuple -> nat, env: Env, acts: seq<P.Action>)
    requires |capture| >= Pcap.GLOBAL_HEADER && Pcap.Le32At(capture, 0) == Pcap.NATIVE_MAGIC && workers > 0
    requires P.Schedulable(EngineOf(workers, JobsOf(Pcap.Records(capture, Pcap.GLOBAL_HEADER, false)), hash, env), acts)
    ensures var input := Pcap.Records(capture, Pcap.GLOBAL_HEADER, false);
            var output := PacketsOf(P.StateAfter(EngineOf(workers, JobsOf(input), hash, env), acts).written);
            && Pcap.Writable(output)
            && (forall i :: 0 <= i < |output| ==> output[i] in input)
            && Pcap.Records(capture[..Pcap.GLOBAL_HEADER] + Pcap.Wire(output), Pcap.GLOBAL_HEADER, false) == output
  {
    var input := Pcap.Records(capture, Pcap.GLOBAL_HEADER, false);
    var c := EngineOf(workers, JobsOf(input), hash, env);
    var written := P.StateAfter(c, acts).written;
    JobsAreSound(input);
    RecordsAreWritable(capture, Pcap.GLOBAL_HEADER, false);
    WrittenWereEmitted(c, acts);
    WrittenAreWritable(input, written);
    Pcap.PcapRoundTrip(capture[..Pcap.GLOBAL_HEADER], PacketsOf(written));
  }

  // ----- a blocked name, in the whole engine -----

  /** No packet of the flow among these, in either direction, carries a name. */
  ghost predicate Unnamed(env: Env, jobs: seq<PacketJob>, t: FiveTuple) {
    forall job :: job in jobs && job.tuple.Normalised() == t.Normalised() ==> env.nameIn(job) == None
  }

  lemma UnnamedEntry(env: Env, events: seq<Event>, a: Arrival)
    requires Unnamed(env, PI.HandledJobs(Verdicts(env, events)), a.job.tuple)
    ensures !EntryOf(Run(env, events), a).classified
  {
    forall i | 0 <= i < |events| && events[i].Packet? ensures events[i].a.job in PI.HandledJobs(Verdicts(env, events)) {
      DecidedJobs(env, events, i);
    }
    NormalisedBothWays(a.job.tuple);
    UnnamedUnclassified(env, events, Resolve(Run(env, events), a.job.tuple));
  }

  /** Whatever its worker has evicted, the first packet of a flow with a blocked name is dropped. */
  lemma FirstNameDrops(c: P.Setup, env: Env, acts: seq<P.Action>, i: nat, name: Name)
    requires Runs(c, env) && PT.Numbered(c.jobs) && P.Schedulable(c, acts)
    requires i < |c.jobs| && StoppedAs(env, c.jobs[i], name)
    requires Unnamed(env, c.jobs[..i], c.jobs[i].tuple)
    ensures DroppedWherever(c, env, acts, i)
  {
    var w := P.RouteOf(c, c.jobs[i]);
    var events := WorkerEvents(c, acts, w);
    forall p | 0 <= p < |events| && events[p] == Packet(At(c.jobs[i]))
      ensures VerdictAfter(env, events[..p], At(c.jobs[i])).action.DROP?
    {
      HandledBefore(c, env, acts, i, p);
      forall job | job in PI.HandledJobs(Verdicts(env, events[..p])) ensures job in c.jobs[..i] {
        FilterMember(P.ForWorker(c, w), c.jobs[..i], job);
      }
      UnnamedEntry(env, events[..p], At(c.jobs[i]));
      NamedAndBlocked(env, Run(env, events[..p]), At(c.jobs[i]), name);
    }
  }

  /** The job made of the packet at `m` of a capture. */
  lemma {:induction false} JobAt(packets: seq<Pcap.Packet>, m: nat) returns (i: nat)
    requires m < |packets| && PP.Kept(packets[m].data)
    ensures i < |JobsOf(packets)| && JobsOf(packets)[i] == JobOf(packets[m], i)
    decreases |packets|
  {
    if m == |packets| - 1 {
      i := |JobsOf(packets[..m])|;
    } else {
      i := JobAt(packets[..|packets| - 1], m);
    }
  }

  /**
   A line of the rules file keeps a flow out of the output file. If it stops the name or the
   application that the packet at `m` of the capture carries, and no packet of its flow before it
   carried a name, then in every schedule that packet is not in the file, and no later packet of
   its five-tuple is unless their entry was evicted in between; so none is if fewer packets hash
   to their worker than a cleanup interval has.
   */
  lemma BlockedNameNeverWritten(r: RuleSet, text: string, appOf: string -> AppType, x: FG.Frame, name: Name,
                                packets: seq<Pcap.Packet>, m: nat, workers: nat, hash: FiveTuple -> nat,
                                acts: seq<P.Action>)
    returns (i: nat)
    requires TextStopsFrame(text, x, name) && Carries(x, appOf, name)
    requires m < |packets| && packets[m].data == x.Encode() && workers > 0
    requires P.Schedulable(EngineOf(workers, JobsOf(packets), hash, EnvWith(r, text, appOf)), acts)
    ensures i < |JobsOf(packets)| && PP.Kept(packets[m].data) && JobsOf(packets)[i] == JobOf(packets[m], i)
    ensures KeptOutOnceNamed(EngineOf(workers, JobsOf(packets), hash, EnvWith(r, text, appOf)),
                             EnvWith(r, text, appOf), acts, i)
  {
    var env := EnvWith(r, text, appOf);
    var jobs := JobsOf(packets);
    var c := EngineOf(workers, jobs, hash, env);
    FG.FrameRoundTrip(x);
    i := JobAt(packets, m);
    FrameIsStopped(r, text, appOf, x, name, packets[m], i);
    JobsAreSound(packets);
    EngineRuns(workers, jobs, hash, env);
    if Unnamed(env, jobs[..i], jobs[i].tuple) {
      FirstNameDrops(c, env, acts, i, name);
      DroppedAreKeptOut(c, env, acts, i);
      if |Filter(P.ForWorker(c, P.RouteOf(c, c.jobs[i])), c.jobs)| < CLEANUP_INTERVAL {
        KeptOutForGood(c, env, acts, i);
      }
    }
  }

  ghost predicate KeptOutOnceNamed(c: P.Setup, env: Env, acts: seq<P.Action>, i: nat) {
    && P.Schedulable(c, acts) && i < |c.jobs|
    && (Unnamed(env, c.jobs[..i], c.jobs[i].tuple) ==>
          && KeptOut(c, env, acts, i)
          && (|Filter(P.ForWorker(c, P.RouteOf(c, c.jobs[i])), c.jobs)| < 10000 ==>
                forall j :: i <= j < |c.jobs| && c.jobs[j].tuple == c.jobs[i].tuple ==>
                  c.jobs[j] !in P.StateAfter(c, acts).written))
  }

  /** With a "block_domain" line whose pattern covers the host. */
  lemma BlockedDomainNeverWritten(r: RuleSet, text: string, pattern: string, appOf: string -> AppType,
                                  x: FG.Frame, name: Name, packets: seq<Pcap.Packet>, m: nat,
                                  workers: nat, hash: FiveTuple -> nat, acts: seq<P.Action>)
    returns (i: nat)
    requires AllDefined(Lines(text)) && IsPlain(pattern) && TextSays(text, "block_domain", pattern)
    requires name.host != "" && Covers(pattern, name.host) && Carries(x, appOf, name)
    requires m < |packets| && packets[m].data == x.Encode() && workers > 0
    requires P.Schedulable(EngineOf(workers, JobsOf(packets), hash, EnvWith(r, text, appOf)), acts)
    ensures i < |JobsOf(packets)| && PP.Kept(packets[m].data) && JobsOf(packets)[i] == JobOf(packets[m], i)
    ensures KeptOutOnceNamed(EngineOf(workers, JobsOf(packets), hash, EnvWith(r, text, appOf)),
                             EnvWith(r, text, appOf), acts, i)
  {
    BlockDomainLine(r, text, pattern, x.tuple.srcIp, x.tuple.dstPort, name.app, name.host);
    i := BlockedNameNeverWritten(r, text, appOf, x, name, packets, m, workers, hash, acts);
  }

  /** With a "block_app" line for the application the host stands for. */
  lemma BlockedAppNeverWritten(r: RuleSet, text: string, value: string, appOf: string -> AppType,
                               x: FG.Frame, name: Name, packets: seq<Pcap.Packet>, m: nat,
                               workers: nat, hash: FiveTuple -> nat, acts: seq<P.Action>)
    returns (i: nat)
    requires AllDefined(Lines(text)) && IsPlain(value) && TextSays(text, "block_app", value)
    requires NamesApp(name.app, value) && Carries(x, appOf, name)
    requires m < |packets| && packets[m].data == x.Encode() && workers > 0
    requires P.Schedulable(EngineOf(workers, JobsOf(packets), hash, EnvWith(r, text, appOf)), acts)
    ensures i < |JobsOf(packets)| && PP.Kept(packets[m].data) && JobsOf(packets)[i] == JobOf(packets[m], i)
    ensures KeptOutOnceNamed(EngineOf(workers, JobsOf(packets), hash, EnvWith(r, text, appOf)),
                             EnvWith(r, text, appOf), acts, i)
  {
    BlockAppLine(r, text, value, x.tuple.srcIp, x.tuple.dstPort, name.app, name.host);
    i := BlockedNameNeverWritten(r, text, appOf, x, name, packets, m, workers, hash, acts);
  }

  // ----- what shutdown may do to a capture -----

  /**
   For every capture with a TCP or UDP packet, every rules file and every number of workers, some
   schedule ends with a packet undecided; and if the capture fits the raw queue, some schedule
   ends with all of it undecided and an empty file.
   */
  lemma CaptureMayBeAbandoned(packets: seq<Pcap.Packet>, workers: nat, hash: FiveTuple -> nat, env: Env)
    returns (some: seq<P.Action>, all: seq<P.Action>)
    requires workers > 0 && JobsOf(packets) != []
    ensures var c := EngineOf(workers, JobsOf(packets), hash, env);
            && PD.Completes(c, [], some) && !PD.EveryJobDecided(c, P.StateAfter(c, some))
            && (|JobsOf(packets)| <= 50000 ==>
                  && PD.Completes(c, [], all)
                  && P.StateAfter(c, all).raw == JobsOf(packets) && P.StateAfter(c, all).written == [])
  {
    var c := EngineOf(workers, JobsOf(packets), hash, env);
    some := PD.AnyInputMayLose(c);
    all := [];
    if |JobsOf(packets)| <= 50000 {
      all := PD.ShutdownMayAbandon(c);
    }
  }
}
