/**
 The reader of src/main.cpp and the whole engine: a capture file, a rules file and the flow state
 machine plugged into the pipeline, under every schedule.
 */
module Engine {
  import opened Prelude
  import opened Types
  import opened Sequences
  import opened Flow
  import opened FastPath
  import PP = PacketParser
  import FrameGrammar
  import Pcap
  import P = Pipeline
  import PI = PipelineInvariants
  import PC = PipelineCounters
  import PT = PipelineTheorems

  // ----- the reader -----

  function JobOf(packet: Pcap.Packet, id: nat): (job: PacketJob)
    requires PP.Kept(packet.data)
    ensures job.packetId == id && job.data == packet.data && job.tuple == PP.MakeTuple(PP.Parsed(packet.data).value)
  {
    var p := PP.Parsed(packet.data).value;
    PacketJob(id, packet.tsSec, packet.tsUsec, PP.MakeTuple(p), packet.data,
              p.tcpFlags, p.payloadOffset, p.payloadLength)
  }

  /** The kept frames, numbered from zero. */
  function JobsOf(packets: seq<Pcap.Packet>): (jobs: seq<PacketJob>)
    ensures |jobs| <= |packets|
  {
    if packets == [] then []
    else
      var last := packets[|packets| - 1];
      var before := JobsOf(packets[..|packets| - 1]);
      if PP.Kept(last.data) then before + [JobOf(last, |before|)] else before
  }

  lemma {:induction false} JobsAreSound(packets: seq<Pcap.Packet>)
    ensures PT.Numbered(JobsOf(packets))
    ensures forall job :: job in JobsOf(packets) ==>
              InWindow(job) && PP.Kept(job.data) && job.tuple == PP.MakeTuple(PP.Parsed(job.data).value)
    ensures forall job :: job in JobsOf(packets) ==> Pcap.Packet(job.tsSec, job.tsUsec, job.data) in packets
  {
    if packets != [] {
      var front, last := packets[..|packets| - 1], packets[|packets| - 1];
      JobsAreSound(front);
      assert packets == front + [last];
      if PP.Kept(last.data) {
        var x := FrameGrammar.KeptFramesAreFrames(last.data);
      }
    }
  }

  lemma JobsSnoc(packets: seq<Pcap.Packet>, last: Pcap.Packet)
    ensures JobsOf(packets + [last])
         == JobsOf(packets) + if PP.Kept(last.data) then [JobOf(last, |JobsOf(packets)|)] else []
  {
    assert (packets + [last])[..|packets|] == packets;
  }

  /** One turn of the reader loop: parse, filter, number. */
  method Emit(raw: Pcap.Packet, id: nat) returns (job: Option<PacketJob>)
    ensures job == if PP.Kept(raw.data) then Some(JobOf(raw, id)) else None
  {
    var kept, parsed := PP.Parse(raw.data);
    if !kept { return None; }
    if !parsed.hasIp || (!parsed.hasTcp && !parsed.hasUdp) { return None; }
    return Some(PacketJob(id, raw.tsSec, raw.tsUsec, PP.MakeTuple(parsed), raw.data, parsed.tcpFlags,
                          parsed.payloadOffset, parsed.payloadLength));
  }

  /** The reader loop of main. */
  method ReadJobs(reader: Pcap.PcapReader) returns (jobs: seq<PacketJob>)
    requires reader.Valid()
    modifies reader
    ensures jobs == JobsOf(old(reader.Remaining()))
  {
    jobs := [];
    ghost var all := reader.Remaining();
    ghost var read: seq<Pcap.Packet> := [];
    assert [] + all == all;
    while true
      invariant reader.Valid() && jobs == JobsOf(read) && all == read + reader.Remaining()
      decreases |reader.Remaining()|
    {
      ghost var rest := reader.Remaining();
      var ok, raw := reader.ReadNextPacket();
      if !ok {
        assert read + [] == read;
        break;
      }
      var job := Emit(raw, |jobs|);
      JobsSnoc(read, raw);
      if job.Some? {
        jobs := jobs + [job.value];
      }
      assert rest == [raw] + reader.Remaining();
      Assoc(read, [raw], reader.Remaining());
      read := read + [raw];
    }
  }

  // ----- the pipeline running the flow state machine -----

  function At(job: PacketJob): Arrival {
    Arrival(job, 0)
  }

  function Decide(env: Env, flows: FlowTable, job: PacketJob): P.Outcome {
    var conn := Flow.Handled(env, flows, At(job));
    P.Outcome(Handle(env, flows, At(job)), conn.action, conn.app)
  }

  function EngineOf(n: nat, jobs: seq<PacketJob>, hash: FiveTuple -> nat, env: Env): P.Setup
    requires n > 0
  {
    P.Config(n, jobs, hash, (flows, job) => Decide(env, flows, job))
  }

  function Events(jobs: seq<PacketJob>): (events: seq<Event>)
    ensures |events| == |jobs|
    ensures forall i :: 0 <= i < |jobs| ==> events[i] == Packet(At(jobs[i]))
  {
    if jobs == [] then [] else Events(jobs[..|jobs| - 1]) + [Packet(At(jobs[|jobs| - 1]))]
  }

  ghost predicate Runs(c: P.Setup, env: Env) {
    forall flows, job :: c.process(flows, job) == Decide(env, flows, job)
  }

  lemma EngineRuns(n: nat, jobs: seq<PacketJob>, hash: FiveTuple -> nat, env: Env)
    requires n > 0
    ensures Runs(EngineOf(n, jobs, hash, env), env)
  {
  }

  /** The worker's sequential fold is a run of the flow table ... */
  lemma {:induction false} SequentialIsRun(c: P.Setup, env: Env, jobs: seq<PacketJob>)
    requires Runs(c, env)
    ensures PC.Sequential(c, jobs).flows == Run(env, Events(jobs))
    decreases |jobs|
  {
    if jobs != [] {
      var front, job := jobs[..|jobs| - 1], jobs[|jobs| - 1];
      SequentialIsRun(c, env, front);
      assert c.process(Run(env, Events(front)), job) == Decide(env, Run(env, Events(front)), job);
      assert Events(jobs)[..|front|] == Events(front);
    }
  }

  lemma LastDecision(c: P.Setup, env: Env, jobs: seq<PacketJob>)
    requires Runs(c, env) && jobs != []
    ensures var front, job := jobs[..|jobs| - 1], jobs[|jobs| - 1];
            PC.Sequential(c, jobs).log[|jobs| - 1]
            == P.Decision(job, Flow.Handled(env, Run(env, Events(front)), At(job)).action)
  {
    var front, job := jobs[..|jobs| - 1], jobs[|jobs| - 1];
    SequentialIsRun(c, env, front);
    assert c.process(Run(env, Events(front)), job) == Decide(env, Run(env, Events(front)), job);
  }

  lemma EarlierDecision(c: P.Setup, jobs: seq<PacketJob>, i: nat)
    requires i < |jobs| - 1
    ensures PC.Sequential(c, jobs).log[i] == PC.Sequential(c, jobs[..|jobs| - 1]).log[i]
  {
  }

  /** ... decision by decision. */
  lemma {:induction false} SequentialDecides(c: P.Setup, env: Env, jobs: seq<PacketJob>, i: nat)
    requires Runs(c, env) && i < |jobs|
    ensures PC.Sequential(c, jobs).log[i].job == jobs[i]
    ensures PC.Sequential(c, jobs).log[i].action == Flow.Handled(env, Run(env, Events(jobs[..i])), At(jobs[i])).action
    decreases |jobs|
  {
    if i < |jobs| - 1 {
      EarlierDecision(c, jobs, i);
      SequentialDecides(c, env, jobs[..|jobs| - 1], i);
      assert jobs[..|jobs| - 1][..i] == jobs[..i];
    } else {
      LastDecision(c, env, jobs);
    }
  }

  // ----- the worker class and the pipeline's worker take the same steps -----

  /** The pipeline's steps from one check of the loop condition to the next, popping one job. */
  function Rounded(c: P.Setup, me: P.Worker, stale: set<FiveTuple>): P.Worker
    requires me.pc.Check? && me.running && me.queue != []
  {
    var popped := P.NextWorker(c, P.NextWorker(c, me, {}), {});
    var decided := P.NextWorker(c, popped, {});
    var counted := P.NextWorker(c, P.NextWorker(c, P.NextWorker(c, decided, {}), {}), {});
    P.NextWorker(c, if counted.pc.Forward? then P.NextWorker(c, counted, {}) else counted, stale)
  }

  lemma RoundedIs(c: P.Setup, me: P.Worker, stale: set<FiveTuple>)
    requires me.pc.Check? && me.running && me.queue != []
    ensures var o := c.process(me.flows, me.queue[0]);
            var me' := Rounded(c, me, stale);
            && me'.pc.Check? && me'.running && me'.queue == me.queue[1..]
            && me'.flows == o.flows - stale && me'.processed == me.processed + 1
            && (me'.evicted <==> me.evicted || stale * o.flows.Keys != {})
            && me'.log == me.log + [P.Decision(me.queue[0], o.action)]
  {
  }

  /** The pipeline's worker stands where the class stands, timestamps aside. */
  ghost predicate Stands(me: P.Worker, at: Progress) {
    && me.pc.Check? && me.running
    && me.flows == UntimedTable(at.flows) && me.processed == at.processed
  }

  lemma HandleDecides(c: P.Setup, env: Env, flows: FlowTable, turn: Turn)
    requires Runs(c, env)
    ensures var o := c.process(UntimedTable(flows), turn.job);
            && o.flows == UntimedTable(Handle(env, flows, Arriving(turn)))
            && o.action == VerdictOn(env, flows, turn)
  {
    HandleUntimed(env, flows, Arriving(turn));
    assert c.process(UntimedTable(flows), turn.job) == Decide(env, UntimedTable(flows), turn.job);
  }

  lemma UntimedWithout(flows: FlowTable, stale: set<FiveTuple>)
    ensures UntimedTable(flows) - stale == UntimedTable(flows - stale)
  {
  }

  /** What the cleanup of a turn removes. */
  function StaleOf(env: Env, at: Progress, turn: Turn): set<FiveTuple> {
    StaleAfter(Handle(env, at.flows, Arriving(turn)), at.processed, turn)
  }

  lemma TurnDecides(c: P.Setup, env: Env, flows: FlowTable, at: Progress, turn: Turn)
    requires Runs(c, env) && flows == UntimedTable(at.flows)
    ensures var o := c.process(flows, turn.job);
            && o.flows - StaleOf(env, at, turn) == UntimedTable(TakeTurn(env, at, turn).flows)
            && o.action == VerdictOn(env, at.flows, turn)
  {
    HandleDecides(c, env, at.flows, turn);
    UntimedWithout(Handle(env, at.flows, Arriving(turn)), StaleOf(env, at, turn));
  }

  /** What a round must leave for the pipeline's worker to stand where the class does. */
  lemma StandsAgain(me: P.Worker, flows: FlowTable, processed: nat, at: Progress)
    requires me.pc.Check? && me.running && me.flows == flows && me.processed == processed
    requires flows == UntimedTable(at.flows) && processed == at.processed
    ensures Stands(me, at)
  {
  }

  lemma RoundStands(c: P.Setup, env: Env, me: P.Worker, at: Progress, turn: Turn)
    requires Runs(c, env) && Stands(me, at) && me.queue != [] && me.queue[0] == turn.job
    ensures Stands(Rounded(c, me, StaleOf(env, at, turn)), TakeTurn(env, at, turn))
  {
    var stale := StaleOf(env, at, turn);
    RoundedIs(c, me, stale);
    TurnDecides(c, env, me.flows, at, turn);
    StandsAgain(Rounded(c, me, stale), c.process(me.flows, turn.job).flows - stale,
                me.processed + 1, TakeTurn(env, at, turn));
  }

  /** One round of the class is the pipeline's round with that stale set, which the pipeline allows. */
  lemma RoundIsPipelineSteps(c: P.Setup, env: Env, me: P.Worker, at: Progress, turn: Turn)
    requires Runs(c, env) && Stands(me, at) && me.queue != [] && me.queue[0] == turn.job
    ensures var stale := StaleOf(env, at, turn);
            var me' := Rounded(c, me, stale);
            && Stands(me', TakeTurn(env, at, turn))
            && me'.queue == me.queue[1..]
            && me'.log == me.log + [P.Decision(turn.job, VerdictOn(env, at.flows, turn))]
            && (stale != {} ==> (me.processed + 1) % CLEANUP_INTERVAL == 0)
  {
    RoundStands(c, env, me, at, turn);
    RoundedIs(c, me, StaleOf(env, at, turn));
    TurnDecides(c, env, me.flows, at, turn);
  }

  /** The worker's queue starts with the packets of these turns. */
  predicate Queued(me: P.Worker, turns: seq<Turn>) {
    |turns| <= |me.queue| && forall i :: 0 <= i < |turns| ==> me.queue[i] == turns[i].job
  }

  /** A round of a worker that stands with the class and has the turn's packet first in its queue. */
  ghost function RoundOn(c: P.Setup, env: Env, me: P.Worker, at: Progress, turn: Turn): (me': P.Worker)
    requires Runs(c, env) && Stands(me, at) && me.queue != [] && me.queue[0] == turn.job
    ensures Stands(me', TakeTurn(env, at, turn)) && me'.queue == me.queue[1..]
  {
    RoundIsPipelineSteps(c, env, me, at, turn);
    Rounded(c, me, StaleOf(env, at, turn))
  }

  /** As many rounds as there are turns, each with the cleanup of its turn. */
  ghost function RoundedAll(c: P.Setup, env: Env, me: P.Worker, at: Progress, turns: seq<Turn>): (me': P.Worker)
    requires Runs(c, env) && Stands(me, at) && Queued(me, turns)
    ensures Stands(me', TakeTurns(env, at, turns)) && me'.queue == me.queue[|turns|..]
    decreases |turns|
  {
    if turns == [] then me
    else
      var front := turns[..|turns| - 1];
      RoundOn(c, env, RoundedAll(c, env, me, at, front), TakeTurns(env, at, front), turns[|turns| - 1])
  }

  /** What the pipeline's worker has decided and pushed, against the class. */
  ghost predicate SameLog(me: P.Worker, me': P.Worker, at: Progress, handled: seq<PacketJob>) {
    PI.HandledJobs(me'.log) == PI.HandledJobs(me.log) + handled
      && PI.Forwards(me'.log) == PI.Forwards(me.log) + at.pushed
  }

  lemma RoundLogs(c: P.Setup, env: Env, me: P.Worker, before: P.Worker, at: Progress, turn: Turn,
                  handled: seq<PacketJob>)
    requires Runs(c, env) && Stands(before, at) && before.queue != [] && before.queue[0] == turn.job
    requires SameLog(me, before, at, handled)
    ensures SameLog(me, RoundOn(c, env, before, at, turn), TakeTurn(env, at, turn), handled + [turn.job])
  {
    var action := VerdictOn(env, at.flows, turn);
    RoundIsPipelineSteps(c, env, before, at, turn);
    PI.HandledSnoc(before.log, P.Decision(turn.job, action));
    Assoc(PI.HandledJobs(me.log), handled, [turn.job]);
    Assoc(PI.Forwards(me.log), at.pushed, if action == FORWARD then [turn.job] else []);
  }

  lemma LastRoundLogs(c: P.Setup, env: Env, me: P.Worker, at: Progress, turns: seq<Turn>, handled: seq<PacketJob>)
    requires Runs(c, env) && Stands(me, at) && Queued(me, turns) && turns != []
    requires var front := turns[..|turns| - 1];
             SameLog(me, RoundedAll(c, env, me, at, front), TakeTurns(env, at, front), handled)
    ensures SameLog(me, RoundedAll(c, env, me, at, turns), TakeTurns(env, at, turns), handled + [me.queue[|turns| - 1]])
  {
    var front, last := turns[..|turns| - 1], turns[|turns| - 1];
    RoundLogs(c, env, me, RoundedAll(c, env, me, at, front), TakeTurns(env, at, front), last, handled);
  }

  lemma NothingLogged(me: P.Worker, at: Progress)
    requires at.pushed == []
    ensures SameLog(me, me, at, [])
  {
    assert PI.HandledJobs(me.log) + [] == PI.HandledJobs(me.log) && PI.Forwards(me.log) + [] == PI.Forwards(me.log);
  }

  lemma FrontOfQueue(me: P.Worker, turns: seq<Turn>, handled: seq<PacketJob>)
    returns (front: seq<Turn>, before: seq<PacketJob>)
    requires Queued(me, turns) && turns != [] && handled == me.queue[..|turns|]
    ensures front == turns[..|turns| - 1] && Queued(me, front) && before == me.queue[..|front|]
    ensures handled == before + [me.queue[|turns| - 1]]
  {
    front, before := turns[..|turns| - 1], handled[..|turns| - 1];
  }

  lemma {:induction false} LoopLogs(c: P.Setup, env: Env, me: P.Worker, at: Progress, turns: seq<Turn>,
                                    handled: seq<PacketJob>)
    requires Runs(c, env) && Stands(me, at) && Queued(me, turns) && at.pushed == []
    requires handled == me.queue[..|turns|]
    ensures SameLog(me, RoundedAll(c, env, me, at, turns), TakeTurns(env, at, turns), handled)
    decreases |turns|
  {
    if turns == [] {
      NothingLogged(me, at);
    } else {
      var front, before := FrontOfQueue(me, turns, handled);
      LoopLogs(c, env, me, at, front, before);
      LastRoundLogs(c, env, me, at, turns, before);
    }
  }

  /**
   The worker class refines the pipeline's worker: a whole loop of the class over timed packets,
   with evictions by age, ends with the table (timestamps aside), the decisions and the pushed
   packets of the pipeline worker's own steps on a queue that holds those packets.
   */
  lemma LoopIsPipelineSteps(c: P.Setup, env: Env, me: P.Worker, at: Progress, turns: seq<Turn>)
    requires Runs(c, env) && Stands(me, at) && Queued(me, turns) && at.pushed == []
    ensures var me' := RoundedAll(c, env, me, at, turns);
            && Stands(me', TakeTurns(env, at, turns))
            && PI.HandledJobs(me'.log) == PI.HandledJobs(me.log) + me.queue[..|turns|]
            && PI.Forwards(me'.log) == PI.Forwards(me.log) + TakeTurns(env, at, turns).pushed
  {
    LoopLogs(c, env, me, at, turns, me.queue[..|turns|]);
  }
}
