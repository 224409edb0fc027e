/** Which worker and which entry a packet goes to, and whether the two directions of a flow meet there. */
module FlowAffinity {
  import opened Prelude
  import opened Types
  import opened Sequences
  import opened Flow
  import opened Engine
  import opened EngineHistory
  import PP = PacketParser
  import FG = FrameGrammar
  import Pcap
  import P = Pipeline
  import PI = PipelineInvariants
  import PT = PipelineTheorems
  import PD = PipelineDrain

  function TupleRoute(c: P.Setup, t: FiveTuple): (w: nat)
    ensures w < c.n
  {
    c.hash(t) % c.n
  }

  // ----- one worker for a flow -----

  predicate OfFlow(t: FiveTuple, u: FiveTuple) {
    u == t || u == t.Reversed()
  }

  ghost predicate OneWorker(c: P.Setup, t: FiveTuple) {
    forall i, j ::
      0 <= i < |c.jobs| && 0 <= j < |c.jobs| && OfFlow(t, c.jobs[i].tuple) && OfFlow(t, c.jobs[j].tuple) ==>
      P.RouteOf(c, c.jobs[i]) == P.RouteOf(c, c.jobs[j])
  }

  predicate Occurs(jobs: seq<PacketJob>, t: FiveTuple) {
    exists i :: 0 <= i < |jobs| && jobs[i].tuple == t
  }

  /**
   All packets of a flow go to one worker exactly when its two directed tuples hash to one, or
   only one of them occurs.
   */
  lemma AffinityExactlyWhen(c: P.Setup, t: FiveTuple)
    ensures OneWorker(c, t) <==>
              TupleRoute(c, t) == TupleRoute(c, t.Reversed()) || !Occurs(c.jobs, t) || !Occurs(c.jobs, t.Reversed())
  {
    if OneWorker(c, t) && Occurs(c.jobs, t) && Occurs(c.jobs, t.Reversed()) {
      var i :| 0 <= i < |c.jobs| && c.jobs[i].tuple == t;
      var j :| 0 <= j < |c.jobs| && c.jobs[j].tuple == t.Reversed();
      assert P.RouteOf(c, c.jobs[i]) == P.RouteOf(c, c.jobs[j]);
    }
  }

  // ----- one place for a flow -----

  /** The worker a tuple is routed to, and the key it resolves to in that worker's table. */
  datatype Place = Place(worker: nat, key: FiveTuple)

  function PlaceOf(c: P.Setup, s: P.State, t: FiveTuple): Place
    requires P.WellFormed(c, s)
  {
    Place(TupleRoute(c, t), Resolve(s.workers[TupleRoute(c, t)].flows, t))
  }

  /** From its `n`-th event on the worker has seen both directions of a flow without an entry, and evicted neither. */
  ghost predicate Meets(c: P.Setup, env: Env, acts: seq<P.Action>, n: nat, t: FiveTuple)
    requires P.Schedulable(c, acts)
  {
    var events := WorkerEvents(c, acts, TupleRoute(c, t.Normalised()));
    && NewPair(env, events, n, t)
    && Seen(events[n..], t.Normalised()) && Seen(events[n..], t.Normalised().Reversed())
  }

  /**
   In every schedule, with evictions of other flows anywhere: the two directions of a flow share
   their place exactly when they hash to one worker and that worker saw the canonical one first.
   */
  lemma DirectionsShareAPlace(c: P.Setup, env: Env, acts: seq<P.Action>, n: nat, t: FiveTuple)
    requires Runs(c, env) && P.Schedulable(c, acts) && t.Normalised() != t.Normalised().Reversed()
    requires n <= |WorkerEvents(c, acts, TupleRoute(c, t.Normalised()))|
    requires TupleRoute(c, t.Normalised()) == TupleRoute(c, t.Normalised().Reversed()) ==> Meets(c, env, acts, n, t)
    ensures P.WellFormed(c, P.StateAfter(c, acts))
    ensures var canon := t.Normalised();
            var reply, s := canon.Reversed(), P.StateAfter(c, acts);
            PlaceOf(c, s, canon) == PlaceOf(c, s, reply) <==>
              && TupleRoute(c, canon) == TupleRoute(c, reply)
              && FirstOf(WorkerEvents(c, acts, TupleRoute(c, canon))[n..], canon, reply) == Some(canon)
  {
    var w := TupleRoute(c, t.Normalised());
    WorkerReplays(c, env, acts, w);
    if w == TupleRoute(c, t.Normalised().Reversed()) {
      DirectionsShare(env, WorkerEvents(c, acts, w), n, t);
    }
  }

  /** The worker has evicted nothing and has decided a packet of this tuple. */
  ghost predicate Settled(c: P.Setup, s: P.State, t: FiveTuple)
    requires P.WellFormed(c, s)
  {
    var me := s.workers[TupleRoute(c, t)];
    !me.evicted && Occurs(PI.HandledJobs(me.log), t)
  }

  lemma {:induction false} SeenAmong(jobs: seq<PacketJob>, t: FiveTuple)
    requires Occurs(jobs, t)
    ensures Seen(Events(jobs), t)
  {
    var i :| 0 <= i < |jobs| && jobs[i].tuple == t;
    assert Events(jobs)[i] == Packet(At(jobs[i]));
  }

  /** The same from the logs: both directions decided, and nothing evicted where they were. */
  lemma SettledDirectionsShare(c: P.Setup, env: Env, acts: seq<P.Action>, t: FiveTuple)
    requires Runs(c, env) && P.Schedulable(c, acts) && t.Normalised() != t.Normalised().Reversed()
    requires P.WellFormed(c, P.StateAfter(c, acts))
    requires Settled(c, P.StateAfter(c, acts), t.Normalised())
    requires Settled(c, P.StateAfter(c, acts), t.Normalised().Reversed())
    ensures var canon := t.Normalised();
            var reply, s := canon.Reversed(), P.StateAfter(c, acts);
            PlaceOf(c, s, canon) == PlaceOf(c, s, reply) <==>
              && TupleRoute(c, canon) == TupleRoute(c, reply)
              && FirstOf(Events(PI.HandledJobs(s.workers[TupleRoute(c, canon)].log)), canon, reply) == Some(canon)
  {
    var canon, w := t.Normalised(), TupleRoute(c, t.Normalised());
    if w == TupleRoute(c, canon.Reversed()) {
      PT.ScheduleIndependence(c, acts, w);
      var jobs := PI.HandledJobs(P.StateAfter(c, acts).workers[w].log);
      SequentialIsRun(c, env, jobs);
      JobsShare(env, jobs, t);
    }
  }

  lemma JobsShare(env: Env, jobs: seq<PacketJob>, t: FiveTuple)
    requires t.Normalised() != t.Normalised().Reversed()
    requires Occurs(jobs, t.Normalised()) && Occurs(jobs, t.Normalised().Reversed())
    ensures var canon, flows := t.Normalised(), Run(env, Events(jobs));
            Resolve(flows, canon) == Resolve(flows, canon.Reversed()) <==>
              FirstOf(Events(jobs), canon, canon.Reversed()) == Some(canon)
  {
    var events := Events(jobs);
    SeenAmong(jobs, t.Normalised());
    SeenAmong(jobs, t.Normalised().Reversed());
    assert events[..0] == [] && events[0..] == events;
    DirectionsShare(env, events, 0, t);
  }

  // ----- captures whose flow does not meet -----

  /** One packet each way. */
  predicate ThereAndBack(packets: seq<Pcap.Packet>, first: FiveTuple) {
    var jobs := JobsOf(packets);
    |jobs| == 2 && jobs[0].tuple == first && jobs[1].tuple == first.Reversed()
  }

  /** A packet holding a generated TCP frame. */
  function Generated(macs: seq<byte>, id: u16, t: FiveTuple, flags: byte, payload: seq<byte>): (p: Pcap.Packet)
    requires |macs| == 12 && t.protocol == PP.TCP && 40 + |payload| < 0x1_0000
  {
    Pcap.Packet(0, 0, FG.GeneratedTcp(macs, id, t, 0, 0, flags, payload).Encode())
  }

  function Pair(macs: seq<byte>, id: u16, first: FiveTuple, flags: byte, there: seq<byte>,
                back: seq<byte>): seq<Pcap.Packet>
    requires |macs| == 12 && first.protocol == PP.TCP && 40 + |there| < 0x1_0000 && 40 + |back| < 0x1_0000
  {
    [Generated(macs, id, first, flags, there), Generated(macs, id, first.Reversed(), flags, back)]
  }

  lemma GeneratedThereAndBack(macs: seq<byte>, id: u16, first: FiveTuple, flags: byte, there: seq<byte>,
                              back: seq<byte>)
    requires |macs| == 12 && first.protocol == PP.TCP && 40 + |there| < 0x1_0000 && 40 + |back| < 0x1_0000
    ensures ThereAndBack(Pair(macs, id, first, flags, there, back), first)
  {
    var packets := Pair(macs, id, first, flags, there, back);
    FG.FrameRoundTrip(FG.GeneratedTcp(macs, id, first, 0, 0, flags, there));
    FG.FrameRoundTrip(FG.GeneratedTcp(macs, id, first.Reversed(), 0, 0, flags, back));
    assert packets[..1] == [packets[0]] && [packets[0]][..0] == [];
    assert JobsOf([packets[0]]) == [JobOf(packets[0], 0)];
  }

  /** In a drained run each worker has handled exactly its share. */
  lemma DrainedHandles(c: P.Setup, s: P.State, t: FiveTuple)
    requires PT.Drained(c, s) && PD.EveryJobDecided(c, s) && Occurs(c.jobs, t)
    ensures Settled(c, s, t)
  {
    var w := TupleRoute(c, t);
    var i :| 0 <= i < |c.jobs| && c.jobs[i].tuple == t;
    FilterMember(P.ForWorker(c, w), c.jobs, c.jobs[i]);
    var k := Position(PI.HandledJobs(s.workers[w].log), c.jobs[i]);
  }

  lemma {:induction false} FirstIsFirst(jobs: seq<PacketJob>, t: FiveTuple, u: FiveTuple)
    requires jobs != [] && (jobs[0].tuple == t || jobs[0].tuple == u)
    ensures FirstOf(Events(jobs), t, u) == Some(jobs[0].tuple)
  {
    var front := jobs[..|jobs| - 1];
    assert Events(jobs)[..|front|] == Events(front);
    if front != [] {
      FirstIsFirst(front, t, u);
    }
  }

  /** Both jobs go to one worker, so it handles them in this order. */
  lemma BothHandled(c: P.Setup, s: P.State)
    requires PD.EveryJobDecided(c, s) && |c.jobs| == 2 && P.RouteOf(c, c.jobs[0]) == P.RouteOf(c, c.jobs[1])
    ensures PI.HandledJobs(s.workers[P.RouteOf(c, c.jobs[0])].log) == c.jobs
  {
    assert c.jobs[..1] == [c.jobs[0]] && [c.jobs[0]][..0] == [];
    assert Filter(P.ForWorker(c, P.RouteOf(c, c.jobs[0])), [c.jobs[0]]) == [c.jobs[0]];
  }

  /**
   A capture of one frame each way ends in two places, for any rules and payloads, exactly when
   the directions hash to two workers or the first frame is not the canonical direction.
   */
  lemma CaptureMeets(packets: seq<Pcap.Packet>, first: FiveTuple, n: nat, hash: FiveTuple -> nat, env: Env)
    returns (acts: seq<P.Action>)
    requires n > 0 && ThereAndBack(packets, first) && first != first.Reversed()
    ensures var c := EngineOf(n, JobsOf(packets), hash, env);
            && P.Schedulable(c, acts)
            && var s := P.StateAfter(c, acts);
               && PT.Drained(c, s) && PD.EveryJobDecided(c, s)
               && (PlaceOf(c, s, first) == PlaceOf(c, s, first.Reversed()) <==>
                     hash(first) % n == hash(first.Reversed()) % n && first.Normalised() == first)
  {
    var c := EngineOf(n, JobsOf(packets), hash, env);
    EngineRuns(n, JobsOf(packets), hash, env);
    acts := PD.DrainedRunExists(c);
    var s := P.StateAfter(c, acts);
    assert c.jobs[0].tuple == first && c.jobs[1].tuple == first.Reversed();
    DrainedHandles(c, s, first);
    DrainedHandles(c, s, first.Reversed());
    NormalisedBothWays(first);
    SettledDirectionsShare(c, env, acts, first);
    if TupleRoute(c, first) == TupleRoute(c, first.Reversed()) {
      BothHandled(c, s);
      FirstIsFirst(c.jobs, first.Normalised(), first.Normalised().Reversed());
    }
  }

  // ----- the source's hash on one flow -----

  function Combine(h: bv64, v: bv64): bv64 {
    h ^ (v + 0x9e3779b9 + (h << 6) + (h >> 2))
  }

  /** FiveTupleHash on the five fields as words, where std::hash of an integer is the integer. */
  function CombineAll(srcIp: bv64, dstIp: bv64, srcPort: bv64, dstPort: bv64, protocol: bv64): bv64 {
    Combine(Combine(Combine(Combine(Combine(0, srcIp), dstIp), srcPort), dstPort), protocol)
  }

  /** A web server answering a client: 142.250.185.206:443 to 192.168.1.100:50000. */
  const ANSWER := FiveTuple(0x8efa_b9ce, 0xc0a8_0164, 443, 50000, 6)
  const ANSWER_HASH: nat := 0x13e_728e_4576_26da
  const REPLY_HASH: nat := 0x16b_18a1_5db5_b1bf

  lemma AnswerHash()
    ensures CombineAll(0x8efa_b9ce, 0xc0a8_0164, 443, 50000, 6) == 0x13e_728e_4576_26da
  {
    assert Combine(0, 0x8efa_b9ce) == 0x1_2d32_3387;
    assert Combine(0x1_2d32_3387, 0xc0a8_0164) == 0x4d_db8a_da39;
    assert Combine(0x4d_db8a_da39, 443) == 0x13c7_2c5a_1a7b;
    assert Combine(0x13c7_2c5a_1a7b, 50000) == 0x4_e57a_538f_781c;
  }

  lemma ReplyHash()
    ensures CombineAll(0xc0a8_0164, 0x8efa_b9ce, 50000, 443, 6) == 0x16b_18a1_5db5_b1bf
  {
    assert Combine(0, 0xc0a8_0164) == 0x1_5edf_7b1d;
    assert Combine(0x1_5edf_7b1d, 0x8efa_b9ce) == 0x58_6217_a293;
    assert Combine(0x58_6217_a293, 50000) == 0x1677_5eb1_68fe;
    assert Combine(0x1677_5eb1_68fe, 443) == 0x5_b501_7c8f_7dcd;
  }

  /** Any hash that has those values on the two directions of that flow. */
  predicate HashesAsSource(hash: FiveTuple -> nat) {
    hash(ANSWER) == ANSWER_HASH && hash(ANSWER.Reversed()) == REPLY_HASH
  }

  // ----- captures of generated frames -----

  /**
   Two frames of one flow, the non-canonical direction first, end in two places: for any
   addresses, payloads, rules, hash and number of workers.
   */
  lemma DirectionsMaySplit(env: Env, macs: seq<byte>, id: u16, t: FiveTuple, flags: byte,
                           there: seq<byte>, back: seq<byte>, n: nat, hash: FiveTuple -> nat)
    returns (acts: seq<P.Action>)
    requires |macs| == 12 && t.protocol == PP.TCP && 40 + |there| < 0x1_0000 && 40 + |back| < 0x1_0000
    requires t.Normalised() != t && n > 0
    ensures var packets := Pair(macs, id, t, flags, there, back);
            var c := EngineOf(n, JobsOf(packets), hash, env);
            && P.Schedulable(c, acts) && PT.Drained(c, P.StateAfter(c, acts))
            && PlaceOf(c, P.StateAfter(c, acts), t) != PlaceOf(c, P.StateAfter(c, acts), t.Reversed())
  {
    GeneratedThereAndBack(macs, id, t, flags, there, back);
    acts := CaptureMeets(Pair(macs, id, t, flags, there, back), t, n, hash, env);
  }

  /**
   And so may a flow whose canonical direction comes first: with two workers and the values of the
   source's hash, the server's answer and the client's next packet go to different workers.
   */
  lemma AnswerMaySplit(env: Env, macs: seq<byte>, id: u16, flags: byte, there: seq<byte>, back: seq<byte>,
                       hash: FiveTuple -> nat)
    returns (acts: seq<P.Action>)
    requires |macs| == 12 && 40 + |there| < 0x1_0000 && 40 + |back| < 0x1_0000 && HashesAsSource(hash)
    ensures ANSWER.Normalised() == ANSWER
    ensures var packets := Pair(macs, id, ANSWER, flags, there, back);
            var c := EngineOf(2, JobsOf(packets), hash, env);
            && !OneWorker(c, ANSWER)
            && P.Schedulable(c, acts) && PT.Drained(c, P.StateAfter(c, acts))
            && PlaceOf(c, P.StateAfter(c, acts), ANSWER) != PlaceOf(c, P.StateAfter(c, acts), ANSWER.Reversed())
  {
    var packets := Pair(macs, id, ANSWER, flags, there, back);
    var c := EngineOf(2, JobsOf(packets), hash, env);
    GeneratedThereAndBack(macs, id, ANSWER, flags, there, back);
    acts := CaptureMeets(packets, ANSWER, 2, hash, env);
    assert Occurs(c.jobs, ANSWER) && Occurs(c.jobs, ANSWER.Reversed());
    AffinityExactlyWhen(c, ANSWER);
  }

  /** A hash with those values. */
  function SplitHash(t: FiveTuple): nat {
    if t == ANSWER then ANSWER_HASH else if t == ANSWER.Reversed() then REPLY_HASH else 0
  }

  lemma SplitHashIsOne()
    ensures HashesAsSource(SplitHash)
  {
    assert ANSWER.Reversed().srcPort == 50000;
  }

  /** So affinity does fail: of the engine, on a capture of two generated frames. */
  lemma AffinityFails(env: Env) returns (c: P.Setup)
    ensures Runs(c, env) && c.n == 2 && !OneWorker(c, ANSWER)
  {
    var macs := [0, 0, 0, 0, 0, 0, 0, 0, 0, 0, 0, 0];
    var jobs := JobsOf(Pair(macs, 0, ANSWER, 0, [], []));
    c := EngineOf(2, jobs, SplitHash, env);
    EngineRuns(2, jobs, SplitHash, env);
    SplitHashIsOne();
    var acts := AnswerMaySplit(env, macs, 0, 0, [], [], SplitHash);
  }
}
