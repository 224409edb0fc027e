/**
 Every schedule of the engine, evictions included, as runs of the flow table: each worker's steps
 are the events of one run, and its decisions are that run's verdicts.
 */
module EngineHistory {
  import opened Types
  import opened Sequences
  import opened Flow
  import opened Engine
  import P = Pipeline
  import PI = PipelineInvariants
  import PC = PipelineCounters
  import PT = PipelineTheorems
  import PD = PipelineDrain

  // ----- the events of a worker -----

  /** What one step of a worker does to its table: a packet, a cleanup of what it removes, or nothing. */
  function StepEvents(me: P.Worker, stale: set<FiveTuple>): (events: seq<Event>)
    ensures |events| <= 1
  {
    match me.pc {
      case Process(job) => [Packet(At(job))]
      case Finish => [Cleanup(stale * me.flows.Keys)]
      case _ => []
    }
  }

  /** All of a worker's events in a schedule, oldest first. */
  function WorkerEvents(c: P.Setup, acts: seq<P.Action>, w: nat): seq<Event>
    requires P.Schedulable(c, acts) && w < c.n
    decreases |acts|
  {
    if acts == [] then []
    else
      var front, a := acts[..|acts| - 1], acts[|acts| - 1];
      WorkerEvents(c, front, w)
      + if a.WorkerStep? && a.w == w then StepEvents(P.StateAfter(c, front).workers[w], a.stale) else []
  }

  /** The verdicts of a run, packet by packet. */
  function Verdicts(env: Env, events: seq<Event>): (log: seq<P.Decision>)
    ensures |log| <= |events|
  {
    if events == [] then []
    else
      var front, e := events[..|events| - 1], events[|events| - 1];
      Verdicts(env, front) + if e.Packet? then [VerdictAfter(env, front, e.a)] else []
  }

  function VerdictAfter(env: Env, before: seq<Event>, a: Arrival): P.Decision {
    P.Decision(a.job, Flow.Handled(env, Run(env, before), a).action)
  }

  /** The run of these events leaves this worker's table and decides what it has decided. */
  ghost predicate Replays(env: Env, me: P.Worker, events: seq<Event>) {
    && Run(env, events) == me.flows && Verdicts(env, events) == me.log
    && (!me.evicted ==> forall i :: 0 <= i < |events| && events[i].Cleanup? ==> events[i].stale == {})
  }

  lemma ReplayProcess(c: P.Setup, env: Env, me: P.Worker, stale: set<FiveTuple>, events: seq<Event>)
    requires Runs(c, env) && Replays(env, me, events) && me.pc.Process?
    ensures Replays(env, P.NextWorker(c, me, stale), events + StepEvents(me, stale))
  {
    var e := Packet(At(me.pc.job));
    RunSnoc(env, events, e);
    assert c.process(me.flows, me.pc.job) == Decide(env, me.flows, me.pc.job);
    assert (events + [e])[..|events|] == events;
  }

  lemma FinishedWorker(c: P.Setup, me: P.Worker, stale: set<FiveTuple>)
    requires me.pc.Finish?
    ensures var me', removed := P.NextWorker(c, me, stale), stale * me.flows.Keys;
            && me'.flows == me.flows - removed && me'.log == me.log
            && me'.evicted == (me.evicted || removed != {})
  {
  }

  lemma CleanupSnoc(env: Env, events: seq<Event>, removed: set<FiveTuple>)
    ensures Run(env, events + [Cleanup(removed)]) == Run(env, events) - removed
    ensures Verdicts(env, events + [Cleanup(removed)]) == Verdicts(env, events)
  {
    RunSnoc(env, events, Cleanup(removed));
    assert (events + [Cleanup(removed)])[..|events|] == events;
  }

  lemma ReplayFinish(c: P.Setup, env: Env, me: P.Worker, stale: set<FiveTuple>, events: seq<Event>)
    requires Replays(env, me, events) && me.pc.Finish?
    ensures Replays(env, P.NextWorker(c, me, stale), events + StepEvents(me, stale))
  {
    var me', removed := P.NextWorker(c, me, stale), stale * me.flows.Keys;
    FinishedWorker(c, me, stale);
    CleanupSnoc(env, events, removed);
    assert Replays(env, me', events + [Cleanup(removed)]);
  }

  lemma ReplayStep(c: P.Setup, env: Env, me: P.Worker, stale: set<FiveTuple>, events: seq<Event>)
    requires Runs(c, env) && Replays(env, me, events)
    ensures Replays(env, P.NextWorker(c, me, stale), events + StepEvents(me, stale))
  {
    if me.pc.Process? {
      ReplayProcess(c, env, me, stale, events);
    } else if me.pc.Finish? {
      ReplayFinish(c, env, me, stale, events);
    } else {
      ReplayNothing(c, env, me, stale, events);
    }
  }

  lemma OtherSteps(c: P.Setup, me: P.Worker, stale: set<FiveTuple>)
    requires !me.pc.Process? && !me.pc.Finish?
    ensures var me' := P.NextWorker(c, me, stale);
            me'.flows == me.flows && me'.log == me.log && me'.evicted == me.evicted
  {
  }

  lemma ReplayNothing(c: P.Setup, env: Env, me: P.Worker, stale: set<FiveTuple>, events: seq<Event>)
    requires Replays(env, me, events) && !me.pc.Process? && !me.pc.Finish?
    ensures Replays(env, P.NextWorker(c, me, stale), events + StepEvents(me, stale))
  {
    var me' := P.NextWorker(c, me, stale);
    OtherSteps(c, me, stale);
    assert Replays(env, me', events);
    assert events + [] == events;
  }

  /** From deciding a packet to the end of its turn. */
  predicate InTurn(pc: P.WorkerPc) {
    pc.CountTotal? || pc.CountApp? || pc.CountVerdict? || pc.Forward? || pc.Finish?
  }

  /** The steps of the others leave a worker's table, log and counts alone. */
  lemma OthersKeep(c: P.Setup, s: P.State, a: P.Action, w: nat)
    requires P.Enabled(c, s, a) && w < c.n && !(a.WorkerStep? && a.w == w)
    ensures var s' := P.Apply(c, s, a);
            && P.WellFormed(c, s')
            && s'.workers[w].flows == s.workers[w].flows && s'.workers[w].log == s.workers[w].log
            && s'.workers[w].evicted == s.workers[w].evicted && s'.workers[w].processed == s.workers[w].processed
            && (InTurn(s'.workers[w].pc) <==> InTurn(s.workers[w].pc))
  {
    match a {
      case MainStep => MainKeeps(c, s, w);
      case BalancerStep => BalancerKeeps(c, s, w);
      case WorkerStep(_, _) =>
      case WorkerTimeout(_) =>
      case BalancerTimeout =>
      case WriterStep =>
      case WriterTimeout =>
    }
  }

  lemma MainKeeps(c: P.Setup, s: P.State, w: nat)
    requires P.WellFormed(c, s) && P.MainEnabled(c, s) && w < c.n
    ensures var s' := P.ApplyMain(c, s);
            && P.WellFormed(c, s')
            && s'.workers[w] == s.workers[w].(running := s'.workers[w].running, shut := s'.workers[w].shut)
  {
    PI.MainSameWork(c, s);
  }

  lemma BalancerKeeps(c: P.Setup, s: P.State, w: nat)
    requires P.WellFormed(c, s) && P.BalancerEnabled(c, s) && w < c.n
    ensures var s' := P.ApplyBalancer(c, s);
            P.WellFormed(c, s') && s'.workers[w] == s.workers[w].(queue := s'.workers[w].queue)
  {
  }

  /**
   After every schedule, evictions included, a worker's table is the run of its events, its log is
   that run's verdicts, and if it has evicted nothing its cleanups removed nothing.
   */
  lemma {:induction false} WorkerReplays(c: P.Setup, env: Env, acts: seq<P.Action>, w: nat)
    requires Runs(c, env) && P.Schedulable(c, acts) && w < c.n
    ensures P.WellFormed(c, P.StateAfter(c, acts))
    ensures Replays(env, P.StateAfter(c, acts).workers[w], WorkerEvents(c, acts, w))
    decreases |acts|
  {
    if acts != [] {
      var front, a := acts[..|acts| - 1], acts[|acts| - 1];
      WorkerReplays(c, env, front, w);
      ReplayAction(c, env, P.StateAfter(c, front), a, w, WorkerEvents(c, front, w));
    }
  }

  lemma ReplayAction(c: P.Setup, env: Env, s: P.State, a: P.Action, w: nat, events: seq<Event>)
    requires Runs(c, env) && P.Enabled(c, s, a) && w < c.n && Replays(env, s.workers[w], events)
    ensures P.WellFormed(c, P.Apply(c, s, a))
    ensures var more := if a.WorkerStep? && a.w == w then StepEvents(s.workers[w], a.stale) else [];
            Replays(env, P.Apply(c, s, a).workers[w], events + more)
  {
    if a.WorkerStep? && a.w == w {
      ReplayStep(c, env, s.workers[w], a.stale, events);
    } else {
      OthersKeep(c, s, a, w);
      assert events + [] == events;
    }
  }

  // ----- where a decision stands among the events -----

  lemma {:induction false} VerdictsPrefix(env: Env, events: seq<Event>, p: nat)
    requires p <= |events|
    ensures Verdicts(env, events[..p]) <= Verdicts(env, events)
    decreases |events|
  {
    if p < |events| {
      assert events[..|events| - 1][..p] == events[..p];
      VerdictsPrefix(env, events[..|events| - 1], p);
    } else {
      assert events[..p] == events;
    }
  }

  /** The packet at `p` is decided as the run before it says. */
  lemma VerdictHere(env: Env, events: seq<Event>, p: nat)
    requires p < |events| && events[p].Packet?
    ensures var i := |Verdicts(env, events[..p])|;
            i < |Verdicts(env, events)| && Verdicts(env, events)[i] == VerdictAfter(env, events[..p], events[p].a)
  {
    assert events[..p + 1][..p] == events[..p];
    VerdictsPrefix(env, events, p + 1);
  }

  /** Every decision has its packet among the events. */
  lemma {:induction false} PositionOf(env: Env, events: seq<Event>, i: nat) returns (p: nat)
    requires i < |Verdicts(env, events)|
    ensures p < |events| && events[p].Packet? && |Verdicts(env, events[..p])| == i
    ensures events[p].a.job == Verdicts(env, events)[i].job
    decreases |events|
  {
    var front := events[..|events| - 1];
    if i < |Verdicts(env, front)| {
      p := PositionOf(env, front, i);
      assert front[..p] == events[..p];
    } else {
      p := |front|;
    }
  }

  lemma {:induction false} AllAt(c: P.Setup, acts: seq<P.Action>, w: nat)
    requires P.Schedulable(c, acts) && w < c.n
    ensures forall i :: 0 <= i < |WorkerEvents(c, acts, w)| && WorkerEvents(c, acts, w)[i].Packet? ==>
              WorkerEvents(c, acts, w)[i] == Packet(At(WorkerEvents(c, acts, w)[i].a.job))
    decreases |acts|
  {
    if acts != [] {
      AllAt(c, acts[..|acts| - 1], w);
    }
  }

  lemma LaterDecision(env: Env, events: seq<Event>, p: nat, q: nat)
    requires p <= |events| && q <= |events| && |Verdicts(env, events[..p])| < |Verdicts(env, events[..q])|
    ensures p < q
  {
    if q <= p {
      assert events[..p][..q] == events[..q];
      VerdictsPrefix(env, events[..p], q);
    }
  }

  /** The jobs of a run's packets are those it decides. */
  lemma {:induction false} DecidedJobs(env: Env, events: seq<Event>, i: nat)
    requires i < |events| && events[i].Packet?
    ensures events[i].a.job in PI.HandledJobs(Verdicts(env, events))
    decreases |events|
  {
    var front, e := events[..|events| - 1], events[|events| - 1];
    if i < |front| {
      DecidedJobs(env, front, i);
    }
    if e.Packet? {
      PI.HandledSnoc(Verdicts(env, front), VerdictAfter(env, front, e.a));
    } else {
      assert Verdicts(env, front) + [] == Verdicts(env, front);
    }
  }

  // ----- dropped until evicted -----

  /** Between `p` and `q` the entry that the packet at `p` resolved to was evicted. */
  ghost predicate EvictedBetween(env: Env, events: seq<Event>, p: nat, q: nat) {
    && p < q <= |events| && events[p].Packet?
    && exists m ::
         && p < m < q && events[m].Cleanup?
         && Resolve(Run(env, events[..p]), events[p].a.job.tuple) in events[m].stale
  }

  lemma SparedBetween(env: Env, events: seq<Event>, p: nat, q: nat)
    requires p < q <= |events| && events[p].Packet? && !EvictedBetween(env, events, p, q)
    ensures Spares(events[..q][p + 1..], Resolve(Run(env, events[..p]), events[p].a.job.tuple))
  {
    var key := Resolve(Run(env, events[..p]), events[p].a.job.tuple);
    var between := events[..q][p + 1..];
    forall i | 0 <= i < |between| && between[i].Cleanup? ensures key !in between[i].stale {
      assert between[i] == events[p + 1 + i];
    }
  }

  /** In any run of the table, a tuple that is dropped stays dropped until its entry is evicted. */
  lemma DroppedUntilEvicted(env: Env, events: seq<Event>, p: nat, q: nat)
    requires p < q < |events| && events[p].Packet? && events[q].Packet?
    requires events[p].a.job.tuple == events[q].a.job.tuple && !EvictedBetween(env, events, p, q)
    requires VerdictAfter(env, events[..p], events[p].a).action.DROP?
    ensures VerdictAfter(env, events[..q], events[q].a).action.DROP?
  {
    var before := events[..q];
    assert before[..p + 1] == events[..p] + [events[p]];
    DroppedSoFar(env, events[..p], events[p].a);
    SparedBetween(env, events, p, q);
    StaysDroppedUntil(env, before, p + 1, events[p].a.job.tuple);
    DropsWhenBlocked(env, Run(env, before), events[q].a);
  }

  /** The packets of two decisions, and an eviction of the first one's entry between them. */
  ghost predicate EvictedBetweenDecisions(env: Env, events: seq<Event>, i: nat, k: nat) {
    exists p: nat, q: nat :: p < q < |events| && |Verdicts(env, events[..p])| == i && |Verdicts(env, events[..q])| == k
                   && events[q].Packet? && EvictedBetween(env, events, p, q)
  }

  /**
   In every schedule of the engine, a directed tuple that has been dropped once is dropped ever
   after, unless its own entry was evicted in between.
   */
  lemma DroppedForGood(c: P.Setup, env: Env, acts: seq<P.Action>, w: nat, i: nat, k: nat)
    requires Runs(c, env) && P.Schedulable(c, acts) && w < c.n
    requires var me := P.StateAfter(c, acts).workers;
             && w < |me| && i < k < |me[w].log|
             && me[w].log[i].job.tuple == me[w].log[k].job.tuple && me[w].log[i].action.DROP?
    ensures P.StateAfter(c, acts).workers[w].log[k].action.DROP?
            || EvictedBetweenDecisions(env, WorkerEvents(c, acts, w), i, k)
  {
    WorkerReplays(c, env, acts, w);
    var events := WorkerEvents(c, acts, w);
    var p := PositionOf(env, events, i);
    var q := PositionOf(env, events, k);
    LaterDecision(env, events, p, q);
    VerdictHere(env, events, p);
    VerdictHere(env, events, q);
    if !EvictedBetween(env, events, p, q) {
      DroppedUntilEvicted(env, events, p, q);
    }
  }

  // ----- what that means for the output file -----

  lemma FilterAt(p: PacketJob -> bool, s: seq<PacketJob>, j: nat)
    requires j < |s| && p(s[j])
    ensures var f, g := Filter(p, s[..j]), Filter(p, s);
            |f| < |g| && g[..|f|] == f && g[|f|] == s[j]
  {
    assert s == s[..j] + ([s[j]] + s[j + 1..]);
    FilterConcat(p, s[..j], [s[j]] + s[j + 1..]);
    FilterConcat(p, [s[j]], s[j + 1..]);
    assert [s[j]][..0] == [];
  }

  /** A worker that has decided the job at `j` decided before it exactly its earlier jobs. */
  lemma DecidedAt(c: P.Setup, handled: seq<PacketJob>, w: nat, j: nat, p: nat)
    requires PT.Numbered(c.jobs) && j < |c.jobs| && P.RouteOf(c, c.jobs[j]) == w
    requires handled <= Filter(P.ForWorker(c, w), c.jobs) && p < |handled| && handled[p] == c.jobs[j]
    ensures handled[..p] == Filter(P.ForWorker(c, w), c.jobs[..j])
  {
    var mine := P.ForWorker(c, w);
    FilterAt(mine, c.jobs, j);
    FilterIncreasing(PT.Id, mine, c.jobs);
    var all, k := Filter(mine, c.jobs), |Filter(mine, c.jobs[..j])|;
    assert all[p] == all[k] == c.jobs[j];
    assert p == k;
  }

  /** One packet is handled, then its entry is evicted, then the other packet is handled. */
  ghost predicate EvictedAfter(env: Env, events: seq<Event>, first: PacketJob, second: PacketJob) {
    exists p: nat, q: nat :: p < q < |events| && events[p] == Packet(At(first)) && events[q] == Packet(At(second))
                   && EvictedBetween(env, events, p, q)
  }

  /** Where a written job was decided: after its worker's earlier jobs, and forwarded. */
  lemma WrittenAt(c: P.Setup, env: Env, acts: seq<P.Action>, j: nat) returns (q: nat)
    requires Runs(c, env) && PT.Numbered(c.jobs) && P.Schedulable(c, acts) && j < |c.jobs|
    requires c.jobs[j] in P.StateAfter(c, acts).written
    ensures var w := P.RouteOf(c, c.jobs[j]);
            var events := WorkerEvents(c, acts, w);
            && q < |events| && events[q] == Packet(At(c.jobs[j]))
            && VerdictAfter(env, events[..q], events[q].a).action.FORWARD?
            && PI.HandledJobs(Verdicts(env, events[..q])) == Filter(P.ForWorker(c, w), c.jobs[..j])
  {
    var w := P.RouteOf(c, c.jobs[j]);
    var events := WorkerEvents(c, acts, w);
    PT.InvAlways(c, acts);
    WorkerReplays(c, env, acts, w);
    AllAt(c, acts, w);
    var k := PT.WrittenWasForwarded(c, P.StateAfter(c, acts), c.jobs[j]);
    q := PositionOf(env, events, k);
    VerdictHere(env, events, q);
    HandledBefore(c, env, acts, j, q);
  }

  lemma LogIsPrefix(env: Env, events: seq<Event>, q: nat)
    requires q < |events| && events[q].Packet?
    ensures var k, log := |Verdicts(env, events[..q])|, Verdicts(env, events);
            && k < |log| && PI.HandledJobs(log)[..k] == PI.HandledJobs(Verdicts(env, events[..q]))
            && PI.HandledJobs(log)[k] == events[q].a.job
  {
    VerdictHere(env, events, q);
    VerdictsPrefix(env, events, q);
    var log, k := Verdicts(env, events), |Verdicts(env, events[..q])|;
    HandledOfPrefix(log, k);
    assert log[..k] == Verdicts(env, events[..q]);
  }

  lemma {:induction false} HandledOfPrefix(log: seq<P.Decision>, k: nat)
    requires k < |log|
    ensures PI.HandledJobs(log)[..k] == PI.HandledJobs(log[..k]) && PI.HandledJobs(log)[k] == log[k].job
    decreases |log|
  {
    var front := log[..|log| - 1];
    if k < |front| {
      HandledOfPrefix(front, k);
      assert front[..k] == log[..k];
      assert PI.HandledJobs(log)[..k] == PI.HandledJobs(front)[..k];
    }
  }

  /** What a worker has handled when it handles a job: exactly its earlier jobs. */
  lemma HandledBefore(c: P.Setup, env: Env, acts: seq<P.Action>, j: nat, q: nat)
    requires Runs(c, env) && PT.Numbered(c.jobs) && P.Schedulable(c, acts) && j < |c.jobs|
    requires var events := WorkerEvents(c, acts, P.RouteOf(c, c.jobs[j]));
             q < |events| && events[q] == Packet(At(c.jobs[j]))
    ensures var w := P.RouteOf(c, c.jobs[j]);
            PI.HandledJobs(Verdicts(env, WorkerEvents(c, acts, w)[..q])) == Filter(P.ForWorker(c, w), c.jobs[..j])
  {
    var w := P.RouteOf(c, c.jobs[j]);
    var events := WorkerEvents(c, acts, w);
    PT.InvAlways(c, acts);
    WorkerReplays(c, env, acts, w);
    PT.DecidedPrefix(c, P.StateAfter(c, acts), w);
    LogIsPrefix(env, events, q);
    DecidedAt(c, PI.HandledJobs(Verdicts(env, events)), w, j, |Verdicts(env, events[..q])|);
  }

  /** An earlier job of the same worker was decided before it. */
  lemma EarlierAt(c: P.Setup, env: Env, acts: seq<P.Action>, i: nat, j: nat, q: nat) returns (p: nat)
    requires P.Schedulable(c, acts) && i < j < |c.jobs| && P.RouteOf(c, c.jobs[i]) == P.RouteOf(c, c.jobs[j])
    requires var w := P.RouteOf(c, c.jobs[j]);
             var events := WorkerEvents(c, acts, w);
             q < |events| && PI.HandledJobs(Verdicts(env, events[..q])) == Filter(P.ForWorker(c, w), c.jobs[..j])
    ensures p < q && WorkerEvents(c, acts, P.RouteOf(c, c.jobs[j]))[p] == Packet(At(c.jobs[i]))
  {
    var w := P.RouteOf(c, c.jobs[j]);
    var events := WorkerEvents(c, acts, w);
    assert c.jobs[..j][i] == c.jobs[i];
    FilterMember(P.ForWorker(c, w), c.jobs[..j], c.jobs[i]);
    var log := Verdicts(env, events[..q]);
    var k := Position(PI.HandledJobs(log), c.jobs[i]);
    HandledOfPrefix(log, k);
    p := PositionOf(env, events[..q], k);
    AllAt(c, acts, w);
  }

  /**
   If a job is dropped wherever it is handled, a later job of its directed tuple reaches the file
   only after the entry was evicted; evictions of other flows make no difference.
   */
  lemma DroppedNeverWritten(c: P.Setup, env: Env, acts: seq<P.Action>, i: nat, j: nat)
    requires Runs(c, env) && PT.Numbered(c.jobs) && P.Schedulable(c, acts)
    requires i <= j < |c.jobs| && c.jobs[i].tuple == c.jobs[j].tuple
    requires DroppedWherever(c, env, acts, i)
    ensures c.jobs[j] in P.StateAfter(c, acts).written ==>
              i < j && EvictedAfter(env, WorkerEvents(c, acts, P.RouteOf(c, c.jobs[j])), c.jobs[i], c.jobs[j])
  {
    if c.jobs[j] in P.StateAfter(c, acts).written {
      var events := WorkerEvents(c, acts, P.RouteOf(c, c.jobs[j]));
      var q := WrittenAt(c, env, acts, j);
      assert i < j;
      var p := EarlierAt(c, env, acts, i, j, q);
      if !EvictedBetween(env, events, p, q) {
        DroppedUntilEvicted(env, events, p, q);
      }
    }
  }

  /** Its worker's verdict on the job is DROP, if it handles it. */
  ghost predicate DroppedWherever(c: P.Setup, env: Env, acts: seq<P.Action>, i: nat)
    requires P.Schedulable(c, acts) && i < |c.jobs|
  {
    var events := WorkerEvents(c, acts, P.RouteOf(c, c.jobs[i]));
    forall p :: 0 <= p < |events| && events[p] == Packet(At(c.jobs[i])) ==>
      VerdictAfter(env, events[..p], At(c.jobs[i])).action.DROP?
  }

  // ----- too few packets to evict anything -----

  /** A worker counts its turns, and evicts only when it has had a whole interval of them. */
  predicate CountsTurns(me: P.Worker) {
    && me.processed + (if InTurn(me.pc) then 1 else 0) == |me.log|
    && (me.evicted ==> CLEANUP_INTERVAL <= |me.log|)
  }

  ghost predicate AllCountTurns(c: P.Setup, s: P.State) {
    P.WellFormed(c, s) && forall w :: 0 <= w < c.n ==> CountsTurns(s.workers[w])
  }

  lemma TurnsOfWorker(c: P.Setup, me: P.Worker, stale: set<FiveTuple>)
    requires CountsTurns(me)
    requires stale != {} ==> me.pc.Finish? && (me.processed + 1) % CLEANUP_INTERVAL == 0
    ensures CountsTurns(P.NextWorker(c, me, stale))
  {
  }

  lemma TurnsStep(c: P.Setup, s: P.State, a: P.Action)
    requires AllCountTurns(c, s) && P.Enabled(c, s, a)
    ensures AllCountTurns(c, P.Apply(c, s, a))
  {
    forall w | 0 <= w < c.n
      ensures P.WellFormed(c, P.Apply(c, s, a)) && CountsTurns(P.Apply(c, s, a).workers[w])
    {
      if a.WorkerStep? && a.w == w {
        TurnsOfWorker(c, s.workers[w], a.stale);
      } else {
        TurnsOfOther(c, s, a, w);
      }
    }
  }

  lemma TurnsOfOther(c: P.Setup, s: P.State, a: P.Action, w: nat)
    requires P.Enabled(c, s, a) && w < c.n && CountsTurns(s.workers[w]) && !(a.WorkerStep? && a.w == w)
    ensures P.WellFormed(c, P.Apply(c, s, a)) && CountsTurns(P.Apply(c, s, a).workers[w])
  {
    OthersKeep(c, s, a, w);
  }

  lemma {:induction false} TurnsAlways(c: P.Setup, acts: seq<P.Action>)
    requires P.Schedulable(c, acts)
    ensures AllCountTurns(c, P.StateAfter(c, acts))
  {
    if acts != [] {
      TurnsAlways(c, acts[..|acts| - 1]);
      TurnsStep(c, P.StateAfter(c, acts[..|acts| - 1]), acts[|acts| - 1]);
    }
  }

  /** A worker to which fewer packets hash than a cleanup interval never evicts, in any schedule. */
  lemma FewPacketsNeverEvict(c: P.Setup, acts: seq<P.Action>, w: nat)
    requires P.Schedulable(c, acts) && w < c.n
    requires |Filter(P.ForWorker(c, w), c.jobs)| < CLEANUP_INTERVAL
    ensures P.WellFormed(c, P.StateAfter(c, acts)) && !P.StateAfter(c, acts).workers[w].evicted
  {
    TurnsAlways(c, acts);
    PT.InvAlways(c, acts);
    PT.DecidedPrefix(c, P.StateAfter(c, acts), w);
    assert CountsTurns(P.StateAfter(c, acts).workers[w]);
  }

  /** Every worker's share of the input is smaller than a cleanup interval. */
  predicate Small(c: P.Setup) {
    forall w :: 0 <= w < c.n ==> |Filter(P.ForWorker(c, w), c.jobs)| < CLEANUP_INTERVAL
  }

  /** A run to the end in which every job the reader emitted was decided. */
  ghost predicate DecidesAll(c: P.Setup, acts: seq<P.Action>) {
    && P.Schedulable(c, acts) && P.StateAfter(c, acts).main.Done?
    && PD.EveryJobDecided(c, P.StateAfter(c, acts))
  }

  lemma SmallRunDrains(c: P.Setup, acts: seq<P.Action>)
    requires Small(c) && DecidesAll(c, acts)
    ensures PT.Drained(c, P.StateAfter(c, acts))
  {
    PT.InvAlways(c, acts);
    PD.DecidedMeansEmpty(c, P.StateAfter(c, acts));
    forall w | 0 <= w < c.n ensures !P.StateAfter(c, acts).workers[w].evicted {
      FewPacketsNeverEvict(c, acts, w);
    }
  }

  /** So on a small input all runs that decide every job write the same packets. */
  lemma SmallInputsAgree(c: P.Setup, acts: seq<P.Action>, acts': seq<P.Action>)
    requires Small(c) && DecidesAll(c, acts) && DecidesAll(c, acts')
    ensures var f, f' := P.StateAfter(c, acts).written, P.StateAfter(c, acts').written;
            && (forall w :: 0 <= w < c.n ==> Filter(P.ForWorker(c, w), f) == Filter(P.ForWorker(c, w), f'))
            && multiset(f) == multiset(f')
  {
    SmallRunDrains(c, acts);
    SmallRunDrains(c, acts');
    PT.DrainedRunsAgree(c, acts, acts');
  }

  lemma NoneEvictedAfter(c: P.Setup, env: Env, acts: seq<P.Action>, w: nat, first: PacketJob, second: PacketJob)
    requires Runs(c, env) && P.Schedulable(c, acts) && w < c.n
    requires P.WellFormed(c, P.StateAfter(c, acts)) && !P.StateAfter(c, acts).workers[w].evicted
    ensures !EvictedAfter(env, WorkerEvents(c, acts, w), first, second)
  {
    var events := WorkerEvents(c, acts, w);
    WorkerReplays(c, env, acts, w);
    assert forall m :: 0 <= m < |events| && events[m].Cleanup? ==> events[m].stale == {};
    forall p: nat, q: nat | p < q < |events| ensures !EvictedBetween(env, events, p, q) {
    }
  }

  // ----- kept out of the file -----

  /** Of the jobs from `i` on, one of this tuple reaches the file only after the entry was evicted. */
  ghost predicate KeptOut(c: P.Setup, env: Env, acts: seq<P.Action>, i: nat)
    requires P.Schedulable(c, acts) && i < |c.jobs|
  {
    forall j ::
      i <= j < |c.jobs| && c.jobs[j].tuple == c.jobs[i].tuple && c.jobs[j] in P.StateAfter(c, acts).written ==>
      i < j && EvictedAfter(env, WorkerEvents(c, acts, P.RouteOf(c, c.jobs[i])), c.jobs[i], c.jobs[j])
  }

  lemma DroppedAreKeptOut(c: P.Setup, env: Env, acts: seq<P.Action>, i: nat)
    requires Runs(c, env) && PT.Numbered(c.jobs) && P.Schedulable(c, acts)
    requires i < |c.jobs| && DroppedWherever(c, env, acts, i)
    ensures KeptOut(c, env, acts, i)
  {
    forall j | i <= j < |c.jobs| && c.jobs[j].tuple == c.jobs[i].tuple && c.jobs[j] in P.StateAfter(c, acts).written
      ensures i < j && EvictedAfter(env, WorkerEvents(c, acts, P.RouteOf(c, c.jobs[i])), c.jobs[i], c.jobs[j])
    {
      DroppedNeverWritten(c, env, acts, i, j);
    }
  }

  lemma KeptOutForGood(c: P.Setup, env: Env, acts: seq<P.Action>, i: nat)
    requires Runs(c, env) && P.Schedulable(c, acts) && i < |c.jobs| && KeptOut(c, env, acts, i)
    requires |Filter(P.ForWorker(c, P.RouteOf(c, c.jobs[i])), c.jobs)| < CLEANUP_INTERVAL
    ensures forall j :: i <= j < |c.jobs| && c.jobs[j].tuple == c.jobs[i].tuple ==>
              c.jobs[j] !in P.StateAfter(c, acts).written
  {
    var w := P.RouteOf(c, c.jobs[i]);
    FewPacketsNeverEvict(c, acts, w);
    forall j | i <= j < |c.jobs| && c.jobs[j].tuple == c.jobs[i].tuple
      ensures c.jobs[j] !in P.StateAfter(c, acts).written
    {
      NoneEvictedAfter(c, env, acts, w, c.jobs[i], c.jobs[j]);
    }
  }

  // ----- what the sequential fold drops -----

  lemma PacketSnoc(env: Env, events: seq<Event>, a: Arrival)
    ensures Run(env, events + [Packet(a)]) == After(env, Run(env, events), Packet(a))
    ensures Verdicts(env, events + [Packet(a)]) == Verdicts(env, events) + [VerdictAfter(env, events, a)]
  {
    RunSnoc(env, events, Packet(a));
    assert (events + [Packet(a)])[..|events|] == events;
  }

  lemma {:induction false} WithoutEvictions(env: Env, events: seq<Event>)
    requires forall i :: 0 <= i < |events| ==>
               if events[i].Cleanup? then events[i].stale == {} else events[i].a == At(events[i].a.job)
    ensures Run(env, events) == Run(env, Events(PI.HandledJobs(Verdicts(env, events))))
  {
    if events != [] {
      var front, e := events[..|events| - 1], events[|events| - 1];
      assert events == front + [e];
      WithoutEvictions(env, front);
      if e.Packet? {
        PacketFolds(env, front, e.a.job);
      } else {
        NothingRemoved(env, front);
      }
    }
  }

  lemma PacketFolds(env: Env, front: seq<Event>, job: PacketJob)
    requires Run(env, front) == Run(env, Events(PI.HandledJobs(Verdicts(env, front))))
    ensures var events := front + [Packet(At(job))];
            Run(env, events) == Run(env, Events(PI.HandledJobs(Verdicts(env, events))))
  {
    var log := Verdicts(env, front);
    PacketSnoc(env, front, At(job));
    HandledSnoc(log, VerdictAfter(env, front, At(job)));
    RunSnoc(env, Events(PI.HandledJobs(log)), Packet(At(job)));
  }

  lemma NothingRemoved(env: Env, front: seq<Event>)
    ensures Run(env, front + [Cleanup({})]) == Run(env, front)
    ensures Verdicts(env, front + [Cleanup({})]) == Verdicts(env, front)
  {
    var flows := Run(env, front);
    CleanupSnoc(env, front, {});
    assert flows - {} == flows;
  }

  lemma HandledSnoc(log: seq<P.Decision>, d: P.Decision)
    ensures Events(PI.HandledJobs(log + [d])) == Events(PI.HandledJobs(log)) + [Packet(At(d.job))]
  {
    assert (log + [d])[..|log|] == log;
    var jobs := PI.HandledJobs(log);
    assert (jobs + [d.job])[..|jobs|] == jobs;
  }

  /** The fold over the earlier jobs of its worker drops this one. */
  predicate FoldDrops(c: P.Setup, i: nat)
    requires i < |c.jobs|
  {
    var before := Filter(P.ForWorker(c, P.RouteOf(c, c.jobs[i])), c.jobs[..i]);
    c.process(PC.Sequential(c, before).flows, c.jobs[i]).action.DROP?
  }

  /** While a worker has evicted nothing, what it had when it got to a job is the fold's table. */
  lemma FoldedBefore(c: P.Setup, env: Env, acts: seq<P.Action>, i: nat, p: nat)
    requires Runs(c, env) && PT.Numbered(c.jobs) && P.Schedulable(c, acts) && i < |c.jobs|
    requires P.WellFormed(c, P.StateAfter(c, acts))
    requires !P.StateAfter(c, acts).workers[P.RouteOf(c, c.jobs[i])].evicted
    requires var events := WorkerEvents(c, acts, P.RouteOf(c, c.jobs[i]));
             p < |events| && events[p] == Packet(At(c.jobs[i]))
    ensures var w := P.RouteOf(c, c.jobs[i]);
            Run(env, WorkerEvents(c, acts, w)[..p])
            == PC.Sequential(c, Filter(P.ForWorker(c, w), c.jobs[..i])).flows
  {
    var w := P.RouteOf(c, c.jobs[i]);
    var before := WorkerEvents(c, acts, w)[..p];
    HandledBefore(c, env, acts, i, p);
    PlainEvents(c, env, acts, w);
    WithoutEvictions(env, before);
    SequentialIsRun(c, env, PI.HandledJobs(Verdicts(env, before)));
  }

  lemma PlainEvents(c: P.Setup, env: Env, acts: seq<P.Action>, w: nat)
    requires Runs(c, env) && P.Schedulable(c, acts) && w < c.n
    requires P.WellFormed(c, P.StateAfter(c, acts)) && !P.StateAfter(c, acts).workers[w].evicted
    ensures forall k :: 0 <= k < |WorkerEvents(c, acts, w)| ==>
              var e := WorkerEvents(c, acts, w)[k];
              if e.Cleanup? then e.stale == {} else e.a == At(e.a.job)
  {
    WorkerReplays(c, env, acts, w);
    AllAt(c, acts, w);
  }

  lemma FoldDropsWherever(c: P.Setup, env: Env, acts: seq<P.Action>, i: nat)
    requires Runs(c, env) && PT.Numbered(c.jobs) && P.Schedulable(c, acts) && i < |c.jobs|
    requires P.WellFormed(c, P.StateAfter(c, acts))
    requires !P.StateAfter(c, acts).workers[P.RouteOf(c, c.jobs[i])].evicted
    requires FoldDrops(c, i)
    ensures DroppedWherever(c, env, acts, i)
  {
    var events := WorkerEvents(c, acts, P.RouteOf(c, c.jobs[i]));
    forall p | 0 <= p < |events| && events[p] == Packet(At(c.jobs[i]))
      ensures VerdictAfter(env, events[..p], At(c.jobs[i])).action.DROP?
    {
      FoldedBefore(c, env, acts, i, p);
      var flows := Run(env, events[..p]);
      assert c.process(flows, c.jobs[i]) == Decide(env, flows, c.jobs[i]);
    }
  }

  /**
   Input-level: if the fold over the earlier packets of its worker drops a packet, and the worker's
   share is smaller than a cleanup interval, no schedule writes it or a later one of its tuple.
   */
  lemma FoldDropsNeverWritten(c: P.Setup, env: Env, acts: seq<P.Action>, i: nat)
    requires Runs(c, env) && PT.Numbered(c.jobs) && P.Schedulable(c, acts) && i < |c.jobs|
    requires |Filter(P.ForWorker(c, P.RouteOf(c, c.jobs[i])), c.jobs)| < CLEANUP_INTERVAL
    requires FoldDrops(c, i)
    ensures forall j :: i <= j < |c.jobs| && c.jobs[j].tuple == c.jobs[i].tuple ==>
              c.jobs[j] !in P.StateAfter(c, acts).written
  {
    FewPacketsNeverEvict(c, acts, P.RouteOf(c, c.jobs[i]));
    FoldDropsWherever(c, env, acts, i);
    DroppedAreKeptOut(c, env, acts, i);
    KeptOutForGood(c, env, acts, i);
  }
}
