/** The main results about every schedule of the pipeline. */
module PipelineTheorems {
  import opened Types
  import opened Sequences
  import opened Pipeline
  import opened PipelineInvariants
  import opened PipelineCounters

  ghost predicate Inv(c: Setup, s: State) {
    && Phases(c, s) && Owned(c, s) && Delivered(c, s) && Emitted(c, s)
    && Tallies(c, s) && OutTally(c, s) && Bounded(c, s) && AllFaithful(c, s)
  }

  lemma {:induction false} SumOfZeros<T>(f: T -> int, s: seq<T>)
    requires forall x :: x in s ==> f(x) == 0
    ensures Sum(f, s) == 0
  {
    SumBounds(f, s, 0, 0);
  }

  lemma InvInit(c: Setup)
    ensures Inv(c, Init(c))
  {
    var s := Init(c);
    assert forall x :: x in s.workers ==> x == IDLE_WORKER;
    SumOfZeros(Totalled, s.workers);
    SumOfZeros(ForwardCounted, s.workers);
    SumOfZeros(DropCounted, s.workers);
    SumOfZeros(AppCounted, s.workers);
    SumOfZeros(Load, s.workers);
    SumOfZeros(Unpushed, s.workers);
    SumOfZeros(Itself, s.stats.apps);
    assert c.jobs[..0] == [];
    assert Transit(s) == [] && Outflow(s) == [];
  }

  lemma InvStep(c: Setup, s: State, a: Action)
    requires Inv(c, s) && Enabled(c, s, a)
    ensures Inv(c, Apply(c, s, a))
  {
    PhasesStep(c, s, a);
    OwnedStep(c, s, a);
    DeliveredStep(c, s, a);
    EmittedStep(c, s, a);
    TalliesStep(c, s, a);
    OutTallyStep(c, s, a);
    BoundedStep(c, s, a);
    FaithfulStep(c, s, a);
  }

  /** Every invariant holds after every schedule. */
  lemma {:induction false} InvAlways(c: Setup, acts: seq<Action>)
    requires Schedulable(c, acts)
    ensures Inv(c, StateAfter(c, acts))
  {
    if acts == [] {
      InvInit(c);
    } else {
      InvAlways(c, acts[..|acts| - 1]);
      InvStep(c, StateAfter(c, acts[..|acts| - 1]), acts[|acts| - 1]);
    }
  }

  // ----- schedule independence -----

  lemma FilterPrefix(c: Setup, w: nat, jobs: seq<PacketJob>, n: nat)
    requires n <= |jobs|
    ensures Filter(ForWorker(c, w), jobs[..n]) <= Filter(ForWorker(c, w), jobs)
  {
    FilterTake(ForWorker(c, w), jobs, n);
  }

  /** What a worker has decided, and what the file holds of it. */
  ghost predicate IndependentOfSchedule(c: Setup, s: State, w: nat)
    requires WellFormed(c, s) && w < c.n
  {
    var me := s.workers[w];
    && HandledJobs(me.log) <= Filter(ForWorker(c, w), c.jobs)
    && (!me.evicted ==> Sequential(c, HandledJobs(me.log)) == Folded(me.flows, me.log))
    && Filter(ForWorker(c, w), s.written) <= Forwards(me.log)
  }

  lemma DecidedPrefix(c: Setup, s: State, w: nat)
    requires Inv(c, s) && w < c.n
    ensures HandledJobs(s.workers[w].log) <= Filter(ForWorker(c, w), c.jobs)
  {
    var me := s.workers[w];
    assert DeliveredTo(c, w, me, Transit(s), c.jobs[..s.read]);
    FilterPrefix(c, w, c.jobs, s.read);
    assert HandledJobs(me.log) <= Received(me);
  }

  lemma WrittenPrefix(c: Setup, s: State, w: nat)
    requires Inv(c, s) && w < c.n
    ensures Filter(ForWorker(c, w), s.written) <= Forwards(s.workers[w].log)
  {
    assert EmittedBy(c, w, s.workers[w], Outflow(s));
    var later := WriterHand(s.writer) + s.out;
    assert Outflow(s) == s.written + later;
    FilterConcat(ForWorker(c, w), s.written, later);
    PrefixOfSum(Filter(ForWorker(c, w), s.written), Filter(ForWorker(c, w), later), Pending(s.workers[w].pc));
  }

  lemma PrefixOfSum<T>(a: seq<T>, b: seq<T>, c: seq<T>)
    ensures a <= a + b + c
  {
  }

  /**
   Whatever the schedule, a worker has decided a prefix of the jobs hashed to it, in reader
   order; while cleanup has removed nothing, its table and decisions are those of the
   sequential fold; and what the file holds of its jobs is a prefix of its forward decisions.
   */
  lemma ScheduleIndependence(c: Setup, acts: seq<Action>, w: nat)
    requires Schedulable(c, acts) && w < c.n
    ensures WellFormed(c, StateAfter(c, acts)) && IndependentOfSchedule(c, StateAfter(c, acts), w)
  {
    InvAlways(c, acts);
    var s := StateAfter(c, acts);
    DecidedPrefix(c, s, w);
    WrittenPrefix(c, s, w);
    assert Faithful(c, s.workers[w]);
  }

  /** Main has returned from joining the writer, no input queue holds a job, nothing was evicted. */
  predicate Drained(c: Setup, s: State) {
    && WellFormed(c, s)
    && s.main.Done?
    && s.raw == []
    && forall w :: 0 <= w < c.n ==> s.workers[w].queue == [] && !s.workers[w].evicted
  }

  lemma ExitedWhenDone(c: Setup, s: State)
    requires Phases(c, s) && s.main.Done?
    ensures s.read == |c.jobs| && s.out == [] && s.bal.BalExited? && s.writer.WrExited?
    ensures forall w :: 0 <= w < c.n ==> s.workers[w].pc.Exited?
  {
    forall w | 0 <= w < c.n ensures s.workers[w].pc.Exited? {
      assert WorkerPhase(Phase(c, s.main), w, s.workers[w]);
    }
  }

  lemma NothingAround<T>(a: seq<T>)
    ensures a + [] + [] == a && [] + a + [] == a
  {
  }

  /** Once main is done nothing is in anybody's hand. */
  lemma NothingInHand(c: Setup, s: State)
    requires Inv(c, s) && s.main.Done?
    ensures Outflow(s) == s.written && Transit(s) == s.raw && c.jobs[..s.read] == c.jobs
    ensures forall w :: 0 <= w < c.n ==> s.workers[w].pc.Exited?
  {
    ExitedWhenDone(c, s);
    assert c.jobs[..|c.jobs|] == c.jobs;
    NothingAround(s.written);
    NothingAround(s.raw);
  }

  lemma WhenDone(c: Setup, s: State, w: nat)
    requires Inv(c, s) && s.main.Done? && w < c.n
    ensures Filter(ForWorker(c, w), s.written) == Forwards(s.workers[w].log)
    ensures HandledJobs(s.workers[w].log) + s.workers[w].queue + Filter(ForWorker(c, w), s.raw)
            == Filter(ForWorker(c, w), c.jobs)
  {
    NothingInHand(c, s);
    var me := s.workers[w];
    assert DeliveredTo(c, w, me, Transit(s), c.jobs[..s.read]);
    assert EmittedBy(c, w, me, Outflow(s));
    assert HandledJobs(me.log) + [] == HandledJobs(me.log);
  }

  lemma DrainedOutput(c: Setup, s: State, w: nat)
    requires Inv(c, s) && Drained(c, s) && w < c.n
    ensures Filter(ForWorker(c, w), s.written) == Forwards(Sequential(c, Filter(ForWorker(c, w), c.jobs)).log)
  {
    WhenDone(c, s, w);
    var me := s.workers[w];
    assert Faithful(c, me);
    var handled := HandledJobs(me.log);
    assert handled + [] + [] == handled;
    assert HandledJobs(me.log) == Filter(ForWorker(c, w), c.jobs);
  }

  lemma DrainedStatesAgree(c: Setup, s: State, s': State)
    requires Inv(c, s) && Drained(c, s) && Inv(c, s') && Drained(c, s')
    ensures forall w :: 0 <= w < c.n ==> Filter(ForWorker(c, w), s.written) == Filter(ForWorker(c, w), s'.written)
    ensures multiset(s.written) == multiset(s'.written)
  {
    forall w | 0 <= w < c.n
      ensures Filter(ForWorker(c, w), s.written) == Filter(ForWorker(c, w), s'.written)
    {
      DrainedOutput(c, s, w);
      DrainedOutput(c, s', w);
    }
    SharesDetermine(c, s.written, s'.written);
  }

  lemma SharesDetermine(c: Setup, f: seq<PacketJob>, f': seq<PacketJob>)
    requires forall w :: 0 <= w < c.n ==> Filter(ForWorker(c, w), f) == Filter(ForWorker(c, w), f')
    ensures multiset(f) == multiset(f')
  {
    forall job ensures multiset(f)[job] == multiset(f')[job] {
      var w := RouteOf(c, job);
      FilterCount(ForWorker(c, w), f, job);
      FilterCount(ForWorker(c, w), f', job);
    }
  }

  /** All fully drained runs deliver the same packets, each worker's share in the same order. */
  lemma DrainedRunsAgree(c: Setup, acts: seq<Action>, acts': seq<Action>)
    requires Schedulable(c, acts) && Drained(c, StateAfter(c, acts))
    requires Schedulable(c, acts') && Drained(c, StateAfter(c, acts'))
    ensures var f, f' := StateAfter(c, acts).written, StateAfter(c, acts').written;
            && (forall w :: 0 <= w < c.n ==> Filter(ForWorker(c, w), f) == Filter(ForWorker(c, w), f'))
            && multiset(f) == multiset(f')
  {
    InvAlways(c, acts);
    InvAlways(c, acts');
    DrainedStatesAgree(c, StateAfter(c, acts), StateAfter(c, acts'));
  }

  // ----- lossless shutdown -----

  /** Copy for copy, where each job is once main is done. */
  ghost predicate Accounted(c: Setup, s: State, job: PacketJob)
    requires WellFormed(c, s)
  {
    var me := s.workers[RouteOf(c, job)];
    && multiset(s.written)[job] == multiset(Forwards(me.log))[job]
    && multiset(c.jobs)[job] == multiset(HandledJobs(me.log))[job] + multiset(me.queue)[job] + multiset(s.raw)[job]
  }

  lemma AccountFor(c: Setup, s: State, job: PacketJob)
    requires Inv(c, s) && s.main.Done?
    ensures Accounted(c, s, job)
  {
    var w := RouteOf(c, job);
    WhenDone(c, s, w);
    FilterCount(ForWorker(c, w), s.written, job);
    FilterCount(ForWorker(c, w), c.jobs, job);
    FilterCount(ForWorker(c, w), s.raw, job);
  }

  lemma ForwardedAreWritten(c: Setup, s: State)
    requires Inv(c, s) && s.main.Done?
    ensures |s.written| == s.stats.forwarded
  {
    NothingInHand(c, s);
    SumOfZeros(Unpushed, s.workers);
  }

  /**
   No push is ever refused; and once main is done the file holds exactly the packets counted
   as forwarded, worker by worker in decision order, and every packet the reader emitted is
   decided or still in the raw queue or its worker's input queue.
   */
  lemma LosslessShutdown(c: Setup, acts: seq<Action>)
    requires Schedulable(c, acts)
    ensures var s := StateAfter(c, acts);
            && NoPushRefused(c, s)
            && (s.main.Done? ==>
                  && |s.written| == s.stats.forwarded
                  && (forall w :: 0 <= w < c.n ==> Filter(ForWorker(c, w), s.written) == Forwards(s.workers[w].log))
                  && (forall job :: Accounted(c, s, job)))
  {
    InvAlways(c, acts);
    var s := StateAfter(c, acts);
    PhasesRefuseNoPush(c, s);
    if s.main.Done? {
      ForwardedAreWritten(c, s);
      forall w | 0 <= w < c.n ensures Filter(ForWorker(c, w), s.written) == Forwards(s.workers[w].log) {
        WhenDone(c, s, w);
      }
      forall job ensures Accounted(c, s, job) {
        AccountFor(c, s, job);
      }
    }
  }

  // ----- conservation -----

  /** 1 between the total and the forwarded or dropped counter. */
  function BetweenCounters(me: Worker): int {
    if me.pc.CountApp? || me.pc.CountVerdict? then 1 else 0
  }

  /** 1 from popping a packet until its verdict is counted. */
  function MidPacket(me: Worker): int {
    if me.pc.Process? || me.pc.CountTotal? || BetweenCounters(me) == 1 then 1 else 0
  }

  function Decided(me: Worker): int {
    ForwardCounted(me) + DropCounted(me)
  }

  /** Jobs a worker has received and not counted as forwarded or dropped. */
  function Unfinished(me: Worker): int {
    |me.queue| + MidPacket(me)
  }

  ghost predicate Conserved(c: Setup, s: State) {
    && s.read == |Transit(s)| + Sum(Unfinished, s.workers) + s.stats.forwarded + s.stats.dropped
    && s.read - s.stats.forwarded - s.stats.dropped <= 50002 + 10001 * c.n
    && s.stats.total == s.stats.forwarded + s.stats.dropped + Sum(BetweenCounters, s.workers)
    && ((forall w :: 0 <= w < |s.workers| ==> MidPacket(s.workers[w]) == 0) ==>
          s.stats.total == Sum(Itself, s.stats.apps))
  }

  lemma UnfinishedBound(c: Setup, s: State)
    requires Inv(c, s)
    ensures |Transit(s)| + Sum(Unfinished, s.workers) <= 50002 + 10001 * c.n
  {
    forall me | me in s.workers ensures 0 <= Unfinished(me) <= 10001 {
      var w :| 0 <= w < c.n && s.workers[w] == me;
    }
    SumBounds(Unfinished, s.workers, 0, 10001);
  }

  lemma {:induction false} SumEqual<T>(f: T -> int, g: T -> int, s: seq<T>)
    requires forall x :: x in s ==> f(x) == g(x)
    ensures Sum(f, s) == Sum(g, s)
  {
    if s != [] {
      var front := s[..|s| - 1];
      assert s == front + [s[|s| - 1]];
      assert forall x :: x in front ==> x in s;
      SumEqual(f, g, front);
    }
  }

  lemma ContributionsAddUp(me: Worker)
    ensures Totalled(me) == Decided(me) + BetweenCounters(me)
    ensures Load(me) == Decided(me) + Unfinished(me)
    ensures MidPacket(me) == 0 ==> Totalled(me) == AppCounted(me)
  {
  }

  lemma SumsAddUp(workers: seq<Worker>)
    ensures Sum(Totalled, workers)
            == Sum(ForwardCounted, workers) + Sum(DropCounted, workers) + Sum(BetweenCounters, workers)
    ensures Sum(Load, workers) == Sum(ForwardCounted, workers) + Sum(DropCounted, workers) + Sum(Unfinished, workers)
  {
    SumSplit(Decided, ForwardCounted, DropCounted, workers);
    forall me | me in workers ensures Totalled(me) == Decided(me) + BetweenCounters(me) {
      ContributionsAddUp(me);
    }
    SumSplit(Totalled, Decided, BetweenCounters, workers);
    forall me | me in workers ensures Load(me) == Decided(me) + Unfinished(me) {
      ContributionsAddUp(me);
    }
    SumSplit(Load, Decided, Unfinished, workers);
  }

  lemma AppsAddUp(workers: seq<Worker>)
    requires forall w :: 0 <= w < |workers| ==> MidPacket(workers[w]) == 0
    ensures Sum(Totalled, workers) == Sum(AppCounted, workers)
  {
    forall me | me in workers ensures Totalled(me) == AppCounted(me) {
      var w := Position(workers, me);
      ContributionsAddUp(workers[w]);
    }
    SumEqual(Totalled, AppCounted, workers);
  }

  lemma CountersConserve(c: Setup, s: State)
    requires Inv(c, s)
    ensures Conserved(c, s)
  {
    SumsAddUp(s.workers);
    UnfinishedBound(c, s);
    if forall w :: 0 <= w < |s.workers| ==> MidPacket(s.workers[w]) == 0 {
      AppsAddUp(s.workers);
    }
  }

  /** Every packet the reader emitted is in a queue, in a hand, forwarded or dropped. */
  lemma Conservation(c: Setup, acts: seq<Action>)
    requires Schedulable(c, acts)
    ensures Conserved(c, StateAfter(c, acts))
  {
    InvAlways(c, acts);
    CountersConserve(c, StateAfter(c, acts));
  }

  /** No queue outgrows its bound, and a push waits exactly while its queue is full. */
  ghost predicate WaitsForRoom(c: Setup, s: State) {
    && WellFormed(c, s)
    && |s.raw| <= 50000 && |s.out| <= 20000 && (forall w :: 0 <= w < c.n ==> |s.workers[w].queue| <= 10000)
    && (s.main.Push? ==> (MainEnabled(c, s) <==> |s.raw| < 50000))
    && (s.bal.BalPush? ==> (BalancerEnabled(c, s) <==> |s.workers[RouteOf(c, s.bal.job)].queue| < 10000))
    && forall w :: 0 <= w < c.n && s.workers[w].pc.Forward? ==>
         (WorkerEnabled(s, s.workers[w]) <==> |s.out| < 20000)
  }

  lemma RoomInState(c: Setup, s: State)
    requires NoPushRefused(c, s) && Bounded(c, s)
    ensures WaitsForRoom(c, s)
  {
  }

  lemma PushesWaitForRoom(c: Setup, acts: seq<Action>)
    requires Schedulable(c, acts)
    ensures WaitsForRoom(c, StateAfter(c, acts))
  {
    InvAlways(c, acts);
    PhasesRefuseNoPush(c, StateAfter(c, acts));
    RoomInState(c, StateAfter(c, acts));
  }

  predicate InputsEmpty(c: Setup, s: State)
    requires WellFormed(c, s)
  {
    s.raw == [] && forall w :: 0 <= w < c.n ==> s.workers[w].queue == []
  }

  // ----- per-flow order -----

  /** The reader numbers its jobs from zero. */
  ghost predicate Numbered(jobs: seq<PacketJob>) {
    forall i :: 0 <= i < |jobs| ==> jobs[i].packetId == i
  }

  function Id(job: PacketJob): int {
    job.packetId
  }

  lemma {:induction false} ForwardsIncrease(log: seq<Decision>)
    requires Increasing(Id, HandledJobs(log))
    ensures Increasing(Id, Forwards(log))
    ensures forall job :: job in Forwards(log) ==> job in HandledJobs(log)
  {
    if log != [] {
      var front := log[..|log| - 1];
      var h, h' := HandledJobs(front), HandledJobs(log);
      assert forall i :: 0 <= i < |h| ==> h[i] == h'[i];
      ForwardsIncrease(front);
      forall job | job in Forwards(front) ensures Id(job) < Id(log[|log| - 1].job) {
        var i := Position(h, job);
        assert h'[i] == job && h'[|h'| - 1] == log[|log| - 1].job;
      }
    }
  }

  lemma WrittenInOrder(c: Setup, s: State, i: nat, j: nat)
    requires Inv(c, s) && Numbered(c.jobs) && i < j < |s.written|
    requires RouteOf(c, s.written[i]) == RouteOf(c, s.written[j])
    ensures s.written[i].packetId < s.written[j].packetId
  {
    var w := RouteOf(c, s.written[i]);
    var log := s.workers[w].log;
    DecidedPrefix(c, s, w);
    WrittenPrefix(c, s, w);
    FilterIncreasing(Id, ForWorker(c, w), c.jobs);
    ForwardsIncrease(log);
    IncreasingInside(Id, ForWorker(c, w), s.written, i, j);
  }

  lemma WrittenWasEmitted(c: Setup, s: State, i: nat)
    requires Inv(c, s) && Numbered(c.jobs) && i < |s.written|
    ensures s.written[i].packetId < s.read && c.jobs[s.written[i].packetId] == s.written[i]
  {
    var job := s.written[i];
    var w := RouteOf(c, job);
    var me := s.workers[w];
    WrittenPrefix(c, s, w);
    FilterMember(ForWorker(c, w), s.written, job);
    var written := Filter(ForWorker(c, w), s.written);
    var k := Position(written, job);
    assert Forwards(me.log)[k] == job;
    ForwardsHandled(me.log, job);
    assert DeliveredTo(c, w, me, Transit(s), c.jobs[..s.read]);
    FilterMember(ForWorker(c, w), c.jobs[..s.read], job);
    assert job in Received(me);
  }

  lemma {:induction false} ForwardsHandled(log: seq<Decision>, job: PacketJob)
    requires job in Forwards(log)
    ensures job in HandledJobs(log)
  {
    if log[|log| - 1].job != job {
      ForwardsHandled(log[..|log| - 1], job);
    }
  }

  /**
   Even with evictions, packets that share a worker (in particular those of one directed
   five-tuple) are written in the order the reader emitted them, each at most once.
   */
  lemma PerFlowOrder(c: Setup, acts: seq<Action>)
    requires Schedulable(c, acts) && Numbered(c.jobs)
    ensures var s := StateAfter(c, acts);
            && s.read <= |c.jobs|
            && (forall i :: 0 <= i < |s.written| ==>
                  s.written[i].packetId < s.read && c.jobs[s.written[i].packetId] == s.written[i])
            && (forall i, j :: 0 <= i < j < |s.written| && s.written[i].tuple == s.written[j].tuple ==>
                  s.written[i].packetId < s.written[j].packetId)
  {
    InvAlways(c, acts);
    var s := StateAfter(c, acts);
    forall i | 0 <= i < |s.written|
      ensures s.written[i].packetId < s.read && c.jobs[s.written[i].packetId] == s.written[i]
    {
      WrittenWasEmitted(c, s, i);
    }
    forall i, j | 0 <= i < j < |s.written| && s.written[i].tuple == s.written[j].tuple
      ensures s.written[i].packetId < s.written[j].packetId
    {
      WrittenInOrder(c, s, i, j);
    }
  }

  // ----- jobs that are dropped whatever the table holds -----

  ghost predicate Doomed(c: Setup, job: PacketJob) {
    forall flows :: c.process(flows, job).action.DROP?
  }

  ghost predicate DropsDoomed(c: Setup, log: seq<Decision>) {
    forall i :: 0 <= i < |log| && Doomed(c, log[i].job) ==> log[i].action.DROP?
  }

  ghost predicate DoomedAreDropped(c: Setup, s: State) {
    && WellFormed(c, s)
    && forall w :: 0 <= w < c.n ==> DropsDoomed(c, s.workers[w].log)
  }

  lemma DoomedMain(c: Setup, s: State)
    requires DoomedAreDropped(c, s) && MainEnabled(c, s)
    ensures DoomedAreDropped(c, ApplyMain(c, s))
  {
    MainSameWork(c, s);
  }

  lemma DoomedBalancer(c: Setup, s: State)
    requires DoomedAreDropped(c, s) && BalancerEnabled(c, s)
    ensures DoomedAreDropped(c, ApplyBalancer(c, s))
  {
  }

  lemma DoomedDecision(c: Setup, me: Worker, stale: set<FiveTuple>)
    requires DropsDoomed(c, me.log)
    ensures DropsDoomed(c, NextWorker(c, me, stale).log)
  {
    if me.pc.Process? {
      var action := c.process(me.flows, me.pc.job).action;
      assert NextWorker(c, me, stale).log == me.log + [Decision(me.pc.job, action)];
    }
  }

  lemma DoomedWorker(c: Setup, s: State, w: nat, stale: set<FiveTuple>)
    requires DoomedAreDropped(c, s) && w < c.n && WorkerEnabled(s, s.workers[w])
    ensures DoomedAreDropped(c, ApplyWorker(c, s, w, stale))
  {
    DoomedDecision(c, s.workers[w], stale);
  }

  lemma DoomedStep(c: Setup, s: State, a: Action)
    requires DoomedAreDropped(c, s) && Enabled(c, s, a)
    ensures DoomedAreDropped(c, Apply(c, s, a))
  {
    match a {
      case MainStep => DoomedMain(c, s);
      case BalancerStep => DoomedBalancer(c, s);
      case WorkerStep(w, stale) => DoomedWorker(c, s, w, stale);
      case WorkerTimeout(w) => assert DropsDoomed(c, s.workers[w].log);
      case BalancerTimeout =>
      case WriterStep =>
      case WriterTimeout =>
    }
  }

  lemma {:induction false} DoomedAlways(c: Setup, acts: seq<Action>)
    requires Schedulable(c, acts)
    ensures DoomedAreDropped(c, StateAfter(c, acts))
  {
    if acts != [] {
      DoomedAlways(c, acts[..|acts| - 1]);
      DoomedStep(c, StateAfter(c, acts[..|acts| - 1]), acts[|acts| - 1]);
    }
  }

  lemma {:induction false} ForwardDecision(log: seq<Decision>, job: PacketJob) returns (i: nat)
    requires job in Forwards(log)
    ensures i < |log| && log[i] == Decision(job, FORWARD)
  {
    var last := log[|log| - 1];
    if last == Decision(job, FORWARD) {
      i := |log| - 1;
    } else {
      i := ForwardDecision(log[..|log| - 1], job);
    }
  }

  lemma WrittenWasForwarded(c: Setup, s: State, job: PacketJob) returns (i: nat)
    requires Inv(c, s) && job in s.written
    ensures var log := s.workers[RouteOf(c, job)].log; i < |log| && log[i] == Decision(job, FORWARD)
  {
    var w := RouteOf(c, job);
    WrittenPrefix(c, s, w);
    FilterMember(ForWorker(c, w), s.written, job);
    var share := Filter(ForWorker(c, w), s.written);
    var k := Position(share, job);
    assert Forwards(s.workers[w].log)[k] == job;
    i := ForwardDecision(s.workers[w].log, job);
  }

  /** A job that is dropped whatever the table holds never reaches the file, evictions or not. */
  lemma DoomedNeverWritten(c: Setup, acts: seq<Action>, job: PacketJob)
    requires Schedulable(c, acts) && Doomed(c, job)
    ensures job !in StateAfter(c, acts).written
  {
    InvAlways(c, acts);
    DoomedAlways(c, acts);
    var s := StateAfter(c, acts);
    if job in s.written {
      assert DropsDoomed(c, s.workers[RouteOf(c, job)].log);
      var i := WrittenWasForwarded(c, s, job);
    }
  }
}
