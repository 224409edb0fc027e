/** Conservation: the shared counters, the queue bounds and the sequential fold. */
module PipelineCounters {
  import opened Types
  import opened Sequences
  import opened Pipeline
  import opened PipelineInvariants

  // ----- what each worker has contributed to each counter -----

  function Totalled(me: Worker): int {
    |me.log| - if me.pc.CountTotal? then 1 else 0
  }

  function AppCounted(me: Worker): int {
    |me.log| - if me.pc.CountTotal? || me.pc.CountApp? then 1 else 0
  }

  /** 1 while the worker has decided a job with `action` and not yet counted the verdict. */
  function Uncounted(pc: WorkerPc, action: FlowAction): int {
    if (pc.CountTotal? || pc.CountApp? || pc.CountVerdict?) && pc.action == action then 1 else 0
  }

  function ForwardCounted(me: Worker): int {
    |Forwards(me.log)| - Uncounted(me.pc, FORWARD)
  }

  function DropCounted(me: Worker): int {
    |me.log| - |Forwards(me.log)| - Uncounted(me.pc, DROP)
  }

  /** Jobs the balancer has handed this worker. */
  function Load(me: Worker): int {
    |me.queue| + |WorkerHand(me.pc)| + |me.log|
  }

  /** 1 while the worker has counted a forward and not yet pushed it. */
  function Unpushed(me: Worker): int {
    if me.pc.Forward? then 1 else 0
  }

  function Itself(n: nat): int {
    n
  }

  ghost predicate Tallies(c: Setup, s: State) {
    && WellFormed(c, s)
    && s.stats.total == Sum(Totalled, s.workers)
    && s.stats.forwarded == Sum(ForwardCounted, s.workers)
    && s.stats.dropped == Sum(DropCounted, s.workers)
    && Sum(Itself, s.stats.apps) == Sum(AppCounted, s.workers)
    && s.read == |Transit(s)| + Sum(Load, s.workers)
  }

  lemma ReplaceWorker(ws: seq<Worker>, w: nat, me: Worker)
    requires w < |ws|
    ensures Sum(Totalled, ws[w := me]) == Sum(Totalled, ws) - Totalled(ws[w]) + Totalled(me)
    ensures Sum(ForwardCounted, ws[w := me]) == Sum(ForwardCounted, ws) - ForwardCounted(ws[w]) + ForwardCounted(me)
    ensures Sum(DropCounted, ws[w := me]) == Sum(DropCounted, ws) - DropCounted(ws[w]) + DropCounted(me)
    ensures Sum(AppCounted, ws[w := me]) == Sum(AppCounted, ws) - AppCounted(ws[w]) + AppCounted(me)
    ensures Sum(Load, ws[w := me]) == Sum(Load, ws) - Load(ws[w]) + Load(me)
  {
    SumUpdate(Totalled, ws, w, me);
    SumUpdate(ForwardCounted, ws, w, me);
    SumUpdate(DropCounted, ws, w, me);
    SumUpdate(AppCounted, ws, w, me);
    SumUpdate(Load, ws, w, me);
  }

  lemma ProcessContributes(me: Worker, o: Outcome)
    requires me.pc.Process?
    ensures var job := me.pc.job;
            var me' := me.(flows := o.flows, log := me.log + [Decision(job, o.action)],
                           pc := CountTotal(job, o.action, o.app));
            && Totalled(me') == Totalled(me) && AppCounted(me') == AppCounted(me)
            && ForwardCounted(me') == ForwardCounted(me) && DropCounted(me') == DropCounted(me)
            && Load(me') == Load(me)
  {
    HandledSnoc(me.log, Decision(me.pc.job, o.action));
  }

  /** What one worker step adds to each sum is what it adds to the counters. */
  lemma StepContributes(c: Setup, me: Worker, stale: set<FiveTuple>)
    ensures var me' := NextWorker(c, me, stale);
            && Totalled(me') - Totalled(me) == (if me.pc.CountTotal? then 1 else 0)
            && AppCounted(me') - AppCounted(me) == (if me.pc.CountApp? then 1 else 0)
            && Load(me') == Load(me)
  {
    if me.pc.Process? {
      ProcessContributes(me, c.process(me.flows, me.pc.job));
    }
  }

  lemma StepDecides(c: Setup, me: Worker, stale: set<FiveTuple>)
    ensures var me' := NextWorker(c, me, stale);
            && ForwardCounted(me') - ForwardCounted(me)
               == (if me.pc.CountVerdict? && me.pc.action.FORWARD? then 1 else 0)
            && DropCounted(me') - DropCounted(me) == (if me.pc.CountVerdict? && me.pc.action.DROP? then 1 else 0)
  {
    if me.pc.Process? {
      ProcessContributes(me, c.process(me.flows, me.pc.job));
    } else {
      assert NextWorker(c, me, stale).log == me.log;
    }
  }

  /** What one worker step adds to the shared counters. */
  lemma CountedAdds(stats: Stats, pc: WorkerPc)
    requires |stats.apps| == APP_COUNT
    ensures var stats' := Counted(stats, pc);
            && stats'.total - stats.total == (if pc.CountTotal? then 1 else 0)
            && stats'.forwarded - stats.forwarded == (if pc.CountVerdict? && pc.action.FORWARD? then 1 else 0)
            && stats'.dropped - stats.dropped == (if pc.CountVerdict? && pc.action.DROP? then 1 else 0)
            && Sum(Itself, stats'.apps) - Sum(Itself, stats.apps) == (if pc.CountApp? then 1 else 0)
  {
    if pc.CountApp? {
      SumUpdate(Itself, stats.apps, pc.app, stats.apps[pc.app] + 1);
    }
  }

  lemma TalliesWorker(c: Setup, s: State, w: nat, stale: set<FiveTuple>)
    requires Tallies(c, s) && w < c.n && WorkerEnabled(s, s.workers[w])
    ensures Tallies(c, ApplyWorker(c, s, w, stale))
  {
    var me := s.workers[w];
    StepContributes(c, me, stale);
    StepDecides(c, me, stale);
    CountedAdds(s.stats, me.pc);
    ReplaceWorker(s.workers, w, NextWorker(c, me, stale));
  }

  lemma TalliesTimeout(c: Setup, s: State, w: nat)
    requires Tallies(c, s) && Enabled(c, s, WorkerTimeout(w))
    ensures Tallies(c, Apply(c, s, WorkerTimeout(w)))
  {
    ReplaceWorker(s.workers, w, s.workers[w].(pc := Check));
  }

  lemma TalliesWriter(c: Setup, s: State)
    requires Tallies(c, s) && WriterEnabled(s)
    ensures Tallies(c, ApplyWriter(s))
  {
    var s' := ApplyWriter(s);
    assert s'.stats == s.stats && s'.workers == s.workers && Transit(s') == Transit(s);
  }

  /** Sums of what the workers contribute depend on their counters, queues and logs alone. */
  lemma {:induction false} SameSums(before: seq<Worker>, after: seq<Worker>)
    requires |before| == |after|
    requires forall i :: 0 <= i < |before| ==>
               after[i].pc == before[i].pc && after[i].queue == before[i].queue && after[i].log == before[i].log
    ensures Sum(Totalled, after) == Sum(Totalled, before)
    ensures Sum(ForwardCounted, after) == Sum(ForwardCounted, before)
    ensures Sum(DropCounted, after) == Sum(DropCounted, before)
    ensures Sum(AppCounted, after) == Sum(AppCounted, before)
    ensures Sum(Load, after) == Sum(Load, before)
  {
    if before != [] {
      SameSums(before[..|before| - 1], after[..|after| - 1]);
    }
  }

  lemma TalliesMain(c: Setup, s: State)
    requires Phases(c, s) && Tallies(c, s) && MainEnabled(c, s)
    ensures Tallies(c, ApplyMain(c, s))
  {
    var s' := ApplyMain(c, s);
    MainSameWork(c, s);
    SameSums(s.workers, s'.workers);
    assert s'.read - |Transit(s')| == s.read - |Transit(s)|;
  }

  lemma TalliesBalancer(c: Setup, s: State)
    requires Phases(c, s) && Tallies(c, s) && BalancerEnabled(c, s)
    ensures Tallies(c, ApplyBalancer(c, s))
  {
    if s.bal.BalPush? {
      var k := RouteOf(c, s.bal.job);
      var to := s.workers[k];
      ReplaceWorker(s.workers, k, to.(queue := to.queue + [s.bal.job]));
    }
  }

  lemma TalliesStep(c: Setup, s: State, a: Action)
    requires Phases(c, s) && Tallies(c, s) && Enabled(c, s, a)
    ensures Tallies(c, Apply(c, s, a))
  {
    match a {
      case MainStep => TalliesMain(c, s);
      case BalancerStep => TalliesBalancer(c, s);
      case WorkerStep(w, stale) => TalliesWorker(c, s, w, stale);
      case WorkerTimeout(w) => TalliesTimeout(c, s, w);
      case WriterStep => TalliesWriter(c, s);
      case BalancerTimeout =>
      case WriterTimeout =>
    }
  }

  // ----- counted forwards reach the output queue -----

  ghost predicate OutTally(c: Setup, s: State) {
    && WellFormed(c, s)
    && |Outflow(s)| + Sum(Unpushed, s.workers) == s.stats.forwarded
  }

  lemma {:induction false} SameUnpushed(before: seq<Worker>, after: seq<Worker>)
    requires |before| == |after|
    requires forall i :: 0 <= i < |before| ==> after[i].pc == before[i].pc
    ensures Sum(Unpushed, after) == Sum(Unpushed, before)
  {
    if before != [] {
      SameUnpushed(before[..|before| - 1], after[..|after| - 1]);
    }
  }

  lemma OutTallyWorker(c: Setup, s: State, w: nat, stale: set<FiveTuple>)
    requires Phases(c, s) && OutTally(c, s) && w < c.n && WorkerEnabled(s, s.workers[w])
    ensures OutTally(c, ApplyWorker(c, s, w, stale))
  {
    var me := s.workers[w];
    CountedAdds(s.stats, me.pc);
    SumUpdate(Unpushed, s.workers, w, NextWorker(c, me, stale));
    assert me.pc.Forward? ==> !s.outShut by { PhasesRefuseNoPush(c, s); }
  }

  lemma OutTallyMain(c: Setup, s: State)
    requires OutTally(c, s) && MainEnabled(c, s)
    ensures OutTally(c, ApplyMain(c, s))
  {
    MainSameWork(c, s);
    SameUnpushed(s.workers, ApplyMain(c, s).workers);
  }

  lemma OutTallyWriter(c: Setup, s: State)
    requires OutTally(c, s) && WriterEnabled(s)
    ensures OutTally(c, ApplyWriter(s))
  {
    assert |Outflow(ApplyWriter(s))| == |Outflow(s)|;
  }

  lemma OutTallyTimeout(c: Setup, s: State, w: nat)
    requires OutTally(c, s) && Enabled(c, s, WorkerTimeout(w))
    ensures OutTally(c, Apply(c, s, WorkerTimeout(w)))
  {
    SumUpdate(Unpushed, s.workers, w, s.workers[w].(pc := Check));
  }

  lemma OutTallyStep(c: Setup, s: State, a: Action)
    requires Phases(c, s) && OutTally(c, s) && Enabled(c, s, a)
    ensures OutTally(c, Apply(c, s, a))
  {
    match a {
      case MainStep => OutTallyMain(c, s);
      case BalancerStep => SameUnpushed(s.workers, ApplyBalancer(c, s).workers);
      case WorkerStep(w, stale) => OutTallyWorker(c, s, w, stale);
      case WorkerTimeout(w) => OutTallyTimeout(c, s, w);
      case WriterStep => OutTallyWriter(c, s);
      case BalancerTimeout =>
      case WriterTimeout =>
    }
  }

  // ----- queue bounds -----

  ghost predicate Bounded(c: Setup, s: State) {
    && WellFormed(c, s)
    && |s.raw| <= RAW_CAPACITY
    && |s.out| <= OUTPUT_CAPACITY
    && forall w :: 0 <= w < c.n ==> |s.workers[w].queue| <= INPUT_CAPACITY
  }

  lemma BoundedBalancer(c: Setup, s: State)
    requires Phases(c, s) && Bounded(c, s) && BalancerEnabled(c, s)
    ensures Bounded(c, ApplyBalancer(c, s))
  {
  }

  lemma BoundedWorker(c: Setup, s: State, w: nat, stale: set<FiveTuple>)
    requires Phases(c, s) && Bounded(c, s) && w < c.n && WorkerEnabled(s, s.workers[w])
    ensures Bounded(c, ApplyWorker(c, s, w, stale))
  {
    assert |NextWorker(c, s.workers[w], stale).queue| <= |s.workers[w].queue|;
  }

  lemma BoundedStep(c: Setup, s: State, a: Action)
    requires Phases(c, s) && Bounded(c, s) && Enabled(c, s, a)
    ensures Bounded(c, Apply(c, s, a))
  {
    match a {
      case MainStep =>
      case BalancerStep => BoundedBalancer(c, s);
      case WorkerStep(w, stale) => BoundedWorker(c, s, w, stale);
      case _ =>
    }
  }

  // ----- the sequential fold -----

  datatype Folded = Folded(flows: FlowTable, log: seq<Decision>)

  /** One worker processing `jobs` one after the other, alone and without cleanup. */
  function Sequential(c: Setup, jobs: seq<PacketJob>): (r: Folded)
    ensures |r.log| == |jobs|
  {
    if jobs == [] then Folded(map[], [])
    else
      var before := Sequential(c, jobs[..|jobs| - 1]);
      var job := jobs[|jobs| - 1];
      var o := c.process(before.flows, job);
      Folded(o.flows, before.log + [Decision(job, o.action)])
  }

  predicate IsFold(c: Setup, flows: FlowTable, log: seq<Decision>) {
    Sequential(c, HandledJobs(log)) == Folded(flows, log)
  }

  predicate Faithful(c: Setup, me: Worker) {
    !me.evicted ==> IsFold(c, me.flows, me.log)
  }

  ghost predicate AllFaithful(c: Setup, s: State) {
    && WellFormed(c, s)
    && forall w :: 0 <= w < c.n ==> Faithful(c, s.workers[w])
  }

  lemma RemoveAbsent(flows: FlowTable, stale: set<FiveTuple>)
    requires stale * flows.Keys == {}
    ensures flows - stale == flows
  {
    assert forall t :: t in flows && t in stale ==> t in stale * flows.Keys;
  }

  lemma ProcessFaithful(c: Setup, flows: FlowTable, log: seq<Decision>, job: PacketJob)
    requires IsFold(c, flows, log)
    ensures var o := c.process(flows, job);
            IsFold(c, o.flows, log + [Decision(job, o.action)])
  {
    HandledSnoc(log, Decision(job, c.process(flows, job).action));
    var jobs := HandledJobs(log);
    assert (jobs + [job])[..|jobs|] == jobs;
  }

  /** Apart from processing a packet, a step that evicts nothing leaves table and log alone. */
  lemma StepKeepsFold(c: Setup, me: Worker, stale: set<FiveTuple>)
    requires !me.pc.Process?
    ensures var me' := NextWorker(c, me, stale);
            me'.log == me.log && (!me'.evicted ==> !me.evicted && me'.flows == me.flows)
  {
    if me.pc.Finish? && stale * me.flows.Keys == {} {
      RemoveAbsent(me.flows, stale);
    }
  }

  lemma WorkerFaithful(c: Setup, me: Worker, stale: set<FiveTuple>)
    requires Faithful(c, me)
    ensures Faithful(c, NextWorker(c, me, stale))
  {
    if !me.pc.Process? {
      StepKeepsFold(c, me, stale);
    } else if !me.evicted {
      ProcessFaithful(c, me.flows, me.log, me.pc.job);
    }
  }

  lemma FaithfulFrame(c: Setup, s: State, s': State)
    requires AllFaithful(c, s) && WellFormed(c, s')
    requires forall w :: 0 <= w < c.n ==>
               && s'.workers[w].log == s.workers[w].log
               && s'.workers[w].flows == s.workers[w].flows
               && s'.workers[w].evicted == s.workers[w].evicted
    ensures AllFaithful(c, s')
  {
    forall w | 0 <= w < c.n ensures Faithful(c, s'.workers[w]) {
      assert Faithful(c, s.workers[w]);
    }
  }

  lemma FaithfulWorker(c: Setup, s: State, w: nat, stale: set<FiveTuple>)
    requires AllFaithful(c, s) && w < c.n && WorkerEnabled(s, s.workers[w])
    ensures AllFaithful(c, ApplyWorker(c, s, w, stale))
  {
    WorkerFaithful(c, s.workers[w], stale);
  }

  lemma FaithfulBalancer(c: Setup, s: State)
    requires AllFaithful(c, s) && BalancerEnabled(c, s)
    ensures AllFaithful(c, ApplyBalancer(c, s))
  {
    FaithfulFrame(c, s, ApplyBalancer(c, s));
  }

  lemma FaithfulMain(c: Setup, s: State)
    requires AllFaithful(c, s) && MainEnabled(c, s)
    ensures AllFaithful(c, ApplyMain(c, s))
  {
    MainSameWork(c, s);
    FaithfulFrame(c, s, ApplyMain(c, s));
  }

  lemma FaithfulStep(c: Setup, s: State, a: Action)
    requires AllFaithful(c, s) && Enabled(c, s, a)
    ensures AllFaithful(c, Apply(c, s, a))
  {
    match a {
      case MainStep => FaithfulMain(c, s);
      case BalancerStep => FaithfulBalancer(c, s);
      case WorkerStep(w, stale) => FaithfulWorker(c, s, w, stale);
      case WorkerTimeout(w) => assert Faithful(c, s.workers[w].(pc := Check));
      case BalancerTimeout =>
      case WriterStep =>
      case WriterTimeout =>
    }
  }
}
