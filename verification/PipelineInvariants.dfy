/** What every step of the pipeline keeps. */
module PipelineInvariants {
  import opened Prelude
  import opened Types
  import opened Sequences
  import opened Pipeline

  // ----- where main is in the stop sequence, and what that says about the other threads -----

  function Phase(c: Setup, main: MainPc): nat {
    match main {
      case Read => 0
      case Push(_) => 0
      case Sleep => 1
      case StopBalancer => 2
      case ShutRaw => 3
      case JoinBalancer => 4
      case StopWorker(k) => 5 + 3 * k
      case ShutInput(k) => 6 + 3 * k
      case JoinWorker(k) => 7 + 3 * k
      case StopWriter => 5 + 3 * c.n
      case ShutOutput => 6 + 3 * c.n
      case JoinWriter => 7 + 3 * c.n
      case Done => 8 + 3 * c.n
    }
  }

  predicate WorkerPhase(phase: nat, k: nat, worker: Worker) {
    && (worker.running <==> phase <= 5 + 3 * k)
    && (worker.shut <==> 7 + 3 * k <= phase)
    && (worker.pc.Exited? ==> !worker.running)
    && (8 + 3 * k <= phase ==> worker.pc.Exited?)
  }

  ghost predicate Phases(c: Setup, s: State) {
    var phase := Phase(c, s.main);
    && WellFormed(c, s)
    && (1 <= phase ==> s.read == |c.jobs|)
    && (s.main.StopWorker? || s.main.ShutInput? || s.main.JoinWorker? ==> s.main.k < c.n)
    && (s.balRunning <==> phase <= 2)
    && (s.rawShut <==> 4 <= phase)
    && (s.bal.BalExited? ==> !s.balRunning)
    && (5 <= phase ==> s.bal.BalExited?)
    && (forall k :: 0 <= k < c.n ==> WorkerPhase(phase, k, s.workers[k]))
    && (s.writerRunning <==> phase <= 5 + 3 * c.n)
    && (s.outShut <==> 7 + 3 * c.n <= phase)
    && (s.writer.WrEmpty? ==> !s.writerRunning)
    && (s.writer.WrExited? ==> !s.writerRunning && s.out == [])
    && (8 + 3 * c.n <= phase ==> s.writer.WrExited?)
  }

  lemma PhasesMain(c: Setup, s: State)
    requires Phases(c, s) && MainEnabled(c, s)
    ensures Phases(c, ApplyMain(c, s))
  {
  }

  lemma PhasesBalancer(c: Setup, s: State)
    requires Phases(c, s) && BalancerEnabled(c, s)
    ensures Phases(c, ApplyBalancer(c, s))
  {
  }

  lemma PhasesWorker(c: Setup, s: State, w: nat, stale: set<FiveTuple>)
    requires Phases(c, s) && w < c.n && WorkerEnabled(s, s.workers[w])
    ensures Phases(c, ApplyWorker(c, s, w, stale))
  {
  }

  lemma PhasesWriter(c: Setup, s: State)
    requires Phases(c, s) && WriterEnabled(s)
    ensures Phases(c, ApplyWriter(s))
  {
  }

  lemma PhasesStep(c: Setup, s: State, a: Action)
    requires Phases(c, s) && Enabled(c, s, a)
    ensures Phases(c, Apply(c, s, a))
  {
    match a {
      case MainStep => PhasesMain(c, s);
      case BalancerStep => PhasesBalancer(c, s);
      case WorkerStep(w, stale) => PhasesWorker(c, s, w, stale);
      case WriterStep => PhasesWriter(c, s);
      case BalancerTimeout =>
      case WorkerTimeout(w) =>
      case WriterTimeout =>
    }
  }

  /** The steps of main never touch what the workers are doing. */
  predicate SameWork(c: Setup, s: State, s': State) {
    && WellFormed(c, s)
    && WellFormed(c, s')
    && forall w :: 0 <= w < c.n ==>
         && s'.workers[w].pc == s.workers[w].pc
         && s'.workers[w].queue == s.workers[w].queue
         && s'.workers[w].log == s.workers[w].log
         && s'.workers[w].flows == s.workers[w].flows
         && s'.workers[w].evicted == s.workers[w].evicted
  }

  lemma MainSameWork(c: Setup, s: State)
    requires WellFormed(c, s) && MainEnabled(c, s)
    ensures var s' := ApplyMain(c, s);
            && SameWork(c, s, s')
            && s'.bal == s.bal && s'.stats == s.stats
            && s'.written == s.written && s'.writer == s.writer && s'.out == s.out
  {
  }

  /** No blocking push ever meets a shut-down queue. */
  predicate NoPushRefused(c: Setup, s: State) {
    && WellFormed(c, s)
    && (s.main.Push? ==> !s.rawShut)
    && (s.bal.BalPush? ==> !s.workers[RouteOf(c, s.bal.job)].shut)
    && ((exists w :: 0 <= w < c.n && s.workers[w].pc.Forward?) ==> !s.outShut)
  }

  lemma PhasesRefuseNoPush(c: Setup, s: State)
    requires Phases(c, s)
    ensures NoPushRefused(c, s)
  {
  }

  // ----- the path of a job from the reader to a worker -----

  function MainHand(main: MainPc): seq<PacketJob> {
    if main.Push? then [main.job] else []
  }

  function BalancerHand(bal: BalancerPc): seq<PacketJob> {
    if bal.BalPush? then [bal.job] else []
  }

  /** Emitted by the reader and not yet dispatched, oldest first. */
  function Transit(s: State): seq<PacketJob> {
    BalancerHand(s.bal) + s.raw + MainHand(s.main)
  }

  function HandledJobs(log: seq<Decision>): (jobs: seq<PacketJob>)
    ensures |jobs| == |log|
  {
    if log == [] then [] else HandledJobs(log[..|log| - 1]) + [log[|log| - 1].job]
  }

  /** Popped by the worker and not yet decided. */
  function WorkerHand(pc: WorkerPc): seq<PacketJob> {
    if pc.Process? then [pc.job] else []
  }

  /** Everything the balancer has handed this worker, oldest first. */
  function Received(worker: Worker): seq<PacketJob> {
    HandledJobs(worker.log) + WorkerHand(worker.pc) + worker.queue
  }

  predicate DeliveredTo(c: Setup, w: nat, worker: Worker, transit: seq<PacketJob>, emitted: seq<PacketJob>) {
    Received(worker) + Filter(ForWorker(c, w), transit) == Filter(ForWorker(c, w), emitted)
  }

  ghost predicate Delivered(c: Setup, s: State) {
    && WellFormed(c, s)
    && forall w :: 0 <= w < c.n ==> DeliveredTo(c, w, s.workers[w], Transit(s), c.jobs[..s.read])
  }

  // ----- the path of a forwarded job from a worker to the file -----

  function WriterHand(writer: WriterPc): seq<PacketJob> {
    if writer.WrWrite? then [writer.job] else []
  }

  /** Pushed to the output queue so far, oldest first. */
  function Outflow(s: State): seq<PacketJob> {
    s.written + WriterHand(s.writer) + s.out
  }

  function Forwards(log: seq<Decision>): (jobs: seq<PacketJob>)
    ensures |jobs| <= |log|
  {
    if log == [] then []
    else
      var last := log[|log| - 1];
      Forwards(log[..|log| - 1]) + if last.action.FORWARD? then [last.job] else []
  }

  /** Decided FORWARD and not yet pushed. */
  function Pending(pc: WorkerPc): seq<PacketJob> {
    match pc {
      case CountTotal(job, action, _) => if action.FORWARD? then [job] else []
      case CountApp(job, action, _) => if action.FORWARD? then [job] else []
      case CountVerdict(job, action) => if action.FORWARD? then [job] else []
      case Forward(job) => [job]
      case _ => []
    }
  }

  predicate EmittedBy(c: Setup, w: nat, worker: Worker, outflow: seq<PacketJob>) {
    Filter(ForWorker(c, w), outflow) + Pending(worker.pc) == Forwards(worker.log)
  }

  ghost predicate Emitted(c: Setup, s: State) {
    && WellFormed(c, s)
    && forall w :: 0 <= w < c.n ==> EmittedBy(c, w, s.workers[w], Outflow(s))
  }

  /** The job a worker has popped and not yet finished with. */
  function Holding(pc: WorkerPc): Option<PacketJob> {
    match pc {
      case Process(job) => Some(job)
      case CountTotal(job, _, _) => Some(job)
      case CountApp(job, _, _) => Some(job)
      case CountVerdict(job, _) => Some(job)
      case Forward(job) => Some(job)
      case _ => None
    }
  }

  /** Everything a worker holds was routed to it. */
  predicate Owns(c: Setup, w: nat, worker: Worker) {
    && (forall job :: job in worker.queue ==> RouteOf(c, job) == w)
    && (Holding(worker.pc).Some? ==> RouteOf(c, Holding(worker.pc).value) == w)
  }

  ghost predicate Owned(c: Setup, s: State) {
    && WellFormed(c, s)
    && forall w :: 0 <= w < c.n ==> Owns(c, w, s.workers[w])
  }

  lemma WorkerOwns(c: Setup, w: nat, me: Worker, stale: set<FiveTuple>)
    requires Owns(c, w, me)
    ensures Owns(c, w, NextWorker(c, me, stale))
  {
  }

  lemma OwnedWorker(c: Setup, s: State, w: nat, stale: set<FiveTuple>)
    requires Owned(c, s) && w < c.n && WorkerEnabled(s, s.workers[w])
    ensures Owned(c, ApplyWorker(c, s, w, stale))
  {
    WorkerOwns(c, w, s.workers[w], stale);
  }

  lemma OwnedBalancer(c: Setup, s: State)
    requires Owned(c, s) && BalancerEnabled(c, s)
    ensures Owned(c, ApplyBalancer(c, s))
  {
  }

  lemma OwnedFrame(c: Setup, s: State, s': State)
    requires Owned(c, s) && SameWork(c, s, s')
    ensures Owned(c, s')
  {
    forall w | 0 <= w < c.n ensures Owns(c, w, s'.workers[w]) {
      assert Owns(c, w, s.workers[w]);
    }
  }

  lemma OwnedStep(c: Setup, s: State, a: Action)
    requires Owned(c, s) && Enabled(c, s, a)
    ensures Owned(c, Apply(c, s, a))
  {
    match a {
      case MainStep =>
        MainSameWork(c, s);
        OwnedFrame(c, s, ApplyMain(c, s));
      case BalancerStep => OwnedBalancer(c, s);
      case WorkerStep(w, stale) => OwnedWorker(c, s, w, stale);
      case WorkerTimeout(w) => assert Owns(c, w, s.workers[w]);
      case _ =>
    }
  }

  // ----- Delivered -----

  lemma FilterOne(c: Setup, w: nat, job: PacketJob)
    ensures Filter(ForWorker(c, w), [job]) == if RouteOf(c, job) == w then [job] else []
  {
    assert [job][..0] == [];
  }

  lemma HandledSnoc(log: seq<Decision>, d: Decision)
    ensures HandledJobs(log + [d]) == HandledJobs(log) + [d.job]
    ensures Forwards(log + [d]) == Forwards(log) + if d.action.FORWARD? then [d.job] else []
  {
    assert (log + [d])[..|log|] == log;
  }

  lemma ReadDelivers(c: Setup, w: nat, worker: Worker, transit: seq<PacketJob>, emitted: seq<PacketJob>, job: PacketJob)
    requires DeliveredTo(c, w, worker, transit, emitted)
    ensures DeliveredTo(c, w, worker, transit + [job], emitted + [job])
  {
    FilterConcat(ForWorker(c, w), transit, [job]);
    FilterConcat(ForWorker(c, w), emitted, [job]);
  }

  lemma DispatchDelivers(c: Setup, w: nat, worker: Worker, job: PacketJob, rest: seq<PacketJob>,
                         emitted: seq<PacketJob>)
    requires DeliveredTo(c, w, worker, [job] + rest, emitted)
    ensures RouteOf(c, job) == w ==> DeliveredTo(c, w, worker.(queue := worker.queue + [job]), rest, emitted)
    ensures RouteOf(c, job) != w ==> DeliveredTo(c, w, worker, rest, emitted)
  {
    FilterConcat(ForWorker(c, w), [job], rest);
    FilterOne(c, w, job);
    var rest' := Filter(ForWorker(c, w), rest);
    if RouteOf(c, job) == w {
      Assoc(Received(worker), [job], rest');
      Assoc(HandledJobs(worker.log) + WorkerHand(worker.pc), worker.queue, [job]);
    } else {
      assert [] + rest' == rest';
    }
  }

  lemma PopReceives(me: Worker)
    requires me.pc.Pop? && me.queue != []
    ensures Received(me.(queue := me.queue[1..], pc := Process(me.queue[0]))) == Received(me)
  {
    var done := HandledJobs(me.log);
    assert me.queue == [me.queue[0]] + me.queue[1..];
    assert done + [] + me.queue == done + [me.queue[0]] + me.queue[1..];
  }

  lemma ProcessReceives(me: Worker, flows: FlowTable, d: Decision, pc: WorkerPc)
    requires me.pc == Process(d.job) && !pc.Process?
    ensures Received(me.(flows := flows, log := me.log + [d], pc := pc)) == Received(me)
  {
    HandledSnoc(me.log, d);
    var done := HandledJobs(me.log);
    assert done + [d.job] + me.queue == (done + [d.job]) + [] + me.queue;
  }

  lemma WorkerReceives(c: Setup, me: Worker, stale: set<FiveTuple>)
    ensures Received(NextWorker(c, me, stale)) == Received(me)
  {
    match me.pc {
      case Process(job) =>
        var o := c.process(me.flows, job);
        ProcessReceives(me, o.flows, Decision(job, o.action), CountTotal(job, o.action, o.app));
      case Pop =>
        if me.queue != [] {
          PopReceives(me);
        }
      case _ =>
    }
  }

  /** Only the workers' program counters, queues and logs and the transit matter. */
  lemma DeliveredFrame(c: Setup, s: State, s': State)
    requires Delivered(c, s) && SameWork(c, s, s')
    requires s'.read == s.read && Transit(s') == Transit(s)
    ensures Delivered(c, s')
  {
    forall w | 0 <= w < c.n ensures DeliveredTo(c, w, s'.workers[w], Transit(s'), c.jobs[..s'.read]) {
      assert DeliveredTo(c, w, s.workers[w], Transit(s), c.jobs[..s.read]);
    }
  }

  lemma DeliveredRead(c: Setup, s: State)
    requires Delivered(c, s) && s.main.Read? && s.read < |c.jobs|
    ensures Delivered(c, ApplyMain(c, s))
  {
    var s' := ApplyMain(c, s);
    var job := c.jobs[s.read];
    assert c.jobs[..s.read + 1] == c.jobs[..s.read] + [job];
    assert Transit(s') == Transit(s) + [job];
    forall w | 0 <= w < c.n ensures DeliveredTo(c, w, s'.workers[w], Transit(s'), c.jobs[..s'.read]) {
      ReadDelivers(c, w, s.workers[w], Transit(s), c.jobs[..s.read], job);
    }
  }

  lemma DeliveredMain(c: Setup, s: State)
    requires Phases(c, s) && Delivered(c, s) && MainEnabled(c, s)
    ensures Delivered(c, ApplyMain(c, s))
  {
    if s.main.Read? && s.read < |c.jobs| {
      DeliveredRead(c, s);
    } else {
      MainSameWork(c, s);
      assert Transit(ApplyMain(c, s)) == Transit(s);
      DeliveredFrame(c, s, ApplyMain(c, s));
    }
  }

  lemma DeliveredDispatch(c: Setup, s: State)
    requires Phases(c, s) && Delivered(c, s) && BalancerEnabled(c, s) && s.bal.BalPush?
    ensures Delivered(c, ApplyBalancer(c, s))
  {
    var s' := ApplyBalancer(c, s);
    assert Transit(s) == [s.bal.job] + Transit(s');
    forall w | 0 <= w < c.n ensures DeliveredTo(c, w, s'.workers[w], Transit(s'), c.jobs[..s'.read]) {
      DispatchDelivers(c, w, s.workers[w], s.bal.job, Transit(s'), c.jobs[..s.read]);
    }
  }

  lemma DeliveredBalancer(c: Setup, s: State)
    requires Phases(c, s) && Delivered(c, s) && BalancerEnabled(c, s)
    ensures Delivered(c, ApplyBalancer(c, s))
  {
    if s.bal.BalPush? {
      DeliveredDispatch(c, s);
    } else {
      assert Transit(ApplyBalancer(c, s)) == Transit(s);
      DeliveredFrame(c, s, ApplyBalancer(c, s));
    }
  }

  lemma DeliveredWorker(c: Setup, s: State, w: nat, stale: set<FiveTuple>)
    requires Delivered(c, s) && w < c.n && WorkerEnabled(s, s.workers[w])
    ensures Delivered(c, ApplyWorker(c, s, w, stale))
  {
    var s' := ApplyWorker(c, s, w, stale);
    WorkerReceives(c, s.workers[w], stale);
    assert Received(s'.workers[w]) == Received(s.workers[w]);
    assert Transit(s') == Transit(s);
  }

  lemma DeliveredTimeout(c: Setup, s: State, w: nat)
    requires Delivered(c, s) && Enabled(c, s, WorkerTimeout(w))
    ensures Delivered(c, Apply(c, s, WorkerTimeout(w)))
  {
    assert Received(s.workers[w].(pc := Check)) == Received(s.workers[w]);
    assert Transit(Apply(c, s, WorkerTimeout(w))) == Transit(s);
  }

  lemma DeliveredWriter(c: Setup, s: State)
    requires Delivered(c, s) && WriterEnabled(s)
    ensures Delivered(c, ApplyWriter(s))
  {
    assert Transit(ApplyWriter(s)) == Transit(s);
  }

  lemma DeliveredStep(c: Setup, s: State, a: Action)
    requires Phases(c, s) && Delivered(c, s) && Enabled(c, s, a)
    ensures Delivered(c, Apply(c, s, a))
  {
    match a {
      case MainStep => DeliveredMain(c, s);
      case BalancerStep => DeliveredBalancer(c, s);
      case WorkerStep(w, stale) => DeliveredWorker(c, s, w, stale);
      case WorkerTimeout(w) => DeliveredTimeout(c, s, w);
      case BalancerTimeout => DeliveredFrame(c, s, Apply(c, s, a));
      case WriterStep => DeliveredWriter(c, s);
      case WriterTimeout => DeliveredFrame(c, s, Apply(c, s, a));
    }
  }

  // ----- Emitted -----

  lemma ForwardEmits(c: Setup, w: nat, worker: Worker, outflow: seq<PacketJob>, job: PacketJob)
    requires EmittedBy(c, w, worker, outflow)
    ensures RouteOf(c, job) != w ==> EmittedBy(c, w, worker, outflow + [job])
    ensures RouteOf(c, job) == w && worker.pc == Forward(job) ==>
            EmittedBy(c, w, worker.(pc := Finish), outflow + [job])
  {
    FilterConcat(ForWorker(c, w), outflow, [job]);
    FilterOne(c, w, job);
    var mine := Filter(ForWorker(c, w), outflow);
    assert mine + [] == mine && (mine + [job]) + [] == mine + [job];
  }

  lemma ProcessEmits(c: Setup, w: nat, me: Worker, o: Outcome, outflow: seq<PacketJob>)
    requires EmittedBy(c, w, me, outflow) && me.pc.Process?
    ensures var job := me.pc.job;
            EmittedBy(c, w, me.(flows := o.flows, log := me.log + [Decision(job, o.action)],
                                pc := CountTotal(job, o.action, o.app)), outflow)
  {
    HandledSnoc(me.log, Decision(me.pc.job, o.action));
  }

  lemma StepKeepsPending(c: Setup, me: Worker, stale: set<FiveTuple>)
    requires !me.pc.Process? && !me.pc.Forward?
    ensures var me' := NextWorker(c, me, stale); me'.log == me.log && Pending(me'.pc) == Pending(me.pc)
  {
  }

  lemma WorkerEmits(c: Setup, w: nat, me: Worker, stale: set<FiveTuple>, outflow: seq<PacketJob>)
    requires EmittedBy(c, w, me, outflow) && !me.pc.Forward?
    ensures EmittedBy(c, w, NextWorker(c, me, stale), outflow)
  {
    if me.pc.Process? {
      ProcessEmits(c, w, me, c.process(me.flows, me.pc.job), outflow);
    } else {
      StepKeepsPending(c, me, stale);
    }
  }

  lemma EmittedWorker(c: Setup, s: State, w: nat, stale: set<FiveTuple>)
    requires Phases(c, s) && Owned(c, s) && Emitted(c, s)
    requires w < c.n && WorkerEnabled(s, s.workers[w])
    ensures Emitted(c, ApplyWorker(c, s, w, stale))
  {
    var s' := ApplyWorker(c, s, w, stale);
    if s.workers[w].pc.Forward? {
      var job := s.workers[w].pc.job;
      assert Owns(c, w, s.workers[w]);
      assert Outflow(s') == Outflow(s) + [job];
      forall v | 0 <= v < c.n ensures EmittedBy(c, v, s'.workers[v], Outflow(s')) {
        ForwardEmits(c, v, s.workers[v], Outflow(s), job);
      }
    } else {
      WorkerEmits(c, w, s.workers[w], stale, Outflow(s));
      assert Outflow(s') == Outflow(s);
    }
  }

  /** Only the workers' program counters and logs and the outflow matter. */
  lemma EmittedFrame(c: Setup, s: State, s': State)
    requires Emitted(c, s) && WellFormed(c, s')
    requires s'.written == s.written && s'.writer == s.writer && s'.out == s.out
    requires forall w :: 0 <= w < c.n ==> s'.workers[w].pc == s.workers[w].pc && s'.workers[w].log == s.workers[w].log
    ensures Emitted(c, s')
  {
    forall w | 0 <= w < c.n ensures EmittedBy(c, w, s'.workers[w], Outflow(s')) {
      assert EmittedBy(c, w, s.workers[w], Outflow(s));
    }
  }

  lemma EmittedWriter(c: Setup, s: State)
    requires Emitted(c, s) && WriterEnabled(s)
    ensures Emitted(c, ApplyWriter(s))
  {
    assert Outflow(ApplyWriter(s)) == Outflow(s);
  }

  lemma EmittedTimeout(c: Setup, s: State, w: nat)
    requires Emitted(c, s) && Enabled(c, s, WorkerTimeout(w))
    ensures Emitted(c, Apply(c, s, WorkerTimeout(w)))
  {
    assert EmittedBy(c, w, s.workers[w].(pc := Check), Outflow(s));
  }

  lemma EmittedStep(c: Setup, s: State, a: Action)
    requires Phases(c, s) && Owned(c, s) && Emitted(c, s) && Enabled(c, s, a)
    ensures Emitted(c, Apply(c, s, a))
  {
    match a {
      case MainStep =>
        MainSameWork(c, s);
        EmittedFrame(c, s, ApplyMain(c, s));
      case BalancerStep => EmittedFrame(c, s, ApplyBalancer(c, s));
      case WorkerStep(w, stale) => EmittedWorker(c, s, w, stale);
      case WriterStep => EmittedWriter(c, s);
      case WorkerTimeout(w) => EmittedTimeout(c, s, w);
      case BalancerTimeout => EmittedFrame(c, s, Apply(c, s, a));
      case WriterTimeout => assert Outflow(Apply(c, s, a)) == Outflow(s);
    }
  }
}
