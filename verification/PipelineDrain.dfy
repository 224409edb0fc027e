/** What the stop sequence drains and what it abandons. */
module PipelineDrain {
  import opened Types
  import opened Sequences
  import opened Pipeline
  import opened PipelineInvariants
  import opened PipelineTheorems
  import opened PipelineProgress

  // ----- a condition before the stop sequence that guarantees draining -----

  /** The reader has finished and no worker has been told to stop. */
  predicate BeforeWorkersStop(main: MainPc) {
    main.Sleep? || main.StopBalancer? || main.ShutRaw? || main.JoinBalancer? || (main.StopWorker? && main.k == 0)
  }

  /** Nothing to pop, or one job and already waiting for it. */
  predicate Settled(me: Worker) {
    me.queue == [] || (|me.queue| == 1 && me.pc.Pop?)
  }

  predicate Quiet(c: Setup, s: State) {
    && WellFormed(c, s)
    && s.raw == [] && !s.bal.BalPush?
    && forall w :: 0 <= w < c.n ==> Settled(s.workers[w])
  }

  lemma SettledWorker(c: Setup, s: State, w: nat, stale: set<FiveTuple>)
    requires Quiet(c, s) && w < c.n && WorkerEnabled(s, s.workers[w])
    ensures Quiet(c, ApplyWorker(c, s, w, stale))
  {
    assert Settled(NextWorker(c, s.workers[w], stale));
  }

  lemma SettledMain(c: Setup, s: State)
    requires Quiet(c, s) && 1 <= Phase(c, s.main) && MainEnabled(c, s)
    ensures Quiet(c, ApplyMain(c, s))
  {
    MainSameWork(c, s);
  }

  lemma QuietStep(c: Setup, s: State, a: Action)
    requires Phases(c, s) && 1 <= Phase(c, s.main) && Quiet(c, s) && Enabled(c, s, a)
    ensures Quiet(c, Apply(c, s, a)) && 1 <= Phase(c, Apply(c, s, a).main)
  {
    match a {
      case MainStep => SettledMain(c, s);
      case WorkerStep(w, stale) => SettledWorker(c, s, w, stale);
      case _ =>
    }
  }

  lemma {:induction false} QuietAlways(c: Setup, acts: seq<Action>, all: seq<Action>)
    requires acts <= all && Schedulable(c, acts) && Schedulable(c, all)
    requires 1 <= Phase(c, StateAfter(c, acts).main) && Quiet(c, StateAfter(c, acts))
    ensures 1 <= Phase(c, StateAfter(c, all).main) && Quiet(c, StateAfter(c, all))
    decreases |all|
  {
    if acts == all {
    } else {
      var front := all[..|all| - 1];
      assert acts <= front;
      QuietAlways(c, acts, front);
      InvAlways(c, front);
      QuietStep(c, StateAfter(c, front), all[|all| - 1]);
    }
  }

  /** Each worker has decided all of the reader's jobs that hash to it. */
  ghost predicate EveryJobDecided(c: Setup, s: State) {
    && WellFormed(c, s)
    && forall w :: 0 <= w < c.n ==> HandledJobs(s.workers[w].log) == Filter(ForWorker(c, w), c.jobs)
  }

  lemma DecidedMeansEmpty(c: Setup, s: State)
    requires Inv(c, s) && s.main.Done? && EveryJobDecided(c, s)
    ensures InputsEmpty(c, s)
  {
    forall w | 0 <= w < c.n ensures s.workers[w].queue == [] && Filter(ForWorker(c, w), s.raw) == [] {
      WhenDone(c, s, w);
    }
    if s.raw != [] {
      var w := RouteOf(c, s.raw[0]);
      FilterMember(ForWorker(c, w), s.raw, s.raw[0]);
    }
  }

  lemma EmptyMeansDecided(c: Setup, s: State)
    requires Inv(c, s) && s.main.Done? && InputsEmpty(c, s)
    ensures EveryJobDecided(c, s)
  {
    forall w | 0 <= w < c.n ensures HandledJobs(s.workers[w].log) == Filter(ForWorker(c, w), c.jobs) {
      WhenDone(c, s, w);
      assert HandledJobs(s.workers[w].log) + [] + [] == HandledJobs(s.workers[w].log);
    }
  }

  lemma QuietWhenDone(c: Setup, s: State)
    requires Inv(c, s) && s.main.Done? && Quiet(c, s)
    ensures InputsEmpty(c, s)
  {
    NothingInHand(c, s);
    forall w | 0 <= w < c.n ensures s.workers[w].queue == [] {
      assert Settled(s.workers[w]);
    }
  }

  // ----- otherwise some schedule abandons a job -----

  lemma Keeps(c: Setup, s: State, a: Action, keep: State -> bool)
    requires Gentle(a) && Enabled(c, s, a) && keep(Apply(c, s, a))
    ensures CanKeep(c, s, keep)
  {
  }

  /** Worker `w` holds more than it is bound to pop. */
  predicate Backlogged(c: Setup, s: State, w: nat) {
    WellFormed(c, s) && 1 <= Phase(c, s.main) && w < c.n && !Settled(s.workers[w])
  }

  /** Taking its last job is what a backlogged worker must be kept from. */
  predicate LeavesBacklog(s: State, a: Action, w: nat)
    requires w < |s.workers|
  {
    a.WorkerStep? && a.w == w ==>
      !(s.workers[w].pc.Check? && s.workers[w].running && |s.workers[w].queue| == 1)
  }

  lemma BacklogMain(c: Setup, s: State, w: nat)
    requires Backlogged(c, s, w) && MainEnabled(c, s)
    ensures Backlogged(c, ApplyMain(c, s), w)
  {
    MainSameWork(c, s);
  }

  lemma BacklogBalancer(c: Setup, s: State, w: nat)
    requires Backlogged(c, s, w) && BalancerEnabled(c, s)
    ensures Backlogged(c, ApplyBalancer(c, s), w)
  {
  }

  lemma BacklogWorker(c: Setup, s: State, v: nat, stale: set<FiveTuple>, w: nat)
    requires Backlogged(c, s, w) && v < c.n && WorkerEnabled(s, s.workers[v])
    requires LeavesBacklog(s, WorkerStep(v, stale), w)
    ensures Backlogged(c, ApplyWorker(c, s, v, stale), w)
  {
    if v == w {
      assert !Settled(NextWorker(c, s.workers[w], stale));
    }
  }

  lemma BacklogStep(c: Setup, s: State, a: Action, w: nat)
    requires Backlogged(c, s, w) && Enabled(c, s, a) && LeavesBacklog(s, a, w)
    ensures Backlogged(c, Apply(c, s, a), w)
  {
    match a {
      case MainStep => BacklogMain(c, s, w);
      case BalancerStep => BacklogBalancer(c, s, w);
      case WorkerStep(v, stale) => BacklogWorker(c, s, v, stale, w);
      case _ =>
    }
  }

  /** A worker that has work, or is being joined, moves or lets the writer move. */
  lemma BusyWorkerMoves(c: Setup, s: State, w: nat, v: nat) returns (a: Action)
    requires Phases(c, s) && v < c.n && w < c.n && !s.workers[v].pc.Exited?
    requires |s.workers[v].queue| > 1 || (s.workers[v].shut && !s.workers[v].running)
    ensures Gentle(a) && Enabled(c, s, a) && LeavesBacklog(s, a, w)
  {
    a := if WorkerEnabled(s, s.workers[v]) then WorkerStep(v, {}) else WriterStep;
  }

  lemma JoiningMoves(c: Setup, s: State, w: nat) returns (a: Action)
    requires Phases(c, s) && 1 <= Phase(c, s.main) && !s.main.Done? && !MainEnabled(c, s) && w < c.n
    ensures Gentle(a) && Enabled(c, s, a) && LeavesBacklog(s, a, w)
  {
    if s.main.JoinBalancer? {
      if BalancerEnabled(c, s) {
        a := BalancerStep;
      } else {
        a := BusyWorkerMoves(c, s, w, RouteOf(c, s.bal.job));
      }
    } else if s.main.JoinWorker? {
      assert WorkerPhase(Phase(c, s.main), s.main.k, s.workers[s.main.k]);
      a := BusyWorkerMoves(c, s, w, s.main.k);
    } else {
      a := WriterStep;
    }
  }

  lemma BacklogCanStay(c: Setup, s: State, w: nat)
    requires Phases(c, s) && Backlogged(c, s, w) && !s.main.Done?
    ensures CanKeep(c, s, (t: State) => Backlogged(c, t, w))
  {
    var keep := (t: State) => Backlogged(c, t, w);
    var a := MainStep;
    if !MainEnabled(c, s) {
      a := JoiningMoves(c, s, w);
    }
    BacklogStep(c, s, a, w);
    Keeps(c, s, a, keep);
  }

  /** The raw queue holds more than the balancer is bound to pop. */
  predicate RawBacklog(c: Setup, s: State) {
    WellFormed(c, s) && 1 <= Phase(c, s.main) && s.raw != [] && (s.bal.BalPop? ==> |s.raw| > 1)
  }

  lemma RawBacklogMain(c: Setup, s: State)
    requires RawBacklog(c, s) && MainEnabled(c, s)
    ensures RawBacklog(c, ApplyMain(c, s))
  {
  }

  lemma RawBacklogBalancer(c: Setup, s: State)
    requires RawBacklog(c, s) && BalancerEnabled(c, s) && (s.bal.BalCheck? ==> !s.balRunning)
    ensures RawBacklog(c, ApplyBalancer(c, s))
  {
  }

  lemma RawBacklogStep(c: Setup, s: State, a: Action)
    requires RawBacklog(c, s) && Enabled(c, s, a)
    requires a.BalancerStep? && s.bal.BalCheck? ==> !s.balRunning
    ensures RawBacklog(c, Apply(c, s, a))
  {
    match a {
      case MainStep => RawBacklogMain(c, s);
      case BalancerStep => RawBacklogBalancer(c, s);
      case _ =>
    }
  }

  lemma RawBacklogCanStay(c: Setup, s: State)
    requires Phases(c, s) && RawBacklog(c, s) && !s.main.Done?
    ensures CanKeep(c, s, (t: State) => RawBacklog(c, t))
  {
    var keep := (t: State) => RawBacklog(c, t);
    var a := MainStep;
    if !MainEnabled(c, s) {
      a := JoiningMoves(c, s, 0);
    }
    RawBacklogStep(c, s, a);
    Keeps(c, s, a, keep);
  }

  /** `all` is a complete run that starts with `acts`. */
  ghost predicate Completes(c: Setup, acts: seq<Action>, all: seq<Action>) {
    acts <= all && Schedulable(c, all) && StateAfter(c, all).main.Done?
  }

  lemma AbandonBacklog(c: Setup, acts: seq<Action>, w: nat) returns (all: seq<Action>)
    requires Schedulable(c, acts) && Backlogged(c, StateAfter(c, acts), w)
    ensures Completes(c, acts, all) && Backlogged(c, StateAfter(c, all), w)
  {
    var keep := (t: State) => Backlogged(c, t, w);
    forall s | Inv(c, s) && keep(s) && !s.main.Done? ensures CanKeep(c, s, keep) {
      BacklogCanStay(c, s, w);
    }
    all := Drive(c, keep, (s: State) => s.main.Done?, acts);
  }

  lemma AbandonRaw(c: Setup, acts: seq<Action>) returns (all: seq<Action>)
    requires Schedulable(c, acts) && RawBacklog(c, StateAfter(c, acts))
    ensures Completes(c, acts, all) && RawBacklog(c, StateAfter(c, all))
  {
    var keep := (t: State) => RawBacklog(c, t);
    forall s | Inv(c, s) && keep(s) && !s.main.Done? ensures CanKeep(c, s, keep) {
      RawBacklogCanStay(c, s);
    }
    all := Drive(c, keep, (s: State) => s.main.Done?, acts);
  }

  lemma PushLands(c: Setup, s: State)
    requires WellFormed(c, s) && 1 <= Phase(c, s.main) && s.bal.BalPush?
    requires var to := s.workers[RouteOf(c, s.bal.job)];
             !to.shut && |to.queue| <= 1 && (to.queue == [] ==> !to.pc.Pop?)
    ensures Enabled(c, s, BalancerStep) && Backlogged(c, Apply(c, s, BalancerStep), RouteOf(c, s.bal.job))
  {
  }

  lemma WaitEnds(c: Setup, s: State, w: nat)
    requires WellFormed(c, s) && w < c.n
    requires s.workers[w].pc.Pop? && s.workers[w].queue == [] && !s.workers[w].shut
    ensures Enabled(c, s, WorkerTimeout(w))
    ensures var t := Apply(c, s, WorkerTimeout(w));
            && WellFormed(c, t) && t.main == s.main && t.bal == s.bal
            && t.workers[w] == s.workers[w].(pc := Check)
  {
  }

  lemma PushNow(c: Setup, acts: seq<Action>, s: State) returns (next: seq<Action>)
    requires Schedulable(c, acts) && StateAfter(c, acts) == s
    requires WellFormed(c, s) && 1 <= Phase(c, s.main) && s.bal.BalPush?
    requires var to := s.workers[RouteOf(c, s.bal.job)];
             !to.shut && |to.queue| <= 1 && (to.queue == [] ==> !to.pc.Pop?)
    ensures acts <= next && Schedulable(c, next) && Backlogged(c, StateAfter(c, next), RouteOf(c, s.bal.job))
  {
    PushLands(c, s);
    ScheduleOneMore(c, acts, BalancerStep);
    next := acts + [BalancerStep];
  }

  lemma WaitEndsFirst(c: Setup, acts: seq<Action>, s: State, w: nat) returns (next: seq<Action>, t: State)
    requires Schedulable(c, acts) && StateAfter(c, acts) == s && WellFormed(c, s) && w < c.n
    requires s.workers[w].pc.Pop? && s.workers[w].queue == [] && !s.workers[w].shut
    ensures acts <= next && Schedulable(c, next) && StateAfter(c, next) == t
    ensures WellFormed(c, t) && t.main == s.main && t.bal == s.bal && t.workers[w] == s.workers[w].(pc := Check)
  {
    WaitEnds(c, s, w);
    ScheduleOneMore(c, acts, WorkerTimeout(w));
    next, t := acts + [WorkerTimeout(w)], Apply(c, s, WorkerTimeout(w));
  }

  /** A job in the balancer's hand, with every worker settled: one push backs a worker up. */
  lemma PushBacksUp(c: Setup, acts: seq<Action>, s: State) returns (next: seq<Action>, w: nat)
    requires Schedulable(c, acts) && StateAfter(c, acts) == s && Phases(c, s)
    requires BeforeWorkersStop(s.main) && s.bal.BalPush?
    requires forall v :: 0 <= v < c.n ==> Settled(s.workers[v])
    ensures acts <= next && Schedulable(c, next) && Backlogged(c, StateAfter(c, next), w)
  {
    w := RouteOf(c, s.bal.job);
    assert WorkerPhase(Phase(c, s.main), w, s.workers[w]) && Settled(s.workers[w]);
    if s.workers[w].queue == [] && s.workers[w].pc.Pop? {
      var waited, t := WaitEndsFirst(c, acts, s, w);
      next := PushNow(c, waited, t);
    } else {
      next := PushNow(c, acts, s);
    }
  }

  lemma BalancerTakesLast(c: Setup, acts: seq<Action>, s: State) returns (next: seq<Action>, t: State)
    requires Schedulable(c, acts) && StateAfter(c, acts) == s && Phases(c, s)
    requires s.bal.BalPop? && s.raw != []
    ensures acts <= next && Schedulable(c, next) && StateAfter(c, next) == t && Phases(c, t)
    ensures t.bal.BalPush? && t.main == s.main && t.workers == s.workers
  {
    ScheduleOneMore(c, acts, BalancerStep);
    PhasesStep(c, s, BalancerStep);
    next, t := acts + [BalancerStep], Apply(c, s, BalancerStep);
  }

  /** The balancer's last job, wherever it is, can be made to back up a worker. */
  lemma HandOver(c: Setup, acts: seq<Action>, s: State) returns (next: seq<Action>, w: nat)
    requires Schedulable(c, acts) && StateAfter(c, acts) == s && Phases(c, s) && BeforeWorkersStop(s.main)
    requires !Quiet(c, s) && !RawBacklog(c, s)
    requires forall v :: 0 <= v < c.n ==> Settled(s.workers[v])
    ensures acts <= next && Schedulable(c, next) && Backlogged(c, StateAfter(c, next), w)
  {
    if s.bal.BalPush? {
      next, w := PushBacksUp(c, acts, s);
    } else {
      var taken, t := BalancerTakesLast(c, acts, s);
      next, w := PushBacksUp(c, taken, t);
    }
  }

  /** From any state that is not quiet some schedule ends with a job left in an input queue. */
  lemma AbandonFrom(c: Setup, acts: seq<Action>, s: State) returns (all: seq<Action>)
    requires Schedulable(c, acts) && StateAfter(c, acts) == s && Phases(c, s)
    requires BeforeWorkersStop(s.main) && !Quiet(c, s)
    ensures Completes(c, acts, all)
    ensures WellFormed(c, StateAfter(c, all)) && !InputsEmpty(c, StateAfter(c, all))
  {
    if w :| 0 <= w < c.n && !Settled(s.workers[w]) {
      all := AbandonBacklog(c, acts, w);
    } else if RawBacklog(c, s) {
      all := AbandonRaw(c, acts);
    } else {
      var next, w := HandOver(c, acts, s);
      all := AbandonBacklog(c, next, w);
    }
  }

  lemma LosesOne(c: Setup, acts: seq<Action>) returns (all: seq<Action>)
    requires Schedulable(c, acts) && BeforeWorkersStop(StateAfter(c, acts).main) && !Quiet(c, StateAfter(c, acts))
    ensures Completes(c, acts, all) && !EveryJobDecided(c, StateAfter(c, all))
  {
    InvAlways(c, acts);
    all := AbandonFrom(c, acts, StateAfter(c, acts));
    InvAlways(c, all);
    if EveryJobDecided(c, StateAfter(c, all)) {
      DecidedMeansEmpty(c, StateAfter(c, all));
    }
  }

  lemma QuietDrains(c: Setup, acts: seq<Action>, all: seq<Action>)
    requires Schedulable(c, acts) && 1 <= Phase(c, StateAfter(c, acts).main) && Quiet(c, StateAfter(c, acts))
    requires Completes(c, acts, all)
    ensures EveryJobDecided(c, StateAfter(c, all))
  {
    InvAlways(c, all);
    QuietAlways(c, acts, all);
    QuietWhenDone(c, StateAfter(c, all));
    EmptyMeansDecided(c, StateAfter(c, all));
  }

  /**
   Once the reader has finished and before any worker is told to stop, every way of completing
   the run decides every job if and only if the raw queue and the balancer's hand are empty and
   each worker's queue is empty, or holds one job and the worker is already waiting for it.
   */
  lemma DrainsExactlyWhen(c: Setup, acts: seq<Action>)
    requires Schedulable(c, acts) && BeforeWorkersStop(StateAfter(c, acts).main)
    ensures (forall all :: Completes(c, acts, all) ==> EveryJobDecided(c, StateAfter(c, all)))
              <==> Quiet(c, StateAfter(c, acts))
  {
    if Quiet(c, StateAfter(c, acts)) {
      forall all | Completes(c, acts, all) ensures EveryJobDecided(c, StateAfter(c, all)) {
        QuietDrains(c, acts, all);
      }
    } else {
      var all := LosesOne(c, acts);
    }
  }

  // ----- every input can lose something -----

  /** The reader still has a job to push. */
  predicate Reading(c: Setup, s: State) {
    WellFormed(c, s) && (s.main.Push? || (s.main.Read? && s.read < |c.jobs|))
  }

  predicate AboutToFinish(c: Setup, s: State) {
    WellFormed(c, s) && s.main.Push? && s.read == |c.jobs| && MainEnabled(c, s)
  }

  lemma ReadingGoesOn(c: Setup, s: State)
    requires Phases(c, s) && Reading(c, s) && !AboutToFinish(c, s)
    ensures CanKeep(c, s, (t: State) => Reading(c, t))
  {
    var keep := (t: State) => Reading(c, t);
    NeverStuck(c, s);
    var a :| Gentle(a) && Enabled(c, s, a);
    Keeps(c, s, a, keep);
  }

  /** The last job is in the raw queue and main is about to sleep. */
  lemma LastJobQueued(c: Setup) returns (acts: seq<Action>)
    requires c.jobs != []
    ensures Schedulable(c, acts) && StateAfter(c, acts).main.Sleep? && StateAfter(c, acts).raw != []
  {
    var keep := (t: State) => Reading(c, t);
    forall s | Inv(c, s) && keep(s) && !AboutToFinish(c, s) ensures CanKeep(c, s, keep) {
      ReadingGoesOn(c, s);
    }
    acts := Drive(c, keep, (s: State) => AboutToFinish(c, s), []);
    InvAlways(c, acts);
    ScheduleOneMore(c, acts, MainStep);
    acts := acts + [MainStep];
    ScheduleOneMore(c, acts, MainStep);
    acts := acts + [MainStep];
  }

  /** Whatever the input and the rules, if there is a job at all some schedule leaves one undecided. */
  lemma AnyInputMayLose(c: Setup) returns (acts: seq<Action>)
    requires c.jobs != []
    ensures Completes(c, [], acts) && !EveryJobDecided(c, StateAfter(c, acts))
  {
    var before := LastJobQueued(c);
    acts := LosesOne(c, before);
  }

  // ----- an input that fits the raw queue can be lost altogether -----

  predicate IdleWorker(me: Worker) {
    me.queue == [] && me.log == [] && (me.pc.Check? || me.pc.Exited?)
  }

  /** Only main has done anything. */
  predicate Untouched(c: Setup, s: State) {
    && WellFormed(c, s)
    && s.raw + MainHand(s.main) == c.jobs[..s.read]
    && (s.bal.BalCheck? || s.bal.BalExited?)
    && (forall w :: 0 <= w < c.n ==> IdleWorker(s.workers[w]))
    && s.out == [] && s.written == []
    && (s.writer.WrCheck? || s.writer.WrEmpty? || s.writer.WrExited?)
  }

  lemma UntouchedMain(c: Setup, s: State)
    requires Phases(c, s) && Untouched(c, s) && MainEnabled(c, s)
    ensures Untouched(c, ApplyMain(c, s))
  {
    MainSameWork(c, s);
    if s.main.Read? && s.read < |c.jobs| {
      assert c.jobs[..s.read + 1] == c.jobs[..s.read] + [c.jobs[s.read]];
    }
  }

  lemma UntouchedWorker(c: Setup, s: State, w: nat)
    requires Untouched(c, s) && w < c.n && WorkerEnabled(s, s.workers[w]) && !s.workers[w].running
    ensures Untouched(c, ApplyWorker(c, s, w, {}))
  {
    assert IdleWorker(s.workers[w]) && IdleWorker(NextWorker(c, s.workers[w], {}));
  }

  /** Whoever main is joining exits without having done anything. */
  lemma UntouchedJoins(c: Setup, s: State) returns (a: Action)
    requires Phases(c, s) && Untouched(c, s) && !s.main.Done? && !MainEnabled(c, s) && |c.jobs| <= 50000
    ensures Gentle(a) && Enabled(c, s, a) && Untouched(c, Apply(c, s, a))
  {
    if s.main.JoinBalancer? {
      a := BalancerStep;
    } else if s.main.JoinWorker? {
      assert WorkerPhase(Phase(c, s.main), s.main.k, s.workers[s.main.k]) && IdleWorker(s.workers[s.main.k]);
      a := WorkerStep(s.main.k, {});
      UntouchedWorker(c, s, s.main.k);
    } else {
      assert s.main.JoinWriter? || |s.raw + MainHand(s.main)| == s.read;
      a := WriterStep;
    }
  }

  lemma UntouchedGoesOn(c: Setup, s: State)
    requires Phases(c, s) && Untouched(c, s) && |c.jobs| <= 50000 && !s.main.Done?
    ensures CanKeep(c, s, (t: State) => Untouched(c, t))
  {
    var keep := (t: State) => Untouched(c, t);
    var a := MainStep;
    if MainEnabled(c, s) {
      UntouchedMain(c, s);
    } else {
      a := UntouchedJoins(c, s);
    }
    Keeps(c, s, a, keep);
  }

  lemma UntouchedWhenDone(c: Setup, s: State)
    requires Inv(c, s) && Untouched(c, s) && s.main.Done?
    ensures s.raw == c.jobs
  {
    assert s.raw + [] == s.raw && c.jobs[..|c.jobs|] == c.jobs;
  }

  /**
   The stop sequence does not drain: for any rules and any input that fits the raw queue there
   is a schedule that ends with all of it still there and an empty file.
   */
  lemma ShutdownMayAbandon(c: Setup) returns (acts: seq<Action>)
    requires |c.jobs| <= 50000
    ensures Completes(c, [], acts)
    ensures StateAfter(c, acts).raw == c.jobs && StateAfter(c, acts).written == []
  {
    var keep := (t: State) => Untouched(c, t);
    forall s | Inv(c, s) && keep(s) && !s.main.Done? ensures CanKeep(c, s, keep) {
      UntouchedGoesOn(c, s);
    }
    assert c.jobs[..0] == [];
    acts := Drive(c, keep, (s: State) => s.main.Done?, []);
    InvAlways(c, acts);
    UntouchedWhenDone(c, StateAfter(c, acts));
  }

  // ----- and every input can be decided in full -----

  predicate NothingEvicted(c: Setup, s: State) {
    WellFormed(c, s) && forall w :: 0 <= w < c.n ==> !s.workers[w].evicted
  }

  /** Everything has been handed over and taken, and main has not gone past its sleep. */
  predicate Rested(c: Setup, s: State) {
    && WellFormed(c, s)
    && s.main.Sleep? && s.raw == [] && !s.bal.BalPush?
    && forall w :: 0 <= w < c.n ==> s.workers[w].queue == []
  }

  predicate Draining(c: Setup, s: State) {
    NothingEvicted(c, s) && Phase(c, s.main) <= 1
  }

  lemma WorkerEvictsNothing(c: Setup, s: State, w: nat)
    requires NothingEvicted(c, s) && w < c.n && WorkerEnabled(s, s.workers[w])
    ensures NothingEvicted(c, ApplyWorker(c, s, w, {}))
  {
    assert !NextWorker(c, s.workers[w], {}).evicted;
  }

  lemma GentleEvictsNothing(c: Setup, s: State, a: Action)
    requires NothingEvicted(c, s) && Enabled(c, s, a) && Gentle(a)
    ensures NothingEvicted(c, Apply(c, s, a))
  {
    match a {
      case MainStep => MainSameWork(c, s);
      case BalancerStep =>
      case WorkerStep(w, stale) => WorkerEvictsNothing(c, s, w);
      case _ =>
    }
  }

  /** While main sleeps and something is queued, somebody else can move. */
  lemma OthersMove(c: Setup, s: State) returns (a: Action)
    requires Phases(c, s) && s.main.Sleep? && !Rested(c, s)
    ensures Gentle(a) && Enabled(c, s, a) && !a.MainStep?
  {
    if BalancerEnabled(c, s) && (s.raw != [] || s.bal.BalPush?) {
      a := BalancerStep;
    } else {
      var w := 0;
      if s.bal.BalPush? {
        w := RouteOf(c, s.bal.job);
      } else {
        w :| 0 <= w < c.n && s.workers[w].queue != [];
      }
      assert WorkerPhase(Phase(c, s.main), w, s.workers[w]);
      a := if WorkerEnabled(s, s.workers[w]) then WorkerStep(w, {}) else WriterStep;
    }
  }

  lemma DrainingGoesOn(c: Setup, s: State)
    requires Phases(c, s) && Draining(c, s) && !Rested(c, s)
    ensures CanKeep(c, s, (t: State) => Draining(c, t))
  {
    var keep := (t: State) => Draining(c, t);
    var a: Action;
    if s.main.Sleep? {
      a := OthersMove(c, s);
    } else {
      NeverStuck(c, s);
      a :| Gentle(a) && Enabled(c, s, a);
    }
    GentleEvictsNothing(c, s, a);
    Keeps(c, s, a, keep);
  }

  predicate Finishing(c: Setup, s: State) {
    NothingEvicted(c, s) && Quiet(c, s) && 1 <= Phase(c, s.main)
  }

  lemma FinishingGoesOn(c: Setup, s: State)
    requires Phases(c, s) && Finishing(c, s) && !s.main.Done?
    ensures CanKeep(c, s, (t: State) => Finishing(c, t))
  {
    var keep := (t: State) => Finishing(c, t);
    NeverStuck(c, s);
    var a :| Gentle(a) && Enabled(c, s, a);
    GentleEvictsNothing(c, s, a);
    QuietStep(c, s, a);
    Keeps(c, s, a, keep);
  }

  /** Every input has a fully drained run, to which all the others compare. */
  lemma DrainedRunExists(c: Setup) returns (acts: seq<Action>)
    ensures Schedulable(c, acts) && Drained(c, StateAfter(c, acts)) && EveryJobDecided(c, StateAfter(c, acts))
  {
    var draining := (t: State) => Draining(c, t);
    forall s | Inv(c, s) && draining(s) && !Rested(c, s) ensures CanKeep(c, s, draining) {
      DrainingGoesOn(c, s);
    }
    acts := Drive(c, draining, (s: State) => Rested(c, s), []);
    var finishing := (t: State) => Finishing(c, t);
    forall s | Inv(c, s) && finishing(s) && !s.main.Done? ensures CanKeep(c, s, finishing) {
      FinishingGoesOn(c, s);
    }
    acts := Drive(c, finishing, (s: State) => s.main.Done?, acts);
    InvAlways(c, acts);
    QuietWhenDone(c, StateAfter(c, acts));
    EmptyMeansDecided(c, StateAfter(c, acts));
  }
}
