/** Deadlock freedom, and a bound on the steps of any schedule. */
module PipelineProgress {
  import opened Types
  import opened Sequences
  import opened Pipeline
  import opened PipelineInvariants
  import opened PipelineTheorems

  // ----- some step other than a pop timeout is always enabled -----

  /** Neither a timeout nor a cleanup that removes anything. */
  predicate Gentle(a: Action) {
    !IsTimeout(a) && (a.WorkerStep? ==> a.stale == {})
  }

  ghost predicate CanMove(c: Setup, s: State) {
    exists a :: Gentle(a) && Enabled(c, s, a)
  }

  lemma FullOutputMoves(c: Setup, s: State)
    requires Phases(c, s) && s.out != [] && !s.writer.WrExited?
    ensures CanMove(c, s)
  {
    assert Enabled(c, s, WriterStep);
  }

  /** A worker that has not exited moves, or the writer does, unless it is waiting for input. */
  lemma WorkerMoves(c: Setup, s: State, w: nat)
    requires Phases(c, s) && w < c.n && !s.workers[w].pc.Exited?
    requires s.workers[w].queue != [] || s.workers[w].shut
    ensures CanMove(c, s)
  {
    if WorkerEnabled(s, s.workers[w]) {
      assert Enabled(c, s, WorkerStep(w, {}));
    } else {
      FullOutputMoves(c, s);
    }
  }

  lemma BalancerMoves(c: Setup, s: State)
    requires Phases(c, s) && !s.bal.BalExited?
    requires s.raw != [] || s.rawShut
    ensures CanMove(c, s)
  {
    if BalancerEnabled(c, s) {
      assert Enabled(c, s, BalancerStep);
    } else {
      WorkerMoves(c, s, RouteOf(c, s.bal.job));
    }
  }

  lemma NeverStuck(c: Setup, s: State)
    requires Phases(c, s) && !s.main.Done?
    ensures CanMove(c, s)
  {
    if MainEnabled(c, s) {
      assert Enabled(c, s, MainStep);
    } else {
      match s.main {
        case Push(_) => BalancerMoves(c, s);
        case JoinBalancer => BalancerMoves(c, s);
        case JoinWorker(k) => WorkerMoves(c, s, k);
        case JoinWriter => assert Enabled(c, s, WriterStep);
      }
    }
  }

  // ----- every such step lowers a measure; a timeout raises it by at most one -----

  function BalancerRank(s: State): int {
    match s.bal {
      case BalExited => 0
      case BalPop => 2
      case BalCheck => if s.balRunning then 3 else 1
      case BalPush(_) => 16
    }
  }

  function WorkerRank(me: Worker): int {
    12 * |me.queue| + match me.pc {
      case Exited => 0
      case Pop => 2
      case Check => if me.running then 3 else 1
      case Finish => 4
      case Forward(_) => 9
      case CountVerdict(_, _) => 10
      case CountApp(_, _, _) => 11
      case CountTotal(_, _, _) => 12
      case Process(_) => 13
    }
  }

  function WriterRank(s: State): int {
    match s.writer {
      case WrExited => 0
      case WrWrite(_) => 6
      case WrPop => if s.writerRunning then 4 else 3
      case WrCheck => if s.writerRunning || s.out != [] then 5 else 2
      case WrEmpty => if s.out != [] then 4 else 1
    }
  }

  function Measure(c: Setup, s: State): int {
    17 * (|c.jobs| - s.read)
    + (8 + 3 * c.n - Phase(c, s.main))
    + 16 * |MainHand(s.main)|
    + 15 * |s.raw|
    + BalancerRank(s)
    + Sum(WorkerRank, s.workers)
    + 4 * |s.out|
    + WriterRank(s)
  }

  lemma MeasureBounds(c: Setup, s: State)
    requires Phases(c, s)
    ensures 0 <= Measure(c, s)
  {
    SumNonNegative(WorkerRank, s.workers);
  }

  /** Stopping or shutting a worker never raises the workers' share. */
  lemma StoppedRanks(c: Setup, s: State)
    requires WellFormed(c, s) && MainEnabled(c, s)
    ensures Sum(WorkerRank, ApplyMain(c, s).workers) <= Sum(WorkerRank, s.workers)
  {
    if s.main.StopWorker? {
      SumUpdate(WorkerRank, s.workers, s.main.k, s.workers[s.main.k].(running := false));
    } else if s.main.ShutInput? {
      SumUpdate(WorkerRank, s.workers, s.main.k, s.workers[s.main.k].(shut := true));
    }
  }

  lemma MainLowers(c: Setup, s: State)
    requires Phases(c, s) && MainEnabled(c, s)
    ensures Measure(c, ApplyMain(c, s)) < Measure(c, s)
  {
    StoppedRanks(c, s);
  }

  lemma BalancerLowers(c: Setup, s: State)
    requires Phases(c, s) && BalancerEnabled(c, s)
    ensures Measure(c, ApplyBalancer(c, s)) < Measure(c, s)
  {
    if s.bal.BalPush? {
      var k := RouteOf(c, s.bal.job);
      var to := s.workers[k];
      SumUpdate(WorkerRank, s.workers, k, to.(queue := to.queue + [s.bal.job]));
    }
  }

  lemma WorkerRankLowers(c: Setup, me: Worker, stale: set<FiveTuple>)
    requires !me.pc.Exited? && (me.pc.Pop? && me.queue == [] ==> !me.running)
    ensures WorkerRank(NextWorker(c, me, stale)) + (if me.pc.Forward? then 4 else 0) < WorkerRank(me)
  {
  }

  lemma WorkerLowers(c: Setup, s: State, w: nat, stale: set<FiveTuple>)
    requires Phases(c, s) && w < c.n && WorkerEnabled(s, s.workers[w])
    ensures Measure(c, ApplyWorker(c, s, w, stale)) < Measure(c, s)
  {
    var me := s.workers[w];
    assert WorkerPhase(Phase(c, s.main), w, me);
    WorkerRankLowers(c, me, stale);
    SumUpdate(WorkerRank, s.workers, w, NextWorker(c, me, stale));
  }

  lemma WriterLowers(c: Setup, s: State)
    requires Phases(c, s) && WriterEnabled(s)
    ensures Measure(c, ApplyWriter(s)) < Measure(c, s)
  {
  }

  lemma StepLowers(c: Setup, s: State, a: Action)
    requires Phases(c, s) && Enabled(c, s, a)
    ensures !IsTimeout(a) ==> Measure(c, Apply(c, s, a)) < Measure(c, s)
    ensures IsTimeout(a) ==> Measure(c, Apply(c, s, a)) <= Measure(c, s) + 1
  {
    match a {
      case MainStep => MainLowers(c, s);
      case BalancerStep => BalancerLowers(c, s);
      case WorkerStep(w, stale) => WorkerLowers(c, s, w, stale);
      case WriterStep => WriterLowers(c, s);
      case WorkerTimeout(w) => SumUpdate(WorkerRank, s.workers, w, s.workers[w].(pc := Check));
      case BalancerTimeout =>
      case WriterTimeout =>
    }
  }

  function Timeouts(acts: seq<Action>): (n: nat)
    ensures n <= |acts|
  {
    if acts == [] then 0 else Timeouts(acts[..|acts| - 1]) + if IsTimeout(acts[|acts| - 1]) then 1 else 0
  }

  lemma {:induction false} MeasureAfter(c: Setup, acts: seq<Action>)
    requires Schedulable(c, acts)
    ensures Measure(c, StateAfter(c, acts)) + |acts| <= Measure(c, Init(c)) + 2 * Timeouts(acts)
  {
    if acts != [] {
      var front := acts[..|acts| - 1];
      MeasureAfter(c, front);
      InvAlways(c, front);
      StepLowers(c, StateAfter(c, front), acts[|acts| - 1]);
    }
  }

  lemma {:induction false} IdleRanks(n: nat)
    ensures Sum(WorkerRank, seq(n, i => IDLE_WORKER)) == 3 * n
  {
    if n > 0 {
      assert seq(n, i => IDLE_WORKER)[..n - 1] == seq(n - 1, i => IDLE_WORKER);
      IdleRanks(n - 1);
    }
  }

  /**
   Deadlock freedom and termination. After any schedule, main is done or some step other than a
   pop timeout is enabled; and any schedule makes at most seventeen such steps per job and six
   per worker, plus sixteen, plus one for each timeout it contains.
   */
  lemma DeadlockFreedom(c: Setup, acts: seq<Action>)
    requires Schedulable(c, acts)
    ensures StateAfter(c, acts).main.Done? || CanMove(c, StateAfter(c, acts))
    ensures |acts| - Timeouts(acts) <= 17 * |c.jobs| + 6 * c.n + 16 + Timeouts(acts)
  {
    InvAlways(c, acts);
    var s := StateAfter(c, acts);
    if !s.main.Done? {
      NeverStuck(c, s);
    }
    MeasureAfter(c, acts);
    MeasureBounds(c, s);
    IdleRanks(c.n);
  }

  lemma ScheduleOneMore(c: Setup, acts: seq<Action>, a: Action)
    requires Schedulable(c, acts) && Enabled(c, StateAfter(c, acts), a)
    ensures Schedulable(c, acts + [a]) && StateAfter(c, acts + [a]) == Apply(c, StateAfter(c, acts), a)
  {
    assert (acts + [a])[..|acts|] == acts;
  }

  // ----- driving the engine to a goal -----

  /** Some gentle step is enabled and keeps `keep`. */
  ghost predicate CanKeep(c: Setup, s: State, keep: State -> bool) {
    exists a :: Gentle(a) && Enabled(c, s, a) && keep(Apply(c, s, a))
  }

  /** `all` carries on from `acts` by gentle steps. */
  ghost predicate Extends(acts: seq<Action>, all: seq<Action>) {
    acts <= all && forall i :: |acts| <= i < |all| ==> Gentle(all[i])
  }

  lemma ExtendsBack(acts: seq<Action>, a: Action, all: seq<Action>)
    requires Gentle(a) && Extends(acts + [a], all)
    ensures Extends(acts, all)
  {
    assert acts + [a] == all[..|acts| + 1];
    assert acts == all[..|acts|];
  }

  lemma KeepOnce(c: Setup, acts: seq<Action>, keep: State -> bool) returns (a: Action)
    requires Schedulable(c, acts) && CanKeep(c, StateAfter(c, acts), keep)
    ensures Gentle(a) && Schedulable(c, acts + [a]) && keep(StateAfter(c, acts + [a]))
    ensures 0 <= Measure(c, StateAfter(c, acts + [a])) < Measure(c, StateAfter(c, acts))
  {
    var s := StateAfter(c, acts);
    InvAlways(c, acts);
    a :| Gentle(a) && Enabled(c, s, a) && keep(Apply(c, s, a));
    ScheduleOneMore(c, acts, a);
    StepLowers(c, s, a);
    PhasesStep(c, s, a);
    MeasureBounds(c, Apply(c, s, a));
  }

  /**
   A scheduler that keeps something true reaches its goal, if it can always take a gentle step
   towards it: the measure forbids going on for ever.
   */
  lemma {:induction false} Drive(c: Setup, keep: State -> bool, goal: State -> bool, acts: seq<Action>)
    returns (all: seq<Action>)
    requires Schedulable(c, acts) && keep(StateAfter(c, acts))
    requires forall s :: Inv(c, s) && keep(s) && !goal(s) ==> CanKeep(c, s, keep)
    ensures Extends(acts, all) && Schedulable(c, all)
    ensures keep(StateAfter(c, all)) && goal(StateAfter(c, all))
    decreases Measure(c, StateAfter(c, acts))
  {
    if goal(StateAfter(c, acts)) {
      all := acts;
    } else {
      InvAlways(c, acts);
      var a := KeepOnce(c, acts, keep);
      all := Drive(c, keep, goal, acts + [a]);
      ExtendsBack(acts, a, all);
    }
  }

  /** From wherever a schedule has got to, the engine can finish without any timeout or eviction. */
  lemma CanAlwaysFinish(c: Setup, acts: seq<Action>) returns (all: seq<Action>)
    requires Schedulable(c, acts)
    ensures Schedulable(c, all) && StateAfter(c, all).main.Done?
    ensures Extends(acts, all)
  {
    var keep: State -> bool := s => true;
    forall s | Inv(c, s) && !s.main.Done? ensures CanKeep(c, s, keep) {
      NeverStuck(c, s);
      var a :| Gentle(a) && Enabled(c, s, a);
      assert keep(Apply(c, s, a));
    }
    all := Drive(c, keep, (s: State) => s.main.Done?, acts);
  }
}
