/** The shared per-application counters, in every schedule, against the packets the workers have decided. */
module EngineCounts {
  import opened Types
  import opened Flow
  import opened FlowHistory
  import opened Engine
  import opened EngineHistory
  import P = Pipeline
  import PT = PipelineTheorems

  /** How many packets of a run are of this application, by what was known of their flow when they came. */
  function AppCount(env: Env, events: seq<Event>, app: AppType): nat {
    if events == [] then 0
    else
      var front, e := events[..|events| - 1], events[|events| - 1];
      AppCount(env, front, app)
      + if e.Packet? && KnownApp(env, HistoryWith(env, front, e.a)) == app then 1 else 0
  }

  /** The worker has decided a packet of this application and not counted it yet. */
  function Owed(me: P.Worker, app: AppType): nat {
    if (me.pc.CountTotal? || me.pc.CountApp?) && me.pc.app == app then 1 else 0
  }

  lemma AppCountSnoc(env: Env, events: seq<Event>, e: Event, app: AppType)
    ensures AppCount(env, events + [e], app)
         == AppCount(env, events, app)
            + if e.Packet? && KnownApp(env, HistoryWith(env, events, e.a)) == app then 1 else 0
  {
    assert (events + [e])[..|events|] == events;
  }

  lemma ProcessOwes(c: P.Setup, env: Env, me: P.Worker, job: PacketJob, stale: set<FiveTuple>, app: AppType)
    requires Runs(c, env) && me.pc == P.Process(job)
    ensures Owed(P.NextWorker(c, me, stale), app) == if Handled(env, me.flows, At(job)).app == app then 1 else 0
  {
    assert c.process(me.flows, job) == Decide(env, me.flows, job);
  }

  lemma OwnProcess(c: P.Setup, env: Env, me: P.Worker, stale: set<FiveTuple>, events: seq<Event>, app: AppType)
    requires Runs(c, env) && Replays(env, me, events) && me.pc.Process?
    ensures AppCount(env, events + StepEvents(me, stale), app) - Owed(P.NextWorker(c, me, stale), app)
         == AppCount(env, events, app)
  {
    var a := At(me.pc.job);
    AppCountSnoc(env, events, Packet(a), app);
    VerdictExactly(env, events, a);
    ProcessOwes(c, env, me, me.pc.job, stale, app);
  }

  lemma OwnCount(c: P.Setup, stats: P.Stats, me: P.Worker, stale: set<FiveTuple>, app: AppType)
    requires !me.pc.Process? && |stats.apps| == APP_COUNT
    ensures P.Counted(stats, me.pc).apps[app] - stats.apps[app] == Owed(me, app) - Owed(P.NextWorker(c, me, stale), app)
  {
  }

  lemma NoPacket(env: Env, me: P.Worker, stale: set<FiveTuple>, events: seq<Event>, app: AppType)
    requires !me.pc.Process?
    ensures AppCount(env, events + StepEvents(me, stale), app) == AppCount(env, events, app)
  {
    if me.pc.Finish? {
      AppCountSnoc(env, events, Cleanup(stale * me.flows.Keys), app);
    } else {
      assert events + [] == events;
    }
  }

  /** A worker's own step moves one packet from decided to counted. */
  lemma OwnStep(c: P.Setup, env: Env, stats: P.Stats, me: P.Worker, stale: set<FiveTuple>, events: seq<Event>,
                app: AppType)
    requires Runs(c, env) && Replays(env, me, events) && |stats.apps| == APP_COUNT
    ensures AppCount(env, events + StepEvents(me, stale), app) - Owed(P.NextWorker(c, me, stale), app)
         == AppCount(env, events, app) - Owed(me, app) + P.Counted(stats, me.pc).apps[app] - stats.apps[app]
  {
    if me.pc.Process? {
      OwnProcess(c, env, me, stale, events, app);
    } else {
      OwnCount(c, stats, me, stale, app);
      NoPacket(env, me, stale, events, app);
    }
  }

  /** The steps of the others leave its debt alone. */
  lemma OthersOwe(c: P.Setup, s: P.State, a: P.Action, w: nat, app: AppType)
    requires P.Enabled(c, s, a) && w < c.n && !(a.WorkerStep? && a.w == w)
    ensures P.WellFormed(c, P.Apply(c, s, a))
    ensures Owed(P.Apply(c, s, a).workers[w], app) == Owed(s.workers[w], app)
  {
    match a {
      case MainStep => MainKeeps(c, s, w);
      case BalancerStep => BalancerKeeps(c, s, w);
      case _ =>
    }
  }

  /** Only a worker's own step touches the counters. */
  lemma CountersMove(c: P.Setup, s: P.State, a: P.Action)
    requires P.Enabled(c, s, a)
    ensures P.Apply(c, s, a).stats == if a.WorkerStep? then P.Counted(s.stats, s.workers[a.w].pc) else s.stats
  {
  }

  /** Packets a worker has decided under this application and counted. */
  ghost function SettledBy(c: P.Setup, env: Env, acts: seq<P.Action>, app: AppType, w: nat): int {
    if P.Schedulable(c, acts) && w < |P.StateAfter(c, acts).workers| && w < c.n then
      AppCount(env, WorkerEvents(c, acts, w), app) - Owed(P.StateAfter(c, acts).workers[w], app)
    else 0
  }

  ghost function Settled(c: P.Setup, env: Env, acts: seq<P.Action>, app: AppType): nat -> int {
    (w: nat) => SettledBy(c, env, acts, app, w)
  }

  /** Added up over the first `n` workers. */
  ghost function Total(f: nat -> int, n: nat): int {
    if n == 0 then 0 else Total(f, n - 1) + f(n - 1)
  }

  lemma {:induction false} TotalMoves(f: nat -> int, g: nat -> int, n: nat, w: nat, d: int)
    requires forall v: nat :: v < n ==> g(v) == f(v) + (if v == w then d else 0)
    ensures Total(g, n) == Total(f, n) + (if w < n then d else 0)
  {
    if n > 0 {
      TotalMoves(f, g, n - 1, w, d);
    }
  }

  ghost predicate OneMore(c: P.Setup, acts: seq<P.Action>, a: P.Action) {
    && P.Schedulable(c, acts) && P.Schedulable(c, acts + [a])
    && P.Enabled(c, P.StateAfter(c, acts), a)
    && P.StateAfter(c, acts + [a]) == P.Apply(c, P.StateAfter(c, acts), a)
    && P.WellFormed(c, P.StateAfter(c, acts)) && P.WellFormed(c, P.StateAfter(c, acts + [a]))
  }

  /** What one worker has settled, before and after an action. */
  lemma WorkerSettles(c: P.Setup, env: Env, acts: seq<P.Action>, a: P.Action, app: AppType, w: nat)
    requires Runs(c, env) && OneMore(c, acts, a) && w < c.n
    ensures var s, s' := P.StateAfter(c, acts), P.StateAfter(c, acts + [a]);
            AppCount(env, WorkerEvents(c, acts + [a], w), app) - Owed(s'.workers[w], app)
            == AppCount(env, WorkerEvents(c, acts, w), app) - Owed(s.workers[w], app)
               + if a.WorkerStep? && a.w == w then s'.stats.apps[app] - s.stats.apps[app] else 0
  {
    var s := P.StateAfter(c, acts);
    var events := WorkerEvents(c, acts, w);
    WorkerReplays(c, env, acts, w);
    assert (acts + [a])[..|acts|] == acts;
    if a.WorkerStep? && a.w == w {
      CountersMove(c, s, a);
      OwnStep(c, env, s.stats, s.workers[w], a.stale, events, app);
      OwnNext(c, s, a);
    } else {
      OthersOwe(c, s, a, w, app);
      assert events + [] == events;
    }
  }

  lemma OwnNext(c: P.Setup, s: P.State, a: P.Action)
    requires P.Enabled(c, s, a) && a.WorkerStep?
    ensures P.WellFormed(c, P.Apply(c, s, a))
    ensures P.Apply(c, s, a).workers[a.w] == P.NextWorker(c, s.workers[a.w], a.stale)
  {
  }

  lemma SettledMoves(c: P.Setup, env: Env, acts: seq<P.Action>, a: P.Action, app: AppType, w: nat)
    requires Runs(c, env) && OneMore(c, acts, a) && w < c.n
    ensures SettledBy(c, env, acts + [a], app, w)
         == SettledBy(c, env, acts, app, w)
            + if a.WorkerStep? && a.w == w then
                P.StateAfter(c, acts + [a]).stats.apps[app] - P.StateAfter(c, acts).stats.apps[app]
              else 0
  {
    WorkerSettles(c, env, acts, a, app, w);
  }

  lemma AppsMove(c: P.Setup, env: Env, acts: seq<P.Action>, a: P.Action, app: AppType)
    requires Runs(c, env) && OneMore(c, acts, a)
    ensures P.StateAfter(c, acts + [a]).stats.apps[app] - P.StateAfter(c, acts).stats.apps[app]
         == Total(Settled(c, env, acts + [a], app), c.n) - Total(Settled(c, env, acts, app), c.n)
  {
    var f, g := Settled(c, env, acts, app), Settled(c, env, acts + [a], app);
    var d := P.StateAfter(c, acts + [a]).stats.apps[app] - P.StateAfter(c, acts).stats.apps[app];
    var w := if a.WorkerStep? then a.w else c.n;
    CountersMove(c, P.StateAfter(c, acts), a);
    forall v: nat | v < c.n ensures g(v) == f(v) + (if v == w then d else 0) {
      SettledMoves(c, env, acts, a, app, v);
    }
    TotalMoves(f, g, c.n, w, d);
  }

  lemma {:induction false} TotalZero(f: nat -> int, n: nat)
    requires forall w: nat :: w < n ==> f(w) == 0
    ensures Total(f, n) == 0
  {
    if n > 0 {
      TotalZero(f, n - 1);
    }
  }

  lemma NothingSettled(c: P.Setup, env: Env, app: AppType)
    ensures Total(Settled(c, env, [], app), c.n) == 0
  {
    TotalZero(Settled(c, env, [], app), c.n);
  }

  /**
   After every schedule each per-application counter is the number of packets decided under that
   application, as the packets of their flows define it, less those a worker is still counting.
   */
  lemma {:induction false} AppsExactly(c: P.Setup, env: Env, acts: seq<P.Action>, app: AppType)
    requires Runs(c, env) && P.Schedulable(c, acts)
    ensures P.WellFormed(c, P.StateAfter(c, acts))
    ensures P.StateAfter(c, acts).stats.apps[app] == Total(Settled(c, env, acts, app), c.n)
    decreases |acts|
  {
    if acts == [] {
      NothingSettled(c, env, app);
    } else {
      var front, a := acts[..|acts| - 1], acts[|acts| - 1];
      assert acts == front + [a];
      AppsExactly(c, env, front, app);
      PT.InvAlways(c, acts);
      assert OneMore(c, front, a);
      AppsMove(c, env, front, a, app);
    }
  }

  ghost function Decided(c: P.Setup, env: Env, acts: seq<P.Action>, app: AppType): nat -> int {
    (w: nat) => if P.Schedulable(c, acts) && w < c.n then AppCount(env, WorkerEvents(c, acts, w), app) else 0
  }

  lemma {:induction false} TotalSame(f: nat -> int, g: nat -> int, n: nat)
    requires forall w: nat :: w < n ==> f(w) == g(w)
    ensures Total(f, n) == Total(g, n)
  {
    if n > 0 {
      TotalSame(f, g, n - 1);
    }
  }

  lemma NothingOwed(c: P.Setup, acts: seq<P.Action>, w: nat, app: AppType)
    requires P.Schedulable(c, acts) && P.StateAfter(c, acts).main.Done? && w < c.n
    ensures w < |P.StateAfter(c, acts).workers| && Owed(P.StateAfter(c, acts).workers[w], app) == 0
  {
    PT.InvAlways(c, acts);
    PT.ExitedWhenDone(c, P.StateAfter(c, acts));
  }

  lemma SettledWhenDone(c: P.Setup, env: Env, acts: seq<P.Action>, app: AppType, w: nat)
    requires P.Schedulable(c, acts) && P.StateAfter(c, acts).main.Done? && w < c.n
    ensures Settled(c, env, acts, app)(w) == Decided(c, env, acts, app)(w)
  {
    NothingOwed(c, acts, w, app);
  }

  /** At the end each counter is exactly the number of packets decided under its application. */
  lemma AppsWhenDone(c: P.Setup, env: Env, acts: seq<P.Action>, app: AppType)
    requires Runs(c, env) && P.Schedulable(c, acts) && P.StateAfter(c, acts).main.Done?
    ensures P.WellFormed(c, P.StateAfter(c, acts))
    ensures P.StateAfter(c, acts).stats.apps[app] == Total(Decided(c, env, acts, app), c.n)
  {
    AppsExactly(c, env, acts, app);
    var f, g := Settled(c, env, acts, app), Decided(c, env, acts, app);
    forall w: nat | w < c.n ensures f(w) == g(w) {
      SettledWhenDone(c, env, acts, app, w);
    }
    TotalSame(f, g, c.n);
  }
}
