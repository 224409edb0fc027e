/**
 The engine as a transition system: the reader (which is the main thread), the load balancer,
 `n` workers and the writer, over atomic bounded queues. A schedule is a sequence of actions;
 every action is one atomic step of one thread.
 */
module Pipeline {
  import opened Types
  import opened AtomicQueue

  // Queue bounds, as constructed in load_balancer.cpp, fast_path.cpp and main.cpp.
  const RAW_CAPACITY: nat := 50000
  const INPUT_CAPACITY: nat := 10000
  const OUTPUT_CAPACITY: nat := 20000

  /** What processing one packet does to the worker's table, and what it decides. */
  datatype Outcome = Outcome(flows: FlowTable, action: FlowAction, app: AppType)

  /** Fixed for one run: worker count, the jobs the reader emits, the hash and the packet step. */
  datatype Config = Config(
    n: nat,
    jobs: seq<PacketJob>,
    hash: FiveTuple -> nat,
    process: (FlowTable, PacketJob) -> Outcome)

  type Setup = c: Config | c.n > 0
    witness Config(1, [], (t: FiveTuple) => 0,
                   (f: FlowTable, j: PacketJob) => Outcome(f, FORWARD, UNKNOWN))

  function RouteOf(c: Setup, job: PacketJob): (w: nat)
    ensures w < c.n
  {
    c.hash(job.tuple) % c.n
  }

  function ForWorker(c: Setup, w: nat): PacketJob -> bool {
    job => RouteOf(c, job) == w
  }

  datatype MainPc =
    | Read | Push(job: PacketJob) | Sleep
    | StopBalancer | ShutRaw | JoinBalancer
    | StopWorker(k: nat) | ShutInput(k: nat) | JoinWorker(k: nat)
    | StopWriter | ShutOutput | JoinWriter
    | Done

  datatype BalancerPc = BalCheck | BalPop | BalPush(job: PacketJob) | BalExited

  datatype WorkerPc =
    | Check | Pop
    | Process(job: PacketJob)
    | CountTotal(job: PacketJob, action: FlowAction, app: AppType)
    | CountApp(job: PacketJob, action: FlowAction, app: AppType)
    | CountVerdict(job: PacketJob, action: FlowAction)
    | Forward(job: PacketJob)
    | Finish
    | Exited

  datatype WriterPc = WrCheck | WrEmpty | WrPop | WrWrite(job: PacketJob) | WrExited

  datatype Decision = Decision(job: PacketJob, action: FlowAction)

  /** `log` records every decision in order; `evicted` whether cleanup ever removed a flow. */
  datatype Worker = Worker(
    queue: seq<PacketJob>,
    shut: bool,
    running: bool,
    pc: WorkerPc,
    flows: FlowTable,
    processed: nat,
    evicted: bool,
    log: seq<Decision>)

  datatype Stats = Stats(total: nat, forwarded: nat, dropped: nat, apps: seq<nat>)

  datatype State = State(
    read: nat,
    main: MainPc,
    raw: seq<PacketJob>,
    rawShut: bool,
    balRunning: bool,
    bal: BalancerPc,
    workers: seq<Worker>,
    out: seq<PacketJob>,
    outShut: bool,
    writerRunning: bool,
    writer: WriterPc,
    written: seq<PacketJob>,
    stats: Stats)

  const IDLE_WORKER := Worker([], false, true, Check, map[], 0, false, [])

  function Init(c: Setup): State {
    State(0, Read, [], false, true, BalCheck, seq(c.n, i => IDLE_WORKER), [], false, true, WrCheck, [],
          Stats(0, 0, 0, seq(APP_COUNT, i => 0)))
  }

  datatype Action =
    | MainStep
    | BalancerStep | BalancerTimeout
    | WorkerStep(w: nat, stale: set<FiveTuple>) | WorkerTimeout(w: nat)
    | WriterStep | WriterTimeout

  predicate IsTimeout(a: Action) {
    a.BalancerTimeout? || a.WorkerTimeout? || a.WriterTimeout?
  }

  predicate WellFormed(c: Setup, s: State) {
    && |s.workers| == c.n
    && |s.stats.apps| == APP_COUNT
    && s.read <= |c.jobs|
  }

  predicate Enabled(c: Setup, s: State, a: Action) {
    && WellFormed(c, s)
    && match a {
         case MainStep => MainEnabled(c, s)
         case BalancerStep => BalancerEnabled(c, s)
         case BalancerTimeout => s.bal.BalPop? && !CanPop(s.raw, s.rawShut)
         case WorkerStep(w, stale) =>
           && w < c.n
           && WorkerEnabled(s, s.workers[w])
           && (stale != {} ==> s.workers[w].pc.Finish? && (s.workers[w].processed + 1) % CLEANUP_INTERVAL == 0)
         case WorkerTimeout(w) =>
           w < c.n && s.workers[w].pc.Pop? && !CanPop(s.workers[w].queue, s.workers[w].shut)
         case WriterStep => WriterEnabled(s)
         case WriterTimeout => s.writer.WrPop? && !CanPop(s.out, s.outShut)
       }
  }

  predicate MainEnabled(c: Setup, s: State)
    requires WellFormed(c, s)
  {
    match s.main {
      case Push(_) => CanPush(s.raw, RAW_CAPACITY, s.rawShut)
      case JoinBalancer => s.bal.BalExited?
      case StopWorker(k) => k < c.n
      case ShutInput(k) => k < c.n
      case JoinWorker(k) => k < c.n && s.workers[k].pc.Exited?
      case JoinWriter => s.writer.WrExited?
      case Done => false
      case _ => true
    }
  }

  predicate BalancerEnabled(c: Setup, s: State)
    requires WellFormed(c, s)
  {
    match s.bal {
      case BalPop => CanPop(s.raw, s.rawShut)
      case BalPush(job) =>
        var to := s.workers[RouteOf(c, job)];
        CanPush(to.queue, INPUT_CAPACITY, to.shut)
      case BalExited => false
      case _ => true
    }
  }

  predicate WorkerEnabled(s: State, worker: Worker) {
    match worker.pc {
      case Pop => CanPop(worker.queue, worker.shut)
      case Forward(_) => CanPush(s.out, OUTPUT_CAPACITY, s.outShut)
      case Exited => false
      case _ => true
    }
  }

  predicate WriterEnabled(s: State) {
    match s.writer {
      case WrPop => CanPop(s.out, s.outShut)
      case WrExited => false
      case _ => true
    }
  }

  function Apply(c: Setup, s: State, a: Action): State
    requires Enabled(c, s, a)
  {
    match a {
      case MainStep => ApplyMain(c, s)
      case BalancerStep => ApplyBalancer(c, s)
      case BalancerTimeout => s.(bal := BalCheck)
      case WorkerStep(w, stale) => ApplyWorker(c, s, w, stale)
      case WorkerTimeout(w) => s.(workers := s.workers[w := s.workers[w].(pc := Check)])
      case WriterStep => ApplyWriter(s)
      case WriterTimeout => s.(writer := WrCheck)
    }
  }

  /** The order of main: the reader loop, then the stop sequence. */
  function NextMain(c: Setup, s: State): MainPc {
    match s.main {
      case Read => if s.read < |c.jobs| then Push(c.jobs[s.read]) else Sleep
      case Push(_) => Read
      case Sleep => StopBalancer
      case StopBalancer => ShutRaw
      case ShutRaw => JoinBalancer
      case JoinBalancer => StopWorker(0)
      case StopWorker(k) => ShutInput(k)
      case ShutInput(k) => JoinWorker(k)
      case JoinWorker(k) => if k + 1 < c.n then StopWorker(k + 1) else StopWriter
      case StopWriter => ShutOutput
      case ShutOutput => JoinWriter
      case JoinWriter => Done
      case Done => Done
    }
  }

  /** The effect of each of those steps. */
  function ApplyMain(c: Setup, s: State): State
    requires WellFormed(c, s) && MainEnabled(c, s)
  {
    s.(main := NextMain(c, s),
       read := if s.main.Read? && s.read < |c.jobs| then s.read + 1 else s.read,
       raw := if s.main.Push? then AfterPush(s.raw, s.rawShut, s.main.job) else s.raw,
       balRunning := s.balRunning && !s.main.StopBalancer?,
       rawShut := s.rawShut || s.main.ShutRaw?,
       workers :=
         if s.main.StopWorker? then s.workers[s.main.k := s.workers[s.main.k].(running := false)]
         else if s.main.ShutInput? then s.workers[s.main.k := s.workers[s.main.k].(shut := true)]
         else s.workers,
       writerRunning := s.writerRunning && !s.main.StopWriter?,
       outShut := s.outShut || s.main.ShutOutput?)
  }

  function ApplyBalancer(c: Setup, s: State): State
    requires WellFormed(c, s) && BalancerEnabled(c, s)
  {
    match s.bal {
      case BalCheck => s.(bal := if s.balRunning then BalPop else BalExited)
      case BalPop => if s.raw == [] then s.(bal := BalCheck) else s.(raw := s.raw[1..], bal := BalPush(s.raw[0]))
      case BalPush(job) =>
        var k := RouteOf(c, job);
        var to := s.workers[k];
        s.(workers := s.workers[k := to.(queue := AfterPush(to.queue, to.shut, job))], bal := BalCheck)
      case BalExited => s
    }
  }

  /** One worker step: its own record, one shared counter or one push to the output queue. */
  function ApplyWorker(c: Setup, s: State, w: nat, stale: set<FiveTuple>): State
    requires WellFormed(c, s) && w < c.n && WorkerEnabled(s, s.workers[w])
  {
    var me := s.workers[w];
    s.(workers := s.workers[w := NextWorker(c, me, stale)],
       stats := Counted(s.stats, me.pc),
       out := if me.pc.Forward? then AfterPush(s.out, s.outShut, me.pc.job) else s.out)
  }

  function NextWorker(c: Setup, me: Worker, stale: set<FiveTuple>): Worker {
    match me.pc {
      case Check => me.(pc := if me.running then Pop else Exited)
      case Pop =>
        if me.queue == [] then me.(pc := Check) else me.(queue := me.queue[1..], pc := Process(me.queue[0]))
      case Process(job) =>
        var o := c.process(me.flows, job);
        me.(flows := o.flows, log := me.log + [Decision(job, o.action)], pc := CountTotal(job, o.action, o.app))
      case CountTotal(job, action, app) => me.(pc := CountApp(job, action, app))
      case CountApp(job, action, _) => me.(pc := CountVerdict(job, action))
      case CountVerdict(job, action) => me.(pc := if action.DROP? then Finish else Forward(job))
      case Forward(_) => me.(pc := Finish)
      case Finish =>
        me.(processed := me.processed + 1,
            flows := me.flows - stale,
            evicted := me.evicted || stale * me.flows.Keys != {},
            pc := Check)
      case Exited => me
    }
  }

  function Counted(stats: Stats, pc: WorkerPc): (r: Stats)
    requires |stats.apps| == APP_COUNT
    ensures |r.apps| == APP_COUNT
  {
    match pc {
      case CountTotal(_, _, _) => stats.(total := stats.total + 1)
      case CountApp(_, _, app) => stats.(apps := stats.apps[app := stats.apps[app] + 1])
      case CountVerdict(_, action) =>
        if action.DROP? then stats.(dropped := stats.dropped + 1) else stats.(forwarded := stats.forwarded + 1)
      case _ => stats
    }
  }

  function ApplyWriter(s: State): State
    requires WriterEnabled(s)
  {
    match s.writer {
      case WrCheck => s.(writer := if s.writerRunning then WrPop else WrEmpty)
      case WrEmpty => s.(writer := if s.out != [] then WrPop else WrExited)
      case WrPop => if s.out == [] then s.(writer := WrCheck) else s.(out := s.out[1..], writer := WrWrite(s.out[0]))
      case WrWrite(job) => s.(written := s.written + [job], writer := WrCheck)
      case WrExited => s
    }
  }

  /** A schedule every action of which was enabled when it was taken. */
  predicate Schedulable(c: Setup, acts: seq<Action>)
    decreases |acts|, 0
  {
    acts != [] ==>
      && Schedulable(c, acts[..|acts| - 1])
      && Enabled(c, StateAfter(c, acts[..|acts| - 1]), acts[|acts| - 1])
  }

  function StateAfter(c: Setup, acts: seq<Action>): State
    requires Schedulable(c, acts)
    decreases |acts|, 1
  {
    if acts == [] then Init(c)
    else Apply(c, StateAfter(c, acts[..|acts| - 1]), acts[|acts| - 1])
  }
}
