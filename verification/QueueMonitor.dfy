/**
 include/thread_safe_queue.h step by step: a mutex, two condition variables and any number of
 threads. A waiting thread is asleep until notified; woken threads must win the mutex back and
 evaluate their condition again. Spurious wakeups and timeouts are included.
 */
module QueueMonitor {
  import opened Prelude
  import opened AtomicQueue

  datatype Pc<T> =
    | Idle
    // push and tryPush
    | PushLock(item: T) | PushTest(item: T) | PushWait(item: T) | PushDecide(item: T)
    | TryLock(item: T) | TryTest(item: T)
    | PushCount | PushNotify
    // pop and popWithTimeout
    | PopLock(timed: bool) | PopTest(timed: bool) | PopWait(timed: bool)
    | PopExpired | PopLast
    | PopDecide
    | PopCount(taken: T) | PopNotify(taken: T)
    // shutdown
    | ShutLock | ShutSet | ShutUnlock | NotifyEmpty | NotifyFull
    // about to release the mutex and return
    | Return(result: Result<T>)

  datatype Result<T> = Accepted | Refused | Popped(item: T) | Nothing

  datatype Call<T> = CallPush(item: T) | CallTryPush(item: T) | CallPop(timed: bool) | CallShutdown

  /**
   `asleep` threads have not been notified; `notified` ones have been and have not yet acted on
   it by taking, inserting, giving up or going back to sleep.
   */
  datatype Condition = Condition(asleep: set<nat>, notified: set<nat>)

  datatype State<T> = State(
    capacity: nat,
    queue: seq<T>,
    size: nat,
    shut: bool,
    holder: Option<nat>,
    notFull: Condition,
    notEmpty: Condition,
    threads: seq<Pc<T>>)

  function Init<T>(capacity: nat, n: nat): State<T> {
    State(capacity, [], 0, false, None, Condition({}, {}), Condition({}, {}), seq(n, i => Idle))
  }

  datatype Action<T> =
    | Begin(t: nat, call: Call<T>)
    | Step(t: nat, wake: nat)
    | Spurious(t: nat)
    | Expire(t: nat)

  function GoTo<T>(s: State<T>, t: nat, pc: Pc<T>): State<T>
    requires t < |s.threads|
  {
    s.(threads := s.threads[t := pc])
  }

  function Acquire<T>(s: State<T>, t: nat, pc: Pc<T>): State<T>
    requires t < |s.threads|
  {
    GoTo(s.(holder := Some(t)), t, pc)
  }

  /** notify_one: nobody asleep, nothing happens; otherwise some sleeper is notified. */
  predicate MayWake(cond: Condition, wake: nat) {
    cond.asleep != {} ==> wake in cond.asleep
  }

  function NotifyOne(cond: Condition, wake: nat): Condition {
    if cond.asleep == {} then cond else Condition(cond.asleep - {wake}, cond.notified + {wake})
  }

  function NotifyAll(cond: Condition): Condition {
    Condition({}, cond.notified + cond.asleep)
  }

  /** The thread has acted on its notification, if it had one. */
  function Settle(cond: Condition, t: nat): Condition {
    cond.(notified := cond.notified - {t})
  }

  function FallAsleep(cond: Condition, t: nat): Condition {
    Condition(cond.asleep + {t}, cond.notified - {t})
  }

  predicate StepEnabled<T>(s: State<T>, t: nat, wake: nat)
    requires t < |s.threads|
  {
    match s.threads[t] {
      case Idle => false
      case PushLock(_) => s.holder.None?
      case TryLock(_) => s.holder.None?
      case PopLock(_) => s.holder.None?
      case ShutLock => s.holder.None?
      case PushWait(_) => s.holder.None? && t in s.notFull.notified
      case PopWait(_) => s.holder.None? && t in s.notEmpty.notified
      case PopExpired => s.holder.None?
      case PushNotify => MayWake(s.notEmpty, wake)
      case PopNotify(_) => MayWake(s.notFull, wake)
      case _ => true
    }
  }

  predicate Enabled<T>(s: State<T>, a: Action<T>) {
    match a {
      case Begin(t, _) => t < |s.threads| && s.threads[t].Idle?
      case Step(t, wake) => t < |s.threads| && StepEnabled(s, t, wake)
      case Spurious(t) => t < |s.threads| && (t in s.notFull.asleep || t in s.notEmpty.asleep)
                          && (s.threads[t].PushWait? || s.threads[t].PopWait?)
      case Expire(t) => t < |s.threads| && s.threads[t].PopWait? && s.threads[t].timed
    }
  }

  function Apply<T>(s: State<T>, a: Action<T>): State<T>
    requires Enabled(s, a)
  {
    match a {
      case Begin(t, call) =>
        GoTo(s, t, match call {
                     case CallPush(item) => PushLock(item)
                     case CallTryPush(item) => TryLock(item)
                     case CallPop(timed) => PopLock(timed)
                     case CallShutdown => ShutLock
                   })
      case Step(t, wake) => ApplyStep(s, t, wake)
      case Spurious(t) =>
        if s.threads[t].PushWait? then
          GoTo(s.(notFull := s.notFull.(asleep := s.notFull.asleep - {t})), t, PushLock(s.threads[t].item))
        else
          GoTo(s.(notEmpty := s.notEmpty.(asleep := s.notEmpty.asleep - {t})), t, PopLock(s.threads[t].timed))
      case Expire(t) =>
        GoTo(s.(notEmpty := s.notEmpty.(asleep := s.notEmpty.asleep - {t})), t, PopExpired)
    }
  }

  function ApplyStep<T>(s: State<T>, t: nat, wake: nat): State<T>
    requires t < |s.threads| && StepEnabled(s, t, wake)
  {
    match s.threads[t] {
      case Idle => s
      case PushLock(item) => Acquire(s, t, PushTest(item))
      case PushWait(item) => Acquire(s, t, PushTest(item))
      case PushTest(item) =>
        if CanPush(s.queue, s.capacity, s.shut) then GoTo(s, t, PushDecide(item))
        else GoTo(s.(holder := None, notFull := FallAsleep(s.notFull, t)), t, PushWait(item))
      case PushDecide(item) =>
        GoTo(s.(queue := AfterPush(s.queue, s.shut, item), notFull := Settle(s.notFull, t)), t,
             if s.shut then Return(Refused) else PushCount)
      case TryLock(item) => Acquire(s, t, TryTest(item))
      case TryTest(item) =>
        if |s.queue| >= s.capacity || s.shut then GoTo(s, t, Return(Refused))
        else GoTo(s.(queue := s.queue + [item]), t, PushCount)
      case PushCount => GoTo(s.(size := s.size + 1), t, PushNotify)
      case PushNotify => GoTo(s.(notEmpty := NotifyOne(s.notEmpty, wake)), t, Return(Accepted))
      case PopLock(timed) => Acquire(s, t, PopTest(timed))
      case PopWait(timed) => Acquire(s, t, PopTest(timed))
      case PopTest(timed) =>
        if CanPop(s.queue, s.shut) then GoTo(s, t, PopDecide)
        else GoTo(s.(holder := None, notEmpty := FallAsleep(s.notEmpty, t)), t, PopWait(timed))
      case PopExpired => Acquire(s, t, PopLast)
      case PopLast =>
        if CanPop(s.queue, s.shut) then GoTo(s, t, PopDecide)
        else GoTo(s.(notEmpty := Settle(s.notEmpty, t)), t, Return(Nothing))
      case PopDecide =>
        GoTo(s.(queue := AfterPop(s.queue), notEmpty := Settle(s.notEmpty, t)), t,
             if |s.queue| == 0 then Return(Nothing) else PopCount(s.queue[0]))
      case PopCount(taken) => GoTo(s.(size := if s.size == 0 then 0 else s.size - 1), t, PopNotify(taken))
      case PopNotify(taken) => GoTo(s.(notFull := NotifyOne(s.notFull, wake)), t, Return(Popped(taken)))
      case ShutLock => Acquire(s, t, ShutSet)
      case ShutSet => GoTo(s.(shut := true), t, ShutUnlock)
      case ShutUnlock => GoTo(s.(holder := None), t, NotifyEmpty)
      case NotifyEmpty => GoTo(s.(notEmpty := NotifyAll(s.notEmpty)), t, NotifyFull)
      case NotifyFull => GoTo(s.(notFull := NotifyAll(s.notFull)), t, Idle)
      case Return(_) => GoTo(s.(holder := None), t, Idle)
    }
  }

  // ----- who holds the mutex, who waits where -----

  predicate Inside<T>(pc: Pc<T>) {
    match pc {
      case PushTest(_) => true
      case PushDecide(_) => true
      case TryTest(_) => true
      case PushCount => true
      case PushNotify => true
      case PopTest(_) => true
      case PopLast => true
      case PopDecide => true
      case PopCount(_) => true
      case PopNotify(_) => true
      case ShutSet => true
      case ShutUnlock => true
      case Return(_) => true
      case _ => false
    }
  }

  predicate HoldsMutex<T>(s: State<T>, t: nat)
    requires t < |s.threads|
  {
    var pc := s.threads[t];
    && (Inside(pc) <==> s.holder == Some(t))
    && (pc.PushDecide? ==> CanPush(s.queue, s.capacity, s.shut))
    && (pc.PopDecide? ==> CanPop(s.queue, s.shut))
  }

  predicate OnNotFull(cond: Condition, t: nat, pc: Pc) {
    && (t in cond.asleep ==> pc.PushWait? && t !in cond.notified)
    && (t in cond.notified ==> pc.PushWait? || pc.PushTest? || pc.PushDecide?)
    && (pc.PushWait? ==> t in cond.asleep || t in cond.notified)
  }

  predicate OnNotEmpty(cond: Condition, t: nat, pc: Pc) {
    && (t in cond.asleep ==> pc.PopWait? && t !in cond.notified)
    && (t in cond.notified ==> pc.PopWait? || pc.PopExpired? || pc.PopTest? || pc.PopLast? || pc.PopDecide?)
    && (pc.PopWait? ==> t in cond.asleep || t in cond.notified)
  }

  predicate Consistent<T>(s: State<T>, t: nat)
    requires t < |s.threads|
  {
    HoldsMutex(s, t) && OnNotFull(s.notFull, t, s.threads[t]) && OnNotEmpty(s.notEmpty, t, s.threads[t])
  }

  /** The mutex holder's program counter, or Idle when the mutex is free. */
  function HolderPc<T>(s: State<T>): Pc<T> {
    if s.holder.Some? && s.holder.value < |s.threads| then s.threads[s.holder.value] else Idle
  }

  function Waiters<T>(s: State<T>): set<nat> {
    s.notFull.asleep + s.notFull.notified + s.notEmpty.asleep + s.notEmpty.notified
  }

  ghost predicate Inv<T>(s: State<T>) {
    && (forall t :: 0 <= t < |s.threads| ==> Consistent(s, t))
    && (s.holder.Some? ==> s.holder.value < |s.threads|)
    && (forall t :: t in Waiters(s) ==> t < |s.threads|)
    && |s.queue| <= s.capacity
    && s.size == |s.queue| - (if HolderPc(s).PushCount? then 1 else 0) + (if HolderPc(s).PopCount? then 1 else 0)
  }

  lemma StepKeepsOwnMutex<T>(s: State<T>, t: nat, wake: nat)
    requires Inv(s) && t < |s.threads| && StepEnabled(s, t, wake)
    ensures HoldsMutex(ApplyStep(s, t, wake), t)
  {
    assert Consistent(s, t);
  }

  lemma StepKeepsMutex<T>(s: State<T>, t: nat, wake: nat, u: nat)
    requires Inv(s) && t < |s.threads| && StepEnabled(s, t, wake) && u < |s.threads|
    ensures HoldsMutex(ApplyStep(s, t, wake), u)
  {
    assert Consistent(s, t) && Consistent(s, u);
    if u == t {
      StepKeepsOwnMutex(s, t, wake);
    }
  }

  lemma StepKeepsNotFull<T>(s: State<T>, t: nat, wake: nat, u: nat)
    requires Inv(s) && t < |s.threads| && StepEnabled(s, t, wake) && u < |s.threads|
    ensures var s' := ApplyStep(s, t, wake); OnNotFull(s'.notFull, u, s'.threads[u])
  {
    assert Consistent(s, t) && Consistent(s, u);
  }

  lemma StepKeepsNotEmpty<T>(s: State<T>, t: nat, wake: nat, u: nat)
    requires Inv(s) && t < |s.threads| && StepEnabled(s, t, wake) && u < |s.threads|
    ensures var s' := ApplyStep(s, t, wake); OnNotEmpty(s'.notEmpty, u, s'.threads[u])
  {
    assert Consistent(s, t) && Consistent(s, u);
  }

  lemma StepKeepsData<T>(s: State<T>, t: nat, wake: nat)
    requires Inv(s) && t < |s.threads| && StepEnabled(s, t, wake)
    ensures var s' := ApplyStep(s, t, wake);
            && |s'.queue| <= s'.capacity
            && s'.size == |s'.queue| - (if HolderPc(s').PushCount? then 1 else 0)
              + (if HolderPc(s').PopCount? then 1 else 0)
  {
    assert Consistent(s, t);
  }

  lemma StepKeepsWaiters<T>(s: State<T>, t: nat, wake: nat)
    requires Inv(s) && t < |s.threads| && StepEnabled(s, t, wake)
    ensures Waiters(ApplyStep(s, t, wake)) <= Waiters(s) + {t}
  {
  }

  lemma InvThreadStep<T>(s: State<T>, t: nat, wake: nat)
    requires Inv(s) && t < |s.threads| && StepEnabled(s, t, wake)
    ensures Inv(ApplyStep(s, t, wake))
  {
    var s' := ApplyStep(s, t, wake);
    StepKeepsData(s, t, wake);
    StepKeepsWaiters(s, t, wake);
    forall u | 0 <= u < |s.threads| ensures Consistent(s', u) {
      StepKeepsMutex(s, t, wake, u);
      StepKeepsNotFull(s, t, wake, u);
      StepKeepsNotEmpty(s, t, wake, u);
    }
    assert s'.holder == s.holder || s'.holder == None || s'.holder == Some(t);
  }

  lemma InvStep<T>(s: State<T>, a: Action<T>)
    requires Inv(s) && Enabled(s, a)
    ensures Inv(Apply(s, a))
  {
    if a.Step? {
      InvThreadStep(s, a.t, a.wake);
    } else {
      var s' := Apply(s, a);
      assert Consistent(s, a.t);
      assert Waiters(s') <= Waiters(s);
      forall u | 0 <= u < |s.threads| ensures Consistent(s', u) {
        assert Consistent(s, u);
      }
    }
  }

  // ----- no lost wakeup -----

  /** A notify_one the mutex holder is about to send to not_full_ (not_empty_). */
  function OwedNotFull<T>(s: State<T>): nat {
    if HolderPc(s).PopCount? || HolderPc(s).PopNotify? then 1 else 0
  }

  function OwedNotEmpty<T>(s: State<T>): nat {
    if HolderPc(s).PushCount? || HolderPc(s).PushNotify? then 1 else 0
  }

  /** While a producer sleeps un-notified, every free slot is matched by a notified producer. */
  predicate SlotsMatched<T>(s: State<T>) {
    !s.shut && s.notFull.asleep != {} ==> s.capacity - |s.queue| <= |s.notFull.notified| + OwedNotFull(s)
  }

  /** While a consumer sleeps un-notified, every item is matched by a notified consumer. */
  predicate ItemsMatched<T>(s: State<T>) {
    !s.shut && s.notEmpty.asleep != {} ==> |s.queue| <= |s.notEmpty.notified| + OwedNotEmpty(s)
  }

  lemma SlotsStep<T>(s: State<T>, t: nat, wake: nat)
    requires Inv(s) && t < |s.threads| && StepEnabled(s, t, wake) && SlotsMatched(s)
    ensures SlotsMatched(ApplyStep(s, t, wake))
  {
    assert Consistent(s, t);
    if wake in s.notFull.asleep {
      assert wake in Waiters(s) && Consistent(s, wake);
    }
  }

  lemma ItemsStep<T>(s: State<T>, t: nat, wake: nat)
    requires Inv(s) && t < |s.threads| && StepEnabled(s, t, wake) && ItemsMatched(s)
    ensures ItemsMatched(ApplyStep(s, t, wake))
  {
    assert Consistent(s, t);
    if wake in s.notEmpty.asleep {
      assert wake in Waiters(s) && Consistent(s, wake);
    }
  }

  /** Once the queue is shut, sleepers exist only while a notify_all is still to come. */
  ghost predicate AllWillBeWoken<T>(s: State<T>) {
    s.shut ==>
      && (s.notEmpty.asleep != {} ==>
            exists t :: 0 <= t < |s.threads| && (s.threads[t].ShutUnlock? || s.threads[t].NotifyEmpty?))
      && (s.notFull.asleep != {} ==>
            exists t :: 0 <= t < |s.threads| &&
                        (s.threads[t].ShutUnlock? || s.threads[t].NotifyEmpty? || s.threads[t].NotifyFull?))
  }

  lemma WokenStep<T>(s: State<T>, t: nat, wake: nat)
    requires Inv(s) && t < |s.threads| && StepEnabled(s, t, wake) && AllWillBeWoken(s)
    ensures AllWillBeWoken(ApplyStep(s, t, wake))
  {
    var s' := ApplyStep(s, t, wake);
    if s.threads[t].ShutSet? || s.threads[t].ShutUnlock? || s.threads[t].NotifyEmpty? {
      assert s'.threads[t].ShutUnlock? || s'.threads[t].NotifyEmpty? || s'.threads[t].NotifyFull?;
    } else if s.shut && s.notEmpty.asleep != {} {
      var u :| 0 <= u < |s.threads| && (s.threads[u].ShutUnlock? || s.threads[u].NotifyEmpty?);
      assert s'.threads[u] == s.threads[u];
    }
    if s.shut && s.notFull.asleep != {} {
      var u :| 0 <= u < |s.threads|
        && (s.threads[u].ShutUnlock? || s.threads[u].NotifyEmpty? || s.threads[u].NotifyFull?);
      assert u != t ==> s'.threads[u] == s.threads[u];
    }
  }

  // ----- every reachable state -----

  predicate Schedulable<T>(capacity: nat, n: nat, acts: seq<Action<T>>)
    decreases |acts|, 0
  {
    acts != [] ==>
      && Schedulable(capacity, n, acts[..|acts| - 1])
      && Enabled(StateAfter(capacity, n, acts[..|acts| - 1]), acts[|acts| - 1])
  }

  function StateAfter<T>(capacity: nat, n: nat, acts: seq<Action<T>>): State<T>
    requires Schedulable(capacity, n, acts)
    decreases |acts|, 1
  {
    if acts == [] then Init(capacity, n)
    else Apply(StateAfter(capacity, n, acts[..|acts| - 1]), acts[|acts| - 1])
  }

  ghost predicate Sound<T>(s: State<T>) {
    Inv(s) && SlotsMatched(s) && ItemsMatched(s) && AllWillBeWoken(s)
  }

  lemma OtherActions<T>(s: State<T>, a: Action<T>)
    requires Sound(s) && Enabled(s, a) && !a.Step?
    ensures var s' := Apply(s, a); SlotsMatched(s') && ItemsMatched(s') && AllWillBeWoken(s')
  {
    var s' := Apply(s, a);
    assert Consistent(s, a.t);
    assert HolderPc(s') == HolderPc(s);
    assert forall u :: 0 <= u < |s.threads| && u != a.t ==> s'.threads[u] == s.threads[u];
  }

  lemma SoundStep<T>(s: State<T>, a: Action<T>)
    requires Sound(s) && Enabled(s, a)
    ensures Sound(Apply(s, a))
  {
    InvStep(s, a);
    if a.Step? {
      SlotsStep(s, a.t, a.wake);
      ItemsStep(s, a.t, a.wake);
      WokenStep(s, a.t, a.wake);
    } else {
      OtherActions(s, a);
    }
  }

  lemma {:induction false} SoundAlways<T>(capacity: nat, n: nat, acts: seq<Action<T>>)
    requires Schedulable(capacity, n, acts)
    ensures Sound(StateAfter(capacity, n, acts))
  {
    if acts != [] {
      SoundAlways(capacity, n, acts[..|acts| - 1]);
      SoundStep(StateAfter(capacity, n, acts[..|acts| - 1]), acts[|acts| - 1]);
    }
  }

  /**
   No lost wakeup, for any number of threads and any interleaving. Whenever the mutex is free
   and the queue is open, an un-notified sleeping producer means there are no more free slots
   than notified producers, and dually for consumers and items; once the queue is shut,
   un-notified sleepers exist only while a notify_all is still to come.
   */
  lemma NoLostWakeup<T>(capacity: nat, n: nat, acts: seq<Action<T>>)
    requires Schedulable(capacity, n, acts)
    ensures var s := StateAfter(capacity, n, acts);
            && SlotsMatched(s) && ItemsMatched(s) && AllWillBeWoken(s)
            && (s.holder.None? ==>
                  && s.size == |s.queue|
                  && (!s.shut && s.notFull.asleep != {} ==> s.capacity - |s.queue| <= |s.notFull.notified|)
                  && (!s.shut && s.notEmpty.asleep != {} ==> |s.queue| <= |s.notEmpty.notified|))
  {
    SoundAlways(capacity, n, acts);
  }

  // ----- who serves a sleeper, and how soon -----

  /** Steps the holder of the mutex still takes before it lets go. */
  function Distance<T>(pc: Pc<T>): (d: nat)
    ensures d <= 5
  {
    match pc {
      case PushTest(_) => 5
      case PushDecide(_) => 4
      case TryTest(_) => 4
      case PushCount => 3
      case PushNotify => 2
      case PopTest(_) => 5
      case PopLast => 5
      case PopDecide => 4
      case PopCount(_) => 3
      case PopNotify(_) => 2
      case ShutSet => 2
      case ShutUnlock => 1
      case Return(_) => 1
      case _ => 0
    }
  }

  /** Only its own steps move the holder of the mutex, and each brings its release nearer. */
  lemma HolderCountsDown<T>(s: State<T>, a: Action<T>)
    requires Inv(s) && Enabled(s, a) && s.holder.Some?
    ensures var s' := Apply(s, a);
            && 0 < Distance(HolderPc(s)) <= 5
            && (if a.Step? && a.t == s.holder.value
                then Distance(HolderPc(s')) < Distance(HolderPc(s)) && (s'.holder == s.holder || s'.holder == None)
                else s'.holder == s.holder && HolderPc(s') == HolderPc(s))
  {
    assert Consistent(s, a.t) && Consistent(s, s.holder.value);
  }

  /** How many of these actions are steps of thread `t`. */
  function StepsBy<T>(acts: seq<Action<T>>, t: nat): nat {
    if acts == [] then 0
    else (if acts[0].Step? && acts[0].t == t then 1 else 0) + StepsBy(acts[1..], t)
  }

  lemma {:induction false} PrefixSchedulable<T>(capacity: nat, n: nat, all: seq<Action<T>>, k: nat)
    requires Schedulable(capacity, n, all) && k <= |all|
    ensures Schedulable(capacity, n, all[..k])
    decreases |all|
  {
    if k < |all| {
      PrefixSchedulable(capacity, n, all[..|all| - 1], k);
      assert all[..|all| - 1][..k] == all[..k];
    } else {
      assert all[..k] == all;
    }
  }

  lemma NextAction<T>(capacity: nat, n: nat, all: seq<Action<T>>, k: nat)
    requires Schedulable(capacity, n, all) && k < |all|
    ensures Schedulable(capacity, n, all[..k]) && Schedulable(capacity, n, all[..k + 1])
    ensures Enabled(StateAfter(capacity, n, all[..k]), all[k])
    ensures StateAfter(capacity, n, all[..k + 1]) == Apply(StateAfter(capacity, n, all[..k]), all[k])
  {
    PrefixSchedulable(capacity, n, all, k);
    PrefixSchedulable(capacity, n, all, k + 1);
    assert all[..k + 1][..k] == all[..k];
  }

  lemma {:induction false} ReleasedWithin<T>(capacity: nat, n: nat, all: seq<Action<T>>, from: nat, h: nat)
    returns (k: nat)
    requires Schedulable(capacity, n, all) && from <= |all| && Schedulable(capacity, n, all[..from])
    requires StateAfter(capacity, n, all[..from]).holder == Some(h)
    requires Sound(StateAfter(capacity, n, all[..from]))
    requires Distance(HolderPc(StateAfter(capacity, n, all[..from]))) <= StepsBy(all[from..], h)
    ensures from < k <= |all| && Schedulable(capacity, n, all[..k])
    ensures StateAfter(capacity, n, all[..k]).holder != Some(h)
    decreases |all| - from
  {
    var s := StateAfter(capacity, n, all[..from]);
    assert Consistent(s, h);
    NextAction(capacity, n, all, from);
    HolderCountsDown(s, all[from]);
    assert all[from..][1..] == all[from + 1..];
    if Apply(s, all[from]).holder != Some(h) {
      k := from + 1;
    } else {
      SoundStep(s, all[from]);
      k := ReleasedWithin(capacity, n, all, from + 1, h);
    }
  }

  /**
   In every schedule a thread that holds the mutex lets go of it by the fifth step it takes,
   whatever the others do in between.
   */
  lemma MutexIsReleased<T>(capacity: nat, n: nat, all: seq<Action<T>>, from: nat, h: nat) returns (k: nat)
    requires Schedulable(capacity, n, all) && from <= |all|
    requires Schedulable(capacity, n, all[..from]) && StateAfter(capacity, n, all[..from]).holder == Some(h)
    requires StepsBy(all[from..], h) >= 5
    ensures from < k <= |all| && Schedulable(capacity, n, all[..k])
    ensures StateAfter(capacity, n, all[..k]).holder != Some(h)
  {
    SoundAlways(capacity, n, all[..from]);
    k := ReleasedWithin(capacity, n, all, from, h);
  }

  /** The producers' side of the monitor, or the consumers'. */
  function Side<T>(s: State<T>, producers: bool): Condition {
    if producers then s.notFull else s.notEmpty
  }

  predicate Ready<T>(s: State<T>, producers: bool) {
    if producers then CanPush(s.queue, s.capacity, s.shut) else CanPop(s.queue, s.shut)
  }

  predicate Testing<T>(pc: Pc<T>, producers: bool) {
    if producers then pc.PushTest? else pc.PopTest? || pc.PopLast?
  }

  /** Thread `u` holds the mutex, has been notified on this side, or is about to notify it. */
  predicate Responsible<T>(s: State<T>, u: nat, producers: bool) {
    || s.holder == Some(u)
    || u in Side(s, producers).notified
    || (u < |s.threads| && (s.threads[u].NotifyEmpty? || (producers && s.threads[u].NotifyFull?)))
  }

  /**
   Steps by responsible threads only, up to where `t` has been woken, its condition is false, or a
   notified thread tests it again.
   */
  ghost predicate Serves<T>(s: State<T>, t: nat, producers: bool, steps: seq<Action<T>>)
    decreases |steps|
  {
    if steps == [] then
      || t !in Side(s, producers).asleep
      || !Ready(s, producers)
      || exists u :: u in Side(s, producers).notified && s.holder == Some(u) && Testing(HolderPc(s), producers)
    else
      && steps[0].Step? && Enabled(s, steps[0]) && Responsible(s, steps[0].t, producers)
      && Serves(Apply(s, steps[0]), t, producers, steps[1..])
  }

  lemma ServesFrom<T>(s: State<T>, t: nat, producers: bool, a: Action<T>, rest: seq<Action<T>>)
    requires a.Step? && Enabled(s, a) && Responsible(s, a.t, producers) && Serves(Apply(s, a), t, producers, rest)
    ensures Serves(s, t, producers, [a] + rest)
  {
    assert ([a] + rest)[1..] == rest;
  }

  /** Whoever holds the mutex can take its next step. */
  lemma HolderMoves<T>(s: State<T>) returns (a: Action<T>)
    requires Inv(s) && s.holder.Some?
    ensures a.Step? && a.t == s.holder.value && Enabled(s, a)
  {
    var t := s.holder.value;
    assert Consistent(s, t);
    var wake := if s.notEmpty.asleep != {} && s.threads[t].PushNotify? then (var w :| w in s.notEmpty.asleep; w)
                else if s.notFull.asleep != {} then (var w :| w in s.notFull.asleep; w) else 0;
    a := Step(t, wake);
  }

  /** With the mutex free, a notified thread takes it and tests again. */
  lemma NotifiedTests<T>(s: State<T>, u: nat, t: nat, producers: bool) returns (steps: seq<Action<T>>)
    requires Inv(s) && s.holder.None? && u in Side(s, producers).notified
    ensures Serves(s, t, producers, steps) && |steps| <= 1
  {
    assert u in Waiters(s) && Consistent(s, u);
    var a: Action<T> := Step(u, 0);
    var s' := Apply(s, a);
    assert u in Side(s', producers).notified && s'.holder == Some(u) && Testing(HolderPc(s'), producers);
    assert Serves(s', t, producers, []);
    ServesFrom(s, t, producers, a, []);
    steps := [a] + [];
  }

  lemma NotifyFullServes<T>(s: State<T>, u: nat, t: nat) returns (steps: seq<Action<T>>)
    requires u < |s.threads| && s.threads[u].NotifyFull?
    ensures Serves(s, t, true, steps) && |steps| <= 1
  {
    var a: Action<T> := Step(u, 0);
    assert Serves(Apply(s, a), t, true, []);
    ServesFrom(s, t, true, a, []);
    steps := [a] + [];
  }

  lemma NotifyEmptyServes<T>(s: State<T>, u: nat, t: nat, producers: bool) returns (steps: seq<Action<T>>)
    requires u < |s.threads| && s.threads[u].NotifyEmpty?
    ensures Serves(s, t, producers, steps) && |steps| <= 2
  {
    var a: Action<T> := Step(u, 0);
    var rest: seq<Action<T>> := [];
    if producers {
      rest := NotifyFullServes(Apply(s, a), u, t);
    }
    ServesFrom(s, t, producers, a, rest);
    steps := [a] + rest;
  }

  lemma {:induction false} Serve<T>(s: State<T>, t: nat, producers: bool) returns (steps: seq<Action<T>>)
    requires Sound(s)
    ensures Serves(s, t, producers, steps) && |steps| <= Distance(HolderPc(s)) + 2
    decreases Distance(HolderPc(s))
  {
    if t !in Side(s, producers).asleep || !Ready(s, producers) {
      steps := [];
    } else if s.holder.Some? {
      var a := HolderMoves(s);
      HolderCountsDown(s, a);
      SoundStep(s, a);
      var rest := Serve(Apply(s, a), t, producers);
      ServesFrom(s, t, producers, a, rest);
      steps := [a] + rest;
    } else if s.shut {
      steps := ShutServes(s, t, producers);
    } else {
      assert Side(s, producers).notified != {};
      var u :| u in Side(s, producers).notified;
      steps := NotifiedTests(s, u, t, producers);
    }
  }

  lemma ShutServes<T>(s: State<T>, t: nat, producers: bool) returns (steps: seq<Action<T>>)
    requires Inv(s) && AllWillBeWoken(s) && s.shut && s.holder.None? && t in Side(s, producers).asleep
    ensures Serves(s, t, producers, steps) && |steps| <= 2
  {
    var u :| 0 <= u < |s.threads| &&
           (s.threads[u].ShutUnlock? || s.threads[u].NotifyEmpty? || (producers && s.threads[u].NotifyFull?));
    assert Consistent(s, u);
    if s.threads[u].NotifyEmpty? {
      steps := NotifyEmptyServes(s, u, t, producers);
    } else {
      steps := NotifyFullServes(s, u, t);
    }
  }

  /**
   No sleeper whose condition holds depends on a new call, a spurious wakeup or a timeout: the
   mutex holder, the threads notified on its side and a pending notify_all need at most seven
   steps until it is woken, its condition is false again, or a thread notified on its side holds
   the mutex and is testing the same condition. Some such thread can move until then.
   */
  lemma SleepersAreServed<T>(capacity: nat, n: nat, acts: seq<Action<T>>, t: nat, producers: bool)
    returns (steps: seq<Action<T>>)
    requires Schedulable(capacity, n, acts)
    ensures Serves(StateAfter(capacity, n, acts), t, producers, steps) && |steps| <= 7
    ensures var s := StateAfter(capacity, n, acts);
            t in Side(s, producers).asleep && Ready(s, producers) ==>
              exists u, wake :: Enabled(s, Action<T>.Step(u, wake)) && Responsible(s, u, producers)
  {
    SoundAlways(capacity, n, acts);
    var s := StateAfter(capacity, n, acts);
    steps := Serve(s, t, producers);
    assert s.holder.Some? ==> Consistent(s, s.holder.value);
    if t in Side(s, producers).asleep && Ready(s, producers) {
      if steps == [] {
        var a := HolderMoves(s);
        assert Enabled(s, Action<T>.Step(a.t, a.wake)) && Responsible(s, a.t, producers);
      } else {
        assert Enabled(s, Action<T>.Step(steps[0].t, steps[0].wake)) && Responsible(s, steps[0].t, producers);
      }
    }
  }

  // ----- the monitor refines the atomic queue -----

  /** Each call takes effect at one step; that step fixes what it will return. */
  function EventOf<T>(s: State<T>, a: Action<T>): Event<T>
    requires Enabled(s, a)
  {
    if !a.Step? then Silent
    else
      match s.threads[a.t] {
        case PushDecide(item) => if s.shut then Refuse else Accept(item)
        case TryTest(item) => if |s.queue| >= s.capacity || s.shut then Refuse else Accept(item)
        case PopDecide => if |s.queue| == 0 then TakeNothing else Take(s.queue[0])
        case PopLast => if CanPop(s.queue, s.shut) then Silent else TakeNothing
        case ShutSet => Close
        case _ => Silent
      }
  }

  /** What the thread that takes effect is committed to returning. */
  predicate Committed<T(==)>(e: Event<T>, pc: Pc<T>) {
    match e {
      case Accept(_) => pc.PushCount?
      case Refuse => pc == Return(Refused)
      case Take(item) => pc == PopCount(item)
      case TakeNothing => pc == Return(Nothing)
      case _ => true
    }
  }

  lemma StepIsAtomic<T>(s: State<T>, a: Action<T>)
    requires Inv(s) && Enabled(s, a)
    ensures var e, s' := EventOf(s, a), Apply(s, a);
            && AtomicStep(s.capacity, s.queue, s.shut, e, s'.queue, s'.shut)
            && Committed(e, s'.threads[a.t])
            && (e.TakeNothing? && !s.shut ==> s.threads[a.t].PopLast?)
  {
    assert Consistent(s, a.t);
  }

  /**
   Every step of the monitor is one transition of the atomic bounded queue, or none; an open
   queue hands out nothing only to a pop whose timeout has expired.
   */
  lemma RefinesAtomicQueue<T>(capacity: nat, n: nat, acts: seq<Action<T>>, a: Action<T>)
    requires Schedulable(capacity, n, acts) && Enabled(StateAfter(capacity, n, acts), a)
    ensures var s := StateAfter(capacity, n, acts);
            var e, s' := EventOf(s, a), Apply(s, a);
            && AtomicStep(s.capacity, s.queue, s.shut, e, s'.queue, s'.shut)
            && Committed(e, s'.threads[a.t])
            && (e.TakeNothing? && !s.shut ==> s.threads[a.t].PopLast?)
  {
    SoundAlways(capacity, n, acts);
    StepIsAtomic(StateAfter(capacity, n, acts), a);
  }
}
