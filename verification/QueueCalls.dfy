/** Whole calls on the queue of include/thread_safe_queue.h, from call to return, in any schedule. */
module QueueCalls {
  import opened QueueMonitor

  /** The states a schedule goes through, the initial one first. */
  ghost function Trace<T>(capacity: nat, n: nat, all: seq<Action<T>>): (states: seq<State<T>>)
    requires Schedulable(capacity, n, all)
    ensures |states| == |all| + 1
    ensures forall k :: 0 <= k <= |all| ==>
              Schedulable(capacity, n, all[..k]) && states[k] == StateAfter(capacity, n, all[..k])
  {
    forall k | 0 <= k <= |all| ensures Schedulable(capacity, n, all[..k]) {
      PrefixSchedulable(capacity, n, all, k);
    }
    seq(|all| + 1,
        k requires 0 <= k <= |all| && Schedulable(capacity, n, all[..k]) => StateAfter(capacity, n, all[..k]))
  }

  /** The `k`-th action leads from a sound state to the next one. */
  ghost predicate Follows<T>(states: seq<State<T>>, all: seq<Action<T>>, k: nat) {
    && k < |all| && |states| == |all| + 1
    && Inv(states[k]) && Enabled(states[k], all[k]) && states[k + 1] == Apply(states[k], all[k])
  }

  ghost predicate IsTrace<T>(states: seq<State<T>>, all: seq<Action<T>>) {
    forall k :: 0 <= k < |all| ==> Follows(states, all, k)
  }

  lemma TraceFollows<T>(capacity: nat, n: nat, all: seq<Action<T>>, k: nat)
    requires Schedulable(capacity, n, all) && k < |all|
    ensures Follows(Trace(capacity, n, all), all, k)
  {
    NextAction(capacity, n, all, k);
    SoundAlways(capacity, n, all[..k]);
  }

  lemma TraceIsTrace<T>(capacity: nat, n: nat, all: seq<Action<T>>)
    requires Schedulable(capacity, n, all)
    ensures IsTrace(Trace(capacity, n, all), all)
  {
    var states := Trace(capacity, n, all);
    forall k | 0 <= k < |all| ensures Follows(states, all, k) {
      TraceFollows(capacity, n, all, k);
    }
  }

  // ----- what a call may do to the queue, and what it may return -----

  predicate Untouched<T(==)>(s: State<T>, s': State<T>) {
    s'.queue == s.queue && s'.shut == s.shut
  }

  predicate Inserts<T(==)>(s: State<T>, s': State<T>, item: T) {
    !s.shut && !s'.shut && |s.queue| < s.capacity && s'.queue == s.queue + [item]
  }

  predicate Removes<T(==)>(s: State<T>, s': State<T>, item: T) {
    s.queue == [item] + s'.queue && s'.shut == s.shut
  }

  /** What the call returns when it takes effect between these two states. */
  predicate Outcome<T(==)>(call: Call<T>, result: Result<T>, s: State<T>, s': State<T>, expired: bool) {
    match call {
      case CallPush(item) =>
        || (result == Accepted && Inserts(s, s', item))
        || (result == Refused && s.shut && Untouched(s, s'))
      case CallTryPush(item) =>
        || (result == Accepted && Inserts(s, s', item))
        || (result == Refused && (s.shut || |s.queue| == s.capacity) && Untouched(s, s'))
      case CallPop(timed) =>
        || (result.Popped? && Removes(s, s', result.item))
        || (result == Nothing && s.queue == [] && Untouched(s, s') && (s.shut || (timed && expired)))
      case CallShutdown => result == Nothing && s'.queue == s.queue && s'.shut
    }
  }

  // ----- a call in progress -----

  /** The call has not taken effect yet. */
  predicate Before<T(==)>(call: Call<T>, pc: Pc<T>) {
    match call {
      case CallPush(item) => pc in {PushLock(item), PushTest(item), PushWait(item), PushDecide(item)}
      case CallTryPush(item) => pc in {TryLock(item), TryTest(item)}
      case CallPop(timed) =>
        pc in {PopLock(timed), PopTest(timed), PopWait(timed), PopDecide} || (timed && pc in {PopExpired, PopLast})
      case CallShutdown => pc in {ShutLock, ShutSet}
    }
  }

  /** It has, and this is what it is going to return. */
  predicate Returns<T(==)>(call: Call<T>, pc: Pc<T>, result: Result<T>) {
    match call {
      case CallPop(_) =>
        pc == Return(result) || (result.Popped? && pc in {PopCount(result.item), PopNotify(result.item)})
      case CallShutdown => result == Nothing && pc in {ShutUnlock, NotifyEmpty, NotifyFull}
      case _ => pc == Return(result) || (result == Accepted && pc in {PushCount, PushNotify})
    }
  }

  predicate Expired<T>(pc: Pc<T>) {
    pc.PopExpired? || pc.PopLast?
  }

  lemma StepBefore<T>(s: State<T>, a: Action<T>, call: Call<T>) returns (result: Result<T>)
    requires Inv(s) && Enabled(s, a) && Before(call, s.threads[a.t])
    ensures var s' := Apply(s, a);
            var pc' := s'.threads[a.t];
            if Before(call, pc') then
              Untouched(s, s') && (Expired(pc') ==> a.Expire? || Expired(s.threads[a.t]))
            else
              Returns(call, pc', result) && Outcome(call, result, s, s', Expired(s.threads[a.t]))
  {
    assert Consistent(s, a.t);
    var pc' := Apply(s, a).threads[a.t];
    result := match pc'
      case Return(r) => r
      case PushCount => Accepted
      case PopCount(item) => Popped(item)
      case _ => Nothing;
  }

  lemma StepReturning<T>(s: State<T>, a: Action<T>, call: Call<T>, result: Result<T>)
    requires Inv(s) && Enabled(s, a) && Returns(call, s.threads[a.t], result)
    ensures var s' := Apply(s, a);
            Untouched(s, s') && (s'.threads[a.t].Idle? || Returns(call, s'.threads[a.t], result))
  {
  }

  lemma OthersStep<T>(s: State<T>, u: nat, wake: nat, t: nat)
    requires u < |s.threads| && StepEnabled(s, u, wake) && t < |s.threads| && t != u
    ensures var s' := ApplyStep(s, u, wake); |s'.threads| == |s.threads| && s'.threads[t] == s.threads[t]
  {
  }

  lemma OthersWait<T>(s: State<T>, a: Action<T>, t: nat)
    requires Enabled(s, a) && t < |s.threads| && t != a.t
    ensures var s' := Apply(s, a); |s'.threads| == |s.threads| && s'.threads[t] == s.threads[t]
  {
    if a.Step? {
      OthersStep(s, a.t, a.wake, t);
    }
  }

  lemma StepSize<T>(s: State<T>, a: Action<T>)
    requires Enabled(s, a)
    ensures |Apply(s, a).threads| == |s.threads| && Apply(s, a).capacity == s.capacity
  {
  }

  lemma {:induction false} SizeAlways<T>(capacity: nat, n: nat, acts: seq<Action<T>>)
    requires Schedulable(capacity, n, acts)
    ensures var s := StateAfter(capacity, n, acts); |s.threads| == n && s.capacity == capacity
  {
    if acts != [] {
      SizeAlways(capacity, n, acts[..|acts| - 1]);
      StepSize(StateAfter(capacity, n, acts[..|acts| - 1]), acts[|acts| - 1]);
    }
  }

  // ----- a call in a schedule -----

  predicate Busy<T>(s: State<T>, t: nat) {
    t < |s.threads| && !s.threads[t].Idle?
  }

  /** Thread `t` makes this call at `i` and is not back before `k`. */
  ghost predicate Calling<T>(states: seq<State<T>>, all: seq<Action<T>>, i: nat, k: nat, t: nat, call: Call<T>) {
    && i < k <= |all| && |states| == |all| + 1
    && all[i] == Begin(t, call)
    && forall j :: i < j <= k ==> Busy(states[j], t)
  }

  /** The `j`-th action, if it is one of `t`, leaves the items and the flag alone. */
  ghost predicate Quiet<T>(states: seq<State<T>>, all: seq<Action<T>>, j: nat, t: nat) {
    j < |all| && |states| == |all| + 1 && (all[j].t == t ==> Untouched(states[j], states[j + 1]))
  }

  /** A timed wait of `t` runs out between these actions. */
  ghost predicate TimedOut<T>(all: seq<Action<T>>, i: nat, k: nat, t: nat) {
    exists e :: i < e < k && e < |all| && all[e] == Action<T>.Expire(t)
  }

  /** The call takes effect at `m`, by an action of its own thread. */
  ghost predicate TakesEffect<T>(states: seq<State<T>>, all: seq<Action<T>>, i: nat, m: nat, t: nat,
                                 call: Call<T>, result: Result<T>) {
    && i < m < |all| && |states| == |all| + 1
    && all[m].t == t
    && Outcome(call, result, states[m], states[m + 1], TimedOut(all, i, m, t))
  }

  ghost predicate AllQuiet<T>(states: seq<State<T>>, all: seq<Action<T>>, i: nat, k: nat, t: nat, m: nat) {
    forall j :: i < j < k && j != m ==> Quiet(states, all, j, t)
  }

  /** Where the call stands after `k` actions: all quiet so far, or quiet but for the effect at `m`. */
  ghost predicate Stands<T>(states: seq<State<T>>, all: seq<Action<T>>, i: nat, k: nat, t: nat,
                            call: Call<T>, m: nat, result: Result<T>) {
    && i < k < |states|
    && Busy(states[k], t)
    && AllQuiet(states, all, i, k, t, m)
    && var pc := states[k].threads[t];
       if Before(call, pc) then
         m == i && result == Nothing && (Expired(pc) ==> TimedOut(all, i, k, t))
       else
         m < k && Returns(call, pc, result) && TakesEffect(states, all, i, m, t, call, result)
  }

  /** An action of another thread. */
  lemma StandsMeanwhile<T>(states: seq<State<T>>, all: seq<Action<T>>, i: nat, k: nat, t: nat,
                           call: Call<T>, m: nat, result: Result<T>)
    requires IsTrace(states, all) && k < |all| && |states| == |all| + 1
    requires Stands(states, all, i, k, t, call, m, result) && all[k].t != t
    ensures Stands(states, all, i, k + 1, t, call, m, result)
  {
    var s := states[k];
    assert Follows(states, all, k);
    OthersWait(s, all[k], t);
    assert Quiet(states, all, k, t);
    if Before(call, s.threads[t]) && Expired(s.threads[t]) {
      LaterToo(all, i, k, t);
    }
  }

  lemma LaterToo<T>(all: seq<Action<T>>, i: nat, k: nat, t: nat)
    requires TimedOut(all, i, k, t)
    ensures TimedOut(all, i, k + 1, t)
  {
    var e :| i < e < k && e < |all| && all[e] == Action<T>.Expire(t);
    assert i < e < k + 1;
  }

  /** An action of the thread before the call has taken effect. */
  lemma StandsStep<T>(states: seq<State<T>>, all: seq<Action<T>>, i: nat, k: nat, t: nat, call: Call<T>)
    returns (m: nat, result: Result<T>)
    requires IsTrace(states, all) && k < |all| && |states| == |all| + 1
    requires Stands(states, all, i, k, t, call, i, Nothing) && all[k].t == t
    requires Before(call, states[k].threads[t]) && Busy(states[k + 1], t)
    ensures Stands(states, all, i, k + 1, t, call, m, result)
  {
    var s, s' := states[k], states[k + 1];
    assert Follows(states, all, k);
    var r := StepBefore(s, all[k], call);
    if Before(call, s'.threads[t]) {
      m, result := i, Nothing;
      assert Quiet(states, all, k, t);
      if Expired(s.threads[t]) {
        LaterToo(all, i, k, t);
      } else if all[k].Expire? {
        assert all[k] == Action<T>.Expire(t);
        assert TimedOut(all, i, k + 1, t);
      }
    } else {
      m, result := k, r;
      OutcomeWeakens(call, result, s, s', Expired(s.threads[t]), TimedOut(all, i, k, t));
      assert TakesEffect(states, all, i, m, t, call, result);
    }
  }

  lemma OutcomeWeakens<T>(call: Call<T>, result: Result<T>, s: State<T>, s': State<T>, a: bool, b: bool)
    requires Outcome(call, result, s, s', a) && (a ==> b)
    ensures Outcome(call, result, s, s', b)
  {
  }

  /** An action of the thread on its way back. */
  lemma StandsReturning<T>(states: seq<State<T>>, all: seq<Action<T>>, i: nat, k: nat, t: nat,
                           call: Call<T>, m: nat, result: Result<T>)
    requires IsTrace(states, all) && k < |all| && |states| == |all| + 1
    requires Stands(states, all, i, k, t, call, m, result) && all[k].t == t
    requires !Before(call, states[k].threads[t])
    ensures Quiet(states, all, k, t)
    ensures Busy(states[k + 1], t) ==> Stands(states, all, i, k + 1, t, call, m, result)
  {
    assert Follows(states, all, k);
    StepReturning(states[k], all[k], call, result);
    if Busy(states[k + 1], t) {
      ReturningIsNotBefore(call, states[k + 1].threads[t], result);
    }
  }

  lemma ReturningIsNotBefore<T>(call: Call<T>, pc: Pc<T>, result: Result<T>)
    requires Returns(call, pc, result)
    ensures !Before(call, pc)
  {
  }

  lemma OneMore<T>(states: seq<State<T>>, all: seq<Action<T>>, i: nat, k: nat, t: nat, call: Call<T>,
                   m: nat, result: Result<T>)
    returns (m': nat, result': Result<T>)
    requires IsTrace(states, all) && k < |all| && |states| == |all| + 1
    requires Stands(states, all, i, k, t, call, m, result) && Busy(states[k + 1], t)
    ensures Stands(states, all, i, k + 1, t, call, m', result')
  {
    m', result' := m, result;
    if all[k].t != t {
      StandsMeanwhile(states, all, i, k, t, call, m, result);
    } else if Before(call, states[k].threads[t]) {
      m', result' := StandsStep(states, all, i, k, t, call);
    } else {
      StandsReturning(states, all, i, k, t, call, m, result);
    }
  }

  lemma JustBegun<T>(states: seq<State<T>>, all: seq<Action<T>>, i: nat, t: nat, call: Call<T>)
    requires IsTrace(states, all) && i < |all| && all[i] == Begin(t, call)
    ensures Stands(states, all, i, i + 1, t, call, i, Nothing)
  {
    assert Follows(states, all, i);
  }

  lemma {:induction false} CallStands<T>(states: seq<State<T>>, all: seq<Action<T>>, i: nat, k: nat, t: nat,
                                         call: Call<T>)
    returns (m: nat, result: Result<T>)
    requires IsTrace(states, all) && Calling(states, all, i, k, t, call)
    ensures Stands(states, all, i, k, t, call, m, result)
    decreases k
  {
    if k == i + 1 {
      m, result := i, Nothing;
      JustBegun(states, all, i, t, call);
    } else {
      m, result := CallStands(states, all, i, k - 1, t, call);
      m, result := OneMore(states, all, i, k - 1, t, call, m, result);
    }
  }

  /** The action that ends the call. */
  lemma Back<T>(states: seq<State<T>>, all: seq<Action<T>>, i: nat, j: nat, t: nat,
                call: Call<T>, m: nat, result: Result<T>)
    requires IsTrace(states, all) && j < |all| && |states| == |all| + 1
    requires Stands(states, all, i, j, t, call, m, result) && all[j].t == t && !Busy(states[j + 1], t)
    ensures i < m < j && TakesEffect(states, all, i, m, t, call, result)
    ensures forall k :: i < k <= j && k != m ==> Quiet(states, all, k, t)
    ensures !call.CallShutdown? ==> states[j].threads[t] == Return(result)
  {
    assert Follows(states, all, j);
    StepSize(states[j], all[j]);
    LastStep(states[j], all[j], call, result);
    StandsReturning(states, all, i, j, t, call, m, result);
  }

  /**
   Every call takes effect exactly once, atomically, by an action of its own thread between its
   beginning and its return, and returns what that effect was: push and tryPush `Accepted` when
   they inserted their own item on an open queue with room, `Refused` only on a shut queue or, for
   tryPush, a full one; pop the oldest item when it removed it, `Nothing` only from an empty queue
   that is shut, or after a timed wait of its own has run out; shutdown when it has set the flag.
   */
  lemma CallsAreAtomic<T>(capacity: nat, n: nat, all: seq<Action<T>>, i: nat, j: nat, t: nat, call: Call<T>)
    returns (m: nat, result: Result<T>)
    requires Schedulable(capacity, n, all) && j < |all|
    requires var states := Trace(capacity, n, all);
             Calling(states, all, i, j, t, call) && all[j].t == t && !Busy(states[j + 1], t)
    ensures var states := Trace(capacity, n, all);
            && i < m < j && TakesEffect(states, all, i, m, t, call, result) && states[m].capacity == capacity
            && (forall k :: i < k <= j && k != m ==> Quiet(states, all, k, t))
            && (!call.CallShutdown? ==> t < n == |states[j].threads| && states[j].threads[t] == Return(result))
  {
    var states := Trace(capacity, n, all);
    TraceIsTrace(capacity, n, all);
    m, result := CallStands(states, all, i, j, t, call);
    Back(states, all, i, j, t, call, m, result);
    SizeAlways(capacity, n, all[..m]);
    SizeAlways(capacity, n, all[..j]);
  }

  lemma LastStep<T>(s: State<T>, a: Action<T>, call: Call<T>, result: Result<T>)
    requires Enabled(s, a) && Apply(s, a).threads[a.t].Idle?
    requires Before(call, s.threads[a.t]) || Returns(call, s.threads[a.t], result)
    ensures Returns(call, s.threads[a.t], result) && !Before(call, s.threads[a.t])
    ensures !call.CallShutdown? ==> s.threads[a.t] == Return(result)
  {
  }

  // ----- first in, first out -----

  /** The items ever inserted, in order. */
  ghost function Entered<T>(capacity: nat, n: nat, acts: seq<Action<T>>): seq<T>
    requires Schedulable(capacity, n, acts)
  {
    if acts == [] then []
    else
      var front := acts[..|acts| - 1];
      var q, q' := StateAfter(capacity, n, front).queue, StateAfter(capacity, n, acts).queue;
      Entered(capacity, n, front) + if |q| < |q'| then q'[|q|..] else []
  }

  /** The items ever removed, in order. */
  ghost function Left<T>(capacity: nat, n: nat, acts: seq<Action<T>>): seq<T>
    requires Schedulable(capacity, n, acts)
  {
    if acts == [] then []
    else
      var front := acts[..|acts| - 1];
      var q, q' := StateAfter(capacity, n, front).queue, StateAfter(capacity, n, acts).queue;
      Left(capacity, n, front) + if |q'| < |q| then q[..|q| - |q'|] else []
  }

  lemma QueueMoves<T>(s: State<T>, a: Action<T>)
    requires Enabled(s, a)
    ensures var q, q' := s.queue, Apply(s, a).queue;
            q' == q || (q != [] && q' == q[1..]) || (|q'| == |q| + 1 && q'[..|q|] == q)
  {
  }

  /** In every schedule the items leave in the order they entered, none lost or made up. */
  lemma {:induction false} FirstInFirstOut<T>(capacity: nat, n: nat, acts: seq<Action<T>>)
    requires Schedulable(capacity, n, acts)
    ensures Entered(capacity, n, acts) == Left(capacity, n, acts) + StateAfter(capacity, n, acts).queue
  {
    if acts != [] {
      var front, a := acts[..|acts| - 1], acts[|acts| - 1];
      FirstInFirstOut(capacity, n, front);
      QueueMoves(StateAfter(capacity, n, front), a);
    }
  }
}
