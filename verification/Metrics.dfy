/**
 The latency histogram of src/metrics.cpp: any number of recordLatencyMs calls in progress at
 once, interleaved one atomic increment at a time with one renderMetrics scrape.
 */
module Metrics {
  import opened Sequences

  type Millis = ms: real | 0.0 <= ms witness 0.0

  datatype Histogram = Histogram(sumUs: nat, count: nat, inf: nat, b10: nat, b5: nat, b1: nat, b01: nat)

  const EMPTY := Histogram(0, 0, 0, 0, 0, 0, 0)

  // A call has made its first `done` increments, in source order: sum, count, +Inf, 10, 5, 1, 0.1.
  datatype Call = Call(ms: Millis, done: nat)

  const INCREMENTS: nat := 7

  /** The increment a call makes next; the bucket increments are guarded by the latency. */
  function Bump(h: Histogram, call: Call): Histogram {
    match call.done {
      case 0 => h.(sumUs := h.sumUs + (call.ms * 1000.0).Floor)
      case 1 => h.(count := h.count + 1)
      case 2 => h.(inf := h.inf + 1)
      case 3 => if call.ms <= 10.0 then h.(b10 := h.b10 + 1) else h
      case 4 => if call.ms <= 5.0 then h.(b5 := h.b5 + 1) else h
      case 5 => if call.ms <= 1.0 then h.(b1 := h.b1 + 1) else h
      case 6 => if call.ms <= 0.1 then h.(b01 := h.b01 + 1) else h
      case _ => h
    }
  }

  /** The next `n` increments of a call made without interruption. */
  function BumpAll(h: Histogram, call: Call, n: nat): Histogram
    decreases n
  {
    if n == 0 then h else BumpAll(Bump(h, call), call.(done := call.done + 1), n - 1)
  }

  /** The source's record method, run alone: exactly the seven increments of the model. */
  class LatencyHistogram {
    var sumUs: nat
    var count: nat
    var inf: nat
    var b10: nat
    var b5: nat
    var b1: nat
    var b01: nat

    function Value(): Histogram
      reads this
    {
      Histogram(sumUs, count, inf, b10, b5, b1, b01)
    }

    method RecordLatencyMs(ms: Millis)
      modifies this
      ensures Value() == BumpAll(old(Value()), Call(ms, 0), INCREMENTS)
    {
      ghost var start := Value();
      sumUs := sumUs + (ms * 1000.0).Floor;
      count := count + 1;
      inf := inf + 1;
      if ms <= 10.0 { b10 := b10 + 1; }
      if ms <= 5.0 { b5 := b5 + 1; }
      if ms <= 1.0 { b1 := b1 + 1; }
      if ms <= 0.1 { b01 := b01 + 1; }
      BumpAllUnrolled(start, ms);
    }
  }

  lemma BumpAllUnrolled(h: Histogram, ms: Millis)
    ensures BumpAll(h, Call(ms, 0), INCREMENTS)
         == Histogram(h.sumUs + (ms * 1000.0).Floor, h.count + 1, h.inf + 1,
                      if ms <= 10.0 then h.b10 + 1 else h.b10,
                      if ms <= 5.0 then h.b5 + 1 else h.b5,
                      if ms <= 1.0 then h.b1 + 1 else h.b1,
                      if ms <= 0.1 then h.b01 + 1 else h.b01)
  {
    var h1 := Bump(h, Call(ms, 0));
    var h2 := Bump(h1, Call(ms, 1));
    var h3 := Bump(h2, Call(ms, 2));
    var h4 := Bump(h3, Call(ms, 3));
    var h5 := Bump(h4, Call(ms, 4));
    assert BumpAll(h5, Call(ms, 5), 2) == BumpAll(h, Call(ms, 0), 7);
    var h6 := Bump(h5, Call(ms, 5));
    assert BumpAll(h6, Call(ms, 6), 1) == BumpAll(h5, Call(ms, 5), 2);
  }

  // ----- interleaving with a scrape -----

  // The scrape has made its first `read` loads, in source order: count, sum, 0.1, 1, 5, 10, +Inf.
  // `between` is how many calls had bumped count but not +Inf when count was loaded, and
  // `since` how many +Inf increments followed before +Inf was loaded.
  datatype State = State(calls: seq<Call>, hist: Histogram, read: nat, seen: Histogram, between: nat, since: nat)

  datatype Action = Start(ms: Millis) | Advance(i: nat) | Load

  predicate Enabled(s: State, a: Action) {
    match a {
      case Start(_) => true
      case Advance(i) => i < |s.calls| && s.calls[i].done < INCREMENTS
      case Load => s.read < INCREMENTS
    }
  }

  function Apply(s: State, a: Action): State
    requires Enabled(s, a)
  {
    match a {
      case Start(ms) => s.(calls := s.calls + [Call(ms, 0)])
      case Advance(i) =>
        s.(hist := Bump(s.hist, s.calls[i]),
           calls := s.calls[i := s.calls[i].(done := s.calls[i].done + 1)],
           since := if s.calls[i].done == 2 && 0 < s.read < INCREMENTS then s.since + 1 else s.since)
      case Load => ApplyLoad(s)
    }
  }

  function ApplyLoad(s: State): State
    requires s.read < INCREMENTS
  {
    var v, h := s.seen, s.hist;
    var t := s.(read := s.read + 1);
    match s.read {
      case 0 => t.(seen := v.(count := h.count), between := InBetween(s.calls))
      case 1 => t.(seen := v.(sumUs := h.sumUs))
      case 2 => t.(seen := v.(b01 := h.b01))
      case 3 => t.(seen := v.(b1 := h.b1))
      case 4 => t.(seen := v.(b5 := h.b5))
      case 5 => t.(seen := v.(b10 := h.b10))
      case _ => t.(seen := v.(inf := h.inf))
    }
  }

  function Pending(call: Call): int {
    if call.done == 2 then 1 else 0
  }

  function InBetween(calls: seq<Call>): nat {
    SumNonNegative(Pending, calls);
    Sum(Pending, calls)
  }

  const START := State([], EMPTY, 0, EMPTY, 0, 0)

  predicate Schedulable(acts: seq<Action>)
    decreases |acts|, 0
  {
    acts != [] ==>
      && Schedulable(acts[..|acts| - 1])
      && Enabled(StateAfter(acts[..|acts| - 1]), acts[|acts| - 1])
  }

  function StateAfter(acts: seq<Action>): State
    requires Schedulable(acts)
    decreases |acts|, 1
  {
    if acts == [] then START else Apply(StateAfter(acts[..|acts| - 1]), acts[|acts| - 1])
  }

  // ----- each counter counts the calls that have got past it -----

  function In(call: Call, step: nat, limit: real): int {
    if call.done > step && call.ms <= limit then 1 else 0
  }

  function Counted(call: Call): int {
    if call.done > 1 then 1 else 0
  }

  function InInf(call: Call): int {
    if call.done > 2 then 1 else 0
  }

  function In10(call: Call): int { In(call, 3, 10.0) }

  function In5(call: Call): int { In(call, 4, 5.0) }

  function In1(call: Call): int { In(call, 5, 1.0) }

  function In01(call: Call): int { In(call, 6, 0.1) }

  function Timed(call: Call): int {
    if call.done > 0 then (call.ms * 1000.0).Floor else 0
  }

  ghost predicate Counts(calls: seq<Call>, h: Histogram) {
    && h.sumUs == Sum(Timed, calls)
    && h.count == Sum(Counted, calls)
    && h.inf == Sum(InInf, calls)
    && h.b10 == Sum(In10, calls)
    && h.b5 == Sum(In5, calls)
    && h.b1 == Sum(In1, calls)
    && h.b01 == Sum(In01, calls)
  }

  lemma CountsStart(calls: seq<Call>, h: Histogram, ms: Millis)
    requires Counts(calls, h)
    ensures Counts(calls + [Call(ms, 0)], h)
    ensures Sum(Pending, calls + [Call(ms, 0)]) == Sum(Pending, calls)
  {
    assert (calls + [Call(ms, 0)])[..|calls|] == calls;
  }

  lemma CountsAdvance(calls: seq<Call>, h: Histogram, i: nat)
    requires Counts(calls, h) && i < |calls| && calls[i].done < INCREMENTS
    ensures Counts(calls[i := calls[i].(done := calls[i].done + 1)], Bump(h, calls[i]))
  {
    var call := calls[i].(done := calls[i].done + 1);
    SumUpdate(Timed, calls, i, call);
    SumUpdate(Counted, calls, i, call);
    SumUpdate(InInf, calls, i, call);
    SumUpdate(In10, calls, i, call);
    SumUpdate(In5, calls, i, call);
    SumUpdate(In1, calls, i, call);
    SumUpdate(In01, calls, i, call);
  }

  predicate Ordered(h: Histogram) {
    h.b01 <= h.b1 <= h.b5 <= h.b10 <= h.inf
  }

  lemma {:induction false} SumMonotone(f: Call -> int, g: Call -> int, calls: seq<Call>)
    requires forall call :: f(call) <= g(call)
    ensures Sum(f, calls) <= Sum(g, calls)
  {
    if calls != [] {
      SumMonotone(f, g, calls[..|calls| - 1]);
    }
  }

  /** Because a call bumps its largest bucket first, the live buckets are always ordered. */
  lemma CountsAreOrdered(calls: seq<Call>, h: Histogram)
    requires Counts(calls, h)
    ensures Ordered(h)
  {
    SumMonotone(In01, In1, calls);
    SumMonotone(In1, In5, calls);
    SumMonotone(In5, In10, calls);
    SumMonotone(In10, InInf, calls);
  }

  lemma {:induction false} CountedSplit(calls: seq<Call>)
    ensures Sum(Counted, calls) == Sum(InInf, calls) + Sum(Pending, calls)
  {
    if calls != [] {
      CountedSplit(calls[..|calls| - 1]);
    }
  }

  /** What the scrape has loaded so far, against the live counters. */
  predicate ScrapeSoFar(s: State) {
    var v, h := s.seen, s.hist;
    && s.read <= INCREMENTS
    && (s.read >= 3 ==> v.b01 <= h.b01)
    && (s.read >= 4 ==> v.b01 <= v.b1 <= h.b1)
    && (s.read >= 5 ==> v.b1 <= v.b5 <= h.b5)
    && (s.read >= 6 ==> v.b5 <= v.b10 <= h.b10)
    && (s.read >= 7 ==> v.b10 <= v.inf <= h.inf)
    && (s.read == 0 ==> s.since == 0)
    && (1 <= s.read < 7 ==> h.inf == v.count - s.between + s.since)
    && (s.read == 7 ==> v.inf == v.count - s.between + s.since)
  }

  ghost predicate Inv(s: State) {
    Counts(s.calls, s.hist) && ScrapeSoFar(s)
  }

  lemma InvStep(s: State, a: Action)
    requires Inv(s) && Enabled(s, a)
    ensures Inv(Apply(s, a))
  {
    CountsAreOrdered(s.calls, s.hist);
    match a {
      case Start(ms) => CountsStart(s.calls, s.hist, ms);
      case Advance(i) => CountsAdvance(s.calls, s.hist, i);
      case Load => CountedSplit(s.calls);
    }
  }

  lemma {:induction false} InvAlways(acts: seq<Action>)
    requires Schedulable(acts)
    ensures Inv(StateAfter(acts))
  {
    if acts != [] {
      InvAlways(acts[..|acts| - 1]);
      InvStep(StateAfter(acts[..|acts| - 1]), acts[|acts| - 1]);
    }
  }

  /**
   A finished scrape is consistent: however the recording calls interleave with it, the bucket
   values it read are ordered, because calls bump large to small and the scrape loads small to
   large. Its +Inf bucket misses the calls that were between the two counters when count was
   loaded and includes those that bumped +Inf since.
   */
  lemma ConsistentScrape(acts: seq<Action>)
    requires Schedulable(acts) && StateAfter(acts).read == INCREMENTS
    ensures var s := StateAfter(acts);
            && Ordered(s.seen)
            && s.seen.inf == s.seen.count - s.between + s.since
            && (s.seen.inf == s.seen.count <==> s.since == s.between)
  {
    InvAlways(acts);
  }

  // ----- what the scrape reads, against the recordings -----

  /** The calls a bucket is for: up to a latency, or all of them. */
  datatype Bucket = UpTo(limit: real) | Everything

  predicate InBucket(b: Bucket, ms: Millis) {
    b.UpTo? ==> ms <= b.limit
  }

  /** Recordings in the bucket that have returned; and all that have been started. */
  function FinishedIn(b: Bucket): Call -> int {
    (call: Call) => if call.done == INCREMENTS && InBucket(b, call.ms) then 1 else 0
  }

  function StartedIn(b: Bucket): Call -> int {
    (call: Call) => if InBucket(b, call.ms) then 1 else 0
  }

  function FinishedTime(call: Call): int {
    if call.done == INCREMENTS then (call.ms * 1000.0).Floor else 0
  }

  function StartedTime(call: Call): int {
    (call.ms * 1000.0).Floor
  }

  /** No fewer than had finished among the calls before, no more than are started among those now. */
  ghost predicate Between(before: seq<Call>, now: seq<Call>, b: Bucket, n: nat) {
    Sum(FinishedIn(b), before) <= n <= Sum(StartedIn(b), now)
  }

  ghost predicate TimeBetween(before: seq<Call>, now: seq<Call>, sumUs: nat) {
    Sum(FinishedTime, before) <= sumUs <= Sum(StartedTime, now)
  }

  /** The same calls further on, and perhaps more. */
  predicate Later(before: seq<Call>, now: seq<Call>) {
    && |before| <= |now|
    && forall i :: 0 <= i < |before| ==> now[i].ms == before[i].ms && before[i].done <= now[i].done <= INCREMENTS
  }

  lemma {:induction false} SumLater(f: Call -> int, g: Call -> int, before: seq<Call>, now: seq<Call>)
    requires |before| <= |now| && forall i :: 0 <= i < |before| ==> f(before[i]) <= g(now[i])
    requires forall call :: 0 <= g(call)
    ensures Sum(f, before) <= Sum(g, now)
    decreases |now|
  {
    if |before| < |now| {
      SumLater(f, g, before, now[..|now| - 1]);
    } else if now != [] {
      SumLater(f, g, before[..|before| - 1], now[..|now| - 1]);
    }
  }

  /** A live counter that counts a call once it is past some increment lies between. */
  lemma LiveBetween(before: seq<Call>, now: seq<Call>, b: Bucket, live: Call -> int)
    requires Later(before, now)
    requires forall call :: 0 <= live(call) <= StartedIn(b)(call)
    requires forall call: Call :: call.done == INCREMENTS ==> live(call) == StartedIn(b)(call)
    ensures Sum(FinishedIn(b), before) <= Sum(live, now) <= Sum(StartedIn(b), now)
  {
    SumLater(FinishedIn(b), live, before, now);
    SumMonotone(live, StartedIn(b), now);
  }

  lemma FloorNotNegative(x: real)
    requires 0.0 <= x
    ensures 0 <= x.Floor
  {
  }

  lemma TimeLiveBetween(before: seq<Call>, now: seq<Call>)
    requires Later(before, now)
    ensures Sum(FinishedTime, before) <= Sum(Timed, now) <= Sum(StartedTime, now)
  {
    forall call: Call ensures 0 <= Timed(call) <= StartedTime(call) {
      FloorNotNegative(call.ms * 1000.0);
    }
    SumLater(FinishedTime, Timed, before, now);
    SumMonotone(Timed, StartedTime, now);
  }

  lemma StillBetween(before: seq<Call>, now: seq<Call>, next: seq<Call>, b: Bucket, n: nat)
    requires Between(before, now, b, n) && Later(now, next)
    ensures Between(before, next, b, n)
  {
    SumLater(StartedIn(b), StartedIn(b), now, next);
  }

  lemma TimeStillBetween(before: seq<Call>, now: seq<Call>, next: seq<Call>, sumUs: nat)
    requires TimeBetween(before, now, sumUs) && Later(now, next)
    ensures TimeBetween(before, next, sumUs)
  {
    forall call: Call ensures 0 <= StartedTime(call) {
      FloorNotNegative(call.ms * 1000.0);
    }
    SumLater(StartedTime, StartedTime, now, next);
  }

  /** Each value read so far lies between its bounds. */
  ghost predicate ReadBetween(before: seq<Call>, s: State) {
    var v, now := s.seen, s.calls;
    && (s.read >= 1 ==> Between(before, now, Everything, v.count))
    && (s.read >= 2 ==> TimeBetween(before, now, v.sumUs))
    && (s.read >= 3 ==> Between(before, now, UpTo(0.1), v.b01))
    && (s.read >= 4 ==> Between(before, now, UpTo(1.0), v.b1))
    && (s.read >= 5 ==> Between(before, now, UpTo(5.0), v.b5))
    && (s.read >= 6 ==> Between(before, now, UpTo(10.0), v.b10))
    && (s.read >= 7 ==> Between(before, now, Everything, v.inf))
  }

  lemma BucketsLiveBetween(before: seq<Call>, s: State)
    requires Later(before, s.calls) && Counts(s.calls, s.hist)
    ensures var h, now := s.hist, s.calls;
            && Between(before, now, UpTo(0.1), h.b01) && Between(before, now, UpTo(1.0), h.b1)
            && Between(before, now, UpTo(5.0), h.b5) && Between(before, now, UpTo(10.0), h.b10)
  {
    LiveBetween(before, s.calls, UpTo(0.1), In01);
    LiveBetween(before, s.calls, UpTo(1.0), In1);
    LiveBetween(before, s.calls, UpTo(5.0), In5);
    LiveBetween(before, s.calls, UpTo(10.0), In10);
  }

  /** The live counters lie between the bounds at any time. */
  lemma AllLiveBetween(before: seq<Call>, s: State)
    requires Later(before, s.calls) && Counts(s.calls, s.hist)
    ensures var h, now := s.hist, s.calls;
            && Between(before, now, Everything, h.count) && Between(before, now, Everything, h.inf)
            && TimeBetween(before, now, h.sumUs)
            && Between(before, now, UpTo(0.1), h.b01) && Between(before, now, UpTo(1.0), h.b1)
            && Between(before, now, UpTo(5.0), h.b5) && Between(before, now, UpTo(10.0), h.b10)
  {
    LiveBetween(before, s.calls, Everything, Counted);
    LiveBetween(before, s.calls, Everything, InInf);
    BucketsLiveBetween(before, s);
    TimeLiveBetween(before, s.calls);
  }

  lemma ReadStillBetween(before: seq<Call>, s: State, next: seq<Call>)
    requires ReadBetween(before, s) && Later(s.calls, next)
    ensures ReadBetween(before, s.(calls := next))
  {
    if s.read >= 1 { StillBetween(before, s.calls, next, Everything, s.seen.count); }
    if s.read >= 2 { TimeStillBetween(before, s.calls, next, s.seen.sumUs); }
    if s.read >= 3 { StillBetween(before, s.calls, next, UpTo(0.1), s.seen.b01); }
    if s.read >= 4 { StillBetween(before, s.calls, next, UpTo(1.0), s.seen.b1); }
    if s.read >= 5 { StillBetween(before, s.calls, next, UpTo(5.0), s.seen.b5); }
    if s.read >= 6 { StillBetween(before, s.calls, next, UpTo(10.0), s.seen.b10); }
    if s.read >= 7 { StillBetween(before, s.calls, next, Everything, s.seen.inf); }
  }

  predicate Bounded(calls: seq<Call>) {
    forall i :: 0 <= i < |calls| ==> calls[i].done <= INCREMENTS
  }

  lemma BetweenStep(before: seq<Call>, s: State, a: Action)
    requires Enabled(s, a) && Counts(s.calls, s.hist) && Bounded(s.calls)
    requires Later(before, s.calls) && ReadBetween(before, s)
    ensures var s' := Apply(s, a); Bounded(s'.calls) && Later(before, s'.calls) && ReadBetween(before, s')
  {
    if a.Load? {
      AllLiveBetween(before, s);
    } else {
      ReadStillBetween(before, s, Apply(s, a).calls);
    }
  }

  lemma {:induction false} BoundedAlways(acts: seq<Action>)
    requires Schedulable(acts)
    ensures Bounded(StateAfter(acts).calls)
  {
    if acts != [] {
      BoundedAlways(acts[..|acts| - 1]);
    }
  }

  lemma {:induction false} BetweenAlways(before: seq<Action>, acts: seq<Action>)
    requires Schedulable(acts) && before <= acts && Schedulable(before) && StateAfter(before).read == 0
    ensures Later(StateAfter(before).calls, StateAfter(acts).calls)
    ensures ReadBetween(StateAfter(before).calls, StateAfter(acts))
    decreases |acts|
  {
    BoundedAlways(before);
    if before == acts {
    } else {
      var front := acts[..|acts| - 1];
      assert before <= front;
      BetweenAlways(before, front);
      InvAlways(front);
      BoundedAlways(front);
      BetweenStep(StateAfter(before).calls, StateAfter(front), acts[|acts| - 1]);
    }
  }

  /**
   Each value a finished scrape reads is that of its own counter: at least what the recordings that
   had returned before its first load add up to, at most what those started by its last one do.
   */
  lemma ScrapeBounds(before: seq<Action>, acts: seq<Action>)
    requires Schedulable(acts) && before <= acts && Schedulable(before)
    requires StateAfter(before).read == 0 && StateAfter(acts).read == INCREMENTS
    ensures var v, first, now := StateAfter(acts).seen, StateAfter(before).calls, StateAfter(acts).calls;
            && Between(first, now, UpTo(0.1), v.b01) && Between(first, now, UpTo(1.0), v.b1)
            && Between(first, now, UpTo(5.0), v.b5) && Between(first, now, UpTo(10.0), v.b10)
            && Between(first, now, Everything, v.inf) && Between(first, now, Everything, v.count)
            && TimeBetween(first, now, v.sumUs)
  {
    BetweenAlways(before, acts);
  }

  lemma {:induction false} AllFinished(calls: seq<Call>, b: Bucket)
    requires forall i :: 0 <= i < |calls| ==> calls[i].done == INCREMENTS
    ensures Sum(FinishedIn(b), calls) == Sum(StartedIn(b), calls)
    ensures Sum(FinishedTime, calls) == Sum(StartedTime, calls)
    ensures Sum(StartedIn(Everything), calls) == |calls|
  {
    if calls != [] {
      AllFinished(calls[..|calls| - 1], b);
    }
  }

  /** With every recording finished before the scrape and none started during it, it reads them exactly. */
  lemma QuietScrape(before: seq<Action>, acts: seq<Action>)
    requires Schedulable(acts) && before <= acts && Schedulable(before)
    requires StateAfter(before).read == 0 && StateAfter(acts).read == INCREMENTS
    requires forall i :: 0 <= i < |StateAfter(before).calls| ==> StateAfter(before).calls[i].done == INCREMENTS
    requires |StateAfter(acts).calls| == |StateAfter(before).calls|
    ensures var v, calls := StateAfter(acts).seen, StateAfter(acts).calls;
            && v.b01 == Sum(StartedIn(UpTo(0.1)), calls) && v.b1 == Sum(StartedIn(UpTo(1.0)), calls)
            && v.b5 == Sum(StartedIn(UpTo(5.0)), calls) && v.b10 == Sum(StartedIn(UpTo(10.0)), calls)
            && v.inf == v.count == |calls| && v.sumUs == Sum(StartedTime, calls)
  {
    var first, now := StateAfter(before).calls, StateAfter(acts).calls;
    ScrapeBounds(before, acts);
    BetweenAlways(before, acts);
    assert first == now;
    AllFinished(now, UpTo(0.1));
    AllFinished(now, UpTo(1.0));
    AllFinished(now, UpTo(5.0));
    AllFinished(now, UpTo(10.0));
    AllFinished(now, Everything);
  }

  lemma Then(acts: seq<Action>, a: Action) returns (next: seq<Action>)
    requires Schedulable(acts) && Enabled(StateAfter(acts), a)
    ensures next == acts + [a] && Schedulable(next) && StateAfter(next) == Apply(StateAfter(acts), a)
  {
    next := acts + [a];
    assert next[..|acts|] == acts;
  }

  lemma {:induction false} LoadAll(acts: seq<Action>) returns (all: seq<Action>)
    requires Schedulable(acts)
    ensures acts <= all && Schedulable(all) && StateAfter(all).read >= INCREMENTS
    ensures StateAfter(all).calls == StateAfter(acts).calls && StateAfter(all).since == StateAfter(acts).since
    ensures StateAfter(acts).read > 0 ==> StateAfter(all).between == StateAfter(acts).between
    decreases INCREMENTS - StateAfter(acts).read
  {
    if StateAfter(acts).read >= INCREMENTS {
      all := acts;
    } else {
      var next := Then(acts, Load);
      all := LoadAll(next);
    }
  }

  lemma NewPending(calls: seq<Call>)
    ensures Sum(Pending, calls + [Call(1.0, 2)]) >= 1
  {
    assert (calls + [Call(1.0, 2)])[..|calls|] == calls;
    SumNonNegative(Pending, calls);
  }

  /** A new call gets past count and stops short of +Inf. */
  lemma Straddle(acts: seq<Action>) returns (next: seq<Action>)
    requires Schedulable(acts) && StateAfter(acts).read == 0
    ensures acts <= next && Schedulable(next) && StateAfter(next).read == 0
    ensures StateAfter(next).calls == StateAfter(acts).calls + [Call(1.0, 2)]
  {
    var calls := StateAfter(acts).calls;
    next := Then(acts, Start(1.0));
    next := Then(next, Advance(|calls|));
    next := Then(next, Advance(|calls|));
  }

  /**
   So +Inf and count, which a Prometheus histogram keeps equal, can disagree: whatever has
   happened before a scrape's first load, some continuation makes this scrape read them unequal.
   */
  lemma CountMayDisagree(acts: seq<Action>) returns (all: seq<Action>)
    requires Schedulable(acts) && StateAfter(acts).read == 0
    ensures acts <= all && Schedulable(all) && StateAfter(all).read == INCREMENTS
    ensures StateAfter(all).seen.inf < StateAfter(all).seen.count
  {
    all := Straddle(acts);
    InvAlways(all);
    NewPending(StateAfter(acts).calls);
    all := Then(all, Load);
    all := LoadAll(all);
    InvAlways(all);
  }
}
