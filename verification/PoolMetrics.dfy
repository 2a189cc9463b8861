/** Connection-pool accounting (`Database.acquire`, `check_pool_health` and the figures
    derived from the metrics dictionary), over every interleaving of sessions.

    `acquire` is a coroutine, and other tasks run at each of its awaits: while it waits for a
    connection, while the caller's body runs, and while the connection is handed back.  What
    it does between two awaits is atomic, and is one `Event` here.
 */
module PoolMetrics {
  import opened Tallies

  // ---------- the metrics dictionary and the atomic steps that update it ----------

  datatype Metrics = Metrics(
    connectionsActive: nat,
    connectionsIdle: nat,
    queriesTotal: nat,
    queriesSlow: nat,
    poolExhausted: nat,
    connectionErrors: nat,
    acquisitions: nat,
    releases: nat,
    queryTimesMs: seq<real>,
    poolWaitTimesMs: seq<real>)

  const FRESH := Metrics(0, 0, 0, 0, 0, 0, 0, 0, [], [])

  const WINDOW: nat := 1000

  /** How an attempt ends: `TimeoutError`, another `Exception`, or a cancellation, which is
      not an `Exception`. */
  datatype Ending = Clean | TimedOut | Failed | Cancelled

  /** Python's `s[-n:]` when `s` is longer than `n`. */
  function KeepLast<T>(s: seq<T>, n: nat): (r: seq<T>)
    ensures |r| == if |s| <= n then |s| else n
    ensures forall i | 0 <= i < |r| :: r[i] == s[|s| - |r| + i]
  {
    if |s| <= n then s else s[|s| - n..]
  }

  function OnAcquired(m: Metrics, waitMs: real, idle: nat): Metrics {
    m.(poolWaitTimesMs := KeepLast(m.poolWaitTimesMs + [waitMs], WINDOW),
       acquisitions := m.acquisitions + 1,
       connectionsActive := m.connectionsActive + 1,
       connectionsIdle := idle,
       queriesTotal := m.queriesTotal + 1)
  }

  function OnBodyDone(m: Metrics, durationMs: real): Metrics {
    m.(queryTimesMs := KeepLast(m.queryTimesMs + [durationMs], WINDOW),
       queriesSlow := m.queriesSlow + if durationMs > 1000.0 then 1 else 0,
       releases := m.releases + 1)
  }

  /** The `except` clauses followed by the `finally` clause, which runs for every ending. */
  function OnClose(m: Metrics, ending: Ending): Metrics {
    m.(poolExhausted := m.poolExhausted + if ending.TimedOut? then 1 else 0,
       connectionErrors := m.connectionErrors + if ending.Failed? then 1 else 0,
       connectionsActive := if m.connectionsActive > 0 then m.connectionsActive - 1 else 0)
  }

  /** What the pool shows of itself: its holders and those without a connection. */
  datatype PoolView = NoPool | Holders(size: nat, free: nat)

  datatype Health = NotInitialized | Exhausted | NearCapacity | Healthy

  function PoolHealth(view: PoolView): Health
    requires view.Holders? ==> view.free <= view.size
  {
    if view.NoPool? then NotInitialized
    else if view.free == 0 then Exhausted
    else if (view.size - view.free) as real / view.size as real > 0.9 then NearCapacity
    else Healthy
  }

  /** The 90% threshold, in whole holders; a pool without a free holder counts as exhausted first. */
  lemma {:induction false} HealthInHolders(size: nat, free: nat)
    requires free <= size
    ensures PoolHealth(Holders(size, free)).Exhausted? <==> free == 0
    ensures PoolHealth(Holders(size, free)).NearCapacity? <==> 0 < free && 10 * free < size
    ensures PoolHealth(Holders(size, free)).Healthy? <==> 0 < free && size <= 10 * free
    ensures PoolHealth(NoPool).NotInitialized?
  {
    if free > 0 {
      QuotientAbove((size - free) as real, size as real, 0.9);
    }
  }

  lemma {:induction false} QuotientAbove(a: real, b: real, c: real)
    requires b > 0.0
    ensures a / b > c <==> a > c * b
  {
    var q := a / b;
    assert q * b == a;
    assert q > c ==> (q - c) * b > 0.0;
    assert q <= c ==> (c - q) * b >= 0.0;
  }

  function OnHealth(m: Metrics, health: Health): Metrics {
    if health.Exhausted? then m.(poolExhausted := m.poolExhausted + 1) else m
  }

  /** The object whose dictionary the sessions share; each method is one atomic step. */
  class Database {
    var connectionsActive: nat
    var connectionsIdle: nat
    var queriesTotal: nat
    var queriesSlow: nat
    var poolExhausted: nat
    var connectionErrors: nat
    var acquisitions: nat
    var releases: nat
    var queryTimesMs: seq<real>
    var poolWaitTimesMs: seq<real>

    function Snapshot(): Metrics
      reads this
    {
      Metrics(connectionsActive, connectionsIdle, queriesTotal, queriesSlow, poolExhausted,
              connectionErrors, acquisitions, releases, queryTimesMs, poolWaitTimesMs)
    }

    constructor ()
      ensures Snapshot() == FRESH
    {
      connectionsActive, connectionsIdle, queriesTotal, queriesSlow := 0, 0, 0, 0;
      poolExhausted, connectionErrors, acquisitions, releases := 0, 0, 0, 0;
      queryTimesMs, poolWaitTimesMs := [], [];
    }

    method CheckPoolHealth(view: PoolView) returns (health: Health)
      requires view.Holders? ==> view.free <= view.size
      modifies this
      ensures health == PoolHealth(view)
      ensures Snapshot() == OnHealth(old(Snapshot()), health)
    {
      if view.NoPool? {
        return NotInitialized;
      }
      if view.free == 0 {
        poolExhausted := poolExhausted + 1;
        return Exhausted;
      }
      var utilization := (view.size - view.free) as real / view.size as real;
      health := if utilization > 0.9 then NearCapacity else Healthy;
    }

    /** From the grant of a connection to the `yield`. */
    method Acquired(waitMs: real, idle: nat)
      modifies this
      ensures Snapshot() == OnAcquired(old(Snapshot()), waitMs, idle)
    {
      poolWaitTimesMs := poolWaitTimesMs + [waitMs];
      acquisitions := acquisitions + 1;
      connectionsActive := connectionsActive + 1;
      connectionsIdle := idle;
      queriesTotal := queriesTotal + 1;
      if |poolWaitTimesMs| > WINDOW {
        poolWaitTimesMs := poolWaitTimesMs[|poolWaitTimesMs| - WINDOW..];
      }
    }

    /** From the normal end of the caller's body to the release of the connection. */
    method BodyDone(durationMs: real)
      modifies this
      ensures Snapshot() == OnBodyDone(old(Snapshot()), durationMs)
    {
      queryTimesMs := queryTimesMs + [durationMs];
      if |queryTimesMs| > WINDOW {
        queryTimesMs := queryTimesMs[|queryTimesMs| - WINDOW..];
      }
      if durationMs > 1000.0 {
        queriesSlow := queriesSlow + 1;
      }
      releases := releases + 1;
    }

    /** The figures of `get_pool_stats` and `get_detailed_pool_metrics` that are not copied counters. */
    method DetailedPoolMetrics() returns (averageQueryMs: real, averageWaitMs: real, p95WaitMs: real, errorRate: real)
      ensures averageQueryMs == Mean(queryTimesMs) && averageWaitMs == Mean(poolWaitTimesMs)
      ensures if |poolWaitTimesMs| < 20 then p95WaitMs == 0.0 else IsP95(poolWaitTimesMs, p95WaitMs)
      ensures if acquisitions == 0 then errorRate == 0.0
              else errorRate * acquisitions as real == connectionErrors as real
    {
      averageQueryMs, averageWaitMs, p95WaitMs, errorRate := 0.0, 0.0, 0.0, 0.0;
      if queryTimesMs != [] {
        averageQueryMs := Sum(queryTimesMs) / |queryTimesMs| as real;
      }
      if poolWaitTimesMs != [] {
        averageWaitMs := Sum(poolWaitTimesMs) / |poolWaitTimesMs| as real;
        if |poolWaitTimesMs| >= 20 {
          var sortedTimes := Sorted(poolWaitTimesMs);
          SortedPermutes(poolWaitTimesMs);
          P95IsOrderStatistic(poolWaitTimesMs, sortedTimes);
          p95WaitMs := sortedTimes[P95Index(|sortedTimes|)];
        }
      }
      if acquisitions > 0 {
        errorRate := connectionErrors as real / acquisitions as real;
      }
    }

    /** The `except` and `finally` clauses. */
    method Close(ending: Ending)
      modifies this
      ensures Snapshot() == OnClose(old(Snapshot()), ending)
    {
      match ending {
        case TimedOut => poolExhausted := poolExhausted + 1;
        case Failed => connectionErrors := connectionErrors + 1;
        case _ =>
      }
      connectionsActive := if connectionsActive - 1 > 0 then connectionsActive - 1 else 0;
    }
  }

  // ---------- figures derived from a window ----------

  function Mean(s: seq<real>): real {
    if s == [] then 0.0 else Sum(s) / |s| as real
  }

  /** The mean of a window, times its length, is the sum of the window. */
  lemma {:induction false} MeanOfSum(s: seq<real>)
    ensures Mean(s) * |s| as real == Sum(s)
    ensures s == [] ==> Mean(s) == 0.0
  {
  }

  /** `int(n * 0.95)` */
  function P95Index(n: nat): nat {
    n * 95 / 100
  }

  predicate Ascending(s: seq<real>) {
    forall i, j | 0 <= i < j < |s| :: s[i] <= s[j]
  }

  function Insert(x: real, s: seq<real>): (r: seq<real>)
    requires Ascending(s)
    ensures Ascending(r) && |r| == |s| + 1
    ensures r[0] == x || (s != [] && r[0] == s[0])
  {
    if s == [] || x <= s[0] then [x] + s else [s[0]] + Insert(x, s[1..])
  }

  function Sorted(s: seq<real>): (r: seq<real>)
    ensures Ascending(r) && |r| == |s|
  {
    if s == [] then [] else Insert(s[0], Sorted(s[1..]))
  }

  lemma {:induction false} InsertAdds(x: real, s: seq<real>)
    requires Ascending(s)
    ensures multiset(Insert(x, s)) == multiset(s) + multiset{x}
  {
    if s != [] && s[0] < x {
      assert s == [s[0]] + s[1..];
      InsertAdds(x, s[1..]);
    }
  }

  lemma {:induction false} SortedPermutes(s: seq<real>)
    ensures multiset(Sorted(s)) == multiset(s)
  {
    if s != [] {
      assert s == [s[0]] + s[1..];
      SortedPermutes(s[1..]);
      InsertAdds(s[0], Sorted(s[1..]));
    }
  }

  /** How many samples are at most `v`, or at least `v`. */
  function AtMost(s: seq<real>, v: real): nat {
    if s == [] then 0 else AtMost(s[..|s| - 1], v) + if s[|s| - 1] <= v then 1 else 0
  }

  function AtLeast(s: seq<real>, v: real): nat {
    if s == [] then 0 else AtLeast(s[..|s| - 1], v) + if s[|s| - 1] >= v then 1 else 0
  }

  /** Both are numbers of positions. */
  lemma {:induction false} CountsArePositions(s: seq<real>, v: real)
    ensures AtMost(s, v) == |set i | 0 <= i < |s| && s[i] <= v|
    ensures AtLeast(s, v) == |set i | 0 <= i < |s| && s[i] >= v|
  {
    var most, least := x => x <= v, x => x >= v;
    assert (set i | 0 <= i < |s| && s[i] <= v) == Where(s, most);
    assert (set i | 0 <= i < |s| && s[i] >= v) == Where(s, least);
    if s != [] {
      var front, last := s[..|s| - 1], s[|s| - 1];
      assert s == front + [last];
      CountsArePositions(front, v);
      assert (set i | 0 <= i < |front| && front[i] <= v) == Where(front, most);
      assert (set i | 0 <= i < |front| && front[i] >= v) == Where(front, least);
      WhereAppend(front, last, most);
      WhereAppend(front, last, least);
    }
  }

  /** `v` is a sample, more than 95% of the samples are at most `v`, and at least 5% are at least `v`. */
  ghost predicate IsP95(s: seq<real>, v: real) {
    v in s && 100 * AtMost(s, v) > 95 * |s| && 100 * AtLeast(s, v) >= 5 * |s|
  }

  lemma {:induction false} CountsOfConcat(a: seq<real>, b: seq<real>, v: real)
    ensures AtMost(a + b, v) == AtMost(a, v) + AtMost(b, v)
    ensures AtLeast(a + b, v) == AtLeast(a, v) + AtLeast(b, v)
  {
    if b == [] {
      assert a + b == a;
    } else {
      CountsOfConcat(a, b[..|b| - 1], v);
      assert (a + b)[..|a + b| - 1] == a + b[..|b| - 1];
    }
  }

  lemma {:induction false} RemoveFromMultiset(b: seq<real>, j: nat)
    requires j < |b|
    ensures multiset(b[..j] + b[j + 1..]) == multiset(b) - multiset{b[j]}
  {
    assert b == b[..j] + [b[j]] + b[j + 1..];
  }

  lemma {:induction false} AllAtMost(s: seq<real>, v: real)
    requires forall i | 0 <= i < |s| :: s[i] <= v
    ensures AtMost(s, v) == |s|
  {
    if s != [] {
      AllAtMost(s[..|s| - 1], v);
    }
  }

  lemma {:induction false} AllAtLeast(s: seq<real>, v: real)
    requires forall i | 0 <= i < |s| :: s[i] >= v
    ensures AtLeast(s, v) == |s|
  {
    if s != [] {
      AllAtLeast(s[..|s| - 1], v);
    }
  }

  lemma {:induction false} CountsWithout(b: seq<real>, j: nat, v: real)
    requires j < |b|
    ensures AtMost(b, v) == AtMost(b[..j] + b[j + 1..], v) + AtMost([b[j]], v)
    ensures AtLeast(b, v) == AtLeast(b[..j] + b[j + 1..], v) + AtLeast([b[j]], v)
  {
    assert b == (b[..j] + [b[j]]) + b[j + 1..];
    CountsOfConcat(b[..j] + [b[j]], b[j + 1..], v);
    CountsOfConcat(b[..j], [b[j]], v);
    CountsOfConcat(b[..j], b[j + 1..], v);
  }

  lemma {:induction false} SamePermutationLength(a: seq<real>, b: seq<real>)
    requires multiset(a) == multiset(b)
    ensures |a| == |b|
  {
    assert |multiset(a)| == |a| && |multiset(b)| == |b|;
  }

  lemma {:induction false} FindLast(a: seq<real>, b: seq<real>) returns (j: nat)
    requires a != [] && multiset(a) == multiset(b)
    ensures j < |b| && b[j] == a[|a| - 1]
    ensures multiset(a[..|a| - 1]) == multiset(b[..j] + b[j + 1..])
  {
    RemoveFromMultiset(a, |a| - 1);
    assert a[..|a| - 1] + a[|a|..] == a[..|a| - 1];
    assert a[|a| - 1] in multiset(b);
    j :| 0 <= j < |b| && b[j] == a[|a| - 1];
    RemoveFromMultiset(b, j);
  }

  lemma {:induction false} CountsOfPermutation(a: seq<real>, b: seq<real>, v: real)
    requires multiset(a) == multiset(b)
    ensures AtMost(a, v) == AtMost(b, v) && AtLeast(a, v) == AtLeast(b, v)
  {
    SamePermutationLength(a, b);
    if a != [] {
      var j := FindLast(a, b);
      CountsOfPermutation(a[..|a| - 1], b[..j] + b[j + 1..], v);
      CountsWithout(b, j, v);
    }
  }

  lemma {:induction false} AtMostInSorted(s: seq<real>, i: nat)
    requires Ascending(s) && i < |s|
    ensures AtMost(s, s[i]) >= i + 1
  {
    var low, high, v := s[..i + 1], s[i + 1..], s[i];
    AllAtMost(low, v);
    CountsOfConcat(low, high, v);
    assert s == low + high;
  }

  lemma {:induction false} AtLeastInSorted(s: seq<real>, i: nat)
    requires Ascending(s) && i < |s|
    ensures AtLeast(s, s[i]) >= |s| - i
  {
    var low, high, v := s[..i], s[i..], s[i];
    AllAtLeast(high, v);
    CountsOfConcat(low, high, v);
    assert s == low + high;
  }

  /** Whatever sorting algorithm is used, the reported value is a true 95th percentile. */
  lemma {:induction false} P95IsOrderStatistic(window: seq<real>, sorted: seq<real>)
    requires |window| >= 20 && Ascending(sorted) && multiset(sorted) == multiset(window)
    ensures P95Index(|sorted|) < |sorted| == |window|
    ensures IsP95(window, sorted[P95Index(|sorted|)])
  {
    SamePermutationLength(sorted, window);
    var v := sorted[P95Index(|sorted|)];
    AtMostInSorted(sorted, P95Index(|sorted|));
    AtLeastInSorted(sorted, P95Index(|sorted|));
    CountsOfPermutation(window, sorted, v);
    assert v in multiset(sorted);
  }

  // ---------- sessions, and their interleavings ----------

  /** Where a call of `acquire` is: waiting for a connection, in the caller's body, handing the
      connection back after a good or a failed body, or closed in one of three ways. */
  datatype Phase = Waiting | Holding | Leaving | Unwinding | Refused | Returned | Broken

  datatype World = World(metrics: Metrics, sessions: seq<Phase>)

  datatype Event =
    | CheckHealth(view: PoolView)
    | Attempt(view: PoolView)
    | Acquire(session: nat, waitMs: real, idle: nat)
    | Refuse(session: nat, ending: Ending)
    | FinishBody(session: nat, durationMs: real)
    | FailBody(session: nat)
    | HandBack(session: nat, ending: Ending)

  predicate InPhase(w: World, session: nat, phase: Phase) {
    session < |w.sessions| && w.sessions[session] == phase
  }

  predicate Enabled(w: World, e: Event) {
    match e
    case CheckHealth(view) => view.Holders? ==> view.free <= view.size
    case Attempt(view) => view.Holders? && view.free <= view.size
    case Acquire(i, waitMs, idle) => InPhase(w, i, Waiting)
    case Refuse(i, ending) => InPhase(w, i, Waiting) && !ending.Clean?
    case FinishBody(i, durationMs) => InPhase(w, i, Holding)
    case FailBody(i) => InPhase(w, i, Holding)
    case HandBack(i, ending) => InPhase(w, i, Leaving) || (InPhase(w, i, Unwinding) && !ending.Clean?)
  }

  /** `Attempt` covers the health check of `acquire`: an exhausted pool raises before the
      `try`, so that no session begins. */
  function Next(w: World, e: Event): World
    requires Enabled(w, e)
  {
    match e
    case CheckHealth(view) => w.(metrics := OnHealth(w.metrics, PoolHealth(view)))
    case Attempt(view) =>
      World(OnHealth(w.metrics, PoolHealth(view)),
            if PoolHealth(view).Exhausted? then w.sessions else w.sessions + [Waiting])
    case Acquire(i, waitMs, idle) =>
      World(OnAcquired(w.metrics, waitMs, idle), w.sessions[i := Holding])
    case Refuse(i, ending) => World(OnClose(w.metrics, ending), w.sessions[i := Refused])
    case FinishBody(i, durationMs) => World(OnBodyDone(w.metrics, durationMs), w.sessions[i := Leaving])
    case FailBody(i) => w.(sessions := w.sessions[i := Unwinding])
    case HandBack(i, ending) =>
      World(OnClose(w.metrics, ending),
            w.sessions[i := if w.sessions[i] == Leaving then Returned else Broken])
  }

  ghost predicate StepAt(es: seq<Event>, ws: seq<World>, k: nat)
    requires k < |es| && |ws| == |es| + 1
  {
    Enabled(ws[k], es[k]) && ws[k + 1] == Next(ws[k], es[k])
  }

  /** `ws` are the states an interleaving `es` passes through. */
  ghost predicate IsRun(es: seq<Event>, ws: seq<World>) {
    && |ws| == |es| + 1
    && ws[0] == World(FRESH, [])
    && forall k {:trigger StepAt(es, ws, k)} | 0 <= k < |es| :: StepAt(es, ws, k)
  }

  function Count(sessions: seq<Phase>, phase: Phase): nat {
    if sessions == [] then 0
    else Count(sessions[..|sessions| - 1], phase) + if sessions[|sessions| - 1] == phase then 1 else 0
  }

  /** The sessions that have a connection and have not yet run their `finally` clause. */
  function Live(w: World): nat {
    Count(w.sessions, Holding) + Count(w.sessions, Leaving) + Count(w.sessions, Unwinding)
  }

  /** The sessions whose body raised. */
  function BodyFailures(w: World): nat {
    Count(w.sessions, Unwinding) + Count(w.sessions, Broken)
  }

  lemma {:induction false} CountUpdate(s: seq<Phase>, i: nat, p: Phase, phase: Phase)
    requires i < |s|
    ensures Count(s[i := p], phase) + (if s[i] == phase then 1 else 0)
         == Count(s, phase) + (if p == phase then 1 else 0)
  {
    var front := s[..|s| - 1];
    if i < |front| {
      CountUpdate(front, i, p, phase);
      assert s[i := p][..|s| - 1] == front[i := p];
    } else {
      assert s[i := p][..|s| - 1] == front;
    }
  }

  lemma {:induction false} CountUpdates(s: seq<Phase>, i: nat, p: Phase)
    requires i < |s|
    ensures forall phase :: Count(s[i := p], phase) + (if s[i] == phase then 1 else 0)
                         == Count(s, phase) + (if p == phase then 1 else 0)
  {
    forall phase
      ensures Count(s[i := p], phase) + (if s[i] == phase then 1 else 0)
           == Count(s, phase) + (if p == phase then 1 else 0)
    {
      CountUpdate(s, i, p, phase);
    }
  }

  lemma {:induction false} CountAppend(s: seq<Phase>, p: Phase)
    ensures forall phase :: Count(s + [p], phase) == Count(s, phase) + (if p == phase then 1 else 0)
  {
    assert (s + [p])[..|s|] == s;
  }

  /** What the metrics say about the sessions. */
  ghost predicate Accounted(w: World) {
    var m := w.metrics;
    && m.queriesTotal == m.acquisitions
    && m.acquisitions == m.releases + Count(w.sessions, Holding) + BodyFailures(w)
    && m.releases == Count(w.sessions, Leaving) + Count(w.sessions, Returned)
    && m.queriesSlow <= m.releases
    && m.connectionsActive <= Live(w) <= m.connectionsActive + Count(w.sessions, Refused)
  }

  /** The same, for one step `v` of the world `w` taken by session `i` from phase `from` to `to`. */
  lemma {:induction false} MoveKeepsAccounts(w: World, v: World, i: nat, to: Phase)
    requires Accounted(w) && i < |w.sessions| && v.sessions == w.sessions[i := to]
    requires var from, m, n := w.sessions[i], w.metrics, v.metrics;
      && n.queriesTotal == n.acquisitions == m.acquisitions + (if to.Holding? then 1 else 0)
      && n.releases == m.releases + (if to.Leaving? then 1 else 0)
      && m.queriesSlow <= n.queriesSlow <= m.queriesSlow + (if to.Leaving? then 1 else 0)
      && n.connectionsActive == (if to.Holding? then m.connectionsActive + 1
                                 else if to.Leaving? || to.Unwinding? then m.connectionsActive
                                 else if m.connectionsActive == 0 then 0
                                 else m.connectionsActive - 1)
      && match to
         case Waiting => false
         case Holding => from == Waiting
         case Leaving => from == Holding
         case Unwinding => from == Holding
         case Refused => from == Waiting
         case Returned => from == Leaving
         case Broken => from == Unwinding
    ensures Accounted(v)
  {
    CountUpdates(w.sessions, i, to);
  }

  lemma {:induction false} CountWaiting(s: seq<Phase>, phase: Phase)
    requires !phase.Waiting?
    ensures Count(s + [Waiting], phase) == Count(s, phase)
  {
    CountAppend(s, Waiting);
  }

  /** A session that waits does not enter the accounts. */
  lemma {:induction false} WaitingIsNotCounted(w: World, v: World)
    requires Accounted(w) && v.sessions == w.sessions + [Waiting] && v.metrics == w.metrics
    ensures Accounted(v)
  {
    CountWaiting(w.sessions, Holding);
    CountWaiting(w.sessions, Leaving);
    CountWaiting(w.sessions, Unwinding);
    CountWaiting(w.sessions, Refused);
    CountWaiting(w.sessions, Returned);
    CountWaiting(w.sessions, Broken);
  }

  lemma {:induction false} HealthIsNotCounted(w: World, health: Health)
    requires Accounted(w)
    ensures Accounted(w.(metrics := OnHealth(w.metrics, health)))
  {
  }

  lemma {:induction false} HealthKeepsAccounts(w: World, e: Event, v: World)
    requires Accounted(w) && Enabled(w, e) && v == Next(w, e) && (e.CheckHealth? || e.Attempt?)
    ensures Accounted(v)
  {
    var checked := w.(metrics := OnHealth(w.metrics, PoolHealth(e.view)));
    HealthIsNotCounted(w, PoolHealth(e.view));
    if v != checked {
      WaitingIsNotCounted(checked, v);
    }
  }

  /** The session that an event moves, and where to. */
  function Target(w: World, e: Event): (nat, Phase)
    requires Enabled(w, e) && !e.CheckHealth? && !e.Attempt?
  {
    match e
    case Acquire(i, _, _) => (i, Holding)
    case Refuse(i, _) => (i, Refused)
    case FinishBody(i, _) => (i, Leaving)
    case FailBody(i) => (i, Unwinding)
    case HandBack(i, _) => (i, if w.sessions[i] == Leaving then Returned else Broken)
  }

  lemma {:induction false} StepKeepsAccounts(w: World, e: Event, v: World)
    requires Accounted(w) && Enabled(w, e) && v == Next(w, e)
    ensures Accounted(v)
  {
    if e.CheckHealth? || e.Attempt? {
      HealthKeepsAccounts(w, e, v);
    } else {
      MoveKeepsAccounts(w, v, Target(w, e).0, Target(w, e).1);
    }
  }

  lemma {:induction false} NoSessions(sessions: seq<Phase>, phase: Phase)
    requires |sessions| == 0
    ensures Count(sessions, phase) == 0
  {
  }

  lemma {:induction false} NobodyAcquired(w: World)
    requires w.metrics == FRESH && |w.sessions| == 0
    ensures w.metrics.acquisitions == w.metrics.releases + Count(w.sessions, Holding) + BodyFailures(w)
    ensures w.metrics.releases == Count(w.sessions, Leaving) + Count(w.sessions, Returned)
  {
    NoSessions(w.sessions, Holding);
    NoSessions(w.sessions, Leaving);
    NoSessions(w.sessions, Unwinding);
    NoSessions(w.sessions, Returned);
    NoSessions(w.sessions, Broken);
  }

  lemma {:induction false} NobodyActive(w: World)
    requires w.metrics == FRESH && |w.sessions| == 0
    ensures w.metrics.connectionsActive <= Live(w) <= w.metrics.connectionsActive + Count(w.sessions, Refused)
  {
    NoSessions(w.sessions, Holding);
    NoSessions(w.sessions, Leaving);
    NoSessions(w.sessions, Unwinding);
    NoSessions(w.sessions, Refused);
  }

  lemma {:induction false} StartIsAccounted(w: World)
    requires w.metrics == FRESH && |w.sessions| == 0
    ensures Accounted(w)
  {
    NobodyAcquired(w);
    NobodyActive(w);
  }

  lemma {:induction false} AccountedStep(es: seq<Event>, ws: seq<World>, k: nat)
    requires IsRun(es, ws) && k < |es| && Accounted(ws[k])
    ensures Accounted(ws[k + 1])
  {
    assert StepAt(es, ws, k);
    StepKeepsAccounts(ws[k], es[k], ws[k + 1]);
  }

  /** Accounting over every interleaving of successes, timeouts, errors and cancellations. */
  lemma {:induction false} RunsAreAccounted(es: seq<Event>, ws: seq<World>, k: nat)
    requires IsRun(es, ws) && k <= |es|
    ensures Accounted(ws[k])
  {
    if k == 0 {
      StartIsAccounted(ws[0]);
    } else {
      RunsAreAccounted(es, ws, k - 1);
      AccountedStep(es, ws, k - 1);
    }
  }

  /** An attempt that fails before it gets a connection while some session is counted active:
      its `finally` clause takes away a session that is still live. */
  predicate Miscounts(w: World, e: Event) {
    e.Refuse? && w.metrics.connectionsActive > 0
  }

  lemma {:induction false} ExactMove(w: World, e: Event)
    requires Accounted(w) && Enabled(w, e) && w.metrics.connectionsActive == Live(w)
    requires !e.CheckHealth? && !e.Attempt?
    ensures Next(w, e).metrics.connectionsActive == Live(Next(w, e)) <==> !Miscounts(w, e)
  {
    CountUpdates(w.sessions, Target(w, e).0, Target(w, e).1);
    if e.HandBack? {
      LivePhase(w, e.session);
    }
  }

  lemma {:induction false} ExactStep(w: World, e: Event)
    requires Accounted(w) && Enabled(w, e) && w.metrics.connectionsActive == Live(w)
    ensures Next(w, e).metrics.connectionsActive == Live(Next(w, e)) <==> !Miscounts(w, e)
  {
    if e.CheckHealth? || e.Attempt? {
      CountAppend(w.sessions, Waiting);
    } else {
      ExactMove(w, e);
    }
  }

  lemma {:induction false} LivePhase(w: World, i: nat)
    requires InPhase(w, i, Leaving) || InPhase(w, i, Unwinding)
    ensures Live(w) > 0
  {
    CountUpdates(w.sessions, i, Waiting);
  }

  ghost predicate ExactUpTo(ws: seq<World>, n: nat)
    requires n < |ws|
  {
    forall k | 0 <= k <= n :: ws[k].metrics.connectionsActive == Live(ws[k])
  }

  predicate NoMiscountBefore(es: seq<Event>, ws: seq<World>, n: nat)
    requires n <= |es| && |ws| == |es| + 1
  {
    forall k | 0 <= k < n :: !Miscounts(ws[k], es[k])
  }

  lemma {:induction false} ExactNext(es: seq<Event>, ws: seq<World>, n: nat)
    requires IsRun(es, ws) && n < |es| && ws[n].metrics.connectionsActive == Live(ws[n])
    ensures ws[n + 1].metrics.connectionsActive == Live(ws[n + 1]) <==> !Miscounts(ws[n], es[n])
  {
    RunsAreAccounted(es, ws, n);
    assert StepAt(es, ws, n);
    ExactStep(ws[n], es[n]);
  }

  lemma {:induction false} NobodyLive(w: World)
    requires |w.sessions| == 0
    ensures Live(w) == 0
  {
    NoSessions(w.sessions, Holding);
    NoSessions(w.sessions, Leaving);
    NoSessions(w.sessions, Unwinding);
  }

  lemma {:induction false} ExactAtStart(es: seq<Event>, ws: seq<World>)
    requires IsRun(es, ws)
    ensures ExactUpTo(ws, 0)
  {
    NobodyLive(ws[0]);
  }

  /** `connections_active` is the number of live sessions throughout a run exactly when no attempt
      is refused while a session is counted active. */
  lemma {:induction false} ActiveIsExact(es: seq<Event>, ws: seq<World>, n: nat)
    requires IsRun(es, ws) && n <= |es|
    ensures ExactUpTo(ws, n) <==> NoMiscountBefore(es, ws, n)
  {
    if n == 0 {
      ExactAtStart(es, ws);
    } else {
      ActiveIsExact(es, ws, n - 1);
      if ExactUpTo(ws, n - 1) {
        ExactNext(es, ws, n - 1);
      }
    }
  }

  /** One session holds a connection while another attempt times out: the counter drops to zero. */
  lemma {:induction false} TimeoutUnderreports() returns (es: seq<Event>, ws: seq<World>)
    ensures IsRun(es, ws)
    ensures ws[|es|].metrics.connectionsActive == 0 && Live(ws[|es|]) == 1
  {
    var pool := Holders(20, 10);
    es := [Attempt(pool), Attempt(pool), Acquire(0, 0.0, 9), Refuse(1, TimedOut)];
    var w1 := Next(World(FRESH, []), es[0]);
    var w2 := Next(w1, es[1]);
    var w3 := Next(w2, es[2]);
    ws := [World(FRESH, []), w1, w2, w3, Next(w3, es[3])];
    assert ws[4].sessions == [Holding, Refused];
    OneOfTwo(Refused);
    forall k | 0 <= k < |es|
      ensures StepAt(es, ws, k)
    {
    }
  }

  lemma {:induction false} OneOfTwo(other: Phase)
    requires !other.Holding? && !other.Leaving? && !other.Unwinding?
    ensures Live(World(FRESH, [Holding, other])) == 1
  {
    CountAppend([], Holding);
    CountAppend([Holding], other);
    assert [] + [Holding] == [Holding] && [Holding] + [other] == [Holding, other];
  }

  /** Whether an event ends an attempt or a session, and how. */
  predicate EndsWith(e: Event, ending: Ending) {
    (e.Refuse? || e.HandBack?) && e.ending == ending
  }

  /** Whether an event finds the pool without a free holder. */
  predicate FindsPoolExhausted(e: Event) {
    (e.CheckHealth? || e.Attempt?) && e.view.Holders? && e.view.free == 0
  }

  /** How many of the first `k` events satisfy `p`. */
  function CountEvents(es: seq<Event>, k: nat, p: Event -> bool): nat
    requires k <= |es|
  {
    if k == 0 then 0 else CountEvents(es, k - 1, p) + if p(es[k - 1]) then 1 else 0
  }

  /** Exhaustion counts full pools and timeouts, and errors the other exceptions; a cancelled
      session counts as neither. */
  lemma {:induction false} FailuresAreCounted(es: seq<Event>, ws: seq<World>, k: nat)
    requires IsRun(es, ws) && k <= |es|
    ensures ws[k].metrics.poolExhausted
         == CountEvents(es, k, e => FindsPoolExhausted(e) || EndsWith(e, TimedOut))
    ensures ws[k].metrics.connectionErrors == CountEvents(es, k, e => EndsWith(e, Failed))
  {
    if k > 0 {
      FailuresAreCounted(es, ws, k - 1);
      assert StepAt(es, ws, k - 1);
    }
  }

  predicate FinishesSlowly(e: Event) {
    e.FinishBody? && e.durationMs > 1000.0
  }

  /** Acquisitions count the connections granted, releases the bodies that ended normally, and slow
      queries those of them that took more than a second, from the start of the attempt on. */
  lemma {:induction false} SuccessesAreCounted(es: seq<Event>, ws: seq<World>, k: nat)
    requires IsRun(es, ws) && k <= |es|
    ensures ws[k].metrics.acquisitions == CountEvents(es, k, (e: Event) => e.Acquire?)
    ensures ws[k].metrics.releases == CountEvents(es, k, (e: Event) => e.FinishBody?)
    ensures ws[k].metrics.queriesSlow == CountEvents(es, k, e => FinishesSlowly(e))
  {
    if k > 0 {
      SuccessesAreCounted(es, ws, k - 1);
      assert StepAt(es, ws, k - 1);
    }
  }

  /** The idle count that the last of the first `k` acquisitions saw. */
  function LastIdle(es: seq<Event>, k: nat): nat
    requires k <= |es|
  {
    if k == 0 then 0 else if es[k - 1].Acquire? then es[k - 1].idle else LastIdle(es, k - 1)
  }

  lemma {:induction false} IdleIsLastSeen(es: seq<Event>, ws: seq<World>, k: nat)
    requires IsRun(es, ws) && k <= |es|
    ensures ws[k].metrics.connectionsIdle == LastIdle(es, k)
  {
    if k > 0 {
      IdleIsLastSeen(es, ws, k - 1);
      assert StepAt(es, ws, k - 1);
    }
  }

  // ---------- the windows, against the full history ----------

  /** Every wait recorded by the first `k` events, in order. */
  function WaitHistory(es: seq<Event>, k: nat): seq<real>
    requires k <= |es|
  {
    if k == 0 then []
    else WaitHistory(es, k - 1) + if es[k - 1].Acquire? then [es[k - 1].waitMs] else []
  }

  /** Every query duration recorded by the first `k` events, in order. */
  function DurationHistory(es: seq<Event>, k: nat): seq<real>
    requires k <= |es|
  {
    if k == 0 then []
    else DurationHistory(es, k - 1) + if es[k - 1].FinishBody? then [es[k - 1].durationMs] else []
  }

  lemma {:induction false} KeepLastOfAppend<T>(s: seq<T>, x: T, n: nat)
    requires n > 0
    ensures KeepLast(KeepLast(s, n) + [x], n) == KeepLast(s + [x], n)
  {
  }

  lemma {:induction false} StepWindows(w: World, e: Event, v: World, waits: seq<real>, durations: seq<real>)
    requires Enabled(w, e) && v == Next(w, e)
    requires w.metrics.poolWaitTimesMs == KeepLast(waits, WINDOW)
    requires w.metrics.queryTimesMs == KeepLast(durations, WINDOW)
    ensures v.metrics.poolWaitTimesMs == KeepLast(waits + if e.Acquire? then [e.waitMs] else [], WINDOW)
    ensures v.metrics.queryTimesMs == KeepLast(durations + if e.FinishBody? then [e.durationMs] else [], WINDOW)
  {
    assert waits + [] == waits && durations + [] == durations;
    match e {
      case Acquire(_, waitMs, _) => KeepLastOfAppend(waits, waitMs, WINDOW);
      case FinishBody(_, durationMs) => KeepLastOfAppend(durations, durationMs, WINDOW);
      case _ =>
    }
  }

  /** The two windows are the last 1000 recorded values of the whole history, in order. */
  lemma {:induction false} WindowsRefineHistory(es: seq<Event>, ws: seq<World>, k: nat)
    requires IsRun(es, ws) && k <= |es|
    ensures ws[k].metrics.poolWaitTimesMs == KeepLast(WaitHistory(es, k), WINDOW)
    ensures ws[k].metrics.queryTimesMs == KeepLast(DurationHistory(es, k), WINDOW)
  {
    if k > 0 {
      WindowsRefineHistory(es, ws, k - 1);
      assert StepAt(es, ws, k - 1);
      StepWindows(ws[k - 1], es[k - 1], ws[k], WaitHistory(es, k - 1), DurationHistory(es, k - 1));
    }
  }
}
