/** Refreshing materialized views by age (`AdminQueryOptimizer.refresh_materialized_views`),
    next to other backends that do the same.

    The tracking table says when a view was last refreshed, according to whoever recorded it; the
    world also knows when the view's data was really taken.  Times are microseconds.
 */
module ViewRefresh {
  import opened Results

  const MINUTE := 60_000_000

  datatype MaterializedView = MaterializedView(name: string, refreshIntervalMinutes: nat)

  /** A row of the tracking table.  `delay` is the bookkeeping delay: how long after taking the
      view's data the recording backend read the clock for `lastRefresh`. */
  datatype Tracking = Tracking(lastRefresh: int, delay: int)

  /** For each view, by position: when its data was taken, and its tracking row. */
  datatype World = World(clock: int, taken: seq<int>, tracked: seq<Option<Tracking>>)

  /** What another backend, or time, can do between two awaits of a call. */
  datatype Move = Tick(ticks: nat) | Refresh(view: nat) | Record(view: nat, takenAt: int)

  /** Both tables keep one entry per view. */
  predicate SameViews(w: World, v: World) {
    |v.taken| == |w.taken| && |v.tracked| == |w.tracked|
  }

  predicate Consistent(w: World) {
    && |w.taken| == |w.tracked|
    && forall v | 0 <= v < |w.taken| ::
      && w.taken[v] <= w.clock
      && (w.tracked[v].Some? ==> TrackedSoundly(w.tracked[v].value, w.taken[v], w.clock))
  }

  /** A tracked refresh time is never later than the latest actual refresh plus its bookkeeping delay. */
  predicate TrackedSoundly(t: Tracking, taken: int, clock: int) {
    0 <= t.delay && t.lastRefresh <= clock && t.lastRefresh <= taken + t.delay
  }

  /** A backend records only a refresh of its own, which is no later than the latest one. */
  predicate CanMove(w: World, m: Move) {
    match m
    case Tick(_) => true
    case Refresh(v) => v < |w.taken|
    case Record(v, takenAt) => v < |w.taken| && v < |w.tracked| && takenAt <= w.taken[v]
  }

  function AfterMove(w: World, m: Move): (v: World)
    ensures SameViews(w, v)
  {
    if !CanMove(w, m) then w
    else
      match m
      case Tick(ticks) => w.(clock := w.clock + ticks)
      case Refresh(v) => w.(taken := w.taken[v := w.clock])
      case Record(v, takenAt) => w.(tracked := w.tracked[v := Some(Tracking(w.clock, w.clock - takenAt))])
  }

  function AfterMoves(w: World, moves: seq<Move>): (v: World)
    ensures SameViews(w, v)
  {
    if moves == [] then w else AfterMove(AfterMoves(w, moves[..|moves| - 1]), moves[|moves| - 1])
  }

  /** Time, the views' data and the tracked refresh times only move forward. */
  predicate Later(w: World, v: World) {
    && w.clock <= v.clock && |v.taken| == |w.taken| && |v.tracked| == |w.tracked|
    && (forall i | 0 <= i < |w.taken| :: w.taken[i] <= v.taken[i])
    && forall i | 0 <= i < |w.tracked| && w.tracked[i].Some? ::
      v.tracked[i].Some? && w.tracked[i].value.lastRefresh <= v.tracked[i].value.lastRefresh
  }

  lemma {:induction false} MoveIsSafe(w: World, m: Move)
    requires Consistent(w)
    ensures Consistent(AfterMove(w, m)) && Later(w, AfterMove(w, m))
  {
  }

  /** The tracking invariant holds after any moves of any backends. */
  lemma {:induction false} MovesAreSafe(w: World, moves: seq<Move>)
    requires Consistent(w)
    ensures Consistent(AfterMoves(w, moves)) && Later(w, AfterMoves(w, moves))
  {
    if moves != [] {
      MovesAreSafe(w, moves[..|moves| - 1]);
      MoveIsSafe(AfterMoves(w, moves[..|moves| - 1]), moves[|moves| - 1]);
    }
  }

  // ---------- one view of one call ----------

  datatype Attempt = Done | Busy | Error

  /** What the environment does while a call handles one view: the moves of others before the read,
      the check, the count and the record, and how each of the call's own statements ends.
      `Busy` stands for "another operation is in progress". */
  datatype Script = Script(
    beforeRead: seq<Move>,
    readOk: bool,
    beforeCheck: seq<Move>,
    refresh: Attempt,
    beforeCount: seq<Move>,
    count: Attempt,
    beforeRecord: seq<Move>,
    recordOk: bool)

  /** What became of a view: young enough at time `at` by a tracking row with the given delay,
      skipped because of a race, refreshed with the data of time `at`, or the call failed. */
  datatype Fate = Young(at: int, delay: int) | Raced | Refreshed(at: int) | Broken

  datatype Visit = Visit(world: World, fate: Fate)

  predicate Due(tracked: Option<Tracking>, now: int, view: MaterializedView) {
    tracked.None? || now - tracked.value.lastRefresh > view.refreshIntervalMinutes * MINUTE
  }

  function AfterRefresh(w: World, v: nat, s: Script): (t: Visit)
    requires v < |w.taken|
    ensures SameViews(w, t.world)
  {
    var taken := AfterMove(w, Refresh(v));
    var w1 := AfterMoves(taken, s.beforeCount);
    match s.count
    case Error => Visit(w1, Broken)
    case Busy => Visit(w1, Refreshed(w.clock))
    case Done =>
      var w2 := AfterMoves(w1, s.beforeRecord);
      if s.recordOk then Visit(AfterMove(w2, Record(v, w.clock)), Refreshed(w.clock)) else Visit(w2, Broken)
  }

  function VisitView(w: World, v: nat, view: MaterializedView, force: bool, s: Script): (t: Visit)
    requires v < |w.taken| == |w.tracked|
    ensures SameViews(w, t.world)
  {
    var w1 := AfterMoves(w, s.beforeRead);
    var w2 := AfterMoves(w1, s.beforeCheck);
    if !force && !s.readOk then Visit(w1, Broken)
    else if !force && !Due(w1.tracked[v], w2.clock, view) then
      Visit(w2, Young(w2.clock, w1.tracked[v].value.delay))
    else
      match s.refresh
      case Busy => Visit(w2, Raced)
      case Error => Visit(w2, Broken)
      case Done => AfterRefresh(w2, v, s)
  }

  /** The promise about a view, seen from any later world: its data is not older than the fate says. */
  predicate KeepsPromise(view: MaterializedView, fate: Fate, start: World, v: nat, w: World)
    requires v < |w.taken|
  {
    match fate
    case Young(at, delay) =>
      start.clock <= at <= w.clock && at - w.taken[v] <= view.refreshIntervalMinutes * MINUTE + delay
    case Refreshed(at) => start.clock <= at <= w.taken[v]
    case Raced => true
    case Broken => true
  }

  lemma {:induction false} LaterIsTransitive(a: World, b: World, c: World)
    requires Later(a, b) && Later(b, c)
    ensures Later(a, c)
  {
  }

  lemma {:induction false} RefreshIsSafe(w: World, v: nat, s: Script)
    requires Consistent(w) && v < |w.taken|
    ensures var t := AfterRefresh(w, v, s);
      Consistent(t.world) && Later(w, t.world) && (t.fate == Broken || t.fate == Refreshed(w.clock))
    ensures w.clock <= AfterRefresh(w, v, s).world.taken[v]
  {
    var taken := AfterMove(w, Refresh(v));
    MoveIsSafe(w, Refresh(v));
    var w1 := AfterMoves(taken, s.beforeCount);
    MovesAreSafe(taken, s.beforeCount);
    LaterIsTransitive(w, taken, w1);
    if s.count.Done? {
      var w2 := AfterMoves(w1, s.beforeRecord);
      MovesAreSafe(w1, s.beforeRecord);
      LaterIsTransitive(w, w1, w2);
      LaterIsTransitive(taken, w1, w2);
      MoveIsSafe(w2, Record(v, w.clock));
    }
  }

  lemma {:induction false} VisitIsSafe(w: World, v: nat, view: MaterializedView, force: bool, s: Script, t: Visit)
    requires Consistent(w) && v < |w.taken| && t == VisitView(w, v, view, force, s)
    ensures Consistent(t.world) && Later(w, t.world)
    ensures KeepsPromise(view, t.fate, w, v, t.world)
    ensures force ==> !t.fate.Young?
  {
    MovesAreSafe(w, s.beforeRead);
    var w1 := AfterMoves(w, s.beforeRead);
    MovesAreSafe(w1, s.beforeCheck);
    var w2 := AfterMoves(w1, s.beforeCheck);
    LaterIsTransitive(w, w1, w2);
    if t.fate.Young? {
      assert TrackedSoundly(w1.tracked[v].value, w1.taken[v], w1.clock);
    } else if (force || s.readOk) && s.refresh.Done? {
      RefreshIsSafe(w2, v, s);
      LaterIsTransitive(w, w2, t.world);
    }
  }

  // ---------- what one visit records ----------

  /** The tracking row of a view is at most the view's interval old at time `now`. */
  predicate TrackedWithin(tracked: Option<Tracking>, now: int, view: MaterializedView) {
    tracked.Some? && now - tracked.value.lastRefresh <= view.refreshIntervalMinutes * MINUTE
  }

  lemma {:induction false} RefreshIsRecorded(w: World, v: nat, s: Script, t: Visit)
    requires Consistent(w) && v < |w.taken| && t == AfterRefresh(w, v, s)
    requires t.fate.Refreshed? && s.count.Done?
    ensures t.world.tracked[v] == Some(Tracking(t.world.clock, t.world.clock - w.clock))
  {
    var taken := AfterMove(w, Refresh(v));
    MoveIsSafe(w, Refresh(v));
    var w1 := AfterMoves(taken, s.beforeCount);
    MovesAreSafe(taken, s.beforeCount);
    MovesAreSafe(w1, s.beforeRecord);
  }

  /** The fate of a view, whatever the others do before the read (up to `read`) and before the check
      (up to `check`): it is left alone when its row, as read, is at most its interval old at the
      check, and otherwise, or when forced, it meets the fate of the statement that refreshes it. */
  lemma {:induction false} FateOfVisit(w: World, v: nat, view: MaterializedView, force: bool, s: Script, t: Visit,
                                       read: World, check: World)
    requires v < |w.taken| == |w.tracked| && t == VisitView(w, v, view, force, s)
    requires read == AfterMoves(w, s.beforeRead) && check == AfterMoves(read, s.beforeCheck)
    ensures var young := !force && s.readOk && TrackedWithin(read.tracked[v], check.clock, view);
      var tried := (force || s.readOk) && !young;
      && (t.fate.Young? <==> young)
      && (t.fate.Raced? <==> tried && s.refresh.Busy?)
      && (t.fate.Refreshed? <==> tried && s.refresh.Done? && (s.count.Busy? || (s.count.Done? && s.recordOk)))
    ensures t.fate.Young? ==> t.fate == Young(check.clock, read.tracked[v].value.delay)
    ensures t.fate.Refreshed? ==> t.fate.at == check.clock
    ensures t.fate.Young? || t.fate.Raced? ==> t.world == check
  {
  }

  /** A refresh that went through and was counted is recorded: the view's row then holds the time of
      the record, and the delay since its data was taken. */
  lemma {:induction false} VisitRecords(w: World, v: nat, view: MaterializedView, force: bool, s: Script, t: Visit)
    requires Consistent(w) && v < |w.taken| && t == VisitView(w, v, view, force, s)
    requires t.fate.Refreshed? && s.count.Done?
    ensures t.world.tracked[v] == Some(Tracking(t.world.clock, t.world.clock - t.fate.at))
  {
    var w1 := AfterMoves(w, s.beforeRead);
    var w2 := AfterMoves(w1, s.beforeCheck);
    MovesAreSafe(w, s.beforeRead);
    MovesAreSafe(w1, s.beforeCheck);
    RefreshIsRecorded(w2, v, s, t);
  }

  /** Nobody else moves during the visit. */
  predicate Alone(s: Script) {
    s.beforeRead == s.beforeCheck == s.beforeCount == s.beforeRecord == []
  }

  /** A visit during which nobody else moves changes only its own view: the data when the refresh goes
      through, and the row only when the refresh is counted and recorded. */
  lemma {:induction false} LoneVisit(w: World, v: nat, view: MaterializedView, force: bool, s: Script, t: Visit)
    requires v < |w.taken| == |w.tracked| && Alone(s) && t == VisitView(w, v, view, force, s)
    ensures t.world.clock == w.clock
    ensures t.fate.Refreshed? && s.count.Done? ==>
      t.world == w.(taken := w.taken[v := w.clock], tracked := w.tracked[v := Some(Tracking(w.clock, 0))])
    ensures t.fate.Refreshed? && s.count.Busy? ==> t.world == w.(taken := w.taken[v := w.clock])
    ensures t.fate.Young? || t.fate.Raced? ==> t.world == w
    ensures t.fate.Broken? ==> t.world == w || t.world == w.(taken := w.taken[v := w.clock])
  {
  }

  /** What the tracking row of a visited view shows from then on: found young, a row at most the view's
      interval old at the check; refreshed, a row no older than the data. */
  predicate StaysTracked(view: MaterializedView, fate: Fate, tracked: Option<Tracking>) {
    match fate
    case Young(at, _) => TrackedWithin(tracked, at, view)
    case Refreshed(at) => tracked.Some? && at <= tracked.value.lastRefresh
    case Raced => true
    case Broken => true
  }

  /** A visit leaves such a row, unless the count of a refreshed view met another operation. */
  lemma {:induction false} VisitStaysTracked(w: World, v: nat, view: MaterializedView, force: bool, s: Script,
                                             t: Visit)
    requires Consistent(w) && v < |w.taken| && t == VisitView(w, v, view, force, s)
    requires t.fate.Refreshed? ==> s.count.Done?
    ensures StaysTracked(view, t.fate, t.world.tracked[v])
  {
    var w1 := AfterMoves(w, s.beforeRead);
    var w2 := AfterMoves(w1, s.beforeCheck);
    MovesAreSafe(w, s.beforeRead);
    MovesAreSafe(w1, s.beforeCheck);
    if t.fate.Refreshed? {
      VisitRecords(w, v, view, force, s, t);
      RefreshIsSafe(w2, v, s);
    }
  }

  // ---------- the whole call ----------

  datatype Call = Call(world: World, fates: seq<Fate>)

  predicate Failed(c: Call) {
    c.fates != [] && c.fates[|c.fates| - 1].Broken?
  }

  /** The call after it has handled the first `k` views, or has failed on the way. */
  function VisitAll(w: World, views: seq<MaterializedView>, force: bool, script: seq<Script>, k: nat): (c: Call)
    requires k <= |views| == |script| == |w.taken| == |w.tracked|
    ensures SameViews(w, c.world) && |c.fates| <= k
  {
    if k == 0 then Call(w, [])
    else
      var c := VisitAll(w, views, force, script, k - 1);
      if Failed(c) then c
      else
        var t := VisitView(c.world, k - 1, views[k - 1], force, script[k - 1]);
        Call(t.world, c.fates + [t.fate])
  }

  /** Every call keeps the tracking invariant, whether it succeeds or fails on the way. */
  lemma {:induction false} CallIsSafe(w: World, views: seq<MaterializedView>, force: bool, script: seq<Script>,
                                      k: nat, c: Call)
    requires Consistent(w) && k <= |views| == |script| == |w.taken|
    requires c == VisitAll(w, views, force, script, k)
    ensures Consistent(c.world) && Later(w, c.world)
  {
    if k > 0 {
      var b := VisitAll(w, views, force, script, k - 1);
      CallIsSafe(w, views, force, script, k - 1, b);
      if !Failed(b) {
        var t := VisitView(b.world, k - 1, views[k - 1], force, script[k - 1]);
        VisitIsSafe(b.world, k - 1, views[k - 1], force, script[k - 1], t);
        LaterIsTransitive(w, b.world, t.world);
      }
    }
  }

  /** The body of the loop over the views. */
  method RefreshView(w: World, v: nat, view: MaterializedView, force: bool, s: Script) returns (t: Visit)
    requires v < |w.taken| == |w.tracked|
    ensures t == VisitView(w, v, view, force, s)
  {
    var now := AfterMoves(w, s.beforeRead);
    var needsRefresh := force;
    if force {
      now := AfterMoves(now, s.beforeCheck);
    } else {
      if !s.readOk {
        return Visit(now, Broken);
      }
      var lastRefresh := now.tracked[v];
      now := AfterMoves(now, s.beforeCheck);
      needsRefresh := Due(lastRefresh, now.clock, view);
      if !needsRefresh {
        return Visit(now, Young(now.clock, lastRefresh.value.delay));
      }
    }
    match s.refresh {
      case Busy => return Visit(now, Raced);
      case Error => return Visit(now, Broken);
      case Done =>
    }
    var at := now.clock;
    now := AfterMoves(AfterMove(now, Refresh(v)), s.beforeCount);
    match s.count {
      case Busy => return Visit(now, Refreshed(at));
      case Error => return Visit(now, Broken);
      case Done =>
    }
    now := AfterMoves(now, s.beforeRecord);
    if !s.recordOk {
      return Visit(now, Broken);
    }
    return Visit(AfterMove(now, Record(v, at)), Refreshed(at));
  }

  lemma {:induction false} NextVisit(w: World, views: seq<MaterializedView>, force: bool, script: seq<Script>, k: nat,
                                     c: Call, t: Visit)
    requires k < |views| == |script| == |w.taken| == |w.tracked|
    requires c == VisitAll(w, views, force, script, k) && !Failed(c)
    requires t == VisitView(c.world, k, views[k], force, script[k])
    ensures VisitAll(w, views, force, script, k + 1) == Call(t.world, c.fates + [t.fate])
  {
  }

  /** One call as the environment sees it: whether the connection is acquired and released without an
      error, and what happens around each view in between. */
  datatype Request = Request(force: bool, acquired: bool, script: seq<Script>, released: bool)

  function RunRequest(w: World, views: seq<MaterializedView>, q: Request): Call
    requires |views| == |q.script| == |w.taken| == |w.tracked|
  {
    if q.acquired then VisitAll(w, views, q.force, q.script, |views|) else Call(w, [])
  }

  predicate Succeeds(q: Request, c: Call) {
    q.acquired && !Failed(c) && q.released
  }

  /** The loop over the views, up to the first failure. */
  method RefreshEach(w: World, views: seq<MaterializedView>, force: bool, script: seq<Script>)
      returns (c: Call, results: seq<bool>)
    requires |views| == |script| == |w.taken| == |w.tracked|
    ensures c == VisitAll(w, views, force, script, |views|)
    ensures !Failed(c) ==> results == RefreshResults(c.fates)
  {
    c, results := Call(w, []), [];
    var k := 0;
    while k < |views| && !Failed(c)
      invariant k <= |views| && c == VisitAll(w, views, force, script, k)
      invariant !Failed(c) ==> results == RefreshResults(c.fates)
    {
      var t := RefreshView(c.world, k, views[k], force, script[k]);
      NextVisit(w, views, force, script, k, c, t);
      ResultsAppend(c.fates, t.fate);
      results := results + [t.fate.Refreshed?];
      c := Call(t.world, c.fates + [t.fate]);
      k := k + 1;
    }
    if Failed(c) {
      FailureIsFinal(w, views, force, script, k, |views|);
    }
  }

  /** `refresh_materialized_views`: one entry per view says whether the view was refreshed. */
  method RefreshMaterializedViews(w: World, views: seq<MaterializedView>, q: Request)
      returns (r: Result<seq<bool>>, c: Call)
    requires |views| == |q.script| == |w.taken| == |w.tracked|
    ensures c == RunRequest(w, views, q)
    ensures r.Ok? <==> Succeeds(q, c)
    ensures r.Ok? ==>
      |r.value| == |views| == |c.fates| && forall v | 0 <= v < |views| :: r.value[v] <==> c.fates[v].Refreshed?
  {
    if !q.acquired {
      return Err("Failed to refresh materialized views"), Call(w, []);
    }
    var results;
    c, results := RefreshEach(w, views, q.force, q.script);
    if !Failed(c) {
      FatePerView(w, views, q.force, q.script, |views|, c);
    }
    r := if Failed(c) || !q.released then Err("Failed to refresh materialized views") else Ok(results);
  }

  /** The result map: `True` for the views that this call refreshed. */
  function RefreshResults(fates: seq<Fate>): seq<bool> {
    seq(|fates|, i requires 0 <= i < |fates| => fates[i].Refreshed?)
  }

  lemma {:induction false} ResultsAppend(fates: seq<Fate>, fate: Fate)
    ensures RefreshResults(fates + [fate]) == RefreshResults(fates) + [fate.Refreshed?]
  {
  }

  lemma {:induction false} FailureStays(w: World, views: seq<MaterializedView>, force: bool, script: seq<Script>,
                                        k: nat, c: Call)
    requires k < |views| == |script| == |w.taken| == |w.tracked|
    requires c == VisitAll(w, views, force, script, k) && Failed(c)
    ensures VisitAll(w, views, force, script, k + 1) == c
  {
  }

  lemma {:induction false} FailureIsFinal(w: World, views: seq<MaterializedView>, force: bool, script: seq<Script>,
                                          j: nat, k: nat)
    requires j <= k <= |views| == |script| == |w.taken| == |w.tracked|
    requires Failed(VisitAll(w, views, force, script, j))
    ensures VisitAll(w, views, force, script, k) == VisitAll(w, views, force, script, j)
  {
    if j < k {
      FailureIsFinal(w, views, force, script, j, k - 1);
      FailureStays(w, views, force, script, k - 1, VisitAll(w, views, force, script, j));
    }
  }

  /** Every view handled before the first failure has a fate. */
  lemma {:induction false} FatePerView(w: World, views: seq<MaterializedView>, force: bool, script: seq<Script>,
                                       k: nat, c: Call)
    requires k <= |views| == |script| == |w.taken| == |w.tracked|
    requires c == VisitAll(w, views, force, script, k) && !Failed(c)
    ensures |c.fates| == k
  {
    if k > 0 {
      var b := VisitAll(w, views, force, script, k - 1);
      NotFailedBefore(w, views, force, script, k, b);
      FatePerView(w, views, force, script, k - 1, b);
    }
  }

  /** Every view handled so far has a fate, and the promise that goes with it. */
  ghost predicate AllKept(views: seq<MaterializedView>, force: bool, start: World, c: Call, k: nat)
    requires k <= |views| && k <= |c.world.taken|
  {
    && |c.fates| == k
    && forall v | 0 <= v < k :: !c.fates[v].Broken? && (force ==> !c.fates[v].Young?)
                                && KeepsPromise(views[v], c.fates[v], start, v, c.world)
  }

  lemma {:induction false} KeptAfterVisit(views: seq<MaterializedView>, force: bool, start: World, c: Call, t: Visit,
                                          k: nat)
    requires k < |views| && k < |c.world.taken| && AllKept(views, force, start, c, k)
    requires Later(start, c.world) && Later(c.world, t.world)
    requires !t.fate.Broken? && (force ==> !t.fate.Young?) && KeepsPromise(views[k], t.fate, c.world, k, t.world)
    ensures AllKept(views, force, start, Call(t.world, c.fates + [t.fate]), k + 1)
  {
    forall v | 0 <= v < k
      ensures KeepsPromise(views[v], c.fates[v], start, v, t.world)
    {
    }
  }

  lemma {:induction false} NotFailedBefore(w: World, views: seq<MaterializedView>, force: bool, script: seq<Script>,
                                           k: nat, b: Call)
    requires 0 < k <= |views| == |script| == |w.taken| == |w.tracked|
    requires b == VisitAll(w, views, force, script, k - 1) && !Failed(VisitAll(w, views, force, script, k))
    ensures !Failed(b)
  {
  }

  lemma {:induction false} LastFate(w: World, views: seq<MaterializedView>, force: bool, script: seq<Script>, k: nat,
                                    b: Call, t: Visit)
    requires k < |views| == |script| == |w.taken| == |w.tracked|
    requires b == VisitAll(w, views, force, script, k) && !Failed(VisitAll(w, views, force, script, k + 1))
    requires t == VisitView(b.world, k, views[k], force, script[k])
    ensures !Failed(b) && !t.fate.Broken?
    ensures VisitAll(w, views, force, script, k + 1) == Call(t.world, b.fates + [t.fate])
  {
    NotFailedBefore(w, views, force, script, k + 1, b);
    NextVisit(w, views, force, script, k, b, t);
    assert (b.fates + [t.fate])[|b.fates|] == t.fate;
  }

  lemma {:induction false} KeptNext(w: World, views: seq<MaterializedView>, force: bool, script: seq<Script>, k: nat,
                                    b: Call, c: Call)
    requires Consistent(w) && k < |views| == |script| == |w.taken|
    requires b == VisitAll(w, views, force, script, k) && AllKept(views, force, w, b, k)
    requires c == VisitAll(w, views, force, script, k + 1) && !Failed(c)
    ensures AllKept(views, force, w, c, k + 1)
  {
    var t := VisitView(b.world, k, views[k], force, script[k]);
    LastFate(w, views, force, script, k, b, t);
    CallIsSafe(w, views, force, script, k, b);
    VisitIsSafe(b.world, k, views[k], force, script[k], t);
    KeptAfterVisit(views, force, w, b, t, k);
  }

  /** Staleness: when a call succeeds it has a result for every view, and each view that was not
      skipped by a race holds data that, when the call looked at the view, was at most its interval
      plus the bookkeeping delay old; a forced call leaves only data taken during the call. */
  lemma {:induction false} ViewsAreFreshEnough(w: World, views: seq<MaterializedView>, force: bool,
                                               script: seq<Script>, k: nat)
    requires Consistent(w) && k <= |views| == |script| == |w.taken|
    requires !Failed(VisitAll(w, views, force, script, k))
    ensures AllKept(views, force, w, VisitAll(w, views, force, script, k), k)
  {
    if k > 0 {
      var b := VisitAll(w, views, force, script, k - 1);
      NotFailedBefore(w, views, force, script, k, b);
      ViewsAreFreshEnough(w, views, force, script, k - 1);
      KeptNext(w, views, force, script, k - 1, b, VisitAll(w, views, force, script, k));
    }
  }

  /** The reader's form of the promise: at the end of the call a view's data is at most as old as its
      interval, the bookkeeping delay, and the time since the call looked at it. */
  lemma {:induction false} AgeAtTheEnd(view: MaterializedView, fate: Fate, start: World, v: nat, w: World)
    requires Consistent(w) && v < |w.taken| && KeepsPromise(view, fate, start, v, w)
    requires fate.Young? || fate.Refreshed?
    ensures fate.Young? ==>
      w.clock - w.taken[v] <= view.refreshIntervalMinutes * MINUTE + fate.delay + (w.clock - fate.at)
    ensures fate.Refreshed? ==> w.clock - w.taken[v] <= w.clock - start.clock
  {
  }

  /** Nobody interferes up to the check of a view's age, and the tracking table can be read. */
  predicate Quiet(s: Script) {
    s.beforeRead == [] && s.beforeCheck == [] && s.readOk
  }

  lemma {:induction false} QuietVisit(w: World, v: nat, view: MaterializedView, s: Script, t: Visit)
    requires v < |w.taken| == |w.tracked| && Quiet(s) && t == VisitView(w, v, view, false, s)
    ensures t.fate.Young? <==> !Due(w.tracked[v], w.clock, view)
    ensures t.fate.Young? ==> t.world == w
  {
  }

  predicate AllYoung(c: Call, k: nat) {
    |c.fates| == k && forall v | 0 <= v < k :: c.fates[v].Young?
  }

  lemma {:induction false} AllYoungAppend(b: Call, t: Visit, k: nat)
    ensures AllYoung(Call(t.world, b.fates + [t.fate]), k + 1) <==> AllYoung(b, k) && t.fate.Young?
  {
    var c := Call(t.world, b.fates + [t.fate]);
    if |b.fates| == k {
      assert c.fates[k] == t.fate && forall v | 0 <= v < k :: c.fates[v] == b.fates[v];
    }
  }

  lemma {:induction false} YoungSoFar(w: World, views: seq<MaterializedView>, script: seq<Script>, k: nat, b: Call,
                                      t: Visit)
    requires k < |views| == |script| == |w.taken| == |w.tracked|
    requires b == VisitAll(w, views, false, script, k)
    requires t == VisitView(b.world, k, views[k], false, script[k])
    ensures var c := VisitAll(w, views, false, script, k + 1);
      && (AllYoung(c, k + 1) <==> AllYoung(b, k) && t.fate.Young?)
      && (AllYoung(c, k + 1) ==> c.world == t.world)
  {
    if !Failed(b) {
      NextVisit(w, views, false, script, k, b, t);
      AllYoungAppend(b, t, k);
    }
  }

  /** Each of the first `k` views is tracked and at most its interval old. */
  predicate NoneDue(w: World, views: seq<MaterializedView>, k: nat)
    requires k <= |views| && k <= |w.tracked|
  {
    forall v | 0 <= v < k :: TrackedWithin(w.tracked[v], w.clock, views[v])
  }

  /** The first `k` visits of an undisturbed call found every view young exactly when none was due. */
  ghost predicate Undisturbed(w: World, views: seq<MaterializedView>, c: Call, k: nat)
    requires k <= |views| && k <= |w.tracked|
  {
    (AllYoung(c, k) <==> NoneDue(w, views, k)) && (AllYoung(c, k) ==> c.world == w)
  }

  lemma {:induction false} UndisturbedStep(w: World, views: seq<MaterializedView>, s: Script, k: nat, b: Call,
                                           t: Visit, c: Call)
    requires k < |views| && k < |w.taken| == |w.tracked| && Quiet(s) && Undisturbed(w, views, b, k)
    requires SameViews(w, b.world) && t == VisitView(b.world, k, views[k], false, s)
    requires AllYoung(c, k + 1) <==> AllYoung(b, k) && t.fate.Young?
    requires AllYoung(c, k + 1) ==> c.world == t.world
    ensures Undisturbed(w, views, c, k + 1)
  {
    QuietVisit(b.world, k, views[k], s, t);
  }

  lemma {:induction false} UndisturbedNext(w: World, views: seq<MaterializedView>, script: seq<Script>, k: nat,
                                           b: Call, c: Call)
    requires k < |views| == |script| == |w.taken| == |w.tracked| && Quiet(script[k])
    requires b == VisitAll(w, views, false, script, k) && c == VisitAll(w, views, false, script, k + 1)
    requires Undisturbed(w, views, b, k)
    ensures Undisturbed(w, views, c, k + 1)
  {
    var t := VisitView(b.world, k, views[k], false, script[k]);
    YoungSoFar(w, views, script, k, b, t);
    UndisturbedStep(w, views, script[k], k, b, t, c);
  }

  /** No needless refresh: an undisturbed, unforced call leaves the world as it is, and finds every
      view young, if and only if each view is tracked and at most its interval old. */
  lemma {:induction false} RefreshesOnlyDueViews(w: World, views: seq<MaterializedView>, script: seq<Script>, k: nat)
    requires k <= |views| == |script| == |w.taken| == |w.tracked|
    requires forall v | 0 <= v < k :: Quiet(script[v])
    ensures Undisturbed(w, views, VisitAll(w, views, false, script, k), k)
  {
    if k > 0 {
      RefreshesOnlyDueViews(w, views, script, k - 1);
      UndisturbedNext(w, views, script, k - 1, VisitAll(w, views, false, script, k - 1),
                      VisitAll(w, views, false, script, k));
    }
  }

  // ---------- the call after a call ----------

  /** Each view visited so far has the tracking row that goes with its fate, unless it was refreshed
      while its count met another operation. */
  ghost predicate AllTracked(views: seq<MaterializedView>, script: seq<Script>, c: Call, k: nat)
    requires k <= |views| && k <= |script| && k <= |c.world.tracked|
  {
    && |c.fates| == k
    && forall v | 0 <= v < k :: (c.fates[v].Refreshed? ==> script[v].count.Done?)
                                ==> StaysTracked(views[v], c.fates[v], c.world.tracked[v])
  }

  lemma {:induction false} TrackedAfterVisit(views: seq<MaterializedView>, script: seq<Script>, c: Call, t: Visit,
                                             k: nat)
    requires k < |views| && k < |script| && k < |c.world.tracked| && AllTracked(views, script, c, k)
    requires Later(c.world, t.world)
    requires (t.fate.Refreshed? ==> script[k].count.Done?) ==> StaysTracked(views[k], t.fate, t.world.tracked[k])
    ensures AllTracked(views, script, Call(t.world, c.fates + [t.fate]), k + 1)
  {
    forall v | 0 <= v < k && (c.fates[v].Refreshed? ==> script[v].count.Done?)
      ensures StaysTracked(views[v], c.fates[v], t.world.tracked[v])
    {
    }
  }

  lemma {:induction false} TrackedNext(w: World, views: seq<MaterializedView>, force: bool, script: seq<Script>,
                                       k: nat, b: Call, c: Call)
    requires Consistent(w) && k < |views| == |script| == |w.taken|
    requires b == VisitAll(w, views, force, script, k) && AllTracked(views, script, b, k)
    requires c == VisitAll(w, views, force, script, k + 1) && !Failed(c)
    ensures AllTracked(views, script, c, k + 1)
  {
    var t := VisitView(b.world, k, views[k], force, script[k]);
    LastFate(w, views, force, script, k, b, t);
    CallIsSafe(w, views, force, script, k, b);
    VisitIsSafe(b.world, k, views[k], force, script[k], t);
    if t.fate.Refreshed? ==> script[k].count.Done? {
      VisitStaysTracked(b.world, k, views[k], force, script[k], t);
    }
    TrackedAfterVisit(views, script, b, t, k);
  }

  /** A call without failure leaves every view tracked as its fate says. */
  lemma {:induction false} CallsAreTracked(w: World, views: seq<MaterializedView>, force: bool, script: seq<Script>,
                                           k: nat, c: Call)
    requires Consistent(w) && k <= |views| == |script| == |w.taken|
    requires c == VisitAll(w, views, force, script, k) && !Failed(c)
    ensures AllTracked(views, script, c, k)
  {
    if k > 0 {
      var b := VisitAll(w, views, force, script, k - 1);
      NotFailedBefore(w, views, force, script, k, b);
      CallsAreTracked(w, views, force, script, k - 1, b);
      TrackedNext(w, views, force, script, k - 1, b, c);
    }
  }

  /** The fates of a call in which no view met another operation. */
  predicate NoneBusy(c: Call, script: seq<Script>) {
    && |c.fates| == |script|
    && forall v | 0 <= v < |script| ::
      c.fates[v].Young? || (c.fates[v].Refreshed? && script[v].count.Done?)
  }

  /** At time `now` no view found young has aged since its check, and no view refreshed has aged by
      more than its interval since its data was taken. */
  predicate SoonAfter(views: seq<MaterializedView>, fates: seq<Fate>, now: int) {
    && |fates| == |views|
    && forall v | 0 <= v < |views| ::
      match fates[v]
      case Young(at, _) => now <= at
      case Refreshed(at) => now - at <= views[v].refreshIntervalMinutes * MINUTE
      case Raced => true
      case Broken => true
  }

  lemma {:induction false} TrackedSoonAfter(views: seq<MaterializedView>, script: seq<Script>, c: Call)
    requires |views| == |script| == |c.world.tracked| && AllTracked(views, script, c, |views|)
    requires NoneBusy(c, script) && SoonAfter(views, c.fates, c.world.clock)
    ensures NoneDue(c.world, views, |views|)
  {
    forall v | 0 <= v < |views|
      ensures TrackedWithin(c.world.tracked[v], c.world.clock, views[v])
    {
      assert StaysTracked(views[v], c.fates[v], c.world.tracked[v]);
    }
  }

  /** A call that returned `Ok` without meeting another operation has done its work: each view is
      tracked at most its interval ago, and an undisturbed, unforced call right after it finds every
      view young and changes nothing. */
  lemma {:induction false} NextCallIsIdle(w: World, views: seq<MaterializedView>, q: Request, c: Call,
                                          script: seq<Script>)
    requires Consistent(w) && |views| == |q.script| == |script| == |w.taken|
    requires c == RunRequest(w, views, q) && Succeeds(q, c) && NoneBusy(c, q.script)
    requires SoonAfter(views, c.fates, c.world.clock)
    requires forall v | 0 <= v < |views| :: Quiet(script[v])
    ensures forall v | 0 <= v < |views| ::
      && c.world.tracked[v].Some?
      && c.world.clock - c.world.tracked[v].value.lastRefresh <= views[v].refreshIntervalMinutes * MINUTE
    ensures var d := VisitAll(c.world, views, false, script, |views|);
      d.world == c.world && AllYoung(d, |views|)
  {
    CallsAreTracked(w, views, q.force, q.script, |views|, c);
    TrackedSoonAfter(views, q.script, c);
    RefreshesOnlyDueViews(c.world, views, script, |views|);
  }

  // ---------- whole histories ----------

  /** What can happen next: a call of this backend, or a move of time or of another backend. */
  datatype Step = Elsewhere(move: Move) | Refreshing(request: Request)

  /** Right after the views were created: data is there, and nothing is tracked. */
  predicate Initial(w: World, n: nat) {
    && |w.taken| == |w.tracked| == n
    && forall v | 0 <= v < n :: w.taken[v] <= w.clock && w.tracked[v].None?
  }

  predicate Fits(w: World, views: seq<MaterializedView>, s: Step) {
    |w.taken| == |w.tracked| == |views| && (s.Refreshing? ==> |s.request.script| == |views|)
  }

  function AfterStep(w: World, views: seq<MaterializedView>, s: Step): World
    requires Fits(w, views, s)
  {
    match s
    case Elsewhere(move) => AfterMove(w, move)
    case Refreshing(request) => RunRequest(w, views, request).world
  }

  ghost predicate StepAt(views: seq<MaterializedView>, steps: seq<Step>, ws: seq<World>, k: nat)
    requires k < |steps| && |ws| == |steps| + 1
  {
    Fits(ws[k], views, steps[k]) && ws[k + 1] == AfterStep(ws[k], views, steps[k])
  }

  /** `ws` are the worlds that a history of calls, successful or not, and of moves passes through. */
  ghost predicate IsHistory(views: seq<MaterializedView>, steps: seq<Step>, ws: seq<World>) {
    && |ws| == |steps| + 1
    && Initial(ws[0], |views|)
    && forall k {:trigger StepAt(views, steps, ws, k)} | 0 <= k < |steps| :: StepAt(views, steps, ws, k)
  }

  lemma {:induction false} LaterIsReflexive(w: World)
    ensures Later(w, w)
  {
  }

  lemma {:induction false} RequestIsSafe(w: World, views: seq<MaterializedView>, q: Request, c: Call)
    requires Consistent(w) && |views| == |q.script| == |w.taken| && c == RunRequest(w, views, q)
    ensures Consistent(c.world) && Later(w, c.world)
  {
    if q.acquired {
      CallIsSafe(w, views, q.force, q.script, |views|, c);
    } else {
      LaterIsReflexive(w);
    }
  }

  lemma {:induction false} StepIsSafe(views: seq<MaterializedView>, steps: seq<Step>, ws: seq<World>, k: nat)
    requires IsHistory(views, steps, ws) && k < |steps| && Consistent(ws[k])
    ensures Consistent(ws[k + 1]) && Later(ws[k], ws[k + 1])
  {
    assert StepAt(views, steps, ws, k);
    match steps[k] {
      case Elsewhere(move) => MoveIsSafe(ws[k], move);
      case Refreshing(request) => RequestIsSafe(ws[k], views, request, RunRequest(ws[k], views, request));
    }
  }

  /** Over whole histories: a tracked refresh time is never later than the latest actual refresh plus its
      bookkeeping delay. */
  lemma {:induction false} HistoryIsConsistent(views: seq<MaterializedView>, steps: seq<Step>, ws: seq<World>, k: nat)
    requires IsHistory(views, steps, ws) && k <= |steps|
    ensures Consistent(ws[k])
  {
    if k > 0 {
      HistoryIsConsistent(views, steps, ws, k - 1);
      StepIsSafe(views, steps, ws, k - 1);
    }
  }

  lemma {:induction false} HistoryMovesForward(views: seq<MaterializedView>, steps: seq<Step>, ws: seq<World>,
                                               j: nat, k: nat)
    requires IsHistory(views, steps, ws) && j <= k <= |steps|
    ensures Later(ws[j], ws[k])
  {
    if j == k {
      LaterIsReflexive(ws[j]);
    } else {
      HistoryMovesForward(views, steps, ws, j, k - 1);
      HistoryIsConsistent(views, steps, ws, k - 1);
      StepIsSafe(views, steps, ws, k - 1);
      LaterIsTransitive(ws[j], ws[k - 1], ws[k]);
    }
  }

  lemma {:induction false} SuccessKeepsAll(w: World, views: seq<MaterializedView>, q: Request, c: Call)
    requires Consistent(w) && |views| == |q.script| == |w.taken| && c == RunRequest(w, views, q) && Succeeds(q, c)
    ensures AllKept(views, q.force, w, c, |views|)
  {
    ViewsAreFreshEnough(w, views, q.force, q.script, |views|);
  }

  /** Staleness over whole histories: after any call that returns `Ok`, in the world it leaves and in every
      later one, each view keeps the promise of its outcome, every view has an outcome, and the tracking
      rows show it. */
  lemma {:induction false} OkCallsKeepPromises(views: seq<MaterializedView>, steps: seq<Step>, ws: seq<World>,
                                               k: nat, j: nat, v: nat)
    requires IsHistory(views, steps, ws) && k < j <= |steps| && v < |views| && steps[k].Refreshing?
    requires Fits(ws[k], views, steps[k])
    requires Succeeds(steps[k].request, RunRequest(ws[k], views, steps[k].request))
    ensures |ws[j].taken| == |views|
    ensures |ws[j].tracked| == |views|
    ensures var c := RunRequest(ws[k], views, steps[k].request);
      && c.world == ws[k + 1] && AllKept(views, steps[k].request.force, ws[k], c, |views|)
      && KeepsPromise(views[v], c.fates[v], ws[k], v, ws[j])
      && ((c.fates[v].Refreshed? ==> steps[k].request.script[v].count.Done?)
          ==> StaysTracked(views[v], c.fates[v], ws[j].tracked[v]))
  {
    var c := RunRequest(ws[k], views, steps[k].request);
    assert StepAt(views, steps, ws, k);
    HistoryIsConsistent(views, steps, ws, k);
    SuccessKeepsAll(ws[k], views, steps[k].request, c);
    CallsAreTracked(ws[k], views, steps[k].request.force, steps[k].request.script, |views|, c);
    HistoryMovesForward(views, steps, ws, k + 1, j);
  }
}
