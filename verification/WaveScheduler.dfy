/** Dependency-ordered wave scheduling with a parallelism cap and
    nondeterministic completion (`SAGEOrchestrator.run_wave`).

    A wave is a list of agents.  One round of the scheduler launches ready agents
    into the free slots, waits until at least one running agent has finished, and
    moves every finished agent, failed or not, to the completed set.  The environment's choice
    of which agents finish in a round, and how, is the round's `wait`: a map from agent
    ids to outcomes.  Agent ids are the keys of both dictionaries of the program, so
    everything below allows two agents to carry one id unless it says `DistinctIds`.
 */
module WaveScheduler {

  type AgentId = string

  datatype AgentTask = AgentTask(agentId: AgentId, dependencies: seq<AgentId>)

  datatype WaveDeployment = WaveDeployment(agents: seq<AgentTask>, maxParallelization: int)

  /** What awaiting an agent's task gives: its result, or the exception it raised. */
  datatype Outcome = Returned(result: string) | Raised(error: string)

  /** An entry of the `running_tasks` dictionary: its key, and whose task it holds. */
  datatype Task = Task(agentId: AgentId, position: nat)

  /** The local variables of `run_wave`.  `running` is a dictionary in insertion order, and
      `launched` lists the positions of the agents started so far. */
  datatype Progress = Progress(
    completed: set<AgentId>,
    running: seq<Task>,
    results: map<AgentId, Outcome>,
    launched: seq<nat>)

  const START := Progress({}, [], map[], [])

  type Wait = map<AgentId, Outcome>

  // ---------- the scheduler, as functions ----------

  predicate CheckDependencies(agent: AgentTask, completed: set<AgentId>) {
    forall dep <- agent.dependencies :: dep in completed
  }

  predicate HasKey(tasks: seq<Task>, id: AgentId) {
    exists t <- tasks :: t.agentId == id
  }

  predicate Eligible(w: WaveDeployment, p: Progress, i: nat)
    requires i < |w.agents|
  {
    && w.agents[i].agentId !in p.completed
    && !HasKey(p.running, w.agents[i].agentId)
    && CheckDependencies(w.agents[i], p.completed)
  }

  /** The positions of the agents that can run, in wave order. */
  function Ready(w: WaveDeployment, p: Progress, from: nat := 0): (r: seq<nat>)
    requires from <= |w.agents|
    ensures forall a | 0 <= a < |r| :: from <= r[a] < |w.agents| && Eligible(w, p, r[a])
    ensures forall i | from <= i < |w.agents| && Eligible(w, p, i) :: i in r
    ensures forall a, b | 0 <= a < b < |r| :: r[a] < r[b]
    decreases |w.agents| - from
  {
    if from == |w.agents| then []
    else (if Eligible(w, p, from) then [from] else []) + Ready(w, p, from + 1)
  }

  /** Python's `s[:k]`, where a negative `k` drops elements from the end. */
  function PythonPrefix<T>(s: seq<T>, k: int): (r: seq<T>)
    ensures r <= s
    ensures 0 <= k ==> |r| == if k <= |s| then k else |s|
    ensures k < 0 ==> |r| == if -k <= |s| then |s| + k else 0
  {
    if 0 <= k then s[..if k <= |s| then k else |s|]
    else if |s| + k <= 0 then []
    else s[..|s| + k]
  }

  function ToLaunch(w: WaveDeployment, p: Progress): seq<nat> {
    PythonPrefix(Ready(w, p), w.maxParallelization - |p.running|)
  }

  /** Python's `tasks[t.agentId] = t`: a key that is present keeps its place. */
  function Put(tasks: seq<Task>, t: Task): seq<Task> {
    if HasKey(tasks, t.agentId) then
      seq(|tasks|, k requires 0 <= k < |tasks| => if tasks[k].agentId == t.agentId then t else tasks[k])
    else tasks + [t]
  }

  function Launch(w: WaveDeployment, p: Progress, todo: seq<nat>): Progress
    requires forall a | 0 <= a < |todo| :: todo[a] < |w.agents|
  {
    if todo == [] then p
    else
      var i := todo[|todo| - 1];
      var q := Launch(w, p, todo[..|todo| - 1]);
      q.(running := Put(q.running, Task(w.agents[i].agentId, i)), launched := q.launched + [i])
  }

  /** Takes every task that is done out of `running`, whatever its outcome. */
  function Settle(p: Progress, tasks: seq<Task>, wait: Wait): Progress {
    if tasks == [] then p.(running := [])
    else
      var t := tasks[|tasks| - 1];
      var q := Settle(p, tasks[..|tasks| - 1], wait);
      if t.agentId in wait then
        q.(completed := q.completed + {t.agentId}, results := q.results[t.agentId := wait[t.agentId]])
      else q.(running := q.running + [t])
  }

  function Finish(p: Progress, wait: Wait): Progress {
    Settle(p, p.running, wait)
  }

  /** The state in which a round waits. */
  function Waiting(w: WaveDeployment, p: Progress): Progress {
    Launch(w, p, ToLaunch(w, p))
  }

  function Round(w: WaveDeployment, p: Progress, wait: Wait): Progress {
    Finish(Waiting(w, p), wait)
  }

  predicate Exited(w: WaveDeployment, p: Progress) {
    |p.completed| >= |w.agents|
  }

  /** `asyncio.wait(FIRST_COMPLETED)` returns only when some running task is done. */
  predicate LegalWait(w: WaveDeployment, p: Progress, wait: Wait) {
    var running := Waiting(w, p).running;
    running != [] ==> exists t <- running :: t.agentId in wait
  }

  /** Round `k` of a run leads from state `k` to state `k + 1`; the loop guard was true. */
  ghost predicate RoundAt(w: WaveDeployment, waits: seq<Wait>, ps: seq<Progress>, k: nat)
    requires k < |waits| && |ps| == |waits| + 1
  {
    !Exited(w, ps[k]) && LegalWait(w, ps[k], waits[k]) && ps[k + 1] == Round(w, ps[k], waits[k])
  }

  /** `ps` are the states a wave passes through when its rounds are driven by `waits`. */
  ghost predicate IsRun(w: WaveDeployment, waits: seq<Wait>, ps: seq<Progress>) {
    && |ps| == |waits| + 1
    && ps[0] == START
    && forall k {:trigger RoundAt(w, waits, ps, k)} | 0 <= k < |waits| :: RoundAt(w, waits, ps, k)
  }

  // ---------- the scheduler, as the program runs it ----------

  /** Starts the agents at the given positions, one task each. */
  method StartAgents(w: WaveDeployment, p: Progress, agentsToRun: seq<nat>) returns (q: Progress)
    requires forall a | 0 <= a < |agentsToRun| :: agentsToRun[a] < |w.agents|
    ensures q == Launch(w, p, agentsToRun)
  {
    q := p;
    for a := 0 to |agentsToRun|
      invariant q == Launch(w, p, agentsToRun[..a])
    {
      assert agentsToRun[..a + 1][..a] == agentsToRun[..a];
      var i := agentsToRun[a];
      q := q.(running := Put(q.running, Task(w.agents[i].agentId, i)), launched := q.launched + [i]);
    }
    assert agentsToRun[..|agentsToRun|] == agentsToRun;
  }

  /** Processes the tasks that are done, over a copy of the running dictionary. */
  method ProcessDone(p: Progress, wait: Wait) returns (q: Progress)
    ensures q == Finish(p, wait)
  {
    var items := p.running;
    q := p.(running := []);
    for a := 0 to |items|
      invariant q == Settle(p, items[..a], wait)
    {
      assert items[..a + 1][..a] == items[..a];
      var id := items[a].agentId;
      if id in wait {
        q := q.(completed := q.completed + {id}, results := q.results[id := wait[id]]);
      } else {
        q := q.(running := q.running + [items[a]]);
      }
    }
    assert items[..|items|] == items;
  }

  /** One iteration of the loop. */
  method RunRound(w: WaveDeployment, p: Progress, wait: Wait) returns (q: Progress)
    ensures q == Round(w, p, wait)
  {
    var readyAgents := Ready(w, p);
    var slotsAvailable := w.maxParallelization - |p.running|;
    q := StartAgents(w, p, PythonPrefix(readyAgents, slotsAvailable));
    q := ProcessDone(q, wait);
  }

  /** `run_wave`, as long as the environment's `waits` last or until an `await` would not return. */
  method RunWave(w: WaveDeployment, waits: seq<Wait>) returns (p: Progress, rounds: nat, ghost ps: seq<Progress>)
    ensures rounds <= |waits| && IsRun(w, waits[..rounds], ps) && p == ps[rounds]
    ensures Exited(w, p) || rounds == |waits| || !LegalWait(w, p, waits[rounds])
  {
    p, rounds, ps := START, 0, [START];
    while |p.completed| < |w.agents| && rounds < |waits|
      invariant rounds <= |waits| && IsRun(w, waits[..rounds], ps) && p == ps[rounds]
      decreases |waits| - rounds
    {
      if !LegalWait(w, p, waits[rounds]) {
        break;
      }
      var q := RunRound(w, p, waits[rounds]);
      NextPrefix(w, waits, rounds, ps, p, q);
      p, rounds, ps := q, rounds + 1, ps + [q];
    }
  }

  lemma {:induction false} NextPrefix(w: WaveDeployment, waits: seq<Wait>, n: nat, ps: seq<Progress>,
                                      p: Progress, q: Progress)
    requires n < |waits| && IsRun(w, waits[..n], ps) && p == ps[n]
    requires !Exited(w, p) && LegalWait(w, p, waits[n]) && q == Round(w, p, waits[n])
    ensures IsRun(w, waits[..n + 1], ps + [q])
  {
    ExtendRun(w, waits[..n], ps, waits[n]);
    assert waits[..n + 1] == waits[..n] + [waits[n]];
  }

  lemma {:induction false} ExtendRun(w: WaveDeployment, waits: seq<Wait>, ps: seq<Progress>, wait: Wait)
    requires IsRun(w, waits, ps)
    requires !Exited(w, ps[|waits|]) && LegalWait(w, ps[|waits|], wait)
    ensures IsRun(w, waits + [wait], ps + [Round(w, ps[|waits|], wait)])
  {
    var waits', ps' := waits + [wait], ps + [Round(w, ps[|waits|], wait)];
    forall k | 0 <= k < |waits'|
      ensures RoundAt(w, waits', ps', k)
    {
      if k < |waits| {
        EarlierRound(w, waits, ps, waits', ps', k);
      } else {
        assert ps'[k] == ps[k] && ps'[k + 1] == Round(w, ps[k], wait) && waits'[k] == wait;
      }
    }
  }

  lemma {:induction false} EarlierRound(w: WaveDeployment, waits: seq<Wait>, ps: seq<Progress>,
                                        waits': seq<Wait>, ps': seq<Progress>, k: nat)
    requires IsRun(w, waits, ps) && k < |waits| < |waits'| && |ps'| == |waits'| + 1
    requires waits'[k] == waits[k] && ps'[k] == ps[k] && ps'[k + 1] == ps[k + 1]
    ensures RoundAt(w, waits', ps', k)
  {
    assert RoundAt(w, waits, ps, k);
  }

  // ---------- what one round does ----------

  ghost predicate UniqueKeys(tasks: seq<Task>) {
    forall a, b | 0 <= a < b < |tasks| :: tasks[a].agentId != tasks[b].agentId
  }

  ghost predicate DistinctIds(w: WaveDeployment) {
    forall i, j | 0 <= i < j < |w.agents| :: w.agents[i].agentId != w.agents[j].agentId
  }

  lemma {:induction false} PutEffect(tasks: seq<Task>, t: Task)
    requires UniqueKeys(tasks)
    ensures UniqueKeys(Put(tasks, t))
    ensures forall id :: HasKey(Put(tasks, t), id) <==> HasKey(tasks, id) || id == t.agentId
    ensures forall u <- Put(tasks, t) :: u == t || u in tasks
    ensures |Put(tasks, t)| == |tasks| + if HasKey(tasks, t.agentId) then 0 else 1
  {
    var r := Put(tasks, t);
    forall id
      ensures HasKey(r, id) <==> HasKey(tasks, id) || id == t.agentId
    {
      if HasKey(tasks, id) {
        var k :| 0 <= k < |tasks| && tasks[k].agentId == id;
        assert r[k] in r && r[k].agentId == id;
      }
      if id == t.agentId {
        assert t in r || HasKey(tasks, id);
      }
      if HasKey(r, id) {
        var k :| 0 <= k < |r| && r[k].agentId == id;
        assert k < |tasks| ==> tasks[k] in tasks;
      }
    }
  }

  lemma {:induction false} LaunchEffect(w: WaveDeployment, p: Progress, todo: seq<nat>)
    requires forall a | 0 <= a < |todo| :: todo[a] < |w.agents|
    requires UniqueKeys(p.running)
    ensures var q := Launch(w, p, todo);
      && q.completed == p.completed && q.results == p.results && q.launched == p.launched + todo
      && UniqueKeys(q.running)
      && |p.running| <= |q.running| <= |p.running| + |todo|
      && (forall id :: HasKey(q.running, id) <==>
            HasKey(p.running, id) || exists i <- todo :: w.agents[i].agentId == id)
      && (forall t <- q.running ::
            t in p.running || (t.position in todo && w.agents[t.position].agentId == t.agentId))
  {
    if todo != [] {
      var front, i := todo[..|todo| - 1], todo[|todo| - 1];
      assert todo == front + [i];
      LaunchEffect(w, p, front);
      PutEffect(Launch(w, p, front).running, Task(w.agents[i].agentId, i));
    }
  }

  lemma {:induction false} SettleEffect(p: Progress, tasks: seq<Task>, wait: Wait)
    requires UniqueKeys(tasks)
    ensures var q := Settle(p, tasks, wait);
      && q.launched == p.launched
      && UniqueKeys(q.running) && |q.running| <= |tasks|
      && (forall t :: t in q.running <==> t in tasks && t.agentId !in wait)
      && (forall id :: id in q.completed <==> id in p.completed || (HasKey(tasks, id) && id in wait))
      && (forall id :: id in q.results <==> id in p.results || (HasKey(tasks, id) && id in wait))
  {
    if tasks != [] {
      var front, t := tasks[..|tasks| - 1], tasks[|tasks| - 1];
      assert tasks == front + [t];
      SettleEffect(p, front, wait);
    }
  }

  lemma {:induction false} SettleResults(p: Progress, tasks: seq<Task>, wait: Wait, id: AgentId)
    requires UniqueKeys(tasks)
    ensures HasKey(tasks, id) && id in wait ==>
      id in Settle(p, tasks, wait).results && Settle(p, tasks, wait).results[id] == wait[id]
    ensures !HasKey(tasks, id) && id in p.results ==>
      id in Settle(p, tasks, wait).results && Settle(p, tasks, wait).results[id] == p.results[id]
  {
    if tasks != [] {
      var front, t := tasks[..|tasks| - 1], tasks[|tasks| - 1];
      assert tasks == front + [t];
      SettleResults(p, front, wait, id);
    }
  }

  // ---------- safety, over every run ----------

  /** The running dictionary: within the cap, disjoint from the completed agents, and each
      entry holds the task of a launched agent with the entry's id. */
  ghost predicate TasksAreSafe(w: WaveDeployment, p: Progress) {
    && UniqueKeys(p.running)
    && (0 <= w.maxParallelization ==> |p.running| <= w.maxParallelization)
    && (forall t <- p.running :: t.agentId !in p.completed && t.position in p.launched
          && t.position < |w.agents| && w.agents[t.position].agentId == t.agentId)
  }

  /** Every agent was launched at most once, only with its dependencies finished, and is
      now running or finished. */
  ghost predicate StartsAreSafe(w: WaveDeployment, p: Progress) {
    && (forall a, b | 0 <= a < b < |p.launched| :: p.launched[a] != p.launched[b])
    && (forall i <- p.launched :: i < |w.agents| && CheckDependencies(w.agents[i], p.completed)
          && (w.agents[i].agentId in p.completed || HasKey(p.running, w.agents[i].agentId)))
  }

  /** Finished agents have a result, were launched, and nothing else has a result. */
  ghost predicate ResultsAreSafe(w: WaveDeployment, p: Progress) {
    && (forall id :: id in p.results <==> id in p.completed)
    && (forall id <- p.completed :: exists i <- p.launched :: i < |w.agents| && w.agents[i].agentId == id)
  }

  ghost predicate Safe(w: WaveDeployment, p: Progress) {
    TasksAreSafe(w, p) && StartsAreSafe(w, p) && ResultsAreSafe(w, p)
  }

  lemma {:induction false} WaitingTasks(w: WaveDeployment, p: Progress)
    requires TasksAreSafe(w, p)
    ensures TasksAreSafe(w, Waiting(w, p))
  {
    var todo, q := ToLaunch(w, p), Waiting(w, p);
    LaunchEffect(w, p, todo);
    forall t <- q.running
      ensures t.agentId !in q.completed && t.position in q.launched
      ensures t.position < |w.agents| && w.agents[t.position].agentId == t.agentId
    {
      if t !in p.running {
        assert Eligible(w, p, t.position);
      }
    }
  }

  lemma {:induction false} WaitingStarts(w: WaveDeployment, p: Progress)
    requires TasksAreSafe(w, p) && StartsAreSafe(w, p)
    ensures StartsAreSafe(w, Waiting(w, p))
  {
    var todo, q := ToLaunch(w, p), Waiting(w, p);
    LaunchEffect(w, p, todo);
    forall i <- q.launched
      ensures i < |w.agents| && CheckDependencies(w.agents[i], q.completed)
      ensures w.agents[i].agentId in q.completed || HasKey(q.running, w.agents[i].agentId)
    {
      if i !in p.launched {
        assert i in todo && Eligible(w, p, i);
      }
    }
  }

  lemma {:induction false} WaitingIsSafe(w: WaveDeployment, p: Progress)
    requires Safe(w, p)
    ensures Safe(w, Waiting(w, p))
  {
    var q := Waiting(w, p);
    WaitingTasks(w, p);
    WaitingStarts(w, p);
    LaunchEffect(w, p, ToLaunch(w, p));
    forall id <- q.completed
      ensures exists i <- q.launched :: i < |w.agents| && w.agents[i].agentId == id
    {
      var i :| i in p.launched && i < |w.agents| && w.agents[i].agentId == id;
      assert i in q.launched;
    }
  }

  lemma {:induction false} FinishStarts(w: WaveDeployment, p: Progress, wait: Wait)
    requires TasksAreSafe(w, p) && StartsAreSafe(w, p)
    ensures StartsAreSafe(w, Finish(p, wait))
  {
    var q := Finish(p, wait);
    SettleEffect(p, p.running, wait);
    forall i <- q.launched
      ensures CheckDependencies(w.agents[i], q.completed)
      ensures w.agents[i].agentId in q.completed || HasKey(q.running, w.agents[i].agentId)
    {
      var id := w.agents[i].agentId;
      if id !in p.completed {
        var t :| t in p.running && t.agentId == id;
        assert t.agentId !in wait ==> t in q.running;
      }
    }
  }

  lemma {:induction false} FinishIsSafe(w: WaveDeployment, p: Progress, wait: Wait)
    requires Safe(w, p)
    ensures Safe(w, Finish(p, wait))
  {
    var q := Finish(p, wait);
    FinishStarts(w, p, wait);
    SettleEffect(p, p.running, wait);
    forall id <- q.completed
      ensures exists i <- q.launched :: i < |w.agents| && w.agents[i].agentId == id
    {
      if id !in p.completed {
        var t :| t in p.running && t.agentId == id;
        assert t.position in q.launched;
      }
    }
  }

  /** Safety over every run, whatever the wave, the cap and the completion order. */
  lemma {:induction false} RunsAreSafe(w: WaveDeployment, waits: seq<Wait>, ps: seq<Progress>, k: nat)
    requires IsRun(w, waits, ps) && k <= |waits|
    ensures Safe(w, ps[k]) && Safe(w, Waiting(w, ps[k]))
  {
    if k > 0 {
      RunsAreSafe(w, waits, ps, k - 1);
      assert RoundAt(w, waits, ps, k - 1);
      FinishIsSafe(w, Waiting(w, ps[k - 1]), waits[k - 1]);
    }
    WaitingIsSafe(w, ps[k]);
  }

  /** The log of starts only grows, and what a round adds to it was ready when the round began. */
  lemma {:induction false} LaunchesOnlyReadyAgents(w: WaveDeployment, waits: seq<Wait>, ps: seq<Progress>, k: nat,
                                                   i: nat)
    requires IsRun(w, waits, ps) && k < |waits|
    ensures ps[k].launched <= ps[k + 1].launched
    ensures i in ps[k + 1].launched && i !in ps[k].launched ==> i < |w.agents| && Eligible(w, ps[k], i)
  {
    RunsAreSafe(w, waits, ps, k);
    assert RoundAt(w, waits, ps, k);
    LaunchEffect(w, ps[k], ToLaunch(w, ps[k]));
    SettleEffect(Waiting(w, ps[k]), Waiting(w, ps[k]).running, waits[k]);
  }

  predicate AscendsFrom(positions: seq<nat>, n: nat) {
    forall a, b | n <= a < b < |positions| :: positions[a] < positions[b]
  }

  /** Free slots go to the ready agents in wave order: an agent `i` that a round starts has no ready agent
      `j` before it that the round leaves out, and the round starts its agents from left to right. */
  lemma {:induction false} SlotsGoInWaveOrder(w: WaveDeployment, waits: seq<Wait>, ps: seq<Progress>, k: nat,
                                              i: nat, j: nat)
    requires IsRun(w, waits, ps) && k < |waits|
    ensures i in ps[k + 1].launched && i !in ps[k].launched && j < i < |w.agents| && Eligible(w, ps[k], j) ==>
              j in ps[k + 1].launched
    ensures ps[k].launched <= ps[k + 1].launched
    ensures AscendsFrom(ps[k + 1].launched, |ps[k].launched|)
  {
    LaunchedAfterRound(w, waits, ps, k);
    if i in ps[k + 1].launched && i !in ps[k].launched && j < i < |w.agents| {
      EarlierReadyFirst(w, ps[k], i, j);
    }
  }

  lemma {:induction false} EarlierInPrefix(todo: seq<nat>, r: seq<nat>, i: nat, j: nat)
    requires todo <= r && AscendsFrom(r, 0) && i in todo && j in r && j < i
    ensures j in todo
  {
    var a :| 0 <= a < |todo| && todo[a] == i;
    var b :| 0 <= b < |r| && r[b] == j;
    assert todo[a] == r[a];
    assert b < a;
    assert todo[b] == r[b];
  }

  lemma {:induction false} EarlierReadyFirst(w: WaveDeployment, p: Progress, i: nat, j: nat)
    requires i in ToLaunch(w, p) && j < i
    ensures i < |w.agents| && (Eligible(w, p, j) ==> j in ToLaunch(w, p))
  {
    var r := Ready(w, p);
    assert i in r;
    if Eligible(w, p, j) {
      EarlierInPrefix(ToLaunch(w, p), r, i, j);
    }
  }

  /** An agent is finished from the round on that reports its task, and its result stays what that
      round's wait reported. */
  ghost predicate FinishedIn(waits: seq<Wait>, ps: seq<Progress>, id: AgentId, j: nat)
    requires |ps| == |waits| + 1
  {
    j < |waits| && id !in ps[j].completed && id in ps[j + 1].completed && id in waits[j]
  }

  lemma {:induction false} ResultsAreOutcomes(w: WaveDeployment, waits: seq<Wait>, ps: seq<Progress>, k: nat,
                                              id: AgentId)
      returns (j: nat)
    requires IsRun(w, waits, ps) && k <= |waits| && id in ps[k].completed
    ensures j < k && FinishedIn(waits, ps, id, j)
    ensures id in ps[k].results && ps[k].results[id] == waits[j][id]
    decreases k
  {
    ResultsAfterStep(w, waits, ps, k - 1, id);
    if id in ps[k - 1].completed {
      j := ResultsAreOutcomes(w, waits, ps, k - 1, id);
    } else {
      j := k - 1;
    }
  }

  lemma {:induction false} ResultsAfterStep(w: WaveDeployment, waits: seq<Wait>, ps: seq<Progress>, k: nat, id: AgentId)
    requires IsRun(w, waits, ps) && k < |waits| && id in ps[k + 1].completed
    ensures id in ps[k + 1].results
    ensures if id in ps[k].completed then id in ps[k].results && ps[k + 1].results[id] == ps[k].results[id]
            else id in waits[k] && ps[k + 1].results[id] == waits[k][id]
  {
    RunsAreSafe(w, waits, ps, k);
    assert RoundAt(w, waits, ps, k);
    ResultsAfterRound(w, ps[k], waits[k], id);
  }

  lemma {:induction false} ResultsAfterRound(w: WaveDeployment, p: Progress, wait: Wait, id: AgentId)
    requires TasksAreSafe(w, p) && ResultsAreSafe(w, p) && id in Round(w, p, wait).completed
    ensures id in Round(w, p, wait).results
    ensures if id in p.completed then id in p.results && Round(w, p, wait).results[id] == p.results[id]
            else id in wait && Round(w, p, wait).results[id] == wait[id]
  {
    var q := Waiting(w, p);
    WaitingTasks(w, p);
    LaunchEffect(w, p, ToLaunch(w, p));
    SettleEffect(q, q.running, wait);
    SettleResults(q, q.running, wait, id);
  }

  /** Some agent of `todo` has the given id. */
  ghost predicate Carries(w: WaveDeployment, todo: seq<nat>, id: AgentId) {
    exists i <- todo :: i < |w.agents| && w.agents[i].agentId == id
  }

  /** Two agents of `todo` share an id. */
  ghost predicate RepeatsId(w: WaveDeployment, todo: seq<nat>)
    requires forall a | 0 <= a < |todo| :: todo[a] < |w.agents|
  {
    exists a, b | 0 <= a < b < |todo| :: w.agents[todo[a]].agentId == w.agents[todo[b]].agentId
  }

  /** Some ready agent has an id that none of the agents to launch carries. */
  ghost predicate LeavesOut(w: WaveDeployment, p: Progress) {
    exists i <- Ready(w, p) :: !Carries(w, ToLaunch(w, p), w.agents[i].agentId)
  }

  /** The round that starts in `p` waits with a free slot next to a ready agent. */
  ghost predicate WastesASlot(w: WaveDeployment, p: Progress) {
    && |Waiting(w, p).running| < w.maxParallelization
    && exists i: nat | i < |w.agents| :: Eligible(w, Waiting(w, p), i)
  }

  lemma {:induction false} RepeatsAppend(w: WaveDeployment, front: seq<nat>, i: nat)
    requires i < |w.agents| && forall a | 0 <= a < |front| :: front[a] < |w.agents|
    ensures RepeatsId(w, front + [i]) <==> RepeatsId(w, front) || Carries(w, front, w.agents[i].agentId)
  {
    var todo := front + [i];
    assert forall a | 0 <= a < |front| :: todo[a] == front[a];
    if Carries(w, front, w.agents[i].agentId) {
      var a :| 0 <= a < |front| && w.agents[front[a]].agentId == w.agents[i].agentId;
      assert todo[a] == front[a] && todo[|front|] == i;
    }
    if RepeatsId(w, todo) {
      var a, b :| 0 <= a < b < |todo| && w.agents[todo[a]].agentId == w.agents[todo[b]].agentId;
      assert todo[a] in front;
    }
  }

  /** Each launch takes a slot of its own exactly as long as no id repeats. */
  lemma {:induction false} LaunchCount(w: WaveDeployment, p: Progress, todo: seq<nat>)
    requires UniqueKeys(p.running)
    requires forall a | 0 <= a < |todo| :: todo[a] < |w.agents| && Eligible(w, p, todo[a])
    ensures |Launch(w, p, todo).running| <= |p.running| + |todo|
    ensures |Launch(w, p, todo).running| == |p.running| + |todo| <==> !RepeatsId(w, todo)
  {
    if todo != [] {
      var front, i := todo[..|todo| - 1], todo[|todo| - 1];
      assert todo == front + [i];
      LaunchCount(w, p, front);
      LaunchEffect(w, p, front);
      PutEffect(Launch(w, p, front).running, Task(w.agents[i].agentId, i));
      RepeatsAppend(w, front, i);
    }
  }

  lemma {:induction false} EligibleAfterLaunch(w: WaveDeployment, p: Progress, todo: seq<nat>, i: nat)
    requires UniqueKeys(p.running) && i < |w.agents|
    requires forall a | 0 <= a < |todo| :: todo[a] < |w.agents|
    ensures Eligible(w, Launch(w, p, todo), i) <==> Eligible(w, p, i) && !Carries(w, todo, w.agents[i].agentId)
  {
    LaunchEffect(w, p, todo);
  }

  /** When an agent is left out, the slots ran out. */
  lemma {:induction false} LeftOutOfSlots(w: WaveDeployment, p: Progress)
    requires |p.running| <= w.maxParallelization && LeavesOut(w, p)
    ensures |ToLaunch(w, p)| == w.maxParallelization - |p.running|
  {
    var i :| i in Ready(w, p) && !Carries(w, ToLaunch(w, p), w.agents[i].agentId);
    assert i !in ToLaunch(w, p);
  }

  lemma {:induction false} StillEligible(w: WaveDeployment, p: Progress, i: nat)
    requires UniqueKeys(p.running) && i < |w.agents|
    ensures Eligible(w, Waiting(w, p), i)
       <==> i in Ready(w, p) && !Carries(w, ToLaunch(w, p), w.agents[i].agentId)
  {
    EligibleAfterLaunch(w, p, ToLaunch(w, p), i);
  }

  lemma {:induction false} WastedIffLeftOut(w: WaveDeployment, p: Progress)
    requires UniqueKeys(p.running)
    ensures (exists i: nat | i < |w.agents| :: Eligible(w, Waiting(w, p), i)) <==> LeavesOut(w, p)
  {
    forall i: nat | i < |w.agents|
      ensures Eligible(w, Waiting(w, p), i)
         <==> i in Ready(w, p) && !Carries(w, ToLaunch(w, p), w.agents[i].agentId)
    {
      StillEligible(w, p, i);
    }
  }

  /** The exact condition for a wasted slot: two of the agents to launch share an id, and some ready
      agent's id is carried by none of them. */
  lemma {:induction false} SlotIsWastedIff(w: WaveDeployment, p: Progress)
    requires UniqueKeys(p.running) && |p.running| <= w.maxParallelization
    ensures WastesASlot(w, p) <==> RepeatsId(w, ToLaunch(w, p)) && LeavesOut(w, p)
  {
    WastedIffLeftOut(w, p);
    LaunchCount(w, p, ToLaunch(w, p));
    if LeavesOut(w, p) {
      LeftOutOfSlots(w, p);
    }
  }

  lemma {:induction false} SlotsAreFilled(w: WaveDeployment, p: Progress)
    requires DistinctIds(w) && UniqueKeys(p.running) && |p.running| <= w.maxParallelization
    ensures |Waiting(w, p).running| == |p.running| + |ToLaunch(w, p)|
    ensures |Waiting(w, p).running| == w.maxParallelization || ToLaunch(w, p) == Ready(w, p)
  {
    LaunchCount(w, p, ToLaunch(w, p));
  }

  /** Before each wait of every run, whatever the wave and the cap: the cap is reached or no ready agent
      is left, unless two of the agents just launched share an id and a ready id was left out.  With
      distinct ids no slot is ever wasted. */
  lemma {:induction false} WaitsOnlyWhenBusy(w: WaveDeployment, waits: seq<Wait>, ps: seq<Progress>, k: nat)
    requires IsRun(w, waits, ps) && k <= |waits|
    ensures WastesASlot(w, ps[k])
       <==> 0 <= w.maxParallelization && RepeatsId(w, ToLaunch(w, ps[k])) && LeavesOut(w, ps[k])
    ensures DistinctIds(w) ==> !WastesASlot(w, ps[k])
    ensures 0 <= w.maxParallelization ==> |Waiting(w, ps[k]).running| <= w.maxParallelization
  {
    RunsAreSafe(w, waits, ps, k);
    if 0 <= w.maxParallelization {
      SlotIsWastedIff(w, ps[k]);
    }
  }

  /** A wave whose first round wastes a slot: both copies of an agent are started, but they share one
      dictionary entry. */
  lemma {:induction false} RepeatedIdWastesASlot(w: WaveDeployment, a: AgentId, b: AgentId)
    requires a != b && w == WaveDeployment([AgentTask(a, []), AgentTask(a, []), AgentTask(b, [])], 2)
    ensures WastesASlot(w, START)
  {
    TwoAreLaunched(w, a, b);
    var todo := ToLaunch(w, START);
    assert w.agents[todo[0]].agentId == w.agents[todo[1]].agentId;
    assert Eligible(w, START, 2) && 2 in Ready(w, START);
    SlotIsWastedIff(w, START);
  }

  lemma {:induction false} TwoAreLaunched(w: WaveDeployment, a: AgentId, b: AgentId)
    requires w == WaveDeployment([AgentTask(a, []), AgentTask(a, []), AgentTask(b, [])], 2)
    ensures ToLaunch(w, START) == [0, 1]
  {
    assert Ready(w, START, 2) == [2];
    assert Ready(w, START, 1) == [1, 2];
  }

  // ---------- which agents can ever finish ----------

  ghost function Ids(w: WaveDeployment): set<AgentId> {
    set i | 0 <= i < |w.agents| :: w.agents[i].agentId
  }

  /** The ids that may run once the agents in `done` have finished. */
  ghost function Unlocked(w: WaveDeployment, done: set<AgentId>): set<AgentId> {
    set i | 0 <= i < |w.agents| && CheckDependencies(w.agents[i], done) :: w.agents[i].agentId
  }

  /** The ids whose dependencies bottom out within `k` levels. */
  ghost function Layer(w: WaveDeployment, k: nat): set<AgentId> {
    if k == 0 then {} else Unlocked(w, Layer(w, k - 1))
  }

  /** The least set that contains every agent all of whose dependencies it contains. */
  ghost function Reachable(w: WaveDeployment): set<AgentId> {
    Layer(w, |w.agents|)
  }

  lemma {:induction false} UnlockedMonotone(w: WaveDeployment, a: set<AgentId>, b: set<AgentId>)
    requires a <= b
    ensures Unlocked(w, a) <= Unlocked(w, b)
  {
    forall id <- Unlocked(w, a)
      ensures id in Unlocked(w, b)
    {
      var i :| 0 <= i < |w.agents| && CheckDependencies(w.agents[i], a) && w.agents[i].agentId == id;
      assert CheckDependencies(w.agents[i], b);
    }
  }

  lemma {:induction false} LayersGrow(w: WaveDeployment, j: nat, k: nat)
    requires j <= k
    ensures Layer(w, j) <= Layer(w, k) <= Ids(w)
  {
    if 0 < j {
      LayersGrow(w, j - 1, k - 1);
      UnlockedMonotone(w, Layer(w, j - 1), Layer(w, k - 1));
    }
  }

  lemma {:induction false} IdsAppend(w: WaveDeployment, v: WaveDeployment, last: AgentTask)
    requires w.agents == v.agents + [last]
    ensures Ids(w) == Ids(v) + {last.agentId}
  {
    assert forall i | 0 <= i < |v.agents| :: w.agents[i] == v.agents[i];
    assert w.agents[|v.agents|] == last;
  }

  lemma {:induction false} DistinctAppend(w: WaveDeployment, v: WaveDeployment, last: AgentTask)
    requires w.agents == v.agents + [last]
    ensures DistinctIds(w) <==> DistinctIds(v) && last.agentId !in Ids(v)
  {
    var n := |v.agents|;
    assert forall i | 0 <= i < n :: w.agents[i] == v.agents[i];
    assert w.agents[n] == last;
    if last.agentId in Ids(v) {
      var i :| 0 <= i < n && v.agents[i].agentId == last.agentId;
      assert w.agents[i].agentId == w.agents[n].agentId;
    }
  }

  lemma {:induction false} OneMoreId(ids: set<AgentId>, id: AgentId)
    ensures |ids + {id}| == |ids| + if id in ids then 0 else 1
  {
    if id in ids {
      assert ids + {id} == ids;
    }
  }

  lemma {:induction false} IdsBound(agents: seq<AgentTask>)
    ensures var w := WaveDeployment(agents, 0);
      |Ids(w)| <= |agents| && (|Ids(w)| == |agents| <==> DistinctIds(w))
  {
    var w := WaveDeployment(agents, 0);
    if agents == [] {
      assert Ids(w) == {};
    } else {
      var front, last := agents[..|agents| - 1], agents[|agents| - 1];
      var v := WaveDeployment(front, 0);
      IdsBound(front);
      IdsAppend(w, v, last);
      DistinctAppend(w, v, last);
      OneMoreId(Ids(v), last.agentId);
    }
  }

  /** The layers grow strictly until they stop growing. */
  lemma {:induction false} LayerSize(w: WaveDeployment, k: nat)
    ensures Layer(w, k) != Layer(w, k + 1) ==> k + 1 <= |Layer(w, k + 1)|
  {
    LayersGrow(w, k, k + 1);
    if k == 0 {
      GrowthStep({}, {}, Layer(w, 1), 0);
    } else {
      LayerSize(w, k - 1);
      GrowthStep(Layer(w, k - 1), Layer(w, k), Layer(w, k + 1), k);
    }
  }

  lemma {:induction false} GrowthStep(a: set<AgentId>, b: set<AgentId>, c: set<AgentId>, k: nat)
    requires (a == b ==> k == 0 || b == c) && (a != b ==> k <= |b|) && b <= c
    ensures b != c ==> k + 1 <= |c|
  {
    StrictSubsetIsSmaller(b, c);
  }

  lemma {:induction false} StrictSubsetIsSmaller<T>(a: set<T>, b: set<T>)
    requires a <= b
    ensures |a| <= |b| && (a != b ==> |a| < |b|)
  {
    assert b == a + (b - a);
  }

  lemma {:induction false} IdsOf(w: WaveDeployment)
    ensures |Ids(w)| <= |w.agents| && (|Ids(w)| == |w.agents| <==> DistinctIds(w))
  {
    IdsBound(w.agents);
    assert Ids(w) == Ids(WaveDeployment(w.agents, 0));
  }

  /** A set of ids is closed when it contains every agent all of whose dependencies it contains. */
  ghost predicate Closed(w: WaveDeployment, done: set<AgentId>) {
    forall i: nat | i < |w.agents| && CheckDependencies(w.agents[i], done) :: w.agents[i].agentId in done
  }

  lemma {:induction false} ReachableIsFixpoint(w: WaveDeployment)
    ensures Unlocked(w, Reachable(w)) == Reachable(w)
  {
    var n := |w.agents|;
    LayerSize(w, n);
    LayersGrow(w, n, n + 1);
    IdsOf(w);
    StrictSubsetIsSmaller(Layer(w, n + 1), Ids(w));
  }

  /** `Reachable` is the least closed set. */
  lemma {:induction false} ReachableIsLeastClosed(w: WaveDeployment, done: set<AgentId>)
    ensures Closed(w, Reachable(w))
    ensures Closed(w, done) ==> Reachable(w) <= done
  {
    ReachableIsFixpoint(w);
    forall i: nat | i < |w.agents| && CheckDependencies(w.agents[i], Reachable(w))
      ensures w.agents[i].agentId in Reachable(w)
    {
      assert w.agents[i].agentId in Unlocked(w, Reachable(w));
    }
    if Closed(w, done) {
      LayersBelowClosed(w, done, |w.agents|);
    }
  }

  lemma {:induction false} LayersBelowClosed(w: WaveDeployment, done: set<AgentId>, k: nat)
    requires Closed(w, done)
    ensures Layer(w, k) <= done
  {
    if k > 0 {
      LayersBelowClosed(w, done, k - 1);
      UnlockedMonotone(w, Layer(w, k - 1), done);
    }
  }

  lemma {:induction false} LaunchedInLayer(w: WaveDeployment, waits: seq<Wait>, ps: seq<Progress>, k: nat, i: nat)
    requires IsRun(w, waits, ps) && k < |waits| && ps[k].completed <= Layer(w, k)
    requires i in ps[k + 1].launched && i !in ps[k].launched
    ensures i < |w.agents| && w.agents[i].agentId in Layer(w, k + 1)
  {
    LaunchesOnlyReadyAgents(w, waits, ps, k, i);
    UnlockedMonotone(w, ps[k].completed, Layer(w, k));
    assert w.agents[i].agentId in Unlocked(w, ps[k].completed);
  }

  lemma {:induction false} CompletedWithin(w: WaveDeployment, p: Progress, ids: set<AgentId>)
    requires ResultsAreSafe(w, p)
    requires forall i <- p.launched :: i < |w.agents| && w.agents[i].agentId in ids
    ensures p.completed <= ids
  {
  }

  /** After `k` rounds nothing outside the first `k` layers has been started. */
  lemma {:induction false} StartedWithinLayer(w: WaveDeployment, waits: seq<Wait>, ps: seq<Progress>, k: nat)
    requires IsRun(w, waits, ps) && k <= |waits|
    ensures forall i <- ps[k].launched :: i < |w.agents| && w.agents[i].agentId in Layer(w, k)
    ensures ps[k].completed <= Layer(w, k)
  {
    if k > 0 {
      StartedWithinLayer(w, waits, ps, k - 1);
      LayersGrow(w, k - 1, k);
      forall i <- ps[k].launched
        ensures i < |w.agents| && w.agents[i].agentId in Layer(w, k)
      {
        if i !in ps[k - 1].launched {
          LaunchedInLayer(w, waits, ps, k - 1, i);
        }
      }
    }
    RunsAreSafe(w, waits, ps, k);
    CompletedWithin(w, ps[k], Layer(w, k));
  }

  // ---------- confluence and the exit condition ----------

  lemma {:induction false} SettleGrows(p: Progress, tasks: seq<Task>, wait: Wait)
    requires UniqueKeys(tasks) && forall t <- tasks :: t.agentId !in p.completed
    ensures |Settle(p, tasks, wait).completed| >= |p.completed|
    ensures (exists t <- tasks :: t.agentId in wait) ==> |Settle(p, tasks, wait).completed| > |p.completed|
    ensures (forall t <- tasks :: t.agentId in wait) ==>
              |Settle(p, tasks, wait).completed| == |p.completed| + |tasks| && Settle(p, tasks, wait).running == []
  {
    if tasks != [] {
      var front, t := tasks[..|tasks| - 1], tasks[|tasks| - 1];
      assert tasks == front + [t];
      SettleGrows(p, front, wait);
      SettleEffect(p, front, wait);
      assert t.agentId !in Settle(p, front, wait).completed;
    }
  }

  /** A wait that would not block makes progress, or nothing is left that can ever start. */
  lemma {:induction false} RoundProgress(w: WaveDeployment, p: Progress, wait: Wait)
    requires TasksAreSafe(w, p) && LegalWait(w, p, wait) && 1 <= w.maxParallelization
    ensures |Round(w, p, wait).completed| > |p.completed| || Closed(w, p.completed)
  {
    WaitingTasks(w, p);
    var q := Waiting(w, p);
    SettleGrows(q, q.running, wait);
    LaunchEffect(w, p, ToLaunch(w, p));
    if q.running == [] {
      NothingRunning(w, p);
    }
  }

  lemma {:induction false} NothingRunning(w: WaveDeployment, p: Progress)
    requires UniqueKeys(p.running) && Waiting(w, p).running == [] && 1 <= w.maxParallelization
    ensures Closed(w, p.completed)
  {
    LaunchEffect(w, p, ToLaunch(w, p));
    NothingToLaunch(w, p);
    forall i: nat | i < |w.agents| && CheckDependencies(w.agents[i], p.completed)
      ensures w.agents[i].agentId in p.completed
    {
      assert !Eligible(w, p, i);
    }
  }

  lemma {:induction false} NothingToLaunch(w: WaveDeployment, p: Progress)
    requires UniqueKeys(p.running) && Waiting(w, p).running == [] && 1 <= w.maxParallelization
    ensures p.running == [] && Ready(w, p) == []
  {
    var todo := ToLaunch(w, p);
    LaunchEffect(w, p, todo);
    if todo != [] {
      assert false;
    }
  }

  lemma {:induction false} ClosedStaysClosed(w: WaveDeployment, waits: seq<Wait>, ps: seq<Progress>, k: nat)
    requires IsRun(w, waits, ps) && k < |waits| && Closed(w, ps[k].completed)
    ensures ps[k + 1].completed == ps[k].completed
  {
    StartedWithinLayer(w, waits, ps, k + 1);
    LayersBelowClosed(w, ps[k].completed, k + 1);
    CompletedNeverShrinks(w, waits, ps, k);
  }

  lemma {:induction false} CompletedNeverShrinks(w: WaveDeployment, waits: seq<Wait>, ps: seq<Progress>, k: nat)
    requires IsRun(w, waits, ps) && k < |waits|
    ensures ps[k].completed <= ps[k + 1].completed
  {
    RunsAreSafe(w, waits, ps, k);
    assert RoundAt(w, waits, ps, k);
    LaunchEffect(w, ps[k], ToLaunch(w, ps[k]));
    SettleEffect(Waiting(w, ps[k]), Waiting(w, ps[k]).running, waits[k]);
  }

  lemma {:induction false} CompletedGrows(w: WaveDeployment, waits: seq<Wait>, ps: seq<Progress>, k: nat)
    requires IsRun(w, waits, ps) && k <= |waits| && 1 <= w.maxParallelization
    ensures k <= |ps[k].completed| || Closed(w, ps[k].completed)
  {
    if k > 0 {
      CompletedGrows(w, waits, ps, k - 1);
      if Closed(w, ps[k - 1].completed) {
        ClosedStaysClosed(w, waits, ps, k - 1);
      } else {
        RunsAreSafe(w, waits, ps, k - 1);
        assert RoundAt(w, waits, ps, k - 1);
        RoundProgress(w, ps[k - 1], waits[k - 1]);
      }
    }
  }

  lemma {:induction false} HeadIsMember<T>(s: seq<T>)
    requires s != []
    ensures s[0] in s
  {
  }

  /** Confluence: whatever finishes first, and whether agents fail or not, only the least
      fixpoint can finish, and all of it has finished after as many rounds as it has members. */
  lemma {:induction false} Confluence(w: WaveDeployment, waits: seq<Wait>, ps: seq<Progress>, k: nat)
    requires IsRun(w, waits, ps) && k <= |waits| && 1 <= w.maxParallelization
    ensures ps[k].completed <= Reachable(w)
    ensures |Reachable(w)| <= k ==> ps[k].completed == Reachable(w) && ps[k].running == []
  {
    ReachableIsLeastClosed(w, ps[k].completed);
    StartedWithinLayer(w, waits, ps, k);
    LayersBelowClosed(w, Reachable(w), k);
    if |Reachable(w)| <= k {
      CompletedGrows(w, waits, ps, k);
      StrictSubsetIsSmaller(ps[k].completed, Reachable(w));
      RunsAreSafe(w, waits, ps, k);
      if ps[k].running != [] {
        HeadIsMember(ps[k].running);
        assert false;
      }
    }
  }

  ghost predicate ExitsWith(w: WaveDeployment, waits: seq<Wait>, ps: seq<Progress>) {
    IsRun(w, waits, ps) && Exited(w, ps[|waits|])
  }

  /** The loop can exit. */
  ghost predicate CanExit(w: WaveDeployment) {
    exists waits, ps :: ExitsWith(w, waits, ps)
  }

  /** A run that reaches the exit shows that the ids are distinct and the fixpoint is the whole
      wave; otherwise the loop spins forever, for every cap and every completion order. */
  lemma {:induction false} ExitNeedsWholeWave(w: WaveDeployment, waits: seq<Wait>, ps: seq<Progress>)
    requires IsRun(w, waits, ps) && Exited(w, ps[|waits|])
    ensures DistinctIds(w) && Reachable(w) == Ids(w)
  {
    var done := ps[|waits|].completed;
    StartedWithinLayer(w, waits, ps, |waits|);
    ReachableIsLeastClosed(w, {});
    LayersBelowClosed(w, Reachable(w), |waits|);
    LayersGrow(w, |w.agents|, |w.agents|);
    StrictSubsetIsSmaller(done, Reachable(w));
    StrictSubsetIsSmaller(Reachable(w), Ids(w));
    IdsOf(w);
  }

  /** When the wave is whole, every completion order exits, within `|w.agents|` rounds. */
  lemma {:induction false} WholeWaveExits(w: WaveDeployment, waits: seq<Wait>, ps: seq<Progress>)
    requires IsRun(w, waits, ps) && 1 <= w.maxParallelization
    requires DistinctIds(w) && Reachable(w) == Ids(w)
    ensures |waits| <= |w.agents|
    ensures |waits| == |w.agents| ==> Exited(w, ps[|waits|])
  {
    IdsOf(w);
    if |w.agents| < |waits| {
      assert RoundAt(w, waits, ps, |w.agents|);
    }
    if |w.agents| <= |waits| {
      Confluence(w, waits, ps, |w.agents|);
    }
  }

  /** A wait that finishes every running task at once. */
  function FinishAll(w: WaveDeployment, p: Progress): (wait: Wait)
    ensures LegalWait(w, p, wait)
    ensures forall t <- Waiting(w, p).running :: t.agentId in wait
  {
    var running := Waiting(w, p).running;
    var keys := set t | t in running :: t.agentId;
    assert running != [] ==> running[0] in running;
    map id | id in keys :: Returned("")
  }

  /** Runs of every length exist, up to the exit. */
  lemma {:induction false} SomeRun(w: WaveDeployment, k: nat) returns (waits: seq<Wait>, ps: seq<Progress>)
    ensures IsRun(w, waits, ps) && |waits| <= k
    ensures |waits| == k || Exited(w, ps[|waits|])
  {
    if k == 0 {
      waits, ps := [], [START];
    } else {
      waits, ps := SomeRun(w, k - 1);
      if !Exited(w, ps[|waits|]) {
        var wait := FinishAll(w, ps[|waits|]);
        ExtendRun(w, waits, ps, wait);
        waits, ps := waits + [wait], ps + [Round(w, ps[|waits|], wait)];
      }
    }
  }

  /** Without a positive cap the slice drops agents from the end, so that some agent never starts. */
  lemma {:induction false} SomeoneNeverStarts(w: WaveDeployment, waits: seq<Wait>, ps: seq<Progress>, k: nat)
      returns (i: nat)
    requires IsRun(w, waits, ps) && k <= |waits| && w.maxParallelization <= 0 && w.agents != []
    ensures i < |w.agents| && i !in ps[k].launched
    decreases k
  {
    i := 0;
    if k > 0 {
      RunsAreSafe(w, waits, ps, k - 1);
      LastReadyWaits(w, ps[k - 1]);
      LaunchedAfterRound(w, waits, ps, k - 1);
      if Ready(w, ps[k - 1]) == [] {
        i := SomeoneNeverStarts(w, waits, ps, k - 1);
      } else {
        i := Ready(w, ps[k - 1])[|Ready(w, ps[k - 1])| - 1];
      }
    }
  }

  lemma {:induction false} LaunchedAfterRound(w: WaveDeployment, waits: seq<Wait>, ps: seq<Progress>, k: nat)
    requires IsRun(w, waits, ps) && k < |waits|
    ensures ps[k + 1].launched == ps[k].launched + ToLaunch(w, ps[k])
  {
    RunsAreSafe(w, waits, ps, k);
    LaunchEffect(w, ps[k], ToLaunch(w, ps[k]));
    SettleEffect(Waiting(w, ps[k]), Waiting(w, ps[k]).running, waits[k]);
    assert RoundAt(w, waits, ps, k);
  }

  lemma {:induction false} LastReadyWaits(w: WaveDeployment, p: Progress)
    requires TasksAreSafe(w, p) && StartsAreSafe(w, p) && w.maxParallelization <= 0
    ensures TasksAreSafe(w, Waiting(w, p))
    ensures var r := Ready(w, p);
      if r == [] then ToLaunch(w, p) == []
      else r[|r| - 1] !in ToLaunch(w, p) && r[|r| - 1] !in p.launched && r[|r| - 1] < |w.agents|
  {
    WaitingTasks(w, p);
    var r, todo := Ready(w, p), ToLaunch(w, p);
    if r != [] {
      assert |todo| < |r|;
      assert Eligible(w, p, r[|r| - 1]);
      assert forall a | 0 <= a < |todo| :: todo[a] == r[a];
    }
  }

  /** The exact exit condition, for every wave and every cap. */
  lemma {:induction false} ExitCondition(w: WaveDeployment)
    ensures CanExit(w)
       <==> DistinctIds(w) && Reachable(w) == Ids(w) && (1 <= w.maxParallelization || w.agents == [])
  {
    if CanExit(w) {
      var waits, ps :| ExitsWith(w, waits, ps);
      ExitNeedsWholeWave(w, waits, ps);
      if w.maxParallelization <= 0 && w.agents != [] {
        ExitNeedsCap(w, waits, ps);
      }
    }
    if DistinctIds(w) && Reachable(w) == Ids(w) && (1 <= w.maxParallelization || w.agents == []) {
      var waits, ps := SomeRun(w, |w.agents|);
      if w.agents != [] {
        WholeWaveExits(w, waits, ps);
      }
      assert ExitsWith(w, waits, ps);
    }
  }

  lemma {:induction false} ExitCompletesAll(w: WaveDeployment, waits: seq<Wait>, ps: seq<Progress>)
    requires IsRun(w, waits, ps) && Exited(w, ps[|waits|])
    ensures ps[|waits|].completed == Ids(w)
  {
    StartedWithinLayer(w, waits, ps, |waits|);
    LayersGrow(w, |waits|, |waits|);
    IdsOf(w);
    StrictSubsetIsSmaller(ps[|waits|].completed, Ids(w));
  }

  lemma {:induction false} CompletedWasLaunched(w: WaveDeployment, p: Progress, i: nat)
    requires DistinctIds(w) && ResultsAreSafe(w, p) && i < |w.agents| && w.agents[i].agentId in p.completed
    ensures i in p.launched
  {
    var j :| j in p.launched && j < |w.agents| && w.agents[j].agentId == w.agents[i].agentId;
    assert i == j;
  }

  lemma {:induction false} ExitNeedsCap(w: WaveDeployment, waits: seq<Wait>, ps: seq<Progress>)
    requires IsRun(w, waits, ps) && Exited(w, ps[|waits|]) && w.agents != []
    ensures 1 <= w.maxParallelization
  {
    if w.maxParallelization <= 0 {
      var i := SomeoneNeverStarts(w, waits, ps, |waits|);
      ExitNeedsWholeWave(w, waits, ps);
      ExitCompletesAll(w, waits, ps);
      assert w.agents[i].agentId in Ids(w);
      RunsAreSafe(w, waits, ps, |waits|);
      CompletedWasLaunched(w, ps[|waits|], i);
    }
  }

  /** A wave that polls forever: an agent that waits for itself.  No run of it exits. */
  lemma {:induction false} SelfDependencyNeverExits(w: WaveDeployment, a: AgentId, waits: seq<Wait>, ps: seq<Progress>)
    requires w.agents == [AgentTask(a, [a])] && IsRun(w, waits, ps)
    ensures !Exited(w, ps[|waits|])
  {
    assert w.agents[0].dependencies[0] == a;
    assert Closed(w, {});
    ReachableIsLeastClosed(w, {});
    assert w.agents[0].agentId in Ids(w);
    if Exited(w, ps[|waits|]) {
      ExitNeedsWholeWave(w, waits, ps);
    }
  }

  /** An acyclic wave: every dependency is in the wave and ranked below its dependents. */
  ghost predicate Ranked(w: WaveDeployment, rank: map<AgentId, nat>) {
    forall i: nat, d: nat | i < |w.agents| && d < |w.agents[i].dependencies| ::
      RankedBelow(w, rank, w.agents[i].dependencies[d], w.agents[i].agentId)
  }

  ghost predicate RankedBelow(w: WaveDeployment, rank: map<AgentId, nat>, dep: AgentId, id: AgentId) {
    dep in Ids(w) && dep in rank && id in rank && rank[dep] < rank[id]
  }

  lemma {:induction false} RankedIsReachable(w: WaveDeployment, rank: map<AgentId, nat>, i: nat)
    requires Ranked(w, rank) && i < |w.agents|
    ensures w.agents[i].agentId in Reachable(w)
    decreases if w.agents[i].agentId in rank then rank[w.agents[i].agentId] + 1 else 0
  {
    var agent := w.agents[i];
    forall d: nat | d < |agent.dependencies|
      ensures agent.dependencies[d] in Reachable(w)
    {
      assert RankedBelow(w, rank, agent.dependencies[d], agent.agentId);
      var j :| 0 <= j < |w.agents| && w.agents[j].agentId == agent.dependencies[d];
      RankedIsReachable(w, rank, j);
    }
    ReachableIsLeastClosed(w, {});
  }

  lemma {:induction false} AgentOfId(w: WaveDeployment, i: nat, done: set<AgentId>)
    requires DistinctIds(w) && i < |w.agents| && w.agents[i].agentId in Unlocked(w, done)
    ensures CheckDependencies(w.agents[i], done)
  {
    var j :| 0 <= j < |w.agents| && CheckDependencies(w.agents[j], done)
             && w.agents[j].agentId == w.agents[i].agentId;
    assert i == j;
  }

  ghost predicate RanksDependencies(rank: map<AgentId, nat>, agent: AgentTask) {
    agent.agentId in rank ==>
      forall dep <- agent.dependencies :: dep in rank && rank[dep] < rank[agent.agentId]
  }

  /** `rank` covers the ids in `done`, stays below `k`, and puts dependencies below dependents. */
  ghost predicate RanksLayer(w: WaveDeployment, rank: map<AgentId, nat>, done: set<AgentId>, k: nat) {
    && rank.Keys == done
    && (forall id <- done :: rank[id] < k)
    && (forall i: nat | i < |w.agents| :: RanksDependencies(rank, w.agents[i]))
  }

  lemma {:induction false} RankNextLayer(w: WaveDeployment, below: map<AgentId, nat>, done: set<AgentId>,
                                         more: set<AgentId>, k: nat)
      returns (rank: map<AgentId, nat>)
    requires RanksLayer(w, below, done, k) && done <= more
    requires forall i: nat | i < |w.agents| && w.agents[i].agentId in more :: CheckDependencies(w.agents[i], done)
    ensures RanksLayer(w, rank, more, k + 1)
  {
    rank := map id | id in more :: if id in below then below[id] else k;
    forall i: nat | i < |w.agents|
      ensures RanksDependencies(rank, w.agents[i])
    {
      assert RanksDependencies(below, w.agents[i]);
    }
  }

  /** Ranks every id of layer `k` by the first layer that contains it. */
  lemma {:induction false} RankLayers(w: WaveDeployment, k: nat) returns (rank: map<AgentId, nat>)
    requires DistinctIds(w)
    ensures RanksLayer(w, rank, Layer(w, k), k)
    decreases k
  {
    rank := map[];
    if k > 0 {
      rank := RankLayers(w, k - 1);
      LayersGrow(w, k - 1, k);
      forall i: nat | i < |w.agents| && w.agents[i].agentId in Layer(w, k)
        ensures CheckDependencies(w.agents[i], Layer(w, k - 1))
      {
        AgentOfId(w, i, Layer(w, k - 1));
      }
      rank := RankNextLayer(w, rank, Layer(w, k - 1), Layer(w, k), k - 1);
    }
  }

  /** For distinct ids the whole wave is reachable exactly when the wave is acyclic and has no
      dependency outside itself. */
  lemma {:induction false} WholeIffAcyclic(w: WaveDeployment)
    requires DistinctIds(w)
    ensures Reachable(w) == Ids(w) <==> exists rank :: Ranked(w, rank)
  {
    LayersGrow(w, |w.agents|, |w.agents|);
    if rank :| Ranked(w, rank) {
      forall id <- Ids(w)
        ensures id in Reachable(w)
      {
        var i :| 0 <= i < |w.agents| && w.agents[i].agentId == id;
        RankedIsReachable(w, rank, i);
      }
    }
    if Reachable(w) == Ids(w) {
      var rank := RankLayers(w, |w.agents|);
      forall i: nat, d: nat | i < |w.agents| && d < |w.agents[i].dependencies|
        ensures RankedBelow(w, rank, w.agents[i].dependencies[d], w.agents[i].agentId)
      {
        assert w.agents[i].agentId in Ids(w);
        assert RanksDependencies(rank, w.agents[i]);
      }
      assert Ranked(w, rank);
    }
  }

  // ---------- the makespan, when every wait finishes all running agents ----------

  ghost predicate DependsOn(w: WaveDeployment, id: AgentId, dep: AgentId) {
    exists i: nat | i < |w.agents| :: w.agents[i].agentId == id && dep in w.agents[i].dependencies
  }

  /** A dependency chain in the wave, dependencies first. */
  ghost predicate Chain(w: WaveDeployment, c: seq<AgentId>) {
    && (forall k | 0 <= k < |c| :: c[k] in Ids(w))
    && (forall k | 0 < k < |c| :: DependsOn(w, c[k], c[k - 1]))
  }

  lemma {:induction false} MissingDependency(w: WaveDeployment, id: AgentId, k: nat) returns (dep: AgentId)
    requires DistinctIds(w) && Reachable(w) == Ids(w) && id in Ids(w) && id !in Layer(w, k + 1)
    ensures DependsOn(w, id, dep) && dep in Ids(w) && dep !in Layer(w, k)
  {
    var i: nat :| i < |w.agents| && w.agents[i].agentId == id;
    assert !CheckDependencies(w.agents[i], Layer(w, k));
    dep :| dep in w.agents[i].dependencies && dep !in Layer(w, k);
    ReachableIsFixpoint(w);
    AgentOfId(w, i, Reachable(w));
  }

  lemma {:induction false} DeepChain(w: WaveDeployment, id: AgentId, k: nat) returns (c: seq<AgentId>)
    requires DistinctIds(w) && Reachable(w) == Ids(w) && id in Ids(w) && id !in Layer(w, k)
    ensures Chain(w, c) && |c| == k + 1 && c[k] == id
    decreases k
  {
    c := [];
    if k > 0 {
      var dep := MissingDependency(w, id, k - 1);
      c := DeepChain(w, dep, k - 1);
    }
    c := c + [id];
  }

  lemma {:induction false} DependencyIsDeeper(w: WaveDeployment, id: AgentId, dep: AgentId, k: nat)
    requires DistinctIds(w) && DependsOn(w, id, dep) && id in Layer(w, k + 1)
    ensures dep in Layer(w, k)
  {
    var i: nat :| i < |w.agents| && w.agents[i].agentId == id && dep in w.agents[i].dependencies;
    AgentOfId(w, i, Layer(w, k));
  }

  lemma {:induction false} ChainDepth(w: WaveDeployment, c: seq<AgentId>, k: nat)
    requires DistinctIds(w) && Chain(w, c) && k < |c|
    ensures c[k] !in Layer(w, k)
  {
    if 0 < k && c[k] in Layer(w, k) {
      DependencyIsDeeper(w, c[k], c[k - 1], k - 1);
      ChainDepth(w, c, k - 1);
    }
  }

  /** Every wait of the run finishes all running agents. */
  ghost predicate Lockstep(w: WaveDeployment, waits: seq<Wait>, ps: seq<Progress>) {
    |ps| == |waits| + 1 && forall k | 0 <= k < |waits| :: FinishesAll(w, ps[k], waits[k])
  }

  ghost predicate FinishesAll(w: WaveDeployment, p: Progress, wait: Wait) {
    forall t <- Waiting(w, p).running :: t.agentId in wait
  }

  lemma {:induction false} ReadyOrStarted(w: WaveDeployment, p: Progress, i: nat)
    requires UniqueKeys(p.running) && ToLaunch(w, p) == Ready(w, p)
    requires i < |w.agents| && CheckDependencies(w.agents[i], p.completed)
    ensures w.agents[i].agentId in p.completed || HasKey(Waiting(w, p).running, w.agents[i].agentId)
  {
    LaunchEffect(w, p, ToLaunch(w, p));
    assert Eligible(w, p, i) ==> i in Ready(w, p);
  }

  /** A round that leaves a slot free runs every ready agent. */
  lemma {:induction false} ThinRound(w: WaveDeployment, p: Progress, wait: Wait)
    requires TasksAreSafe(w, p) && FinishesAll(w, p, wait) && ToLaunch(w, p) == Ready(w, p)
    ensures Unlocked(w, p.completed) <= Round(w, p, wait).completed
  {
    var q := Waiting(w, p);
    WaitingTasks(w, p);
    LaunchEffect(w, p, ToLaunch(w, p));
    SettleEffect(q, q.running, wait);
    forall i: nat | i < |w.agents| && CheckDependencies(w.agents[i], p.completed)
      ensures w.agents[i].agentId in Round(w, p, wait).completed
    {
      ReadyOrStarted(w, p, i);
    }
  }

  /** Each lockstep round runs as many agents as the cap allows or completes another layer. */
  lemma {:induction false} LockstepRound(w: WaveDeployment, p: Progress, wait: Wait)
    requires TasksAreSafe(w, p) && FinishesAll(w, p, wait) && p.running == []
    requires DistinctIds(w) && 1 <= w.maxParallelization
    ensures Round(w, p, wait).running == []
    ensures |Round(w, p, wait).completed| == |p.completed| + w.maxParallelization
         || Unlocked(w, p.completed) <= Round(w, p, wait).completed
  {
    WaitingTasks(w, p);
    LaunchEffect(w, p, ToLaunch(w, p));
    SettleGrows(Waiting(w, p), Waiting(w, p).running, wait);
    SlotsAreFilled(w, p);
    if ToLaunch(w, p) == Ready(w, p) {
      ThinRound(w, p, wait);
    }
  }

  ghost predicate Counted(w: WaveDeployment, p: Progress, full: nat, thin: nat) {
    full * w.maxParallelization <= |p.completed| && Layer(w, thin) <= p.completed
  }

  lemma {:induction false} CountRound(w: WaveDeployment, p: Progress, q: Progress, full: nat, thin: nat)
    requires Counted(w, p, full, thin) && p.completed <= q.completed
    requires |q.completed| == |p.completed| + w.maxParallelization || Unlocked(w, p.completed) <= q.completed
    ensures Counted(w, q, full + 1, thin) || Counted(w, q, full, thin + 1)
  {
    if |q.completed| == |p.completed| + w.maxParallelization {
      assert (full + 1) * w.maxParallelization == full * w.maxParallelization + w.maxParallelization;
    } else {
      StrictSubsetIsSmaller(p.completed, q.completed);
      UnlockedMonotone(w, Layer(w, thin), p.completed);
    }
  }

  lemma {:induction false} LockstepStep(w: WaveDeployment, waits: seq<Wait>, ps: seq<Progress>, k: nat)
    requires IsRun(w, waits, ps) && Lockstep(w, waits, ps) && k < |waits| && ps[k].running == []
    requires DistinctIds(w) && 1 <= w.maxParallelization
    ensures ps[k + 1].running == [] && ps[k].completed <= ps[k + 1].completed
    ensures |ps[k + 1].completed| == |ps[k].completed| + w.maxParallelization
         || Unlocked(w, ps[k].completed) <= ps[k + 1].completed
  {
    RunsAreSafe(w, waits, ps, k);
    LockstepRound(w, ps[k], waits[k]);
    CompletedNeverShrinks(w, waits, ps, k);
    assert RoundAt(w, waits, ps, k);
  }

  lemma {:induction false} LockstepCount(w: WaveDeployment, waits: seq<Wait>, ps: seq<Progress>, k: nat)
      returns (full: nat, thin: nat)
    requires IsRun(w, waits, ps) && Lockstep(w, waits, ps) && k <= |waits|
    requires DistinctIds(w) && 1 <= w.maxParallelization
    ensures full + thin == k && Counted(w, ps[k], full, thin) && ps[k].running == []
    decreases k
  {
    full, thin := 0, 0;
    if k > 0 {
      full, thin := LockstepCount(w, waits, ps, k - 1);
      LockstepStep(w, waits, ps, k - 1);
      CountRound(w, ps[k - 1], ps[k], full, thin);
      if Counted(w, ps[k], full + 1, thin) {
        full := full + 1;
      } else {
        thin := thin + 1;
      }
    }
  }

  lemma {:induction false} OneMore(a: nat, m: nat)
    ensures (a + 1) * m == a * m + m
  {
  }

  lemma {:induction false} ProductMonotone(a: nat, b: nat, c: nat)
    requires a <= b
    ensures a * c <= b * c
  {
  }

  lemma {:induction false} DivisionBound(full: nat, cap: nat, total: nat)
    requires 0 < cap && full * cap <= total
    ensures full <= total / cap
  {
    var q := total / cap;
    assert total < (q + 1) * cap;
    if q < full {
      ProductMonotone(q + 1, full, cap);
    }
  }

  lemma {:induction false} NotYetExited(w: WaveDeployment, waits: seq<Wait>, ps: seq<Progress>, k: nat)
    requires IsRun(w, waits, ps) && k < |waits|
    ensures |ps[k].completed| < |w.agents|
  {
    assert RoundAt(w, waits, ps, k);
  }

  lemma {:induction false} FullBound(w: WaveDeployment, p: Progress, full: nat, thin: nat)
    requires Counted(w, p, full, thin) && |p.completed| < |w.agents| && 1 <= w.maxParallelization
    ensures full <= (|w.agents| - 1) / w.maxParallelization
    ensures Layer(w, thin) <= p.completed
  {
    DivisionBound(full, w.maxParallelization, |w.agents| - 1);
  }

  /** All rounds of a lockstep run but the last, counted: the run has not exited before its last round. */
  lemma {:induction false} RoundsBeforeLast(w: WaveDeployment, waits: seq<Wait>, ps: seq<Progress>)
      returns (full: nat, thin: nat)
    requires IsRun(w, waits, ps) && Lockstep(w, waits, ps) && waits != []
    requires DistinctIds(w) && 1 <= w.maxParallelization
    ensures full + thin == |waits| - 1
    ensures |w.agents| > 0 && full <= (|w.agents| - 1) / w.maxParallelization
    ensures Layer(w, thin) <= ps[|waits| - 1].completed && |ps[|waits| - 1].completed| < |w.agents|
  {
    full, thin := LockstepCount(w, waits, ps, |waits| - 1);
    NotYetExited(w, waits, ps, |waits| - 1);
    FullBound(w, ps[|waits| - 1], full, thin);
  }

  /** Makespan: with at most `depth` agents on a dependency chain, a lockstep run of `n` agents
      under cap `m` has at most `(n - 1) / m + depth` rounds. */
  lemma {:induction false} MakespanBound(w: WaveDeployment, waits: seq<Wait>, ps: seq<Progress>, depth: nat)
    requires IsRun(w, waits, ps) && Lockstep(w, waits, ps)
    requires DistinctIds(w) && Reachable(w) == Ids(w) && 1 <= w.maxParallelization
    requires forall c | Chain(w, c) :: |c| <= depth
    ensures waits == [] || |waits| <= (|w.agents| - 1) / w.maxParallelization + depth
  {
    if waits != [] {
      var full, thin := RoundsBeforeLast(w, waits, ps);
      ThinBelowDepth(w, ps[|waits| - 1].completed, thin, depth);
    }
  }

  lemma {:induction false} ThinBelowDepth(w: WaveDeployment, done: set<AgentId>, thin: nat, depth: nat)
    requires DistinctIds(w) && Reachable(w) == Ids(w)
    requires forall c | Chain(w, c) :: |c| <= depth
    requires Layer(w, thin) <= done && |done| < |w.agents|
    ensures thin < depth
  {
    if depth <= thin {
      DepthCoversWave(w, depth);
      LayersGrow(w, depth, thin);
      StrictSubsetIsSmaller(Ids(w), done);
      IdsOf(w);
    }
  }

  lemma {:induction false} DepthCoversWave(w: WaveDeployment, depth: nat)
    requires DistinctIds(w) && Reachable(w) == Ids(w)
    requires forall c | Chain(w, c) :: |c| <= depth
    ensures Ids(w) <= Layer(w, depth)
  {
    forall id <- Ids(w)
      ensures id in Layer(w, depth)
    {
      if id !in Layer(w, depth) {
        var c := DeepChain(w, id, depth);
      }
    }
  }

  lemma {:induction false} CompletesAtMost(w: WaveDeployment, p: Progress, wait: Wait)
    requires TasksAreSafe(w, p) && 0 <= w.maxParallelization
    ensures |Round(w, p, wait).completed| <= |p.completed| + w.maxParallelization
  {
    WaitingTasks(w, p);
    LaunchEffect(w, p, ToLaunch(w, p));
    SettleAtMost(Waiting(w, p), Waiting(w, p).running, wait);
  }

  lemma {:induction false} CompletedAtMost(w: WaveDeployment, waits: seq<Wait>, ps: seq<Progress>, k: nat)
    requires IsRun(w, waits, ps) && k <= |waits| && 0 <= w.maxParallelization
    ensures |ps[k].completed| <= k * w.maxParallelization
  {
    if k > 0 {
      CompletedAtMost(w, waits, ps, k - 1);
      RunsAreSafe(w, waits, ps, k - 1);
      CompletesAtMost(w, ps[k - 1], waits[k - 1]);
      OneMore(k - 1, w.maxParallelization);
      assert RoundAt(w, waits, ps, k - 1);
    }
  }

  lemma {:induction false} SettleAtMost(p: Progress, tasks: seq<Task>, wait: Wait)
    ensures |Settle(p, tasks, wait).completed| <= |p.completed| + |tasks|
  {
    if tasks != [] {
      SettleAtMost(p, tasks[..|tasks| - 1], wait);
    }
  }

  /** No run, lockstep or not, exits in fewer rounds than the longest chain or than `n / m`. */
  lemma {:induction false} MakespanLowerBound(w: WaveDeployment, waits: seq<Wait>, ps: seq<Progress>, c: seq<AgentId>)
    requires IsRun(w, waits, ps) && Exited(w, ps[|waits|]) && 0 <= w.maxParallelization
    requires Chain(w, c)
    ensures |c| <= |waits| && |w.agents| <= |waits| * w.maxParallelization
  {
    CompletedAtMost(w, waits, ps, |waits|);
    ExitNeedsWholeWave(w, waits, ps);
    IdsOf(w);
    StartedWithinLayer(w, waits, ps, |waits|);
    LayersGrow(w, |waits|, |waits|);
    StrictSubsetIsSmaller(ps[|waits|].completed, Ids(w));
    if |waits| < |c| {
      ChainDepth(w, c, |c| - 1);
      LayersGrow(w, |waits|, |c| - 1);
    }
  }
}
