/** The control framework: registration, execution history, the registry of latest executions
    and the figures derived from it.

    The hook that carries out a control is arbitrary: it may pass, fail or raise.  So are the clock
    readings, in microseconds, which may repeat or run backwards, between calls and within one.
    Dictionaries are sequences in insertion order.

    A control keeps its id as it was given.  The record of an execution trims the id, so that the two
    need not agree.
 */
module ControlFramework {
  import opened Results
  import opened Tallies
  import opened Whitespace

  datatype ControlStatus = Active | Inactive | Failed | Remediation | Testing

  datatype ControlDefinition = ControlDefinition(controlId: string, riskLevel: string)

  datatype ControlExecution = ControlExecution(
    controlId: string,
    timestamp: int,
    status: ControlStatus,
    result: bool,
    findings: seq<string>)

  /** What the hook returns, with evidence or without; it may raise instead. */
  datatype HookResult =
    | HookResult(success: bool, findings: seq<string>, hasEvidence: bool)
    | Raised(error: string)

  const MAX_EVIDENCE_ID: nat := 50

  /** `int((end - start).total_seconds() * 1000)`, which drops the fraction for both signs. */
  function ElapsedMs(start: int, end: int): (ms: int)
    ensures ms < 0 <==> end <= start - 1000
  {
    if start <= end then (end - start) / 1000 else -((start - end) / 1000)
  }

  function StripAll(texts: seq<string>): (r: seq<string>)
    ensures |r| == |texts|
  {
    seq(|texts|, i requires 0 <= i < |texts| => Strip(texts[i]))
  }

  /** Whether the records of an execution pass validation: the trimmed id is not empty, and at most 50
      characters long if there is evidence, and the time taken is not negative. */
  predicate Recordable(controlId: string, hook: HookResult, start: int, end: int) {
    && hook.HookResult?
    && Strip(controlId) != [] && 0 <= ElapsedMs(start, end)
    && (hook.hasEvidence ==> |Strip(controlId)| <= MAX_EVIDENCE_ID)
  }

  function ExecutionOf(controlId: string, hook: HookResult, start: int): ControlExecution
    requires hook.HookResult?
  {
    ControlExecution(Strip(controlId), start, if hook.success then Active else Failed, hook.success,
                     StripAll(hook.findings))
  }

  // ---------- the registry of latest executions ----------

  type Registry = seq<ControlExecution>

  /** A dictionary lookup: the position of the first key that is `id`, or the number of keys. */
  function IndexOf(ids: seq<string>, id: string, from: nat := 0): (i: nat)
    requires from <= |ids|
    ensures from <= i <= |ids|
    ensures i < |ids| ==> ids[i] == id
    ensures forall j | from <= j < i :: ids[j] != id
    decreases |ids| - from
  {
    if from == |ids| || ids[from] == id then from else IndexOf(ids, id, from + 1)
  }

  function EntryIds(r: Registry): seq<string> {
    seq(|r|, i requires 0 <= i < |r| => r[i].controlId)
  }

  /** The position of a control's entry, or the size of the registry. */
  function Position(r: Registry, controlId: string): (i: nat)
    ensures i <= |r|
    ensures i < |r| ==> r[i].controlId == controlId
    ensures forall j | 0 <= j < i :: r[j].controlId != controlId
  {
    var i := IndexOf(EntryIds(r), controlId);
    assert forall j | 0 <= j < i :: EntryIds(r)[j] == r[j].controlId;
    i
  }

  function AddExecution(r: Registry, e: ControlExecution): Registry {
    var i := Position(r, e.controlId);
    if i == |r| then r + [e]
    else if e.timestamp > r[i].timestamp then r[i := e]
    else r
  }

  /** The registry built from a history. */
  function Fold(history: seq<ControlExecution>): Registry {
    if history == [] then []
    else AddExecution(Fold(history[..|history| - 1]), history[|history| - 1])
  }

  predicate OneEntryEach(r: Registry) {
    forall i, j | 0 <= i < j < |r| :: r[i].controlId != r[j].controlId
  }

  lemma {:induction false} FoldHasOneEntryEach(history: seq<ControlExecution>)
    ensures OneEntryEach(Fold(history))
  {
    if history != [] {
      FoldHasOneEntryEach(history[..|history| - 1]);
    }
  }

  lemma {:induction false} PositionIsUnique(r: Registry, controlId: string, i: nat)
    requires OneEntryEach(r) && i < |r| && r[i].controlId == controlId
    ensures Position(r, controlId) == i
  {
  }

  function Entry(r: Registry, controlId: string): Option<ControlExecution> {
    var i := Position(r, controlId);
    if i < |r| then Some(r[i]) else None
  }

  lemma {:induction false} EntryAfterAdd(r: Registry, e: ControlExecution, controlId: string)
    requires OneEntryEach(r)
    ensures Entry(AddExecution(r, e), controlId)
         == var entry := Entry(r, controlId);
            if e.controlId == controlId && (entry.None? || e.timestamp > entry.value.timestamp) then Some(e) else entry
  {
    var after, i, j := AddExecution(r, e), Position(r, e.controlId), Position(r, controlId);
    if i == |r| {
      assert forall k | 0 <= k < |r| :: after[k] == r[k];
      PositionIsUnique(after, e.controlId, i);
    } else {
      assert forall k | 0 <= k < |r| :: after[k].controlId == r[k].controlId;
    }
    if j < |r| {
      PositionIsUnique(after, controlId, j);
    }
  }

  // ---------- the direct lookup ----------

  /** The executions of one control, in history order. */
  function Recent(history: seq<ControlExecution>, controlId: string): seq<ControlExecution> {
    if history == [] then []
    else
      var e := history[|history| - 1];
      Recent(history[..|history| - 1], controlId) + if e.controlId == controlId then [e] else []
  }

  /** `max(s, key=timestamp)` returns element `k`: no later timestamp, and the first with it. */
  predicate FirstLatest(s: seq<ControlExecution>, k: nat) {
    && k < |s|
    && (forall j | 0 <= j < |s| :: s[j].timestamp <= s[k].timestamp)
    && (forall j | 0 <= j < k :: s[j].timestamp < s[k].timestamp)
  }

  /** The element that a scan from the left settles on. */
  function LatestIndex(s: seq<ControlExecution>): (k: nat)
    requires s != []
    ensures k < |s|
  {
    var n := |s| - 1;
    if n == 0 then 0
    else
      var k := LatestIndex(s[..n]);
      if s[n].timestamp > s[k].timestamp then n else k
  }

  lemma {:induction false} LatestIndexIsFirstLatest(s: seq<ControlExecution>)
    requires s != []
    ensures FirstLatest(s, LatestIndex(s))
  {
    var n := |s| - 1;
    if n > 0 {
      LatestIndexIsFirstLatest(s[..n]);
      assert forall j | 0 <= j < n :: s[..n][j] == s[j];
    }
  }

  lemma {:induction false} FirstLatestIsUnique(s: seq<ControlExecution>, k: nat, l: nat)
    requires FirstLatest(s, k) && FirstLatest(s, l)
    ensures k == l
  {
    assert s[k].timestamp <= s[l].timestamp && s[l].timestamp <= s[k].timestamp;
  }

  lemma {:induction false} EntryIsLatest(history: seq<ControlExecution>, controlId: string)
    ensures var recent := Recent(history, controlId);
      Entry(Fold(history), controlId) == if recent == [] then None else Some(recent[LatestIndex(recent)])
  {
    if history != [] {
      var front, e := history[..|history| - 1], history[|history| - 1];
      EntryIsLatest(front, controlId);
      FoldHasOneEntryEach(front);
      EntryAfterAdd(Fold(front), e, controlId);
      var recent := Recent(front, controlId);
      assert (recent + [e])[..|recent|] == recent && recent + [] == recent;
    }
  }

  /** The registry refines the direct lookup, equal timestamps included: it holds an execution of a
      control exactly when there is one, and then the one that `max` by timestamp picks. */
  lemma {:induction false} RegistryIsLatest(history: seq<ControlExecution>, controlId: string, k: nat)
    ensures Entry(Fold(history), controlId).None? <==> Recent(history, controlId) == []
    ensures FirstLatest(Recent(history, controlId), k) ==>
              Entry(Fold(history), controlId) == Some(Recent(history, controlId)[k])
  {
    EntryIsLatest(history, controlId);
    var recent := Recent(history, controlId);
    if FirstLatest(recent, k) {
      LatestIndexIsFirstLatest(recent);
      FirstLatestIsUnique(recent, k, LatestIndex(recent));
    }
  }

  /** Python's `max(s, key=timestamp)`. */
  method MaxByTimestamp(s: seq<ControlExecution>) returns (k: nat)
    requires s != []
    ensures FirstLatest(s, k)
  {
    k := 0;
    for i := 1 to |s|
      invariant k < i
      invariant forall j | 0 <= j < i :: s[j].timestamp <= s[k].timestamp
      invariant forall j | 0 <= j < k :: s[j].timestamp < s[k].timestamp
    {
      if s[i].timestamp > s[k].timestamp {
        k := i;
      }
    }
  }

  // ---------- the figures of a report ----------

  function Passing(r: Registry): nat {
    if r == [] then 0 else Passing(r[..|r| - 1]) + if r[|r| - 1].result then 1 else 0
  }

  function Failing(r: Registry): seq<ControlExecution> {
    if r == [] then []
    else Failing(r[..|r| - 1]) + if !r[|r| - 1].result then [r[|r| - 1]] else []
  }

  function ControlIds(controls: seq<ControlDefinition>): seq<string> {
    seq(|controls|, i requires 0 <= i < |controls| => controls[i].controlId)
  }

  /** The position of a registered control, or the number of controls. */
  function Find(controls: seq<ControlDefinition>, controlId: string): (i: nat)
    ensures i <= |controls|
    ensures i < |controls| ==> controls[i].controlId == controlId
    ensures forall j | 0 <= j < i :: controls[j].controlId != controlId
  {
    var i := IndexOf(ControlIds(controls), controlId);
    assert forall j | 0 <= j < i :: ControlIds(controls)[j] == controls[j].controlId;
    i
  }

  datatype RiskClass = HighRisk | MediumRisk | LowRisk

  function ClassOf(riskLevel: string): RiskClass {
    if riskLevel == "high" then HighRisk else if riskLevel == "medium" then MediumRisk else LowRisk
  }

  predicate AllRegistered(r: Registry, controls: seq<ControlDefinition>) {
    forall i | 0 <= i < |r| :: Find(controls, r[i].controlId) < |controls|
  }

  /** What an execution adds to the findings of a risk class. */
  function AddedFindings(e: ControlExecution, controls: seq<ControlDefinition>, c: RiskClass): nat
    requires Find(controls, e.controlId) < |controls|
  {
    if !e.result && ClassOf(controls[Find(controls, e.controlId)].riskLevel) == c then |e.findings| else 0
  }

  /** The findings of the failing executions whose control is in a risk class. */
  function Findings(r: Registry, controls: seq<ControlDefinition>, c: RiskClass): nat
    requires AllRegistered(r, controls)
  {
    if r == [] then 0
    else Findings(r[..|r| - 1], controls, c) + AddedFindings(r[|r| - 1], controls, c)
  }

  /** The registered control of this id has a risk level that is wanted. */
  predicate AtLevel(controls: seq<ControlDefinition>, controlId: string, wanted: string -> bool) {
    exists c | 0 <= c < |controls| :: controls[c].controlId == controlId && wanted(controls[c].riskLevel)
  }

  /** The findings of the failing entries at the wanted risk levels, each as the positions of the entry in
      the registry and of the finding in the entry. */
  ghost function FindingsAt(r: Registry, controls: seq<ControlDefinition>, wanted: string -> bool): set<(int, int)> {
    set i, f | 0 <= i < |r| && 0 <= f < |r[i].findings| && !r[i].result && AtLevel(controls, r[i].controlId, wanted)
      :: (i, f)
  }

  lemma {:induction false} FindingsNext(r: Registry, controls: seq<ControlDefinition>, i: nat)
    requires i < |r| && AllRegistered(r[..i], controls) && Find(controls, r[i].controlId) < |controls|
    ensures AllRegistered(r[..i + 1], controls)
    ensures forall c ::
      Findings(r[..i + 1], controls, c) == Findings(r[..i], controls, c) + AddedFindings(r[i], controls, c)
  {
    assert r[..i + 1][..i] == r[..i];
  }

  function TotalFindings(failing: seq<ControlExecution>): nat {
    if failing == [] then 0 else TotalFindings(failing[..|failing| - 1]) + |failing[|failing| - 1].findings|
  }

  function Percentage(passing: nat, total: nat): real {
    if total == 0 then 0.0 else passing as real / total as real * 100.0
  }

  datatype ComplianceMetrics = ComplianceMetrics(
    totalControls: nat,
    activeControls: nat,
    passingControls: nat,
    failingControls: int,
    compliancePercentage: real,
    highRiskFindings: nat,
    mediumRiskFindings: nat,
    lowRiskFindings: nat)

  // ---------- the framework ----------

  predicate IdsDistinct(controls: seq<ControlDefinition>) {
    forall i, j | 0 <= i < j < |controls| :: controls[i].controlId != controls[j].controlId
  }

  datatype State = State(controls: seq<ControlDefinition>, executions: seq<ControlExecution>)

  /** A call, with what the hook returns and the clock shows during it. */
  datatype Call =
    | Register(control: ControlDefinition)
    | Execute(controlId: string, hook: HookResult, start: int, end: int)

  /** Whether the call returns `Ok`. */
  predicate ReturnsOk(s: State, c: Call) {
    match c
    case Register(control) => Find(s.controls, control.controlId) == |s.controls|
    case Execute(id, hook, start, end) => Find(s.controls, id) < |s.controls| && Recordable(id, hook, start, end)
  }

  function AfterCall(s: State, c: Call): State {
    if !ReturnsOk(s, c) then s
    else
      match c
      case Register(control) => s.(controls := s.controls + [control])
      case Execute(id, hook, start, end) => s.(executions := s.executions + [ExecutionOf(id, hook, start)])
  }

  /** Every execution carries the trimmed id of some registered control. */
  predicate IdsAreTrimmed(s: State) {
    forall i | 0 <= i < |s.executions| :: TrimmedFrom(s.controls, s.executions[i].controlId)
  }

  predicate TrimmedFrom(controls: seq<ControlDefinition>, id: string) {
    exists c | 0 <= c < |controls| :: Strip(controls[c].controlId) == id
  }

  /** What holds in every reachable state. */
  predicate ValidState(s: State) {
    IdsDistinct(s.controls) && IdsAreTrimmed(s) && StatusTellsResult(s.executions)
  }

  class ControlFramework {
    var controls: seq<ControlDefinition>
    var executions: seq<ControlExecution>

    function View(): State
      reads this
    {
      State(controls, executions)
    }

    ghost predicate Valid()
      reads this
    {
      ValidState(View())
    }

    constructor ()
      ensures Valid() && View() == State([], [])
    {
      controls, executions := [], [];
    }

    method RegisterControl(control: ControlDefinition) returns (r: Result<()>)
      requires Valid()
      modifies this`controls
      ensures Valid() && View() == AfterCall(old(View()), Register(control))
      ensures r.Ok? <==> Find(old(controls), control.controlId) == |old(controls)|
      ensures controls == if r.Ok? then old(controls) + [control] else old(controls)
    {
      if Find(controls, control.controlId) < |controls| {
        return Err("already registered");
      }
      CallKeepsValid(View(), Register(control));
      controls := controls + [control];
      return Ok(());
    }

    method ExecuteControl(controlId: string, hook: HookResult, start: int, end: int)
        returns (r: Result<ControlExecution>)
      requires Valid()
      modifies this`executions
      ensures Valid() && View() == AfterCall(old(View()), Execute(controlId, hook, start, end))
      ensures r.Ok? <==> Find(controls, controlId) < |controls| && Recordable(controlId, hook, start, end)
      ensures r.Ok? ==> r.value.controlId == Strip(controlId) && r.value.timestamp == start
      ensures r.Ok? ==> r.value.result == hook.success && r.value.findings == StripAll(hook.findings)
      ensures executions == if r.Ok? then old(executions) + [r.value] else old(executions)
    {
      if Find(controls, controlId) == |controls| {
        return Err("not found");
      }
      if hook.Raised? {
        return Err(hook.error);
      }
      var executionTimeMs := ElapsedMs(start, end);
      var storedId := Strip(controlId);
      if hook.hasEvidence && (storedId == [] || |storedId| > MAX_EVIDENCE_ID || executionTimeMs < 0) {
        return Err("evidence is invalid");
      }
      if storedId == [] || executionTimeMs < 0 {
        return Err("execution is invalid");
      }
      var execution := ControlExecution(storedId, start, if hook.success then Active else Failed,
                                        hook.success, StripAll(hook.findings));
      CallKeepsValid(View(), Execute(controlId, hook, start, end));
      executions := executions + [execution];
      return Ok(execution);
    }

    /** The status of a control, from the direct lookup. */
    method GetControlStatus(controlId: string) returns (r: Result<ControlStatus>)
      ensures r.Err? <==> Find(controls, controlId) == |controls|
      ensures r.Ok? ==> r.value == StatusOf(executions, controlId)
    {
      if Find(controls, controlId) == |controls| {
        return Err("not found");
      }
      var recent := Recent(executions, controlId);
      if recent == [] {
        EntryIsLatest(executions, controlId);
        return Ok(Inactive);
      }
      var latest := MaxByTimestamp(recent);
      RegistryIsLatest(executions, controlId, latest);
      return Ok(recent[latest].status);
    }

    method BuildRegistry() returns (registry: Registry)
      ensures registry == Fold(executions)
    {
      registry := [];
      for i := 0 to |executions|
        invariant registry == Fold(executions[..i])
      {
        assert executions[..i + 1][..i] == executions[..i];
        registry := AddExecution(registry, executions[i]);
      }
      assert executions[..|executions|] == executions;
    }

    method GetFailingControls() returns (failing: seq<ControlExecution>)
      ensures failing == Failing(Fold(executions))
    {
      var registry := BuildRegistry();
      failing := [];
      for i := 0 to |registry|
        invariant failing == Failing(registry[..i])
      {
        assert registry[..i + 1][..i] == registry[..i];
        if !registry[i].result {
          failing := failing + [registry[i]];
        }
      }
      assert registry[..|registry|] == registry;
    }

    /** Fails exactly when some executed id, as recorded, is not that of a registered control. */
    method GenerateComplianceReport() returns (r: Result<ComplianceMetrics>)
      requires Valid()
      ensures r.Ok? <==> AllRegistered(executions, controls)
      ensures r.Ok? ==> AllRegistered(Fold(executions), controls) && r.value.totalControls == |controls|
      ensures r.Ok? ==> r.value.activeControls == |Fold(executions)|
      ensures r.Ok? ==> r.value.passingControls == Passing(Fold(executions))
      ensures r.Ok? ==> r.value.failingControls == r.value.activeControls - r.value.passingControls
      ensures r.Ok? ==> r.value.compliancePercentage == Percentage(Passing(Fold(executions)), |controls|)
      ensures r.Ok? ==> 0.0 <= r.value.compliancePercentage <= 100.0
      ensures r.Ok? ==> r.value.highRiskFindings == |FindingsAt(Fold(executions), controls, l => l == "high")|
      ensures r.Ok? ==> r.value.mediumRiskFindings == |FindingsAt(Fold(executions), controls, l => l == "medium")|
      ensures r.Ok? ==>
        r.value.lowRiskFindings == |FindingsAt(Fold(executions), controls, l => l != "high" && l != "medium")|
      ensures r.Ok? ==>
        r.value.highRiskFindings + r.value.mediumRiskFindings + r.value.lowRiskFindings
        == TotalFindings(Failing(Fold(executions)))
    {
      FoldRegisteredIff(executions, controls);
      if |controls| == 0 {
        NothingExecuted(View());
        FindingsByLevel([], controls);
        FindingsAddUp([], controls);
        return Ok(ComplianceMetrics(0, 0, 0, 0, 0.0, 0, 0, 0));
      }
      var registry := BuildRegistry();
      var passing := Passing(registry);
      var percentage := passing as real / |controls| as real * 100.0;
      var findings := CountFindings(registry);
      if findings.Err? {
        return Err(findings.error);
      }
      FullPercentage(executions, controls);
      FindingsByLevel(registry, controls);
      FindingsAddUp(registry, controls);
      r := Ok(ComplianceMetrics(|controls|, |registry|, passing, |registry| - passing, percentage,
                                findings.value.0, findings.value.1, findings.value.2));
    }

    /** Looks up the control of every entry, passing ones included, and counts the findings of the others. */
    method CountFindings(registry: Registry) returns (r: Result<(nat, nat, nat)>)
      ensures r.Ok? <==> AllRegistered(registry, controls)
      ensures r.Ok? ==> r.value.0 == Findings(registry, controls, HighRisk)
      ensures r.Ok? ==> r.value.1 == Findings(registry, controls, MediumRisk)
      ensures r.Ok? ==> r.value.2 == Findings(registry, controls, LowRisk)
    {
      var high, medium, low := 0, 0, 0;
      for i := 0 to |registry|
        invariant AllRegistered(registry[..i], controls)
        invariant high == Findings(registry[..i], controls, HighRisk)
        invariant medium == Findings(registry[..i], controls, MediumRisk)
        invariant low == Findings(registry[..i], controls, LowRisk)
      {
        if Find(controls, registry[i].controlId) == |controls| {
          return Err("key error");
        }
        var control := controls[Find(controls, registry[i].controlId)];
        FindingsNext(registry, controls, i);
        if !registry[i].result {
          if control.riskLevel == "high" {
            high := high + |registry[i].findings|;
          } else if control.riskLevel == "medium" {
            medium := medium + |registry[i].findings|;
          } else {
            low := low + |registry[i].findings|;
          }
        }
      }
      assert registry[..|registry|] == registry;
      return Ok((high, medium, low));
    }
  }

  predicate StatusTellsResult(r: seq<ControlExecution>) {
    forall i | 0 <= i < |r| :: r[i].status == if r[i].result then Active else Failed
  }

  /** The status of a registered control, through the registry. */
  function StatusOf(history: seq<ControlExecution>, controlId: string): ControlStatus {
    var entry := Entry(Fold(history), controlId);
    if entry.None? then Inactive else entry.value.status
  }

  lemma {:induction false} TrimmedFromMore(controls: seq<ControlDefinition>, control: ControlDefinition, id: string)
    requires TrimmedFrom(controls, id)
    ensures TrimmedFrom(controls + [control], id)
  {
    var c :| 0 <= c < |controls| && Strip(controls[c].controlId) == id;
    assert (controls + [control])[c] == controls[c];
  }

  lemma {:induction false} RegisterKeepsValid(s: State, control: ControlDefinition)
    requires ValidState(s) && Find(s.controls, control.controlId) == |s.controls|
    ensures ValidState(State(s.controls + [control], s.executions))
  {
    forall i | 0 <= i < |s.executions|
      ensures TrimmedFrom(s.controls + [control], s.executions[i].controlId)
    {
      TrimmedFromMore(s.controls, control, s.executions[i].controlId);
    }
  }

  lemma {:induction false} ExecuteKeepsValid(s: State, id: string, e: ControlExecution)
    requires ValidState(s) && Find(s.controls, id) < |s.controls|
    requires e.controlId == Strip(id) && e.status == if e.result then Active else Failed
    ensures ValidState(State(s.controls, s.executions + [e]))
  {
  }

  lemma {:induction false} CallKeepsValid(s: State, c: Call)
    requires ValidState(s)
    ensures ValidState(AfterCall(s, c))
  {
    if ReturnsOk(s, c) {
      match c {
        case Register(control) => RegisterKeepsValid(s, control);
        case Execute(id, hook, start, end) => ExecuteKeepsValid(s, id, ExecutionOf(id, hook, start));
      }
    }
  }

  lemma {:induction false} ExecutedNeedsControl(s: State, i: nat)
    requires IdsAreTrimmed(s) && i < |s.executions|
    ensures |s.controls| > 0
  {
    assert TrimmedFrom(s.controls, s.executions[i].controlId);
  }

  lemma {:induction false} NothingExecuted(s: State)
    requires IdsAreTrimmed(s) && s.controls == []
    ensures s.executions == []
  {
    if s.executions != [] {
      ExecutedNeedsControl(s, 0);
    }
  }

  predicate Among(history: seq<ControlExecution>, e: ControlExecution) {
    exists i | 0 <= i < |history| :: history[i] == e
  }

  lemma {:induction false} FoldPicks(history: seq<ControlExecution>, i: nat)
    requires i < |Fold(history)|
    ensures Among(history, Fold(history)[i])
  {
    var front, e := history[..|history| - 1], history[|history| - 1];
    if Fold(history)[i] == e {
      assert history[|history| - 1] == e;
    } else {
      FoldPicks(front, i);
      var j :| 0 <= j < |front| && front[j] == Fold(front)[i];
      assert history[j] == Fold(history)[i];
    }
  }

  lemma {:induction false} FoldOfHistory(history: seq<ControlExecution>)
    requires StatusTellsResult(history)
    ensures StatusTellsResult(Fold(history)) && OneEntryEach(Fold(history))
  {
    FoldHasOneEntryEach(history);
    forall i | 0 <= i < |Fold(history)|
      ensures Fold(history)[i].status == if Fold(history)[i].result then Active else Failed
    {
      FoldPicks(history, i);
      var j :| 0 <= j < |history| && history[j] == Fold(history)[i];
    }
  }

  lemma {:induction false} RecentHas(history: seq<ControlExecution>, controlId: string)
    ensures Recent(history, controlId) != [] <==> Names(history, controlId)
  {
    if history != [] {
      var front, e := history[..|history| - 1], history[|history| - 1];
      assert history == front + [e];
      RecentHas(front, controlId);
      NamesAppend(front, e, controlId);
    }
  }

  lemma {:induction false} FoldNames(history: seq<ControlExecution>, controlId: string)
    ensures Position(Fold(history), controlId) < |Fold(history)| <==> Names(history, controlId)
  {
    RecentHas(history, controlId);
    EntryIsLatest(history, controlId);
  }

  /** The registry finds all its controls exactly when the history would. */
  lemma {:induction false} FoldRegisteredIff(history: seq<ControlExecution>, controls: seq<ControlDefinition>)
    ensures AllRegistered(Fold(history), controls) <==> AllRegistered(history, controls)
  {
    if AllRegistered(history, controls) {
      forall i | 0 <= i < |Fold(history)|
        ensures Find(controls, Fold(history)[i].controlId) < |controls|
      {
        FoldPicks(history, i);
        var j :| 0 <= j < |history| && history[j] == Fold(history)[i];
      }
    }
    if AllRegistered(Fold(history), controls) {
      forall i | 0 <= i < |history|
        ensures Find(controls, history[i].controlId) < |controls|
      {
        FoldNames(history, history[i].controlId);
        assert Names(history, history[i].controlId);
        assert Fold(history)[Position(Fold(history), history[i].controlId)].controlId == history[i].controlId;
      }
    }
  }

  lemma {:induction false} NothingRegistered(r: Registry, controls: seq<ControlDefinition>)
    requires controls == [] && AllRegistered(r, controls)
    ensures r == []
  {
    if r != [] {
      EntryIsRegistered(r, controls, 0);
    }
  }

  lemma {:induction false} EntryIsRegistered(r: Registry, controls: seq<ControlDefinition>, i: nat)
    requires AllRegistered(r, controls) && i < |r|
    ensures |controls| > 0
  {
    assert Find(controls, r[i].controlId) < |controls|;
  }

  // ---------- conservation of the report, in every reachable state ----------

  lemma {:induction false} PassingAndFailing(r: Registry)
    ensures Passing(r) + |Failing(r)| == |r|
  {
    if r != [] {
      PassingAndFailing(r[..|r| - 1]);
    }
  }

  lemma {:induction false} FindingsAddUp(r: Registry, controls: seq<ControlDefinition>)
    requires AllRegistered(r, controls)
    ensures Findings(r, controls, HighRisk) + Findings(r, controls, MediumRisk) + Findings(r, controls, LowRisk)
         == TotalFindings(Failing(r))
  {
    if r != [] {
      var front := Failing(r[..|r| - 1]);
      FindingsAddUp(r[..|r| - 1], controls);
      assert front + [] == front && (front + [r[|r| - 1]])[..|front|] == front;
    }
  }

  /** How many findings each entry adds to a class. */
  function Sizes(r: Registry, controls: seq<ControlDefinition>, c: RiskClass): (sizes: seq<nat>)
    requires AllRegistered(r, controls)
    ensures |sizes| == |r|
  {
    seq(|r|, i requires 0 <= i < |r| => AddedFindings(r[i], controls, c))
  }

  lemma {:induction false} FindingsAreCells(r: Registry, controls: seq<ControlDefinition>, c: RiskClass)
    requires AllRegistered(r, controls)
    ensures Findings(r, controls, c) == |Cells(Sizes(r, controls, c))|
  {
    if r != [] {
      var front, n := r[..|r| - 1], |r| - 1;
      FindingsAreCells(front, controls, c);
      assert Sizes(r, controls, c) == Sizes(front, controls, c) + [Sizes(r, controls, c)[n]];
      CellsAppend(Sizes(front, controls, c), Sizes(r, controls, c)[n]);
    }
  }

  /** The level of a registered control is that of the only control with its id. */
  lemma {:induction false} LevelOfControl(controls: seq<ControlDefinition>, controlId: string, wanted: string -> bool)
    requires IdsDistinct(controls) && Find(controls, controlId) < |controls|
    ensures AtLevel(controls, controlId, wanted) <==> wanted(controls[Find(controls, controlId)].riskLevel)
  {
  }

  lemma {:induction false} FindingsOfClass(r: Registry, controls: seq<ControlDefinition>, c: RiskClass,
                                           wanted: string -> bool)
    requires AllRegistered(r, controls) && IdsDistinct(controls)
    requires forall level :: wanted(level) <==> ClassOf(level) == c
    ensures Findings(r, controls, c) == |FindingsAt(r, controls, wanted)|
  {
    FindingsAreCells(r, controls, c);
    forall i | 0 <= i < |r|
      ensures Sizes(r, controls, c)[i]
           == if !r[i].result && AtLevel(controls, r[i].controlId, wanted) then |r[i].findings| else 0
    {
      LevelOfControl(controls, r[i].controlId, wanted);
    }
    assert Cells(Sizes(r, controls, c)) == FindingsAt(r, controls, wanted);
  }

  /** Each class counts the findings of the failing entries whose control has the text of its level:
      "high", "medium", or any other text. */
  lemma {:induction false} FindingsByLevel(r: Registry, controls: seq<ControlDefinition>)
    requires AllRegistered(r, controls) && IdsDistinct(controls)
    ensures Findings(r, controls, HighRisk) == |FindingsAt(r, controls, l => l == "high")|
    ensures Findings(r, controls, MediumRisk) == |FindingsAt(r, controls, l => l == "medium")|
    ensures Findings(r, controls, LowRisk) == |FindingsAt(r, controls, l => l != "high" && l != "medium")|
  {
    FindingsOfClass(r, controls, HighRisk, l => l == "high");
    FindingsOfClass(r, controls, MediumRisk, l => l == "medium");
    FindingsOfClass(r, controls, LowRisk, l => l != "high" && l != "medium");
  }

  /** Distinct registered ids are no more than the controls; if they are as many, none is missing. */
  lemma {:induction false} EntriesFitControls(r: Registry, controls: seq<ControlDefinition>)
    requires OneEntryEach(r) && AllRegistered(r, controls) && IdsDistinct(controls)
    ensures |r| <= |controls|
    ensures |r| == |controls| ==> forall c | 0 <= c < |controls| :: Position(r, controls[c].controlId) < |r|
  {
    if controls == [] {
      NothingRegistered(r, controls);
    } else {
      var n := |controls| - 1;
      var i := Position(r, controls[n].controlId);
      if i < |r| {
        var rest := r[..i] + r[i + 1..];
        RestIsRegistered(r, controls, i);
        EntriesFitControls(rest, controls[..n]);
        forall c | 0 <= c < n && |r| == |controls|
          ensures Position(r, controls[c].controlId) < |r|
        {
          assert controls[..n][c] == controls[c];
          FoundInRest(r, i, controls[c].controlId);
        }
      } else {
        EntriesFitControls(r, controls[..n]);
      }
    }
  }

  lemma {:induction false} FoundInRest(r: Registry, i: nat, controlId: string)
    requires i < |r| && Position(r[..i] + r[i + 1..], controlId) < |r| - 1
    ensures Position(r, controlId) < |r|
  {
    var j := Position(r[..i] + r[i + 1..], controlId);
    assert (r[..i] + r[i + 1..])[j] == if j < i then r[j] else r[j + 1];
  }

  lemma {:induction false} RestIsRegistered(r: Registry, controls: seq<ControlDefinition>, i: nat)
    requires OneEntryEach(r) && AllRegistered(r, controls) && controls != [] && i < |r|
    requires r[i].controlId == controls[|controls| - 1].controlId
    ensures OneEntryEach(r[..i] + r[i + 1..]) && AllRegistered(r[..i] + r[i + 1..], controls[..|controls| - 1])
  {
    var rest := r[..i] + r[i + 1..];
    assert forall j | 0 <= j < |rest| :: rest[j] == if j < i then r[j] else r[j + 1];
    forall j | 0 <= j < |rest|
      ensures Find(controls[..|controls| - 1], rest[j].controlId) < |controls| - 1
    {
    }
  }

  lemma {:induction false} AllPass(r: Registry)
    ensures Passing(r) <= |r|
    ensures Passing(r) == |r| <==> forall i | 0 <= i < |r| :: r[i].result
  {
    if r != [] {
      AllPass(r[..|r| - 1]);
    }
  }

  /** What the report's percentage means: with `total` controls it lies in 0..100, and is 100
      exactly when the latest execution of every control passes. */
  lemma {:induction false} FullPercentage(history: seq<ControlExecution>, controls: seq<ControlDefinition>)
    requires IdsDistinct(controls) && AllRegistered(history, controls) && StatusTellsResult(history)
    ensures |Fold(history)| <= |controls|
    ensures 0.0 <= Percentage(Passing(Fold(history)), |controls|) <= 100.0
    ensures Percentage(Passing(Fold(history)), |controls|) == 100.0
       <==> controls != [] && forall c | 0 <= c < |controls| :: StatusOf(history, controls[c].controlId) == Active
  {
    FoldOfHistory(history);
    FoldRegisteredIff(history, controls);
    EntriesFitControls(Fold(history), controls);
    AllPass(Fold(history));
    PercentageRange(Passing(Fold(history)), |controls|);
    FullIffActive(Fold(history), controls);
    forall c | 0 <= c < |controls|
      ensures StatusOf(history, controls[c].controlId) == Active
         <==> HasPassingEntry(Fold(history), controls[c].controlId)
    {
    }
  }

  lemma {:induction false} PercentageRange(passing: nat, total: nat)
    requires passing <= total
    ensures 0.0 <= Percentage(passing, total) <= 100.0
    ensures Percentage(passing, total) == 100.0 <==> total > 0 && passing == total
  {
    if total > 0 {
      Ratio(passing as real, total as real);
    }
  }

  /** The percentage times the number of controls is a hundred times the number of passing ones. */
  lemma {:induction false} PercentageOfTotal(passing: nat, total: nat)
    requires total > 0
    ensures Percentage(passing, total) * total as real == 100.0 * passing as real
  {
    var ratio := passing as real / total as real;
    assert ratio * total as real == passing as real;
  }

  lemma {:induction false} Ratio(p: real, t: real)
    requires 0.0 <= p <= t && t > 0.0
    ensures 0.0 <= p / t <= 1.0 && (p / t == 1.0 <==> p == t)
  {
    assert p / t * t == p;
  }

  predicate HasPassingEntry(r: Registry, controlId: string) {
    Entry(r, controlId).Some? && Entry(r, controlId).value.result
  }

  lemma {:induction false} FullIffActive(r: Registry, controls: seq<ControlDefinition>)
    requires OneEntryEach(r) && AllRegistered(r, controls) && IdsDistinct(controls)
    ensures Passing(r) == |controls| <==> forall c | 0 <= c < |controls| :: HasPassingEntry(r, controls[c].controlId)
  {
    AllPass(r);
    EntriesFitControls(r, controls);
    if forall c | 0 <= c < |controls| :: HasPassingEntry(r, controls[c].controlId) {
      EveryControlPasses(r, controls);
    }
    if Passing(r) == |controls| {
      forall c | 0 <= c < |controls|
        ensures HasPassingEntry(r, controls[c].controlId)
      {
        assert Position(r, controls[c].controlId) < |r|;
      }
    }
  }

  /** If each control has a passing entry, there are as many passing entries as controls. */
  lemma {:induction false} EveryControlPasses(r: Registry, controls: seq<ControlDefinition>)
    requires OneEntryEach(r) && AllRegistered(r, controls) && IdsDistinct(controls)
    requires forall c | 0 <= c < |controls| :: HasPassingEntry(r, controls[c].controlId)
    ensures Passing(r) == |controls|
  {
    AllPass(r);
    forall i | 0 <= i < |r|
      ensures r[i].result
    {
      var c := Find(controls, r[i].controlId);
      PositionIsUnique(r, r[i].controlId, i);
      assert HasPassingEntry(r, controls[c].controlId);
    }
    forall c | 0 <= c < |controls|
      ensures Position(r, controls[c].controlId) < |r|
    {
      assert HasPassingEntry(r, controls[c].controlId);
    }
    ControlsFitEntries(r, controls);
    EntriesFitControls(r, controls);
  }

  lemma {:induction false} ControlsFitEntries(r: Registry, controls: seq<ControlDefinition>)
    requires OneEntryEach(r) && IdsDistinct(controls)
    requires forall c | 0 <= c < |controls| :: Position(r, controls[c].controlId) < |r|
    ensures |controls| <= |r|
  {
    if controls != [] {
      var n := |controls| - 1;
      var i := Position(r, controls[n].controlId);
      var rest := r[..i] + r[i + 1..];
      assert forall j | 0 <= j < |rest| :: rest[j] == if j < i then r[j] else r[j + 1];
      forall c | 0 <= c < n
        ensures Position(rest, controls[..n][c].controlId) < |rest|
      {
        var j := Position(r, controls[c].controlId);
        assert j != i;
        assert rest[if j < i then j else j - 1] == r[j];
      }
      ControlsFitEntries(rest, controls[..n]);
    }
  }

  /** An id is listed as failing exactly when its status is `Failed`, and its status is inactive exactly
      when no execution is recorded under it. */
  lemma {:induction false} FailingIffFailed(history: seq<ControlExecution>, controlId: string)
    requires StatusTellsResult(history)
    ensures Names(Failing(Fold(history)), controlId) <==> StatusOf(history, controlId) == Failed
    ensures StatusOf(history, controlId) == Inactive <==> !Names(history, controlId)
  {
    FoldOfHistory(history);
    FailingEntries(Fold(history), controlId);
    FoldNames(history, controlId);
  }

  /** The registry lists the controls in the order of their first executions: each execution of a control has
      one of every control listed before it. */
  lemma {:induction false} RegistryKeepsOrder(history: seq<ControlExecution>, i: nat, j: nat, q: nat)
    requires i < j < |Fold(history)| && q < |history| && history[q].controlId == Fold(history)[j].controlId
    ensures Names(history[..q], Fold(history)[i].controlId)
  {
    var n := |history| - 1;
    var front := history[..n];
    var id, r := Fold(history)[i].controlId, Fold(front);
    assert i < |r| && r[i].controlId == id;
    FoldNames(front, id);
    if q < n {
      assert front[..q] == history[..q];
      FoldNames(front, history[q].controlId);
      assert front[q] == history[q];
      FoldHasOneEntryEach(history);
      assert j < |r|;
      RegistryKeepsOrder(front, i, j, q);
    }
  }

  /** Some execution in the list is one of the given control. */
  predicate Names(s: seq<ControlExecution>, controlId: string) {
    exists i | 0 <= i < |s| :: s[i].controlId == controlId
  }

  lemma {:induction false} NamesAppend(s: seq<ControlExecution>, e: ControlExecution, controlId: string)
    ensures Names(s + [e], controlId) <==> Names(s, controlId) || e.controlId == controlId
  {
    assert (s + [e])[|s|] == e && forall i | 0 <= i < |s| :: (s + [e])[i] == s[i];
  }

  lemma {:induction false} FailingEntries(r: Registry, controlId: string)
    requires OneEntryEach(r)
    ensures Names(Failing(r), controlId) <==> Entry(r, controlId).Some? && !Entry(r, controlId).value.result
  {
    if r != [] {
      var n := |r| - 1;
      FailingEntries(r[..n], controlId);
      NamesAppend(Failing(r[..n]), r[n], controlId);
      assert Failing(r[..n]) + [] == Failing(r[..n]);
      if r[n].controlId == controlId {
        FailingAreEntries(r[..n], controlId);
      }
    }
  }

  lemma {:induction false} FailingAreEntries(r: Registry, controlId: string)
    requires !Names(r, controlId)
    ensures !Names(Failing(r), controlId)
  {
    if r != [] {
      var n := |r| - 1;
      assert r == r[..n] + [r[n]];
      NamesAppend(r[..n], r[n], controlId);
      FailingAreEntries(r[..n], controlId);
      NamesAppend(Failing(r[..n]), r[n], controlId);
      assert Failing(r[..n]) + [] == Failing(r[..n]);
    }
  }

  // ---------- over every run of calls ----------

  ghost predicate CallAt(cs: seq<Call>, ss: seq<State>, k: nat)
    requires k < |cs| && |ss| == |cs| + 1
  {
    ss[k + 1] == AfterCall(ss[k], cs[k])
  }

  ghost predicate IsRun(cs: seq<Call>, ss: seq<State>) {
    && |ss| == |cs| + 1
    && ss[0] == State([], [])
    && forall k {:trigger CallAt(cs, ss, k)} | 0 <= k < |cs| :: CallAt(cs, ss, k)
  }

  lemma {:induction false} RunsAreValid(cs: seq<Call>, ss: seq<State>, k: nat)
    requires IsRun(cs, ss) && k <= |cs|
    ensures ValidState(ss[k])
  {
    if k > 0 {
      RunsAreValid(cs, ss, k - 1);
      assert CallAt(cs, ss, k - 1);
      CallKeepsValid(ss[k - 1], cs[k - 1]);
    }
  }

  /** The call executes a control, successfully, under the recorded id `id`. */
  predicate Records(s: State, c: Call, id: string) {
    c.Execute? && ReturnsOk(s, c) && Strip(c.controlId) == id
  }

  /** One of the first `k` calls did. */
  predicate RecordedBefore(cs: seq<Call>, ss: seq<State>, k: nat, id: string)
    requires k <= |cs| && |ss| == |cs| + 1
  {
    exists j | 0 <= j < k :: Records(ss[j], cs[j], id)
  }

  lemma {:induction false} CallNames(s: State, c: Call, id: string)
    ensures Names(AfterCall(s, c).executions, id) <==> Names(s.executions, id) || Records(s, c, id)
  {
    if c.Execute? && ReturnsOk(s, c) {
      NamesAppend(s.executions, ExecutionOf(c.controlId, c.hook, c.start), id);
    }
  }

  lemma {:induction false} NamedIffRecorded(cs: seq<Call>, ss: seq<State>, k: nat, id: string)
    requires IsRun(cs, ss) && k <= |cs|
    ensures Names(ss[k].executions, id) <==> RecordedBefore(cs, ss, k, id)
  {
    if k > 0 {
      NamedIffRecorded(cs, ss, k - 1, id);
      assert CallAt(cs, ss, k - 1);
      CallNames(ss[k - 1], cs[k - 1], id);
    }
  }

  /** Every control executed by the first `k` calls is registered under its trimmed id after them. */
  predicate TrimmedIdsRegistered(cs: seq<Call>, ss: seq<State>, k: nat)
    requires k <= |cs| && |ss| == |cs| + 1
  {
    forall j | 0 <= j < k && cs[j].Execute? && ReturnsOk(ss[j], cs[j]) ::
      Find(ss[k].controls, Strip(cs[j].controlId)) < |ss[k].controls|
  }

  /** The report, after any run of calls, succeeds if and only if the trimmed id of every control that was
      executed is itself a registered id. */
  lemma {:induction false} ReportOkIff(cs: seq<Call>, ss: seq<State>, k: nat)
    requires IsRun(cs, ss) && k <= |cs|
    ensures AllRegistered(ss[k].executions, ss[k].controls) <==> TrimmedIdsRegistered(cs, ss, k)
  {
    var s := ss[k];
    if AllRegistered(s.executions, s.controls) {
      forall j | 0 <= j < k && cs[j].Execute? && ReturnsOk(ss[j], cs[j])
        ensures Find(s.controls, Strip(cs[j].controlId)) < |s.controls|
      {
        assert Records(ss[j], cs[j], Strip(cs[j].controlId));
        NamedIffRecorded(cs, ss, k, Strip(cs[j].controlId));
        var i :| 0 <= i < |s.executions| && s.executions[i].controlId == Strip(cs[j].controlId);
      }
    }
    if TrimmedIdsRegistered(cs, ss, k) {
      forall i | 0 <= i < |s.executions|
        ensures Find(s.controls, s.executions[i].controlId) < |s.controls|
      {
        assert Names(s.executions, s.executions[i].controlId);
        NamedIffRecorded(cs, ss, k, s.executions[i].controlId);
        var j :| 0 <= j < k && Records(ss[j], cs[j], s.executions[i].controlId);
      }
    }
  }

  /** The calls that break the report: executing a control breaks it if and only if the trimmed id is not
      registered. */
  lemma {:induction false} ExecuteKeepsReportIff(s: State, c: Call)
    requires AllRegistered(s.executions, s.controls) && c.Execute? && ReturnsOk(s, c)
    ensures AllRegistered(AfterCall(s, c).executions, AfterCall(s, c).controls)
       <==> Find(s.controls, Strip(c.controlId)) < |s.controls|
  {
    var e := ExecutionOf(c.controlId, c.hook, c.start);
    assert (s.executions + [e])[|s.executions|] == e;
    assert forall i | 0 <= i < |s.executions| :: (s.executions + [e])[i] == s.executions[i];
  }

  /** As long as every registered id is free of white space at its ends, no report fails. */
  lemma {:induction false} TrimmedControlsReport(s: State)
    requires ValidState(s)
    requires forall c | 0 <= c < |s.controls| :: Strip(s.controls[c].controlId) == s.controls[c].controlId
    ensures AllRegistered(s.executions, s.controls)
  {
    forall i | 0 <= i < |s.executions|
      ensures Find(s.controls, s.executions[i].controlId) < |s.controls|
    {
      assert TrimmedFrom(s.controls, s.executions[i].controlId);
      var c :| 0 <= c < |s.controls| && Strip(s.controls[c].controlId) == s.executions[i].controlId;
    }
  }

  /** A control's status is inactive if and only if no control whose trimmed id is this control's id was
      executed; so it stays inactive for good when its own id has white space at an end. */
  lemma {:induction false} InactiveIff(cs: seq<Call>, ss: seq<State>, k: nat, id: string)
    requires IsRun(cs, ss) && k <= |cs|
    ensures StatusOf(ss[k].executions, id) == Inactive <==> !RecordedBefore(cs, ss, k, id)
    ensures Strip(id) != id ==> StatusOf(ss[k].executions, id) == Inactive
  {
    RunsAreValid(cs, ss, k);
    FailingIffFailed(ss[k].executions, id);
    NamedIffRecorded(cs, ss, k, id);
    if RecordedBefore(cs, ss, k, id) {
      var j :| 0 <= j < k && Records(ss[j], cs[j], id);
      StripTwice(cs[j].controlId);
    }
  }

  /** A control registered as " X" is executed: both calls return `Ok`, the report fails, the control is
      still inactive, and the status of the id that was recorded cannot be asked for. */
  lemma {:induction false} PaddedIdBreaksReport() returns (cs: seq<Call>, ss: seq<State>)
    ensures IsRun(cs, ss) && |cs| == 2 && cs[0].Register? && cs[1].Execute?
    ensures cs[0].control.controlId == cs[1].controlId == " X"
    ensures ReturnsOk(ss[0], cs[0]) && ReturnsOk(ss[1], cs[1])
    ensures !AllRegistered(ss[2].executions, ss[2].controls)
    ensures StatusOf(ss[2].executions, " X") == Inactive
    ensures StatusOf(ss[2].executions, "X") == Active && Find(ss[2].controls, "X") == |ss[2].controls|
  {
    assert " X" == [' '] + "X" && !Space('X');
    StripLeadingSpace("X");
    var control, hook := ControlDefinition(" X", "high"), HookResult(true, [], true);
    var e := ControlExecution("X", 0, Active, true, []);
    cs := [Register(control), Execute(" X", hook, 0, 0)];
    ss := [State([], []), State([control], []), State([control], [e])];
    assert " X" != "X" by {
      assert |" X"| != |"X"|;
    }
    assert ss[1].controls[0].controlId == " X";
    assert ExecutionOf(" X", hook, 0) == e;
    assert CallAt(cs, ss, 0);
    assert CallAt(cs, ss, 1);
    OneExecution(e);
    InactiveIff(cs, ss, 2, " X");
    assert ss[2].executions[0].controlId == "X";
  }

  lemma {:induction false} OneExecution(e: ControlExecution)
    ensures StatusOf([e], e.controlId) == e.status
  {
    assert [e][..0] == [];
    assert Fold([e]) == [e];
    PositionIsUnique([e], e.controlId, 0);
  }
}
