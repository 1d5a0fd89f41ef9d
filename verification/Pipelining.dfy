/** Pipelines of dependent operations: graph construction, scheduling and execution (pipelining.go). */
module Pipelining {
  import opened Wrappers
  import opened Graphs
  import References
  import opened Sequences

  /** The parts of a *PipelineOperation that execution reads; address stands for the pointer itself. */
  datatype Operation = Operation(address: nat, target: int, resultID: int, dependencies: seq<int>)

  datatype OperationStatus = OpPending | OpRunning | OpCompleted | OpFailed

  datatype PipelineStatus = Pending | Running | Completed | Failed | Cancelled

  /** What happens when the executor reaches the next operation. */
  datatype Event =
    | ContextDone           // the pipeline's context is already cancelled: the operation is not started
    | CallFails             // the stub refuses the call or the get
    | Unsupported           // any type other than call and get: refused with the status left at running
    | CallSucceeds

  // ---------------------------------------------------------------- who produces a result

  /** The operation registered for a result id: the last one declaring it; id 0 means "no result". */
  function Producer(ops: seq<Operation>, id: int): Option<Operation> {
    if ops == [] || id == 0 then None
    else if ops[|ops| - 1].resultID == id then Some(ops[|ops| - 1])
    else Producer(ops[..|ops| - 1], id)
  }

  ghost predicate DependsOn(ops: seq<Operation>, op: Operation, on: Operation) {
    exists id :: id in op.dependencies && Producer(ops, id) == Some(on)
  }

  /** With distinct nonzero result ids, the producer is simply the operation carrying that id. */
  lemma {:induction false} ProducerIsUnique(ops: seq<Operation>, id: int, op: Operation)
    requires forall i, j :: 0 <= i < j < |ops| && ops[i].resultID != 0 ==> ops[i].resultID != ops[j].resultID
    ensures Producer(ops, id) == Some(op) <==> id != 0 && op in ops && op.resultID == id
  {
    if ops != [] && id != 0 {
      var last := |ops| - 1;
      ProducerIsUnique(ops[..last], id, op);
      assert ops == ops[..last] + [ops[last]];
    }
  }

  ghost predicate DeclaresLast(ops: seq<Operation>, i: int, id: int) {
    0 <= i < |ops| && ops[i].resultID == id && forall j :: i < j < |ops| ==> ops[j].resultID != id
  }

  lemma DeclaresInFront(ops: seq<Operation>, i: int, id: int)
    requires ops != [] && ops[|ops| - 1].resultID != id
    ensures DeclaresLast(ops, i, id) <==> DeclaresLast(ops[..|ops| - 1], i, id)
  {
    assert forall j :: 0 <= j < |ops| - 1 ==> ops[..|ops| - 1][j] == ops[j];
  }

  /** Whatever ids repeat, the producer is the last operation that declares the id; id 0 has none. */
  lemma {:induction false} ProducerIsLast(ops: seq<Operation>, id: int, op: Operation)
    ensures Producer(ops, id) == Some(op) <==> id != 0 && exists i :: DeclaresLast(ops, i, id) && ops[i] == op
  {
    if ops != [] && id != 0 {
      var last := |ops| - 1;
      ProducerIsLast(ops[..last], id, op);
      if ops[last].resultID == id {
        assert DeclaresLast(ops, last, id);
      } else {
        forall i: int
          ensures DeclaresLast(ops, i, id) <==> DeclaresLast(ops[..last], i, id)
        {
          DeclaresInFront(ops, i, id);
        }
      }
    }
  }

  lemma {:induction false} ProducerIsListed(ops: seq<Operation>, id: int)
    ensures Producer(ops, id).Some? ==> Producer(ops, id).value in ops && Producer(ops, id).value.resultID == id && id != 0
  {
    if ops != [] {
      ProducerIsListed(ops[..|ops| - 1], id);
    }
  }

  /** The edges present once i operations and the first k dependencies of the next one have been processed. */
  ghost predicate Linked(ops: seq<Operation>, i: nat, k: nat, v: Operation, u: Operation)
    requires i < |ops| && k <= |ops[i].dependencies|
  {
    || (v in ops[..i] && DependsOn(ops, v, u))
    || (v == ops[i] && exists id :: id in ops[i].dependencies[..k] && Producer(ops, id) == Some(u))
  }

  lemma LinkedStep(ops: seq<Operation>, i: nat, k: nat, v: Operation, u: Operation)
    requires i < |ops| && k < |ops[i].dependencies|
    ensures Linked(ops, i, k + 1, v, u)
      <==> Linked(ops, i, k, v, u) || (v == ops[i] && Producer(ops, ops[i].dependencies[k]) == Some(u))
  {
    var deps := ops[i].dependencies;
    assert deps[..k + 1] == deps[..k] + [deps[k]];
    if v == ops[i] && Producer(ops, deps[k]) == Some(u) {
      assert deps[k] in deps[..k + 1];
    }
  }

  /** Edges run from a producer to every operation that names its result as a dependency. */
  method BuildDependencyGraph(operations: seq<Operation>) returns (graph: Graph<Operation>)
    ensures forall op :: op in graph <==> op in operations
    ensures forall u, v :: u in graph ==> (v in graph[u] <==> v in operations && DependsOn(operations, v, u))
  {
    graph := map[];
    var opsByResult: map<int, Operation> := map[];
    for i := 0 to |operations|
      invariant forall op :: op in graph <==> op in operations[..i]
      invariant forall op :: op in graph ==> graph[op] == []
      invariant forall id :: id in opsByResult <==> Producer(operations[..i], id).Some?
      invariant forall id :: id in opsByResult ==> Producer(operations[..i], id) == Some(opsByResult[id])
    {
      assert operations[..i + 1][..i] == operations[..i];
      if operations[i].resultID != 0 {
        opsByResult := opsByResult[operations[i].resultID := operations[i]];
      }
      graph := graph[operations[i] := []];
    }
    assert operations[..|operations|] == operations;
    for i := 0 to |operations|
      invariant forall op :: op in graph <==> op in operations
      invariant forall u, v :: u in graph ==> (v in graph[u] <==> v in operations[..i] && DependsOn(operations, v, u))
    {
      var op := operations[i];
      for k := 0 to |op.dependencies|
        invariant forall o :: o in graph <==> o in operations
        invariant forall u, v :: u in graph ==>
          (v in graph[u] <==> Linked(operations, i, k, v, u))
      {
        var depID := op.dependencies[k];
        assert op.dependencies[..k + 1] == op.dependencies[..k] + [depID];
        ProducerIsListed(operations, depID);
        forall u, v
          ensures Linked(operations, i, k + 1, v, u)
            <==> Linked(operations, i, k, v, u) || (v == op && Producer(operations, depID) == Some(u))
        {
          LinkedStep(operations, i, k, v, u);
        }
        if depID in opsByResult {
          var depOp := opsByResult[depID];
          graph := graph[depOp := graph[depOp] + [op]];
        }
      }
      assert op.dependencies[..|op.dependencies|] == op.dependencies;
      assert operations[..i + 1] == operations[..i] + [op];
    }
  }

  // ---------------------------------------------------------------- execution

  /** How many of n operations get started when the i-th event decides the fate of the i-th operation. */
  function StartedCount(events: nat -> Event, i: nat, n: nat): (k: nat)
    requires i <= n
    ensures i <= k <= n
    decreases n - i
  {
    if i == n || events(i) == ContextDone then i
    else if events(i) == CallSucceeds then StartedCount(events, i + 1, n)
    else i + 1
  }

  function StatusAfter(event: Event): OperationStatus {
    match event
    case CallSucceeds => OpCompleted
    case CallFails => OpFailed
    case Unsupported => OpRunning
    case ContextDone => OpPending
  }

  /** The statuses once the operations in ran have been started, the i-th meeting the i-th event. */
  function StatusesAfter(before: map<Operation, OperationStatus>, ran: seq<Operation>, events: nat -> Event)
    : map<Operation, OperationStatus>
  {
    if ran == [] then before
    else
      var last := |ran| - 1;
      StatusesAfter(before, ran[..last], events)[ran[last] := StatusAfter(events(last))]
  }

  /** Every started operation makes a new stub for its target, which overwrites the target's import entry. */
  function ImportsAfter(before: map<int, int>, ran: seq<Operation>): map<int, int> {
    if ran == [] then before else ImportsAfter(before, ran[..|ran| - 1])[ran[|ran| - 1].target := 1]
  }

  /** Whatever was counted for a target is forgotten; all other entries are as before. */
  lemma {:induction false} TargetsLoseTheirCounts(before: map<int, int>, ran: seq<Operation>, id: int)
    ensures var after := ImportsAfter(before, ran);
      if exists op :: op in ran && op.target == id then id in after && after[id] == 1
      else (id in after <==> id in before) && (id in before ==> after[id] == before[id])
  {
    if ran != [] {
      var last := |ran| - 1;
      assert ran == ran[..last] + [ran[last]];
      TargetsLoseTheirCounts(before, ran[..last], id);
    }
  }

  /** Operations that never ran keep their status; every one that ran is completed unless it ended the run. */
  lemma {:induction false} StatusesExplained(before: map<Operation, OperationStatus>, ran: seq<Operation>, events: nat -> Event,
                                             op: Operation)
    requires AllSucceed(events, |ran| - 1)
    ensures var after := StatusesAfter(before, ran, events);
      if op !in ran then (op in after <==> op in before) && (op in before ==> after[op] == before[op])
      else op in after && after[op] == if op == ran[|ran| - 1] then StatusAfter(events(|ran| - 1)) else OpCompleted
  {
    if ran != [] {
      var last := |ran| - 1;
      assert ran == ran[..last] + [ran[last]];
      StatusesExplained(before, ran[..last], events, op);
    }
  }

  /** The status an operation gets from what it met. */
  ghost predicate Recorded(after: map<Operation, OperationStatus>, op: Operation, event: Event) {
    && op in after
    && (after[op] == OpCompleted <==> event == CallSucceeds)
    && (after[op] == OpFailed <==> event == CallFails)
    && (after[op] == OpRunning <==> event == Unsupported)
  }

  /** The i-th started operation, if it is not started again later, is recorded with what it met. */
  lemma {:induction false} StatusByEvent(before: map<Operation, OperationStatus>, ran: seq<Operation>, events: nat -> Event, i: nat)
    requires i < |ran| && events(i) != ContextDone && forall j :: i < j < |ran| ==> ran[j] != ran[i]
    ensures Recorded(StatusesAfter(before, ran, events), ran[i], events(i))
    decreases |ran|
  {
    var last := |ran| - 1;
    if i < last {
      assert ran[last] != ran[i];
      StatusByEvent(before, ran[..last], events, i);
    }
  }

  /** How n operations end when k of them are started: all succeed, the last one is refused, or the context is done. */
  ghost predicate Ended(events: nat -> Event, k: nat, n: nat, ok: bool) {
    && k <= n
    && (forall i :: 0 <= i < k - 1 ==> events(i) == CallSucceeds)
    && (if ok then k == n && (k > 0 ==> events(k - 1) == CallSucceeds)
        else || (k > 0 && events(k - 1) in {CallFails, Unsupported})
             || (k < n && events(k) == ContextDone && (k > 0 ==> events(k - 1) == CallSucceeds)))
  }

  lemma {:induction false} StartedCountEnds(events: nat -> Event, i: nat, n: nat)
    requires i <= n && forall j :: 0 <= j < i ==> events(j) == CallSucceeds
    ensures Ended(events, StartedCount(events, i, n), n, AllSucceed(events, n))
    decreases n - i
  {
    if i < n && events(i) == CallSucceeds {
      StartedCountEnds(events, i + 1, n);
    }
  }

  /** With no operation started twice: everything but the last started operation is completed, and the last is as it ended. */
  ghost predicate RecordedAsEnded(after: map<Operation, OperationStatus>, started: seq<Operation>, events: nat -> Event, ok: bool) {
    && (forall op :: op in started ==> op in after)
    && (forall i :: 0 <= i < |started| - 1 ==> after[started[i]] == OpCompleted)
    && (started != [] ==>
      var last := |started| - 1;
      && (after[started[last]] == OpFailed <==> events(last) == CallFails)
      && (after[started[last]] == OpRunning <==> events(last) == Unsupported)
      && (after[started[last]] == OpCompleted <==> events(last) == CallSucceeds)
      && (after[started[last]] in {OpFailed, OpRunning} ==> !ok))
  }

  lemma RunIsRecorded(before: map<Operation, OperationStatus>, started: seq<Operation>, events: nat -> Event, n: nat, ok: bool)
    requires Distinct(started) && Ended(events, |started|, n, ok)
    ensures RecordedAsEnded(StatusesAfter(before, started, events), started, events, ok)
  {
    forall i | 0 <= i < |started|
      ensures Recorded(StatusesAfter(before, started, events), started[i], events(i))
    {
      StatusByEvent(before, started, events, i);
    }
  }

  lemma FullRunCompletes(before: map<Operation, OperationStatus>, ran: seq<Operation>, events: nat -> Event)
    requires AllSucceed(events, |ran|)
    ensures forall op :: op in ran ==> op in StatusesAfter(before, ran, events) && StatusesAfter(before, ran, events)[op] == OpCompleted
  {
    forall op | op in ran
      ensures op in StatusesAfter(before, ran, events) && StatusesAfter(before, ran, events)[op] == OpCompleted
    {
      StatusesExplained(before, ran, events, op);
    }
  }

  ghost predicate AllSucceed(events: nat -> Event, n: int) {
    forall i :: 0 <= i < n ==> events(i) == CallSucceeds
  }

  /** Everything a started operation depends on was started, and strictly earlier. */
  ghost predicate StartedInDependencyOrder(ops: seq<Operation>, started: seq<Operation>) {
    forall j, on :: 0 <= j < |started| && DependsOn(ops, started[j], on) ==> on in started[..j]
  }

  /** Operations that wait, directly or through others, for themselves. */
  ghost predicate IsDependencyCycle(ops: seq<Operation>, p: seq<Operation>) {
    && |p| >= 2 && p[0] == p[|p| - 1]
    && (forall i :: 0 <= i < |p| ==> p[i] in ops)
    && (forall i :: 0 <= i < |p| - 1 ==> DependsOn(ops, p[i + 1], p[i]))
  }

  ghost predicate HasDependencyCycle(ops: seq<Operation>) {
    exists p :: IsDependencyCycle(ops, p)
  }

  ghost predicate IsGraphOf(ops: seq<Operation>, graph: Graph<Operation>) {
    && (forall op :: op in graph <==> op in ops)
    && (forall u, v :: u in graph ==> (v in graph[u] <==> v in ops && DependsOn(ops, v, u)))
  }

  lemma NodesAreOperations(ops: seq<Operation>, graph: Graph<Operation>)
    requires IsGraphOf(ops, graph)
    ensures Nodes(graph) == graph.Keys
  {
  }

  lemma EdgeIsDependency(ops: seq<Operation>, graph: Graph<Operation>, u: Operation, v: Operation)
    requires IsGraphOf(ops, graph)
    ensures Edge(graph, u, v) <==> v in ops && DependsOn(ops, v, u)
  {
    if DependsOn(ops, v, u) {
      var id :| id in v.dependencies && Producer(ops, id) == Some(u);
      ProducerIsListed(ops, id);
    }
  }

  lemma CyclesAgree(ops: seq<Operation>, graph: Graph<Operation>)
    requires IsGraphOf(ops, graph)
    ensures HasCycle(graph) <==> HasDependencyCycle(ops)
  {
    if HasCycle(graph) {
      var p :| IsCycle(graph, p);
      forall i | 0 <= i < |p| - 1
        ensures DependsOn(ops, p[i + 1], p[i])
      {
        assert Edge(graph, p[i], p[i + 1]);
        EdgeIsDependency(ops, graph, p[i], p[i + 1]);
      }
      forall i | 0 <= i < |p|
        ensures p[i] in ops
      {
        var j := if i == 0 then 0 else i - 1;
        assert Edge(graph, p[j], p[j + 1]);
        EdgeIsDependency(ops, graph, p[j], p[j + 1]);
      }
      assert IsDependencyCycle(ops, p);
    }
    if HasDependencyCycle(ops) {
      var p :| IsDependencyCycle(ops, p);
      forall i | 0 <= i < |p| - 1
        ensures Edge(graph, p[i], p[i + 1])
      {
        EdgeIsDependency(ops, graph, p[i], p[i + 1]);
      }
      assert IsCycle(graph, p);
    }
  }

  /** However far a topological order is executed, what ran is dependency-closed. */
  lemma PrefixRespectsDependencies(ops: seq<Operation>, graph: Graph<Operation>, order: seq<Operation>, k: nat)
    requires IsGraphOf(ops, graph) && IsTopologicalOrder(graph, order) && k <= |order|
    ensures StartedInDependencyOrder(ops, order[..k])
  {
    forall j, on | 0 <= j < k && DependsOn(ops, order[j], on)
      ensures on in order[..k][..j]
    {
      assert order[j] in Nodes(graph);
      EdgeIsDependency(ops, graph, on, order[j]);
      PrefixIsClosed(graph, order, k, on, j);
      assert order[..k][..j] == order[..j];
    }
  }

  /** Each operation once, and every prefix dependency-closed. */
  ghost predicate IsSchedule(ops: seq<Operation>, order: seq<Operation>) {
    && Distinct(order)
    && (forall op :: op in order <==> op in ops)
    && StartedInDependencyOrder(ops, order)
  }

  lemma ScheduleFromOrder(ops: seq<Operation>, graph: Graph<Operation>, order: seq<Operation>)
    requires IsGraphOf(ops, graph) && IsTopologicalOrder(graph, order)
    ensures IsSchedule(ops, order)
  {
    NodesAreOperations(ops, graph);
    PrefixRespectsDependencies(ops, graph, order, |order|);
    assert order[..|order|] == order;
  }

  /** However far a schedule is executed, what ran is listed once, belongs to the pipeline and is dependency-closed. */
  lemma SchedulePrefix(ops: seq<Operation>, order: seq<Operation>, k: nat)
    requires IsSchedule(ops, order) && k <= |order|
    ensures StartedInDependencyOrder(ops, order[..k]) && Distinct(order[..k])
    ensures forall op :: op in order[..k] ==> op in ops
  {
    forall j, on | 0 <= j < k && DependsOn(ops, order[..k][j], on)
      ensures on in order[..k][..j]
    {
      assert order[..k][..j] == order[..j];
    }
  }

  lemma StartedAllSucceeded(order: seq<Operation>, events: nat -> Event)
    requires AllSucceed(events, |order|)
    ensures AllSucceed(events, |order[..StartedCount(events, 0, |order|)]|)
  {
  }

  /** What a pipeline run promises about the operations it started, however it ended. */
  ghost predicate RunOutcome(ops: seq<Operation>, optimise: bool, started: seq<Operation>, ok: bool) {
    && (forall op :: op in started ==> op in ops)
    && (optimise ==> Distinct(started) && StartedInDependencyOrder(ops, started))
    && (ok ==> forall op :: op in ops ==> op in started)
    && (ok && !optimise ==> started == ops)
  }

  lemma ScheduledRun(ops: seq<Operation>, optimise: bool, order: seq<Operation>, events: nat -> Event)
    requires if optimise then IsSchedule(ops, order) else order == ops
    ensures RunOutcome(ops, optimise, order[..StartedCount(events, 0, |order|)], AllSucceed(events, |order|))
  {
    var k := StartedCount(events, 0, |order|);
    if optimise {
      SchedulePrefix(ops, order, k);
    }
    if AllSucceed(events, |order|) {
      FullRun(events, 0, |order|);
      assert order[..k] == order;
    }
  }

  /** All events up to n succeed exactly when all n operations are started and none of them stops the run. */
  lemma {:induction false} FullRun(events: nat -> Event, i: nat, n: nat)
    requires i <= n
    ensures (forall j :: i <= j < n ==> events(j) == CallSucceeds) ==> StartedCount(events, i, n) == n
    ensures forall j :: i <= j < StartedCount(events, i, n) - 1 ==> events(j) == CallSucceeds
    ensures StartedCount(events, i, n) == n && (n > i ==> events(n - 1) == CallSucceeds)
      ==> forall j :: i <= j < n ==> events(j) == CallSucceeds
    decreases n - i
  {
    if i < n && events(i) == CallSucceeds {
      FullRun(events, i + 1, n);
    }
  }

  // ---------------------------------------------------------------- the status under concurrent callers

  /** The critical sections that touch the status; any number of threads may attempt each, in any order. */
  datatype StatusStep = Begin | Finish(ok: bool) | Cancel

  function NextStatus(status: PipelineStatus, step: StatusStep): PipelineStatus {
    match step
    case Begin => if status == Pending then Running else status
    case Finish(ok) => if ok then Completed else Failed
    case Cancel => if status in {Completed, Failed} then status else Cancelled
  }

  /** begun counts the callers that passed the guard, finished those that wrote their final status. */
  datatype Lifecycle = Lifecycle(status: PipelineStatus, begun: nat, finished: nat)

  /** Only a caller that passed the guard finishes, and only once. */
  function StepLifecycle(l: Lifecycle, step: StatusStep): Lifecycle {
    if step.Finish? && l.finished >= l.begun then l
    else Lifecycle(
      NextStatus(l.status, step),
      if step.Begin? && l.status == Pending then l.begun + 1 else l.begun,
      if step.Finish? then l.finished + 1 else l.finished)
  }

  function RunLifecycle(steps: seq<StatusStep>): Lifecycle {
    if steps == [] then Lifecycle(Pending, 0, 0)
    else StepLifecycle(RunLifecycle(steps[..|steps| - 1]), steps[|steps| - 1])
  }

  /** In every interleaving at most one execution happens, and it has ended exactly when the status says so. */
  lemma {:induction false} ExecutedAtMostOnce(steps: seq<StatusStep>)
    ensures var l := RunLifecycle(steps);
      && l.finished <= l.begun <= 1
      && (l.status == Pending ==> l.begun == 0)
      && (l.status in {Completed, Failed} <==> l.finished == 1)
  {
    if steps != [] {
      ExecutedAtMostOnce(steps[..|steps| - 1]);
    }
  }

  /** Completed and Failed are final, whatever is attempted afterwards. */
  lemma {:induction false} OutcomeIsFinal(steps: seq<StatusStep>, more: seq<StatusStep>)
    requires RunLifecycle(steps).status in {Completed, Failed}
    ensures RunLifecycle(steps + more).status == RunLifecycle(steps).status
  {
    ExecutedAtMostOnce(steps);
    if more == [] {
      assert steps + more == steps;
    } else {
      var all := steps + more;
      assert all[..|all| - 1] == steps + more[..|more| - 1];
      OutcomeIsFinal(steps, more[..|more| - 1]);
      ExecutedAtMostOnce(all[..|all| - 1]);
    }
  }

  lemma {:induction false} CancelledStays(steps: seq<StatusStep>, more: seq<StatusStep>)
    requires var l := RunLifecycle(steps); l.status == Cancelled && l.begun == 0 == l.finished
    ensures var l := RunLifecycle(steps + more); l.status == Cancelled && l.begun == 0 == l.finished
  {
    if more == [] {
      assert steps + more == steps;
    } else {
      var all := steps + more;
      assert all[..|all| - 1] == steps + more[..|more| - 1];
      CancelledStays(steps, more[..|more| - 1]);
    }
  }

  /** Cancelled is final, however the run continues, exactly when no execution is under way: a running one overwrites it. */
  lemma CancelledIsFinalUnlessRunning(steps: seq<StatusStep>)
    requires RunLifecycle(steps).status == Cancelled
    ensures (forall more :: RunLifecycle(steps + more).status == Cancelled) <==> RunLifecycle(steps).begun == 0
  {
    ExecutedAtMostOnce(steps);
    if RunLifecycle(steps).begun == 0 {
      forall more
        ensures RunLifecycle(steps + more).status == Cancelled
      {
        CancelledStays(steps, more);
      }
    } else {
      assert (steps + [Finish(true)])[..|steps|] == steps;
      assert RunLifecycle(steps + [Finish(true)]).status == Completed;
    }
  }

  class Pipeline {
    const session: References.Session
    var operations: seq<Operation>
    var status: PipelineStatus
    var opStatus: map<Operation, OperationStatus>
    var started: seq<Operation>   // operations in the order their StartedAt was set

    constructor (session: References.Session)
      ensures this.session == session && operations == [] && status == Pending && opStatus == map[] && started == []
    {
      this.session, operations, status, opStatus, started := session, [], Pending, map[], [];
    }

    method AddOperation(op: Operation, maxDepth: int) returns (ok: bool)
      modifies this`operations, this`opStatus
      ensures ok <==> old(status) == Pending && |old(operations)| < maxDepth
      ensures operations == if ok then old(operations) + [op] else old(operations)
      ensures opStatus == if ok then old(opStatus)[op := OpPending] else old(opStatus)
    {
      if status != Pending {
        return false;
      }
      if |operations| >= maxDepth {
        return false;
      }
      opStatus := opStatus[op := OpPending];
      operations := operations + [op];
      return true;
    }

    method OptimizePipeline(optimise: bool) returns (order: Option<seq<Operation>>)
      ensures !optimise ==> order == Some(operations)
      ensures optimise ==> (order.None? <==> HasDependencyCycle(operations))
      ensures optimise && order.Some? ==> IsSchedule(operations, order.value)
    {
      if !optimise {
        return Some(operations);
      }
      var graph := BuildDependencyGraph(operations);
      assert IsGraphOf(operations, graph);
      CyclesAgree(operations, graph);
      order := TopologicalSort(graph);
      if order.Some? {
        ScheduleFromOrder(operations, graph, order.value);
      }
    }

    method ExecuteBatchedOperations(order: seq<Operation>, events: nat -> Event) returns (ok: bool)
      modifies this`opStatus, this`started, session
      ensures started == old(started) + order[..StartedCount(events, 0, |order|)]
      ensures session.imports == ImportsAfter(old(session.imports), order[..StartedCount(events, 0, |order|)])
      ensures ok <==> AllSucceed(events, |order|)
      ensures Ended(events, StartedCount(events, 0, |order|), |order|, ok)
      ensures opStatus == StatusesAfter(old(opStatus), order[..StartedCount(events, 0, |order|)], events)
    {
      ghost var total := StartedCount(events, 0, |order|);
      StartedCountEnds(events, 0, |order|);
      for i := 0 to |order|
        invariant StartedCount(events, i, |order|) == total
        invariant forall j :: 0 <= j < i ==> events(j) == CallSucceeds
        invariant started == old(started) + order[..i]
        invariant session.imports == ImportsAfter(old(session.imports), order[..i])
        invariant opStatus == StatusesAfter(old(opStatus), order[..i], events)
      {
        if events(i) == ContextDone {
          return false;
        }
        var done := ExecuteOperation(order[i], events(i));
        assert order[..i + 1] == order[..i] + [order[i]] && order[..i + 1][..i] == order[..i];
        if !done {
          return false;
        }
      }
      return true;
    }

    method ExecuteOperation(op: Operation, event: Event) returns (ok: bool)
      requires event != ContextDone
      modifies this`opStatus, this`started, session
      ensures ok <==> event == CallSucceeds
      ensures session.imports == old(session.imports)[op.target := 1]
      ensures started == old(started) + [op]
      ensures opStatus == old(opStatus)[op := StatusAfter(event)] && Recorded(opStatus, op, event)
    {
      opStatus := opStatus[op := OpRunning];
      started := started + [op];
      var _ := session.CreateImportStub(op.target);
      if event == CallFails {
        opStatus := opStatus[op := OpFailed];
        return false;
      }
      if event == Unsupported {
        return false;
      }
      opStatus := opStatus[op := OpCompleted];
      return true;
    }

    /** Whenever and however execution stops, what was started is closed under dependencies, in dependency order. */
    method ExecutePipeline(optimise: bool, events: nat -> Event) returns (ok: bool)
      requires status == Pending ==> started == []
      modifies this`status, this`opStatus, this`started, session
      ensures old(status) != Pending ==>
        !ok && status == old(status) && started == old(started) && opStatus == old(opStatus) && session.imports == old(session.imports)
      ensures old(status) == Pending ==> status == if ok then Completed else Failed
      ensures old(status) == Pending ==> RunOutcome(operations, optimise, started, ok)
      ensures old(status) == Pending && optimise && HasDependencyCycle(operations) ==> !ok && started == []
      ensures old(status) == Pending ==> opStatus == StatusesAfter(old(opStatus), started, events)
      ensures old(status) == Pending ==> session.imports == ImportsAfter(old(session.imports), started)
      ensures ok ==> forall op :: op in started ==> op in opStatus && opStatus[op] == OpCompleted
      ensures old(status) == Pending && Distinct(started) ==> RecordedAsEnded(opStatus, started, events, ok)
      ensures old(status) == Pending && !(optimise && HasDependencyCycle(operations)) ==> exists n :: Ended(events, |started|, n, ok)
    {
      var begun := BeginExecution();
      if !begun {
        return false;
      }
      var order := OptimizePipeline(optimise);
      if order.None? {
        FinishExecution(false);
        return false;
      }
      ok := ExecuteBatchedOperations(order.value, events);
      ScheduledRun(operations, optimise, order.value, events);
      assert started == order.value[..StartedCount(events, 0, |order.value|)];
      assert Ended(events, |started|, |order.value|, ok);
      if Distinct(started) {
        RunIsRecorded(old(opStatus), started, events, |order.value|, ok);
      }
      if ok {
        StartedAllSucceeded(order.value, events);
        FullRunCompletes(old(opStatus), started, events);
      }
      FinishExecution(ok);
    }

    /** The guard under the pipeline's lock: only one caller ever gets past it. */
    method BeginExecution() returns (begun: bool)
      modifies this`status
      ensures begun <==> old(status) == Pending
      ensures status == NextStatus(old(status), Begin) && status == if begun then Running else old(status)
    {
      if status != Pending {
        return false;
      }
      status := Running;
      return true;
    }

    method FinishExecution(ok: bool)
      modifies this`status
      ensures status == NextStatus(old(status), Finish(ok)) && status == if ok then Completed else Failed
    {
      status := if ok then Completed else Failed;
    }

    method CancelPipeline() returns (ok: bool)
      modifies this`status
      ensures ok <==> old(status) !in {Completed, Failed}
      ensures status == NextStatus(old(status), Cancel) && status == if ok then Cancelled else old(status)
    {
      if status == Completed || status == Failed {
        return false;
      }
      status := Cancelled;
      return true;
    }
  }
}
