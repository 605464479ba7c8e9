/**
 * The workflow-execution HTTP route: the scheduler's secret check, bearer
 * token parsing, the expansion of an execution plan into one phase record
 * per planned node, and the guard order of the GET (scheduled) and POST
 * (manual) handlers over an in-memory execution table.
 *
 * Secrets are compared as character sequences, standing for their bytes.
 * The stored plan's `JSON.parse` result, the cron parser's success and the
 * outcome of `executeWorkflow` are parameters; `executeWorkflow` itself is
 * not part of this model.
 */
module ExecuteRoute {
  import opened Common
  import opened Strings
  import opened Json
  import opened Registry

  /** `timingSafeEqual`: throws on a length mismatch, else compares. */
  function TimingSafeEqual(a: string, b: string): (r: Result<bool>)
    ensures r.Err? <==> |a| != |b|
    ensures r.Ok? ==> (r.value <==> a == b)
  {
    if |a| != |b| then Err("RangeError") else Ok(a == b)
  }

  /** `isValidSecret(secret)`: false when API_SECRET is unset or empty, and false rather than a throw on a length mismatch. */
  function IsValidSecret(secret: string, apiSecret: Option<string>): (r: bool)
    ensures r <==> apiSecret.Some? && apiSecret.value != "" && secret == apiSecret.value
  {
    if apiSecret.None? || apiSecret.value == "" then false
    else
      match TimingSafeEqual(secret, apiSecret.value)
      case Ok(same) => same
      case Err(_) => false
  }

  const BearerPrefix: string := "Bearer "

  /** `authHeader && authHeader.startsWith("Bearer ")`. */
  predicate IsBearer(header: Option<string>) {
    header.Some? && header.value != "" && StartsWith(header.value, BearerPrefix)
  }

  /** `authHeader.split(" ")[1]`: the text between the first and the second space. */
  function BearerToken(header: string): (r: string)
    requires StartsWith(header, BearerPrefix)
  {
    assert header == "Bearer" + [' '] + header[|BearerPrefix|..];
    SplitAfter("Bearer", ' ', header[|BearerPrefix|..]);
    Split(header, ' ')[1]
  }

  /** Splitting at a separator that follows a separator-free prefix gives that prefix first. */
  lemma {:induction false} SplitAfter(p: string, c: char, t: string)
    requires c !in p
    ensures Split(p + [c] + t, c) == [p] + Split(t, c)
  {
    var s := p + [c] + t;
    if p == [] {
      assert s[0] == c && s[1..] == t;
    } else {
      assert s[0] == p[0] && s[1..] == p[1..] + [c] + t;
      SplitAfter(p[1..], c, t);
      assert [p[0]] + p[1..] == p;
    }
  }

  lemma {:induction false} SplitWithout(t: string, c: char)
    requires c !in t
    ensures Split(t, c) == [t]
  {
    if t != [] {
      SplitWithout(t[1..], c);
      assert [t[0]] + t[1..] == t;
    }
  }

  /** For `Bearer <token>` with a token without spaces, the token itself comes back. */
  lemma BearerTokenOf(token: string)
    requires ' ' !in token
    ensures StartsWith(BearerPrefix + token, BearerPrefix)
    ensures BearerToken(BearerPrefix + token) == token
  {
    var h := BearerPrefix + token;
    assert h[..|BearerPrefix|] == BearerPrefix;
    assert h[|BearerPrefix|..] == token;
    SplitAfter("Bearer", ' ', token);
    assert h == "Bearer" + [' '] + token;
    SplitWithout(token, ' ');
  }

  /** A node of the stored plan: its JSON text and `node.data.type`. */
  datatype PlanNode = PlanNode(json: string, taskType: string)

  datatype PlanPhase = PlanPhase(phase: int, nodes: seq<PlanNode>)

  /** The phase row created for one planned node. */
  datatype PhaseRecord = PhaseRecord(userId: string, status: string, number: int, node: string, name: string)

  /** The registry label of a task-type key: `TaskRegistry[key].label`, nothing when the key is no task type. */
  type Labels = string -> Option<string>

  function RegistryLabels(unseen: Unseen): Labels {
    key => var d := TaskByName(unseen, key); if d.Some? then Some(d.value.taskLabel) else None
  }

  /** A key has a label exactly when it names a task type, and the label is that task's. */
  lemma RegistryLabelsSpec(unseen: Unseen, key: string)
    ensures RegistryLabels(unseen)(key).Some? <==> ParseType(key).Some?
    ensures RegistryLabels(unseen)(key).Some? ==>
      RegistryLabels(unseen)(key).value == Task(unseen, ParseType(key).value).taskLabel
  {
  }

  /** One phase row, when the node's task type is a registry key; otherwise reading `.label` throws. */
  function RecordOf(labels: Labels, userId: string, phase: int, node: PlanNode): Result<PhaseRecord> {
    var taskLabel := labels(node.taskType);
    if taskLabel.None? then Err(TypeErrorMessage) else Ok(PhaseRecord(userId, "CREATED", phase, node.json, taskLabel.value))
  }

  /** `phase.nodes.flatMap(...)`. */
  function NodeRecords(labels: Labels, userId: string, phase: int, nodes: seq<PlanNode>): (r: Result<seq<PhaseRecord>>)
  {
    if nodes == [] then Ok([])
    else
      var first := RecordOf(labels, userId, phase, nodes[0]);
      if first.Err? then Err(first.error)
      else
        var rest := NodeRecords(labels, userId, phase, nodes[1..]);
        if rest.Err? then rest else Ok([first.value] + rest.value)
  }

  /** `executionPlan.flatMap(phase => phase.nodes.flatMap(...))`. */
  function PhaseRecords(labels: Labels, userId: string, plan: seq<PlanPhase>): (r: Result<seq<PhaseRecord>>)
  {
    if plan == [] then Ok([])
    else
      var first := NodeRecords(labels, userId, plan[0].phase, plan[0].nodes);
      if first.Err? then first
      else
        var rest := PhaseRecords(labels, userId, plan[1..]);
        if rest.Err? then rest else Ok(first.value + rest.value)
  }

  /** Every planned node's task type is a registry key. */
  predicate AllKnown(labels: Labels, plan: seq<PlanPhase>) {
    forall i, j :: 0 <= i < |plan| && 0 <= j < |plan[i].nodes| ==> labels(plan[i].nodes[j].taskType).Some?
  }

  function NodeCount(plan: seq<PlanPhase>): nat {
    if plan == [] then 0 else |plan[0].nodes| + NodeCount(plan[1..])
  }

  /** The rows of one phase: one per node, in node order; an unknown task type makes the expansion throw. */
  lemma {:induction false} NodeRecordsSpec(labels: Labels, userId: string, phase: int, nodes: seq<PlanNode>)
    ensures NodeRecords(labels, userId, phase, nodes).Ok?
      <==> forall j :: 0 <= j < |nodes| ==> labels(nodes[j].taskType).Some?
    ensures NodeRecords(labels, userId, phase, nodes).Ok? ==>
      var rs := NodeRecords(labels, userId, phase, nodes).value;
      |rs| == |nodes| && forall j :: 0 <= j < |nodes| ==> Ok(rs[j]) == RecordOf(labels, userId, phase, nodes[j])
  {
    if nodes != [] {
      NodeRecordsSpec(labels, userId, phase, nodes[1..]);
      assert forall j :: 1 <= j < |nodes| ==> nodes[1..][j - 1] == nodes[j];
    }
  }

  lemma AllKnownCons(labels: Labels, plan: seq<PlanPhase>)
    requires plan != []
    ensures AllKnown(labels, plan) <==>
      (forall j :: 0 <= j < |plan[0].nodes| ==> labels(plan[0].nodes[j].taskType).Some?) && AllKnown(labels, plan[1..])
  {
    var tail := plan[1..];
    if (forall j :: 0 <= j < |plan[0].nodes| ==> labels(plan[0].nodes[j].taskType).Some?) && AllKnown(labels, tail) {
      forall i, j | 0 <= i < |plan| && 0 <= j < |plan[i].nodes|
        ensures labels(plan[i].nodes[j].taskType).Some?
      {
        if i > 0 {
          assert plan[i] == tail[i - 1];
        }
      }
    }
    if AllKnown(labels, plan) {
      forall i, j | 0 <= i < |tail| && 0 <= j < |tail[i].nodes|
        ensures labels(tail[i].nodes[j].taskType).Some?
      {
        assert tail[i] == plan[i + 1];
      }
    }
  }

  /** The expansion succeeds exactly when every planned node's task type is a registry key. */
  lemma {:induction false} PhaseRecordsOk(labels: Labels, userId: string, plan: seq<PlanPhase>)
    ensures PhaseRecords(labels, userId, plan).Ok? <==> AllKnown(labels, plan)
  {
    if plan != [] {
      NodeRecordsSpec(labels, userId, plan[0].phase, plan[0].nodes);
      PhaseRecordsOk(labels, userId, plan[1..]);
      AllKnownCons(labels, plan);
    }
  }

  /** A successful expansion makes exactly one row per planned node. */
  lemma {:induction false} PhaseRecordsCount(labels: Labels, userId: string, plan: seq<PlanPhase>)
    ensures PhaseRecords(labels, userId, plan).Ok? ==> |PhaseRecords(labels, userId, plan).value| == NodeCount(plan)
  {
    if plan != [] {
      NodeRecordsSpec(labels, userId, plan[0].phase, plan[0].nodes);
      PhaseRecordsCount(labels, userId, plan[1..]);
    }
  }

  /**
   * The rows come in plan order: node `j` of phase `i` is row
   * `NodeCount(plan[..i]) + j`, a CREATED row numbered with that phase and
   * named by the registry label of the node's task type.
   */
  lemma {:induction false} PhaseRecordsAt(labels: Labels, userId: string, plan: seq<PlanPhase>, i: nat, j: nat)
    requires PhaseRecords(labels, userId, plan).Ok?
    requires i < |plan| && j < |plan[i].nodes|
    ensures NodeCount(plan[..i]) + j < |PhaseRecords(labels, userId, plan).value|
    ensures Ok(PhaseRecords(labels, userId, plan).value[NodeCount(plan[..i]) + j])
      == RecordOf(labels, userId, plan[i].phase, plan[i].nodes[j])
  {
    NodeRecordsSpec(labels, userId, plan[i].phase, plan[i].nodes);
    RowsAt(labels, userId, plan, i, j);
  }

  /** Row `NodeCount(plan[..i]) + j` of the expansion is row `j` of phase `i`'s own rows. */
  lemma {:induction false} RowsAt(labels: Labels, userId: string, plan: seq<PlanPhase>, i: nat, j: nat)
    requires PhaseRecords(labels, userId, plan).Ok?
    requires i < |plan| && j < |plan[i].nodes|
    ensures NodeRecords(labels, userId, plan[i].phase, plan[i].nodes).Ok?
    ensures |NodeRecords(labels, userId, plan[i].phase, plan[i].nodes).value| == |plan[i].nodes|
    ensures NodeCount(plan[..i]) + j < |PhaseRecords(labels, userId, plan).value|
    ensures PhaseRecords(labels, userId, plan).value[NodeCount(plan[..i]) + j]
      == NodeRecords(labels, userId, plan[i].phase, plan[i].nodes).value[j]
  {
    var head := plan[0];
    var tail := plan[1..];
    PhaseRecordsCons(labels, userId, plan);
    NodeLength(labels, userId, head.phase, head.nodes);
    var first := NodeRecords(labels, userId, head.phase, head.nodes).value;
    var rest := PhaseRecords(labels, userId, tail).value;
    if i == 0 {
      assert plan[..0] == [];
    } else {
      RowsAt(labels, userId, tail, i - 1, j);
      NodeCountPrefix(plan, i);
      assert plan[i] == tail[i - 1];
      IndexAfter(first, rest, NodeCount(tail[..i - 1]) + j);
    }
  }

  lemma NodeCountPrefix(plan: seq<PlanPhase>, i: nat)
    requires 0 < i <= |plan|
    ensures NodeCount(plan[..i]) == |plan[0].nodes| + NodeCount(plan[1..][..i - 1])
  {
    assert plan[..i][1..] == plan[1..][..i - 1];
  }

  lemma IndexAfter<T>(first: seq<T>, rest: seq<T>, k: nat)
    requires k < |rest|
    ensures |first| + k < |first + rest| && (first + rest)[|first| + k] == rest[k]
  {
  }

  lemma PhaseRecordsCons(labels: Labels, userId: string, plan: seq<PlanPhase>)
    requires plan != [] && PhaseRecords(labels, userId, plan).Ok?
    ensures NodeRecords(labels, userId, plan[0].phase, plan[0].nodes).Ok?
    ensures PhaseRecords(labels, userId, plan[1..]).Ok?
    ensures PhaseRecords(labels, userId, plan).value
      == NodeRecords(labels, userId, plan[0].phase, plan[0].nodes).value + PhaseRecords(labels, userId, plan[1..]).value
  {
  }

  lemma {:induction false} NodeLength(labels: Labels, userId: string, phase: int, nodes: seq<PlanNode>)
    ensures NodeRecords(labels, userId, phase, nodes).Ok? ==> |NodeRecords(labels, userId, phase, nodes).value| == |nodes|
  {
    if nodes != [] {
      NodeLength(labels, userId, phase, nodes[1..]);
    }
  }

  /** What the stored `executionPlan` text parses to. */
  datatype ParsedPlan = Unparsable | Falsy | Plan(phases: seq<PlanPhase>)

  datatype Workflow = Workflow(id: string, userId: string, definition: string, plan: ParsedPlan)

  datatype ExecutionRecord = ExecutionRecord(
    id: string, workflowId: string, userId: string, definition: string,
    status: string, trigger: string, startedAt: int, phases: seq<PhaseRecord>)

  /** The JSON reply: the status code, an `error` text, and for a started manual run its id and reported status. */
  datatype Reply = Reply(status: nat, error: Option<string>, executionId: Option<string>, reportedStatus: Option<string>)

  function ErrorReply(status: nat, message: string): Reply {
    Reply(status, Some(message), None, None)
  }

  /** The parsed POST body. */
  datatype Body = Body(workflowId: Value, workflow: Value)

  function NewExecution(id: string, w: Workflow, trigger: string, now: int, phases: seq<PhaseRecord>): ExecutionRecord {
    ExecutionRecord(id, w.id, w.userId, w.definition, "PENDING", trigger, now, phases)
  }

  /** Whether the GET handler's caller holds the scheduler secret. */
  predicate Authorized(header: Option<string>, apiSecret: Option<string>) {
    IsBearer(header) && IsValidSecret(BearerToken(header.value), apiSecret)
  }

  class ExecutionDb {
    const workflows: map<string, Workflow>
    var executions: seq<ExecutionRecord>

    constructor(workflows: map<string, Workflow>)
      ensures this.workflows == workflows && executions == []
    {
      this.workflows := workflows;
      executions := [];
    }

    /**
     * `GET`: 401 for a missing, non-bearer or wrong secret before anything
     * else, then 400 for a missing `workflowId` or unknown workflow. An
     * unparsable plan throws out of the handler; a falsy one is a 400.
     * Inside the `try`, a bad cron expression or an unknown task type is a
     * 500; otherwise a PENDING CRON execution is created, and the reply is
     * 200 or, when the run fails, 500.
     */
    method Get(header: Option<string>, apiSecret: Option<string>, workflowId: Option<string>,
               unseen: Unseen, newId: string, now: int, cronOk: bool, runOk: bool) returns (r: Result<Reply>)
      modifies this
      ensures !Authorized(header, apiSecret) ==> r == Ok(ErrorReply(401, "Unauthorized ")) && executions == old(executions)
      ensures Authorized(header, apiSecret) && (workflowId.None? || workflowId.value == "") ==>
        r == Ok(ErrorReply(400, "bad request ")) && executions == old(executions)
      ensures Authorized(header, apiSecret) && workflowId.Some? && workflowId.value != "" && workflowId.value !in workflows ==>
        r == Ok(ErrorReply(400, "Workflow not found ")) && executions == old(executions)
      ensures Authorized(header, apiSecret) && workflowId.Some? && workflowId.value != "" && workflowId.value in workflows ==>
        var w := workflows[workflowId.value];
        && (w.plan.Unparsable? ==> r.Err? && executions == old(executions))
        && (w.plan.Falsy? ==> r == Ok(ErrorReply(400, "execution plan not found ")) && executions == old(executions))
        && (w.plan.Plan? && (!cronOk || PhaseRecords(RegistryLabels(unseen), w.userId, w.plan.phases).Err?) ==>
              r == Ok(ErrorReply(500, "internal server err ")) && executions == old(executions))
        && (w.plan.Plan? && cronOk && PhaseRecords(RegistryLabels(unseen), w.userId, w.plan.phases).Ok? ==>
              && executions == old(executions)
                   + [NewExecution(newId, w, "CRON", now, PhaseRecords(RegistryLabels(unseen), w.userId, w.plan.phases).value)]
              && r == Ok(if runOk then Reply(200, None, None, None) else ErrorReply(500, "internal server err ")))
    {
      if !IsBearer(header) {
        return Ok(ErrorReply(401, "Unauthorized "));
      }
      var secret := BearerToken(header.value);
      if !IsValidSecret(secret, apiSecret) {
        return Ok(ErrorReply(401, "Unauthorized "));
      }
      if workflowId.None? || workflowId.value == "" {
        return Ok(ErrorReply(400, "bad request "));
      }
      if workflowId.value !in workflows {
        return Ok(ErrorReply(400, "Workflow not found "));
      }
      var w := workflows[workflowId.value];
      if w.plan.Unparsable? {
        return Err("SyntaxError");
      }
      if w.plan.Falsy? {
        return Ok(ErrorReply(400, "execution plan not found "));
      }
      if !cronOk {
        return Ok(ErrorReply(500, "internal server err "));
      }
      var records := PhaseRecords(RegistryLabels(unseen), w.userId, w.plan.phases);
      if records.Err? {
        return Ok(ErrorReply(500, "internal server err "));
      }
      executions := executions + [NewExecution(newId, w, "CRON", now, records.value)];
      if !runOk {
        return Ok(ErrorReply(500, "internal server err "));
      }
      return Ok(Reply(200, None, None, None));
    }

    /**
     * `POST`: 401 without a bearer header (the token itself is not checked),
     * 500 for a body that is not JSON, 400 when neither `workflowId` nor
     * `workflow` is given, 404 for an unknown `workflowId`, 400 for a
     * `workflow` without `workflowId`, 400 for a falsy plan, 500 for an
     * unparsable plan or an unknown task type. Otherwise a PENDING MANUAL
     * execution is created and the reply reports status RUNNING.
     */
    method Post(header: Option<string>, body: Result<Body>, unseen: Unseen, newId: string, now: int) returns (r: Reply)
      modifies this
      ensures !IsBearer(header) ==> r == ErrorReply(401, "Unauthorized") && executions == old(executions)
      ensures IsBearer(header) && body.Err? ==> r == ErrorReply(500, "Failed to execute workflow") && executions == old(executions)
      ensures IsBearer(header) && body.Ok? && !Truthy(body.value.workflowId) && !Truthy(body.value.workflow) ==>
        r == ErrorReply(400, "Either workflowId or workflow is required") && executions == old(executions)
      ensures IsBearer(header) && body.Ok? && !Truthy(body.value.workflowId) && Truthy(body.value.workflow) ==>
        r == ErrorReply(400, "Direct workflow execution requires workflowId") && executions == old(executions)
      ensures (IsBearer(header) && body.Ok? && body.value.workflowId.JStr? && body.value.workflowId.s != ""
               && body.value.workflowId.s !in workflows) ==>
        r == ErrorReply(404, "Workflow not found") && executions == old(executions)
      ensures (IsBearer(header) && body.Ok? && body.value.workflowId.JStr? && body.value.workflowId.s != ""
               && body.value.workflowId.s in workflows) ==>
        var w := workflows[body.value.workflowId.s];
        && (w.plan.Falsy? ==> r == ErrorReply(400, "Execution plan not found") && executions == old(executions))
        && (w.plan.Unparsable? || (w.plan.Plan? && PhaseRecords(RegistryLabels(unseen), w.userId, w.plan.phases).Err?) ==>
              r == ErrorReply(500, "Failed to execute workflow") && executions == old(executions))
        && (w.plan.Plan? && PhaseRecords(RegistryLabels(unseen), w.userId, w.plan.phases).Ok? ==>
              && executions == old(executions)
                   + [NewExecution(newId, w, "MANUAL", now, PhaseRecords(RegistryLabels(unseen), w.userId, w.plan.phases).value)]
              && r == Reply(200, None, Some(newId), Some("RUNNING")))
      ensures executions == old(executions) || (r.reportedStatus == Some("RUNNING")
        && |executions| == |old(executions)| + 1 && executions[|old(executions)|].status == "PENDING")
    {
      if !IsBearer(header) {
        return ErrorReply(401, "Unauthorized");
      }
      if body.Err? {
        return ErrorReply(500, "Failed to execute workflow");
      }
      var workflowId := body.value.workflowId;
      if !Truthy(workflowId) && !Truthy(body.value.workflow) {
        return ErrorReply(400, "Either workflowId or workflow is required");
      }
      if !Truthy(workflowId) {
        return ErrorReply(400, "Direct workflow execution requires workflowId");
      }
      if !workflowId.JStr? {
        // The store rejects a non-string id; the `catch` turns that into a 500.
        return ErrorReply(500, "Failed to execute workflow");
      }
      if workflowId.s !in workflows {
        return ErrorReply(404, "Workflow not found");
      }
      var w := workflows[workflowId.s];
      if w.plan.Unparsable? {
        return ErrorReply(500, "Failed to execute workflow");
      }
      if w.plan.Falsy? {
        return ErrorReply(400, "Execution plan not found");
      }
      var records := PhaseRecords(RegistryLabels(unseen), w.userId, w.plan.phases);
      if records.Err? {
        return ErrorReply(500, "Failed to execute workflow");
      }
      executions := executions + [NewExecution(newId, w, "MANUAL", now, records.value)];
      return Reply(200, None, Some(newId), Some("RUNNING"));
    }
  }
}
