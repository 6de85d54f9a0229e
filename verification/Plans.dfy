/** Plan graphs: an ordered list of nodes with dependencies, statuses and results. */
module Plans {
  import opened Wrappers

  type Id = nat
  type Value = string

  datatype NodeStatus = Pending | Running | WaitingApproval | Completed | Failed | Skipped | RolledBack

  datatype PlanStatus =
    | PlanPending | PlanRunning | PlanPaused | PlanCompleted | PlanFailed | PlanRolledBack

  /** `action` stands for the node's kind and description, which only the executor looks at. */
  datatype Node = Node(
    id: Id, action: string, status: NodeStatus, deps: seq<Id>, output: Option<Value>, error: Option<string>)

  datatype Plan = Plan(id: Id, description: string, nodes: seq<Node>, status: PlanStatus)

  ghost predicate UniqueIds(plan: Plan) {
    forall i, j :: 0 <= i < j < |plan.nodes| ==> plan.nodes[i].id != plan.nodes[j].id
  }

  /** Index of the first node with the given id, or the list length. */
  function FindNode(plan: Plan, id: Id): (k: nat)
    ensures k <= |plan.nodes|
    ensures k < |plan.nodes| ==> plan.nodes[k].id == id
    ensures forall i :: 0 <= i < k ==> plan.nodes[i].id != id
  {
    FindFrom(plan.nodes, id, 0)
  }

  function FindFrom(nodes: seq<Node>, id: Id, from: nat): (k: nat)
    requires from <= |nodes|
    ensures from <= k <= |nodes|
    ensures k < |nodes| ==> nodes[k].id == id
    ensures forall i :: from <= i < k ==> nodes[i].id != id
    decreases |nodes| - from
  {
    if from == |nodes| || nodes[from].id == id then from else FindFrom(nodes, id, from + 1)
  }

  /** Index of the first Pending node, or the list length. */
  function NextPending(plan: Plan): (k: nat)
    ensures k <= |plan.nodes|
    ensures k < |plan.nodes| ==> plan.nodes[k].status == Pending
    ensures forall i :: 0 <= i < k ==> plan.nodes[i].status != Pending
  {
    NextPendingFrom(plan.nodes, 0)
  }

  function NextPendingFrom(nodes: seq<Node>, from: nat): (k: nat)
    requires from <= |nodes|
    ensures from <= k <= |nodes|
    ensures k < |nodes| ==> nodes[k].status == Pending
    ensures forall i :: from <= i < k ==> nodes[i].status != Pending
    decreases |nodes| - from
  {
    if from == |nodes| || nodes[from].status == Pending then from else NextPendingFrom(nodes, from + 1)
  }

  predicate IsCompleted(plan: Plan, id: Id) {
    var k := FindNode(plan, id);
    k < |plan.nodes| && plan.nodes[k].status == Completed
  }

  predicate DepsMet(plan: Plan, node: Node) {
    forall d :: d in node.deps ==> IsCompleted(plan, d)
  }

  /** Overwrite the first node with the given id, if there is one. */
  function SetNode(plan: Plan, id: Id, node: Node): (p: Plan)
    ensures |p.nodes| == |plan.nodes| && p.id == plan.id && p.status == plan.status
    ensures p.description == plan.description
    ensures forall i :: 0 <= i < |plan.nodes| && i != FindNode(plan, id) ==> p.nodes[i] == plan.nodes[i]
    ensures FindNode(plan, id) < |plan.nodes| ==> p.nodes[FindNode(plan, id)] == node
  {
    var k := FindNode(plan, id);
    if k < |plan.nodes| then plan.(nodes := plan.nodes[k := node]) else plan
  }

  /** The last Completed node in list order. */
  function LastCompletedNode(nodes: seq<Node>): (last: Option<Node>)
    ensures last.Some? ==> last.value.status == Completed
  {
    if nodes == [] then None
    else if nodes[|nodes| - 1].status == Completed then Some(nodes[|nodes| - 1])
    else LastCompletedNode(nodes[..|nodes| - 1])
  }

  function PendingCount(nodes: seq<Node>): nat {
    if nodes == [] then 0
    else (if nodes[|nodes| - 1].status == Pending then 1 else 0) + PendingCount(nodes[..|nodes| - 1])
  }

  /** Ids of the Pending nodes, in list order. */
  function PendingIds(nodes: seq<Node>): seq<Id> {
    if nodes == [] then []
    else (if nodes[0].status == Pending then [nodes[0].id] else []) + PendingIds(nodes[1..])
  }
}
