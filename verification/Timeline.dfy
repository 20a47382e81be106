/** The timeline graph of one daemon dispatch. */
module Timeline {
  import opened Text

  datatype Node = Node(id: string, kind: string, caption: string, metadata: Option<string>)

  datatype Edge = Edge(source: string, target: string, caption: string)

  /** The checkpoints, in the order of the mapping. */
  datatype Checkpoint = Checkpoint(stepId: string, status: string)

  function DaemonNode(): Node { Node("daemon:self_evolving_dispatch", "demo", "Daemon Dispatch Smoke", None) }

  function RoleNode(): Node { Node("role:org_evolver", "role_office", "org_evolver", None) }

  function MandateNode(): Node { Node("mandate:org_evolver", "mandate", "org/mandates/org_evolver_mandate.md", None) }

  function TaskNode(): Node { Node("task:daemon-native-org-evolver", "task", "daemon-native-org-evolver", None) }

  function RunNode(runId: string): Node { Node("run:" + runId, "runtime_run", runId, None) }

  function CheckpointNode(c: Checkpoint): Node {
    Node("checkpoint:" + c.stepId, "checkpoint", c.stepId, Some(c.status))
  }

  function AttestationNode(verified: string): Node {
    Node("attestation:agent_cli_dispatch", "action_attestation", "agent_cli_dispatch", Some(verified))
  }

  function DoneNode(): Node {
    Node("task_done:daemon-native-org-evolver", "completed_task", "org/tasks/done/daemon-native-org-evolver.md", None)
  }

  /** The nodes before the checkpoints; an empty run id counts as none. */
  function Prelude(runId: string): seq<Node> {
    [DaemonNode(), RoleNode(), MandateNode(), TaskNode()] + if runId == "" then [] else [RunNode(runId)]
  }

  function CheckpointNodes(checkpoints: seq<Checkpoint>): seq<Node> {
    seq(|checkpoints|, i requires 0 <= i < |checkpoints| => CheckpointNode(checkpoints[i]))
  }

  /** The steps of a dispatch, from the daemon to the completed task. */
  function Steps(runId: string, checkpoints: seq<Checkpoint>, verified: string): seq<Node> {
    Prelude(runId) + CheckpointNodes(checkpoints) + [AttestationNode(verified), DoneNode()]
  }

  /** How the step a node stands for came about; the label of the edge into it. */
  function LabelInto(kind: string): string {
    match kind
    case "role_office" => "uses"
    case "mandate" => "bounded_by"
    case "task" => "authorizes"
    case "runtime_run" => "dispatches"
    case "checkpoint" => "checkpoint"
    case "action_attestation" => "attests"
    case _ => "closes"
  }

  function Link(a: Node, b: Node): Edge {
    Edge(a.id, b.id, LabelInto(b.kind))
  }

  /** The edges are exactly the consecutive pairs of nodes. */
  predicate IsChain(nodes: seq<Node>, edges: seq<Edge>) {
    |nodes| == |edges| + 1 && forall i :: 0 <= i < |edges| ==> edges[i] == Link(nodes[i], nodes[i + 1])
  }

  lemma ChainAppend(nodes: seq<Node>, edges: seq<Edge>, node: Node)
    requires IsChain(nodes, edges)
    ensures IsChain(nodes + [node], edges + [Link(nodes[|nodes| - 1], node)])
  {}

  // ----- the graph is one path

  predicate DistinctSteps(checkpoints: seq<Checkpoint>) {
    forall i, j :: 0 <= i < j < |checkpoints| ==> checkpoints[i].stepId != checkpoints[j].stepId
  }

  /** Which kind of step an id names, in the order of the path. */
  function Rank(id: string): nat {
    if |id| < 5 then 8
    else if id[0] == 'd' then 0
    else if id[0] == 'r' && id[1] == 'o' then 1
    else if id[0] == 'm' then 2
    else if id[0] == 't' && id[4] == ':' then 3
    else if id[0] == 'r' then 4
    else if id[0] == 'c' then 5
    else if id[0] == 'a' then 6
    else 7
  }

  lemma RankOfRun(runId: string)
    requires runId != ""
    ensures Rank(RunNode(runId).id) == 4
  {}

  lemma RankOfCheckpoint(c: Checkpoint)
    ensures Rank(CheckpointNode(c).id) == 5
  {}

  lemma RanksOfOffice()
    ensures Rank(DaemonNode().id) == 0 && Rank(RoleNode().id) == 1
  {}

  lemma RanksOfTask()
    ensures Rank(MandateNode().id) == 2 && Rank(TaskNode().id) == 3
  {}

  lemma RanksOfEnd(verified: string)
    ensures Rank(AttestationNode(verified).id) == 6 && Rank(DoneNode().id) == 7
  {}

  /** Along the path the ranks increase, but for neighbouring checkpoints. */
  lemma RankAlong(runId: string, checkpoints: seq<Checkpoint>, verified: string, i: nat)
    requires i < |Steps(runId, checkpoints, verified)|
    ensures var n := |Prelude(runId)|;
            var rank := Rank(Steps(runId, checkpoints, verified)[i].id);
            rank == if i < n then i else if i < n + |checkpoints| then 5 else 6 + i - n - |checkpoints|
  {
    RanksOfOffice();
    RanksOfTask();
    RanksOfEnd(verified);
    if runId != "" {
      RankOfRun(runId);
    }
    hide Rank, DaemonNode, RoleNode, MandateNode, TaskNode, RunNode, CheckpointNode, AttestationNode, DoneNode;
    var n := |Prelude(runId)|;
    if n <= i < n + |checkpoints| {
      RankOfCheckpoint(checkpoints[i - n]);
      assert Steps(runId, checkpoints, verified)[i] == CheckpointNode(checkpoints[i - n]);
    }
  }

  lemma CheckpointIds(c: Checkpoint, d: Checkpoint)
    requires c.stepId != d.stepId
    ensures CheckpointNode(c).id != CheckpointNode(d).id
  {
    var prefix := "checkpoint:";
    assert (prefix + c.stepId)[|prefix|..] == c.stepId;
    assert (prefix + d.stepId)[|prefix|..] == d.stepId;
  }

  /** No two steps share an id, whatever the run id and the checkpoint names are. */
  lemma IdsDistinct(runId: string, checkpoints: seq<Checkpoint>, verified: string, i: nat, j: nat)
    requires DistinctSteps(checkpoints) && i < j < |Steps(runId, checkpoints, verified)|
    ensures Steps(runId, checkpoints, verified)[i].id != Steps(runId, checkpoints, verified)[j].id
  {
    hide Rank, DaemonNode, RoleNode, MandateNode, TaskNode, RunNode, CheckpointNode, AttestationNode, DoneNode;
    RankAlong(runId, checkpoints, verified, i);
    RankAlong(runId, checkpoints, verified, j);
    var n := |Prelude(runId)|;
    if n <= i && j < n + |checkpoints| {
      assert Steps(runId, checkpoints, verified)[i] == CheckpointNode(checkpoints[i - n]);
      assert Steps(runId, checkpoints, verified)[j] == CheckpointNode(checkpoints[j - n]);
      CheckpointIds(checkpoints[i - n], checkpoints[j - n]);
    }
  }

  /** Following edges from a node only ever leads to later nodes, so the graph has no cycle. */
  lemma EdgesLeadForward(nodes: seq<Node>, edges: seq<Edge>, i: nat, j: nat, e: Edge)
    requires IsChain(nodes, edges) && e in edges
    requires forall a, b :: 0 <= a < b < |nodes| ==> nodes[a].id != nodes[b].id
    requires i < |nodes| && j < |nodes| && e.source == nodes[i].id && e.target == nodes[j].id
    ensures j == i + 1
  {
    var k :| 0 <= k < |edges| && edges[k] == e;
    assert e == Link(nodes[k], nodes[k + 1]);
    assert nodes[k].id == nodes[i].id && nodes[k + 1].id == nodes[j].id;
  }

  /** What the nodes show, in order: the office, the run if the dispatch has one, its checkpoints, the end. */
  lemma StepsShown(runId: string, checkpoints: seq<Checkpoint>, verified: string)
    ensures var steps, n := Steps(runId, checkpoints, verified), if runId == "" then 4 else 5;
            && |steps| == n + |checkpoints| + 2
            && steps[0] == Node("daemon:self_evolving_dispatch", "demo", "Daemon Dispatch Smoke", None)
            && steps[1] == Node("role:org_evolver", "role_office", "org_evolver", None)
            && steps[2] == Node("mandate:org_evolver", "mandate", "org/mandates/org_evolver_mandate.md", None)
            && steps[3] == Node("task:daemon-native-org-evolver", "task", "daemon-native-org-evolver", None)
            && (runId != "" ==> steps[4] == Node("run:" + runId, "runtime_run", runId, None))
            && (forall i :: 0 <= i < |checkpoints| ==>
                  steps[n + i] == Node("checkpoint:" + checkpoints[i].stepId, "checkpoint", checkpoints[i].stepId,
                                       Some(checkpoints[i].status)))
            && steps[n + |checkpoints|]
               == Node("attestation:agent_cli_dispatch", "action_attestation", "agent_cli_dispatch", Some(verified))
            && steps[n + |checkpoints| + 1]
               == Node("task_done:daemon-native-org-evolver", "completed_task",
                       "org/tasks/done/daemon-native-org-evolver.md", None)
  {}

  /** How the edges are labelled, in the same order. */
  lemma EdgesShown(runId: string, checkpoints: seq<Checkpoint>, verified: string, edges: seq<Edge>)
    requires IsChain(Steps(runId, checkpoints, verified), edges)
    ensures var n := if runId == "" then 3 else 4;
            && |edges| == n + |checkpoints| + 2
            && edges[0].caption == "uses" && edges[1].caption == "bounded_by" && edges[2].caption == "authorizes"
            && (runId != "" ==> edges[3].caption == "dispatches")
            && (forall i :: n <= i < n + |checkpoints| ==> edges[i].caption == "checkpoint")
            && edges[n + |checkpoints|].caption == "attests" && edges[n + |checkpoints| + 1].caption == "closes"
  {
    StepsShown(runId, checkpoints, verified);
    var steps, n := Steps(runId, checkpoints, verified), if runId == "" then 4 else 5;
    forall i | n - 1 <= i < n - 1 + |checkpoints| ensures edges[i].caption == "checkpoint" {
      assert steps[i + 1] == steps[n + (i + 1 - n)];
    }
  }

  // ----- the method

  /** One path with distinct ids, from the daemon to the completed task, through every checkpoint. */
  method BuildTimelineGraph(runId: string, checkpoints: seq<Checkpoint>, verified: string)
    returns (nodes: seq<Node>, edges: seq<Edge>)
    requires DistinctSteps(checkpoints)
    ensures nodes == Steps(runId, checkpoints, verified)
    ensures IsChain(nodes, edges)
    ensures forall i, j :: 0 <= i < j < |nodes| ==> nodes[i].id != nodes[j].id
  {
    nodes := [DaemonNode(), RoleNode(), MandateNode(), TaskNode()];
    if runId != "" {
      nodes := nodes + [RunNode(runId)];
    }
    for i := 0 to |checkpoints|
      invariant nodes == Prelude(runId) + CheckpointNodes(checkpoints[..i])
    {
      nodes := nodes + [CheckpointNode(checkpoints[i])];
    }
    nodes := nodes + [AttestationNode(verified), DoneNode()];
    assert checkpoints[..|checkpoints|] == checkpoints;
    edges := BuildEdges(runId, checkpoints, verified);
    forall i, j | 0 <= i < j < |nodes| ensures nodes[i].id != nodes[j].id {
      IdsDistinct(runId, checkpoints, verified, i, j);
    }
  }

  /** The edges are collected on their own, by remembering the previous id. */
  method BuildEdges(runId: string, checkpoints: seq<Checkpoint>, verified: string) returns (edges: seq<Edge>)
    ensures IsChain(Steps(runId, checkpoints, verified), edges)
  {
    hide IsChain, Link, Prelude, CheckpointNode, AttestationNode, DoneNode;
    var previous;
    edges, previous := PreludeEdges(runId);
    ghost var path := Prelude(runId);
    for i := 0 to |checkpoints|
      invariant path == Prelude(runId) + CheckpointNodes(checkpoints[..i])
      invariant path != [] && IsChain(path, edges) && previous == path[|path| - 1].id
    {
      var nodeId := "checkpoint:" + checkpoints[i].stepId;
      CheckpointLink(path[|path| - 1], checkpoints[i]);
      ChainAppend(path, edges, CheckpointNode(checkpoints[i]));
      path := path + [CheckpointNode(checkpoints[i])];
      edges := edges + [Edge(previous, nodeId, "checkpoint")];
      previous := nodeId;
    }
    assert checkpoints[..|checkpoints|] == checkpoints;
    ClosingLinks(path[|path| - 1], verified);
    ChainAppend(path, edges, AttestationNode(verified));
    ChainAppend(path + [AttestationNode(verified)], edges
      + [Link(path[|path| - 1], AttestationNode(verified))], DoneNode());
    edges := edges + [Edge(previous, "attestation:agent_cli_dispatch", "attests")];
    edges := edges + [Edge("attestation:agent_cli_dispatch", "task_done:daemon-native-org-evolver", "closes")];
    assert path + [AttestationNode(verified)] + [DoneNode()] == Steps(runId, checkpoints, verified);
  }

  method PreludeEdges(runId: string) returns (edges: seq<Edge>, previous: string)
    ensures IsChain(Prelude(runId), edges) && Prelude(runId) != []
    ensures previous == Prelude(runId)[|Prelude(runId)| - 1].id
  {
    edges := [
      Edge("daemon:self_evolving_dispatch", "role:org_evolver", "uses"),
      Edge("role:org_evolver", "mandate:org_evolver", "bounded_by"),
      Edge("mandate:org_evolver", "task:daemon-native-org-evolver", "authorizes")
    ];
    if runId != "" {
      edges := edges + [Edge("task:daemon-native-org-evolver", "run:" + runId, "dispatches")];
      previous := "run:" + runId;
    } else {
      previous := "task:daemon-native-org-evolver";
    }
  }

  lemma CheckpointLink(a: Node, c: Checkpoint)
    ensures Link(a, CheckpointNode(c)) == Edge(a.id, "checkpoint:" + c.stepId, "checkpoint")
    ensures CheckpointNode(c).id == "checkpoint:" + c.stepId
  {}

  lemma ClosingLinks(a: Node, verified: string)
    ensures Link(a, AttestationNode(verified)) == Edge(a.id, "attestation:agent_cli_dispatch", "attests")
    ensures Link(AttestationNode(verified), DoneNode())
            == Edge("attestation:agent_cli_dispatch", "task_done:daemon-native-org-evolver", "closes")
  {}
}
