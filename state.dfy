/**
 * Graph-state operations (server/state.ts): the default state, the reset done
 * on a loaded state, the functions that describe an edit as JSON Patch
 * operations without performing it, and the live state object that the
 * server mutates in place.
 *
 * Ids come from `Date.now()` and `Math.random()` in the source; here they are
 * parameters.
 */
module State {
  import opened Wrappers
  import opened GraphTypes
  import opened JsonPatch

  const DefaultAspects: seq<string> := ["Technical", "Emotional", "Practical"]

  /** `createDefaultState()`. */
  function CreateDefaultState(): (g: GraphState)
    ensures g.nodes == map[] && g.order == [] && g.links == []
    ensures g.focusNodeId == None && g.thinkingNodeId == None
    ensures g.settings.minConnections == 3 && g.settings.maxWords == 3 && !g.settings.autoExplore
    ensures g.settings.definedAspects == Some(DefaultAspects) && g.settings.activeAspects == Some([])
    ensures g.userQueue == None && g.tasks == None
    ensures g.Valid()
  {
    GraphState(map[], [], [], None, None,
               Settings(0.7, 3, 3, false, Some(DefaultAspects), Some([]), None),
               None, None)
  }

  /**
   * `initializeLoadedState(state)` as a function of the loaded value: the
   * thinking pointer is cleared and missing aspect lists are filled in.
   */
  function InitializeLoadedState(g: GraphState): (r: GraphState)
    ensures r.thinkingNodeId == None
    ensures r.settings.definedAspects.Some? && r.settings.activeAspects.Some?
    ensures g.settings.definedAspects.Some? ==> r.settings.definedAspects == g.settings.definedAspects
    ensures g.settings.definedAspects.None? ==> r.settings.definedAspects == Some(DefaultAspects)
    ensures g.settings.activeAspects.Some? ==> r.settings.activeAspects == g.settings.activeAspects
    ensures g.settings.activeAspects.None? ==> r.settings.activeAspects == Some([])
    ensures r.nodes == g.nodes && r.order == g.order && r.links == g.links
    ensures r.focusNodeId == g.focusNodeId && r.userQueue == g.userQueue && r.tasks == g.tasks
    ensures r.settings.(definedAspects := g.settings.definedAspects, activeAspects := g.settings.activeAspects) == g.settings
  {
    var s := g.settings;
    var defined := if s.definedAspects.None? then Some(DefaultAspects) else s.definedAspects;
    var active := if s.activeAspects.None? then Some([]) else s.activeAspects;
    g.(thinkingNodeId := None, settings := s.(definedAspects := defined, activeAspects := active))
  }

  /** `clearStateGraph(state)` as a function of the state value. */
  function ClearedGraph(g: GraphState): (r: GraphState)
    ensures r.nodes == map[] && r.order == [] && r.links == []
    ensures r.focusNodeId == None && r.thinkingNodeId == None
    ensures r.settings == g.settings && r.userQueue == g.userQueue && r.tasks == g.tasks
    ensures r.Valid()
  {
    g.(nodes := map[], order := [], links := [], focusNodeId := None, thinkingNodeId := None)
  }

  datatype AddNodeResult = AddNodeResult(nodeId: string, ops: seq<Op>)

  /** `if (parentId)`: a parent id counts when it is present and non-empty. */
  predicate ParentGiven(parentId: Option<string>) {
    parentId.Some? && parentId.value != ""
  }

  /** The node `addNodeToState` creates with id `id`. */
  function UserNode(id: string, text: string, isFirst: bool): Node {
    Node(id, text, Accepted, if isFirst then Root else Concept, if isFirst then 5 else 3, map[], None, None)
  }

  function UserLink(parentId: string, id: string): Link {
    Link(parentId, id, User, None, None)
  }

  /**
   * `addNodeToState(state, label, parentId)`, with `freshId` standing for
   * `node-${Date.now()}`. It only describes the edit.
   */
  function AddNodeToState(g: GraphState, text: string, parentId: Option<string>, freshId: string): (r: AddNodeResult)
    ensures r.nodeId == freshId
    ensures |r.ops| == 1 + (if ParentGiven(parentId) then 1 else 0) + (if |g.nodes| == 0 then 1 else 0)
    ensures r.ops[0].AddNode? && r.ops[0].id == freshId && r.ops[0].node.id == freshId
    ensures r.ops[0].node.labelText == text && r.ops[0].node.status == Accepted && r.ops[0].node.aspects == map[]
    ensures r.ops[0].node.ntype == Root <==> |g.nodes| == 0
    ensures r.ops[0].node.val == if |g.nodes| == 0 then 5 else 3
    ensures (exists i :: 0 <= i < |r.ops| && r.ops[i].AddLink?) <==> ParentGiven(parentId)
    ensures ParentGiven(parentId) ==> r.ops[1] == AddLink(AppendToken, UserLink(parentId.value, freshId))
    ensures (exists i :: 0 <= i < |r.ops| && r.ops[i].ReplaceFocus?) <==> |g.nodes| == 0
    ensures |g.nodes| == 0 ==> r.ops[|r.ops| - 1] == ReplaceFocus(Some(freshId))
    ensures forall i :: 0 <= i < |r.ops| ==> r.ops[i].AddNode? || r.ops[i].AddLink? || r.ops[i].ReplaceFocus?
  {
    var isFirst := |g.nodes| == 0;
    var nodeOp := [AddNode(freshId, UserNode(freshId, text, isFirst))];
    var linkOp := if ParentGiven(parentId) then [AddLink(AppendToken, UserLink(parentId.value, freshId))] else [];
    var focusOp := if isFirst then [ReplaceFocus(Some(freshId))] else [];
    var ops := nodeOp + linkOp + focusOp;
    assert forall i :: 0 <= i < |ops| ==> ops[i] in nodeOp || ops[i] in linkOp || ops[i] in focusOp;
    assert ParentGiven(parentId) ==> ops[1] in linkOp;
    assert isFirst ==> ops[|ops| - 1] in focusOp;
    AddNodeResult(freshId, ops)
  }

  /** Applying the ops of `addNodeToState` for a fresh id adds the node, the parent link and, first, the focus. */
  lemma AddNodeApplied(g: GraphState, text: string, parentId: Option<string>, freshId: string)
    requires g.Valid()
    requires freshId !in g.nodes
    ensures Apply(g, AddNodeToState(g, text, parentId, freshId).ops).Some?
    ensures var h := Apply(g, AddNodeToState(g, text, parentId, freshId).ops).value;
      && h.Valid()
      && h.nodes == g.nodes[freshId := UserNode(freshId, text, |g.nodes| == 0)]
      && h.order == g.order + [freshId]
      && h.links == g.links + (if ParentGiven(parentId) then [UserLink(parentId.value, freshId)] else [])
      && h.focusNodeId == (if |g.nodes| == 0 then Some(freshId) else g.focusNodeId)
      && h.thinkingNodeId == g.thinkingNodeId && h.settings == g.settings
      && h.userQueue == g.userQueue && h.tasks == g.tasks
  {
    var ops := AddNodeToState(g, text, parentId, freshId).ops;
    var isFirst := |g.nodes| == 0;
    var g1 := g.(nodes := g.nodes[freshId := UserNode(freshId, text, isFirst)], order := g.order + [freshId]);
    assert ApplyOp(g, ops[0]) == Some(g1);
    assert Apply(g, ops) == Apply(g1, ops[1..]);
    var g2 := if ParentGiven(parentId) then g1.(links := g.links + [UserLink(parentId.value, freshId)]) else g1;
    var rest := if ParentGiven(parentId) then ops[2..] else ops[1..];
    if ParentGiven(parentId) {
      assert ApplyOp(g1, ops[1..][0]) == Some(g2);
      assert ops[1..][1..] == rest;
    }
    assert Apply(g1, ops[1..]) == Apply(g2, rest);
    if isFirst {
      assert rest == [ReplaceFocus(Some(freshId))];
      assert Apply(g2, rest) == Apply(g2.(focusNodeId := Some(freshId)), []);
    } else {
      assert rest == [];
    }
    assert KeysMatch(ops);
    ApplyValid(g, ops);
  }

  /** The subsequence of `links` that touch neither end of `nodeId`. */
  function LinksAvoiding(links: seq<Link>, nodeId: string): (r: seq<Link>)
    ensures forall l :: l in r <==> l in links && l.source != nodeId && l.target != nodeId
    ensures IsSubsequence(r, links)
    ensures |r| <= |links|
    ensures forall l :: multiset(r)[l] == if l.source != nodeId && l.target != nodeId then multiset(links)[l] else 0
  {
    if links == [] then []
    else
      var rest := LinksAvoiding(links[1..], nodeId);
      assert links == [links[0]] + links[1..];
      if links[0].source != nodeId && links[0].target != nodeId then
        assert ([links[0]] + rest)[1..] == rest;
        [links[0]] + rest
      else rest
  }

  /** `deleteNodeFromState(state, nodeId)`: remove the node, then replace the links with those that avoid it. */
  function DeleteNodeFromState(g: GraphState, nodeId: string): (ops: seq<Op>)
    ensures |ops| == 2
    ensures ops[0] == RemoveNode(nodeId)
    ensures ops[1].ReplaceLinks?
    ensures forall l :: l in ops[1].links <==> l in g.links && l.source != nodeId && l.target != nodeId
    ensures IsSubsequence(ops[1].links, g.links)
    ensures forall l :: multiset(ops[1].links)[l] == if l.source != nodeId && l.target != nodeId then multiset(g.links)[l] else 0
  {
    [RemoveNode(nodeId), ReplaceLinks(LinksAvoiding(g.links, nodeId))]
  }

  /**
   * After the delete ops of an existing node, the node is gone, no link touches
   * it, and the other nodes and the pointers are as before (the focus and
   * thinking pointers are not cleared).
   */
  lemma DeleteNodeApplied(g: GraphState, nodeId: string)
    requires g.Valid()
    requires nodeId in g.nodes
    ensures Apply(g, DeleteNodeFromState(g, nodeId)).Some?
    ensures var h := Apply(g, DeleteNodeFromState(g, nodeId)).value;
      && h.Valid()
      && nodeId !in h.nodes
      && (forall k :: k in g.nodes && k != nodeId ==> k in h.nodes && h.nodes[k] == g.nodes[k])
      && h.nodes.Keys == g.nodes.Keys - {nodeId}
      && h.order == Without(g.order, nodeId)
      && (forall l :: l in h.links ==> l.source != nodeId && l.target != nodeId)
      && h.links == LinksAvoiding(g.links, nodeId)
      && (forall l :: multiset(h.links)[l] == if l.source != nodeId && l.target != nodeId then multiset(g.links)[l] else 0)
      && IsSubsequence(h.links, g.links)
      && h.focusNodeId == g.focusNodeId && h.thinkingNodeId == g.thinkingNodeId
      && h.settings == g.settings && h.userQueue == g.userQueue && h.tasks == g.tasks
  {
    var ops := DeleteNodeFromState(g, nodeId);
    var g1 := ApplyOp(g, ops[0]).value;
    assert ops[1..] == [ReplaceLinks(LinksAvoiding(g.links, nodeId))];
    assert Apply(g1, ops[1..]) == Some(g1.(links := LinksAvoiding(g.links, nodeId)));
    assert KeysMatch(ops);
    ApplyValid(g, ops);
  }

  /** The delete ops of a node that is not there fail: the removal's target must exist. */
  lemma DeleteMissingFails(g: GraphState, nodeId: string)
    requires nodeId !in g.nodes
    ensures Apply(g, DeleteNodeFromState(g, nodeId)) == None
  {
    RemoveMissingFails(g, nodeId);
  }

  /** One entry of the array the brainstorm call returns: `{ label, relation, aspects? }`. */
  datatype Suggestion = Suggestion(labelText: string, aspects: Option<map<string, real>>, relation: Option<string>)

  function AiNode(id: string, s: Suggestion): Node {
    Node(id, s.labelText, Proposed, Concept, 2, s.aspects.GetOr(map[]), None, None)
  }

  function AiLink(targetNodeId: string, id: string, s: Suggestion): Link {
    Link(targetNodeId, id, Ai, s.relation, None)
  }

  /** The nodes the suggestions become, with `ids[k]` for the k-th. */
  function AiNodes(suggestions: seq<Suggestion>, ids: seq<string>): (ns: seq<Node>)
    requires |ids| == |suggestions|
    ensures |ns| == |suggestions|
    ensures forall k :: 0 <= k < |ns| ==> ns[k] == AiNode(ids[k], suggestions[k])
    ensures Ids(ns) == ids
  {
    seq(|suggestions|, k requires 0 <= k < |suggestions| => AiNode(ids[k], suggestions[k]))
  }

  /** The links from the target to each new node. */
  function AiLinks(targetNodeId: string, suggestions: seq<Suggestion>, ids: seq<string>): (ls: seq<Link>)
    requires |ids| == |suggestions|
    ensures |ls| == |suggestions|
    ensures forall k :: 0 <= k < |ls| ==> ls[k] == AiLink(targetNodeId, ids[k], suggestions[k])
  {
    seq(|suggestions|, k requires 0 <= k < |suggestions| => AiLink(targetNodeId, ids[k], suggestions[k]))
  }

  /** The ops for the suggestions, in order: per suggestion, its node and then its appended link. */
  function AiNodeOps(targetNodeId: string, suggestions: seq<Suggestion>, ids: seq<string>): seq<Op>
    requires |ids| == |suggestions|
  {
    PairOps(AiNodes(suggestions, ids), AiLinks(targetNodeId, suggestions, ids), AppendToken)
  }

  /**
   * `addAIGeneratedNodes(state, targetNodeId, suggestions)`: one proposed
   * concept node and one `ai` link per suggestion, with `ids[i]` standing for
   * the clock-and-random id of the i-th node.
   */
  method AddAIGeneratedNodes(g: GraphState, targetNodeId: string, suggestions: seq<Suggestion>, ids: seq<string>)
    returns (ops: seq<Op>)
    requires |ids| == |suggestions|
    ensures ops == AiNodeOps(targetNodeId, suggestions, ids)
    ensures |ops| == 2 * |suggestions|
    ensures forall k :: 0 <= k < |suggestions| ==>
      && ops[2 * k] == AddNode(ids[k], AiNode(ids[k], suggestions[k]))
      && ops[2 * k + 1] == AddLink(AppendToken, AiLink(targetNodeId, ids[k], suggestions[k]))
  {
    ops := [];
    var i := 0;
    while i < |suggestions|
      invariant 0 <= i <= |suggestions|
      invariant |ops| == 2 * i
      invariant forall k :: 0 <= k < i ==>
        && ops[2 * k] == AddNode(ids[k], AiNode(ids[k], suggestions[k]))
        && ops[2 * k + 1] == AddLink(AppendToken, AiLink(targetNodeId, ids[k], suggestions[k]))
    {
      var s := suggestions[i];
      var id := ids[i];
      ops := ops + [AddNode(id, AiNode(id, s))];
      ops := ops + [AddLink(AppendToken, AiLink(targetNodeId, id, s))];
      i := i + 1;
    }
    PairOpsPointwise(AiNodes(suggestions, ids), AiLinks(targetNodeId, suggestions, ids), AppendToken, ops);
  }

  /**
   * The suggestion ops always apply: the links are appended in order and the
   * pointers, settings and queues are untouched; the node keys grow by the ids.
   * When the ids are distinct and new, exactly the new nodes are added, in key
   * order, and the old ones are kept.
   */
  lemma AiNodeOpsApplied(g: GraphState, targetNodeId: string, suggestions: seq<Suggestion>, ids: seq<string>)
    requires |ids| == |suggestions|
    ensures Apply(g, AiNodeOps(targetNodeId, suggestions, ids)).Some?
    ensures var h := Apply(g, AiNodeOps(targetNodeId, suggestions, ids)).value;
      && h.links == g.links + AiLinks(targetNodeId, suggestions, ids)
      && h.focusNodeId == g.focusNodeId && h.thinkingNodeId == g.thinkingNodeId
      && h.settings == g.settings && h.userQueue == g.userQueue && h.tasks == g.tasks
      && h.nodes.Keys == g.nodes.Keys + Elements(ids)
      && (g.Valid() ==> h.Valid())
      && (FreshIds(g, ids) ==>
            && h.order == g.order + ids
            && (forall k :: 0 <= k < |ids| ==> ids[k] in h.nodes && h.nodes[ids[k]] == AiNode(ids[k], suggestions[k]))
            && (forall x :: x in g.nodes ==> x in h.nodes && h.nodes[x] == g.nodes[x]))
  {
    var ns := AiNodes(suggestions, ids);
    PairOpsApplied(g, ns, AiLinks(targetNodeId, suggestions, ids));
    if FreshIds(g, ids) {
      assert forall k :: 0 <= k < |ids| ==> ns[k].id == ids[k];
    }
  }

  /** A message the server sends to every client. */
  datatype Broadcast =
    | Patch(ops: seq<Op>)             // `{ type: "PATCH", patches }`
    | FullState(state: GraphState)    // `{ type: "FULL_STATE", state }`
    | GraphList                       // `{ type: "GRAPH_LIST", graphs }`
    | AiStatus(status: string)        // `{ type: "AI_STATUS", status }`
    | AiConfigUpdated                 // `{ type: "AI_CONFIG_UPDATED", config }`

  /**
   * The live graph state: the object the server keeps and mutates in place.
   * `Snapshot()` is its value.
   */
  class GraphStore {
    var nodes: map<string, Node>
    var order: seq<string>
    var links: seq<Link>
    var focusNodeId: Option<string>
    var thinkingNodeId: Option<string>
    var settings: Settings
    var userQueue: Option<seq<Task>>
    var tasks: Option<map<TaskKind, TaskMark>>

    function Snapshot(): GraphState
      reads this
    {
      GraphState(nodes, order, links, focusNodeId, thinkingNodeId, settings, userQueue, tasks)
    }

    /** A state object holding the value `g` (a parsed file, or a fresh default). */
    constructor FromSnapshot(g: GraphState)
      ensures Snapshot() == g
    {
      nodes, order, links := g.nodes, g.order, g.links;
      focusNodeId, thinkingNodeId := g.focusNodeId, g.thinkingNodeId;
      settings, userQueue, tasks := g.settings, g.userQueue, g.tasks;
    }

    /** Overwrites every field with `g`'s (what `applyPatch` leaves behind). */
    method SetSnapshot(g: GraphState)
      modifies this
      ensures Snapshot() == g
    {
      nodes, order, links := g.nodes, g.order, g.links;
      focusNodeId, thinkingNodeId := g.focusNodeId, g.thinkingNodeId;
      settings, userQueue, tasks := g.settings, g.userQueue, g.tasks;
    }

    /** `initializeLoadedState(state)`, in place. */
    method InitializeLoaded()
      modifies this
      ensures Snapshot() == InitializeLoadedState(old(Snapshot()))
    {
      thinkingNodeId := None;
      if settings.definedAspects.None? {
        settings := settings.(definedAspects := Some(DefaultAspects));
      }
      if settings.activeAspects.None? {
        settings := settings.(activeAspects := Some([]));
      }
    }

    /** `clearStateGraph(state)`, in place. */
    method ClearGraph()
      modifies this
      ensures Snapshot() == ClearedGraph(old(Snapshot()))
    {
      nodes := map[];
      order := [];
      links := [];
      focusNodeId := None;
      thinkingNodeId := None;
    }

    /**
     * `applyStatePatches(state, ops)`. On success the state becomes the patched
     * value; a failing patch is reported and leaves the state as it was.
     */
    method ApplyPatches(ops: seq<Op>) returns (ok: bool)
      modifies this
      ensures ok == Apply(old(Snapshot()), ops).Some?
      ensures ok ==> Snapshot() == Apply(old(Snapshot()), ops).value
      ensures !ok ==> Snapshot() == old(Snapshot())
    {
      var r := Apply(Snapshot(), ops);
      ok := r.Some?;
      if ok {
        SetSnapshot(r.value);
      }
    }
  }
}
