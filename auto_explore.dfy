/**
 * One iteration of the background explorer (server/auto-explore.ts): behind
 * the busy/model gate it picks a node that needs connections, marks it as the
 * one being thought about, asks the model for suggestions and merges them.
 * The interval timer is left out; the awaited `brainstorm` answer is a
 * parameter.
 */
module AutoExplore {
  import opened Wrappers
  import opened GraphTypes
  import opened JsonPatch
  import opened State
  import opened AiCore

  /** The links that touch `id` at either end, in their order. */
  function Incident(links: seq<Link>, id: string): (r: seq<Link>)
    ensures forall l :: l in r <==> l in links && (l.source == id || l.target == id)
    ensures IsSubsequence(r, links)
    ensures |r| <= |links|
  {
    if links == [] then []
    else
      var rest := Incident(links[1..], id);
      if links[0].source == id || links[0].target == id then
        assert ([links[0]] + rest)[1..] == rest;
        [links[0]] + rest
      else rest
  }

  /** Each link touching `id` is kept as often as it occurs, so repeated links all count. */
  lemma {:induction false} IncidentMultiplicity(links: seq<Link>, id: string)
    ensures forall l :: multiset(Incident(links, id))[l] == if l.source == id || l.target == id then multiset(links)[l] else 0
    decreases |links|
  {
    if links != [] {
      IncidentMultiplicity(links[1..], id);
      assert links == [links[0]] + links[1..];
    }
  }

  /** Fewer incident links than `minConnections`. */
  predicate NeedsConnections(g: GraphState, n: Node) {
    |Incident(g.links, n.id)| < g.settings.minConnections
  }

  /**
   * The focused node, when the pointer is set (and not empty, which is falsy),
   * names an existing node that is accepted or auto-explore is on, and that
   * node needs connections.
   */
  function FocusTarget(g: GraphState): (r: Option<Node>)
    ensures r.Some? <==>
      && g.focusNodeId.Some? && g.focusNodeId.value != "" && g.focusNodeId.value in g.nodes
      && (g.nodes[g.focusNodeId.value].status == Accepted || g.settings.autoExplore)
      && NeedsConnections(g, g.nodes[g.focusNodeId.value])
    ensures r.Some? ==> r.value == g.nodes[g.focusNodeId.value]
  {
    match g.focusNodeId
    case None => None
    case Some(f) =>
      if f != "" && f in g.nodes && (g.nodes[f].status == Accepted || g.settings.autoExplore)
         && NeedsConnections(g, g.nodes[f])
      then Some(g.nodes[f])
      else None
  }

  /** `Object.values(state.nodes).find(...)`: the first node that needs connections. */
  function FirstNeeding(g: GraphState, vs: seq<Node>): (r: Option<Node>)
    ensures r.None? <==> forall i :: 0 <= i < |vs| ==> !NeedsConnections(g, vs[i])
    ensures r.Some? ==>
      exists i :: 0 <= i < |vs| && vs[i] == r.value && NeedsConnections(g, vs[i])
                  && forall j :: 0 <= j < i ==> !NeedsConnections(g, vs[j])
  {
    if vs == [] then None
    else if NeedsConnections(g, vs[0]) then Some(vs[0])
    else
      var r := FirstNeeding(g, vs[1..]);
      assert forall i :: 1 <= i < |vs| ==> vs[i] == vs[1..][i - 1];
      assert r.Some? ==>
        exists i :: 0 <= i < |vs| && vs[i] == r.value && NeedsConnections(g, vs[i])
                    && forall j :: 0 <= j < i ==> !NeedsConnections(g, vs[j]) by {
        if r.Some? {
          var i :| 0 <= i < |vs[1..]| && vs[1..][i] == r.value && NeedsConnections(g, vs[1..][i])
            && forall j :: 0 <= j < i ==> !NeedsConnections(g, vs[1..][j]);
          assert vs[i + 1] == r.value;
          assert forall j :: 1 <= j < i + 1 ==> !NeedsConnections(g, vs[j]);
        }
      }
      r
  }

  /** The node the iteration works on: the focus target, else (with auto-explore on) the fallback scan. */
  function SelectTarget(g: GraphState): (r: Option<Node>)
    requires g.Valid()
  {
    if FocusTarget(g).Some? then FocusTarget(g)
    else if g.settings.autoExplore then FirstNeeding(g, g.Values())
    else None
  }

  /** Without a usable focus and with auto-explore off there is nothing to do. */
  lemma NoTargetWhenOff(g: GraphState)
    requires g.Valid() && !g.settings.autoExplore && FocusTarget(g).None?
    ensures SelectTarget(g).None?
  {
  }

  /**
   * The fallback finds the first node, in key order and of any status, that
   * needs connections, and finds none only when no node does.
   */
  lemma FallbackTarget(g: GraphState)
    requires g.Valid() && g.settings.autoExplore && FocusTarget(g).None?
    ensures SelectTarget(g).None? <==> forall k :: k in g.nodes ==> !NeedsConnections(g, g.nodes[k])
    ensures SelectTarget(g).Some? ==>
      exists i :: 0 <= i < |g.order| && SelectTarget(g).value == g.nodes[g.order[i]]
        && NeedsConnections(g, g.nodes[g.order[i]])
        && forall j :: 0 <= j < i ==> !NeedsConnections(g, g.nodes[g.order[j]])
  {
    var vs := g.Values();
    if SelectTarget(g).None? {
      forall k | k in g.nodes ensures !NeedsConnections(g, g.nodes[k]) {
        var i :| 0 <= i < |g.order| && g.order[i] == k;
        assert vs[i] == g.nodes[k];
      }
    } else {
      var i :| 0 <= i < |vs| && vs[i] == SelectTarget(g).value && NeedsConnections(g, vs[i])
        && forall j :: 0 <= j < i ==> !NeedsConnections(g, vs[j]);
      assert vs[i] == g.nodes[g.order[i]];
    }
  }

  /** Whatever is chosen is an existing node that needs connections. */
  lemma TargetNeedsConnections(g: GraphState)
    requires g.Valid() && SelectTarget(g).Some?
    ensures SelectTarget(g).value.id in g.nodes
    ensures g.nodes[SelectTarget(g).value.id] == SelectTarget(g).value
    ensures NeedsConnections(g, SelectTarget(g).value)
  {
    if FocusTarget(g).None? {
      var vs := g.Values();
      var i :| 0 <= i < |vs| && vs[i] == SelectTarget(g).value && NeedsConnections(g, vs[i])
        && forall j :: 0 <= j < i ==> !NeedsConnections(g, vs[j]);
      assert vs[i] == g.nodes[g.order[i]];
    }
  }

  /** `String.prototype.toLowerCase` on ASCII letters; other characters are kept. */
  function LowerChar(c: char): (d: char)
    ensures !('A' <= d <= 'Z')
    ensures !('A' <= c <= 'Z') ==> d == c
  {
    if 'A' <= c <= 'Z' then (c as int + 32) as char else c
  }

  function Lower(s: string): (r: string)
    ensures |r| == |s|
    ensures forall i :: 0 <= i < |s| ==> r[i] == LowerChar(s[i])
  {
    seq(|s|, i requires 0 <= i < |s| => LowerChar(s[i]))
  }

  /** The lowercased labels of the forbidden nodes, in order. */
  function ForbiddenLabels(vs: seq<Node>): (r: seq<string>)
    ensures forall s :: s in r <==> exists i :: 0 <= i < |vs| && vs[i].status == Forbidden && s == Lower(vs[i].labelText)
    ensures |r| <= |vs|
    ensures |vs| == 1 ==> r == if vs[0].status == Forbidden then [Lower(vs[0].labelText)] else []
  {
    if vs == [] then []
    else
      var rest := ForbiddenLabels(vs[1..]);
      assert |vs| == 1 ==> rest == [];
      assert forall i :: 1 <= i < |vs| ==> vs[i] == vs[1..][i - 1];
      if vs[0].status == Forbidden then [Lower(vs[0].labelText)] + rest else rest
  }

  /**
   * The labels come in the order of the nodes, once per forbidden node: the
   * list of a concatenation is the concatenation of the lists.
   */
  lemma {:induction false} ForbiddenLabelsConcat(a: seq<Node>, b: seq<Node>)
    ensures ForbiddenLabels(a + b) == ForbiddenLabels(a) + ForbiddenLabels(b)
    decreases |a|
  {
    if a != [] {
      assert (a + b)[0] == a[0] && (a + b)[1..] == a[1..] + b;
      ForbiddenLabelsConcat(a[1..], b);
    } else {
      assert a + b == b;
    }
  }

  /** What the iteration asks the model: the target's label, the forbidden labels, the aspect list and the creativity. */
  datatype BrainstormRequest = BrainstormRequest(labelText: string, forbidden: seq<string>, aspects: Option<seq<string>>, creativity: real)

  /** The state after a dispatched iteration on `t`: the thinking pointer cleared, then the suggestions merged. */
  function AfterIteration(g: GraphState, t: Node, suggestions: seq<Suggestion>, ids: seq<string>): GraphState
    requires |ids| == |suggestions|
  {
    var cleared := g.(thinkingNodeId := None);
    if |suggestions| == 0 then cleared
    else
      AiNodeOpsApplied(cleared, t.id, suggestions, ids);
      Apply(cleared, AiNodeOps(t.id, suggestions, ids)).value
  }

  /**
   * Whatever was suggested, the iteration leaves no node marked as being
   * thought about, and the focus and settings are kept. Nodes and links change
   * only when there were suggestions; then each suggestion's link from the
   * target is appended, and with fresh distinct ids each suggestion is a new
   * proposed node while the old nodes are kept.
   */
  lemma AfterIterationEffect(g: GraphState, t: Node, suggestions: seq<Suggestion>, ids: seq<string>)
    requires |ids| == |suggestions|
    ensures var h := AfterIteration(g, t, suggestions, ids);
      && h.thinkingNodeId == None && h.focusNodeId == g.focusNodeId && h.settings == g.settings
      && (|suggestions| == 0 ==> h.nodes == g.nodes && h.order == g.order && h.links == g.links)
      && (|suggestions| > 0 ==> h.links == g.links + AiLinks(t.id, suggestions, ids))
      && (g.Valid() ==> h.Valid())
      && (FreshIds(g, ids) ==>
            && (forall k :: 0 <= k < |ids| ==> ids[k] in h.nodes && h.nodes[ids[k]].status == Proposed)
            && (forall x :: x in g.nodes ==> x in h.nodes && h.nodes[x] == g.nodes[x]))
  {
    var cleared := g.(thinkingNodeId := None);
    AiNodeOpsApplied(cleared, t.id, suggestions, ids);
    assert g.Valid() ==> cleared.Valid();
    assert FreshIds(g, ids) ==> FreshIds(cleared, ids);
  }

  /**
   * `runAutoExploreIteration(context)`, with `ai` for the flags of the
   * server's model runtime, `suggestions` for what `brainstorm` answers and
   * `ids` for the ids `addAIGeneratedNodes` draws. `request` is what is sent
   * to the model, `thinkingAtCall` the thinking pointer while it runs.
   */
  method RunAutoExploreIteration(store: GraphStore, ai: AiRuntime, suggestions: seq<Suggestion>, ids: seq<string>)
    returns (request: Option<BrainstormRequest>, broadcasts: seq<Broadcast>, saved: bool, ghost thinkingAtCall: Option<string>)
    requires store.Snapshot().Valid()
    requires |ids| == |suggestions|
    modifies store
    ensures var g := old(store.Snapshot());
      (ai.isAiBusy || !ai.hasModel || SelectTarget(g).None?) ==>
        store.Snapshot() == g && request.None? && broadcasts == [] && !saved
    ensures var g := old(store.Snapshot());
      !(ai.isAiBusy || !ai.hasModel) && SelectTarget(g).Some? ==>
        var t := SelectTarget(g).value;
        && request == Some(BrainstormRequest(t.labelText, ForbiddenLabels(g.Values()), g.settings.definedAspects, g.settings.creativity))
        && thinkingAtCall == Some(t.id)
        && broadcasts == [Patch([ReplaceThinking(Some(t.id))]), Patch([ReplaceThinking(None)])]
                         + (if |suggestions| > 0 then [Patch(AiNodeOps(t.id, suggestions, ids))] else [])
        && saved == (|suggestions| > 0)
        && store.Snapshot() == AfterIteration(g, t, suggestions, ids)
  {
    request, broadcasts, saved, thinkingAtCall := None, [], false, None;
    if ai.isAiBusy || !ai.hasModel {
      return;
    }
    var target := SelectTarget(store.Snapshot());
    if target.None? {
      return;
    }
    request, broadcasts, saved, thinkingAtCall := Dispatch(store, target.value, suggestions, ids);
  }

  /**
   * The part of the iteration after a target `t` was found, run without
   * anything happening while `brainstorm` is awaited: `BeginIteration`
   * followed by `FinishIteration` on the state it leaves.
   */
  method Dispatch(store: GraphStore, t: Node, suggestions: seq<Suggestion>, ids: seq<string>)
    returns (request: Option<BrainstormRequest>, broadcasts: seq<Broadcast>, saved: bool, ghost thinkingAtCall: Option<string>)
    requires store.Snapshot().Valid()
    requires |ids| == |suggestions|
    modifies store
    ensures var g := old(store.Snapshot());
      && request == Some(BrainstormRequest(t.labelText, ForbiddenLabels(g.Values()), g.settings.definedAspects, g.settings.creativity))
      && thinkingAtCall == Some(t.id)
      && broadcasts == [Patch([ReplaceThinking(Some(t.id))]), Patch([ReplaceThinking(None)])]
                       + (if |suggestions| > 0 then [Patch(AiNodeOps(t.id, suggestions, ids))] else [])
      && saved == (|suggestions| > 0)
      && store.Snapshot() == AfterIteration(g, t, suggestions, ids)
  {
    ghost var g := store.Snapshot();
    var started: Broadcast;
    request, started := BeginIteration(store, t);
    thinkingAtCall := store.thinkingNodeId;
    var rest: seq<Broadcast>;
    rest, saved := FinishIteration(store, t, suggestions, ids);
    broadcasts := [started] + rest;
    assert store.Snapshot() == AfterIteration(g.(thinkingNodeId := Some(t.id)), t, suggestions, ids);
    assert g.(thinkingNodeId := Some(t.id)).(thinkingNodeId := None) == g.(thinkingNodeId := None);
  }

  /**
   * The iteration up to the `brainstorm` await (server/auto-explore.ts:64-81):
   * the thinking pointer is set to `t` and the request is built from the
   * state as it is then.
   */
  method BeginIteration(store: GraphStore, t: Node) returns (request: Option<BrainstormRequest>, broadcast: Broadcast)
    requires store.Snapshot().Valid()
    modifies store
    ensures var g := old(store.Snapshot());
      && store.Snapshot() == g.(thinkingNodeId := Some(t.id))
      && request == Some(BrainstormRequest(t.labelText, ForbiddenLabels(g.Values()), g.settings.definedAspects, g.settings.creativity))
      && broadcast == Patch([ReplaceThinking(Some(t.id))])
  {
    ghost var g := store.Snapshot();
    var setThinking := [ReplaceThinking(Some(t.id))];
    ReplaceThinkingApplied(store.Snapshot(), Some(t.id));
    var _ := store.ApplyPatches(setThinking);
    broadcast := Patch(setThinking);
    assert store.Snapshot() == g.(thinkingNodeId := Some(t.id));
    var forbidden := ForbiddenLabels(store.Snapshot().Values());
    request := Some(BrainstormRequest(t.labelText, forbidden, store.settings.definedAspects, store.settings.creativity));
  }

  /**
   * The iteration after the await (server/auto-explore.ts:83-95), applied to
   * the state as it is when `brainstorm` has answered, whatever messages were
   * handled meanwhile: the pointer is cleared, then the suggestions are
   * merged under `t.id`.
   */
  method FinishIteration(store: GraphStore, t: Node, suggestions: seq<Suggestion>, ids: seq<string>)
    returns (broadcasts: seq<Broadcast>, saved: bool)
    requires |ids| == |suggestions|
    modifies store
    ensures store.Snapshot() == AfterIteration(old(store.Snapshot()), t, suggestions, ids)
    ensures broadcasts == [Patch([ReplaceThinking(None)])]
                          + (if |suggestions| > 0 then [Patch(AiNodeOps(t.id, suggestions, ids))] else [])
    ensures saved == (|suggestions| > 0)
  {
    ghost var g := store.Snapshot();
    saved := false;
    var clearThinking := [ReplaceThinking(None)];
    ReplaceThinkingApplied(store.Snapshot(), None);
    var _ := store.ApplyPatches(clearThinking);
    broadcasts := [Patch(clearThinking)];
    assert store.Snapshot() == g.(thinkingNodeId := None);

    if |suggestions| > 0 {
      var ops := AddAIGeneratedNodes(store.Snapshot(), t.id, suggestions, ids);
      assert Apply(store.Snapshot(), ops).Some? by {
        AiNodeOpsApplied(store.Snapshot(), t.id, suggestions, ids);
      }
      var _ := store.ApplyPatches(ops);
      broadcasts := broadcasts + [Patch(ops)];
      saved := true;
    }
  }
}
