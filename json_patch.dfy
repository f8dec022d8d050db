/**
 * The JSON Patch operations (RFC 6902) that the server emits against the graph
 * state, and their effect. Only the shapes the code builds are modelled:
 * `add` (section 4.1 of RFC 6902) of a node member or of a link array element,
 * `remove` (section 4.2) of a node member, and `replace` (section 4.3) of the
 * link array and of the two pointers. A patch is applied operation by
 * operation and fails as a whole when one operation fails (section 5).
 */
module JsonPatch {
  import opened Wrappers
  import opened GraphTypes

  datatype Op =
    | AddNode(id: string, node: Node)            // add    /nodes/<id>
    | AddLink(token: string, link: Link)         // add    /links/<token>
    | RemoveNode(id: string)                     // remove /nodes/<id>
    | ReplaceLinks(links: seq<Link>)             // replace /links
    | ReplaceFocus(focus: Option<string>)        // replace /focusNodeId
    | ReplaceThinking(thinking: Option<string>)  // replace /thinkingNodeId
  {
    /** The JSON Pointer (RFC 6901) the operation's `path` member holds. */
    function Path(): string {
      match this
      case AddNode(id, _) => "/nodes/" + id
      case AddLink(token, _) => "/links/" + token
      case RemoveNode(id) => "/nodes/" + id
      case ReplaceLinks(_) => "/links"
      case ReplaceFocus(_) => "/focusNodeId"
      case ReplaceThinking(_) => "/thinkingNodeId"
    }
  }

  /** The reference token for "past the last element" (section 4 of RFC 6901). */
  const AppendToken: string := "-"

  predicate IsDigit(c: char) { '0' <= c <= '9' }

  /** An array index token: digits, with no leading zero (section 4 of RFC 6901). */
  predicate IsIndexToken(t: string) {
    && |t| > 0
    && (forall i :: 0 <= i < |t| ==> IsDigit(t[i]))
    && (t[0] == '0' ==> |t| == 1)
  }

  function DigitsValue(t: string): nat
    requires forall i :: 0 <= i < |t| ==> IsDigit(t[i])
  {
    if t == [] then 0
    else
      assert IsDigit(t[|t| - 1]);
      DigitsValue(t[..|t| - 1]) * 10 + (t[|t| - 1] - '0') as int
  }

  /** One operation; `None` when the operation fails. */
  function ApplyOp(g: GraphState, op: Op): Option<GraphState> {
    match op
    case AddNode(id, n) =>
      // a new member goes last in key order; an existing member is replaced in place
      Some(g.(nodes := g.nodes[id := n], order := if id in g.nodes then g.order else g.order + [id]))
    case AddLink(token, l) =>
      if token == AppendToken then Some(g.(links := g.links + [l]))
      else if IsIndexToken(token) && DigitsValue(token) <= |g.links| then
        var k := DigitsValue(token);
        Some(g.(links := g.links[..k] + [l] + g.links[k..]))
      else None
    case RemoveNode(id) =>
      // the target location must exist
      if id in g.nodes then Some(g.(nodes := g.nodes - {id}, order := Without(g.order, id))) else None
    case ReplaceLinks(ls) => Some(g.(links := ls))
    case ReplaceFocus(f) => Some(g.(focusNodeId := f))
    case ReplaceThinking(t) => Some(g.(thinkingNodeId := t))
  }

  /** A whole patch: the operations in order, failing if any one fails. */
  function Apply(g: GraphState, ops: seq<Op>): Option<GraphState>
    decreases |ops|
  {
    if ops == [] then Some(g)
    else match ApplyOp(g, ops[0])
      case None => None
      case Some(h) => Apply(h, ops[1..])
  }

  /** Replacing the thinking pointer always succeeds and changes nothing else. */
  lemma ReplaceThinkingApplied(g: GraphState, t: Option<string>)
    ensures Apply(g, [ReplaceThinking(t)]) == Some(g.(thinkingNodeId := t))
  {
    assert [ReplaceThinking(t)][1..] == [];
  }

  /** An operation that stores a node stores it under the node's own id. */
  predicate KeysMatch(ops: seq<Op>) {
    forall i :: 0 <= i < |ops| && ops[i].AddNode? ==> ops[i].node.id == ops[i].id
  }

  /** Applying `a + b` is applying `a`, then `b` to its result. */
  lemma {:induction false} ApplyConcat(g: GraphState, a: seq<Op>, b: seq<Op>)
    ensures Apply(g, a + b) == (match Apply(g, a) case None => None case Some(h) => Apply(h, b))
    decreases |a|
  {
    if a == [] {
      assert a + b == b;
    } else {
      assert (a + b)[0] == a[0];
      assert (a + b)[1..] == a[1..] + b;
      match ApplyOp(g, a[0])
      case None =>
      case Some(h) => ApplyConcat(h, a[1..], b);
    }
  }

  /** A successful operation keeps the key order in step with the node map. */
  lemma ApplyOpValid(g: GraphState, op: Op)
    requires g.Valid()
    requires op.AddNode? ==> op.node.id == op.id
    requires ApplyOp(g, op).Some?
    ensures ApplyOp(g, op).value.Valid()
  {
    match op
    case AddNode(id, n) =>
      var h := ApplyOp(g, op).value;
      if id !in g.nodes {
        forall i, j | 0 <= i < j < |h.order| ensures h.order[i] != h.order[j] {
          if j == |g.order| { assert g.order[i] in g.nodes; }
        }
      }
    case AddLink(_, _) =>
    case RemoveNode(id) =>
    case ReplaceLinks(_) =>
    case ReplaceFocus(_) =>
    case ReplaceThinking(_) =>
  }

  /** A successful patch keeps the state well formed. */
  lemma {:induction false} ApplyValid(g: GraphState, ops: seq<Op>)
    requires g.Valid()
    requires KeysMatch(ops)
    requires Apply(g, ops).Some?
    ensures Apply(g, ops).value.Valid()
    decreases |ops|
  {
    if ops != [] {
      ApplyOpValid(g, ops[0]);
      var h := ApplyOp(g, ops[0]).value;
      assert KeysMatch(ops[1..]) by {
        forall i | 0 <= i < |ops[1..]| && ops[1..][i].AddNode?
          ensures ops[1..][i].node.id == ops[1..][i].id
        {
          assert ops[1..][i] == ops[i + 1];
        }
      }
      ApplyValid(h, ops[1..]);
    }
  }

  /** Removing a node that is not there fails (section 4.2 of RFC 6902). */
  lemma RemoveMissingFails(g: GraphState, id: string)
    requires id !in g.nodes
    ensures ApplyOp(g, RemoveNode(id)) == None
  {
  }

  /** The ids of `ns`, in order. */
  function Ids(ns: seq<Node>): (ids: seq<string>)
    ensures |ids| == |ns|
    ensures forall k :: 0 <= k < |ns| ==> ids[k] == ns[k].id
  {
    seq(|ns|, k requires 0 <= k < |ns| => ns[k].id)
  }

  /** The elements of `s`, as a set. */
  function Elements(s: seq<string>): (r: set<string>)
    ensures forall x :: x in r <==> x in s
  {
    set k | 0 <= k < |s| :: s[k]
  }

  /** Distinct ids none of which is a key of `g.nodes`. */
  predicate FreshIds(g: GraphState, ids: seq<string>) {
    Distinct(ids) && forall k :: 0 <= k < |ids| ==> ids[k] !in g.nodes
  }

  /**
   * The patch shape both AI merge paths build: per node, an `add` of the node
   * under its own id, then an `add` of its link at reference token `token`.
   */
  function PairOps(ns: seq<Node>, ls: seq<Link>, token: string): (ops: seq<Op>)
    requires |ns| == |ls|
    ensures |ops| == 2 * |ns|
    decreases |ns|
  {
    if ns == [] then []
    else
      var n := |ns| - 1;
      PairOps(ns[..n], ls[..n], token) + [AddNode(ns[n].id, ns[n]), AddLink(token, ls[n])]
  }

  /** Pair `k` stands at positions `2k` and `2k + 1`. */
  lemma {:induction false} PairOpsAt(ns: seq<Node>, ls: seq<Link>, token: string, k: nat)
    requires |ns| == |ls|
    requires k < |ns|
    ensures PairOps(ns, ls, token)[2 * k] == AddNode(ns[k].id, ns[k])
    ensures PairOps(ns, ls, token)[2 * k + 1] == AddLink(token, ls[k])
    decreases |ns|
  {
    var n := |ns| - 1;
    if k < n {
      PairOpsAt(ns[..n], ls[..n], token, k);
    }
  }

  /** A sequence holding pair `k` at `2k` and `2k + 1`, and nothing else, is the pair patch. */
  lemma PairOpsPointwise(ns: seq<Node>, ls: seq<Link>, token: string, ops: seq<Op>)
    requires |ns| == |ls|
    requires |ops| == 2 * |ns|
    requires forall k :: 0 <= k < |ns| ==> ops[2 * k] == AddNode(ns[k].id, ns[k]) && ops[2 * k + 1] == AddLink(token, ls[k])
    ensures ops == PairOps(ns, ls, token)
  {
    var spec := PairOps(ns, ls, token);
    forall j | 0 <= j < |ops| ensures ops[j] == spec[j] {
      PairOpsAt(ns, ls, token, j / 2);
    }
  }

  lemma PairOpsKeysMatch(ns: seq<Node>, ls: seq<Link>, token: string)
    requires |ns| == |ls|
    ensures KeysMatch(PairOps(ns, ls, token))
  {
    var ops := PairOps(ns, ls, token);
    forall i | 0 <= i < |ops| && ops[i].AddNode? ensures ops[i].node.id == ops[i].id {
      PairOpsAt(ns, ls, token, i / 2);
    }
  }

  /** The state an appending pair patch leaves behind, one pair at a time. */
  function PairsApplied(g: GraphState, ns: seq<Node>, ls: seq<Link>): GraphState
    requires |ns| == |ls|
    decreases |ns|
  {
    if ns == [] then g
    else
      var n := |ns| - 1;
      var h := PairsApplied(g, ns[..n], ls[..n]);
      h.(nodes := h.nodes[ns[n].id := ns[n]],
         order := if ns[n].id in h.nodes then h.order else h.order + [ns[n].id],
         links := h.links + [ls[n]])
  }

  lemma OnePairApplied(h: GraphState, nd: Node, l: Link)
    ensures Apply(h, [AddNode(nd.id, nd), AddLink(AppendToken, l)])
      == Some(h.(nodes := h.nodes[nd.id := nd],
                 order := if nd.id in h.nodes then h.order else h.order + [nd.id],
                 links := h.links + [l]))
  {
    var pair := [AddNode(nd.id, nd), AddLink(AppendToken, l)];
    var h2 := h.(nodes := h.nodes[nd.id := nd], order := if nd.id in h.nodes then h.order else h.order + [nd.id]);
    assert ApplyOp(h, pair[0]) == Some(h2);
    assert pair[1..] == [pair[1]];
    assert Apply(h2, pair[1..]) == Apply(h2.(links := h2.links + [l]), []);
  }

  lemma {:induction false} PairOpsApply(g: GraphState, ns: seq<Node>, ls: seq<Link>)
    requires |ns| == |ls|
    ensures Apply(g, PairOps(ns, ls, AppendToken)) == Some(PairsApplied(g, ns, ls))
    decreases |ns|
  {
    if ns != [] {
      var n := |ns| - 1;
      PairOpsApply(g, ns[..n], ls[..n]);
      ApplyConcat(g, PairOps(ns[..n], ls[..n], AppendToken), [AddNode(ns[n].id, ns[n]), AddLink(AppendToken, ls[n])]);
      OnePairApplied(PairsApplied(g, ns[..n], ls[..n]), ns[n], ls[n]);
    }
  }

  lemma {:induction false} PairsAppliedFields(g: GraphState, ns: seq<Node>, ls: seq<Link>)
    requires |ns| == |ls|
    ensures var h := PairsApplied(g, ns, ls);
      && h.links == g.links + ls
      && h.focusNodeId == g.focusNodeId && h.thinkingNodeId == g.thinkingNodeId
      && h.settings == g.settings && h.userQueue == g.userQueue && h.tasks == g.tasks
      && h.nodes.Keys == g.nodes.Keys + Elements(Ids(ns))
    decreases |ns|
  {
    if ns != [] {
      var n := |ns| - 1;
      PairsAppliedFields(g, ns[..n], ls[..n]);
      assert ls == ls[..n] + [ls[n]];
      assert Ids(ns) == Ids(ns[..n]) + [ns[n].id];
    }
  }

  lemma FreshPrefix(g: GraphState, ids: seq<string>)
    requires |ids| > 0 && FreshIds(g, ids)
    ensures FreshIds(g, ids[..|ids| - 1])
    ensures ids[|ids| - 1] !in ids[..|ids| - 1]
  {
    var pre := ids[..|ids| - 1];
    forall i, j | 0 <= i < j < |pre| ensures pre[i] != pre[j] { assert pre[i] == ids[i] && pre[j] == ids[j]; }
    forall k | 0 <= k < |pre| ensures pre[k] !in g.nodes && pre[k] != ids[|ids| - 1] { assert pre[k] == ids[k]; }
  }

  /** The last node's id is new to the state the earlier pairs leave. */
  lemma LastIdNew(g: GraphState, ns: seq<Node>, ls: seq<Link>)
    requires |ns| == |ls| > 0
    requires FreshIds(g, Ids(ns))
    ensures ns[|ns| - 1].id !in PairsApplied(g, ns[..|ns| - 1], ls[..|ns| - 1]).nodes
    ensures FreshIds(g, Ids(ns[..|ns| - 1]))
  {
    var n := |ns| - 1;
    FreshPrefix(g, Ids(ns));
    assert Ids(ns)[..n] == Ids(ns[..n]);
    PairsAppliedFields(g, ns[..n], ls[..n]);
  }

  lemma {:induction false} PairsAppliedOrder(g: GraphState, ns: seq<Node>, ls: seq<Link>)
    requires |ns| == |ls|
    requires FreshIds(g, Ids(ns))
    ensures PairsApplied(g, ns, ls).order == g.order + Ids(ns)
    decreases |ns|
  {
    if ns != [] {
      var n := |ns| - 1;
      LastIdNew(g, ns, ls);
      PairsAppliedOrder(g, ns[..n], ls[..n]);
      assert Ids(ns) == Ids(ns[..n]) + [ns[n].id];
    }
  }

  lemma {:induction false} PairsAppliedNodes(g: GraphState, ns: seq<Node>, ls: seq<Link>)
    requires |ns| == |ls|
    requires FreshIds(g, Ids(ns))
    ensures var h := PairsApplied(g, ns, ls);
      && (forall k :: 0 <= k < |ns| ==> ns[k].id in h.nodes && h.nodes[ns[k].id] == ns[k])
      && (forall x :: x in g.nodes ==> x in h.nodes && h.nodes[x] == g.nodes[x])
    decreases |ns|
  {
    if ns != [] {
      var n := |ns| - 1;
      LastIdNew(g, ns, ls);
      PairsAppliedNodes(g, ns[..n], ls[..n]);
      var h := PairsApplied(g, ns, ls);
      forall k | 0 <= k < |ns| ensures ns[k].id in h.nodes && h.nodes[ns[k].id] == ns[k] {
        if k < n {
          assert ns[..n][k] == ns[k];
          assert Ids(ns)[k] != Ids(ns)[n];
        }
      }
      forall x | x in g.nodes ensures x in h.nodes && h.nodes[x] == g.nodes[x] {
        assert Ids(ns)[n] !in g.nodes;
      }
    }
  }

  /**
   * An appending pair patch always applies: the links grow by `ls` in order, the
   * pointers, settings and queues are untouched, the keys grow by the node ids
   * and a well-formed state stays well formed. When the ids are distinct and
   * new, exactly those nodes are added, appended in key order, and the old
   * nodes are kept.
   */
  lemma PairOpsApplied(g: GraphState, ns: seq<Node>, ls: seq<Link>)
    requires |ns| == |ls|
    ensures Apply(g, PairOps(ns, ls, AppendToken)).Some?
    ensures var h := Apply(g, PairOps(ns, ls, AppendToken)).value;
      && h.links == g.links + ls
      && h.focusNodeId == g.focusNodeId && h.thinkingNodeId == g.thinkingNodeId
      && h.settings == g.settings && h.userQueue == g.userQueue && h.tasks == g.tasks
      && h.nodes.Keys == g.nodes.Keys + Elements(Ids(ns))
      && (g.Valid() ==> h.Valid())
      && (FreshIds(g, Ids(ns)) ==>
            && h.order == g.order + Ids(ns)
            && (forall k :: 0 <= k < |ns| ==> ns[k].id in h.nodes && h.nodes[ns[k].id] == ns[k])
            && (forall x :: x in g.nodes ==> x in h.nodes && h.nodes[x] == g.nodes[x]))
  {
    PairOpsApply(g, ns, ls);
    PairsAppliedFields(g, ns, ls);
    if g.Valid() {
      PairOpsKeysMatch(ns, ls, AppendToken);
      ApplyValid(g, PairOps(ns, ls, AppendToken));
    }
    if FreshIds(g, Ids(ns)) {
      PairsAppliedOrder(g, ns, ls);
      PairsAppliedNodes(g, ns, ls);
    }
  }

  /**
   * A pair patch whose link token is neither "-" nor an array index fails as a
   * whole as soon as there is one pair: its second operation has no target.
   */
  lemma PairOpsBadTokenFails(g: GraphState, ns: seq<Node>, ls: seq<Link>, token: string)
    requires |ns| == |ls| > 0
    requires token != AppendToken && !IsIndexToken(token)
    ensures Apply(g, PairOps(ns, ls, token)) == None
  {
    var ops := PairOps(ns, ls, token);
    PairOpsAt(ns, ls, token, 0);
    var g1 := ApplyOp(g, ops[0]).value;
    assert Apply(g, ops) == Apply(g1, ops[1..]);
    assert ops[1..][0] == AddLink(token, ls[0]);
  }
}
