/**
 * Cycle marking in the scanned code graph (`detectCycles` in
 * server/graph-scanner.ts): Tarjan's strongly connected components over the
 * `imports` links, then a mark on every node of a component of more than one
 * vertex and on every link whose two ends lie in the same such component.
 */
module GraphCycles {
  import opened GraphScanner
  import opened Reach

  type Adjacency = map<string, seq<string>>

  /** `adj.get(v) || []`. */
  function Succ(adj: Adjacency, v: string): seq<string> {
    if v in adj then adj[v] else []
  }

  /** An arc of the directed graph. */
  ghost predicate Arc(adj: Adjacency, u: string, w: string) {
    w in Succ(adj, u)
  }

  /** A directed walk: each vertex is followed by one of its successors. */
  ghost predicate Walk(adj: Adjacency, p: seq<string>) {
    |p| > 0 && forall i :: 0 <= i < |p| - 1 ==> Arc(adj, p[i], p[i + 1])
  }

  ghost predicate Reaches(adj: Adjacency, x: string, y: string) {
    exists p :: Walk(adj, p) && p[0] == x && p[|p| - 1] == y
  }

  /**
   * `x` shares its strongly connected component with another vertex: the
   * component has more than one vertex.
   */
  ghost predicate Nontrivial(adj: Adjacency, x: string) {
    exists y :: y != x && Reaches(adj, x, y) && Reaches(adj, y, x)
  }

  lemma ReachesRefl(adj: Adjacency, x: string)
    ensures Reaches(adj, x, x)
  {
    assert Walk(adj, [x]);
  }

  lemma ReachesArc(adj: Adjacency, x: string, y: string)
    requires Arc(adj, x, y)
    ensures Reaches(adj, x, y)
  {
    assert Walk(adj, [x, y]);
  }

  lemma ReachesTrans(adj: Adjacency, x: string, y: string, z: string)
    requires Reaches(adj, x, y) && Reaches(adj, y, z)
    ensures Reaches(adj, x, z)
  {
    var p :| Walk(adj, p) && p[0] == x && p[|p| - 1] == y;
    var q :| Walk(adj, q) && q[0] == y && q[|q| - 1] == z;
    var r := p + q[1..];
    forall i | 0 <= i < |r| - 1 ensures Arc(adj, r[i], r[i + 1]) {
      if i < |p| - 1 {
        assert r[i] == p[i] && r[i + 1] == p[i + 1];
      } else {
        var j := i - |p| + 1;
        assert r[i] == q[j] && r[i + 1] == q[j + 1];
      }
    }
    assert Walk(adj, r);
  }

  /** What a set closed under arcs holds, it holds everything reachable from. */
  lemma ReachesClosed(adj: Adjacency, s: set<string>, x: string, y: string)
    requires x in s && Reaches(adj, x, y)
    requires forall u, w :: u in s && Arc(adj, u, w) ==> w in s
    ensures y in s
  {
    var p :| Walk(adj, p) && p[0] == x && p[|p| - 1] == y;
    var i := 0;
    while i < |p| - 1
      invariant 0 <= i <= |p| - 1 && p[i] in s
    {
      assert Arc(adj, p[i], p[i + 1]);
      i := i + 1;
    }
  }

  /**
   * A set that keeps every successor of its members that still reaches
   * `target` holds every vertex on a walk from a member to `target`.
   */
  lemma ReachesWithin(adj: Adjacency, s: set<string>, target: string, x: string, y: string)
    requires x in s && Reaches(adj, x, y) && Reaches(adj, y, target)
    requires forall u, w :: u in s && Arc(adj, u, w) && Reaches(adj, w, target) ==> w in s
    ensures y in s
  {
    var p :| Walk(adj, p) && p[0] == x && p[|p| - 1] == y;
    var i := 0;
    while i < |p| - 1
      invariant 0 <= i <= |p| - 1 && p[i] in s
    {
      WalkSuffix(adj, p, i + 1);
      ReachesTrans(adj, p[i + 1], y, target);
      assert Arc(adj, p[i], p[i + 1]);
      i := i + 1;
    }
  }

  /** A vertex of a walk reaches the walk's end. */
  lemma WalkSuffix(adj: Adjacency, p: seq<string>, i: nat)
    requires Walk(adj, p) && i < |p|
    ensures Reaches(adj, p[i], p[|p| - 1])
  {
    var rest := p[i..];
    forall j | 0 <= j < |rest| - 1 ensures Arc(adj, rest[j], rest[j + 1]) {
      assert rest[j] == p[i + j] && rest[j + 1] == p[i + j + 1];
    }
    assert Walk(adj, rest) && rest[0] == p[i] && rest[|rest| - 1] == p[|p| - 1];
  }

  /** Every vertex the graph mentions: the keys and every successor. */
  ghost function Vertices(adj: Adjacency): (r: set<string>)
    ensures adj.Keys <= r
    ensures forall u, w :: Arc(adj, u, w) ==> w in r
  {
    var targets := set u, i | u in adj && 0 <= i < |adj[u]| :: adj[u][i];
    forall u, w | Arc(adj, u, w) ensures w in targets {
      var i :| 0 <= i < |adj[u]| && adj[u][i] == w;
    }
    adj.Keys + targets
  }

  // The import graph

  /** Targets of the `imports` links leaving `u`, in link order. */
  function ImportTargets(links: seq<ScanLink>, u: string): seq<string>
    decreases |links|
  {
    if links == [] then []
    else
      var rest := ImportTargets(links[..|links| - 1], u);
      var l := links[|links| - 1];
      if l.ltype == Imports && l.source == u then rest + [l.target] else rest
  }

  /** The list of `u` holds exactly the targets of the `imports` links leaving `u`. */
  lemma {:induction false} ImportTargetsMembers(links: seq<ScanLink>, u: string, w: string)
    ensures w in ImportTargets(links, u) <==>
      exists k :: 0 <= k < |links| && links[k].ltype == Imports && links[k].source == u && links[k].target == w
    decreases |links|
  {
    if links != [] {
      var pre, l := links[..|links| - 1], links[|links| - 1];
      ImportTargetsMembers(pre, u, w);
      assert forall k :: 0 <= k < |pre| ==> pre[k] == links[k];
      if w in ImportTargets(links, u) && !(l.ltype == Imports && l.source == u && l.target == w) {
        var k :| 0 <= k < |pre| && pre[k].ltype == Imports && pre[k].source == u && pre[k].target == w;
        assert links[k] == pre[k];
      }
    }
  }

  /** The sources of the `imports` links. */
  function ImportSources(links: seq<ScanLink>): set<string> {
    set k | 0 <= k < |links| && links[k].ltype == Imports :: links[k].source
  }

  /** The adjacency `detectCycles` builds: every node, and every source of an `imports` link. */
  function ImportGraph(nodes: seq<ScanNode>, links: seq<ScanLink>): Adjacency {
    map u | u in IdSet(nodes) + ImportSources(links) :: ImportTargets(links, u)
  }

  /** The arcs of the import graph are exactly the `imports` links. */
  lemma ImportArcs(nodes: seq<ScanNode>, links: seq<ScanLink>, u: string, w: string)
    ensures Arc(ImportGraph(nodes, links), u, w) <==>
      exists k :: 0 <= k < |links| && links[k].ltype == Imports && links[k].source == u && links[k].target == w
  {
    var adj := ImportGraph(nodes, links);
    ImportTargetsMembers(links, u, w);
    forall k | 0 <= k < |links| && links[k].ltype == Imports ensures links[k].source in adj {
      assert links[k].source in ImportSources(links);
    }
  }

  /** In `detectCycles` (server/graph-scanner.ts:289-298): one entry per node, then each `imports` link appended to its source's list. */
  method BuildImportGraph(nodes: seq<ScanNode>, links: seq<ScanLink>) returns (adj: Adjacency)
    ensures adj == ImportGraph(nodes, links)
  {
    adj := NodeEntries(nodes);
    assert links[..0] == [];
    for k := 0 to |links|
      invariant GraphOfPrefix(nodes, links, k, adj)
    {
      var l := links[k];
      ImportPrefixStep(nodes, links, k, adj);
      if l.ltype == Imports {
        var before := if l.source in adj then adj[l.source] else [];
        adj := adj[l.source := before + [l.target]];
      }
    }
    assert links[..|links|] == links;
  }

  /** The graph of the nodes and the first `k` links. */
  ghost predicate GraphOfPrefix(nodes: seq<ScanNode>, links: seq<ScanLink>, k: nat, adj: Adjacency)
    requires k <= |links|
  {
    adj == ImportGraph(nodes, links[..k])
  }

  /** In `detectCycles` (server/graph-scanner.ts:290-292): an empty list for every node. */
  method NodeEntries(nodes: seq<ScanNode>) returns (adj: Adjacency)
    ensures adj.Keys == IdSet(nodes) && forall u :: u in adj ==> adj[u] == []
  {
    adj := map[];
    for i := 0 to |nodes|
      invariant adj.Keys == IdSet(nodes[..i])
      invariant forall u :: u in adj ==> adj[u] == []
    {
      assert IdSet(nodes[..i + 1]) == IdSet(nodes[..i]) + {nodes[i].id} by {
        assert forall j :: 0 <= j < i ==> nodes[..i + 1][j] == nodes[..i][j];
        assert nodes[..i + 1][i] == nodes[i];
      }
      adj := adj[nodes[i].id := []];
    }
    assert nodes[..|nodes|] == nodes;
  }

  /** One more link appends its target to its source's list, creating the entry if need be. */
  lemma ImportPrefixStep(nodes: seq<ScanNode>, links: seq<ScanLink>, k: nat, adj: Adjacency)
    requires k < |links| && GraphOfPrefix(nodes, links, k, adj)
    ensures GraphOfPrefix(nodes, links, k + 1,
      if links[k].ltype == Imports then adj[links[k].source := Succ(adj, links[k].source) + [links[k].target]]
      else adj)
  {
    var l := links[k];
    var next := if l.ltype == Imports then adj[l.source := Succ(adj, l.source) + [l.target]] else adj;
    var g := ImportGraph(nodes, links[..k + 1]);
    SourcesSnoc(links, k);
    assert g.Keys == next.Keys;
    forall u | u in g ensures g[u] == next[u] {
      TargetsSnoc(links, k, u);
      assert g[u] == ImportTargets(links[..k + 1], u);
      if u in adj {
        assert adj[u] == ImportTargets(links[..k], u);
      } else {
        TargetsInSources(links[..k], u);
      }
    }
  }

  lemma SourcesSnoc(links: seq<ScanLink>, k: nat)
    requires k < |links|
    ensures ImportSources(links[..k + 1]) ==
      ImportSources(links[..k]) + (if links[k].ltype == Imports then {links[k].source} else {})
  {
    var pre, longer := links[..k], links[..k + 1];
    assert forall j :: 0 <= j < k ==> longer[j] == pre[j];
    assert longer[k] == links[k];
  }

  lemma TargetsSnoc(links: seq<ScanLink>, k: nat, u: string)
    requires k < |links|
    ensures ImportTargets(links[..k + 1], u) ==
      if links[k].ltype == Imports && links[k].source == u then ImportTargets(links[..k], u) + [links[k].target]
      else ImportTargets(links[..k], u)
  {
    assert links[..k + 1][..k] == links[..k];
  }

  /** Only a source of an `imports` link has targets. */
  lemma TargetsInSources(links: seq<ScanLink>, u: string)
    ensures ImportTargets(links, u) != [] ==> u in ImportSources(links)
  {
    var ts := ImportTargets(links, u);
    if ts != [] {
      ImportTargetsMembers(links, u, ts[0]);
      var k :| 0 <= k < |links| && links[k].ltype == Imports && links[k].source == u && links[k].target == ts[0];
      assert u in ImportSources(links);
    }
  }

  // The search state

  /**
   * The variables `strongconnect` closes over: the next number `index`, the
   * `stack`, the `indices` and `lowlink` maps, the `onStack` set and the
   * components `sccs` kept so far.
   */
  datatype Search = Search(
    index: nat, stack: seq<string>, indices: map<string, nat>, lowlink: map<string, nat>,
    onStack: set<string>, sccs: seq<seq<string>>)

  type Numbers = map<string, nat>

  ghost function Num(indices: Numbers, x: string): nat {
    if x in indices then indices[x] else 0
  }

  /** Numbers are handed out once each, below the counter. */
  ghost predicate Numbering(index: nat, indices: Numbers) {
    && (forall x :: x in indices ==> indices[x] < index)
    && (forall x, y :: x in indices && y in indices && indices[x] == indices[y] ==> x == y)
  }

  /** The stack holds numbered vertices in increasing order of number, and `onStack` is its set. */
  ghost predicate StackOrdered(stack: seq<string>, onStack: set<string>, indices: Numbers) {
    && (forall x :: x in onStack <==> x in stack)
    && (forall i :: 0 <= i < |stack| ==> stack[i] in indices)
    && (forall i, j :: 0 <= i < j < |stack| ==> Num(indices, stack[i]) < Num(indices, stack[j]))
  }

  /**
   * Every stacked vertex reaches a stacked vertex whose number is its low
   * link, and its low link is at most its own number.
   */
  ghost predicate LowLinks(adj: Adjacency, stack: seq<string>, onStack: set<string>, indices: Numbers,
                           lowlink: Numbers) {
    forall x :: x in onStack ==>
      && Num(lowlink, x) <= Num(indices, x)
      && exists k :: 0 <= k < |stack| && Num(indices, stack[k]) == Num(lowlink, x) && Reaches(adj, x, stack[k])
  }

  /**
   * A stacked vertex whose call has returned (one not `gray`) has a low link
   * below its number, and no larger than the number of a stacked successor.
   */
  ghost predicate ReturnedOnStack(adj: Adjacency, onStack: set<string>, indices: Numbers, lowlink: Numbers,
                                  gray: set<string>) {
    forall x :: x in onStack && x !in gray ==>
      && Num(lowlink, x) < Num(indices, x)
      && forall w :: Arc(adj, x, w) && w in onStack ==> Num(lowlink, x) <= Num(indices, w)
  }

  /** The successors of a numbered vertex whose call has returned are numbered. */
  ghost predicate NumberedClosed(adj: Adjacency, indices: Numbers, gray: set<string>) {
    forall x, w :: x in indices && x !in gray && Arc(adj, x, w) ==> w in indices
  }

  /** Numbered and popped: its component is complete. */
  ghost predicate Done(indices: Numbers, onStack: set<string>, x: string) {
    x in indices && x !in onStack
  }

  /** What is mutually reachable with a popped vertex is popped too. */
  ghost predicate DoneClosed(adj: Adjacency, indices: Numbers, onStack: set<string>) {
    forall x, y :: Done(indices, onStack, x) && Reaches(adj, x, y) && Reaches(adj, y, x) ==> Done(indices, onStack, y)
  }

  /**
   * The kept components are disjoint strongly connected components of more
   * than one vertex, and together they hold every popped vertex that shares
   * its component with another.
   */
  ghost predicate Recorded(adj: Adjacency, indices: Numbers, onStack: set<string>, sccs: seq<seq<string>>) {
    && Mutual(adj, sccs) && MutualClosed(adj, sccs) && RecordedDone(adj, indices, onStack, sccs)
    && RecordedAll(adj, indices, onStack, sccs) && Disjoint(sccs)
  }

  /** The vertices of one kept component reach each other. */
  ghost predicate Mutual(adj: Adjacency, sccs: seq<seq<string>>) {
    forall c, x, y :: 0 <= c < |sccs| && x in sccs[c] && y in sccs[c] ==> Reaches(adj, x, y)
  }

  /** A kept component holds all that is mutually reachable with its vertices. */
  ghost predicate MutualClosed(adj: Adjacency, sccs: seq<seq<string>>) {
    forall c, x, y :: 0 <= c < |sccs| && x in sccs[c] && Reaches(adj, x, y) && Reaches(adj, y, x) ==> y in sccs[c]
  }

  /** The vertices of the kept components are popped, each with another in its component. */
  ghost predicate RecordedDone(adj: Adjacency, indices: Numbers, onStack: set<string>, sccs: seq<seq<string>>) {
    forall c, x :: 0 <= c < |sccs| && x in sccs[c] ==> Done(indices, onStack, x) && Nontrivial(adj, x)
  }

  /** A popped vertex with another in its component is in a kept component. */
  ghost predicate RecordedAll(adj: Adjacency, indices: Numbers, onStack: set<string>, sccs: seq<seq<string>>) {
    forall x :: Done(indices, onStack, x) && Nontrivial(adj, x) ==> exists c :: 0 <= c < |sccs| && x in sccs[c]
  }

  /** No vertex is in two kept components. */
  ghost predicate Disjoint(sccs: seq<seq<string>>) {
    forall c, d, x :: 0 <= c < |sccs| && 0 <= d < |sccs| && x in sccs[c] && x in sccs[d] ==> c == d
  }

  /** The invariant of the search, with `gray` the vertices whose calls are in progress. */
  ghost predicate SearchInv(adj: Adjacency, t: Search, gray: set<string>) {
    && t.indices.Keys == t.lowlink.Keys
    && Numbering(t.index, t.indices)
    && StackOrdered(t.stack, t.onStack, t.indices)
    && LowLinks(adj, t.stack, t.onStack, t.indices, t.lowlink)
    && ReturnedOnStack(adj, t.onStack, t.indices, t.lowlink, gray)
    && NumberedClosed(adj, t.indices, gray)
    && DoneClosed(adj, t.indices, t.onStack)
    && Recorded(adj, t.indices, t.onStack, t.sccs)
  }

  /** In `strongconnect` (server/graph-scanner.ts:307-311): number `v`, set its low link to the same, and push it. */
  function Begin(t: Search, v: string): Search {
    t.(index := t.index + 1, stack := t.stack + [v], indices := t.indices[v := t.index],
       lowlink := t.lowlink[v := t.index], onStack := t.onStack + {v})
  }

  function Min(a: nat, b: nat): nat {
    if a <= b then a else b
  }

  /** `lowlink.set(v, Math.min(lowlink.get(v)!, n))`. */
  function LowerTo(t: Search, v: string, n: nat): Search
    requires v in t.lowlink
  {
    t.(lowlink := t.lowlink[v := Min(t.lowlink[v], n)])
  }

  /** Numbering and pushing a fresh vertex keeps the invariant, with the vertex now in progress. */
  lemma BeginKeeps(adj: Adjacency, t: Search, gray: set<string>, v: string)
    requires SearchInv(adj, t, gray) && v !in t.indices
    ensures SearchInv(adj, Begin(t, v), gray + {v})
  {
    var b := Begin(t, v);
    BeginStack(t.index, t.stack, t.onStack, t.indices, v);
    BeginLowLinks(adj, t.index, t.stack, t.onStack, t.indices, t.lowlink, v);
    BeginReturned(adj, t.index, t.onStack, t.indices, t.lowlink, gray, v);
    BeginDone(adj, t, v);
  }

  lemma BeginStack(index: nat, stack: seq<string>, onStack: set<string>, indices: Numbers, v: string)
    requires Numbering(index, indices) && StackOrdered(stack, onStack, indices) && v !in indices
    ensures Numbering(index + 1, indices[v := index])
    ensures StackOrdered(stack + [v], onStack + {v}, indices[v := index])
  {
    var ind := indices[v := index];
    var st := stack + [v];
    assert forall i :: 0 <= i < |stack| ==> st[i] == stack[i] && Num(ind, st[i]) == Num(indices, stack[i]);
    assert st[|stack|] == v && Num(ind, v) == index;
  }

  lemma BeginLowLinks(adj: Adjacency, index: nat, stack: seq<string>, onStack: set<string>, indices: Numbers,
                      lowlink: Numbers, v: string)
    requires Numbering(index, indices) && StackOrdered(stack, onStack, indices) && v !in indices
    requires indices.Keys == lowlink.Keys && LowLinks(adj, stack, onStack, indices, lowlink)
    ensures LowLinks(adj, stack + [v], onStack + {v}, indices[v := index], lowlink[v := index])
  {
    var ind, low, st := indices[v := index], lowlink[v := index], stack + [v];
    forall x | x in onStack + {v}
      ensures Num(low, x) <= Num(ind, x)
      ensures exists k :: 0 <= k < |st| && Num(ind, st[k]) == Num(low, x) && Reaches(adj, x, st[k])
    {
      if x == v {
        ReachesRefl(adj, v);
        assert st[|stack|] == v;
      } else {
        var k :| 0 <= k < |stack| && Num(indices, stack[k]) == Num(lowlink, x) && Reaches(adj, x, stack[k]);
        assert st[k] == stack[k];
      }
    }
  }

  lemma BeginReturned(adj: Adjacency, index: nat, onStack: set<string>, indices: Numbers, lowlink: Numbers,
                      gray: set<string>, v: string)
    requires Numbering(index, indices) && v !in indices && indices.Keys == lowlink.Keys
    requires forall x :: x in onStack ==> x in indices && Num(lowlink, x) <= Num(indices, x)
    requires ReturnedOnStack(adj, onStack, indices, lowlink, gray)
    ensures ReturnedOnStack(adj, onStack + {v}, indices[v := index], lowlink[v := index], gray + {v})
  {
  }

  lemma BeginDone(adj: Adjacency, t: Search, v: string)
    requires v !in t.indices
    requires DoneClosed(adj, t.indices, t.onStack) && Recorded(adj, t.indices, t.onStack, t.sccs)
    ensures DoneClosed(adj, t.indices[v := t.index], t.onStack + {v})
    ensures Recorded(adj, t.indices[v := t.index], t.onStack + {v}, t.sccs)
  {
    var ind, on := t.indices[v := t.index], t.onStack + {v};
    assert forall x :: Done(ind, on, x) <==> Done(t.indices, t.onStack, x);
  }

  /** Lowering the low link of a vertex in progress towards a stacked vertex it reaches keeps the invariant. */
  lemma LowerKeeps(adj: Adjacency, t: Search, gray: set<string>, v: string, n: nat)
    requires SearchInv(adj, t, gray) && v in gray && v in t.onStack
    requires n >= Num(t.lowlink, v) ||
      exists k :: 0 <= k < |t.stack| && Num(t.indices, t.stack[k]) == n && Reaches(adj, v, t.stack[k])
    ensures v in t.lowlink && SearchInv(adj, LowerTo(t, v, n), gray)
  {
    assert v in t.indices;
    var l := LowerTo(t, v, n);
    assert l.lowlink.Keys == t.lowlink.Keys;
    LowerLowLinks(adj, t.stack, t.onStack, t.indices, t.lowlink, v, n);
    LowerReturned(adj, t.onStack, t.indices, t.lowlink, gray, v, n);
  }

  lemma LowerLowLinks(adj: Adjacency, stack: seq<string>, onStack: set<string>, indices: Numbers,
                      lowlink: Numbers, v: string, n: nat)
    requires v in lowlink && LowLinks(adj, stack, onStack, indices, lowlink)
    requires n >= Num(lowlink, v) ||
      exists k :: 0 <= k < |stack| && Num(indices, stack[k]) == n && Reaches(adj, v, stack[k])
    ensures LowLinks(adj, stack, onStack, indices, lowlink[v := Min(lowlink[v], n)])
  {
    var low := lowlink[v := Min(lowlink[v], n)];
    forall x | x in onStack
      ensures Num(low, x) <= Num(indices, x)
      ensures exists k :: 0 <= k < |stack| && Num(indices, stack[k]) == Num(low, x) && Reaches(adj, x, stack[k])
    {
      if x == v && n < Num(lowlink, v) {
        var k :| 0 <= k < |stack| && Num(indices, stack[k]) == n && Reaches(adj, v, stack[k]);
      }
    }
  }

  lemma LowerReturned(adj: Adjacency, onStack: set<string>, indices: Numbers, lowlink: Numbers,
                      gray: set<string>, v: string, n: nat)
    requires v in lowlink && v in gray && ReturnedOnStack(adj, onStack, indices, lowlink, gray)
    ensures ReturnedOnStack(adj, onStack, indices, lowlink[v := Min(lowlink[v], n)], gray)
  {
    var low := lowlink[v := Min(lowlink[v], n)];
    assert forall x :: x != v ==> Num(low, x) == Num(lowlink, x);
  }

  /** The numbers and low links of `t` are kept, and later vertices are numbered from `t`'s counter on. */
  ghost predicate Grows(t: Search, index: nat, indices: Numbers, lowlink: Numbers) {
    && t.index <= index
    && (forall x :: x in t.indices ==> x in indices && indices[x] == t.indices[x])
    && (forall x :: x in t.lowlink ==> x in lowlink && lowlink[x] == t.lowlink[x])
    && (forall x :: x in indices && x !in t.indices ==> indices[x] >= t.index)
  }

  /** `stack` is `t.stack` with vertices numbered after `t` on top. */
  ghost predicate StackAbove(t: Search, stack: seq<string>) {
    && |t.stack| <= |stack| && stack[..|t.stack|] == t.stack
    && forall i :: |t.stack| <= i < |stack| ==> stack[i] !in t.indices
  }

  /** Everything numbered since `t0` is reachable from `v`. */
  ghost predicate ReachedFrom(adj: Adjacency, v: string, t0: Search, indices: Numbers) {
    forall y :: y in indices && y !in t0.indices ==> Reaches(adj, v, y)
  }

  /** The low link of `v` is at most the low link of every vertex stacked above position `p`. */
  ghost predicate LowAbove(v: string, p: nat, stack: seq<string>, lowlink: Numbers) {
    forall i :: p < i < |stack| ==> Num(lowlink, v) <= Num(lowlink, stack[i])
  }

  /** The first `k` successors of `v` are numbered, and the low link of `v` is at most the number of each stacked one. */
  ghost predicate SuccessorsSeen(adj: Adjacency, v: string, k: nat, indices: Numbers, onStack: set<string>,
                                 lowlink: Numbers) {
    && k <= |Succ(adj, v)|
    && (forall j :: 0 <= j < k ==> Succ(adj, v)[j] in indices)
    && (forall j :: 0 <= j < k && Succ(adj, v)[j] in onStack ==> Num(lowlink, v) <= Num(indices, Succ(adj, v)[j]))
  }

  /** `v`, fresh in `t0`, is numbered with `t0`'s counter and sits on the stack right above `t0`'s stack. */
  ghost predicate Entered(gray: set<string>, v: string, t0: Search, stack: seq<string>, indices: Numbers) {
    && v !in t0.indices && v !in t0.lowlink && gray <= t0.indices.Keys
    && v in indices && indices[v] == t0.index
    && StackAbove(t0, stack) && |t0.stack| < |stack| && stack[|t0.stack|] == v
    && (forall i :: |t0.stack| < i < |stack| ==> stack[i] != v)
  }

  /**
   * The loop over the successors of `v` in `strongconnect(v)`, entered in
   * state `t0`, after `k` successors: `v` is numbered and stacked, all that
   * was numbered since is reachable from `v` (and stacked above it, if not
   * popped), the low link of `v` is at most that of anything above it, and
   * at most the number of each stacked successor seen so far.
   */
  ghost predicate Scanning(adj: Adjacency, gray: set<string>, v: string, t0: Search, t: Search, k: nat) {
    SearchInv(adj, t, gray + {v}) && ScanFrame(adj, gray, v, t0, t, k)
  }

  /** The part of `Scanning` that relates the state to the one `strongconnect(v)` was entered in. */
  ghost predicate ScanFrame(adj: Adjacency, gray: set<string>, v: string, t0: Search, t: Search, k: nat) {
    && Grows(t0, t.index, t.indices, t.lowlink)
    && Entered(gray, v, t0, t.stack, t.indices)
    && ReachedFrom(adj, v, t0, t.indices)
    && LowAbove(v, |t0.stack|, t.stack, t.lowlink)
    && SuccessorsSeen(adj, v, k, t.indices, t.onStack, t.lowlink)
  }

  /**
   * What `strongconnect(v)`, entered in state `t0`, leaves: the invariant
   * with `v` finished, `v` numbered with the counter of `t0`, everything
   * numbered since reachable from `v`, the stack of `t0` with at most `v`'s
   * unfinished part on top, whose low links are no lower than `v`'s, and
   * `v`'s low link its own number once `v` is popped.
   */
  ghost predicate Finished(adj: Adjacency, gray: set<string>, v: string, t0: Search, t: Search) {
    SearchInv(adj, t, gray) && FinishFrame(adj, v, t0, t)
  }

  /** The part of `Finished` that relates the state to the one `strongconnect(v)` was entered in. */
  ghost predicate FinishFrame(adj: Adjacency, v: string, t0: Search, t: Search) {
    && Grows(t0, t.index, t.indices, t.lowlink)
    && v in t.indices && t.indices[v] == t0.index
    && StackAbove(t0, t.stack)
    && ReachedFrom(adj, v, t0, t.indices)
    && (forall i :: |t0.stack| <= i < |t.stack| ==> Num(t.lowlink, v) <= Num(t.lowlink, t.stack[i]))
    && (v !in t.onStack ==> Num(t.lowlink, v) == Num(t.indices, v))
  }

  lemma ScanStart(adj: Adjacency, gray: set<string>, v: string, t: Search)
    requires SearchInv(adj, t, gray) && v !in t.indices && gray <= t.indices.Keys
    ensures Scanning(adj, gray, v, t, Begin(t, v), 0)
  {
    BeginKeeps(adj, t, gray, v);
    ReachesRefl(adj, v);
    var b := Begin(t, v);
    assert b.stack[..|t.stack|] == t.stack && b.stack[|t.stack|] == v;
  }

  /** A successor already finished in another component changes nothing. */
  lemma SkipStep(adj: Adjacency, gray: set<string>, v: string, t0: Search, t: Search, k: nat)
    requires Scanning(adj, gray, v, t0, t, k) && k < |Succ(adj, v)|
    requires Succ(adj, v)[k] in t.indices && Succ(adj, v)[k] !in t.onStack
    ensures Scanning(adj, gray, v, t0, t, k + 1)
  {
    SeenSkip(adj, v, k, t.indices, t.onStack, t.lowlink);
  }

  lemma SeenSkip(adj: Adjacency, v: string, k: nat, indices: Numbers, onStack: set<string>, lowlink: Numbers)
    requires SuccessorsSeen(adj, v, k, indices, onStack, lowlink) && k < |Succ(adj, v)|
    requires Succ(adj, v)[k] in indices && Succ(adj, v)[k] !in onStack
    ensures SuccessorsSeen(adj, v, k + 1, indices, onStack, lowlink)
  {
  }

  /** A stacked successor `w` lowers `v`'s low link to at most `w`'s number. */
  lemma BackStep(adj: Adjacency, gray: set<string>, v: string, t0: Search, t: Search, k: nat)
    requires Scanning(adj, gray, v, t0, t, k) && k < |Succ(adj, v)|
    requires Succ(adj, v)[k] in t.indices && Succ(adj, v)[k] in t.onStack
    ensures v in t.lowlink && Scanning(adj, gray, v, t0, LowerTo(t, v, t.indices[Succ(adj, v)[k]]), k + 1)
  {
    var w := Succ(adj, v)[k];
    var n := t.indices[w];
    BackWitness(adj, v, w, t.stack, t.onStack, t.indices);
    assert v in t.onStack by {
      assert t.stack[|t0.stack|] == v;
    }
    LowerKeeps(adj, t, gray + {v}, v, n);
    GrowsLower(t0, t.index, t.indices, t.lowlink, v, n);
    AboveLower(v, |t0.stack|, t.stack, t.lowlink, n);
    SeenLower(adj, v, k, t.indices, t.onStack, t.lowlink, n);
  }

  lemma BackWitness(adj: Adjacency, v: string, w: string, stack: seq<string>, onStack: set<string>, indices: Numbers)
    requires w in Succ(adj, v) && w in onStack && w in indices && forall x :: x in onStack <==> x in stack
    ensures exists q :: 0 <= q < |stack| && Num(indices, stack[q]) == indices[w] && Reaches(adj, v, stack[q])
  {
    assert Arc(adj, v, w);
    ReachesArc(adj, v, w);
    var q :| 0 <= q < |stack| && stack[q] == w;
  }

  lemma GrowsLower(t0: Search, index: nat, indices: Numbers, lowlink: Numbers, v: string, n: nat)
    requires Grows(t0, index, indices, lowlink) && v !in t0.lowlink && v in lowlink
    ensures Grows(t0, index, indices, lowlink[v := Min(lowlink[v], n)])
  {
  }

  lemma AboveLower(v: string, p: nat, stack: seq<string>, lowlink: Numbers, n: nat)
    requires v in lowlink && LowAbove(v, p, stack, lowlink) && forall i :: p < i < |stack| ==> stack[i] != v
    ensures LowAbove(v, p, stack, lowlink[v := Min(lowlink[v], n)])
  {
    var low := lowlink[v := Min(lowlink[v], n)];
    forall i | p < i < |stack| ensures Num(low, v) <= Num(low, stack[i]) {
      assert Num(low, stack[i]) == Num(lowlink, stack[i]);
    }
  }

  lemma SeenLower(adj: Adjacency, v: string, k: nat, indices: Numbers, onStack: set<string>, lowlink: Numbers, n: nat)
    requires SuccessorsSeen(adj, v, k, indices, onStack, lowlink) && k < |Succ(adj, v)| && v in lowlink
    requires Succ(adj, v)[k] in indices && Succ(adj, v)[k] in onStack && n == indices[Succ(adj, v)[k]]
    ensures SuccessorsSeen(adj, v, k + 1, indices, onStack, lowlink[v := Min(lowlink[v], n)])
  {
  }

  /** After the call on an unnumbered successor `w`, `v`'s low link drops to at most `w`'s. */
  lemma TreeStep(adj: Adjacency, gray: set<string>, v: string, t0: Search, t: Search, t1: Search, k: nat)
    requires Scanning(adj, gray, v, t0, t, k) && k < |Succ(adj, v)| && Succ(adj, v)[k] !in t.indices
    requires Finished(adj, gray + {v}, Succ(adj, v)[k], t, t1)
    ensures v in t1.lowlink && Succ(adj, v)[k] in t1.lowlink
    ensures Scanning(adj, gray, v, t0, LowerTo(t1, v, t1.lowlink[Succ(adj, v)[k]]), k + 1)
  {
    TreeFrame(adj, gray, v, t0, t, t1, k);
    LowerKeeps(adj, t1, gray + {v}, v, t1.lowlink[Succ(adj, v)[k]]);
  }

  lemma TreeFrame(adj: Adjacency, gray: set<string>, v: string, t0: Search, t: Search, t1: Search, k: nat)
    requires ScanFrame(adj, gray, v, t0, t, k) && k < |Succ(adj, v)| && Succ(adj, v)[k] !in t.indices
    requires Numbering(t.index, t.indices) && StackOrdered(t.stack, t.onStack, t.indices)
    requires t.indices.Keys == t.lowlink.Keys && t1.indices.Keys == t1.lowlink.Keys
    requires StackOrdered(t1.stack, t1.onStack, t1.indices) && LowLinks(adj, t1.stack, t1.onStack, t1.indices, t1.lowlink)
    requires FinishFrame(adj, Succ(adj, v)[k], t, t1)
    ensures v in t1.onStack && v in t1.lowlink && Succ(adj, v)[k] in t1.lowlink
    ensures t1.lowlink[Succ(adj, v)[k]] >= Num(t1.lowlink, v) ||
      exists q :: 0 <= q < |t1.stack| && Num(t1.indices, t1.stack[q]) == t1.lowlink[Succ(adj, v)[k]] &&
        Reaches(adj, v, t1.stack[q])
    ensures ScanFrame(adj, gray, v, t0, LowerTo(t1, v, t1.lowlink[Succ(adj, v)[k]]), k + 1)
  {
    var w := Succ(adj, v)[k];
    assert Arc(adj, v, w);
    assert v in t.onStack by {
      assert t.stack[|t0.stack|] == v;
    }
    OnStackKept(t, t1, v);
    assert t1.indices[v] == t0.index < t.index == t1.indices[w];
    TreeWitness(adj, v, w, t1.stack, t1.onStack, t1.indices, t1.lowlink);
    var n := t1.lowlink[w];
    GrowsTrans(t0, t, t1.index, t1.indices, t1.lowlink);
    GrowsLower(t0, t1.index, t1.indices, t1.lowlink, v, n);
    EnteredTree(gray, v, t0, t, t1.stack, t1.indices);
    ReachedTree(adj, v, w, t0, t, t1.indices);
    AboveTree(v, w, |t0.stack|, t, t1.stack, t1.lowlink);
    SeenTree(adj, v, k, t, t1);
  }

  /** What was stacked before the call is still stacked after it. */
  lemma OnStackKept(t: Search, t1: Search, v: string)
    requires v in t.onStack && StackOrdered(t.stack, t.onStack, t.indices)
    requires StackOrdered(t1.stack, t1.onStack, t1.indices) && StackAbove(t, t1.stack)
    ensures v in t1.onStack
    ensures forall x :: x in t1.onStack && x in t.indices ==> x in t.onStack
  {
    var q :| 0 <= q < |t.stack| && t.stack[q] == v;
    assert t1.stack[q] == v;
    forall x | x in t1.onStack && x in t.indices ensures x in t.onStack {
      var r :| 0 <= r < |t1.stack| && t1.stack[r] == x;
      assert r < |t.stack| && t.stack[r] == x;
    }
  }

  lemma TreeWitness(adj: Adjacency, v: string, w: string, stack: seq<string>, onStack: set<string>,
                    indices: Numbers, lowlink: Numbers)
    requires Arc(adj, v, w) && v in onStack && w in indices && w in lowlink
    requires LowLinks(adj, stack, onStack, indices, lowlink) && Num(indices, v) < Num(indices, w)
    requires w !in onStack ==> Num(lowlink, w) == Num(indices, w)
    ensures lowlink[w] >= Num(lowlink, v) ||
      exists q :: 0 <= q < |stack| && Num(indices, stack[q]) == lowlink[w] && Reaches(adj, v, stack[q])
  {
    if w in onStack {
      var q :| 0 <= q < |stack| && Num(indices, stack[q]) == Num(lowlink, w) && Reaches(adj, w, stack[q]);
      ReachesArc(adj, v, w);
      ReachesTrans(adj, v, w, stack[q]);
    }
  }

  lemma GrowsTrans(t0: Search, t: Search, index: nat, indices: Numbers, lowlink: Numbers)
    requires Grows(t0, t.index, t.indices, t.lowlink) && Grows(t, index, indices, lowlink)
    ensures Grows(t0, index, indices, lowlink)
  {
  }

  lemma EnteredTree(gray: set<string>, v: string, t0: Search, t: Search, stack: seq<string>, indices: Numbers)
    requires Entered(gray, v, t0, t.stack, t.indices) && StackAbove(t, stack)
    requires forall x :: x in t0.indices ==> x in t.indices
    requires forall x :: x in t.indices ==> x in indices && indices[x] == t.indices[x]
    ensures Entered(gray, v, t0, stack, indices)
  {
    assert stack[..|t.stack|] == t.stack;
    assert stack[..|t0.stack|] == t.stack[..|t0.stack|];
    forall i | |t0.stack| <= i < |stack| ensures stack[i] !in t0.indices && (i > |t0.stack| ==> stack[i] != v) {
      if i < |t.stack| {
        assert stack[i] == t.stack[i];
      }
    }
  }

  lemma ReachedTree(adj: Adjacency, v: string, w: string, t0: Search, t: Search, indices: Numbers)
    requires Arc(adj, v, w) && ReachedFrom(adj, v, t0, t.indices) && ReachedFrom(adj, w, t, indices)
    ensures ReachedFrom(adj, v, t0, indices)
  {
    forall y | y in indices && y !in t0.indices ensures Reaches(adj, v, y) {
      if y !in t.indices {
        ReachesArc(adj, v, w);
        ReachesTrans(adj, v, w, y);
      }
    }
  }

  lemma AboveTree(v: string, w: string, p: nat, t: Search, stack: seq<string>, lowlink: Numbers)
    requires v in t.lowlink && w in lowlink && LowAbove(v, p, t.stack, t.lowlink) && StackAbove(t, stack)
    requires forall i :: 0 <= i < |t.stack| ==> t.stack[i] in t.lowlink
    requires forall x :: x in t.lowlink ==> x in lowlink && lowlink[x] == t.lowlink[x]
    requires forall i :: |t.stack| <= i < |stack| ==> Num(lowlink, w) <= Num(lowlink, stack[i])
    requires forall i :: p < i < |stack| ==> stack[i] != v
    ensures LowAbove(v, p, stack, lowlink[v := Min(lowlink[v], lowlink[w])])
  {
    var low := lowlink[v := Min(lowlink[v], lowlink[w])];
    assert stack[..|t.stack|] == t.stack;
    assert Num(low, v) <= Num(lowlink, w) && Num(low, v) <= Num(t.lowlink, v);
    forall i | p < i < |stack| ensures Num(low, v) <= Num(low, stack[i]) {
      assert Num(low, stack[i]) == Num(lowlink, stack[i]);
      if i < |t.stack| {
        assert stack[i] == t.stack[i];
      }
    }
  }

  lemma SeenTree(adj: Adjacency, v: string, k: nat, t: Search, t1: Search)
    requires SuccessorsSeen(adj, v, k, t.indices, t.onStack, t.lowlink) && k < |Succ(adj, v)|
    requires v in t.lowlink && v in t1.lowlink && t1.lowlink[v] == t.lowlink[v]
    requires forall x :: x in t.indices ==> x in t1.indices && t1.indices[x] == t.indices[x]
    requires forall x :: x in t1.onStack && x in t.indices ==> x in t.onStack
    requires Succ(adj, v)[k] in t1.indices && Succ(adj, v)[k] in t1.lowlink
    requires Succ(adj, v)[k] in t1.onStack ==> Num(t1.lowlink, Succ(adj, v)[k]) <= Num(t1.indices, Succ(adj, v)[k])
    ensures SuccessorsSeen(adj, v, k + 1, t1.indices, t1.onStack,
                           t1.lowlink[v := Min(t1.lowlink[v], t1.lowlink[Succ(adj, v)[k]])])
  {
  }

  // Popping a component

  ghost function Members(r: seq<string>): set<string> {
    set x | x in r
  }

  /** `R` is the strongly connected component of `v`. */
  ghost predicate Component(adj: Adjacency, r: set<string>, v: string) {
    && v in r
    && (forall x :: x in r ==> Reaches(adj, v, x) && Reaches(adj, x, v))
    && (forall y :: Reaches(adj, v, y) && Reaches(adj, y, v) ==> y in r)
  }

  /**
   * With `v`'s low link its own number after the loop, the stack from `v`
   * up is `v`'s strongly connected component.
   */
  lemma RegionComponent(adj: Adjacency, stack: seq<string>, onStack: set<string>, indices: Numbers,
                        lowlink: Numbers, gray: set<string>, v: string, p: nat)
    requires StackOrdered(stack, onStack, indices) && LowLinks(adj, stack, onStack, indices, lowlink)
    requires ReturnedOnStack(adj, onStack, indices, lowlink, gray + {v}) && NumberedClosed(adj, indices, gray + {v})
    requires DoneClosed(adj, indices, onStack) && SuccessorsSeen(adj, v, |Succ(adj, v)|, indices, onStack, lowlink)
    requires p < |stack| && stack[p] == v && Num(lowlink, v) == Num(indices, v) && LowAbove(v, p, stack, lowlink)
    requires forall j :: p < j < |stack| ==> stack[j] !in gray && stack[j] != v
    requires forall j :: p <= j < |stack| ==> Reaches(adj, v, stack[j])
    ensures Component(adj, Members(stack[p..]), v)
  {
    ChainOf(adj, stack, onStack, indices, lowlink, gray, v, p);
    RegionArcs(adj, stack, onStack, indices, lowlink, gray, v, p);
    RegionMutual(adj, stack, indices, lowlink, p);
    RegionWhole(adj, stack, onStack, indices, lowlink, v, p);
  }

  /**
   * The facts about the stack above position `p` that the low links give:
   * numbers increase up the stack, and every low link above `p` lies between
   * the number at `p` and the vertex's own number and is the number of a
   * stacked vertex it reaches.
   */
  ghost predicate Chain(adj: Adjacency, stack: seq<string>, indices: Numbers, lowlink: Numbers, p: nat) {
    && p < |stack|
    && (forall a, b :: 0 <= a < b < |stack| ==> Num(indices, stack[a]) < Num(indices, stack[b]))
    && (forall j :: p < j < |stack| ==> Num(indices, stack[p]) <= Num(lowlink, stack[j]) < Num(indices, stack[j]))
    && (forall j :: p < j < |stack| ==>
          exists k :: (0 <= k < |stack| && Num(indices, stack[k]) == Num(lowlink, stack[j]) &&
                       Reaches(adj, stack[j], stack[k])))
  }

  lemma ChainOf(adj: Adjacency, stack: seq<string>, onStack: set<string>, indices: Numbers,
                lowlink: Numbers, gray: set<string>, v: string, p: nat)
    requires StackOrdered(stack, onStack, indices) && LowLinks(adj, stack, onStack, indices, lowlink)
    requires ReturnedOnStack(adj, onStack, indices, lowlink, gray + {v})
    requires p < |stack| && stack[p] == v && Num(lowlink, v) == Num(indices, v) && LowAbove(v, p, stack, lowlink)
    requires forall j :: p < j < |stack| ==> stack[j] !in gray && stack[j] != v
    ensures Chain(adj, stack, indices, lowlink, p)
  {
    forall j | p < j < |stack|
      ensures Num(indices, stack[p]) <= Num(lowlink, stack[j]) < Num(indices, stack[j])
      ensures exists k :: (0 <= k < |stack| && Num(indices, stack[k]) == Num(lowlink, stack[j]) &&
                           Reaches(adj, stack[j], stack[k]))
    {
      var x := stack[j];
      assert x in onStack && x !in gray + {v};
      assert Num(lowlink, v) <= Num(lowlink, x) && Num(lowlink, x) < Num(indices, x);
      var k :| 0 <= k < |stack| && Num(indices, stack[k]) == Num(lowlink, x) && Reaches(adj, x, stack[k]);
    }
  }

  /** The arcs leaving the region: numbered targets, and the low-link bounds on stacked ones. */
  lemma RegionArcs(adj: Adjacency, stack: seq<string>, onStack: set<string>, indices: Numbers,
                   lowlink: Numbers, gray: set<string>, v: string, p: nat)
    requires StackOrdered(stack, onStack, indices)
    requires ReturnedOnStack(adj, onStack, indices, lowlink, gray + {v}) && NumberedClosed(adj, indices, gray + {v})
    requires SuccessorsSeen(adj, v, |Succ(adj, v)|, indices, onStack, lowlink)
    requires p < |stack| && stack[p] == v && Num(lowlink, v) == Num(indices, v) && LowAbove(v, p, stack, lowlink)
    requires forall j :: p < j < |stack| ==> stack[j] !in gray && stack[j] != v
    ensures forall u, w :: u in Members(stack[p..]) && Arc(adj, u, w) ==>
      w in indices && Num(indices, v) <= Num(lowlink, u) && (w in onStack ==> Num(lowlink, u) <= Num(indices, w))
  {
    forall u, w | u in Members(stack[p..]) && Arc(adj, u, w)
      ensures w in indices && Num(indices, v) <= Num(lowlink, u) && (w in onStack ==> Num(lowlink, u) <= Num(indices, w))
    {
      var i :| 0 <= i < |stack[p..]| && stack[p..][i] == u;
      assert stack[p + i] == u;
      if u == v {
        SeenAll(adj, v, indices, onStack, lowlink, w);
      } else {
        assert u in onStack && u !in gray + {v};
      }
    }
  }

  /** Every vertex of the region reaches `v`. */
  lemma RegionMutual(adj: Adjacency, stack: seq<string>, indices: Numbers, lowlink: Numbers, p: nat)
    requires Chain(adj, stack, indices, lowlink, p)
    ensures forall x :: x in Members(stack[p..]) ==> Reaches(adj, x, stack[p])
  {
    forall x | x in Members(stack[p..]) ensures Reaches(adj, x, stack[p]) {
      var i :| 0 <= i < |stack[p..]| && stack[p..][i] == x;
      assert stack[p + i] == x;
      RegionReachesRoot(adj, stack, indices, lowlink, p, p + i);
    }
  }

  /** The region, closed under the arcs that lead back to `v`, holds all that is mutually reachable with `v`. */
  lemma RegionWhole(adj: Adjacency, stack: seq<string>, onStack: set<string>, indices: Numbers,
                    lowlink: Numbers, v: string, p: nat)
    requires StackOrdered(stack, onStack, indices) && DoneClosed(adj, indices, onStack)
    requires p < |stack| && stack[p] == v
    requires forall j :: p <= j < |stack| ==> Reaches(adj, v, stack[j])
    requires forall x :: x in Members(stack[p..]) ==> Reaches(adj, x, stack[p])
    requires forall u, w :: u in Members(stack[p..]) && Arc(adj, u, w) ==>
      w in indices && Num(indices, v) <= Num(lowlink, u) && (w in onStack ==> Num(lowlink, u) <= Num(indices, w))
    ensures Component(adj, Members(stack[p..]), v)
  {
    var r := Members(stack[p..]);
    assert stack[p..][0] == v;
    forall x | x in r ensures Reaches(adj, v, x) {
      var i :| 0 <= i < |stack[p..]| && stack[p..][i] == x;
      assert stack[p + i] == x;
    }
    forall u, w | u in r && Arc(adj, u, w) && Reaches(adj, w, v) ensures w in r {
      RegionClosed(adj, stack, onStack, indices, lowlink, v, p, u, w);
    }
    forall y | Reaches(adj, v, y) && Reaches(adj, y, v) ensures y in r {
      ReachesWithin(adj, r, v, v, y);
    }
  }

  /** Every successor of `v` is numbered after the loop, and bounds `v`'s low link if stacked. */
  lemma SeenAll(adj: Adjacency, v: string, indices: Numbers, onStack: set<string>, lowlink: Numbers, w: string)
    requires SuccessorsSeen(adj, v, |Succ(adj, v)|, indices, onStack, lowlink) && Arc(adj, v, w)
    ensures w in indices && (w in onStack ==> Num(lowlink, v) <= Num(indices, w))
  {
    var j :| 0 <= j < |Succ(adj, v)| && Succ(adj, v)[j] == w;
  }

  /** Each vertex above `p` reaches a lower one through its low link, and so reaches `stack[p]`. */
  lemma {:induction false} RegionReachesRoot(adj: Adjacency, stack: seq<string>, indices: Numbers, lowlink: Numbers,
                                             p: nat, i: nat)
    requires Chain(adj, stack, indices, lowlink, p) && p <= i < |stack|
    ensures Reaches(adj, stack[i], stack[p])
    decreases i
  {
    if i == p {
      ReachesRefl(adj, stack[p]);
    } else {
      var x := stack[i];
      var k :| 0 <= k < |stack| && Num(indices, stack[k]) == Num(lowlink, x) && Reaches(adj, x, stack[k]);
      assert Num(indices, stack[p]) <= Num(indices, stack[k]) < Num(indices, stack[i]);
      assert p <= k < i;
      RegionReachesRoot(adj, stack, indices, lowlink, p, k);
      ReachesTrans(adj, x, stack[k], stack[p]);
    }
  }

  /**
   * A successor of the region that reaches `v` is in the region: popped, it
   * would have popped `v`; stacked below `v`, it would have lowered the low
   * links above `v` below `v`'s number.
   */
  lemma RegionClosed(adj: Adjacency, stack: seq<string>, onStack: set<string>, indices: Numbers,
                     lowlink: Numbers, v: string, p: nat, u: string, w: string)
    requires StackOrdered(stack, onStack, indices) && DoneClosed(adj, indices, onStack)
    requires p < |stack| && stack[p] == v && u in Members(stack[p..]) && Arc(adj, u, w)
    requires Reaches(adj, w, v) && Reaches(adj, v, u) && w in indices
    requires Num(indices, v) <= Num(lowlink, u) && (w in onStack ==> Num(lowlink, u) <= Num(indices, w))
    ensures w in Members(stack[p..])
  {
    ReachesArc(adj, u, w);
    ReachesTrans(adj, v, u, w);
    assert v in onStack;
    assert Done(indices, onStack, w) ==> Done(indices, onStack, v);
    var q :| 0 <= q < |stack| && stack[q] == w;
    assert p <= q;
    assert stack[p..][q - p] == w;
  }

  ghost predicate Distinct(r: seq<string>) {
    forall i, j :: 0 <= i < j < |r| ==> r[i] != r[j]
  }

  lemma ReversedMembers(r: seq<string>)
    ensures Members(Reversed(r)) == Members(r)
    ensures Distinct(r) ==> Distinct(Reversed(r))
  {
    var q := Reversed(r);
    forall x | x in r ensures x in q {
      var i :| 0 <= i < |r| && r[i] == x;
      assert q[|r| - 1 - i] == x;
    }
    if Distinct(r) {
      forall i, j | 0 <= i < j < |q| ensures q[i] != q[j] {
        assert q[i] == r[|r| - 1 - i] && q[j] == r[|r| - 1 - j];
      }
    }
  }

  /** In `strongconnect` (server/graph-scanner.ts:333-335): a component is kept only when it has more than one vertex. */
  function KeepComponent(sccs: seq<seq<string>>, scc: seq<string>): seq<seq<string>> {
    if |scc| > 1 then sccs + [scc] else sccs
  }

  /** The state after popping the stack down to position `p`, with the popped component kept if large. */
  ghost function Popped(t: Search, p: nat): Search
    requires p <= |t.stack|
  {
    t.(stack := t.stack[..p], onStack := t.onStack - Members(t.stack[p..]),
       sccs := KeepComponent(t.sccs, Reversed(t.stack[p..])))
  }

  /** A stack position from `p` up holds a member of the region. */
  lemma InRegion(stack: seq<string>, p: nat, q: nat)
    ensures p <= q < |stack| ==> stack[q] in Members(stack[p..])
  {
    if p <= q < |stack| {
      assert stack[p..][q - p] == stack[q];
    }
  }

  lemma PopStack(stack: seq<string>, onStack: set<string>, indices: Numbers, p: nat)
    requires StackOrdered(stack, onStack, indices) && p <= |stack|
    ensures StackOrdered(stack[..p], onStack - Members(stack[p..]), indices)
    ensures Members(stack[p..]) <= onStack && Members(stack[p..]) <= indices.Keys && Distinct(stack[p..])
  {
    var low, high := stack[..p], stack[p..];
    forall x | x in onStack - Members(high) ensures x in low {
      var q :| 0 <= q < |stack| && stack[q] == x;
      InRegion(stack, p, q);
      assert low[q] == x;
    }
    PopStackBelow(stack, onStack, indices, p);
    forall i | 0 <= i < |high| ensures high[i] in onStack && high[i] in indices {
      assert high[i] == stack[p + i];
    }
    forall i, j | 0 <= i < j < |high| ensures high[i] != high[j] {
      assert high[i] == stack[p + i] && high[j] == stack[p + j];
    }
  }

  /** Numbers increase up the stack, so nothing below `p` is popped. */
  lemma PopStackBelow(stack: seq<string>, onStack: set<string>, indices: Numbers, p: nat)
    requires StackOrdered(stack, onStack, indices) && p <= |stack|
    ensures forall x :: x in stack[..p] ==> x in onStack && x !in Members(stack[p..])
  {
    var low, high := stack[..p], stack[p..];
    forall x | x in low ensures x in onStack && x !in Members(high) {
      var q :| 0 <= q < p && low[q] == x;
      assert stack[q] == x;
      forall i | 0 <= i < |high| ensures high[i] != x {
        assert high[i] == stack[p + i];
      }
    }
  }

  lemma PopLowLinks(adj: Adjacency, stack: seq<string>, onStack: set<string>, indices: Numbers,
                    lowlink: Numbers, p: nat)
    requires StackOrdered(stack, onStack, indices) && LowLinks(adj, stack, onStack, indices, lowlink)
    requires p <= |stack|
    ensures LowLinks(adj, stack[..p], onStack - Members(stack[p..]), indices, lowlink)
  {
    var low, high := stack[..p], stack[p..];
    forall x | x in onStack - Members(high)
      ensures Num(lowlink, x) <= Num(indices, x)
      ensures exists k :: 0 <= k < |low| && Num(indices, low[k]) == Num(lowlink, x) && Reaches(adj, x, low[k])
    {
      var q :| 0 <= q < |stack| && stack[q] == x;
      InRegion(stack, p, q);
      var k :| 0 <= k < |stack| && Num(indices, stack[k]) == Num(lowlink, x) && Reaches(adj, x, stack[k]);
      assert k <= q;
      assert low[k] == stack[k];
    }
  }

  lemma PopReturned(adj: Adjacency, onStack: set<string>, indices: Numbers, lowlink: Numbers,
                    gray: set<string>, v: string, r: set<string>)
    requires ReturnedOnStack(adj, onStack, indices, lowlink, gray + {v}) && v in r
    ensures ReturnedOnStack(adj, onStack - r, indices, lowlink, gray)
  {
  }

  lemma FinishNumbered(adj: Adjacency, indices: Numbers, onStack: set<string>, lowlink: Numbers,
                    gray: set<string>, v: string)
    requires NumberedClosed(adj, indices, gray + {v})
    requires SuccessorsSeen(adj, v, |Succ(adj, v)|, indices, onStack, lowlink)
    ensures NumberedClosed(adj, indices, gray)
  {
    forall x, w | x in indices && x !in gray && Arc(adj, x, w) ensures w in indices {
      if x == v {
        SeenAll(adj, v, indices, onStack, lowlink, w);
      }
    }
  }

  lemma PopDone(adj: Adjacency, indices: Numbers, onStack: set<string>, r: set<string>, v: string)
    requires DoneClosed(adj, indices, onStack) && Component(adj, r, v) && r <= indices.Keys
    ensures DoneClosed(adj, indices, onStack - r)
  {
    forall x, y | Done(indices, onStack - r, x) && Reaches(adj, x, y) && Reaches(adj, y, x)
      ensures Done(indices, onStack - r, y)
    {
      if x in r {
        ReachesTrans(adj, v, x, y);
        ReachesTrans(adj, y, x, v);
      }
    }
  }

  /** Keeping the component of `v` keeps the kept components what they were said to be. */
  lemma KeepMutual(adj: Adjacency, sccs: seq<seq<string>>, scc: seq<string>, v: string)
    requires Mutual(adj, sccs) && MutualClosed(adj, sccs) && Component(adj, Members(scc), v)
    ensures Mutual(adj, sccs + [scc]) && MutualClosed(adj, sccs + [scc])
  {
    var all := sccs + [scc];
    forall c, x, y | 0 <= c < |all| && x in all[c] && y in all[c] ensures Reaches(adj, x, y) {
      if c == |sccs| {
        assert x in Members(scc) && y in Members(scc);
        ReachesTrans(adj, x, v, y);
      } else {
        assert all[c] == sccs[c];
      }
    }
    forall c, x, y | 0 <= c < |all| && x in all[c] && Reaches(adj, x, y) && Reaches(adj, y, x) ensures y in all[c] {
      if c == |sccs| {
        assert x in Members(scc);
        ReachesTrans(adj, v, x, y);
        ReachesTrans(adj, y, x, v);
        assert y in Members(scc);
      } else {
        assert all[c] == sccs[c];
      }
    }
  }

  lemma KeepDone(adj: Adjacency, indices: Numbers, onStack: set<string>, sccs: seq<seq<string>>, scc: seq<string>,
                 v: string)
    requires RecordedDone(adj, indices, onStack, sccs) && Component(adj, Members(scc), v)
    requires Members(scc) <= indices.Keys && Distinct(scc) && |scc| > 1
    ensures RecordedDone(adj, indices, onStack - Members(scc), sccs + [scc])
  {
    var all := sccs + [scc];
    forall c, x | 0 <= c < |all| && x in all[c] ensures Done(indices, onStack - Members(scc), x) && Nontrivial(adj, x) {
      if c == |sccs| {
        assert x in Members(scc);
        var y := if x == scc[0] then scc[1] else scc[0];
        assert y in Members(scc) && y != x;
        ReachesTrans(adj, x, v, y);
        ReachesTrans(adj, y, v, x);
        assert Nontrivial(adj, x);
      } else {
        assert all[c] == sccs[c] && x in sccs[c];
        assert Done(indices, onStack, x);
      }
    }
  }

  lemma KeepAll(adj: Adjacency, indices: Numbers, onStack: set<string>, sccs: seq<seq<string>>, scc: seq<string>)
    requires RecordedAll(adj, indices, onStack, sccs)
    ensures RecordedAll(adj, indices, onStack - Members(scc), sccs + [scc])
  {
    var all := sccs + [scc];
    forall x | Done(indices, onStack - Members(scc), x) && Nontrivial(adj, x) ensures exists c :: 0 <= c < |all| && x in all[c] {
      if x in Members(scc) {
        assert all[|sccs|] == scc;
      } else {
        var c :| 0 <= c < |sccs| && x in sccs[c];
        assert all[c] == sccs[c];
      }
    }
  }

  lemma KeepDisjoint(adj: Adjacency, indices: Numbers, onStack: set<string>, sccs: seq<seq<string>>, scc: seq<string>)
    requires Disjoint(sccs) && RecordedDone(adj, indices, onStack, sccs) && Members(scc) <= onStack
    ensures Disjoint(sccs + [scc])
  {
    var all := sccs + [scc];
    forall c, x | 0 <= c < |sccs| && x in sccs[c] ensures x !in Members(scc) {
      assert Done(indices, onStack, x);
    }
    forall c, d, x | 0 <= c < |all| && 0 <= d < |all| && x in all[c] && x in all[d] ensures c == d {
      if c < |sccs| {
        assert all[c] == sccs[c];
      } else {
        assert x in Members(scc);
      }
      if d < |sccs| {
        assert all[d] == sccs[d];
      } else {
        assert x in Members(scc);
      }
    }
  }

  /** A component of one vertex has no other vertex mutually reachable with it. */
  lemma SmallTrivial(adj: Adjacency, scc: seq<string>, v: string)
    requires Component(adj, Members(scc), v) && |scc| <= 1
    ensures forall x :: x in Members(scc) ==> !Nontrivial(adj, x)
  {
    forall x, y | x in Members(scc) && Reaches(adj, x, y) && Reaches(adj, y, x) ensures y == x {
      ReachesTrans(adj, v, x, y);
      ReachesTrans(adj, y, x, v);
      assert y in Members(scc);
    }
  }

  lemma DropSmall(adj: Adjacency, indices: Numbers, onStack: set<string>, sccs: seq<seq<string>>, scc: seq<string>,
                  v: string)
    requires Recorded(adj, indices, onStack, sccs) && Component(adj, Members(scc), v) && |scc| <= 1
    ensures Recorded(adj, indices, onStack - Members(scc), sccs)
  {
    SmallTrivial(adj, scc, v);
    var on := onStack - Members(scc);
    forall c, x | 0 <= c < |sccs| && x in sccs[c] ensures Done(indices, on, x) && Nontrivial(adj, x) {
      assert Done(indices, onStack, x);
    }
    forall x | Done(indices, on, x) && Nontrivial(adj, x) ensures exists c :: 0 <= c < |sccs| && x in sccs[c] {
      assert Done(indices, onStack, x);
    }
  }

  /**
   * In `strongconnect` (server/graph-scanner.ts:326-336): when `v`'s low link is its own number after the loop,
   * popping down to `v` and keeping the popped component if large finishes
   * `v`.
   */
  lemma PopStep(adj: Adjacency, gray: set<string>, v: string, t0: Search, t: Search)
    requires Scanning(adj, gray, v, t0, t, |Succ(adj, v)|) && Num(t.lowlink, v) == Num(t.indices, v)
    ensures |t0.stack| < |t.stack| && t.stack[|t0.stack|] == v
    ensures Finished(adj, gray, v, t0, Popped(t, |t0.stack|))
  {
    var p := |t0.stack|;
    RegionFresh(adj, gray, v, t0, t);
    RegionComponent(adj, t.stack, t.onStack, t.indices, t.lowlink, gray, v, p);
    PopInv(adj, gray, v, t, p);
    PopFrame(adj, v, t0, t);
  }

  /** The vertices above `v` were numbered after `v`'s call began, so they are reachable from `v` and not in progress. */
  lemma RegionFresh(adj: Adjacency, gray: set<string>, v: string, t0: Search, t: Search)
    requires Entered(gray, v, t0, t.stack, t.indices) && ReachedFrom(adj, v, t0, t.indices)
    requires forall i :: 0 <= i < |t.stack| ==> t.stack[i] in t.indices
    ensures forall j :: |t0.stack| < j < |t.stack| ==> t.stack[j] !in gray && t.stack[j] != v
    ensures forall j :: |t0.stack| <= j < |t.stack| ==> Reaches(adj, v, t.stack[j])
  {
  }

  lemma PopInv(adj: Adjacency, gray: set<string>, v: string, t: Search, p: nat)
    requires SearchInv(adj, t, gray + {v}) && SuccessorsSeen(adj, v, |Succ(adj, v)|, t.indices, t.onStack, t.lowlink)
    requires p < |t.stack| && t.stack[p] == v && Component(adj, Members(t.stack[p..]), v)
    ensures SearchInv(adj, Popped(t, p), gray)
  {
    var r, scc := Members(t.stack[p..]), Reversed(t.stack[p..]);
    PopStack(t.stack, t.onStack, t.indices, p);
    PopLowLinks(adj, t.stack, t.onStack, t.indices, t.lowlink, p);
    PopReturned(adj, t.onStack, t.indices, t.lowlink, gray, v, r);
    FinishNumbered(adj, t.indices, t.onStack, t.lowlink, gray, v);
    PopDone(adj, t.indices, t.onStack, r, v);
    ReversedMembers(t.stack[p..]);
    PopRecorded(adj, t.indices, t.onStack, t.sccs, scc, v);
  }

  lemma PopRecorded(adj: Adjacency, indices: Numbers, onStack: set<string>, sccs: seq<seq<string>>, scc: seq<string>,
                    v: string)
    requires Recorded(adj, indices, onStack, sccs) && Component(adj, Members(scc), v)
    requires Members(scc) <= indices.Keys && Members(scc) <= onStack && Distinct(scc)
    ensures Recorded(adj, indices, onStack - Members(scc), KeepComponent(sccs, scc))
  {
    if |scc| > 1 {
      KeepMutual(adj, sccs, scc, v);
      KeepDone(adj, indices, onStack, sccs, scc, v);
      KeepAll(adj, indices, onStack, sccs, scc);
      KeepDisjoint(adj, indices, onStack, sccs, scc);
    } else {
      DropSmall(adj, indices, onStack, sccs, scc, v);
    }
  }

  /** After the pop, `v` is off the stack with its low link its number, and the stack is the one `v`'s call began with. */
  lemma PopFrame(adj: Adjacency, v: string, t0: Search, t: Search)
    requires Grows(t0, t.index, t.indices, t.lowlink) && StackAbove(t0, t.stack) && |t0.stack| < |t.stack|
    requires t.stack[|t0.stack|] == v && v in t.indices && t.indices[v] == t0.index && ReachedFrom(adj, v, t0, t.indices)
    requires Num(t.lowlink, v) == Num(t.indices, v)
    ensures FinishFrame(adj, v, t0, Popped(t, |t0.stack|))
  {
    var p := |t0.stack|;
    assert t.stack[..p] == t0.stack;
  }

  /** When `v`'s low link is below its number after the loop, `v` stays on the stack and its call is finished. */
  lemma StayStep(adj: Adjacency, gray: set<string>, v: string, t0: Search, t: Search)
    requires Scanning(adj, gray, v, t0, t, |Succ(adj, v)|) && Num(t.lowlink, v) != Num(t.indices, v)
    ensures Finished(adj, gray, v, t0, t)
  {
    assert v in t.onStack by {
      assert t.stack[|t0.stack|] == v;
    }
    StayReturned(adj, t.onStack, t.indices, t.lowlink, gray, v);
    FinishNumbered(adj, t.indices, t.onStack, t.lowlink, gray, v);
    StayFrame(v, t0, t.stack, t.lowlink);
  }

  lemma StayReturned(adj: Adjacency, onStack: set<string>, indices: Numbers, lowlink: Numbers,
                     gray: set<string>, v: string)
    requires ReturnedOnStack(adj, onStack, indices, lowlink, gray + {v})
    requires SuccessorsSeen(adj, v, |Succ(adj, v)|, indices, onStack, lowlink)
    requires v in onStack && Num(lowlink, v) < Num(indices, v)
    ensures ReturnedOnStack(adj, onStack, indices, lowlink, gray)
  {
    forall w | Arc(adj, v, w) && w in onStack ensures Num(lowlink, v) <= Num(indices, w) {
      SeenAll(adj, v, indices, onStack, lowlink, w);
    }
  }

  lemma StayFrame(v: string, t0: Search, stack: seq<string>, lowlink: Numbers)
    requires |t0.stack| < |stack| && stack[|t0.stack|] == v && LowAbove(v, |t0.stack|, stack, lowlink)
    ensures forall i :: |t0.stack| <= i < |stack| ==> Num(lowlink, v) <= Num(lowlink, stack[i])
  {
  }

  /**
   * In `strongconnect` (server/graph-scanner.ts:327-332): pop until `v` comes off, collecting the popped vertices
   * in pop order. `v` sits at position `p`, with no other copy above it.
   */
  method PopComponent(t: Search, v: string, ghost p: nat) returns (t': Search, scc: seq<string>)
    requires p < |t.stack| && t.stack[p] == v && forall i :: p < i < |t.stack| ==> t.stack[i] != v
    ensures t' == t.(stack := t.stack[..p], onStack := t.onStack - Members(t.stack[p..]))
    ensures scc == Reversed(t.stack[p..])
  {
    var stack, onStack := t.stack, t.onStack;
    scc := [];
    var popped := false;
    while !popped
      invariant p <= |stack| <= |t.stack| && stack == t.stack[..|stack|]
      invariant scc == Reversed(t.stack[|stack|..]) && onStack == t.onStack - Members(t.stack[|stack|..])
      invariant popped <==> |stack| == p
      decreases |stack|
    {
      PopOne(t.stack, |stack|);
      var w := stack[|stack| - 1];
      stack := stack[..|stack| - 1];
      onStack := onStack - {w};
      scc := scc + [w];
      popped := w == v;
    }
    t' := t.(stack := stack, onStack := onStack);
  }

  /** Popping the element below position `j` adds it to the popped suffix. */
  lemma PopOne(s: seq<string>, j: nat)
    requires 0 < j <= |s|
    ensures s[..j][..j - 1] == s[..j - 1]
    ensures Reversed(s[j - 1..]) == Reversed(s[j..]) + [s[j - 1]]
    ensures Members(s[j - 1..]) == Members(s[j..]) + {s[j - 1]}
  {
    assert s[j - 1..] == [s[j - 1]] + s[j..];
  }

  // The search

  /** Every arc ends in `universe`. */
  ghost predicate ArcsWithin(adj: Adjacency, universe: set<string>) {
    forall u, w :: Arc(adj, u, w) ==> w in universe
  }

  /**
   * In `strongconnect` (server/graph-scanner.ts:307-337): `strongconnect(v)` over the state `t`; `gray` holds the
   * vertices whose calls are in progress. The ghost `universe` holds every
   * vertex the search can reach and bounds the recursion.
   */
  method StrongConnect(adj: Adjacency, ghost universe: set<string>, v: string, t: Search, ghost gray: set<string>)
    returns (t': Search)
    requires ArcsWithin(adj, universe) && v in universe
    requires SearchInv(adj, t, gray) && v !in t.indices && gray <= t.indices.Keys
    ensures Finished(adj, gray, v, t, t')
    decreases |universe - t.indices.Keys|, 0
  {
    var s := Begin(t, v);
    ScanStart(adj, gray, v, t);
    var neighbors := Succ(adj, v);
    for k := 0 to |neighbors|
      invariant Scanning(adj, gray, v, t, s, k)
    {
      ScanMeasure(universe, gray, v, t, s, k);
      s := VisitSuccessor(adj, universe, gray, v, t, s, k);
    }
    t' := CloseCall(adj, gray, v, t, s);
  }

  /** In `strongconnect` (server/graph-scanner.ts:315-323): one successor `w` of `v`: recurse on it if unnumbered, else take its number if stacked. */
  method VisitSuccessor(adj: Adjacency, ghost universe: set<string>, ghost gray: set<string>, v: string,
                        ghost t0: Search, s: Search, k: nat) returns (s': Search)
    requires ArcsWithin(adj, universe) && v in universe
    requires Scanning(adj, gray, v, t0, s, k) && k < |Succ(adj, v)|
    ensures Scanning(adj, gray, v, t0, s', k + 1)
    decreases |universe - s.indices.Keys|, 1
  {
    var w := Succ(adj, v)[k];
    if w !in s.indices {
      TreeCall(adj, universe, gray, v, t0, s, k);
      var s1 := StrongConnect(adj, universe, w, s, gray + {v});
      TreeStep(adj, gray, v, t0, s, s1, k);
      s' := LowerTo(s1, v, s1.lowlink[w]);
    } else if w in s.onStack {
      BackStep(adj, gray, v, t0, s, k);
      s' := LowerTo(s, v, s.indices[w]);
    } else {
      SkipStep(adj, gray, v, t0, s, k);
      s' := s;
    }
  }

  /** In `strongconnect` (server/graph-scanner.ts:325-336): pop `v`'s component if `v` is its root. */
  method CloseCall(adj: Adjacency, ghost gray: set<string>, v: string, ghost t0: Search, s: Search) returns (t': Search)
    requires Scanning(adj, gray, v, t0, s, |Succ(adj, v)|)
    ensures Finished(adj, gray, v, t0, t')
  {
    assert v in s.indices && v in s.lowlink;
    if s.lowlink[v] == s.indices[v] {
      PopStep(adj, gray, v, t0, s);
      var popped, scc := PopComponent(s, v, |t0.stack|);
      if |scc| > 1 {
        popped := popped.(sccs := popped.sccs + [scc]);
      }
      t' := popped;
    } else {
      StayStep(adj, gray, v, t0, s);
      t' := s;
    }
  }

  /** In the loop, the measure is below the one the call was entered with. */
  lemma ScanMeasure(universe: set<string>, gray: set<string>, v: string, t0: Search, t: Search, k: nat)
    requires Grows(t0, t.index, t.indices, t.lowlink) && Entered(gray, v, t0, t.stack, t.indices) && v in universe
    ensures |universe - t.indices.Keys| < |universe - t0.indices.Keys|
  {
    KeysGrow(t0.indices, t.indices, gray, v);
    Shrinks(universe, t0.indices.Keys, t.indices.Keys, v);
  }

  /** The recursive call on a fresh successor `w` is allowed, and its measure is smaller. */
  lemma TreeCall(adj: Adjacency, universe: set<string>, gray: set<string>, v: string, t0: Search, t: Search, k: nat)
    requires ArcsWithin(adj, universe) && v in universe
    requires Scanning(adj, gray, v, t0, t, k) && k < |Succ(adj, v)|
    ensures gray + {v} <= t.indices.Keys && Succ(adj, v)[k] in universe
  {
    assert Arc(adj, v, Succ(adj, v)[k]);
    KeysGrow(t0.indices, t.indices, gray, v);
  }

  lemma KeysGrow(a: Numbers, b: Numbers, gray: set<string>, v: string)
    requires (forall x :: x in a ==> x in b && b[x] == a[x]) && gray <= a.Keys && v in b
    ensures gray + {v} <= b.Keys && a.Keys + {v} <= b.Keys
  {
  }

  lemma Shrinks(universe: set<string>, a: set<string>, b: set<string>, v: string)
    requires v in universe && v !in a && a + {v} <= b
    ensures |universe - b| < |universe - a|
  {
    SubsetCard(universe - b, universe - a - {v});
  }

  lemma {:induction false} SubsetCard(a: set<string>, b: set<string>)
    requires a <= b
    ensures |a| <= |b|
    decreases |b|
  {
    if a != {} {
      var x :| x in a;
      SubsetCard(a - {x}, b - {x});
    }
  }

  // The calls from each node, and what they find

  /** Some of the first `i` nodes reaches `x`. */
  ghost predicate ExploredBy(adj: Adjacency, nodes: seq<ScanNode>, i: nat, x: string) {
    exists j :: 0 <= j < i && j < |nodes| && Reaches(adj, nodes[j].id, x)
  }

  /** `x` is reached from a node and shares its strongly connected component with another vertex. */
  ghost predicate InCycle(adj: Adjacency, nodes: seq<ScanNode>, x: string) {
    ExploredBy(adj, nodes, |nodes|, x) && Nontrivial(adj, x)
  }

  /**
   * The components found: their vertices are exactly those in a cycle, each
   * is a whole strongly connected component, and no vertex is in two.
   */
  ghost predicate ComponentsFound(adj: Adjacency, nodes: seq<ScanNode>, sccs: seq<seq<string>>) {
    && (forall x :: (exists c :: 0 <= c < |sccs| && x in sccs[c]) <==> InCycle(adj, nodes, x))
    && (forall c, x, y :: 0 <= c < |sccs| && x in sccs[c] ==> (y in sccs[c] <==> Reaches(adj, x, y) && Reaches(adj, y, x)))
    && Disjoint(sccs)
  }

  /** The invariant of the loop over the nodes, after `i` of them. */
  ghost predicate TopInv(adj: Adjacency, nodes: seq<ScanNode>, i: nat, t: Search) {
    && i <= |nodes| && SearchInv(adj, t, {}) && t.stack == [] && t.onStack == {}
    && NodesNumbered(nodes, i, t.indices) && AllExplored(adj, nodes, i, t.indices)
  }

  ghost predicate NodesNumbered(nodes: seq<ScanNode>, i: nat, indices: Numbers) {
    forall j :: 0 <= j < i && j < |nodes| ==> nodes[j].id in indices
  }

  ghost predicate AllExplored(adj: Adjacency, nodes: seq<ScanNode>, i: nat, indices: Numbers) {
    forall x :: x in indices ==> ExploredBy(adj, nodes, i, x)
  }

  /** In `detectCycles` (server/graph-scanner.ts:300-305): the variables before the first call. */
  const Initial := Search(0, [], map[], map[], {}, [])

  lemma InitialInv(adj: Adjacency, nodes: seq<ScanNode>)
    ensures TopInv(adj, nodes, 0, Initial)
  {
  }

  /** With no call in progress, the stack is empty: its bottom vertex would need a lower stacked number. */
  lemma EmptyAtTop(adj: Adjacency, t: Search)
    requires SearchInv(adj, t, {})
    ensures t.stack == [] && t.onStack == {}
  {
    assert t.stack != [] ==> t.stack[0] in t.onStack;
    BottomMinimal(adj, t.stack, t.onStack, t.indices, t.lowlink);
  }

  lemma BottomMinimal(adj: Adjacency, stack: seq<string>, onStack: set<string>, indices: Numbers, lowlink: Numbers)
    requires StackOrdered(stack, onStack, indices) && LowLinks(adj, stack, onStack, indices, lowlink)
    ensures forall x :: x in onStack ==> |stack| > 0 && Num(indices, stack[0]) <= Num(lowlink, x)
  {
    forall x | x in onStack ensures |stack| > 0 && Num(indices, stack[0]) <= Num(lowlink, x) {
      var k :| 0 <= k < |stack| && Num(indices, stack[k]) == Num(lowlink, x) && Reaches(adj, x, stack[k]);
      assert k == 0 || Num(indices, stack[0]) < Num(indices, stack[k]);
    }
  }

  /** In `detectCycles` (server/graph-scanner.ts:339-341): a node not yet numbered: the call numbers it and keeps the loop invariant. */
  lemma TopCall(adj: Adjacency, nodes: seq<ScanNode>, i: nat, t: Search, t1: Search)
    requires i < |nodes| && NodesNumbered(nodes, i, t.indices) && AllExplored(adj, nodes, i, t.indices)
    requires SearchInv(adj, t1, {}) && FinishFrame(adj, nodes[i].id, t, t1)
    ensures TopInv(adj, nodes, i + 1, t1)
  {
    EmptyAtTop(adj, t1);
    NumberedStep(nodes, i, t.indices, t1.indices);
    ExploredStep(adj, nodes, i, t, t1.indices);
  }

  lemma NumberedStep(nodes: seq<ScanNode>, i: nat, indices: Numbers, indices': Numbers)
    requires NodesNumbered(nodes, i, indices) && i < |nodes| && nodes[i].id in indices'
    requires forall x :: x in indices ==> x in indices' && indices'[x] == indices[x]
    ensures NodesNumbered(nodes, i + 1, indices')
  {
  }

  lemma ExploredStep(adj: Adjacency, nodes: seq<ScanNode>, i: nat, t: Search, indices': Numbers)
    requires AllExplored(adj, nodes, i, t.indices) && i < |nodes| && ReachedFrom(adj, nodes[i].id, t, indices')
    ensures AllExplored(adj, nodes, i + 1, indices')
  {
    forall x | x in indices' ensures ExploredBy(adj, nodes, i + 1, x) {
      if x in t.indices {
        var j :| 0 <= j < i && j < |nodes| && Reaches(adj, nodes[j].id, x);
      } else {
        assert Reaches(adj, nodes[i].id, x);
      }
    }
  }

  lemma TopSkip(adj: Adjacency, nodes: seq<ScanNode>, i: nat, t: Search)
    requires TopInv(adj, nodes, i, t) && i < |nodes| && nodes[i].id in t.indices
    ensures TopInv(adj, nodes, i + 1, t)
  {
    ExploredMore(adj, nodes, i, t.indices);
  }

  lemma ExploredMore(adj: Adjacency, nodes: seq<ScanNode>, i: nat, indices: Numbers)
    requires AllExplored(adj, nodes, i, indices)
    ensures AllExplored(adj, nodes, i + 1, indices)
  {
    forall x | x in indices ensures ExploredBy(adj, nodes, i + 1, x) {
      var j :| 0 <= j < i && j < |nodes| && Reaches(adj, nodes[j].id, x);
    }
  }

  /** After the loop, the numbered vertices are those reachable from a node, and the kept components are the cycles. */
  lemma TopDone(adj: Adjacency, nodes: seq<ScanNode>, t: Search)
    requires TopInv(adj, nodes, |nodes|, t)
    ensures forall x :: x in t.indices <==> ExploredBy(adj, nodes, |nodes|, x)
    ensures ComponentsFound(adj, nodes, t.sccs)
  {
    ExploredNumbered(adj, nodes, t.indices);
    CyclesFound(adj, nodes, t.indices, t.onStack, t.sccs);
  }

  /** What a node reaches is numbered: the numbered set is closed under arcs once no call is in progress. */
  lemma ExploredNumbered(adj: Adjacency, nodes: seq<ScanNode>, indices: Numbers)
    requires NumberedClosed(adj, indices, {}) && NodesNumbered(nodes, |nodes|, indices)
    requires AllExplored(adj, nodes, |nodes|, indices)
    ensures forall x :: x in indices <==> ExploredBy(adj, nodes, |nodes|, x)
  {
    TopClosed(adj, indices);
    forall x | ExploredBy(adj, nodes, |nodes|, x) ensures x in indices {
      ReachedNumbered(adj, nodes, indices, x);
    }
  }

  lemma ReachedNumbered(adj: Adjacency, nodes: seq<ScanNode>, indices: Numbers, x: string)
    requires forall u, w :: u in indices.Keys && Arc(adj, u, w) ==> w in indices.Keys
    requires NodesNumbered(nodes, |nodes|, indices) && ExploredBy(adj, nodes, |nodes|, x)
    ensures x in indices
  {
    var j :| 0 <= j < |nodes| && Reaches(adj, nodes[j].id, x);
    ReachesClosed(adj, indices.Keys, nodes[j].id, x);
  }

  lemma TopClosed(adj: Adjacency, indices: Numbers)
    requires NumberedClosed(adj, indices, {})
    ensures forall u, w :: u in indices.Keys && Arc(adj, u, w) ==> w in indices.Keys
  {
  }

  lemma CyclesFound(adj: Adjacency, nodes: seq<ScanNode>, indices: Numbers, onStack: set<string>, sccs: seq<seq<string>>)
    requires onStack == {} && Recorded(adj, indices, onStack, sccs)
    requires forall x :: x in indices <==> ExploredBy(adj, nodes, |nodes|, x)
    ensures ComponentsFound(adj, nodes, sccs)
  {
    forall x ensures (exists c :: 0 <= c < |sccs| && x in sccs[c]) <==> InCycle(adj, nodes, x) {
      assert Done(indices, onStack, x) <==> x in indices;
    }
  }

  /**
   * In `detectCycles` (server/graph-scanner.ts:300-342): the search from every node not yet numbered. The ghost
   * `universe` holds every vertex of the graph.
   */
  method FindComponents(adj: Adjacency, ghost universe: set<string>, nodes: seq<ScanNode>) returns (t: Search)
    requires ArcsWithin(adj, universe) && IdSet(nodes) <= universe
    ensures TopInv(adj, nodes, |nodes|, t)
    ensures ComponentsFound(adj, nodes, t.sccs)
  {
    t := Initial;
    InitialInv(adj, nodes);
    for i := 0 to |nodes|
      invariant TopInv(adj, nodes, i, t)
    {
      t := VisitNode(adj, universe, nodes, i, t);
    }
    TopDone(adj, nodes, t);
  }

  /** In `detectCycles` (server/graph-scanner.ts:339-341): one node of the loop, searched from when it is not yet numbered. */
  method VisitNode(adj: Adjacency, ghost universe: set<string>, nodes: seq<ScanNode>, i: nat, t: Search) returns (t': Search)
    requires ArcsWithin(adj, universe) && IdSet(nodes) <= universe
    requires TopInv(adj, nodes, i, t) && i < |nodes|
    ensures TopInv(adj, nodes, i + 1, t')
  {
    if nodes[i].id !in t.indices {
      assert nodes[i].id in IdSet(nodes);
      t' := StrongConnect(adj, universe, nodes[i].id, t, {});
      TopCall(adj, nodes, i, t, t');
    } else {
      TopSkip(adj, nodes, i, t);
      t' := t;
    }
  }
}
