/**
 * The client store's island list (`graphIslands` in src/stores/graphStore.ts):
 * one representative node per connected component of the graph, where links
 * count in both directions and only between existing nodes; components come
 * in the order of their first node, and a component's representative is a
 * root node when it has one, its first node otherwise.
 */
module GraphStore {
  import opened GraphTypes
  import opened Reach

  /**
   * The links as (source, target) id pairs: the client's `Link` counterpart of
   * `GraphScanner.Edges`, which works on the scanner's own link record.
   */
  function LinkEnds(links: seq<Link>): (e: seq<(string, string)>)
    ensures |e| == |links|
    ensures forall k :: 0 <= k < |links| ==> e[k] == (links[k].source, links[k].target)
  {
    seq(|links|, k requires 0 <= k < |links| => (links[k].source, links[k].target))
  }

  /** The ids of the client's nodes, the counterpart of `GraphScanner.IdSet` for `Node`. */
  function NodeIds(nodes: seq<Node>): (r: set<string>)
    ensures forall x :: x in r <==> exists i :: 0 <= i < |nodes| && nodes[i].id == x
  {
    set i | 0 <= i < |nodes| :: nodes[i].id
  }

  /** `Object.values(state.nodes)` lists exactly the stored ids. */
  lemma ValuesIds(state: GraphState)
    requires state.Valid()
    ensures NodeIds(state.Values()) == state.nodes.Keys
    ensures forall i :: 0 <= i < |state.order| ==> state.Values()[i].id == state.order[i]
  {
    var vs := state.Values();
    forall x | x in state.nodes ensures x in NodeIds(vs) {
      var i :| 0 <= i < |state.order| && state.order[i] == x;
      assert vs[i].id == x;
    }
  }

  /**
   * In `graphIslands` (src/stores/graphStore.ts:38-47): every node id with the other ends of its links, in both
   * directions, for the links whose two ends are nodes.
   */
  method BuildAdjacency(nodes: seq<Node>, links: seq<Link>) returns (adj: map<string, seq<string>>)
    ensures adj.Keys == NodeIds(nodes)
    ensures forall u, v :: u in adj ==> (v in adj[u] <==> Adjacent(NodeIds(nodes), LinkEnds(links), u, v))
  {
    adj := map[];
    for i := 0 to |nodes|
      invariant forall u :: u in adj <==> exists k :: 0 <= k < i && nodes[k].id == u
      invariant forall u :: u in adj ==> adj[u] == []
    {
      adj := adj[nodes[i].id := []];
    }
    ghost var vs, edges := NodeIds(nodes), LinkEnds(links);
    assert adj.Keys == vs;
    for j := 0 to |links|
      invariant adj.Keys == vs
      invariant forall u, v :: u in adj ==> (v in adj[u] <==> Adjacent(vs, edges[..j], u, v))
    {
      var l := links[j];
      ghost var prev := adj;
      if l.source in adj && l.target in adj {
        adj := adj[l.source := adj[l.source] + [l.target]];
        adj := adj[l.target := adj[l.target] + [l.source]];
      }
      assert edges[..j + 1] == edges[..j] + [edges[j]];
      forall u, v | u in adj ensures v in adj[u] <==> Adjacent(vs, edges[..j + 1], u, v) {
        AdjacentSnoc(vs, edges[..j], edges[j], u, v);
        PushBoth(prev, adj, l.source, l.target, u, v);
      }
    }
    assert edges[..|links|] == edges;
  }

  /** One more edge joins two more vertices when both its ends are in `vs`. */
  lemma AdjacentSnoc(vs: set<string>, edges: seq<(string, string)>, e: (string, string), u: string, v: string)
    ensures Adjacent(vs, edges + [e], u, v) <==>
      Adjacent(vs, edges, u, v) || (e.0 in vs && e.1 in vs && ((u, v) == e || (v, u) == e) && u in vs && v in vs)
  {
    TouchesSnoc(edges, e, u, v);
  }

  /** Pushing `t` onto the list of `s` and `s` onto that of `t`, when both have one. */
  lemma PushBoth(prev: map<string, seq<string>>, adj: map<string, seq<string>>, s: string, t: string, u: string, v: string)
    requires u in adj
    requires adj == if s in prev && t in prev then prev[s := prev[s] + [t]][t := prev[s := prev[s] + [t]][t] + [s]] else prev
    ensures v in adj[u] <==> v in prev[u] || (s in prev && t in prev && ((u, v) == (s, t) || (v, u) == (s, t)))
  {
  }

  // The roots-first sort

  /** The root nodes of `c`, in order. */
  function Roots(c: seq<Node>): seq<Node> {
    if c == [] then [] else (if c[0].ntype == Root then [c[0]] else []) + Roots(c[1..])
  }

  /** The other nodes of `c`, in order. */
  function NonRoots(c: seq<Node>): seq<Node> {
    if c == [] then [] else (if c[0].ntype != Root then [c[0]] else []) + NonRoots(c[1..])
  }

  /**
   * In `graphIslands` (src/stores/graphStore.ts:67): `sort` with the comparator `(b is root) - (a is root)`. The
   * sort is stable, so it puts the roots first and keeps the order within
   * the roots and within the others.
   */
  function RootsFirst(c: seq<Node>): seq<Node> {
    Roots(c) + NonRoots(c)
  }

  /** The sort rearranges `c` and nothing else. */
  lemma RootsFirstPermutes(c: seq<Node>)
    ensures multiset(RootsFirst(c)) == multiset(c)
  {
    RootsSplit(c);
  }

  /** Every node of `c` is a root or not, with its multiplicity. */
  lemma {:induction false} RootsSplit(c: seq<Node>)
    ensures multiset(Roots(c)) + multiset(NonRoots(c)) == multiset(c)
  {
    if c != [] {
      RootsSplit(c[1..]);
      assert c == [c[0]] + c[1..];
      assert multiset(c) == multiset{c[0]} + multiset(c[1..]);
      if c[0].ntype == Root {
        assert multiset(Roots(c)) == multiset{c[0]} + multiset(Roots(c[1..]));
      } else {
        assert multiset(NonRoots(c)) == multiset{c[0]} + multiset(NonRoots(c[1..]));
      }
    }
  }

  /** The roots of `c` are its nodes of type root, and with none of them the others are all of `c`. */
  lemma {:induction false} RootsMembers(c: seq<Node>)
    ensures forall y :: y in Roots(c) <==> y in c && y.ntype == Root
    ensures (forall j :: 0 <= j < |c| ==> c[j].ntype != Root) ==> NonRoots(c) == c
  {
    if c != [] {
      RootsMembers(c[1..]);
      assert forall y :: y in c <==> y == c[0] || y in c[1..];
      assert (forall j :: 0 <= j < |c| ==> c[j].ntype != Root) ==> (forall j :: 0 <= j < |c[1..]| ==> c[1..][j].ntype != Root);
    }
  }

  /** Its head is a root when `c` has one, and the head of `c` when it has none. */
  lemma RootsFirstHead(c: seq<Node>)
    requires |c| > 0
    ensures |RootsFirst(c)| > 0 && RootsFirst(c)[0] in c
    ensures (exists j :: 0 <= j < |c| && c[j].ntype == Root) ==> RootsFirst(c)[0].ntype == Root
    ensures RootsFirst(c)[0].ntype != Root ==> RootsFirst(c)[0] == c[0]
  {
    RootsMembers(c);
    RootsSplit(c);
    assert |RootsFirst(c)| == |c| by {
      assert |multiset(RootsFirst(c))| == |multiset(c)|;
    }
    if Roots(c) != [] {
      assert RootsFirst(c)[0] == Roots(c)[0] && Roots(c)[0] in Roots(c);
    } else {
      assert forall j :: 0 <= j < |c| ==> c[j] !in Roots(c);
    }
  }

  // Components

  /** Everything connected to `s`. */
  ghost function ComponentOf(vs: set<string>, edges: seq<(string, string)>, s: string): set<string> {
    set x | x in vs && Connected(vs, edges, s, x)
  }

  /** The ids of a list of nodes. */
  ghost function Ids(c: seq<Node>): set<string> {
    set j | 0 <= j < |c| :: c[j].id
  }

  /** `e` is the node the state stores under its id. */
  ghost predicate Stored(state: GraphState, e: Node) {
    e.id in state.nodes && state.nodes[e.id] == e
  }

  /** A closed set holding one end of a connection holds the other. */
  lemma ClosedKeeps(vs: set<string>, edges: seq<(string, string)>, c: set<string>, x: string, y: string)
    requires Closed(vs, edges, c)
    ensures x in c && Connected(vs, edges, x, y) ==> y in c
  {
    if x in c && Connected(vs, edges, x, y) {
      ClosedReach(vs, edges, c, x, y);
    }
  }

  /** What the store's search relies on: `adj` is the adjacency of the links among the stored ids. */
  ghost predicate AdjacencyOf(state: GraphState, adj: map<string, seq<string>>, vs: set<string>, edges: seq<(string, string)>) {
    && state.Valid() && vs == state.nodes.Keys && edges == LinkEnds(state.links)
    && adj.Keys == vs && (forall u, v :: u in adj ==> (v in adj[u] <==> Adjacent(vs, edges, u, v)))
  }

  /**
   * The search from `s` so far, started with `visited` as `before`: what it
   * visited is connected to `s`; the dequeued and the queued ids are the
   * ones it visited; the head of `component` is the node of `s`, or `s` is
   * still queued first; a dequeued id has all its neighbours visited.
   */
  ghost predicate Searching(state: GraphState, vs: set<string>, edges: seq<(string, string)>, s: string,
                            before: set<string>, visited: set<string>, queue: seq<string>, component: seq<Node>) {
    && before + {s} <= visited <= vs
    && Reached(vs, edges, s, before, visited)
    && Tracked(before, visited, queue, component)
    && Collected(state, s, queue, component)
    && Expanded(vs, edges, visited, component)
  }

  /** The collected nodes are stored ones, the first of them the node of `s`, which is queued first until then. */
  ghost predicate Collected(state: GraphState, s: string, queue: seq<string>, component: seq<Node>) {
    && (forall j :: 0 <= j < |component| ==> Stored(state, component[j]))
    && (|component| > 0 ==> component[0].id == s)
    && (|component| == 0 ==> |queue| > 0 && queue[0] == s)
  }

  /** Every id the search visited is connected to `s`. */
  ghost predicate Reached(vs: set<string>, edges: seq<(string, string)>, s: string, before: set<string>, visited: set<string>) {
    forall x :: x in visited && x !in before ==> Connected(vs, edges, s, x)
  }

  /** The ids the search visited are the queued ones and those of the collected nodes. */
  ghost predicate Tracked(before: set<string>, visited: set<string>, queue: seq<string>, component: seq<Node>) {
    && (forall q :: q in queue ==> q in visited && q !in before)
    && (forall j :: 0 <= j < |component| ==> component[j].id in visited && component[j].id !in before)
    && (forall x :: x in visited && x !in before ==> x in queue || x in Ids(component))
  }

  /** Every neighbour of a collected node is visited. */
  ghost predicate Expanded(vs: set<string>, edges: seq<(string, string)>, visited: set<string>, component: seq<Node>) {
    forall j, v :: 0 <= j < |component| && Adjacent(vs, edges, component[j].id, v) ==> v in visited
  }

  /** In `graphIslands` (src/stores/graphStore.ts:61-65): the neighbours of `u`: each one not yet visited is visited and queued. */
  method VisitNeighbors(nbrs: seq<string>, visited: set<string>, queue: seq<string>, ghost vs: set<string>)
    returns (visited': set<string>, queue': seq<string>, ghost added: seq<string>)
    requires visited <= vs && forall j :: 0 <= j < |nbrs| ==> nbrs[j] in vs
    ensures visited <= visited' <= vs && queue' == queue + added
    ensures forall x :: x in added <==> x in visited' && x !in visited
    ensures forall x :: x in visited' && x !in visited ==> x in nbrs
    ensures forall j :: 0 <= j < |nbrs| ==> nbrs[j] in visited'
    ensures |vs - visited'| + |added| == |vs - visited|
  {
    visited', queue', added := visited, queue, [];
    for k := 0 to |nbrs|
      invariant visited <= visited' <= vs && queue' == queue + added
      invariant forall x :: x in added <==> x in visited' && x !in visited
      invariant forall x :: x in visited' && x !in visited ==> x in nbrs
      invariant forall j :: 0 <= j < k ==> nbrs[j] in visited'
      invariant |vs - visited'| + |added| == |vs - visited|
    {
      var next := nbrs[k];
      if next !in visited' {
        assert vs - visited' == (vs - (visited' + {next})) + {next};
        visited' := visited' + {next};
        queue' := queue' + [next];
        added := added + [next];
      }
    }
  }

  /** In `graphIslands` (src/stores/graphStore.ts:58-65): shift `u` off the queue, collect its node, visit its neighbours. */
  method ExpandHead(state: GraphState, adj: map<string, seq<string>>, ghost vs: set<string>, ghost edges: seq<(string, string)>,
                    ghost s: string, ghost before: set<string>, visited: set<string>, queue: seq<string>, component: seq<Node>)
    returns (visited': set<string>, queue': seq<string>, component': seq<Node>)
    requires AdjacencyOf(state, adj, vs, edges) && |queue| > 0
    requires Searching(state, vs, edges, s, before, visited, queue, component)
    ensures Searching(state, vs, edges, s, before, visited', queue', component')
    ensures |vs - visited'| + |queue'| < |vs - visited| + |queue|
  {
    var u := queue[0];
    assert u in queue && u in vs;
    component' := component;
    if u in state.nodes {
      component' := component + [state.nodes[u]];
    }
    var nbrs := if u in adj then adj[u] else [];
    NeighborsInside(state, adj, vs, edges, u);
    ghost var added;
    visited', queue', added := VisitNeighbors(nbrs, visited, queue[1..], vs);
    ReachedStep(state, adj, vs, edges, s, before, visited, u, visited');
    TrackedStep(before, visited, queue, component, visited', added, component');
    ExpandedStep(state, adj, vs, edges, visited, component, u, visited', component');
    CollectedStep(state, s, queue, component, queue[1..] + added, component');
  }

  /** Collecting the node of the head of the queue keeps the collected nodes stored, `s` first. */
  lemma CollectedStep(state: GraphState, s: string, queue: seq<string>, component: seq<Node>,
                      queue': seq<string>, component': seq<Node>)
    requires Collected(state, s, queue, component) && |queue| > 0 && queue[0] in state.nodes
    requires component' == component + [state.nodes[queue[0]]] && state.Valid()
    ensures Collected(state, s, queue', component')
  {
  }

  lemma NeighborsInside(state: GraphState, adj: map<string, seq<string>>, vs: set<string>, edges: seq<(string, string)>, u: string)
    requires AdjacencyOf(state, adj, vs, edges) && u in vs
    ensures forall j :: 0 <= j < |adj[u]| ==> adj[u][j] in vs
  {
    forall j | 0 <= j < |adj[u]| ensures adj[u][j] in vs {
      assert Adjacent(vs, edges, u, adj[u][j]);
    }
  }

  /** The ids visited from `u` are connected to `s`, through `u`. */
  lemma ReachedStep(state: GraphState, adj: map<string, seq<string>>, vs: set<string>, edges: seq<(string, string)>,
                    s: string, before: set<string>, visited: set<string>, u: string, visited': set<string>)
    requires AdjacencyOf(state, adj, vs, edges) && u in visited && u !in before && u in vs
    requires Reached(vs, edges, s, before, visited) && visited <= visited'
    requires forall x :: x in visited' && x !in visited ==> x in adj[u]
    ensures Reached(vs, edges, s, before, visited')
  {
    forall x | x in visited' && x !in before ensures Connected(vs, edges, s, x) {
      if x !in visited {
        assert Adjacent(vs, edges, u, x);
        ConnectedStep(vs, edges, s, u, x);
      }
    }
  }

  /** Dequeuing `u` into the collected nodes and queueing what it visited keeps the visited ids tracked. */
  lemma TrackedStep(before: set<string>, visited: set<string>, queue: seq<string>, component: seq<Node>,
                    visited': set<string>, added: seq<string>, component': seq<Node>)
    requires Tracked(before, visited, queue, component) && |queue| > 0 && before <= visited
    requires component' == component || (|component'| == |component| + 1 && component'[..|component|] == component && component'[|component|].id == queue[0])
    requires visited <= visited' && forall x :: x in added <==> x in visited' && x !in visited
    requires queue[0] in Ids(component')
    ensures Tracked(before, visited', queue[1..] + added, component')
  {
    assert forall j :: 0 <= j < |component| ==> component'[j] == component[j] by {
      if component' != component {
        forall j | 0 <= j < |component| ensures component'[j] == component[j] {
          assert component'[..|component|][j] == component'[j];
        }
      }
    }
    forall x | x in visited' && x !in before ensures x in queue[1..] + added || x in Ids(component') {
      if x in visited && x != queue[0] && x !in Ids(component) {
        assert x in queue;
        var i :| 0 <= i < |queue| && queue[i] == x;
        assert queue[1..][i - 1] == x;
      }
      if x in Ids(component) {
        var j :| 0 <= j < |component| && component[j].id == x;
        assert component'[j].id == x;
      }
    }
  }

  /** `u` dequeued with all its neighbours visited: every collected node is expanded. */
  lemma ExpandedStep(state: GraphState, adj: map<string, seq<string>>, vs: set<string>, edges: seq<(string, string)>,
                     visited: set<string>, component: seq<Node>, u: string, visited': set<string>, component': seq<Node>)
    requires AdjacencyOf(state, adj, vs, edges) && u in vs
    requires Expanded(vs, edges, visited, component) && visited <= visited'
    requires forall j :: 0 <= j < |adj[u]| ==> adj[u][j] in visited'
    requires component' == component || (|component'| == |component| + 1 && component'[..|component|] == component && component'[|component|].id == u)
    ensures Expanded(vs, edges, visited', component')
  {
    forall j, v | 0 <= j < |component'| && Adjacent(vs, edges, component'[j].id, v) ensures v in visited' {
      if j < |component| {
        assert component'[j] == component'[..|component|][j];
      }
    }
  }

  /** In `graphIslands` (src/stores/graphStore.ts:54-66): the search from `s` visits, and collects the nodes of, exactly the component of `s`. */
  method CollectComponent(state: GraphState, adj: map<string, seq<string>>, s: string, visited: set<string>,
                          ghost vs: set<string>, ghost edges: seq<(string, string)>)
    returns (component: seq<Node>, visited': set<string>)
    requires AdjacencyOf(state, adj, vs, edges)
    requires visited <= vs && Closed(vs, edges, visited) && s in vs && s !in visited
    ensures visited' == visited + ComponentOf(vs, edges, s)
    ensures |component| > 0 && component[0] == state.nodes[s]
    ensures forall j :: 0 <= j < |component| ==> Stored(state, component[j])
    ensures Ids(component) == ComponentOf(vs, edges, s)
  {
    component := [];
    visited' := visited + {s};
    var queue := [s];
    ConnectedRefl(vs, edges, s);
    while |queue| > 0
      invariant Searching(state, vs, edges, s, visited, visited', queue, component)
      decreases |vs - visited'| + |queue|
    {
      visited', queue, component := ExpandHead(state, adj, vs, edges, s, visited, visited', queue, component);
    }
    SearchDone(state, vs, edges, s, visited, visited', component);
  }

  /** With the queue empty, the visited ids beyond `before` are the component of `s`. */
  lemma SearchDone(state: GraphState, vs: set<string>, edges: seq<(string, string)>, s: string,
                   before: set<string>, visited: set<string>, component: seq<Node>)
    requires Closed(vs, edges, before) && s !in before
    requires Searching(state, vs, edges, s, before, visited, [], component)
    ensures visited == before + ComponentOf(vs, edges, s)
    ensures Ids(component) == ComponentOf(vs, edges, s)
  {
    forall u, v | u in visited && Adjacent(vs, edges, u, v) ensures v in visited {
      if u !in before {
        assert u in Ids(component);
      }
    }
    assert Closed(vs, edges, visited);
    forall x | x in ComponentOf(vs, edges, s) ensures x in visited && x !in before {
      ClosedReach(vs, edges, visited, s, x);
      ConnectedSym(vs, edges, s, x);
      ClosedKeeps(vs, edges, before, x, s);
    }
  }

  // The islands

  /** No node before position `i` is connected to it: `i` is the first node of its component. */
  ghost predicate IsFirst(order: seq<string>, vs: set<string>, edges: seq<(string, string)>, i: nat)
    requires i < |order|
  {
    forall j :: 0 <= j < i ==> !Connected(vs, edges, order[j], order[i])
  }

  /** The positions before `n` that start a component, in increasing order. */
  ghost function Starts(order: seq<string>, vs: set<string>, edges: seq<(string, string)>, n: nat): seq<nat>
    requires n <= |order|
  {
    if n == 0 then [] else Starts(order, vs, edges, n - 1) + (if IsFirst(order, vs, edges, n - 1) then [n - 1] else [])
  }

  /** The starting positions before `n` are exactly the first nodes of their components, in increasing order. */
  lemma {:induction false} StartsExactly(order: seq<string>, vs: set<string>, edges: seq<(string, string)>, n: nat)
    requires n <= |order|
    ensures forall a :: 0 <= a < |Starts(order, vs, edges, n)| ==>
      Starts(order, vs, edges, n)[a] < n && IsFirst(order, vs, edges, Starts(order, vs, edges, n)[a])
    ensures forall a, b :: 0 <= a < b < |Starts(order, vs, edges, n)| ==> Starts(order, vs, edges, n)[a] < Starts(order, vs, edges, n)[b]
    ensures forall i :: 0 <= i < n && IsFirst(order, vs, edges, i) ==> i in Starts(order, vs, edges, n)
  {
    if n > 0 {
      StartsExactly(order, vs, edges, n - 1);
    }
  }

  /** Some root node is connected to `s`. */
  ghost predicate HasRoot(state: GraphState, vs: set<string>, edges: seq<(string, string)>, s: string) {
    exists x :: x in ComponentOf(vs, edges, s) && x in state.nodes && state.nodes[x].ntype == Root
  }

  /**
   * `e` stands for the component starting at position `p`: it is a stored
   * node of that component, a root when the component has one, and the
   * starting node otherwise.
   */
  ghost predicate Entry(state: GraphState, vs: set<string>, edges: seq<(string, string)>, p: nat, e: Node) {
    && p < |state.order| && Stored(state, e)
    && Connected(vs, edges, state.order[p], e.id)
    && (HasRoot(state, vs, edges, state.order[p]) ==> e.ntype == Root)
    && (e.ntype != Root ==> e.id == state.order[p])
  }

  /** The sorted head of a collected component is the entry of that component. */
  lemma HeadEntry(state: GraphState, vs: set<string>, edges: seq<(string, string)>, p: nat, component: seq<Node>)
    requires state.Valid() && vs == state.nodes.Keys && p < |state.order|
    requires |component| > 0 && component[0] == state.nodes[state.order[p]]
    requires forall j :: 0 <= j < |component| ==> Stored(state, component[j])
    requires Ids(component) == ComponentOf(vs, edges, state.order[p])
    ensures |RootsFirst(component)| > 0 && Entry(state, vs, edges, p, RootsFirst(component)[0])
  {
    var s := state.order[p];
    RootsFirstHead(component);
    var e := RootsFirst(component)[0];
    var j :| 0 <= j < |component| && component[j] == e;
    assert e.id in Ids(component);
    if HasRoot(state, vs, edges, s) {
      var x :| x in ComponentOf(vs, edges, s) && x in state.nodes && state.nodes[x].ntype == Root;
      var i :| 0 <= i < |component| && component[i].id == x;
      assert component[i].ntype == Root;
    }
  }

  /**
   * `graphIslands` before node `i`: the visited ids are the components of
   * the nodes before `i`, and the islands are the entries of the components
   * started so far.
   */
  ghost predicate Scan(state: GraphState, vs: set<string>, edges: seq<(string, string)>, i: nat,
                       visited: set<string>, owner: map<string, nat>, islands: seq<Node>) {
    i <= |state.order| && ScanVisited(state.order, vs, edges, i, visited, owner) && IslandsUpTo(state, vs, edges, i, islands)
  }

  /**
   * The visited ids are closed under links and hold the nodes before `i`;
   * each remembers the position of a node before `i` it is connected to.
   */
  ghost predicate ScanVisited(order: seq<string>, vs: set<string>, edges: seq<(string, string)>, i: nat,
                              visited: set<string>, owner: map<string, nat>) {
    && i <= |order| && visited <= vs && Closed(vs, edges, visited)
    && (forall k :: 0 <= k < i ==> order[k] in visited)
    && (forall x :: x in visited ==> x in owner && owner[x] < i && Connected(vs, edges, order[owner[x]], x))
  }

  /** The islands are the entries of the components starting before position `i`. */
  ghost predicate IslandsUpTo(state: GraphState, vs: set<string>, edges: seq<(string, string)>, i: nat, islands: seq<Node>)
    requires i <= |state.order|
  {
    && |islands| == |Starts(state.order, vs, edges, i)|
    && forall k :: 0 <= k < |islands| ==> Entry(state, vs, edges, Starts(state.order, vs, edges, i)[k], islands[k])
  }

  /** In `graphIslands` (src/stores/graphStore.ts:52-70): the body of `nodes.forEach`: an unvisited node starts an island. */
  method VisitStart(state: GraphState, adj: map<string, seq<string>>, ghost vs: set<string>, ghost edges: seq<(string, string)>,
                    i: nat, node: Node, visited: set<string>, ghost owner: map<string, nat>, islands: seq<Node>)
    returns (visited': set<string>, ghost owner': map<string, nat>, islands': seq<Node>)
    requires AdjacencyOf(state, adj, vs, edges) && i < |state.order| && node == state.nodes[state.order[i]]
    requires Scan(state, vs, edges, i, visited, owner, islands)
    ensures Scan(state, vs, edges, i + 1, visited', owner', islands')
  {
    assert node.id == state.order[i] && node.id in vs;
    if node.id !in visited {
      var component;
      component, visited' := CollectComponent(state, adj, node.id, visited, vs, edges);
      var sorted := RootsFirst(component);
      HeadEntry(state, vs, edges, i, component);
      islands' := islands + [sorted[0]];
      owner' := Claim(owner, ComponentOf(vs, edges, node.id), i);
      OpenStep(state.order, vs, edges, i, visited, owner, visited', owner');
      IslandsGrow(state, vs, edges, i, islands, sorted[0]);
    } else {
      visited', owner', islands' := visited, owner, islands;
      SeenStep(state.order, vs, edges, i, visited, owner);
      IslandsSame(state, vs, edges, i, islands);
    }
  }

  /** A visited node is connected to an earlier one, so it starts no island. */
  lemma SeenStep(order: seq<string>, vs: set<string>, edges: seq<(string, string)>, i: nat,
                 visited: set<string>, owner: map<string, nat>)
    requires i < |order| && order[i] in visited
    requires ScanVisited(order, vs, edges, i, visited, owner)
    ensures ScanVisited(order, vs, edges, i + 1, visited, owner)
    ensures Starts(order, vs, edges, i + 1) == Starts(order, vs, edges, i)
  {
    var x := order[i];
    assert Connected(vs, edges, order[owner[x]], x);
    assert !IsFirst(order, vs, edges, i);
  }

  lemma IslandsSame(state: GraphState, vs: set<string>, edges: seq<(string, string)>, i: nat, islands: seq<Node>)
    requires i < |state.order| && IslandsUpTo(state, vs, edges, i, islands)
    requires Starts(state.order, vs, edges, i + 1) == Starts(state.order, vs, edges, i)
    ensures IslandsUpTo(state, vs, edges, i + 1, islands)
  {
  }

  /** `owner` with every id of `c` given position `i`. */
  ghost function Claim(owner: map<string, nat>, c: set<string>, i: nat): (r: map<string, nat>)
    ensures forall x :: x in r <==> x in owner || x in c
    ensures forall x :: x in r ==> r[x] == if x in c then i else owner[x]
  {
    map x | x in owner.Keys + c :: if x in c then i else owner[x]
  }

  /** An unvisited node starts the next island; its component joins the visited ids. */
  lemma OpenStep(order: seq<string>, vs: set<string>, edges: seq<(string, string)>, i: nat,
                 visited: set<string>, owner: map<string, nat>, visited': set<string>, owner': map<string, nat>)
    requires i < |order| && order[i] !in visited && order[i] in vs
    requires ScanVisited(order, vs, edges, i, visited, owner)
    requires visited' == visited + ComponentOf(vs, edges, order[i])
    requires owner' == Claim(owner, ComponentOf(vs, edges, order[i]), i)
    ensures ScanVisited(order, vs, edges, i + 1, visited', owner')
    ensures Starts(order, vs, edges, i + 1) == Starts(order, vs, edges, i) + [i]
  {
    var s := order[i];
    forall j | 0 <= j < i ensures !Connected(vs, edges, order[j], s) {
      ClosedKeeps(vs, edges, visited, order[j], s);
    }
    assert IsFirst(order, vs, edges, i);
    ConnectedRefl(vs, edges, s);
    ComponentClosed(vs, edges, s);
    forall x | x in visited' ensures x in owner' && owner'[x] < i + 1 && Connected(vs, edges, order[owner'[x]], x) {
      if x in ComponentOf(vs, edges, s) {
        assert owner'[x] == i;
      }
    }
  }

  lemma IslandsGrow(state: GraphState, vs: set<string>, edges: seq<(string, string)>, i: nat, islands: seq<Node>, e: Node)
    requires i < |state.order| && IslandsUpTo(state, vs, edges, i, islands)
    requires Starts(state.order, vs, edges, i + 1) == Starts(state.order, vs, edges, i) + [i]
    requires Entry(state, vs, edges, i, e)
    ensures IslandsUpTo(state, vs, edges, i + 1, islands + [e])
  {
  }

  /** A component is closed under links. */
  lemma ComponentClosed(vs: set<string>, edges: seq<(string, string)>, s: string)
    ensures Closed(vs, edges, ComponentOf(vs, edges, s))
  {
    forall u, v | u in ComponentOf(vs, edges, s) && Adjacent(vs, edges, u, v) ensures v in ComponentOf(vs, edges, s) {
      ConnectedStep(vs, edges, s, u, v);
    }
  }

  /**
   * In `graphIslands` (src/stores/graphStore.ts:33-72): no nodes give no islands; otherwise one
   * entry per component, in the order of the components' first nodes, each
   * a stored node of its component, a root when the component has one and
   * its first node otherwise. Different entries are never connected, and
   * every node is connected to one of them.
   */
  method GraphIslands(state: GraphState) returns (islands: seq<Node>)
    requires state.Valid()
    ensures state.order == [] ==> islands == []
    ensures IslandsUpTo(state, state.nodes.Keys, LinkEnds(state.links), |state.order|, islands)
    ensures forall k, l :: 0 <= k < l < |islands| ==>
      !Connected(state.nodes.Keys, LinkEnds(state.links), islands[k].id, islands[l].id)
    ensures forall x :: x in state.nodes ==>
      exists k :: 0 <= k < |islands| && Connected(state.nodes.Keys, LinkEnds(state.links), islands[k].id, x)
  {
    var nodes := state.Values();
    if |nodes| == 0 {
      return [];
    }
    var adj := BuildAdjacency(nodes, state.links);
    ghost var vs, edges := state.nodes.Keys, LinkEnds(state.links);
    ValuesIds(state);
    var visited: set<string> := {};
    ghost var owner: map<string, nat> := map[];
    islands := [];
    for i := 0 to |nodes|
      invariant Scan(state, vs, edges, i, visited, owner, islands)
    {
      visited, owner, islands := VisitStart(state, adj, vs, edges, i, nodes[i], visited, owner, islands);
    }
    IslandsSeparate(state, vs, edges, islands);
    IslandsCover(state, vs, edges, islands);
  }

  /** The entries of different components are not connected. */
  lemma IslandsSeparate(state: GraphState, vs: set<string>, edges: seq<(string, string)>, islands: seq<Node>)
    requires IslandsUpTo(state, vs, edges, |state.order|, islands)
    ensures forall k, l :: 0 <= k < l < |islands| ==> !Connected(vs, edges, islands[k].id, islands[l].id)
  {
    var starts := Starts(state.order, vs, edges, |state.order|);
    StartsExactly(state.order, vs, edges, |state.order|);
    forall k, l | 0 <= k < l < |islands| ensures !Connected(vs, edges, islands[k].id, islands[l].id) {
      assert Entry(state, vs, edges, starts[k], islands[k]) && Entry(state, vs, edges, starts[l], islands[l]);
      ConnectedVia(vs, edges, state.order[starts[k]], islands[k].id, state.order[starts[l]], islands[l].id);
      assert IsFirst(state.order, vs, edges, starts[l]);
    }
  }

  /** Two connections and a bridge between their far ends connect their near ends. */
  lemma ConnectedVia(vs: set<string>, edges: seq<(string, string)>, a: string, b: string, c: string, d: string)
    requires Connected(vs, edges, a, b) && Connected(vs, edges, c, d)
    ensures Connected(vs, edges, b, d) ==> Connected(vs, edges, a, c)
  {
    if Connected(vs, edges, b, d) {
      ConnectedTrans(vs, edges, a, b, d);
      ConnectedSym(vs, edges, c, d);
      ConnectedTrans(vs, edges, a, d, c);
    }
  }

  /** Every node is connected to the entry of some component. */
  lemma IslandsCover(state: GraphState, vs: set<string>, edges: seq<(string, string)>, islands: seq<Node>)
    requires state.Valid() && vs == state.nodes.Keys
    requires IslandsUpTo(state, vs, edges, |state.order|, islands)
    ensures forall x :: x in state.nodes ==> exists k :: 0 <= k < |islands| && Connected(vs, edges, islands[k].id, x)
  {
    var starts := Starts(state.order, vs, edges, |state.order|);
    StartsExactly(state.order, vs, edges, |state.order|);
    forall x | x in state.nodes ensures exists k :: 0 <= k < |islands| && Connected(vs, edges, islands[k].id, x) {
      var i :| 0 <= i < |state.order| && state.order[i] == x;
      var p := StartOf(state.order, vs, edges, i);
      var k :| 0 <= k < |starts| && starts[k] == p;
      assert Entry(state, vs, edges, p, islands[k]);
      ConnectedSym(vs, edges, state.order[p], islands[k].id);
      ConnectedTrans(vs, edges, islands[k].id, state.order[p], x);
    }
  }

  /** The first node of the component of position `i`: a starting position connected to it. */
  lemma {:induction false} StartOf(order: seq<string>, vs: set<string>, edges: seq<(string, string)>, i: nat) returns (p: nat)
    requires i < |order| && forall k :: 0 <= k < |order| ==> order[k] in vs
    ensures p <= i && IsFirst(order, vs, edges, p) && Connected(vs, edges, order[p], order[i])
    decreases i
  {
    if IsFirst(order, vs, edges, i) {
      ConnectedRefl(vs, edges, order[i]);
      p := i;
    } else {
      var j :| 0 <= j < i && Connected(vs, edges, order[j], order[i]);
      p := StartOf(order, vs, edges, j);
      ConnectedTrans(vs, edges, order[p], order[j], order[i]);
    }
  }
}
