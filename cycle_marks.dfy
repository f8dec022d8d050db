/**
 * The last part of `detectCycles` (server/graph-scanner.ts): the components
 * Tarjan's search keeps are indexed by vertex, and the nodes and the links
 * (of any type) whose ends share a component are marked from that index.
 */
module CycleMarks {
  import opened GraphScanner
  import opened GraphCycles

  /**
   * After the components before `c`: `cycleIds` and `sccIndex` hold their
   * vertices, and each vertex maps to the last component before `c` holding it.
   */
  ghost predicate Indexed(sccs: seq<seq<string>>, c: nat, cycleIds: set<string>, sccIndex: map<string, nat>)
    requires c <= |sccs|
  {
    && cycleIds == sccIndex.Keys
    && (forall x :: x in sccIndex <==> exists d :: 0 <= d < c && x in sccs[d])
    && (forall x :: x in sccIndex ==> LastHolder(sccs, c, sccIndex[x], x))
  }

  /** Component `d` holds `x` and none after it, before `c`, does. */
  ghost predicate LastHolder(sccs: seq<seq<string>>, c: nat, d: nat, x: string)
    requires c <= |sccs|
  {
    d < c && x in sccs[d] && forall e :: d < e < c ==> x !in sccs[e]
  }

  /**
   * In `detectCycles` (server/graph-scanner.ts:344-352): `cycleNodeIds` is every vertex of a kept component, and
   * `idToSccIndex` maps each to the position of the last component holding it.
   */
  method IndexComponents(sccs: seq<seq<string>>) returns (cycleIds: set<string>, sccIndex: map<string, nat>)
    ensures cycleIds == sccIndex.Keys
    ensures forall x :: x in cycleIds <==> exists c :: 0 <= c < |sccs| && x in sccs[c]
    ensures forall x :: x in sccIndex ==> LastHolder(sccs, |sccs|, sccIndex[x], x)
  {
    cycleIds, sccIndex := {}, map[];
    for c := 0 to |sccs|
      invariant Indexed(sccs, c, cycleIds, sccIndex)
    {
      cycleIds, sccIndex := IndexComponent(sccs, c, cycleIds, sccIndex);
    }
  }

  /** In `detectCycles` (server/graph-scanner.ts:349-352): the inner loop over the vertices of component `c`. */
  method IndexComponent(sccs: seq<seq<string>>, c: nat, cycleIds: set<string>, sccIndex: map<string, nat>)
    returns (cycleIds': set<string>, sccIndex': map<string, nat>)
    requires c < |sccs| && Indexed(sccs, c, cycleIds, sccIndex)
    ensures Indexed(sccs, c + 1, cycleIds', sccIndex')
  {
    var scc := sccs[c];
    cycleIds', sccIndex' := cycleIds, sccIndex;
    for k := 0 to |scc|
      invariant cycleIds' == sccIndex'.Keys
      invariant forall x :: x in sccIndex' <==> x in sccIndex || x in scc[..k]
      invariant forall x :: x in scc[..k] ==> x in sccIndex' && sccIndex'[x] == c
      invariant forall x :: x in sccIndex' && x !in scc[..k] ==> x in sccIndex && sccIndex'[x] == sccIndex[x]
    {
      assert forall x :: x in scc[..k + 1] <==> x in scc[..k] || x == scc[k] by {
        assert scc[..k + 1] == scc[..k] + [scc[k]];
      }
      cycleIds' := cycleIds' + {scc[k]};
      sccIndex' := sccIndex'[scc[k] := c];
    }
    assert scc[..|scc|] == scc;
    IndexedNext(sccs, c, cycleIds, sccIndex, cycleIds', sccIndex');
  }

  /** Component `c` added on top of the index of the components before it. */
  lemma IndexedNext(sccs: seq<seq<string>>, c: nat, cycleIds: set<string>, sccIndex: map<string, nat>,
                    cycleIds': set<string>, sccIndex': map<string, nat>)
    requires c < |sccs| && Indexed(sccs, c, cycleIds, sccIndex)
    requires cycleIds' == sccIndex'.Keys
    requires forall x :: x in sccIndex' <==> x in sccIndex || x in sccs[c]
    requires forall x :: x in sccs[c] ==> x in sccIndex' && sccIndex'[x] == c
    requires forall x :: x in sccIndex' && x !in sccs[c] ==> x in sccIndex && sccIndex'[x] == sccIndex[x]
    ensures Indexed(sccs, c + 1, cycleIds', sccIndex')
  {
    forall x | x in sccIndex' ensures LastHolder(sccs, c + 1, sccIndex'[x], x) {
      if x !in sccs[c] {
        assert LastHolder(sccs, c, sccIndex[x], x);
      }
    }
    forall x ensures x in sccIndex' <==> exists d :: 0 <= d < c + 1 && x in sccs[d] {
      if x in sccIndex' && x !in sccs[c] {
        var d :| 0 <= d < c && x in sccs[d];
      }
    }
  }

  /** In `detectCycles` (server/graph-scanner.ts:354-356): every node whose id is in `cycleIds` is marked `cycle`, the others are left as they were. */
  method MarkCycleNodes(nodes: seq<ScanNode>, cycleIds: set<string>) returns (marked: seq<ScanNode>)
    ensures |marked| == |nodes|
    ensures forall j :: 0 <= j < |nodes| ==> marked[j] == nodes[j].(cycle := nodes[j].cycle || nodes[j].id in cycleIds)
  {
    marked := nodes;
    for j := 0 to |nodes|
      invariant |marked| == |nodes|
      invariant forall i :: 0 <= i < j ==> marked[i] == nodes[i].(cycle := nodes[i].cycle || nodes[i].id in cycleIds)
      invariant forall i :: j <= i < |nodes| ==> marked[i] == nodes[i]
    {
      if marked[j].id in cycleIds {
        marked := marked[j := marked[j].(cycle := true)];
      }
    }
  }

  /** Both ends of a link have an index, and it is the same one. */
  predicate SameIndex(sccIndex: map<string, nat>, u: string, w: string) {
    u in sccIndex && w in sccIndex && sccIndex[u] == sccIndex[w]
  }

  /** In `detectCycles` (server/graph-scanner.ts:358-366): every link whose two ends have the same component index is marked `cycle`. */
  method MarkCycleLinks(links: seq<ScanLink>, sccIndex: map<string, nat>) returns (linked: seq<ScanLink>)
    ensures |linked| == |links|
    ensures forall k :: 0 <= k < |links| ==>
      linked[k] == links[k].(cycle := links[k].cycle || SameIndex(sccIndex, links[k].source, links[k].target))
  {
    linked := links;
    for k := 0 to |links|
      invariant |linked| == |links|
      invariant forall i :: 0 <= i < k ==>
        linked[i] == links[i].(cycle := links[i].cycle || SameIndex(sccIndex, links[i].source, links[i].target))
      invariant forall i :: k <= i < |links| ==> linked[i] == links[i]
    {
      var l := linked[k];
      if l.source in sccIndex && l.target in sccIndex && sccIndex[l.source] == sccIndex[l.target] {
        linked := linked[k := l.(cycle := true)];
      }
    }
  }

  /** A node id is a kept vertex exactly when its strongly connected component has another vertex. */
  lemma NodeMarks(adj: Adjacency, nodes: seq<ScanNode>, sccs: seq<seq<string>>, cycleIds: set<string>, j: nat)
    requires ComponentsFound(adj, nodes, sccs) && j < |nodes|
    requires forall x :: x in cycleIds <==> exists c :: 0 <= c < |sccs| && x in sccs[c]
    ensures nodes[j].id in cycleIds <==> Nontrivial(adj, nodes[j].id)
  {
    ReachesRefl(adj, nodes[j].id);
    assert ExploredBy(adj, nodes, |nodes|, nodes[j].id);
    assert InCycle(adj, nodes, nodes[j].id) <==> Nontrivial(adj, nodes[j].id);
  }

  /** Two ends share an index exactly when they are in one strongly connected component of more than one vertex. */
  lemma LinkMarks(adj: Adjacency, nodes: seq<ScanNode>, sccs: seq<seq<string>>, sccIndex: map<string, nat>, u: string, w: string)
    requires ComponentsFound(adj, nodes, sccs)
    requires forall x :: x in sccIndex <==> exists c :: 0 <= c < |sccs| && x in sccs[c]
    requires forall x :: x in sccIndex ==> LastHolder(sccs, |sccs|, sccIndex[x], x)
    ensures SameIndex(sccIndex, u, w) <==> SameCycle(adj, nodes, u, w)
  {
    if SameIndex(sccIndex, u, w) {
      assert LastHolder(sccs, |sccs|, sccIndex[u], u) && LastHolder(sccs, |sccs|, sccIndex[w], w);
    }
    if SameCycle(adj, nodes, u, w) {
      var c :| 0 <= c < |sccs| && u in sccs[c];
      assert w in sccs[c];
      assert LastHolder(sccs, |sccs|, sccIndex[u], u) && LastHolder(sccs, |sccs|, sccIndex[w], w);
    }
  }

  /** `u` is in a cycle and shares its strongly connected component with `w`. */
  ghost predicate SameCycle(adj: Adjacency, nodes: seq<ScanNode>, u: string, w: string) {
    InCycle(adj, nodes, u) && Reaches(adj, u, w) && Reaches(adj, w, u)
  }

  /**
   * In `detectCycles` (server/graph-scanner.ts:288-367): a node is marked when its strongly
   * connected component in the import graph has more than one vertex, and a
   * link when its two ends are in one such component reached from a node.
   */
  method DetectCycles(nodes: seq<ScanNode>, links: seq<ScanLink>) returns (marked: seq<ScanNode>, linked: seq<ScanLink>)
    ensures |marked| == |nodes|
    ensures forall j :: 0 <= j < |nodes| ==>
      marked[j] == nodes[j].(cycle := nodes[j].cycle || Nontrivial(ImportGraph(nodes, links), nodes[j].id))
    ensures |linked| == |links|
    ensures forall k :: 0 <= k < |links| ==>
      linked[k] == links[k].(cycle := links[k].cycle || SameCycle(ImportGraph(nodes, links), nodes, links[k].source, links[k].target))
  {
    var adj := BuildImportGraph(nodes, links);
    ghost var universe := Vertices(adj) + IdSet(nodes);
    var t := FindComponents(adj, universe, nodes);
    var cycleIds, sccIndex := IndexComponents(t.sccs);
    marked := MarkCycleNodes(nodes, cycleIds);
    linked := MarkCycleLinks(links, sccIndex);
    forall j | 0 <= j < |nodes| ensures nodes[j].id in cycleIds <==> Nontrivial(adj, nodes[j].id) {
      NodeMarks(adj, nodes, t.sccs, cycleIds, j);
    }
    forall k | 0 <= k < |links|
      ensures SameIndex(sccIndex, links[k].source, links[k].target) <==> SameCycle(adj, nodes, links[k].source, links[k].target)
    {
      LinkMarks(adj, nodes, t.sccs, sccIndex, links[k].source, links[k].target);
    }
  }
}
