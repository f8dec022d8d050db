/**
 * The code graph of a scanned project (server/graph-scanner.ts): the node list
 * with its unique ids and base-name index, the component links found in Vue
 * templates, the size bump by incoming links, the islands (connected
 * components of the undirected link graph) and the cycle marks (strongly
 * connected components of the import graph). Walking the file system and the
 * TypeScript project is left out; its results are the inputs here.
 */
module GraphScanner {
  import opened Wrappers
  import opened GraphTypes
  import opened Reach

  datatype ScanKind = FileNode | ClassNode | FunctionNode

  datatype ScanLinkType = Contains | Imports

  /** `{ id, name, type, group, val, errorCount }`, plus the marks the passes write. */
  datatype ScanNode = ScanNode(
    id: string, name: string, kind: ScanKind, group: int, val: real, errorCount: int,
    island: Option<string>, cycle: bool)

  datatype ScanLink = ScanLink(source: string, target: string, ltype: ScanLinkType, cycle: bool)

  function IdSet(ns: seq<ScanNode>): (r: set<string>)
    ensures forall x :: x in r <==> exists i :: 0 <= i < |ns| && ns[i].id == x
  {
    set i | 0 <= i < |ns| :: ns[i].id
  }

  /** No two nodes share an id. */
  predicate UniqueIds(ns: seq<ScanNode>) {
    forall i, j :: 0 <= i < j < |ns| ==> ns[i].id != ns[j].id
  }

  /** The links as (source, target) pairs. */
  function Edges(links: seq<ScanLink>): (e: seq<(string, string)>)
    ensures |e| == |links|
    ensures forall k :: 0 <= k < |links| ==> e[k] == (links[k].source, links[k].target)
  {
    seq(|links|, k requires 0 <= k < |links| => (links[k].source, links[k].target))
  }

  /** `name.split('.')[0]`: the name up to its first dot. */
  function BaseName(name: string): (r: string)
    ensures r <= name
    ensures '.' !in r
    ensures |r| < |name| ==> name[|r|] == '.'
  {
    if name == [] || name[0] == '.' then []
    else [name[0]] + BaseName(name[1..])
  }

  /** `fileId` followed by a template's component names that get a link, each once, in order of first use. */
  function LinkedNames(fileId: string, names: seq<string>, baseNames: map<string, string>): (r: seq<string>)
    ensures Distinct(r)
    ensures forall x :: x in r <==> x in names && x in baseNames && baseNames[x] != fileId
    decreases |names|
  {
    if names == [] then []
    else
      var pre := names[..|names| - 1];
      var x := names[|names| - 1];
      var linked := LinkedNames(fileId, pre, baseNames);
      assert forall y :: y in names <==> y in pre || y == x;
      if x in baseNames && x !in linked && baseNames[x] != fileId then linked + [x] else linked
  }

  /** The `imports` links from `fileId` to the nodes the linked names stand for. */
  function ImportLinks(fileId: string, linked: seq<string>, baseNames: map<string, string>): (ls: seq<ScanLink>)
    requires forall x :: x in linked ==> x in baseNames
    ensures |ls| == |linked|
    ensures forall k :: 0 <= k < |ls| ==> ls[k] == ScanLink(fileId, baseNames[linked[k]], Imports, false)
  {
    seq(|linked|, k requires 0 <= k < |linked| => ScanLink(fileId, baseNames[linked[k]], Imports, false))
  }

  /** `val || 1`: a zero size counts as one. */
  function OrOne(v: real): real {
    if v == 0.0 then 1.0 else v
  }

  /** The number of links whose target is `id`. */
  function IncomingCount(links: seq<ScanLink>, id: string): (n: nat)
    ensures n <= |links|
    ensures n == 0 <==> forall k :: 0 <= k < |links| ==> links[k].target != id
    decreases |links|
  {
    if links == [] then 0
    else
      var pre := links[..|links| - 1];
      var c := IncomingCount(pre, id);
      assert forall k :: 0 <= k < |pre| ==> pre[k] == links[k];
      c + (if links[|links| - 1].target == id then 1 else 0)
  }

  /** Counting over a concatenation adds up. */
  lemma {:induction false} IncomingCountConcat(a: seq<ScanLink>, b: seq<ScanLink>, id: string)
    ensures IncomingCount(a + b, id) == IncomingCount(a, id) + IncomingCount(b, id)
    decreases |b|
  {
    if b == [] {
      assert a + b == a;
    } else {
      var b' := b[..|b| - 1];
      IncomingCountConcat(a, b', id);
      assert (a + b)[..|a + b| - 1] == a + b';
    }
  }

  lemma IncomingCountSnoc(s: seq<ScanLink>, l: ScanLink, id: string)
    ensures IncomingCount(s + [l], id) == IncomingCount(s, id) + (if l.target == id then 1 else 0)
  {
    assert (s + [l])[..|s|] == s;
  }

  /** The `incomingCounts` map: each link target with the number of links that end at it. */
  method IncomingCounts(links: seq<ScanLink>) returns (counts: map<string, nat>)
    ensures forall t :: t in counts ==> counts[t] == IncomingCount(links, t)
    ensures forall t :: t !in counts ==> IncomingCount(links, t) == 0
  {
    counts := map[];
    var j := 0;
    while j < |links|
      invariant 0 <= j <= |links|
      invariant forall t :: t in counts ==> counts[t] == IncomingCount(links[..j], t)
      invariant forall t :: t !in counts ==> IncomingCount(links[..j], t) == 0
    {
      var t := links[j].target;
      assert links[..j + 1] == links[..j] + [links[j]];
      forall u ensures IncomingCount(links[..j + 1], u) == IncomingCount(links[..j], u) + (if t == u then 1 else 0) {
        IncomingCountSnoc(links[..j], links[j], u);
      }
      counts := counts[t := (if t in counts then counts[t] else 0) + 1];
      j := j + 1;
    }
    assert links[..j] == links;
  }

  /** The decimal digits of `n`, as the template string writes it. */
  function Decimal(n: nat): (s: string)
    ensures |s| >= 1
    ensures n >= 10 ==> |s| >= 2
    decreases n
  {
    if n < 10 then [('0' as int + n) as char]
    else Decimal(n / 10) + [('0' as int + n % 10) as char]
  }

  lemma {:induction false} DecimalInjective(a: nat, b: nat)
    requires Decimal(a) == Decimal(b)
    ensures a == b
    decreases a
  {
    if a >= 10 && b >= 10 {
      var da, db := Decimal(a), Decimal(b);
      assert da[|da| - 1] == db[|db| - 1];
      assert a % 10 == b % 10;
      assert da[..|da| - 1] == Decimal(a / 10);
      assert db[..|db| - 1] == Decimal(b / 10);
      DecimalInjective(a / 10, b / 10);
    } else if a < 10 && b < 10 {
      assert Decimal(a)[0] == Decimal(b)[0];
    }
  }

  /** `group_${k}`. */
  function IslandName(k: nat): string {
    "group_" + Decimal(k)
  }

  /** Different island numbers give different names. */
  lemma IslandNameInjective(a: nat, b: nat)
    ensures IslandName(a) == IslandName(b) <==> a == b
  {
    if IslandName(a) == IslandName(b) {
      assert Decimal(a) == IslandName(a)[6..];
      assert Decimal(b) == IslandName(b)[6..];
      DecimalInjective(a, b);
    }
  }

  /** `nodes.find(node => node.id === v)`: the first index holding `v`. */
  function FindNode(ns: seq<ScanNode>, v: string): (r: Option<nat>)
    ensures r.Some? <==> exists j :: 0 <= j < |ns| && ns[j].id == v
    ensures r.Some? ==> r.value < |ns| && ns[r.value].id == v && forall j :: 0 <= j < r.value ==> ns[j].id != v
    decreases |ns|
  {
    if ns == [] then None
    else if ns[0].id == v then Some(0)
    else
      var r := FindNode(ns[1..], v);
      assert forall j :: 1 <= j < |ns| ==> ns[j] == ns[1..][j - 1];
      if r.Some? then Some(r.value + 1) else None
  }

  /**
   * The islands written so far: the node of each numbered id carries the name
   * of its number, every other node what it had; nothing else changed.
   */
  ghost predicate IslandsMarked(ns: seq<ScanNode>, orig: seq<ScanNode>, num: map<string, nat>) {
    && |ns| == |orig|
    && forall j :: 0 <= j < |ns| ==>
         ns[j] == orig[j].(island := if orig[j].id in num then Some(IslandName(num[orig[j].id])) else orig[j].island)
  }

  /** The numbers partition the numbered ids by connectivity. */
  ghost predicate Numbered(vs: set<string>, edges: seq<(string, string)>, num: map<string, nat>, count: nat) {
    && (forall x :: x in num ==> x in vs && 1 <= num[x] <= count)
    && (forall x, y :: x in num && y in num ==> (num[x] == num[y] <==> Connected(vs, edges, x, y)))
  }

  /** Every end of every link. */
  ghost function Endpoints(links: seq<ScanLink>): set<string> {
    (set k | 0 <= k < |links| :: links[k].source) + (set k | 0 <= k < |links| :: links[k].target)
  }

  lemma TouchesEndpoint(links: seq<ScanLink>, u: string, v: string)
    requires Touches(Edges(links), u, v)
    ensures v in Endpoints(links)
  {
    var k :| 0 <= k < |links| && (Edges(links)[k] == (u, v) || Edges(links)[k] == (v, u));
    assert links[k].source in Endpoints(links) && links[k].target in Endpoints(links);
  }

  /** `adj`: every node id with the other ends of its links, both directions. */
  method UndirectedAdjacency(ns: seq<ScanNode>, links: seq<ScanLink>) returns (adj: map<string, seq<string>>)
    ensures adj.Keys == IdSet(ns)
    ensures forall u, v :: u in adj ==> (v in adj[u] <==> Touches(Edges(links), u, v))
  {
    adj := map[];
    var i := 0;
    while i < |ns|
      invariant 0 <= i <= |ns|
      invariant forall u :: u in adj <==> exists k :: 0 <= k < i && ns[k].id == u
      invariant forall u :: u in adj ==> adj[u] == []
    {
      adj := adj[ns[i].id := []];
      i := i + 1;
    }
    assert adj.Keys == IdSet(ns);
    ghost var edges := Edges(links);
    var j := 0;
    while j < |links|
      invariant 0 <= j <= |links|
      invariant adj.Keys == IdSet(ns)
      invariant forall u, v :: u in adj ==> (v in adj[u] <==> Touches(edges[..j], u, v))
    {
      var l := links[j];
      ghost var prev := adj;
      if l.source in adj {
        adj := adj[l.source := adj[l.source] + [l.target]];
      }
      if l.target in adj {
        adj := adj[l.target := adj[l.target] + [l.source]];
      }
      assert edges[..j + 1] == edges[..j] + [edges[j]];
      forall u, v | u in adj ensures v in adj[u] <==> Touches(edges[..j + 1], u, v) {
        TouchesSnoc(edges[..j], edges[j], u, v);
        assert v in adj[u] <==> v in prev[u] || (u == l.source && v == l.target) || (u == l.target && v == l.source);
      }
      j := j + 1;
    }
    assert edges[..j] == edges;
  }

  /** No node before index `i` is connected to it: `i` is the first node of its island. */
  ghost predicate IsStart(ns: seq<ScanNode>, vs: set<string>, edges: seq<(string, string)>, i: nat)
    requires i < |ns|
  {
    forall j {:trigger Connected(vs, edges, ns[j].id, ns[i].id)} :: 0 <= j < i ==> !Connected(vs, edges, ns[j].id, ns[i].id)
  }

  /** The number of islands whose first node comes before index `i`. */
  ghost function StartCount(ns: seq<ScanNode>, vs: set<string>, edges: seq<(string, string)>, i: nat): nat
    requires i <= |ns|
    decreases i
  {
    if i == 0 then 0 else StartCount(ns, vs, edges, i - 1) + (if IsStart(ns, vs, edges, i - 1) then 1 else 0)
  }

  ghost predicate Extends(num: map<string, nat>, base: map<string, nat>) {
    forall x :: x in base ==> x in num && num[x] == base[x]
  }

  /**
   * Numbering one more island `c`, made of `s` and what is connected to it,
   * keeps the numbering a partition by connectivity.
   */
  lemma NumberedGrow(vs: set<string>, edges: seq<(string, string)>, num0: map<string, nat>, num: map<string, nat>,
                     s: string, c: nat)
    requires c >= 1 && Numbered(vs, edges, num0, c - 1) && Closed(vs, edges, num0.Keys)
    requires Extends(num, num0) && forall x :: x in num ==> x in vs
    requires forall x :: x in num && x !in num0 ==> num[x] == c && Connected(vs, edges, s, x)
    ensures Numbered(vs, edges, num, c)
  {
    forall x, y | x in num && y in num ensures num[x] == num[y] <==> Connected(vs, edges, x, y) {
      if x !in num0 && y !in num0 {
        ConnectedSym(vs, edges, s, x);
        ConnectedTrans(vs, edges, x, s, y);
      } else if x in num0 && y !in num0 {
        ClosedSeparates(vs, edges, num0.Keys, x, y);
      } else if x !in num0 && y in num0 {
        ClosedSeparates(vs, edges, num0.Keys, y, x);
      }
    }
  }

  /** Numbering node `orig[f]` with island `c` and writing that island into its node. */
  lemma MarkStep(ns: seq<ScanNode>, orig: seq<ScanNode>, num: map<string, nat>, f: nat, c: nat)
    requires UniqueIds(orig) && IslandsMarked(ns, orig, num) && f < |orig|
    ensures IslandsMarked(ns[f := ns[f].(island := Some(IslandName(c)))], orig, num[orig[f].id := c])
  {
  }

  /** Visiting one more element of `reach` leaves one fewer unvisited. */
  lemma VisitOneMore(reach: set<string>, visited: set<string>, v: string)
    requires v in reach && v !in visited
    ensures |reach - (visited + {v})| == |reach - visited| - 1
  {
    assert reach - visited == (reach - (visited + {v})) + {v};
  }

  /**
   * The state of the neighbour loop of island `c` before neighbour `k`: the
   * marks follow the numbering, which numbers exactly the visited node ids;
   * the neighbours before `k` are visited; what this loop visited it queued
   * in `added` and numbered `c`.
   */
  ghost predicate Visiting(orig: seq<ScanNode>, vs: set<string>, reach: set<string>, c: nat,
                           num: map<string, nat>, visited: set<string>, nbrs: seq<string>, k: nat,
                           ns: seq<ScanNode>, visited': set<string>, added: seq<string>, num': map<string, nat>) {
    && k <= |nbrs|
    && IslandsMarked(ns, orig, num') && num'.Keys == visited' * vs && visited <= visited' <= reach
    && (forall j :: 0 <= j < k ==> nbrs[j] in visited')
    && Extends(num', num)
    && (forall x :: x in num' && x !in num ==> num'[x] == c && x in added)
    && (forall q :: q in added ==> q in visited' && q !in visited && q in nbrs)
    && |reach - visited'| + |added| == |reach - visited|
  }

  /** One neighbour `v`: an unvisited one is visited, marked with the island when it is a node, and queued. */
  method VisitOne(
    ns: seq<ScanNode>, v: string, islandId: string, visited: set<string>,
    ghost orig: seq<ScanNode>, ghost vs: set<string>, ghost c: nat, ghost num: map<string, nat>)
    returns (ns': seq<ScanNode>, visited': set<string>, pushed: bool, ghost num': map<string, nat>)
    requires UniqueIds(orig) && vs == IdSet(orig) && islandId == IslandName(c)
    requires IslandsMarked(ns, orig, num) && num.Keys == visited * vs
    ensures IslandsMarked(ns', orig, num') && num'.Keys == visited' * vs
    ensures visited' == visited + {v} && (pushed <==> v !in visited)
    ensures num' == if v in vs && v !in visited then num[v := c] else num
    ensures !pushed ==> ns' == ns && visited' == visited
  {
    ns', visited', pushed, num' := ns, visited, false, num;
    if v !in visited {
      visited' := visited + {v};
      pushed := true;
      var found := FindNode(ns, v);
      if found.Some? {
        var f := found.value;
        assert orig[f].id == v;
        MarkStep(ns, orig, num, f, c);
        ns' := ns[f := ns[f].(island := Some(islandId))];
        num' := num[v := c];
      } else {
        assert v !in vs;
      }
    }
  }

  /** Visiting a neighbour `nbrs[k]` seen before moves the neighbour loop on by one. */
  lemma VisitingSkip(orig: seq<ScanNode>, vs: set<string>, reach: set<string>, c: nat,
                     num: map<string, nat>, visited: set<string>, nbrs: seq<string>, k: nat,
                     ns: seq<ScanNode>, vis: set<string>, added: seq<string>, cur: map<string, nat>)
    requires k < |nbrs| && nbrs[k] in vis
    requires Visiting(orig, vs, reach, c, num, visited, nbrs, k, ns, vis, added, cur)
    ensures Visiting(orig, vs, reach, c, num, visited, nbrs, k + 1, ns, vis, added, cur)
  {
  }

  /** Visiting a new neighbour `nbrs[k]` moves the neighbour loop on by one and queues it. */
  lemma VisitingPush(orig: seq<ScanNode>, vs: set<string>, reach: set<string>, c: nat,
                     num: map<string, nat>, visited: set<string>, nbrs: seq<string>, k: nat,
                     ns: seq<ScanNode>, vis: set<string>, added: seq<string>, cur: map<string, nat>,
                     ns': seq<ScanNode>, cur': map<string, nat>)
    requires k < |nbrs| && nbrs[k] in reach && nbrs[k] !in vis
    requires Visiting(orig, vs, reach, c, num, visited, nbrs, k, ns, vis, added, cur)
    requires IslandsMarked(ns', orig, cur') && cur'.Keys == (vis + {nbrs[k]}) * vs
    requires cur' == if nbrs[k] in vs then cur[nbrs[k] := c] else cur
    ensures Visiting(orig, vs, reach, c, num, visited, nbrs, k + 1, ns', vis + {nbrs[k]}, added + [nbrs[k]], cur')
  {
    VisitOneMore(reach, vis, nbrs[k]);
  }

  /**
   * The `for (const v of neighbors)` loop of the island search for island
   * `c`; `added` is what it pushes onto the queue.
   */
  method VisitNeighbors(
    ns: seq<ScanNode>, nbrs: seq<string>, islandId: string, visited: set<string>,
    ghost orig: seq<ScanNode>, ghost vs: set<string>, ghost reach: set<string>, ghost c: nat, ghost num: map<string, nat>)
    returns (ns': seq<ScanNode>, visited': set<string>, added: seq<string>, ghost num': map<string, nat>)
    requires UniqueIds(orig) && vs == IdSet(orig) && islandId == IslandName(c)
    requires IslandsMarked(ns, orig, num) && num.Keys == visited * vs && visited <= reach
    requires forall j :: 0 <= j < |nbrs| ==> nbrs[j] in reach
    ensures Visiting(orig, vs, reach, c, num, visited, nbrs, |nbrs|, ns', visited', added, num')
  {
    ns', visited', added, num' := ns, visited, [], num;
    var k := 0;
    while k < |nbrs|
      invariant Visiting(orig, vs, reach, c, num, visited, nbrs, k, ns', visited', added, num')
    {
      ghost var prevNs, prevVisited, prevNum := ns', visited', num';
      var pushed;
      ns', visited', pushed, num' := VisitOne(ns', nbrs[k], islandId, visited', orig, vs, c, num');
      if pushed {
        VisitingPush(orig, vs, reach, c, num, visited, nbrs, k, prevNs, prevVisited, added, prevNum, ns', num');
        added := added + [nbrs[k]];
      } else {
        VisitingSkip(orig, vs, reach, c, num, visited, nbrs, k, prevNs, prevVisited, added, prevNum);
      }
      k := k + 1;
    }
  }

  /**
   * The search for island `c` from `s` so far: what it numbered beyond `num0`
   * is connected to `s`, and every numbered id off the queue has all its
   * neighbours numbered.
   */
  ghost predicate Spreading(vs: set<string>, edges: seq<(string, string)>, s: string, c: nat,
                            num0: map<string, nat>, num: map<string, nat>, queue: seq<string>) {
    && (forall x :: x in num && x !in num0 ==> num[x] == c && Connected(vs, edges, s, x))
    && (forall u, v :: u in num && u !in queue && Adjacent(vs, edges, u, v) ==> v in num)
  }

  /** Expanding the head `u` of the queue keeps the search sound and its closure. */
  lemma SpreadStep(vs: set<string>, edges: seq<(string, string)>, adj: map<string, seq<string>>, s: string, c: nat,
                   num0: map<string, nat>, prevNum: map<string, nat>, num: map<string, nat>,
                   u: string, rest: seq<string>, added: seq<string>)
    requires Spreading(vs, edges, s, c, num0, prevNum, [u] + rest)
    requires adj.Keys == vs && forall u, v :: u in adj ==> (v in adj[u] <==> Touches(edges, u, v))
    requires u in vs ==> u in prevNum && u !in num0
    requires Extends(num, prevNum) && forall x :: x in num ==> x in vs
    requires forall x :: x in num && x !in prevNum ==> num[x] == c && x in added
    requires forall q :: q in added ==> u in adj && q in adj[u]
    requires u in adj ==> forall v :: v in adj[u] && v in vs ==> v in num
    ensures Spreading(vs, edges, s, c, num0, num, rest + added)
  {
    forall x | x in num && x !in num0 ensures num[x] == c && Connected(vs, edges, s, x) {
      if x !in prevNum {
        assert Adjacent(vs, edges, u, x);
        ConnectedStep(vs, edges, s, u, x);
      }
    }
    forall u', v | u' in num && u' !in rest + added && Adjacent(vs, edges, u', v) ensures v in num {
      if u' != u {
        assert u' in prevNum && u' !in [u] + rest;
      }
    }
  }

  /**
   * What the island search relies on throughout: unique node ids `vs`, the
   * adjacency `adj` of the links `edges`, and a set `reach` holding every id
   * the search can visit.
   */
  ghost predicate AdjacencyFrame(orig: seq<ScanNode>, vs: set<string>, edges: seq<(string, string)>,
                                 reach: set<string>, adj: map<string, seq<string>>) {
    && UniqueIds(orig) && vs == IdSet(orig) && vs <= reach
    && adj.Keys == vs && (forall u, v :: u in adj ==> (v in adj[u] <==> Touches(edges, u, v)))
    && (forall u, v :: u in adj && v in adj[u] ==> v in reach)
  }

  /**
   * The state of the search for island `c` from `s`: the marks follow the
   * numbering, which numbers exactly the visited node ids and extends `num`;
   * the queue holds ids visited by this search; `Spreading` holds.
   */
  ghost predicate Searching(orig: seq<ScanNode>, vs: set<string>, edges: seq<(string, string)>, reach: set<string>,
                            s: string, c: nat, before: set<string>, num0: map<string, nat>, num: map<string, nat>,
                            ns: seq<ScanNode>, visited: set<string>, cur: map<string, nat>, queue: seq<string>) {
    && IslandsMarked(ns, orig, cur) && cur.Keys == visited * vs && before <= visited <= reach
    && Extends(cur, num)
    && (forall q :: q in queue ==> q in visited && q !in before)
    && Spreading(vs, edges, s, c, num0, cur, queue)
  }

  /** The neighbours the search looks up for `u`: `adj.get(u) || []`. */
  function NeighborsOf(adj: map<string, seq<string>>, u: string): seq<string> {
    if u in adj then adj[u] else []
  }

  /** Expanding the head `u` of the queue, with its neighbour loop done, keeps the search state. */
  lemma SearchStep(orig: seq<ScanNode>, vs: set<string>, edges: seq<(string, string)>, reach: set<string>,
                   adj: map<string, seq<string>>,
                   s: string, c: nat, before: set<string>, num0: map<string, nat>, num: map<string, nat>,
                   ns: seq<ScanNode>, visited: set<string>, cur: map<string, nat>, u: string, rest: seq<string>,
                   ns': seq<ScanNode>, visited': set<string>, added: seq<string>, cur': map<string, nat>)
    requires AdjacencyFrame(orig, vs, edges, reach, adj) && num0.Keys == before * vs
    requires Searching(orig, vs, edges, reach, s, c, before, num0, num, ns, visited, cur, [u] + rest)
    requires Visiting(orig, vs, reach, c, cur, visited, NeighborsOf(adj, u), |NeighborsOf(adj, u)|,
                      ns', visited', added, cur')
    ensures Searching(orig, vs, edges, reach, s, c, before, num0, num, ns', visited', cur', rest + added)
    ensures visited <= visited'
    ensures |reach - visited'| + |rest + added| < |reach - visited| + |[u] + rest|
  {
    assert u in [u] + rest;
    SpreadStep(vs, edges, adj, s, c, num0, cur, cur', u, rest, added);
  }

  /** One round of `while (queue.length > 0)`: shift `u` off the queue and visit its neighbours. */
  method ExpandHead(
    ns: seq<ScanNode>, adj: map<string, seq<string>>, queue: seq<string>, islandId: string, visited: set<string>,
    ghost orig: seq<ScanNode>, ghost vs: set<string>, ghost edges: seq<(string, string)>, ghost reach: set<string>,
    ghost s: string, ghost c: nat, ghost before: set<string>, ghost num0: map<string, nat>, ghost num: map<string, nat>,
    ghost cur: map<string, nat>)
    returns (ns': seq<ScanNode>, visited': set<string>, queue': seq<string>, ghost cur': map<string, nat>)
    requires AdjacencyFrame(orig, vs, edges, reach, adj) && islandId == IslandName(c)
    requires num0.Keys == before * vs
    requires |queue| > 0 && Searching(orig, vs, edges, reach, s, c, before, num0, num, ns, visited, cur, queue)
    ensures Searching(orig, vs, edges, reach, s, c, before, num0, num, ns', visited', cur', queue')
    ensures visited <= visited'
    ensures |reach - visited'| + |queue'| < |reach - visited| + |queue|
  {
    var u := queue[0];
    var rest := queue[1..];
    assert queue == [u] + rest;
    var neighbors := NeighborsOf(adj, u);
    var added;
    ns', visited', added, cur' := VisitNeighbors(ns, neighbors, islandId, visited, orig, vs, reach, c, cur);
    SearchStep(orig, vs, edges, reach, adj, s, c, before, num0, num, ns, visited, cur, u, rest,
               ns', visited', added, cur');
    queue' := rest + added;
  }

  /**
   * The island numbered `c` is complete: every node of the component is
   * marked, visited and numbered, and the numbered set is again closed.
   */
  ghost predicate IslandFilled(orig: seq<ScanNode>, vs: set<string>, edges: seq<(string, string)>, reach: set<string>,
                               num: map<string, nat>, ns: seq<ScanNode>, visited: set<string>,
                               cur: map<string, nat>, c: nat) {
    && IslandsMarked(ns, orig, cur) && cur.Keys == visited * vs && visited <= reach
    && Extends(cur, num) && Numbered(vs, edges, cur, c) && Closed(vs, edges, cur.Keys)
  }

  /**
   * The breadth-first search from `s`, the first node of island `c`: every
   * node connected to `s` joins the island, and the numbered set stays closed.
   */
  method SpreadIsland(
    ns: seq<ScanNode>, adj: map<string, seq<string>>, s: string, islandId: string, visited: set<string>,
    ghost orig: seq<ScanNode>, ghost vs: set<string>, ghost edges: seq<(string, string)>, ghost reach: set<string>,
    ghost c: nat, ghost before: set<string>, ghost num0: map<string, nat>, ghost num: map<string, nat>)
    returns (ns': seq<ScanNode>, visited': set<string>, ghost num': map<string, nat>)
    requires AdjacencyFrame(orig, vs, edges, reach, adj) && islandId == IslandName(c) && c >= 1
    requires Numbered(vs, edges, num0, c - 1) && Closed(vs, edges, num0.Keys) && num0.Keys == before * vs
    requires s in vs && s !in before && visited == before + {s} && visited <= reach
    requires num == num0[s := c] && IslandsMarked(ns, orig, num)
    ensures visited <= visited' && IslandFilled(orig, vs, edges, reach, num, ns', visited', num', c)
  {
    ns', visited', num' := ns, visited, num;
    var queue := [s];
    SearchBegin(orig, vs, edges, reach, s, c, before, num0, num, ns, visited);
    while |queue| > 0
      invariant Searching(orig, vs, edges, reach, s, c, before, num0, num, ns', visited', num', queue)
      invariant visited <= visited'
      decreases |reach - visited'| + |queue|
    {
      ns', visited', queue, num' := ExpandHead(ns', adj, queue, islandId, visited', orig, vs, edges, reach,
                                               s, c, before, num0, num, num');
    }
    SearchDone(orig, vs, edges, reach, s, c, before, num0, num, ns', visited', num');
  }

  /** The search starts with `s` numbered `c` and queued. */
  lemma SearchBegin(orig: seq<ScanNode>, vs: set<string>, edges: seq<(string, string)>, reach: set<string>,
                    s: string, c: nat, before: set<string>, num0: map<string, nat>, num: map<string, nat>,
                    ns: seq<ScanNode>, visited: set<string>)
    requires Closed(vs, edges, num0.Keys) && num0.Keys == before * vs
    requires s in vs && s !in before && visited == before + {s} && visited <= reach
    requires num == num0[s := c] && IslandsMarked(ns, orig, num)
    ensures Searching(orig, vs, edges, reach, s, c, before, num0, num, ns, visited, num, [s])
  {
    ConnectedRefl(vs, edges, s);
  }

  /** A search whose queue ran empty has numbered a whole island. */
  lemma SearchDone(orig: seq<ScanNode>, vs: set<string>, edges: seq<(string, string)>, reach: set<string>,
                   s: string, c: nat, before: set<string>, num0: map<string, nat>, num: map<string, nat>,
                   ns: seq<ScanNode>, visited: set<string>, cur: map<string, nat>)
    requires c >= 1 && Numbered(vs, edges, num0, c - 1) && Closed(vs, edges, num0.Keys)
    requires s !in num0 && num == num0[s := c]
    requires Searching(orig, vs, edges, reach, s, c, before, num0, num, ns, visited, cur, [])
    ensures IslandFilled(orig, vs, edges, reach, num, ns, visited, cur, c)
  {
    forall u, v | u in cur && Adjacent(vs, edges, u, v) ensures v in cur {
      assert u !in [];
    }
    NumberedGrow(vs, edges, num0, cur, s, c);
  }

  /**
   * The state of `detectIslands` before node `i`: the nodes are marked by
   * `num`, which numbers exactly the visited node ids, partitions them by
   * connectivity into islands `1..count`, is closed under links and covers
   * the nodes before `i`.
   */
  ghost predicate IslandScan(nodes: seq<ScanNode>, vs: set<string>, edges: seq<(string, string)>, reach: set<string>,
                             marked: seq<ScanNode>, visited: set<string>, num: map<string, nat>, count: nat, i: nat) {
    && i <= |nodes|
    && IslandsMarked(marked, nodes, num) && num.Keys == visited * vs && visited <= reach
    && Numbered(vs, edges, num, count) && Closed(vs, edges, num.Keys)
    && forall k :: 0 <= k < i ==> nodes[k].id in num
  }

  /**
   * Islands are numbered in the order of their first nodes: before node `i`,
   * `count` islands have started, island `c` started at node `rep[c]`, and
   * the first node of each island has the number of islands started before
   * it, plus one.
   */
  ghost predicate IslandOrder(nodes: seq<ScanNode>, vs: set<string>, edges: seq<(string, string)>,
                              num: map<string, nat>, count: nat, i: nat, rep: map<nat, nat>) {
    && i <= |nodes| && count == StartCount(nodes, vs, edges, i)
    && (forall c :: 1 <= c <= count ==> c in rep)
    && (forall c {:trigger rep[c]} :: c in rep && 1 <= c <= count ==>
          rep[c] < i && nodes[rep[c]].id in num && num[nodes[rep[c]].id] == c)
    && (forall k {:trigger IsStart(nodes, vs, edges, k)} :: 0 <= k < i && IsStart(nodes, vs, edges, k) ==>
          nodes[k].id in num && num[nodes[k].id] == StartCount(nodes, vs, edges, k) + 1)
  }

  /** A node already visited is connected to an earlier one, so it starts no island. */
  lemma OrderSeen(nodes: seq<ScanNode>, vs: set<string>, edges: seq<(string, string)>,
                  num: map<string, nat>, count: nat, i: nat, rep: map<nat, nat>)
    requires i < |nodes| && IslandOrder(nodes, vs, edges, num, count, i, rep)
    requires Numbered(vs, edges, num, count) && nodes[i].id in num
    ensures IslandOrder(nodes, vs, edges, num, count, i + 1, rep)
  {
    var r := rep[num[nodes[i].id]];
    assert Connected(vs, edges, nodes[r].id, nodes[i].id);
    assert !IsStart(nodes, vs, edges, i);
  }

  /** A node not yet visited is connected to no earlier one: it starts island `count + 1`. */
  lemma OrderOpen(nodes: seq<ScanNode>, vs: set<string>, edges: seq<(string, string)>,
                  num: map<string, nat>, num': map<string, nat>, count: nat, i: nat, rep: map<nat, nat>)
    requires i < |nodes| && IslandOrder(nodes, vs, edges, num, count, i, rep)
    requires Closed(vs, edges, num.Keys) && (forall k :: 0 <= k < i ==> nodes[k].id in num) && nodes[i].id !in num
    requires Extends(num', num) && nodes[i].id in num' && num'[nodes[i].id] == count + 1
    ensures IslandOrder(nodes, vs, edges, num', count + 1, i + 1, rep[count + 1 := i])
  {
    forall j | 0 <= j < i ensures !Connected(vs, edges, nodes[j].id, nodes[i].id) {
      ClosedSeparates(vs, edges, num.Keys, nodes[j].id, nodes[i].id);
    }
    assert IsStart(nodes, vs, edges, i);
  }

  /** An unvisited node `i` opens island `count + 1`, which the search fills. */
  method OpenIsland(
    nodes: seq<ScanNode>, adj: map<string, seq<string>>, marked: seq<ScanNode>, visited: set<string>, count: nat, i: nat,
    ghost vs: set<string>, ghost edges: seq<(string, string)>, ghost reach: set<string>, ghost num: map<string, nat>,
    ghost rep: map<nat, nat>)
    returns (marked': seq<ScanNode>, visited': set<string>, count': nat, ghost num': map<string, nat>,
             ghost rep': map<nat, nat>)
    requires AdjacencyFrame(nodes, vs, edges, reach, adj) && i < |nodes| && nodes[i].id !in visited
    requires IslandScan(nodes, vs, edges, reach, marked, visited, num, count, i)
    requires IslandOrder(nodes, vs, edges, num, count, i, rep)
    ensures IslandScan(nodes, vs, edges, reach, marked', visited', num', count', i + 1)
    ensures IslandOrder(nodes, vs, edges, num', count', i + 1, rep')
  {
    var id := marked[i].id;
    assert id == nodes[i].id && id in vs;
    count' := count + 1;
    var islandId := IslandName(count');
    visited' := visited + {id};
    marked' := marked[i := marked[i].(island := Some(islandId))];
    ghost var start := num[id := count'];
    marked', visited', num' := SpreadIsland(marked', adj, id, islandId, visited',
                                            nodes, vs, edges, reach, count', visited, num, start);
    rep' := rep[count' := i];
    OpenDone(nodes, vs, edges, reach, marked, marked', visited, visited', num, num', count, count', i, rep, rep');
  }

  /** What the search leaves after node `i` opened island `count + 1`. */
  lemma OpenDone(nodes: seq<ScanNode>, vs: set<string>, edges: seq<(string, string)>, reach: set<string>,
                 marked: seq<ScanNode>, marked': seq<ScanNode>, visited: set<string>, visited': set<string>,
                 num: map<string, nat>, num': map<string, nat>, count: nat, count': nat, i: nat,
                 rep: map<nat, nat>, rep': map<nat, nat>)
    requires i < |nodes| && nodes[i].id !in visited && count' == count + 1 && rep' == rep[count' := i]
    requires IslandScan(nodes, vs, edges, reach, marked, visited, num, count, i)
    requires IslandOrder(nodes, vs, edges, num, count, i, rep)
    requires IslandFilled(nodes, vs, edges, reach, num[nodes[i].id := count'], marked', visited', num', count')
    ensures IslandScan(nodes, vs, edges, reach, marked', visited', num', count', i + 1)
    ensures IslandOrder(nodes, vs, edges, num', count', i + 1, rep')
  {
    assert nodes[i].id !in num;
    assert Extends(num', num) && nodes[i].id in num' && num'[nodes[i].id] == count + 1;
    OrderOpen(nodes, vs, edges, num, num', count, i, rep);
    NumberedUpTo(nodes, num, num', i);
  }

  lemma NumberedUpTo(nodes: seq<ScanNode>, num: map<string, nat>, num': map<string, nat>, i: nat)
    requires i < |nodes| && (forall k :: 0 <= k < i ==> nodes[k].id in num)
    requires Extends(num', num) && nodes[i].id in num'
    ensures forall k :: 0 <= k < i + 1 ==> nodes[k].id in num'
  {
    forall k | 0 <= k < i + 1 ensures nodes[k].id in num' {
      if k < i {
        assert nodes[k].id in num;
      }
    }
  }

  /** The body of `nodes.forEach` in `detectIslands`: an unvisited node opens island `count + 1`. */
  method ScanNodeAt(
    nodes: seq<ScanNode>, adj: map<string, seq<string>>, marked: seq<ScanNode>, visited: set<string>, count: nat, i: nat,
    ghost vs: set<string>, ghost edges: seq<(string, string)>, ghost reach: set<string>, ghost num: map<string, nat>,
    ghost rep: map<nat, nat>)
    returns (marked': seq<ScanNode>, visited': set<string>, count': nat, ghost num': map<string, nat>,
             ghost rep': map<nat, nat>)
    requires AdjacencyFrame(nodes, vs, edges, reach, adj) && i < |nodes|
    requires IslandScan(nodes, vs, edges, reach, marked, visited, num, count, i)
    requires IslandOrder(nodes, vs, edges, num, count, i, rep)
    ensures IslandScan(nodes, vs, edges, reach, marked', visited', num', count', i + 1)
    ensures IslandOrder(nodes, vs, edges, num', count', i + 1, rep')
  {
    var id := marked[i].id;
    assert id == nodes[i].id;
    if id !in visited {
      marked', visited', count', num', rep' := OpenIsland(nodes, adj, marked, visited, count, i, vs, edges, reach, num, rep);
    } else {
      marked', visited', count', num', rep' := marked, visited, count, num, rep;
      OrderSeen(nodes, vs, edges, num, count, i, rep);
    }
  }

  /**
   * `detectIslands(nodes, links)`: every node gets an island; two nodes
   * share one exactly when links (followed either way, through nodes)
   * connect them; and the islands are `group_1`, `group_2`, … in the order
   * of their first nodes.
   */
  method DetectIslands(nodes: seq<ScanNode>, links: seq<ScanLink>) returns (marked: seq<ScanNode>)
    requires UniqueIds(nodes)
    ensures |marked| == |nodes|
    ensures forall j :: 0 <= j < |nodes| ==> marked[j] == nodes[j].(island := marked[j].island) && marked[j].island.Some?
    ensures forall j, k :: 0 <= j < |nodes| && 0 <= k < |nodes| ==>
      (marked[j].island == marked[k].island <==> Connected(IdSet(nodes), Edges(links), nodes[j].id, nodes[k].id))
    ensures IslandsInStartOrder(nodes, IdSet(nodes), Edges(links), marked)
  {
    var adj := UndirectedAdjacency(nodes, links);
    ghost var vs, edges := IdSet(nodes), Edges(links);
    ghost var reach := vs + Endpoints(links);
    forall u, v | u in adj && v in adj[u] ensures v in reach {
      TouchesEndpoint(links, u, v);
    }
    assert AdjacencyFrame(nodes, vs, edges, reach, adj);
    var visited: set<string> := {};
    var islandCount := 0;
    ghost var num: map<string, nat> := map[];
    ghost var rep: map<nat, nat> := map[];
    marked := nodes;
    var i := 0;
    while i < |nodes|
      invariant IslandScan(nodes, vs, edges, reach, marked, visited, num, islandCount, i)
      invariant IslandOrder(nodes, vs, edges, num, islandCount, i, rep)
    {
      marked, visited, islandCount, num, rep :=
        ScanNodeAt(nodes, adj, marked, visited, islandCount, i, vs, edges, reach, num, rep);
      i := i + 1;
    }
    IslandsAllMarked(nodes, vs, marked, num);
    IslandsPartition(nodes, IdSet(nodes), Edges(links), marked, num, islandCount);
    IslandsInOrder(nodes, IdSet(nodes), Edges(links), marked, num, islandCount, rep);
  }

  lemma IslandsAllMarked(nodes: seq<ScanNode>, vs: set<string>, marked: seq<ScanNode>, num: map<string, nat>)
    requires IslandsMarked(marked, nodes, num) && forall k :: 0 <= k < |nodes| ==> nodes[k].id in num
    ensures |marked| == |nodes|
    ensures forall j :: 0 <= j < |nodes| ==> marked[j] == nodes[j].(island := marked[j].island) && marked[j].island.Some?
  {
  }

  lemma IslandsPartition(nodes: seq<ScanNode>, vs: set<string>, edges: seq<(string, string)>,
                         marked: seq<ScanNode>, num: map<string, nat>, count: nat)
    requires IslandsMarked(marked, nodes, num) && forall k :: 0 <= k < |nodes| ==> nodes[k].id in num
    requires Numbered(vs, edges, num, count)
    ensures forall j, k :: 0 <= j < |nodes| && 0 <= k < |nodes| ==>
      (marked[j].island == marked[k].island <==> Connected(vs, edges, nodes[j].id, nodes[k].id))
  {
    forall j, k | 0 <= j < |nodes| && 0 <= k < |nodes|
      ensures marked[j].island == marked[k].island <==> num[nodes[j].id] == num[nodes[k].id]
    {
      IslandNameInjective(num[nodes[j].id], num[nodes[k].id]);
    }
  }

  /**
   * Islands are numbered in the order of the nodes that open them: the node
   * that is the first of its component to be scanned names the component
   * after the number of such nodes before it, plus one.
   */
  ghost predicate IslandsInStartOrder(nodes: seq<ScanNode>, vs: set<string>, edges: seq<(string, string)>,
                                      marked: seq<ScanNode>)
    requires |marked| == |nodes|
  {
    forall j :: 0 <= j < |nodes| && IsStart(nodes, vs, edges, j) ==>
      marked[j].island == Some(IslandName(StartCount(nodes, vs, edges, j) + 1))
  }

  lemma IslandsInOrder(nodes: seq<ScanNode>, vs: set<string>, edges: seq<(string, string)>,
                       marked: seq<ScanNode>, num: map<string, nat>, count: nat, rep: map<nat, nat>)
    requires IslandsMarked(marked, nodes, num) && IslandOrder(nodes, vs, edges, num, count, |nodes|, rep)
    ensures |marked| == |nodes| && IslandsInStartOrder(nodes, vs, edges, marked)
  {
    forall j | 0 <= j < |nodes| && IsStart(nodes, vs, edges, j)
      ensures marked[j].island == Some(IslandName(StartCount(nodes, vs, edges, j) + 1))
    {
      assert num[nodes[j].id] == StartCount(nodes, vs, edges, j) + 1;
    }
  }

  /** The code graph being built: `nodes`, `links`, `nodeSet` and `baseNameToIdMap`. */
  class ProjectGraph {
    var nodes: seq<ScanNode>
    var links: seq<ScanLink>
    var nodeSet: set<string>
    var baseNameToId: map<string, string>

    constructor ()
      ensures nodes == [] && links == [] && nodeSet == {} && baseNameToId == map[]
      ensures Valid()
    {
      nodes, links, nodeSet, baseNameToId := [], [], {}, map[];
    }

    /** `nodeSet` holds exactly the node ids, and no id occurs twice. */
    predicate Valid()
      reads this
    {
      nodeSet == IdSet(nodes) && UniqueIds(nodes)
    }

    /**
     * `addNode(id, name, type, group, val, errorCount)`: a new id is
     * appended and its base name indexed unless that name is taken; a known
     * id changes nothing.
     */
    method AddNode(id: string, name: string, kind: ScanKind, group: int, val: real, errorCount: int)
      modifies this
      ensures id in old(nodeSet) ==>
        nodes == old(nodes) && nodeSet == old(nodeSet) && baseNameToId == old(baseNameToId)
      ensures id !in old(nodeSet) ==>
        && nodes == old(nodes) + [ScanNode(id, name, kind, group, val, errorCount, None, false)]
        && nodeSet == old(nodeSet) + {id}
        && baseNameToId == (if BaseName(name) in old(baseNameToId) then old(baseNameToId)
                            else old(baseNameToId)[BaseName(name) := id])
      ensures forall b :: b in old(baseNameToId) ==> b in baseNameToId && baseNameToId[b] == old(baseNameToId)[b]
      ensures links == old(links)
      ensures old(Valid()) ==> Valid()
    {
      if id !in nodeSet {
        ghost var before := nodes;
        // `cycle` starts false where the source leaves it absent; both are falsy
        nodes := nodes + [ScanNode(id, name, kind, group, val, errorCount, None, false)];
        nodeSet := nodeSet + {id};
        assert forall j :: 0 <= j < |before| ==> nodes[j] == before[j];
        forall x ensures x in IdSet(nodes) <==> x in IdSet(before) + {id} {
          if x in IdSet(nodes) && x != id {
            var j :| 0 <= j < |nodes| && nodes[j].id == x;
            assert j < |before| && before[j].id == x;
          }
          if x == id {
            assert nodes[|before|].id == x;
          }
        }
        var baseNameNoExt := BaseName(name);
        if baseNameNoExt !in baseNameToId {
          baseNameToId := baseNameToId[baseNameNoExt := id];
        }
      }
    }

    /**
     * `scanVueTemplate(content, …, fileId, links, baseNameToIdMap)`, with the
     * component names the tag pattern `<[A-Z][a-zA-Z0-9]+` matches in
     * `content`, in order, as `componentNames`.
     */
    method ScanVueTemplate(fileId: string, componentNames: seq<string>)
      modifies this
      ensures links == old(links) + ImportLinks(fileId, LinkedNames(fileId, componentNames, baseNameToId), baseNameToId)
      ensures nodes == old(nodes) && nodeSet == old(nodeSet) && baseNameToId == old(baseNameToId)
    {
      var foundComponents: set<string> := {};
      ghost var linked: seq<string> := [];
      var i := 0;
      while i < |componentNames|
        invariant 0 <= i <= |componentNames|
        invariant linked == LinkedNames(fileId, componentNames[..i], baseNameToId)
        invariant forall x :: x in foundComponents <==> x in linked
        invariant links == old(links) + ImportLinks(fileId, linked, baseNameToId)
        invariant nodes == old(nodes) && nodeSet == old(nodeSet) && baseNameToId == old(baseNameToId)
      {
        var componentName := componentNames[i];
        assert componentNames[..i + 1][..i] == componentNames[..i];
        if componentName in baseNameToId && componentName !in foundComponents {
          var targetId := baseNameToId[componentName];
          if targetId != fileId {
            links := links + [ScanLink(fileId, targetId, Imports, false)];
            foundComponents := foundComponents + {componentName};
            linked := linked + [componentName];
          }
        }
        i := i + 1;
      }
      assert componentNames[..i] == componentNames;
    }

    /** The incoming-count pass: each node's size grows by the number of links that end at it. */
    method AddIncomingCounts()
      modifies this
      ensures |nodes| == |old(nodes)|
      ensures forall i :: 0 <= i < |nodes| ==>
        nodes[i] == old(nodes)[i].(val := OrOne(old(nodes)[i].val) + IncomingCount(links, old(nodes)[i].id) as real)
      ensures links == old(links) && nodeSet == old(nodeSet) && baseNameToId == old(baseNameToId)
    {
      var incomingCounts := IncomingCounts(links);
      var i := 0;
      while i < |nodes|
        invariant 0 <= i <= |nodes| && |nodes| == |old(nodes)|
        invariant forall k :: 0 <= k < i ==>
          nodes[k] == old(nodes)[k].(val := OrOne(old(nodes)[k].val) + IncomingCount(links, old(nodes)[k].id) as real)
        invariant forall k :: i <= k < |nodes| ==> nodes[k] == old(nodes)[k]
        invariant links == old(links) && nodeSet == old(nodeSet) && baseNameToId == old(baseNameToId)
      {
        var n := nodes[i];
        var bump := if n.id in incomingCounts then incomingCounts[n.id] else 0;
        nodes := nodes[i := n.(val := OrOne(n.val) + bump as real)];
        i := i + 1;
      }
    }
  }
}
