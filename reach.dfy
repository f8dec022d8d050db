/**
 * Undirected connectivity over a vertex set and a list of edges, the notion
 * both island computations (server/graph-scanner.ts, src/stores/graphStore.ts)
 * partition their nodes by.
 */
module Reach {

  /** Some edge joins `u` and `v`, in either direction. */
  ghost predicate Touches(edges: seq<(string, string)>, u: string, v: string) {
    exists k :: 0 <= k < |edges| && (edges[k] == (u, v) || edges[k] == (v, u))
  }

  /** One more edge touches exactly the pairs it joins. */
  lemma TouchesSnoc(edges: seq<(string, string)>, e: (string, string), u: string, v: string)
    ensures Touches(edges + [e], u, v) <==> Touches(edges, u, v) || e == (u, v) || e == (v, u)
  {
    var es := edges + [e];
    if Touches(edges, u, v) {
      var k :| 0 <= k < |edges| && (edges[k] == (u, v) || edges[k] == (v, u));
      assert es[k] == edges[k];
    }
    if e == (u, v) || e == (v, u) {
      assert es[|edges|] == e;
    }
    if Touches(es, u, v) && !(e == (u, v) || e == (v, u)) {
      var k :| 0 <= k < |es| && (es[k] == (u, v) || es[k] == (v, u));
      assert k < |edges| && es[k] == edges[k];
    }
  }

  /** An edge between two vertices of `vs`. */
  ghost predicate Adjacent(vs: set<string>, edges: seq<(string, string)>, u: string, v: string) {
    u in vs && v in vs && Touches(edges, u, v)
  }

  /** A walk that stays in `vs` and follows edges. */
  ghost predicate IsPath(vs: set<string>, edges: seq<(string, string)>, p: seq<string>) {
    && |p| > 0
    && (forall i :: 0 <= i < |p| ==> p[i] in vs)
    && (forall i :: 0 <= i < |p| - 1 ==> Adjacent(vs, edges, p[i], p[i + 1]))
  }

  ghost predicate Connected(vs: set<string>, edges: seq<(string, string)>, x: string, y: string) {
    exists p :: IsPath(vs, edges, p) && p[0] == x && p[|p| - 1] == y
  }

  /** No edge leaves `s`. */
  ghost predicate Closed(vs: set<string>, edges: seq<(string, string)>, s: set<string>) {
    forall u, v :: u in s && Adjacent(vs, edges, u, v) ==> v in s
  }

  lemma ConnectedRefl(vs: set<string>, edges: seq<(string, string)>, x: string)
    requires x in vs
    ensures Connected(vs, edges, x, x)
  {
    assert IsPath(vs, edges, [x]);
  }

  lemma ConnectedInside(vs: set<string>, edges: seq<(string, string)>, x: string, y: string)
    requires Connected(vs, edges, x, y)
    ensures x in vs && y in vs
  {
    var p :| IsPath(vs, edges, p) && p[0] == x && p[|p| - 1] == y;
    assert p[0] in vs && p[|p| - 1] in vs;
  }

  function Reversed(p: seq<string>): (r: seq<string>)
    ensures |r| == |p|
    ensures forall i :: 0 <= i < |p| ==> r[i] == p[|p| - 1 - i]
  {
    seq(|p|, i requires 0 <= i < |p| => p[|p| - 1 - i])
  }

  lemma ConnectedSym(vs: set<string>, edges: seq<(string, string)>, x: string, y: string)
    requires Connected(vs, edges, x, y)
    ensures Connected(vs, edges, y, x)
  {
    var p :| IsPath(vs, edges, p) && p[0] == x && p[|p| - 1] == y;
    var r := Reversed(p);
    forall i | 0 <= i < |r| - 1 ensures Adjacent(vs, edges, r[i], r[i + 1]) {
      var j := |p| - 2 - i;
      assert Adjacent(vs, edges, p[j], p[j + 1]);
      var k :| 0 <= k < |edges| && (edges[k] == (p[j], p[j + 1]) || edges[k] == (p[j + 1], p[j]));
      assert r[i] == p[j + 1] && r[i + 1] == p[j];
    }
    assert IsPath(vs, edges, r);
  }

  lemma ConnectedStep(vs: set<string>, edges: seq<(string, string)>, x: string, y: string, z: string)
    requires Connected(vs, edges, x, y) && Adjacent(vs, edges, y, z)
    ensures Connected(vs, edges, x, z)
  {
    var p :| IsPath(vs, edges, p) && p[0] == x && p[|p| - 1] == y;
    var q := p + [z];
    forall i | 0 <= i < |q| - 1 ensures Adjacent(vs, edges, q[i], q[i + 1]) {
      if i < |p| - 1 {
        assert q[i] == p[i] && q[i + 1] == p[i + 1];
      }
    }
    assert IsPath(vs, edges, q);
  }

  lemma ConnectedTrans(vs: set<string>, edges: seq<(string, string)>, x: string, y: string, z: string)
    requires Connected(vs, edges, x, y) && Connected(vs, edges, y, z)
    ensures Connected(vs, edges, x, z)
  {
    var p :| IsPath(vs, edges, p) && p[0] == x && p[|p| - 1] == y;
    var q :| IsPath(vs, edges, q) && q[0] == y && q[|q| - 1] == z;
    var r := p + q[1..];
    forall i | 0 <= i < |r| ensures r[i] in vs {
      if i >= |p| { assert r[i] == q[i - |p| + 1]; }
    }
    forall i | 0 <= i < |r| - 1 ensures Adjacent(vs, edges, r[i], r[i + 1]) {
      if i < |p| - 1 {
        assert r[i] == p[i] && r[i + 1] == p[i + 1];
      } else {
        var j := i - |p| + 1;
        assert r[i] == q[j] && r[i + 1] == q[j + 1];
      }
    }
    assert IsPath(vs, edges, r);
  }

  /** A closed set that holds one end of a connection holds the other. */
  lemma ClosedReach(vs: set<string>, edges: seq<(string, string)>, s: set<string>, x: string, y: string)
    requires Closed(vs, edges, s) && x in s && Connected(vs, edges, x, y)
    ensures y in s
  {
    var p :| IsPath(vs, edges, p) && p[0] == x && p[|p| - 1] == y;
    var i := 0;
    while i < |p| - 1
      invariant 0 <= i <= |p| - 1
      invariant p[i] in s
    {
      assert Adjacent(vs, edges, p[i], p[i + 1]);
      i := i + 1;
    }
  }

  /**
   * Two vertices on either side of a closed set are not connected: a closed
   * set is a union of components.
   */
  lemma ClosedSeparates(vs: set<string>, edges: seq<(string, string)>, s: set<string>, x: string, y: string)
    requires Closed(vs, edges, s) && x in s && y !in s
    ensures !Connected(vs, edges, x, y) && !Connected(vs, edges, y, x)
  {
    if Connected(vs, edges, x, y) {
      ClosedReach(vs, edges, s, x, y);
    }
    if Connected(vs, edges, y, x) {
      ConnectedSym(vs, edges, y, x);
      ClosedReach(vs, edges, s, x, y);
    }
  }
}
