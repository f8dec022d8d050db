/**
 * The most-recently-used list of graph paths (src/stores/history.ts): a path
 * moves to the front, occurs once, and the list is cut back to ten entries.
 * Persistence of the store is left out.
 */
module History {
  import opened GraphTypes

  /** "Keep max 10". */
  const MaxPaths: nat := 10

  /**
   * The list `addPath(p)` leaves: `p` in front of the other entries, the last
   * one popped when that makes more than ten.
   */
  function MovedToFront(paths: seq<string>, p: string): seq<string> {
    var moved := [p] + Without(paths, p);
    if |moved| > MaxPaths then moved[..|moved| - 1] else moved
  }

  /** `p` heads the list and occurs nowhere else in it. */
  lemma MovedToFrontHead(paths: seq<string>, p: string)
    ensures var r := MovedToFront(paths, p);
      |r| > 0 && r[0] == p && p !in r[1..]
  {
    var r := MovedToFront(paths, p);
    var moved := [p] + Without(paths, p);
    assert moved[1..] == Without(paths, p);
    if |moved| > MaxPaths {
      assert r[1..] == Without(paths, p)[..|moved| - 2];
    }
  }

  /** The entries after `p` are entries of the old list, in their old relative order. */
  lemma MovedToFrontKeepsOrder(paths: seq<string>, p: string)
    ensures var r := MovedToFront(paths, p);
      |r| > 0 && IsSubsequence(r[1..], paths) && IsSubsequence(r[1..], Without(paths, p))
  {
    var w := Without(paths, p);
    var moved := [p] + w;
    var r := MovedToFront(paths, p);
    assert moved[1..] == w;
    if |moved| > MaxPaths {
      assert r[1..] == w[..|w| - 1];
      SubsequencePrefix(w, paths, |w| - 1);
      SubsequenceRefl(w);
      SubsequencePrefix(w, w, |w| - 1);
    } else {
      SubsequenceRefl(w);
    }
  }

  lemma {:induction false} SubsequenceRefl<T>(s: seq<T>)
    ensures IsSubsequence(s, s)
    decreases |s|
  {
    if s != [] {
      SubsequenceRefl(s[1..]);
    }
  }

  /** A list of at most ten entries stays within ten. */
  lemma MovedToFrontBounded(paths: seq<string>, p: string)
    requires |paths| <= MaxPaths
    ensures |MovedToFront(paths, p)| <= MaxPaths
  {
    WithoutShorter(paths, p);
  }

  lemma {:induction false} WithoutShorter(s: seq<string>, x: string)
    ensures |Without(s, x)| <= |s|
    ensures x in s ==> |Without(s, x)| < |s|
    decreases |s|
  {
    if s != [] {
      WithoutShorter(s[1..], x);
      if s[0] != x && x in s {
        assert x in s[1..];
      }
    }
  }

  /**
   * Nothing is dropped unless the list was full and `p` new: then the list is
   * `p` followed by all but the last old entry.
   */
  lemma MovedToFrontDrops(paths: seq<string>, p: string)
    requires |paths| <= MaxPaths
    ensures (|paths| < MaxPaths || p in paths) ==>
      forall x :: x in MovedToFront(paths, p) <==> x == p || x in paths
    ensures |paths| == MaxPaths && p !in paths ==>
      MovedToFront(paths, p) == [p] + paths[..MaxPaths - 1]
  {
    WithoutShorter(paths, p);
    var moved := [p] + Without(paths, p);
    if |paths| < MaxPaths || p in paths {
      assert |moved| <= MaxPaths;
      assert MovedToFront(paths, p) == moved;
    }
  }

  /** A list with `x` only at its head loses exactly the head. */
  lemma WithoutHead(s: seq<string>, x: string)
    requires |s| > 0 && s[0] == x && x !in s[1..]
    ensures Without(s, x) == s[1..]
  {
  }

  /** Adding the same path twice is adding it once. */
  lemma MovedToFrontIdempotent(paths: seq<string>, p: string)
    requires |paths| <= MaxPaths
    ensures MovedToFront(MovedToFront(paths, p), p) == MovedToFront(paths, p)
  {
    var r := MovedToFront(paths, p);
    MovedToFrontHead(paths, p);
    MovedToFrontBounded(paths, p);
    WithoutHead(r, p);
    assert [p] + r[1..] == r;
  }

  /** The history store: `recentPaths` and `lastPath`. */
  class PathHistory {
    var recentPaths: seq<string>
    var lastPath: string

    constructor ()
      ensures recentPaths == [] && lastPath == ""
    {
      recentPaths, lastPath := [], "";
    }

    predicate Bounded()
      reads this
    {
      |recentPaths| <= MaxPaths
    }

    /** `addPath(path)`: an empty path is ignored. */
    method AddPath(path: string)
      modifies this
      ensures path == "" ==> recentPaths == old(recentPaths) && lastPath == old(lastPath)
      ensures path != "" ==> recentPaths == MovedToFront(old(recentPaths), path) && lastPath == path
      ensures old(Bounded()) ==> Bounded()
    {
      if path == "" {
        return;
      }
      recentPaths := Without(recentPaths, path);
      recentPaths := [path] + recentPaths;
      if |recentPaths| > MaxPaths {
        recentPaths := recentPaths[..|recentPaths| - 1];
      }
      lastPath := path;
      if old(Bounded()) {
        MovedToFrontBounded(old(recentPaths), path);
      }
    }
  }
}
