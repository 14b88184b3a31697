/** Reachability over the edges of a relation. */
module Reachability {
  ghost predicate IsPath<T(!new)>(r: (T, T) -> bool, path: seq<T>) {
    path != [] && forall i :: 0 <= i < |path| - 1 ==> r(path[i], path[i + 1])
  }

  ghost predicate Reaches<T(!new)>(r: (T, T) -> bool, a: T, b: T) {
    exists path :: IsPath(r, path) && path[0] == a && path[|path| - 1] == b
  }

  lemma ReachesItself<T(!new)>(r: (T, T) -> bool, a: T)
    ensures Reaches(r, a, a)
  {
    assert IsPath(r, [a]);
  }

  lemma ReachesThrough<T(!new)>(r: (T, T) -> bool, a: T, b: T, c: T)
    requires Reaches(r, a, b) && Reaches(r, b, c)
    ensures Reaches(r, a, c)
  {
    var p :| IsPath(r, p) && p[0] == a && p[|p| - 1] == b;
    var q :| IsPath(r, q) && q[0] == b && q[|q| - 1] == c;
    var path := p + q[1..];
    forall i | 0 <= i < |path| - 1 ensures r(path[i], path[i + 1]) {
      if i >= |p| - 1 { assert path[i] == q[i - |p| + 1] && path[i + 1] == q[i - |p| + 2]; }
    }
    assert IsPath(r, path);
  }

  /** One more edge behind a path, or before one. */
  lemma ReachesOn<T(!new)>(r: (T, T) -> bool, a: T, b: T, c: T)
    requires r(b, c)
    ensures Reaches(r, a, b) ==> Reaches(r, a, c)
    ensures Reaches(r, c, a) ==> Reaches(r, b, a)
  {
    assert IsPath(r, [b, c]);
    if Reaches(r, a, b) { ReachesThrough(r, a, b, c); }
    if Reaches(r, c, a) { ReachesThrough(r, b, c, a); }
  }

  lemma ReachesMore<T(!new)>(r: (T, T) -> bool, q: (T, T) -> bool, a: T, b: T)
    requires Reaches(r, a, b) && forall x, y :: r(x, y) ==> q(x, y)
    ensures Reaches(q, a, b)
  {
    var path :| IsPath(r, path) && path[0] == a && path[|path| - 1] == b;
    assert IsPath(q, path);
  }

  /** A path that leads anywhere else leaves by an edge and arrives by one. */
  lemma ReachesByAnEdge<T(!new)>(r: (T, T) -> bool, a: T, b: T)
    requires Reaches(r, a, b) && a != b
    ensures exists c :: c != a && r(a, c)
    ensures exists c :: r(c, b)
  {
    var path :| IsPath(r, path) && path[0] == a && path[|path| - 1] == b;
    assert r(path[|path| - 2], path[|path| - 1]);
    LastLeaving(r, path, a);
  }

  lemma {:induction false} LastLeaving<T(!new)>(r: (T, T) -> bool, path: seq<T>, a: T)
    requires IsPath(r, path) && path[0] == a && path[|path| - 1] != a
    ensures exists c :: c != a && r(a, c)
  {
    if path[1] == a {
      assert IsPath(r, path[1..]) by {
        forall i | 0 <= i < |path[1..]| - 1 ensures r(path[1..][i], path[1..][i + 1]) {
          assert path[1..][i] == path[i + 1] && path[1..][i + 1] == path[i + 2];
        }
      }
      LastLeaving(r, path[1..], a);
    }
  }
}
