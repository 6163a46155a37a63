/** The convex hull of the bundled d3 (`e.geom.hull`): the chain builder `xs` over a
    stack of indices, its cross product `At`, and the driver that joins two chains. */
module Hull {

  datatype Point = Point(x: real, y: real)

  // Positive when the path from a over b to c turns left.
  function Cross(a: Point, b: Point, c: Point): real {
    (b.x - a.x) * (c.y - a.y) - (b.y - a.y) * (c.x - a.x)
  }

  // Sorted by x; points with the same x by rising y, or all by falling y.
  predicate InOrder(p: Point, q: Point, rising: bool) {
    p.x < q.x || (p.x == q.x && if rising then p.y <= q.y else p.y >= q.y)
  }

  predicate Sorted(e: seq<Point>, rising: bool) {
    forall i, j :: 0 <= i < j < |e| ==> InOrder(e[i], e[j], rising)
  }

  // ---------- orientation ----------

  function Det(u: Point, v: Point): real {
    u.x * v.y - u.y * v.x
  }

  predicate Forward(u: Point, rising: bool) {
    0.0 < u.x || (0.0 == u.x && if rising then 0.0 <= u.y else u.y <= 0.0)
  }

  function Minus(p: Point, q: Point): Point {
    Point(p.x - q.x, p.y - q.y)
  }

  // Among directions of one half plane, "not clockwise of" is transitive.
  lemma TurnsChain(u: Point, v: Point, w: Point, rising: bool)
    requires Forward(u, rising) && Forward(v, rising) && Forward(w, rising)
    requires v != Point(0.0, 0.0)
    requires Det(u, v) >= 0.0 && Det(v, w) >= 0.0
    ensures Det(u, w) >= 0.0
  {
    assert v.x * Det(u, w) == w.x * Det(u, v) + u.x * Det(v, w) by { Plucker(u, v, w); }
    if v.x > 0.0 {
      assert w.x * Det(u, v) >= 0.0;
      assert u.x * Det(v, w) >= 0.0;
      Divide(v.x, Det(u, w));
    } else {
      VerticalChain(u, v, w, rising);
    }
  }

  lemma Plucker(u: Point, v: Point, w: Point)
    ensures v.x * Det(u, w) == w.x * Det(u, v) + u.x * Det(v, w)
  {
  }

  lemma Opposite(a: real, b: real)
    requires a > 0.0 && b < 0.0
    ensures a * b < 0.0
  {
  }

  lemma Divide(a: real, b: real)
    requires a > 0.0 && a * b >= 0.0
    ensures b >= 0.0
  {
    if b < 0.0 { Opposite(a, b); }
  }

  lemma VerticalChain(u: Point, v: Point, w: Point, rising: bool)
    requires Forward(u, rising) && Forward(v, rising) && Forward(w, rising)
    requires v != Point(0.0, 0.0) && v.x == 0.0
    requires Det(u, v) >= 0.0 && Det(v, w) >= 0.0
    ensures Det(u, w) >= 0.0
  {
    assert u.x * v.y >= 0.0 && -(v.y * w.x) >= 0.0;
    if rising {
      assert w.x == 0.0 by { if w.x > 0.0 { Opposite(w.x, -v.y); } }
      assert u.x * w.y >= 0.0;
    } else {
      assert u.x == 0.0 by { if u.x > 0.0 { Opposite(u.x, v.y); } }
      assert -(u.y * w.x) >= 0.0;
    }
  }

  lemma StrictTurnsChain(u: Point, v: Point, w: Point, rising: bool)
    requires Forward(u, rising) && Forward(v, rising) && Forward(w, rising)
    requires Det(u, v) > 0.0 && Det(v, w) > 0.0
    ensures Det(u, w) > 0.0
  {
    Plucker(u, v, w);
    TurnsChain(u, v, w, rising);
    if v.x > 0.0 {
      if u.x == 0.0 && w.x == 0.0 {
        if rising { SameSign(v.x, u.y); } else { SameSign(v.x, -w.y); }
      } else if w.x > 0.0 {
        Product(w.x, Det(u, v));
        SameSign(u.x, Det(v, w));
      } else {
        Product(u.x, Det(v, w));
      }
    } else {
      if rising { SameSign(v.y, w.x); } else { SameSign(u.x, -v.y); }
    }
  }

  lemma Product(a: real, b: real)
    requires a > 0.0 && b > 0.0
    ensures a * b > 0.0
  {
  }

  lemma SameSign(a: real, b: real)
    requires a >= 0.0 && b >= 0.0
    ensures a * b >= 0.0
  {
  }

  lemma CrossIsDet(a: Point, b: Point, c: Point)
    ensures Cross(a, b, c) == Det(Minus(b, a), Minus(c, a)) == Det(Minus(b, a), Minus(c, b))
    ensures Cross(a, b, c) == -Det(Minus(c, a), Minus(b, a))
    ensures Cross(b, c, a) == Cross(a, b, c) == Det(Minus(b, a), Minus(c, b))
  {
  }

  // ---------- the chain ----------

  predicate Rising(n: seq<int>, t: nat) {
    && (forall k :: 0 <= k < |n| ==> 0 <= n[k] < t)
    && (forall k, m :: 0 <= k < m < |n| ==> n[k] < n[m])
  }

  // Every three consecutive vertices make a strict left turn.
  predicate StrictlyConvex(e: seq<Point>, n: seq<int>)
    requires Rising(n, |e|)
  {
    forall k {:trigger n[k + 2]} :: 0 <= k < |n| - 2 ==> Cross(e[n[k]], e[n[k + 1]], e[n[k + 2]]) > 0.0
  }

  predicate OnLeft(e: seq<Point>, n: seq<int>, k: nat, q: nat)
    requires Rising(n, |e|) && k + 1 < |n| && q < |e|
  {
    Cross(e[n[k]], e[n[k + 1]], e[q]) >= 0.0
  }

  // Each of the first t points lies on or to the left of every edge.
  predicate Supports(e: seq<Point>, n: seq<int>, t: nat)
    requires Rising(n, |e|) && t <= |e|
  {
    forall k, q {:trigger OnLeft(e, n, k, q)} :: 0 <= k < |n| - 1 && 0 <= q < t ==> OnLeft(e, n, k, q)
  }

  // The lower convex chain of the first t points.
  predicate IsChain(e: seq<Point>, n: seq<int>, t: nat) {
    && 2 <= t <= |e| && 2 <= |n|
    && Rising(n, t) && n[0] == 0 && n[|n| - 1] == t - 1
    && StrictlyConvex(e, n) && Supports(e, n, t)
  }

  lemma SortedForward(e: seq<Point>, rising: bool, i: nat, j: nat)
    requires Sorted(e, rising) && i <= j < |e|
    ensures Forward(Minus(e[j], e[i]), rising)
  {
    if i < j { assert InOrder(e[i], e[j], rising); }
  }

  lemma SortedSqueeze(e: seq<Point>, rising: bool, i: nat, j: nat, k: nat)
    requires Sorted(e, rising) && i <= j <= k < |e| && e[i] == e[k]
    ensures e[j] == e[i]
  {
    if i < j { assert InOrder(e[i], e[j], rising); }
    if j < k { assert InOrder(e[j], e[k], rising); }
  }

  // Seen from the new top a, every point from a on lies left of the line to i.
  predicate Fan(e: seq<Point>, a: nat, i: nat)
    requires a <= i < |e|
  {
    forall q :: a <= q < i ==> Cross(e[a], e[i], e[q]) >= 0.0
  }

  lemma FanStart(e: seq<Point>, i: nat)
    requires 0 < i < |e|
    ensures Fan(e, i - 1, i)
  {
    Degenerate(e[i - 1], e[i]);
  }

  // Popping b, whose line from a passes i on the left, keeps the fan.
  lemma FanAfterPop(e: seq<Point>, rising: bool, a: nat, b: nat, i: nat)
    requires Sorted(e, rising) && a < b < i < |e|
    requires Cross(e[a], e[b], e[i]) <= 0.0
    requires forall q :: 0 <= q < i ==> Cross(e[a], e[b], e[q]) >= 0.0
    requires Fan(e, b, i)
    ensures Fan(e, a, i)
  {
    forall q | a <= q < i ensures Cross(e[a], e[i], e[q]) >= 0.0 {
      if e[a] == e[b] {
        if q < b { SortedSqueeze(e, rising, a, q, b); }
      } else {
        var u, v, w := Minus(e[i], e[a]), Minus(e[b], e[a]), Minus(e[q], e[a]);
        SortedForward(e, rising, a, i);
        SortedForward(e, rising, a, b);
        SortedForward(e, rising, a, q);
        CrossIsDet(e[a], e[b], e[i]);
        CrossIsDet(e[a], e[b], e[q]);
        CrossIsDet(e[a], e[i], e[q]);
        TurnsChain(u, v, w, rising);
      }
    }
  }

  // A strict left turn at b towards i puts every earlier point left of the new edge.
  lemma NewEdgeBehind(e: seq<Point>, rising: bool, a: nat, b: nat, i: nat, q: nat)
    requires Sorted(e, rising) && a < b < i < |e| && q <= b
    requires Cross(e[a], e[b], e[i]) > 0.0 && Cross(e[a], e[b], e[q]) >= 0.0
    ensures Cross(e[b], e[i], e[q]) >= 0.0
  {
    var u, v, w := Minus(e[b], e[q]), Minus(e[b], e[a]), Minus(e[i], e[b]);
    SortedForward(e, rising, q, b);
    SortedForward(e, rising, a, b);
    SortedForward(e, rising, b, i);
    CrossIsDet(e[a], e[b], e[i]);
    assert Det(u, v) == Cross(e[a], e[b], e[q]);
    TurnsChain(u, v, w, rising);
    assert Det(u, w) == Cross(e[b], e[i], e[q]);
  }

  // The new point i lies strictly left of every earlier edge of the chain.
  lemma {:induction false} OldEdgesBehind(e: seq<Point>, rising: bool, n: seq<int>, i: nat, k: nat)
    requires Sorted(e, rising) && i < |e| && Rising(n, i) && StrictlyConvex(e, n)
    requires |n| >= 2 && k < |n| - 1 && Cross(e[n[|n| - 2]], e[n[|n| - 1]], e[i]) > 0.0
    ensures Cross(e[n[k]], e[n[k + 1]], e[i]) > 0.0
    decreases |n| - k
  {
    if k < |n| - 2 {
      OldEdgesBehind(e, rising, n, i, k + 1);
      var a, b, c := n[k], n[k + 1], n[k + 2];
      assert Cross(e[a], e[b], e[c]) > 0.0;
      var u, v, w := Minus(e[b], e[a]), Minus(e[c], e[b]), Minus(e[i], e[c]);
      SortedForward(e, rising, a, b);
      SortedForward(e, rising, b, c);
      SortedForward(e, rising, c, i);
      CrossIsDet(e[a], e[b], e[c]);
      CrossIsDet(e[b], e[c], e[i]);
      TurnsChain(u, v, w, rising);
      assert Cross(e[a], e[b], e[i]) == Det(u, v) + Det(u, w);
    }
  }

  lemma Degenerate(a: Point, b: Point)
    ensures Cross(a, b, b) == Cross(a, b, a) == Cross(a, a, b) == 0.0
  {
  }

  // A stack below the top of a chain keeps what the chain guarantees.
  lemma Prefix(e: seq<Point>, n: seq<int>, t: nat, r: nat)
    requires t <= |e| && Rising(n, t) && StrictlyConvex(e, n) && Supports(e, n, t) && r <= |n|
    ensures Rising(n[..r], t) && StrictlyConvex(e, n[..r]) && Supports(e, n[..r], t)
  {
    var c := n[..r];
    forall k {:trigger c[k + 2]} | 0 <= k < |c| - 2 ensures Cross(e[c[k]], e[c[k + 1]], e[c[k + 2]]) > 0.0 {
      assert n[k + 2] == c[k + 2];
    }
    forall k, q {:trigger OnLeft(e, c, k, q)} | 0 <= k < |c| - 1 && 0 <= q < t ensures OnLeft(e, c, k, q) {
      assert OnLeft(e, n, k, q);
    }
  }

  // One turn of the inner loop.
  lemma Popped(e: seq<Point>, rising: bool, n: seq<int>, i: nat)
    requires Sorted(e, rising) && i < |e| && 2 <= |n| && Rising(n, i) && Supports(e, n, i)
    requires Fan(e, n[|n| - 1], i) && Cross(e[n[|n| - 2]], e[n[|n| - 1]], e[i]) <= 0.0
    ensures Fan(e, n[|n| - 2], i)
  {
    forall q | 0 <= q < i ensures Cross(e[n[|n| - 2]], e[n[|n| - 1]], e[q]) >= 0.0 {
      assert OnLeft(e, n, |n| - 2, q);
    }
    FanAfterPop(e, rising, n[|n| - 2], n[|n| - 1], i);
  }

  // Pushing i on a stack whose top makes a left turn towards i, or that holds only the
  // first point, yields the chain of the points up to i.
  lemma Pushed(e: seq<Point>, rising: bool, n: seq<int>, i: nat)
    requires Sorted(e, rising) && 1 <= i < |e| && 1 <= |n| && Rising(n, i) && n[0] == 0
    requires StrictlyConvex(e, n) && Supports(e, n, i) && Fan(e, n[|n| - 1], i)
    requires |n| == 1 || Cross(e[n[|n| - 2]], e[n[|n| - 1]], e[i]) > 0.0
    ensures IsChain(e, n + [i], i + 1)
  {
    var c, top := n + [i], n[|n| - 1];
    assert Rising(c, i + 1);
    forall k {:trigger c[k + 2]} | 0 <= k < |c| - 2 ensures Cross(e[c[k]], e[c[k + 1]], e[c[k + 2]]) > 0.0 {
      if k + 2 < |n| { assert n[k + 2] == c[k + 2]; }
    }
    forall k, q {:trigger OnLeft(e, c, k, q)} | 0 <= k < |c| - 1 && 0 <= q < i + 1 ensures OnLeft(e, c, k, q) {
      if k < |n| - 1 {
        if q < i { assert OnLeft(e, n, k, q); } else { OldEdgesBehind(e, rising, n, i, k); }
      } else if q == i {
        Degenerate(e[top], e[i]);
      } else {
        if q < top {
          assert |n| > 1;
          assert OnLeft(e, n, |n| - 2, q);
          NewEdgeBehind(e, rising, n[|n| - 2], top, i, q);
        }
      }
    }
  }

  lemma Overwritten(n: seq<int>, m: nat, r: nat, i: int)
    requires r <= m <= |n|
    ensures (if r < |n| then n[r := i] else n + [i])[..r + 1] == n[..m][..r] + [i]
  {
  }

  // `xs`: the chain of the points of e, on a stack of indices.
  method Chain(e: seq<Point>, ghost rising: bool) returns (chain: seq<int>)
    requires |e| >= 2 && Sorted(e, rising)
    ensures IsChain(e, chain, |e|)
  {
    hide Cross, OnLeft, Supports, StrictlyConvex, Sorted, InOrder, Fan;
    var t, r := |e|, 2;
    var n: seq<int> := [0, 1];
    TwoPoints(e, n[..r]);
    for i := 2 to t
      invariant 2 <= r <= |n| && IsChain(e, n[..r], i)
    {
      ghost var before := n[..r];
      FanStart(e, i);
      while r > 1 && Cross(e[n[r - 2]], e[n[r - 1]], e[i]) <= 0.0
        invariant 1 <= r <= |before|
        invariant Fan(e, n[r - 1], i)
      {
        Prefix(e, before, i, r);
        Popped(e, rising, before[..r], i);
        r := r - 1;
      }
      Prefix(e, before, i, r);
      Pushed(e, rising, before[..r], i);
      Overwritten(n, |before|, r, i);
      n := if r < |n| then n[r := i] else n + [i];
      r := r + 1;
    }
    return n[..r];
  }

  lemma TwoPoints(e: seq<Point>, n: seq<int>)
    requires |e| >= 2 && n == [0, 1]
    ensures IsChain(e, n, 2)
  {
    Degenerate(e[0], e[1]);
    forall k, q {:trigger OnLeft(e, n, k, q)} | 0 <= k < |n| - 1 && 0 <= q < 2 ensures OnLeft(e, n, k, q) {
      assert k == 0;
    }
  }

  // ---------- the driver ----------

  // A point with its place in the input.
  datatype Tagged = Tagged(p: Point, index: nat)

  predicate Sorting(a: Tagged, b: Tagged) {
    InOrder(a.p, b.p, true)
  }

  predicate TagsSorted(u: seq<Tagged>) {
    forall i, j :: 0 <= i < j < |u| ==> Sorting(u[i], u[j])
  }

  function Put(a: Tagged, u: seq<Tagged>): (r: seq<Tagged>) {
    if u == [] || Sorting(a, u[0]) then [a] + u else [u[0]] + Put(a, u[1..])
  }

  lemma {:induction false} PutSorts(a: Tagged, u: seq<Tagged>)
    requires TagsSorted(u)
    ensures TagsSorted(Put(a, u)) && multiset(Put(a, u)) == multiset(u) + multiset{a}
  {
    if u == [] || Sorting(a, u[0]) {
      assert multiset([a] + u) == multiset(u) + multiset{a};
    } else {
      PutSorts(a, u[1..]);
      assert u == [u[0]] + u[1..];
      PutHead(u[0], a, u[1..], Put(a, u[1..]));
    }
  }

  lemma PutHead(b: Tagged, a: Tagged, u: seq<Tagged>, r: seq<Tagged>)
    requires TagsSorted([b] + u) && !Sorting(a, b) && TagsSorted(r) && multiset(r) == multiset(u) + multiset{a}
    ensures TagsSorted([b] + r)
  {
    forall i | 0 <= i < |r| ensures Sorting(b, r[i]) {
      assert r[i] in multiset(r);
      if r[i] != a {
        assert r[i] in u;
        var k :| 0 <= k < |u| && u[k] == r[i];
        assert ([b] + u)[0] == b && ([b] + u)[k + 1] == r[i];
      }
    }
  }

  // The library sort by x, then y.
  function SortTags(u: seq<Tagged>): (r: seq<Tagged>) {
    if u == [] then [] else Put(u[0], SortTags(u[1..]))
  }

  lemma {:induction false} SortTagsSorts(u: seq<Tagged>)
    ensures TagsSorted(SortTags(u)) && multiset(SortTags(u)) == multiset(u)
  {
    if u != [] {
      assert u == [u[0]] + u[1..];
      SortTagsSorts(u[1..]);
      PutSorts(u[0], SortTags(u[1..]));
    }
  }

  function Tags(e: seq<Point>): (u: seq<Tagged>)
    ensures |u| == |e|
  {
    seq(|e|, i requires 0 <= i < |e| => Tagged(e[i], i))
  }

  function Points(u: seq<Tagged>): (e: seq<Point>)
    ensures |e| == |u|
  {
    seq(|u|, i requires 0 <= i < |u| => u[i].p)
  }

  // The points reflected in the x axis.
  function Mirrored(e: seq<Point>): (a: seq<Point>)
    ensures |a| == |e|
  {
    seq(|e|, i requires 0 <= i < |e| => Point(e[i].x, -e[i].y))
  }

  function Next(k: nat, n: nat): (m: nat)
    requires k < n
    ensures m < n
  {
    if k + 1 == n then 0 else k + 1
  }

  lemma CrossSwap(a: Point, b: Point, c: Point)
    ensures Cross(b, a, c) == Cross(c, b, a) == Cross(a, c, b) == -Cross(a, b, c)
    ensures Cross(b, c, a) == Cross(a, b, c)
  {
  }

  lemma CrossMirrored(e: seq<Point>, a: nat, b: nat, c: nat)
    requires a < |e| && b < |e| && c < |e|
    ensures var m := Mirrored(e); Cross(m[a], m[b], m[c]) == -Cross(e[a], e[b], e[c])
  {
  }

  // Every vertex of a chain lies strictly to the right of each chord from the first vertex over it.
  lemma {:induction false} Chord(e: seq<Point>, rising: bool, n: seq<int>, t: nat, j: nat, k: nat)
    requires Sorted(e, rising) && IsChain(e, n, t) && 0 < j < k < |n|
    ensures Cross(e[n[0]], e[n[j]], e[n[k]]) > 0.0
    decreases j
  {
    EdgeBehind(e, rising, n, t, j, k);
    if j > 1 {
      Chord(e, rising, n, t, j - 1, j);
      var o, a, b, c := e[n[0]], e[n[j - 1]], e[n[j]], e[n[k]];
      var u, v, w := Minus(a, o), Minus(b, a), Minus(c, b);
      SortedForward(e, rising, n[0], n[j - 1]);
      SortedForward(e, rising, n[j - 1], n[j]);
      SortedForward(e, rising, n[j], n[k]);
      CrossIsDet(o, a, b);
      CrossIsDet(a, b, c);
      StrictTurnsChain(u, v, w, rising);
      CrossAdds(o, a, b, c);
    }
  }

  lemma CrossAdds(o: Point, a: Point, b: Point, c: Point)
    ensures Cross(o, b, c) == Det(Minus(a, o), Minus(c, b)) + Det(Minus(b, a), Minus(c, b))
  {
  }

  // A later vertex lies strictly left of an earlier edge.
  lemma EdgeBehind(e: seq<Point>, rising: bool, n: seq<int>, t: nat, j: nat, k: nat)
    requires Sorted(e, rising) && IsChain(e, n, t) && 0 < j < k < |n|
    ensures Cross(e[n[j - 1]], e[n[j]], e[n[k]]) > 0.0
  {
    Prefix(e, n, t, k);
    var h := k - 2;
    assert Cross(e[n[h]], e[n[h + 1]], e[n[h + 2]]) > 0.0;
    assert Rising(n[..k], n[k]);
    OldEdgesBehind(e, rising, n[..k], n[k], j - 1);
  }

  // ---------- the polygon ----------

  // The closed walk: the lower chain from right to left, then the upper chain from left to right.
  function Walk(f: seq<int>, l: seq<int>, k: nat): int
    requires |f| >= 2 && |l| >= 2 && k < |f| + |l| - 1
  {
    if k < |f| then f[|f| - 1 - k] else l[k - |f| + 1]
  }

  // f is the chain of the sorted points e, l the chain of their mirror image.
  predicate TwoChains(e: seq<Point>, f: seq<int>, l: seq<int>) {
    Sorted(e, true) && Sorted(Mirrored(e), false) && IsChain(e, f, |e|) && IsChain(Mirrored(e), l, |e|)
  }

  lemma WalkInside(e: seq<Point>, f: seq<int>, l: seq<int>, k: nat)
    requires TwoChains(e, f, l) && k < |f| + |l| - 1
    ensures 0 <= Walk(f, l, k) < |e|
  {
  }

  // No point lies to the left of an edge of the walk, which runs clockwise.
  lemma WalkEncloses(e: seq<Point>, f: seq<int>, l: seq<int>, k: nat, q: nat)
    requires TwoChains(e, f, l) && k < |f| + |l| - 2 && q < |e|
    ensures 0 <= Walk(f, l, k) < |e| && 0 <= Walk(f, l, k + 1) < |e|
    ensures Cross(e[Walk(f, l, k)], e[Walk(f, l, k + 1)], e[q]) <= 0.0
  {
    if k < |f| - 1 {
      var j := |f| - 2 - k;
      assert OnLeft(e, f, j, q);
      CrossSwap(e[f[j]], e[f[j + 1]], e[q]);
    } else {
      var j := k - |f| + 1;
      assert OnLeft(Mirrored(e), l, j, q);
      CrossMirrored(e, l[j], l[j + 1], q);
    }
  }

  // An inner vertex of the lower chain lies strictly below the line between the ends,
  // one of the upper chain strictly above it.
  lemma InnerVertices(e: seq<Point>, f: seq<int>, l: seq<int>)
    requires TwoChains(e, f, l)
    ensures forall j :: 0 < j < |f| - 1 ==> Cross(e[0], e[f[j]], e[|e| - 1]) > 0.0
    ensures forall j :: 0 < j < |l| - 1 ==> Cross(e[0], e[l[j]], e[|e| - 1]) < 0.0
  {
    forall j | 0 < j < |f| - 1 ensures Cross(e[0], e[f[j]], e[|e| - 1]) > 0.0 {
      Chord(e, true, f, |e|, j, |f| - 1);
    }
    forall j | 0 < j < |l| - 1 ensures Cross(e[0], e[l[j]], e[|e| - 1]) < 0.0 {
      Chord(Mirrored(e), false, l, |e|, j, |l| - 1);
      CrossMirrored(e, 0, l[j], |e| - 1);
    }
  }

  // The walk visits no vertex twice before it closes.
  lemma WalkDistinct(e: seq<Point>, f: seq<int>, l: seq<int>, k: nat, m: nat)
    requires TwoChains(e, f, l) && k < m < |f| + |l| - 2
    ensures Walk(f, l, k) != Walk(f, l, m)
  {
    InnerVertices(e, f, l);
    if k < |f| <= m {
      var j := m - |f| + 1;
      if k == 0 || k == |f| - 1 {
        assert l[0] < l[j] < l[|l| - 1];
      } else {
        assert Cross(e[0], e[f[|f| - 1 - k]], e[|e| - 1]) > 0.0;
      }
    }
  }

  // At each vertex but the two ends the walk turns strictly right.
  lemma WalkTurns(e: seq<Point>, f: seq<int>, l: seq<int>, k: nat)
    requires TwoChains(e, f, l) && k + 2 < |f| + |l| - 1 && k + 2 != |f|
    ensures 0 <= Walk(f, l, k) < |e| && 0 <= Walk(f, l, k + 1) < |e| && 0 <= Walk(f, l, k + 2) < |e|
    ensures Cross(e[Walk(f, l, k)], e[Walk(f, l, k + 1)], e[Walk(f, l, k + 2)]) < 0.0
  {
    if k + 2 < |f| {
      var j := |f| - 3 - k;
      assert Cross(e[f[j]], e[f[j + 1]], e[f[j + 2]]) > 0.0;
      CrossSwap(e[f[j]], e[f[j + 1]], e[f[j + 2]]);
    } else {
      var j := k - |f| + 1;
      var m := Mirrored(e);
      assert Cross(m[l[j]], m[l[j + 1]], m[l[j + 2]]) > 0.0;
      CrossMirrored(e, l[j], l[j + 1], l[j + 2]);
    }
  }

  // The turn at the leftmost point.
  lemma TurnAtFirst(e: seq<Point>, f: seq<int>, l: seq<int>)
    requires TwoChains(e, f, l) && |f| + |l| > 4
    ensures Cross(e[f[1]], e[0], e[l[1]]) < 0.0
  {
    InnerVertices(e, f, l);
    var o, z, a, b := e[0], e[|e| - 1], e[f[1]], e[l[1]];
    CrossSwap(o, a, b);
    CrossSwap(o, b, z);
    CrossSwap(o, a, z);
    if |f| > 2 && |l| > 2 {
      SortedForward(e, true, 0, f[1]);
      SortedForward(e, true, 0, |e| - 1);
      SortedForward(e, true, 0, l[1]);
      CrossIsDet(o, a, z);
      CrossIsDet(o, z, b);
      CrossIsDet(o, a, b);
      StrictTurnsChain(Minus(a, o), Minus(z, o), Minus(b, o), true);
    }
  }

  // The turn at the rightmost point.
  lemma TurnAtLast(e: seq<Point>, f: seq<int>, l: seq<int>)
    requires TwoChains(e, f, l) && |f| + |l| > 4
    ensures Cross(e[l[|l| - 2]], e[|e| - 1], e[f[|f| - 2]]) < 0.0
  {
    InnerVertices(e, f, l);
    var o, z, a, b := e[0], e[|e| - 1], e[f[|f| - 2]], e[l[|l| - 2]];
    CrossSwap(b, z, a);
    CrossSwap(o, b, z);
    CrossSwap(o, a, z);
    if |f| > 2 && |l| > 2 {
      SortedForward(e, true, f[|f| - 2], |e| - 1);
      SortedForward(e, true, 0, |e| - 1);
      SortedForward(e, true, l[|l| - 2], |e| - 1);
      assert Det(Minus(z, b), Minus(z, o)) == -Cross(o, b, z);
      assert Det(Minus(z, o), Minus(z, a)) == Cross(o, a, z);
      assert Det(Minus(z, b), Minus(z, a)) == -Cross(b, z, a);
      StrictTurnsChain(Minus(z, b), Minus(z, o), Minus(z, a), true);
    }
  }

  // u lists every point of e once, with its place.
  predicate Faithful(e: seq<Point>, u: seq<Tagged>) {
    && |u| == |e|
    && (forall i :: 0 <= i < |u| ==> u[i].index < |e| && e[u[i].index] == u[i].p)
    && (forall i, j :: 0 <= i < j < |u| ==> u[i].index != u[j].index)
    && (forall q :: 0 <= q < |e| ==> Tagged(e[q], q) in u)
  }

  lemma SortIsFaithful(e: seq<Point>)
    ensures Faithful(e, SortTags(Tags(e))) && TagsSorted(SortTags(Tags(e)))
  {
    hide TagsSorted, SortTags;
    var t, u := Tags(e), SortTags(Tags(e));
    SortTagsSorts(t);
    assert |multiset(t)| == |multiset(u)|;
    forall i | 0 <= i < |u| ensures u[i].index < |e| && e[u[i].index] == u[i].p {
      assert u[i] in multiset(u);
    }
    forall i, j | 0 <= i < j < |u| ensures u[i].index != u[j].index {
      OnceInside(t, u[i]);
      if u[i] == u[j] { TwiceInside(u, i, j); }
    }
    forall q | 0 <= q < |e| ensures Tagged(e[q], q) in u {
      assert t[q] in multiset(t);
    }
  }

  lemma TwiceInside(u: seq<Tagged>, i: nat, j: nat)
    requires i < j < |u| && u[i] == u[j]
    ensures multiset(u)[u[i]] >= 2
  {
    assert u == u[..j] + [u[j]] + u[j + 1..];
    assert u[..j][i] == u[i];
    assert u[i] in multiset(u[..j]);
  }

  lemma {:induction false} OnceInside(t: seq<Tagged>, a: Tagged)
    requires forall i, j :: 0 <= i < j < |t| ==> t[i] != t[j]
    ensures multiset(t)[a] <= 1
  {
    if t != [] {
      assert t == [t[0]] + t[1..];
      OnceInside(t[1..], a);
      if a == t[0] { assert a !in t[1..]; }
    }
  }

  lemma BothSorted(u: seq<Tagged>)
    requires TagsSorted(u)
    ensures Sorted(Points(u), true) && Sorted(Mirrored(Points(u)), false)
  {
    forall i, j | 0 <= i < j < |u| ensures InOrder(Points(u)[i], Points(u)[j], true) {
      assert Sorting(u[i], u[j]);
    }
    forall i, j | 0 <= i < j < |u| ensures InOrder(Mirrored(Points(u))[i], Mirrored(Points(u))[j], false) {
      assert Sorting(u[i], u[j]);
    }
  }

  // p names, by their places in e, the corners of a polygon run clockwise.
  predicate Corners(e: seq<Point>, p: seq<int>) {
    && 2 <= |p|
    && (forall k :: 0 <= k < |p| ==> 0 <= p[k] < |e|)
    && (forall k, m :: 0 <= k < m < |p| ==> p[k] != p[m])
  }

  // No input point lies outside an edge.
  predicate Encloses(e: seq<Point>, p: seq<int>)
    requires Corners(e, p)
  {
    forall k, q :: 0 <= k < |p| && 0 <= q < |e| ==> Cross(e[p[k]], e[p[Next(k, |p|)]], e[q]) <= 0.0
  }

  // Every corner is a strict right turn.
  predicate TurnsRight(e: seq<Point>, p: seq<int>)
    requires Corners(e, p)
  {
    forall k :: 0 <= k < |p| ==>
      Cross(e[p[k]], e[p[Next(k, |p|)]], e[p[Next(Next(k, |p|), |p|)]]) < 0.0
  }

  // p reads the walk of the two chains off the sorted points.
  predicate Reads(e: seq<Point>, u: seq<Tagged>, f: seq<int>, l: seq<int>, p: seq<int>) {
    && Faithful(e, u) && TwoChains(Points(u), f, l) && |p| == |f| + |l| - 2
    && (forall k :: 0 <= k < |p| ==> 0 <= Walk(f, l, k) < |u| && p[k] == u[Walk(f, l, k)].index)
  }

  // The point at each corner is the point of the walk, and the walk closes.
  lemma CornerIs(e: seq<Point>, u: seq<Tagged>, f: seq<int>, l: seq<int>, p: seq<int>, k: nat)
    requires Reads(e, u, f, l, p) && k < |p|
    ensures 0 <= p[k] < |e| && 0 <= Walk(f, l, k) < |e| && e[p[k]] == Points(u)[Walk(f, l, k)]
    ensures Walk(f, l, k + 1) == Walk(f, l, Next(k, |p|))
  {
  }

  lemma PolygonDistinct(e: seq<Point>, u: seq<Tagged>, f: seq<int>, l: seq<int>, p: seq<int>)
    requires Reads(e, u, f, l, p)
    ensures Corners(e, p)
  {
    hide IsChain, Sorted;
    forall k | 0 <= k < |p| ensures 0 <= p[k] < |e| { CornerIs(e, u, f, l, p, k); }
    forall k, m | 0 <= k < m < |p| ensures p[k] != p[m] {
      WalkDistinct(Points(u), f, l, k, m);
    }
    WalkLength(Points(u), f, l);
  }

  lemma WalkLength(e: seq<Point>, f: seq<int>, l: seq<int>)
    requires TwoChains(e, f, l)
    ensures |f| >= 2 && |l| >= 2
  {
  }

  lemma PolygonEncloses(e: seq<Point>, u: seq<Tagged>, f: seq<int>, l: seq<int>, p: seq<int>)
    requires Reads(e, u, f, l, p) && Corners(e, p)
    ensures Encloses(e, p)
  {
    hide IsChain, Sorted, Cross;
    forall k, q | 0 <= k < |p| && 0 <= q < |e| ensures Cross(e[p[k]], e[p[Next(k, |p|)]], e[q]) <= 0.0 {
      var i :| 0 <= i < |u| && u[i] == Tagged(e[q], q);
      CornerIs(e, u, f, l, p, k);
      CornerIs(e, u, f, l, p, Next(k, |p|));
      WalkEncloses(Points(u), f, l, k, i);
    }
  }

  // Every corner of the closed walk, the two ends included, is a strict right turn.
  lemma TurnOfWalk(e: seq<Point>, f: seq<int>, l: seq<int>, k: nat)
    requires TwoChains(e, f, l) && |f| + |l| > 4 && k < |f| + |l| - 2
    ensures var m := if k + 1 == |f| + |l| - 2 then 1 else k + 2;
      && 0 <= Walk(f, l, k) < |e| && 0 <= Walk(f, l, k + 1) < |e| && 0 <= Walk(f, l, m) < |e|
      && Cross(e[Walk(f, l, k)], e[Walk(f, l, k + 1)], e[Walk(f, l, m)]) < 0.0
  {
    hide IsChain, Sorted, Cross;
    EndsOfWalk(e, f, l);
    WalkInside(e, f, l, k);
    WalkInside(e, f, l, k + 1);
    WalkInside(e, f, l, if k + 1 == |f| + |l| - 2 then 1 else k + 2);
    if k + 2 == |f| {
      TurnAtFirst(e, f, l);
    } else if k + 1 < |f| + |l| - 2 {
      WalkTurns(e, f, l, k);
    } else {
      TurnAtLast(e, f, l);
    }
  }

  lemma PolygonTurns(e: seq<Point>, u: seq<Tagged>, f: seq<int>, l: seq<int>, p: seq<int>)
    requires Reads(e, u, f, l, p) && Corners(e, p) && |p| > 2
    ensures TurnsRight(e, p)
  {
    hide IsChain, Sorted, Cross, TwoChains, Faithful, Walk, Points;
    forall k | 0 <= k < |p| ensures Cross(e[p[k]], e[p[Next(k, |p|)]], e[p[Next(Next(k, |p|), |p|)]]) < 0.0 {
      var n := Next(k, |p|);
      CornerIs(e, u, f, l, p, k);
      CornerIs(e, u, f, l, p, n);
      CornerIs(e, u, f, l, p, Next(n, |p|));
      TurnOfWalk(Points(u), f, l, k);
    }
  }

  lemma EndsOfWalk(e: seq<Point>, f: seq<int>, l: seq<int>)
    requires TwoChains(e, f, l)
    ensures var n := |f| + |l| - 2;
      && Walk(f, l, 0) == Walk(f, l, n) == |e| - 1 && Walk(f, l, 1) == f[|f| - 2] && Walk(f, l, |f| - 2) == f[1]
      && |f| >= 2 && |l| >= 2 && Walk(f, l, |f| - 1) == 0 && Walk(f, l, |f|) == l[1] && Walk(f, l, n - 1) == l[|l| - 2]
  {
  }

  lemma ChainRange(e: seq<Point>, f: seq<int>)
    requires IsChain(e, f, |e|)
    ensures |f| >= 2 && f[0] == 0 && f[|f| - 1] == |e| - 1 && forall k :: 0 <= k < |f| ==> 0 <= f[k] < |e|
  {
  }

  // Some three points do not lie on one line.
  ghost predicate Spread(e: seq<Point>) {
    exists i, j, k :: 0 <= i < |e| && 0 <= j < |e| && 0 <= k < |e| && Cross(e[i], e[j], e[k]) != 0.0
  }

  // The two corners are the ends of a segment, possibly a single point, on which all points lie.
  predicate Segment(e: seq<Point>, p: seq<int>)
    requires Corners(e, p) && |p| == 2
  {
    forall q :: 0 <= q < |e| ==>
      Cross(e[p[1]], e[p[0]], e[q]) == 0.0 && InOrder(e[p[1]], e[q], true) && InOrder(e[q], e[p[0]], true)
  }

  // Points on the line from a to z, which differ, lie on one line.
  lemma OnOneLine(a: Point, z: Point, b: Point, c: Point, d: Point)
    requires a != z && Cross(a, z, b) == Cross(a, z, c) == Cross(a, z, d) == 0.0
    ensures Cross(b, c, d) == 0.0
  {
    var v, u, w := Minus(z, a), Minus(c, b), Minus(d, b);
    AlongDifference(a, z, b, c);
    AlongDifference(a, z, b, d);
    Parallel(v, u, w);
    CrossIsDet(b, c, d);
  }

  lemma AlongDifference(a: Point, z: Point, b: Point, c: Point)
    requires Cross(a, z, b) == Cross(a, z, c) == 0.0
    ensures Det(Minus(z, a), Minus(c, b)) == 0.0
  {
    assert Det(Minus(z, a), Minus(c, b)) == Cross(a, z, c) - Cross(a, z, b);
  }

  lemma Parallel(v: Point, u: Point, w: Point)
    requires v != Point(0.0, 0.0) && Det(v, u) == 0.0 && Det(v, w) == 0.0
    ensures Det(u, w) == 0.0
  {
    assert v.x * Det(u, w) == u.x * Det(v, w) - w.x * Det(v, u);
    assert v.y * Det(u, w) == u.y * Det(v, w) - w.y * Det(v, u);
    if v.x != 0.0 { NoFactor(v.x, Det(u, w)); } else { NoFactor(v.y, Det(u, w)); }
  }

  lemma NoFactor(x: real, y: real)
    requires x != 0.0 && x * y == 0.0
    ensures y == 0.0
  {
  }

  // Two chains without inner vertices: every point lies on the line through the ends.
  lemma FlatChains(e: seq<Point>, f: seq<int>, l: seq<int>, q: nat)
    requires TwoChains(e, f, l) && |f| == |l| == 2 && q < |e|
    ensures f[0] == 0 && f[1] == |e| - 1
    ensures Cross(e[0], e[|e| - 1], e[q]) == 0.0 && InOrder(e[0], e[q], true) && InOrder(e[q], e[|e| - 1], true)
  {
    WalkEncloses(e, f, l, 0, q);
    WalkEncloses(e, f, l, 1, q);
    CrossSwap(e[0], e[|e| - 1], e[q]);
    Ends(e, q);
  }

  lemma Ends(e: seq<Point>, q: nat)
    requires Sorted(e, true) && q < |e|
    ensures InOrder(e[0], e[q], true) && InOrder(e[q], e[|e| - 1], true)
  {
  }

  // The polygon has two corners only if they are the ends of a segment of all points.
  lemma PolygonFlat(e: seq<Point>, u: seq<Tagged>, f: seq<int>, l: seq<int>, p: seq<int>)
    requires Reads(e, u, f, l, p) && Corners(e, p) && |p| == 2
    ensures Segment(e, p) && !Spread(e)
  {
    hide IsChain, Sorted, Cross, InOrder, TwoChains;
    var s := Points(u);
    WalkLength(s, f, l);
    EndsOfWalk(s, f, l);
    CornerIs(e, u, f, l, p, 0);
    CornerIs(e, u, f, l, p, 1);
    forall q | 0 <= q < |e|
      ensures Cross(e[p[1]], e[p[0]], e[q]) == 0.0 && InOrder(e[p[1]], e[q], true) && InOrder(e[q], e[p[0]], true)
    {
      var i := PlaceOf(e, u, q);
      FlatChains(s, f, l, i);
    }
    forall i, j, k | 0 <= i < |e| && 0 <= j < |e| && 0 <= k < |e| ensures Cross(e[i], e[j], e[k]) == 0.0 {
      var a, z := e[p[1]], e[p[0]];
      if a == z {
        Squeezed(a, e[i]);
        Squeezed(a, e[j]);
        Degenerate(e[i], e[k]);
      } else {
        OnOneLine(a, z, e[i], e[j], e[k]);
      }
    }
  }

  lemma Squeezed(a: Point, b: Point)
    requires InOrder(a, b, true) && InOrder(b, a, true)
    ensures a == b
  {
  }

  // Where the point e[q] stands among the sorted points.
  lemma PlaceOf(e: seq<Point>, u: seq<Tagged>, q: nat) returns (i: nat)
    requires Faithful(e, u) && q < |e|
    ensures i < |u| && Points(u)[i] == e[q]
  {
    i :| i < |u| && u[i] == Tagged(e[q], q);
  }

  lemma TurnSpreads(e: seq<Point>, p: seq<int>)
    requires Corners(e, p) && TurnsRight(e, p)
    ensures Spread(e)
  {
    assert Cross(e[p[0]], e[p[Next(0, |p|)]], e[p[Next(Next(0, |p|), |p|)]]) < 0.0;
  }

  // `e.geom.hull`: the places in e of the corners of the convex hull. Points that are not all
  // on one line have a strictly convex polygon around them, others a segment.
  method Hull(e: seq<Point>) returns (p: seq<int>)
    ensures |e| < 3 ==> p == []
    ensures |e| >= 3 ==> Corners(e, p) && Encloses(e, p) && (|p| > 2 <==> Spread(e))
    ensures |e| >= 3 ==> if |p| > 2 then TurnsRight(e, p) else Segment(e, p)
  {
    hide IsChain, Sorted, Cross, TagsSorted, SortTags, Encloses, TurnsRight, Spread, Segment;
    if |e| < 3 { return []; }
    var u := SortTags(Tags(e));
    SortIsFaithful(e);
    BothSorted(u);
    var f := Chain(Points(u), true);
    var l := Chain(Mirrored(Points(u)), false);
    ChainRange(Points(u), f);
    ChainRange(Mirrored(Points(u)), l);
    var c := if l[0] == f[0] then 1 else 0;
    var h := if l[|l| - 1] == f[|f| - 1] then 1 else 0;
    p := [];
    var s := |f| - 1;
    while s >= 0
      invariant -1 <= s < |f| && |p| == |f| - 1 - s
      invariant forall k :: 0 <= k < |p| ==> p[k] == u[Walk(f, l, k)].index
    {
      p := p + [u[f[s]].index];
      s := s - 1;
    }
    s := c;
    while s < |l| - h
      invariant 1 <= s <= |l| - 1 && |p| == |f| + s - 1
      invariant forall k :: 0 <= k < |p| ==> p[k] == u[Walk(f, l, k)].index
    {
      p := p + [u[l[s]].index];
      s := s + 1;
    }
    PolygonDistinct(e, u, f, l, p);
    PolygonEncloses(e, u, f, l, p);
    if |p| > 2 {
      PolygonTurns(e, u, f, l, p);
      TurnSpreads(e, p);
    } else {
      PolygonFlat(e, u, f, l, p);
    }
  }
}
