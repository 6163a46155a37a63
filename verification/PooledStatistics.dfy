/** Pooled mean and standard deviation of `tools/gen_json_xtractor.py`: groups of latencies,
    each known only by its standard deviation, mean and size, are folded into one. Values
    are exact reals and the square root is a parameter with its defining law. */
module PooledStatistics {

  // ((s, mx), n): standard deviation, mean and number of samples.
  datatype Group = Group(s: real, mx: real, n: nat) {
    function N(): real { n as real }

    // The sum of the samples and of their squares, as the group's figures give them.
    function Sum(): real { N() * mx }

    function Squares(): real { (N() - 1.0) * (s * s) + N() * (mx * mx) }
  }

  // What Python raises otherwise.
  datatype Outcome<T> = Ok(value: T) | ZeroDivision | MathDomain | EmptyReduce

  // ---------- the code ----------

  // `combined_mean`
  function CombinedMean(mx1: real, n1: nat, mx2: real, n2: nat): Outcome<(real, nat)> {
    if n1 + n2 == 0 then ZeroDivision
    else Ok(((n1 as real * mx1 + n2 as real * mx2) / (n1 + n2) as real, n1 + n2))
  }

  function Variance(qc: real, nc: real, mxc: real): real
    requires nc != 1.0
  {
    (qc - nc * (mxc * mxc)) / (nc - 1.0)
  }

  // `combined_std_dev`
  function CombinedStdDev(a: Group, b: Group, sqrt: real -> real): Outcome<Group> {
    match CombinedMean(a.mx, a.n, b.mx, b.n)
    case Ok((mxc, nc)) =>
      if nc == 1 then ZeroDivision
      else
        var v := Variance(a.Squares() + b.Squares(), nc as real, mxc);
        if v < 0.0 then MathDomain else Ok(Group(sqrt(v), mxc, nc))
    case ZeroDivision => ZeroDivision
    case MathDomain => MathDomain
    case EmptyReduce => EmptyReduce
  }

  // `functools.reduce` with `combined_mean`, as `apply_reductor` does for clat_ms.
  function FoldMean(gs: seq<Group>): Outcome<(real, nat)> {
    if gs == [] then EmptyReduce
    else if |gs| == 1 then Ok((gs[0].mx, gs[0].n))
    else
      var g := gs[|gs| - 1];
      match FoldMean(gs[..|gs| - 1])
      case Ok((mx, n)) => CombinedMean(mx, n, g.mx, g.n)
      case ZeroDivision => ZeroDivision
      case MathDomain => MathDomain
      case EmptyReduce => EmptyReduce
  }

  // The same with `combined_std_dev`, for clat_stdev.
  function Fold(gs: seq<Group>, sqrt: real -> real): Outcome<Group> {
    if gs == [] then EmptyReduce
    else if |gs| == 1 then Ok(gs[0])
    else
      match Fold(gs[..|gs| - 1], sqrt)
      case Ok(g) => CombinedStdDev(g, gs[|gs| - 1], sqrt)
      case ZeroDivision => ZeroDivision
      case MathDomain => MathDomain
      case EmptyReduce => EmptyReduce
  }

  ghost predicate IsSqrt(sqrt: real -> real) {
    forall x :: x >= 0.0 ==> sqrt(x) >= 0.0 && sqrt(x) * sqrt(x) == x
  }

  // ---------- two groups ----------

  // A group without samples has no deviation.
  predicate Sound(g: Group) {
    g.s >= 0.0 && (g.n == 0 ==> g.s == 0.0)
  }

  lemma Quotient(x: real, d: real)
    requires d != 0.0
    ensures x / d * d == x
  {
  }

  lemma NoLess(x: real, y: real)
    requires x >= 0.0 && y >= 0.0
    ensures x * y >= 0.0
  {
  }

  // The part of the squares that the combined mean does not account for: what each group
  // has within itself, and what the distance of the two means adds.
  lemma Remainder(n: real, m: real, x: real, y: real, c: real)
    requires n + m != 0.0 && c * (n + m) == n * x + m * y
    ensures (n * (x * x) + m * (y * y) - (n + m) * (c * c)) * (n + m) == n * m * ((x - y) * (x - y))
  {
    var t := n + m;
    assert (t * (c * c)) * t == (c * t) * (c * t);
    var p, q := n * x, m * y;
    assert (c * t) * (c * t) == p * p + 2.0 * (p * q) + q * q;
    Expand(n, m, x, y);
  }

  lemma Expand(n: real, m: real, x: real, y: real)
    ensures (n * (x * x) + m * (y * y)) * (n + m)
         - ((n * x) * (n * x) + 2.0 * ((n * x) * (m * y)) + (m * y) * (m * y)) == n * m * ((x - y) * (x - y))
  {
  }

  // What is left under the root of two sound groups is not negative.
  lemma NotNegative(n: real, m: real, x: real, y: real, c: real, u: real, w: real)
    requires n >= 0.0 && m >= 0.0 && n + m > 0.0 && c * (n + m) == n * x + m * y
    requires u >= 0.0 && w >= 0.0
    ensures u + n * (x * x) + (w + m * (y * y)) - (n + m) * (c * c) >= 0.0
  {
    var between := n * (x * x) + m * (y * y) - (n + m) * (c * c);
    Remainder(n, m, x, y, c);
    NoLess(n, m);
    Square(x - y);
    NoLess(n * m, (x - y) * (x - y));
    if between < 0.0 { NegativeProduct(between, n + m); }
  }

  lemma Square(x: real)
    ensures x * x >= 0.0
  {
  }

  lemma NegativeProduct(x: real, y: real)
    requires x < 0.0 && y > 0.0
    ensures x * y < 0.0
  {
  }

  lemma WithinNotNegative(g: Group)
    requires Sound(g)
    ensures (g.N() - 1.0) * (g.s * g.s) >= 0.0
  {
    Square(g.s);
    if g.n > 0 { NoLess(g.N() - 1.0, g.s * g.s); }
  }

  lemma MeanLaw(a: Group, b: Group)
    requires a.n + b.n > 0
    ensures var r := CombinedMean(a.mx, a.n, b.mx, b.n);
      r.Ok? && r.value.1 == a.n + b.n && r.value.0 * (a.N() + b.N()) == a.Sum() + b.Sum()
  {
    Quotient(a.N() * a.mx + b.N() * b.mx, (a.n + b.n) as real);
  }

  lemma TopNotNegative(a: Group, b: Group, c: real)
    requires Sound(a) && Sound(b) && a.n + b.n > 0 && c * (a.N() + b.N()) == a.Sum() + b.Sum()
    ensures a.Squares() + b.Squares() - (a.N() + b.N()) * (c * c) >= 0.0
  {
    var n, m, u, w := a.N(), b.N(), (a.N() - 1.0) * (a.s * a.s), (b.N() - 1.0) * (b.s * b.s);
    WithinNotNegative(a);
    WithinNotNegative(b);
    NotNegative(n, m, a.mx, b.mx, c, u, w);
    assert a.Squares() == u + n * (a.mx * a.mx) && b.Squares() == w + m * (b.mx * b.mx);
  }

  lemma VarianceLaw(a: Group, b: Group, c: real)
    requires Sound(a) && Sound(b) && a.n + b.n >= 2 && c * (a.N() + b.N()) == a.Sum() + b.Sum()
    ensures var q, n := a.Squares() + b.Squares(), a.N() + b.N();
      Variance(q, n, c) >= 0.0 && Variance(q, n, c) * (n - 1.0) == q - n * (c * c)
  {
    hide Group.Squares, Sound;
    var n := a.N() + b.N();
    TopNotNegative(a, b, c);
    QuotientOf(a.Squares() + b.Squares() - n * (c * c), n - 1.0);
  }

  lemma QuotientOf(x: real, d: real)
    requires d > 0.0 && x >= 0.0
    ensures x / d >= 0.0 && x / d * d == x
  {
    var r := x / d;
    Quotient(x, d);
    if r < 0.0 { NegativeProduct(r, d); }
  }

  // A group from its variance.
  lemma FromVariance(s: real, v: real, c: real, n: nat, q: real)
    requires s * s == v && v * (n as real - 1.0) == q - n as real * (c * c)
    ensures Group(s, c, n).Squares() == q
  {
  }

  // Two sound groups combine exactly when they hold two samples or more; the number, the
  // sum and the sum of squares of the samples then add up.
  lemma CombinedAdds(a: Group, b: Group, sqrt: real -> real)
    requires Sound(a) && Sound(b) && IsSqrt(sqrt)
    ensures var r := CombinedStdDev(a, b, sqrt);
      && (r.Ok? <==> a.n + b.n >= 2)
      && (r.Ok? ==> Sound(r.value) && r.value.n == a.n + b.n
                    && r.value.Sum() == a.Sum() + b.Sum() && r.value.Squares() == a.Squares() + b.Squares())
  {
    hide Variance, CombinedMean, Group.Squares;
    if a.n + b.n == 0 {
      NoMean(a, b);
    } else {
      MeanLaw(a, b);
      if a.n + b.n >= 2 {
        var c, n, q := CombinedMean(a.mx, a.n, b.mx, b.n).value.0, a.n + b.n, a.Squares() + b.Squares();
        VarianceLaw(a, b, c);
        var v := Variance(q, n as real, c);
        assert n as real == a.N() + b.N();
        FromVariance(sqrt(v), v, c, n, q);
      }
    }
  }

  lemma NoMean(a: Group, b: Group)
    requires a.n + b.n == 0
    ensures CombinedMean(a.mx, a.n, b.mx, b.n).ZeroDivision?
  {
  }

  // ---------- any number of groups ----------

  function Count(gs: seq<Group>): nat {
    if gs == [] then 0 else Count(gs[..|gs| - 1]) + gs[|gs| - 1].n
  }

  function Sum(gs: seq<Group>): real {
    if gs == [] then 0.0 else Sum(gs[..|gs| - 1]) + gs[|gs| - 1].Sum()
  }

  function Squares(gs: seq<Group>): real {
    if gs == [] then 0.0 else Squares(gs[..|gs| - 1]) + gs[|gs| - 1].Squares()
  }

  // g has the count, the sum and the sum of squares of all groups.
  predicate Pools(g: Group, gs: seq<Group>) {
    g.n == Count(gs) && g.Sum() == Sum(gs) && g.Squares() == Squares(gs)
  }

  predicate AllSound(gs: seq<Group>) {
    forall i :: 0 <= i < |gs| ==> Sound(gs[i])
  }

  lemma OneGroup(g: Group)
    ensures Pools(g, [g])
  {
    assert [g][..0] == [];
  }

  // Folding succeeds for one group, and for more exactly when the first two hold two samples
  // or more; no negative number ever comes under the root, and the result pools all groups.
  lemma {:induction false} FoldPools(gs: seq<Group>, sqrt: real -> real)
    requires gs != [] && AllSound(gs) && IsSqrt(sqrt)
    ensures var r := Fold(gs, sqrt);
      && (r.Ok? <==> |gs| == 1 || gs[0].n + gs[1].n >= 2)
      && (r.Ok? ==> Sound(r.value) && Pools(r.value, gs) && (|gs| > 1 ==> r.value.n >= 2))
  {
    hide CombinedStdDev, Group.Sum, Group.Squares;
    if |gs| == 1 {
      assert gs == [gs[0]];
      OneGroup(gs[0]);
    } else {
      var m := |gs| - 1;
      FoldPools(gs[..m], sqrt);
      var r := Fold(gs[..m], sqrt);
      if r.Ok? { CombinedAdds(r.value, gs[m], sqrt); }
    }
  }

  // Two groups with one sample between them come first: an error, however many samples follow.
  lemma FoldFails(last: Group, sqrt: real -> real)
    ensures Fold([Group(0.0, 0.0, 0), Group(0.0, 5.0, 1), last], sqrt) == ZeroDivision
  {
    var a, b := Group(0.0, 0.0, 0), Group(0.0, 5.0, 1);
    assert [a, b, last][..2] == [a, b] && [a, b][..1] == [a];
    assert Fold([a, b], sqrt) == ZeroDivision;
  }

  // `combined_mean` folds to the same mean.
  lemma {:induction false} FoldMeanPools(gs: seq<Group>)
    requires gs != []
    ensures var r := FoldMean(gs);
      && (r.Ok? <==> |gs| == 1 || gs[0].n + gs[1].n >= 1)
      && (r.Ok? ==> r.value.1 == Count(gs) && r.value.1 as real * r.value.0 == Sum(gs) && (|gs| > 1 ==> r.value.1 >= 1))
  {
    hide CombinedMean;
    if |gs| == 1 {
      assert gs == [gs[0]];
      OneGroup(gs[0]);
    } else {
      var m := |gs| - 1;
      FoldMeanPools(gs[..m]);
      var r := FoldMean(gs[..m]);
      if r.Ok? {
        var g := Group(0.0, r.value.0, r.value.1);
        if g.n + gs[m].n > 0 { MeanLaw(g, gs[m]); } else { NoMean(g, gs[m]); }
      }
    }
  }

  lemma Cancel(n: real, x: real, y: real)
    requires n != 0.0 && n * x == n * y
    ensures x == y
  {
    assert n * x / n == x && n * y / n == y;
  }

  lemma Roots(x: real, y: real)
    requires x >= 0.0 && y >= 0.0 && x * x == y * y
    ensures x == y
  {
    assert (x - y) * (x + y) == 0.0;
    if x < y { NegativeProduct(x - y, x + y); }
    if y < x { NegativeProduct(y - x, x + y); }
  }

  // Count, sum and sum of squares determine the group.
  lemma Determined(g: Group, h: Group)
    requires Sound(g) && Sound(h) && g.n == h.n >= 2 && g.Sum() == h.Sum() && g.Squares() == h.Squares()
    ensures g == h
  {
    Cancel(g.N(), g.mx, h.mx);
    Cancel(g.N() - 1.0, g.s * g.s, h.s * h.s);
    Roots(g.s, h.s);
  }

  // ---------- order and grouping do not matter ----------

  lemma {:induction false} SumsJoined(gs: seq<Group>, hs: seq<Group>)
    ensures Count(gs + hs) == Count(gs) + Count(hs)
    ensures Sum(gs + hs) == Sum(gs) + Sum(hs)
    ensures Squares(gs + hs) == Squares(gs) + Squares(hs)
  {
    hide Group.Sum, Group.Squares;
    if hs == [] {
      assert gs + hs == gs;
    } else {
      var m := |hs| - 1;
      SumsJoined(gs, hs[..m]);
      assert (gs + hs)[..|gs + hs| - 1] == gs + hs[..m];
    }
  }

  lemma SumsWithout(gs: seq<Group>, k: nat)
    requires k < |gs|
    ensures var r := gs[..k] + gs[k + 1..];
      && Count(gs) == Count(r) + gs[k].n && Sum(gs) == Sum(r) + gs[k].Sum()
      && Squares(gs) == Squares(r) + gs[k].Squares()
  {
    hide Group.Sum, Group.Squares;
    var a, b, g := gs[..k], gs[k + 1..], gs[k];
    assert gs == a + ([g] + b);
    SumsJoined(a, [g] + b);
    SumsJoined([g], b);
    SumsJoined(a, b);
    OneGroup(g);
  }

  lemma Without(gs: seq<Group>, k: nat)
    requires k < |gs|
    ensures multiset(gs) == multiset(gs[..k] + gs[k + 1..]) + multiset{gs[k]}
  {
    assert gs == gs[..k] + ([gs[k]] + gs[k + 1..]);
  }

  lemma CancelOne(a: multiset<Group>, b: multiset<Group>, g: Group)
    requires a + multiset{g} == b + multiset{g}
    ensures a == b
  {
    forall x ensures a[x] == b[x] {
      assert (a + multiset{g})[x] == (b + multiset{g})[x];
    }
  }

  lemma {:induction false} SumsOfPermuted(gs: seq<Group>, hs: seq<Group>)
    requires multiset(gs) == multiset(hs)
    ensures Count(gs) == Count(hs) && Sum(gs) == Sum(hs) && Squares(gs) == Squares(hs)
    decreases |gs|
  {
    hide Group.Sum, Group.Squares, Count, Sum, Squares;
    if gs == [] {
      assert |multiset(hs)| == 0;
      assert hs == [];
    } else {
      var m := |gs| - 1;
      var g := gs[m];
      assert g in multiset(hs);
      var k :| 0 <= k < |hs| && hs[k] == g;
      var rest := hs[..k] + hs[k + 1..];
      Without(gs, m);
      Without(hs, k);
      assert gs[..m] + gs[m + 1..] == gs[..m];
      CancelOne(multiset(gs[..m]), multiset(rest), g);
      SumsOfPermuted(gs[..m], rest);
      SumsWithout(gs, m);
      SumsWithout(hs, k);
    }
  }

  predicate Sampled(gs: seq<Group>) {
    forall i :: 0 <= i < |gs| ==> gs[i].n >= 1
  }

  // The groups in any other order fold to the same result.
  lemma OrderIrrelevant(gs: seq<Group>, hs: seq<Group>, sqrt: real -> real)
    requires gs != [] && AllSound(gs) && Sampled(gs) && multiset(gs) == multiset(hs) && IsSqrt(sqrt)
    ensures Fold(gs, sqrt).Ok? && Fold(gs, sqrt) == Fold(hs, sqrt)
  {
    hide Fold, Group.Sum, Group.Squares, Sound;
    assert |multiset(gs)| == |gs| && |multiset(hs)| == |hs|;
    forall i | 0 <= i < |hs| ensures Sound(hs[i]) && hs[i].n >= 1 {
      assert hs[i] in multiset(gs);
      var k :| 0 <= k < |gs| && gs[k] == hs[i];
    }
    FoldPools(gs, sqrt);
    FoldPools(hs, sqrt);
    SumsOfPermuted(gs, hs);
    if |gs| == 1 {
      assert gs[0] in multiset(hs);
      SingleFold(gs, sqrt);
      SingleFold(hs, sqrt);
    } else {
      Determined(Fold(gs, sqrt).value, Fold(hs, sqrt).value);
    }
  }

  lemma SingleFold(gs: seq<Group>, sqrt: real -> real)
    requires |gs| == 1
    ensures Fold(gs, sqrt) == Ok(gs[0])
  {
  }

  // Folding two parts first and then their results is the same as folding everything.
  lemma GroupingIrrelevant(gs: seq<Group>, hs: seq<Group>, sqrt: real -> real)
    requires gs != [] && hs != [] && AllSound(gs + hs) && Sampled(gs + hs) && IsSqrt(sqrt)
    ensures var a, b := Fold(gs, sqrt), Fold(hs, sqrt);
      a.Ok? && b.Ok? && Fold([a.value, b.value], sqrt) == Fold(gs + hs, sqrt)
  {
    hide Fold, Group.Sum, Group.Squares, Sound;
    assert forall i :: 0 <= i < |gs| ==> gs[i] == (gs + hs)[i];
    assert forall i :: 0 <= i < |hs| ==> hs[i] == (gs + hs)[|gs| + i];
    FoldPools(gs, sqrt);
    FoldPools(hs, sqrt);
    FoldPools(gs + hs, sqrt);
    SumsJoined(gs, hs);
    var a, b := Fold(gs, sqrt).value, Fold(hs, sqrt).value;
    CountSampled(gs);
    CountSampled(hs);
    FoldPools([a, b], sqrt);
    SumsJoined([a], [b]);
    OneGroup(a);
    OneGroup(b);
    assert [a] + [b] == [a, b];
    Determined(Fold([a, b], sqrt).value, Fold(gs + hs, sqrt).value);
  }

  lemma {:induction false} CountSampled(gs: seq<Group>)
    requires Sampled(gs)
    ensures Count(gs) >= |gs|
  {
    if gs != [] { CountSampled(gs[..|gs| - 1]); }
  }

  // ---------- the data behind the groups ----------

  function Total(xs: seq<real>): real {
    if xs == [] then 0.0 else Total(xs[..|xs| - 1]) + xs[|xs| - 1]
  }

  function Squared(x: real): real { x * x }

  function TotalSquares(xs: seq<real>): real {
    if xs == [] then 0.0 else TotalSquares(xs[..|xs| - 1]) + Squared(xs[|xs| - 1])
  }

  // The sum of the squared distances to m.
  function Deviations(xs: seq<real>, m: real): real {
    if xs == [] then 0.0 else
      Deviations(xs[..|xs| - 1], m) + Squared(xs[|xs| - 1] - m)
  }

  // g is the sample standard deviation, mean and size of the data.
  predicate Describes(g: Group, xs: seq<real>) {
    g.s >= 0.0 && g.n == |xs| && g.N() * g.mx == Total(xs) && (g.N() - 1.0) * (g.s * g.s) == Deviations(xs, g.mx)
  }

  // Deviations from the sum of squares q, the sum t and the number n.
  function Expanded(q: real, t: real, n: real, m: real): real {
    q - 2.0 * (m * t) + n * (m * m)
  }

  lemma ExpandedStep(q: real, t: real, n: real, m: real, x: real)
    ensures Expanded(q, t, n, m) + Squared(x - m) == Expanded(q + Squared(x), t + x, n + 1.0, m)
  {
  }

  lemma {:induction false} DeviationsExpand(xs: seq<real>, m: real)
    ensures Deviations(xs, m) == Expanded(TotalSquares(xs), Total(xs), |xs| as real, m)
  {
    hide Squared, Expanded;
    if xs == [] {
      assert Expanded(0.0, 0.0, 0.0, m) == 0.0 by { NothingExpanded(m); }
    } else {
      var k := |xs| - 1;
      DeviationsExpand(xs[..k], m);
      ExpandedStep(TotalSquares(xs[..k]), Total(xs[..k]), k as real, m, xs[k]);
    }
  }

  lemma NothingExpanded(m: real)
    ensures Expanded(0.0, 0.0, 0.0, m) == 0.0
  {
  }

  lemma AroundTheMean(q: real, t: real, n: real, m: real)
    requires n * m == t
    ensures Expanded(q, t, n, m) == q - n * (m * m)
  {
    assert m * t == n * (m * m);
  }

  // A group describes data exactly when it has their number, sum and sum of squares.
  lemma DescribesIff(g: Group, xs: seq<real>)
    ensures Describes(g, xs) <==> g.s >= 0.0 && g.n == |xs| && g.Sum() == Total(xs) && g.Squares() == TotalSquares(xs)
  {
    if g.n == |xs| && g.Sum() == Total(xs) {
      hide Expanded, Deviations;
      DeviationsExpand(xs, g.mx);
      AroundTheMean(TotalSquares(xs), Total(xs), g.N(), g.mx);
    }
  }

  lemma DescribesSound(g: Group, xs: seq<real>)
    requires Describes(g, xs)
    ensures Sound(g)
  {
    if g.n == 0 { Roots(g.s, 0.0); }
  }

  function Concat(xss: seq<seq<real>>): seq<real> {
    if xss == [] then [] else Concat(xss[..|xss| - 1]) + xss[|xss| - 1]
  }

  lemma {:induction false} TotalsJoined(xs: seq<real>, ys: seq<real>)
    ensures Total(xs + ys) == Total(xs) + Total(ys) && TotalSquares(xs + ys) == TotalSquares(xs) + TotalSquares(ys)
  {
    if ys == [] {
      assert xs + ys == xs;
    } else {
      var k := |ys| - 1;
      TotalsJoined(xs, ys[..k]);
      assert (xs + ys)[..|xs + ys| - 1] == xs + ys[..k];
    }
  }

  predicate AllDescribe(gs: seq<Group>, xss: seq<seq<real>>) {
    |gs| == |xss| && forall i :: 0 <= i < |gs| ==> Describes(gs[i], xss[i])
  }

  lemma {:induction false} SumsOfData(gs: seq<Group>, xss: seq<seq<real>>)
    requires AllDescribe(gs, xss)
    ensures AllSound(gs) && Count(gs) == |Concat(xss)|
    ensures Sum(gs) == Total(Concat(xss)) && Squares(gs) == TotalSquares(Concat(xss))
  {
    hide Describes, Group.Sum, Group.Squares, Sound;
    if gs != [] {
      var k := |gs| - 1;
      SumsOfData(gs[..k], xss[..k]);
      TotalsJoined(Concat(xss[..k]), xss[k]);
      DescribesIff(gs[k], xss[k]);
      DescribesSound(gs[k], xss[k]);
      forall i | 0 <= i < |gs| ensures Sound(gs[i]) {
        if i < k { assert gs[i] == gs[..k][i]; }
      }
    }
  }

  // Folding the figures of the groups gives exactly the sample standard deviation, mean and
  // size of all their data put together.
  lemma FoldDescribes(gs: seq<Group>, xss: seq<seq<real>>, sqrt: real -> real)
    requires gs != [] && AllDescribe(gs, xss) && IsSqrt(sqrt)
    ensures var r := Fold(gs, sqrt);
      && (r.Ok? <==> |gs| == 1 || |xss[0]| + |xss[1]| >= 2)
      && (r.Ok? ==> Describes(r.value, Concat(xss)))
  {
    hide Fold, Deviations, Group.Sum, Group.Squares;
    SumsOfData(gs, xss);
    FoldPools(gs, sqrt);
    var r := Fold(gs, sqrt);
    if r.Ok? { DescribesIff(r.value, Concat(xss)); }
  }

  // clat_ms, folded by `combined_mean`, is the mean that the fold for clat_stdev carries.
  lemma MeansAgree(gs: seq<Group>, sqrt: real -> real)
    requires gs != [] && AllSound(gs) && IsSqrt(sqrt) && Fold(gs, sqrt).Ok?
    ensures FoldMean(gs).Ok? && FoldMean(gs).value == (Fold(gs, sqrt).value.mx, Fold(gs, sqrt).value.n)
  {
    FoldPools(gs, sqrt);
    FoldMeanPools(gs);
    if |gs| > 1 {
      Cancel(Count(gs) as real, FoldMean(gs).value.0, Fold(gs, sqrt).value.mx);
    }
  }
}
