/** Queue depths of `benchmark/librbdfio.py`: a total queue depth is shared out over the
    volumes of a client. */
module QueueDepth {

  datatype Option<T> = None | Some(value: T)

  function Min(x: int, y: int): int { if x < y then x else y }

  // The sum of the depths of the first n volumes.
  function Total(depths: map<int, int>, n: nat): int
    requires forall i :: 0 <= i < n ==> i in depths
  {
    if n == 0 then 0 else Total(depths, n - 1) + depths[n - 1]
  }

  // The volumes 0 to m - 1, each with the share q or, the first `more` of them, one above it.
  ghost predicate Shares(depths: map<int, int>, m: nat, q: int, more: int) {
    && (forall i :: i in depths <==> 0 <= i < m)
    && forall i :: 0 <= i < m ==> depths[i] == if i < more then q + 1 else q
  }

  lemma {:induction false} SharesTotal(depths: map<int, int>, m: nat, q: int, more: int, n: nat)
    requires Shares(depths, m, q, more) && n <= m && 0 <= more
    ensures Total(depths, n) == n * q + Min(n, more)
  {
    if n > 0 { SharesTotal(depths, m, q, more, n - 1); }
  }

  // An even split of the total over m volumes.
  ghost predicate Even(depths: map<int, int>, m: nat, total: int) {
    && (forall i :: i in depths <==> 0 <= i < m)
    && Total(depths, m) == total
    && (forall i :: 0 <= i < m ==> depths[i] >= 1)
    && (forall i, j :: 0 <= i < j < m ==> depths[j] <= depths[i] <= depths[j] + 1)
  }

  // Division rounds down, as `//` and `%` do for these operands; None is a ZeroDivisionError.
  method CalculateFromTotal(numberOfVolumes: int, total: int) returns (r: Option<map<int, int>>)
    ensures var m := Min(numberOfVolumes, total);
      && (r.None? <==> m == 0)
      && (m < 0 ==> r == Some(map[]))
      && (m > 0 ==> Even(r.value, m, total))
  {
    var volumes := numberOfVolumes;
    if volumes > total { volumes := total; }
    if volumes == 0 { return None; }
    var depths: map<int, int> := map[];
    // Without volumes the loop does not run, whatever the quotient.
    if volumes < 0 { return Some(depths); }
    var share, remainder := total / volumes, total % volumes;
    ghost var more := remainder;
    var id := 0;
    while id < volumes
      invariant 0 <= id <= volumes && remainder == more - Min(id, more)
      invariant Shares(depths, id, share, more)
    {
      var iodepth := share;
      if remainder > 0 {
        iodepth := iodepth + 1;
        remainder := remainder - 1;
      }
      depths := depths[id := iodepth];
      id := id + 1;
    }
    SharesTotal(depths, volumes, share, more, volumes);
    AtLeastOne(total, volumes);
    r := Some(depths);
  }

  lemma AtLeastOne(total: int, m: int)
    requires 0 < m <= total
    ensures total / m >= 1 && m * (total / m) + total % m == total
  {
    if total / m <= 0 { SmallQuotient(total, m); }
  }

  lemma SmallQuotient(total: int, m: int)
    requires 0 < m && total / m <= 0
    ensures total < m
  {
    assert m * (total / m) + total % m == total;
    NoMore(m, total / m);
  }

  lemma NoMore(m: int, q: int)
    requires m > 0 && q <= 0
    ensures m * q <= 0
  {
  }

  lemma {:induction false} TotalAtMost(depths: map<int, int>, n: nat, top: int)
    requires forall i :: 0 <= i < n ==> i in depths && depths[i] <= top
    ensures Total(depths, n) <= n * top
  {
    if n > 0 { TotalAtMost(depths, n - 1, top); }
  }

  lemma {:induction false} TotalAtLeast(depths: map<int, int>, n: nat, low: int)
    requires forall i :: 0 <= i < n ==> i in depths && depths[i] >= low
    ensures Total(depths, n) >= n * low
  {
    if n > 0 { TotalAtLeast(depths, n - 1, low); }
  }

  // No other split of the total over the same volumes has a smaller greatest depth, or a
  // greater smallest one.
  lemma EvenIsBest(depths: map<int, int>, other: map<int, int>, m: nat, total: int)
    requires m > 0 && Even(depths, m, total)
    requires (forall i :: i in other <==> 0 <= i < m) && Total(other, m) == total
    ensures exists i :: 0 <= i < m && other[i] >= depths[0]
    ensures exists i :: 0 <= i < m && other[i] <= depths[m - 1]
  {
    if forall i :: 0 <= i < m ==> other[i] < depths[0] {
      TotalAtMost(other, m, depths[0] - 1);
      TotalAbove(depths, m, depths[0] - 1);
    }
    if forall i :: 0 <= i < m ==> other[i] > depths[m - 1] {
      TotalAtLeast(other, m, depths[m - 1] + 1);
      TotalUnder(depths, m, depths[m - 1] + 1);
    }
  }

  // All depths reach low and the first exceeds it.
  lemma {:induction false} TotalAbove(depths: map<int, int>, n: nat, low: int)
    requires n > 0 && (forall i :: 0 <= i < n ==> i in depths && depths[i] >= low) && depths[0] > low
    ensures Total(depths, n) > n * low
  {
    if n > 1 { TotalAbove(depths, n - 1, low); } else { assert Total(depths, 0) == 0; }
  }

  // No depth exceeds top and the last stays below it.
  lemma {:induction false} TotalUnder(depths: map<int, int>, n: nat, top: int)
    requires n > 0 && (forall i :: 0 <= i < n ==> i in depths && depths[i] <= top) && depths[n - 1] < top
    ensures Total(depths, n) < n * top
  {
    TotalAtMost(depths, n - 1, top);
  }

  // An even split is unique.
  lemma EvenIsUnique(a: map<int, int>, b: map<int, int>, m: nat, total: int)
    requires Even(a, m, total) && Even(b, m, total)
    ensures a == b
  {
    forall i: nat | i < m ensures a[i] == b[i] {
      if a[i] > b[i] { Above(a, b, m, i, m); }
      if a[i] < b[i] { Above(b, a, m, i, m); }
    }
    assert a.Keys == b.Keys by { forall i ensures i in a <==> i in b { } }
    assert forall i <- a :: a[i] == b[i];
  }

  // Where an even split is above another once, it is nowhere below it.
  lemma {:induction false} Above(a: map<int, int>, b: map<int, int>, m: nat, i: nat, n: nat)
    requires i < m && n <= m && (forall k :: k in a <==> 0 <= k < m) && (forall k :: k in b <==> 0 <= k < m)
    requires forall k, j :: 0 <= k < j < m ==> a[j] <= a[k] <= a[j] + 1
    requires forall k, j :: 0 <= k < j < m ==> b[j] <= b[k] <= b[j] + 1
    requires a[i] > b[i]
    ensures Total(a, n) >= Total(b, n) && (i < n ==> Total(a, n) > Total(b, n))
  {
    if n > 0 {
      Above(a, b, m, i, n - 1);
      assert a[n - 1] >= b[n - 1];
    }
  }
}
