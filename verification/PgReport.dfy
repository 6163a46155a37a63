/** Placement group statistics of `tools/readpgdump.py`: counts of the roles every OSD plays,
    for each pool and in total, an efficiency score for a distribution under given weights,
    and the most and least used OSDs. */
module PgReport {

  datatype Option<T> = None | Some(value: T)

  type Dict = map<int, nat>

  // The dictionaries of COUNTS_DICT for one pool.
  datatype Counts = Counts(pgs: nat, upPrimaries: Dict, upSecondaries: Dict, upTotals: Dict,
                           actingPrimaries: Dict, actingSecondaries: Dict, actingTotals: Dict)

  // ---------- counting ----------

  function Get(d: Dict, osd: int): nat {
    if osd in d then d[osd] else 0
  }

  // `add_count`
  function Added(d: Dict, osd: int): Dict {
    if osd in d then d[osd := d[osd] + 1] else d[osd := 1]
  }

  function AddedAll(d: Dict, osds: seq<int>): Dict {
    if osds == [] then d else Added(AddedAll(d, osds[..|osds| - 1]), osds[|osds| - 1])
  }

  lemma {:induction false} AddedAllCounts(d: Dict, osds: seq<int>, o: int)
    ensures Get(AddedAll(d, osds), o) == Get(d, o) + multiset(osds)[o]
    ensures o in AddedAll(d, osds) <==> o in d || o in osds
  {
    if osds != [] {
      var n := |osds| - 1;
      AddedAllCounts(d, osds[..n], o);
      assert osds == osds[..n] + [osds[n]];
    }
  }

  // The sum of the values.
  ghost function Sum<K>(d: map<K, nat>): nat
    decreases |d|
  {
    if d.Keys == {} then 0 else
      var o :| o in d.Keys;
      d[o] + Sum(d - {o})
  }

  lemma {:induction false} SumWithout<K>(d: map<K, nat>, o: K)
    requires o in d
    ensures Sum(d) == d[o] + Sum(d - {o})
    decreases |d|
  {
    var p :| p in d.Keys && Sum(d) == d[p] + Sum(d - {p});
    if p != o {
      SumWithout(d - {p}, o);
      SumWithout(d - {o}, p);
      assert d - {p} - {o} == d - {o} - {p};
    }
  }

  lemma SumAdded(d: Dict, o: int)
    ensures Sum(Added(d, o)) == Sum(d) + 1
  {
    var e := Added(d, o);
    SumWithout(e, o);
    assert e - {o} == d - {o};
    if o in d { SumWithout(d, o); } else { assert d - {o} == d; }
  }

  lemma {:induction false} SumAddedAll(d: Dict, osds: seq<int>)
    ensures Sum(AddedAll(d, osds)) == Sum(d) + |osds|
  {
    if osds != [] {
      var n := |osds| - 1;
      SumAddedAll(d, osds[..n]);
      SumAdded(AddedAll(d, osds[..n]), osds[n]);
    }
  }

  const EMPTY := Counts(0, map[], map[], map[], map[], map[], map[])

  // One placement group more.
  function Counted(c: Counts, up: seq<int>, acting: seq<int>): Counts
    requires up != [] && acting != []
  {
    Counts(c.pgs + 1,
           Added(c.upPrimaries, up[0]), AddedAll(c.upSecondaries, up[1..]), AddedAll(c.upTotals, up),
           Added(c.actingPrimaries, acting[0]), AddedAll(c.actingSecondaries, acting[1..]),
           AddedAll(c.actingTotals, acting))
  }

  // Every placement group has one primary, and for every OSD the two roles make up the total.
  ghost predicate Accounted(c: Counts) {
    && Sum(c.upPrimaries) == Sum(c.actingPrimaries) == c.pgs
    && Split(c.upPrimaries, c.upSecondaries, c.upTotals)
    && Split(c.actingPrimaries, c.actingSecondaries, c.actingTotals)
  }

  ghost predicate Split(p: Dict, s: Dict, t: Dict) {
    && (forall o :: Get(p, o) + Get(s, o) == Get(t, o))
    && Sum(p) + Sum(s) == Sum(t)
  }

  lemma SplitKept(p: Dict, s: Dict, t: Dict, osds: seq<int>)
    requires osds != [] && Split(p, s, t)
    ensures Split(Added(p, osds[0]), AddedAll(s, osds[1..]), AddedAll(t, osds))
  {
    assert osds == [osds[0]] + osds[1..];
    forall o ensures Get(Added(p, osds[0]), o) + Get(AddedAll(s, osds[1..]), o) == Get(AddedAll(t, osds), o) {
      AddedAllCounts(s, osds[1..], o);
      AddedAllCounts(t, osds, o);
    }
    SumAdded(p, osds[0]);
    SumAddedAll(s, osds[1..]);
    SumAddedAll(t, osds);
  }

  lemma CountedKeeps(c: Counts, up: seq<int>, acting: seq<int>)
    requires up != [] && acting != [] && Accounted(c)
    ensures Accounted(Counted(c, up, acting))
  {
    hide Split;
    SplitKept(c.upPrimaries, c.upSecondaries, c.upTotals, up);
    SplitKept(c.actingPrimaries, c.actingSecondaries, c.actingTotals, acting);
    SumAdded(c.upPrimaries, up[0]);
    SumAdded(c.actingPrimaries, acting[0]);
  }

  // ---------- a whole dump ----------

  datatype Pg = Pg(pool: string, up: seq<int>, acting: seq<int>) {
    predicate Placed() { up != [] && acting != [] }
  }

  // The two global dictionaries.
  datatype Book = Book(pools: map<string, Counts>, totals: Counts)

  // `add_counts`: a pool seen for the first time also empties the dictionaries of the totals.
  function Entered(b: Book, pg: Pg): Book
    requires pg.Placed()
  {
    var c := if pg.pool in b.pools then b.pools[pg.pool] else EMPTY;
    var t := if pg.pool in b.pools then b.totals else EMPTY.(pgs := b.totals.pgs);
    Book(b.pools[pg.pool := Counted(c, pg.up, pg.acting)], Counted(t, pg.up, pg.acting))
  }

  predicate AllPlaced(pgs: seq<Pg>) {
    forall i :: 0 <= i < |pgs| ==> pgs[i].Placed()
  }

  function Run(pgs: seq<Pg>): Book
    requires AllPlaced(pgs)
  {
    if pgs == [] then Book(map[], EMPTY) else Entered(Run(pgs[..|pgs| - 1]), pgs[|pgs| - 1])
  }

  // The placement groups of a pool.
  function Of(pgs: seq<Pg>, pool: string): seq<Pg> {
    if pgs == [] then [] else
      var pg := pgs[|pgs| - 1];
      Of(pgs[..|pgs| - 1], pool) + if pg.pool == pool then [pg] else []
  }

  // The counts of a list of placement groups by themselves.
  function CountsOf(pgs: seq<Pg>): Counts
    requires AllPlaced(pgs)
  {
    if pgs == [] then EMPTY else
      var pg := pgs[|pgs| - 1];
      Counted(CountsOf(pgs[..|pgs| - 1]), pg.up, pg.acting)
  }

  lemma {:induction false} CountsAccounted(pgs: seq<Pg>)
    requires AllPlaced(pgs)
    ensures Accounted(CountsOf(pgs)) && CountsOf(pgs).pgs == |pgs|
  {
    hide Accounted;
    if pgs == [] {
      EmptyAccounted();
    } else {
      var n := |pgs| - 1;
      CountsAccounted(pgs[..n]);
      CountedKeeps(CountsOf(pgs[..n]), pgs[n].up, pgs[n].acting);
    }
  }

  lemma EmptyAccounted()
    ensures Accounted(EMPTY)
  {
  }

  lemma {:induction false} OfPlaced(pgs: seq<Pg>, pool: string)
    requires AllPlaced(pgs)
    ensures AllPlaced(Of(pgs, pool))
    ensures Of(pgs, pool) != [] <==> exists pg <- pgs :: pg.pool == pool
  {
    if pgs != [] {
      var n := |pgs| - 1;
      OfPlaced(pgs[..n], pool);
      assert pgs == pgs[..n] + [pgs[n]];
    }
  }

  // Over any dump the counts of a pool are those of its own placement groups: they add up.
  lemma {:induction false} PoolsAccounted(pgs: seq<Pg>, pool: string)
    requires AllPlaced(pgs)
    ensures AllPlaced(Of(pgs, pool))
    ensures pool in Run(pgs).pools <==> exists pg <- pgs :: pg.pool == pool
    ensures pool in Run(pgs).pools ==>
      Run(pgs).pools[pool] == CountsOf(Of(pgs, pool)) && Accounted(Run(pgs).pools[pool])
        && Run(pgs).pools[pool].pgs == |Of(pgs, pool)|
  {
    hide Accounted, Counted;
    OfPlaced(pgs, pool);
    CountsAccounted(Of(pgs, pool));
    if pgs != [] {
      var n := |pgs| - 1;
      var before := Of(pgs[..n], pool);
      PoolsAccounted(pgs[..n], pool);
      OfPlaced(pgs[..n], pool);
      if pgs[n].pool == pool {
        assert (before + [pgs[n]])[..|before|] == before;
      } else {
        assert Of(pgs, pool) == before;
      }
    }
  }

  // How many of the placement groups have the OSD as primary, and how often it serves them at all.
  function Primaries(pgs: seq<Pg>, o: int, acting: bool): nat
    requires AllPlaced(pgs)
  {
    if pgs == [] then 0 else
      var pg := pgs[|pgs| - 1];
      Primaries(pgs[..|pgs| - 1], o, acting) + if (if acting then pg.acting else pg.up)[0] == o then 1 else 0
  }

  function Roles(pgs: seq<Pg>, o: int, acting: bool): nat {
    if pgs == [] then 0 else
      var pg := pgs[|pgs| - 1];
      Roles(pgs[..|pgs| - 1], o, acting) + multiset(if acting then pg.acting else pg.up)[o]
  }

  // The counts are what they are named for.
  lemma {:induction false} CountsMean(pgs: seq<Pg>, o: int)
    requires AllPlaced(pgs)
    ensures Get(CountsOf(pgs).upPrimaries, o) == Primaries(pgs, o, false)
    ensures Get(CountsOf(pgs).actingPrimaries, o) == Primaries(pgs, o, true)
    ensures Get(CountsOf(pgs).upTotals, o) == Roles(pgs, o, false)
    ensures Get(CountsOf(pgs).actingTotals, o) == Roles(pgs, o, true)
  {
    if pgs != [] {
      var n := |pgs| - 1;
      var c := CountsOf(pgs[..n]);
      CountsMean(pgs[..n], o);
      AddedAllCounts(c.upTotals, pgs[n].up, o);
      AddedAllCounts(c.actingTotals, pgs[n].acting, o);
    }
  }

  // The last placement group whose pool had not been seen before it.
  function LastNew(pgs: seq<Pg>): (k: nat)
    ensures pgs != [] ==> k < |pgs|
    ensures pgs == [] ==> k == 0
  {
    if pgs == [] then 0
    else if Of(pgs[..|pgs| - 1], pgs[|pgs| - 1].pool) == [] then |pgs| - 1
    else LastNew(pgs[..|pgs| - 1])
  }

  // The totals only count the placement groups since then, though `pgs` counts them all.
  lemma {:induction false} TotalsSinceLastNew(pgs: seq<Pg>)
    requires AllPlaced(pgs)
    ensures Run(pgs).totals == CountsOf(pgs[LastNew(pgs)..]).(pgs := |pgs|)
  {
    hide Added, AddedAll, Accounted, Of, Counted;
    if pgs != [] {
      var n := |pgs| - 1;
      PoolsAccounted(pgs[..n], pgs[n].pool);
      OfPlaced(pgs[..n], pgs[n].pool);
      TotalsSinceLastNew(pgs[..n]);
      var k := LastNew(pgs);
      assert pgs[k..][..n - k] == pgs[k..n] == pgs[..n][k..];
      CountsGrow(pgs[k..]);
      CountedPgs(EMPTY, n, pgs[n].up, pgs[n].acting);
      CountedPgs(CountsOf(pgs[..n][LastNew(pgs[..n])..]), n, pgs[n].up, pgs[n].acting);
    }
  }

  lemma CountedPgs(c: Counts, n: nat, up: seq<int>, acting: seq<int>)
    requires up != [] && acting != []
    ensures Counted(c.(pgs := n), up, acting) == Counted(c, up, acting).(pgs := n + 1)
  {
  }

  lemma CountsGrow(pgs: seq<Pg>)
    requires AllPlaced(pgs) && pgs != []
    ensures var n := |pgs| - 1; CountsOf(pgs) == Counted(CountsOf(pgs[..n]), pgs[n].up, pgs[n].acting)
  {
  }

  // The totals count every placement group exactly when all are of one pool.
  lemma TotalsCompleteIff(pgs: seq<Pg>)
    requires AllPlaced(pgs) && pgs != []
    ensures Run(pgs).totals == CountsOf(pgs) <==> forall pg <- pgs :: pg.pool == pgs[0].pool
  {
    var k := LastNew(pgs);
    TotalsSinceLastNew(pgs);
    OnePoolIff(pgs);
    CountsAccounted(pgs[k..]);
    CountsAccounted(pgs);
    if k == 0 { assert pgs[0..] == pgs; }
  }

  // Two placement groups in two pools: the totals only know the OSD of the second.
  lemma TotalsLost()
    ensures var t := Run([Pg("1", [0], [0]), Pg("2", [1], [1])]).totals;
      t.pgs == 2 && 0 !in t.upPrimaries && 0 !in t.upTotals && 1 in t.upPrimaries
  {
    hide Added, AddedAll;
    var a, b := Pg("1", [0], [0]), Pg("2", [1], [1]);
    assert [a, b][..1] == [a] && [a][..0] == [];
    assert Run([a]).pools.Keys == {"1"};
    var t := Counted(EMPTY.(pgs := 1), [1], [1]);
    assert Run([a, b]).totals == t;
    AddedAllCounts(map[], [1], 0);
    AddedOne(1);
  }

  lemma AddedOne(o: int)
    ensures Added(map[], o) == map[o := 1]
  {
  }

  lemma {:induction false} OnePoolIff(pgs: seq<Pg>)
    requires AllPlaced(pgs) && pgs != []
    ensures LastNew(pgs) == 0 <==> forall pg <- pgs :: pg.pool == pgs[0].pool
  {
    var n := |pgs| - 1;
    OfPlaced(pgs[..n], pgs[n].pool);
    assert pgs == pgs[..n] + [pgs[n]];
    if n > 0 {
      OnePoolIff(pgs[..n]);
      assert pgs[..n][0] == pgs[0] && pgs[0] in pgs[..n];
    }
  }

  // ---------- efficiency ----------

  // A distribution as its dictionary lists it.
  type Items = seq<(int, nat)>

  function Pgs(items: Items): nat {
    if items == [] then 0 else Pgs(items[..|items| - 1]) + items[|items| - 1].1
  }

  function Mean(items: Items): real
    requires items != []
  {
    Pgs(items) as real / |items| as real
  }

  // What an OSD carries under its weight; one without a weight counts fully.
  function Load(item: (int, nat), weights: map<int, real>): real {
    (if item.0 in weights then weights[item.0] else 1.0) * item.1 as real
  }

  predicate Highest(top: real, items: Items, weights: map<int, real>, mean: real) {
    && mean <= top && (top == mean || exists i :: 0 <= i < |items| && top == Load(items[i], weights))
    && forall i :: 0 <= i < |items| ==> Load(items[i], weights) <= top
  }

  // The sums of the first counts, one by one.
  predicate AddsUp(sums: seq<nat>, items: Items) {
    |sums| == |items| + 1 && sums[0] == 0 && forall k :: 0 <= k < |items| ==> sums[k + 1] == sums[k] + items[k].1
  }

  lemma {:induction false} PgsAddUp(items: Items, sums: seq<nat>)
    requires AddsUp(sums, items)
    ensures Pgs(items) == sums[|items|]
  {
    if items != [] { PgsAddUp(items[..|items| - 1], sums[..|items|]); }
  }

  // The average number of placement groups is the sum of the counts over their number, and an OSD
  // carries its count times its weight, if it has one.
  lemma MeanIs(items: Items, sums: seq<nat>)
    requires items != [] && |sums| == |items| + 1 && sums[0] == 0
    requires forall k :: 0 <= k < |items| ==> sums[k + 1] == sums[k] + items[k].1
    ensures Mean(items) == sums[|items|] as real / |items| as real
    ensures forall item: (int, nat), weights: map<int, real> ::
      && (item.0 in weights ==> Load(item, weights) == weights[item.0] * item.1 as real)
      && (item.0 !in weights ==> Load(item, weights) == item.1 as real)
  {
    PgsAddUp(items, sums);
  }

  // `efficiency_score`, for a distribution with positive counts: the mean as a share of the
  // highest load. It lies between 0 and 100, and is 100 exactly when no load exceeds the mean.
  method EfficiencyScore(items: Items, weights: map<int, real>) returns (score: real)
    requires items != [] && forall i :: 0 <= i < |items| ==> items[i].1 >= 1
    ensures exists top :: Highest(top, items, weights, Mean(items)) && score == 100.0 * (Mean(items) / top)
    ensures 0.0 < score <= 100.0
    ensures score == 100.0 <==> forall i :: 0 <= i < |items| ==> Load(items[i], weights) <= Mean(items)
  {
    hide Load, Mean;
    var avgval := Mean(items);
    MeanPositive(items);
    var maxval := avgval;
    for i := 0 to |items|
      invariant avgval <= maxval
      invariant maxval == avgval || exists k :: 0 <= k < i && maxval == Load(items[k], weights)
      invariant forall k :: 0 <= k < i ==> Load(items[k], weights) <= maxval
    {
      var load := Load(items[i], weights);
      if load > maxval { maxval := load; }
    }
    score := 100.0 * (avgval / maxval);
    assert Highest(maxval, items, weights, avgval);
    ShareOf(avgval, maxval);
  }

  lemma ShareOf(x: real, y: real)
    requires 0.0 < x <= y
    ensures 0.0 < x / y <= 1.0 && (x / y == 1.0 <==> x == y)
  {
    var q := x / y;
    assert q * y == x;
  }

  lemma {:induction false} PgsPositive(items: Items)
    requires forall i :: 0 <= i < |items| ==> items[i].1 >= 1
    ensures Pgs(items) >= |items|
  {
    if items != [] { PgsPositive(items[..|items| - 1]); }
  }

  lemma MeanPositive(items: Items)
    requires items != [] && forall i :: 0 <= i < |items| ==> items[i].1 >= 1
    ensures Mean(items) > 0.0
  {
    PgsPositive(items);
    Positive(Pgs(items) as real, |items| as real);
  }

  lemma Positive(x: real, y: real)
    requires x > 0.0 && y > 0.0
    ensures x / y > 0.0
  {
  }

  // `fill_weights` for one dictionary.
  method FillWeights(items: Items) returns (weights: map<int, real>)
    requires items != [] && (forall i :: 0 <= i < |items| ==> items[i].1 >= 1)
    requires forall i, j :: 0 <= i < j < |items| ==> items[i].0 != items[j].0
    ensures forall i :: 0 <= i < |items| ==>
      items[i].0 in weights && Load(items[i], weights) == Mean(items) && weights[items[i].0] > 0.0
    ensures forall o :: o in weights ==> exists i :: 0 <= i < |items| && items[i].0 == o
  {
    hide Mean;
    var mean := Mean(items);
    MeanPositive(items);
    weights := map[];
    for i := 0 to |items|
      invariant forall k :: 0 <= k < i ==> items[k].0 in weights && weights[items[k].0] == mean / items[k].1 as real
      invariant forall o :: o in weights ==> exists k :: 0 <= k < i && items[k].0 == o
    {
      weights := weights[items[i].0 := mean / items[i].1 as real];
    }
    forall i | 0 <= i < |items| ensures Load(items[i], weights) == mean && weights[items[i].0] > 0.0 {
      Undone(mean, items[i].1 as real);
    }
  }

  lemma Undone(x: real, y: real)
    requires x > 0.0 && y > 0.0
    ensures x / y * y == x && x / y > 0.0
  {
  }

  // The scores `print_data` reports for a distribution, under its own weights and under others:
  // its own are optimal.
  method ScoreOwnWeights(items: Items, other: map<int, real>) returns (own: real, score: real)
    requires items != [] && (forall i :: 0 <= i < |items| ==> items[i].1 >= 1)
    requires forall i, j :: 0 <= i < j < |items| ==> items[i].0 != items[j].0
    ensures own == 100.0 >= score
  {
    var weights := FillWeights(items);
    own := EfficiencyScore(items, weights);
    score := EfficiencyScore(items, other);
  }

  // ---------- most and least used ----------

  // x comes before y: more placement groups for the top, fewer for the bottom.
  predicate Better(top: bool, x: (int, nat), y: (int, nat)) {
    if top then x.1 > y.1 else x.1 < y.1
  }

  // The stable sorting of a distribution, best first.
  function Insert(top: bool, x: (int, nat), sorted: Items): Items {
    if sorted == [] || !Better(top, x, sorted[|sorted| - 1]) then sorted + [x]
    else Insert(top, x, sorted[..|sorted| - 1]) + [sorted[|sorted| - 1]]
  }

  function Sorted(top: bool, items: Items): Items {
    if items == [] then [] else Insert(top, items[|items| - 1], Sorted(top, items[..|items| - 1]))
  }

  function Without(items: Items, k: nat): Items
    requires k < |items|
  {
    items[..k] + items[k + 1..]
  }

  // The first of the best items.
  predicate FirstBest(top: bool, items: Items, k: nat) {
    && k < |items| && (forall i :: 0 <= i < |items| ==> !Better(top, items[i], items[k]))
    && forall i :: 0 <= i < k ==> Better(top, items[k], items[i])
  }

  lemma {:induction false} InsertAfterBest(top: bool, x: (int, nat), b: (int, nat), sorted: Items)
    requires !Better(top, x, b)
    ensures Insert(top, x, [b] + sorted) == [b] + Insert(top, x, sorted)
  {
    var all := [b] + sorted;
    if sorted == [] {
      assert all == [b];
      assert [b] + ([] + [x]) == [b] + [x];
    } else {
      var n := |sorted| - 1;
      assert all[..|all| - 1] == [b] + sorted[..n];
      InsertAfterBest(top, x, b, sorted[..n]);
    }
  }

  lemma {:induction false} InsertBest(top: bool, x: (int, nat), sorted: Items)
    requires forall i :: 0 <= i < |sorted| ==> Better(top, x, sorted[i])
    ensures Insert(top, x, sorted) == [x] + sorted
  {
    if sorted != [] { InsertBest(top, x, sorted[..|sorted| - 1]); }
  }

  lemma {:induction false} InsertKeeps(top: bool, x: (int, nat), sorted: Items)
    ensures multiset(Insert(top, x, sorted)) == multiset(sorted) + multiset{x}
  {
    if sorted != [] {
      InsertKeeps(top, x, sorted[..|sorted| - 1]);
      assert sorted == sorted[..|sorted| - 1] + [sorted[|sorted| - 1]];
    }
  }

  lemma {:induction false} SortedKeeps(top: bool, items: Items)
    ensures multiset(Sorted(top, items)) == multiset(items) && |Sorted(top, items)| == |items|
  {
    if items != [] {
      var n := |items| - 1;
      SortedKeeps(top, items[..n]);
      InsertKeeps(top, items[n], Sorted(top, items[..n]));
      assert items == items[..n] + [items[n]];
      assert |multiset(Sorted(top, items))| == |Sorted(top, items)|;
    }
  }

  // The sorting starts with the first best item and goes on with the sorting of the others.
  lemma {:induction false} BestFirst(top: bool, items: Items, k: nat)
    requires FirstBest(top, items, k)
    ensures Sorted(top, items) == [items[k]] + Sorted(top, Without(items, k))
  {
    hide Better, Insert;
    var n := |items| - 1;
    if k < n {
      BestFirst(top, items[..n], k);
      WithoutEarlier(items, k);
      InsertAfterBest(top, items[n], items[k], Sorted(top, Without(items[..n], k)));
    } else {
      assert Without(items, n) == items[..n];
      BetterThanAll(top, items[n], items[..n]);
      InsertBest(top, items[n], Sorted(top, items[..n]));
    }
  }

  lemma WithoutEarlier(items: Items, k: nat)
    requires k < |items| - 1
    ensures var rest := Without(items, k);
      rest != [] && rest[..|rest| - 1] == Without(items[..|items| - 1], k) && rest[|rest| - 1] == items[|items| - 1]
  {
  }

  lemma BetterThanAll(top: bool, x: (int, nat), items: Items)
    requires forall i :: 0 <= i < |items| ==> Better(top, x, items[i])
    ensures forall i :: 0 <= i < |Sorted(top, items)| ==> Better(top, x, Sorted(top, items)[i])
  {
    hide Better;
    SortedKeeps(top, items);
    var sorted := Sorted(top, items);
    forall i | 0 <= i < |sorted| ensures Better(top, x, sorted[i]) {
      assert sorted[i] in multiset(items);
    }
  }

  predicate Ordered(top: bool, items: Items) {
    forall i, j :: 0 <= i < j < |items| ==> !Better(top, items[j], items[i])
  }

  lemma {:induction false} SortedIsOrdered(top: bool, items: Items)
    ensures Ordered(top, Sorted(top, items))
  {
    if items != [] {
      SortedIsOrdered(top, items[..|items| - 1]);
      InsertOrders(top, items[|items| - 1], Sorted(top, items[..|items| - 1]));
    }
  }

  lemma {:induction false} InsertOrders(top: bool, x: (int, nat), sorted: Items)
    requires Ordered(top, sorted)
    ensures Ordered(top, Insert(top, x, sorted))
  {
    hide Better, Ordered;
    if sorted == [] || !Better(top, x, sorted[|sorted| - 1]) {
      LastInOrder(top, x, sorted);
    } else {
      var n := |sorted| - 1;
      FirstInOrder(top, sorted);
      InsertOrders(top, x, sorted[..n]);
      BehindInserted(top, x, sorted);
      OneMoreInOrder(top, sorted[n], Insert(top, x, sorted[..n]));
    }
  }

  // An entry that is not better than the last comes behind all.
  lemma LastInOrder(top: bool, x: (int, nat), sorted: Items)
    requires Ordered(top, sorted) && (sorted == [] || !Better(top, x, sorted[|sorted| - 1]))
    ensures Ordered(top, sorted + [x])
  {
  }

  lemma FirstInOrder(top: bool, sorted: Items)
    requires Ordered(top, sorted) && sorted != []
    ensures Ordered(top, sorted[..|sorted| - 1])
  {
    hide Better;
  }

  lemma OneMoreInOrder(top: bool, x: (int, nat), sorted: Items)
    requires Ordered(top, sorted) && forall i :: 0 <= i < |sorted| ==> !Better(top, x, sorted[i])
    ensures Ordered(top, sorted + [x])
  {
    hide Better;
  }

  lemma BehindInserted(top: bool, x: (int, nat), sorted: Items)
    requires Ordered(top, sorted) && sorted != [] && Better(top, x, sorted[|sorted| - 1])
    ensures var n := |sorted| - 1;
      forall i :: 0 <= i < |Insert(top, x, sorted[..n])| ==> !Better(top, sorted[n], Insert(top, x, sorted[..n])[i])
  {
    hide Better, Insert;
    var n := |sorted| - 1;
    var before := Insert(top, x, sorted[..n]);
    InsertKeeps(top, x, sorted[..n]);
    NotBoth(top, x, sorted[n]);
    forall i | 0 <= i < |before| ensures !Better(top, sorted[n], before[i]) {
      assert before[i] in multiset(before);
      assert before[i] == x || before[i] in sorted[..n];
    }
  }

  lemma NotBoth(top: bool, x: (int, nat), y: (int, nat))
    ensures !(Better(top, x, y) && Better(top, y, x))
  {
  }

  // `get_max` or `get_min` with `index`.
  method IndexOfBest(top: bool, values: Items) returns (k: nat)
    requires values != []
    ensures FirstBest(top, values, k)
  {
    k := 0;
    for i := 1 to |values|
      invariant k < i
      invariant forall j :: 0 <= j < i ==> !Better(top, values[j], values[k])
      invariant forall j :: 0 <= j < k ==> Better(top, values[k], values[j])
    {
      if Better(top, values[i], values[k]) { k := i; }
    }
  }

  // Their loop takes the best entry out of the dictionary, again and again; None where it runs out,
  // which is an error.
  method TakeBest(top: bool, count: nat, data: Items) returns (r: Option<Items>)
    ensures r.None? <==> count > |data|
    ensures r.Some? ==> |Sorted(top, data)| == |data| && r.value == Sorted(top, data)[..count]
  {
    hide FirstBest, Sorted, Better;
    var rest, best := data, [];
    SortedKeeps(top, data);
    for x := 0 to count
      invariant x + |rest| == |data| && |best| == x
      invariant Sorted(top, data) == best + Sorted(top, rest)
    {
      if rest == [] { return None; }
      var index := IndexOfBest(top, rest);
      BestFirst(top, rest, index);
      best := best + [rest[index]];
      rest := Without(rest, index);
    }
    r := Some(best);
  }

  // `get_top` and `get_bottom`: the first `count` of the sorting.
  method GetBest(top: bool, count: nat, data: Items) returns (r: Option<Items>)
    ensures r.None? <==> count > |data|
    ensures r.Some? ==> |Sorted(top, data)| == |data| && r.value == Sorted(top, data)[..count]
    ensures r.Some? ==> |r.value| == count && multiset(r.value) <= multiset(data)
    ensures r.Some? && top ==>
      && (forall i, j :: 0 <= i < j < count ==> r.value[i].1 >= r.value[j].1)
      && forall x, y :: x in multiset(data) - multiset(r.value) && y in r.value ==> x.1 <= y.1
    ensures r.Some? && !top ==>
      && (forall i, j :: 0 <= i < j < count ==> r.value[i].1 <= r.value[j].1)
      && forall x, y :: x in multiset(data) - multiset(r.value) && y in r.value ==> x.1 >= y.1
  {
    hide Sorted;
    r := TakeBest(top, count, data);
    if r.Some? { FirstsAreBest(top, data, count); }
  }

  // The first entries of the sorting are in the order of their counts, and none of the others has a
  // better one.
  lemma FirstsAreBest(top: bool, data: Items, count: nat)
    requires count <= |data| && |Sorted(top, data)| == |data|
    ensures var best := Sorted(top, data)[..count];
      && multiset(best) <= multiset(data)
      && (forall i, j :: 0 <= i < j < count ==> if top then best[i].1 >= best[j].1 else best[i].1 <= best[j].1)
      && forall x, y :: x in multiset(data) - multiset(best) && y in best ==> if top then x.1 <= y.1 else x.1 >= y.1
  {
    hide Sorted, Ordered;
    var sorted := Sorted(top, data);
    SortedKeeps(top, data);
    SortedIsOrdered(top, data);
    assert sorted == sorted[..count] + sorted[count..];
    assert multiset(data) - multiset(sorted[..count]) == multiset(sorted[count..]);
    Ranked(top, sorted, count);
  }

  lemma Ranked(top: bool, sorted: Items, count: nat)
    requires Ordered(top, sorted) && count <= |sorted|
    ensures var best := sorted[..count];
      && (forall i, j :: 0 <= i < j < count ==> if top then best[i].1 >= best[j].1 else best[i].1 <= best[j].1)
      && forall x, y :: x in sorted[count..] && y in best ==> if top then x.1 <= y.1 else x.1 >= y.1
  {
  }

  // The entries with one count, in their order.
  function Having(items: Items, n: nat): Items {
    if items == [] then [] else
      var x := items[|items| - 1];
      Having(items[..|items| - 1], n) + if x.1 == n then [x] else []
  }

  lemma HavingMore(items: Items, x: (int, nat), n: nat)
    ensures Having(items + [x], n) == Having(items, n) + if x.1 == n then [x] else []
  {
    assert (items + [x])[..|items|] == items;
  }

  lemma {:induction false} InsertStable(top: bool, x: (int, nat), sorted: Items, n: nat)
    requires Ordered(top, sorted)
    ensures Having(Insert(top, x, sorted), n) == Having(sorted + [x], n)
  {
    hide Having;
    if sorted != [] && Better(top, x, sorted[|sorted| - 1]) {
      var l := |sorted| - 1;
      InsertStable(top, x, sorted[..l], n);
      assert sorted == sorted[..l] + [sorted[l]];
      HavingMore(sorted[..l], x, n);
      HavingMore(sorted[..l], sorted[l], n);
      HavingMore(sorted, x, n);
      HavingMore(Insert(top, x, sorted[..l]), sorted[l], n);
    }
  }

  // Entries with one count come in the order of the dictionary.
  lemma {:induction false} SortedStable(top: bool, items: Items, n: nat)
    ensures Having(Sorted(top, items), n) == Having(items, n)
  {
    hide Having, Insert, Ordered, Better;
    if items != [] {
      var l := |items| - 1;
      SortedStable(top, items[..l], n);
      SortedIsOrdered(top, items[..l]);
      InsertStable(top, items[l], Sorted(top, items[..l]), n);
      HavingMore(Sorted(top, items[..l]), items[l], n);
      HavingMore(items[..l], items[l], n);
      assert items == items[..l] + [items[l]];
    }
  }

  // ---------- the code of `add_counts` ----------

  class PgMap {
    var poolCounts: map<string, Counts>
    var totalCounts: Counts

    constructor ()
      ensures Book(poolCounts, totalCounts) == Run([])
    {
      poolCounts, totalCounts := map[], EMPTY;
    }

    // False is an IndexError.
    method AddCounts(pg: Pg) returns (ok: bool)
      modifies this
      ensures ok <==> pg.Placed()
      ensures ok ==> Book(poolCounts, totalCounts) == Entered(Book(old(poolCounts), old(totalCounts)), pg)
    {
      hide Added, AddedAll;
      if pg.pool !in poolCounts {
        poolCounts := poolCounts[pg.pool := EMPTY];
        totalCounts := EMPTY.(pgs := totalCounts.pgs);
      }
      var c, t := poolCounts[pg.pool], totalCounts;
      c, t := c.(pgs := c.pgs + 1), t.(pgs := t.pgs + 1);
      if pg.up == [] {
        poolCounts, totalCounts := poolCounts[pg.pool := c], t;
        return false;
      }
      c := c.(upPrimaries := Added(c.upPrimaries, pg.up[0]));
      t := t.(upPrimaries := Added(t.upPrimaries, pg.up[0]));
      var cs, ts := CountEach(c.upSecondaries, t.upSecondaries, pg.up, 1);
      c, t := c.(upSecondaries := cs), t.(upSecondaries := ts);
      cs, ts := CountEach(c.upTotals, t.upTotals, pg.up, 0);
      c, t := c.(upTotals := cs), t.(upTotals := ts);
      if pg.acting == [] {
        poolCounts, totalCounts := poolCounts[pg.pool := c], t;
        return false;
      }
      c := c.(actingPrimaries := Added(c.actingPrimaries, pg.acting[0]));
      t := t.(actingPrimaries := Added(t.actingPrimaries, pg.acting[0]));
      cs, ts := CountEach(c.actingSecondaries, t.actingSecondaries, pg.acting, 1);
      c, t := c.(actingSecondaries := cs), t.(actingSecondaries := ts);
      cs, ts := CountEach(c.actingTotals, t.actingTotals, pg.acting, 0);
      c, t := c.(actingTotals := cs), t.(actingTotals := ts);
      poolCounts, totalCounts := poolCounts[pg.pool := c], t;
      ok := true;
    }

    // The loops of `add_counts`: from the given place on, in the pool's dictionary and in the totals.
    method CountEach(c: Dict, t: Dict, osds: seq<int>, from: nat) returns (c': Dict, t': Dict)
      requires from <= |osds|
      ensures c' == AddedAll(c, osds[from..]) && t' == AddedAll(t, osds[from..])
      ensures from == 0 ==> c' == AddedAll(c, osds) && t' == AddedAll(t, osds)
    {
      hide Added;
      c', t' := c, t;
      for x := from to |osds|
        invariant c' == AddedAll(c, osds[from..x]) && t' == AddedAll(t, osds[from..x])
      {
        assert osds[from..x + 1][..x - from] == osds[from..x];
        c' := Added(c', osds[x]);
        t' := Added(t', osds[x]);
      }
      assert osds[from..|osds|] == osds[from..];
      if from == 0 { assert osds[0..] == osds; }
    }
  }

  // A whole dump: false if some placement group is without OSDs.
  method ReadAll(map': PgMap, pgs: seq<Pg>) returns (ok: bool)
    requires Book(map'.poolCounts, map'.totalCounts) == Run([])
    modifies map'
    ensures ok <==> AllPlaced(pgs)
    ensures ok ==> Book(map'.poolCounts, map'.totalCounts) == Run(pgs)
  {
    hide Entered, Run;
    assert pgs[..0] == [];
    for i := 0 to |pgs|
      invariant AllPlaced(pgs[..i]) && Book(map'.poolCounts, map'.totalCounts) == Run(pgs[..i])
    {
      var added := map'.AddCounts(pgs[i]);
      if !added { return false; }
      RunMore(pgs, i);
    }
    assert pgs[..|pgs|] == pgs;
    ok := true;
  }

  lemma RunMore(pgs: seq<Pg>, i: nat)
    requires i < |pgs| && AllPlaced(pgs[..i]) && pgs[i].Placed()
    ensures AllPlaced(pgs[..i + 1]) && Run(pgs[..i + 1]) == Entered(Run(pgs[..i]), pgs[i])
  {
    assert pgs[..i + 1][..i] == pgs[..i];
  }
}
