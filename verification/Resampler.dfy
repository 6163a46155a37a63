/** The resampler of `tools/radosbenchparser.py`: time series of samples with a start, an
    end and a value are cut into intervals of equal length; each interval reports weighted
    averages and weighted percentiles. Times are integers, as in the source; values and
    weights are exact reals. */
module Resampler {

  datatype Option<T> = None | Some(value: T)

  datatype Sample = Sample(start: int, end: int, value: real) {
    // `get_weight`: the share of the interval that the sample fills.
    function Weight(iv: Interval): real
      requires iv.Proper()
    {
      if iv.end < start || iv.start > end then 0.0
      else
        var sbound := if iv.start < start then start else iv.start;
        var ebound := if iv.end > end then end else iv.end;
        (ebound - sbound) as real / iv.Length()
    }

    function Part(iv: Interval): real
      requires iv.Proper()
    {
      value * Weight(iv)
    }

    // Its integral from a to b.
    function Piece(a: int, b: int): real {
      value * Overlap(a, b) as real
    }

    // The time the sample and the stretch from a to b have in common.
    function Overlap(a: int, b: int): int {
      Max(0, Min(b, end) - Max(a, start))
    }
  }

  datatype Interval = Interval(start: int, end: int) {
    predicate Proper() { start < end }

    function Length(): (r: real)
      requires Proper()
      ensures r > 0.0
    {
      (end - start) as real
    }
  }

  function Min(x: int, y: int): int { if x < y then x else y }

  function Max(x: int, y: int): int { if x > y then x else y }

  lemma WeightIsShare(s: Sample, iv: Interval)
    requires iv.Proper()
    ensures s.Weight(iv) > 0.0 <==> s.Overlap(iv.start, iv.end) > 0
    ensures s.Weight(iv) > 0.0 ==> s.Weight(iv) * iv.Length() == s.Overlap(iv.start, iv.end) as real
    ensures s.Weight(iv) <= 0.0 ==> s.Overlap(iv.start, iv.end) == 0
  {
  }

  // ---------- sums ----------

  function Sum(xs: seq<real>): real {
    if xs == [] then 0.0 else Sum(xs[..|xs| - 1]) + xs[|xs| - 1]
  }

  // What the loop of `get_wa` adds up.
  function Total(xs: seq<Sample>, iv: Interval): real
    requires iv.Proper()
  {
    if xs == [] then 0.0 else
      var s := xs[|xs| - 1];
      Total(xs[..|xs| - 1], iv) + s.Part(iv)
  }

  function WeightOf(xs: seq<Sample>, iv: Interval): real
    requires iv.Proper()
  {
    if xs == [] then 0.0 else WeightOf(xs[..|xs| - 1], iv) + xs[|xs| - 1].Weight(iv)
  }

  // The samples of a series that `TimeSeries.get_samples` keeps.
  function Live(xs: seq<Sample>, iv: Interval): seq<Sample>
    requires iv.Proper()
  {
    if xs == [] then [] else
      var s := xs[|xs| - 1];
      Live(xs[..|xs| - 1], iv) + if s.Weight(iv) > 0.0 then [s] else []
  }

  // The samples of all series, one series after the other.
  function Flat(lists: seq<seq<Sample>>, iv: Interval): seq<Sample>
    requires iv.Proper()
  {
    if lists == [] then [] else Flat(lists[..|lists| - 1], iv) + Live(lists[|lists| - 1], iv)
  }

  // The integral of a series from a to b: value times time.
  function Area(xs: seq<Sample>, a: int, b: int): real {
    if xs == [] then 0.0 else
      var s := xs[|xs| - 1];
      Area(xs[..|xs| - 1], a, b) + s.Piece(a, b)
  }

  function Areas(lists: seq<seq<Sample>>, a: int, b: int): real {
    if lists == [] then 0.0 else Areas(lists[..|lists| - 1], a, b) + Area(lists[|lists| - 1], a, b)
  }

  // `get_wa_list`, `get_wa_sum` and `get_wa_avg`.
  function WaList(lists: seq<seq<Sample>>, iv: Interval): seq<real>
    requires iv.Proper()
  {
    if lists == [] then [] else WaList(lists[..|lists| - 1], iv) + [Total(Live(lists[|lists| - 1], iv), iv) / 1.0]
  }

  function WaSum(lists: seq<seq<Sample>>, iv: Interval): real
    requires iv.Proper()
  {
    Sum(WaList(lists, iv))
  }

  function WaAvg(lists: seq<seq<Sample>>, iv: Interval): real
    requires iv.Proper() && lists != []
  {
    WaSum(lists, iv) / |lists| as real
  }

  // ---------- resampling conserves the integral ----------

  lemma PartIsPiece(s: Sample, iv: Interval)
    requires iv.Proper()
    ensures s.Weight(iv) > 0.0 ==> s.Part(iv) * iv.Length() == s.Piece(iv.start, iv.end)
    ensures s.Weight(iv) <= 0.0 ==> s.Piece(iv.start, iv.end) == 0.0
  {
    hide Sample.Weight, Sample.Overlap, Interval.Length;
    var v, w, l, o := s.value, s.Weight(iv), iv.Length(), s.Overlap(iv.start, iv.end);
    WeightIsShare(s, iv);
    if w > 0.0 {
      Associate(v, w, l);
    } else {
      Nothing(v, o);
    }
  }

  lemma Associate(v: real, w: real, l: real)
    ensures v * w * l == v * (w * l)
  {
  }

  lemma Nothing(v: real, o: int)
    requires o == 0
    ensures v * o as real == 0.0
  {
  }

  lemma TotalMore(xs: seq<Sample>, s: Sample, iv: Interval)
    requires iv.Proper()
    ensures Total(xs + [s], iv) == Total(xs, iv) + s.Part(iv)
  {
    hide Sample.Part;
    assert (xs + [s])[..|xs|] == xs;
  }

  lemma {:induction false} LiveArea(xs: seq<Sample>, iv: Interval)
    requires iv.Proper()
    ensures Total(Live(xs, iv), iv) * iv.Length() == Area(xs, iv.start, iv.end)
  {
    hide Total, Sample.Weight, Sample.Part, Sample.Piece, Interval.Length;
    if xs == [] {
      NoSamples(iv);
    } else {
      var n := |xs| - 1;
      var s, before := xs[n], Live(xs[..n], iv);
      LiveArea(xs[..n], iv);
      PartIsPiece(s, iv);
      if s.Weight(iv) > 0.0 {
        TotalMore(before, s, iv);
        Distribute(Total(before, iv), s.Part(iv), iv.Length());
      } else {
        assert Live(xs, iv) == before;
      }
    }
  }

  lemma Distribute(x: real, y: real, l: real)
    ensures (x + y) * l == x * l + y * l && y / 1.0 == y
  {
  }

  lemma {:induction false} WaSumArea(lists: seq<seq<Sample>>, iv: Interval)
    requires iv.Proper()
    ensures |WaList(lists, iv)| == |lists|
    ensures WaSum(lists, iv) * iv.Length() == Areas(lists, iv.start, iv.end)
  {
    hide Area, Live, Total, Interval.Length;
    if lists != [] {
      var n := |lists| - 1;
      WaSumArea(lists[..n], iv);
      LiveArea(lists[n], iv);
      var before := WaList(lists[..n], iv);
      assert WaList(lists, iv)[..n] == before;
      Distribute(Sum(before), Total(Live(lists[n], iv), iv), iv.Length());
    }
  }

  // `get_wa_avg` is the integral of all series over the length of the interval and their number.
  lemma AverageIsArea(lists: seq<seq<Sample>>, iv: Interval)
    requires iv.Proper() && lists != []
    ensures WaAvg(lists, iv) == Areas(lists, iv.start, iv.end) / iv.Length() / |lists| as real
  {
    hide WaSum, Areas, Interval.Length;
    SumIsArea(lists, iv);
  }

  lemma SumIsArea(lists: seq<seq<Sample>>, iv: Interval)
    requires iv.Proper()
    ensures WaSum(lists, iv) == Areas(lists, iv.start, iv.end) / iv.Length()
  {
    hide WaSum, Areas, Interval.Length;
    WaSumArea(lists, iv);
    Quotient(WaSum(lists, iv), Areas(lists, iv.start, iv.end), iv.Length());
  }

  lemma OverAgain(x: real, n: real)
    requires n != 0.0
    ensures x / n * n == x
  {
  }

  lemma OverlapSplits(s: Sample, a: int, b: int, c: int)
    requires a <= b <= c
    ensures s.Overlap(a, c) == s.Overlap(a, b) + s.Overlap(b, c)
  {
  }

  lemma PieceSplits(s: Sample, a: int, b: int, c: int)
    requires a <= b <= c
    ensures s.Piece(a, c) == s.Piece(a, b) + s.Piece(b, c)
  {
    hide Sample.Overlap;
    OverlapSplits(s, a, b, c);
    Parts(s.value, s.Overlap(a, b), s.Overlap(b, c));
  }

  lemma Parts(v: real, x: int, y: int)
    ensures v * (x + y) as real == v * x as real + v * y as real
  {
  }

  lemma {:induction false} AreaSplits(xs: seq<Sample>, a: int, b: int, c: int)
    requires a <= b <= c
    ensures Area(xs, a, c) == Area(xs, a, b) + Area(xs, b, c)
  {
    hide Sample.Piece;
    if xs != [] {
      AreaSplits(xs[..|xs| - 1], a, b, c);
      PieceSplits(xs[|xs| - 1], a, b, c);
    }
  }

  lemma {:induction false} AreasSplit(lists: seq<seq<Sample>>, a: int, b: int, c: int)
    requires a <= b <= c
    ensures Areas(lists, a, c) == Areas(lists, a, b) + Areas(lists, b, c)
  {
    if lists != [] {
      AreasSplit(lists[..|lists| - 1], a, b, c);
      AreaSplits(lists[|lists| - 1], a, b, c);
    }
  }

  // Intervals that follow one another from a to b without gap or overlap.
  predicate Chained(ivs: seq<Interval>, a: int, b: int) {
    if ivs == [] then a == b else
      var last := ivs[|ivs| - 1];
      last.Proper() && last.end == b && Chained(ivs[..|ivs| - 1], a, last.start)
  }

  lemma {:induction false} ChainedForward(ivs: seq<Interval>, a: int, b: int)
    requires Chained(ivs, a, b)
    ensures a <= b && (ivs != [] ==> a < b)
    ensures forall k :: 0 <= k < |ivs| ==> ivs[k].Proper() && a <= ivs[k].start && ivs[k].end <= b
  {
    if ivs != [] { ChainedForward(ivs[..|ivs| - 1], a, ivs[|ivs| - 1].start); }
  }

  predicate Covers(iv: Interval, t: int) { iv.start <= t < iv.end }

  // Every moment from a to b lies in exactly one of them.
  lemma {:induction false} OneInterval(ivs: seq<Interval>, a: int, b: int, t: int) returns (k: nat)
    requires Chained(ivs, a, b) && a <= t < b
    ensures k < |ivs| && forall j :: 0 <= j < |ivs| ==> (Covers(ivs[j], t) <==> j == k)
  {
    var n := |ivs| - 1;
    ChainedForward(ivs[..n], a, ivs[n].start);
    if ivs[n].start <= t {
      k := n;
      forall j | 0 <= j < n ensures !Covers(ivs[j], t) { assert ivs[j] == ivs[..n][j]; }
    } else {
      k := OneInterval(ivs[..n], a, ivs[n].start, t);
      forall j | 0 <= j < n ensures Covers(ivs[j], t) <==> j == k { assert ivs[j] == ivs[..n][j]; }
    }
  }

  // The sum over the intervals of the weighted average times the interval's length.
  function Resampled(lists: seq<seq<Sample>>, ivs: seq<Interval>): real
    requires forall k :: 0 <= k < |ivs| ==> ivs[k].Proper()
  {
    if ivs == [] then 0.0 else
      var iv := ivs[|ivs| - 1];
      Resampled(lists, ivs[..|ivs| - 1]) + WaSum(lists, iv) * iv.Length()
  }

  // However the time from a to b is cut up, and whatever the samples, resampling conserves
  // the integral of the series.
  lemma {:induction false} Conserves(lists: seq<seq<Sample>>, ivs: seq<Interval>, a: int, b: int)
    requires Chained(ivs, a, b)
    ensures forall k :: 0 <= k < |ivs| ==> ivs[k].Proper()
    ensures Resampled(lists, ivs) == Areas(lists, a, b)
  {
    hide WaSum, Areas, Interval.Length;
    ChainedForward(ivs, a, b);
    if ivs == [] {
      NoTime(lists, a);
    } else {
      var n := |ivs| - 1;
      Conserves(lists, ivs[..n], a, ivs[n].start);
      ChainedForward(ivs[..n], a, ivs[n].start);
      WaSumArea(lists, ivs[n]);
      AreasSplit(lists, a, ivs[n].start, b);
    }
  }

  lemma {:induction false} NoTime(lists: seq<seq<Sample>>, a: int)
    ensures Areas(lists, a, a) == 0.0
  {
    if lists != [] {
      NoTime(lists[..|lists| - 1], a);
      NoTimeIn(lists[|lists| - 1], a);
    }
  }

  lemma {:induction false} NoTimeIn(xs: seq<Sample>, a: int)
    ensures Area(xs, a, a) == 0.0
  {
    if xs != [] {
      NoTimeIn(xs[..|xs| - 1], a);
      Nothing(xs[|xs| - 1].value, xs[|xs| - 1].Overlap(a, a));
    }
  }

  // ---------- series that cover an interval ----------

  // One sample begins where the one before ends.
  predicate Contiguous(xs: seq<Sample>) {
    && (forall i :: 0 <= i < |xs| ==> xs[i].start <= xs[i].end)
    && (forall i :: 0 < i < |xs| ==> xs[i].start == xs[i - 1].end)
  }

  predicate Covering(xs: seq<Sample>, iv: Interval) {
    Contiguous(xs) && xs != [] && xs[0].start <= iv.start && iv.end <= xs[|xs| - 1].end
  }

  function Overlaps(xs: seq<Sample>, a: int, b: int): int {
    if xs == [] then 0 else Overlaps(xs[..|xs| - 1], a, b) + xs[|xs| - 1].Overlap(a, b)
  }

  lemma {:induction false} OverlapsOfContiguous(xs: seq<Sample>, a: int, b: int)
    requires Contiguous(xs) && xs != [] && xs[0].start <= a <= b
    ensures Overlaps(xs, a, b) == Max(0, Min(b, xs[|xs| - 1].end) - a)
  {
    var n := |xs| - 1;
    if n > 0 {
      OverlapsOfContiguous(xs[..n], a, b);
    } else {
      assert xs[..0] == [];
    }
  }

  lemma WeightMore(xs: seq<Sample>, s: Sample, iv: Interval)
    requires iv.Proper()
    ensures WeightOf(xs + [s], iv) == WeightOf(xs, iv) + s.Weight(iv)
  {
    hide Sample.Weight;
    assert (xs + [s])[..|xs|] == xs;
  }

  lemma {:induction false} LiveWeight(xs: seq<Sample>, iv: Interval)
    requires iv.Proper()
    ensures WeightOf(Live(xs, iv), iv) * iv.Length() == Overlaps(xs, iv.start, iv.end) as real
  {
    hide WeightOf, Sample.Weight, Sample.Overlap, Interval.Length;
    if xs == [] {
      NoSamples(iv);
    } else {
      var n := |xs| - 1;
      var s, before := xs[n], Live(xs[..n], iv);
      LiveWeight(xs[..n], iv);
      WeightIsShare(s, iv);
      if s.Weight(iv) > 0.0 {
        WeightMore(before, s, iv);
        Distribute(WeightOf(before, iv), s.Weight(iv), iv.Length());
      } else {
        assert Live(xs, iv) == before;
      }
    }
  }

  lemma Whole(w: real, l: real, o: real)
    requires l > 0.0 && w * l == o && o == l
    ensures w == 1.0
  {
    assert w * l / l == w;
  }

  // The weights of a series that covers the interval sum to one.
  lemma WeightsSumToOne(xs: seq<Sample>, iv: Interval)
    requires iv.Proper() && Covering(xs, iv)
    ensures WeightOf(Live(xs, iv), iv) == 1.0
  {
    hide Live, WeightOf, Overlaps;
    LiveWeight(xs, iv);
    OverlapsOfContiguous(xs, iv.start, iv.end);
    var w, l, o := WeightOf(Live(xs, iv), iv), iv.Length(), Overlaps(xs, iv.start, iv.end);
    assert o == iv.end - iv.start;
    Whole(w, l, o as real);
  }

  lemma {:induction false} Joined(xs: seq<Sample>, ys: seq<Sample>, iv: Interval)
    requires iv.Proper()
    ensures Total(xs + ys, iv) == Total(xs, iv) + Total(ys, iv)
    ensures WeightOf(xs + ys, iv) == WeightOf(xs, iv) + WeightOf(ys, iv)
  {
    if ys == [] {
      assert xs + ys == xs;
    } else {
      var n := |ys| - 1;
      Joined(xs, ys[..n], iv);
      assert (xs + ys)[..|xs + ys| - 1] == xs + ys[..n];
    }
  }

  predicate AllCovering(lists: seq<seq<Sample>>, iv: Interval) {
    forall i :: 0 <= i < |lists| ==> Covering(lists[i], iv)
  }

  lemma NoSamples(iv: Interval)
    requires iv.Proper()
    ensures Total([], iv) == 0.0 && WeightOf([], iv) == 0.0
  {
  }

  lemma {:induction false} FlatSums(lists: seq<seq<Sample>>, iv: Interval)
    requires iv.Proper()
    ensures Total(Flat(lists, iv), iv) == WaSum(lists, iv)
    ensures AllCovering(lists, iv) ==> WeightOf(Flat(lists, iv), iv) == |lists| as real
  {
    hide Sample.Weight, Live, Total, Covering;
    if lists == [] {
      assert Flat(lists, iv) == [];
      NoSamples(iv);
    } else {
      var n := |lists| - 1;
      FlatSums(lists[..n], iv);
      Joined(Flat(lists[..n], iv), Live(lists[n], iv), iv);
      WaSumArea(lists[..n], iv);
      assert WaList(lists, iv)[..n] == WaList(lists[..n], iv);
      if AllCovering(lists, iv) { WeightsSumToOne(lists[n], iv); }
    }
  }

  lemma {:induction false} LiveWeigh(xs: seq<Sample>, iv: Interval)
    requires iv.Proper()
    ensures forall s <- Live(xs, iv) :: s in xs && s.Weight(iv) > 0.0
  {
    if xs != [] { LiveWeigh(xs[..|xs| - 1], iv); }
  }

  lemma {:induction false} FlatWeigh(lists: seq<seq<Sample>>, iv: Interval)
    requires iv.Proper()
    ensures forall s <- Flat(lists, iv) :: s.Weight(iv) > 0.0
  {
    if lists != [] {
      FlatWeigh(lists[..|lists| - 1], iv);
      LiveWeigh(lists[|lists| - 1], iv);
    }
  }

  lemma Between(lo: real, v: real, hi: real, w: real)
    requires lo <= v <= hi && w >= 0.0
    ensures lo * w <= v * w <= hi * w
  {
  }

  lemma PartBetween(s: Sample, iv: Interval, lo: real, hi: real)
    requires iv.Proper() && s.Weight(iv) >= 0.0 && lo <= s.value <= hi
    ensures lo * s.Weight(iv) <= s.Part(iv) <= hi * s.Weight(iv)
  {
    hide Sample.Weight;
    Between(lo, s.value, hi, s.Weight(iv));
  }

  lemma Turn(x: real, w: real, v: real)
    ensures x * (w + v) == x * w + x * v
  {
  }

  lemma {:induction false} TotalBetween(xs: seq<Sample>, iv: Interval, lo: real, hi: real)
    requires iv.Proper()
    requires forall s <- xs :: s.Weight(iv) >= 0.0 && lo <= s.value <= hi
    ensures lo * WeightOf(xs, iv) <= Total(xs, iv) <= hi * WeightOf(xs, iv)
  {
    hide Sample.Weight, Sample.Part;
    if xs != [] {
      var n := |xs| - 1;
      var w := WeightOf(xs[..n], iv);
      TotalBetween(xs[..n], iv, lo, hi);
      PartBetween(xs[n], iv, lo, hi);
      Turn(lo, w, xs[n].Weight(iv));
      Turn(hi, w, xs[n].Weight(iv));
    }
  }

  // `get_min` and `get_max`, for an interval with samples.
  function Least(xs: seq<Sample>): (r: real)
    requires xs != []
    ensures (forall s <- xs :: r <= s.value) && exists s <- xs :: s.value == r
  {
    var v := xs[|xs| - 1].value;
    if |xs| == 1 then v else
      var m := Least(xs[..|xs| - 1]);
      if v < m then v else m
  }

  function Greatest(xs: seq<Sample>): (r: real)
    requires xs != []
    ensures (forall s <- xs :: s.value <= r) && exists s <- xs :: s.value == r
  {
    var v := xs[|xs| - 1].value;
    if |xs| == 1 then v else
      var m := Greatest(xs[..|xs| - 1]);
      if v > m then v else m
  }

  lemma Divide(lo: real, t: real, hi: real, n: real)
    requires n > 0.0 && lo * n <= t <= hi * n
    ensures lo <= t / n <= hi
  {
    assert t / n * n == t;
  }

  lemma MeanBetween(xs: seq<Sample>, iv: Interval, n: real)
    requires iv.Proper() && n > 0.0 && WeightOf(xs, iv) == n
    requires forall s <- xs :: s.Weight(iv) > 0.0
    ensures xs != [] && Least(xs) <= Total(xs, iv) / n <= Greatest(xs)
  {
    hide Sample.Weight, Total, WeightOf, Least, Greatest;
    NoSamples(iv);
    assert xs != [];
    TotalBetween(xs, iv, Least(xs), Greatest(xs));
    Divide(Least(xs), Total(xs, iv), Greatest(xs), n);
  }

  // The average over the series lies between the smallest and the largest sample.
  lemma AverageBetween(lists: seq<seq<Sample>>, iv: Interval)
    requires iv.Proper() && lists != [] && AllCovering(lists, iv)
    ensures Flat(lists, iv) != []
    ensures Least(Flat(lists, iv)) <= WaAvg(lists, iv) <= Greatest(Flat(lists, iv))
  {
    hide Sample.Weight, Flat, Total, WaSum, AllCovering, Least, Greatest, WeightOf;
    FlatSums(lists, iv);
    FlatWeigh(lists, iv);
    MeanBetween(Flat(lists, iv), iv, |lists| as real);
  }

  // ---------- weighted percentiles ----------

  // The order of `samples.sort(key=...)`: stable, by value.
  function Insert(s: Sample, xs: seq<Sample>): seq<Sample> {
    if xs == [] || xs[|xs| - 1].value <= s.value then xs + [s]
    else Insert(s, xs[..|xs| - 1]) + [xs[|xs| - 1]]
  }

  function ByValue(xs: seq<Sample>): seq<Sample> {
    if xs == [] then [] else Insert(xs[|xs| - 1], ByValue(xs[..|xs| - 1]))
  }

  predicate Sorted(xs: seq<Sample>) {
    forall i, j :: 0 <= i < j < |xs| ==> xs[i].value <= xs[j].value
  }

  predicate AtMost(xs: seq<Sample>, v: real) {
    forall k :: 0 <= k < |xs| ==> xs[k].value <= v
  }

  lemma {:induction false} InsertKeeps(s: Sample, xs: seq<Sample>)
    ensures multiset(Insert(s, xs)) == multiset(xs) + multiset{s}
  {
    var n := |xs| - 1;
    if xs != [] && xs[n].value > s.value {
      InsertKeeps(s, xs[..n]);
      assert xs == xs[..n] + [xs[n]];
    }
  }

  lemma {:induction false} InsertAtMost(s: Sample, xs: seq<Sample>, v: real)
    requires AtMost(xs, v) && s.value <= v
    ensures AtMost(Insert(s, xs), v)
  {
    var n := |xs| - 1;
    if xs != [] && xs[n].value > s.value { InsertAtMost(s, xs[..n], v); }
  }

  lemma SortedMore(xs: seq<Sample>, s: Sample)
    requires Sorted(xs) && AtMost(xs, s.value)
    ensures Sorted(xs + [s])
  {
  }

  lemma SortedLess(xs: seq<Sample>)
    requires Sorted(xs) && xs != []
    ensures Sorted(xs[..|xs| - 1]) && AtMost(xs, xs[|xs| - 1].value) && AtMost(xs[..|xs| - 1], xs[|xs| - 1].value)
  {
  }

  lemma AtMostMore(xs: seq<Sample>, v: real, w: real)
    requires AtMost(xs, v) && v <= w
    ensures AtMost(xs, w)
  {
  }

  lemma {:induction false} InsertSorts(s: Sample, xs: seq<Sample>)
    requires Sorted(xs)
    ensures Sorted(Insert(s, xs)) && multiset(Insert(s, xs)) == multiset(xs) + multiset{s}
  {
    hide Sorted, AtMost;
    var n := |xs| - 1;
    InsertKeeps(s, xs);
    if xs == [] {
      NoneSorted();
      SortedMore(xs, s);
    } else {
      SortedLess(xs);
      if xs[n].value <= s.value {
        AtMostMore(xs, xs[n].value, s.value);
        SortedMore(xs, s);
      } else {
        InsertSorts(s, xs[..n]);
        InsertAtMost(s, xs[..n], xs[n].value);
        SortedMore(Insert(s, xs[..n]), xs[n]);
      }
    }
  }

  lemma {:induction false} InsertWeight(s: Sample, xs: seq<Sample>, iv: Interval)
    requires iv.Proper()
    ensures WeightOf(Insert(s, xs), iv) == WeightOf(xs, iv) + s.Weight(iv)
  {
    hide Sample.Weight;
    var n := |xs| - 1;
    if xs == [] || xs[n].value <= s.value {
      assert (xs + [s])[..|xs|] == xs;
    } else {
      var before := Insert(s, xs[..n]);
      InsertWeight(s, xs[..n], iv);
      assert (before + [xs[n]])[..|before|] == before;
    }
  }

  lemma {:induction false} ByValueSorts(xs: seq<Sample>)
    ensures Sorted(ByValue(xs)) && multiset(ByValue(xs)) == multiset(xs)
  {
    hide Sorted, Insert;
    if xs == [] {
      NoneSorted();
    } else {
      var n := |xs| - 1;
      ByValueSorts(xs[..n]);
      InsertSorts(xs[n], ByValue(xs[..n]));
      assert xs == xs[..n] + [xs[n]];
    }
  }

  lemma NoneSorted()
    ensures Sorted([]) && forall v :: AtMost([], v)
  {
  }

  lemma {:induction false} ByValueWeight(xs: seq<Sample>, iv: Interval)
    requires iv.Proper()
    ensures WeightOf(ByValue(xs), iv) == WeightOf(xs, iv)
  {
    hide Sample.Weight, Insert;
    if xs != [] {
      var n := |xs| - 1;
      ByValueWeight(xs[..n], iv);
      InsertWeight(xs[n], ByValue(xs[..n]), iv);
    }
  }

  // The samples of one value, in their order.
  function Same(xs: seq<Sample>, v: real): seq<Sample> {
    if xs == [] then [] else
      var s := xs[|xs| - 1];
      Same(xs[..|xs| - 1], v) + if s.value == v then [s] else []
  }

  lemma SameMore(xs: seq<Sample>, s: Sample, v: real)
    ensures Same(xs + [s], v) == Same(xs, v) + if s.value == v then [s] else []
  {
    assert (xs + [s])[..|xs|] == xs;
  }

  lemma {:induction false} InsertStable(s: Sample, xs: seq<Sample>, v: real)
    requires Sorted(xs)
    ensures Same(Insert(s, xs), v) == Same(xs + [s], v)
  {
    hide Sorted, AtMost, Same;
    var n := |xs| - 1;
    if xs != [] && xs[n].value > s.value {
      SortedLess(xs);
      InsertStable(s, xs[..n], v);
      assert xs == xs[..n] + [xs[n]];
      SameMore(xs[..n], s, v);
      SameMore(xs[..n], xs[n], v);
      SameMore(xs, s, v);
      SameMore(Insert(s, xs[..n]), xs[n], v);
    }
  }

  // The sorting leaves samples of one value in their order.
  lemma {:induction false} ByValueStable(xs: seq<Sample>, v: real)
    ensures Same(ByValue(xs), v) == Same(xs, v)
  {
    hide Sorted, Insert, Same;
    if xs != [] {
      var n := |xs| - 1;
      ByValueStable(xs[..n], v);
      ByValueSorts(xs[..n]);
      InsertStable(xs[n], ByValue(xs[..n]), v);
      SameMore(ByValue(xs[..n]), xs[n], v);
      SameMore(xs[..n], xs[n], v);
      assert xs == xs[..n] + [xs[n]];
    }
  }

  // How many samples the loop of `get_wp` takes from the k-th on: until their weight reaches the goal.
  function Reach(xs: seq<Sample>, iv: Interval, goal: real, k: nat): (r: nat)
    requires iv.Proper() && k <= |xs|
    ensures k <= r <= |xs|
    decreases |xs| - k
  {
    if k == |xs| || WeightOf(xs[..k], iv) >= goal then k else Reach(xs, iv, goal, k + 1)
  }

  // The loop stops at the first place where the weight reaches the goal, or at the end.
  lemma {:induction false} ReachIsFirst(xs: seq<Sample>, iv: Interval, goal: real, k: nat)
    requires iv.Proper() && k <= |xs|
    ensures var r := Reach(xs, iv, goal, k);
      && (r == |xs| || WeightOf(xs[..r], iv) >= goal)
      && forall j :: k <= j < r ==> WeightOf(xs[..j], iv) < goal
    decreases |xs| - k
  {
    hide WeightOf;
    if k < |xs| && WeightOf(xs[..k], iv) < goal { ReachIsFirst(xs, iv, goal, k + 1); }
  }

  datatype Outcome = Value(value: real) | NoCurrent | NoLast | ZeroDivision

  // The second sample's share in the blend, by the distances ld and cd of the source.
  function Share(ld: real, cd: real): real
    requires ld + cd != 0.0
  {
    1.0 - cd / (ld + cd)
  }

  // Two samples weighed inversely to their distances from the percentile.
  function Blended(last: real, cur: real, ld: real, cd: real): real
    requires ld + cd != 0.0
  {
    var lw := 1.0 - ld / (ld + cd);
    var cw := 1.0 - cd / (ld + cd);
    last * lw + cur * cw
  }

  // The distances of the source: what is left of the weight n of all series without the samples
  // before the k-th, and by how much the first k samples pass the goal.
  function LastDistance(xs: seq<Sample>, iv: Interval, n: real, k: nat): real
    requires iv.Proper() && 0 < k <= |xs|
  {
    n - WeightOf(xs[..k], iv) + xs[k - 1].Weight(iv)
  }

  function CurDistance(xs: seq<Sample>, iv: Interval, goal: real, k: nat): real
    requires iv.Proper() && k <= |xs|
  {
    WeightOf(xs[..k], iv) - goal
  }

  // `get_wp` after its loop over the sorted samples has taken k of them: n is the number of
  // series and goal that number times p.
  function Blend(xs: seq<Sample>, iv: Interval, n: real, goal: real, k: nat): Outcome
    requires iv.Proper() && k <= |xs|
  {
    if k == 0 then NoCurrent else
      var ld, cd := LastDistance(xs, iv, n, k), CurDistance(xs, iv, goal, k);
      if ld + cd == 0.0 then ZeroDivision
      else if k == 1 then NoLast
      else Value(Blended(xs[k - 2].value, xs[k - 1].value, ld, cd))
  }

  function WpAt(xs: seq<Sample>, iv: Interval, n: real, goal: real): Outcome
    requires iv.Proper()
  {
    Blend(xs, iv, n, goal, Reach(xs, iv, goal, 0))
  }

  // The weight at which the share p of n series is reached.
  function Goal(n: nat, p: real): real {
    n as real * p
  }

  // `get_wp`
  function Wp(lists: seq<seq<Sample>>, iv: Interval, p: real): Outcome
    requires iv.Proper()
  {
    WpAt(ByValue(Flat(lists, iv)), iv, |lists| as real, Goal(|lists|, p))
  }

  // What is sorted: the same samples by value, those of one value in their order.
  ghost predicate SortedFrom(xs: seq<Sample>, ys: seq<Sample>) {
    && multiset(xs) == multiset(ys) && Sorted(xs) && forall v :: Same(xs, v) == Same(ys, v)
  }

  // `get_wp` in full, for any samples and any p. It takes the sorted samples one by one until they
  // weigh p times the number of series. Without samples, with weights that cancel out, or with only
  // one taken it is an error; else it weighs the last two samples it took, each by the distance
  // of the other.
  lemma WpIs(lists: seq<seq<Sample>>, iv: Interval, p: real)
    returns (xs: seq<Sample>, k: nat, goal: real, last: real, cur: real)
    requires iv.Proper()
    ensures SortedFrom(xs, Flat(lists, iv)) && goal == |lists| as real * p
    ensures k <= |xs| && (k == |xs| || WeightOf(xs[..k], iv) >= goal)
    ensures forall j :: 0 <= j < k ==> WeightOf(xs[..j], iv) < goal
    ensures k == 0 ==> Wp(lists, iv, p) == NoCurrent
    ensures k > 0 ==> last == |lists| as real - WeightOf(xs[..k - 1], iv) && cur == WeightOf(xs[..k], iv) - goal
    ensures k > 0 && last + cur == 0.0 ==> Wp(lists, iv, p) == ZeroDivision
    ensures k == 1 && last + cur != 0.0 ==> Wp(lists, iv, p) == NoLast
    ensures k > 1 && last + cur != 0.0 ==>
      Wp(lists, iv, p) == Value((xs[k - 2].value * cur + xs[k - 1].value * last) / (last + cur))
  {
    hide Sample.Weight, WeightOf, Flat, ByValue, Same, Blend, Reach, Sorted, Goal, Wp, LastDistance, CurDistance;
    var flat := Flat(lists, iv);
    goal := Goal(|lists|, p);
    GoalIs(|lists|, p);
    xs := ByValue(flat);
    WpBlends(lists, iv, p);
    ByValueSorts(flat);
    forall v ensures Same(xs, v) == Same(flat, v) { ByValueStable(flat, v); }
    k := Reach(xs, iv, goal, 0);
    ReachIsFirst(xs, iv, goal, 0);
    last, cur := BlendIs(xs, iv, |lists| as real, goal, k);
    if k > 0 { DistancesAre(xs, iv, |lists| as real, goal, k); }
  }

  lemma WpBlends(lists: seq<seq<Sample>>, iv: Interval, p: real)
    requires iv.Proper()
    ensures var xs, goal := ByValue(Flat(lists, iv)), Goal(|lists|, p);
      Wp(lists, iv, p) == Blend(xs, iv, |lists| as real, goal, Reach(xs, iv, goal, 0))
  {
    hide Sample.Weight, Flat, ByValue, Blend, Reach, Goal;
  }

  lemma BlendIs(xs: seq<Sample>, iv: Interval, n: real, goal: real, k: nat) returns (last: real, cur: real)
    requires iv.Proper() && k <= |xs|
    ensures k == 0 ==> Blend(xs, iv, n, goal, k) == NoCurrent
    ensures k > 0 ==> last == LastDistance(xs, iv, n, k) && cur == CurDistance(xs, iv, goal, k)
    ensures k > 0 && last + cur == 0.0 ==> Blend(xs, iv, n, goal, k) == ZeroDivision
    ensures k == 1 && last + cur != 0.0 ==> Blend(xs, iv, n, goal, k) == NoLast
    ensures k > 1 && last + cur != 0.0 ==>
      Blend(xs, iv, n, goal, k) == Value((xs[k - 2].value * cur + xs[k - 1].value * last) / (last + cur))
  {
    hide Sample.Weight, WeightOf, Blended, LastDistance, CurDistance;
    last, cur := 0.0, 0.0;
    if k > 0 {
      last, cur := LastDistance(xs, iv, n, k), CurDistance(xs, iv, goal, k);
      if last + cur != 0.0 && k > 1 { Weighing(xs[k - 2].value, xs[k - 1].value, last, cur); }
    }
  }

  lemma DistancesAre(xs: seq<Sample>, iv: Interval, n: real, goal: real, k: nat)
    requires iv.Proper() && 0 < k <= |xs|
    ensures LastDistance(xs, iv, n, k) == n - WeightOf(xs[..k - 1], iv)
    ensures CurDistance(xs, iv, goal, k) == WeightOf(xs[..k], iv) - goal
  {
    hide Sample.Weight, WeightOf;
    OneMoreWeight(xs, iv, k);
  }

  lemma GoalIs(n: nat, p: real)
    ensures Goal(n, p) == n as real * p
  {
  }

  // Two samples, each weighed by the distance of the other.
  lemma Weighing(u: real, v: real, last: real, cur: real)
    requires last + cur != 0.0
    ensures Blended(u, v, last, cur) == (u * cur + v * last) / (last + cur)
  {
    var d := last + cur;
    OverAgain(last, d);
    OverAgain(cur, d);
    Shares(last, cur, d);
    var a, b := last / d, cur / d;
    assert Blended(u, v, last, cur) == u * b + v * a;
    Collect(u, v, a, b, d);
    Quotient(u * b + v * a, u * cur + v * last, d);
  }

  lemma Shares(x: real, y: real, d: real)
    requires d == x + y && d != 0.0
    ensures 1.0 - x / d == y / d && 1.0 - y / d == x / d
  {
    OverAgain(x, d);
    OverAgain(y, d);
    Apart(1.0, x / d, d);
    Apart(1.0, y / d, d);
    Differ(1.0 - x / d, y / d, d);
    Differ(1.0 - y / d, x / d, d);
  }

  lemma Collect(u: real, v: real, a: real, b: real, d: real)
    ensures (u * b + v * a) * d == u * (b * d) + v * (a * d)
  {
  }

  lemma Quotient(x: real, y: real, d: real)
    requires d != 0.0 && x * d == y
    ensures x == y / d
  {
    var q := y / d;
    OverAgain(y, d);
    Differ(x, q, d);
  }

  lemma Differ(x: real, q: real, d: real)
    requires d != 0.0 && x * d == q * d
    ensures x == q
  {
    Apart(x, q, d);
  }

  lemma Apart(x: real, q: real, d: real)
    ensures (x - q) * d == x * d - q * d
  {
  }

  // Sorted samples that weigh as much as n series which cover the interval.
  predicate Weighed(xs: seq<Sample>, iv: Interval, n: real)
    requires iv.Proper()
  {
    n > 0.0 && Sorted(xs) && WeightOf(xs, iv) == n && forall s <- xs :: s.Weight(iv) > 0.0
  }

  lemma FlatWeighed(lists: seq<seq<Sample>>, iv: Interval)
    requires iv.Proper() && lists != [] && AllCovering(lists, iv)
    ensures Weighed(ByValue(Flat(lists, iv)), iv, |lists| as real)
    ensures multiset(ByValue(Flat(lists, iv))) == multiset(Flat(lists, iv))
  {
    hide Sample.Weight, Flat, Total, WaSum, AllCovering, WeightOf, ByValue;
    var xs := Flat(lists, iv);
    FlatSums(lists, iv);
    FlatWeigh(lists, iv);
    ByValueSorts(xs);
    ByValueWeight(xs, iv);
    forall s <- ByValue(xs) ensures s.Weight(iv) > 0.0 { assert s in multiset(xs); }
  }

  lemma OneMoreWeight(xs: seq<Sample>, iv: Interval, k: nat)
    requires iv.Proper() && 0 < k <= |xs|
    ensures WeightOf(xs[..k], iv) == WeightOf(xs[..k - 1], iv) + xs[k - 1].Weight(iv)
  {
    assert xs[..k][..k - 1] == xs[..k - 1];
  }

  // Where the goal lies within the total weight, the samples before the k-th weigh less
  // than the goal, and with the k-th they reach it.
  lemma Straddle(xs: seq<Sample>, iv: Interval, n: real, goal: real)
    requires iv.Proper() && Weighed(xs, iv, n) && 0.0 < goal <= n
    ensures var k := Reach(xs, iv, goal, 0);
      && 0 < k && WeightOf(xs[..k - 1], iv) < goal <= WeightOf(xs[..k], iv)
      && (k == 1 <==> xs != [] && xs[0].Weight(iv) >= goal)
  {
    hide Sample.Weight, WeightOf, Reach;
    var k := Reach(xs, iv, goal, 0);
    ReachIsFirst(xs, iv, goal, 0);
    NoSamples(iv);
    assert xs[..0] == [] && xs[..|xs|] == xs;
    assert xs != [];
    OneMoreWeight(xs, iv, 1);
    assert k > 0;
  }

  // The later goal is reached no earlier.
  lemma ReachGrows(xs: seq<Sample>, iv: Interval, goal: real, goal': real)
    requires iv.Proper() && goal <= goal'
    ensures Reach(xs, iv, goal, 0) <= Reach(xs, iv, goal', 0)
  {
    hide WeightOf, Reach;
    ReachIsFirst(xs, iv, goal, 0);
    ReachIsFirst(xs, iv, goal', 0);
  }

  lemma Fractions(ld: real, cd: real)
    requires ld > 0.0 && cd >= 0.0
    ensures 0.0 < ld / (ld + cd) <= 1.0
    ensures Share(ld, cd) == ld / (ld + cd)
  {
    var d := ld + cd;
    assert ld / d + cd / d == (ld + cd) / d;
    assert d / d == 1.0;
    Divide(0.0, ld, 1.0, d);
  }

  // The mean of u and v where v has the weight w.
  function Mean(u: real, v: real, w: real): real {
    u * (1.0 - w) + v * w
  }

  // `get_wp` on sorted samples: an error exactly when the first sample alone reaches the
  // percentile, and otherwise a mean of the two samples that straddle it, where the second
  // has some weight.
  lemma BlendIsMean(xs: seq<Sample>, iv: Interval, n: real, goal: real) returns (k: nat, cw: real)
    requires iv.Proper() && Weighed(xs, iv, n) && 0.0 < goal <= n
    ensures k == Reach(xs, iv, goal, 0) && 0 < k <= |xs|
    ensures WeightOf(xs[..k - 1], iv) < goal <= WeightOf(xs[..k], iv)
    ensures cw == Share(n - WeightOf(xs[..k - 1], iv), WeightOf(xs[..k], iv) - goal) && 0.0 < cw <= 1.0
    ensures WpAt(xs, iv, n, goal) == if k == 1 then NoLast else Value(Mean(xs[k - 2].value, xs[k - 1].value, cw))
    ensures k == 1 <==> xs[0].Weight(iv) >= goal
  {
    hide Sample.Weight, WeightOf, Reach, Share, Weighed, Blended, Mean;
    k := Reach(xs, iv, goal, 0);
    Straddle(xs, iv, n, goal);
    OneMoreWeight(xs, iv, k);
    var ld := n - WeightOf(xs[..k - 1], iv);
    var cd := WeightOf(xs[..k], iv) - goal;
    Fractions(ld, cd);
    cw := Share(ld, cd);
    if k > 1 { BlendedIsMean(xs[k - 2].value, xs[k - 1].value, ld, cd); }
  }

  lemma BlendedIsMean(u: real, v: real, ld: real, cd: real)
    requires ld > 0.0 && cd >= 0.0
    ensures Blended(u, v, ld, cd) == Mean(u, v, Share(ld, cd))
  {
    Fractions(ld, cd);
    var l, c := 1.0 - ld / (ld + cd), Share(ld, cd);
    assert l == 1.0 - c;
    assert u * l == u * (1.0 - c);
  }

  lemma NoLess(x: real, y: real)
    requires x >= 0.0 && y >= 0.0
    ensures x * y >= 0.0
  {
  }

  lemma MeanOfTwo(u: real, v: real, cw: real)
    requires u <= v && 0.0 <= cw <= 1.0
    ensures u <= Mean(u, v, cw) <= v
  {
    var d, rest := v - u, 1.0 - cw;
    assert Mean(u, v, cw) == u + d * cw;
    assert Mean(u, v, cw) == v - d * rest;
    NoLess(d, cw);
    NoLess(d, rest);
  }

  lemma MoreOfTheSecond(u: real, v: real, cw: real, cw': real)
    requires u <= v && cw <= cw'
    ensures Mean(u, v, cw) <= Mean(u, v, cw')
  {
    assert u * (1.0 - cw) + v * cw == u + (v - u) * cw;
    assert u * (1.0 - cw') + v * cw' == u + (v - u) * cw';
    Between(cw, cw', cw', v - u);
  }

  lemma Closer(ld: real, cd: real, cd': real)
    requires ld > 0.0 && cd >= cd' >= 0.0
    ensures Share(ld, cd) <= Share(ld, cd')
  {
    Fractions(ld, cd);
    Fractions(ld, cd');
    Larger(ld, ld + cd', ld + cd);
  }

  lemma NotNegative(x: real, d: real)
    requires x >= 0.0 && d > 0.0
    ensures x / d >= 0.0
  {
  }

  lemma Larger(x: real, d: real, e: real)
    requires x >= 0.0 && 0.0 < d <= e
    ensures x / e <= x / d
  {
    var f := x / d;
    assert f * d == x;
    NotNegative(x, d);
    Between(d, e, e, f);
    Divide(0.0, x, f, e);
  }

  // The percentile grows with p: where it is defined it stays defined, and it never falls.
  lemma BlendGrows(xs: seq<Sample>, iv: Interval, n: real, goal: real, goal': real)
    requires iv.Proper() && Weighed(xs, iv, n) && 0.0 < goal <= goal' <= n
    requires WpAt(xs, iv, n, goal).Value?
    ensures var g := WpAt(xs, iv, n, goal'); g.Value? && WpAt(xs, iv, n, goal).value <= g.value
  {
    hide Sample.Weight, WeightOf, Reach, WpAt, Share, Mean;
    var k, cw := BlendIsMean(xs, iv, n, goal);
    var m, dw := BlendIsMean(xs, iv, n, goal');
    ReachGrows(xs, iv, goal, goal');
    MeanOfTwo(xs[k - 2].value, xs[k - 1].value, cw);
    MeanOfTwo(xs[m - 2].value, xs[m - 1].value, dw);
    if k == m {
      Closer(n - WeightOf(xs[..k - 1], iv), WeightOf(xs[..k], iv) - goal, WeightOf(xs[..k], iv) - goal');
      MoreOfTheSecond(xs[k - 2].value, xs[k - 1].value, cw, dw);
    } else {
      assert xs[k - 1].value <= xs[m - 2].value;
    }
  }

  // One series whose only sample fills the interval: the median is an error.
  lemma NoMedian() returns (lists: seq<seq<Sample>>, iv: Interval)
    ensures iv.Proper() && lists != [] && AllCovering(lists, iv)
    ensures Wp(lists, iv, 0.5) == NoLast
  {
    var s := Sample(0, 10, 5.0);
    iv := Interval(0, 10);
    lists := [[s]];
    Alone(s, iv);
    WpGrows(lists, iv, 0.5, 0.5);
    WpBetween(lists, iv, 0.5);
  }

  lemma Alone(s: Sample, iv: Interval)
    requires s == Sample(0, 10, 5.0) && iv == Interval(0, 10)
    ensures s.Weight(iv) == 1.0 && ByValue(Flat([[s]], iv)) == [s]
  {
    assert [[s]][..0] == [] && [s][..0] == [];
    assert Live([s], iv) == [s];
    assert Flat([[s]], iv) == [s];
  }

  // ---------- what the report prints ----------

  // The percentile lies between the smallest and the largest sample of the interval.
  lemma WpBetween(lists: seq<seq<Sample>>, iv: Interval, p: real)
    requires iv.Proper() && lists != [] && AllCovering(lists, iv) && 0.0 < p <= 1.0
    ensures Flat(lists, iv) != []
    ensures var w := Wp(lists, iv, p);
      w == NoLast || (w.Value? && Least(Flat(lists, iv)) <= w.value <= Greatest(Flat(lists, iv)))
  {
    hide Sample.Weight, WeightOf, Reach, WpAt, Share, Mean, Flat, ByValue, AllCovering, Weighed, Goal, Least, Greatest;
    var n, flat := |lists| as real, Flat(lists, iv);
    var xs := ByValue(flat);
    FlatWeighed(lists, iv);
    Scale(|lists|, p, p);
    var k, cw := BlendIsMean(xs, iv, n, Goal(|lists|, p));
    assert xs[k - 1] in multiset(flat);
    if k > 1 {
      assert xs[k - 2] in multiset(flat);
      SortedPair(xs, iv, n, k - 2);
      MeanOfTwo(xs[k - 2].value, xs[k - 1].value, cw);
    }
  }

  lemma SortedPair(xs: seq<Sample>, iv: Interval, n: real, i: nat)
    requires iv.Proper() && Weighed(xs, iv, n) && i + 1 < |xs|
    ensures xs[i].value <= xs[i + 1].value
  {
  }

  lemma Scale(n: nat, p: real, q: real)
    requires n > 0 && 0.0 < p <= q <= 1.0
    ensures 0.0 < Goal(n, p) <= Goal(n, q) <= n as real
  {
    Between(p, q, 1.0, n as real);
    Strict(0.0, p, n as real);
  }

  lemma Strict(x: real, y: real, d: real)
    requires x < y && d > 0.0
    ensures x * d < y * d
  {
  }

  // `get_wp` is defined unless the smallest sample alone fills the share p of the n series,
  // and it does not fall as p grows.
  lemma WpGrows(lists: seq<seq<Sample>>, iv: Interval, p: real, q: real)
    requires iv.Proper() && lists != [] && AllCovering(lists, iv) && 0.0 < p <= q <= 1.0
    ensures var xs := ByValue(Flat(lists, iv));
      xs != [] && (Wp(lists, iv, p).Value? <==> xs[0].Weight(iv) < |lists| as real * p)
    ensures Wp(lists, iv, p).Value? ==> Wp(lists, iv, q).Value? && Wp(lists, iv, p).value <= Wp(lists, iv, q).value
  {
    hide Sample.Weight, WeightOf, Reach, WpAt, Share, Mean, Flat, ByValue, AllCovering, Weighed, Goal;
    var n, xs := |lists| as real, ByValue(Flat(lists, iv));
    var goal, goal' := Goal(|lists|, p), Goal(|lists|, q);
    FlatWeighed(lists, iv);
    GoalIs(|lists|, p);
    Scale(|lists|, p, q);
    var k, cw := BlendIsMean(xs, iv, n, goal);
    if k > 1 { BlendGrows(xs, iv, n, goal, goal'); }
  }

  // The latest end of a series, `last.end`.
  function MaxEnd(xs: seq<Sample>): (r: int)
    requires xs != []
    ensures (forall s <- xs :: s.end <= r) && exists s <- xs :: s.end == r
  {
    var e := xs[|xs| - 1].end;
    if |xs| == 1 then e else Max(MaxEnd(xs[..|xs| - 1]), e)
  }

  predicate NoneEmpty(lists: seq<seq<Sample>>) {
    forall i :: 0 <= i < |lists| ==> lists[i] != []
  }

  function Ends(lists: seq<seq<Sample>>): (r: seq<int>)
    requires NoneEmpty(lists)
    ensures |r| == |lists| && forall i :: 0 <= i < |r| ==> r[i] == MaxEnd(lists[i])
  {
    if lists == [] then [] else Ends(lists[..|lists| - 1]) + [MaxEnd(lists[|lists| - 1])]
  }

  // What `get_ftime` makes of the ends of the series.
  function Ftime(ends: seq<int>): int {
    if ends == [] then 0 else
      var f, e := Ftime(ends[..|ends| - 1]), ends[|ends| - 1];
      if f == 0 || e < f then e else f
  }

  // Zero stands for "none yet": `get_ftime` is the earliest end exactly when no series but
  // the last ends at time 0, or the last does.
  lemma {:induction false} FtimeIsEarliestIff(ends: seq<int>)
    requires ends != [] && forall e <- ends :: e >= 0
    ensures Ftime(ends) in ends
    ensures (forall e <- ends :: Ftime(ends) <= e) <==> ((forall e <- ends :: e > 0) || ends[|ends| - 1] == 0)
  {
    var n := |ends| - 1;
    var before := ends[..n];
    assert ends == before + [ends[n]];
    assert ends[n] in ends;
    assert forall e <- before :: e in ends;
    if n > 0 {
      FtimeIsEarliestIff(before);
      if exists e <- before :: e == 0 {
        var z :| z in before && z == 0;
        assert z in ends;
      }
    }
  }

  // Intervals that share out the time from 0 to ftime, all of the length itime but the last,
  // which is no longer.
  predicate Cut(ivs: seq<Interval>, ftime: int, itime: int) {
    && (if ftime > 0 then Chained(ivs, 0, ftime) && ivs != [] else ivs == [])
    && (ivs != [] ==> Evenly(ivs[..|ivs| - 1], itime) && ivs[|ivs| - 1].end - ivs[|ivs| - 1].start <= itime)
  }

  predicate Evenly(ivs: seq<Interval>, itime: int) {
    forall k :: 0 <= k < |ivs| ==> ivs[k].end - ivs[k].start == itime
  }

  lemma {:induction false} LastEnd(xs: seq<Sample>)
    requires Contiguous(xs) && xs != []
    ensures MaxEnd(xs) == xs[|xs| - 1].end
  {
    if |xs| > 1 { LastEnd(xs[..|xs| - 1]); }
  }

  // Series that run from time 0, each of some length.
  predicate Reported(lists: seq<seq<Sample>>) {
    lists != [] && NoneEmpty(lists) && forall i :: 0 <= i < |lists| ==> RunsFromZero(lists[i])
  }

  predicate RunsFromZero(xs: seq<Sample>)
    requires xs != []
  {
    Contiguous(xs) && xs[0].start == 0 < xs[|xs| - 1].end
  }

  lemma NoLaterThan(lists: seq<seq<Sample>>, i: nat)
    requires Reported(lists) && i < |lists|
    ensures Ftime(Ends(lists)) <= lists[i][|lists[i]| - 1].end
  {
    hide Contiguous, Ftime, Ends, MaxEnd;
    var ends := Ends(lists);
    forall e <- ends ensures e > 0 {
      var j :| 0 <= j < |ends| && ends[j] == e;
      LastEnd(lists[j]);
    }
    FtimeIsEarliestIff(ends);
    LastEnd(lists[i]);
    assert ends[i] in ends;
  }

  // Every interval of the report is covered by every series.
  lemma ReportCovered(lists: seq<seq<Sample>>, ivs: seq<Interval>, itime: int, k: nat)
    requires Reported(lists) && Cut(ivs, Ftime(Ends(lists)), itime) && k < |ivs|
    ensures ivs[k].Proper() && AllCovering(lists, ivs[k])
  {
    hide Contiguous, Ftime, Ends;
    var ftime := Ftime(Ends(lists));
    ChainedForward(ivs, 0, ftime);
    forall i | 0 <= i < |lists| ensures Covering(lists[i], ivs[k]) {
      NoLaterThan(lists, i);
    }
  }

  // A line of the report in full: minimum, average and maximum in order, and where the
  // median is defined, so are the percentiles, in order and within the same bounds.
  lemma LineInOrder(lists: seq<seq<Sample>>, ivs: seq<Interval>, itime: int, k: nat)
    requires Reported(lists) && Cut(ivs, Ftime(Ends(lists)), itime) && k < |ivs|
    ensures var iv := ivs[k];
      && iv.Proper() && Flat(lists, iv) != []
      && var lo, hi := Least(Flat(lists, iv)), Greatest(Flat(lists, iv));
      && lo <= WaAvg(lists, iv) <= hi
      && var a, b, c, d := Wp(lists, iv, 0.5), Wp(lists, iv, 0.9), Wp(lists, iv, 0.95), Wp(lists, iv, 0.99);
      && (a.Value? ==> b.Value? && c.Value? && d.Value? && lo <= a.value <= b.value <= c.value <= d.value <= hi)
  {
    hide Covering, RunsFromZero, Cut, Sample.Weight, Flat, Wp, WaAvg, AllCovering, Least, Greatest, Ends, Ftime,
      ByValue;
    var iv := ivs[k];
    ReportCovered(lists, ivs, itime, k);
    AverageBetween(lists, iv);
    WpGrows(lists, iv, 0.5, 0.9);
    WpGrows(lists, iv, 0.9, 0.95);
    WpGrows(lists, iv, 0.95, 0.99);
    WpBetween(lists, iv, 0.5);
    WpBetween(lists, iv, 0.99);
  }

  // An end at time 0 is forgotten when another series follows.
  lemma FtimeForgetsZero()
    ensures Ftime([0, 5]) == 5
  {
    assert [0, 5][..1] == [0] && [0][..0] == [];
  }

  // ---------- the code ----------

  class TimeSeries {
    var samples: seq<Sample>
    var last: Option<Sample>

    ghost predicate Valid()
      reads this
    {
      match last
      case None => samples == []
      case Some(l) => samples != [] && l in samples && l.end == MaxEnd(samples)
    }

    lemma LastFacts()
      requires Valid()
      ensures last.None? <==> samples == []
      ensures samples != [] ==> last.value.end == MaxEnd(samples)
    {
    }

    constructor ()
      ensures Valid() && samples == []
    {
      samples, last := [], None;
    }

    method AddSample(start: int, end: int, value: real)
      requires Valid()
      modifies this
      ensures Valid() && samples == old(samples) + [Sample(start, end, value)]
      ensures last == if old(last).Some? && old(last).value.end >= end then old(last)
        else Some(Sample(start, end, value))
    {
      var sample := Sample(start, end, value);
      if last.None? || last.value.end < end {
        last := Some(sample);
      }
      samples := samples + [sample];
      assert samples[..|samples| - 1] == old(samples);
    }

    method GetSamples(iv: Interval) returns (r: seq<Sample>)
      requires iv.Proper()
      ensures r == Live(samples, iv)
    {
      r := [];
      for i := 0 to |samples|
        invariant r == Live(samples[..i], iv)
      {
        assert samples[..i + 1][..i] == samples[..i];
        if samples[i].Weight(iv) > 0.0 {
          r := r + [samples[i]];
        }
      }
      assert samples[..|samples|] == samples;
    }
  }

  ghost function Lists(series: seq<TimeSeries>): (r: seq<seq<Sample>>)
    reads series
    ensures |r| == |series| && forall i :: 0 <= i < |r| ==> r[i] == series[i].samples
  {
    if series == [] then [] else Lists(series[..|series| - 1]) + [series[|series| - 1].samples]
  }

  lemma NoAverages(iv: Interval)
    requires iv.Proper()
    ensures WaList([], iv) == []
  {
  }

  lemma Grown(lists: seq<seq<Sample>>, xs: seq<Sample>, iv: Interval)
    requires iv.Proper()
    ensures Flat(lists + [xs], iv) == Flat(lists, iv) + Live(xs, iv)
    ensures WaList(lists + [xs], iv) == WaList(lists, iv) + [Total(Live(xs, iv), iv) / 1.0]
  {
    assert (lists + [xs])[..|lists|] == lists;
  }

  // The samples of the interval, for `get_min`, `get_max` and `get_wp`.
  method GetSamples(series: seq<TimeSeries>, iv: Interval) returns (r: seq<Sample>)
    requires iv.Proper()
    ensures r == Flat(Lists(series), iv)
  {
    hide Live, Lists;
    r := [];
    for i := 0 to |series|
      invariant r == Flat(Lists(series[..i]), iv)
    {
      var some := series[i].GetSamples(iv);
      r := r + some;
      OneMoreSeries(series, i);
      Grown(Lists(series[..i]), series[i].samples, iv);
    }
    assert series[..|series|] == series;
  }

  lemma OneMoreSeries(series: seq<TimeSeries>, i: nat)
    requires i < |series|
    ensures Lists(series[..i + 1]) == Lists(series[..i]) + [series[i].samples]
    ensures Lists(series[..i + 1])[..i] == Lists(series[..i])
  {
    assert series[..i + 1][..i] == series[..i];
  }

  method GetWa(samples: seq<Sample>, iv: Interval, weight: real) returns (r: real)
    requires iv.Proper() && weight != 0.0
    ensures r == Total(samples, iv) / weight
  {
    var total := 0.0;
    for i := 0 to |samples|
      invariant total == Total(samples[..i], iv)
    {
      assert samples[..i + 1][..i] == samples[..i];
      total := total + samples[i].value * samples[i].Weight(iv);
    }
    assert samples[..|samples|] == samples;
    r := total / weight;
  }

  method GetWaList(series: seq<TimeSeries>, iv: Interval) returns (r: seq<real>)
    requires iv.Proper()
    ensures r == WaList(Lists(series), iv)
  {
    hide Live, Total, Lists, WaList;
    r := [];
    NoSeries();
    NoAverages(iv);
    for i := 0 to |series|
      invariant r == WaList(Lists(series[..i]), iv)
    {
      ghost var taken := series[i].samples;
      var samples := series[i].GetSamples(iv);
      var wa := GetWa(samples, iv, 1.0);
      assert wa == Total(Live(taken, iv), iv) / 1.0;
      r := r + [wa];
      OneMoreSeries(series, i);
      Grown(Lists(series[..i]), taken, iv);
    }
    assert series[..|series|] == series;
  }

  method GetWp(series: seq<TimeSeries>, iv: Interval, p: real) returns (r: Outcome)
    requires iv.Proper()
    ensures r == Wp(Lists(series), iv, p)
  {
    hide Sample.Weight, Goal, WeightOf, Reach, Flat, ByValue, Lists, Finish, Blend;
    var samples := GetSamples(series, iv);
    samples := ByValue(samples);
    var goal := Goal(|series|, p);
    var weight := 0.0;
    var last: Option<Sample>, cur: Option<Sample> := None, None;
    var k := 0;
    NoSamples(iv);
    while k < |samples|
      invariant k <= |samples|
      invariant weight == WeightOf(samples[..k], iv)
      invariant cur == if k == 0 then None else Some(samples[k - 1])
      invariant last == if k <= 1 then None else Some(samples[k - 2])
      invariant Reach(samples, iv, goal, 0) == Reach(samples, iv, goal, k)
    {
      ReachStep(samples, iv, goal, k);
      if weight >= goal { break; }
      weight := weight + samples[k].Weight(iv);
      last := cur;
      cur := Some(samples[k]);
      k := k + 1;
      OneMoreWeight(samples, iv, k);
    }
    if k == |samples| { ReachStep(samples, iv, goal, k); }
    FinishIsBlend(samples, iv, |series| as real, goal, k);
    r := Finish(|series| as real, goal, weight, last, cur, iv);
  }

  lemma FinishIsBlend(xs: seq<Sample>, iv: Interval, n: real, goal: real, k: nat)
    requires iv.Proper() && k <= |xs|
    ensures Finish(n, goal, WeightOf(xs[..k], iv), if k <= 1 then None else Some(xs[k - 2]),
                   if k == 0 then None else Some(xs[k - 1]), iv)
      == Blend(xs, iv, n, goal, k)
  {
    hide Sample.Weight, WeightOf, Blended;
  }

  lemma ReachStep(xs: seq<Sample>, iv: Interval, goal: real, k: nat)
    requires iv.Proper() && k <= |xs|
    ensures Reach(xs, iv, goal, k) == if k == |xs| || WeightOf(xs[..k], iv) >= goal then k
      else Reach(xs, iv, goal, k + 1)
  {
  }

  // The last lines of `get_wp`, with the errors Python raises.
  function Finish(n: real, goal: real, weight: real, last: Option<Sample>, cur: Option<Sample>, iv: Interval): Outcome
    requires iv.Proper()
  {
    if cur.None? then NoCurrent else
      var ld := n - weight + cur.value.Weight(iv);
      var cd := weight - goal;
      if ld + cd == 0.0 then ZeroDivision
      else if last.None? then NoLast
      else Value(Blended(last.value.value, cur.value.value, ld, cd))
  }

  lemma NoSeries()
    ensures Lists([]) == [] && NoneEmpty([]) && Ftime(Ends([])) == 0
  {
  }

  lemma EmptyAt(series: seq<TimeSeries>, i: nat)
    requires i < |series| && series[i].samples == []
    ensures !NoneEmpty(Lists(series))
  {
    assert Lists(series)[i] == [];
  }

  lemma EndsGrow(lists: seq<seq<Sample>>, xs: seq<Sample>)
    requires NoneEmpty(lists) && xs != []
    ensures NoneEmpty(lists + [xs])
    ensures Ftime(Ends(lists + [xs])) == var f := Ftime(Ends(lists)); if f == 0 || MaxEnd(xs) < f then MaxEnd(xs) else f
  {
    assert (lists + [xs])[..|lists|] == lists;
    assert Ends(lists + [xs])[..|lists|] == Ends(lists);
  }

  // `get_ftime`; a series without samples is an error.
  method GetFtime(series: seq<TimeSeries>) returns (r: Option<int>)
    requires forall ts <- series :: ts.Valid()
    ensures r.Some? <==> NoneEmpty(Lists(series))
    ensures r.Some? ==> r.value == Ftime(Ends(Lists(series)))
  {
    hide TimeSeries.Valid, Lists, Ends, Ftime, MaxEnd, NoneEmpty;
    var ftime := 0;
    NoSeries();
    for i := 0 to |series|
      invariant NoneEmpty(Lists(series[..i]))
      invariant ftime == Ftime(Ends(Lists(series[..i])))
    {
      var ts := series[i];
      assert ts in series;
      ts.LastFacts();
      if ts.last.None? {
        EmptyAt(series, i);
        return None;
      }
      if ftime == 0 || ts.last.value.end < ftime {
        ftime := ts.last.value.end;
      }
      OneMoreSeries(series, i);
      EndsGrow(Lists(series[..i]), ts.samples);
    }
    assert series[..|series|] == series;
    r := Some(ftime);
  }

  lemma CutNone(itime: int)
    ensures Evenly([], itime)
  {
  }

  lemma CutNothing(ftime: int, itime: int)
    ensures ftime <= 0 ==> Cut([], ftime, itime)
  {
  }

  lemma CutMore(ivs: seq<Interval>, iv: Interval, itime: int)
    requires iv.Proper() && 0 <= iv.start && iv.end - iv.start <= itime && Evenly(ivs, itime)
    requires if iv.start == 0 then ivs == [] else Cut(ivs, iv.start, itime)
    ensures Cut(ivs + [iv], iv.end, itime)
    ensures iv.end - iv.start == itime ==> Evenly(ivs + [iv], itime)
  {
    assert (ivs + [iv])[..|ivs|] == ivs;
  }

  // Each interval begins where a whole number of steps ends, and so many of them reach ftime.
  lemma CutIs(ivs: seq<Interval>, ftime: int, itime: int)
    requires Cut(ivs, ftime, itime)
    ensures ivs == [] <==> ftime <= 0
    ensures forall k :: 0 <= k < |ivs| ==>
      ivs[k].start == k * itime && ivs[k].end == if k + 1 == |ivs| then ftime else (k + 1) * itime
    ensures ivs != [] ==> (|ivs| - 1) * itime < ftime <= |ivs| * itime
  {
    hide Evenly;
    if ivs != [] {
      var n := |ivs| - 1;
      EvenSteps(ivs[..n], ivs[n].start, itime);
      assert n * itime + itime == (n + 1) * itime;
    }
  }

  lemma {:induction false} EvenSteps(ivs: seq<Interval>, b: int, itime: int)
    requires Chained(ivs, 0, b) && Evenly(ivs, itime)
    ensures b == |ivs| * itime
    ensures forall k :: 0 <= k < |ivs| ==> ivs[k].start == k * itime && ivs[k].end == (k + 1) * itime
  {
    if ivs != [] {
      var n := |ivs| - 1;
      EvenSteps(ivs[..n], ivs[n].start, itime);
      assert n * itime + itime == (n + 1) * itime;
    }
  }

  // `get_intervals`, which loops for ever on a step that is not positive.
  method GetIntervals(series: seq<TimeSeries>, itime: int) returns (r: Option<seq<Interval>>)
    requires forall ts <- series :: ts.Valid()
    requires itime > 0
    ensures r.Some? <==> NoneEmpty(Lists(series))
    ensures r.Some? ==> Cut(r.value, Ftime(Ends(Lists(series))), itime)
  {
    hide Lists, Ends, Ftime, NoneEmpty, Chained, Cut, Evenly, TimeSeries.Valid;
    var f := GetFtime(series);
    if f.None? { return None; }
    var ftime := f.value;
    var intervals := [];
    var start, end := 0, itime;
    CutNone(itime);
    while start < ftime
      invariant start < ftime ==> end == start + itime && Evenly(intervals, itime)
      invariant start > 0 ==> ftime > 0
      invariant if start == 0 then intervals == [] else Cut(intervals, Min(start, ftime), itime)
      invariant 0 <= start
      decreases ftime - start
    {
      end := if ftime < end then ftime else end;
      CutMore(intervals, Interval(start, end), itime);
      intervals := intervals + [Interval(start, end)];
      start := start + itime;
      end := end + itime;
    }
    CutNothing(ftime, itime);
    r := Some(intervals);
  }
}
