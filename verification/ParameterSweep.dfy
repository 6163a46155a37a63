/** The parameter sweep of `benchmarkfactory.py`: every combination of the listed values of
    a configuration gives one configuration. */
module ParameterSweep {

  datatype Value<V> = Plain(v: V) | List(items: seq<Value<V>>)

  // The entries of a configuration dictionary in order; a dictionary has every key once.
  type Config<V> = seq<(string, Value<V>)>

  predicate Dictionary<V>(config: Config<V>) {
    forall i, j :: 0 <= i < j < |config| ==> config[i].0 != config[j].0
  }

  // Whether the sweep iterates over an entry.
  predicate Swept<V>(entry: (string, Value<V>)) {
    entry.0 != "acceptable" && entry.1.List?
  }

  // ---------- itertools.product ----------

  // x before every one of the tuples.
  function Prefixed<T>(x: T, tuples: seq<seq<T>>): (r: seq<seq<T>>)
    ensures |r| == |tuples| && forall i :: 0 <= i < |r| ==> r[i] == [x] + tuples[i]
  {
    if tuples == [] then [] else [[x] + tuples[0]] + Prefixed(x, tuples[1..])
  }

  function PrefixedAll<T>(xs: seq<T>, tuples: seq<seq<T>>): seq<seq<T>> {
    if xs == [] then [] else PrefixedAll(xs[..|xs| - 1], tuples) + Prefixed(xs[|xs| - 1], tuples)
  }

  function Product<T>(lists: seq<seq<T>>): seq<seq<T>> {
    if lists == [] then [[]] else PrefixedAll(lists[0], Product(lists[1..]))
  }

  // The product of the lengths.
  function Size<T>(lists: seq<seq<T>>): nat {
    if lists == [] then 1 else |lists[0]| * Size(lists[1..])
  }

  // One position in every list.
  predicate Choice<T>(lists: seq<seq<T>>, at: seq<nat>) {
    |at| == |lists| && forall i :: 0 <= i < |at| ==> at[i] < |lists[i]|
  }

  function Chosen<T>(lists: seq<seq<T>>, at: seq<nat>): (r: seq<T>)
    requires Choice(lists, at)
    ensures |r| == |lists| && forall i :: 0 <= i < |r| ==> r[i] == lists[i][at[i]]
  {
    if lists == [] then [] else [lists[0][at[0]]] + Chosen(lists[1..], at[1..])
  }

  // Where a choice stands: the positions are the digits of a number, the last list's the lowest.
  function Rank<T>(lists: seq<seq<T>>, at: seq<nat>): nat
    requires Choice(lists, at)
  {
    if lists == [] then 0 else at[0] * Size(lists[1..]) + Rank(lists[1..], at[1..])
  }

  function Unrank<T>(lists: seq<seq<T>>, n: nat): (at: seq<nat>)
    requires n < Size(lists)
    ensures Choice(lists, at)
  {
    if lists == [] then [] else
      var m := Size(lists[1..]);
      Quotient(n, |lists[0]|, m);
      [n / m] + Unrank(lists[1..], n % m)
  }

  lemma Quotient(n: nat, k: nat, m: nat)
    requires n < k * m
    ensures m > 0 && n / m < k && n == n / m * m + n % m && n % m < m
  {
    if m == 0 {
      Zero(k, m);
    } else if n / m >= k {
      AtLeast(n / m, k, m);
    }
  }

  lemma Zero(k: nat, m: nat)
    requires m == 0
    ensures k * m == 0
  {
  }

  lemma AtLeast(q: nat, k: nat, m: nat)
    requires q >= k
    ensures q * m >= k * m
  {
    assert q * m == k * m + (q - k) * m;
  }

  lemma OneMore(i: nat, k: nat, m: nat, r: nat)
    requires i < k && r < m
    ensures i * m + r < k * m && (i + 1) * m == i * m + m
  {
    AtLeast(k, i + 1, m);
  }

  lemma {:induction false} PrefixedAllAt<T>(xs: seq<T>, tuples: seq<seq<T>>, i: nat, r: nat)
    requires i < |xs| && r < |tuples|
    ensures |PrefixedAll(xs, tuples)| == |xs| * |tuples|
    ensures i * |tuples| + r < |xs| * |tuples| && PrefixedAll(xs, tuples)[i * |tuples| + r] == [xs[i]] + tuples[r]
  {
    hide Prefixed;
    var n, m := |xs| - 1, |tuples|;
    PrefixedAllLength(xs, tuples);
    PrefixedAllLength(xs[..n], tuples);
    OneMore(i, |xs|, m, r);
    if i < n {
      PrefixedAllAt(xs[..n], tuples, i, r);
    } else {
      assert i * m + r == n * m + r;
    }
  }

  lemma {:induction false} PrefixedAllLength<T>(xs: seq<T>, tuples: seq<seq<T>>)
    ensures |PrefixedAll(xs, tuples)| == |xs| * |tuples|
  {
    if xs != [] {
      PrefixedAllLength(xs[..|xs| - 1], tuples);
      assert |xs| * |tuples| == (|xs| - 1) * |tuples| + |tuples|;
    }
  }

  // The product has as many tuples as the product of the lengths says, and every choice of
  // positions stands at its rank.
  lemma {:induction false} ProductAt<T>(lists: seq<seq<T>>, at: seq<nat>)
    requires Choice(lists, at)
    ensures |Product(lists)| == Size(lists)
    ensures Rank(lists, at) < Size(lists) && Product(lists)[Rank(lists, at)] == Chosen(lists, at)
  {
    if lists != [] {
      ProductAt(lists[1..], at[1..]);
      PrefixedAllAt(lists[0], Product(lists[1..]), at[0], Rank(lists[1..], at[1..]));
    }
  }

  lemma {:induction false} ProductLength<T>(lists: seq<seq<T>>)
    ensures |Product(lists)| == Size(lists)
  {
    if lists != [] {
      ProductLength(lists[1..]);
      PrefixedAllLength(lists[0], Product(lists[1..]));
    }
  }

  // Every place of the product belongs to one choice.
  lemma {:induction false} RankUnrank<T>(lists: seq<seq<T>>, n: nat)
    requires n < Size(lists)
    ensures Rank(lists, Unrank(lists, n)) == n
  {
    if lists != [] {
      var m := Size(lists[1..]);
      Quotient(n, |lists[0]|, m);
      var at := Unrank(lists, n);
      RankUnrank(lists[1..], n % m);
      assert at[1..] == Unrank(lists[1..], n % m);
    }
  }

  // The lexicographic order of choices.
  predicate Before(a: seq<nat>, b: seq<nat>)
    requires |a| == |b|
  {
    a != [] && (a[0] < b[0] || (a[0] == b[0] && Before(a[1..], b[1..])))
  }

  lemma {:induction false} RankBelow<T>(lists: seq<seq<T>>, at: seq<nat>)
    requires Choice(lists, at)
    ensures Rank(lists, at) < Size(lists)
  {
    if lists != [] {
      RankBelow(lists[1..], at[1..]);
      OneMore(at[0], |lists[0]|, Size(lists[1..]), Rank(lists[1..], at[1..]));
    }
  }

  // The product lists the choices in lexicographic order, each at a place of its own.
  lemma {:induction false} RankIsLexicographic<T>(lists: seq<seq<T>>, a: seq<nat>, b: seq<nat>)
    requires Choice(lists, a) && Choice(lists, b)
    ensures Before(a, b) <==> Rank(lists, a) < Rank(lists, b)
    ensures a == b <==> Rank(lists, a) == Rank(lists, b)
  {
    if lists != [] {
      var m := Size(lists[1..]);
      RankIsLexicographic(lists[1..], a[1..], b[1..]);
      RankBelow(lists[1..], a[1..]);
      RankBelow(lists[1..], b[1..]);
      assert a == [a[0]] + a[1..] && b == [b[0]] + b[1..];
      if a[0] < b[0] { OneMore(a[0], b[0], m, Rank(lists[1..], a[1..])); }
      if b[0] < a[0] { OneMore(b[0], a[0], m, Rank(lists[1..], b[1..])); }
    }
  }

  // ---------- the sweep ----------

  // The swept parameters and their lists, in order.
  function Names<V>(config: Config<V>): seq<string> {
    if config == [] then [] else
      var e := config[|config| - 1];
      Names(config[..|config| - 1]) + if Swept(e) then [e.0] else []
  }

  function Lists<V>(config: Config<V>): seq<seq<Value<V>>> {
    if config == [] then [] else
      var e := config[|config| - 1];
      Lists(config[..|config| - 1]) + if Swept(e) then [e.1.items] else []
  }

  function Default<V>(config: Config<V>): map<string, Value<V>> {
    if config == [] then map[] else
      var e := config[|config| - 1];
      if Swept(e) then Default(config[..|config| - 1]) else Default(config[..|config| - 1])[e.0 := e.1]
  }

  // `current.update(zip(names, values))`
  function Updated<V>(current: map<string, Value<V>>, names: seq<string>, values: seq<Value<V>>): map<string, Value<V>>
    requires |names| == |values|
  {
    if names == [] then current else
      var n := |names| - 1;
      Updated(current, names[..n], values[..n])[names[n] := values[n]]
  }

  // A configuration that agrees with `config`, the swept parameters taking the values of `at`.
  ghost predicate Agrees<V>(current: map<string, Value<V>>, config: Config<V>, at: seq<nat>)
    requires Choice(Lists(config), at)
  {
    && (forall name :: name in current <==> exists i :: 0 <= i < |config| && config[i].0 == name)
    && (forall i :: 0 <= i < |config| && !Swept(config[i]) ==>
          config[i].0 in current && current[config[i].0] == config[i].1)
    && |Names(config)| == |at|
    && (forall k :: 0 <= k < |at| ==>
          Names(config)[k] in current && current[Names(config)[k]] == Lists(config)[k][at[k]])
    && (forall i: nat :: i < |config| && Swept(config[i]) ==> exists k: nat :: k < |at| && Stands(config, i, k))
  }

  // The i-th entry is the k-th swept parameter.
  predicate Stands<V(==)>(config: Config<V>, i: nat, k: nat)
    requires i < |config| && k < |Names(config)| == |Lists(config)|
  {
    Swept(config[i]) && config[i].0 == Names(config)[k] && config[i].1.items == Lists(config)[k]
  }

  // The entry that the k-th swept parameter comes from.
  lemma {:induction false} NameSource<V>(config: Config<V>, k: nat) returns (i: nat)
    requires k < |Names(config)|
    ensures |Names(config)| == |Lists(config)|
    ensures i < |config| && Stands(config, i, k)
  {
    var n := |config| - 1;
    NamesAndLists(config[..n]);
    if k < |Names(config[..n])| {
      i := NameSource(config[..n], k);
    } else {
      i := n;
    }
  }

  lemma {:induction false} NamesAndLists<V>(config: Config<V>)
    ensures |Names(config)| == |Lists(config)|
  {
    if config != [] { NamesAndLists(config[..|config| - 1]); }
  }

  // The place of a swept entry among the swept parameters.
  lemma {:induction false} NamePlace<V>(config: Config<V>, i: nat) returns (k: nat)
    requires i < |config| && Swept(config[i])
    ensures |Names(config)| == |Lists(config)|
    ensures k < |Names(config)| && Stands(config, i, k)
  {
    var n := |config| - 1;
    NamesAndLists(config[..n]);
    if i < n {
      k := NamePlace(config[..n], i);
    } else {
      k := |Names(config[..n])|;
    }
  }

  lemma {:induction false} NamesDistinct<V>(config: Config<V>)
    requires Dictionary(config)
    ensures forall k, j :: 0 <= k < j < |Names(config)| ==> Names(config)[k] != Names(config)[j]
  {
    if config != [] {
      var n := |config| - 1;
      NamesDistinct(config[..n]);
      forall k: nat | k < |Names(config[..n])| ensures Names(config[..n])[k] != config[n].0 {
        var i := NameSource(config[..n], k);
      }
    }
  }

  lemma NamesFit<V>(config: Config<V>)
    requires Dictionary(config)
    ensures |Names(config)| == |Lists(config)|
    ensures forall i: nat :: i < |config| && Swept(config[i]) ==>
      exists k: nat :: k < |Names(config)| && Stands(config, i, k)
    ensures forall k, j :: 0 <= k < j < |Names(config)| ==> Names(config)[k] != Names(config)[j]
  {
    hide Names, Lists;
    NamesAndLists(config);
    NamesDistinct(config);
    forall i: nat | i < |config| && Swept(config[i])
      ensures exists k: nat :: k < |Names(config)| && Stands(config, i, k)
    {
      var k := NamePlace(config, i);
    }
  }

  lemma {:induction false} DefaultFits<V>(config: Config<V>)
    requires Dictionary(config)
    ensures forall name :: name in Default(config) <==> exists i ::
      0 <= i < |config| && !Swept(config[i]) && config[i].0 == name
    ensures forall i :: 0 <= i < |config| && !Swept(config[i]) ==> Default(config)[config[i].0] == config[i].1
  {
    if config != [] {
      var n := |config| - 1;
      DefaultFits(config[..n]);
      assert forall i :: 0 <= i < n ==> config[..n][i] == config[i];
    }
  }

  lemma {:induction false} UpdatedFits<V>(current: map<string, Value<V>>, names: seq<string>, values: seq<Value<V>>)
    requires |names| == |values| && forall k, j :: 0 <= k < j < |names| ==> names[k] != names[j]
    ensures forall name :: name in Updated(current, names, values) <==> name in current || name in names
    ensures forall name :: name in current && name !in names ==> Updated(current, names, values)[name] == current[name]
    ensures forall k :: 0 <= k < |names| ==> Updated(current, names, values)[names[k]] == values[k]
  {
    if names != [] {
      var n := |names| - 1;
      UpdatedFits(current, names[..n], values[..n]);
      assert names == names[..n] + [names[n]];
      assert forall k :: 0 <= k < n ==> names[..n][k] == names[k];
    }
  }

  lemma ChoiceAgrees<V>(config: Config<V>, at: seq<nat>)
    requires Dictionary(config) && Choice(Lists(config), at)
    ensures |Names(config)| == |Lists(config)|
    ensures Agrees(Updated(Default(config), Names(config), Chosen(Lists(config), at)), config, at)
  {
    hide Names, Lists, Default, Chosen, Updated;
    NamesFit(config);
    DefaultFits(config);
    UpdatedFits(Default(config), Names(config), Chosen(Lists(config), at));
    NotInNames(config);
  }

  // A parameter is swept or not, never both.
  lemma NotInNames<V>(config: Config<V>)
    requires Dictionary(config)
    ensures forall i :: 0 <= i < |config| && !Swept(config[i]) ==> config[i].0 !in Names(config)
    ensures forall name <- Names(config) :: exists i :: 0 <= i < |config| && config[i].0 == name
  {
    hide Names, Lists;
    forall name <- Names(config) ensures exists i :: 0 <= i < |config| && Swept(config[i]) && config[i].0 == name {
      var k: nat :| k < |Names(config)| && Names(config)[k] == name;
      NamesAndLists(config);
      var i := NameSource(config, k);
    }
  }

  // `all_configs`: for every choice of positions, in lexicographic order, a configuration
  // that agrees with the given one; there are no others.
  method AllConfigs<V>(config: Config<V>) returns (r: seq<map<string, Value<V>>>)
    requires Dictionary(config)
    ensures |r| == Size(Lists(config))
    ensures forall at: seq<nat> :: Choice(Lists(config), at) ==>
      Rank(Lists(config), at) < |r| && Agrees(r[Rank(Lists(config), at)], config, at)
    ensures forall k :: 0 <= k < |r| ==> forall i :: 0 <= i < |config| ==>
      var (name, value) := config[i];
      name in r[k] && if name != "acceptable" && value.List? then r[k][name] in value.items else r[k][name] == value
  {
    hide Names, Lists, Default, Product, Chosen, Updated, Rank, Agrees, Choice;
    var lists, names, default := [], [], map[];
    NothingSwept<V>();
    for i := 0 to |config|
      invariant lists == Lists(config[..i]) && names == Names(config[..i]) && default == Default(config[..i])
    {
      var param, value := config[i].0, config[i].1;
      NextEntry(config, i);
      if param == "acceptable" {
        default := default[param := value];
      } else if value.List? {
        lists := lists + [value.items];
        names := names + [param];
      } else {
        default := default[param := value];
      }
    }
    assert config[..|config|] == config;
    NamesFit(config);
    var permutations := Product(lists);
    ProductLength(lists);
    TupleLengths(lists);
    r := [];
    for n := 0 to |permutations|
      invariant |r| == n
      invariant
        forall k :: 0 <= k < n ==> |permutations[k]| == |names| && r[k] == Updated(default, names, permutations[k])
    {
      r := r + [Updated(default, names, permutations[n])];
    }
    forall at: seq<nat> | Choice(lists, at)
      ensures Rank(lists, at) < |r| && Agrees(r[Rank(lists, at)], config, at)
    {
      ProductAt(lists, at);
      ChoiceAgrees(config, at);
    }
    forall k | 0 <= k < |r|
      ensures forall i :: 0 <= i < |config| ==>
        var (name, value) := config[i];
        name in r[k] && if name != "acceptable" && value.List? then r[k][name] in value.items else r[k][name] == value
    {
      var at := Unrank(lists, k);
      RankUnrank(lists, k);
      EntriesAgree(r[k], config, at);
    }
  }

  // A list stands for one of its values, unless it is that of `acceptable`.
  lemma EntriesAgree<V>(current: map<string, Value<V>>, config: Config<V>, at: seq<nat>)
    requires Choice(Lists(config), at) && Agrees(current, config, at)
    ensures forall i :: 0 <= i < |config| ==>
      var (name, value) := config[i];
      name in current
      && if name != "acceptable" && value.List? then current[name] in value.items else current[name] == value
  {
    hide Names, Lists;
    NamesAndLists(config);
    forall i: nat | i < |config| && Swept(config[i])
      ensures config[i].0 in current && current[config[i].0] in config[i].1.items
    {
      var k: nat :| k < |at| && Stands(config, i, k);
    }
  }

  lemma NothingSwept<V>()
    ensures Lists<V>([]) == [] && Names<V>([]) == [] && Default<V>([]) == map[]
  {
  }

  lemma NextEntry<V>(config: Config<V>, i: nat)
    requires i < |config|
    ensures var e, before, now := config[i], config[..i], config[..i + 1];
      && Lists(now) == Lists(before) + (if Swept(e) then [e.1.items] else [])
      && Names(now) == Names(before) + (if Swept(e) then [e.0] else [])
      && Default(now) == if Swept(e) then Default(before) else Default(before)[e.0 := e.1]
  {
    assert config[..i + 1][..i] == config[..i];
  }

  lemma TupleLengths<T>(lists: seq<seq<T>>)
    ensures forall k :: 0 <= k < |Product(lists)| ==> |Product(lists)[k]| == |lists|
  {
    ProductLength(lists);
    forall k | 0 <= k < |Product(lists)| ensures |Product(lists)[k]| == |lists| {
      var at := Unrank(lists, k);
      RankUnrank(lists, k);
      ProductAt(lists, at);
    }
  }
}
