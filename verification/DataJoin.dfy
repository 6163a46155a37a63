/** The data join of the bundled d3 library, `W.data` in include/js/d3.ugly.js: the nodes of
    a group are matched with data by key, or by position without a key function, and end up
    in three sparse arrays: nodes to update, data to enter and nodes to exit. */
module DataJoin {

  datatype Option<T> = None | Some(value: T)

  // An element of the page with its bound datum.
  class Node<D> {
    var data: D

    constructor (d: D)
      ensures data == d
    {
      data := d;
    }
  }

  // A null in `update` and `exit`, and None in `enter`, is a hole.
  datatype Join<!D> = Join(update: seq<Node?<D>>, enter: seq<Option<D>>, exit: seq<Node?<D>>)

  // ---------- the join by its meaning: ks are the keys of the nodes, qs those of the data ----------

  // Nobody before i has the same key.
  predicate First<K(==)>(ks: seq<K>, i: nat)
    requires i < |ks|
  {
    ks[i] !in ks[..i]
  }

  function IndexOf<K(==)>(ks: seq<K>, k: K): (i: nat)
    requires k in ks
    ensures i < |ks| && ks[i] == k && First(ks, i)
  {
    if ks[|ks| - 1] != k || k in ks[..|ks| - 1] then IndexOf(ks[..|ks| - 1], k) else |ks| - 1
  }

  // The node that datum j updates: the first with its key, if j is the first datum with it.
  predicate Updates<K(==)>(ks: seq<K>, qs: seq<K>, j: nat, i: nat)
    requires j < |qs| && i < |ks|
  {
    First(qs, j) && First(ks, i) && qs[j] == ks[i]
  }

  predicate Enters<K(==)>(ks: seq<K>, qs: seq<K>, j: nat)
    requires j < |qs|
  {
    First(qs, j) && qs[j] !in ks
  }

  predicate Exits<K(==)>(ks: seq<K>, qs: seq<K>, i: nat)
    requires i < |ks|
  {
    !First(ks, i) || ks[i] !in qs
  }

  lemma FirstUnique<K>(ks: seq<K>, i: nat, j: nat)
    requires i < |ks| && j < |ks| && First(ks, i) && First(ks, j) && ks[i] == ks[j]
    ensures i == j
  {
    if i < j { Earlier(ks, i, j); }
    if j < i { Earlier(ks, j, i); }
  }

  lemma Earlier<K>(ks: seq<K>, i: nat, j: nat)
    requires i < j < |ks| && ks[i] == ks[j]
    ensures !First(ks, j)
  {
    assert ks[i] == ks[..j][i];
  }

  // Every node exits, or is updated by exactly one datum, and not both.
  lemma NodesSplit<K>(ks: seq<K>, qs: seq<K>, i: nat)
    requires i < |ks|
    ensures Exits(ks, qs, i) <==> !exists j: nat :: j < |qs| && Updates(ks, qs, j, i)
    ensures
      forall j: nat, j': nat :: j < |qs| && j' < |qs| && Updates(ks, qs, j, i) && Updates(ks, qs, j', i) ==> j == j'
  {
    if !Exits(ks, qs, i) {
      assert Updates(ks, qs, IndexOf(qs, ks[i]), i);
    }
    forall j: nat, j': nat | j < |qs| && j' < |qs| && Updates(ks, qs, j, i) && Updates(ks, qs, j', i) ensures j == j' {
      FirstUnique(qs, j, j');
    }
  }

  // Every datum key leads to exactly one entry, at its first occurrence: it enters, or it
  // updates exactly one node. A datum whose key came before does neither.
  lemma DataSplit<K>(ks: seq<K>, qs: seq<K>, j: nat)
    requires j < |qs|
    ensures First(qs, j) <==> Enters(ks, qs, j) || exists i: nat :: i < |ks| && Updates(ks, qs, j, i)
    ensures Enters(ks, qs, j) ==> !exists i: nat :: i < |ks| && Updates(ks, qs, j, i)
    ensures
      forall i: nat, i': nat :: i < |ks| && i' < |ks| && Updates(ks, qs, j, i) && Updates(ks, qs, j, i') ==> i == i'
    ensures var f := IndexOf(qs, qs[j]); First(qs, f) && qs[f] == qs[j] && f <= j && (f == j <==> First(qs, j))
  {
    var f := IndexOf(qs, qs[j]);
    if First(qs, j) {
      FirstUnique(qs, f, j);
      if qs[j] in ks { assert Updates(ks, qs, j, IndexOf(ks, qs[j])); }
    }
    forall i: nat, i': nat | i < |ks| && i' < |ks| && Updates(ks, qs, j, i) && Updates(ks, qs, j, i') ensures i == i' {
      FirstUnique(ks, i, i');
    }
  }

  // ---------- the code ----------

  // The node datum j updates, by position.
  function Target<K(==)>(ks: seq<K>, qs: seq<K>, j: nat): (r: Option<nat>)
    requires j < |qs|
    ensures forall i: nat :: i < |ks| ==> (r == Some(i) <==> Updates(ks, qs, j, i))
    ensures r.Some? ==> r.value < |ks|
    ensures Enters(ks, qs, j) <==> First(qs, j) && r.None?
  {
    if First(qs, j) && qs[j] in ks then
      var t := IndexOf(ks, qs[j]);
      assert forall i: nat :: i < |ks| && Updates(ks, qs, j, i) ==> i == t by {
        forall i: nat | i < |ks| && Updates(ks, qs, j, i) ensures i == t { FirstUnique(ks, i, t); }
      }
      Some(t)
    else None
  }

  function KeysOf<D, K(!new)>(key: (D, nat) -> K, data: seq<D>): (ks: seq<K>)
    ensures |ks| == |data| && forall i :: 0 <= i < |ks| ==> ks[i] == key(data[i], i)
  {
    if data == [] then [] else KeysOf(key, data[..|data| - 1]) + [key(data[|data| - 1], |data| - 1)]
  }

  ghost function DataOf<D>(nodes: seq<Node<D>>): (ds: seq<D>)
    reads nodes
    ensures |ds| == |nodes| && forall i :: 0 <= i < |ds| ==> ds[i] == nodes[i].data
  {
    if nodes == [] then [] else DataOf(nodes[..|nodes| - 1]) + [nodes[|nodes| - 1].data]
  }

  // No node stands twice in the group.
  predicate Distinct<D>(nodes: seq<Node<D>>) {
    forall i, j :: 0 <= i < j < |nodes| ==> nodes[i] != nodes[j]
  }

  // The three arrays hold what the join means.
  ghost predicate Filled<D, K(!new)>(r: Join<D>, nodes: seq<Node<D>>, data: seq<D>, ks: seq<K>, qs: seq<K>)
    requires |ks| == |nodes| && |qs| == |data|
  {
    && |r.update| == |r.enter| == |data| && |r.exit| == |nodes|
    && UpdateFilled(r.update, nodes, ks, qs, |data|)
    && EnterFilled(r.enter, data, ks, qs, |data|)
    && ExitFilled(r.exit, nodes, ks, qs)
  }

  function UpdateAt<D, K(!new,==)>(nodes: seq<Node<D>>, ks: seq<K>, qs: seq<K>, n: nat, j: nat): Node?<D>
    requires |ks| == |nodes| && j < |qs|
  {
    if j < n && Target(ks, qs, j).Some? then nodes[Target(ks, qs, j).value] else null
  }

  // The first n places of an array, with holes after them.
  ghost predicate UpdateFilled<D, K(!new)>(update: seq<Node?<D>>, nodes: seq<Node<D>>, ks: seq<K>, qs: seq<K>, n: nat)
    requires |update| == |qs| && |ks| == |nodes| && n <= |qs|
  {
    forall j :: 0 <= j < |qs| ==> update[j] == UpdateAt(nodes, ks, qs, n, j)
  }

  ghost predicate EnterFilled<D, K(!new)>(enter: seq<Option<D>>, data: seq<D>, ks: seq<K>, qs: seq<K>, n: nat)
    requires |enter| == |qs| == |data| && n <= |qs|
  {
    forall j :: 0 <= j < |qs| ==> enter[j] == if j < n && Enters(ks, qs, j) then Some(data[j]) else None
  }

  ghost predicate ExitFilled<D, K(!new)>(exit: seq<Node?<D>>, nodes: seq<Node<D>>, ks: seq<K>, qs: seq<K>)
    requires |exit| == |ks| == |nodes|
  {
    forall i :: 0 <= i < |ks| ==> exit[i] == if Exits(ks, qs, i) then nodes[i] else null
  }

  // What this says of the keys: a node leaves if an earlier one has its key or no datum has it, else
  // it stands where the first datum with its key does; a datum whose key no node and no earlier
  // datum has enters.
  lemma JoinIs<D, K(!new)>(r: Join<D>, nodes: seq<Node<D>>, data: seq<D>, ks: seq<K>, qs: seq<K>)
    requires |ks| == |nodes| && |qs| == |data| && Filled(r, nodes, data, ks, qs)
    ensures forall i :: 0 <= i < |ks| ==> r.exit[i] == if ks[i] in ks[..i] || ks[i] !in qs then nodes[i] else null
    ensures forall j, i ::
      0 <= j < |qs| && 0 <= i < |ks| && ks[i] !in ks[..i] && qs[j] !in qs[..j] && qs[j] == ks[i] ==>
      r.update[j] == nodes[i]
    ensures forall j :: 0 <= j < |qs| && (qs[j] in qs[..j] || qs[j] !in ks) ==> r.update[j] == null
    ensures forall j :: 0 <= j < |qs| ==>
      r.enter[j] == if qs[j] !in qs[..j] && qs[j] !in ks then Some(data[j]) else None
  {
    forall j: nat, i: nat
      | j < |qs| && i < |ks| && ks[i] !in ks[..i] && qs[j] !in qs[..j] && qs[j] == ks[i]
      ensures r.update[j] == nodes[i]
    {
      assert Updates(ks, qs, j, i);
      assert Target(ks, qs, j) == Some(i);
    }
  }

  function DatumAt<D, K(!new,==)>(before: seq<D>, data: seq<D>, ks: seq<K>, qs: seq<K>, n: nat, i: nat): D
    requires |before| == |ks| && |data| == |qs| && i < |ks|
  {
    if !Exits(ks, qs, i) && IndexOf(qs, ks[i]) < n then data[IndexOf(qs, ks[i])] else before[i]
  }

  // The data of the nodes once the first n data have been matched.
  ghost predicate Bound<D, K(!new)>(now: seq<D>, before: seq<D>, data: seq<D>, ks: seq<K>, qs: seq<K>, n: nat)
    requires |now| == |before| == |ks| && |data| == |qs| && n <= |qs|
  {
    forall i :: 0 <= i < |ks| ==> now[i] == DatumAt(before, data, ks, qs, n, i)
  }

  // Afterwards a node that stays has the first datum with its key, and the others what they had.
  lemma BoundIs<D, K(!new)>(now: seq<D>, before: seq<D>, data: seq<D>, ks: seq<K>, qs: seq<K>)
    requires |now| == |before| == |ks| && |data| == |qs| && Bound(now, before, data, ks, qs, |qs|)
    ensures forall i :: 0 <= i < |ks| && (ks[i] in ks[..i] || ks[i] !in qs) ==> now[i] == before[i]
    ensures forall i, j ::
      0 <= i < |ks| && 0 <= j < |qs| && ks[i] !in ks[..i] && qs[j] !in qs[..j] && qs[j] == ks[i] ==>
      now[i] == data[j]
  {
    forall i: nat, j: nat
      | i < |ks| && j < |qs| && ks[i] !in ks[..i] && qs[j] !in qs[..j] && qs[j] == ks[i]
      ensures now[i] == data[j]
    {
      FirstUnique(qs, IndexOf(qs, ks[i]), j);
    }
  }

  // The map after r nodes: the first node of every key so far.
  ghost predicate Indexed<D, K(!new)>(v: map<K, Node<D>>, nodes: seq<Node<D>>, ks: seq<K>, r: nat)
    requires |ks| == |nodes| && r <= |ks|
  {
    (forall k :: k in v <==> k in ks[..r]) && forall i ::
      0 <= i < r && First(ks, i) ==> ks[i] in v && v[ks[i]] == nodes[i]
  }

  // The nodes among the first r whose key came before.
  ghost predicate Doubles<D, K(!new)>(h: seq<Node?<D>>, nodes: seq<Node<D>>, ks: seq<K>, r: nat)
    requires |ks| == |nodes|
  {
    |h| == |nodes| && forall i :: 0 <= i < |h| ==> h[i] == if i < r && !First(ks, i) then nodes[i] else null
  }

  lemma IndexStep<D, K(!new)>(v: map<K, Node<D>>, nodes: seq<Node<D>>, ks: seq<K>, r: nat)
    requires |ks| == |nodes| && r < |ks| && Indexed(v, nodes, ks, r)
    ensures ks[r] in v <==> !First(ks, r)
    ensures Indexed(if First(ks, r) then v[ks[r] := nodes[r]] else v, nodes, ks, r + 1)
  {
    assert ks[..r + 1] == ks[..r] + [ks[r]];
    forall i | 0 <= i < r ensures ks[i] in ks[..r] { assert ks[..r][i] == ks[i]; }
  }

  // The first loop: the first node of every key goes into the map, the others exit.
  method IndexNodes<D, K(!new,==)>(nodes: seq<Node<D>>, key: (D, nat) -> K)
    returns (v: map<K, Node<D>>, g: seq<K>, exit: seq<Node?<D>>)
    ensures g == KeysOf(key, DataOf(nodes))
    ensures Indexed(v, nodes, g, |nodes|) && Doubles(exit, nodes, g, |nodes|)
  {
    hide First, KeysOf, DataOf;
    ghost var ks := KeysOf(key, DataOf(nodes));
    v, g := map[], [];
    exit := Holes(|nodes|);
    for r := 0 to |nodes|
      invariant g == ks[..r]
      invariant Indexed(v, nodes, ks, r) && Doubles(exit, nodes, ks, r)
    {
      hide Doubles, Indexed;
      var p := nodes[r];
      var y := key(p.data, r);
      IndexStep(v, nodes, ks, r);
      DoublesStep(exit, nodes, ks, r);
      if y in v { exit := exit[r := p]; } else { v := v[y := p]; }
      g := g + [y];
    }
  }

  // `new Array(n)`
  function Holes<D>(n: nat): (h: seq<Node?<D>>)
    ensures |h| == n && forall i :: 0 <= i < n ==> h[i] == null
  {
    seq(n, _ => null)
  }

  lemma DoublesStep<D, K(!new)>(h: seq<Node?<D>>, nodes: seq<Node<D>>, ks: seq<K>, r: nat)
    requires |ks| == |nodes| && r < |ks| && Doubles(h, nodes, ks, r)
    ensures |h| == |nodes| && Doubles(if First(ks, r) then h else h[r := nodes[r]], nodes, ks, r + 1)
  {
  }

  // The map once the first j data have been matched: the keys of nodes still waiting.
  ghost predicate Waiting<D, K(!new)>(v: map<K, Node<D>>, nodes: seq<Node<D>>, ks: seq<K>, qs: seq<K>, j: nat)
    requires |ks| == |nodes| && j <= |qs|
  {
    forall k :: (k in v <==> k in ks && k !in qs[..j]) && (k in v ==> v[k] == nodes[IndexOf(ks, k)])
  }

  lemma WaitingAtFirst<D, K(!new)>(v: map<K, Node<D>>, nodes: seq<Node<D>>, ks: seq<K>, qs: seq<K>)
    requires |ks| == |nodes| && Indexed(v, nodes, ks, |nodes|)
    ensures Waiting(v, nodes, ks, qs, 0)
  {
    assert ks[..|nodes|] == ks;
  }

  // What matching datum j does to the map, and what it finds there.
  lemma MatchStep<D, K(!new)>(v: map<K, Node<D>>, nodes: seq<Node<D>>, ks: seq<K>, qs: seq<K>, j: nat)
    requires |ks| == |nodes| && j < |qs| && Waiting(v, nodes, ks, qs, j)
    ensures qs[j] in v <==> Target(ks, qs, j).Some?
    ensures qs[j] in v ==> v[qs[j]] == nodes[Target(ks, qs, j).value]
    ensures Enters(ks, qs, j) <==> qs[j] !in v && qs[j] !in qs[..j]
    ensures Waiting(v - {qs[j]}, nodes, ks, qs, j + 1)
  {
    assert qs[..j + 1] == qs[..j] + [qs[j]];
  }

  lemma UpdateStep<D, K(!new)>(l: seq<Node?<D>>, nodes: seq<Node<D>>, ks: seq<K>, qs: seq<K>, j: nat)
    requires |l| == |qs| && |ks| == |nodes| && j < |qs| && UpdateFilled(l, nodes, ks, qs, j)
    ensures UpdateFilled(if Target(ks, qs, j).Some? then l[j := nodes[Target(ks, qs, j).value]]
      else l, nodes, ks, qs, j + 1)
  {
  }

  lemma EnterStep<D, K(!new)>(c: seq<Option<D>>, data: seq<D>, ks: seq<K>, qs: seq<K>, j: nat)
    requires |c| == |qs| == |data| && j < |qs| && EnterFilled(c, data, ks, qs, j)
    ensures EnterFilled(if Enters(ks, qs, j) then c[j := Some(data[j])] else c, data, ks, qs, j + 1)
  {
  }

  // Binding datum j to its target changes the data of that node only.
  lemma BoundStep<D, K(!new)>(now: seq<D>, before: seq<D>, data: seq<D>, ks: seq<K>, qs: seq<K>, j: nat)
    requires |now| == |before| == |ks| && |data| == |qs| && j < |qs| && Bound(now, before, data, ks, qs, j)
    ensures Bound(if Target(ks, qs, j).Some? then now[Target(ks, qs, j).value := data[j]]
      else now, before, data, ks, qs, j + 1)
  {
    forall i: nat | i < |ks| && !Exits(ks, qs, i)
      ensures IndexOf(qs, ks[i]) == j <==> Target(ks, qs, j) == Some(i)
    {
      if Target(ks, qs, j) == Some(i) { FirstUnique(qs, IndexOf(qs, ks[i]), j); }
    }
  }

  lemma ExitStep<D, K(!new)>(h: seq<Node?<D>>, nodes: seq<Node<D>>, ks: seq<K>, qs: seq<K>, v: map<K, Node<D>>, r: nat)
    requires |h| == |ks| == |nodes| && r < |ks| && Waiting(v, nodes, ks, qs, |qs|) && Leaving(h, nodes, ks, qs, r)
    ensures Leaving(if ks[r] in v then h[r := nodes[r]] else h, nodes, ks, qs, r + 1)
  {
    assert qs[..|qs|] == qs;
  }

  // The third loop after r nodes: the doubles exit anyway.
  ghost predicate Leaving<D, K(!new)>(h: seq<Node?<D>>, nodes: seq<Node<D>>, ks: seq<K>, qs: seq<K>, r: nat)
    requires |h| == |ks| == |nodes|
  {
    forall i :: 0 <= i < |ks| ==> h[i] == if (if i < r then Exits(ks, qs, i) else !First(ks, i)) then nodes[i] else null
  }

  // Writing one node of a group without repetitions changes one place of its data.
  lemma DataWritten<D>(nodes: seq<Node<D>>, before: seq<D>, i: nat, d: D)
    requires Distinct(nodes) && i < |nodes| && |before| == |nodes| && nodes[i].data == d
    requires forall k :: 0 <= k < |nodes| && nodes[k] != nodes[i] ==> nodes[k].data == before[k]
    ensures DataOf(nodes) == before[i := d]
  {
  }

  // The second loop: a datum updates the node waiting for its key, or enters if its key is new.
  method MatchData<D, K(!new,==)>(nodes: seq<Node<D>>, data: seq<D>, key: (D, nat) -> K, v0: map<K, Node<D>>,
      ghost ks: seq<K>)
    returns (v: map<K, Node<D>>, update: seq<Node?<D>>, enter: seq<Option<D>>)
    requires |ks| == |nodes| && Indexed(v0, nodes, ks, |nodes|)
    modifies nodes
    ensures |update| == |enter| == |data|
    ensures var qs := KeysOf(key, data);
      && Waiting(v, nodes, ks, qs, |qs|)
      && UpdateFilled(update, nodes, ks, qs, |qs|) && EnterFilled(enter, data, ks, qs, |qs|)
      && (Distinct(nodes) ==> Bound(DataOf(nodes), old(DataOf(nodes)), data, ks, qs, |qs|))
  {
    hide Indexed, Waiting, First, Target, Enters, KeysOf, DataOf;
    ghost var before, qs := DataOf(nodes), KeysOf(key, data);
    v := v0;
    WaitingAtFirst(v, nodes, ks, qs);
    update, enter := Holes(|data|), seq(|data|, _ => None);
    var m: map<K, D> := map[];
    for r := 0 to |data|
      invariant |update| == |enter| == |data|
      invariant Waiting(v, nodes, ks, qs, r)
      invariant forall k :: k in m <==> k in qs[..r]
      invariant UpdateFilled(update, nodes, ks, qs, r) && EnterFilled(enter, data, ks, qs, r)
      invariant Distinct(nodes) ==> Bound(DataOf(nodes), before, data, ks, qs, r)
    {
      hide UpdateFilled, EnterFilled, Bound, Distinct;
      var d := data[r];
      var y := key(d, r);
      MatchStep(v, nodes, ks, qs, r);
      UpdateStep(update, nodes, ks, qs, r);
      EnterStep(enter, data, ks, qs, r);
      if Distinct(nodes) { BoundStep(DataOf(nodes), before, data, ks, qs, r); }
      if y in v {
        var p := v[y];
        ghost var now, t := DataOf(nodes), Target(ks, qs, r).value;
        p.data := d;
        update := update[r := p];
        if Distinct(nodes) { DataWritten(nodes, now, t, d); }
      } else if y !in m {
        enter := enter[r := Some(d)];
      }
      m := m[y := d];
      v := v - {y};
      assert qs[..r + 1] == qs[..r] + [y];
    }
  }

  // The third loop: the nodes whose keys are still in the map exit as well.
  method ExitRest<D, K(!new,==)>(nodes: seq<Node<D>>, v: map<K, Node<D>>, g: seq<K>, ghost qs: seq<K>,
      h: seq<Node?<D>>)
    returns (exit: seq<Node?<D>>)
    requires |g| == |nodes| && Waiting(v, nodes, g, qs, |qs|) && Doubles(h, nodes, g, |nodes|)
    ensures |exit| == |nodes| && ExitFilled(exit, nodes, g, qs)
  {
    exit := h;
    for r := 0 to |nodes|
      invariant |exit| == |nodes| && Leaving(exit, nodes, g, qs, r)
    {
      hide Leaving, Waiting;
      ExitStep(exit, nodes, g, qs, v, r);
      if g[r] in v { exit := exit[r := nodes[r]]; }
    }
  }

  // The keyed join: the two maps find exactly what the join means, and every updated node is
  // bound to its datum, all others keep theirs.
  method BindKeyed<D, K(!new,==)>(nodes: seq<Node<D>>, data: seq<D>, key: (D, nat) -> K) returns (r: Join<D>)
    modifies nodes
    ensures var ks, qs := KeysOf(key, old(DataOf(nodes))), KeysOf(key, data);
      && Filled(r, nodes, data, ks, qs)
      && (Distinct(nodes) ==> Bound(DataOf(nodes), old(DataOf(nodes)), data, ks, qs, |qs|))
  {
    hide UpdateFilled, EnterFilled, ExitFilled, Bound, Distinct, Indexed, Waiting, Doubles, KeysOf, DataOf;
    var v, g, h := IndexNodes(nodes, key);
    var w, update, enter := MatchData(nodes, data, key, v, g);
    var exit := ExitRest(nodes, w, g, KeysOf(key, data), h);
    r := Join(update, enter, exit);
  }

  // No node stands twice in a group with holes.
  predicate Unrepeated<D>(group: seq<Node?<D>>) {
    forall i, j :: 0 <= i < j < |group| && group[i] != null ==> group[i] != group[j]
  }

  predicate ByPosition<D(==)>(r: Join<D>, group: seq<Node?<D>>, data: seq<D>) {
    && |r.update| == |r.enter| == |data| && |r.exit| == |group|
    && (forall j :: 0 <= j < |data| ==> r.update[j] == if j < |group| then group[j] else null)
    && (forall j :: 0 <= j < |data| ==> r.enter[j] == if j < |group| && group[j] != null then None else Some(data[j]))
    && (forall i :: 0 <= i < |group| ==> r.exit[i] == if i < |data| then null else group[i])
  }

  // The join by position: each datum updates the node at its place, or enters where there is
  // none; the nodes beyond the data exit.
  method BindByIndex<D>(group: seq<Node?<D>>, data: seq<D>) returns (r: Join<D>)
    modifies group
    ensures ByPosition(r, group, data)
    ensures Unrepeated(group) ==> forall i :: 0 <= i < |group| && group[i] != null ==>
      group[i].data == if i < |data| then data[i] else old(group[i].data)
  {
    var update, enter, exit := Holes(|data|), seq(|data|, _ => None), Holes(|group|);
    var n := if |group| < |data| then |group| else |data|;
    var r' := 0;
    while r' < n
      invariant r' <= n && |update| == |enter| == |data|
      invariant forall j :: 0 <= j < |data| ==> update[j] == if j < r' then group[j] else null
      invariant forall j :: 0 <= j < |data| ==> enter[j] == if j < r' && group[j] == null then Some(data[j]) else None
      invariant Unrepeated(group) ==> forall i :: 0 <= i < |group| && group[i] != null ==>
        group[i].data == if i < r' then data[i] else old(group[i].data)
    {
      var p, d := group[r'], data[r'];
      if p != null {
        p.data := d;
        update := update[r' := p];
      } else {
        enter := enter[r' := Some(d)];
      }
      r' := r' + 1;
    }
    while r' < |data|
      invariant n <= r' <= |data| && |enter| == |data|
      invariant forall j :: 0 <= j < |data| ==>
        enter[j] == if j < r' && (j >= n || group[j] == null) then Some(data[j]) else None
    {
      enter := enter[r' := Some(data[r'])];
      r' := r' + 1;
    }
    while r' < |group|
      invariant |data| <= r' && |exit| == |group|
      invariant forall i :: 0 <= i < |group| ==> exit[i] == if |data| <= i < r' then group[i] else null
    {
      exit := exit[r' := group[r']];
      r' := r' + 1;
    }
    r := Join(update, enter, exit);
  }

  // `o`: with a key function a null in the group is a TypeError, raised before anything changes.
  method Bind<D, K(!new,==)>(group: seq<Node?<D>>, data: seq<D>, key: Option<(D, nat) -> K>)
    returns (r: Option<Join<D>>)
    modifies group
    ensures r.None? <==> key.Some? && null in group
    ensures r.None? ==> forall n <- group :: n != null ==> n.data == old(n.data)
    ensures r.Some? && key.None? ==>
      && ByPosition(r.value, group, data)
      && (Unrepeated(group) ==> forall i :: 0 <= i < |group| && group[i] != null ==>
            group[i].data == if i < |data| then data[i] else old(group[i].data))
    ensures r.Some? && key.Some? ==>
      var nodes: seq<Node<D>> := group;
      var ks, qs := KeysOf(key.value, old(DataOf(nodes))), KeysOf(key.value, data);
      && Filled(r.value, nodes, data, ks, qs)
      && (Distinct(nodes) ==> Bound(DataOf(nodes), old(DataOf(nodes)), data, ks, qs, |qs|))
  {
    match key {
      case Some(f) =>
        if null in group { return None; }
        var nodes: seq<Node<D>> := group;
        var j := BindKeyed(nodes, data, f);
        r := Some(j);
      case None =>
        var j := BindByIndex(group, data);
        r := Some(j);
    }
  }
}
