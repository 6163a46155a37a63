/** The red-black tree of the bundled d3 library (include/js/d3.ugly.js): `insert`, `remove`,
    the two rotations and the minimum. Its nodes carry parent links and are threaded into a
    doubly linked list as well; there are no keys, the caller says behind which node a new
    one goes. The proofs are about single nodes: a ghost key between 0 and 1 orders the nodes,
    and each node knows the open interval of keys its subtree may use and its black height. */
module RedBlackTrees {

  // Parent, left, right, previous, next and whether the node is red.
  class Node {
    var U: Node?
    var L: Node?
    var R: Node?
    var P: Node?
    var N: Node?
    var C: bool
    ghost var key: real
    ghost var lo: real
    ghost var hi: real
    ghost var bh: nat

    constructor ()
      ensures U == L == R == P == N == null && !C
    {
      U, L, R, P, N, C := null, null, null, null, null, false;
    }
  }

  // The list with t put immediately after the node `after`, or first if there is none.
  ghost function InsertedAfter(s: seq<Node>, after: Node?, t: Node): seq<Node> {
    if after == null || s == [] then [t] + s
    else if s[0] == after then [s[0], t] + s[1..]
    else [s[0]] + InsertedAfter(s[1..], after, t)
  }

  // The list without the node x.
  ghost function Removed(s: seq<Node>, x: Node): seq<Node> {
    if s == [] then [] else if s[0] == x then s[1..] else [s[0]] + Removed(s[1..], x)
  }

  lemma {:induction false} RemovedAt(s: seq<Node>, x: Node, i: nat)
    requires i < |s| && s[i] == x && forall j :: 0 <= j < i ==> s[j] != x
    ensures Removed(s, x) == s[..i] + s[i + 1..]
  {
    if i > 0 {
      RemovedAt(s[1..], x, i - 1);
      assert s[1..][..i - 1] == s[1..i] && s[1..][i..] == s[i + 1..];
    }
  }

  lemma {:induction false} InsertedAfterAt(s: seq<Node>, after: Node, t: Node, i: nat)
    requires i < |s| && s[i] == after && forall j :: 0 <= j < i ==> s[j] != after
    ensures InsertedAfter(s, after, t) == s[..i + 1] + [t] + s[i + 1..]
  {
    if i > 0 {
      InsertedAfterAt(s[1..], after, t, i - 1);
      assert s[1..][..i] == s[1..i + 1] && s[1..][i..] == s[i + 1..];
    }
  }

  // The tree that the links L and R span, as a value.
  datatype Shape = Empty | Fork(left: Shape, node: Node, red: bool, right: Shape)

  ghost function InOrder(t: Shape): seq<Node> {
    match t
    case Empty => []
    case Fork(l, n, _, r) => InOrder(l) + [n] + InOrder(r)
  }

  ghost predicate NoRedBelowRed(t: Shape) {
    match t
    case Empty => true
    case Fork(l, _, red, r) =>
      && NoRedBelowRed(l) && NoRedBelowRed(r)
      && (red ==> !(l.Fork? && l.red) && !(r.Fork? && r.red))
  }

  // A path from the root to a null link: true turns right.
  ghost predicate LeadsOut(t: Shape, path: seq<bool>) {
    match t
    case Empty => path == []
    case Fork(l, _, _, r) => path != [] && LeadsOut(if path[0] then r else l, path[1..])
  }

  ghost function BlacksOn(t: Shape, path: seq<bool>): nat
    requires LeadsOut(t, path)
  {
    match t
    case Empty => 0
    case Fork(l, _, red, r) => (if red then 0 else 1) + BlacksOn(if path[0] then r else l, path[1..])
  }

  ghost function Pow2(n: nat): nat {
    if n == 0 then 1 else 2 * Pow2(n - 1)
  }

  lemma {:induction false} Pow2Sum(m: nat, n: nat)
    ensures Pow2(m + n) == Pow2(m) * Pow2(n)
  {
    if m > 0 {
      Pow2Sum(m - 1, n);
      assert Pow2(m + n) == 2 * Pow2(m - 1 + n);
    }
  }

  lemma {:induction false} Pow2Grows(m: nat, n: nat)
    requires m <= n
    ensures 1 <= Pow2(m) <= Pow2(n)
  {
    if m < n {
      Pow2Grows(m, n - 1);
    } else if m > 0 {
      Pow2Grows(m - 1, n - 1);
    }
  }

  // `Nodes` is the list the tree stands for, and S the set of its nodes.
  class RedBlackTree {
    var root: Node?
    ghost var Nodes: seq<Node>
    ghost var S: set<Node>

    constructor ()
      ensures Valid() && S == {} && Nodes == []
    {
      root := null;
      S, Nodes := {}, [];
    }

    ghost predicate Rooted()
      reads this`root, this`S, S`U, S`lo, S`hi
    {
      if root == null then S == {}
      else root in S && root.U == null && root.lo == 0.0 && root.hi == 1.0
    }

    ghost predicate Linked(m: Node)
      reads this`root, this`S, S`U, S`L, S`R, S`key, S`lo, S`hi
    {
      && m in S
      && 0.0 <= m.lo < m.key < m.hi <= 1.0
      && (m.L != null ==> m.L in S && m.L.U == m && m.L.lo == m.lo && m.L.hi == m.key)
      && (m.R != null ==> m.R in S && m.R.U == m && m.R.lo == m.key && m.R.hi == m.hi)
      && (if m.U == null then m == root else m.U in S && (m.U.L == m || m.U.R == m))
    }

    ghost predicate AllLinked()
      reads this`root, this`S, S`U, S`L, S`R, S`key, S`lo, S`hi
    {
      Rooted() && forall m {:trigger Linked(m)} :: m in S ==> Linked(m)
    }

    ghost predicate Threaded(m: Node)
      reads this`S, S`L, S`R, S`P, S`N, S`key, S`lo, S`hi
    {
      && m in S
      && (m.P != null ==> m.P in S && m.P.N == m && m.P.key < m.key)
      && (m.N != null ==> m.N in S && m.N.P == m && m.key < m.N.key && (m.R == null <==> m.N.L != null))
      && (m.L == null ==> m.lo == if m.P == null then 0.0 else m.P.key)
      && (m.R == null ==> m.hi == if m.N == null then 1.0 else m.N.key)
    }

    ghost predicate AllThreaded()
      reads this`S, S`L, S`R, S`P, S`N, S`key, S`lo, S`hi
    {
      forall m {:trigger Threaded(m)} :: m in S ==> Threaded(m)
    }

    ghost predicate Listed()
      reads this`S, this`Nodes, S`key, S`P, S`N
    {
      && (forall m :: m in S ==> m in Nodes)
      && (forall i, j :: 0 <= i < j < |Nodes| ==> Nodes[i] in S && Nodes[j] in S && Nodes[i].key < Nodes[j].key)
      && (forall i {:trigger Placed(i)} :: 0 <= i < |Nodes| ==> Placed(i))
    }

    // The links P and N of the i-th node lead to its neighbours.
    ghost predicate Placed(i: nat)
      requires i < |Nodes|
      reads this`S, this`Nodes, S`P, S`N
    {
      && Nodes[i] in S
      && Nodes[i].P == (if i == 0 then null else Nodes[i - 1])
      && Nodes[i].N == (if i == |Nodes| - 1 then null else Nodes[i + 1])
    }

    ghost predicate Sound()
      reads this`root, this`S, this`Nodes, S`U, S`L, S`R, S`P, S`N, S`key, S`lo, S`hi
    {
      Listed() && AllLinked() && AllThreaded()
    }

    lemma ListIsSet()
      requires Listed()
      ensures forall m :: m in S <==> m in Nodes
    {
      forall m | m in Nodes ensures m in S {
        var i :| 0 <= i < |Nodes| && Nodes[i] == m;
        assert Placed(i);
      }
    }

    lemma SameKey(a: Node, b: Node)
      requires Listed() && a in S && b in S && a.key == b.key
      ensures a == b
    {
    }

    twostate predicate SameThread()
      reads this, S
    {
      && S == old(S) && Nodes == old(Nodes)
      && (forall m {:trigger m.key} :: m in S ==> m.key == old(m.key))
      && (forall m {:trigger m.P} :: m in S ==> m.P == old(m.P))
      && (forall m {:trigger m.N} :: m in S ==> m.N == old(m.N))
    }

    twostate predicate Rotated(new n: Node, new r: Node)
      requires S == old(S) && n in S && r in S
      reads this, S
    {
      && root == (if old(root) == n then r else old(root))
      && n.U == r && r.U == old(n.U)
      && r.lo == old(n.lo) && r.hi == old(n.hi)
    }

    twostate predicate RotatedLeft(new n: Node, new r: Node)
      requires S == old(S) && n in S && r in S
      reads this, S
    {
      && r == old(n.R)
      && Rotated(n, r)
      && n.L == old(n.L) && n.R == old(r.L)
      && r.L == n && r.R == old(r.R)
      && n.lo == old(n.lo) && n.hi == r.key
      && (forall m {:trigger Untouched(n, r, m)} ::
        m in S && m != n && m != r ==> Untouched(n, r, m) && m.U == (if m == old(r.L) then n else old(m.U)))
    }

    twostate predicate Untouched(new n: Node, new r: Node, new m: Node)
      requires S == old(S) && n in S && r in S && m in S
      reads this, S
    {
      && m.L == (if old(m.L) == n then r else old(m.L))
      && m.R == (if old(m.R) == n then r else old(m.R))
      && m.lo == old(m.lo) && m.hi == old(m.hi)
    }

    twostate lemma RotatedLeftLinked(new n: Node, new r: Node, new m: Node)
      requires S == old(S) && n in S && r in S && m in S
      requires SameThread() && RotatedLeft(n, r)
      requires old(Linked(n)) && old(Linked(r)) && old(Linked(m))
      ensures Linked(m)
    {
      if m != n && m != r { assert Untouched(n, r, m); }
      if m.U != null && m.U != n && m.U != r { assert Untouched(n, r, m.U); }
      if m.L != null && m.L != n && m.L != r { assert Untouched(n, r, m.L); }
      if m.R != null && m.R != n && m.R != r { assert Untouched(n, r, m.R); }
    }

    twostate lemma RotatedLeftThreaded(new n: Node, new r: Node, new m: Node)
      requires S == old(S) && n in S && r in S && m in S
      requires SameThread() && RotatedLeft(n, r)
      requires old(Linked(n)) && old(Linked(r)) && old(Threaded(m))
      requires old(Threaded(n)) && old(Threaded(r))
      requires old(r.L == null ==> r.P == n)
      ensures Threaded(m)
    {
      if m != n && m != r { assert Untouched(n, r, m); }
      if m.N != null && m.N != n && m.N != r { assert Untouched(n, r, m.N); }
    }

    twostate lemma RotatedLeftShape(new n: Node, new r: Node)
      requires S == old(S) && n in S && r in S
      requires old(Sound())
      requires SameThread() && RotatedLeft(n, r)
      ensures Sound()
    {
      assert old(Linked(n)) && old(Linked(r)) && old(Threaded(n)) && old(Threaded(r));
      assert old(r.L) == null ==> old(r.P) == n by { if old(r.L) == null { SameKey(r.P, n); } }
      forall m {:trigger Linked(m)} | m in S ensures Linked(m) {
        assert old(Linked(m));
        RotatedLeftLinked(n, r, m);
      }
      forall m {:trigger Threaded(m)} | m in S ensures Threaded(m) {
        assert old(Threaded(m));
        RotatedLeftThreaded(n, r, m);
      }
      if root != r {assert Untouched(n, r, root); }
    }

    method SpliceLeft(n: Node)
      requires n in S && n.R != null && n.R in S && n != n.R
      requires n.R.L != null ==> n.R.L in S && n.R.L != n && n.R.L != n.R
      requires n.U == null ==> n == root
      requires n.U != null ==> n != root && n.U in S && n.U != n && n.U != n.R && (n.U.L == n) != (n.U.R == n)
      requires forall m :: m in S && (m.L == n || m.R == n) ==> m == n.U
      modifies this`root, S`U, S`L, S`R, S`lo, S`hi
      ensures n in S && old(n.R) in S && RotatedLeft(n, old(n.R))
    {
      var r := n.R;
      var i := n.U;
      if i != null {
        if i.L == n { i.L := r; } else { i.R := r; }
      } else {
        root := r;
      }
      r.U := i;
      n.U := r;
      n.R := r.L;
      if n.R != null { n.R.U := n; }
      r.L := n;
      r.lo, r.hi := n.lo, n.hi;
      n.hi := r.key;
    }

    method RotateLeft(n: Node)
      requires Sound() && n in S && n.R != null
      modifies this`root, S`U, S`L, S`R, S`lo, S`hi
      ensures Sound() && n in S && old(n.R) in S && RotatedLeft(n, old(n.R))
    {
      ghost var r := n.R;
      assert Linked(n); assert Linked(r);
      if n.U != null { assert Linked(n.U); }
      forall m | m in S && (m.L == n || m.R == n) ensures m == n.U { assert Linked(m); }
      SpliceLeft(n);
      RotatedLeftShape(n, r);
    }

    twostate predicate RotatedRight(new n: Node, new r: Node)
      requires S == old(S) && n in S && r in S
      reads this, S
    {
      && r == old(n.L)
      && Rotated(n, r)
      && n.R == old(n.R) && n.L == old(r.R)
      && r.R == n && r.L == old(r.L)
      && n.lo == r.key && n.hi == old(n.hi)
      && (forall m {:trigger Untouched(n, r, m)} :: m in S && m != n && m != r ==>
           Untouched(n, r, m) && m.U == (if m == old(r.R) then n else old(m.U)))
    }

    twostate lemma RotatedRightLinked(new n: Node, new r: Node, new m: Node)
      requires S == old(S) && n in S && r in S && m in S
      requires SameThread() && RotatedRight(n, r)
      requires old(Linked(n)) && old(Linked(r)) && old(Linked(m))
      ensures Linked(m)
    {
      if m != n && m != r { assert Untouched(n, r, m); }
      if m.U != null && m.U != n && m.U != r { assert Untouched(n, r, m.U); }
      if m.L != null && m.L != n && m.L != r { assert Untouched(n, r, m.L); }
      if m.R != null && m.R != n && m.R != r { assert Untouched(n, r, m.R); }
    }

    twostate lemma RotatedRightThreaded(new n: Node, new r: Node, new m: Node)
      requires S == old(S) && n in S && r in S && m in S
      requires SameThread() && RotatedRight(n, r)
      requires old(Linked(n)) && old(Linked(r)) && old(Threaded(m))
      requires old(Threaded(n)) && old(Threaded(r))
      requires old(r.R == null ==> r.N == n)
      ensures Threaded(m)
    {
      if m != n && m != r { assert Untouched(n, r, m); }
      if m.N != null && m.N != n && m.N != r { assert Untouched(n, r, m.N); }
    }

    twostate lemma RotatedRightShape(new n: Node, new r: Node)
      requires S == old(S) && n in S && r in S
      requires old(Sound())
      requires SameThread() && RotatedRight(n, r)
      ensures Sound()
    {
      assert old(Linked(n)) && old(Linked(r)) && old(Threaded(n)) && old(Threaded(r));
      assert old(r.R) == null ==> old(r.N) == n by { if old(r.R) == null { SameKey(r.N, n); } }
      forall m {:trigger Linked(m)} | m in S ensures Linked(m) {
        assert old(Linked(m));
        RotatedRightLinked(n, r, m);
      }
      forall m {:trigger Threaded(m)} | m in S ensures Threaded(m) {
        assert old(Threaded(m));
        RotatedRightThreaded(n, r, m);
      }
      if root != r { assert Untouched(n, r, root); }
    }

    method SpliceRight(n: Node)
      requires n in S && n.L != null && n.L in S && n != n.L
      requires n.L.R != null ==> n.L.R in S && n.L.R != n && n.L.R != n.L
      requires n.U == null ==> n == root
      requires n.U != null ==> n != root && n.U in S && n.U != n && n.U != n.L && (n.U.L == n) != (n.U.R == n)
      requires forall m :: m in S && (m.L == n || m.R == n) ==> m == n.U
      modifies this`root, S`U, S`L, S`R, S`lo, S`hi
      ensures n in S && old(n.L) in S && RotatedRight(n, old(n.L))
    {
      var r := n.L;
      var i := n.U;
      if i != null {
        if i.L == n { i.L := r; } else { i.R := r; }
      } else {
        root := r;
      }
      r.U := i;
      n.U := r;
      n.L := r.R;
      if n.L != null { n.L.U := n; }
      r.R := n;
      r.lo, r.hi := n.lo, n.hi;
      n.lo := r.key;
    }

    method RotateRight(n: Node)
      requires Sound() && n in S && n.L != null
      modifies this`root, S`U, S`L, S`R, S`lo, S`hi
      ensures Sound() && n in S && old(n.L) in S && RotatedRight(n, old(n.L))
    {
      ghost var r := n.L;
      assert Linked(n); assert Linked(r);
      if n.U != null { assert Linked(n.U); }
      forall m | m in S && (m.L == n || m.R == n) ensures m == n.U { assert Linked(m); }
      SpliceRight(n);
      RotatedRightShape(n, r);
    }

    ghost function Within(lo: real, hi: real): set<Node>
      reads this`S, S`lo, S`hi
    {
      set m | m in S && lo <= m.lo && m.hi <= hi
    }

    lemma WithinShrinks(lo: real, hi: real, lo': real, hi': real, w: Node)
      requires lo <= lo' && hi' <= hi && w in Within(lo, hi) && !(lo' <= w.lo && w.hi <= hi')
      ensures Within(lo', hi') < Within(lo, hi)
    {
      assert w !in Within(lo', hi');
    }

    method Minimum(start: Node) returns (e: Node)
      requires AllLinked() && start in S
      ensures e in S && e.L == null && e.lo == start.lo && e.hi <= start.hi && e.key <= start.key
      ensures e != start ==> e.U != null && e.U.L == e && e.U != e
    {
      e := start;
      while e.L != null
        invariant e in S && e.lo == start.lo && e.hi <= start.hi && e.key <= start.key
        invariant e != start ==> e.U != null && e.U.L == e && e.U != e
        decreases Within(e.lo, e.hi)
      {
        assert Linked(e) && Linked(e.L);
        WithinShrinks(e.lo, e.hi, e.L.lo, e.L.hi, e);
        e := e.L;
      }
    }

    // ---------- colours and black heights ----------

    ghost function Rank(c: Node?): nat
      requires c != null ==> c in S
      reads this`S, S`C, S`bh
    {
      if c == null then 0 else if c.C then c.bh else c.bh + 1
    }

    static predicate IsRed(c: Node?)
      reads c
    {
      c != null && c.C
    }

    ghost predicate Balanced(m: Node)
      reads this`S, S`L, S`R, S`C, S`bh
    {
      && m in S
      && (m.L != null ==> m.L in S)
      && (m.R != null ==> m.R in S)
      && Rank(m.L) == m.bh == Rank(m.R)
    }

    // No red node m has a red child, the child `kid` aside.
    ghost predicate Cool(m: Node, kid: Node?)
      reads this`S, S`L, S`R, S`C
    {
      && m in S
      && (m.C && m.L != null && m.L != kid ==> m.L in S && !m.L.C)
      && (m.C && m.R != null && m.R != kid ==> m.R in S && !m.R.C)
    }

    ghost predicate AllBalanced()
      reads this`S, S`L, S`R, S`C, S`bh
    {
      forall m {:trigger Balanced(m)} :: m in S ==> Balanced(m)
    }

    ghost predicate AllCool(kid: Node?)
      reads this`S, S`L, S`R, S`C
    {
      forall m {:trigger Cool(m, kid)} :: m in S ==> Cool(m, kid)
    }

    ghost predicate AllCoolBut(top: Node?)
      reads this`S, S`L, S`R, S`C
    {
      forall m {:trigger Cool(m, null)} :: m in S && m != top ==> Cool(m, null)
    }

    ghost predicate Valid()
      reads this, S
    {
      Sound() && AllBalanced() && AllCool(null) && (root != null ==> root in S && !root.C)
    }

    // Insertion climbs with a red node e whose parent may be red too.
    ghost predicate RedAt(e: Node)
      reads this, S
    {
      && Sound() && AllBalanced() && AllCool(e)
      && e in S && e.C
      && (root != null && root != e ==> root in S && !root.C)
    }

    twostate predicate Recoloured(new n: Node, new i: Node, new r: Node)
      requires S == old(S) && n in S && i in S && r in S
      reads this, S
    {
      && old(n.C && i.C && !r.C) && !n.C && !i.C && r.C && r.bh == old(r.bh) + 1
      && (forall m {:trigger m.L} :: m in S ==> m.L == old(m.L))
      && (forall m {:trigger m.R} :: m in S ==> m.R == old(m.R))
      && (forall m {:trigger m.C} :: m in S && m != n && m != i && m != r ==> m.C == old(m.C))
      && (forall m {:trigger m.bh} :: m in S && m != r ==> m.bh == old(m.bh))
    }

    twostate lemma RecolouredBalanced(new n: Node, new i: Node, new r: Node, new m: Node)
      requires S == old(S) && n in S && i in S && r in S && m in S
      requires Recoloured(n, i, r) && old(Kids(r, n, i)) && n != i && n != r && i != r
      requires old(Balanced(r)) && old(Balanced(m)) && old(Linked(m))
      requires n.U == i.U == r && old(n.U == i.U == r)
      ensures Balanced(m)
    {
    }

    twostate lemma RecolouredCool(new e: Node, new n: Node, new i: Node, new r: Node, new m: Node)
      requires S == old(S) && n in S && i in S && r in S && m in S && n != i && n != r && i != r
      requires Recoloured(n, i, r) && old(Kids(r, n, i))
      requires e in S && old(Cool(m, e)) && old(Linked(m)) && old(e.U == n && n.U == r)
      ensures Cool(m, r)
    {
    }

    ghost predicate Kids(m: Node, x: Node?, y: Node?)
      reads m
    {
      (m.L == x && m.R == y) || (m.L == y && m.R == x)
    }

    twostate lemma RecolouredRedAt(new e: Node, new n: Node, new i: Node, new r: Node)
      requires S == old(S) && e in S && n in S && i in S && r in S && n != i && n != r && i != r
      requires Recoloured(n, i, r) && old(Kids(r, n, i)) && Sound() && root == old(root)
      requires old(RedAt(e)) && old(e.U == n && n.U == r) && old(i.U) == r && n.U == i.U == r
      ensures RedAt(r)
    {
      assert old(Balanced(r));
      forall m {:trigger Balanced(m)} | m in S ensures Balanced(m) {
        assert old(Balanced(m)) && old(Linked(m));
        RecolouredBalanced(n, i, r, m);
      }
      forall m {:trigger Cool(m, r)} | m in S ensures Cool(m, r) {
        assert old(Cool(m, e)) && old(Linked(m));
        RecolouredCool(e, n, i, r, m);
      }
    }

    method PaintRecolour(n: Node, i: Node, r: Node)
      requires n in S && i in S && r in S && n != i && n != r && i != r && n.C && i.C && !r.C
      modifies S`C, S`bh
      ensures n in S && i in S && r in S && Recoloured(n, i, r)
    {
      n.C := false;
      i.C := false;
      r.C := true;
      r.bh := r.bh + 1;
    }

    method Recolour(e: Node, n: Node, i: Node, r: Node)
      requires RedAt(e) && n == e.U && n.C && r == n.U
      requires i.C && Kids(r, n, i)
      modifies S`C, S`bh
      ensures RedAt(r)
    {
      assert Linked(e) && Linked(n) && Linked(r);
      assert Cool(r, e);
      PaintRecolour(n, i, r);
      RecolouredRedAt(e, n, i, r);
    }

    // A rotation seen without sides: d went down, p came up; a stayed with d,
    // c moved from p to d, and b stayed with p.
    twostate predicate Turned(new d: Node, new p: Node, new a: Node?, new c: Node?, new b: Node?)
      requires S == old(S) && d in S && p in S
      reads this, S
    {
      && d != p
      && ((old(d.L) == a && old(d.R) == p) || (old(d.L) == p && old(d.R) == a))
      && ((old(p.L) == c && old(p.R) == b) || (old(p.L) == b && old(p.R) == c))
      && Kids(d, a, c) && Kids(p, d, b)
      && root == (if old(root) == d then p else old(root))
      && (forall m {:trigger Rehung(d, p, m)} :: m in S && m != d && m != p ==> Rehung(d, p, m))
    }

    twostate predicate Rehung(new d: Node, new p: Node, new m: Node)
      requires S == old(S) && d in S && p in S && m in S
      reads this, S
    {
      && m.L == (if old(m.L) == d then p else old(m.L))
      && m.R == (if old(m.R) == d then p else old(m.R))
    }

    // The colours of d and p change places, all else keeps its colour and height.
    twostate predicate Exchanged(new d: Node, new p: Node)
      requires S == old(S) && d in S && p in S
      reads this, S
    {
      && old(p.C && !d.C) && d.C && !p.C
      && (forall m {:trigger m.C} :: m in S && m != d && m != p ==> m.C == old(m.C))
      && (forall m {:trigger m.bh} :: m in S ==> m.bh == old(m.bh))
    }

    twostate lemma RotatedTurned(new d: Node, new p: Node, new a: Node?, new c: Node?, new b: Node?)
      requires S == old(S) && d in S && p in S && d != p && a !in {d, p} && c !in {d, p} && b !in {d, p}
      requires if old(d.L) == p
        then RotatedRight(d, p) && old(d.R) == a && old(p.R) == c && old(p.L) == b
        else RotatedLeft(d, p) && old(d.L) == a && old(p.L) == c && old(p.R) == b
      ensures Turned(d, p, a, c, b)
    {
      forall m {:trigger Rehung(d, p, m)} | m in S && m != d && m != p ensures Rehung(d, p, m) {
        assert Untouched(d, p, m);
      }
    }

    ghost predicate Apart(d: Node, p: Node, a: Node?, c: Node?, b: Node?)
      reads this`S
    {
      && d in S && p in S && d != p && a !in {d, p} && c !in {d, p} && b !in {d, p}
      && (a != null ==> a in S) && (b != null ==> b in S) && (c != null ==> c in S)
    }

    ghost predicate Turnable(d: Node, p: Node, a: Node?, c: Node?, b: Node?)
      reads this`S, S`L, S`R
    {
      && Apart(d, p, a, c, b)
      && if d.L == p then d.R == a && p.R == c && p.L == b else d.R == p && d.L == a && p.L == c && p.R == b
    }

    method Turn(d: Node, p: Node, ghost a: Node?, ghost c: Node?, ghost b: Node?)
      requires Sound() && Turnable(d, p, a, c, b)
      modifies this`root, S`U, S`L, S`R, S`lo, S`hi
      ensures Sound() && d in S && p in S && Turned(d, p, a, c, b) && d.U == p && p.U == old(d.U)
      ensures if old(d.L) == p then p.R == d && d.R == a else p.L == d && d.L == a
    {
      if p == d.L {
        RotateRight(d);
      } else {
        RotateLeft(d);
      }
      RotatedTurned(d, p, a, c, b);
    }

    method ExchangeAndTurn(d: Node, p: Node, ghost a: Node?, ghost c: Node?, ghost b: Node?)
      requires Sound() && Turnable(d, p, a, c, b) && p.C && !d.C
      modifies this`root, S`U, S`L, S`R, S`lo, S`hi, d`C, p`C
      ensures Sound() && d in S && p in S && d.U == p && p.U == old(d.U)
      ensures Turned(d, p, a, c, b) && !p.C && d.C
      ensures if old(d.L) == p then p.R == d && d.R == a else p.L == d && d.L == a
    {
      hide Linked, Threaded, Listed, AllLinked, AllThreaded, Sound;
      p.C := false;
      d.C := true;
      label Painted:
      Turn(d, p, a, c, b);
      forall m {:trigger Rehung(d, p, m)} | m in S && m != d && m != p ensures Rehung(d, p, m) {
        assert Rehung@Painted(d, p, m);
      }
    }

    twostate lemma TurnedInnerAt(new n: Node, new e: Node, new a: Node?, new c: Node?, new b: Node?, new m: Node)
      requires S == old(S) && n in S && e in S && m in S && Apart(n, e, a, c, b)
      requires Turned(n, e, a, c, b) && n.C && e.C
      requires forall m {:trigger m.C} :: m in S ==> m.C == old(m.C)
      requires forall m {:trigger m.bh} :: m in S ==> m.bh == old(m.bh)
      requires old(Balanced(n)) && old(Balanced(e)) && old(Balanced(m))
      requires old(Cool(n, e)) && old(Cool(e, e)) && old(Cool(m, e))
      requires m != n ==> old(m.L) != e && old(m.R) != e
      ensures Balanced(m) && Cool(m, n)
    {
      if m != n && m != e { assert Rehung(n, e, m); }
    }

    lemma SoleParent(p: Node, c: Node, m: Node)
      requires AllLinked() && m in S && c in S && c.U == p && m != p
      ensures m.L != c && m.R != c
    {
      assert Linked(m);
    }

    lemma KidsParent(p: Node, x: Node?, y: Node?)
      requires AllLinked() && p in S && Kids(p, x, y)
      ensures x != null ==> x in S && x.U == p && x != p
      ensures y != null ==> y in S && y.U == p && y != p
      ensures x == y ==> x == null
    {
      assert Linked(p);
    }

    // The parent n is red and e is its inner child: turn them so that n becomes the outer child.
    method TurnInner(e: Node, n: Node, ghost a: Node?, ghost c: Node?, ghost b: Node?)
      requires RedAt(e) && n == e.U && n.C && Turnable(n, e, a, c, b)
      modifies this`root, S`U, S`L, S`R, S`lo, S`hi
      ensures RedAt(n) && e in S && n.U == e && e.U == old(n.U) && e.C
      ensures if old(n.L) == e then e.R == n else e.L == n
      ensures var r := old(n.U);
        r != null && r in S && r.L == (if old(r.L) == n then e else old(r.L))
          && r.R == (if old(r.R) == n then e else old(r.R))
    {
      hide Linked, Threaded, Listed, AllThreaded, Balanced, Cool;
      forall m | m in S && m != n ensures m.L != e && m.R != e { SoleParent(n, e, m); }
      assert Balanced(n) && Balanced(e) && Cool(n, e) && Cool(e, e);
      RedAtParent(e);
      Turn(n, e, a, c, b);
      assert Rehung(n, e, old(n.U));
      forall m {:trigger Balanced(m)} | m in S ensures Balanced(m) {
        assert old(Balanced(m)) && old(Cool(m, e));
        TurnedInnerAt(n, e, a, c, b, m);
      }
      forall m {:trigger Cool(m, n)} | m in S ensures Cool(m, n) {
        assert old(Balanced(m)) && old(Cool(m, e));
        TurnedInnerAt(n, e, a, c, b, m);
      }
    }

    // Both e and its parent n are red and on the same side: the black grandparent r goes down.
    twostate lemma RaisedAt(new r: Node, new n: Node, new a: Node?, new c: Node?, new e: Node, new m: Node)
      requires S == old(S) && r in S && n in S && m in S && Apart(r, n, a, c, e)
      requires Turned(r, n, a, c, e) && Exchanged(r, n) && !IsRed(a)
      requires old(Balanced(r)) && old(Balanced(n)) && old(Balanced(m))
      requires old(Cool(n, e)) && old(Cool(m, e)) && c != e
      requires m != r ==> old(m.L) != n && old(m.R) != n
      requires m != n ==> old(m.L) != e && old(m.R) != e
      ensures Balanced(m) && Cool(m, null)
    {
      if m != r && m != n { assert Rehung(r, n, m); }
    }

    lemma RedAtFacts(e: Node, n: Node, r: Node, a: Node?, c: Node?)
      requires RedAt(e) && n == e.U && n.C && r == n.U && Turnable(r, n, a, c, e)
      ensures Balanced(r) && Balanced(n) && Cool(n, e) && !r.C && n != root && c != e
    {
      assert Linked(e);
      assert Linked(n);
      assert Cool(r, e);
    }

    method RaiseOuter(e: Node, n: Node, r: Node, ghost a: Node?, ghost c: Node?)
      requires RedAt(e) && n == e.U && n.C && r == n.U && Turnable(r, n, a, c, e) && !IsRed(a)
      modifies this`root, S`U, S`L, S`R, S`lo, S`hi, r`C, n`C
      ensures Valid() && e in S && e.U == n && n in S && !n.C
    {
      hide Linked, Threaded, Listed, AllThreaded, Balanced, Cool;
      forall m | m in S && m != n ensures m.L != e && m.R != e { SoleParent(n, e, m); }
      forall m | m in S && m != r ensures m.L != n && m.R != n { SoleParent(r, n, m); }
      assert Balanced(r) && Balanced(n) && Cool(n, e) && !r.C && n != root && c != e by {
        RedAtFacts(e, n, r, a, c);
      }
      ExchangeAndTurn(r, n, a, c, e);
      assert Exchanged(r, n);
      KidsParent(n, r, e);
      forall m {:trigger Balanced(m)} | m in S ensures Balanced(m) {
        assert old(Balanced(m)) && old(Cool(m, e));
        RaisedAt(r, n, a, c, e, m);
      }
      forall m {:trigger Cool(m, null)} | m in S ensures Cool(m, null) {
        assert old(Balanced(m)) && old(Cool(m, e));
        RaisedAt(r, n, a, c, e, m);
      }
    }

    ghost function Above(lo: real, hi: real): set<Node>
      reads this`S, S`lo, S`hi
    {
      set m | m in S && m.lo <= lo && hi <= m.hi
    }

    lemma GrandparentAbove(e: Node, n: Node, r: Node)
      requires AllLinked() && e in S && n in S && r in S && e.U == n && n.U == r
      ensures Above(r.lo, r.hi) < Above(e.lo, e.hi)
    {
      assert Linked(e) && Linked(n) && Linked(r);
      assert e in Above(e.lo, e.hi) && e !in Above(r.lo, r.hi);
    }

    lemma RedAtParent(e: Node)
      requires RedAt(e) && e.U != null && e.U.C
      ensures e.U in S && e.U != e && e.U.U != null && e.U.U in S && e.U.U != e.U && !e.U.U.C && e.U.U != e
      ensures e.U.L == e || e.U.R == e
      ensures e.U.U.L == e.U || e.U.U.R == e.U
      ensures e.U.U.L != e.U.U.R && e.U.L != e.U.R
    {
      assert Linked(e);
      assert Linked(e.U);
      assert Linked(e.U.U);
      assert Cool(e.U.U, e);
    }

    lemma TurnableKids(d: Node, p: Node)
      requires AllLinked() && d in S && p in S && p.U == d && (d.L == p || d.R == p)
      ensures d.L == p ==> Turnable(d, p, d.R, p.R, p.L)
      ensures d.R == p ==> Turnable(d, p, d.L, p.L, p.R)
    {
      assert Linked(d);
      assert Linked(p);
      if d.U != null { assert Linked(d.U); }
    }

    lemma ParentInside(e: Node)
      requires AllLinked() && e in S
      ensures e.U != null ==> e.U in S
    {
      assert Linked(e);
    }

    lemma RootInside()
      requires AllLinked() && S != {}
      ensures root != null && root in S && root.U == null
      ensures forall m :: m in S && m.U == null ==> m == root
    {
      forall m | m in S && m.U == null ensures m == root { assert Linked(m); }
    }

    twostate lemma BlackenedRootAt(new m: Node)
      requires S == old(S) && root == old(root) && root != null && root in S && m in S && !root.C
      requires forall m {:trigger m.C} :: m in S && m != root ==> m.C == old(m.C)
      requires m.L == old(m.L) && m.R == old(m.R) && m.L != root && m.R != root
      ensures old(Balanced(m)) && m.bh == old(m.bh)
              && (m.L != null ==> m.L.bh == old(m.L.bh)) && (m.R != null ==> m.R.bh == old(m.R.bh))
              ==> Balanced(m)
      ensures (m != root ==> old(Cool(m, null))) ==> Cool(m, null)
    {
    }

    method BlackenRoot()
      requires Sound() && AllBalanced() && S != {}
      requires AllCoolBut(root)
      modifies S`C
      ensures Valid()
    {
      hide Linked, Threaded, Listed, AllThreaded, Balanced, Cool;
      RootInside();
      forall m | m in S ensures m.L != root && m.R != root { assert m.L != root && m.R != root by { NoParent(m); } }
      root.C := false;
      forall m {:trigger Balanced(m)} | m in S ensures Balanced(m) { assert old(Balanced(m)); BlackenedRootAt(m); }
      forall m {:trigger Cool(m, null)} | m in S ensures Cool(m, null) {
        assert m != root ==> old(Cool(m, null));
        BlackenedRootAt(m);
      }
    }

    lemma NoParent(m: Node)
      requires AllLinked() && m in S && root != null
      ensures m.L != root && m.R != root
    {
      assert Linked(m);
    }

    lemma AllCoolWeakens(top: Node?)
      requires AllCool(null)
      ensures AllCoolBut(top)
    {
    }

    lemma SettledRed(e: Node)
      requires RedAt(e) && (e.U == null || !e.U.C)
      ensures AllCoolBut(root)
    {
      forall m {:trigger Cool(m, null)} | m in S && m != root ensures Cool(m, null) {
        assert Cool(m, e) && Linked(m);
      }
    }

    // The fix-up loop of insert, from the new red node to the root.
    method FixInsert(t: Node)
      requires RedAt(t)
      modifies this`root, S`U, S`L, S`R, S`lo, S`hi, S`C, S`bh
      ensures Valid()
    {
      hide Linked, Threaded, Listed, AllLinked, AllThreaded, AllBalanced, AllCool, Turnable;
      var e := t;
      var n := e.U;
      ParentInside(e);
      while n != null && n.C
        invariant e in S && n == e.U && (n != null ==> n in S)
        invariant if n != null && n.C then RedAt(e) else RedAt(e) || Valid()
        decreases if n != null && n.C then 1 else 0, Above(e.lo, e.hi)
      {
        RedAtParent(e);
        var r := n.U;
        if n == r.L {
          var i := r.R;
          if i != null && i.C {
            GrandparentAbove(e, n, r);
            Recolour(e, n, i, r);
            e := r;
            ParentInside(e);
          } else {
            if e == n.R {
              TurnableKids(n, e);
              TurnInner(e, n, n.L, e.L, e.R);
              e := n;
              n := e.U;
            }
            TurnableKids(r, n);
            RaiseOuter(e, n, r, i, n.R);
          }
        } else {
          var i := r.L;
          if i != null && i.C {
            GrandparentAbove(e, n, r);
            Recolour(e, n, i, r);
            e := r;
            ParentInside(e);
          } else {
            if e == n.L {
              TurnableKids(n, e);
              TurnInner(e, n, n.R, e.R, e.L);
              e := n;
              n := e.U;
            }
            TurnableKids(r, n);
            RaiseOuter(e, n, r, i, n.L);
          }
        }
        n := e.U;
      }
      if RedAt(e) {
        SettledRed(e);
      } else {
        assert AllCoolBut(root) by { AllCoolWeakens(root); }
      }
      BlackenRoot();
    }

    // ---------- insertion ----------

    // t has been hung between its neighbours p and q in the threaded list.
    twostate predicate Attached(new t: Node, new p: Node?, new q: Node?, new right: bool)
      requires old(S) <= S && t in S && (p != null ==> p in S) && (q != null ==> q in S)
      reads this, S
    {
      && t !in old(S) && S == old(S) + {t}
      && t.P == p && t.N == q && t.L == null && t.R == null && t.C && t.bh == 0
      && t.lo == (if p == null then 0.0 else p.key) && t.hi == (if q == null then 1.0 else q.key)
      && t.lo < t.key < t.hi
      && t.U == (if right then p else q)
      && root == (if t.U == null then t else old(root))
      && (forall m {:trigger Kept(t, p, q, right, m)} :: m in old(S) ==> Kept(t, p, q, right, m))
    }

    twostate predicate Kept(new t: Node, new p: Node?, new q: Node?, new right: bool, new m: Node)
      requires old(S) <= S && m in old(S)
      reads this, S
    {
      && m.U == old(m.U) && m.key == old(m.key) && m.lo == old(m.lo) && m.hi == old(m.hi)
      && m.C == old(m.C) && m.bh == old(m.bh)
      && m.N == (if m == p then t else old(m.N))
      && m.P == (if m == q then t else old(m.P))
      && m.R == (if m == p && right then t else old(m.R))
      && m.L == (if m == q && !right then t else old(m.L))
    }

    twostate lemma AttachedLinked(new t: Node, new p: Node?, new q: Node?, new right: bool, new m: Node)
      requires old(S) <= S && t in S && (p != null ==> p in old(S)) && (q != null ==> q in old(S))
      requires old(Rooted()) && Attached(t, p, q, right) && m in S && AttachedTo(p, q, right)
      requires m != t ==> old(Linked(m))
      requires p != null ==> old(Linked(p) && Threaded(p))
      requires q != null ==> old(Linked(q) && Threaded(q))
      ensures Linked(m)
    {
      if m != t { assert Kept(t, p, q, right, m); }
      if p != null { assert Kept(t, p, q, right, p); }
      if q != null { assert Kept(t, p, q, right, q); }
      if m.U != null && m.U != t { assert Kept(t, p, q, right, m.U); }
      if m.L != null && m.L != t { assert Kept(t, p, q, right, m.L); }
      if m.R != null && m.R != t { assert Kept(t, p, q, right, m.R); }
    }

    twostate predicate AttachedTo(new p: Node?, new q: Node?, new right: bool)
      requires (p != null ==> p in old(S)) && (q != null ==> q in old(S))
      reads this
    {
      && (p != null ==> old(p.N) == q) && (q != null ==> old(q.P) == p)
      && (p == null && q == null ==> old(S) == {})
      && (right <==> p != null && old(p.R) == null)
      && (!right && q == null ==> p == null)
      && (!right && q != null ==> old(q.L) == null)
    }

    twostate lemma AttachedThreaded(new t: Node, new p: Node?, new q: Node?, new right: bool, new m: Node)
      requires old(S) <= S && t in S && (p != null ==> p in old(S)) && (q != null ==> q in old(S))
      requires Attached(t, p, q, right) && m in S && AttachedTo(p, q, right)
      requires m != t ==> old(Threaded(m))
      requires p != null ==> old(Threaded(p))
      requires q != null ==> old(Threaded(q))
      ensures Threaded(m)
    {
      if m != t { assert Kept(t, p, q, right, m); }
      if p != null { assert Kept(t, p, q, right, p); }
      if q != null { assert Kept(t, p, q, right, q); }
      if m.P != null && m.P != t { assert Kept(t, p, q, right, m.P); }
      if m.N != null && m.N != t { assert Kept(t, p, q, right, m.N); }
    }

    twostate lemma AttachedColours(new t: Node, new p: Node?, new q: Node?, new right: bool, new m: Node)
      requires old(S) <= S && t in S && (p != null ==> p in old(S)) && (q != null ==> q in old(S))
      requires Attached(t, p, q, right) && m in S && AttachedTo(p, q, right)
      requires m != t ==> old(Balanced(m) && Cool(m, null))
      ensures Balanced(m) && Cool(m, t)
    {
      if m != t {
        assert Kept(t, p, q, right, m);
        if m.L != null && m.L != t { assert Kept(t, p, q, right, m.L); }
        if m.R != null && m.R != t { assert Kept(t, p, q, right, m.R); }
      }
    }

    ghost predicate Between(s: seq<Node>, k: nat, p: Node?, q: Node?) {
      && k <= |s|
      && p == (if k == 0 then null else s[k - 1])
      && q == (if k == |s| then null else s[k])
    }

    twostate lemma AttachedSorted(new t: Node, new p: Node?, new q: Node?, new right: bool, new k: nat, new i: nat,
        new j: nat)
      requires old(S) <= S && t in S && (p != null ==> p in old(S)) && (q != null ==> q in old(S))
      requires Attached(t, p, q, right)
      requires old(forall i, j ::
        0 <= i < j < |Nodes| ==> Nodes[i] in S && Nodes[j] in S && Nodes[i].key < Nodes[j].key)
      requires k <= |old(Nodes)| && Between(old(Nodes), k, p, q)
      requires Nodes == old(Nodes)[..k] + [t] + old(Nodes)[k..] && i < j < |Nodes|
      requires forall i :: 0 <= i < |old(Nodes)| ==> old(Nodes[i] in S)
      ensures Nodes[i] in S && Nodes[j] in S && Nodes[i].key < Nodes[j].key
    {
      if i != k { assert Kept(t, p, q, right, Nodes[i]); }
      if j != k { assert Kept(t, p, q, right, Nodes[j]); }
      if p != null { assert Kept(t, p, q, right, p); }
      if q != null { assert Kept(t, p, q, right, q); }
    }

    twostate lemma AttachedPlaced(new t: Node, new p: Node?, new q: Node?, new right: bool, new k: nat, new i: nat)
      requires old(S) <= S && t in S && (p != null ==> p in old(S)) && (q != null ==> q in old(S))
      requires Attached(t, p, q, right)
      requires k <= |old(Nodes)| && Between(old(Nodes), k, p, q)
      requires Nodes == old(Nodes)[..k] + [t] + old(Nodes)[k..] && i < |Nodes|
      requires forall i {:trigger old(Placed(i))} :: 0 <= i < |old(Nodes)| ==> old(Placed(i))
      requires forall i, j :: 0 <= i < j < |old(Nodes)| ==> old(Nodes)[i] != old(Nodes)[j]
      ensures Placed(i)
    {
      var s := old(Nodes);
      if i != k {
        var h := if i < k then i else i - 1;
        assert Nodes[i] == s[h] && old(Placed(h));
        assert Kept(t, p, q, right, s[h]);
      }
    }

    twostate lemma AttachedListed(new t: Node, new p: Node?, new q: Node?, new right: bool, new k: nat)
      requires old(S) <= S && t in S && (p != null ==> p in old(S)) && (q != null ==> q in old(S))
      requires Attached(t, p, q, right) && old(Listed())
      requires k <= |old(Nodes)| && Between(old(Nodes), k, p, q)
      requires Nodes == old(Nodes)[..k] + [t] + old(Nodes)[k..]
      ensures Listed()
    {
      hide Kept;
      forall i | 0 <= i < |old(Nodes)| ensures old(Nodes[i] in S) { assert old(Placed(i)); }
      forall i, j | 0 <= i < j < |Nodes| ensures Nodes[i] in S && Nodes[j] in S && Nodes[i].key < Nodes[j].key {
        AttachedSorted(t, p, q, right, k, i, j);
      }
      forall i {:trigger Placed(i)} | 0 <= i < |Nodes| ensures Placed(i) {
        AttachedPlaced(t, p, q, right, k, i);
      }
      forall m | m in S ensures m in Nodes {
        assert m in old(Nodes) || m == Nodes[k];
      }
    }

    twostate lemma AttachedShape(new t: Node, new p: Node?, new q: Node?, new right: bool, new k: nat)
      requires old(S) <= S && t in S && (p != null ==> p in old(S)) && (q != null ==> q in old(S))
      requires Attached(t, p, q, right) && AttachedTo(p, q, right) && old(Sound())
      requires k <= |old(Nodes)| && Between(old(Nodes), k, p, q)
      requires Nodes == old(Nodes)[..k] + [t] + old(Nodes)[k..]
      ensures Sound()
    {
      hide Listed, Linked, Threaded, Between;
      assert p != null ==> old(Linked(p) && Threaded(p));
      assert q != null ==> old(Linked(q) && Threaded(q));
      AttachedListed(t, p, q, right, k);
      forall m {:trigger Linked(m)} | m in S ensures Linked(m) {
        assert m != t ==> old(Linked(m));
        AttachedLinked(t, p, q, right, m);
      }
      forall m {:trigger Threaded(m)} | m in S ensures Threaded(m) {
        assert m != t ==> old(Threaded(m));
        AttachedThreaded(t, p, q, right, m);
      }
      assert old(root) != null ==> old(root) in old(S) && Kept(t, p, q, right, old(root));
    }

    twostate lemma AttachedRedAt(new t: Node, new p: Node?, new q: Node?, new right: bool)
      requires old(S) <= S && t in S && (p != null ==> p in old(S)) && (q != null ==> q in old(S))
      requires Attached(t, p, q, right) && AttachedTo(p, q, right) && old(Valid()) && Sound()
      ensures RedAt(t)
    {
      hide Listed, Linked, Threaded, Sound, Balanced, Cool;
      forall m {:trigger Balanced(m)} | m in S ensures Balanced(m) {
        assert m != t ==> old(Balanced(m) && Cool(m, null));
        AttachedColours(t, p, q, right, m);
      }
      forall m {:trigger Cool(m, t)} | m in S ensures Cool(m, t) {
        assert m != t ==> old(Balanced(m) && Cool(m, null));
        AttachedColours(t, p, q, right, m);
      }
      if root != null && root != t { assert Kept(t, p, q, right, root); }
    }

    lemma LeastOnTheRight(e: Node, m: Node)
      requires Sound() && e in S && m in S && m.L == null && m.lo == e.key
      ensures e.N == m && m.P == e
    {
      assert Linked(e) && Threaded(m);
      SameKey(m.P, e);
    }

    lemma KeyInside(m: Node)
      requires AllLinked() && m in S
      ensures 0.0 < m.key < 1.0
    {
      assert Linked(m);
    }

    lemma LeastOfAll(m: Node)
      requires Sound() && m in S && m.L == null && m.lo == 0.0
      ensures m.P == null && |Nodes| > 0 && Nodes[0] == m
    {
      assert Threaded(m);
      if m.P != null { KeyInside(m.P); }
      var i :| 0 <= i < |Nodes| && Nodes[i] == m;
      assert Placed(i);
    }

    lemma IndexOf(m: Node) returns (i: nat)
      requires Listed() && m in S
      ensures i < |Nodes| && Nodes[i] == m && Placed(i)
    {
      i :| 0 <= i < |Nodes| && Nodes[i] == m;
      assert Placed(i);
    }

    lemma KeyGrows(m: Node)
      requires AllThreaded() && m in S && m.N != null
      ensures m.N in S && m.key < m.N.key
    {
      assert Threaded(m);
    }

    lemma Neighbours(m: Node)
      requires AllThreaded() && m in S
      ensures m.N != null ==> m.N in S && m.N != m && m.N.P == m
      ensures m.P != null ==> m.P in S && m.P != m && m.P.N == m
    {
      assert Threaded(m);
    }

    lemma RightInside(e: Node)
      requires AllLinked() && e in S
      ensures e.R != null ==> e.R in S && e.R.lo == e.key
    {
      assert Linked(e);
    }

    lemma NodesInside(i: nat)
      requires Listed() && i < |Nodes|
      ensures Nodes[i] in S
    {
      assert Placed(i);
    }

    lemma ListDistinct()
      requires Listed()
      ensures forall i, j :: 0 <= i < j < |Nodes| ==> Nodes[i] != Nodes[j]
    {
    }

    lemma ListEmpty()
      requires Listed() && Rooted() && root == null
      ensures Nodes == []
    {
      if Nodes != [] { NodesInside(0); }
    }

    // The links of the old nodes that insert rewrites.
    twostate predicate Hung(new t: Node, new p: Node?, new q: Node?, new right: bool, new n: Node?)
      reads this, S
    {
      && S == old(S) && Nodes == old(Nodes) && t !in S
      && (p != null ==> p in S) && (q != null ==> q in S)
      && n == (if right then p else q)
      && (forall m {:trigger Relinked(t, p, q, right, m)} :: m in S ==> Relinked(t, p, q, right, m))
    }

    twostate predicate Relinked(new t: Node, new p: Node?, new q: Node?, new right: bool, new m: Node)
      requires m in old(S)
      reads m
    {
      && m.N == (if m == p then t else old(m.N))
      && m.P == (if m == q then t else old(m.P))
      && m.R == (if m == p && right then t else old(m.R))
      && m.L == (if m == q && !right then t else old(m.L))
    }

    method HangAfter(after: Node, t: Node) returns (n: Node, ghost q: Node?, ghost right: bool)
      requires Sound() && t !in S && after in S
      modifies S`P, S`N, S`L, S`R, t`P, t`N
      ensures Hung(t, after, q, right, n) && t.P == after && t.N == q
      ensures AttachedTo(after, q, right)
    {
      hide Listed, Linked, Threaded;
      Neighbours(after);
      RightInside(after);
      ghost var p := after;
      forall m | m in S && m.L == null && m.lo == after.key ensures m == after.N { LeastOnTheRight(after, m); }
      q, right := after.N, after.R == null;
      var e := after;
      t.P := e;
      t.N := e.N;
      if e.N != null { e.N.P := t; }
      e.N := t;
      if e.R != null {
        e := Minimum(e.R);
        e.L := t;
      } else {
        e.R := t;
      }
      n := e;
    }

    method HangFirst(t: Node) returns (n: Node?)
      requires Sound() && t !in S
      modifies this`root, S`P, S`L, t`P, t`N
      ensures old(root) == null <==> n == null
      ensures Hung(t, null, n, false, n) && t.P == null && t.N == n && root == (if n == null then t else old(root))
      ensures AttachedTo(null, n, false) && (n != null ==> |Nodes| > 0 && n == Nodes[0])
    {
      hide Listed, Linked, Threaded;
      if root != null {
        var e := Minimum(root);
        LeastOfAll(e);
        t.P := null;
        t.N := e;
        e.P := t;
        e.L := t;
        n := e;
      } else {
        t.P := null;
        t.N := null;
        root := t;
        n := null;
      }
    }

    method Hang(after: Node?, t: Node)
      returns (n: Node?, ghost p: Node?, ghost q: Node?, ghost right: bool, ghost k: nat)
      requires Sound() && t !in S && (after != null ==> after in S)
      modifies this`root, S`P, S`N, S`L, S`R, t`P, t`N
      ensures Hung(t, p, q, right, n) && AttachedTo(p, q, right) && t.P == p && t.N == q
      ensures root == (if n == null then t else old(root))
      ensures p == after && k <= |Nodes| && Between(Nodes, k, p, q)
      ensures (if p == null then 0.0 else p.key) < (if q == null then 1.0 else q.key)
    {
      hide Listed, Linked, Threaded;
      p, k := after, 0;
      if after != null {
        var i := IndexOf(after);
        k := i + 1;
        KeyInside(after);
        if after.N != null { KeyGrows(after); }
        RootInside();
        n, q, right := HangAfter(after, t);
      } else {
        if root == null { ListEmpty(); }
        if Nodes != [] { NodesInside(0); KeyInside(Nodes[0]); }
        right := false;
        n := HangFirst(t);
        q := n;
      }
    }

    static method MakeLeaf(t: Node, n: Node?, ghost lo: real, ghost hi: real)
      requires lo < hi
      modifies t`L, t`R, t`U, t`C, t`bh, t`lo, t`hi, t`key
      ensures t.L == t.R == null && t.U == n && t.C && t.bh == 0
      ensures t.lo == lo && t.hi == hi && lo < t.key < hi
    {
      t.L := null;
      t.R := null;
      t.U := n;
      t.C := true;
      t.bh := 0;
      t.lo, t.hi, t.key := lo, hi, (lo + hi) / 2.0;
    }

    // The links of insert, up to the fix-up.
    method Attach(after: Node?, t: Node) returns (ghost p: Node?, ghost q: Node?, ghost right: bool, ghost k: nat)
      requires Sound() && t !in S && (after != null ==> after in S)
      modifies this, S, t
      ensures S == old(S) + {t} && (p != null ==> p in old(S)) && (q != null ==> q in old(S))
      ensures Attached(t, p, q, right) && AttachedTo(p, q, right)
      ensures k <= |old(Nodes)| && Between(old(Nodes), k, p, q) && p == after
      ensures Nodes == old(Nodes)[..k] + [t] + old(Nodes)[k..]
    {
      hide Listed, Linked, Threaded, Sound, Between;
      var n: Node?;
      n, p, q, right, k := Hang(after, t);
      MakeLeaf(t, n, if p == null then 0.0 else p.key, if q == null then 1.0 else q.key);
      S := S + {t};
      Nodes := Nodes[..k] + [t] + Nodes[k..];
      forall m {:trigger Kept(t, p, q, right, m)} | m in old(S) ensures Kept(t, p, q, right, m) {
        assert Relinked(t, p, q, right, m);
      }
    }

    method Insert(after: Node?, t: Node)
      requires Valid() && t !in S && (after != null ==> after in S)
      modifies this, S, t
      ensures Valid() && S == old(S) + {t}
      ensures Nodes == InsertedAfter(old(Nodes), after, t)
    {
      hide Listed, Linked, Threaded, Attached, AttachedTo, Balanced, Cool;
      ListDistinct();
      ghost var p, q, right, k := Attach(after, t);
      AttachedShape(t, p, q, right, k);
      AttachedRedAt(t, p, q, right);
      assert Nodes == InsertedAfter(old(Nodes), after, t) by {
        if after != null { InsertedAfterAt(old(Nodes), after, t, k - 1); }
      }
      FixInsert(t);
    }

    // ---------- removal: the fix-up ----------

    ghost function Sibling(t: Node, e: Node?): Node?
      reads t
    {
      if t.L == e then t.R else t.L
    }

    // The side of t where e hangs is one black node short.
    ghost predicate Short(t: Node, e: Node?)
      reads this`S, S`L, S`R, S`C, S`bh
    {
      && t in S && (t.L == e || t.R == e)
      && (t.L != null ==> t.L in S) && (t.R != null ==> t.R in S)
      && Rank(e) + 1 == t.bh
      && (if t.L == e then Rank(t.R) == t.bh else Rank(t.L) == t.bh)
    }

    ghost predicate AllBalancedBut(t: Node?)
      reads this`S, S`L, S`R, S`C, S`bh
    {
      forall m {:trigger Balanced(m)} :: m in S && m != t ==> Balanced(m)
    }

    // No red node has a red child, unless e, about to turn black, is one of the two.
    ghost predicate AllCoolAround(e: Node?)
      reads this`S, S`L, S`R, S`C
    {
      forall m {:trigger Cool(m, e)} :: m in S && m != e ==> Cool(m, e)
    }

    lemma CoolAround(e: Node?)
      requires AllCoolBut(e)
      ensures AllCoolAround(e)
    {
      forall m {:trigger Cool(m, e)} | m in S && m != e ensures Cool(m, e) { assert Cool(m, null); }
    }

    ghost predicate Deficient(e: Node?, t: Node?)
      reads this, S
    {
      && Sound() && AllCoolAround(e) && AllBalancedBut(t)
      && (e != null ==> e in S && e.U == t)
      && (root != null ==> root in S && (root.C ==> root == e))
      && (if t == null then e == root else Short(t, e))
    }

    twostate predicate Faded(new t: Node, new n: Node)
      requires S == old(S) && t in S && n in S
      reads this, S
    {
      && n.C && t.bh == old(t.bh) - 1
      && (forall m {:trigger m.L} :: m in S ==> m.L == old(m.L))
      && (forall m {:trigger m.R} :: m in S ==> m.R == old(m.R))
      && (forall m {:trigger m.C} :: m in S && m != n ==> m.C == old(m.C))
      && (forall m {:trigger m.bh} :: m in S && m != t ==> m.bh == old(m.bh))
    }

    twostate lemma FadedAt(new t: Node, new e: Node?, new n: Node, new m: Node)
      requires S == old(S) && t in S && n in S && m in S && (e != null ==> e in S)
      requires Faded(t, n) && n != t && Kids(t, e, n) && e != n && !IsRed(n.L) && !IsRed(n.R)
      requires old(Short(t, e)) && !old(n.C) && !IsRed(e)
      requires m != t ==> old(Balanced(m)) && old(m.L) != n && old(m.R) != n
      requires m != e && m != t ==> old(Cool(m, null))
      ensures m != t ==> (m.L != t && m.R != t ==> Balanced(m))
      ensures m == t ==> Balanced(m)
      ensures m != t && (m.L == t || m.R == t) && m.L != m.R ==> Short(m, t)
      ensures m != t ==> Cool(m, null)
    {
    }

    // What the fix-up may rely on when the short side hangs below a node t.
    lemma DeficientFacts(e: Node?, t: Node)
      requires Deficient(e, t) && !IsRed(e)
      ensures t in S && AllCool(null) && root != null && !root.C && root != e
      ensures var n := Sibling(t, e);
        n != null && n in S && n != e && n != t && e != t && Kids(t, e, n) && n.U == t && n != root && t.bh > 0
      ensures var n := Sibling(t, e); n.L != t && n.R != t && Balanced(n)
    {
      assert Linked(t);
      var n := Sibling(t, e);
      assert Linked(n);
      forall m {:trigger Cool(m, null)} | m in S ensures Cool(m, null) {
        if m != e { assert Cool(m, e); }
      }
    }

    method PaintFade(t: Node, n: Node)
      requires t in S && n in S && t.bh > 0
      modifies S`C, S`bh
      ensures n in S && t in S && Faded(t, n)
    {
      n.C := true;
      t.bh := t.bh - 1;
    }

    // Both nephews are black: the sibling takes the red, the shortage moves up to t.
    method Fade(e: Node?, t: Node, n: Node)
      requires Deficient(e, t) && !IsRed(e) && n == Sibling(t, e) && !n.C && !IsRed(n.L) && !IsRed(n.R)
      modifies S`C, S`bh
      ensures Deficient(t, t.U) && t.C == old(t.C)
    {
      hide Linked, Threaded, Listed, AllLinked, AllThreaded, Rooted, Balanced, Cool, Short, Faded;
      DeficientFacts(e, t);
      ParentInside(t);
      forall m | m in S && m != t ensures m.L != n && m.R != n { SoleParent(t, n, m); }
      forall m | m in S && m != t.U ensures m.L != t && m.R != t { SoleParentOf(t, m); }
      if t.U != null { KidOf(t); }
      RootInside();
      PaintFade(t, n);
      forall m {:trigger Balanced(m)} {:trigger Cool(m, null)} {:trigger Short(m, t)} | m in S
        ensures m != t.U ==> Balanced(m)
        ensures m != t ==> Cool(m, null)
        ensures m == t.U ==> Short(m, t)
      {
        assert m != t ==> old(Balanced(m)) && old(Cool(m, null));
        FadedAt(t, e, n, m);
      }
      CoolAround(t);
    }

    lemma SoleParentOf(c: Node, m: Node)
      requires AllLinked() && m in S && c in S && m != c.U
      ensures m.L != c && m.R != c
    {
      assert Linked(m);
    }

    lemma KidOf(c: Node)
      requires AllLinked() && c in S && c.U != null
      ensures c.U in S && c.U != c && (c.U.L == c || c.U.R == c) && c.U.L != c.U.R
    {
      assert Linked(c);
      assert Linked(c.U);
    }

    // A red child p of d goes up over d, colours exchanged: no black height changes.
    twostate lemma ExchangedAt(new d: Node, new p: Node, new a: Node?, new c: Node?, new b: Node?, new m: Node)
      requires S == old(S) && d in S && p in S && m in S && Apart(d, p, a, c, b) && d.bh == p.bh
      requires Turned(d, p, a, c, b) && Exchanged(d, p) && old(Balanced(p)) && !IsRed(a) && !IsRed(c)
      requires old(Cool(m, null)) && (m != d ==> old(m.L != p && m.R != p))
      ensures Cool(m, null)
      ensures old(Balanced(m)) ==> Balanced(m)
      ensures m == d ==> Rank(c) == d.bh && (a == null || a.bh == old(a.bh)) && (IsRed(a) <==> old(IsRed(a)))
    {
      if m != d && m != p { assert Rehung(d, p, m); }
    }

    lemma RedSiblingFacts(e: Node?, t: Node, n: Node, c: Node?, b: Node?)
      requires Deficient(e, t) && !IsRed(e) && n == Sibling(t, e) && n in S && n.C && Turnable(t, n, e, c, b)
      ensures !t.C && !IsRed(c) && t.bh == n.bh
    {
      DeficientFacts(e, t);
      assert Cool(t, null) && Cool(n, null);
    }

    // The sibling n is red: it goes up, and the short side gets a black sibling.
    method RaiseSibling(e: Node?, t: Node, n: Node, ghost c: Node?, ghost b: Node?)
      requires Deficient(e, t) && !IsRed(e) && n == Sibling(t, e) && n.C && Turnable(t, n, e, c, b)
      modifies this`root, S`U, S`L, S`R, S`lo, S`hi, t`C, n`C
      ensures Deficient(e, t) && !IsRed(e) && t.C
      ensures c != null && c in S && c == Sibling(t, e) && !c.C && (t.L == e <==> old(t.L) == e)
    {
      hide Linked, Threaded, Listed, AllLinked, AllThreaded, Rooted, Balanced, Cool;
      DeficientFacts(e, t);
      RedSiblingFacts(e, t, n, c, b);
      forall m | m in S && m != t ensures m.L != n && m.R != n { SoleParent(t, n, m); }
      ExchangeAndTurn(t, n, e, c, b);
      assert Exchanged(t, n);
      KidsParent(t, e, c);
      forall m {:trigger Balanced(m)} {:trigger Cool(m, null)} | m in S
        ensures m != t ==> Balanced(m)
        ensures Cool(m, null)
      {
        assert m != t ==> old(Balanced(m)) && old(Cool(m, null));
        ExchangedAt(t, n, e, c, b, m);
      }
      ExchangedAt(t, n, e, c, b, t);
      CoolAround(e);
    }

    // The outer nephew w is black and the inner one x is red: x goes up over the sibling n.
    method RaiseNephew(e: Node?, t: Node, n: Node, x: Node, ghost w: Node?, ghost c: Node?, ghost b: Node?)
      requires Deficient(e, t) && !IsRed(e) && n == Sibling(t, e) && !n.C && x.C && !IsRed(w) && Turnable(n, x, w, c, b)
      modifies this`root, S`U, S`L, S`R, S`lo, S`hi, n`C, x`C
      ensures Deficient(e, t) && !IsRed(e)
      ensures x in S && n in S && x == Sibling(t, e) && !x.C && n.C && (t.L == e <==> old(t.L) == e)
      ensures if old(n.L) == x then x.R == n else x.L == n
    {
      hide Linked, Threaded, Listed, AllLinked, AllThreaded, Rooted, Balanced, Cool;
      DeficientFacts(e, t);
      RedNephewFacts(e, t, n, x, w, c, b);
      forall m | m in S && m != n ensures m.L != x && m.R != x { SoleParent(n, x, m); }
      ExchangeAndTurn(n, x, w, c, b);
      assert Exchanged(n, x);
      KidsParent(x, n, b);
      assert Rehung(n, x, t);
      KidsParent(t, e, x);
      forall m {:trigger Balanced(m)} {:trigger Cool(m, null)} | m in S
        ensures m != t ==> Balanced(m)
        ensures Cool(m, null)
      {
        assert m != t ==> old(Balanced(m)) && old(Cool(m, null));
        ExchangedAt(n, x, w, c, b, m);
      }
      CoolAround(e);
    }
    lemma RedNephewFacts(e: Node?, t: Node, n: Node, x: Node, w: Node?, c: Node?, b: Node?)
      requires Deficient(e, t) && !IsRed(e) && n == Sibling(t, e) && n in S && !n.C && x.C && Turnable(n, x, w, c, b)
      ensures !IsRed(c) && x.bh == n.bh && Balanced(x) && x.U == n && t !in {x, w, c, b} && x != e && x != root
        && t != n && e != n
      ensures (t.L == n && t.R == e) || (t.R == n && t.L == e)
    {
      DeficientFacts(e, t);
      assert Linked(n);
      assert Linked(x) && Linked(t);
      assert Cool(x, null) && Balanced(n) && Balanced(x);
    }

    // The sibling p takes the colour of d, both d and the outer nephew b turn black.
    twostate predicate Capped(new d: Node, new p: Node, new b: Node)
      requires S == old(S) && d in S && p in S && b in S
      reads this, S
    {
      && p.C == old(d.C) && !d.C && !b.C && old(b.C) && !old(p.C)
      && d.bh == old(d.bh) - 1 && p.bh == old(d.bh)
      && (forall m {:trigger m.C} :: m in S && m != d && m != p && m != b ==> m.C == old(m.C))
      && (forall m {:trigger m.bh} :: m in S && m != d && m != p ==> m.bh == old(m.bh))
    }

    twostate lemma CappedAt(new d: Node, new p: Node, new e: Node?, new c: Node?, new b: Node, new m: Node)
      requires S == old(S) && d in S && p in S && m in S && Apart(d, p, e, c, b)
      requires Turned(d, p, e, c, b) && Capped(d, p, b) && old(Balanced(p)) && !IsRed(e) && e != b
      requires old(Short(d, e)) && b != c
      requires m == d || (old(Balanced(m)) && old(m.L != p && m.R != p))
      requires m == p || (old(m.L != b && m.R != b))
      requires old(Cool(m, null))
      ensures Balanced(m) && Cool(m, null)
    {
      if m != d && m != p { assert Rehung(d, p, m); }
    }

    method PaintCap(t: Node, n: Node, b: Node)
      requires t in S && n in S && b in S && t != n && b != t && b != n && b.C && !n.C && t.bh > 0
      modifies S`C, S`bh
      ensures t in S && n in S && b in S && Capped(t, n, b)
    {
      n.C := t.C;
      t.C := false;
      b.C := false;
      n.bh := t.bh;
      t.bh := t.bh - 1;
    }

    // The outer nephew b is red: one rotation ends the fix-up.
    method Cap(e: Node?, t: Node, n: Node, ghost c: Node?, b: Node)
      requires Deficient(e, t) && !IsRed(e) && n == Sibling(t, e) && !n.C && b.C && Turnable(t, n, e, c, b)
      modifies this`root, S`U, S`L, S`R, S`lo, S`hi, S`C, S`bh
      ensures Valid()
    {
      hide Linked, Threaded, Listed, AllLinked, AllThreaded, Rooted, Balanced, Cool, Short;
      DeficientFacts(e, t);
      forall m | m in S && m != t ensures m.L != n && m.R != n { SoleParent(t, n, m); }
      KidsParent(n, b, c);
      forall m | m in S && m != n ensures m.L != b && m.R != b { SoleParent(n, b, m); }
      assert e != b && c != b && b != root by { NoParent(n); }
      PaintCap(t, n, b);
      label Painted:
      Turn(t, n, e, c, b);
      forall m {:trigger Rehung(t, n, m)} | m in S && m != t && m != n ensures Rehung(t, n, m) {
        assert Rehung@Painted(t, n, m);
      }
      forall m {:trigger Balanced(m)} {:trigger Cool(m, null)} | m in S
        ensures Balanced(m) && Cool(m, null)
      {
        assert old(Cool(m, null)) && (m != t ==> old(Balanced(m)));
        CappedAt(t, n, e, c, b, m);
      }
    }

    twostate lemma PaintedAt(new e: Node, new t: Node?, new m: Node)
      requires S == old(S) && e in S && m in S && (t != null ==> t in S)
      requires !e.C && (forall m {:trigger m.C} :: m in S && m != e ==> m.C == old(m.C))
      requires m.L == old(m.L) && m.R == old(m.R) && m.bh == old(m.bh) && (m.L != null ==> m.L.bh == old(m.L.bh))
        && (m.R != null ==> m.R.bh == old(m.R.bh))
      requires m.L == e || m.R == e ==> m == t
      requires m == t ==> old(Short(t, e) && e.C) && m.L != m.R
      requires m != t ==> old(Balanced(m))
      requires m != e ==> old(Cool(m, e))
      ensures Balanced(m) && Cool(m, null)
    {
    }

    // Painting e black repays the missing black node.
    method PaintEnd(e: Node?, ghost t: Node?)
      requires Deficient(e, t) && (if e == null then t == null else e.C || t == null)
      modifies S`C
      ensures Valid()
    {
      hide Linked, Threaded, Listed, AllLinked, AllThreaded, Rooted, Balanced, Cool, Short;
      if e == null {
        EmptyValid();
      } else {
        forall m | m in S && m != t ensures m.L != e && m.R != e { SoleParentOf(e, m); }
        if t != null { KidOf(e); }
        e.C := false;
        forall m {:trigger Balanced(m)} {:trigger Cool(m, null)} | m in S
          ensures Balanced(m) && Cool(m, null)
        {
          assert (m != e ==> old(Cool(m, e))) && (m != t ==> old(Balanced(m)));
          PaintedAt(e, t, m);
        }
      }
    }

    lemma EmptyValid()
      requires Deficient(null, null)
      ensures Valid()
    {
    }

    lemma DeficientParent(e: Node?, t: Node?)
      requires Deficient(e, t)
      ensures t == null <==> e == root
      ensures t != null ==>
        t in S && (t.L == e || t.R == e)
        && (t.U != null ==> t.U in S && Above(t.U.lo, t.U.hi) < Above(t.lo, t.hi)) && t in Above(t.lo, t.hi)
    {
      if t != null {
        assert Linked(t);
        if t.U != null {
          assert Linked(t.U);
          assert t in Above(t.lo, t.hi) && t !in Above(t.U.lo, t.U.hi);
        }
      }
    }

    ghost function Over(t: Node?): set<Node>
      requires t != null ==> t in S
      reads this`S, S`lo, S`hi
    {
      if t == null then {} else Above(t.lo, t.hi)
    }

    // One round of the loop for a short side on the left: done, or one level further up.
    method LevelLeft(e: Node?, t: Node) returns (done: bool)
      requires Deficient(e, t) && !IsRed(e) && e == t.L
      modifies this`root, S`U, S`L, S`R, S`lo, S`hi, S`C, S`bh
      ensures if done then Valid() else Deficient(t, t.U) && t in S && (t.U != null ==> t.U in S)
      ensures !done ==> t.C || Over(t.U) < old(Over(t))
    {
      hide Linked, Threaded, Listed, AllLinked, AllThreaded, Rooted, Balanced, Cool, Short, Turnable, AllBalanced,
        AllCool, AllBalancedBut, AllCoolAround;
      DeficientFacts(e, t);
      DeficientParent(e, t);
      var n := t.R;
      if n.C {
        TurnableKids(t, n);
        RaiseSibling(e, t, n, n.L, n.R);
        n := t.R;
        DeficientFacts(e, t);
      }
      if (n.L != null && n.L.C) || (n.R != null && n.R.C) {
        if n.R == null || !n.R.C {
          KidsInside(n);
          TurnableKids(n, n.L);
          RaiseNephew(e, t, n, n.L, n.R, n.L.R, n.L.L);
          n := t.R;
          DeficientFacts(e, t);
        }
        TurnableKids(t, n);
        Cap(e, t, n, n.L, n.R);
        return true;
      }
      Fade(e, t, n);
      ParentInside(t);
      return false;
    }

    // One round of the loop for a short side on the right: done, or one level further up.
    method LevelRight(e: Node?, t: Node) returns (done: bool)
      requires Deficient(e, t) && !IsRed(e) && e == t.R
      modifies this`root, S`U, S`L, S`R, S`lo, S`hi, S`C, S`bh
      ensures if done then Valid() else Deficient(t, t.U) && t in S && (t.U != null ==> t.U in S)
      ensures !done ==> t.C || Over(t.U) < old(Over(t))
    {
      hide Linked, Threaded, Listed, AllLinked, AllThreaded, Rooted, Balanced, Cool, Short, Turnable, AllBalanced,
        AllCool, AllBalancedBut, AllCoolAround;
      DeficientFacts(e, t);
      DeficientParent(e, t);
      var n := t.L;
      if n.C {
        TurnableKids(t, n);
        RaiseSibling(e, t, n, n.R, n.L);
        n := t.L;
        DeficientFacts(e, t);
      }
      if (n.L != null && n.L.C) || (n.R != null && n.R.C) {
        if n.L == null || !n.L.C {
          KidsInside(n);
          TurnableKids(n, n.R);
          RaiseNephew(e, t, n, n.R, n.L, n.R.L, n.R.R);
          n := t.L;
          DeficientFacts(e, t);
        }
        TurnableKids(t, n);
        Cap(e, t, n, n.R, n.L);
        return true;
      }
      Fade(e, t, n);
      ParentInside(t);
      return false;
    }

    lemma ValidDeficient()
      requires Valid()
      ensures Deficient(root, null)
    {
      CoolAround(root);
    }

    // The fix-up loop of remove: the side of t0 where e0 hangs lacks a black node.
    method FixRemove(e0: Node?, t0: Node?)
      requires Deficient(e0, t0) && !IsRed(e0)
      modifies this`root, S`U, S`L, S`R, S`lo, S`hi, S`C, S`bh
      ensures Valid()
    {
      hide Sound, AllBalanced, AllCool, AllBalancedBut, AllCoolAround, Short;
      var e, t := e0, t0;
      DeficientParent(e, t);
      while !IsRed(e)
        invariant (e != null ==> e in S) && (t != null ==> t in S)
        invariant Deficient(e, t)
        decreases if IsRed(e) then 0 else 1, Over(t)
      {
        DeficientParent(e, t);
        if e == root { break; }
        var done: bool;
        if e == t.L {
          done := LevelLeft(e, t);
        } else {
          done := LevelRight(e, t);
        }
        if done {
          e, t := root, null;
          ValidDeficient();
          break;
        }
        e := t;
        t := t.U;
      }
      PaintEnd(e, t);
    }

    lemma KidsInside(n: Node)
      requires AllLinked() && n in S
      ensures n.L != null ==> n.L in S && n.L.U == n
      ensures n.R != null ==> n.R in S && n.R.U == n
    {
      assert Linked(n);
    }

    // ---------- removal: taking the node out ----------


    twostate predicate Unthreaded(new x: Node, new m: Node)
      requires x in old(S) && m in old(S)
      reads m
    {
      && m.N == (if old(m.N) == x then old(x.N) else old(m.N))
      && m.P == (if old(m.P) == x then old(x.P) else old(m.P))
    }

    // x had at most the child e, which takes its place.
    twostate predicate One(new x: Node, new e: Node?, new m: Node)
      requires x in old(S) && m in old(S)
      reads m
    {
      && Unthreaded(x, m)
      && m.L == (if old(m.L) == x then e else old(m.L))
      && m.R == (if old(m.R) == x then e else old(m.R))
      && m.U == (if m == e then old(x.U) else old(m.U))
      && m.lo == (if m == e then old(x.lo) else old(m.lo))
      && m.hi == (if m == e then old(x.hi) else old(m.hi))
      && m.key == old(m.key) && m.C == old(m.C) && m.bh == old(m.bh)
    }

    // x had two children; its successor s takes its place and hands its own to e.
    twostate predicate Two(new x: Node, new s: Node, new e: Node?, new m: Node)
      requires x in old(S) && s in old(S) && m in old(S)
      reads m
    {
      Unthreaded(x, m) && Hooked(x, s, e, m)
    }

    twostate predicate Hooked(new x: Node, new s: Node, new e: Node?, new m: Node)
      requires x in old(S) && s in old(S) && m in old(S)
      reads m
    {
      && m.L == (if m == s then old(x.L) else if old(m.L) == x then s else if old(m.L) == s then e else old(m.L))
      && m.R == (if m == s then (if old(x.R) == s then e else old(x.R)) else if old(m.R) == x then s else old(m.R))
      && m.U == (if m == s then old(x.U) else if m == e then (if old(s.U) == x then s else old(s.U))
        else if old(m.U) == x then s else old(m.U))
      && m.key == (if m == s then old(x.key) else old(m.key))
      && m.lo == (if m == s then old(x.lo) else if m == e then old(x.key) else old(m.lo))
      && m.hi == (if m == s then old(x.hi) else old(m.hi))
      && m.C == (if m == s then old(x.C) else old(m.C))
      && m.bh == (if m == s then old(x.bh) else old(m.bh))
    }

    twostate predicate Out(new x: Node, new top: Node?)
      reads this
    {
      && x in old(S) && S == old(S) - {x}
      && root == (if old(root) == x then top else old(root))
    }

    // A node without two children has at most a red leaf below it.
    ghost predicate Leaf(e: Node?)
      reads this`S, S`L, S`R
    {
      e != null ==> e in S && e.L == null && e.R == null
    }

    lemma OnlyChildIsLeaf(x: Node, e: Node?)
      requires AllBalanced() && AllCool(null) && x in S
      requires (x.L == null && x.R == e) || (x.R == null && x.L == e)
      ensures Leaf(e) && x.bh == 0 && (e != null ==> e.C && e.bh == 0)
    {
      assert Balanced(x);
      if e != null {
        assert Balanced(e) && Cool(e, null);
      }
    }

    twostate lemma OneLinked(new x: Node, new e: Node?, new m: Node)
      requires Out(x, e) && m in S && One(x, e, m) && (e != null ==> e in S && One(x, e, e))
      requires old(Leaf(e)) && ((old(x.L) == null && old(x.R) == e) || (old(x.R) == null && old(x.L) == e))
      requires m.L != null ==> m.L in S && One(x, e, m.L)
      requires m.R != null ==> m.R in S && One(x, e, m.R)
      requires m.U != null ==> m.U in S && One(x, e, m.U)
      requires old(Linked(m)) && old(Linked(x)) && (e != null ==> old(Linked(e)))
      ensures Linked(m)
    {
    }

    twostate lemma OneThreaded(new x: Node, new e: Node?, new m: Node)
      requires Out(x, e) && m in S && One(x, e, m) && (e != null ==> e in S && One(x, e, e))
      requires old(Leaf(e)) && ((old(x.L) == null && old(x.R) == e) || (old(x.R) == null && old(x.L) == e))
      requires m.P != null ==> m.P in S && One(x, e, m.P)
      requires m.N != null ==> m.N in S && One(x, e, m.N)
      requires old(Threaded(m)) && old(Threaded(x))
        && (e != null ==>
          old(Threaded(e)) && old(e.L != null || e.lo != x.key || e.P == x)
          && old(e.R != null || e.hi != x.key || e.N == x))
      requires old(Linked(m)) && old(Linked(x)) && (e != null ==> old(Linked(e)))
      requires e == null && old(x.U) != null && old(x.U.L) == x ==> old(x.N == x.U)
      requires e == null && old(x.U) != null && old(x.U.R) == x ==> old(x.P == x.U)
      requires (old(m.L) == x || old(m.R) == x) ==> m == old(x.U)
      requires old(m.N) != null && (old(m.N.L) == x || old(m.N.R) == x) ==> old(m.N) == old(x.U)
      requires old(x.N) != null && (old(x.N.L) == x || old(x.N.R) == x) ==> old(x.N) == old(x.U)
      ensures Threaded(m)
    {
    }

    twostate lemma TwoLinked(new x: Node, new s: Node, new e: Node?, new m: Node)
      requires Out(x, s) && s in S && m in S && Two(x, s, e, m) && Two(x, s, e, s)
        && (e != null ==> e in S && Two(x, s, e, e))
      requires old(Leaf(e)) && old(s.L == null) && old(s.R) == e && old(s.lo == x.key)
      requires m.L != null ==> m.L in S && Two(x, s, e, m.L)
      requires m.R != null ==> m.R in S && Two(x, s, e, m.R)
      requires m.U != null ==> m.U in S && Two(x, s, e, m.U)
      requires old(Linked(m)) && old(Linked(x)) && old(Linked(s)) && (e != null ==> old(Linked(e)))
      requires old(x.L != null && x.R != null && x.L != s && (s != x.R ==> s.U != null && s.U != x && s.U.L == s))
      ensures Linked(m)
    {
    }

    twostate lemma TwoThreaded(new x: Node, new s: Node, new e: Node?, new m: Node)
      requires Out(x, s) && s in S && m in S && Two(x, s, e, m) && Two(x, s, e, s)
        && (e != null ==> e in S && Two(x, s, e, e))
      requires old(Leaf(e)) && old(s.L == null) && old(s.R) == e && old(s.lo == x.key) && old(x.N) == s && old(s.P == x)
      requires m.P != null ==> m.P in S && Two(x, s, e, m.P)
      requires m.N != null ==> m.N in S && Two(x, s, e, m.N)
      requires old(Threaded(m)) && old(Threaded(x)) && old(Threaded(s))
        && (e != null ==> old(Threaded(e)) && old(s.N) == e && old(e.P) == s)
      requires old(Linked(m)) && old(Linked(x)) && old(Linked(s)) && (e != null ==> old(Linked(e)))
      requires old(x.L != null && x.R != null && x.L != s && (s != x.R ==> s.U != null && s.U != x && s.U.L == s))
      requires e == null && s != old(x.R) ==> old(s.N == s.U)
      requires old(m.L) == s ==> m == old(s.U)
      requires (old(m.L) == x || old(m.R) == x) ==> m == old(x.U)
      requires old(m.N) != null && old(m.N.L) == s ==> old(m.N) == old(s.U)
      requires old(m.N) != null && (old(m.N.L) == x) ==> old(m.N) == old(x.U)
      ensures Threaded(m)
    {
    }

    twostate lemma OneColours(new x: Node, new e: Node?, new m: Node)
      requires Out(x, e) && m in S && One(x, e, m) && (e != null ==> e in S && One(x, e, e))
      requires old(Leaf(e)) && ((old(x.L) == null && old(x.R) == e) || (old(x.R) == null && old(x.L) == e))
      requires (e != null ==> old(e.C && e.bh == 0)) && old(x.bh == 0) && (old(x.C) ==> e == null)
      requires m.L != null ==> m.L in S && One(x, e, m.L)
      requires m.R != null ==> m.R in S && One(x, e, m.R)
      requires old(Balanced(m)) && old(Cool(m, null))
      requires (old(m.L) == x || old(m.R) == x) <==> m == old(x.U)
      requires m != old(x.U) ==> m.L != e || e == null
      requires m != old(x.U) ==> m.R != e || e == null
      requires m == old(x.U) ==> old(m.L) != old(m.R)
      ensures Cool(m, e)
      ensures m != old(x.U) || old(x.C) ==> Balanced(m)
      ensures m == old(x.U) && !old(x.C) ==> Short(m, e)
    {
    }

    twostate lemma TwoColours(new x: Node, new s: Node, new e: Node?, new t: Node, new m: Node)
      requires Out(x, s) && s in S && m in S && Two(x, s, e, m) && Two(x, s, e, s)
        && (e != null ==> e in S && Two(x, s, e, e))
      requires old(Leaf(e)) && old(s.L == null) && old(s.R) == e && t == (if old(s.U) == x then s else old(s.U))
      requires (e != null ==> old(e.C && e.bh == 0)) && old(s.bh == 0) && (old(s.C) ==> e == null)
      requires old(x.L != null && x.R != null && x.L != s
        && (if s == x.R then s.U == x else s.U != null && s.U != x && s.U.L == s))
      requires m.L != null ==> m.L in S && Two(x, s, e, m.L)
      requires m.R != null ==> m.R in S && Two(x, s, e, m.R)
      requires old(Balanced(m)) && old(Cool(m, null)) && old(Balanced(x)) && old(Cool(x, null))
      requires (old(m.L) == s || old(m.R) == s) ==> m == old(s.U)
      requires old(m.L != m.R || m.L == null) && (m.L != m.R || m.L == null)
      ensures Cool(m, e)
      ensures m != t || old(s.C) ==> Balanced(m)
      ensures m == t && !old(s.C) ==> Short(m, e)
    {
    }

    // With x gone from the list its successor may have taken over its key.
    twostate predicate Rekeyed(new x: Node, new m: Node)
      requires x in old(S) && m in old(S)
      reads m
    {
      Unthreaded(x, m) && (m.key == old(m.key) || (m == old(x.N) && m.key == old(x.key)))
    }

    twostate lemma RemovedSorted(new x: Node, new k: nat, new i: nat, new j: nat)
      requires x in old(S) && S == old(S) - {x}
      requires old(forall i, j ::
        0 <= i < j < |Nodes| ==> Nodes[i] in S && Nodes[j] in S && Nodes[i].key < Nodes[j].key)
      requires k < |old(Nodes)| && old(Nodes)[k] == x && Nodes == old(Nodes)[..k] + old(Nodes)[k + 1..]
        && i < j < |Nodes|
      requires forall m {:trigger Rekeyed(x, m)} :: m in S ==> Rekeyed(x, m)
      requires old(forall i {:trigger Placed(i)} :: 0 <= i < |Nodes| ==> Placed(i))
      ensures Nodes[i] in S && Nodes[j] in S && Nodes[i].key < Nodes[j].key
    {
      var i', j' := if i < k then i else i + 1, if j < k then j else j + 1;
      ghost var a, c := old(Nodes)[i'], old(Nodes)[j'];
      assert Nodes[i] == a && Nodes[j] == c;
      assert old(a in S && c in S && a.key < c.key) && a != c;
      assert i' < k ==> old(a.key < x.key);
      assert k < i' ==> old(x.key < a.key);
      assert j' < k ==> old(c.key < x.key);
      assert k < j' ==> old(x.key < c.key);
      SuccessorAt(x, k);
      assert Rekeyed(x, a) && Rekeyed(x, c);
    }

    // A node that follows x in the list has at least the place of the successor of x.
    twostate lemma SuccessorAt(new x: Node, new k: nat)
      requires x in old(S) && k < |old(Nodes)| && old(Nodes)[k] == x
      requires old(forall i {:trigger Placed(i)} :: 0 <= i < |Nodes| ==> Placed(i))
      ensures old(x.N) == if k + 1 == |old(Nodes)| then null else old(Nodes)[k + 1]
    {
      assert old(Placed(k));
    }

    twostate lemma RemovedPlaced(new x: Node, new k: nat, new i: nat)
      requires x in old(S) && S == old(S) - {x}
      requires old(forall i {:trigger Placed(i)} :: 0 <= i < |Nodes| ==> Placed(i))
      requires forall i, j :: 0 <= i < j < |old(Nodes)| ==> old(Nodes)[i] != old(Nodes)[j]
      requires k < |old(Nodes)| && old(Nodes)[k] == x && Nodes == old(Nodes)[..k] + old(Nodes)[k + 1..] && i < |Nodes|
      requires forall m {:trigger Rekeyed(x, m)} :: m in S ==> Rekeyed(x, m)
      ensures Placed(i)
    {
      var s := old(Nodes);
      var i' := if i < k then i else i + 1;
      assert Nodes[i] == s[i'] && s[i'] != x;
      assert i > 0 ==> Nodes[i - 1] == s[if i - 1 < k then i - 1 else i];
      assert i + 1 < |Nodes| ==> Nodes[i + 1] == s[if i + 1 < k then i + 1 else i + 2];
      assert old(Placed(k)) && old(Placed(i'));
      assert i' > 0 ==> (s[i' - 1] == x <==> i' - 1 == k);
      assert i' + 1 < |s| ==> (s[i' + 1] == x <==> i' + 1 == k);
      assert Rekeyed(x, s[i']);
    }

    twostate lemma RemovedListed(new x: Node, new k: nat)
      requires x in old(S) && S == old(S) - {x} && old(Listed())
      requires k < |old(Nodes)| && old(Nodes)[k] == x && Nodes == old(Nodes)[..k] + old(Nodes)[k + 1..]
      requires forall m {:trigger Rekeyed(x, m)} :: m in S ==> Rekeyed(x, m)
      ensures Listed()
    {
      hide Rekeyed, Placed;
      assert forall i, j :: 0 <= i < j < |old(Nodes)| ==> old(Nodes)[i] != old(Nodes)[j];
      forall i, j | 0 <= i < j < |Nodes| ensures Nodes[i] in S && Nodes[j] in S && Nodes[i].key < Nodes[j].key {
        RemovedSorted(x, k, i, j);
      }
      forall i {:trigger Placed(i)} | 0 <= i < |Nodes| ensures Placed(i) {
        RemovedPlaced(x, k, i);
      }
      forall m | m in S ensures m in Nodes {
        assert m in old(Nodes);
        var h :| 0 <= h < |old(Nodes)| && old(Nodes)[h] == m;
        assert Nodes[if h < k then h else h - 1] == m;
      }
    }

    // m is the parent of x exactly when one of its links leads to x.
    ghost predicate Parent(m: Node, x: Node)
      reads m, x
    {
      (m.L == x || m.R == x <==> m == x.U) && (m.L == m.R ==> m.L == null)
    }

    ghost predicate OneFacts(x: Node, e: Node?)
      reads this, S
    {
      && x in S && Leaf(e) && x.bh == 0 && (x.C ==> e == null) && (e != null ==> e.C && e.bh == 0 && e.U == x && e != x)
      && ((x.L == null && x.R == e) || (x.R == null && x.L == e))
      && (e != null ==> (e.lo == x.key ==> e.P == x) && (e.hi == x.key ==> e.N == x))
      && (x.U != null ==> x.U in S && (x.U.L == x || x.U.R == x))
      && (e == null && x.U != null && x.U.L == x ==> x.N == x.U)
      && (e == null && x.U != null && x.U.R == x ==> x.P == x.U)
      && (forall m {:trigger Parent(m, x)} :: m in S ==> Parent(m, x))
      && (e != null ==> forall m {:trigger Parent(m, e)} :: m in S ==> Parent(m, e))
      && (x.U == null <==> x == root)
      && (x.U == null && e == null ==> S == {x})
    }

    lemma IsParent(m: Node, x: Node)
      requires AllLinked() && m in S && x in S
      ensures Parent(m, x)
    {
      assert Linked(m) && Linked(x);
    }

    lemma LeafOnTheLeft(p: Node, x: Node)
      requires Sound() && p in S && x in S && p.L == x && x.R == null
      ensures x.N == p && p.P == x
    {
      assert Linked(p) && Threaded(x);
      assert Linked(x);
      SameKey(x.N, p);
    }

    lemma LeafOnTheRight(p: Node, x: Node)
      requires Sound() && p in S && x in S && p.R == x && x.L == null
      ensures x.P == p && p.N == x
    {
      assert Linked(p) && Threaded(x);
      assert Linked(x);
      SameKey(x.P, p);
    }

    lemma LoneRoot(x: Node)
      requires Sound() && x in S && x == root && x.L == null && x.R == null
      ensures S == {x}
    {
      assert Threaded(x);
      if x.P != null { KeyInside(x.P); }
      if x.N != null { KeyInside(x.N); }
      var i := IndexOf(x);
      assert |Nodes| == 1;
      forall m | m in S ensures m == x { assert m in Nodes; }
    }

    lemma GetOneFacts(x: Node, e: Node?)
      requires Valid() && x in S && ((x.L == null && x.R == e) || (x.R == null && x.L == e))
      ensures OneFacts(x, e)
    {
      hide Listed, Threaded, Balanced, Cool, Linked;
      OnlyChildIsLeaf(x, e);
      forall m {:trigger Parent(m, x)} | m in S ensures Parent(m, x) { IsParent(m, x); }
      RootInside();
      KidsInside(x);
      if e == null && x.U == null { LoneRoot(x); }
      if x.U != null {
        KidOf(x);
        if e == null && x.U.L == x { LeafOnTheLeft(x.U, x); }
        if e == null && x.U.R == x { LeafOnTheRight(x.U, x); }
      }
      if e != null {
        KidOf(e);
        forall m {:trigger Parent(m, e)} | m in S ensures Parent(m, e) { IsParent(m, e); }
        assert !x.C by { RedFree(x, e); }
        KidIntervals(x);
        if x.L == e { LeafOnTheLeft(x, e); } else { LeafOnTheRight(x, e); }
      }
    }

    lemma RedFree(x: Node, e: Node)
      requires AllCool(null) && x in S && e.C && (x.L == e || x.R == e)
      ensures !x.C
    {
      assert Cool(x, null);
    }

    lemma KidIntervals(x: Node)
      requires AllLinked() && x in S
      ensures x.L != null ==> x.L in S && x.L.lo == x.lo < x.key == x.L.hi
      ensures x.R != null ==> x.R in S && x.R.lo == x.key < x.hi == x.R.hi
    {
      assert Linked(x);
    }

    twostate lemma OneInside(new x: Node, new e: Node?, new m: Node)
      requires Out(x, e) && m in S && (e != null ==> e in S) && old(OneFacts(x, e))
      requires forall m {:trigger One(x, e, m)} :: m in S ==> One(x, e, m)
      requires old(Linked(m)) && old(Linked(x)) && old(Threaded(m)) && old(Threaded(x))
      ensures One(x, e, m)
      ensures m.L != null ==> m.L in S && One(x, e, m.L)
      ensures m.R != null ==> m.R in S && One(x, e, m.R)
      ensures m.U != null ==> m.U in S && One(x, e, m.U)
      ensures m.P != null ==> m.P in S && One(x, e, m.P)
      ensures m.N != null ==> m.N in S && One(x, e, m.N)
    {
      assert One(x, e, m);
      assert old(Parent(m, x));
    }

    twostate lemma OneLinks(new x: Node, new e: Node?, new m: Node)
      requires Out(x, e) && m in S && (e != null ==> e in S) && old(OneFacts(x, e))
      requires forall m {:trigger One(x, e, m)} :: m in S ==> One(x, e, m)
      requires old(AllLinked()) && old(AllThreaded())
      ensures Linked(m) && Threaded(m)
    {
      hide Linked, One;
      assert old(Linked(m) && Threaded(m) && Linked(x) && Threaded(x));
      if e != null { assert old(Linked(e) && Threaded(e)) && One(x, e, e); }
      OneInside(x, e, m);
      OneLinked(x, e, m);
      assert old(Parent(m, x));
      if old(m.N) != null { assert old(Parent(m.N, x)); }
      if old(x.N) != null { assert old(Parent(x.N, x)); }
      OneThreaded(x, e, m);
    }

    twostate lemma OneColoured(new x: Node, new e: Node?, new m: Node)
      requires Out(x, e) && m in S && (e != null ==> e in S) && old(OneFacts(x, e))
      requires forall m {:trigger One(x, e, m)} :: m in S ==> One(x, e, m)
      requires old(Valid())
      ensures Cool(m, e)
      ensures m != old(x.U) || old(x.C) ==> Balanced(m)
      ensures m == old(x.U) && !old(x.C) ==> Short(m, e)
    {
      hide Listed, Linked, Threaded, Balanced, Cool, One, Short;
      assert old(Linked(m) && Threaded(m) && Linked(x) && Threaded(x) && Balanced(m) && Cool(m, null));
      OneInside(x, e, m);
      assert old(Parent(m, x));
      if e != null { assert old(Parent(m, e)) && One(x, e, e); }
      OneKids(x, e, m);
      OneColours(x, e, m);
    }

    twostate lemma OneKids(new x: Node, new e: Node?, new m: Node)
      requires Out(x, e) && m in S && One(x, e, m) && (e != null ==> e in S) && old(OneFacts(x, e))
      requires old(Parent(m, x)) && (e != null ==> old(Parent(m, e)))
      ensures m != old(x.U) ==> m.L != e || e == null
      ensures m != old(x.U) ==> m.R != e || e == null
    {
    }

    twostate lemma OneDone(new x: Node, new e: Node?, new k: nat)
      requires Out(x, e) && old(Valid()) && (e != null ==> e in S) && old(OneFacts(x, e))
      requires forall m {:trigger One(x, e, m)} :: m in S ==> One(x, e, m)
      requires k < |old(Nodes)| && old(Nodes)[k] == x && Nodes == old(Nodes)[..k] + old(Nodes)[k + 1..]
      ensures Sound()
      ensures if old(x.C) then Valid() else Deficient(e, old(x.U))
    {
      hide Listed, Linked, Threaded, Balanced, Cool, Short;
      forall m {:trigger Rekeyed(x, m)} | m in S ensures Rekeyed(x, m) { assert One(x, e, m); }
      RemovedListed(x, k);
      forall m {:trigger Linked(m)} {:trigger Threaded(m)} | m in S ensures Linked(m) && Threaded(m) {
        OneLinks(x, e, m);
      }
      forall m {:trigger Balanced(m)} {:trigger Cool(m, e)} {:trigger Short(m, e)} | m in S
        ensures Cool(m, e)
        ensures m != old(x.U) || old(x.C) ==> Balanced(m)
        ensures m == old(x.U) && !old(x.C) ==> Short(m, e)
      {
        OneColoured(x, e, m);
      }
      if e != null { assert One(x, e, e); }
      if root != null && root != e { assert One(x, e, root); }
    }

    ghost predicate TwoFacts(x: Node, s: Node, e: Node?)
      reads this, S
    {
      && x in S && s in S && x != s && x.L != null && x.R != null && x.L != s && x.L in S && x.R in S && x.L != x.R
        && x.L != x && x.R != x
      && s.L == null && s.R == e && s.lo == x.key && x.N == s && s.P == x && e != x
      && Leaf(e) && s.bh == 0 && (s.C ==> e == null)
        && (e != null ==> e.C && e.bh == 0 && e.U == s && e != x && s.N == e && e.P == s)
      && (if s == x.R then s.U == x else s.U != null && s.U in S && s.U != x && s.U.L == s)
      && (e == null && s != x.R ==> s.N == s.U)
      && (x.U != null ==> x.U in S && (x.U.L == x || x.U.R == x))
      && (forall m {:trigger Parent(m, x)} :: m in S ==> Parent(m, x))
      && (forall m {:trigger Parent(m, s)} :: m in S ==> Parent(m, s))
      && (e != null ==> forall m {:trigger Parent(m, e)} :: m in S ==> Parent(m, e))
      && (x.U == null <==> x == root)
    }

    lemma GetTwoFacts(x: Node, s: Node)
      requires Valid() && x in S && x.L != null && x.R != null && x.R in S
      requires s in S && s.L == null && s.lo == x.R.lo && (s == x.R || (s.U != null && s.U.L == s && s.U != s))
      ensures TwoFacts(x, s, s.R)
    {
      hide Listed, Threaded, Balanced, Cool, Linked;
      var e := s.R;
      OnlyChildIsLeaf(s, e);
      KidsInside(x);
      KidIntervals(x);
      LeastOnTheRight(x, s);
      Distinct(x, s);
      forall m {:trigger Parent(m, x)} | m in S ensures Parent(m, x) { IsParent(m, x); }
      forall m {:trigger Parent(m, s)} | m in S ensures Parent(m, s) { IsParent(m, s); }
      RootInside();
      if x.U != null { KidOf(x); }
      KidOf(s);
      if e == null && s != x.R { LeafOnTheLeft(s.U, s); }
      if e != null {
        KidsInside(s);
        KidOf(e);
        forall m {:trigger Parent(m, e)} | m in S ensures Parent(m, e) { IsParent(m, e); }
        assert !s.C by { RedFree(s, e); }
        LeafOnTheRight(s, e);
      }
    }

    lemma Distinct(x: Node, s: Node)
      requires Sound() && x in S && s in S && s.L == null && x.L != null && x.R != null && x.N == s
      requires s == x.R || (s.U != null && s.U.L == s)
      ensures x != s && x.L != s && x.L != x.R && x.L != x && x.R != x
      ensures if s == x.R then s.U == x else s.U != x
      ensures s.R != x
    {
      assert Linked(x) && Linked(s) && Threaded(x);
      assert Linked(x.L) && Linked(x.R);
      if s.R != null { assert Linked(s.R); }
    }

    twostate lemma TwoInside(new x: Node, new s: Node, new e: Node?, new m: Node)
      requires Out(x, s) && m in S && s in S && (e != null ==> e in S) && old(TwoFacts(x, s, e))
      requires forall m {:trigger Two(x, s, e, m)} :: m in S ==> Two(x, s, e, m)
      requires old(Linked(m)) && old(Linked(x)) && old(Threaded(m)) && old(Threaded(x)) && old(Linked(s))
        && old(Threaded(s))
      ensures Two(x, s, e, m) && Two(x, s, e, s)
      ensures m.L != null ==> m.L in S && Two(x, s, e, m.L)
      ensures m.R != null ==> m.R in S && Two(x, s, e, m.R)
      ensures m.U != null ==> m.U in S && Two(x, s, e, m.U)
      ensures m.P != null ==> m.P in S && Two(x, s, e, m.P)
      ensures m.N != null ==> m.N in S && Two(x, s, e, m.N)
    {
      assert Two(x, s, e, m);
      assert Two(x, s, e, s);
      assert old(Parent(m, x));
    }

    twostate lemma TwoLinks(new x: Node, new s: Node, new e: Node?, new m: Node)
      requires Out(x, s) && m in S && s in S && (e != null ==> e in S) && old(TwoFacts(x, s, e))
      requires forall m {:trigger Two(x, s, e, m)} :: m in S ==> Two(x, s, e, m)
      requires old(AllLinked()) && old(AllThreaded())
      ensures Linked(m) && Threaded(m)
    {
      hide Linked, Two;
      assert old(Linked(m) && Threaded(m) && Linked(x) && Threaded(x) && Linked(s) && Threaded(s));
      if e != null { assert old(Linked(e) && Threaded(e)) && Two(x, s, e, e); }
      TwoInside(x, s, e, m);
      TwoLinked(x, s, e, m);
      assert old(Parent(m, x)) && old(Parent(m, s));
      if old(m.N) != null { assert old(Parent(m.N, x)) && old(Parent(m.N, s)); }
      TwoThreaded(x, s, e, m);
    }

    twostate lemma TwoColoured(new x: Node, new s: Node, new e: Node?, new t: Node, new m: Node)
      requires Out(x, s) && m in S && s in S && (e != null ==> e in S) && old(TwoFacts(x, s, e))
      requires forall m {:trigger Two(x, s, e, m)} :: m in S ==> Two(x, s, e, m)
      requires old(Valid()) && t == (if old(s.U) == x then s else old(s.U)) && Linked(m)
      ensures Cool(m, e)
      ensures m != t || old(s.C) ==> Balanced(m)
      ensures m == t && !old(s.C) ==> Short(m, e)
    {
      hide Listed, Threaded, Balanced, Cool, Two, Short;
      assert old(Linked(m) && Threaded(m) && Linked(x) && Threaded(x) && Linked(s) && Threaded(s));
      assert old(Balanced(m) && Cool(m, null) && Balanced(x) && Cool(x, null));
      TwoInside(x, s, e, m);
      assert old(Parent(m, x)) && old(Parent(m, s));
      if e != null { assert old(Parent(m, e)) && Two(x, s, e, e); }
      TwoColours(x, s, e, t, m);
    }

    twostate lemma TwoDone(new x: Node, new s: Node, new e: Node?, new t: Node, new k: nat)
      requires Out(x, s) && old(Valid()) && s in S && (e != null ==> e in S) && old(TwoFacts(x, s, e))
      requires forall m {:trigger Two(x, s, e, m)} :: m in S ==> Two(x, s, e, m)
      requires t == (if old(s.U) == x then s else old(s.U))
      requires k < |old(Nodes)| && old(Nodes)[k] == x && Nodes == old(Nodes)[..k] + old(Nodes)[k + 1..]
      ensures Sound()
      ensures if old(s.C) then Valid() else Deficient(e, t)
    {
      hide Listed, Linked, Threaded, Balanced, Cool, Short;
      forall m {:trigger Rekeyed(x, m)} | m in S ensures Rekeyed(x, m) { assert Two(x, s, e, m); }
      RemovedListed(x, k);
      forall m {:trigger Linked(m)} {:trigger Threaded(m)} | m in S ensures Linked(m) && Threaded(m) {
        TwoLinks(x, s, e, m);
      }
      assert Two(x, s, e, s);
      forall m {:trigger Balanced(m)} {:trigger Cool(m, e)} {:trigger Short(m, e)} | m in S
        ensures Cool(m, e)
        ensures m != t || old(s.C) ==> Balanced(m)
        ensures m == t && !old(s.C) ==> Short(m, e)
      {
        assert Linked(m);
        TwoColoured(x, s, e, t, m);
      }
      if e != null { assert Two(x, s, e, e); }
      if root != null && root != s { assert Two(x, s, e, root); }
    }

    // Takes x out of the threaded list.
    method Unthread(x: Node)
      requires AllThreaded() && x in S
      modifies S`P, S`N
      ensures forall m {:trigger m.N} :: m in S && m != x ==> m.N == if old(m.N) == x then old(x.N) else old(m.N)
      ensures x.P == null && x.N == null
      ensures forall m {:trigger m.P} :: m in S && m != x ==> m.P == if old(m.P) == x then old(x.P) else old(m.P)
    {
      hide Threaded, AllThreaded;
      Neighbours(x);
      forall m | m in S ensures (m.N == x ==> m == x.P) && (m.P == x ==> m == x.N) { Neighbours(m); }
      if x.N != null { x.N.P := x.P; }
      if x.P != null { x.P.N := x.N; }
      x.N, x.P := null, null;
    }

    // x has at most one child s: s takes its place below t.
    method PullOne(x: Node, s: Node?)
      requires Sound() && OneFacts(x, s)
      modifies this, S
      ensures x.P == null && x.N == null
      ensures Out(x, s) && Nodes == old(Nodes) && (s != null ==> s in S)
      ensures forall m {:trigger One(x, s, m)} :: m in S ==> One(x, s, m)
    {
      hide Listed, Linked, Threaded, AllLinked, Balanced, Cool;
      var t := x.U;
      if t != null { assert Parent(t, x); }
      forall m | m in S && m != t ensures m.L != x && m.R != x { assert Parent(m, x); }
      Unthread(x);
      if t != null {
        if t.L == x { t.L := s; } else { t.R := s; }
      } else {
        root := s;
      }
      if s != null {
        s.U := t;
        s.lo, s.hi := x.lo, x.hi;
      }
      S := S - {x};
    }

    // The links that lead to x and to s.
    ghost predicate Slots(x: Node, s: Node)
      reads this, S
    {
      && x in S && s in S && x != s
      && x.L != null && x.L in S && x.L != s && x.L != x && x.R != null && x.R in S && x.R != x
      && x.L.U == x && x.R.U == x && x.L != x.R
      && (x.U != null ==> x.U in S && x.U != x && (x.U.L == x) != (x.U.R == x))
      && (x.U != null <==> x != root)
      && s.L == null
      && (if s == x.R then s.U == x else s.U != null && s.U in S && s.U != x && s.U != s && s.U.L == s)
      && (s.R != null ==> s.R in S && s.R != x && s.R != s && s.R != x.R && s.R.U == s)
      && (forall m :: m in S && (m.L == x || m.R == x) ==> m == x.U)
      && (forall m :: m in S && m.L == s ==> m == s.U)
      && (forall m :: m in S && m.U == x ==> m == x.L || m == x.R)
      && (forall m :: m in S && m.U == s ==> m == s.R)
    }

    lemma TwoSlots(x: Node, s: Node)
      requires AllLinked() && TwoFacts(x, s, s.R)
      ensures Slots(x, s)
    {
      hide Linked, AllLinked;
      forall m | m in S && m.U == x ensures m == x.L || m == x.R { KidOf(m); }
      forall m | m in S && m.U == s ensures m == s.R { KidOf(m); }
      forall m | m in S && m.L == s ensures m == s.U { assert Parent(m, s); }
      forall m | m in S && (m.L == x || m.R == x) ensures m == x.U { assert Parent(m, x); }
      if x.U != null { assert Parent(x.U, x); }
      KidsInside(x);
    }

    // x has two children: its successor s takes its place and colour. The place
    // that s leaves, below t, goes to its only child e; o is the colour that is gone.
    method PullTwo(x: Node, s: Node) returns (t: Node, e: Node?, o: bool)
      requires Sound() && TwoFacts(x, s, s.R)
      modifies this, S
      ensures x.P == null && x.N == null
      ensures Out(x, s) && Nodes == old(Nodes) && s in S && (e != null ==> e in S)
      ensures e == old(s.R) && o == old(s.C) && t == (if old(s.U) == x then s else old(s.U))
      ensures forall m {:trigger Two(x, s, e, m)} :: m in S ==> Two(x, s, e, m)
    {
      hide Listed, Linked, Threaded, AllLinked, AllThreaded, Balanced, Cool, TwoFacts;
      TwoSlots(x, s);
      Unthread(x);
      assert Slots(x, s);
      o := s.C;
      label Unthreading:
      t, e := Hook(x, s);
      forall m | m in S && m != x ensures Hooked(x, s, e, m) { assert Hooked@Unthreading(x, s, e, m); }
      S := S - {x};
    }

    method Hook(x: Node, s: Node) returns (t: Node, e: Node?)
      requires Slots(x, s)
      modifies this`root, S`L, S`R, S`U, S`C, S`key, S`lo, S`hi, S`bh
      ensures e == old(s.R) && (e != null ==> e in S) && t == (if old(s.U) == x then s else old(s.U))
      ensures root == if old(root) == x then s else old(root)
      ensures forall m {:trigger Hooked(x, s, e, m)} :: m in S && m != x ==> Hooked(x, s, e, m)
    {
      HookTop(x, s);
      t, e := HookBelow(x, s);
      Reinterpret(x, s, e);
    }

    // The parent of x and its left child turn to s, which takes the colour of x.
    method HookTop(x: Node, s: Node)
      requires x in S && s in S && x != s && x.L != null && x.L in S && x.L != s && x.L != x
      requires x.U != null ==> x.U in S && x.U != x && (x.U.L == x) != (x.U.R == x)
      requires forall m :: m in S && (m.L == x || m.R == x) ==> m == x.U
      requires x.U != null <==> x != root
      modifies this`root, S`L, S`R, S`U, S`C
      ensures root == if old(root) == x then s else old(root)
      ensures forall m {:trigger m.L} :: m in S && m != x ==>
        m.L == if m == s then old(x.L) else if old(m.L) == x then s else old(m.L)
      ensures forall m {:trigger m.R} :: m in S ==> m.R == if old(m.R) == x then s else old(m.R)
      ensures forall m {:trigger m.U} :: m in S ==> m.U == if m == old(x.L) then s else old(m.U)
      ensures forall m {:trigger m.C} :: m in S ==> m.C == if m == s then old(x.C) else old(m.C)
    {
      var t, r := x.U, x.L;
      if t != null {
        if t.L == x { t.L := s; } else { t.R := s; }
      } else {
        root := s;
      }
      s.C := x.C;
      s.L := r;
      r.U := s;
    }

    // s takes over the right subtree of x, and its own right child e moves to the place s leaves.
    method HookBelow(x: Node, s: Node) returns (t: Node, e: Node?)
      requires x in S && s in S && x != s && x.R != null && x.R in S && x.R != x
      requires s != x.R ==> s.U != null && s.U in S && s.U != x && s.U != s
      requires s.R != null ==> s.R in S && s.R != x && s.R != s && s.R != x.R
      modifies S`L, S`R, S`U
      ensures e == old(s.R) && t == (if s == x.R then s else old(s.U))
      ensures forall m {:trigger m.L} :: m in S ==> m.L == if s != x.R && m == old(s.U) then e else old(m.L)
      ensures forall m {:trigger m.R} :: m in S && m != s ==> m.R == old(m.R)
      ensures s.R == if s == x.R then e else x.R
      ensures forall m {:trigger m.U} :: m in S ==>
        m.U == if m == s then old(x.U) else if m == e then t else if m == x.R then s else old(m.U)
    {
      var i := x.R;
      if s != i {
        t := s.U;
        s.U := x.U;
        e := s.R;
        t.L := e;
        s.R := i;
        i.U := s;
      } else {
        s.U := x.U;
        t := s;
        e := s.R;
      }
      if e != null { e.U := t; }
    }

    ghost method Reinterpret(x: Node, s: Node, e: Node?)
      requires x in S && s in S && (e != null ==> e in S && e != s && e != x) && x != s
      modifies S`key, S`lo, S`hi, S`bh
      ensures forall m {:trigger m.key} :: m in S ==> m.key == if m == s then old(x.key) else old(m.key)
      ensures forall m {:trigger m.lo} :: m in S ==>
        m.lo == if m == s then old(x.lo) else if m == e then old(x.key) else old(m.lo)
      ensures forall m {:trigger m.hi} :: m in S ==> m.hi == if m == s then old(x.hi) else old(m.hi)
      ensures forall m {:trigger m.bh} :: m in S ==> m.bh == if m == s then old(x.bh) else old(m.bh)
    {
      s.key, s.lo, s.hi, s.bh := x.key, x.lo, x.hi, x.bh;
      if e != null { e.lo := x.key; }
    }

    method Remove(x: Node)
      requires Valid() && x in S
      modifies this, S
      ensures Valid() && S == old(S) - {x}
      ensures x.P == null && x.N == null
      ensures Nodes == Removed(old(Nodes), x)
    {
      hide Listed, Linked, Threaded, AllLinked, AllThreaded, Balanced, Cool, OneFacts, TwoFacts, Deficient,
        AllBalanced, AllCool;
      ghost var k := IndexOf(x);
      ListDistinct();
      RemovedAt(Nodes, x, k);
      KidIntervals(x);
      var t, r, i := x.U, x.L, x.R;
      var e: Node?, o: bool;
      if r != null && i != null {
        var s := Minimum(i);
        GetTwoFacts(x, s);
        label Ready:
        t, e, o := PullTwo(x, s);
        forall m {:trigger Two(x, s, e, m)} | m in S ensures Two(x, s, e, m) { assert Two@Ready(x, s, e, m); }
        Nodes := Nodes[..k] + Nodes[k + 1..];
        TwoDone(x, s, e, t, k);
      } else {
        e, o := if r == null then i else r, x.C;
        GetOneFacts(x, e);
        PullOne(x, e);
        Nodes := Nodes[..k] + Nodes[k + 1..];
        OneDone(x, e, k);
      }
      if o { return; }
      if e != null && e.C {
        PaintEnd(e, t);
        return;
      }
      FixRemove(e, t);
    }

    // ---------- what the links mean ----------

    // The shape spanned below n.
    ghost function ShapeOf(n: Node?): Shape
      requires AllLinked() && (n != null ==> n in S)
      reads this, S
      decreases Below(n)
    {
      if n == null then Empty
      else
        BelowShrinks(n);
        Fork(ShapeOf(n.L), n, n.C, ShapeOf(n.R))
    }

    ghost function Below(n: Node?): set<Node>
      requires n != null ==> n in S
      reads this`S, S`lo, S`hi
    {
      if n == null then {} else Within(n.lo, n.hi)
    }

    lemma BelowShrinks(n: Node)
      requires AllLinked() && n in S
      ensures n.L != null ==> n.L in S
      ensures n.R != null ==> n.R in S
      ensures Below(n.L) < Below(n) && Below(n.R) < Below(n)
    {
      assert Linked(n);
      assert n in Below(n);
      if n.L != null { WithinShrinks(n.lo, n.hi, n.L.lo, n.L.hi, n); }
      if n.R != null { WithinShrinks(n.lo, n.hi, n.R.lo, n.R.hi, n); }
    }

    lemma InOrderNone()
      requires AllLinked()
      ensures InOrder(ShapeOf(null)) == []
    {
    }

    lemma InOrderFork(n: Node)
      requires AllLinked() && n in S && (n.L != null ==> n.L in S) && (n.R != null ==> n.R in S)
      ensures InOrder(ShapeOf(n)) == InOrder(ShapeOf(n.L)) + [n] + InOrder(ShapeOf(n.R))
    {
      hide Linked;
    }

    // The list of the nodes below n is the stretch of the list whose keys lie between n.lo and n.hi.
    lemma {:induction false} InOrderIsStretch(n: Node, a: nat) returns (b: nat)
      requires Sound() && n in S && a <= |Nodes| && n.lo == (if a == 0 then 0.0 else Nodes[a - 1].key)
      requires a > 0 ==> Nodes[a - 1] in S
      ensures a < b <= |Nodes| && InOrder(ShapeOf(n)) == Nodes[a..b]
      ensures b < |Nodes| ==> Nodes[b] in S
      ensures n.hi == (if b == |Nodes| then 1.0 else Nodes[b].key)
      decreases Below(n)
    {
      hide Listed, Linked, Threaded, InOrder, ShapeOf;
      BelowShrinks(n);
      KidIntervals(n);
      InOrderNone();
      InOrderFork(n);
      var m := IndexOf(n);
      var left: seq<Node>, right: seq<Node> := [], [];
      if n.L != null {
        var k := InOrderIsStretch(n.L, a);
        SameIndex(n, m, k);
        left := Nodes[a..m];
      } else {
        FirstIndex(n, m, a);
      }
      if n.R != null {
        b := InOrderIsStretch(n.R, m + 1);
        right := Nodes[m + 1..b];
      } else {
        b := m + 1;
        NextBound(n, m);
      }
      assert InOrder(ShapeOf(n.L)) == left && InOrder(ShapeOf(n.R)) == right;
      assert Nodes[a..b] == left + [n] + right;
    }

    lemma SameIndex(n: Node, m: nat, k: nat)
      requires Sound() && n in S && m < |Nodes| && Nodes[m] == n && k <= |Nodes|
      requires n.key == (if k == |Nodes| then 1.0 else Nodes[k].key)
      ensures k == m
    {
      KeyInside(n);
      if k < |Nodes| { NodesInside(k); SameKey(n, Nodes[k]); ListDistinct(); }
    }

    lemma FirstIndex(n: Node, m: nat, a: nat)
      requires Sound() && n in S && m < |Nodes| && Nodes[m] == n && Placed(m) && a <= |Nodes| && n.L == null
      requires a > 0 ==> Nodes[a - 1] in S
      requires n.lo == (if a == 0 then 0.0 else Nodes[a - 1].key)
      ensures m == a
    {
      assert Threaded(n);
      if n.P != null { KeyInside(n.P); }
      if a > 0 {
        KeyInside(Nodes[a - 1]);
        SameKey(n.P, Nodes[a - 1]);
        ListDistinct();
      }
    }

    lemma NextBound(n: Node, m: nat)
      requires Sound() && n in S && m < |Nodes| && Nodes[m] == n && Placed(m) && n.R == null
      ensures m + 1 < |Nodes| ==> Nodes[m + 1] in S
      ensures n.hi == (if m + 1 == |Nodes| then 1.0 else Nodes[m + 1].key)
    {
      assert Threaded(n);
    }

    // The links span a binary tree whose in-order traversal is the abstract list, and
    // the threading P, N runs along that traversal.
    lemma InOrderIsList()
      requires Valid()
      ensures InOrder(ShapeOf(root)) == Nodes
    {
      if root == null {
        ListEmpty();
      } else {
        var b := InOrderIsStretch(root, 0);
        if b < |Nodes| { KeyInside(Nodes[b]); }
        assert Nodes[0..b] == Nodes;
      }
    }

    lemma {:induction false} PathFacts(n: Node?, path: seq<bool>)
      requires AllLinked() && AllBalanced() && AllCool(null) && (n != null ==> n in S)
      requires LeadsOut(ShapeOf(n), path)
      ensures BlacksOn(ShapeOf(n), path) == Rank(n)
      ensures |path| <= 2 * Rank(n) + if IsRed(n) then 1 else 0
      decreases Below(n)
    {
      if n != null {
        BelowShrinks(n);
        assert Balanced(n) && Cool(n, null);
        PathFacts(if path[0] then n.R else n.L, path[1..]);
      }
    }

    lemma {:induction false} ColoursFollow(n: Node?)
      requires AllLinked() && AllCool(null) && (n != null ==> n in S)
      ensures NoRedBelowRed(ShapeOf(n))
      decreases Below(n)
    {
      if n != null {
        BelowShrinks(n);
        assert Cool(n, null);
        ColoursFollow(n.L);
        ColoursFollow(n.R);
      }
    }

    lemma {:induction false} SizeAtLeast(n: Node?)
      requires AllLinked() && AllBalanced() && (n != null ==> n in S)
      ensures Pow2(Rank(n)) <= |InOrder(ShapeOf(n))| + 1
      decreases Below(n)
    {
      if n != null {
        BelowShrinks(n);
        assert Balanced(n);
        SizeAtLeast(n.L);
        SizeAtLeast(n.R);
        Pow2Grows(Rank(n), n.bh + 1);
      }
    }

    // The red-black laws, on the spanned tree: a black root, no red node with a red
    // child, and equally many black nodes on any two paths from the root to a null link.
    lemma RedBlackLaws(p: seq<bool>, q: seq<bool>)
      requires Valid() && LeadsOut(ShapeOf(root), p) && LeadsOut(ShapeOf(root), q)
      ensures root != null ==> !root.C
      ensures NoRedBelowRed(ShapeOf(root))
      ensures BlacksOn(ShapeOf(root), p) == BlacksOn(ShapeOf(root), q)
    {
      ColoursFollow(root);
      PathFacts(root, p);
      PathFacts(root, q);
    }

    // So no path is longer than twice the binary logarithm of the number of nodes plus one.
    lemma PathsAreShort(p: seq<bool>)
      requires Valid() && LeadsOut(ShapeOf(root), p)
      ensures Pow2(|p|) <= (|Nodes| + 1) * (|Nodes| + 1)
    {
      PathFacts(root, p);
      SizeAtLeast(root);
      InOrderIsList();
      var h := Rank(root);
      Pow2Grows(|p|, h + h);
      Pow2Sum(h, h);
      Squares(Pow2(h), |Nodes| + 1);
    }

    lemma Squares(a: nat, b: nat)
      requires a <= b
      ensures a * a <= b * b
    {
      assert a * a <= a * b <= b * b;
    }

    // Parent links mirror child links, and P and N lead to the neighbours in the traversal.
    lemma LinksAgree(i: nat)
      requires Valid() && i < |InOrder(ShapeOf(root))|
      ensures var order := InOrder(ShapeOf(root));
        var n := order[i];
        && n.P == (if i == 0 then null else order[i - 1])
        && n.N == (if i == |order| - 1 then null else order[i + 1])
        && (n.L != null ==> n.L in order && n.L.U == n)
        && (n.R != null ==> n.R in order && n.R.U == n)
        && (if n.U == null then n == root else n.U in order && (n.U.L == n) != (n.U.R == n))
    {
      hide Linked, AllBalanced, AllCool;
      InOrderIsList();
      var n := Nodes[i];
      assert Placed(i);
      KidsInside(n);
      RootInside();
      if n.U != null { KidOf(n); }
    }
  }

  // ---------- any sequence of operations ----------

  datatype Op = Put(after: Node?, node: Node) | Take(node: Node)

  // The operation is one that its caller may ask for: a new node goes behind a
  // listed one or to the front, and only a listed node is removed.
  ghost predicate Allowed(list: seq<Node>, op: Op) {
    match op
    case Put(after, t) => t !in list && (after != null ==> after in list)
    case Take(x) => x in list
  }

  ghost function Applied(list: seq<Node>, op: Op): seq<Node> {
    match op
    case Put(after, t) => InsertedAfter(list, after, t)
    case Take(x) => Removed(list, x)
  }

  ghost predicate AllAllowed(list: seq<Node>, ops: seq<Op>)
    decreases |ops|
  {
    ops == [] || (Allowed(list, ops[0]) && AllAllowed(Applied(list, ops[0]), ops[1..]))
  }

  ghost function AllApplied(list: seq<Node>, ops: seq<Op>): seq<Node>
    decreases |ops|
  {
    if ops == [] then list else AllApplied(Applied(list, ops[0]), ops[1..])
  }

  method Perform(tree: RedBlackTree, op: Op)
    requires tree.Valid() && Allowed(tree.Nodes, op)
    modifies tree, tree.S, op.node
    ensures tree.Valid() && tree.Nodes == Applied(old(tree.Nodes), op)
    ensures tree.S <= old(tree.S) + {op.node}
  {
    tree.ListIsSet();
    match op {
      case Put(after, t) => tree.Insert(after, t);
      case Take(x) => tree.Remove(x);
    }
  }

  // After any allowed sequence of insertions and removals, in any order, the tree is
  // valid and lists exactly what the operations say.
  method Replay(tree: RedBlackTree, ops: seq<Op>)
    requires tree.Valid() && AllAllowed(tree.Nodes, ops)
    modifies tree, tree.S, set op | op in ops :: op.node
    ensures tree.Valid() && tree.Nodes == AllApplied(old(tree.Nodes), ops)
  {
    hide RedBlackTree.Valid, Allowed, Applied;
    var k := 0;
    while k < |ops|
      invariant 0 <= k <= |ops| && tree.Valid()
      invariant tree.S <= old(tree.S) + set op | op in ops :: op.node
      invariant AllAllowed(tree.Nodes, ops[k..])
      invariant AllApplied(tree.Nodes, ops[k..]) == AllApplied(old(tree.Nodes), ops)
    {
      assert ops[k..][1..] == ops[k + 1..];
      Perform(tree, ops[k]);
      k := k + 1;
    }
  }
}
