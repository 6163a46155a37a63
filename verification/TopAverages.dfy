/** The process groups of `tools/parse-top.py`: every sample of `top` adds the figures of
    its processes to a series per thread name and to a running total per group, and every
    thirty samples the total becomes an average. The regular expressions that sort thread
    names into groups are parameters. */
module TopAverages {

  datatype Metric = Cpu | Mem

  datatype Proc = Proc(parentPid: int, pid: int, command: string, cpu: real, mem: real) {
    function Percent(m: Metric): real { if m == Cpu then cpu else mem }
  }

  // An entry of `avg_cpu`; its `index` field always equals |data|.
  datatype Average = Average(total: real, data: seq<real>)

  // The series of a thread name, one figure a sample.
  datatype Thread = Thread(name: string, cpu: seq<real>, mem: seq<real>) {
    function Series(m: Metric): seq<real> { if m == Cpu then cpu else mem }
  }

  // What is kept for a group: its process ids, its threads as the dictionary holds them, in
  // the order of insertion, and the averages of both metrics.
  datatype Group = Group(pids: set<int>, threads: seq<Thread>, cpu: Average, mem: Average) {
    function Avg(m: Metric): Average { if m == Cpu then cpu else mem }
  }

  const DEFAULT_NUM_SAMPLES := 30

  // A group before the first sample.
  function Fresh(pids: set<int>): Group {
    Group(pids, [], Average(0.0, []), Average(0.0, []))
  }

  // ---------- series and totals ----------

  predicate Sound(g: Group, samples: nat) {
    forall k :: 0 <= k < |g.threads| ==> |g.threads[k].cpu| == |g.threads[k].mem| == samples
  }

  // The sum over the first n threads at sample i.
  function ColumnTo(threads: seq<Thread>, m: Metric, i: nat, n: nat): real
    requires n <= |threads| && forall k :: 0 <= k < |threads| ==> i < |threads[k].Series(m)|
  {
    if n == 0 then 0.0 else ColumnTo(threads, m, i, n - 1) + threads[n - 1].Series(m)[i]
  }

  // The sum over all threads of the group at sample i.
  function Column(g: Group, samples: nat, m: Metric, i: nat): real
    requires Sound(g, samples) && i < samples
  {
    ColumnTo(g.threads, m, i, |g.threads|)
  }

  // The sum over all threads of the group from sample a up to sample b.
  function Columns(g: Group, samples: nat, m: Metric, a: nat, b: nat): real
    requires Sound(g, samples) && b <= samples
  {
    if b <= a then 0.0 else Columns(g, samples, m, a, b - 1) + Column(g, samples, m, b - 1)
  }

  predicate Zero(t: Thread, i: nat) {
    i < |t.cpu| && i < |t.mem| && t.cpu[i] == 0.0 && t.mem[i] == 0.0
  }

  // No thread has anything at sample i.
  predicate Blank(g: Group, i: nat) {
    forall k :: 0 <= k < |g.threads| ==> Zero(g.threads[k], i)
  }

  // The place of a thread name in the dictionary; one past the end if it is not there.
  function Find(threads: seq<Thread>, name: string): (k: nat)
    ensures k <= |threads| && (k < |threads| ==> threads[k].name == name)
    ensures forall j :: 0 <= j < k ==> threads[j].name != name
  {
    if threads == [] then 0
    else if threads[0].name == name then 0
    else 1 + Find(threads[1..], name)
  }

  // ---------- one process ----------

  function NewThread(name: string, samples: nat): Thread {
    Thread(name, seq(samples, _ => 0.0), seq(samples, _ => 0.0))
  }

  // x added to a series and to the total.
  function AddTo(t: Thread, i: nat, p: Proc): Thread
    requires i < |t.cpu| && i < |t.mem|
  {
    t.(cpu := t.cpu[i := t.cpu[i] + p.cpu], mem := t.mem[i := t.mem[i] + p.mem])
  }

  // The figures of p added to the k-th thread at sample i and to the totals of the group.
  function AddProc(g: Group, k: nat, i: nat, p: Proc): Group
    requires k < |g.threads| && i < |g.threads[k].cpu| && i < |g.threads[k].mem|
  {
    g.(threads := g.threads[k := AddTo(g.threads[k], i, p)],
       cpu := g.cpu.(total := g.cpu.total + p.cpu),
       mem := g.mem.(total := g.mem.total + p.mem))
  }

  lemma {:induction false} ColumnUpdated(threads: seq<Thread>, k: nat, i: nat, p: Proc, m: Metric, j: nat, n: nat)
    requires k < |threads| && i < |threads[k].cpu| && i < |threads[k].mem| && n <= |threads|
    requires forall l :: 0 <= l < |threads| ==> j < |threads[l].Series(m)|
    ensures var now := threads[k := AddTo(threads[k], i, p)];
      && (forall l :: 0 <= l < |now| ==> j < |now[l].Series(m)|)
      && ColumnTo(now, m, j, n) == ColumnTo(threads, m, j, n) + if j == i && k < n then p.Percent(m) else 0.0
  {
    if n > 0 { ColumnUpdated(threads, k, i, p, m, j, n - 1); }
  }

  lemma {:induction false} ColumnExtended(threads: seq<Thread>, t: Thread, m: Metric, j: nat, n: nat)
    requires n <= |threads| && j < |t.Series(m)| && forall l :: 0 <= l < |threads| ==> j < |threads[l].Series(m)|
    ensures ColumnTo(threads + [t], m, j, n) == ColumnTo(threads, m, j, n)
  {
    if n > 0 { ColumnExtended(threads, t, m, j, n - 1); }
  }

  // How a group may change while sample i is taken in: the sum of a metric at sample i and
  // its total grow by the same amount, and nothing else of the sums or the averages changes.
  ghost predicate Grows(g: Group, h: Group, samples: nat, i: nat)
    requires Sound(g, samples) && i < samples
  {
    && Sound(h, samples) && h.cpu.data == g.cpu.data && h.mem.data == g.mem.data
    && (forall m, j {:trigger Column(h, samples, m, j)} ::
      0 <= j < samples && j != i ==> Column(h, samples, m, j) == Column(g, samples, m, j))
    && (forall m {:trigger h.Avg(m)} ::
      h.Avg(m).total - g.Avg(m).total == Column(h, samples, m, i) - Column(g, samples, m, i))
    && (forall j :: i < j < samples && Blank(g, j) ==> Blank(h, j))
  }

  lemma AddProcGrows(g: Group, samples: nat, k: nat, i: nat, p: Proc)
    requires Sound(g, samples) && i < samples && k < |g.threads|
    ensures Grows(g, AddProc(g, k, i, p), samples, i)
  {
    var h := AddProc(g, k, i, p);
    forall m, j | 0 <= j < samples
      ensures Column(h, samples, m, j) == Column(g, samples, m, j) + if j == i then p.Percent(m) else 0.0
    {
      ColumnUpdated(g.threads, k, i, p, m, j, |g.threads|);
    }
  }

  lemma NewThreadGrows(g: Group, samples: nat, name: string, i: nat, pids: set<int>)
    requires Sound(g, samples) && i < samples
    ensures Grows(g, g.(threads := g.threads + [NewThread(name, samples)], pids := pids), samples, i)
  {
    var t := NewThread(name, samples);
    var h := g.(threads := g.threads + [t], pids := pids);
    forall m, j | 0 <= j < samples ensures Column(h, samples, m, j) == Column(g, samples, m, j) {
      ColumnExtended(g.threads, t, m, j, |g.threads|);
    }
  }

  lemma GrowsTwice(f: Group, g: Group, h: Group, samples: nat, i: nat)
    requires Sound(f, samples) && i < samples && Grows(f, g, samples, i) && Grows(g, h, samples, i)
    ensures Grows(f, h, samples, i)
  {
    hide Column, Blank;
    forall m, j | 0 <= j < samples && j != i ensures Column(h, samples, m, j) == Column(f, samples, m, j) {
      assert Column(g, samples, m, j) == Column(f, samples, m, j);
    }
    forall m ensures h.Avg(m).total - f.Avg(m).total == Column(h, samples, m, i) - Column(f, samples, m, i) {
      assert g.Avg(m).total - f.Avg(m).total == Column(g, samples, m, i) - Column(f, samples, m, i);
    }
  }

  lemma GrowsNot(g: Group, samples: nat, i: nat)
    requires Sound(g, samples) && i < samples
    ensures Grows(g, g, samples, i)
  {
  }

  // ---------- all processes of a sample ----------

  // The regular expressions: which commands belong to a group, and the thread name they count for.
  datatype Patterns = Patterns(inGroup: (string, string) -> bool, nameOf: (string, string) -> string)

  // `_is_p_in_pgroup`
  predicate Belongs(ps: Patterns, pg: string, g: Group, p: Proc) {
    ps.inGroup(pg, p.command) && (p.parentPid in g.pids || p.pid in g.pids)
  }

  // The group with a thread of that name; a new name also adds the parent to the process ids.
  function WithThread(g: Group, samples: nat, name: string, p: Proc): Group {
    if Find(g.threads, name) < |g.threads| then g
    else g.(threads := g.threads + [NewThread(name, samples)], pids := g.pids + {p.parentPid})
  }

  // One process taken in.
  function Taken(ps: Patterns, pg: string, g: Group, samples: nat, i: nat, p: Proc): (h: Group)
    requires Sound(g, samples) && i < samples
    ensures Sound(h, samples)
  {
    if !Belongs(ps, pg, g, p) then g else
      var name := ps.nameOf(pg, p.command);
      var w := WithThread(g, samples, name, p);
      AddProc(w, Find(g.threads, name), i, p)
  }

  function TakenAll(ps: Patterns, pg: string, g: Group, samples: nat, i: nat, procs: seq<Proc>): (h: Group)
    requires Sound(g, samples) && i < samples
    ensures Sound(h, samples)
  {
    if procs == [] then g else
      Taken(ps, pg, TakenAll(ps, pg, g, samples, i, procs[..|procs| - 1]), samples, i, procs[|procs| - 1])
  }

  predicate Distinct(threads: seq<Thread>) {
    forall k, j :: 0 <= k < j < |threads| ==> threads[k].name != threads[j].name
  }

  // A process that belongs to the group adds its figures to the thread of its name, at this
  // sample, and to no other; one that does not changes nothing.
  lemma TakenExactly(ps: Patterns, pg: string, g: Group, samples: nat, i: nat, p: Proc)
    requires Sound(g, samples) && i < samples && Distinct(g.threads)
    ensures var h := Taken(ps, pg, g, samples, i, p);
      && Distinct(h.threads) && |g.threads| <= |h.threads| <= |g.threads| + 1
      && (forall k :: 0 <= k < |g.threads| ==>
            h.threads[k] == if Belongs(ps, pg, g, p) && g.threads[k].name == ps.nameOf(pg, p.command)
                            then AddTo(g.threads[k], i, p) else g.threads[k])
      && (|h.threads| > |g.threads| <==>
            Belongs(ps, pg, g, p)
            && forall k :: 0 <= k < |g.threads| ==> g.threads[k].name != ps.nameOf(pg, p.command))
      && (|h.threads| > |g.threads| ==>
            h.threads[|g.threads|] == AddTo(NewThread(ps.nameOf(pg, p.command), samples), i, p)
              && h.pids == g.pids + {p.parentPid})
      && (|h.threads| == |g.threads| ==> h.pids == g.pids)
  {
  }

  // ---------- what the threads have, by name ----------

  function Names(threads: seq<Thread>): set<string> {
    set k | 0 <= k < |threads| :: threads[k].name
  }

  // The entry of a thread name at sample i; a name without a thread has nothing.
  function Entry(threads: seq<Thread>, name: string, m: Metric, i: nat): real {
    var k := Find(threads, name);
    if k < |threads| && i < |threads[k].Series(m)| then threads[k].Series(m)[i] else 0.0
  }

  // The sum of the figures of the first n processes of one thread name that belong to the group when
  // their turn comes: the pattern takes the command, and one of the two ids is known by then.
  function Figures(ps: Patterns, pg: string, ids: seq<set<int>>, procs: seq<Proc>, name: string, m: Metric,
      n: nat): real
    requires n <= |procs| && |ids| > n
  {
    if n == 0 then 0.0 else
      var p := procs[n - 1];
      Figures(ps, pg, ids, procs, name, m, n - 1)
      + if ps.inGroup(pg, p.command) && (p.parentPid in ids[n - 1] || p.pid in ids[n - 1])
           && ps.nameOf(pg, p.command) == name
        then p.Percent(m) else 0.0
  }

  // How the known process ids and thread names grow: a process that belongs and whose name is new
  // adds its name and its parent.
  predicate Grown(ps: Patterns, pg: string, ids: seq<set<int>>, names: seq<set<string>>, procs: seq<Proc>, k: nat) {
    k < |procs| && k + 1 < |ids| && k + 1 < |names| &&
    var p, name := procs[k], ps.nameOf(pg, procs[k].command);
    var opens := ps.inGroup(pg, p.command) && (p.parentPid in ids[k] || p.pid in ids[k]) && name !in names[k];
    ids[k + 1] == (if opens then ids[k] + {p.parentPid} else ids[k])
    && names[k + 1] == if opens then names[k] + {name} else names[k]
  }

  // A thread keeps its place when others are added behind it.
  lemma {:induction false} FindKept(threads: seq<Thread>, now: seq<Thread>, name: string)
    requires |threads| <= |now| && forall k :: 0 <= k < |threads| ==> now[k].name == threads[k].name
    ensures var k, l := Find(threads, name), Find(now, name); if k < |threads| then l == k else l >= |threads|
  {
  }

  // One process.
  lemma TakenEntry(ps: Patterns, pg: string, g: Group, samples: nat, i: nat, p: Proc, name: string, m: Metric, j: nat)
    requires Sound(g, samples) && i < samples && Distinct(g.threads)
    ensures var h := Taken(ps, pg, g, samples, i, p);
      Entry(h.threads, name, m, j) == Entry(g.threads, name, m, j)
        + if Belongs(ps, pg, g, p) && ps.nameOf(pg, p.command) == name && j == i then p.Percent(m) else 0.0
  {
    hide Taken, Belongs, Find;
    var h := Taken(ps, pg, g, samples, i, p);
    TakenExactly(ps, pg, g, samples, i, p);
    FindKept(g.threads, h.threads, name);
    var k, l := Find(g.threads, name), Find(h.threads, name);
    if k < |g.threads| {
      assert h.threads[k] ==
        if Belongs(ps, pg, g, p) && name == ps.nameOf(pg, p.command) then AddTo(g.threads[k], i, p) else g.threads[k];
    } else if l < |h.threads| {
      assert h.threads[l] == AddTo(NewThread(ps.nameOf(pg, p.command), samples), i, p);
      assert name == ps.nameOf(pg, p.command);
    }
  }

  lemma TakenKnown(ps: Patterns, pg: string, g: Group, samples: nat, i: nat, p: Proc)
    requires Sound(g, samples) && i < samples && Distinct(g.threads)
    ensures var h, name := Taken(ps, pg, g, samples, i, p), ps.nameOf(pg, p.command);
      var opens := Belongs(ps, pg, g, p) && name !in Names(g.threads);
      && Distinct(h.threads)
      && h.pids == (if opens then g.pids + {p.parentPid} else g.pids)
      && Names(h.threads) == if opens then Names(g.threads) + {name} else Names(g.threads)
  {
    hide Taken, Belongs, Names, Distinct;
    var h, name := Taken(ps, pg, g, samples, i, p), ps.nameOf(pg, p.command);
    TakenExactly(ps, pg, g, samples, i, p);
    assert name in Names(g.threads) <==> exists k :: 0 <= k < |g.threads| && g.threads[k].name == name by {
      NameThere(g.threads, name);
    }
    if |h.threads| == |g.threads| {
      SameNames(g.threads, h.threads);
    } else {
      SameNames(g.threads, h.threads[..|g.threads|]);
      assert h.threads == h.threads[..|g.threads|] + [h.threads[|g.threads|]];
      OneMoreName(h.threads[..|g.threads|], h.threads[|g.threads|]);
    }
  }

  lemma NameThere(threads: seq<Thread>, name: string)
    ensures name in Names(threads) <==> exists k :: 0 <= k < |threads| && threads[k].name == name
  {
  }

  lemma SameNames(threads: seq<Thread>, now: seq<Thread>)
    requires |threads| == |now| && forall k :: 0 <= k < |threads| ==> now[k].name == threads[k].name
    ensures Names(now) == Names(threads)
  {
    assert forall x :: x in Names(threads) ==> x in Names(now);
  }

  lemma OneMoreName(threads: seq<Thread>, t: Thread)
    ensures Names(threads + [t]) == Names(threads) + {t.name}
  {
    var now := threads + [t];
    assert now[|threads|] == t;
    assert forall k :: 0 <= k < |threads| ==> now[k] == threads[k];
    assert forall x :: x in Names(threads) ==> x in Names(now);
  }

  // A whole sample: every thread name gets the figures of its processes, each judged by the
  // process ids known at its turn, and no other sample changes.
  lemma {:induction false} TakenAllIs(ps: Patterns, pg: string, g: Group, samples: nat, i: nat, procs: seq<Proc>)
    returns (ids: seq<set<int>>, names: seq<set<string>>)
    requires Sound(g, samples) && i < samples && Distinct(g.threads)
    ensures |ids| == |names| == |procs| + 1 && ids[0] == g.pids && names[0] == Names(g.threads)
    ensures forall k :: 0 <= k < |procs| ==> Grown(ps, pg, ids, names, procs, k)
    ensures var h := TakenAll(ps, pg, g, samples, i, procs);
      && Distinct(h.threads) && h.pids == ids[|procs|] && Names(h.threads) == names[|procs|]
      && (forall name, m :: Entry(h.threads, name, m, i)
            == Entry(g.threads, name, m, i) + Figures(ps, pg, ids, procs, name, m, |procs|))
      && (forall name, m, j: nat :: j != i ==> Entry(h.threads, name, m, j) == Entry(g.threads, name, m, j))
  {
    hide Sound, Entry, Distinct, Names, Taken;
    if procs == [] {
      ids, names := [g.pids], [Names(g.threads)];
    } else {
      var n := |procs| - 1;
      var p, before := procs[n], TakenAll(ps, pg, g, samples, i, procs[..n]);
      var ids', names' := TakenAllIs(ps, pg, g, samples, i, procs[..n]);
      var h := TakenAll(ps, pg, g, samples, i, procs);
      TakenKnown(ps, pg, before, samples, i, p);
      ids, names := ids' + [h.pids], names' + [Names(h.threads)];
      forall k | 0 <= k < |procs| ensures Grown(ps, pg, ids, names, procs, k) {
        if k < n { assert Grown(ps, pg, ids', names', procs[..n], k); }
      }
      forall name, m
        ensures Entry(h.threads, name, m, i)
             == Entry(g.threads, name, m, i) + Figures(ps, pg, ids, procs, name, m, |procs|)
      {
        TakenEntry(ps, pg, before, samples, i, p, name, m, i);
        FiguresSame(ps, pg, ids', ids, procs[..n], procs, name, m, n);
      }
      forall name, m, j: nat | j != i ensures Entry(h.threads, name, m, j) == Entry(g.threads, name, m, j) {
        TakenEntry(ps, pg, before, samples, i, p, name, m, j);
      }
    }
  }

  lemma {:induction false} FiguresSame(ps: Patterns, pg: string, a: seq<set<int>>, b: seq<set<int>>,
      procs: seq<Proc>, all: seq<Proc>, name: string, m: Metric, n: nat)
    requires n <= |procs| && n < |a| && a <= b && procs <= all
    ensures Figures(ps, pg, b, all, name, m, n) == Figures(ps, pg, a, procs, name, m, n)
  {
    if n > 0 { FiguresSame(ps, pg, a, b, procs, all, name, m, n - 1); }
  }

  lemma TakenGrows(ps: Patterns, pg: string, g: Group, samples: nat, i: nat, p: Proc)
    requires Sound(g, samples) && i < samples
    ensures Grows(g, Taken(ps, pg, g, samples, i, p), samples, i)
  {
    hide Grows;
    if Belongs(ps, pg, g, p) {
      var name := ps.nameOf(pg, p.command);
      var w := WithThread(g, samples, name, p);
      if Find(g.threads, name) < |g.threads| {
        GrowsNot(g, samples, i);
      } else {
        NewThreadGrows(g, samples, name, i, g.pids + {p.parentPid});
      }
      AddProcGrows(w, samples, Find(g.threads, name), i, p);
      GrowsTwice(g, w, Taken(ps, pg, g, samples, i, p), samples, i);
    } else {
      GrowsNot(g, samples, i);
    }
  }

  lemma {:induction false} TakenAllGrows(ps: Patterns, pg: string, g: Group, samples: nat, i: nat, procs: seq<Proc>)
    requires Sound(g, samples) && i < samples
    ensures Grows(g, TakenAll(ps, pg, g, samples, i, procs), samples, i)
  {
    hide Grows, Taken;
    if procs == [] {
      GrowsNot(g, samples, i);
    } else {
      var n := |procs| - 1;
      var h := TakenAll(ps, pg, g, samples, i, procs[..n]);
      TakenAllGrows(ps, pg, g, samples, i, procs[..n]);
      TakenGrows(ps, pg, h, samples, i, procs[n]);
      GrowsTwice(g, h, Taken(ps, pg, h, samples, i, procs[n]), samples, i);
    }
  }

  // ---------- averages ----------

  function Emitted(a: Average): Average {
    Average(0.0, a.data + [a.total / DEFAULT_NUM_SAMPLES as real])
  }

  // `update_avg` on one group.
  function Averaged(g: Group, i: nat): Group {
    if (i + 1) % DEFAULT_NUM_SAMPLES == 0 && i > 0 then g.(cpu := Emitted(g.cpu), mem := Emitted(g.mem)) else g
  }

  // The first sample of the w-th average: the first takes in 29 samples, every other 30.
  function From(w: nat): nat { if w == 0 then 0 else DEFAULT_NUM_SAMPLES * w - 1 }

  // A metric once n samples are taken in and w averages have been emitted: each average times
  // thirty is what the threads have in its samples, and the total what they have since.
  ghost predicate Accounted(g: Group, samples: nat, m: Metric, n: nat, w: nat)
    requires Sound(g, samples) && n <= samples
  {
    && |g.Avg(m).data| == w && From(w) <= n
    && (forall v :: 0 <= v < w ==> AverageOf(g, samples, m, v))
    && g.Avg(m).total == Columns(g, samples, m, From(w), n)
  }

  ghost predicate AverageOf(g: Group, samples: nat, m: Metric, v: nat)
    requires Sound(g, samples)
  {
    v < |g.Avg(m).data| && From(v + 1) <= samples
    && g.Avg(m).data[v] * DEFAULT_NUM_SAMPLES as real == Columns(g, samples, m, From(v), From(v + 1))
  }

  ghost predicate Balanced(g: Group, samples: nat, n: nat, w: nat) {
    && Sound(g, samples) && n <= samples
    && Accounted(g, samples, Cpu, n, w) && Accounted(g, samples, Mem, n, w)
    && forall j :: n <= j < samples ==> Blank(g, j)
  }

  lemma {:induction false} ColumnsKept(g: Group, h: Group, samples: nat, i: nat, m: Metric, a: nat, b: nat)
    requires Sound(g, samples) && i < samples && Grows(g, h, samples, i) && b <= i
    ensures Columns(h, samples, m, a, b) == Columns(g, samples, m, a, b)
  {
    hide Column;
    if a < b {
      ColumnsKept(g, h, samples, i, m, a, b - 1);
      assert Column(h, samples, m, b - 1) == Column(g, samples, m, b - 1);
    }
  }

  lemma {:induction false} BlankColumn(threads: seq<Thread>, m: Metric, i: nat, n: nat)
    requires n <= |threads| && forall k :: 0 <= k < |threads| ==> Zero(threads[k], i)
    ensures forall k :: 0 <= k < |threads| ==> i < |threads[k].Series(m)|
    ensures ColumnTo(threads, m, i, n) == 0.0
  {
    if n > 0 { BlankColumn(threads, m, i, n - 1); }
  }

  lemma AccountedGrows(g: Group, h: Group, samples: nat, i: nat, m: Metric, w: nat)
    requires Sound(g, samples) && i < samples && Grows(g, h, samples, i) && Blank(g, i)
      && Accounted(g, samples, m, i, w)
    ensures Accounted(h, samples, m, i + 1, w)
  {
    hide Column;
    ColumnIsZero(g, samples, m, i);
    ColumnsKept(g, h, samples, i, m, From(w), i);
    assert h.Avg(m).total - g.Avg(m).total == Column(h, samples, m, i) - Column(g, samples, m, i);
    forall v | 0 <= v < w ensures AverageOf(h, samples, m, v) {
      assert AverageOf(g, samples, m, v);
      ColumnsKept(g, h, samples, i, m, From(v), From(v + 1));
    }
  }

  lemma ColumnIsZero(g: Group, samples: nat, m: Metric, i: nat)
    requires Sound(g, samples) && i < samples && Blank(g, i)
    ensures Column(g, samples, m, i) == 0.0
  {
    BlankColumn(g.threads, m, i, |g.threads|);
  }

  // One sample more.
  lemma BalancedGrows(g: Group, h: Group, samples: nat, i: nat, w: nat)
    requires i < samples && Balanced(g, samples, i, w) && Grows(g, h, samples, i)
    ensures Balanced(h, samples, i + 1, w)
  {
    hide Accounted, Blank, Column;
    assert Blank(g, i);
    AccountedGrows(g, h, samples, i, Cpu, w);
    AccountedGrows(g, h, samples, i, Mem, w);
  }

  lemma {:induction false} SameThreads(g: Group, h: Group, samples: nat, m: Metric, a: nat, b: nat)
    requires Sound(g, samples) && b <= samples && g.threads == h.threads
    ensures Columns(h, samples, m, a, b) == Columns(g, samples, m, a, b)
  {
    if a < b { SameThreads(g, h, samples, m, a, b - 1); }
  }

  lemma AccountedEmits(g: Group, samples: nat, m: Metric, i: nat, w: nat)
    requires i < samples && Sound(g, samples) && Accounted(g, samples, m, i, w) && w == i / DEFAULT_NUM_SAMPLES
    ensures Accounted(Averaged(g, i), samples, m, i, (i + 1) / DEFAULT_NUM_SAMPLES)
  {
    hide Columns;
    var h := Averaged(g, i);
    if (i + 1) % DEFAULT_NUM_SAMPLES == 0 && i > 0 {
      assert From(w + 1) == i;
      NoColumns(h, samples, m, i);
      SameThreads(g, h, samples, m, From(w), i);
      forall v | 0 <= v < w + 1 ensures AverageOf(h, samples, m, v) {
        if v < w {
          assert AverageOf(g, samples, m, v);
          SameThreads(g, h, samples, m, From(v), From(v + 1));
        }
      }
    }
  }

  lemma NoColumns(g: Group, samples: nat, m: Metric, i: nat)
    requires Sound(g, samples) && i <= samples
    ensures Columns(g, samples, m, i, i) == 0.0
  {
  }

  lemma BalancedEmits(g: Group, samples: nat, i: nat)
    requires i < samples && Balanced(g, samples, i, i / DEFAULT_NUM_SAMPLES)
    ensures Balanced(Averaged(g, i), samples, i, (i + 1) / DEFAULT_NUM_SAMPLES)
  {
    hide Accounted, Columns;
    var h := Averaged(g, i);
    assert h.threads == g.threads;
    forall j | i <= j < samples ensures Blank(h, j) { assert Blank(g, j); }
    AccountedEmits(g, samples, Cpu, i, i / DEFAULT_NUM_SAMPLES);
    AccountedEmits(g, samples, Mem, i, i / DEFAULT_NUM_SAMPLES);
  }

  function Total(xs: seq<real>): real {
    if xs == [] then 0.0 else Total(xs[..|xs| - 1]) + xs[|xs| - 1]
  }

  lemma {:induction false} ColumnsJoin(g: Group, samples: nat, m: Metric, a: nat, b: nat, c: nat)
    requires Sound(g, samples) && a <= b <= c <= samples
    ensures Columns(g, samples, m, a, c) == Columns(g, samples, m, a, b) + Columns(g, samples, m, b, c)
  {
    hide Column;
    if b < c { ColumnsJoin(g, samples, m, a, b, c - 1); }
  }

  // Nothing is lost: thirty times all averages and the running total make up all the entries
  // of the group's threads.
  lemma {:induction false} NothingLost(g: Group, samples: nat, m: Metric, n: nat, w: nat)
    requires Sound(g, samples) && n <= samples && Accounted(g, samples, m, n, w)
    ensures DEFAULT_NUM_SAMPLES as real * Total(g.Avg(m).data) + g.Avg(m).total == Columns(g, samples, m, 0, n)
  {
    AveragesAddUp(g, samples, m, n, w, w);
    ColumnsJoin(g, samples, m, 0, From(w), n);
    assert g.Avg(m).data[..w] == g.Avg(m).data;
  }

  lemma {:induction false} AveragesAddUp(g: Group, samples: nat, m: Metric, n: nat, w: nat, v: nat)
    requires Sound(g, samples) && n <= samples && Accounted(g, samples, m, n, w) && v <= w
    ensures From(v) <= samples
    ensures DEFAULT_NUM_SAMPLES as real * Total(g.Avg(m).data[..v]) == Columns(g, samples, m, 0, From(v))
  {
    if v > 0 {
      AveragesAddUp(g, samples, m, n, w, v - 1);
      assert AverageOf(g, samples, m, v - 1);
      assert g.Avg(m).data[..v][..v - 1] == g.Avg(m).data[..v - 1];
      ColumnsJoin(g, samples, m, 0, From(v - 1), From(v));
    } else {
      assert g.Avg(m).data[..0] == [];
    }
  }

  // ---------- the code ----------

  class TopEntry {
    const procInfo: seq<string>
    const patterns: Patterns
    var numSamples: nat
    var groups: map<string, Group>

    // The groups with the process ids of the `_pid.json` file, after `init_avg_cpu`.
    constructor (procInfo: seq<string>, patterns: Patterns, pids: map<string, set<int>>)
      ensures this.procInfo == procInfo && this.patterns == patterns && numSamples == 0
      ensures forall pg <- procInfo :: pg in groups && groups[pg] == Fresh(if pg in pids then pids[pg] else {})
    {
      this.procInfo, this.patterns, this.numSamples := procInfo, patterns, 0;
      groups := map pg | pg in procInfo :: Fresh(if pg in pids then pids[pg] else {});
    }

    method UpdateAvg(i: nat)
      requires forall k, j :: 0 <= k < j < |procInfo| ==> procInfo[k] != procInfo[j]
      requires forall pg <- procInfo :: pg in groups
      modifies this`groups
      ensures forall pg <- procInfo :: pg in groups && groups[pg] == Averaged(old(groups)[pg], i)
    {
      if (i + 1) % DEFAULT_NUM_SAMPLES == 0 {
        if i > 0 {
          for k := 0 to |procInfo|
            invariant forall pg <- procInfo :: pg in groups
            invariant forall j :: 0 <= j < |procInfo| ==>
              groups[procInfo[j]] == if j < k then Averaged(old(groups)[procInfo[j]], i) else old(groups)[procInfo[j]]
          {
            var g := groups[procInfo[k]];
            groups := groups[procInfo[k] := g.(cpu := Emitted(g.cpu), mem := Emitted(g.mem))];
          }
        }
      }
    }

    method AggregateProc(index: nat, pg: string, procs: seq<Proc>)
      requires pg in groups && Sound(groups[pg], numSamples) && index < numSamples
      modifies this`groups
      ensures groups == old(groups)[pg := TakenAll(patterns, pg, old(groups)[pg], numSamples, index, procs)]
    {
      var g := groups[pg];
      for n := 0 to |procs|
        invariant g == TakenAll(patterns, pg, old(groups)[pg], numSamples, index, procs[..n])
      {
        assert procs[..n + 1][..n] == procs[..n];
        var p := procs[n];
        if Belongs(patterns, pg, g, p) {
          var name := patterns.nameOf(pg, p.command);
          var k := Find(g.threads, name);
          if k == |g.threads| {
            g := g.(threads := g.threads + [NewThread(name, numSamples)], pids := g.pids + {p.parentPid});
          }
          g := AddProc(g, k, index, p);
        }
      }
      assert procs[..|procs|] == procs;
      groups := groups[pg := g];
    }

    method FilterMetrics(samples: seq<seq<Proc>>)
      requires forall k, j :: 0 <= k < j < |procInfo| ==> procInfo[k] != procInfo[j]
      requires forall pg <- procInfo :: pg in groups && groups[pg] == Fresh(groups[pg].pids)
      modifies this
      ensures numSamples == |samples|
      ensures forall pg <- procInfo ::
        pg in groups && groups[pg] == Processed(patterns, pg, old(groups)[pg].pids, samples, |samples|)
    {
      hide Sound, Averaged, TakenAll;
      numSamples := |samples|;
      for i := 0 to |samples|
        invariant numSamples == |samples|
        invariant forall pg <- procInfo ::
          pg in groups && groups[pg] == Processed(patterns, pg, old(groups)[pg].pids, samples, i)
      {
        UpdateAvg(i);
        for k := 0 to |procInfo|
          invariant numSamples == |samples|
          invariant forall pg <- procInfo :: pg in groups
          invariant forall j :: 0 <= j < |procInfo| ==>
            var pg, g := procInfo[j], groups[procInfo[j]];
            var before := Averaged(Processed(patterns, pg, old(groups)[pg].pids, samples, i), i);
            g == if j < k then Processed(patterns, pg, old(groups)[pg].pids, samples, i + 1) else before
        {
          var pg := procInfo[k];
          ProcessedSound(patterns, pg, old(groups)[pg].pids, samples, i);
          AggregateProc(i, pg, samples[i]);
        }
      }
    }
  }

  // A group after the first n samples: at each the average is looked after first.
  function Processed(ps: Patterns, pg: string, pids: set<int>, samples: seq<seq<Proc>>, n: nat): (g: Group)
    requires n <= |samples|
    ensures Sound(g, |samples|)
  {
    if n == 0 then Fresh(pids) else
      var before := Averaged(Processed(ps, pg, pids, samples, n - 1), n - 1);
      TakenAll(ps, pg, before, |samples|, n - 1, samples[n - 1])
  }

  lemma ProcessedSound(ps: Patterns, pg: string, pids: set<int>, samples: seq<seq<Proc>>, i: nat)
    requires i < |samples|
    ensures Sound(Averaged(Processed(ps, pg, pids, samples, i), i), |samples|)
    ensures Processed(ps, pg, pids, samples, i + 1) ==
      TakenAll(ps, pg, Averaged(Processed(ps, pg, pids, samples, i), i), |samples|, i, samples[i])
  {
  }

  // After any number of samples the averages of a group account for the entries of its
  // threads, n div 30 averages have been emitted, and the entries still to come are zero.
  lemma {:induction false} ProcessedBalanced(ps: Patterns, pg: string, pids: set<int>, samples: seq<seq<Proc>>, n: nat)
    requires n <= |samples|
    ensures Balanced(Processed(ps, pg, pids, samples, n), |samples|, n, n / DEFAULT_NUM_SAMPLES)
  {
    hide Balanced, Sound, Averaged, TakenAll;
    if n == 0 {
      BalancedAtFirst(Fresh(pids), |samples|);
    } else {
      var g := Processed(ps, pg, pids, samples, n - 1);
      ProcessedBalanced(ps, pg, pids, samples, n - 1);
      BalancedEmits(g, |samples|, n - 1);
      ProcessedSound(ps, pg, pids, samples, n - 1);
      TakenAllGrows(ps, pg, Averaged(g, n - 1), |samples|, n - 1, samples[n - 1]);
      BalancedGrows(Averaged(g, n - 1), Processed(ps, pg, pids, samples, n), |samples|, n - 1, n / DEFAULT_NUM_SAMPLES);
    }
  }

  // What every thread name has at sample j once n samples are taken in: the figures of the
  // processes of that sample, judged by the process ids known at their turn, which go on growing
  // from sample to sample.
  lemma {:induction false} ProcessedEntries(ps: Patterns, pg: string, pids: set<int>, samples: seq<seq<Proc>>,
      n: nat, j: nat) returns (ids: seq<set<int>>, names: seq<set<string>>)
    requires j < n <= |samples|
    ensures var procs := samples[j];
      && |ids| == |names| == |procs| + 1
      && ids[0] == Processed(ps, pg, pids, samples, j).pids
      && ids[|procs|] == Processed(ps, pg, pids, samples, j + 1).pids
      && names[0] == Names(Processed(ps, pg, pids, samples, j).threads)
      && names[|procs|] == Names(Processed(ps, pg, pids, samples, j + 1).threads)
      && (forall k :: 0 <= k < |procs| ==> Grown(ps, pg, ids, names, procs, k))
      && forall name, m :: Entry(Processed(ps, pg, pids, samples, n).threads, name, m, j)
           == Figures(ps, pg, ids, procs, name, m, |procs|)
  {
    hide Sound, Entry, Names, Grown, Averaged, TakenAll, Balanced, Distinct;
    var g := Processed(ps, pg, pids, samples, n - 1);
    ProcessedSound(ps, pg, pids, samples, n - 1);
    ProcessedDistinct(ps, pg, pids, samples, n - 1);
    AveragedKeeps(g, n - 1);
    var ids', names' := TakenAllIs(ps, pg, Averaged(g, n - 1), |samples|, n - 1, samples[n - 1]);
    if j < n - 1 {
      ids, names := ProcessedEntries(ps, pg, pids, samples, n - 1, j);
    } else {
      ids, names := ids', names';
      ProcessedBalanced(ps, pg, pids, samples, j);
      forall name, m ensures Entry(g.threads, name, m, j) == 0.0 { NoEntryYet(g, |samples|, j, name, m); }
    }
  }

  lemma {:induction false} ProcessedDistinct(ps: Patterns, pg: string, pids: set<int>, samples: seq<seq<Proc>>, n: nat)
    requires n <= |samples|
    ensures Distinct(Processed(ps, pg, pids, samples, n).threads)
  {
    hide Sound, Entry, Names, Grown, Averaged, TakenAll;
    if n > 0 {
      var g := Processed(ps, pg, pids, samples, n - 1);
      ProcessedDistinct(ps, pg, pids, samples, n - 1);
      ProcessedSound(ps, pg, pids, samples, n - 1);
      AveragedKeeps(g, n - 1);
      var ids, names := TakenAllIs(ps, pg, Averaged(g, n - 1), |samples|, n - 1, samples[n - 1]);
    }
  }

  lemma AveragedKeeps(g: Group, i: nat)
    ensures Averaged(g, i).threads == g.threads && Averaged(g, i).pids == g.pids
  {
  }

  lemma NoEntryYet(g: Group, samples: nat, j: nat, name: string, m: Metric)
    requires j < samples && Balanced(g, samples, j, j / DEFAULT_NUM_SAMPLES)
    ensures Entry(g.threads, name, m, j) == 0.0
  {
    hide Accounted;
    assert Blank(g, j);
  }

  // In numbers: after n samples there are n div 30 averages; the first, times 30, is what the threads
  // have in the samples 0 to 28, the v-th what they have in 30 v - 1 to 30 v + 28, and the total is
  // what they have since.
  lemma AveragesAre(ps: Patterns, pg: string, pids: set<int>, samples: seq<seq<Proc>>, n: nat, m: Metric)
    requires n <= |samples|
    ensures var g, w := Processed(ps, pg, pids, samples, n), n / 30;
      && Sound(g, |samples|) && |g.Avg(m).data| == w
      && (forall v :: 0 <= v < w ==>
            g.Avg(m).data[v] * 30.0 == Columns(g, |samples|, m, if v == 0 then 0 else 30 * v - 1, 30 * v + 29))
      && g.Avg(m).total == Columns(g, |samples|, m, if w == 0 then 0 else 30 * w - 1, n)
  {
    hide Columns, Blank;
    ProcessedBalanced(ps, pg, pids, samples, n);
    var g := Processed(ps, pg, pids, samples, n);
    forall v | 0 <= v < n / 30
      ensures g.Avg(m).data[v] * 30.0 == Columns(g, |samples|, m, if v == 0 then 0 else 30 * v - 1, 30 * v + 29)
    {
      assert AverageOf(g, |samples|, m, v);
    }
  }

  lemma BalancedAtFirst(g: Group, samples: nat)
    requires g == Fresh(g.pids)
    ensures Balanced(g, samples, 0, 0)
  {
  }
}
