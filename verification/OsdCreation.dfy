/** OSD creation in `cluster/ceph.py`, `make_osds`: one thread for every host and device
    brings an OSD up; threads are joined and post-processed first in, first out, so that
    only a bounded number is unjoined. That a thread's post-processing raises is decided
    from outside. */
module OsdCreation {

  datatype Thread = Thread(host: nat, dev: nat, osdnum: nat)

  // What the method does with its threads, in order; threads are numbered by creation.
  datatype Event = Start(k: nat) | Join(k: nat) | Post(k: nat)

  function Starts(log: seq<Event>): nat {
    if log == [] then 0 else Starts(log[..|log| - 1]) + if log[|log| - 1].Start? then 1 else 0
  }

  function Joins(log: seq<Event>): nat {
    if log == [] then 0 else Joins(log[..|log| - 1]) + if log[|log| - 1].Join? then 1 else 0
  }

  function Posts(log: seq<Event>): nat {
    if log == [] then 0 else Posts(log[..|log| - 1]) + if log[|log| - 1].Post? then 1 else 0
  }

  // Whether e may come next: threads start, are joined and post-processed in the order of
  // their numbers, only a started thread is joined, only a joined one post-processed, none
  // starts while `limit` of them are unjoined, and before all `total` of them are started none
  // is joined while fewer are.
  predicate Allowed(log: seq<Event>, e: Event, limit: int, total: nat) {
    match e
    case Start(k) => k == Starts(log) && Starts(log) - Joins(log) < limit
    case Join(k) => k == Joins(log) && k < Starts(log) && (Starts(log) < total ==> Starts(log) - Joins(log) == limit)
    case Post(k) => k == Posts(log) && k < Joins(log)
  }

  predicate Orderly(log: seq<Event>, limit: int, total: nat) {
    log == [] || (Orderly(log[..|log| - 1], limit, total) && Allowed(log[..|log| - 1], log[|log| - 1], limit, total))
  }

  // In an orderly log at most `limit` threads are unjoined at any time, and none is joined
  // before it is started or post-processed before it is joined.
  lemma {:induction false} LiveAtMost(log: seq<Event>, limit: int, total: nat, n: nat)
    requires limit >= 0 && Orderly(log, limit, total) && n <= |log|
    ensures Orderly(log[..n], limit, total)
    ensures 0 <= Starts(log[..n]) - Joins(log[..n]) <= limit
    ensures Posts(log[..n]) <= Joins(log[..n])
  {
    if n == |log| {
      assert log[..n] == log;
      if n > 0 {
        var before := log[..n - 1];
        LiveAtMost(before, limit, total, n - 1);
        assert before[..n - 1] == before;
      }
    } else {
      assert log[..|log| - 1][..n] == log[..n];
      LiveAtMost(log[..|log| - 1], limit, total, n);
    }
  }

  // Every thread that was joined was joined exactly once, and likewise for the other events.
  lemma {:induction false} OnceEach(log: seq<Event>, limit: int, total: nat, k: nat)
    requires Orderly(log, limit, total)
    ensures multiset(log)[Start(k)] == if k < Starts(log) then 1 else 0
    ensures multiset(log)[Join(k)] == if k < Joins(log) then 1 else 0
    ensures multiset(log)[Post(k)] == if k < Posts(log) then 1 else 0
  {
    if log != [] {
      OnceEach(log[..|log| - 1], limit, total, k);
      assert log == log[..|log| - 1] + [log[|log| - 1]];
    }
  }

  // OSD numbers count hosts first, then devices.
  predicate Numbered(threads: seq<Thread>, hosts: nat, perNode: nat) {
    forall k :: 0 <= k < |threads| ==>
      threads[k].osdnum == k && threads[k].host < hosts && threads[k].dev < perNode
      && k == threads[k].host * perNode + threads[k].dev
  }

  // Every host and device has its thread.
  lemma EveryDevice(threads: seq<Thread>, hosts: nat, perNode: nat, h: nat, d: nat)
    requires Numbered(threads, hosts, perNode) && |threads| == hosts * perNode && h < hosts && d < perNode
    ensures 0 <= h * perNode + d < |threads| && threads[h * perNode + d] == Thread(h, d, h * perNode + d)
  {
    var k := h * perNode + d;
    RowMajor(h, d, hosts, perNode);
    var t := threads[k];
    Digits(h, d, t.host, t.dev, perNode);
  }

  lemma RowMajor(h: nat, d: nat, hosts: nat, m: nat)
    requires h < hosts && d < m
    ensures h * m + d < hosts * m
  {
    AtLeast(hosts, h + 1, m);
  }

  lemma AtLeast(x: nat, y: nat, m: nat)
    requires x >= y
    ensures x * m >= y * m && (y + 1) * m == y * m + m
  {
    assert x * m == y * m + (x - y) * m;
  }

  lemma Digits(h: nat, d: nat, h': nat, d': nat, m: nat)
    requires d < m && d' < m && h * m + d == h' * m + d'
    ensures h == h' && d == d'
  {
    if h < h' { AtLeast(h', h + 1, m); AtLeast(h, h, m); }
    if h' < h { AtLeast(h, h' + 1, m); AtLeast(h', h', m); }
  }

  datatype Outcome = Done | Failed(k: nat)

  // `parallelCreates` is 0 when the setting is absent.
  method MakeOsds(hosts: nat, perNode: nat, parallelCreates: int, fails: nat -> bool)
    returns (r: Outcome, threadList: seq<Thread>, log: seq<Event>)
    ensures Orderly(log, Limit(hosts, perNode, parallelCreates), hosts * perNode)
    ensures parallelCreates >= 1 ==> forall n :: 0 <= n <= |log| ==>
      Starts(log[..n]) - Joins(log[..n]) <= parallelCreates
    ensures parallelCreates >= 1 ==> forall n :: 0 <= n < |log| && log[n].Join? ==>
      Starts(log[..n]) == hosts * perNode || Starts(log[..n]) - Joins(log[..n]) == parallelCreates
    ensures parallelCreates == 0 ==> forall n :: 0 <= n < |log| && log[n].Join? ==> Starts(log[..n]) == hosts * perNode
    ensures Starts(log) == |threadList| && Numbered(threadList, hosts, perNode)
    ensures r == Done ==> |threadList| == hosts * perNode == Joins(log) == Posts(log)
    ensures r == Done ==> forall k: nat :: k < hosts * perNode ==> !fails(k)
    ensures r.Failed? ==> fails(r.k) && Joins(log) == r.k + 1 && Posts(log) == r.k
    ensures r.Failed? ==> forall k: nat :: k < r.k ==> !fails(k)
  {
    hide Orderly, Starts, Joins, Posts, Numbered, Limit;
    LimitIs(hosts, perNode, parallelCreates);
    NoEvents(Limit(hosts, perNode, parallelCreates), hosts, perNode);
    var total := hosts * perNode;
    var maxParallelCreates := perNode * hosts;
    if parallelCreates != 0 { maxParallelCreates := parallelCreates; }
    ghost var limit := Limit(hosts, perNode, parallelCreates);
    r := Done;
    threadList, log := [], [];
    var osdnum, threadsFinished := 0, 0;
    for host := 0 to hosts
      invariant osdnum == |threadList| == host * perNode && Numbered(threadList, hosts, perNode)
      invariant Underway(log, limit, total, |threadList|, threadsFinished)
      invariant forall k: nat :: k < threadsFinished ==> !fails(k)
      invariant threadsFinished <= |threadList| && |threadList| - threadsFinished < limit
    {
      for dev := 0 to perNode
        invariant osdnum == |threadList| == host * perNode + dev && Numbered(threadList, hosts, perNode)
        invariant Underway(log, limit, total, |threadList|, threadsFinished)
        invariant forall k: nat :: k < threadsFinished ==> !fails(k)
        invariant threadsFinished <= |threadList| && |threadList| - threadsFinished < limit
      {
        RowMajor(host, dev, hosts, perNode);
        UnderwayMore(log, Start(osdnum), limit, total, |threadList|, threadsFinished);
        log := log + [Start(osdnum)];
        NumberedMore(threadList, host, dev, hosts, perNode);
        threadList := threadList + [Thread(host, dev, osdnum)];
        var activeThreadCount := |threadList| - threadsFinished;
        if activeThreadCount >= maxParallelCreates {
          var ok;
          ok, log := Collect(log, threadsFinished, fails, limit, total, |threadList|);
          if !ok {
            AsConfigured(log, hosts, perNode, parallelCreates);
            return Failed(threadsFinished), threadList, log;
          }
          threadsFinished := threadsFinished + 1;
        }
        osdnum := osdnum + 1;
      }
      AtLeast(host + 1, host, perNode);
    }
    while threadsFinished < |threadList|
      invariant Underway(log, limit, total, |threadList|, threadsFinished)
      invariant threadsFinished <= |threadList|
      invariant forall k: nat :: k < threadsFinished ==> !fails(k)
    {
      var ok;
      ok, log := Collect(log, threadsFinished, fails, limit, total, |threadList|);
      if !ok {
        AsConfigured(log, hosts, perNode, parallelCreates);
        return Failed(threadsFinished), threadList, log;
      }
      threadsFinished := threadsFinished + 1;
    }
    AsConfigured(log, hosts, perNode, parallelCreates);
  }

  // What the limit says of every moment of the log.
  lemma Within(log: seq<Event>, limit: int, total: nat)
    requires limit >= 0 && Orderly(log, limit, total)
    ensures forall n :: 0 <= n <= |log| ==> Starts(log[..n]) - Joins(log[..n]) <= limit
    ensures forall n :: 0 <= n < |log| && log[n].Join? ==>
      Starts(log[..n]) >= total || Starts(log[..n]) - Joins(log[..n]) == limit
  {
    hide Starts, Joins, Posts;
    forall n | 0 <= n <= |log|
      ensures Starts(log[..n]) - Joins(log[..n]) <= limit && Orderly(log[..n], limit, total)
    {
      LiveAtMost(log, limit, total, n);
    }
    forall n | 0 <= n < |log| && log[n].Join?
      ensures Starts(log[..n]) >= total || Starts(log[..n]) - Joins(log[..n]) == limit
    {
      assert Orderly(log[..n + 1], limit, total);
      assert log[..n + 1][..n] == log[..n];
    }
  }

  // And what the setting says.
  lemma AsConfigured(log: seq<Event>, hosts: nat, perNode: nat, parallelCreates: int)
    requires Orderly(log, Limit(hosts, perNode, parallelCreates), hosts * perNode) && Starts(log) <= hosts * perNode
    ensures parallelCreates >= 1 ==> forall n :: 0 <= n <= |log| ==>
      Starts(log[..n]) - Joins(log[..n]) <= parallelCreates
    ensures parallelCreates >= 1 ==> forall n :: 0 <= n < |log| && log[n].Join? ==>
      Starts(log[..n]) == hosts * perNode || Starts(log[..n]) - Joins(log[..n]) == parallelCreates
    ensures parallelCreates == 0 ==> forall n :: 0 <= n < |log| && log[n].Join? ==> Starts(log[..n]) == hosts * perNode
  {
    hide Orderly, Starts, Joins;
    Within(log, Limit(hosts, perNode, parallelCreates), hosts * perNode);
    forall n | 0 <= n <= |log| ensures Starts(log[..n]) <= Starts(log) { StartsGrow(log, n); }
  }

  lemma {:induction false} StartsGrow(log: seq<Event>, n: nat)
    requires n <= |log|
    ensures Starts(log[..n]) <= Starts(log)
  {
    if n == |log| {
      assert log[..n] == log;
    } else {
      assert log[..|log| - 1][..n] == log[..n];
      StartsGrow(log[..|log| - 1], n);
    }
  }

  lemma NoEvents(limit: int, hosts: nat, perNode: nat)
    ensures Underway([], limit, hosts * perNode, 0, 0) && Numbered([], hosts, perNode)
  {
  }

  lemma NumberedMore(threads: seq<Thread>, host: nat, dev: nat, hosts: nat, perNode: nat)
    requires Numbered(threads, hosts, perNode) && host < hosts && dev < perNode && |threads| == host * perNode + dev
    ensures Numbered(threads + [Thread(host, dev, |threads|)], hosts, perNode)
  {
  }

  // The number of threads unjoined at once: the setting, or as many as there are OSDs, but
  // never less than one.
  function Limit(hosts: nat, perNode: nat, parallelCreates: int): int {
    var n := if parallelCreates != 0 then parallelCreates else perNode * hosts;
    if n < 1 then 1 else n
  }

  lemma LimitIs(hosts: nat, perNode: nat, parallelCreates: int)
    ensures var n := if parallelCreates != 0 then parallelCreates else perNode * hosts;
      Limit(hosts, perNode, parallelCreates) == if n < 1 then 1 else n
  {
  }

  predicate Underway(log: seq<Event>, limit: int, total: nat, started: nat, finished: nat) {
    Orderly(log, limit, total) && Starts(log) == started && Joins(log) == finished && Posts(log) == finished
  }

  lemma Next(log: seq<Event>, e: Event, limit: int, total: nat)
    requires Orderly(log, limit, total) && Allowed(log, e, limit, total)
    ensures var now := log + [e];
      && Orderly(now, limit, total)
      && Starts(now) == Starts(log) + (if e.Start? then 1 else 0)
      && Joins(now) == Joins(log) + (if e.Join? then 1 else 0)
      && Posts(now) == Posts(log) + (if e.Post? then 1 else 0)
  {
    assert (log + [e])[..|log|] == log;
  }

  lemma UnderwayMore(log: seq<Event>, e: Event, limit: int, total: nat, started: nat, finished: nat)
    requires Underway(log, limit, total, started, finished)
    requires e == Start(started) && started - finished < limit
    ensures Underway(log + [e], limit, total, started + 1, finished)
  {
    Next(log, e, limit, total);
  }

  // `thrd.join(...)` and `thrd.postprocess()`; false if that raises.
  method Collect(log: seq<Event>, k: nat, fails: nat -> bool, ghost limit: int, ghost total: nat,
      ghost started: nat)
    returns (ok: bool, after: seq<Event>)
    requires Underway(log, limit, total, started, k) && k < started && (started < total ==> started - k == limit)
    ensures ok <==> !fails(k)
    ensures ok ==> Underway(after, limit, total, started, k + 1)
    ensures !ok ==>
      Orderly(after, limit, total) && Starts(after) == started && Joins(after) == k + 1 && Posts(after) == k
  {
    after := log + [Join(k)];
    Next(log, Join(k), limit, total);
    ok := !fails(k);
    if ok {
      Next(after, Post(k), limit, total);
      after := after + [Post(k)];
    }
  }
}
