/** The test executor of `tools/crimson/crimson_bench_tool.py`: one case for every client
    number and thread number, retried and rolled back until an attempt passes or the retry
    limit is exceeded. How the threads of an attempt are interleaved, and whether the
    cluster starts, comes from outside. */
module CrimsonExecutor {
  import opened CrimsonAttempt

  // A set of threads run until none of them can go on: the tester's, or those of one warm-up.
  datatype Batch = Batch(config: Config, acts: seq<Action>) {
    function End(): Sys { Exec(config, Initial(config, 0, false), acts) }

    ghost predicate Complete() { Quiet(config, End()) }

    predicate Passes() { End().main == Passed }
  }

  // What happens in one attempt: the cluster does not start, or the warm-ups run and then the test.
  datatype Attempt = StartFails | Runs(warmups: seq<Batch>, test: Batch) {
    ghost predicate Complete() {
      Runs? ==> test.Complete() && forall i :: 0 <= i < |warmups| ==> warmups[i].Complete()
    }

    predicate Succeeds() {
      Runs? && test.Passes() && forall i :: 0 <= i < |warmups| ==> warmups[i].Passes()
    }
  }

  // A batch passes exactly when its failure flag was not raised, and an attempt succeeds exactly when
  // the cluster starts and no batch fails.
  lemma SucceedsIff(a: Attempt)
    requires a.Complete()
    ensures a.Succeeds() <==>
      a.Runs? && !a.test.End().failure && forall i :: 0 <= i < |a.warmups| ==> !a.warmups[i].End().failure
  {
    hide Quiet;
    if a.Runs? {
      PassesUnlessRaised(a.test);
      forall i | 0 <= i < |a.warmups| ensures a.warmups[i].Passes() <==> !a.warmups[i].End().failure {
        PassesUnlessRaised(a.warmups[i]);
      }
    }
  }

  lemma PassesUnlessRaised(b: Batch)
    requires b.Complete()
    ensures b.Passes() <==> !b.End().failure
  {
    hide Quiet, Exec, Initial;
    QuietIffOver(b.config, b.acts);
    AttemptIsSound(b.config, b.acts);
  }

  datatype Row = Row(client: int, thread: int)

  // How a row came about: the attempts it took, and the counter of finished tasks when it was taken.
  datatype Origin = Origin(attempts: nat, done: nat)

  datatype Ending = Finished | RetriesExceeded

  // The rows a finished run delivers, in order.
  function CasesOf(client: int, threads: seq<int>): seq<Row> {
    if threads == [] then [] else CasesOf(client, threads[..|threads| - 1]) + [Row(client, threads[|threads| - 1])]
  }

  function Cases(clients: seq<int>, threads: seq<int>): seq<Row> {
    if clients == [] then [] else Cases(clients[..|clients| - 1], threads) + CasesOf(clients[|clients| - 1], threads)
  }

  lemma {:induction false} CasesOfAt(client: int, threads: seq<int>, j: nat)
    requires j < |threads|
    ensures |CasesOf(client, threads)| == |threads|
    ensures CasesOf(client, threads)[j] == Row(client, threads[j])
  {
    var n := |threads| - 1;
    if j < n {
      CasesOfAt(client, threads[..n], j);
    } else {
      CasesOfLength(client, threads[..n]);
    }
  }

  lemma {:induction false} CasesOfLength(client: int, threads: seq<int>)
    ensures |CasesOf(client, threads)| == |threads|
  {
    if threads != [] { CasesOfLength(client, threads[..|threads| - 1]); }
  }

  lemma {:induction false} CasesLength(clients: seq<int>, threads: seq<int>)
    ensures |Cases(clients, threads)| == |clients| * |threads|
  {
    if clients != [] {
      var n := |clients| - 1;
      CasesLength(clients[..n], threads);
      CasesOfLength(clients[n], threads);
      assert |clients| * |threads| == n * |threads| + |threads| by { OneMore(n, |threads|); }
    }
  }

  lemma OneMore(n: nat, m: nat)
    ensures (n + 1) * m == n * m + m
  {
  }

  lemma {:induction false} Below(i: nat, n: nat, m: nat)
    requires i < n
    ensures i * m + m <= n * m
    decreases n
  {
    OneMore(n - 1, m);
    if i < n - 1 { Below(i, n - 1, m); }
  }

  // Clients times threads rows: the row of the i-th client number and the j-th thread number
  // stands at i * |threads| + j.
  lemma {:induction false} CaseAt(clients: seq<int>, threads: seq<int>, i: nat, j: nat)
    requires i < |clients| && j < |threads|
    ensures |Cases(clients, threads)| == |clients| * |threads|
    ensures var k := i * |threads| + j;
      k < |Cases(clients, threads)| && Cases(clients, threads)[k] == Row(clients[i], threads[j])
  {
    hide CasesOf;
    var n, m := |clients| - 1, |threads|;
    var before := Cases(clients[..n], threads);
    CasesLength(clients, threads);
    CasesLength(clients[..n], threads);
    CasesOfLength(clients[n], threads);
    Below(i, n + 1, m);
    if i < n {
      Below(i, n, m);
      CaseAt(clients[..n], threads, i, j);
    } else {
      CasesOfAt(clients[n], threads, j);
      assert i * m + j == |before| + j;
    }
  }

  // ---------- the code ----------

  class Environment {
    var done: nat
    var failureSignal: bool
    var testCaseId: nat

    constructor ()
      ensures done == 0 && !failureSignal && testCaseId == 0
    {
      done, failureSignal, testCaseId := 0, false, 0;
    }

    method GeneralPostProcessing()
      modifies this`failureSignal, this`done
      ensures !failureSignal && done == 0
    {
      failureSignal := false;
      done := 0;
    }

    // Starts and joins the threads; false if TestFailError is raised.
    method RunThreads(b: Batch) returns (ok: bool)
      requires done == 0 && !failureSignal
      requires b.Complete()
      modifies this`failureSignal, this`done
      ensures ok <==> b.Passes()
      ensures ok ==> !failureSignal && done == b.config.clients
      ensures !ok ==> failureSignal
    {
      QuietIffOver(b.config, b.acts);
      AttemptIsSound(b.config, b.acts);
      var s := Exec(b.config, Initial(b.config, done, failureSignal), b.acts);
      done, failureSignal := s.done, s.failure;
      ok := !failureSignal;
    }

    method BeforeRunCase(a: Attempt) returns (ok: bool)
      requires done == 0 && !failureSignal
      requires a.Complete()
      modifies this`failureSignal, this`done
      ensures ok <==> a.Runs? && forall i :: 0 <= i < |a.warmups| ==> a.warmups[i].Passes()
      ensures ok ==> !failureSignal && done == 0
    {
      if a.StartFails? {
        failureSignal := true;
        return false;
      }
      for i := 0 to |a.warmups|
        invariant done == 0 && !failureSignal
        invariant forall k :: 0 <= k < i ==> a.warmups[k].Passes()
      {
        var passed := RunThreads(a.warmups[i]);
        if !passed { return false; }
        done := 0;
      }
      ok := true;
    }
  }

  class TesterExecutor {
    var resultList: seq<Row>
    ghost var origins: seq<Origin>

    constructor ()
      ensures resultList == [] && origins == []
    {
      resultList, origins := [], [];
    }

    // One case: retries until an attempt passes, at most retryLimit times.
    method RunCase(env: Environment, client: int, thread: int, retryLimit: int, attempt: (nat, nat) -> Attempt)
      returns (r: Ending)
      requires env.done == 0 && !env.failureSignal
      requires AllComplete(attempt)
      modifies this, env
      ensures r == Finished <==> exists a: nat :: a <= retryLimit && attempt(old(env.testCaseId), a).Succeeds()
      ensures r == Finished ==>
        && env.done == 0 && !env.failureSignal && env.testCaseId == old(env.testCaseId) + 1
        && resultList == old(resultList) + [Row(client, thread)]
        && |origins| == |old(origins)| + 1 && origins == old(origins) + [origins[|old(origins)|]]
        && Fits(origins[|old(origins)|], old(env.testCaseId), retryLimit, attempt)
      ensures r == RetriesExceeded
        ==> resultList == old(resultList) && origins == old(origins) && env.testCaseId == old(env.testCaseId)
    {
      var retryCount := 0;
      var succeed := false;
      ghost var taken := Origin(0, 0);
      while !succeed
        invariant env.testCaseId == old(env.testCaseId) && resultList == old(resultList) && origins == old(origins)
        invariant !succeed ==> env.done == 0 && !env.failureSignal && retryCount <= AtLeastZero(retryLimit + 1)
        invariant !succeed ==> forall a: nat :: a < retryCount ==> !attempt(env.testCaseId, a).Succeeds()
        invariant succeed ==> Fits(taken, env.testCaseId, retryLimit, attempt)
        decreases !succeed, AtLeastZero(retryLimit + 1) - retryCount
      {
        if retryCount > retryLimit { return RetriesExceeded; }
        var a := attempt(env.testCaseId, retryCount);
        var ready := env.BeforeRunCase(a);
        var passed := false;
        if ready { passed := env.RunThreads(a.test); }
        if passed {
          succeed := true;
          taken := Origin(retryCount + 1, env.done);
        } else {
          retryCount := retryCount + 1;
          env.GeneralPostProcessing();
        }
      }
      env.GeneralPostProcessing();
      env.testCaseId := env.testCaseId + 1;
      resultList := resultList + [Row(client, thread)];
      origins := origins + [taken];
      r := Finished;
    }

    // Every case in turn; the run ends early when one exceeds the retry limit.
    method Run(env: Environment, clients: seq<int>, threads: seq<int>, retryLimit: int,
        attempt: (nat, nat) -> Attempt)
      returns (r: Ending)
      requires resultList == [] && origins == []
      requires env.done == 0 && !env.failureSignal && env.testCaseId == 0
      requires AllComplete(attempt)
      modifies this, env
      ensures env.testCaseId == |resultList| == |origins|
      ensures AllFit(origins, retryLimit, attempt)
      ensures resultList <= Cases(clients, threads)
      ensures r == Finished ==> resultList == Cases(clients, threads) && env.done == 0 && !env.failureSignal
      ensures r == RetriesExceeded ==>
        |resultList| < |Cases(clients, threads)| && forall a: nat ::
          a <= retryLimit ==> !attempt(|resultList|, a).Succeeds()
    {
      hide Fits, AllFit, AllComplete, Cases, CasesOf;
      NoOrigins(retryLimit, attempt);
      NoRows(threads);
      for i := 0 to |clients|
        invariant env.done == 0 && !env.failureSignal && env.testCaseId == |resultList| == |origins|
        invariant resultList == Cases(clients[..i], threads)
        invariant AllFit(origins, retryLimit, attempt)
      {
        NoRowsOf(clients[i], threads);
        for j := 0 to |threads|
          invariant env.done == 0 && !env.failureSignal && env.testCaseId == |resultList| == |origins|
          invariant resultList == Cases(clients[..i], threads) + CasesOf(clients[i], threads[..j])
          invariant AllFit(origins, retryLimit, attempt)
        {
          RowsSoFar(clients, threads, i, j);
          ghost var before := origins;
          var ending := RunCase(env, clients[i], threads[j], retryLimit, attempt);
          if ending == RetriesExceeded { return RetriesExceeded; }
          OneMoreOrigin(before, origins, retryLimit, attempt);
        }
        assert threads[..|threads|] == threads;
        NextClient(clients, threads, i);
      }
      assert clients[..|clients|] == clients;
      r := Finished;
    }
  }

  // The rows before the i-th client number and the j-th thread number, and the one after them.
  lemma RowsSoFar(clients: seq<int>, threads: seq<int>, i: nat, j: nat)
    requires i < |clients| && j < |threads|
    ensures CasesOf(clients[i], threads[..j + 1]) == CasesOf(clients[i], threads[..j]) + [Row(clients[i], threads[j])]
    ensures var rows := Cases(clients[..i], threads) + CasesOf(clients[i], threads[..j]);
      rows <= Cases(clients, threads) && |rows| < |Cases(clients, threads)|
  {
    assert threads[..j + 1][..j] == threads[..j];
    CasesOfGrow(clients[i], threads, j + 1);
    CasesGrow(clients, threads, i + 1);
    assert clients[..i + 1][..i] == clients[..i];
  }

  lemma {:induction false} CasesOfGrow(client: int, threads: seq<int>, j: nat)
    requires j <= |threads|
    ensures CasesOf(client, threads[..j]) <= CasesOf(client, threads)
  {
    if j < |threads| {
      var n := |threads| - 1;
      assert threads[..n][..j] == threads[..j];
      CasesOfGrow(client, threads[..n], j);
    } else {
      assert threads[..j] == threads;
    }
  }

  lemma {:induction false} CasesGrow(clients: seq<int>, threads: seq<int>, i: nat)
    requires i <= |clients|
    ensures Cases(clients[..i], threads) <= Cases(clients, threads)
  {
    if i < |clients| {
      var n := |clients| - 1;
      assert clients[..n][..i] == clients[..i];
      CasesGrow(clients[..n], threads, i);
    } else {
      assert clients[..i] == clients;
    }
  }

  lemma NoRows(threads: seq<int>)
    ensures Cases([], threads) == []
  {
  }

  lemma NoRowsOf(client: int, threads: seq<int>)
    ensures CasesOf(client, threads[..0]) == []
  {
  }

  lemma NextClient(clients: seq<int>, threads: seq<int>, i: nat)
    requires i < |clients|
    ensures Cases(clients[..i + 1], threads) == Cases(clients[..i], threads) + CasesOf(clients[i], threads)
  {
    assert clients[..i + 1][..i] == clients[..i];
  }

  ghost predicate AllComplete(attempt: (nat, nat) -> Attempt) {
    forall k: nat, a: nat :: attempt(k, a).Complete()
  }

  ghost predicate AllFit(origins: seq<Origin>, retryLimit: int, attempt: (nat, nat) -> Attempt) {
    forall k: nat :: k < |origins| ==> Fits(origins[k], k, retryLimit, attempt)
  }

  lemma NoOrigins(retryLimit: int, attempt: (nat, nat) -> Attempt)
    ensures AllFit([], retryLimit, attempt)
  {
  }

  lemma OneMoreOrigin(before: seq<Origin>, now: seq<Origin>, retryLimit: int, attempt: (nat, nat) -> Attempt)
    requires |now| == |before| + 1 && now[..|before|] == before && AllFit(before, retryLimit, attempt)
    requires Fits(now[|before|], |before|, retryLimit, attempt)
    ensures AllFit(now, retryLimit, attempt)
  {
    forall k: nat | k < |before| ensures Fits(now[k], k, retryLimit, attempt) { assert now[k] == before[k]; }
  }

  // A row comes from the first attempt at its case that succeeds, within the retry limit;
  // every client task of that attempt had then counted itself.
  ghost predicate Fits(o: Origin, k: nat, retryLimit: int, attempt: (nat, nat) -> Attempt) {
    && 1 <= o.attempts <= retryLimit + 1
    && attempt(k, o.attempts - 1).Succeeds()
    && o.done == attempt(k, o.attempts - 1).test.config.clients
    && forall a: nat :: a < o.attempts - 1 ==> !attempt(k, a).Succeeds()
  }
}
