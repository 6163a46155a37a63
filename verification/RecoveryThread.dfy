/** The recovery test thread of `cluster/ceph.py`: a six-state machine that takes OSDs
    down and out, waits for the cluster to heal, brings them back and waits again. Remote
    commands act on an abstract cluster; health checks return arbitrary counts. */
module RecoveryThread {

  datatype Phase = Pre | Markdown | OsdOut | OsdIn | Post | Done

  // `background` tells the two thread classes apart.
  datatype Config = Config(osds: seq<nat>, repeat: bool, background: bool)

  const MAX_HEALTH_TRIES: nat := 60

  // The thread, its halt event and the cluster, as seen between two rounds of the run loop.
  datatype State = State(phase: Phase, outTries: nat, inTries: nat, halt: bool, callbacks: nat,
                         noup: bool, up: set<nat>, inside: set<nat>, populated: bool, startIo: bool)

  function Members(osds: seq<nat>): set<nat> {
    set o | o in osds
  }

  // One round: `ret` is what the health check returns, `stop` whether stoprequest is set.
  function Step(c: Config, s: State, ret: nat, stop: bool): State {
    match s.phase
    case Pre => s.(noup := true, phase := Markdown)
    case Markdown => s.(up := s.up - Members(c.osds), inside := s.inside - Members(c.osds), phase := OsdOut)
    case OsdOut =>
      if !c.background && s.outTries < MAX_HEALTH_TRIES && ret == 0 then s.(outTries := s.outTries + 1)
      else s.(populated := s.populated || c.background, noup := false,
              up := s.up + Members(c.osds), inside := s.inside + Members(c.osds), phase := OsdIn)
    case OsdIn =>
      var s' := s.(startIo := s.startIo || c.background);
      if s.inTries < MAX_HEALTH_TRIES && ret == 0 then s'.(inTries := s.inTries + 1)
      else s'.(phase := Post)
    case Post =>
      if stop then s.(halt := true)
      else if c.repeat then s.(outTries := 0, inTries := 0, phase := Markdown)
      else s.(phase := Done)
    case Done => s.(callbacks := s.callbacks + 1, halt := true)
  }

  // The state at the head of the loop after k rounds; a halted thread stays as it is.
  function After(c: Config, s: State, health: nat -> nat, stop: nat -> bool, k: nat): State {
    if k == 0 then s else
      var t := After(c, s, health, stop, k - 1);
      if t.halt then t else Step(c, t, health(k - 1), stop(k - 1))
  }

  predicate Fresh(s: State) {
    s.phase == Pre && s.outTries == 0 && s.inTries == 0 && !s.halt && s.callbacks == 0
  }

  predicate Restored(c: Config, s: State) {
    !s.noup && Members(c.osds) <= s.up && Members(c.osds) <= s.inside
  }

  // What every round keeps.
  predicate Consistent(c: Config, s: State) {
    && s.outTries <= MAX_HEALTH_TRIES && s.inTries <= MAX_HEALTH_TRIES
    && (s.phase in {OsdIn, Post, Done} ==> Restored(c, s) && (c.background ==> s.populated))
    && (s.halt ==> s.phase in {Post, Done})
    && s.callbacks == if s.halt && s.phase == Done then 1 else 0
  }

  lemma OpeningKeeps(c: Config, s: State, ret: nat, stop: bool)
    requires Consistent(c, s) && !s.halt && s.phase in {Pre, Markdown}
    ensures Consistent(c, Step(c, s, ret, stop))
  {
    hide Members;
  }

  lemma WaitingKeeps(c: Config, s: State, ret: nat, stop: bool)
    requires Consistent(c, s) && !s.halt && s.phase in {OsdOut, OsdIn}
    ensures Consistent(c, Step(c, s, ret, stop))
  {
    hide Members;
  }

  lemma ClosingKeeps(c: Config, s: State, ret: nat, stop: bool)
    requires Consistent(c, s) && !s.halt && s.phase in {Post, Done}
    ensures Consistent(c, Step(c, s, ret, stop))
  {
    hide Members;
  }

  lemma StepKeeps(c: Config, s: State, ret: nat, stop: bool)
    requires Consistent(c, s) && !s.halt
    ensures Consistent(c, Step(c, s, ret, stop))
  {
    hide Consistent, Step;
    match s.phase {
      case Pre => OpeningKeeps(c, s, ret, stop);
      case Markdown => OpeningKeeps(c, s, ret, stop);
      case OsdOut => WaitingKeeps(c, s, ret, stop);
      case OsdIn => WaitingKeeps(c, s, ret, stop);
      case Post => ClosingKeeps(c, s, ret, stop);
      case Done => ClosingKeeps(c, s, ret, stop);
    }
  }

  // Whatever the health checks return and however often the test repeats: when the loop
  // has ended, noup is unset, every OSD of the test is up and in again, and the callback
  // has run once if the thread ended in Done and not at all if it ended in Post.
  lemma {:induction false} EndsRestored(c: Config, s: State, health: nat -> nat, stop: nat -> bool, k: nat)
    requires Fresh(s)
    ensures var t := After(c, s, health, stop, k);
      && Consistent(c, t)
      && (t.halt ==> Restored(c, t) && t.phase in {Post, Done} && t.callbacks == if t.phase == Done then 1 else 0)
  {
    if k > 0 {
      EndsRestored(c, s, health, stop, k - 1);
      var t := After(c, s, health, stop, k - 1);
      if !t.halt { StepKeeps(c, t, health(k - 1), stop(k - 1)); }
    }
  }

  // ---------- how long the loop runs ----------

  // Rounds left in the states before Post, by state and retry counters.
  function ToPost(c: Config, s: State): nat
    requires s.outTries <= MAX_HEALTH_TRIES && s.inTries <= MAX_HEALTH_TRIES
  {
    var out := if c.background then 1 else MAX_HEALTH_TRIES - s.outTries + 1;
    var inn := MAX_HEALTH_TRIES - s.inTries + 1;
    match s.phase
    case Pre => 2 + out + inn
    case Markdown => 1 + out + inn
    case OsdOut => out + inn
    case OsdIn => inn
    case Post => 0
    case Done => 0
  }

  // Rounds left when no repeat can happen.
  function Left(c: Config, s: State): nat
    requires s.outTries <= MAX_HEALTH_TRIES && s.inTries <= MAX_HEALTH_TRIES
  {
    if s.halt then 0 else ToPost(c, s) + if s.phase == Done then 1 else 2
  }

  // The retry counters are in range.
  predicate Counting(s: State) {
    s.outTries <= MAX_HEALTH_TRIES && s.inTries <= MAX_HEALTH_TRIES
  }

  lemma OpeningShortens(c: Config, s: State, ret: nat, stop: bool)
    requires Counting(s) && !s.halt && s.phase in {Pre, Markdown}
    ensures var t := Step(c, s, ret, stop); Counting(t) && Left(c, t) < Left(c, s)
  {
    hide Members;
  }

  lemma OutShortens(c: Config, s: State, ret: nat, stop: bool)
    requires Counting(s) && !s.halt && s.phase == OsdOut
    ensures var t := Step(c, s, ret, stop); Counting(t) && Left(c, t) < Left(c, s)
  {
    hide Members;
  }

  lemma InShortens(c: Config, s: State, ret: nat, stop: bool)
    requires Counting(s) && !s.halt && s.phase == OsdIn
    ensures var t := Step(c, s, ret, stop); Counting(t) && Left(c, t) < Left(c, s)
  {
    hide Members;
  }

  lemma ClosingShortens(c: Config, s: State, ret: nat, stop: bool)
    requires Counting(s) && !s.halt && s.phase in {Post, Done} && (stop || !c.repeat)
    ensures var t := Step(c, s, ret, stop); Counting(t) && Left(c, t) < Left(c, s)
  {
    hide Members;
  }

  lemma StepShortens(c: Config, s: State, ret: nat, stop: bool)
    requires Consistent(c, s) && !s.halt && (stop || !c.repeat)
    ensures var t := Step(c, s, ret, stop); Consistent(c, t) && Left(c, t) < Left(c, s)
  {
    hide Step, Left, Restored;
    StepKeeps(c, s, ret, stop);
    match s.phase {
      case Pre => OpeningShortens(c, s, ret, stop);
      case Markdown => OpeningShortens(c, s, ret, stop);
      case OsdOut => OutShortens(c, s, ret, stop);
      case OsdIn => InShortens(c, s, ret, stop);
      case Post => ClosingShortens(c, s, ret, stop);
      case Done => ClosingShortens(c, s, ret, stop);
    }
  }

  // From the j-th round on no repeat can happen: then the loop ends within Left rounds.
  lemma {:induction false} HaltsWithin(c: Config, s: State, health: nat -> nat, stop: nat -> bool, j: nat, k: nat)
    requires Fresh(s) && forall i :: j <= i ==> stop(i) || !c.repeat
    ensures var t := After(c, s, health, stop, j);
      Consistent(c, t) && var u := After(c, s, health, stop, j + k);
      Consistent(c, u) && (u.halt || Left(c, u) + k <= Left(c, t))
  {
    hide Step, Left, Restored;
    EndsRestored(c, s, health, stop, j);
    if k > 0 {
      HaltsWithin(c, s, health, stop, j, k - 1);
      var u := After(c, s, health, stop, j + k - 1);
      if !u.halt { StepShortens(c, u, health(j + k - 1), stop(j + k - 1)); }
    }
  }

  // Without repeat the blocking loop ends after at most 126 rounds, the background loop after 66.
  lemma RoundsBound(c: Config, s: State, health: nat -> nat, stop: nat -> bool)
    requires Fresh(s) && !c.repeat
    ensures After(c, s, health, stop, if c.background then 66 else 126).halt
  {
    HaltsWithin(c, s, health, stop, 0, if c.background then 66 else 126);
  }

  // stoprequest is set from round j on.
  ghost predicate SetFrom(stop: nat -> bool, j: nat) {
    forall i: nat :: j <= i ==> stop(i)
  }

  // With stoprequest set from the j-th round on, the loop ends at most 126 rounds later, repeat or not.
  lemma StopHalts(c: Config, s: State, health: nat -> nat, stop: nat -> bool, j: nat)
    requires Fresh(s) && SetFrom(stop, j)
    ensures After(c, s, health, stop, j + 126).halt
  {
    HaltsWithin(c, s, health, stop, j, 126);
    LeftBound(c, After(c, s, health, stop, j));
  }

  lemma LeftBound(c: Config, s: State)
    requires s.outTries <= MAX_HEALTH_TRIES && s.inTries <= MAX_HEALTH_TRIES
    ensures Left(c, s) <= 126
  {
  }

  // The bound is exact: with checks that always return 0 and no stop, the blocking loop needs all 126.
  lemma {:induction false} QuietRun(c: Config, s: State, k: nat)
    requires Fresh(s) && !c.repeat && !c.background && k <= 125
    ensures var t := After(c, s, _ => 0, _ => false, k);
      && !t.halt
      && (if k == 0 then t.phase == Pre && t.outTries == 0 && t.inTries == 0
          else if k == 1 then t.phase == Markdown && t.outTries == 0 && t.inTries == 0
          else if k <= 62 then t.phase == OsdOut && t.outTries == k - 2 && t.inTries == 0
          else if k <= 123 then t.phase == OsdIn && t.inTries == k - 63
          else if k == 124 then t.phase == Post else t.phase == Done)
  {
    if k > 0 { QuietRun(c, s, k - 1); }
  }

  // ---------- which round is which ----------

  // The health check is asked n times from round k on: until it does not return 0, or for the
  // 61st time.
  ghost predicate Asks(health: nat -> nat, k: nat, n: nat) {
    && 1 <= n <= 61
    && (forall i: nat :: k <= i < k + n - 1 ==> health(i) == 0)
    && (n == 61 || health(k + n - 1) != 0)
  }

  // There always is such a number.
  lemma {:induction false} AsksSome(health: nat -> nat, k: nat, before: nat) returns (n: nat)
    requires before <= 60 && forall i: nat :: k <= i < k + before ==> health(i) == 0
    ensures Asks(health, k, n)
    decreases 60 - before
  {
    if before == 60 || health(k + before) != 0 {
      n := before + 1;
    } else {
      n := AsksSome(health, k, before + 1);
    }
  }

  lemma Next(c: Config, s: State, health: nat -> nat, stop: nat -> bool, k: nat)
    requires !After(c, s, health, stop, k).halt
    ensures After(c, s, health, stop, k + 1) == Step(c, After(c, s, health, stop, k), health(k), stop(k))
  {
    hide Step;
  }

  // In `osdout` the blocking class leaves the cluster as it is while the check returns 0, at most 60 times.
  lemma {:induction false} OutWaits(c: Config, s: State, health: nat -> nat, stop: nat -> bool, k: nat, n: nat, i: nat)
    requires !c.background && Asks(health, k, n) && k <= i < k + n
    requires var t := After(c, s, health, stop, k); t.phase == OsdOut && t.outTries == 0 && !t.halt
    ensures After(c, s, health, stop, i) == After(c, s, health, stop, k).(outTries := i - k)
  {
    hide Members, After;
    if i > k {
      OutWaits(c, s, health, stop, k, n, i - 1);
      Next(c, s, health, stop, i - 1);
    }
  }

  // In `osdin` both classes do, once the background class has set the start event.
  lemma {:induction false} InWaits(c: Config, s: State, health: nat -> nat, stop: nat -> bool, k: nat, n: nat, i: nat)
    requires Asks(health, k, n) && k < i < k + n
    requires var t := After(c, s, health, stop, k); t.phase == OsdIn && t.inTries == 0 && !t.halt
    ensures var t := After(c, s, health, stop, k);
      After(c, s, health, stop, i) == t.(inTries := i - k, startIo := t.startIo || c.background)
    decreases i
  {
    hide Members, After;
    if i > k + 1 { InWaits(c, s, health, stop, k, n, i - 1); }
    Next(c, s, health, stop, i - 1);
  }

  // `markdown` takes one round and leaves the counters.
  lemma Breaks(c: Config, s: State, health: nat -> nat, stop: nat -> bool, k: nat)
    requires var t := After(c, s, health, stop, k); t.phase == Markdown && !t.halt
    ensures var t, u := After(c, s, health, stop, k), After(c, s, health, stop, k + 1);
      && u == t.(phase := OsdOut, up := u.up, inside := u.inside)
      && u.up == t.up - Members(c.osds) && u.inside == t.inside - Members(c.osds)
  {
    hide Members, After;
    Next(c, s, health, stop, k);
  }

  // The last round in `osdout` brings the OSDs back, whether or not the cluster ever broke.
  lemma OutLeaves(c: Config, s: State, health: nat -> nat, stop: nat -> bool, k: nat, n: nat)
    requires if c.background then n == 1 else Asks(health, k, n)
    requires var t := After(c, s, health, stop, k); t.phase == OsdOut && t.outTries == 0 && !t.halt
    ensures var t, u := After(c, s, health, stop, k), After(c, s, health, stop, k + n);
      && u.phase == OsdIn && u.inTries == t.inTries && !u.halt && u.callbacks == t.callbacks && !u.noup
      && u.populated == (t.populated || c.background) && u.startIo == t.startIo
      && u.up == t.up + Members(c.osds) && u.inside == t.inside + Members(c.osds)
  {
    hide Members, After;
    if !c.background { OutWaits(c, s, health, stop, k, n, k + n - 1); }
    Next(c, s, health, stop, k + n - 1);
  }

  lemma InLeaves(c: Config, s: State, health: nat -> nat, stop: nat -> bool, k: nat, n: nat)
    requires Asks(health, k, n)
    requires var t := After(c, s, health, stop, k); t.phase == OsdIn && t.inTries == 0 && !t.halt
    ensures var t, u := After(c, s, health, stop, k), After(c, s, health, stop, k + n);
      && u.phase == Post && !u.halt && u.callbacks == t.callbacks && u.up == t.up && u.inside == t.inside
      && u.noup == t.noup && u.populated == t.populated && u.startIo == (t.startIo || c.background)
  {
    hide Members, After;
    if n > 1 { InWaits(c, s, health, stop, k, n, k + n - 1); }
    Next(c, s, health, stop, k + n - 1);
  }

  // `post`: a stop request halts the thread, else it starts over with its counters at 0, else it
  // calls back and halts.
  lemma Closes(c: Config, s: State, health: nat -> nat, stop: nat -> bool, k: nat)
    requires var t := After(c, s, health, stop, k); t.phase == Post && !t.halt
    ensures var t, u := After(c, s, health, stop, k), After(c, s, health, stop, k + 1);
      if stop(k) then u == t.(halt := true)
      else if c.repeat then u == t.(phase := Markdown, outTries := 0, inTries := 0)
      else u == t.(phase := Done) && After(c, s, health, stop, k + 2) == u.(callbacks := t.callbacks + 1, halt := true)
  {
    hide Members, After;
    Next(c, s, health, stop, k);
    if !stop(k) && !c.repeat { Next(c, s, health, stop, k + 1); }
  }

  // One pass of the test in full, from `markdown` at round k. The blocking class waits n rounds for
  // the cluster to break, the background class takes one; both wait m rounds for backfill, and end
  // the pass as above.
  lemma OnePass(c: Config, s: State, health: nat -> nat, stop: nat -> bool, k: nat, n: nat, m: nat)
    requires var t := After(c, s, health, stop, k);
      t.phase == Markdown && t.outTries == 0 && t.inTries == 0 && !t.halt
    requires if c.background then n == 1 else Asks(health, k + 1, n)
    requires Asks(health, k + 1 + n, m)
    ensures forall i :: k < i <= k + n ==>
      var t := After(c, s, health, stop, i); t.phase == OsdOut && t.outTries == i - k - 1 && !t.halt
    ensures forall i :: k + n < i <= k + n + m ==>
      var t := After(c, s, health, stop, i); t.phase == OsdIn && t.inTries == i - k - n - 1 && !t.halt
    ensures var t, u := After(c, s, health, stop, k), After(c, s, health, stop, k + 1 + n + m);
      && u.phase == Post && !u.halt && u.callbacks == t.callbacks && !u.noup
      && u.populated == (t.populated || c.background) && u.startIo == (t.startIo || c.background)
      && u.up == t.up + Members(c.osds) && u.inside == t.inside + Members(c.osds)
  {
    hide Members, After, Step, Asks;
    Breaks(c, s, health, stop, k);
    forall i | k < i <= k + n
      ensures var t := After(c, s, health, stop, i); t.phase == OsdOut && t.outTries == i - k - 1 && !t.halt
    {
      if !c.background { OutWaits(c, s, health, stop, k + 1, n, i); }
    }
    OutLeaves(c, s, health, stop, k + 1, n);
    forall i | k + n < i <= k + n + m
      ensures var t := After(c, s, health, stop, i); t.phase == OsdIn && t.inTries == i - k - n - 1 && !t.halt
    {
      if i > k + n + 1 { InWaits(c, s, health, stop, k + 1 + n, m, i); }
    }
    InLeaves(c, s, health, stop, k + 1 + n, m);
    Undone(After(c, s, health, stop, k).up, Members(c.osds));
    Undone(After(c, s, health, stop, k).inside, Members(c.osds));
  }

  lemma Undone(x: set<nat>, y: set<nat>)
    ensures x - y + y == x + y
  {
  }

  // With checks that always return 0, no stop and no repeat, the rounds of the background loop.
  lemma QuietBackground(c: Config, s: State, k: nat)
    requires Fresh(s) && c.background && !c.repeat
    ensures var t := After(c, s, _ => 0, _ => false, k);
      && (k == 0 ==> t.phase == Pre)
      && (k == 1 ==> t.phase == Markdown)
      && (k == 2 ==> t.phase == OsdOut)
      && (3 <= k <= 63 ==> t.phase == OsdIn && t.inTries == k - 3)
      && (k == 64 ==> t.phase == Post)
      && (k == 65 ==> t.phase == Done)
      && (t.halt <==> k >= 66)
      && (t.callbacks == if k >= 66 then 1 else 0)
  {
    hide After, Step, Members;
    var none: nat -> nat, never: nat -> bool := _ => 0, _ => false;
    FromFresh(c, s, none, never);
    OnePass(c, s, none, never, 1, 1, 61);
    Closes(c, s, none, never, 64);
    EndsRestored(c, s, none, never, k);
    if k > 66 { Halted(c, s, none, never, 66, k); }
  }

  // With checks that never return 0, no stop and no repeat, both classes halt after six rounds.
  lemma DirectRun(c: Config, s: State, health: nat -> nat, k: nat)
    requires Fresh(s) && !c.repeat && forall i: nat :: health(i) != 0
    ensures var t := After(c, s, health, _ => false, k);
      && (t.halt <==> k >= 6) && (t.callbacks == if k >= 6 then 1 else 0)
      && (k < 6 ==> t.phase == [Pre, Markdown, OsdOut, OsdIn, Post, Done][k])
  {
    hide After, Step, Members;
    var never: nat -> bool := _ => false;
    FromFresh(c, s, health, never);
    OnePass(c, s, health, never, 1, 1, 1);
    Closes(c, s, health, never, 4);
    EndsRestored(c, s, health, never, k);
    if k > 6 { Halted(c, s, health, never, 6, k); }
  }

  lemma FromFresh(c: Config, s: State, health: nat -> nat, stop: nat -> bool)
    requires Fresh(s)
    ensures After(c, s, health, stop, 0) == s
    ensures After(c, s, health, stop, 1) == s.(noup := true, phase := Markdown)
  {
  }

  lemma {:induction false} Halted(c: Config, s: State, health: nat -> nat, stop: nat -> bool, j: nat, k: nat)
    requires j <= k && After(c, s, health, stop, j).halt
    ensures After(c, s, health, stop, k) == After(c, s, health, stop, j)
    decreases k
  {
    hide Step;
    if j < k { Halted(c, s, health, stop, j, k - 1); }
  }

  // With repeat, checks that always return 0 and no stop the loop never ends: after a pass of 124
  // rounds, or of 64 in the background, it is where it was, with the counters it had.
  lemma {:induction false} RepeatRun(c: Config, s: State, pass: nat)
    requires Fresh(s) && c.repeat
    ensures var t := After(c, s, _ => 0, _ => false, 1 + pass * if c.background then 64 else 124);
      t.phase == Markdown && t.outTries == 0 && t.inTries == 0 && !t.halt && t.callbacks == 0
  {
    hide After, Step, Members;
    var none: nat -> nat, never: nat -> bool := _ => 0, _ => false;
    if pass == 0 {
      FromFresh(c, s, none, never);
    } else {
      RepeatRun(c, s, pass - 1);
      var n := if c.background then 1 else 61;
      var k := 1 + (pass - 1) * if c.background then 64 else 124;
      OnePass(c, s, none, never, k, n, 61);
      Closes(c, s, none, never, k + 1 + n + 61);
    }
  }

  // ---------- the code ----------

  // What the remote commands change.
  class Cluster {
    var noup: bool
    var up: set<nat>
    var inside: set<nat>
    var populated: bool

    method SetNoup() modifies this`noup ensures noup { noup := true; }
    method UnsetNoup() modifies this`noup ensures !noup { noup := false; }
    method Down(o: nat) modifies this`up ensures up == old(up) - {o} { up := up - {o}; }
    method Up(o: nat) modifies this`up ensures up == old(up) + {o} { up := up + {o}; }
    method Out(o: nat) modifies this`inside ensures inside == old(inside) - {o} { inside := inside - {o}; }
    method In(o: nat) modifies this`inside ensures inside == old(inside) + {o} { inside := inside + {o}; }
    method MaybePopulateRecoveryPool() modifies this`populated ensures populated { populated := true; }
  }

  // RecoveryTestThreadBlocking and, with `background`, RecoveryTestThreadBackground.
  class RecoveryTestThread {
    const config: Config
    const cluster: Cluster
    var state: Phase
    var outhealthtries: nat
    var inhealthtries: nat
    var haltrequest: bool
    var startiorequest: bool
    var callbacks: nat

    constructor (config: Config, cluster: Cluster, halt: bool, startio: bool)
      ensures this.config == config && this.cluster == cluster
      ensures state == Pre && outhealthtries == 0 && inhealthtries == 0 && callbacks == 0
      ensures haltrequest == halt && startiorequest == startio
    {
      this.config, this.cluster := config, cluster;
      state, outhealthtries, inhealthtries, callbacks := Pre, 0, 0, 0;
      haltrequest, startiorequest := halt, startio;
    }

    ghost function Now(): State
      reads this, cluster
    {
      State(state, outhealthtries, inhealthtries, haltrequest, callbacks,
            cluster.noup, cluster.up, cluster.inside, cluster.populated, startiorequest)
    }

    method PreRound()
      requires state == Pre
      modifies this, cluster
      ensures Now() == Step(config, old(Now()), 0, false)
    {
      cluster.SetNoup();
      state := Markdown;
    }

    method MarkdownRound()
      requires state == Markdown
      modifies this, cluster
      ensures Now() == Step(config, old(Now()), 0, false)
    {
      hide Members;
      NoMembers(config.osds);
      for k := 0 to |config.osds|
        invariant cluster.up == old(cluster.up) - Members(config.osds[..k])
        invariant cluster.inside == old(cluster.inside) - Members(config.osds[..k])
        invariant Now() == old(Now()).(up := cluster.up, inside := cluster.inside)
      {
        cluster.Down(config.osds[k]);
        cluster.Out(config.osds[k]);
        OneMore(config.osds, k);
      }
      state := OsdOut;
    }

    lemma NoMembers(osds: seq<nat>)
      ensures Members(osds[..0]) == {} && osds[..|osds|] == osds
    {
    }

    lemma OneMore(osds: seq<nat>, k: nat)
      requires k < |osds|
      ensures Members(osds[..k + 1]) == Members(osds[..k]) + {osds[k]}
    {
      assert osds[..k + 1] == osds[..k] + [osds[k]];
    }

    lemma OutStep(c: Config, s: State, ret: nat)
      requires s.phase == OsdOut
      ensures !c.background && s.outTries < MAX_HEALTH_TRIES && ret == 0 ==>
        Step(c, s, ret, false) == s.(outTries := s.outTries + 1)
      ensures c.background || s.outTries >= MAX_HEALTH_TRIES || ret != 0 ==>
        Step(c, s, ret, false)
        == s.(populated := s.populated || c.background, noup := false,
              up := s.up + Members(c.osds), inside := s.inside + Members(c.osds), phase := OsdIn)
    {
    }

    method OsdOutRound(ret: nat)
      requires state == OsdOut
      modifies this, cluster
      ensures Now() == Step(config, old(Now()), ret, false)
    {
      hide Members, Step;
      OutStep(config, Now(), ret);
      if !config.background && outhealthtries < MAX_HEALTH_TRIES && ret == 0 {
        outhealthtries := outhealthtries + 1;
        return;
      }
      if config.background { cluster.MaybePopulateRecoveryPool(); }
      cluster.UnsetNoup();
      NoMembers(config.osds);
      for k := 0 to |config.osds|
        invariant cluster.up == old(cluster.up) + Members(config.osds[..k])
        invariant cluster.inside == old(cluster.inside) + Members(config.osds[..k])
        invariant Now() == old(Now()).(up := cluster.up, inside := cluster.inside, noup := false,
          populated := old(cluster.populated) || config.background)
      {
        cluster.Up(config.osds[k]);
        cluster.In(config.osds[k]);
        OneMore(config.osds, k);
      }
      state := OsdIn;
    }

    method OsdInRound(ret: nat)
      requires state == OsdIn
      modifies this
      ensures Now() == Step(config, old(Now()), ret, false)
    {
      if config.background { startiorequest := true; }
      if inhealthtries < MAX_HEALTH_TRIES && ret == 0 {
        inhealthtries := inhealthtries + 1;
        return;
      }
      state := Post;
    }

    method PostRound(stop: bool)
      requires state == Post
      modifies this
      ensures Now() == Step(config, old(Now()), 0, stop)
    {
      if stop {
        haltrequest := true;
        return;
      }
      if config.repeat {
        outhealthtries := 0;
        inhealthtries := 0;
        state := Markdown;
        return;
      }
      state := Done;
    }

    method DoneRound()
      requires state == Done
      modifies this
      ensures Now() == Step(config, old(Now()), 0, false)
    {
      callbacks := callbacks + 1;
      haltrequest := true;
    }

    // `self.states[self.state]()`
    method Round(ret: nat, stop: bool)
      modifies this, cluster
      ensures Now() == Step(config, old(Now()), ret, stop)
    {
      match state {
        case Pre => PreRound();
        case Markdown => MarkdownRound();
        case OsdOut => OsdOutRound(ret);
        case OsdIn => OsdInRound(ret);
        case Post => PostRound(stop);
        case Done => DoneRound();
      }
    }

    // `run`. The health checks and the event the other thread sets are read from outside:
    // health(k) and stop(k) are what round k sees. Where the test repeats, someone stops it.
    method Run(health: nat -> nat, stop: nat -> bool) returns (ghost rounds: nat)
      requires state == Pre && outhealthtries == 0 && inhealthtries == 0 && callbacks == 0
      requires config.repeat ==> exists j :: SetFrom(stop, j)
      modifies this, cluster
      ensures haltrequest && !cluster.noup && Members(config.osds) <= cluster.up
        && Members(config.osds) <= cluster.inside
      ensures state in {Post, Done} && callbacks == if state == Done then 1 else 0
      ensures !config.repeat ==> rounds <= if config.background then 66 else 126
    {
      hide Step, Consistent, Restored, Members;
      haltrequest := false;
      if config.background { startiorequest := false; }
      ghost var start := Now();
      var k := 0;
      ghost var bound := Deadline(config, start, health, stop);
      EndsRestored(config, start, health, stop, 0);
      while !haltrequest
        invariant Now() == After(config, start, health, stop, k)
        invariant k <= bound
        decreases bound - k
      {
        Unhalted(config, start, health, stop, k, bound);
        Round(health(k), stop(k));
        k := k + 1;
      }
      EndsRestored(config, start, health, stop, k);
      RestoredIs(config, Now());
      rounds := k;
    }
  }

  lemma RestoredIs(c: Config, s: State)
    requires Restored(c, s)
    ensures !s.noup && Members(c.osds) <= s.up && Members(c.osds) <= s.inside
  {
  }

  // A round at which the loop has surely ended.
  ghost function Deadline(c: Config, s: State, health: nat -> nat, stop: nat -> bool): (k: nat)
    requires Fresh(s) && (c.repeat ==> exists j :: SetFrom(stop, j))
    ensures After(c, s, health, stop, k).halt
    ensures !c.repeat ==> k == if c.background then 66 else 126
  {
    if !c.repeat then
      RoundsBound(c, s, health, stop);
      if c.background then 66 else 126
    else
      var j: nat :| SetFrom(stop, j);
      StopHalts(c, s, health, stop, j);
      j + 126
  }

  lemma {:induction false} Unhalted(c: Config, s: State, health: nat -> nat, stop: nat -> bool, k: nat, bound: nat)
    requires k <= bound && After(c, s, health, stop, bound).halt && !After(c, s, health, stop, k).halt
    ensures k < bound
  {
  }
}
