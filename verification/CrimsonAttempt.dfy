/** One attempt at a test case in `tools/crimson/crimson_bench_tool.py`: the tester starts
    its task threads and a failure detector and joins them all. The threads share a counter
    of finished tasks, incremented under a lock, and a failure flag. Every access to the
    two and every look at a process is one step; the threads take their steps in any order,
    and what a look returns is arbitrary. The warm-up runs work the same way. */
module CrimsonAttempt {

  // `clients` tasks count themselves as done, `others` do not; the detector expects
  // `clientNum` client processes and `osds` OSD processes.
  datatype Config = Config(clients: nat, others: nat, clientNum: nat, osds: nat, startLimit: int, timeLimit: int)

  // `Task.run`. What a thread has read travels in its state: whether its command finished
  // (`done`), whether it saw the failure flag, the counter it is about to increment.
  datatype TaskPc =
    | Unstarted | Check | Sleep | Launch | Poll | Look(done: bool)
    | Acquire(fail: bool) | Load(fail: bool) | Store(fail: bool, seen: nat) | Release(fail: bool)
    | Kill(done: bool) | Gone(done: bool)

  // `FailureDetect.run`
  datatype DetectorPc =
    | Idle | Startup(waited: nat) | Watch(time: nat) | Tick(time: nat)
    | LookClients(time: nat) | Closing(time: nat, left: nat) | Raise | Ended

  // `Tester.run`
  datatype MainPc = Start(k: nat) | StartDetector | Join(k: nat) | JoinDetector | CheckFailure | Failed | Passed

  datatype Sys = Sys(main: MainPc, tasks: seq<TaskPc>, det: DetectorPc, done: nat, failure: bool, lock: Option)

  datatype Option = None | Some(i: nat)

  // A step of the main thread; of task i, where `now` says that the wait or the command is
  // over; of the detector, which sees `n` processes.
  datatype Action = Main | Task(i: nat, now: bool) | Detector(n: nat)

  function All(c: Config): nat { c.clients + c.others }

  function MainStep(c: Config, s: Sys): Sys {
    match s.main
    case Start(k) =>
      if k < |s.tasks| then s.(tasks := s.tasks[k := Check], main := Start(k + 1)) else s.(main := StartDetector)
    case StartDetector => s.(det := Startup(0), main := Join(0))
    case Join(k) =>
      if k >= |s.tasks| then s.(main := JoinDetector)
      else if s.tasks[k].Gone? then s.(main := Join(k + 1)) else s
    case JoinDetector => if s.det == Ended then s.(main := CheckFailure) else s
    case CheckFailure => if s.failure then s.(main := Failed) else s.(main := Passed)
    case Failed => s
    case Passed => s
  }

  // Where a task goes after its loop: a client counts itself first.
  function AfterLoop(counts: bool, done: bool, fail: bool): TaskPc {
    if done && counts then Acquire(fail) else if fail then Kill(done) else Gone(done)
  }

  function TaskPcStep(counts: bool, pc: TaskPc, now: bool, done: nat, failure: bool, free: bool): TaskPc {
    match pc
    case Unstarted => pc
    case Check => if failure then Gone(false) else Sleep
    case Sleep => if now then Launch else Check
    case Launch => Poll
    case Poll => Look(now)
    case Look(d) => if !d && !failure then Poll else AfterLoop(counts, d, failure)
    case Acquire(f) => if free then Load(f) else pc
    case Load(f) => Store(f, done)
    case Store(f, seen) => Release(f)
    case Release(f) => if f then Kill(true) else Gone(true)
    case Kill(d) => Gone(d)
    case Gone(_) => pc
  }

  function TaskStep(c: Config, s: Sys, i: nat, now: bool): Sys
    requires i < |s.tasks|
  {
    var pc := s.tasks[i];
    s.(tasks := s.tasks[i := TaskPcStep(i < c.clients, pc, now, s.done, s.failure, s.lock == None)],
       done := if pc.Store? then pc.seen + 1 else s.done,
       lock := if pc.Acquire? && s.lock == None then Some(i) else if pc.Release? then None else s.lock)
  }

  function DetectorStep(c: Config, s: Sys, n: nat): Sys {
    match s.det
    case Idle => s
    case Startup(w) =>
      if n == c.clientNum then s.(det := Watch(0))
      else if w + 1 > c.startLimit then s.(det := Raise)
      else s.(det := Startup(w + 1))
    case Watch(t) => s.(det := if t < c.timeLimit && s.done != c.clientNum then Tick(t) else LookClients(t))
    case Tick(t) => s.(det := if n != c.osds then Raise else Watch(t + 1))
    case LookClients(t) => s.(det := Closing(t, n))
    case Closing(t, left) =>
      if t < c.timeLimit && left != 0 then s.(det := Closing(t + 1, n))
      else if left != 0 then s.(det := Raise)
      else s.(det := Ended)
    case Raise => s.(failure := true, det := Ended)
    case Ended => s
  }

  function Act(c: Config, s: Sys, a: Action): Sys {
    match a
    case Main => MainStep(c, s)
    case Task(i, now) => if i < |s.tasks| then TaskStep(c, s, i, now) else s
    case Detector(n) => DetectorStep(c, s, n)
  }

  function Exec(c: Config, s: Sys, acts: seq<Action>): Sys {
    if acts == [] then s else Act(c, Exec(c, s, acts[..|acts| - 1]), acts[|acts| - 1])
  }

  // The tester is built; the counter and the flag are as the environment left them.
  function Initial(c: Config, done: nat, failure: bool): Sys {
    Sys(Start(0), seq(All(c), _ => Unstarted), Idle, done, failure, None)
  }

  // ---------- what every interleaving keeps ----------

  // The task has added itself to the counter.
  predicate Counted(pc: TaskPc) {
    pc.Release? || (pc.Kill? && pc.done) || (pc.Gone? && pc.done)
  }

  predicate InLock(pc: TaskPc) { pc.Load? || pc.Store? || pc.Release? }

  // The task has seen the failure flag, or ended without its command.
  predicate SawFailure(pc: TaskPc) {
    match pc
    case Acquire(f) => f
    case Load(f) => f
    case Store(f, _) => f
    case Release(f) => f
    case Kill(_) => true
    case Gone(d) => !d
    case _ => false
  }

  function Count(tasks: seq<TaskPc>, n: nat): nat
    requires n <= |tasks|
  {
    if n == 0 then 0 else Count(tasks, n - 1) + if Counted(tasks[n - 1]) then 1 else 0
  }

  predicate Placed(c: Config, s: Sys, i: nat)
    requires i < |s.tasks|
  {
    var pc := s.tasks[i];
    && (InLock(pc) <==> s.lock == Some(i))
    && (pc.Acquire? || InLock(pc) ==> i < c.clients)
    && (pc.Store? ==> pc.seen == s.done)
    && (SawFailure(pc) ==> s.failure)
    && (s.main.Start? ==> (pc == Unstarted <==> i >= s.main.k))
    && (!s.main.Start? ==> pc != Unstarted)
    && (s.main.Join? && i < s.main.k ==> pc.Gone?)
    && (s.main in {JoinDetector, CheckFailure, Failed, Passed} ==> pc.Gone?)
  }

  predicate Inv(c: Config, s: Sys) {
    && |s.tasks| == All(c)
    && (forall i {:trigger Placed(c, s, i)} :: 0 <= i < |s.tasks| ==> Placed(c, s, i))
    && s.done == Count(s.tasks, c.clients)
    && (s.main.Start? ==> s.main.k <= |s.tasks|) && (s.main.Join? ==> s.main.k <= |s.tasks|)
    && (s.main.Start? || s.main == StartDetector <==> s.det == Idle)
    && (s.main in {CheckFailure, Failed, Passed} ==> s.det == Ended)
    && (s.main == Failed ==> s.failure) && (s.main == Passed ==> !s.failure)
    && (s.lock != None ==> s.lock.i < |s.tasks|)
  }

  lemma {:induction false} CountChange(tasks: seq<TaskPc>, i: nat, pc: TaskPc, n: nat)
    requires i < |tasks| && n <= |tasks|
    ensures Count(tasks[i := pc], n) == Count(tasks, n)
      + (if i < n && Counted(pc) then 1 else 0) - (if i < n && Counted(tasks[i]) then 1 else 0)
  {
    if n > 0 { CountChange(tasks, i, pc, n - 1); }
  }

  lemma {:induction false} NoneCounted(tasks: seq<TaskPc>, n: nat)
    requires n <= |tasks| && forall i :: 0 <= i < n ==> !Counted(tasks[i])
    ensures Count(tasks, n) == 0
  {
    if n > 0 { NoneCounted(tasks, n - 1); }
  }

  lemma {:induction false} AllCounted(tasks: seq<TaskPc>, n: nat)
    requires n <= |tasks| && forall i :: 0 <= i < n ==> Counted(tasks[i])
    ensures Count(tasks, n) == n
  {
    if n > 0 { AllCounted(tasks, n - 1); }
  }

  lemma InitialInv(c: Config)
    ensures Inv(c, Initial(c, 0, false))
  {
    NoneCounted(Initial(c, 0, false).tasks, c.clients);
  }

  lemma MainKeeps(c: Config, s: Sys)
    requires Inv(c, s)
    ensures Inv(c, MainStep(c, s))
  {
    var t := MainStep(c, s);
    if s.main.Start? && s.main.k < |s.tasks| {
      assert Placed(c, s, s.main.k);
      CountChange(s.tasks, s.main.k, Check, c.clients);
    }
    forall i {:trigger Placed(c, t, i)} | 0 <= i < |t.tasks| ensures Placed(c, t, i) {
      assert Placed(c, s, i);
    }
  }

  lemma TaskKeeps(c: Config, s: Sys, i: nat, now: bool)
    requires Inv(c, s) && i < |s.tasks|
    ensures Inv(c, TaskStep(c, s, i, now))
  {
    var t := TaskStep(c, s, i, now);
    assert Placed(c, s, i);
    CountChange(s.tasks, i, t.tasks[i], c.clients);
    forall j {:trigger Placed(c, t, j)} | 0 <= j < |t.tasks| ensures Placed(c, t, j) {
      assert Placed(c, s, j);
    }
  }

  lemma DetectorKeeps(c: Config, s: Sys, n: nat)
    requires Inv(c, s)
    ensures Inv(c, DetectorStep(c, s, n))
  {
    var t := DetectorStep(c, s, n);
    forall i {:trigger Placed(c, t, i)} | 0 <= i < |t.tasks| ensures Placed(c, t, i) {
      assert Placed(c, s, i);
    }
  }

  lemma StepKeeps(c: Config, s: Sys, a: Action)
    requires Inv(c, s)
    ensures Inv(c, Act(c, s, a))
  {
    hide Inv, MainStep, TaskStep, DetectorStep;
    match a {
      case Main => MainKeeps(c, s);
      case Task(i, now) => if i < |s.tasks| { TaskKeeps(c, s, i, now); }
      case Detector(n) => DetectorKeeps(c, s, n);
    }
  }

  lemma {:induction false} Always(c: Config, acts: seq<Action>)
    ensures Inv(c, Exec(c, Initial(c, 0, false), acts))
  {
    hide Inv, Act;
    if acts == [] {
      InitialInv(c);
    } else {
      var n := |acts| - 1;
      Always(c, acts[..n]);
      StepKeeps(c, Exec(c, Initial(c, 0, false), acts[..n]), acts[n]);
    }
  }

  // Started with the counter at zero and no failure, and whatever happens: when the attempt
  // is over, all its threads have ended; it passed if and only if nobody ever raised the
  // failure flag, and then every client task has counted itself exactly once.
  lemma AttemptIsSound(c: Config, acts: seq<Action>)
    requires Exec(c, Initial(c, 0, false), acts).main in {Failed, Passed}
    ensures var t := Exec(c, Initial(c, 0, false), acts);
      && t.det == Ended && |t.tasks| == All(c) && (forall i :: 0 <= i < |t.tasks| ==> t.tasks[i].Gone?)
      && t.lock == None
      && (t.main == Passed <==> !t.failure)
      && (t.main == Passed ==> t.done == c.clients && forall i :: 0 <= i < |t.tasks| ==> t.tasks[i].done)
      && t.done <= c.clients
  {
    hide Exec, Initial;
    Always(c, acts);
    var t := Exec(c, Initial(c, 0, false), acts);
    forall i | 0 <= i < |t.tasks| ensures t.tasks[i].Gone? && (t.tasks[i].done || t.failure) && t.lock != Some(i) {
      assert Placed(c, t, i);
    }
    if t.main == Passed { AllCounted(t.tasks, c.clients); }
    CountAtMost(t.tasks, c.clients);
  }

  lemma {:induction false} CountAtMost(tasks: seq<TaskPc>, n: nat)
    requires n <= |tasks|
    ensures Count(tasks, n) <= n
  {
    if n > 0 { CountAtMost(tasks, n - 1); }
  }

  // The counter never loses or repeats an increment, at any moment of any interleaving.
  lemma CounterIsExact(c: Config, acts: seq<Action>)
    ensures var t := Exec(c, Initial(c, 0, false), acts); |t.tasks| == All(c) && t.done == Count(t.tasks, c.clients)
  {
    Always(c, acts);
  }

  // ---------- when the failure flag is raised ----------

  // A turn of the detector: how many processes it sees, and the counter at that moment.
  datatype Turn = Turn(n: nat, done: nat)

  // The turns of the detector since it was started, up to its end.
  function Turns(c: Config, s: Sys, acts: seq<Action>): seq<Turn> {
    if acts == [] then [] else
      var n := |acts| - 1;
      var a, t := acts[n], Exec(c, s, acts[..n]);
      Turns(c, s, acts[..n]) + if a.Detector? && t.det != Idle && t.det != Ended then [Turn(a.n, t.done)] else []
  }

  // The clients are first all there at turn w, before the start limit is used up.
  predicate Found(c: Config, ts: seq<Turn>, w: nat) {
    && w < |ts| && (w == 0 || w <= c.startLimit) && ts[w].n == c.clientNum
    && forall i :: 0 <= i < w ==> ts[i].n != c.clientNum
  }

  // From then on the detector watched j times while there was time and some client was not done,
  // and each time it then saw all OSDs.
  predicate Watched(c: Config, ts: seq<Turn>, w: nat, j: nat) {
    && Found(c, ts, w) && w + 2 * j < |ts| && (j == 0 || j <= c.timeLimit)
    && forall i: nat :: i < j ==> ts[w + 1 + 2 * i].done != c.clientNum && ts[w + 2 + 2 * i].n == c.osds
  }

  // The clients were looked for as often as the start limit allows, and never all there.
  predicate NotStarted(c: Config, ts: seq<Turn>) {
    exists w: nat :: w < |ts| && Missing(c, ts, w) && w + 1 > c.startLimit
  }

  predicate Missing(c: Config, ts: seq<Turn>, w: nat) {
    w < |ts| && forall i :: 0 <= i <= w ==> ts[i].n != c.clientNum
  }

  // While there was time and some client was not done, another number of OSDs was seen.
  predicate Crashed(c: Config, ts: seq<Turn>) {
    exists w: nat, j: nat :: w < |ts| && j < |ts| && CrashedAt(c, ts, w, j)
  }

  predicate CrashedAt(c: Config, ts: seq<Turn>, w: nat, j: nat) {
    && Watched(c, ts, w, j) && w + 2 * j + 2 < |ts|
    && j < c.timeLimit && ts[w + 1 + 2 * j].done != c.clientNum && ts[w + 2 + 2 * j].n != c.osds
  }

  // Watching ended after j rounds: the time was up or all clients were done.
  predicate Stopped(c: Config, ts: seq<Turn>, w: nat, j: nat) {
    && Watched(c, ts, w, j) && w + 2 * j + 2 < |ts|
    && !(j < c.timeLimit && ts[w + 1 + 2 * j].done != c.clientNum)
  }

  // Then the clients that were left were looked at once more k times, as long as there was time.
  predicate Lingering(c: Config, ts: seq<Turn>, w: nat, j: nat, k: nat) {
    && Stopped(c, ts, w, j) && w + 2 * j + 2 + k < |ts| && (k == 0 || j + k <= c.timeLimit)
    && forall q :: w + 2 * j + 2 <= q < w + 2 * j + 2 + k ==> ts[q].n != 0
  }

  // At the last look clients were left.
  predicate NotClosed(c: Config, ts: seq<Turn>) {
    exists w: nat, j: nat, k: nat :: w < |ts| && j < |ts| && k < |ts| && NotClosedAt(c, ts, w, j, k)
  }

  predicate NotClosedAt(c: Config, ts: seq<Turn>, w: nat, j: nat, k: nat) {
    && Lingering(c, ts, w, j, k) && w + 2 * j + 3 + k < |ts|
    && j + k >= c.timeLimit && ts[w + 2 * j + 2 + k].n != 0
  }

  predicate Failing(c: Config, ts: seq<Turn>) {
    NotStarted(c, ts) || Crashed(c, ts) || NotClosed(c, ts)
  }

  // What its turns say about the place of the detector.
  predicate Tracks(c: Config, ts: seq<Turn>, d: DetectorPc, failure: bool) {
    match d
    case Idle => ts == [] && !failure
    case Startup(w) => |ts| == w && (w == 0 || (Missing(c, ts, w - 1) && w <= c.startLimit)) && !failure
    case Watch(j) => |ts| > 2 * j && Watched(c, ts, |ts| - 1 - 2 * j, j) && !failure
    case Tick(j) =>
      && |ts| > 2 * j + 1 && Watched(c, ts, |ts| - 2 - 2 * j, j) && !failure
      && j < c.timeLimit && ts[|ts| - 1].done != c.clientNum
    case LookClients(j) =>
      && |ts| > 2 * j + 1 && Watched(c, ts, |ts| - 2 - 2 * j, j) && !failure
      && !(j < c.timeLimit && ts[|ts| - 1].done != c.clientNum)
    case Closing(t, left) => |ts| > 0 && left == ts[|ts| - 1].n && Closes(c, ts, t, |ts|) && !failure
    case Raise => Failing(c, ts) && !failure
    case Ended => failure <==> Failing(c, ts)
  }

  // Of t seconds some went by watching and the others while clients were left.
  predicate Closes(c: Config, ts: seq<Turn>, t: nat, n: nat) {
    exists w: nat, k: nat :: w < |ts| && k <= t && ClosesAt(c, ts, t, n, w, k)
  }

  predicate ClosesAt(c: Config, ts: seq<Turn>, t: nat, n: nat, w: nat, k: nat) {
    k <= t && n == w + 2 * (t - k) + 3 + k && Lingering(c, ts, w, t - k, k)
  }

  lemma FoundMore(c: Config, ts: seq<Turn>, x: Turn, w: nat)
    requires Found(c, ts, w)
    ensures Found(c, ts + [x], w)
  {
  }

  lemma WatchedMore(c: Config, ts: seq<Turn>, x: Turn, w: nat, j: nat)
    requires Watched(c, ts, w, j)
    ensures Watched(c, ts + [x], w, j)
  {
    hide Found;
    FoundMore(c, ts, x, w);
  }

  lemma LingeringMore(c: Config, ts: seq<Turn>, x: Turn, w: nat, j: nat, k: nat)
    requires Lingering(c, ts, w, j, k)
    ensures Lingering(c, ts + [x], w, j, k)
  {
    hide Watched;
    WatchedMore(c, ts, x, w, j);
  }

  lemma FailingMore(c: Config, ts: seq<Turn>, x: Turn)
    requires Failing(c, ts)
    ensures Failing(c, ts + [x])
  {
    hide Watched, Lingering;
    var us := ts + [x];
    if NotStarted(c, ts) {
      var w: nat :| w < |ts| && Missing(c, ts, w) && w + 1 > c.startLimit;
      assert Missing(c, us, w);
    } else if Crashed(c, ts) {
      var w: nat, j: nat :| w < |ts| && j < |ts| && CrashedAt(c, ts, w, j);
      WatchedMore(c, ts, x, w, j);
      assert CrashedAt(c, us, w, j);
    } else {
      var w: nat, j: nat, k: nat :| w < |ts| && j < |ts| && k < |ts| && NotClosedAt(c, ts, w, j, k);
      LingeringMore(c, ts, x, w, j, k);
      assert NotClosedAt(c, us, w, j, k);
    }
  }

  lemma FoundOnce(c: Config, ts: seq<Turn>, v: nat, w: nat)
    requires Found(c, ts, v) && Found(c, ts, w)
    ensures v == w
  {
  }

  lemma StoppedOnce(c: Config, ts: seq<Turn>, w: nat, i: nat, j: nat)
    requires Stopped(c, ts, w, i) && Watched(c, ts, w, j)
    ensures j <= i
  {
    hide Found;
  }

  // A detector that found no client left at its last look has no reason to fail.
  lemma ClosedIsFine(c: Config, ts: seq<Turn>, w: nat, j: nat, k: nat)
    requires Lingering(c, ts, w, j, k) && ts[w + 2 * j + 2 + k].n == 0
    ensures !Failing(c, ts)
  {
    hide Found, Watched, CrashedAt, NotClosedAt, Missing;
    forall v: nat | v < |ts| ensures !Missing(c, ts, v) || v + 1 <= c.startLimit {
      FoundIsNotMissing(c, ts, w, j, v);
    }
    forall v: nat, i: nat ensures !CrashedAt(c, ts, v, i) { NoCrash(c, ts, w, j, v, i); }
    forall v: nat, i: nat, l: nat ensures !NotClosedAt(c, ts, v, i, l) { NoRest(c, ts, w, j, k, v, i, l); }
  }

  lemma FoundIsNotMissing(c: Config, ts: seq<Turn>, w: nat, j: nat, v: nat)
    requires Watched(c, ts, w, j)
    ensures !Missing(c, ts, v) || v + 1 <= c.startLimit
  {
  }

  lemma SameFound(c: Config, ts: seq<Turn>, w: nat, j: nat, v: nat, i: nat)
    requires Watched(c, ts, w, j) && Watched(c, ts, v, i)
    ensures v == w
  {
    hide Found;
    FoundOnce(c, ts, v, w);
  }

  lemma NoCrash(c: Config, ts: seq<Turn>, w: nat, j: nat, v: nat, i: nat)
    requires Stopped(c, ts, w, j)
    ensures !CrashedAt(c, ts, v, i)
  {
    hide Found;
    if Watched(c, ts, v, i) {
      SameFound(c, ts, w, j, v, i);
      StoppedOnce(c, ts, w, j, i);
    }
  }

  lemma NoRest(c: Config, ts: seq<Turn>, w: nat, j: nat, k: nat, v: nat, i: nat, l: nat)
    requires Lingering(c, ts, w, j, k) && ts[w + 2 * j + 2 + k].n == 0
    ensures !NotClosedAt(c, ts, v, i, l)
  {
    hide Found, Watched;
    if NotClosedAt(c, ts, v, i, l) {
      SameFound(c, ts, w, j, v, i);
      StoppedOnce(c, ts, w, i, j);
      StoppedOnce(c, ts, w, j, i);
      assert false;
    }
  }

  // One turn.
  lemma StartupTracks(c: Config, s: Sys, ts: seq<Turn>, n: nat)
    requires s.det.Startup? && Tracks(c, ts, s.det, s.failure)
    ensures var t := DetectorStep(c, s, n); Tracks(c, ts + [Turn(n, s.done)], t.det, t.failure)
  {
    var us, w := ts + [Turn(n, s.done)], |ts|;
    if n == c.clientNum {
      assert Found(c, us, w);
    } else {
      assert Missing(c, us, w);
    }
  }

  lemma WatchTracks(c: Config, s: Sys, ts: seq<Turn>, n: nat)
    requires (s.det.Watch? || s.det.Tick?) && Tracks(c, ts, s.det, s.failure)
    ensures var t := DetectorStep(c, s, n); Tracks(c, ts + [Turn(n, s.done)], t.det, t.failure)
  {
    hide Found, NotStarted, NotClosed;
    var us, j := ts + [Turn(n, s.done)], s.det.time;
    if s.det.Watch? {
      WatchedMore(c, ts, Turn(n, s.done), |ts| - 1 - 2 * j, j);
    } else {
      var w := |ts| - 2 - 2 * j;
      FoundMore(c, ts, Turn(n, s.done), w);
      WatchedMore(c, ts, Turn(n, s.done), w, j);
      if n != c.osds { assert CrashedAt(c, us, w, j); }
    }
  }

  lemma CloseTracks(c: Config, s: Sys, ts: seq<Turn>, n: nat)
    requires (s.det.LookClients? || s.det.Closing?) && Tracks(c, ts, s.det, s.failure)
    ensures var t := DetectorStep(c, s, n); Tracks(c, ts + [Turn(n, s.done)], t.det, t.failure)
  {
    hide Watched, NotStarted, Crashed;
    var us, t := ts + [Turn(n, s.done)], s.det.time;
    if s.det.LookClients? {
      var w := |ts| - 2 - 2 * t;
      WatchedMore(c, ts, Turn(n, s.done), w, t);
      WatchedLength(c, ts, w, t);
      assert ClosesAt(c, us, t, |us|, w, 0);
    } else {
      var w: nat, k: nat :| w < |ts| && k <= t && ClosesAt(c, ts, t, |ts|, w, k);
      var j := t - k;
      LingeringMore(c, ts, Turn(n, s.done), w, j, k);
      if t < c.timeLimit && s.det.left != 0 {
        assert Lingering(c, us, w, j, k + 1);
        assert ClosesAt(c, us, t + 1, |us|, w, k + 1);
      } else if s.det.left != 0 {
        assert NotClosedAt(c, us, w, j, k);
      } else {
        ClosedIsFine(c, us, w, j, k);
      }
    }
  }

  lemma WatchedLength(c: Config, ts: seq<Turn>, w: nat, j: nat)
    requires Watched(c, ts, w, j)
    ensures w + 2 * j < |ts|
  {
  }

  lemma StepTracks(c: Config, s: Sys, ts: seq<Turn>, a: Action)
    requires Tracks(c, ts, s.det, s.failure) && (s.main == StartDetector ==> s.det == Idle)
    ensures var t := Act(c, s, a);
      var us := if a.Detector? && s.det != Idle && s.det != Ended then ts + [Turn(a.n, s.done)] else ts;
      Tracks(c, us, t.det, t.failure)
  {
    hide Failing, Watched, Closes;
    if a.Detector? {
      match s.det {
        case Idle =>
        case Startup(_) => StartupTracks(c, s, ts, a.n);
        case Watch(_) => WatchTracks(c, s, ts, a.n);
        case Tick(_) => WatchTracks(c, s, ts, a.n);
        case LookClients(_) => CloseTracks(c, s, ts, a.n);
        case Closing(_, _) => CloseTracks(c, s, ts, a.n);
        case Raise => FailingMore(c, ts, Turn(a.n, s.done));
        case Ended =>
      }
    }
  }


  lemma {:induction false} TurnsTrack(c: Config, acts: seq<Action>)
    ensures var t := Exec(c, Initial(c, 0, false), acts);
      Tracks(c, Turns(c, Initial(c, 0, false), acts), t.det, t.failure)
  {
    hide Act, Tracks, Placed;
    if acts == [] {
      InitialTracks(c);
    } else {
      var n := |acts| - 1;
      var s := Initial(c, 0, false);
      TurnsTrack(c, acts[..n]);
      assert Turns(c, s, acts[..n]) + [] == Turns(c, s, acts[..n]);
      Always(c, acts[..n]);
      StepTracks(c, Exec(c, s, acts[..n]), Turns(c, s, acts[..n]), acts[n]);
    }
  }

  lemma InitialTracks(c: Config)
    ensures Tracks(c, [], Initial(c, 0, false).det, Initial(c, 0, false).failure)
  {
  }

  // In any schedule: once the detector has ended, the failure flag is up if and only if it looked
  // for the clients as often as it may and never found them all, or saw another number of OSDs
  // while it watched, or still saw clients at its last look. Before that the flag is not up.
  lemma FailsIff(c: Config, acts: seq<Action>)
    ensures var s := Initial(c, 0, false);
      var t, ts := Exec(c, s, acts), Turns(c, s, acts);
      && (t.failure ==> t.det == Ended)
      && (t.det == Ended ==> (t.failure <==> NotStarted(c, ts) || Crashed(c, ts) || NotClosed(c, ts)))
  {
    hide NotStarted, Crashed, NotClosed, Watched, Closes;
    TurnsTrack(c, acts);
  }

  // A finished attempt has passed exactly when none of the three happened.
  lemma PassesIff(c: Config, acts: seq<Action>)
    requires Exec(c, Initial(c, 0, false), acts).main in {Failed, Passed}
    ensures var ts := Turns(c, Initial(c, 0, false), acts);
      Exec(c, Initial(c, 0, false), acts).main == Passed
      <==> !NotStarted(c, ts) && !Crashed(c, ts) && !NotClosed(c, ts)
  {
    hide Exec, Initial, Turns, NotStarted, Crashed, NotClosed;
    AttemptIsSound(c, acts);
    FailsIff(c, acts);
  }

  // ---------- what a task has done ----------

  // A turn of a task: where it stood, whether its wait or command was over, and the failure flag.
  datatype Deed = Deed(pc: TaskPc, now: bool, failure: bool)

  function Deeds(c: Config, s: Sys, acts: seq<Action>, i: nat): seq<Deed> {
    if acts == [] then [] else
      var n := |acts| - 1;
      var a, t := acts[n], Exec(c, s, acts[..n]);
      Deeds(c, s, acts[..n], i)
      + if a.Task? && a.i == i && i < |t.tasks| then [Deed(t.tasks[i], a.now, t.failure)] else []
  }

  // Its command was found finished, its wait was over, it launched the command, it killed it, it saw
  // the flag up while it waited, and it saw the flag up after a poll.
  predicate Finished(h: seq<Deed>) { exists k :: 0 <= k < |h| && h[k].pc == Poll && h[k].now }
  predicate Waited(h: seq<Deed>) { exists k :: 0 <= k < |h| && h[k].pc == Sleep && h[k].now }
  predicate Launched(h: seq<Deed>) { exists k :: 0 <= k < |h| && h[k].pc == Launch }
  predicate Killed(h: seq<Deed>) { exists k :: 0 <= k < |h| && h[k].pc.Kill? }
  predicate GaveUp(h: seq<Deed>) { exists k :: 0 <= k < |h| && h[k].pc == Check && h[k].failure }
  predicate Warned(h: seq<Deed>) { exists k :: 0 <= k < |h| && h[k].pc.Look? && h[k].failure }

  predicate Remembers(h: seq<Deed>, pc: TaskPc) {
    match pc
    case Unstarted => !Finished(h) && !Waited(h) && !Launched(h) && !Killed(h) && !GaveUp(h) && !Warned(h)
    case Check => !Finished(h) && !Waited(h) && !Launched(h) && !Killed(h) && !GaveUp(h) && !Warned(h)
    case Sleep => !Finished(h) && !Waited(h) && !Launched(h) && !Killed(h) && !GaveUp(h) && !Warned(h)
    case Launch => !Finished(h) && Waited(h) && !Launched(h) && !Killed(h) && !GaveUp(h) && !Warned(h)
    case Poll => !Finished(h) && Waited(h) && Launched(h) && !Killed(h) && !GaveUp(h) && !Warned(h)
    case Look(d) => (d <==> Finished(h)) && Waited(h) && Launched(h) && !Killed(h) && !GaveUp(h) && !Warned(h)
    case Acquire(f) => Finished(h) && Waited(h) && Launched(h) && !Killed(h) && !GaveUp(h) && (f <==> Warned(h))
    case Load(f) => Finished(h) && Waited(h) && Launched(h) && !Killed(h) && !GaveUp(h) && (f <==> Warned(h))
    case Store(f, _) => Finished(h) && Waited(h) && Launched(h) && !Killed(h) && !GaveUp(h) && (f <==> Warned(h))
    case Release(f) => Finished(h) && Waited(h) && Launched(h) && !Killed(h) && !GaveUp(h) && (f <==> Warned(h))
    case Kill(d) => (d <==> Finished(h)) && Waited(h) && Launched(h) && !Killed(h) && !GaveUp(h) && Warned(h)
    case Gone(d) =>
      && (d <==> Finished(h)) && (Launched(h) <==> Waited(h)) && (Launched(h) <==> !GaveUp(h))
      && (Killed(h) <==> Warned(h))
  }

  lemma DeedAdds(h: seq<Deed>, x: Deed)
    ensures Finished(h + [x]) <==> Finished(h) || (x.pc == Poll && x.now)
    ensures Waited(h + [x]) <==> Waited(h) || (x.pc == Sleep && x.now)
    ensures Launched(h + [x]) <==> Launched(h) || x.pc == Launch
    ensures Killed(h + [x]) <==> Killed(h) || x.pc.Kill?
    ensures GaveUp(h + [x]) <==> GaveUp(h) || (x.pc == Check && x.failure)
    ensures Warned(h + [x]) <==> Warned(h) || (x.pc.Look? && x.failure)
  {
    var g := h + [x];
    assert g[|h|] == x;
    assert forall k :: 0 <= k < |h| ==> g[k] == h[k];
  }

  lemma TaskRemembers(h: seq<Deed>, counts: bool, pc: TaskPc, now: bool, done: nat, failure: bool, free: bool)
    requires Remembers(h, pc)
    ensures Remembers(h + [Deed(pc, now, failure)], TaskPcStep(counts, pc, now, done, failure, free))
  {
    hide Finished, Waited, Launched, Killed, GaveUp, Warned;
    DeedAdds(h, Deed(pc, now, failure));
  }

  lemma StepRemembers(c: Config, s: Sys, a: Action, i: nat, h: seq<Deed>)
    requires Inv(c, s) && i < |s.tasks| && Remembers(h, s.tasks[i])
    ensures var t := Act(c, s, a);
      var g := h + if a.Task? && a.i == i then [Deed(s.tasks[i], a.now, s.failure)] else [];
      i < |t.tasks| && Remembers(g, t.tasks[i])
  {
    hide Remembers, TaskPcStep;
    assert h + [] == h;
    if a.Task? && a.i == i {
      TaskRemembers(h, i < c.clients, s.tasks[i], a.now, s.done, s.failure, s.lock == None);
    } else if a == Main {
      assert Placed(c, s, i);
      StartRemembers(h, s.tasks[i]);
    }
  }

  lemma {:induction false} DeedsRemember(c: Config, acts: seq<Action>, i: nat)
    requires i < All(c)
    ensures var t := Exec(c, Initial(c, 0, false), acts);
      |t.tasks| == All(c) && Remembers(Deeds(c, Initial(c, 0, false), acts, i), t.tasks[i])
  {
    hide Remembers, Placed, Act;
    Always(c, acts);
    if acts == [] {
      NoDeeds();
    } else {
      var n, s := |acts| - 1, Initial(c, 0, false);
      DeedsRemember(c, acts[..n], i);
      Always(c, acts[..n]);
      StepRemembers(c, Exec(c, s, acts[..n]), acts[n], i, Deeds(c, s, acts[..n], i));
    }
  }

  lemma NoDeeds()
    ensures Remembers([], Unstarted)
  {
  }

  lemma StartRemembers(h: seq<Deed>, pc: TaskPc)
    ensures pc == Unstarted && Remembers(h, pc) ==> Remembers(h, Check)
  {
  }

  // In any schedule: a task that has ended counts as done exactly when its command was found
  // finished, launched it when its wait was over unless it saw the failure flag up before, and
  // killed it exactly when it saw the flag up after a poll.
  lemma TaskOutcome(c: Config, acts: seq<Action>, i: nat)
    requires i < All(c)
    ensures var t, h := Exec(c, Initial(c, 0, false), acts), Deeds(c, Initial(c, 0, false), acts, i);
      |t.tasks| == All(c) && (t.tasks[i].Gone? ==>
        (t.tasks[i].done <==> Finished(h)) && (Launched(h) <==> Waited(h)) && (Launched(h) <==> !GaveUp(h))
        && (Killed(h) <==> Warned(h)))
  {
    DeedsRemember(c, acts, i);
  }

  // ---------- nothing is stuck ----------

  // Until the attempt is over some thread can go on.
  lemma NeverStuck(c: Config, s: Sys) returns (a: Action)
    requires Inv(c, s) && s.main !in {Failed, Passed}
    ensures Act(c, s, a) != s
  {
    match s.main {
      case Start(_) => a := Main;
      case StartDetector => a := Main;
      case CheckFailure => a := Main;
      case JoinDetector => a := if s.det == Ended then Main else Detector(0);
      case Join(k) =>
        if k == |s.tasks| || s.tasks[k].Gone? {
          a := Main;
        } else {
          assert Placed(c, s, k);
          var i := if s.tasks[k].Acquire? && s.lock != None then s.lock.i else k;
          assert Placed(c, s, i);
          a := Task(i, true);
          TaskMoves(c, s, i);
        }
    }
  }

  lemma TaskMoves(c: Config, s: Sys, i: nat)
    requires i < |s.tasks| && !s.tasks[i].Unstarted? && !s.tasks[i].Gone? && !(s.tasks[i].Acquire? && s.lock != None)
    ensures TaskStep(c, s, i, true) != s
  {
    assert TaskStep(c, s, i, true).tasks[i] != s.tasks[i];
  }

  // No thread can go on.
  ghost predicate Quiet(c: Config, s: Sys) {
    forall a :: Act(c, s, a) == s
  }

  // So an attempt is over exactly when no thread can go on.
  lemma QuietIffOver(c: Config, acts: seq<Action>)
    ensures var t := Exec(c, Initial(c, 0, false), acts); Quiet(c, t) <==> t.main in {Failed, Passed}
  {
    hide Exec, Initial, Act;
    Always(c, acts);
    var t := Exec(c, Initial(c, 0, false), acts);
    if t.main in {Failed, Passed} {
      forall a ensures Act(c, t, a) == t { OverStays(c, t, a); }
    } else {
      var a := NeverStuck(c, t);
    }
  }

  lemma OverStays(c: Config, s: Sys, a: Action)
    requires Inv(c, s) && s.main in {Failed, Passed}
    ensures Act(c, s, a) == s
  {
    if a.Task? && a.i < |s.tasks| {
      assert Placed(c, s, a.i);
      assert s.tasks[a.i := s.tasks[a.i]] == s.tasks;
    }
  }

  // ---------- a failure ends the attempt ----------

  lemma {:induction false} ExecJoin(c: Config, s: Sys, a: seq<Action>, b: seq<Action>)
    ensures Exec(c, s, a + b) == Exec(c, Exec(c, s, a), b)
  {
    hide Act;
    if b == [] {
      assert a + b == a;
    } else {
      var n := |b| - 1;
      ExecJoin(c, s, a, b[..n]);
      assert (a + b)[..|a + b| - 1] == a + b[..n];
    }
  }

  // What holds in every state that a schedule leads to.
  ghost predicate Reached(c: Config, s: Sys) {
    Inv(c, s) && (s.det.Tick? ==> s.det.time < c.timeLimit)
  }

  lemma ReachedStep(c: Config, s: Sys, a: Action)
    requires Reached(c, s)
    ensures Reached(c, Act(c, s, a))
  {
    hide Inv;
    StepKeeps(c, s, a);
  }

  lemma {:induction false} ReachedAlways(c: Config, acts: seq<Action>)
    ensures Reached(c, Exec(c, Initial(c, 0, false), acts))
  {
    hide Act, Reached;
    if acts == [] {
      InitialReached(c);
    } else {
      var n := |acts| - 1;
      ReachedAlways(c, acts[..n]);
      ReachedStep(c, Exec(c, Initial(c, 0, false), acts[..n]), acts[n]);
    }
  }

  lemma InitialReached(c: Config)
    ensures Reached(c, Initial(c, 0, false))
  {
    InitialInv(c);
  }

  // Steps a task has left once the failure flag is up.
  function Left(pc: TaskPc): nat {
    match pc
    case Unstarted => 2
    case Sleep => 9
    case Launch => 8
    case Poll => 7
    case Look(_) => 6
    case Acquire(_) => 5
    case Load(_) => 4
    case Store(_, _) => 3
    case Release(_) => 2
    case Kill(_) => 1
    case Check => 1
    case Gone(_) => 0
  }

  // Task i waits for the lock.
  predicate Blocked(s: Sys, i: nat) {
    i < |s.tasks| && s.tasks[i].Acquire? && s.lock != None
  }

  // With the flag up, a step brings a task closer to its end, unless it waits for the lock,
  // has ended or is not yet started.
  lemma FailureSpreads(c: Config, s: Sys, i: nat, now: bool)
    requires s.failure && i < |s.tasks|
    ensures var t := TaskStep(c, s, i, now);
      && t.failure && t.main == s.main && t.det == s.det
      && (if s.tasks[i].Gone? || s.tasks[i].Unstarted? || Blocked(s, i) then t == s
          else Left(t.tasks[i]) < Left(s.tasks[i]))
  {
    assert s.tasks[i := s.tasks[i]] == s.tasks;
  }

  // The steps in a schedule that task i takes without waiting for the lock.
  function TaskTurns(c: Config, s: Sys, acts: seq<Action>, i: nat): nat {
    if acts == [] then 0 else
      var n := |acts| - 1;
      var turn := acts[n].Task? && acts[n].i == i && !Blocked(Exec(c, s, acts[..n]), i);
      TaskTurns(c, s, acts[..n], i) + if turn then 1 else 0
  }

  lemma TaskLeftStep(c: Config, s: Sys, a: Action, i: nat)
    requires Reached(c, s) && s.failure && i < |s.tasks| && !s.tasks[i].Unstarted?
    ensures var t := Act(c, s, a);
      && t.failure && i < |t.tasks| && !t.tasks[i].Unstarted? && (s.tasks[i].Gone? ==> t.tasks[i].Gone?)
      && Left(t.tasks[i]) <= Left(s.tasks[i])
      && (a.Task? && a.i == i && !Blocked(s, i) && !s.tasks[i].Gone? ==> Left(t.tasks[i]) < Left(s.tasks[i]))
  {
    hide Left;
    assert Placed(c, s, i);
    if a.Task? && a.i < |s.tasks| { FailureSpreads(c, s, a.i, a.now); }
  }

  lemma {:induction false} TaskLeftRun(c: Config, s: Sys, more: seq<Action>, i: nat)
    requires Reached(c, s) && s.failure && i < |s.tasks| && !s.tasks[i].Unstarted?
    ensures var t := Exec(c, s, more);
      && Reached(c, t) && t.failure && i < |t.tasks| && !t.tasks[i].Unstarted?
      && (t.tasks[i].Gone? || Left(t.tasks[i]) + TaskTurns(c, s, more, i) <= Left(s.tasks[i]))
  {
    hide Act, Reached, Left, Blocked;
    if more != [] {
      var n := |more| - 1;
      TaskLeftRun(c, s, more[..n], i);
      TaskLeftStep(c, Exec(c, s, more[..n]), more[n], i);
      ReachedStep(c, Exec(c, s, more[..n]), more[n]);
    }
  }

  // Whenever the failure flag is up, a task that has been started ends within nine of its own
  // steps, those in which it waits for the lock aside, in every schedule.
  lemma FailedTaskEnds(c: Config, acts: seq<Action>, more: seq<Action>, i: nat)
    requires i < All(c) && Exec(c, Initial(c, 0, false), acts).failure
    requires |Exec(c, Initial(c, 0, false), acts).tasks| == All(c)
    requires !Exec(c, Initial(c, 0, false), acts).tasks[i].Unstarted?
    requires TaskTurns(c, Exec(c, Initial(c, 0, false), acts), more, i) >= 9
    ensures var t := Exec(c, Initial(c, 0, false), acts + more); |t.tasks| == All(c) && t.tasks[i].Gone?
  {
    hide Act, Initial;
    var s := Exec(c, Initial(c, 0, false), acts);
    ReachedAlways(c, acts);
    ReachedAlways(c, acts + more);
    TaskLeftRun(c, s, more, i);
    ExecJoin(c, Initial(c, 0, false), acts, more);
  }

  function AtLeastZero(x: int): nat { if x > 0 then x else 0 }

  // Steps the detector has left.
  function DetectorLeft(c: Config, d: DetectorPc): nat {
    var limit := AtLeastZero(c.timeLimit);
    match d
    case Idle => AtLeastZero(c.startLimit) + 3 * limit + 8
    case Startup(w) => AtLeastZero(c.startLimit - w) + 3 * limit + 7
    case Watch(t) => 3 * AtLeastZero(limit - t) + 5
    case Tick(t) => 3 * AtLeastZero(limit - t) + 4
    case LookClients(t) => AtLeastZero(limit - t) + 4
    case Closing(t, _) => AtLeastZero(limit - t) + 3
    case Raise => 1
    case Ended => 0
  }

  lemma DetectorEnds(c: Config, s: Sys, n: nat)
    requires s.det != Idle && s.det != Ended && (s.det.Tick? ==> s.det.time < c.timeLimit)
    ensures var t := DetectorStep(c, s, n);
      DetectorLeft(c, t.det) < DetectorLeft(c, s.det) && t.det != Idle && t.tasks == s.tasks && t.main == s.main
  {
  }

  function DetectorTurns(acts: seq<Action>): nat {
    if acts == [] then 0 else
      DetectorTurns(acts[..|acts| - 1]) + if acts[|acts| - 1].Detector? then 1 else 0
  }

  lemma {:induction false} DetectorLeftRun(c: Config, s: Sys, more: seq<Action>)
    requires Reached(c, s) && s.det != Idle
    ensures var t := Exec(c, s, more);
      && Reached(c, t) && t.det != Idle
      && (t.det == Ended || DetectorLeft(c, t.det) + DetectorTurns(more) <= DetectorLeft(c, s.det))
  {
    hide Act, Reached, DetectorLeft;
    if more != [] {
      var n := |more| - 1;
      DetectorLeftRun(c, s, more[..n]);
      var t := Exec(c, s, more[..n]);
      ReachedStep(c, t, more[n]);
      DetectorLeftStep(c, t, more[n]);
    }
  }

  lemma DetectorLeftStep(c: Config, s: Sys, a: Action)
    requires Reached(c, s) && s.det != Idle
    ensures var t := Act(c, s, a);
      && t.det != Idle && (s.det == Ended ==> t.det == Ended)
      && (if a.Detector? && s.det != Ended then DetectorLeft(c, t.det) < DetectorLeft(c, s.det) else t.det == s.det)
  {
    hide DetectorLeft;
    if a.Detector? && s.det != Ended { DetectorEnds(c, s, a.n); }
  }

  // In every schedule the detector, once started, ends within its two time limits, whatever it sees.
  lemma DetectorHalts(c: Config, acts: seq<Action>, more: seq<Action>)
    requires Exec(c, Initial(c, 0, false), acts).det != Idle
    requires DetectorTurns(more) >= AtLeastZero(c.startLimit) + 3 * AtLeastZero(c.timeLimit) + 7
    ensures Exec(c, Initial(c, 0, false), acts + more).det == Ended
  {
    hide Act, Initial;
    var s := Exec(c, Initial(c, 0, false), acts);
    ReachedAlways(c, acts);
    DetectorLeftRun(c, s, more);
    ExecJoin(c, Initial(c, 0, false), acts, more);
    DetectorLeftBound(c, s.det);
    DetectorLeftBound(c, Exec(c, s, more).det);
  }

  lemma DetectorLeftBound(c: Config, d: DetectorPc)
    requires d != Idle
    ensures DetectorLeft(c, d) <= AtLeastZero(c.startLimit) + 3 * AtLeastZero(c.timeLimit) + 7
    ensures d != Ended ==> DetectorLeft(c, d) > 0
  {
  }

  // Steps the main thread has left.
  function MainLeft(c: Config, m: MainPc): int {
    match m
    case Start(k) => 2 * All(c) - k + 6
    case StartDetector => All(c) + 5
    case Join(k) => All(c) - k + 3
    case JoinDetector => 2
    case CheckFailure => 1
    case Failed => 0
    case Passed => 0
  }

  function TasksLeft(tasks: seq<TaskPc>, n: nat): nat
    requires n <= |tasks|
  {
    if n == 0 then 0 else TasksLeft(tasks, n - 1) + Left(tasks[n - 1])
  }

  // Changes of the state still possible once the failure flag is up.
  function Measure(c: Config, s: Sys): int {
    TasksLeft(s.tasks, |s.tasks|) + DetectorLeft(c, s.det) + MainLeft(c, s.main)
  }

  lemma {:induction false} TasksLeftChange(tasks: seq<TaskPc>, i: nat, pc: TaskPc, n: nat)
    requires i < |tasks| && n <= |tasks|
    ensures TasksLeft(tasks[i := pc], n) == TasksLeft(tasks, n) + if i < n then Left(pc) - Left(tasks[i]) else 0
  {
    hide Left;
    if n > 0 { TasksLeftChange(tasks, i, pc, n - 1); }
  }

  lemma MainShrinks(c: Config, s: Sys)
    requires Reached(c, s) && s.failure
    ensures var t := MainStep(c, s); t.failure && (t == s || Measure(c, t) < Measure(c, s))
  {
    hide TasksLeft;
    if s.main.Start? && s.main.k < |s.tasks| {
      assert Placed(c, s, s.main.k);
      TasksLeftChange(s.tasks, s.main.k, Check, |s.tasks|);
    }
  }

  lemma TaskShrinks(c: Config, s: Sys, i: nat, now: bool)
    requires Reached(c, s) && s.failure && i < |s.tasks|
    ensures var t := TaskStep(c, s, i, now); t.failure && (t == s || Measure(c, t) < Measure(c, s))
  {
    hide TasksLeft, Left, Inv, DetectorLeft, MainLeft, TaskPcStep;
    FailureSpreads(c, s, i, now);
    TasksLeftChange(s.tasks, i, TaskStep(c, s, i, now).tasks[i], |s.tasks|);
  }

  lemma DetectorShrinks(c: Config, s: Sys, n: nat)
    requires Reached(c, s) && s.failure
    ensures var t := DetectorStep(c, s, n); t.failure && (t == s || Measure(c, t) < Measure(c, s))
  {
    hide TasksLeft, Inv, DetectorLeft, MainLeft;
    if s.det != Idle && s.det != Ended { DetectorEnds(c, s, n); }
  }

  lemma StepShrinks(c: Config, s: Sys, a: Action)
    requires Reached(c, s) && s.failure
    ensures var t := Act(c, s, a); Reached(c, t) && t.failure && (t == s || Measure(c, t) < Measure(c, s))
  {
    hide Reached, Measure, MainStep, TaskStep, DetectorStep;
    ReachedStep(c, s, a);
    match a {
      case Main => MainShrinks(c, s);
      case Task(i, now) => if i < |s.tasks| { TaskShrinks(c, s, i, now); }
      case Detector(n) => DetectorShrinks(c, s, n);
    }
  }

  // The steps of a schedule that change the state.
  function Changes(c: Config, s: Sys, acts: seq<Action>): nat {
    if acts == [] then 0 else
      var n := |acts| - 1;
      Changes(c, s, acts[..n]) + if Exec(c, s, acts) != Exec(c, s, acts[..n]) then 1 else 0
  }

  lemma {:induction false} ChangesRun(c: Config, s: Sys, more: seq<Action>)
    requires Reached(c, s) && s.failure
    ensures var t := Exec(c, s, more);
      Reached(c, t) && t.failure && Measure(c, t) + Changes(c, s, more) <= Measure(c, s)
  {
    hide Act, Reached, Measure;
    if more != [] {
      var n := |more| - 1;
      ChangesRun(c, s, more[..n]);
      StepShrinks(c, Exec(c, s, more[..n]), more[n]);
    }
  }

  lemma {:induction false} TasksLeftBound(tasks: seq<TaskPc>, n: nat)
    requires n <= |tasks|
    ensures TasksLeft(tasks, n) <= 9 * n
  {
    if n > 0 { TasksLeftBound(tasks, n - 1); }
  }

  // From the moment the failure flag is up, no schedule changes the state more often than this.
  function ChangesAtMost(c: Config): nat {
    11 * All(c) + AtLeastZero(c.startLimit) + 3 * AtLeastZero(c.timeLimit) + 14
  }

  lemma MeasureBound(c: Config, s: Sys)
    requires Inv(c, s)
    ensures 0 <= Measure(c, s) <= ChangesAtMost(c)
  {
    hide TasksLeft;
    TasksLeftBound(s.tasks, |s.tasks|);
    if s.det != Idle { DetectorLeftBound(c, s.det); }
  }

  // A failed attempt always ends: once the failure flag is up the state changes a bounded number
  // of times in every schedule, and when no thread can change it any more the attempt has
  // failed, and only then.
  lemma FailedAttemptEnds(c: Config, acts: seq<Action>, more: seq<Action>)
    requires Exec(c, Initial(c, 0, false), acts).failure
    ensures Changes(c, Exec(c, Initial(c, 0, false), acts), more) <= ChangesAtMost(c)
    ensures var t := Exec(c, Initial(c, 0, false), acts + more); t.failure && (Quiet(c, t) <==> t.main == Failed)
  {
    hide Act, Initial, Measure, Quiet, ChangesAtMost, Placed;
    var s := Exec(c, Initial(c, 0, false), acts);
    ReachedAlways(c, acts);
    ChangesRun(c, s, more);
    MeasureBound(c, s);
    MeasureBound(c, Exec(c, s, more));
    ExecJoin(c, Initial(c, 0, false), acts, more);
    QuietIffOver(c, acts + more);
    Always(c, acts + more);
  }

  // And a schedule that ends it can always be found.
  lemma {:induction false} FailedAttemptCanEnd(c: Config, s: Sys) returns (more: seq<Action>)
    requires Reached(c, s) && s.failure
    ensures Exec(c, s, more).main == Failed
    decreases Measure(c, s)
  {
    hide Act, Measure, Placed;
    more := [];
    if s.main != Failed {
      var a := NeverStuck(c, s);
      var t := Act(c, s, a);
      StepShrinks(c, s, a);
      MeasureBound(c, s);
      MeasureBound(c, t);
      var rest := FailedAttemptCanEnd(c, t);
      more := [a] + rest;
      assert [a][..0] == [];
      assert Exec(c, s, [a]) == t;
      ExecJoin(c, s, [a], rest);
    }
  }
}
