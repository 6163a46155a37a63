/** The handshake between a benchmark's main thread (`benchmark/librbdfio.py`) and the
    recovery test thread (`cluster/ceph.py`) over three shared events. Every read or write
    of an event, every remote command and every health check is one step; the two threads
    take their steps in any order. */
module RecoveryHandshake {
  import opened RecoveryThread

  datatype MainPc = Create | WaitStartIo | Io | SetStop | Join | End

  datatype RecPc =
    | NotStarted | ClearHalt | ClearStop | ClearStartIo | Test
    | SetNoup | MarkDown(k: nat) | MarkOut(k: nat)
    | CheckHealth | Populate | UnsetNoup | MarkUp(k: nat) | MarkIn(k: nat)
    | SetStartIo | CheckBackfill | TestStop | Callback | SetHalt | Dead

  datatype Sys = Sys(main: MainPc, rec: RecPc, phase: Phase, outTries: nat, inTries: nat, callbacks: nat,
                     halt: bool, stop: bool, startIo: bool,
                     noup: bool, populated: bool, up: set<nat>, inside: set<nat>)

  // A step of the main thread, or one of the recovery thread where a check returns `ret`.
  datatype Action = Main | Rec(ret: nat)

  // The main thread; a thread that waits stays where it is.
  function MainStep(c: Config, s: Sys): Sys {
    match s.main
    case Create => s.(rec := ClearHalt, main := if c.background then WaitStartIo else Io)
    case WaitStartIo => if s.startIo then s.(main := Io) else s
    case Io => s.(main := SetStop)
    case SetStop => s.(stop := true, main := Join)
    case Join => if s.rec == Dead then s.(main := End) else s
    case End => s
  }

  // Five groups of steps of the recovery thread: the events it clears first, the test of its
  // run loop, what takes OSDs down, what brings them up, and what signals and ends.
  predicate Clearing(r: RecPc) { r in {NotStarted, ClearHalt, ClearStop, ClearStartIo} }
  predicate TakesDown(r: RecPc) { r.SetNoup? || r.MarkDown? || r.MarkOut? || r.CheckHealth? || r.Populate? }
  predicate BringsUp(r: RecPc) { r.UnsetNoup? || r.MarkUp? || r.MarkIn? }
  predicate Finishes(r: RecPc) { r in {SetStartIo, CheckBackfill, TestStop, Callback, SetHalt, Dead} }

  lemma Grouped(r: RecPc)
    ensures Clearing(r) || r == Test || TakesDown(r) || BringsUp(r) || Finishes(r)
    ensures !(Clearing(r) && r == Test) && !(Clearing(r) && TakesDown(r)) && !(Clearing(r) && BringsUp(r))
    ensures !(TakesDown(r) && BringsUp(r)) && (Finishes(r) ==> !Clearing(r) && !TakesDown(r) && !BringsUp(r))
    ensures !TakesDown(Test) && !BringsUp(Test) && !Finishes(Test)
  {
  }

  function ClearingStep(c: Config, s: Sys): Sys
    requires Clearing(s.rec)
  {
    match s.rec
    case NotStarted => s
    case ClearHalt => s.(halt := false, rec := ClearStop)
    case ClearStop => s.(stop := false, rec := if c.background then ClearStartIo else Test)
    case ClearStartIo => s.(startIo := false, rec := Test)
  }

  function ToMarkUp(c: Config, s: Sys, k: nat): Sys {
    if k < |c.osds| then s.(rec := MarkUp(k)) else s.(phase := OsdIn, rec := Test)
  }

  function ToMarkDown(c: Config, s: Sys, k: nat): Sys {
    if k < |c.osds| then s.(rec := MarkDown(k)) else s.(phase := OsdOut, rec := Test)
  }

  // The head of the run loop and the dispatch on the state.
  function TestStep(c: Config, s: Sys): Sys {
    if s.halt then s.(rec := Dead)
    else match s.phase
      case Pre => s.(rec := SetNoup)
      case Markdown => ToMarkDown(c, s, 0)
      case OsdOut => s.(rec := CheckHealth)
      case OsdIn => s.(rec := if c.background then SetStartIo else CheckBackfill)
      case Post => s.(rec := TestStop)
      case Done => s.(rec := Callback)
  }

  // The k-th OSD of the test; the loops below only ask for those that exist.
  function Osd(c: Config, k: nat): nat {
    if k < |c.osds| then c.osds[k] else 0
  }

  function DownStep(c: Config, s: Sys, ret: nat): Sys
    requires TakesDown(s.rec)
  {
    match s.rec
    case SetNoup => s.(noup := true, phase := Markdown, rec := Test)
    case MarkDown(k) => s.(up := s.up - {Osd(c, k)}, rec := MarkOut(k))
    case MarkOut(k) => ToMarkDown(c, s.(inside := s.inside - {Osd(c, k)}), k + 1)
    case CheckHealth =>
      if c.background then s.(rec := Populate)
      else if s.outTries < MAX_HEALTH_TRIES && ret == 0 then s.(outTries := s.outTries + 1, rec := Test)
      else s.(rec := UnsetNoup)
    case Populate => s.(populated := true, rec := UnsetNoup)
  }

  function UpStep(c: Config, s: Sys): Sys
    requires BringsUp(s.rec)
  {
    match s.rec
    case UnsetNoup => ToMarkUp(c, s.(noup := false), 0)
    case MarkUp(k) => s.(up := s.up + {Osd(c, k)}, rec := MarkIn(k))
    case MarkIn(k) => ToMarkUp(c, s.(inside := s.inside + {Osd(c, k)}), k + 1)
  }

  function EndStep(c: Config, s: Sys, ret: nat): Sys
    requires Finishes(s.rec)
  {
    match s.rec
    case SetStartIo => s.(startIo := true, rec := CheckBackfill)
    case CheckBackfill =>
      if s.inTries < MAX_HEALTH_TRIES && ret == 0 then s.(inTries := s.inTries + 1, rec := Test)
      else s.(phase := Post, rec := Test)
    case TestStop =>
      if s.stop then s.(rec := SetHalt)
      else if c.repeat then s.(outTries := 0, inTries := 0, phase := Markdown, rec := Test)
      else s.(phase := Done, rec := Test)
    case Callback => s.(callbacks := s.callbacks + 1, rec := SetHalt)
    case SetHalt => s.(halt := true, rec := Test)
    case Dead => s
  }

  function RecStep(c: Config, s: Sys, ret: nat): Sys {
    if Clearing(s.rec) then ClearingStep(c, s)
    else if s.rec == Test then TestStep(c, s)
    else if TakesDown(s.rec) then DownStep(c, s, ret)
    else if BringsUp(s.rec) then UpStep(c, s)
    else EndStep(c, s, ret)
  }

  function Act(c: Config, s: Sys, a: Action): Sys {
    match a
    case Main => MainStep(c, s)
    case Rec(ret) => RecStep(c, s, ret)
  }

  // The state after a schedule, any interleaving of the two threads.
  function Exec(c: Config, s: Sys, acts: seq<Action>): Sys {
    if acts == [] then s else Act(c, Exec(c, s, acts[..|acts| - 1]), acts[|acts| - 1])
  }

  // The recovery thread is not yet created. The events and the cluster may be in any state,
  // left over from an earlier run.
  predicate Initial(s: Sys) {
    && s.main == Create && s.rec == NotStarted && s.phase == Pre
    && s.outTries == 0 && s.inTries == 0 && s.callbacks == 0
  }

  // The cluster is fit for client IO.
  predicate Ready(c: Config, s: Sys) {
    s.populated && !s.noup && Members(c.osds) <= s.up && Members(c.osds) <= s.inside
  }

  predicate IoStarted(m: MainPc) {
    m in {Io, SetStop, Join, End}
  }

  // ---------- where the recovery thread is, in both modes ----------

  // The place of the recovery thread fits its phase, and its counters are in range.
  predicate Located(c: Config, s: Sys) {
    && AtPlace(c, s.rec, s.phase)
    && s.outTries <= MAX_HEALTH_TRIES && s.inTries <= MAX_HEALTH_TRIES
    && (s.halt ==> s.rec in {NotStarted, ClearHalt} || (s.rec in {Test, Dead} && s.phase in {Post, Done}))
    && (s.rec == NotStarted <==> s.main == Create)
  }

  predicate AtPlace(c: Config, rec: RecPc, phase: Phase) {
    match rec
    case NotStarted => phase == Pre
    case ClearHalt => phase == Pre
    case ClearStop => phase == Pre
    case ClearStartIo => phase == Pre && c.background
    case Test => true
    case SetNoup => phase == Pre
    case MarkDown(k) => phase == Markdown && k < |c.osds|
    case MarkOut(k) => phase == Markdown && k < |c.osds|
    case CheckHealth => phase == OsdOut
    case Populate => phase == OsdOut && c.background
    case UnsetNoup => phase == OsdOut
    case MarkUp(k) => phase == OsdOut && k < |c.osds|
    case MarkIn(k) => phase == OsdOut && k < |c.osds|
    case SetStartIo => phase == OsdIn && c.background
    case CheckBackfill => phase == OsdIn
    case TestStop => phase == Post
    case Callback => phase == Done
    case SetHalt => phase in {Post, Done}
    case Dead => phase in {Post, Done}
  }

  lemma ClearingLocated(c: Config, s: Sys)
    requires Located(c, s) && Clearing(s.rec)
    ensures Located(c, ClearingStep(c, s))
  {
  }

  lemma TestLocatedEarly(c: Config, s: Sys)
    requires Located(c, s) && s.rec == Test && !s.halt && s.phase in {Pre, Markdown}
    ensures Located(c, TestStep(c, s))
  {
    hide AtPlace;
    FromTest(c);
  }

  lemma TestLocatedMiddle(c: Config, s: Sys)
    requires Located(c, s) && s.rec == Test && !s.halt && s.phase in {OsdOut, OsdIn}
    ensures Located(c, TestStep(c, s))
  {
    hide AtPlace;
    FromTest(c);
  }

  lemma TestLocatedLate(c: Config, s: Sys)
    requires Located(c, s) && s.rec == Test && (s.halt || s.phase in {Post, Done})
    ensures Located(c, TestStep(c, s))
  {
    hide AtPlace;
    FromTest(c);
  }

  lemma TestLocated(c: Config, s: Sys)
    requires Located(c, s) && s.rec == Test
    ensures Located(c, TestStep(c, s))
  {
    hide Located, TestStep;
    if s.halt {
      TestLocatedLate(c, s);
    } else {
      match s.phase {
        case Pre => TestLocatedEarly(c, s);
        case Markdown => TestLocatedEarly(c, s);
        case OsdOut => TestLocatedMiddle(c, s);
        case OsdIn => TestLocatedMiddle(c, s);
        case Post => TestLocatedLate(c, s);
        case Done => TestLocatedLate(c, s);
      }
    }
  }

  // The places the run loop leads to.
  lemma FromTest(c: Config)
    ensures AtPlace(c, Test, OsdOut)
    ensures AtPlace(c, SetNoup, Pre) && (|c.osds| > 0 ==> AtPlace(c, MarkDown(0), Markdown))
    ensures AtPlace(c, CheckHealth, OsdOut)
    ensures AtPlace(c, CheckBackfill, OsdIn) && (c.background ==> AtPlace(c, SetStartIo, OsdIn))
    ensures AtPlace(c, TestStop, Post) && AtPlace(c, Callback, Done)
    ensures AtPlace(c, Dead, Post) && AtPlace(c, Dead, Done)
  {
  }

  lemma DownLocated(c: Config, s: Sys, ret: nat)
    requires Located(c, s) && TakesDown(s.rec)
    ensures Located(c, DownStep(c, s, ret))
  {
  }

  lemma UpLocated(c: Config, s: Sys)
    requires Located(c, s) && BringsUp(s.rec)
    ensures Located(c, UpStep(c, s))
  {
    hide Osd;
  }

  lemma EndLocated(c: Config, s: Sys, ret: nat)
    requires Located(c, s) && Finishes(s.rec)
    ensures Located(c, EndStep(c, s, ret))
  {
  }

  lemma MainLocated(c: Config, s: Sys)
    requires Located(c, s)
    ensures Located(c, MainStep(c, s))
  {
  }

  lemma StepLocated(c: Config, s: Sys, a: Action)
    requires Located(c, s)
    ensures Located(c, Act(c, s, a))
  {
    hide Located, MainStep, ClearingStep, TestStep, DownStep, UpStep, EndStep;
    hide Clearing, TakesDown, BringsUp, Finishes;
    Grouped(s.rec);
    match a {
      case Main => MainLocated(c, s);
      case Rec(ret) =>
        if Clearing(s.rec) { ClearingLocated(c, s); }
        else if s.rec == Test { TestLocated(c, s); }
        else if TakesDown(s.rec) { DownLocated(c, s, ret); }
        else if BringsUp(s.rec) { UpLocated(c, s); }
        else { EndLocated(c, s, ret); }
    }
  }

  lemma {:induction false} AlwaysLocated(c: Config, s: Sys, acts: seq<Action>)
    requires Initial(s)
    ensures Located(c, Exec(c, s, acts))
  {
    hide Act;
    if acts != [] {
      var n := |acts| - 1;
      AlwaysLocated(c, s, acts[..n]);
      StepLocated(c, Exec(c, s, acts[..n]), acts[n]);
    }
  }

  // ---------- safety ----------

  // What the recovery thread has done so far.
  predicate Placed(c: Config, s: Sys)
    requires Located(c, s)
  {
    match s.rec
    case UnsetNoup => s.populated
    case MarkUp(k) => Halfway(c, s, k, k)
    case MarkIn(k) => Halfway(c, s, k + 1, k)
    case CheckBackfill => s.startIo
    case _ => true
  }

  predicate Halfway(c: Config, s: Sys, u: nat, i: nat)
    requires u <= |c.osds| && i <= |c.osds|
  {
    s.populated && !s.noup && Members(c.osds[..u]) <= s.up && Members(c.osds[..i]) <= s.inside
  }

  // What every interleaving keeps in background mode.
  predicate Inv(c: Config, s: Sys) {
    && Located(c, s) && Placed(c, s) && Events(s)
    && (s.phase in {OsdIn, Post, Done} ==> Ready(c, s))
    && (!c.repeat && s.startIo ==> s.phase in {OsdIn, Post, Done})
  }

  predicate Events(s: Sys) {
    && (IoStarted(s.main) ==> s.startIo)
    && (Clearing(s.rec) ==> !IoStarted(s.main))
    && (s.main in {Join, End} ==> s.stop)
    && (s.phase == Pre ==> !s.startIo)
    && (s.startIo ==> s.populated && !s.noup)
    && (s.phase in {Post, Done} ==> s.startIo)
  }

  lemma Upto(osds: seq<nat>, k: nat)
    requires k < |osds|
    ensures Members(osds[..k + 1]) == Members(osds[..k]) + {osds[k]}
    ensures k + 1 == |osds| ==> Members(osds[..k + 1]) == Members(osds)
    ensures Members(osds[..0]) == {}
  {
    assert osds[..k + 1] == osds[..k] + [osds[k]];
  }

  lemma ClearingKeeps(c: Config, s: Sys)
    requires c.background && Inv(c, s) && Clearing(s.rec)
    ensures Inv(c, ClearingStep(c, s))
  {
    hide Members, Halfway, Located;
    ClearingLocated(c, s);
    InPhase(c, s);
  }

  lemma TestKeeps(c: Config, s: Sys)
    requires c.background && Inv(c, s) && s.rec == Test
    ensures Inv(c, TestStep(c, s))
  {
    hide Members, Halfway, Located;
    TestLocated(c, s);
    InPhase(c, s);
    NoOsds(c.osds);
  }

  lemma DownKeeps(c: Config, s: Sys, ret: nat)
    requires c.background && Inv(c, s) && TakesDown(s.rec)
    ensures Inv(c, DownStep(c, s, ret))
  {
    hide Members, Halfway, Located;
    DownLocated(c, s, ret);
    InPhase(c, s);
  }

  // The phases the invariant needs to know at each place.
  lemma InPhase(c: Config, s: Sys)
    requires Located(c, s)
    ensures s.rec in {NotStarted, ClearHalt, ClearStop, ClearStartIo, SetNoup} ==> s.phase == Pre
    ensures s.rec.MarkDown? || s.rec.MarkOut? ==> s.phase == Markdown
    ensures s.rec in {CheckHealth, Populate} ==> s.phase == OsdOut
    ensures BringsUp(s.rec) ==> s.phase == OsdOut
    ensures s.rec in {SetStartIo, CheckBackfill} ==> s.phase == OsdIn
    ensures s.rec == TestStop ==> s.phase == Post
    ensures s.rec == Callback ==> s.phase == Done
    ensures s.rec in {SetHalt, Dead} ==> s.phase in {Post, Done}
    ensures s.halt && s.rec == Test ==> s.phase in {Post, Done}
    ensures s.rec.MarkUp? || s.rec.MarkIn? ==> s.rec.k < |c.osds|
    ensures s.rec == NotStarted <==> s.main == Create
  {
  }

  lemma UpKeeps(c: Config, s: Sys)
    requires c.background && Inv(c, s) && BringsUp(s.rec)
    ensures Inv(c, UpStep(c, s))
  {
    hide Members, Located;
    UpLocated(c, s);
    InPhase(c, s);
    NoOsds(c.osds);
    match s.rec {
      case UnsetNoup => if |c.osds| > 0 { Upto(c.osds, 0); }
      case MarkUp(k) => Upto(c.osds, k);
      case MarkIn(k) => Upto(c.osds, k);
    }
  }

  lemma EndKeeps(c: Config, s: Sys, ret: nat)
    requires c.background && Inv(c, s) && Finishes(s.rec)
    ensures Inv(c, EndStep(c, s, ret))
  {
    hide Members, Halfway, Located;
    EndLocated(c, s, ret);
    InPhase(c, s);
  }

  lemma NoOsds(osds: seq<nat>)
    ensures |osds| == 0 ==> Members(osds) == {}
  {
  }

  lemma MainStepKeeps(c: Config, s: Sys)
    requires c.background && Inv(c, s)
    ensures Inv(c, MainStep(c, s))
  {
    hide Members, Located;
    MainLocated(c, s);
    InPhase(c, s);
  }

  lemma StepKeeps(c: Config, s: Sys, a: Action)
    requires c.background && Inv(c, s)
    ensures Inv(c, Act(c, s, a))
  {
    hide Inv, MainStep, ClearingStep, TestStep, DownStep, UpStep, EndStep;
    hide Clearing, TakesDown, BringsUp, Finishes;
    Grouped(s.rec);
    match a {
      case Main => MainStepKeeps(c, s);
      case Rec(ret) =>
        if Clearing(s.rec) { ClearingKeeps(c, s); }
        else if s.rec == Test { TestKeeps(c, s); }
        else if TakesDown(s.rec) { DownKeeps(c, s, ret); }
        else if BringsUp(s.rec) { UpKeeps(c, s); }
        else { EndKeeps(c, s, ret); }
    }
  }

  lemma {:induction false} Always(c: Config, s: Sys, acts: seq<Action>)
    requires c.background && Initial(s) && !s.startIo
    ensures Inv(c, Exec(c, s, acts))
  {
    hide Act;
    if acts != [] {
      Always(c, s, acts[..|acts| - 1]);
      StepKeeps(c, Exec(c, s, acts[..|acts| - 1]), acts[|acts| - 1]);
    }
  }

  // ---------- the trail of the recovery thread ----------

  // The steps the recovery thread has taken in a run, in order.
  function Trail(c: Config, s: Sys, acts: seq<Action>): seq<RecPc> {
    if acts == [] then [] else
      var n := |acts| - 1;
      Trail(c, s, acts[..n]) + if acts[n].Rec? then [Exec(c, s, acts[..n]).rec] else []
  }

  // Each of the first k OSDs marked up, then in.
  function Marks(k: nat): seq<RecPc> {
    if k == 0 then [] else Marks(k - 1) + [MarkUp(k - 1), MarkIn(k - 1)]
  }

  // The recovery pool populated, noup unset, the first k OSDs marked up and in.
  function Restoring(k: nat): seq<RecPc> {
    [Populate, UnsetNoup] + Marks(k)
  }

  predicate EndsWith(trail: seq<RecPc>, t: seq<RecPc>) {
    |t| <= |trail| && trail[|trail| - |t|..] == t
  }

  lemma EndsWithMore(trail: seq<RecPc>, t: seq<RecPc>, r: RecPc)
    requires EndsWith(trail, t)
    ensures EndsWith(trail + [r], t + [r])
  {
  }

  lemma EndsWithOne(trail: seq<RecPc>, r: RecPc)
    ensures EndsWith(trail + [r], [r])
  {
  }

  // Until the start of IO is signalled, the end of the trail shows what has been done.
  predicate Trailed(c: Config, s: Sys, trail: seq<RecPc>) {
    match s.rec
    case UnsetNoup => EndsWith(trail, [Populate])
    case MarkUp(k) => EndsWith(trail, Restoring(k))
    case MarkIn(k) => EndsWith(trail, Restoring(k) + [MarkUp(k)])
    case Test => s.phase == OsdIn && !s.startIo ==> EndsWith(trail, Restoring(|c.osds|))
    case SetStartIo => !s.startIo ==> EndsWith(trail, Restoring(|c.osds|) + [Test])
    case _ => true
  }

  lemma RestoringMore(k: nat)
    ensures Restoring(0) == [Populate] + [UnsetNoup]
    ensures Restoring(k + 1) == Restoring(k) + [MarkUp(k)] + [MarkIn(k)]
  {
    assert Marks(k) + [MarkUp(k), MarkIn(k)] == Marks(k) + [MarkUp(k)] + [MarkIn(k)];
  }

  lemma UpTrailed(c: Config, s: Sys, trail: seq<RecPc>)
    requires Located(c, s) && BringsUp(s.rec) && Trailed(c, s, trail)
    ensures Trailed(c, UpStep(c, s), trail + [s.rec])
  {
    hide Located, EndsWith, Restoring, Osd;
    InPhase(c, s);
    match s.rec {
      case UnsetNoup =>
        RestoringMore(0);
        EndsWithMore(trail, [Populate], UnsetNoup);
      case MarkUp(k) => EndsWithMore(trail, Restoring(k), MarkUp(k));
      case MarkIn(k) =>
        RestoringMore(k);
        EndsWithMore(trail, Restoring(k) + [MarkUp(k)], MarkIn(k));
    }
  }

  lemma DownTrailed(c: Config, s: Sys, ret: nat, trail: seq<RecPc>)
    requires c.background && Located(c, s) && TakesDown(s.rec)
    ensures Trailed(c, DownStep(c, s, ret), trail + [s.rec])
  {
    hide Located, EndsWith, Restoring;
    InPhase(c, s);
    EndsWithOne(trail, Populate);
  }

  lemma TestTrailed(c: Config, s: Sys, trail: seq<RecPc>)
    requires c.background && s.rec == Test && Trailed(c, s, trail)
    ensures Trailed(c, TestStep(c, s), trail + [Test])
  {
    hide EndsWith, Restoring;
    if s.phase == OsdIn && !s.startIo { EndsWithMore(trail, Restoring(|c.osds|), Test); }
  }

  lemma EndTrailed(c: Config, s: Sys, ret: nat, trail: seq<RecPc>)
    requires Inv(c, s) && Finishes(s.rec)
    ensures Trailed(c, EndStep(c, s, ret), trail + [s.rec])
  {
    hide Located, EndsWith, Restoring, Members, Halfway;
    InPhase(c, s);
  }

  lemma ClearingTrailed(c: Config, s: Sys, trail: seq<RecPc>)
    requires Located(c, s) && Clearing(s.rec)
    ensures Trailed(c, ClearingStep(c, s), trail + [s.rec])
  {
    hide EndsWith, Restoring;
  }

  lemma RecTrailed(c: Config, s: Sys, ret: nat, trail: seq<RecPc>)
    requires c.background && Inv(c, s) && Trailed(c, s, trail)
    ensures Trailed(c, RecStep(c, s, ret), trail + [s.rec])
  {
    hide Trailed, Located, Placed, Events, Ready, ClearingStep, TestStep, DownStep, UpStep, EndStep;
    hide Clearing, TakesDown, BringsUp, Finishes;
    Grouped(s.rec);
    if Clearing(s.rec) { ClearingTrailed(c, s, trail); }
    else if s.rec == Test { TestTrailed(c, s, trail); }
    else if TakesDown(s.rec) { DownTrailed(c, s, ret, trail); }
    else if BringsUp(s.rec) { UpTrailed(c, s, trail); }
    else { EndTrailed(c, s, ret, trail); }
  }

  lemma MainTrailed(c: Config, s: Sys, trail: seq<RecPc>)
    requires Trailed(c, s, trail)
    ensures Trailed(c, MainStep(c, s), trail)
  {
    hide EndsWith, Restoring, MainStep;
    MainLeavesRec(c, s);
  }

  lemma MainLeavesRec(c: Config, s: Sys)
    ensures var t := MainStep(c, s);
      t.phase == s.phase && t.startIo == s.startIo && (t.rec == s.rec || t.rec == ClearHalt)
  {
  }

  lemma {:induction false} AlwaysTrailed(c: Config, s: Sys, acts: seq<Action>)
    requires c.background && Initial(s) && !s.startIo
    ensures Trailed(c, Exec(c, s, acts), Trail(c, s, acts))
  {
    hide Inv, MainStep, RecStep;
    if acts != [] {
      hide Trailed;
      var n := |acts| - 1;
      var t, trail := Exec(c, s, acts[..n]), Trail(c, s, acts[..n]);
      AlwaysTrailed(c, s, acts[..n]);
      Always(c, s, acts[..n]);
      match acts[n] {
        case Main =>
          assert Trail(c, s, acts) == trail;
          MainTrailed(c, t, trail);
        case Rec(ret) => RecTrailed(c, t, ret, trail);
      }
    }
  }

  // ---------- client IO waits for the cluster ----------

  // At the n-th state of the run the recovery thread is about to signal the start of IO, which
  // has not begun; the last things it did were to populate the recovery pool, to unset noup
  // and to mark every OSD of the test up and in, and the cluster is fit.
  predicate FitBefore(c: Config, s: Sys, acts: seq<Action>, n: nat)
    requires n <= |acts|
  {
    var t := Exec(c, s, acts[..n]);
    && t.rec == SetStartIo && t.phase == OsdIn && Ready(c, t) && !IoStarted(t.main)
    && EndsWith(Trail(c, s, acts[..n]), Restoring(|c.osds|) + [Test])
  }

  lemma SignalStep(c: Config, s: Sys, a: Action)
    requires Inv(c, s) && !s.startIo && Act(c, s, a).startIo
    ensures s.rec == SetStartIo && s.phase == OsdIn && Ready(c, s) && !IoStarted(s.main)
  {
    hide Located, Placed, Members, ClearingStep, TestStep, DownStep, UpStep, MainStep;
    InPhase(c, s);
    OnlyEndsSignal(c, s, if a.Rec? then a.ret else 0);
  }

  // The other steps do not set the event.
  lemma OnlyEndsSignal(c: Config, s: Sys, ret: nat)
    ensures MainStep(c, s).startIo == s.startIo
    ensures Clearing(s.rec) ==> !ClearingStep(c, s).startIo || s.startIo
    ensures TestStep(c, s).startIo == s.startIo
    ensures TakesDown(s.rec) ==> DownStep(c, s, ret).startIo == s.startIo
    ensures BringsUp(s.rec) ==> UpStep(c, s).startIo == s.startIo
  {
    hide ClearingStep, TestStep, DownStep, UpStep, MainStep, Clearing, TakesDown, BringsUp;
    MainLeavesRec(c, s);
    if Clearing(s.rec) { ClearingSignals(c, s); }
    TestSignals(c, s);
    if TakesDown(s.rec) { DownSignals(c, s, ret); }
    if BringsUp(s.rec) { UpSignals(c, s); }
  }

  lemma ClearingSignals(c: Config, s: Sys)
    requires Clearing(s.rec)
    ensures !ClearingStep(c, s).startIo || s.startIo
  {
  }

  lemma TestSignals(c: Config, s: Sys)
    ensures TestStep(c, s).startIo == s.startIo
  {
  }

  lemma DownSignals(c: Config, s: Sys, ret: nat)
    requires TakesDown(s.rec)
    ensures DownStep(c, s, ret).startIo == s.startIo
  {
  }

  lemma UpSignals(c: Config, s: Sys)
    requires BringsUp(s.rec)
    ensures UpStep(c, s).startIo == s.startIo
  {
  }

  lemma {:induction false} FitBeforeSignal(c: Config, s: Sys, acts: seq<Action>)
    requires c.background && Initial(s) && !s.startIo && Exec(c, s, acts).startIo
    ensures exists n :: 0 <= n < |acts| && FitBefore(c, s, acts, n)
  {
    hide Inv, Act, Ready, EndsWith, Restoring, Trail;
    var m := |acts| - 1;
    Always(c, s, acts[..m]);
    if Exec(c, s, acts[..m]).startIo {
      FitBeforeSignal(c, s, acts[..m]);
      var n :| 0 <= n < m && FitBefore(c, s, acts[..m], n);
      assert acts[..m][..n] == acts[..n];
      assert FitBefore(c, s, acts, n);
    } else {
      SignalStep(c, Exec(c, s, acts[..m]), acts[m]);
      AlwaysTrailed(c, s, acts[..m]);
      assert FitBefore(c, s, acts, m);
    }
  }

  // Background mode, any interleaving, whatever state the cluster was in before: client IO
  // runs only after a moment when the recovery thread had just populated the recovery pool,
  // unset noup and marked every OSD of the test up and in. When IO runs the pool is still
  // populated and noup unset, and without repeat every OSD is still up and in.
  lemma IoWaitsForCluster(c: Config, s: Sys, acts: seq<Action>)
    requires c.background && Initial(s) && !s.startIo && IoStarted(Exec(c, s, acts).main)
    ensures exists n :: 0 <= n < |acts| && FitBefore(c, s, acts, n)
    ensures var t := Exec(c, s, acts); t.populated && !t.noup
    ensures !c.repeat ==> Ready(c, Exec(c, s, acts))
  {
    hide Located, Placed, Ready, FitBefore;
    Always(c, s, acts);
    FitBeforeSignal(c, s, acts);
  }

  // ---------- runs put together ----------

  lemma {:induction false} ExecJoin(c: Config, s: Sys, a: seq<Action>, b: seq<Action>)
    ensures Exec(c, s, a + b) == Exec(c, Exec(c, s, a), b)
  {
    hide Act;
    if b == [] {
      assert a + b == a;
    } else {
      var n := |b| - 1;
      ExecJoin(c, s, a, b[..n]);
      assert (a + b)[..|a + b| - 1] == a + b[..n];
    }
  }

  ghost predicate Reaches(c: Config, s: Sys, t: Sys) {
    exists acts: seq<Action> :: Exec(c, s, acts) == t
  }

  lemma Go(c: Config, s: Sys, t: Sys, a: Action)
    requires Reaches(c, s, t)
    ensures Reaches(c, s, Act(c, t, a))
  {
    var acts: seq<Action> :| Exec(c, s, acts) == t;
    assert (acts + [a])[..|acts|] == acts;
    assert Exec(c, s, acts + [a]) == Act(c, t, a);
  }

  lemma Here(c: Config, s: Sys)
    ensures Reaches(c, s, s)
  {
    assert Exec(c, s, []) == s;
  }

  // n steps of the recovery thread alone, where every check returns ret.
  lemma {:induction false} Solo(c: Config, s: Sys, t: Sys, ret: nat, n: nat) returns (u: Sys)
    requires Reaches(c, s, t)
    ensures Reaches(c, s, u) && u == Times(c, t, ret, n)
  {
    hide RecStep;
    u := t;
    if n > 0 {
      u := Solo(c, s, t, ret, n - 1);
      Go(c, s, u, Rec(ret));
      u := RecStep(c, u, ret);
    }
  }

  function Times(c: Config, t: Sys, ret: nat, n: nat): Sys {
    if n == 0 then t else RecStep(c, Times(c, t, ret, n - 1), ret)
  }

  // ---------- the rounds of RecoveryThread ----------

  function View(s: Sys): State {
    State(s.phase, s.outTries, s.inTries, s.halt, s.callbacks, s.noup, s.up, s.inside, s.populated, s.startIo)
  }

  // At the head of the run loop, with the thread and the cluster as v says.
  function AtHead(s: Sys, v: State): Sys {
    s.(rec := Test, phase := v.phase, outTries := v.outTries, inTries := v.inTries, halt := v.halt,
       callbacks := v.callbacks, noup := v.noup, up := v.up, inside := v.inside,
       populated := v.populated, startIo := v.startIo)
  }

  lemma {:induction false} TimesJoin(c: Config, t: Sys, ret: nat, a: nat, b: nat)
    ensures Times(c, t, ret, a + b) == Times(c, Times(c, t, ret, a), ret, b)
  {
    hide RecStep;
    if b > 0 { TimesJoin(c, t, ret, a, b - 1); }
  }

  lemma From(osds: seq<nat>, k: nat)
    requires k < |osds|
    ensures Members(osds[k..]) == {osds[k]} + Members(osds[k + 1..])
    ensures Members(osds[|osds|..]) == {}
    ensures osds[0..] == osds
  {
    assert osds[k..] == [osds[k]] + osds[k + 1..];
  }

  lemma WithoutFrom(all: set<nat>, osds: seq<nat>, k: nat)
    requires k < |osds|
    ensures all - Members(osds[k..]) == all - {osds[k]} - Members(osds[k + 1..])
    ensures k + 1 == |osds| ==> all - Members(osds[k..]) == all - {osds[k]}
  {
    From(osds, k);
  }

  lemma WithFrom(all: set<nat>, osds: seq<nat>, k: nat)
    requires k < |osds|
    ensures all + Members(osds[k..]) == all + {osds[k]} + Members(osds[k + 1..])
    ensures k + 1 == |osds| ==> all + Members(osds[k..]) == all + {osds[k]}
  {
    From(osds, k);
  }

  lemma {:induction false} DownRound(c: Config, t: Sys, ret: nat, k: nat)
    requires t.rec == MarkDown(k) && k < |c.osds|
    ensures Times(c, t, ret, 2 * (|c.osds| - k)) ==
      t.(rec := Test, phase := OsdOut, up := t.up - Members(c.osds[k..]), inside := t.inside - Members(c.osds[k..]))
    decreases |c.osds| - k
  {
    hide RecStep, Members, Times;
    var n := |c.osds| - k - 1;
    var u := Times(c, t, ret, 2);
    DownPair(c, t, ret, k);
    TimesJoin(c, t, ret, 2, 2 * n);
    WithoutFrom(t.up, c.osds, k);
    WithoutFrom(t.inside, c.osds, k);
    if n > 0 { DownRound(c, u, ret, k + 1); } else { TwoSteps(c, u, ret); }
  }

  lemma DownPair(c: Config, t: Sys, ret: nat, k: nat)
    requires t.rec == MarkDown(k) && k < |c.osds|
    ensures Times(c, t, ret, 2) == ToMarkDown(c,
      t.(rec := MarkOut(k), up := t.up - {c.osds[k]}, inside := t.inside - {c.osds[k]}), k + 1)
  {
    hide ToMarkDown, Times, Members;
    TwoSteps(c, t, ret);
  }

  lemma UpPair(c: Config, t: Sys, ret: nat, k: nat)
    requires t.rec == MarkUp(k) && k < |c.osds|
    ensures Times(c, t, ret, 2) == ToMarkUp(c,
      t.(rec := MarkIn(k), up := t.up + {c.osds[k]}, inside := t.inside + {c.osds[k]}), k + 1)
  {
    hide ToMarkUp, Times, Members;
    TwoSteps(c, t, ret);
  }

  lemma TwoSteps(c: Config, t: Sys, ret: nat)
    ensures Times(c, t, ret, 1) == RecStep(c, t, ret)
    ensures Times(c, t, ret, 2) == RecStep(c, RecStep(c, t, ret), ret)
    ensures Times(c, t, ret, 0) == t
  {
    hide RecStep;
    assert Times(c, t, ret, 1) == RecStep(c, Times(c, t, ret, 0), ret);
    assert Times(c, t, ret, 2) == RecStep(c, Times(c, t, ret, 1), ret);
  }

  lemma TimesThree(c: Config, t: Sys, ret: nat)
    ensures Times(c, t, ret, 3) == RecStep(c, RecStep(c, RecStep(c, t, ret), ret), ret)
  {
    hide RecStep;
    TwoSteps(c, t, ret);
    assert Times(c, t, ret, 3) == RecStep(c, Times(c, t, ret, 2), ret);
  }

  lemma {:induction false} UpRound(c: Config, t: Sys, ret: nat, k: nat)
    requires t.rec == MarkUp(k) && k < |c.osds|
    ensures Times(c, t, ret, 2 * (|c.osds| - k)) ==
      t.(rec := Test, phase := OsdIn, up := t.up + Members(c.osds[k..]), inside := t.inside + Members(c.osds[k..]))
    decreases |c.osds| - k
  {
    hide RecStep, Members, Times;
    var n := |c.osds| - k - 1;
    var u := Times(c, t, ret, 2);
    UpPair(c, t, ret, k);
    TimesJoin(c, t, ret, 2, 2 * n);
    WithFrom(t.up, c.osds, k);
    WithFrom(t.inside, c.osds, k);
    if n > 0 { UpRound(c, u, ret, k + 1); } else { TwoSteps(c, u, ret); }
  }

  // The steps the recovery thread takes in one round.
  function RoundLength(c: Config, s: Sys, ret: nat): nat {
    match s.phase
    case Pre => 2
    case Markdown => 1 + 2 * |c.osds|
    case OsdOut =>
      if c.background then 4 + 2 * |c.osds|
      else if s.outTries < MAX_HEALTH_TRIES && ret == 0 then 2 else 3 + 2 * |c.osds|
    case OsdIn => if c.background then 3 else 2
    case Post => if s.stop then 3 else 2
    case Done => 3
  }

  lemma PreRound(c: Config, s: Sys, ret: nat)
    requires s.rec == Test && !s.halt && s.phase == Pre
    ensures Times(c, s, ret, RoundLength(c, s, ret)) == AtHead(s, Step(c, View(s), ret, s.stop))
  {
    hide Members, Times;
    TwoSteps(c, s, ret);
  }

  lemma PostRoundEnds(c: Config, s: Sys, ret: nat)
    requires s.rec == Test && !s.halt && s.phase == Post && !s.stop
    ensures Times(c, s, ret, RoundLength(c, s, ret)) == AtHead(s, Step(c, View(s), ret, s.stop))
  {
    hide Members, Times;
    TwoSteps(c, s, ret);
  }

  lemma PostRoundStops(c: Config, s: Sys, ret: nat)
    requires s.rec == Test && !s.halt && s.phase == Post && s.stop
    ensures Times(c, s, ret, RoundLength(c, s, ret)) == AtHead(s, Step(c, View(s), ret, s.stop))
  {
    hide Members, Times;
    TimesThree(c, s, ret);
  }

  lemma DoneRound(c: Config, s: Sys, ret: nat)
    requires s.rec == Test && !s.halt && s.phase == Done
    ensures Times(c, s, ret, RoundLength(c, s, ret)) == AtHead(s, Step(c, View(s), ret, s.stop))
  {
    hide Members, Times, TestStep;
    var u := s.(callbacks := s.callbacks + 1, rec := SetHalt);
    CallsBack(c, s, ret);
    TimesJoin(c, s, ret, 2, 1);
    TwoSteps(c, u, ret);
  }

  lemma CallsBack(c: Config, s: Sys, ret: nat)
    requires s.rec == Test && !s.halt && s.phase == Done
    ensures Times(c, s, ret, 2) == s.(callbacks := s.callbacks + 1, rec := SetHalt)
  {
    hide Times, Members;
    TwoSteps(c, s, ret);
  }

  lemma InRoundBackground(c: Config, s: Sys, ret: nat)
    requires c.background && s.rec == Test && !s.halt && s.phase == OsdIn
    ensures Times(c, s, ret, RoundLength(c, s, ret)) == AtHead(s, Step(c, View(s), ret, s.stop))
  {
    hide Members, Times, TestStep;
    var u := s.(startIo := true, rec := CheckBackfill);
    Signals(c, s, ret);
    TimesJoin(c, s, ret, 2, 1);
    TwoSteps(c, u, ret);
  }

  lemma Signals(c: Config, s: Sys, ret: nat)
    requires c.background && s.rec == Test && !s.halt && s.phase == OsdIn
    ensures Times(c, s, ret, 2) == s.(startIo := true, rec := CheckBackfill)
  {
    hide Times, Members;
    TwoSteps(c, s, ret);
  }

  lemma InRoundBlocking(c: Config, s: Sys, ret: nat)
    requires !c.background && s.rec == Test && !s.halt && s.phase == OsdIn
    ensures Times(c, s, ret, RoundLength(c, s, ret)) == AtHead(s, Step(c, View(s), ret, s.stop))
  {
    hide Members, Times;
    TwoSteps(c, s, ret);
  }

  lemma MarkdownHead(c: Config, s: Sys, ret: nat)
    requires s.rec == Test && !s.halt && s.phase == Markdown
    ensures Times(c, s, ret, 1) == ToMarkDown(c, s, 0)
  {
    hide ToMarkDown, Times, Members;
    TwoSteps(c, s, ret);
  }

  lemma MarkdownRound(c: Config, s: Sys, ret: nat)
    requires s.rec == Test && !s.halt && s.phase == Markdown
    ensures Times(c, s, ret, RoundLength(c, s, ret)) == AtHead(s, Step(c, View(s), ret, s.stop))
  {
    hide RecStep, Members, Times;
    var u := Times(c, s, ret, 1);
    MarkdownHead(c, s, ret);
    TimesJoin(c, s, ret, 1, 2 * |c.osds|);
    if |c.osds| > 0 {
      DownRound(c, u, ret, 0);
      From(c.osds, 0);
    } else {
      NoOsds(c.osds);
      TwoSteps(c, u, ret);
    }
  }

  // What OsdOut does up to and including `unset noup`, for each class.
  lemma OutHead(c: Config, s: Sys, ret: nat)
    requires s.rec == Test && !s.halt && s.phase == OsdOut
    requires c.background || s.outTries >= MAX_HEALTH_TRIES || ret != 0
    ensures Times(c, s, ret, if c.background then 4 else 3) ==
      ToMarkUp(c, s.(rec := UnsetNoup, populated := s.populated || c.background, noup := false), 0)
  {
    hide ToMarkUp, Times, RecStep;
    if c.background {
      OutHeadBackground(c, s, ret);
    } else {
      OutHeadBlocking(c, s, ret);
    }
  }

  lemma OutHeadBackground(c: Config, s: Sys, ret: nat)
    requires c.background && s.rec == Test && !s.halt && s.phase == OsdOut
    ensures Times(c, s, ret, 4) == ToMarkUp(c, s.(rec := UnsetNoup, populated := true, noup := false), 0)
  {
    hide ToMarkUp, Times, RecStep, Members;
    var u := s.(rec := Populate);
    Broken(c, s, ret);
    TimesJoin(c, s, ret, 2, 2);
    Healed(c, u, ret);
  }

  lemma Broken(c: Config, s: Sys, ret: nat)
    requires c.background && s.rec == Test && !s.halt && s.phase == OsdOut
    ensures Times(c, s, ret, 2) == s.(rec := Populate)
  {
    hide Times, Members;
    TwoSteps(c, s, ret);
  }

  lemma Healed(c: Config, u: Sys, ret: nat)
    requires u.rec == Populate
    ensures Times(c, u, ret, 2) == ToMarkUp(c, u.(rec := UnsetNoup, populated := true, noup := false), 0)
  {
    hide ToMarkUp, Times, Members;
    TwoSteps(c, u, ret);
  }

  lemma OutHeadBlocking(c: Config, s: Sys, ret: nat)
    requires !c.background && s.rec == Test && !s.halt && s.phase == OsdOut
    requires s.outTries >= MAX_HEALTH_TRIES || ret != 0
    ensures Times(c, s, ret, 3) == ToMarkUp(c, s.(rec := UnsetNoup, noup := false), 0)
  {
    hide ToMarkUp, Times, Members;
    TimesThree(c, s, ret);
  }

  lemma OutRound(c: Config, s: Sys, ret: nat)
    requires s.rec == Test && !s.halt && s.phase == OsdOut
    ensures Times(c, s, ret, RoundLength(c, s, ret)) == AtHead(s, Step(c, View(s), ret, s.stop))
  {
    hide RecStep, Times;
    if !c.background && s.outTries < MAX_HEALTH_TRIES && ret == 0 {
      OutRetry(c, s, ret);
    } else {
      OutRestores(c, s, ret);
    }
  }

  lemma OutRestores(c: Config, s: Sys, ret: nat)
    requires s.rec == Test && !s.halt && s.phase == OsdOut
    requires c.background || s.outTries >= MAX_HEALTH_TRIES || ret != 0
    ensures Times(c, s, ret, (if c.background then 4 else 3) + 2 * |c.osds|) ==
      s.(populated := s.populated || c.background, noup := false, phase := OsdIn,
         up := s.up + Members(c.osds), inside := s.inside + Members(c.osds))
  {
    hide RecStep, Members, Times;
    var n := if c.background then 4 else 3;
    var u := Times(c, s, ret, n);
    OutHead(c, s, ret);
    TimesJoin(c, s, ret, n, 2 * |c.osds|);
    if |c.osds| > 0 {
      UpRound(c, u, ret, 0);
      From(c.osds, 0);
    } else {
      NoOsds(c.osds);
      TwoSteps(c, u, ret);
    }
  }

  lemma OutRetry(c: Config, s: Sys, ret: nat)
    requires s.rec == Test && !s.halt && s.phase == OsdOut && !c.background && s.outTries < MAX_HEALTH_TRIES && ret == 0
    ensures Times(c, s, ret, 2) == s.(outTries := s.outTries + 1)
  {
    TwoSteps(c, s, ret);
  }

  // The steps of one round, taken alone, amount to what RecoveryThread calls a round.
  lemma RoundRefines(c: Config, s: Sys, ret: nat)
    requires s.rec == Test && !s.halt
    ensures Times(c, s, ret, RoundLength(c, s, ret)) == AtHead(s, Step(c, View(s), ret, s.stop))
  {
    hide RecStep, Step, RoundLength, AtHead, View, Times;
    match s.phase {
      case Pre => PreRound(c, s, ret);
      case Markdown => MarkdownRound(c, s, ret);
      case OsdOut => OutRound(c, s, ret);
      case OsdIn => if c.background { InRoundBackground(c, s, ret); } else { InRoundBlocking(c, s, ret); }
      case Post => if s.stop { PostRoundStops(c, s, ret); } else { PostRoundEnds(c, s, ret); }
      case Done => DoneRound(c, s, ret);
    }
  }

  // With repeat a late main thread starts client IO while an OSD of the test is down again.
  lemma LateIo(c: Config, s: Sys) returns (t: Sys)
    requires c.background && c.repeat && c.osds != [] && Initial(s) && !s.startIo
    ensures Reaches(c, s, t) && t.main == Io && !Ready(c, t)
  {
    Here(c, s);
    Go(c, s, s, Main);
    t := Act(c, s, Main);
    t := FirstPass(c, s, t);
    t := SecondPass(c, s, t);
    Go(c, s, t, Main);
    t := Act(c, t, Main);
    assert c.osds[0] in Members(c.osds);
  }

  lemma FirstPass(c: Config, s: Sys, t: Sys) returns (u: Sys)
    requires c.background && c.osds != [] && Reaches(c, s, t)
    requires t.main == WaitStartIo && t.rec == ClearHalt && t.phase == Pre
    ensures Reaches(c, s, u) && u.main == WaitStartIo && u.rec == Test && u.phase == OsdIn && !u.halt && !u.stop
  {
    hide RecStep, Times, Reaches;
    var n := 2 * |c.osds|;
    u := Solo(c, s, t, 1, 6);
    Opening(c, t);
    DownRound(c, u, 1, 0);
    u := Solo(c, s, u, 1, n);
    Healing(c, u);
    u := Solo(c, s, u, 1, 4);
    UpRound(c, u, 1, 0);
    u := Solo(c, s, u, 1, n);
  }

  lemma Opening(c: Config, t: Sys)
    requires c.background && c.osds != [] && t.rec == ClearHalt && t.phase == Pre
    ensures Times(c, t, 1, 6) ==
      t.(halt := false, stop := false, startIo := false, noup := true, phase := Markdown, rec := MarkDown(0))
  {
    hide Times, TestStep, DownStep;
    var u := t.(halt := false, stop := false, startIo := false, rec := Test);
    TimesThree(c, t, 1);
    TimesJoin(c, t, 1, 3, 3);
    TakingNoup(c, u);
  }

  lemma TakingNoup(c: Config, u: Sys)
    requires c.osds != [] && u.rec == Test && u.phase == Pre && !u.halt
    ensures Times(c, u, 1, 3) == u.(noup := true, phase := Markdown, rec := MarkDown(0))
  {
    hide Times;
    TimesThree(c, u, 1);
  }

  lemma Healing(c: Config, v: Sys)
    requires c.background && c.osds != [] && v.rec == Test && v.phase == OsdOut && !v.halt
    ensures Times(c, v, 1, 4) == v.(populated := true, noup := false, rec := MarkUp(0))
  {
    hide RecStep, Times;
    OutHeadBackground(c, v, 1);
  }

  lemma SecondPass(c: Config, s: Sys, t: Sys) returns (u: Sys)
    requires c.background && c.repeat && c.osds != [] && Reaches(c, s, t)
    requires t.main == WaitStartIo && t.rec == Test && t.phase == OsdIn && !t.halt && !t.stop
    ensures Reaches(c, s, u) && u.main == WaitStartIo && u.startIo && c.osds[0] !in u.up
  {
    hide RecStep, Times, Reaches;
    u := Solo(c, s, t, 1, 3);
    Signalled(c, t);
    var v := u;
    u := Solo(c, s, u, 1, 4);
    DownAgain(c, v);
  }

  lemma Signalled(c: Config, t: Sys)
    requires c.background && t.rec == Test && t.phase == OsdIn && !t.halt
    ensures Times(c, t, 1, 3) == t.(startIo := true, phase := Post, rec := Test)
  {
    assert Times(c, t, 1, 1) == t.(rec := SetStartIo);
    assert Times(c, t, 1, 2) == t.(startIo := true, rec := CheckBackfill);
  }

  lemma DownAgain(c: Config, t: Sys)
    requires c.repeat && c.osds != [] && t.rec == Test && t.phase == Post && !t.halt && !t.stop
    ensures Times(c, t, 1, 4) ==
      t.(outTries := 0, inTries := 0, phase := Markdown, up := t.up - {c.osds[0]}, rec := MarkOut(0))
  {
    assert Times(c, t, 1, 1) == t.(rec := TestStop);
    assert Times(c, t, 1, 2) == t.(outTries := 0, inTries := 0, phase := Markdown, rec := Test);
    assert Times(c, t, 1, 3) == t.(outTries := 0, inTries := 0, phase := Markdown, rec := MarkDown(0));
  }

  lemma UnfitSometimes(c: Config, s: Sys) returns (acts: seq<Action>)
    requires c.background && Initial(s) && !s.startIo && c.repeat && c.osds != []
    ensures IoStarted(Exec(c, s, acts).main) && !Ready(c, Exec(c, s, acts))
  {
    hide Act;
    var t := LateIo(c, s);
    acts :| Exec(c, s, acts) == t;
  }

  lemma FitOtherwise(c: Config, s: Sys, acts: seq<Action>)
    requires c.background && Initial(s) && !s.startIo && (!c.repeat || c.osds == [])
    requires IoStarted(Exec(c, s, acts).main)
    ensures Ready(c, Exec(c, s, acts))
  {
    hide Act, Located, Placed, FitBefore;
    IoWaitsForCluster(c, s, acts);
    Always(c, s, acts);
    NoOsds(c.osds);
  }

  // Exactly without repeat, or with no OSD to take down, client IO only ever runs on a fit cluster.
  lemma AlwaysFitIff(c: Config, s: Sys)
    requires c.background && Initial(s) && !s.startIo
    ensures (forall acts: seq<Action> :: IoStarted(Exec(c, s, acts).main) ==> Ready(c, Exec(c, s, acts)))
       <==> (!c.repeat || c.osds == [])
  {
    hide Exec, Initial, IoStarted, Ready;
    if c.repeat && c.osds != [] {
      var acts := UnfitSometimes(c, s);
    } else {
      forall acts: seq<Action> | IoStarted(Exec(c, s, acts).main) ensures Ready(c, Exec(c, s, acts)) {
        FitOtherwise(c, s, acts);
      }
    }
  }

  // The event must be clear when the thread is created: left set by an earlier run, it lets
  // client IO start before the recovery thread has done anything.
  lemma WaitsIffClear(c: Config, s: Sys)
    requires c.background && Initial(s)
    ensures (forall acts: seq<Action> :: IoStarted(Exec(c, s, acts).main) ==> exists n ::
      0 <= n < |acts| && FitBefore(c, s, acts, n))
       <==> !s.startIo
  {
    hide Ready, EndsWith, Restoring, Trail;
    if s.startIo {
      var acts := [Main, Main];
      assert acts[..2] == acts && acts[..1] == [Main] && [Main][..0] == [] && acts[..0] == [];
      assert Exec(c, s, [Main]) == s.(rec := ClearHalt, main := WaitStartIo);
      assert Exec(c, s, acts) == s.(rec := ClearHalt, main := Io);
      forall n | 0 <= n < |acts| ensures !FitBefore(c, s, acts, n) { assert n == 0 || n == 1; }
    } else {
      forall acts: seq<Action> | IoStarted(Exec(c, s, acts).main)
        ensures exists n :: 0 <= n < |acts| && FitBefore(c, s, acts, n)
      {
        IoWaitsForCluster(c, s, acts);
      }
    }
  }

  // ---------- the stop request ----------

  // Before the recovery thread has cleared stoprequest.
  predicate Early(r: RecPc) {
    r in {NotStarted, ClearHalt, ClearStop}
  }

  // What a step of the recovery thread does to the stop request.
  predicate EventsAfter(s: Sys, t: Sys) {
    && t.main == s.main && (s.rec != NotStarted <==> t.rec != NotStarted)
    && (Early(t.rec) <==> s.rec in {NotStarted, ClearHalt})
    && t.stop == (s.rec != ClearStop && s.stop)
  }

  lemma ClearingEvents(c: Config, s: Sys)
    requires Clearing(s.rec)
    ensures EventsAfter(s, ClearingStep(c, s))
  {
  }

  lemma TestEvents(c: Config, s: Sys)
    requires s.rec == Test
    ensures EventsAfter(s, TestStep(c, s))
  {
  }

  lemma DownEvents(c: Config, s: Sys, ret: nat)
    requires TakesDown(s.rec)
    ensures EventsAfter(s, DownStep(c, s, ret))
  {
  }

  lemma UpEvents(c: Config, s: Sys)
    requires BringsUp(s.rec)
    ensures EventsAfter(s, UpStep(c, s))
  {
  }

  lemma EndEvents(c: Config, s: Sys, ret: nat)
    requires Finishes(s.rec)
    ensures EventsAfter(s, EndStep(c, s, ret))
  {
  }

  lemma RecEvents(c: Config, s: Sys, ret: nat)
    ensures EventsAfter(s, RecStep(c, s, ret))
  {
    hide ClearingStep, TestStep, DownStep, UpStep, EndStep, EventsAfter;
    hide Clearing, TakesDown, BringsUp, Finishes;
    Grouped(s.rec);
    if Clearing(s.rec) { ClearingEvents(c, s); }
    else if s.rec == Test { TestEvents(c, s); }
    else if TakesDown(s.rec) { DownEvents(c, s, ret); }
    else if BringsUp(s.rec) { UpEvents(c, s); }
    else { EndEvents(c, s, ret); }
  }

  // The main thread has asked for the stop at the state s. From then on the request stands
  // if and only if the recovery thread had cleared the event before, or has not yet.
  lemma {:induction false} StopStandsIff(c: Config, s: Sys, more: seq<Action>)
    requires s.main == SetStop && s.rec != NotStarted
    ensures var t := Exec(c, Act(c, s, Main), more);
      && t.main in {Join, End} && t.rec != NotStarted
      && (!Early(s.rec) ==> !Early(t.rec))
      && (t.stop <==> !Early(s.rec) || Early(t.rec))
  {
    if more != [] {
      var n := |more| - 1;
      StopStandsIff(c, s, more[..n]);
      StopStep(c, Exec(c, Act(c, s, Main), more[..n]), more[n]);
    }
  }

  lemma StopStep(c: Config, t: Sys, a: Action)
    requires t.main in {Join, End} && t.rec != NotStarted
    ensures var u := Act(c, t, a);
      && u.main in {Join, End} && u.rec != NotStarted
      && (!Early(t.rec) ==> !Early(u.rec) && u.stop == t.stop)
      && (Early(t.rec) ==> if Early(u.rec) then u.stop == t.stop else !u.stop)
  {
    hide RecStep;
    if a.Rec? { RecEvents(c, t, a.ret); }
  }

  // In background mode it is never lost, because client IO waits for the recovery thread.
  lemma StopIsNeverLost(c: Config, s: Sys, acts: seq<Action>)
    requires c.background && Initial(s) && !s.startIo && Exec(c, s, acts).main in {Join, End}
    ensures Exec(c, s, acts).stop && !Clearing(Exec(c, s, acts).rec)
  {
    Always(c, s, acts);
  }

  // In blocking mode it can be: the main thread is done before the recovery thread has begun.
  lemma LostStop(c: Config, s: Sys) returns (acts: seq<Action>)
    requires !c.background && Initial(s)
    ensures var t := Exec(c, s, acts); Waiting(c, t)
  {
    acts := [Main, Main, Main, Rec(0), Rec(0)];
    var a1, a2, a3, a4 := acts[..1], acts[..2], acts[..3], acts[..4];
    assert a1[..0] == [] && a2[..1] == a1 && a3[..2] == a2 && a4[..3] == a3 && acts[..4] == a4;
    assert Exec(c, s, a1) == s.(rec := ClearHalt, main := Io);
    assert Exec(c, s, a2) == s.(rec := ClearHalt, main := SetStop);
    assert Exec(c, s, a3) == s.(rec := ClearHalt, stop := true, main := Join);
    assert Exec(c, s, a4) == s.(halt := false, rec := ClearStop, stop := true, main := Join);
  }

  // The main thread waits for a recovery thread that nobody will ask to stop any more.
  predicate Waiting(c: Config, s: Sys) {
    s.main == Join && !s.stop && !s.halt && !Early(s.rec) && s.rec !in {Callback, SetHalt, Dead} && s.phase != Done
  }

  lemma WaitingClears(c: Config, s: Sys)
    requires Waiting(c, s) && c.repeat && Clearing(s.rec)
    ensures Waiting(c, ClearingStep(c, s))
  {
  }

  lemma WaitingTests(c: Config, s: Sys)
    requires Waiting(c, s) && c.repeat && s.rec == Test
    ensures Waiting(c, TestStep(c, s))
  {
  }

  lemma WaitingDown(c: Config, s: Sys, ret: nat)
    requires Waiting(c, s) && c.repeat && TakesDown(s.rec)
    ensures Waiting(c, DownStep(c, s, ret))
  {
  }

  lemma WaitingUp(c: Config, s: Sys)
    requires Waiting(c, s) && c.repeat && BringsUp(s.rec)
    ensures Waiting(c, UpStep(c, s))
  {
  }

  lemma WaitingEnd(c: Config, s: Sys, ret: nat)
    requires Waiting(c, s) && c.repeat && Finishes(s.rec)
    ensures Waiting(c, EndStep(c, s, ret))
  {
  }

  lemma WaitingStep(c: Config, s: Sys, a: Action)
    requires Waiting(c, s) && c.repeat
    ensures Waiting(c, Act(c, s, a))
  {
    hide ClearingStep, TestStep, DownStep, UpStep, EndStep;
    hide Clearing, TakesDown, BringsUp, Finishes;
    Grouped(s.rec);
    if a.Rec? {
      if Clearing(s.rec) { WaitingClears(c, s); }
      else if s.rec == Test { WaitingTests(c, s); }
      else if TakesDown(s.rec) { WaitingDown(c, s, a.ret); }
      else if BringsUp(s.rec) { WaitingUp(c, s); }
      else { WaitingEnd(c, s, a.ret); }
    }
  }

  // With repeat both threads then go on for ever.
  lemma {:induction false} WaitsForever(c: Config, s: Sys, more: seq<Action>)
    requires Waiting(c, s) && c.repeat
    ensures Waiting(c, Exec(c, s, more))
  {
    hide Act;
    if more != [] {
      WaitsForever(c, s, more[..|more| - 1]);
      WaitingStep(c, Exec(c, s, more[..|more| - 1]), more[|more| - 1]);
    }
  }

  // ---------- halting, in both modes ----------

  // No repeat can happen any more: none is asked for, or the stop request stands.
  predicate Ending(c: Config, s: Sys) {
    !c.repeat || Standing(s)
  }

  // The stop request is made and will not be cleared.
  predicate Standing(s: Sys) {
    s.stop && !Early(s.rec)
  }

  // Steps from the test of the run loop in the phases Post and Done.
  function Closing(stop: bool): int { if stop then 4 else 6 }

  function AtOsdIn(stop: bool, inTries: int): int {
    Closing(stop) + 3 * (MAX_HEALTH_TRIES + 1 - inTries)
  }

  // Only the blocking class tries again while the cluster stays healthy.
  function OutTriesLeft(c: Config, outTries: int): int {
    if c.background then 0 else 2 * (MAX_HEALTH_TRIES + 1 - outTries)
  }

  function AtOsdOut(c: Config, stop: bool, outTries: int, inTries: int): int {
    AtOsdIn(stop, inTries) + 2 * |c.osds| + 4 + OutTriesLeft(c, outTries)
  }

  function AtPre(c: Config, stop: bool, outTries: int, inTries: int): int {
    AtOsdOut(c, stop, outTries, inTries) + 2 * |c.osds| + 3
  }

  function AtTest(c: Config, phase: Phase, halt: bool, stop: bool, outTries: int, inTries: int): int {
    match phase
    case Pre => AtPre(c, stop, outTries, inTries)
    case Markdown => AtPre(c, stop, outTries, inTries) - 2
    case OsdOut => AtOsdOut(c, stop, outTries, inTries)
    case OsdIn => AtOsdIn(stop, inTries)
    case Post => if halt then 1 else Closing(stop)
    case Done => if halt then 1 else 4
  }

  // Steps the recovery thread has left once no repeat can happen.
  function StepsOf(c: Config, rec: RecPc, phase: Phase, halt: bool, stop: bool, outTries: int, inTries: int): int {
    match rec
    case NotStarted => AtPre(c, stop, outTries, inTries) + 3
    case ClearHalt => AtPre(c, stop, outTries, inTries) + if c.background then 3 else 2
    case ClearStop => AtPre(c, stop, outTries, inTries) + if c.background then 2 else 1
    case ClearStartIo => AtPre(c, stop, outTries, inTries) + 1
    case Test => AtTest(c, phase, halt, stop, outTries, inTries)
    case SetNoup => AtPre(c, stop, outTries, inTries) - 1
    case MarkDown(k) => AtOsdOut(c, stop, outTries, inTries) + 2 * (|c.osds| - k)
    case MarkOut(k) => AtOsdOut(c, stop, outTries, inTries) + 2 * (|c.osds| - k) - 1
    case CheckHealth => AtOsdOut(c, stop, outTries, inTries) - 1
    case Populate => AtOsdIn(stop, inTries) + 2 * |c.osds| + 2
    case UnsetNoup => AtOsdIn(stop, inTries) + 2 * |c.osds| + 1
    case MarkUp(k) => AtOsdIn(stop, inTries) + 2 * (|c.osds| - k)
    case MarkIn(k) => AtOsdIn(stop, inTries) + 2 * (|c.osds| - k) - 1
    case SetStartIo => AtOsdIn(stop, inTries) - 1
    case CheckBackfill => AtOsdIn(stop, inTries) - 2
    case TestStop => Closing(stop) - 1
    case Callback => 3
    case SetHalt => 2
    case Dead => 0
  }

  function StepsLeft(c: Config, s: Sys): int {
    StepsOf(c, s.rec, s.phase, s.halt, Standing(s), s.outTries, s.inTries)
  }

  predicate Nearer(c: Config, s: Sys, t: Sys) {
    (s.rec == Dead ==> t.rec == Dead) && (s.rec != Dead ==> StepsLeft(c, t) < StepsLeft(c, s))
  }

  lemma ClearingNearer(c: Config, s: Sys)
    requires Located(c, s) && Clearing(s.rec) && s.rec != NotStarted && Ending(c, s)
    ensures Nearer(c, s, ClearingStep(c, s))
  {
    hide AtOsdOut, AtOsdIn;
    FewerIfStanding(c, s.outTries, s.inTries);
  }

  // A standing request only makes the rest shorter.
  lemma FewerIfStanding(c: Config, outTries: int, inTries: int)
    ensures AtPre(c, true, outTries, inTries) <= AtPre(c, false, outTries, inTries)
  {
  }

  lemma TestNearerEarly(c: Config, s: Sys)
    requires Located(c, s) && s.rec == Test && s.phase in {Pre, Markdown}
    ensures Nearer(c, s, TestStep(c, s))
  {
    hide AtOsdIn, OutTriesLeft;
  }

  lemma TestNearerMiddle(c: Config, s: Sys)
    requires Located(c, s) && s.rec == Test && s.phase in {OsdOut, OsdIn}
    ensures Nearer(c, s, TestStep(c, s))
  {
    hide AtOsdOut, AtOsdIn, AtPre;
  }

  lemma TestNearerLate(c: Config, s: Sys)
    requires Located(c, s) && s.rec == Test && s.phase in {Post, Done}
    ensures Nearer(c, s, TestStep(c, s))
  {
    hide AtOsdOut, AtOsdIn, AtPre;
  }

  lemma DownNearerOsds(c: Config, s: Sys, ret: nat)
    requires Located(c, s) && (s.rec.SetNoup? || s.rec.MarkDown? || s.rec.MarkOut?)
    ensures Nearer(c, s, DownStep(c, s, ret))
  {
    hide AtOsdOut, AtPre, Osd;
  }

  lemma DownNearerHealth(c: Config, s: Sys, ret: nat)
    requires Located(c, s) && (s.rec.CheckHealth? || s.rec.Populate?)
    ensures Nearer(c, s, DownStep(c, s, ret))
  {
    hide AtOsdIn, AtPre;
  }

  lemma UpNearerUnset(c: Config, s: Sys)
    requires Located(c, s) && s.rec == UnsetNoup
    ensures Nearer(c, s, UpStep(c, s))
  {
    hide AtOsdIn, AtOsdOut, AtPre, Osd;
  }

  lemma UpNearerUp(c: Config, s: Sys)
    requires Located(c, s) && s.rec.MarkUp?
    ensures Nearer(c, s, UpStep(c, s))
  {
    hide AtOsdIn, AtOsdOut, AtPre, Osd;
  }

  lemma UpNearerIn(c: Config, s: Sys)
    requires Located(c, s) && s.rec.MarkIn?
    ensures Nearer(c, s, UpStep(c, s))
  {
    hide AtOsdIn, AtOsdOut, AtPre, Osd;
  }

  lemma UpNearer(c: Config, s: Sys)
    requires Located(c, s) && BringsUp(s.rec)
    ensures Nearer(c, s, UpStep(c, s))
  {
    hide Located, Nearer, UpStep;
    match s.rec {
      case UnsetNoup => UpNearerUnset(c, s);
      case MarkUp(k) => UpNearerUp(c, s);
      case MarkIn(k) => UpNearerIn(c, s);
    }
  }

  lemma EndNearerIn(c: Config, s: Sys, ret: nat)
    requires Located(c, s) && (s.rec.SetStartIo? || s.rec.CheckBackfill?)
    ensures Nearer(c, s, EndStep(c, s, ret))
  {
    hide AtOsdOut, AtPre;
  }

  lemma EndNearerStop(c: Config, s: Sys, ret: nat)
    requires Located(c, s) && (s.rec in {TestStop, Callback, SetHalt, Dead}) && Ending(c, s)
    ensures Nearer(c, s, EndStep(c, s, ret))
  {
    hide AtOsdOut, AtOsdIn, AtPre;
  }

  lemma RecNearer(c: Config, s: Sys, ret: nat)
    requires Located(c, s) && s.rec != NotStarted && Ending(c, s)
    ensures Nearer(c, s, RecStep(c, s, ret))
  {
    hide Located, Nearer, Ending, ClearingStep, TestStep, DownStep, UpStep, EndStep;
    hide Clearing, BringsUp;
    Grouped(s.rec);
    if Clearing(s.rec) { ClearingNearer(c, s); }
    else if s.rec == Test {
      match s.phase {
        case Pre => TestNearerEarly(c, s);
        case Markdown => TestNearerEarly(c, s);
        case OsdOut => TestNearerMiddle(c, s);
        case OsdIn => TestNearerMiddle(c, s);
        case Post => TestNearerLate(c, s);
        case Done => TestNearerLate(c, s);
      }
    }
    else if TakesDown(s.rec) {
      if s.rec.CheckHealth? || s.rec.Populate? { DownNearerHealth(c, s, ret); } else { DownNearerOsds(c, s, ret); }
    }
    else if BringsUp(s.rec) { UpNearer(c, s); }
    else if s.rec.SetStartIo? || s.rec.CheckBackfill? { EndNearerIn(c, s, ret); }
    else { EndNearerStop(c, s, ret); }
  }

  // What the main thread does to it: nothing, or it makes the stop request.
  lemma MainLeaves(c: Config, s: Sys)
    requires s.main != Create && Ending(c, s)
    ensures var t := MainStep(c, s); t.main != Create && t.rec == s.rec && Ending(c, t)
    ensures StepsLeft(c, MainStep(c, s)) <= StepsLeft(c, s)
  {
    hide StepsOf;
    StandingIsLess(c, s.rec, s.phase, s.halt, s.outTries, s.inTries);
  }

  lemma StandingIsLess(c: Config, rec: RecPc, phase: Phase, halt: bool, outTries: int, inTries: int)
    ensures StepsOf(c, rec, phase, halt, true, outTries, inTries)
      <= StepsOf(c, rec, phase, halt, false, outTries, inTries)
  {
    hide OutTriesLeft;
  }

  // Every step of the recovery thread brings its end nearer; those of the main thread do not
  // take it further away.
  lemma StepsShrink(c: Config, s: Sys, a: Action)
    requires Located(c, s) && s.rec != NotStarted && Ending(c, s)
    ensures var t := Act(c, s, a);
      && Located(c, t) && t.rec != NotStarted && Ending(c, t)
      && (if a.Rec? then Nearer(c, s, t) else t.rec == s.rec && StepsLeft(c, t) <= StepsLeft(c, s))
  {
    hide RecStep, MainStep, Nearer, AtPlace, StepsLeft;
    StepLocated(c, s, a);
    if a.Rec? {
      RecEvents(c, s, a.ret);
      RecNearer(c, s, a.ret);
    } else {
      MainLeaves(c, s);
    }
  }

  function RecSteps(acts: seq<Action>): nat {
    if acts == [] then 0 else RecSteps(acts[..|acts| - 1]) + if acts[|acts| - 1].Rec? then 1 else 0
  }

  lemma {:induction false} HaltsOnceEnding(c: Config, s: Sys, more: seq<Action>)
    requires Located(c, s) && s.rec != NotStarted && Ending(c, s)
    ensures var t := Exec(c, s, more);
      && Located(c, t) && t.rec != NotStarted && Ending(c, t)
      && (t.rec == Dead || StepsLeft(c, t) + RecSteps(more) <= StepsLeft(c, s))
  {
    hide Located, Ending, StepsLeft, Act;
    if more != [] {
      var n := |more| - 1;
      HaltsOnceEnding(c, s, more[..n]);
      StepsShrink(c, Exec(c, s, more[..n]), more[n]);
    }
  }

  lemma StepsLeftPositive(c: Config, s: Sys)
    requires Located(c, s)
    ensures s.rec != Dead ==> 0 < StepsLeft(c, s)
  {
  }

  lemma StepsLeftAtMost(c: Config, s: Sys)
    requires Located(c, s)
    ensures !Clearing(s.rec) && Standing(s) && c.background ==> StepsLeft(c, s) <= 194 + 4 * |c.osds|
    ensures s.rec != NotStarted ==> StepsLeft(c, s) <= (if c.background then 199 else 320) + 4 * |c.osds|
  {
  }

  // Both modes: once no repeat can happen any more the recovery thread ends within a number of
  // its own steps, whatever the checks return and however the two threads are interleaved.
  lemma HaltsWithoutRepeat(c: Config, s: Sys, acts: seq<Action>, more: seq<Action>)
    requires Initial(s) && Exec(c, s, acts).rec != NotStarted && Ending(c, Exec(c, s, acts))
    requires RecSteps(more) >= (if c.background then 199 else 320) + 4 * |c.osds|
    ensures Exec(c, s, acts + more).rec == Dead
  {
    hide Act, StepsLeft, Ending, Located;
    var t := Exec(c, s, acts);
    AlwaysLocated(c, s, acts);
    HaltsOnceEnding(c, t, more);
    ExecJoin(c, s, acts, more);
    StepsLeftAtMost(c, t);
    StepsLeftPositive(c, Exec(c, t, more));
  }

  // Background mode, repeat or not: once the main thread waits for the end, the recovery
  // thread ends within 194 + 4 |osds| of its own steps, and then the wait is over.
  lemma RecoveryThreadHalts(c: Config, s: Sys, acts: seq<Action>, more: seq<Action>)
    requires c.background && Initial(s) && !s.startIo && Exec(c, s, acts).main in {Join, End}
    requires RecSteps(more) >= 194 + 4 * |c.osds|
    ensures Exec(c, s, acts + more).rec == Dead
    ensures Exec(c, s, acts + more + [Main]).main == End
  {
    hide Act, StepsLeft, Located;
    var t := Exec(c, s, acts);
    AlwaysLocated(c, s, acts);
    StopIsNeverLost(c, s, acts);
    HaltsOnceEnding(c, t, more);
    ExecJoin(c, s, acts, more);
    StepsLeftAtMost(c, t);
    StepsLeftPositive(c, Exec(c, t, more));
    WaitReturns(c, t, more);
    ExecJoin(c, s, acts + more, [Main]);
  }

  // The main thread waits until the recovery thread has ended, and no longer.
  lemma {:induction false} StillWaits(c: Config, s: Sys, more: seq<Action>)
    requires s.main in {Join, End}
    ensures Exec(c, s, more).main in {Join, End}
  {
    hide Act;
    if more != [] {
      var n := |more| - 1;
      StillWaits(c, s, more[..n]);
      StillWaitsStep(c, Exec(c, s, more[..n]), more[n]);
    }
  }

  lemma StillWaitsStep(c: Config, s: Sys, a: Action)
    requires s.main in {Join, End}
    ensures Act(c, s, a).main in {Join, End}
  {
    hide RecStep;
    if a.Rec? { RecEvents(c, s, a.ret); }
  }

  lemma WaitReturns(c: Config, s: Sys, more: seq<Action>)
    requires s.main in {Join, End} && Exec(c, s, more).rec == Dead
    ensures Exec(c, Exec(c, s, more), [Main]).main == End
  {
    StillWaits(c, s, more);
    assert [Main][..0] == [];
  }

  // Blocking mode with repeat: once the main thread has asked for the stop, the recovery thread
  // ends within 320 + 4 |osds| of its own steps if it had cleared the event before; if it
  // clears the event later, it never ends.
  lemma BlockingHaltsIff(c: Config, s: Sys, acts: seq<Action>, more: seq<Action>)
    requires !c.background && c.repeat && Initial(s) && Exec(c, s, acts).main == SetStop
    requires RecSteps(more) >= 320 + 4 * |c.osds|
    ensures Exec(c, s, acts + [Main] + more).rec == Dead <==> !Early(Exec(c, s, acts).rec)
  {
    hide Act, AtPlace;
    var t, u := Exec(c, s, acts), Exec(c, s, acts + [Main]);
    AlwaysLocated(c, s, acts);
    ExecJoin(c, s, acts, [Main]);
    ExecJoin(c, s, acts + [Main], more);
    OneMain(c, t);
    InPhase(c, t);
    if Early(t.rec) {
      BecomesWaiting(c, u, more);
    } else {
      HaltsWithoutRepeat(c, s, acts + [Main], more);
    }
  }

  // The request is still to be cleared, or has been and nobody will ask again.
  predicate Losing(c: Config, s: Sys) {
    Waiting(c, s) || (s.main == Join && s.phase == Pre && (s.rec == ClearHalt || (s.rec == ClearStop && !s.halt)))
  }

  lemma LosingStep(c: Config, s: Sys, a: Action)
    requires !c.background && c.repeat && Losing(c, s)
    ensures Losing(c, Act(c, s, a))
  {
    if Waiting(c, s) {
      hide Act, Waiting;
      WaitingStep(c, s, a);
    }
  }

  lemma {:induction false} BecomesWaiting(c: Config, s: Sys, more: seq<Action>)
    requires !c.background && c.repeat && Losing(c, s)
    ensures Losing(c, Exec(c, s, more))
  {
    hide Act, Losing;
    if more != [] {
      BecomesWaiting(c, s, more[..|more| - 1]);
      LosingStep(c, Exec(c, s, more[..|more| - 1]), more[|more| - 1]);
    }
  }

  lemma OneMain(c: Config, t: Sys)
    requires t.main == SetStop
    ensures Exec(c, t, [Main]) == t.(stop := true, main := Join)
  {
    assert [Main][..0] == [];
  }
}
