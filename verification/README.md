# Verified models of CBT's algorithms

CBT, the Ceph benchmarking tool, mostly runs commands on remote machines. Around that it
contains algorithms and small protocols whose correctness is not obvious from reading one
function. This project models them in Dafny and proves what they are for. `dafny verify
dfyconfig.toml` checks everything.

## What is modelled

- **RedBlackTree.dfy**: the red-black tree of the bundled d3 library. Nodes have child links,
  parent links and the links of a doubly linked list. `insert` and `remove` are proved on the
  heap, with both fix-up loops: after any sequence of operations the red-black laws hold, parent
  links mirror child links, and the list is the in-order traversal and exactly what the
  operations ask for. The left and the right half of each fix-up loop call the same verified
  steps (recolour, turn, raise, fade, cap), which take the side from their arguments.
- **Hull.dfy**: the monotone-chain convex hull of d3, over exact reals. The sort is a stable
  insertion sort by x, then y.
- **Dsv.dfy**: d3's printer and tokenizer for delimiter-separated text.
- **DataJoin.dfy**: d3's data join, by key with two maps and by position.
- **RecoveryThread.dfy**, **RecoveryHandshake.dfy**: the OSD outage and recovery test. The first
  file has the six-state machine as a class over an abstract cluster, for both thread classes
  (`background` tells them apart), with what holds at the end of every run and how long runs
  are. The second has the same thread in single steps (every event, command and check is one)
  interleaved with the main thread in any order; `RoundRefines` ties the two together.
- **CrimsonAttempt.dfy**, **CrimsonExecutor.dfy**: the Crimson test executor. The first file
  interleaves the main thread, the task threads with their locked counter and the failure
  detector; the second is the retry loop, whose attempts each run such threads, in any order,
  until none of them can go on.
- **Resampler.dfy**: the rados bench time-series resampler, with integer times and exact real
  values and weights.
- **PooledStatistics.dfy**: pooled mean and standard deviation, with a square root given by its
  defining law.
- **Lispy.dfy**: tokenizer and reader of the acceptance language. The conversion of an atom to a
  number or symbol is a parameter.
- **TopAverages.dfy**: per-thread series and thirty-sample averages of `top` output. The regular
  expressions are parameters; a group's threads are kept in insertion order.
- **PgReport.dfy**: placement group counts, efficiency score, most and least used OSDs.
- **OsdCreation.dfy**: the bounded first-in-first-out launcher of OSD creation threads.
- **ParameterSweep.dfy**, **QueueDepth.dfy**: the product of parameter lists, and the even split
  of a total queue depth.

What remote commands, health checks, process listings and threads do comes from outside, as
arbitrary parameters or schedules.

## What the proofs found

- Delimited text survives printing and parsing exactly when every row has a field, every field
  with a carriage return also has a quote, a line feed or the delimiter, and the last field of
  the last row is not empty (`Dsv.RowsRoundTrip`, with lost tables in `Dsv.LostTables`). The
  delimiter is none of quote, CR, LF, `]`, `\` and `-`: the printer puts it into a character
  class of a regular expression unescaped, where the last three mean something else.
- Text with the line ends of other systems, and text that ends with one, parses to the same rows
  (`Dsv.TextRoundTrip`). A character between a closing quote and the delimiter is lost without an
  error, and a quote that is never closed takes the rest (`QuotedReadsBack`, `Unclosed`).
- Client IO in background mode starts only after the recovery thread has populated the recovery
  pool, unset noup and marked every OSD up and in, in this order
  (`RecoveryHandshake.AlwaysTrailed`, `IoWaitsForCluster`). That the OSDs are up and in at the
  very moment IO starts holds exactly when the test does not repeat or lists no OSD: with
  `repeat` a late main thread starts IO while OSDs are down again (`LateIo`, `AlwaysFitIff`).
  The start event must be clear when the thread is created (`WaitsIffClear`).
- In background mode the stop request is never lost. In blocking mode it is lost when the main
  thread is done before the recovery thread clears the event, and with `repeat` both then wait
  for ever (`RecoveryHandshake.LostStop`, `WaitsForever`, `StopStandsIff`). Where no repeat is
  configured, or the request stands, the recovery thread ends within a number of its own steps
  (`RecoveryThreadHalts`, `HaltsWithoutRepeat`, `BlockingHaltsIff`).
- A Crimson attempt with a failure up always ends: tasks and detector run out, and nothing but
  the ended attempt is at rest (`CrimsonAttempt.FailedAttemptEnds`). The flag is raised for three
  reasons and no other (`FailsIff`).
- The hull of three or more points on one line has two corners, also when they coincide; any
  other three or more give a strictly convex polygon (`Hull.Hull`).
- `get_wp` raises an error exactly when the smallest sample of an interval alone reaches the
  percentile (`Resampler.WpGrows`), as for the median of one sample (`NoMedian`). Its blend
  takes all the weight that is not below the upper sample, rather than the weight up to the
  percentile, as the distance of the lower one; the result still lies between the two samples
  and does not fall as p grows.
- `get_ftime` takes an end at time 0 for "none yet": it is the earliest end exactly when all
  ends are positive or the last one is 0 (`Resampler.FtimeIsEarliestIff`, with the ends 0 and 5
  in `FtimeForgetsZero`). `read_data` never produces such an end, as it skips lines that start
  with 0; other callers may.
- The first average of `parse-top.py` covers 29 samples but is divided by 30, because the average
  is looked after before the sample is added; nothing is lost or counted twice.
- The totals of `readpgdump.py` are emptied whenever a new pool appears, so they count all
  placement groups exactly when there is one pool (`PgReport.TotalsCompleteIff`, `TotalsLost`).
- Folding standard deviations raises an error exactly when there are several groups and the
  first two have less than two samples together (`PooledStatistics.FoldPools`, `FoldFails`).

## Model

| member | source | states |
|---|---|---|
| RedBlackTrees.RedBlackTree.Insert | include/js/d3.ugly.js:4 | `insert(after, node)` keeps the red-black laws and all three link structures, adds exactly the node, and puts it immediately after its argument, or first without one |
| RedBlackTrees.RedBlackTree.Remove | include/js/d3.ugly.js:4 | `remove(node)` keeps them too, takes exactly that node out of tree and list, and clears its list links |
| RedBlackTrees.Replay | include/js/d3.ugly.js:4 | after any allowed sequence of insertions and removals the tree is valid and lists what the operations say |
| RedBlackTrees.RedBlackTree.FixInsert | include/js/d3.ugly.js:4 | insertion's loop ends, and turns one possible red-red pair on the way up into a valid tree |
| RedBlackTrees.RedBlackTree.FixRemove | include/js/d3.ugly.js:4 | removal's loop ends, and makes good one missing black node |
| RedBlackTrees.RedBlackTree.LevelLeft | include/js/d3.ugly.js:4 | one round of it with the short side on the left: the tree is valid, or the deficit is one level up |
| RedBlackTrees.RedBlackTree.LevelRight | include/js/d3.ugly.js:4 | the mirrored round |
| RedBlackTrees.RedBlackTree.Attach | include/js/d3.ugly.js:4 | the links insert sets before its loop put a red leaf between two neighbours of the list |
| RedBlackTrees.RedBlackTree.PullOne | include/js/d3.ugly.js:4 | the links remove sets for a node with at most one child |
| RedBlackTrees.RedBlackTree.PullTwo | include/js/d3.ugly.js:4 | the links and colours remove sets when the successor takes the place of a node with two children |
| RedBlackTrees.RedBlackTree.RotateLeft | include/js/d3.ugly.js:2 | rotation `io` keeps parent links, list and order, and says where every link leads |
| RedBlackTrees.RedBlackTree.RotateRight | include/js/d3.ugly.js:2 | rotation `so`, likewise |
| RedBlackTrees.RedBlackTree.Minimum | include/js/d3.ugly.js:2 | `oo` finds the leftmost node of a subtree, the one that begins its key interval |
| RedBlackTrees.RedBlackTree.InOrderIsList | include/js/d3.ugly.js:4 | the in-order traversal of the child links is the linked list |
| RedBlackTrees.RedBlackTree.LinksAgree | include/js/d3.ugly.js:4 | previous and next lead to the neighbours in that traversal; every node but the root is a child of its parent on exactly one side |
| RedBlackTrees.RedBlackTree.RedBlackLaws | include/js/d3.ugly.js:4 | black root, no red node below a red one, as many black nodes on any two paths from the root to a null link |
| RedBlackTrees.RedBlackTree.PathsAreShort | include/js/d3.ugly.js:4 | every such path is at most twice the binary logarithm of the number of nodes plus one |
| RedBlackTrees.InsertedAfterAt | include/js/d3.ugly.js:4 | inserting after the i-th element keeps what is before and behind it |
| RedBlackTrees.RemovedAt | include/js/d3.ugly.js:4 | removing the i-th element keeps what is before and behind it |
| Hull.Hull | include/js/d3.ugly.js:4 | for any three or more points: distinct corners taken from the points and no point outside any edge; more than two corners exactly when some three points do not lie on a line, and then every corner is a strict turn; else the two corners are the ends of the segment that holds all points; fewer points give no corners |
| Hull.Chain | include/js/d3.ugly.js:2 | `xs` on sorted points: strictly increasing indices from the first to the last point, strict left turns, every point on or left of every edge |
| Hull.FanAfterPop | include/js/d3.ugly.js:2 | popping a vertex keeps all points since the new top on the left of the line to the new point |
| Hull.Pushed | include/js/d3.ugly.js:2 | pushing the point after the pops extends the chain to one more point |
| Hull.OldEdgesBehind | include/js/d3.ugly.js:2 | the new point lies on or left of every edge that stays |
| Hull.TurnsChain | include/js/d3.ugly.js:1 | left turns between forward directions add up, for the cross product `At` |
| Hull.CrossIsDet | include/js/d3.ugly.js:1 | the cross product of three points is a determinant, unchanged by rotating them |
| Hull.Chord | include/js/d3.ugly.js:4 | inner vertices lie strictly beyond every chord from the first vertex, so the two chains share only their ends |
| Hull.PolygonDistinct | include/js/d3.ugly.js:4 | joining the two chains repeats no corner |
| Hull.PolygonEncloses | include/js/d3.ugly.js:4 | the joined polygon has every input point inside |
| Hull.PolygonTurns | include/js/d3.ugly.js:4 | the joined polygon is strictly convex where the chains meet as well |
| Hull.PolygonFlat | include/js/d3.ugly.js:4 | a polygon of two corners: all points lie on the segment between them, so no three of them turn |
| Hull.TurnSpreads | include/js/d3.ugly.js:4 | and one of more corners has three points that do |
| Hull.SortIsFaithful | include/js/d3.ugly.js:4 | sorting the tagged points keeps every point with its index, once |
| Dsv.RowsRoundTrip | include/js/d3.ugly.js:3 | `parseRows(formatRows(rows))` is `rows` if and only if the table survives printing |
| Dsv.TextRoundTrip | include/js/d3.ugly.js:3 | printed rows joined by a line feed, by a carriage return and a line feed, or by a carriage return alone, with or without one behind the last, parse to themselves if and only if every row has a field, every field with a carriage return is quoted, and an unterminated text does not end in an empty field |
| Dsv.PrintsAsIs | include/js/d3.ugly.js:3 | a field is printed as it is exactly when it holds no '"', delimiter or line feed, else between quotes with its quotes doubled |
| Dsv.RowRoundTrip | include/js/d3.ugly.js:3 | a printed row reads back with any of the three line ends behind it |
| Dsv.ReadsBack | include/js/d3.ugly.js:3 | a printed field reads back as one token, with quotes, delimiters and line feeds |
| Dsv.QuotedReadsBack | include/js/d3.ugly.js:3 | any quoted text is read whatever follows but a quote; a character behind it that is neither delimiter nor line end is lost |
| Dsv.BareReadsBack | include/js/d3.ugly.js:3 | text that does not start with a quote is read up to the next delimiter or line end, quotes included |
| Dsv.Unclosed | include/js/d3.ugly.js:3 | a quote that is never closed takes the rest of the text |
| Dsv.CutShort | include/js/d3.ugly.js:3 | a field with an unquoted carriage return does not |
| Dsv.LostTables | include/js/d3.ugly.js:3 | three concrete tables that do not survive |
| Dsv.ClosingDoubled | include/js/d3.ugly.js:3 | the scan over doubled quotes stops at the closing quote |
| Dsv.UndoubledDoubled | include/js/d3.ugly.js:3 | halving doubled quotes undoes doubling them |
| Dsv.ReadToken | include/js/d3.ugly.js:3 | every call takes text or a pending end of line, so tokenizing ends |
| Dsv.Reader.Next | include/js/d3.ugly.js:3 | the cursor-moving tokenizer returns that token and leaves that text |
| Dsv.Reader.QuotedField | include/js/d3.ugly.js:3 | its loop over a quoted field |
| Dsv.Reader.BareField | include/js/d3.ugly.js:3 | its loop over an unquoted field |
| Dsv.Parse | include/js/d3.ugly.js:3 | the two nested loops of `parseRows` compute the rows of the text |
| DataJoin.BindKeyed | include/js/d3.ugly.js:3 | the two-map pass of `W.data` fills update, enter and exit as the set-based definition says; in a group without repeated nodes exactly the matched ones are rebound |
| DataJoin.IndexNodes | include/js/d3.ugly.js:3 | its first loop maps every key to its first node and lets the other nodes exit |
| DataJoin.MatchData | include/js/d3.ugly.js:3 | its second loop: the first datum of a key updates the waiting node or enters |
| DataJoin.ExitRest | include/js/d3.ugly.js:3 | its third loop: nodes whose key no datum has exit |
| DataJoin.NodesSplit | include/js/d3.ugly.js:3 | every node is in exactly one of update and exit, and updated by one datum only |
| DataJoin.DataSplit | include/js/d3.ugly.js:3 | every datum key leads to exactly one update or enter entry, at its first occurrence |
| DataJoin.JoinIs | include/js/d3.ugly.js:3 | the three arrays by keys alone: a node exits if an earlier one has its key or no datum has it, else the first datum with its key updates it; a datum enters if neither an earlier datum nor any node has its key |
| DataJoin.BoundIs | include/js/d3.ugly.js:3 | a node that stays ends up with the first datum of its key, the others keep theirs |
| DataJoin.BindByIndex | include/js/d3.ugly.js:3 | the unkeyed join matches by position, enters data at holes and beyond the nodes, and lets the nodes beyond the data exit |
| DataJoin.Bind | include/js/d3.ugly.js:3 | the choice between the two, with update, enter and exit and the data the nodes carry afterwards; a null in a keyed group is an error that changes nothing |
| RecoveryThread.EndsRestored | cluster/ceph.py:978-1074 | whenever the run loop has ended noup is unset, every OSD of the test is up and in, and the callback ran once if it ended in `done`, else never |
| RecoveryThread.StepKeeps | cluster/ceph.py:978-1063 | every round keeps the invariant behind that |
| RecoveryThread.HaltsWithin | cluster/ceph.py:996-1063 | once no repeat can happen the loop ends within a number of rounds given by state and retry counters |
| RecoveryThread.RoundsBound | cluster/ceph.py:1072-1073 | without repeat the blocking loop takes at most 126 rounds, the background loop 66 |
| RecoveryThread.QuietRun | cluster/ceph.py:996-1063 | the 126 are needed when every check returns 0 |
| RecoveryThread.OnePass | cluster/ceph.py:1145-1164 | one pass of either class, round by round, whatever the checks return: the blocking class waits for the cluster to break until a check does not return 0 or for the 61st time, the background class takes one round, and both wait for backfill in the same way; then noup is unset and the OSDs are up and in |
| RecoveryThread.AsksSome | cluster/ceph.py:1153-1155 | there always are such numbers of rounds |
| RecoveryThread.Closes | cluster/ceph.py:1166-1187 | what follows: a stop request halts the thread, else with repeat it starts over with its counters at 0, else it calls back once and halts |
| RecoveryThread.QuietBackground | cluster/ceph.py:1145-1187 | with checks that always return 0 the background loop is in `osdin` from round 3 to 63, in `post` at 64, in `done` at 65 and halted from 66 on |
| RecoveryThread.DirectRun | cluster/ceph.py:1115-1187 | with checks that never return 0 both classes halt after exactly six rounds |
| RecoveryThread.RepeatRun | cluster/ceph.py:1172-1179 | with repeat and checks that always return 0 the loop never ends: each pass takes 124 rounds, or 64 in the background, and begins with the counters at 0 |
| RecoveryThread.StopHalts | cluster/ceph.py:1040-1044 | with stoprequest set the loop ends at most 126 rounds later, from any state |
| RecoveryThread.StepShortens | cluster/ceph.py:996-1063 | the measure shrinks with every round |
| RecoveryThread.RecoveryTestThread.Run | cluster/ceph.py:1069-1074 | `run` ends with halt requested, the cluster restored and the callback run as above |
| RecoveryThread.RecoveryTestThread.Round | cluster/ceph.py:1072-1073 | the dispatch on the state does one round of the specification |
| RecoveryThread.RecoveryTestThread.MarkdownRound | cluster/ceph.py:986-994 | marks every OSD of the test down and out, and no other |
| RecoveryThread.RecoveryTestThread.OsdOutRound | cluster/ceph.py:996-1022 | retries while healthy and tries are left, else unsets noup and marks every OSD up and in; the background class never retries and populates the recovery pool |
| RecoveryThread.RecoveryTestThread.OsdInRound | cluster/ceph.py:1145-1164 | sets startiorequest in the background class, retries or goes on |
| RecoveryThread.RecoveryTestThread.PostRound | cluster/ceph.py:1040-1058 | halts on a stop request, else starts over with the counters reset, else goes to `done` |
| RecoveryHandshake.IoWaitsForCluster | benchmark/librbdfio.py:248-260 | background mode, any interleaving: before client IO runs there is a moment at which the recovery thread is about to set the start event, has just unset noup, marked every OSD up and in one by one and tested the halt request, the pool is populated, noup unset, every OSD up and in, and IO has not begun; without repeat that still holds whenever IO runs |
| RecoveryHandshake.FitBeforeSignal | cluster/ceph.py:1145-1147 | the start event is set only after such a moment too |
| RecoveryHandshake.AlwaysTrailed | cluster/ceph.py:1115-1147 | in every interleaving the steps the recovery thread has done so far end with those that lead to where it stands: it is past `osdout` only after it populated the pool, unset noup and marked each OSD up and in, in this order |
| RecoveryHandshake.Always | cluster/ceph.py:681-697 | the invariant of every interleaving of the two threads |
| RecoveryHandshake.StepKeeps | cluster/ceph.py:1097-1199 | each single step keeps it |
| RecoveryHandshake.AlwaysFitIff | cluster/ceph.py:1172-1179 | the cluster is fit at every moment of client IO if and only if the test does not repeat or lists no OSD |
| RecoveryHandshake.LateIo | cluster/ceph.py:1172-1179 | with repeat a run in which IO starts while an OSD is down |
| RecoveryHandshake.WaitsIffClear | cluster/ceph.py:681-683 | client IO always waits for such a moment if and only if startiorequest is clear when the thread is created |
| RecoveryHandshake.StopStandsIff | cluster/ceph.py:691-697 | the stop request stands if and only if the recovery thread had cleared the event before it, or has not yet |
| RecoveryHandshake.StopIsNeverLost | cluster/ceph.py:691-697 | in background mode it always stands |
| RecoveryHandshake.LostStop | cluster/ceph.py:1069-1071 | in blocking mode a run in which it is lost |
| RecoveryHandshake.WaitsForever | cluster/ceph.py:691-697 | with repeat the main thread then waits for ever |
| RecoveryHandshake.RecoveryThreadHalts | cluster/ceph.py:1193-1199 | background mode, repeat or not: once the main thread waits for the end the recovery thread ends within 194 + 4 times the number of OSDs of its own steps, and then the wait is over |
| RecoveryHandshake.HaltsWithoutRepeat | cluster/ceph.py:1069-1074 | both modes: if no repeat is asked for, or the stop request stands, the recovery thread ends within 199 (background) or 320 (blocking) plus 4 times the number of OSDs of its own steps, in any interleaving |
| RecoveryHandshake.BlockingHaltsIff | cluster/ceph.py:1069-1074 | blocking mode with repeat: when the main thread asks for the stop, the recovery thread ends within 320 plus 4 times the number of OSDs of its steps if and only if it had cleared the event before |
| RecoveryHandshake.StepsShrink | cluster/ceph.py:1097-1199 | both modes: once no repeat can happen each of its steps brings the end nearer, the main thread's take it no further away |
| RecoveryHandshake.RoundRefines | cluster/ceph.py:1097-1199 | the single steps of one round amount to one round of RecoveryThread |
| CrimsonAttempt.AttemptIsSound | tools/crimson/crimson_bench_tool.py:810-830 | any interleaving of an attempt that starts with DONE at 0 and no failure: at its end all threads have ended, it passed if and only if no failure was raised, and then DONE is the number of test clients |
| CrimsonAttempt.CounterIsExact | tools/crimson/crimson_bench_tool.py:1679-1682 | the locked counter never loses or repeats an increment |
| CrimsonAttempt.FailsIff | tools/crimson/crimson_bench_tool.py:718-761 | in any schedule, once the detector has ended the failure flag is up if and only if, by the numbers it saw, it looked for the clients more often than the start limit allows and never found them all, or saw another number of OSDs while it had time and some client was not done, or still saw clients at its last look; before that the flag is down |
| CrimsonAttempt.PassesIff | tools/crimson/crimson_bench_tool.py:810-830 | so a finished attempt passed exactly when none of the three happened |
| CrimsonAttempt.TaskOutcome | tools/crimson/crimson_bench_tool.py:48-91 | in any schedule, a task that has ended counts as done exactly when a poll found its command finished, launched it exactly when its wait was over and it had not seen the flag before, and killed it exactly when it saw the flag after a poll |
| CrimsonAttempt.Always | tools/crimson/crimson_bench_tool.py:48-91 | the invariant of every interleaving |
| CrimsonAttempt.TaskKeeps | tools/crimson/crimson_bench_tool.py:48-91 | every step of a task keeps it |
| CrimsonAttempt.DetectorKeeps | tools/crimson/crimson_bench_tool.py:718-761 | every step of the failure detector keeps it |
| CrimsonAttempt.MainKeeps | tools/crimson/crimson_bench_tool.py:810-830 | every start, join and check of the tester keeps it |
| CrimsonAttempt.NeverStuck | tools/crimson/crimson_bench_tool.py:810-830 | until the attempt is over some thread can go on, the lock included |
| CrimsonAttempt.FailedAttemptEnds | tools/crimson/crimson_bench_tool.py:810-830 | from any reachable moment at which a failure is up, any schedule changes the state at most as often as the number of tasks and the time limits allow, and when nothing can change any more the attempt is over as failed |
| CrimsonAttempt.FailedAttemptCanEnd | tools/crimson/crimson_bench_tool.py:810-830 | and from each such moment some schedule ends it |
| CrimsonAttempt.FailedTaskEnds | tools/crimson/crimson_bench_tool.py:48-91 | in any schedule a task is gone after nine turns of its own under a failure, the turns in which it waits for the lock aside |
| CrimsonAttempt.DetectorHalts | tools/crimson/crimson_bench_tool.py:718-761 | in any schedule the detector ends within its start limit plus three times its time limit plus seven turns of its own, whatever it sees |
| CrimsonAttempt.QuietIffOver | tools/crimson/crimson_bench_tool.py:810-830 | in every reachable state no thread can go on if and only if the attempt is over |
| CrimsonExecutor.TesterExecutor.Run | tools/crimson/crimson_bench_tool.py:884-922 | a finished run has clients times threads rows in order, test_case_id is the number of rows, every row comes from the first attempt at its case that succeeds; otherwise the rows are a prefix and all attempts at the next case failed |
| CrimsonExecutor.TesterExecutor.RunCase | tools/crimson/crimson_bench_tool.py:895-922 | a case finishes if and only if one of its at most retry_limit + 1 attempts succeeds |
| CrimsonExecutor.SucceedsIff | tools/crimson/crimson_bench_tool.py:895-922 | an attempt succeeds exactly when the cluster starts and neither a warm-up nor the test raised a failure |
| CrimsonExecutor.Environment.RunThreads | tools/crimson/crimson_bench_tool.py:810-830 | threads are only ever started with DONE at 0 and no failure |
| CrimsonExecutor.Environment.BeforeRunCase | tools/crimson/crimson_bench_tool.py:1481-1484 | startup and warm-ups pass or raise a failure; after them DONE is 0 again |
| CrimsonExecutor.CaseAt | tools/crimson/crimson_bench_tool.py:887-889 | the row of the i-th client number and j-th thread number stands at i times the thread numbers plus j |
| Resampler.Conserves | tools/radosbenchparser.py:38-52 | for any samples and any cut of the time, the sum of weighted averages times interval lengths is the sum of values times clipped sample lengths |
| Resampler.AverageIsArea | tools/radosbenchparser.py:48-52 | the average is the integral of all series over the interval, divided by its length and the number of series |
| Resampler.GetIntervals | tools/radosbenchparser.py:87-97 | the intervals share out the time from 0 to ftime without gap or overlap, all of the given length but the last |
| Resampler.CutIs | tools/radosbenchparser.py:87-97 | the k-th interval starts at k steps and ends at k + 1, the last at ftime |
| Resampler.OneInterval | tools/radosbenchparser.py:87-97 | every moment lies in exactly one interval |
| Resampler.WeightsSumToOne | tools/radosbenchparser.py:152-158 | the weights of a series that covers an interval sum to one |
| Resampler.WeightIsShare | tools/radosbenchparser.py:152-158 | a weight is positive exactly when sample and interval overlap, and is then the share of the interval |
| Resampler.AverageBetween | tools/radosbenchparser.py:51-52 | the average over covering series lies between smallest and largest sample |
| Resampler.BlendIsMean | tools/radosbenchparser.py:54-76 | `get_wp` takes samples until the weight reaches n times p and returns a convex combination of the last two; with only one taken it is an error |
| Resampler.WpIs | tools/radosbenchparser.py:54-76 | `get_wp` in full, for any samples and any p: samples sorted by value, in order among equals, are taken until they weigh the number of series times p; with none taken, only one, or distances that cancel it is an error, else the last two are weighed each by the distance of the other |
| Resampler.ByValueStable | tools/radosbenchparser.py:56 | the sorting is stable |
| Resampler.WpBetween | tools/radosbenchparser.py:54-76 | the percentile lies between smallest and largest sample |
| Resampler.WpGrows | tools/radosbenchparser.py:54-76 | it is defined unless the smallest sample alone reaches the percentile, and does not fall as p grows |
| Resampler.NoMedian | tools/radosbenchparser.py:54-76 | a series of one sample, whose median is an error |
| Resampler.LineInOrder | tools/radosbenchparser.py:186-199 | a report line: minimum, average, maximum in order, and median, 90%, 95%, 99% in order within them |
| Resampler.ReportCovered | tools/radosbenchparser.py:87-97 | series that run from time 0 cover every interval of the report |
| Resampler.FtimeIsEarliestIff | tools/radosbenchparser.py:79-84 | exactly when `get_ftime` is the earliest end |
| Resampler.FtimeForgetsZero | tools/radosbenchparser.py:79-84 | the ends 0 and 5, of which it returns 5 |
| Resampler.GetFtime | tools/radosbenchparser.py:79-84 | the loop over the last samples; a series without samples is an error |
| Resampler.GetWp | tools/radosbenchparser.py:54-76 | the loop of `get_wp` stops at the first place that reaches the percentile |
| Resampler.GetWa | tools/radosbenchparser.py:38-42 | the loop adds value times weight |
| Resampler.GetWaList | tools/radosbenchparser.py:44-46 | one weighted average per series |
| Resampler.GetSamples | tools/radosbenchparser.py:29-30 | the overlapping samples of all series in order |
| Resampler.TimeSeries.GetSamples | tools/radosbenchparser.py:138-143 | the samples of a series with positive weight, in order |
| Resampler.TimeSeries.AddSample | tools/radosbenchparser.py:132-136 | appends the sample and keeps the first of those with the latest end |
| PooledStatistics.FoldDescribes | tools/gen_json_xtractor.py:245-250 | folding groups gives exactly the sample standard deviation, mean and size of all their data |
| PooledStatistics.FoldPools | tools/gen_json_xtractor.py:245-250 | it succeeds exactly for one group or when the first two have two samples, and nothing negative ever comes under the root |
| PooledStatistics.FoldFails | tools/gen_json_xtractor.py:245-250 | an empty group and one of a single sample before any third: the fold divides by zero |
| PooledStatistics.CombinedAdds | tools/gen_json_xtractor.py:33-50 | two groups combine exactly when they have two samples; count, sum and sum of squares add up |
| PooledStatistics.Remainder | tools/gen_json_xtractor.py:45-50 | what the distance of the two means adds to the variance |
| PooledStatistics.OrderIrrelevant | tools/gen_json_xtractor.py:248 | any order of the groups gives the same result |
| PooledStatistics.GroupingIrrelevant | tools/gen_json_xtractor.py:248 | folding two parts and then their results is the same as folding everything |
| PooledStatistics.FoldMeanPools | tools/gen_json_xtractor.py:241-244 | folding `combined_mean` gives the overall mean; it fails exactly when several groups start with two empty ones |
| PooledStatistics.MeansAgree | tools/gen_json_xtractor.py:241-250 | both folds carry the same mean |
| PooledStatistics.DescribesIff | tools/gen_json_xtractor.py:33-50 | count, sum and sum of squares are all that a group says of its data |
| Lispy.TokenizeIsLex | benchmark/lis.py:12-13 | for every text, padding parentheses and splitting finds each parenthesis and each longest stretch between |
| Lispy.TokensKeepText | benchmark/lis.py:12-13 | the tokens one behind the other are the text without its white space, and a parenthesis is a token by itself |
| Lispy.RoundTrip | benchmark/lis.py:40-41 | every expression, printed, parses to itself with its atoms converted |
| Lispy.ReadTokens | benchmark/lis.py:25-38 | the tokens of an expression read back, whatever follows |
| Lispy.ReadsIffBalanced | benchmark/lis.py:25-38 | reading succeeds if and only if the tokens start with a balanced expression, pops exactly that, and which error it raises otherwise |
| Lispy.ReadsBack | benchmark/lis.py:25-38 | what is returned is the expression whose tokens were popped |
| Lispy.ParsesIff | benchmark/lis.py:40-41 | parsing a text succeeds exactly when its tokens start with a balanced expression, and which error it raises otherwise |
| Lispy.RestIgnored | benchmark/lis.py:40-41 | text behind the first expression is ignored |
| Lispy.ReadFromTokens | benchmark/lis.py:25-38 | the recursive reader on the shared list |
| Lispy.ParseText | benchmark/lis.py:40-41 | tokenizing and reading put together |
| TopAverages.ProcessedBalanced | tools/parse-top.py:203-254 | after any n samples, n div 30 averages are emitted, each thirtieth of what the threads have in its samples; the total is what they have since; later entries are zero |
| TopAverages.AveragesAre | tools/parse-top.py:203-215 | in numbers: the first average, times 30, is what the threads have in samples 0 to 28, the v-th what they have in samples 30 v - 1 to 30 v + 28 |
| TopAverages.NothingLost | tools/parse-top.py:203-215 | thirty times the averages plus the total is the sum of all entries |
| TopAverages.TakenAllGrows | tools/parse-top.py:217-240 | a sample changes the series at its index only, and by what the total grows |
| TopAverages.TakenExactly | tools/parse-top.py:217-240 | a process adds its figures to the thread of its name and to no other |
| TopAverages.TakenAllIs | tools/parse-top.py:217-240 | a whole sample: each thread name gains the sum of the figures of its processes whose command the pattern takes and one of whose two ids is known when their turn comes; ids and names grow by the parent and the name of each such process with a new name; no other sample changes |
| TopAverages.ProcessedEntries | tools/parse-top.py:242-254 | over all samples the entry of every thread name at every sample is that sum |
| TopAverages.BalancedEmits | tools/parse-top.py:203-215 | emitting an average keeps the account |
| TopAverages.TopEntry.UpdateAvg | tools/parse-top.py:203-215 | every group's two averages, every thirty samples |
| TopAverages.TopEntry.AggregateProc | tools/parse-top.py:217-240 | the loop over the processes, and no other group changes |
| TopAverages.TopEntry.FilterMetrics | tools/parse-top.py:242-254 | the loop over the samples, for all groups |
| PgReport.PoolsAccounted | tools/readpgdump.py:205-234 | over any dump a pool's counts are those of its own placement groups: primaries sum to their number, both roles make up the total for every OSD |
| PgReport.CountsMean | tools/readpgdump.py:205-234 | each count is the number of times the OSD has the role |
| PgReport.TotalsSinceLastNew | tools/readpgdump.py:206-212 | the totals count the placement groups since the last new pool |
| PgReport.TotalsCompleteIff | tools/readpgdump.py:206-212 | they count all exactly when there is one pool |
| PgReport.TotalsLost | tools/readpgdump.py:206-212 | a dump of two pools whose totals leave out the first |
| PgReport.PgMap.AddCounts | tools/readpgdump.py:205-234 | one placement group more; without OSDs it is an error |
| PgReport.ReadAll | tools/readpgdump.py:256-261 | a whole dump |
| PgReport.EfficiencyScore | tools/readpgdump.py:64-76 | the score lies between 0 and 100 and is 100 exactly when no weighted load exceeds the mean |
| PgReport.MeanIs | tools/readpgdump.py:64-76 | the mean is the sum of the counts over their number, a load is the count times the weight, if there is one |
| PgReport.FillWeights | tools/readpgdump.py:236-243 | the weights make every load the mean, and there are no others |
| PgReport.ScoreOwnWeights | tools/readpgdump.py:158-163 | under its own weights a distribution scores 100, under no others more |
| PgReport.GetBest | tools/readpgdump.py:177-203 | `get_top` and `get_bottom` return the first entries of the stable sorting: their counts do not rise and no other entry has more, or do not fall and no other has less |
| PgReport.SortedStable | tools/readpgdump.py:177-203 | entries of one count stay in the order of the dictionary |
| PgReport.BestFirst | tools/readpgdump.py:181-188 | the sorting starts with the first best entry and goes on with the others |
| PgReport.SortedIsOrdered | tools/readpgdump.py:177-203 | nothing in the sorting is better than what comes before it |
| PgReport.SortedKeeps | tools/readpgdump.py:177-203 | the sorting holds the same entries |
| OsdCreation.MakeOsds | cluster/ceph.py:411-450 | threads are started, joined and post-processed in creation order; all of them unless one fails, at which it stops; OSD numbers count hosts, then devices; at no moment are more unjoined than the setting says, before the last start one is joined only when exactly that many are, and without a setting none before the last start |
| OsdCreation.LiveAtMost | cluster/ceph.py:434-441 | at no time are more threads unjoined than the setting allows |
| OsdCreation.OnceEach | cluster/ceph.py:434-450 | every thread is joined and post-processed once |
| OsdCreation.EveryDevice | cluster/ceph.py:416-443 | every host and device has the thread of its number |
| ParameterSweep.AllConfigs | benchmarkfactory.py:26-50 | as many configurations as the product of the list lengths, one for every choice of positions, in lexicographic order; in each a list other than that of `acceptable` gives way to one of its values, and everything else is as in the input |
| ParameterSweep.ProductAt | benchmarkfactory.py:47 | every choice of positions stands at its rank |
| ParameterSweep.RankUnrank | benchmarkfactory.py:47 | every place belongs to one choice |
| ParameterSweep.RankIsLexicographic | benchmarkfactory.py:47 | ranks order the choices lexicographically |
| ParameterSweep.ChoiceAgrees | benchmarkfactory.py:47-50 | a configuration has the input's keys, the chosen values for the swept ones and the input's for the rest, `acceptable` included |
| QueueDepth.CalculateFromTotal | benchmark/librbdfio.py:505-540 | min(volumes, total) volumes, depths of at least 1 that sum to the total, differ by at most 1 and do not rise; a zero minimum is a division error |
| QueueDepth.EvenIsBest | benchmark/librbdfio.py:505-540 | no other split has a smaller greatest or a greater smallest depth |
| QueueDepth.EvenIsUnique | benchmark/librbdfio.py:505-540 | the split is determined by this |

## Left out

- Remote execution, the file system, YAML and JSON loading, logging, sleeping and process control: only the order of commands is kept where a property needs it.
- Command-line builders for fio, rados and ceph, endpoint mounting, monitoring wrappers, plotting, report and page generation, the configuration wizard.
- The rest of d3: DOM, SVG, projections, colours, transitions, time formatting, the Fortune sweep that uses the tree.
- Floating-point rounding: all arithmetic on measured values is over exact reals.
- RedBlackTrees: the cached sweep fields that d3 keeps beside the six link and colour fields of a node.
- Hull: the accessor functions for x and y; the engine's sort, of which only a stable result is modelled.
- Dsv: object rows (`format`, `parse`), the row callback, and delimiters that mean something inside a regular-expression character class.
- DataJoin: keys are a function of datum and position, compared as the map's string keys are, not of the element itself; the sparse arrays are sequences with holes.
- RecoveryHandshake: `check_health` and `check_backfill` take one step and return; the main thread's wait polls all threads of the process, here only the recovery thread.
- RecoveryThread: `maybe_populate_recovery_pool` always counts as populating, although the source only writes objects if the configuration asks for some.
- CrimsonAttempt: a thread whose command cannot be built or parsed dies with an exception the tester does not see; commands here always start.
- CrimsonExecutor: the merging of result dictionaries, log directories and the CSV output.
- Resampler: reading and filtering the lines of a rados bench log; a step that is not positive, on which `get_intervals` does not end.
- PooledStatistics: `filter_json_node` and `process_fio_json_file`, which walk JSON documents.
- Lispy: evaluation, environments and `near`, which are direct; what Python's int and float accept as a number.
- TopAverages: the regular expressions themselves, sorting and plotting of jobs, the CPU range.
- PgReport: expected ranges with square root and logarithm, deviation from the maximum, parsing of the two input formats.
- OsdCreation: a join that times out counts as a join, as in the source, so the bound is on unjoined threads; that ceph assigns the numbers counted here.
- QueueDepth: for a negative minimum of volumes and total the quotient is not computed, since no volume receives it.
