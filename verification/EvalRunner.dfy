/** The concurrent evaluation runner (`pkg/eval/runner.go`): a semaphore bounds the goroutines in
    flight, a wait group counts them, and a mutex guards the report.  The function under evaluation
    and the evaluators are an oracle per example; scores are real numbers. */
module EvalRunner {
  import opened Sequences
  import opened Wrappers

  datatype Score = Score(key: string, value: real)

  datatype Example = Example(id: nat, input: string)

  datatype EvalRun = EvalRun(exampleId: nat, input: string, actual: string)

  /** What running and scoring the example at an index yields. */
  datatype Verdict = Verdict(actual: string, scores: seq<Score>)

  datatype Job = Job(dataset: seq<Example>, verdict: nat -> Verdict, concurrency: nat)

  /** `NewEvalRunner` replaces a non-positive concurrency by five. */
  function Concurrency(requested: int): (c: nat)
    ensures c >= 1 && (requested > 0 ==> c == requested) && (requested <= 0 ==> c == 5)
  {
    if requested <= 0 then 5 else requested
  }

  function RunOf(job: Job, i: nat): EvalRun
    requires i < |job.dataset|
  {
    EvalRun(job.dataset[i].id, job.dataset[i].input, job.verdict(i).actual)
  }

  // ---- the goroutines ----

  /** Where the goroutine that launches stands. */
  datatype Launcher = AtLoop | WantsSlot | AtWait | Done

  /** Where the goroutine of one example stands. */
  datatype Worker = Running | WantsLock | Locked | Written | Unlocked | SlotFreed | Gone

  /** `launched` goroutines have been started, for the first examples in order.  `order` lists the
      indices whose results were written, in the order of writing. */
  datatype World = World(launcher: Launcher, launched: nat, workers: map<nat, Worker>, slots: nat, waiting: nat,
                         lock: Option<nat>, runs: seq<EvalRun>, scoreMap: map<nat, seq<Score>>, order: seq<nat>)

  datatype Action =
    | Launch(cancelled: bool)   // the launcher's next step; `cancelled` is what its context answers
    | Work(index: nat)          // the next step of one goroutine

  function StepLauncher(job: Job, w: World, cancelled: bool): World {
    match w.launcher
    case AtLoop =>
      if w.launched == |job.dataset| || cancelled then w.(launcher := AtWait)
      else w.(launcher := WantsSlot, waiting := w.waiting + 1)
    case WantsSlot =>
      if w.slots < job.concurrency
      then w.(launcher := AtLoop, slots := w.slots + 1, workers := w.workers[w.launched := Running], launched := w.launched + 1)
      else w
    case AtWait => if w.waiting == 0 then w.(launcher := Done) else w
    case Done => w
  }

  function Move(w: World, i: nat, p: Worker): World {
    w.(workers := w.workers[i := p])
  }

  function StepWorker(job: Job, w: World, i: nat): World
    requires i in w.workers && i < |job.dataset|
  {
    match w.workers[i]
    case Running => Move(w, i, WantsLock)
    case WantsLock => if w.lock.None? then Move(w.(lock := Some(i)), i, Locked) else w
    case Locked =>
      Move(w.(runs := w.runs + [RunOf(job, i)], scoreMap := w.scoreMap[job.dataset[i].id := job.verdict(i).scores],
              order := w.order + [i]), i, Written)
    case Written => Move(w.(lock := None), i, Unlocked)
    case Unlocked => Move(w.(slots := if w.slots > 0 then w.slots - 1 else 0), i, SlotFreed)
    case SlotFreed => Move(w.(waiting := if w.waiting > 0 then w.waiting - 1 else 0), i, Gone)
    case Gone => w
  }

  function Step(job: Job, w: World, a: Action): World {
    match a
    case Launch(cancelled) => StepLauncher(job, w, cancelled)
    case Work(i) => if i in w.workers && i < |job.dataset| then StepWorker(job, w, i) else w
  }

  function Run(job: Job, actions: seq<Action>): World {
    if actions == [] then World(AtLoop, 0, map[], 0, 0, None, [], map[], [])
    else Step(job, Run(job, actions[..|actions| - 1]), actions[|actions| - 1])
  }

  // ---- the invariant ----

  predicate HoldsSlot(p: Worker) {
    p in {Running, WantsLock, Locked, Written, Unlocked}
  }

  predicate HasWritten(p: Worker) {
    p in {Written, Unlocked, SlotFreed, Gone}
  }

  function InFlight(w: World): set<nat> {
    set i | i in w.workers && HoldsSlot(w.workers[i])
  }

  function Alive(w: World): set<nat> {
    set i | i in w.workers && w.workers[i] != Gone
  }

  /** The score map after writing the results of the listed examples in that order. */
  function MapOf(job: Job, order: seq<nat>): map<nat, seq<Score>>
    requires forall k | 0 <= k < |order| :: order[k] < |job.dataset|
  {
    if order == [] then map[]
    else MapOf(job, order[..|order| - 1])[job.dataset[order[|order| - 1]].id := job.verdict(order[|order| - 1]).scores]
  }

  /** The counters count what they are meant to count. */
  ghost predicate Counted(job: Job, w: World) {
    && w.launched <= |job.dataset|
    && (forall i: nat :: i in w.workers <==> i < w.launched)
    && w.slots == |InFlight(w)| && w.slots <= job.concurrency
    && w.waiting == |Alive(w)| + (if w.launcher == WantsSlot then 1 else 0)
    && (w.launcher == WantsSlot ==> w.launched < |job.dataset|)
    && (w.launcher == Done ==> w.waiting == 0)
  }

  /** The mutex has at most one holder, and it is the one in the critical section. */
  ghost predicate Guarded(w: World) {
    && (forall i | i in w.workers :: w.workers[i] in {Locked, Written} <==> w.lock == Some(i))
    && (w.lock.Some? ==> w.lock.value in w.workers)
  }

  /** The report holds exactly what the writers wrote. */
  ghost predicate Reported(job: Job, w: World) {
    && Distinct(w.order)
    && (forall i | i in w.order :: i in w.workers && i < |job.dataset| && HasWritten(w.workers[i]))
    && (forall i | i in w.workers && HasWritten(w.workers[i]) :: i in w.order)
    && |w.runs| == |w.order|
    && (forall k | 0 <= k < |w.order| :: w.order[k] < |job.dataset| && w.runs[k] == RunOf(job, w.order[k]))
    && w.scoreMap == MapOf(job, w.order)
  }

  ghost predicate Invariant(job: Job, w: World) {
    Counted(job, w) && Guarded(w) && Reported(job, w)
  }

  lemma MovedSets(w: World, w': World, i: nat, p: Worker)
    requires i in w.workers && w'.workers == w.workers[i := p]
    ensures InFlight(w') == (if HoldsSlot(p) then InFlight(w) + {i} else InFlight(w) - {i})
    ensures Alive(w') == (if p != Gone then Alive(w) + {i} else Alive(w) - {i})
  {
  }

  lemma WorkKeepsCounted(job: Job, w: World, i: nat)
    requires Counted(job, w) && i in w.workers && i < |job.dataset|
    ensures Counted(job, StepWorker(job, w, i))
  {
    var p := w.workers[i];
    assert HoldsSlot(p) ==> i in InFlight(w);
    assert p != Gone ==> i in Alive(w);
    WorkMovesCounters(job, w, i);
    var w' := StepWorker(job, w, i);
    MovedCounts(w, w', i, w'.workers[i]);
  }

  lemma MovedCounts(w: World, w': World, i: nat, p: Worker)
    requires i in w.workers && w'.workers == w.workers[i := p]
    ensures |InFlight(w')| == |InFlight(w)| + (if HoldsSlot(p) then 1 else 0) - (if HoldsSlot(w.workers[i]) then 1 else 0)
    ensures |Alive(w')| == |Alive(w)| + (if p != Gone then 1 else 0) - (if w.workers[i] != Gone then 1 else 0)
  {
    MovedSets(w, w', i, p);
    Resized(InFlight(w), i);
    Resized(Alive(w), i);
  }

  /** A goroutine gives back its slot, and then its place in the wait group, when it stops holding them. */
  lemma WorkMovesCounters(job: Job, w: World, i: nat)
    requires i in w.workers && i < |job.dataset|
    requires (HoldsSlot(w.workers[i]) ==> w.slots > 0) && (w.workers[i] != Gone ==> w.waiting > 0)
    ensures var w' := StepWorker(job, w, i);
            && w'.launcher == w.launcher && w'.launched == w.launched && w'.workers == w.workers[i := w'.workers[i]]
            && w'.slots == w.slots - (if HoldsSlot(w.workers[i]) && !HoldsSlot(w'.workers[i]) then 1 else 0)
            && w'.waiting == w.waiting - (if w.workers[i] != Gone && w'.workers[i] == Gone then 1 else 0)
            && (HoldsSlot(w'.workers[i]) ==> HoldsSlot(w.workers[i])) && (w'.workers[i] != Gone ==> w.workers[i] != Gone)
  {
  }

  lemma Resized(s: set<nat>, i: nat)
    ensures |s - {i}| == |s| - (if i in s then 1 else 0)
    ensures |s + {i}| == |s| + (if i in s then 0 else 1)
  {
    if i in s { assert s + {i} == s; }
    if i in s { assert s == (s - {i}) + {i}; } else { assert s - {i} == s; }
  }

  lemma WriteKeepsReported(job: Job, w: World, i: nat)
    requires Reported(job, w) && i in w.workers && i < |job.dataset| && w.workers[i] == Locked
    ensures Reported(job, StepWorker(job, w, i))
  {
    var w' := StepWorker(job, w, i);
    assert i !in w.order;
    assert w'.order[..|w.order|] == w.order;
    assert Distinct(w'.order);
  }

  lemma WorkKeepsReported(job: Job, w: World, i: nat)
    requires Reported(job, w) && i in w.workers && i < |job.dataset|
    ensures Reported(job, StepWorker(job, w, i))
  {
    if w.workers[i] == Locked {
      WriteKeepsReported(job, w, i);
    }
  }

  lemma WorkKeepsGuarded(job: Job, w: World, i: nat)
    requires Guarded(w) && i in w.workers && i < |job.dataset|
    ensures Guarded(StepWorker(job, w, i))
  {
  }

  lemma WorkKeepsInvariant(job: Job, w: World, i: nat)
    requires Invariant(job, w) && i in w.workers && i < |job.dataset|
    ensures Invariant(job, StepWorker(job, w, i))
  {
    WorkKeepsCounted(job, w, i);
    WorkKeepsGuarded(job, w, i);
    WorkKeepsReported(job, w, i);
  }

  lemma LaunchOneCounts(job: Job, w: World)
    requires Counted(job, w) && w.launcher == WantsSlot && w.slots < job.concurrency
    ensures Counted(job, StepLauncher(job, w, false))
  {
    assert w.launched !in w.workers;
    LaunchSets(w, StepLauncher(job, w, false), w.launched);
  }

  lemma LaunchSets(w: World, w': World, i: nat)
    requires i !in w.workers && w'.workers == w.workers[i := Running]
    ensures |InFlight(w')| == |InFlight(w)| + 1 && |Alive(w')| == |Alive(w)| + 1
  {
    assert InFlight(w') == InFlight(w) + {i} && i !in InFlight(w);
    assert Alive(w') == Alive(w) + {i} && i !in Alive(w);
  }

  lemma LaunchOneKeepsRest(job: Job, w: World)
    requires Guarded(w) && Reported(job, w) && w.launcher == WantsSlot && w.slots < job.concurrency && w.launched !in w.workers
    ensures Guarded(StepLauncher(job, w, false)) && Reported(job, StepLauncher(job, w, false))
  {
  }

  lemma EmptyInvariant(job: Job)
    ensures Invariant(job, Run(job, []))
  {
    var w := Run(job, []);
    assert InFlight(w) == {} && Alive(w) == {};
    assert Counted(job, w) && Guarded(w) && Reported(job, w);
  }

  lemma LaunchKeepsInvariant(job: Job, w: World, cancelled: bool)
    requires Invariant(job, w)
    ensures Invariant(job, StepLauncher(job, w, cancelled))
  {
    var w' := StepLauncher(job, w, cancelled);
    if w'.launched > w.launched {
      LaunchOneCounts(job, w);
      LaunchOneKeepsRest(job, w);
    } else {
      assert InFlight(w') == InFlight(w) && Alive(w') == Alive(w);
    }
  }

  lemma {:induction false} RunKeepsInvariant(job: Job, actions: seq<Action>)
    ensures Invariant(job, Run(job, actions))
    decreases |actions|
  {
    if actions == [] {
      EmptyInvariant(job);
    } else {
      RunKeepsInvariant(job, actions[..|actions| - 1]);
      var w := Run(job, actions[..|actions| - 1]);
      match actions[|actions| - 1]
      case Launch(cancelled) => LaunchKeepsInvariant(job, w, cancelled);
      case Work(i) => if i in w.workers && i < |job.dataset| { WorkKeepsInvariant(job, w, i); }
    }
  }

  // ---- what every interleaving guarantees ----

  /** At no point do more than `concurrency` examples hold a slot. */
  lemma BoundedConcurrency(job: Job, actions: seq<Action>)
    ensures |InFlight(Run(job, actions))| <= job.concurrency
  {
    RunKeepsInvariant(job, actions);
  }

  function Upto(n: nat): (s: seq<nat>)
    ensures |s| == n && forall i | 0 <= i < n :: s[i] == i
  {
    seq(n, i => i)
  }

  function RunsOf(job: Job, order: seq<nat>): (runs: seq<EvalRun>)
    requires forall k | 0 <= k < |order| :: order[k] < |job.dataset|
    ensures |runs| == |order|
    ensures forall k | 0 <= k < |order| ::
      runs[k] == EvalRun(job.dataset[order[k]].id, job.dataset[order[k]].input, job.verdict(order[k]).actual)
  {
    seq(|order|, k requires 0 <= k < |order| && forall j | 0 <= j < |order| :: order[j] < |job.dataset| => RunOf(job, order[k]))
  }

  lemma {:induction false} PermutedRuns(job: Job, a: seq<nat>, b: seq<nat>)
    requires multiset(a) == multiset(b)
    requires (forall k | 0 <= k < |a| :: a[k] < |job.dataset|) && forall k | 0 <= k < |b| :: b[k] < |job.dataset|
    ensures multiset(RunsOf(job, a)) == multiset(RunsOf(job, b))
    decreases |a|
  {
    if a == [] {
      assert |multiset(b)| == 0;
    } else {
      var x, front := a[|a| - 1], a[..|a| - 1];
      assert a == front + [x];
      var rest := WithoutOne(b, x);
      CancelOne(multiset(front), multiset(rest), x);
      WithoutOneStays(job, b, x);
      RunsWithoutOne(job, b, rest, x);
      PermutedRuns(job, front, rest);
      RunsOfLonger(job, front, x);
    }
  }

  function WithoutOne(s: seq<nat>, x: nat): (rest: seq<nat>)
    requires x in multiset(s)
    ensures multiset(s) == multiset(rest) + multiset{x} && forall y | y in rest :: y in s
  {
    var front, last := s[..|s| - 1], s[|s| - 1];
    assert s == front + [last];
    if last == x then front else
      assert x in multiset(front);
      WithoutOne(front, x) + [last]
  }

  lemma WithoutOneStays(job: Job, s: seq<nat>, x: nat)
    requires x in multiset(s) && forall k | 0 <= k < |s| :: s[k] < |job.dataset|
    ensures x < |job.dataset| && forall k | 0 <= k < |WithoutOne(s, x)| :: WithoutOne(s, x)[k] < |job.dataset|
  {
    forall k | 0 <= k < |WithoutOne(s, x)| ensures WithoutOne(s, x)[k] < |job.dataset| {
      assert WithoutOne(s, x)[k] in s;
    }
  }

  lemma {:induction false} RunsWithoutOne(job: Job, s: seq<nat>, rest: seq<nat>, x: nat)
    requires x in multiset(s) && rest == WithoutOne(s, x)
    requires forall k | 0 <= k < |s| :: s[k] < |job.dataset|
    requires (forall k | 0 <= k < |rest| :: rest[k] < |job.dataset|) && x < |job.dataset|
    ensures multiset(RunsOf(job, s)) == multiset(RunsOf(job, rest)) + multiset{RunOf(job, x)}
    decreases |s|
  {
    var front, last := s[..|s| - 1], s[|s| - 1];
    assert s == front + [last];
    if last == x {
      RunsOfLonger(job, front, x);
    } else {
      assert x in multiset(front);
      var shorter := WithoutOne(front, x);
      WithoutOneStays(job, front, x);
      RunsWithoutOne(job, front, shorter, x);
      RunsBothLonger(job, front, shorter, last, x);
    }
  }

  lemma RunsBothLonger(job: Job, front: seq<nat>, shorter: seq<nat>, last: nat, x: nat)
    requires last < |job.dataset| && x < |job.dataset| && forall k | 0 <= k < |front| :: front[k] < |job.dataset|
    requires forall k | 0 <= k < |shorter| :: shorter[k] < |job.dataset|
    requires multiset(RunsOf(job, front)) == multiset(RunsOf(job, shorter)) + multiset{RunOf(job, x)}
    ensures multiset(RunsOf(job, front + [last])) == multiset(RunsOf(job, shorter + [last])) + multiset{RunOf(job, x)}
  {
    RunsOfLonger(job, front, last);
    RunsOfLonger(job, shorter, last);
  }

  lemma RunsOfLonger(job: Job, front: seq<nat>, last: nat)
    requires last < |job.dataset| && forall k | 0 <= k < |front| :: front[k] < |job.dataset|
    ensures multiset(RunsOf(job, front + [last])) == multiset(RunsOf(job, front)) + multiset{RunOf(job, last)}
  {
    assert RunsOf(job, front + [last]) == RunsOf(job, front) + [RunOf(job, last)];
  }

  /** When the runner is done, every launched example has written, and the runs are a permutation of
      the runs of the launched prefix of the dataset. */
  lemma DoneMeansPrefixReported(job: Job, actions: seq<Action>)
    requires Run(job, actions).launcher == Done
    ensures var w := Run(job, actions);
            && w.launched <= |job.dataset|
            && multiset(w.order) == multiset(Upto(w.launched))
            && multiset(w.runs) == multiset(RunsOf(job, Upto(w.launched)))
  {
    RunKeepsInvariant(job, actions);
    var w := Run(job, actions);
    assert Alive(w) == {};
    forall x: nat ensures x in w.order <==> x in Upto(w.launched) {
      if x < w.launched {
        assert x in w.workers;
        assert x in Alive(w) <==> w.workers[x] != Gone;
        assert Upto(w.launched)[x] == x;
      }
    }
    SameElements(w.order, Upto(w.launched));
    PermutedRuns(job, w.order, Upto(w.launched));
    assert w.runs == RunsOf(job, w.order);
  }

  /** The launcher has met a cancellation before an example that it had not launched. */
  ghost predicate CutShort(job: Job, actions: seq<Action>) {
    exists k :: 0 <= k < |actions| && CutAt(job, actions, k)
  }

  ghost predicate CutAt(job: Job, actions: seq<Action>, k: nat)
    requires k < |actions|
  {
    var w := Run(job, actions[..k]);
    actions[k] == Launch(true) && w.launcher == AtLoop && w.launched < |job.dataset|
  }

  /** How the launcher stands, given whether it was cut short. */
  ghost predicate StandsAs(job: Job, w: World, cut: bool) {
    && (cut ==> w.launcher in {AtWait, Done} && w.launched < |job.dataset|)
    && (!cut && w.launcher in {AtWait, Done} ==> w.launched == |job.dataset|)
  }

  lemma StandsAfterStep(job: Job, w: World, a: Action, cut: bool)
    requires Counted(job, w) && StandsAs(job, w, cut)
    ensures StandsAs(job, Step(job, w, a), cut || (a == Launch(true) && w.launcher == AtLoop && w.launched < |job.dataset|))
  {
    match a
    case Launch(_) =>
    case Work(i) =>
      if i in w.workers && i < |job.dataset| {
        assert Step(job, w, a).launcher == w.launcher && Step(job, w, a).launched == w.launched;
      }
  }

  /** The launcher leaves its loop with the whole dataset launched, unless a cancellation cut it short. */
  lemma {:induction false} StopsEarlyIffCut(job: Job, actions: seq<Action>)
    ensures StandsAs(job, Run(job, actions), CutShort(job, actions))
    decreases |actions|
  {
    if actions != [] {
      var front, a := actions[..|actions| - 1], actions[|actions| - 1];
      StopsEarlyIffCut(job, front);
      RunKeepsInvariant(job, front);
      StandsAfterStep(job, Run(job, front), a, CutShort(job, front));
      CutOneMore(job, front, a);
      assert front + [a] == actions;
    }
  }

  lemma CutOneMore(job: Job, front: seq<Action>, a: Action)
    ensures CutShort(job, front + [a]) <==> CutShort(job, front) || CutAt(job, front + [a], |front|)
  {
    var actions := front + [a];
    forall k: nat | k < |front| ensures CutAt(job, actions, k) <==> CutAt(job, front, k) {
      assert actions[..k] == front[..k];
    }
    if CutShort(job, front) {
      var k :| 0 <= k < |front| && CutAt(job, front, k);
      assert CutAt(job, actions, k);
    }
    if CutShort(job, actions) {
      var k :| 0 <= k < |actions| && CutAt(job, actions, k);
      assert k < |front| ==> CutAt(job, front, k);
    }
  }

  /** A run that is done has launched, and so reported, the whole dataset exactly when no cancellation cut
      it short; then every example has its run, with its own input and outcome, and nothing else is there. */
  lemma WholeDatasetReported(job: Job, actions: seq<Action>)
    requires Run(job, actions).launcher == Done
    ensures var w := Run(job, actions);
            && (w.launched == |job.dataset| <==> !CutShort(job, actions))
            && ((forall k | 0 <= k < |actions| :: actions[k] != Launch(true)) ==> w.launched == |job.dataset|)
            && (!CutShort(job, actions) ==>
                  |w.runs| == |job.dataset| && multiset(w.runs) == multiset(RunsOf(job, Upto(|job.dataset|))))
  {
    StopsEarlyIffCut(job, actions);
    DoneMeansPrefixReported(job, actions);
    RunKeepsInvariant(job, actions);
    if !CutShort(job, actions) {
      var all := RunsOf(job, Upto(|job.dataset|));
      assert |multiset(Run(job, actions).runs)| == |multiset(all)|;
    }
  }

  lemma FlyingIsAlive(w: World)
    ensures InFlight(w) <= Alive(w) && (Alive(w) == {} ==> |InFlight(w)| == 0)
  {
  }

  /** No interleaving gets stuck: until the runner is done, somebody can take a step. */
  lemma NeverStuck(job: Job, actions: seq<Action>) returns (a: Action)
    requires job.concurrency >= 1 && Run(job, actions).launcher != Done
    ensures Step(job, Run(job, actions), a) != Run(job, actions)
  {
    RunKeepsInvariant(job, actions);
    var w := Run(job, actions);
    if w.launcher == AtLoop || (w.launcher == WantsSlot && w.slots < job.concurrency) || (w.launcher == AtWait && w.waiting == 0) {
      return Launch(true);
    }
    if w.lock.Some? {
      return Work(w.lock.value);
    }
    FlyingIsAlive(w);
    var i: nat :| i in Alive(w);
    return Work(i);
  }

  lemma {:induction false} MapHolds(job: Job, order: seq<nat>, id: nat)
    requires forall k | 0 <= k < |order| :: order[k] < |job.dataset|
    ensures id in MapOf(job, order) <==> exists k :: 0 <= k < |order| && job.dataset[order[k]].id == id
    decreases |order|
  {
    if order != [] {
      var front := order[..|order| - 1];
      MapHolds(job, front, id);
      if id in MapOf(job, front) {
        var k :| 0 <= k < |front| && job.dataset[front[k]].id == id;
        assert job.dataset[order[k]].id == id;
      }
      if k :| 0 <= k < |order| && job.dataset[order[k]].id == id {
        assert k < |front| ==> job.dataset[front[k]].id == id;
      }
    }
  }

  // ---- every run ends ----

  /** The steps a goroutine has still to take. */
  function StepsOf(p: Worker): nat {
    match p
    case Running => 6
    case WantsLock => 5
    case Locked => 4
    case Written => 3
    case Unlocked => 2
    case SlotFreed => 1
    case Gone => 0
  }

  function WorkLeft(workers: map<nat, Worker>, n: nat): nat {
    if n == 0 then 0 else WorkLeft(workers, n - 1) + if n - 1 in workers then StepsOf(workers[n - 1]) else 0
  }

  /** A bound on the effective steps that all goroutines together can still take. */
  function StepsLeft(job: Job, w: World): int {
    WorkLeft(w.workers, w.launched)
    + match w.launcher
      case AtLoop => 8 * (|job.dataset| - w.launched) + 2
      case WantsSlot => 8 * (|job.dataset| - w.launched) + 1
      case AtWait => 1
      case Done => 0
  }

  lemma {:induction false} WorkLeftAfter(workers: map<nat, Worker>, i: nat, p: Worker, n: nat)
    ensures WorkLeft(workers[i := p], n)
         == WorkLeft(workers, n) + if i < n then StepsOf(p) - (if i in workers then StepsOf(workers[i]) else 0) else 0
  {
    if n > 0 { WorkLeftAfter(workers, i, p, n - 1); }
  }

  lemma WorkerStepLowers(job: Job, w: World, i: nat)
    requires i in w.workers && i < |job.dataset| && StepWorker(job, w, i) != w
    ensures var w' := StepWorker(job, w, i);
            && w'.launcher == w.launcher && w'.launched == w.launched
            && w'.workers == w.workers[i := w'.workers[i]] && StepsOf(w'.workers[i]) < StepsOf(w.workers[i])
  {
  }

  /** Every step that changes anything brings the run closer to its end. */
  lemma EffectiveStepLowers(job: Job, w: World, a: Action)
    requires Counted(job, w) && Step(job, w, a) != w
    ensures 0 <= StepsLeft(job, Step(job, w, a)) < StepsLeft(job, w)
  {
    match a
    case Work(i) =>
      WorkerStepLowers(job, w, i);
      WorkLeftAfter(w.workers, i, StepWorker(job, w, i).workers[i], w.launched);
    case Launch(cancelled) =>
      if w.launcher == WantsSlot { WorkLeftAfter(w.workers, w.launched, Running, w.launched + 1); }
  }

  function EffectiveSteps(job: Job, actions: seq<Action>): nat {
    if actions == [] then 0
    else
      var front := actions[..|actions| - 1];
      EffectiveSteps(job, front) + if Run(job, actions) != Run(job, front) then 1 else 0
  }

  /** No interleaving takes more than eight effective steps for each example, and two. */
  lemma {:induction false} EffectiveStepsBounded(job: Job, actions: seq<Action>)
    ensures EffectiveSteps(job, actions) + StepsLeft(job, Run(job, actions)) <= 8 * |job.dataset| + 2
    ensures StepsLeft(job, Run(job, actions)) >= 0
    decreases |actions|
  {
    if actions != [] {
      var front := actions[..|actions| - 1];
      EffectiveStepsBounded(job, front);
      RunKeepsInvariant(job, front);
      if Run(job, actions) != Run(job, front) {
        EffectiveStepLowers(job, Run(job, front), actions[|actions| - 1]);
      }
    }
  }

  lemma CanAdvance(job: Job, actions: seq<Action>) returns (a: Action)
    requires job.concurrency >= 1 && Run(job, actions).launcher != Done
    ensures 0 <= StepsLeft(job, Run(job, actions + [a])) < StepsLeft(job, Run(job, actions))
  {
    a := NeverStuck(job, actions);
    RunKeepsInvariant(job, actions);
    EffectiveStepLowers(job, Run(job, actions), a);
    assert (actions + [a])[..|actions|] == actions;
  }

  /** And from wherever an interleaving stands, the runner can be brought to its end, whatever
      concurrency was requested. */
  lemma CanFinish(job: Job, actions: seq<Action>, requested: int) returns (whole: seq<Action>)
    requires job.concurrency == Concurrency(requested)
    ensures actions <= whole && |whole| <= |actions| + StepsLeft(job, Run(job, actions))
    ensures Run(job, whole).launcher == Done
  {
    EffectiveStepsBounded(job, actions);
    whole := FinishWithin(job, actions, StepsLeft(job, Run(job, actions)));
  }

  lemma {:induction false} FinishWithin(job: Job, actions: seq<Action>, steps: nat) returns (whole: seq<Action>)
    requires job.concurrency >= 1 && StepsLeft(job, Run(job, actions)) <= steps
    ensures actions <= whole && |whole| <= |actions| + steps && Run(job, whole).launcher == Done
    decreases steps
  {
    whole := actions;
    if Run(job, actions).launcher != Done {
      var a := CanAdvance(job, actions);
      whole := FinishWithin(job, actions + [a], steps - 1);
    }
  }

  // ---- the order of completion ----

  /** With distinct example ids the score map depends only on which examples were launched. */
  lemma {:induction false} DistinctIdsFixMap(job: Job, order: seq<nat>)
    requires Distinct(order) && forall k | 0 <= k < |order| :: order[k] < |job.dataset|
    requires forall i, j | 0 <= i < j < |job.dataset| :: job.dataset[i].id != job.dataset[j].id
    ensures forall k | 0 <= k < |order| ::
      job.dataset[order[k]].id in MapOf(job, order) && MapOf(job, order)[job.dataset[order[k]].id] == job.verdict(order[k]).scores
    decreases |order|
  {
    if order != [] {
      var front, last := order[..|order| - 1], order[|order| - 1];
      DistinctIdsFixMap(job, front);
      forall k | 0 <= k < |front| ensures front[k] == order[k] && job.dataset[order[k]].id != job.dataset[last].id {
        assert order[k] != order[|order| - 1];
      }
    }
  }

  /** With distinct ids the score map of a run that is done holds, for every launched example, exactly its
      own scores, and no others. */
  lemma DoneMeansAllScored(job: Job, actions: seq<Action>)
    requires forall i, j | 0 <= i < j < |job.dataset| :: job.dataset[i].id != job.dataset[j].id
    requires Run(job, actions).launcher == Done
    ensures var w := Run(job, actions);
            && w.launched <= |job.dataset|
            && (forall i | 0 <= i < w.launched ::
                  job.dataset[i].id in w.scoreMap && w.scoreMap[job.dataset[i].id] == job.verdict(i).scores)
            && (forall id | id in w.scoreMap :: exists i :: 0 <= i < w.launched && job.dataset[i].id == id)
  {
    DoneMeansPrefixReported(job, actions);
    RunKeepsInvariant(job, actions);
    var w := Run(job, actions);
    DistinctIdsFixMap(job, w.order);
    forall i | 0 <= i < w.launched
      ensures job.dataset[i].id in w.scoreMap && w.scoreMap[job.dataset[i].id] == job.verdict(i).scores
    {
      assert Upto(w.launched)[i] in multiset(w.order);
      var k :| 0 <= k < |w.order| && w.order[k] == i;
    }
    forall id | id in w.scoreMap ensures exists i :: 0 <= i < w.launched && job.dataset[i].id == id {
      MapHolds(job, w.order, id);
      var k :| 0 <= k < |w.order| && job.dataset[w.order[k]].id == id;
      assert w.order[k] in multiset(Upto(w.launched));
      assert w.order[k] < w.launched;
    }
  }

  /** Two complete runs that launched equally many examples report the same scores, whatever the
      order in which their goroutines finished. */
  lemma CompletionOrderIrrelevant(job: Job, one: seq<Action>, other: seq<Action>)
    requires forall i, j | 0 <= i < j < |job.dataset| :: job.dataset[i].id != job.dataset[j].id
    requires Run(job, one).launcher == Done && Run(job, other).launcher == Done
    requires Run(job, one).launched == Run(job, other).launched
    ensures Run(job, one).scoreMap == Run(job, other).scoreMap
    ensures multiset(Run(job, one).runs) == multiset(Run(job, other).runs)
  {
    DoneMeansPrefixReported(job, one);
    DoneMeansPrefixReported(job, other);
    RunKeepsInvariant(job, one);
    RunKeepsInvariant(job, other);
    SameMap(job, Run(job, one).order, Run(job, other).order);
  }

  lemma SameMap(job: Job, a: seq<nat>, b: seq<nat>)
    requires multiset(a) == multiset(b) && Distinct(a) && Distinct(b)
    requires (forall k | 0 <= k < |a| :: a[k] < |job.dataset|) && forall k | 0 <= k < |b| :: b[k] < |job.dataset|
    requires forall i, j | 0 <= i < j < |job.dataset| :: job.dataset[i].id != job.dataset[j].id
    ensures MapOf(job, a) == MapOf(job, b)
  {
    MapFromOther(job, a, b);
    MapFromOther(job, b, a);
  }

  lemma MapFromOther(job: Job, a: seq<nat>, b: seq<nat>)
    requires multiset(a) == multiset(b) && Distinct(a) && Distinct(b)
    requires (forall k | 0 <= k < |a| :: a[k] < |job.dataset|) && forall k | 0 <= k < |b| :: b[k] < |job.dataset|
    requires forall i, j | 0 <= i < j < |job.dataset| :: job.dataset[i].id != job.dataset[j].id
    ensures forall id | id in MapOf(job, a) :: id in MapOf(job, b) && MapOf(job, b)[id] == MapOf(job, a)[id]
  {
    DistinctIdsFixMap(job, a);
    DistinctIdsFixMap(job, b);
    forall id | id in MapOf(job, a) ensures id in MapOf(job, b) && MapOf(job, b)[id] == MapOf(job, a)[id] {
      MapHolds(job, a, id);
      var k :| 0 <= k < |a| && job.dataset[a[k]].id == id;
      assert a[k] in multiset(b);
      var m :| 0 <= m < |b| && b[m] == a[k];
    }
  }

  // ---- the mean per evaluator ----

  /** Sum and number of the scores with a key. */
  function Total(scores: seq<Score>, key: string): real {
    if scores == [] then 0.0
    else Total(scores[..|scores| - 1], key) + (if scores[|scores| - 1].key == key then scores[|scores| - 1].value else 0.0)
  }

  function Count(scores: seq<Score>, key: string): nat {
    if scores == [] then 0
    else Count(scores[..|scores| - 1], key) + (if scores[|scores| - 1].key == key then 1 else 0)
  }

  /** A score counts under its own key with its value and under no other, and lists of scores add up. */
  lemma {:induction false} ScoresAddUp(a: seq<Score>, b: seq<Score>, s: Score, key: string)
    ensures Total([s], key) == (if s.key == key then s.value else 0.0) && Count([s], key) == (if s.key == key then 1 else 0)
    ensures Total(a + b, key) == Total(a, key) + Total(b, key) && Count(a + b, key) == Count(a, key) + Count(b, key)
    decreases |b|
  {
    assert [s][..0] == [];
    if b == [] {
      assert a + b == a;
    } else {
      assert (a + b)[..|a + b| - 1] == a + b[..|b| - 1];
      ScoresAddUp(a, b[..|b| - 1], s, key);
    }
  }

  /** So do the lists of several examples. */
  lemma {:induction false} ExamplesAddUp(scoreMap: map<nat, seq<Score>>, a: seq<nat>, id: nat, key: string)
    requires Keyed(scoreMap, a) && id in scoreMap
    ensures Keyed(scoreMap, a + [id])
    ensures TotalOver(scoreMap, a + [id], key) == TotalOver(scoreMap, a, key) + Total(scoreMap[id], key)
    ensures CountOver(scoreMap, a + [id], key) == CountOver(scoreMap, a, key) + Count(scoreMap[id], key)
  {
    assert (a + [id])[..|a|] == a;
  }

  ghost predicate Keyed(scoreMap: map<nat, seq<Score>>, ids: seq<nat>) {
    forall k | 0 <= k < |ids| :: ids[k] in scoreMap
  }

  function TotalOver(scoreMap: map<nat, seq<Score>>, ids: seq<nat>, key: string): real
    requires Keyed(scoreMap, ids)
  {
    if ids == [] then 0.0
    else TotalOver(scoreMap, ids[..|ids| - 1], key) + Total(scoreMap[ids[|ids| - 1]], key)
  }

  function CountOver(scoreMap: map<nat, seq<Score>>, ids: seq<nat>, key: string): nat
    requires Keyed(scoreMap, ids)
  {
    if ids == [] then 0
    else CountOver(scoreMap, ids[..|ids| - 1], key) + Count(scoreMap[ids[|ids| - 1]], key)
  }

  lemma {:induction false} OverWithoutOne(scoreMap: map<nat, seq<Score>>, s: seq<nat>, x: nat, key: string)
    requires x in multiset(s) && Keyed(scoreMap, s)
    ensures Keyed(scoreMap, WithoutOne(s, x)) && x in scoreMap
    ensures TotalOver(scoreMap, s, key) == TotalOver(scoreMap, WithoutOne(s, x), key) + Total(scoreMap[x], key)
    ensures CountOver(scoreMap, s, key) == CountOver(scoreMap, WithoutOne(s, x), key) + Count(scoreMap[x], key)
    decreases |s|
  {
    var front, last := s[..|s| - 1], s[|s| - 1];
    assert s == front + [last];
    if last != x {
      assert x in multiset(front);
      OverWithoutOne(scoreMap, front, x, key);
      assert WithoutOne(s, x)[..|WithoutOne(s, x)| - 1] == WithoutOne(front, x);
    }
  }

  /** Sums over a map do not depend on the order of iteration. */
  lemma {:induction false} OrderIrrelevant(scoreMap: map<nat, seq<Score>>, a: seq<nat>, b: seq<nat>, key: string)
    requires Keyed(scoreMap, a) && Keyed(scoreMap, b) && multiset(a) == multiset(b)
    ensures TotalOver(scoreMap, a, key) == TotalOver(scoreMap, b, key)
    ensures CountOver(scoreMap, a, key) == CountOver(scoreMap, b, key)
    decreases |a|
  {
    if a == [] {
      assert |multiset(b)| == 0;
    } else {
      var x, front := a[|a| - 1], a[..|a| - 1];
      assert a == front + [x];
      CancelOne(multiset(front), multiset(WithoutOne(b, x)), x);
      OverWithoutOne(scoreMap, b, x, key);
      OrderIrrelevant(scoreMap, front, WithoutOne(b, x), key);
    }
  }

  ghost predicate Lists(ids: seq<nat>, keys: set<nat>) {
    Distinct(ids) && forall x: nat :: x in ids <==> x in keys
  }

  function Plus(sums: map<string, real>, key: string, value: real): map<string, real> {
    sums[key := (if key in sums then sums[key] else 0.0) + value]
  }

  function At(sums: map<string, real>, key: string): real {
    if key in sums then sums[key] else 0.0
  }

  function CountAt(counts: map<string, nat>, key: string): nat {
    if key in counts then counts[key] else 0
  }

  method AddScores(scores: seq<Score>, sums: map<string, real>, counts: map<string, nat>)
    returns (sums': map<string, real>, counts': map<string, nat>)
    ensures forall key :: At(sums', key) == At(sums, key) + Total(scores, key)
    ensures forall key :: CountAt(counts', key) == CountAt(counts, key) + Count(scores, key)
  {
    sums', counts' := sums, counts;
    for i := 0 to |scores|
      invariant forall key :: At(sums', key) == At(sums, key) + Total(scores[..i], key)
      invariant forall key :: CountAt(counts', key) == CountAt(counts, key) + Count(scores[..i], key)
    {
      assert scores[..i + 1][..i] == scores[..i];
      sums' := Plus(sums', scores[i].key, scores[i].value);
      counts' := counts'[scores[i].key := CountAt(counts', scores[i].key) + 1];
    }
    assert scores[..|scores|] == scores;
  }

  /** `aggregateScores`: the mean per evaluator, the same for every order in which the map may be iterated. */
  method AggregateScores(scoreMap: map<nat, seq<Score>>, evaluators: seq<string>) returns (means: map<string, real>)
    ensures forall ids, key | Lists(ids, scoreMap.Keys) ::
      && Keyed(scoreMap, ids)
      && (key in means <==> key in evaluators && CountOver(scoreMap, ids, key) > 0)
      && (key in means ==> means[key] == TotalOver(scoreMap, ids, key) / CountOver(scoreMap, ids, key) as real)
  {
    var sums: map<string, real> := map[];
    var counts: map<string, nat> := map[];
    var rest := scoreMap.Keys;
    ghost var visited: seq<nat> := [];
    while rest != {}
      invariant rest <= scoreMap.Keys && Lists(visited, scoreMap.Keys - rest) && Keyed(scoreMap, visited)
      invariant forall key :: At(sums, key) == TotalOver(scoreMap, visited, key)
      invariant forall key :: CountAt(counts, key) == CountOver(scoreMap, visited, key)
      decreases rest
    {
      var id :| id in rest;
      rest := rest - {id};
      sums, counts := AddScores(scoreMap[id], sums, counts);
      assert (visited + [id])[..|visited|] == visited;
      assert id !in visited;
      visited := visited + [id];
    }
    means := map[];
    for i := 0 to |evaluators|
      invariant forall key :: key in means <==> key in evaluators[..i] && CountAt(counts, key) > 0
      invariant forall key | key in means :: means[key] == At(sums, key) / CountAt(counts, key) as real
    {
      var n := CountAt(counts, evaluators[i]);
      if n > 0 {
        means := means[evaluators[i] := At(sums, evaluators[i]) / n as real];
      }
    }
    assert evaluators[..|evaluators|] == evaluators;
    forall ids, key | Lists(ids, scoreMap.Keys)
      ensures Keyed(scoreMap, ids)
      ensures TotalOver(scoreMap, ids, key) == At(sums, key) && CountOver(scoreMap, ids, key) == CountAt(counts, key)
    {
      SameElements(ids, visited);
      OrderIrrelevant(scoreMap, ids, visited, key);
    }
  }
}
