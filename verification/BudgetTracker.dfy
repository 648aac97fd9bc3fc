/** The shared token counter (`pkg/middleware/budget.go`): `Consume` is a load followed by a
    compare-and-swap, retried until it is refused or wins.  Any number of calls run at once; each
    call is identified by a number, and an action is one atomic access by one call. */
module BudgetTracker {
  import opened Wrappers

  /** Where a call of `Consume(n)` stands.  `loadedAt` is the length of the history at its last load. */
  datatype Phase =
    | Idle
    | Called(n: int, calledAt: nat)
    | Loaded(n: int, calledAt: nat, cur: int, loadedAt: nat)
    | Returned(n: int, granted: bool, calledAt: nat, index: nat, returnedAt: nat)

  /** One entry of the sequential history: a call taking effect. */
  datatype Effect = Effect(call: nat, n: int, granted: bool)

  /** `history` lists the effects in the order in which they happened. */
  datatype World = World(remaining: int, calls: map<nat, Phase>, history: seq<Effect>)

  datatype Action =
    | Call(call: nat, n: int)
    | Load(call: nat)
    | CompareAndSwap(call: nat)

  function PhaseOf(w: World, call: nat): Phase {
    if call in w.calls then w.calls[call] else Idle
  }

  function SetPhase(w: World, call: nat, p: Phase): World {
    w.(calls := w.calls[call := p])
  }

  /** One atomic step; an action that its call is not ready for changes nothing. */
  function Step(w: World, a: Action): World {
    match a
    case Call(call, n) =>
      if PhaseOf(w, call).Idle? then SetPhase(w, call, Called(n, |w.history|)) else w
    case Load(call) =>
      (match PhaseOf(w, call)
       case Called(n, calledAt) =>
         if w.remaining - n < 0 then
           // refused on the spot: the refusal takes effect at this load
           SetPhase(w.(history := w.history + [Effect(call, n, false)]), call,
                    Returned(n, false, calledAt, |w.history|, |w.history| + 1))
         else SetPhase(w, call, Loaded(n, calledAt, w.remaining, |w.history|))
       case _ => w)
    case CompareAndSwap(call) =>
      (match PhaseOf(w, call)
       case Loaded(n, calledAt, cur, _) =>
         if w.remaining == cur then
           SetPhase(w.(remaining := cur - n, history := w.history + [Effect(call, n, true)]), call,
                    Returned(n, true, calledAt, |w.history|, |w.history| + 1))
         else SetPhase(w, call, Called(n, calledAt))
       case _ => w)
  }

  function Run(w: World, actions: seq<Action>): World {
    if actions == [] then w else Step(Run(w, actions[..|actions| - 1]), actions[|actions| - 1])
  }

  function Start(budget: int): World {
    World(budget, map[], [])
  }

  // ---- the sequential meaning ----

  function Granted(history: seq<Effect>): int {
    if history == [] then 0
    else Granted(history[..|history| - 1]) + (if history[|history| - 1].granted then history[|history| - 1].n else 0)
  }

  /** A one-at-a-time execution: each entry is granted exactly when the budget left by the earlier
      entries covers it. */
  ghost predicate Legal(budget: int, history: seq<Effect>) {
    forall i | 0 <= i < |history| :: history[i].granted <==> history[i].n <= budget - Granted(history[..i])
  }

  /** No call takes effect twice. */
  ghost predicate OncePerCall(history: seq<Effect>) {
    forall i, j | 0 <= i < j < |history| :: history[i].call != history[j].call
  }

  // ---- the invariant ----

  ghost predicate PhaseOk(budget: int, w: World, call: nat) {
    match PhaseOf(w, call)
    case Idle => forall i | 0 <= i < |w.history| :: w.history[i].call != call
    case Called(n, calledAt) =>
      calledAt <= |w.history| && forall i | 0 <= i < |w.history| :: w.history[i].call != call
    case Loaded(n, calledAt, cur, loadedAt) =>
      && calledAt <= loadedAt <= |w.history| && cur - n >= 0
      && cur == budget - Granted(w.history[..loadedAt])
      && forall i | 0 <= i < |w.history| :: w.history[i].call != call
    case Returned(n, granted, calledAt, index, returnedAt) =>
      calledAt <= index < returnedAt <= |w.history| && w.history[index] == Effect(call, n, granted)
  }

  ghost predicate Invariant(budget: int, w: World) {
    && w.remaining == budget - Granted(w.history)
    && Legal(budget, w.history) && OncePerCall(w.history)
    && forall call: nat :: PhaseOk(budget, w, call)
  }

  lemma GrantedAppend(history: seq<Effect>, e: Effect)
    ensures Granted(history + [e]) == Granted(history) + if e.granted then e.n else 0
  {
    assert (history + [e])[..|history|] == history;
  }

  lemma AppendKeepsPhase(budget: int, w: World, w': World, e: Effect, call: nat)
    requires PhaseOk(budget, w, call) && call != e.call
    requires w'.history == w.history + [e] && PhaseOf(w', call) == PhaseOf(w, call)
    ensures PhaseOk(budget, w', call)
  {
    var p := PhaseOf(w, call);
    if p.Loaded? { assert w'.history[..p.loadedAt] == w.history[..p.loadedAt]; }
  }

  lemma AppendKeepsLegal(budget: int, history: seq<Effect>, e: Effect)
    requires Legal(budget, history) && (e.granted <==> e.n <= budget - Granted(history))
    ensures Legal(budget, history + [e])
  {
    var longer := history + [e];
    forall i | 0 <= i < |longer| ensures longer[i].granted <==> longer[i].n <= budget - Granted(longer[..i]) {
      assert longer[..i] == history[..i];
      if i == |history| { assert history[..i] == history; }
    }
  }

  /** A step either leaves the history alone or appends one effect of the acting call. */
  lemma StepShape(budget: int, w: World, a: Action)
    requires PhaseOk(budget, w, a.call) && w.remaining == budget - Granted(w.history)
    ensures var w' := Step(w, a);
            && PhaseOk(budget, w', a.call)
            && (forall call | call != a.call :: PhaseOf(w', call) == PhaseOf(w, call))
            && (if w'.history == w.history then w'.remaining == w.remaining
                else exists e :: Appended(budget, w, w', a.call, e))
  {
    var w' := Step(w, a);
    assert w.history[..|w.history|] == w.history;
    if w'.history != w.history {
      var e := w'.history[|w.history|];
      assert w'.history == w.history + [e];
      assert Appended(budget, w, w', a.call, e);
    }
  }

  ghost predicate Appended(budget: int, w: World, w': World, call: nat, e: Effect) {
    && w'.history == w.history + [e] && e.call == call
    && (e.granted <==> e.n <= budget - Granted(w.history))
    && w'.remaining == w.remaining - (if e.granted then e.n else 0)
    && forall i | 0 <= i < |w.history| :: w.history[i].call != call
  }

  lemma AppendKeepsInvariant(budget: int, w: World, w': World, actor: nat, e: Effect)
    requires Invariant(budget, w) && Appended(budget, w, w', actor, e)
    requires PhaseOk(budget, w', actor) && forall call | call != actor :: PhaseOf(w', call) == PhaseOf(w, call)
    ensures Invariant(budget, w')
  {
    GrantedAppend(w.history, e);
    AppendKeepsLegal(budget, w.history, e);
    forall call: nat ensures PhaseOk(budget, w', call) {
      if call != actor { AppendKeepsPhase(budget, w, w', e, call); }
    }
  }

  lemma QuietStepKeepsInvariant(budget: int, w: World, w': World, actor: nat)
    requires Invariant(budget, w) && w'.history == w.history && w'.remaining == w.remaining
    requires PhaseOk(budget, w', actor) && forall call | call != actor :: PhaseOf(w', call) == PhaseOf(w, call)
    ensures Invariant(budget, w')
  {
    forall call: nat ensures PhaseOk(budget, w', call) {
      if call != actor { assert PhaseOk(budget, w, call); }
    }
  }

  lemma StepKeepsInvariant(budget: int, w: World, a: Action)
    requires Invariant(budget, w)
    ensures Invariant(budget, Step(w, a))
  {
    var w' := Step(w, a);
    assert PhaseOk(budget, w, a.call);
    StepShape(budget, w, a);
    if w'.history != w.history {
      var e :| Appended(budget, w, w', a.call, e);
      AppendKeepsInvariant(budget, w, w', a.call, e);
    } else {
      QuietStepKeepsInvariant(budget, w, w', a.call);
    }
  }

  lemma {:induction false} RunKeepsInvariant(budget: int, actions: seq<Action>)
    ensures Invariant(budget, Run(Start(budget), actions))
    decreases |actions|
  {
    if actions != [] {
      RunKeepsInvariant(budget, actions[..|actions| - 1]);
      StepKeepsInvariant(budget, Run(Start(budget), actions[..|actions| - 1]), actions[|actions| - 1]);
    }
  }

  // ---- what every interleaving guarantees ----

  /** Linearizability: the history is a legal one-at-a-time execution in which each call that has
      returned took effect exactly once, with the answer it returned, between its call and its return. */
  lemma Linearizable(budget: int, actions: seq<Action>)
    ensures var w := Run(Start(budget), actions);
            && Legal(budget, w.history) && OncePerCall(w.history)
            && forall call: nat | PhaseOf(w, call).Returned? ::
                 var p := PhaseOf(w, call);
                 && p.calledAt <= p.index < p.returnedAt <= |w.history|
                 && w.history[p.index] == Effect(call, p.n, p.granted)
                 && forall i | 0 <= i < |w.history| && w.history[i].call == call :: i == p.index
  {
    RunKeepsInvariant(budget, actions);
    var w := Run(Start(budget), actions);
    forall call: nat | PhaseOf(w, call).Returned?
      ensures var p := PhaseOf(w, call);
              && p.calledAt <= p.index < p.returnedAt <= |w.history|
              && w.history[p.index] == Effect(call, p.n, p.granted)
              && forall i | 0 <= i < |w.history| && w.history[i].call == call :: i == p.index
    {
      assert PhaseOk(budget, w, call);
    }
  }

  /** Conservation: what is gone is what was granted, and nothing is granted beyond a non-negative budget. */
  lemma Conserved(budget: int, actions: seq<Action>)
    ensures var w := Run(Start(budget), actions);
            && budget - w.remaining == Granted(w.history)
            && (budget >= 0 ==> w.remaining >= 0)
  {
    RunKeepsInvariant(budget, actions);
    var w := Run(Start(budget), actions);
    if budget >= 0 { LegalNeverOverdraws(budget, w.history); }
  }

  lemma {:induction false} LegalNeverOverdraws(budget: int, history: seq<Effect>)
    requires Legal(budget, history) && budget >= 0
    ensures Granted(history) <= budget
    decreases |history|
  {
    if history != [] {
      var front := history[..|history| - 1];
      assert forall i | 0 <= i < |front| :: front[i] == history[i] && front[..i] == history[..i];
      LegalNeverOverdraws(budget, front);
    }
  }

  /** A compare-and-swap fails only if, since the load before it, another call's grant took effect. */
  lemma FailureNeedsInterference(budget: int, actions: seq<Action>, call: nat)
    requires var w := Run(Start(budget), actions);
             PhaseOf(w, call).Loaded? && PhaseOf(Step(w, CompareAndSwap(call)), call).Called?
    ensures var w := Run(Start(budget), actions);
            exists i :: PhaseOf(w, call).loadedAt <= i < |w.history| && w.history[i].granted && w.history[i].call != call
  {
    RunKeepsInvariant(budget, actions);
    var w := Run(Start(budget), actions);
    assert PhaseOk(budget, w, call);
    NoGrantNoChange(w.history, PhaseOf(w, call).loadedAt);
  }

  lemma {:induction false} NoGrantNoChange(history: seq<Effect>, from: nat)
    requires from <= |history|
    ensures (forall i | from <= i < |history| :: !history[i].granted) ==> Granted(history) == Granted(history[..from])
    decreases |history|
  {
    if from < |history| {
      var front := history[..|history| - 1];
      NoGrantNoChange(front, from);
      assert front[..from] == history[..from];
      assert forall i | from <= i < |front| :: front[i] == history[i];
    } else {
      assert history[..from] == history;
    }
  }

  // ---- the retry loop, as one caller sees it ----

  function Sum(xs: seq<int>): int {
    if xs == [] then 0 else Sum(xs[..|xs| - 1]) + xs[|xs| - 1]
  }

  // ---- the middleware around a runnable ----

  /** What the wrapped runnable does: it fails, or succeeds at a cost, if there is a cost function. */
  datatype RunOutcome = RunFailed | Ran(cost: Option<int>)

  /** Where a call of the wrapped runnable stands.  Its cost is known only once the tokens are used. */
  datatype Stage =
    | Blocked            // the budget was used up
    | Admitted           // past the check
    | Free               // failed, or nothing to charge
    | Owing(cost: int)   // the runnable has returned
    | Charged(cost: int)
    | Overdrawn(cost: int)

  /** Any number of calls of any goroutines, numbered in the order of their checks. */
  datatype Calls = Calls(remaining: int, stages: seq<Stage>)

  /** Charging is one step: a `Consume` takes effect at one point, as shown above. */
  datatype Event =
    | Check
    | Return(call: nat, run: RunOutcome)
    | Charge(call: nat)

  function AfterRun(run: RunOutcome): Stage {
    match run
    case RunFailed => Free
    case Ran(None) => Free
    case Ran(Some(cost)) => Owing(cost)
  }

  function Happen(w: Calls, e: Event): Calls {
    match e
    case Check => w.(stages := w.stages + [if w.remaining <= 0 then Blocked else Admitted])
    case Return(call, run) =>
      if call < |w.stages| && w.stages[call].Admitted? then w.(stages := w.stages[call := AfterRun(run)]) else w
    case Charge(call) =>
      if call < |w.stages| && w.stages[call].Owing? then
        var cost := w.stages[call].cost;
        if cost <= w.remaining then Calls(w.remaining - cost, w.stages[call := Charged(cost)])
        else w.(stages := w.stages[call := Overdrawn(cost)])
      else w
  }

  function After(budget: int, events: seq<Event>): Calls {
    if events == [] then Calls(budget, []) else Happen(After(budget, events[..|events| - 1]), events[|events| - 1])
  }

  function UsedBy(s: Stage): int {
    if s.Owing? || s.Charged? || s.Overdrawn? then s.cost else 0
  }

  function ChargedTo(s: Stage): int {
    if s.Charged? then s.cost else 0
  }

  function OwedBy(s: Stage): int {
    if s.Owing? then s.cost else 0
  }

  function RefusedTo(s: Stage): int {
    if s.Overdrawn? then s.cost else 0
  }

  function Total(stages: seq<Stage>, amount: Stage -> int): int {
    if stages == [] then 0 else Total(stages[..|stages| - 1], amount) + amount(stages[|stages| - 1])
  }

  lemma {:induction false} TotalUpdate(stages: seq<Stage>, amount: Stage -> int, i: nat, s: Stage)
    requires i < |stages|
    ensures Total(stages[i := s], amount) == Total(stages, amount) - amount(stages[i]) + amount(s)
    decreases |stages|
  {
    var front := stages[..|stages| - 1];
    if i < |front| {
      TotalUpdate(front, amount, i, s);
      assert stages[i := s][..|front|] == front[i := s];
    } else {
      assert stages[i := s][..|front|] == front;
    }
  }

  lemma TotalAppend(stages: seq<Stage>, amount: Stage -> int, s: Stage)
    ensures Total(stages + [s], amount) == Total(stages, amount) + amount(s)
  {
    assert (stages + [s])[..|stages|] == stages;
  }

  lemma {:induction false} UseSplits(stages: seq<Stage>)
    ensures Total(stages, UsedBy) == Total(stages, ChargedTo) + Total(stages, OwedBy) + Total(stages, RefusedTo)
    decreases |stages|
  {
    if stages != [] { UseSplits(stages[..|stages| - 1]); }
  }

  lemma HappenKeepsBooks(budget: int, w: Calls, e: Event)
    requires w.remaining == budget - Total(w.stages, ChargedTo)
    ensures Happen(w, e).remaining == budget - Total(Happen(w, e).stages, ChargedTo)
  {
    match e
    case Check => TotalAppend(w.stages, ChargedTo, if w.remaining <= 0 then Blocked else Admitted);
    case Return(call, run) => if call < |w.stages| { TotalUpdate(w.stages, ChargedTo, call, AfterRun(run)); }
    case Charge(call) =>
      if call < |w.stages| && w.stages[call].Owing? {
        TotalUpdate(w.stages, ChargedTo, call, Happen(w, e).stages[call]);
      }
  }

  /** How far real use passes the budget, in every interleaving of checks, runs and charges, whatever the
      costs: use is what the counter lost, and beyond it exactly what is owed and what was refused. */
  lemma {:induction false} UseExceedsBudgetBy(budget: int, events: seq<Event>)
    ensures var w := After(budget, events);
            && w.remaining == budget - Total(w.stages, ChargedTo)
            && Total(w.stages, UsedBy) - budget == Total(w.stages, OwedBy) + Total(w.stages, RefusedTo) - w.remaining
    decreases |events|
  {
    if events != [] {
      UseExceedsBudgetBy(budget, events[..|events| - 1]);
      HappenKeepsBooks(budget, After(budget, events[..|events| - 1]), events[|events| - 1]);
    }
    UseSplits(After(budget, events).stages);
  }

  /** A call is turned away at its check exactly when what was charged before has used the budget up. */
  lemma BlockedIffUsedUp(budget: int, events: seq<Event>)
    ensures var w, w' := After(budget, events), After(budget, events + [Check]);
            && |w'.stages| == |w.stages| + 1 && w'.remaining == w.remaining
            && w'.stages[|w.stages|] == if Total(w.stages, ChargedTo) >= budget then Blocked else Admitted
  {
    AfterOneMore(budget, events, Check);
    UseExceedsBudgetBy(budget, events);
  }

  /** No runnable reports a negative cost. */
  ghost predicate CostsCount(events: seq<Event>) {
    forall e | e in events && e.Return? && e.run.Ran? && e.run.cost.Some? :: e.run.cost.value >= 0
  }

  /** Costs are not negative, and what was refused did not fit and never will. */
  ghost predicate RefusalsStand(w: Calls) {
    w.remaining >= 0
    && forall s <- w.stages :: UsedBy(s) >= 0 && (s.Overdrawn? ==> s.cost > w.remaining)
  }

  lemma {:induction false} RefusalsStandOn(budget: int, events: seq<Event>)
    requires budget >= 0 && CostsCount(events)
    ensures RefusalsStand(After(budget, events))
    decreases |events|
  {
    if events != [] {
      assert events[|events| - 1] in events;
      RefusalsStandOn(budget, events[..|events| - 1]);
    }
  }

  lemma {:induction false} RefusedAtLeast(stages: seq<Stage>, remaining: int)
    requires remaining >= 0
    requires forall s <- stages :: UsedBy(s) >= 0 && (s.Overdrawn? ==> s.cost > remaining)
    ensures if exists s :: s in stages && s.Overdrawn? then Total(stages, RefusedTo) > remaining else Total(stages, RefusedTo) == 0
    ensures Total(stages, RefusedTo) >= 0
    decreases |stages|
  {
    if stages != [] {
      var front := stages[..|stages| - 1];
      RefusedAtLeast(front, remaining);
      assert stages[|stages| - 1] in stages;
      assert forall s <- stages :: s in front || s == stages[|stages| - 1];
    }
  }

  lemma {:induction false} NothingOwed(stages: seq<Stage>)
    requires forall s <- stages :: !s.Owing?
    ensures Total(stages, OwedBy) == 0
    decreases |stages|
  {
    if stages != [] {
      assert stages[|stages| - 1] in stages;
      NothingOwed(stages[..|stages| - 1]);
    }
  }

  /** Once no call is between its run and its charge, the tokens really used are within the budget
      exactly when no charge was refused. */
  lemma BudgetHoldsIffNothingRefused(budget: int, events: seq<Event>)
    requires budget >= 0 && CostsCount(events)
    requires forall s <- After(budget, events).stages :: !s.Owing?
    ensures Total(After(budget, events).stages, UsedBy) <= budget
            <==> forall s <- After(budget, events).stages :: !s.Overdrawn?
  {
    UseExceedsBudgetBy(budget, events);
    RefusalsStandOn(budget, events);
    NothingOwed(After(budget, events).stages);
    RefusedAtLeast(After(budget, events).stages, After(budget, events).remaining);
  }

  /** One goroutine's calls, each costing the same: check, run, charge. */
  function CallsInTurn(cost: int, n: nat): seq<Event> {
    if n == 0 then [] else CallsInTurn(cost, n - 1) + [Check] + [Return(n - 1, Ran(Some(cost)))] + [Charge(n - 1)]
  }

  /** A refused charge does not use the budget up, so a call that never fits is admitted every time. */
  lemma {:induction false} RefusedChargesNeverBlock(budget: int, cost: int, n: nat)
    requires 0 < budget < cost
    ensures var w := After(budget, CallsInTurn(cost, n));
            w.remaining == budget && |w.stages| == n && (forall s <- w.stages :: s == Overdrawn(cost))
  {
    if n > 0 {
      RefusedChargesNeverBlock(budget, cost, n - 1);
      var before := CallsInTurn(cost, n - 1);
      var w := After(budget, before);
      AfterOneMore(budget, before, Check);
      AfterOneMore(budget, before + [Check], Return(n - 1, Ran(Some(cost))));
      AfterOneMore(budget, before + [Check] + [Return(n - 1, Ran(Some(cost)))], Charge(n - 1));
      assert After(budget, CallsInTurn(cost, n)) == Calls(budget, w.stages + [Overdrawn(cost)]);
    }
  }

  lemma AfterOneMore(budget: int, events: seq<Event>, e: Event)
    ensures After(budget, events + [e]) == Happen(After(budget, events), e)
  {
    assert (events + [e])[..|events|] == events;
  }

  class TokenBudgetTracker {
    var remaining: int

    constructor (budget: int)
      ensures remaining == budget
    {
      remaining := budget;
    }

    /** `WithTokenBudget` around a runnable, as one caller sees it: `meanwhile` is what other goroutines
        do to the counter while the runnable runs, and `rivals` what they do during the charge. */
    method InvokeWithBudget(run: RunOutcome, meanwhile: int, rivals: seq<int>) returns (stage: Stage, ghost rounds: nat)
      modifies this
      ensures rounds <= |rivals|
      ensures old(remaining) <= 0 ==> stage == Blocked && remaining == old(remaining)
      ensures old(remaining) > 0 && AfterRun(run) == Free ==> stage == Free && remaining == old(remaining) + meanwhile
      ensures old(remaining) > 0 && AfterRun(run) != Free ==>
        && (stage == Charged(run.cost.value) || stage == Overdrawn(run.cost.value))
        && remaining == old(remaining) + meanwhile + Sum(rivals[..rounds]) - ChargedTo(stage)
        && (if stage.Charged? then remaining >= 0 else remaining < run.cost.value)
    {
      rounds := 0;
      if remaining <= 0 {
        return Blocked, 0;
      }
      remaining := remaining + meanwhile;
      if run.Ran? && run.cost.Some? {
        var granted;
        granted, rounds := Consume(run.cost.value, rivals);
        stage := if granted then Charged(run.cost.value) else Overdrawn(run.cost.value);
      } else {
        stage := Free;
      }
    }

    method CompareAndSwap(expected: int, next: int) returns (swapped: bool)
      modifies this
      ensures swapped <==> old(remaining) == expected
      ensures remaining == if swapped then next else old(remaining)
    {
      if remaining != expected {
        return false;
      }
      remaining := next;
      return true;
    }

    /** One call of `Consume` while other goroutines change the counter: `rivals` are the changes they
        make, one after each load, until they fall silent. */
    method Consume(n: int, rivals: seq<int>) returns (granted: bool, ghost rounds: nat)
      modifies this
      ensures rounds <= |rivals|
      ensures remaining == old(remaining) + Sum(rivals[..rounds]) - (if granted then n else 0)
      ensures if granted then remaining >= 0 else remaining < n
    {
      var i := 0;
      assert rivals[..0] == [];
      while true
        invariant 0 <= i <= |rivals| && remaining == old(remaining) + Sum(rivals[..i])
        decreases |rivals| - i
      {
        var cur := remaining;
        if cur - n < 0 {
          return false, i;
        }
        if i < |rivals| {
          assert rivals[..i + 1][..i] == rivals[..i];
          remaining := remaining + rivals[i];
          i := i + 1;
        }
        var swapped := CompareAndSwap(cur, cur - n);
        if swapped {
          return true, i;
        }
      }
    }
  }
}
