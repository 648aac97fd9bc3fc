/** The cyclic example graph with two bounded loops (`examples/job-search-loop/main.go`).  The search
    and the critic are oracles that may answer differently at every call; the example's own stubs
    are two particular oracles.  The human-readable log is not part of this model. */
module JobSearch {
  import opened Wrappers
  import opened GraphExec
  import Decimals
  import opened Text

  const MIN_RESULTS := 3
  const MAX_SEARCH_ATTEMPTS := 3
  const QUALITY_THRESHOLD := 85
  const MAX_REVISIONS := 3

  datatype Job = Job(id: string, title: string, company: string, tags: seq<string>)

  datatype Doc = Doc(jobId: string, resume: string, score: int, revision: nat)

  datatype State = State(query: string, searchAttempts: nat, jobs: seq<Job>, docs: seq<Doc>, revisions: nat, submitted: seq<string>)

  type Search = (nat, string) -> seq<Job>
  type Critic = (nat, Doc) -> int

  // ---- what the node functions compute ----

  function FitJobs(jobs: seq<Job>): seq<Job> {
    if jobs == [] then []
    else FitJobs(jobs[..|jobs| - 1]) + (if "go" in jobs[|jobs| - 1].tags then [jobs[|jobs| - 1]] else [])
  }

  /** A job survives the analysis, as often as it was found, if and only if it is tagged go. */
  lemma {:induction false} FitJobsKept(jobs: seq<Job>, j: Job)
    ensures multiset(FitJobs(jobs))[j] == if "go" in j.tags then multiset(jobs)[j] else 0
    decreases |jobs|
  {
    if jobs != [] {
      var front, last := jobs[..|jobs| - 1], jobs[|jobs| - 1];
      FitJobsKept(front, j);
      assert jobs == front + [last];
    }
  }

  /** The analysis treats each job by itself and keeps the order in which jobs were found. */
  lemma {:induction false} FitJobsInOrder(a: seq<Job>, b: seq<Job>, j: Job)
    ensures FitJobs(a + b) == FitJobs(a) + FitJobs(b)
    ensures FitJobs([j]) == if "go" in j.tags then [j] else []
    decreases |b|
  {
    assert [j][..0] == [];
    if b == [] {
      assert a + b == a;
    } else {
      var front := b[..|b| - 1];
      FitJobsInOrder(a, front, j);
      assert (a + b)[..|a + b| - 1] == a + front;
    }
  }

  function Draft(j: Job): Doc {
    Doc(j.id, "[draft resume for " + j.title + " @ " + j.company + "]", 0, 0)
  }

  function Drafts(jobs: seq<Job>): (docs: seq<Doc>)
    ensures |docs| == |jobs|
    ensures forall i | 0 <= i < |jobs| :: docs[i].jobId == jobs[i].id && docs[i].revision == 0 && docs[i].score == 0
  {
    seq(|jobs|, i requires 0 <= i < |jobs| => Draft(jobs[i]))
  }

  function Critiqued(critic: Critic, tick: nat, docs: seq<Doc>): (scored: seq<Doc>)
    ensures |scored| == |docs|
  {
    seq(|docs|, i requires 0 <= i < |docs| => docs[i].(score := critic(tick, docs[i])))
  }

  function ReviseDoc(d: Doc): Doc {
    if d.score < QUALITY_THRESHOLD
    then d.(revision := d.revision + 1, resume := "[rev " + Decimals.ToString(d.revision + 1) + "] " + d.resume)
    else d
  }

  function Revised(docs: seq<Doc>): (revised: seq<Doc>)
    ensures |revised| == |docs|
  {
    seq(|docs|, i requires 0 <= i < |docs| => ReviseDoc(docs[i]))
  }

  /** The jobs whose document meets the bar, in order. */
  function Passing(docs: seq<Doc>): seq<string> {
    if docs == [] then []
    else Passing(docs[..|docs| - 1]) + (if docs[|docs| - 1].score >= QUALITY_THRESHOLD then [docs[|docs| - 1].jobId] else [])
  }

  /** Each document is submitted or not by its own score, in order. */
  lemma {:induction false} PassingInOrder(a: seq<Doc>, b: seq<Doc>, d: Doc)
    ensures Passing(a + b) == Passing(a) + Passing(b)
    ensures Passing([d]) == if d.score >= 85 then [d.jobId] else []
    decreases |b|
  {
    assert [d][..0] == [];
    if b == [] {
      assert a + b == a;
    } else {
      var front := b[..|b| - 1];
      PassingInOrder(a, front, d);
      assert (a + b)[..|a + b| - 1] == a + front;
    }
  }

  function JobIds(jobs: seq<Job>): (ids: seq<string>) {
    seq(|jobs|, i requires 0 <= i < |jobs| => jobs[i].id)
  }

  function DocIds(docs: seq<Doc>): (ids: seq<string>) {
    seq(|docs|, i requires 0 <= i < |docs| => docs[i].jobId)
  }

  function WorstScore(docs: seq<Doc>): (worst: int)
    ensures worst <= 100 && forall i | 0 <= i < |docs| :: worst <= docs[i].score
    ensures worst == 100 || exists i :: 0 <= i < |docs| && docs[i].score == worst
  {
    if docs == [] then 100
    else
      var front, last := WorstScore(docs[..|docs| - 1]), docs[|docs| - 1].score;
      assert forall i | 0 <= i < |docs| - 1 :: docs[i] == docs[..|docs| - 1][i];
      if last < front then last else front
  }

  // ---- the loops of the node functions ----

  method AnalyzeLoop(jobs: seq<Job>) returns (kept: seq<Job>)
    ensures kept == FitJobs(jobs)
  {
    kept := [];
    for i := 0 to |jobs|
      invariant kept == FitJobs(jobs[..i])
    {
      assert jobs[..i + 1][..i] == jobs[..i];
      var fit := false;
      for k := 0 to |jobs[i].tags|
        invariant !fit && "go" !in jobs[i].tags[..k]
      {
        if jobs[i].tags[k] == "go" {
          fit := true;
          break;
        }
      }
      if fit {
        kept := kept + [jobs[i]];
      }
    }
    assert jobs[..|jobs|] == jobs;
  }

  method WorstScoreLoop(docs: seq<Doc>) returns (worst: int)
    ensures worst == WorstScore(docs)
  {
    worst := 100;
    for i := 0 to |docs|
      invariant worst == WorstScore(docs[..i])
    {
      assert docs[..i + 1][..i] == docs[..i];
      if docs[i].score < worst {
        worst := docs[i].score;
      }
    }
    assert docs[..|docs|] == docs;
  }

  /** The critic's loop writes the scores in place. */
  method CritiqueLoop(critic: Critic, tick: nat, docs: array<Doc>)
    modifies docs
    ensures docs[..] == Critiqued(critic, tick, old(docs[..]))
    ensures forall i | 0 <= i < docs.Length :: docs[i] == old(docs[i]).(score := critic(tick, old(docs[i])))
  {
    for i := 0 to docs.Length
      invariant forall k | 0 <= k < i :: docs[k] == Critiqued(critic, tick, old(docs[..]))[k]
      invariant forall k | i <= k < docs.Length :: docs[k] == old(docs[k])
    {
      docs[i] := docs[i].(score := critic(tick, docs[i]));
    }
  }

  /** The reviser's loop rewrites, in place, only the documents below the bar. */
  method ReviseLoop(docs: array<Doc>)
    modifies docs
    ensures docs[..] == Revised(old(docs[..]))
    ensures forall i | 0 <= i < docs.Length && old(docs[i]).score >= 85 :: docs[i] == old(docs[i])
    ensures forall i | 0 <= i < docs.Length && old(docs[i]).score < 85 ::
              var n := old(docs[i]).revision + 1;
              docs[i] == old(docs[i]).(revision := n, resume := "[rev " + Decimals.ToString(n) + "] " + old(docs[i]).resume)
  {
    for i := 0 to docs.Length
      invariant forall k | 0 <= k < i :: docs[k] == Revised(old(docs[..]))[k]
      invariant forall k | i <= k < docs.Length :: docs[k] == old(docs[k])
    {
      if docs[i].score < QUALITY_THRESHOLD {
        docs[i] := docs[i].(revision := docs[i].revision + 1);
        docs[i] := docs[i].(resume := "[rev " + Decimals.ToString(docs[i].revision) + "] " + docs[i].resume);
      }
    }
  }

  method SubmitLoop(docs: seq<Doc>, submitted: seq<string>) returns (all: seq<string>)
    ensures all == submitted + Passing(docs)
  {
    all := submitted;
    for i := 0 to |docs|
      invariant all == submitted + Passing(docs[..i])
    {
      assert docs[..i + 1][..i] == docs[..i];
      if docs[i].score >= QUALITY_THRESHOLD {
        all := all + [docs[i].jobId];
      }
    }
    assert docs[..|docs|] == docs;
  }

  // ---- the graph ----

  function Searched(search: Search, tick: nat, s: State): State {
    s.(searchAttempts := s.searchAttempts + 1, jobs := search(tick, s.query))
  }

  function SearchNode(search: Search): Node<State> {
    Node("search", (t, s: State) => Ok(Searched(search, t, s)), Some((_, s: State) =>
      Goto(if |s.jobs| >= MIN_RESULTS || s.searchAttempts >= MAX_SEARCH_ATTEMPTS then "analyze" else "refine", s)))
  }

  function RefineNode(): Node<State> {
    Node("refine", (_, s: State) => Ok(s.(query := Broaden(s.query))), Some((_, s) => Goto("search", s)))
  }

  function AnalyzeNode(): Node<State> {
    Node("analyze", (_, s: State) => Ok(s.(jobs := FitJobs(s.jobs))), Some((_, s) => Goto("generate", s)))
  }

  function GenerateNode(): Node<State> {
    Node("generate", (_, s: State) => Ok(s.(docs := s.docs + Drafts(s.jobs))), Some((_, s) => Goto("critique", s)))
  }

  function CritiqueNode(critic: Critic): Node<State> {
    Node("critique", (t, s: State) => Ok(s.(docs := Critiqued(critic, t, s.docs))), Some((_, s: State) =>
      Goto(if WorstScore(s.docs) < QUALITY_THRESHOLD && s.revisions < MAX_REVISIONS then "revise" else "submit", s)))
  }

  function ReviseNode(): Node<State> {
    Node("revise", (_, s: State) => Ok(s.(revisions := s.revisions + 1, docs := Revised(s.docs))), Some((_, s) => Goto("critique", s)))
  }

  function SubmitNode(): Node<State> {
    Node("submit", (_, s: State) => Ok(s.(submitted := s.submitted + Passing(s.docs))), None)
  }

  function SearchLoop(search: Search, critic: Critic): map<string, Node<State>> {
    map["search" := SearchNode(search), "refine" := RefineNode(), "analyze" := AnalyzeNode(), "generate" := GenerateNode(),
        "critique" := CritiqueNode(critic), "revise" := ReviseNode(), "submit" := SubmitNode()]
  }

  /** A state that holds only a query. */
  function Fresh(query: string): State {
    State(query, 0, [], [], 0, [])
  }

  // ---- broadening a query ----

  function Commas(s: string): nat {
    if s == "" then 0 else Commas(s[..|s| - 1]) + (if s[|s| - 1] == ',' then 1 else 0)
  }

  /** Everything before the last comma. */
  function BeforeLastComma(s: string): string {
    if s == "" then "" else if s[|s| - 1] == ',' then s[..|s| - 1] else BeforeLastComma(s[..|s| - 1])
  }

  /** Drops the last comma-separated constraint, if there are at least two. */
  function Broaden(query: string): string {
    if Commas(query) > 0 then TrimSpace(BeforeLastComma(query)) else query
  }

  lemma {:induction false} CommasFromFront(s: string)
    requires s != ""
    ensures Commas(s) == Commas(s[1..]) + (if s[0] == ',' then 1 else 0)
    decreases |s|
  {
    if |s| > 1 {
      CommasFromFront(s[..|s| - 1]);
      assert s[..|s| - 1][1..] == s[1..][..|s| - 2];
    } else {
      assert s[..0] == "" && s[1..] == "";
    }
  }

  lemma TrimKeepsCommas(s: string)
    ensures Commas(TrimLeft(s)) == Commas(s) && Commas(TrimRight(s)) == Commas(s)
  {
    if s != "" && IsSpace(s[0]) { CommasFromFront(s); }
  }

  lemma BeforeLastCommaDropsOne(s: string)
    requires Commas(s) > 0
    ensures Commas(BeforeLastComma(s)) == Commas(s) - 1
  {
  }

  /** Each refinement drops exactly one constraint until one is left. */
  lemma BroadenDropsOne(query: string)
    ensures Commas(Broaden(query)) == if Commas(query) > 0 then Commas(query) - 1 else 0
  {
    if Commas(query) > 0 {
      BeforeLastCommaDropsOne(query);
      TrimKeepsCommas(BeforeLastComma(query));
      TrimKeepsCommas(TrimLeft(BeforeLastComma(query)));
    }
  }

  lemma {:induction false} LastCommaSplits(a: string, b: string)
    requires Commas(b) == 0
    ensures BeforeLastComma(a + "," + b) == a && Commas(a + "," + b) > 0
    decreases |b|
  {
    var s := a + "," + b;
    if b == "" {
      assert s[..|s| - 1] == a;
    } else {
      assert s[..|s| - 1] == a + "," + b[..|b| - 1];
      LastCommaSplits(a, b[..|b| - 1]);
    }
  }

  /** The constraint dropped is the last one; a query of a single constraint stays as it is. */
  lemma BroadenDropsLast(a: string, b: string)
    requires Commas(b) == 0
    ensures Broaden(a + "," + b) == TrimSpace(a) && Broaden(b) == b
  {
    LastCommaSplits(a, b);
  }

  // ---- every run ends, and submits only what meets the bar ----

  /** Where a run stands. */
  datatype Place = Searching | Refining | Analyzing | Generating | Critiquing | Revising | Submitting

  function Name(p: Place): (name: string)
    ensures name != END
  {
    match p
    case Searching => "search"
    case Refining => "refine"
    case Analyzing => "analyze"
    case Generating => "generate"
    case Critiquing => "critique"
    case Revising => "revise"
    case Submitting => "submit"
  }

  function NodeAt(search: Search, critic: Critic, p: Place): Node<State> {
    match p
    case Searching => SearchNode(search)
    case Refining => RefineNode()
    case Analyzing => AnalyzeNode()
    case Generating => GenerateNode()
    case Critiquing => CritiqueNode(critic)
    case Revising => ReviseNode()
    case Submitting => SubmitNode()
  }

  lemma NodesAreNamed(search: Search, critic: Critic, p: Place)
    ensures Name(p) in SearchLoop(search, critic) && SearchLoop(search, critic)[Name(p)] == NodeAt(search, critic, p)
  {
  }

  /** How many node executions are left at most, when no document needs more than `rounds` revisions. */
  function Left(rounds: nat, p: Place, s: State): int {
    var searches := 2 * (MAX_SEARCH_ATTEMPTS - s.searchAttempts);
    match p
    case Searching => searches + 2 * rounds + 3
    case Refining => searches + 2 * rounds + 4
    case Analyzing => 2 * rounds + 4
    case Generating => 2 * rounds + 3
    case Critiquing => 2 * (rounds - s.revisions) + 2
    case Revising => 2 * (rounds - s.revisions) + 1
    case Submitting => 1
  }

  /** The critic is satisfied with every document by the time it has been revised `rounds` times. */
  ghost predicate SatisfiedAfter(critic: Critic, rounds: nat) {
    forall t: nat, d: Doc :: d.revision >= rounds ==> critic(t, d) >= QUALITY_THRESHOLD
  }

  /** The critic's verdict depends on nothing but how often a document was revised. */
  ghost predicate Impartial(critic: Critic) {
    forall t: nat, u: nat, d: Doc, e: Doc :: d.revision == e.revision ==> critic(t, d) == critic(u, e)
  }

  /** The bound on revisions that the run respects: the loop's own, or a stricter one the critic grants. */
  ghost predicate Grants(critic: Critic, rounds: nat) {
    rounds == MAX_REVISIONS || (0 < rounds < MAX_REVISIONS && SatisfiedAfter(critic, rounds) && Impartial(critic))
  }

  /** All documents went through the same revisions and have the same score. */
  ghost predicate InStep(s: State) {
    && (forall i | 0 <= i < |s.docs| :: s.docs[i].revision == s.revisions)
    && (forall i, j | 0 <= i < |s.docs| && 0 <= j < |s.docs| :: s.docs[i].score == s.docs[j].score)
  }

  ghost predicate Drafted(rounds: nat, s: State) {
    DocIds(s.docs) == JobIds(s.jobs) && (rounds < MAX_REVISIONS ==> InStep(s))
  }

  /** All documents meet the bar, or the third revision has been made. */
  ghost predicate GivenUpOrGood(s: State) {
    s.revisions <= 3 && (s.revisions == 3 || forall i | 0 <= i < |s.docs| :: s.docs[i].score >= 85)
  }

  /** What holds whenever the run stands before a node. */
  ghost predicate Underway(rounds: nat, p: Place, s: State) {
    && s.submitted == []
    && match p
       case Searching => s.docs == [] && s.revisions == 0 && s.searchAttempts < MAX_SEARCH_ATTEMPTS
       case Refining => s.docs == [] && s.revisions == 0 && 0 < s.searchAttempts < MAX_SEARCH_ATTEMPTS
       case Analyzing => s.docs == [] && s.revisions == 0
       case Generating => s.docs == [] && s.revisions == 0
       case Critiquing => Drafted(rounds, s) && s.revisions <= rounds
       case Revising => Drafted(rounds, s) && s.revisions < rounds && WorstScore(s.docs) < QUALITY_THRESHOLD
       case Submitting => Drafted(rounds, s) && GivenUpOrGood(s) && (rounds < MAX_REVISIONS ==> WorstScore(s.docs) >= QUALITY_THRESHOLD)
  }

  /** Submission happens once and sends exactly the documents that meet the bar. */
  ghost predicate Done(rounds: nat, s: State) {
    && s.submitted == Passing(s.docs)
    && DocIds(s.docs) == JobIds(s.jobs)
    && GivenUpOrGood(s)
    && (rounds < MAX_REVISIONS ==> WorstScore(s.docs) >= QUALITY_THRESHOLD)
  }

  lemma CritiqueInStep(critic: Critic, rounds: nat, tick: nat, s: State)
    requires Grants(critic, rounds) && Underway(rounds, Critiquing, s)
    ensures Drafted(rounds, s.(docs := Critiqued(critic, tick, s.docs)))
    ensures rounds < MAX_REVISIONS && s.revisions == rounds ==> WorstScore(Critiqued(critic, tick, s.docs)) >= QUALITY_THRESHOLD
  {
    assert DocIds(Critiqued(critic, tick, s.docs)) == DocIds(s.docs);
  }

  lemma ReviseInStep(rounds: nat, s: State)
    requires Underway(rounds, Revising, s)
    ensures Drafted(rounds, s.(docs := Revised(s.docs), revisions := s.revisions + 1))
  {
    assert DocIds(Revised(s.docs)) == DocIds(s.docs);
  }

  lemma WorstScoreBelow(docs: seq<Doc>)
    ensures WorstScore(docs) < 85 <==> exists i :: 0 <= i < |docs| && docs[i].score < 85
  {
  }

  /** After a search the run analyzes with at least three jobs or after the third attempt, and broadens the query otherwise. */
  lemma SearchRetriesIff(search: Search, critic: Critic, never: nat -> bool, tick: nat, s: State)
    requires !never(tick)
    ensures var jobs, attempts := search(tick, s.query), s.searchAttempts + 1;
            Step(SearchLoop(search, critic), never, tick, At("search", s))
            == At(if |jobs| < 3 && attempts < 3 then "refine" else "analyze", s.(jobs := jobs, searchAttempts := attempts))
  {
  }

  /** After the critique the run revises exactly when a document scored below 85 and fewer than three revisions were made. */
  lemma RevisesIff(search: Search, critic: Critic, never: nat -> bool, tick: nat, s: State)
    requires !never(tick)
    ensures var next := Step(SearchLoop(search, critic), never, tick, At("critique", s));
            && next.At?
            && (next.node == "revise" <==> s.revisions < 3 && exists i :: 0 <= i < |s.docs| && critic(tick, s.docs[i]) < 85)
            && (next.node != "revise" ==> next.node == "submit")
  {
    var scored := Critiqued(critic, tick, s.docs);
    WorstScoreBelow(scored);
    assert forall i | 0 <= i < |s.docs| :: scored[i].score == critic(tick, s.docs[i]);
  }

  /** What one node execution amounts to: on to another place, or the end. */
  datatype Move = To(place: Place, state: State) | End(state: State)

  function MoveFrom(search: Search, critic: Critic, tick: nat, p: Place, s: State): Move {
    match p
    case Searching =>
      var s' := Searched(search, tick, s);
      To(if |s'.jobs| >= MIN_RESULTS || s'.searchAttempts >= MAX_SEARCH_ATTEMPTS then Analyzing else Refining, s')
    case Refining => To(Searching, s.(query := Broaden(s.query)))
    case Analyzing => To(Generating, s.(jobs := FitJobs(s.jobs)))
    case Generating => To(Critiquing, s.(docs := s.docs + Drafts(s.jobs)))
    case Critiquing =>
      var s' := s.(docs := Critiqued(critic, tick, s.docs));
      To(if WorstScore(s'.docs) < QUALITY_THRESHOLD && s'.revisions < MAX_REVISIONS then Revising else Submitting, s')
    case Revising => To(Critiquing, s.(revisions := s.revisions + 1, docs := Revised(s.docs)))
    case Submitting => End(s.(submitted := s.submitted + Passing(s.docs)))
  }

  function AsConfig(m: Move): Config<State> {
    match m
    case To(p, s) => At(Name(p), s)
    case End(s) => Halted(Finished(s))
  }

  ghost predicate HasNodes(nodes: map<string, Node<State>>, search: Search, critic: Critic) {
    forall p :: Name(p) in nodes && nodes[Name(p)] == NodeAt(search, critic, p)
  }

  lemma SearchLoopHasNodes(search: Search, critic: Critic)
    ensures HasNodes(SearchLoop(search, critic), search, critic)
  {
    forall p ensures Name(p) in SearchLoop(search, critic) && SearchLoop(search, critic)[Name(p)] == NodeAt(search, critic, p) {
      NodesAreNamed(search, critic, p);
    }
  }

  lemma MoveIsStep(nodes: map<string, Node<State>>, search: Search, critic: Critic, never: nat -> bool, tick: nat, p: Place, s: State)
    requires Name(p) in nodes && nodes[Name(p)] == NodeAt(search, critic, p) && !never(tick)
    ensures Step(nodes, never, tick, At(Name(p), s)) == AsConfig(MoveFrom(search, critic, tick, p, s))
  {
    match p
    case Searching =>
    case Refining =>
    case Analyzing =>
    case Generating =>
    case Critiquing =>
    case Revising =>
    case Submitting =>
  }

  /** One node execution: the run moves on and has less left, or has submitted. */
  lemma OneMove(search: Search, critic: Critic, rounds: nat, tick: nat, p: Place, s: State)
    requires Grants(critic, rounds) && Underway(rounds, p, s)
    ensures match MoveFrom(search, critic, tick, p, s)
            case End(s') => Done(rounds, s')
            case To(next, s') => Underway(rounds, next, s') && 0 < Left(rounds, next, s') < Left(rounds, p, s)
  {
    match p
    case Searching =>
    case Refining =>
    case Analyzing =>
    case Generating => assert s.docs + Drafts(s.jobs) == Drafts(s.jobs);
    case Critiquing => CritiqueInStep(critic, rounds, tick, s);
    case Revising => ReviseInStep(rounds, s);
    case Submitting => assert s.submitted + Passing(s.docs) == Passing(s.docs);
  }

  function Moves(search: Search, critic: Critic, tick: nat, m: Move, n: nat): Move
    decreases n
  {
    if n == 0 || m.End? then m else Moves(search, critic, tick + 1, MoveFrom(search, critic, tick, m.place, m.state), n - 1)
  }

  ghost predicate StepMoves(nodes: map<string, Node<State>>, search: Search, critic: Critic, never: nat -> bool,
                            tick: nat, p: Place, s: State)
  {
    Step(nodes, never, tick, At(Name(p), s)) == AsConfig(MoveFrom(search, critic, tick, p, s))
  }

  /** Every step of the executor is the move that the place makes. */
  ghost predicate MovesInStep(nodes: map<string, Node<State>>, search: Search, critic: Critic, never: nat -> bool) {
    forall tick: nat, p, s :: StepMoves(nodes, search, critic, never, tick, p, s)
  }

  lemma SearchLoopMovesInStep(search: Search, critic: Critic, never: nat -> bool)
    requires forall t: nat :: !never(t)
    ensures MovesInStep(SearchLoop(search, critic), search, critic, never)
  {
    SearchLoopHasNodes(search, critic);
    forall tick: nat, p, s ensures StepMoves(SearchLoop(search, critic), search, critic, never, tick, p, s) {
      MoveIsStep(SearchLoop(search, critic), search, critic, never, tick, p, s);
    }
  }

  lemma {:induction false} MovesAreRuns(nodes: map<string, Node<State>>, search: Search, critic: Critic,
                                        never: nat -> bool, tick: nat, m: Move, n: nat)
    requires MovesInStep(nodes, search, critic, never)
    ensures RunFor(nodes, never, tick, AsConfig(m), n) == AsConfig(Moves(search, critic, tick, m, n))
    decreases n
  {
    if n > 0 && m.To? {
      var next := MoveFrom(search, critic, tick, m.place, m.state);
      assert StepMoves(nodes, search, critic, never, tick, m.place, m.state);
      MovesAreRuns(nodes, search, critic, never, tick + 1, next, n - 1);
    }
  }

  lemma {:induction false} MovesRunDown(search: Search, critic: Critic, rounds: nat, tick: nat, p: Place, s: State, n: nat)
    requires Grants(critic, rounds) && Underway(rounds, p, s) && n >= Left(rounds, p, s) > 0
    ensures Moves(search, critic, tick, To(p, s), n).End? && Done(rounds, Moves(search, critic, tick, To(p, s), n).state)
    decreases n
  {
    OneMove(search, critic, rounds, tick, p, s);
    var m := MoveFrom(search, critic, tick, p, s);
    if m.To? { MovesRunDown(search, critic, rounds, tick + 1, m.place, m.state, n - 1); }
  }

  lemma RunsDown(search: Search, critic: Critic, rounds: nat, never: nat -> bool, query: string, n: nat)
    requires Grants(critic, rounds) && n >= 2 * rounds + 9 && forall t: nat :: !never(t)
    ensures var end := RunFor(SearchLoop(search, critic), never, 0, Start("search", Fresh(query)), n);
            end.Halted? && end.result.Finished? && Done(rounds, end.result.state)
  {
    SearchLoopMovesInStep(search, critic, never);
    MovesAreRuns(SearchLoop(search, critic), search, critic, never, 0, To(Searching, Fresh(query)), n);
    MovesRunDown(search, critic, rounds, 0, Searching, Fresh(query), n);
  }

  lemma {:induction false} PassingMeetTheBar(docs: seq<Doc>, id: string)
    ensures id in Passing(docs) <==> exists i :: 0 <= i < |docs| && docs[i].score >= QUALITY_THRESHOLD && docs[i].jobId == id
    decreases |docs|
  {
    if docs != [] {
      var front := docs[..|docs| - 1];
      PassingMeetTheBar(front, id);
      if id in Passing(front) {
        var i :| 0 <= i < |front| && front[i].score >= QUALITY_THRESHOLD && front[i].jobId == id;
        assert docs[i] == front[i];
      }
      if i :| 0 <= i < |docs| && docs[i].score >= QUALITY_THRESHOLD && docs[i].jobId == id {
        assert i < |front| ==> front[i] == docs[i];
      }
    }
  }

  /** Whatever search and critic answer, a run that starts with only a query ends within 15 node
      executions, having submitted exactly the documents scored at least 85; a document below that is left only after
      the third revision. */
  lemma EndsWithinFifteen(search: Search, critic: Critic, never: nat -> bool, query: string, n: nat)
    requires n >= 15 && forall t: nat :: !never(t)
    ensures var end := RunFor(SearchLoop(search, critic), never, 0, Start("search", Fresh(query)), n);
            && end.Halted? && end.result.Finished?
            && var s := end.result.state;
               && DocIds(s.docs) == JobIds(s.jobs)
               && s.revisions <= 3 && (s.revisions == 3 || forall i | 0 <= i < |s.docs| :: s.docs[i].score >= 85)
               && forall id :: id in s.submitted <==>
                    exists i :: 0 <= i < |s.docs| && s.docs[i].score >= QUALITY_THRESHOLD && s.docs[i].jobId == id
  {
    RunsDown(search, critic, MAX_REVISIONS, never, query, n);
    var end := RunFor(SearchLoop(search, critic), never, 0, Start("search", Fresh(query)), n);
    forall id ensures id in end.result.state.submitted <==>
      exists i :: 0 <= i < |end.result.state.docs| && end.result.state.docs[i].score >= QUALITY_THRESHOLD && end.result.state.docs[i].jobId == id
    {
      PassingMeetTheBar(end.result.state.docs, id);
    }
  }

  // ---- the example's own stubs ----

  function StubCritic(): Critic {
    (_, d: Doc) => if 70 + d.revision * 8 > 100 then 100 else 70 + d.revision * 8
  }

  lemma {:induction false} AllPass(docs: seq<Doc>)
    requires WorstScore(docs) >= QUALITY_THRESHOLD
    ensures Passing(docs) == DocIds(docs)
    decreases |docs|
  {
    if docs != [] {
      var front := docs[..|docs| - 1];
      assert forall i | 0 <= i < |front| :: front[i] == docs[i];
      AllPass(front);
      assert docs[|docs| - 1].score >= WorstScore(docs);
      assert DocIds(docs) == DocIds(front) + [docs[|docs| - 1].jobId];
    } else {
      assert DocIds(docs) == [];
    }
  }

  /** With the stub critic, and still any search, a run ends within 13 node executions and submits every document. */
  lemma StubCriticEndsWithinThirteen(search: Search, never: nat -> bool, query: string, n: nat)
    requires n >= 13 && forall t: nat :: !never(t)
    ensures var end := RunFor(SearchLoop(search, StubCritic()), never, 0, Start("search", Fresh(query)), n);
            && end.Halted? && end.result.Finished?
            && end.result.state.submitted == DocIds(end.result.state.docs) == JobIds(end.result.state.jobs)
  {
    RunsDown(search, StubCritic(), 2, never, query, n);
    AllPass(RunFor(SearchLoop(search, StubCritic()), never, 0, Start("search", Fresh(query)), n).result.state.docs);
  }
}
