/** The loop of a compiled agent and its nested delegation (`pkg/agent/compiler.go`).  The answers of
    the language model, of the tools and of cancellation are oracles indexed by a clock that ticks
    at every consultation, so they may differ from one consultation to the next. */
module AgentLoop {
  import opened GraphExec

  const MAX_AGENT_DEPTH := 8
  const DEPTH_KEY := "bunshin.agent_depth"
  const TRUNCATED_KEY := "bunshin.agent_truncated"

  datatype ToolCall = ToolCall(id: string, name: string, arguments: string)

  datatype Part = Text(text: string) | CallPart(call: ToolCall) | ResultPart(callId: string, content: string)

  datatype Role = System | User | Assistant | Tool

  datatype Message = Message(role: Role, parts: seq<Part>)

  datatype MetaValue = IntValue(n: int) | BoolValue(b: bool) | Opaque(tag: string)

  /** `AgentState` in its envelope; the structured arguments are not read by the loop and left out. */
  datatype State = State(task: string, messages: seq<Message>, meta: map<string, MetaValue>)

  datatype LlmAnswer = LlmError(error: string) | Reply(content: string, calls: seq<ToolCall>)

  /** A compiled agent.  `subs` maps the names it may delegate to onto agent instances, and `skills`
      the names its skills are looked up by onto the names they bear. */
  datatype AgentDef = AgentDef(maxIterations: int, tools: set<string>, subs: map<string, string>, skills: map<string, string>)

  datatype InvokeResult = Returned(state: State) | Failed(state: State, error: string)

  // ---- the pure decisions ----

  /** Anything but an integer under the depth key counts as depth zero. */
  function Depth(state: State): int {
    if DEPTH_KEY in state.meta && state.meta[DEPTH_KEY].IntValue? then state.meta[DEPTH_KEY].n else 0
  }

  function CallsIn(parts: seq<Part>): seq<ToolCall> {
    if parts == [] then []
    else CallsIn(parts[..|parts| - 1]) + (if parts[|parts| - 1].CallPart? then [parts[|parts| - 1].call] else [])
  }

  /** The model's answer as messages: its text, then one message for each tool call. */
  function ReplyMessages(content: string, calls: seq<ToolCall>): seq<Message> {
    [Message(Assistant, [Text(content)])]
    + seq(|calls|, i requires 0 <= i < |calls| => Message(Assistant, [CallPart(calls[i])]))
  }

  function AfterLlm(answer: LlmAnswer, state: State): InvokeResult {
    match answer
    case LlmError(error) => Failed(state, error)
    case Reply(content, calls) => Returned(state.(messages := state.messages + ReplyMessages(content, calls)))
  }

  /** The tool calls the tools node executes: those of the last message, if the assistant wrote it. */
  function PendingCalls(state: State): seq<ToolCall> {
    if |state.messages| == 0 then []
    else
      var last := state.messages[|state.messages| - 1];
      if last.role == Assistant then CallsIn(last.parts) else []
  }

  datatype Decision = Decision(next: string, state: State)

  /** The content-based router, once its counter stands at `step`. */
  function Decide(step: nat, maxIterations: int, state: State): Decision {
    if |state.messages| == 0 || state.messages[|state.messages| - 1].role != Assistant then Decision(END, state)
    else if step >= maxIterations then Decision(END, state.(meta := state.meta[TRUNCATED_KEY := BoolValue(true)]))
    else if CallsIn(state.messages[|state.messages| - 1].parts) != [] then Decision("tools", state)
    else Decision(END, state)
  }

  /** What a sub-agent's envelope receives: the depth, and three keys of its parent. */
  function SubMeta(meta: map<string, MetaValue>, depth: int): map<string, MetaValue> {
    (map k | k in {"bunshin.tenant_id", "bunshin.trace_id", "bunshin.cost_budget"} && k in meta :: meta[k])
    [DEPTH_KEY := IntValue(depth)]
  }

  function TextOf(parts: seq<Part>): string {
    if parts == [] then ""
    else TextOf(parts[..|parts| - 1]) + (if parts[|parts| - 1].Text? then parts[|parts| - 1].text else "")
  }

  function SubOutput(r: InvokeResult): string {
    match r
    case Failed(_, error) => "error: " + error
    case Returned(state) => if |state.messages| > 0 then TextOf(state.messages[|state.messages| - 1].parts) else ""
  }

  lemma OneMoreTime(i: nat, bound: nat)
    ensures (i + 1) * bound == i * bound + bound
  {
  }

  /** What a caller gets from a sub-agent: the texts of the last message's parts, in order, or the error. */
  lemma SubOutputIsLastText(state: State, messages: seq<Message>, m: Message, text: string, parts: seq<Part>, error: string)
    requires state.messages == messages + [m] && m.parts == parts + [Text(text)]
    ensures SubOutput(Returned(state)) == TextOf(parts) + text
    ensures SubOutput(Failed(state, error)) == "error: " + error
  {
    TextOfConcat(parts, [Text(text)]);
    OnePart(Text(text));
  }

  /** The parts of all messages, in order. */
  function PartsOf(messages: seq<Message>): seq<Part> {
    if messages == [] then [] else PartsOf(messages[..|messages| - 1]) + messages[|messages| - 1].parts
  }

  lemma {:induction false} CallsInConcat(a: seq<Part>, b: seq<Part>)
    ensures CallsIn(a + b) == CallsIn(a) + CallsIn(b)
    decreases |b|
  {
    if b == [] {
      assert a + b == a;
    } else {
      assert (a + b)[..|a + b| - 1] == a + b[..|b| - 1];
      CallsInConcat(a, b[..|b| - 1]);
    }
  }

  lemma {:induction false} TextOfConcat(a: seq<Part>, b: seq<Part>)
    ensures TextOf(a + b) == TextOf(a) + TextOf(b)
    decreases |b|
  {
    if b == [] {
      assert a + b == a;
    } else {
      assert (a + b)[..|a + b| - 1] == a + b[..|b| - 1];
      TextOfConcat(a, b[..|b| - 1]);
    }
  }

  /** A text part is its text and no call, a call part the reverse, a result part neither. */
  lemma OnePart(p: Part)
    ensures TextOf([p]) == if p.Text? then p.text else ""
    ensures CallsIn([p]) == if p.CallPart? then [p.call] else []
  {
    assert [p][..0] == [];
  }

  lemma PartsOfOneMore(messages: seq<Message>, role: Role, p: Part)
    ensures var longer := PartsOf(messages + [Message(role, [p])]);
            && TextOf(longer) == TextOf(PartsOf(messages)) + (if p.Text? then p.text else "")
            && CallsIn(longer) == CallsIn(PartsOf(messages)) + (if p.CallPart? then [p.call] else [])
  {
    assert (messages + [Message(role, [p])])[..|messages|] == messages;
    OnePart(p);
    TextOfConcat(PartsOf(messages), [p]);
    CallsInConcat(PartsOf(messages), [p]);
  }

  lemma ReplyOneMore(content: string, calls: seq<ToolCall>, last: ToolCall)
    ensures ReplyMessages(content, calls + [last]) == ReplyMessages(content, calls) + [Message(Assistant, [CallPart(last)])]
  {
  }

  lemma ReplyShape(content: string, calls: seq<ToolCall>)
    ensures var messages := ReplyMessages(content, calls);
            |messages| == |calls| + 1 && forall m <- messages :: m.role == Assistant && |m.parts| == 1
  {
  }

  /** An answer loses nothing: its messages hold its text first and then all its calls in order. */
  lemma {:induction false} ReplyKeepsAnswer(content: string, calls: seq<ToolCall>)
    ensures var messages := ReplyMessages(content, calls);
            && TextOf(PartsOf(messages)) == content && messages[0].parts == [Text(content)]
            && CallsIn(PartsOf(messages)) == calls
    decreases |calls|
  {
    if calls == [] {
      assert ReplyMessages(content, []) == [] + [Message(Assistant, [Text(content)])];
      PartsOfOneMore([], Assistant, Text(content));
    } else {
      var front, last := calls[..|calls| - 1], calls[|calls| - 1];
      ReplyKeepsAnswer(content, front);
      ReplyOneMore(content, front, last);
      PartsOfOneMore(ReplyMessages(content, front), Assistant, CallPart(last));
      assert front + [last] == calls;
    }
  }

  /** Only the last of several tool calls in one answer is ever executed. */
  lemma OnlyLastCallPending(content: string, calls: seq<ToolCall>, state: State)
    ensures var after := AfterLlm(Reply(content, calls), state).state;
            PendingCalls(after) == if calls == [] then [] else [calls[|calls| - 1]]
  {
    var after := AfterLlm(Reply(content, calls), state).state;
    var last := after.messages[|after.messages| - 1];
    assert last == ReplyMessages(content, calls)[|calls|];
    OnePart(if calls == [] then Text(content) else CallPart(calls[|calls| - 1]));
  }

  lemma PendingOfReply(prev: State, state: State, content: string, calls: seq<ToolCall>)
    requires Replied(prev, state, content, calls)
    ensures PendingCalls(state) == if calls == [] then [] else [calls[|calls| - 1]]
    ensures |state.messages| > 0 && state.messages[|state.messages| - 1].role == Assistant
  {
    OnlyLastCallPending(content, calls, state.(messages := prev.messages));
  }

  /** Below the cap, a run goes on to the tools exactly when the model's answer has a tool call, and
      otherwise ends, the state unchanged; from the cap on it ends and is flagged. */
  lemma GoesOnIffCalled(content: string, calls: seq<ToolCall>, state: State, step: nat, cap: int)
    ensures var after := AfterLlm(Reply(content, calls), state).state;
            var d := Decide(step, cap, after);
            && (step < cap ==> d.state == after && (d.next == "tools" <==> calls != []) && (d.next == END <==> calls == []))
            && (step >= cap ==> d.next == END && Truncated(d.state) && d.state.messages == after.messages)
  {
    var after := AfterLlm(Reply(content, calls), state).state;
    PendingOfReply(state, after, content, calls);
  }

  lemma LlmAnswered(answer: LlmAnswer, state: State)
    requires answer.Reply?
    ensures var after := AfterLlm(answer, state).state;
            && state.messages < after.messages && after.task == state.task && after.meta == state.meta
            && after.messages[|after.messages| - 1].role == Assistant && |PendingCalls(after)| <= 1
  {
    OnlyLastCallPending(answer.content, answer.calls, state);
    var after := AfterLlm(answer, state).state;
    assert after.messages[|after.messages| - 1] == ReplyMessages(answer.content, answer.calls)[|answer.calls|];
  }

  // ---- the conversation ----

  /** The model has answered what it was shown. */
  ghost predicate Replied(prev: State, state: State, content: string, calls: seq<ToolCall>) {
    state.messages == prev.messages + ReplyMessages(content, calls)
  }

  /** The states that the llm node of the invocation at `depth` was shown, in order. */
  function Shown(made: seq<LlmRun>, depth: int): seq<State> {
    if made == [] then []
    else Shown(made[..|made| - 1], depth) + if made[|made| - 1].depth == depth then [made[|made| - 1].shown] else []
  }

  function Last(shown: seq<State>): State
    requires shown != []
  {
    shown[|shown| - 1]
  }

  lemma ShownOwn(made: seq<LlmRun>, agent: string, depth: int, state: State)
    ensures Shown(made + [LlmRun(agent, depth, state)], depth) == Shown(made, depth) + [state]
  {
    assert (made + [LlmRun(agent, depth, state)])[..|made|] == made;
  }

  lemma {:induction false} ShownDeeper(made: seq<LlmRun>, more: seq<LlmRun>, depth: int)
    requires Deeper(more, depth)
    ensures Shown(made + more, depth) == Shown(made, depth)
    decreases |more|
  {
    if more == [] {
      assert made + more == made;
    } else {
      assert (made + more)[..|made + more| - 1] == made + more[..|more| - 1];
      assert more[|more| - 1] in more;
      ShownDeeper(made, more[..|more| - 1], depth);
    }
  }

  // ---- bounds ----

  /** How far below this state delegation can still go. */
  function DepthLeft(state: State): nat {
    if Depth(state) >= MAX_AGENT_DEPTH then 0 else MAX_AGENT_DEPTH - Depth(state)
  }

  /** A bound on the model calls of one invocation whose agents take at most `turns` turns each. */
  function CallBound(turns: nat, depthLeft: nat): nat {
    Credit(turns, if depthLeft == 0 then 0 else CallBound(turns, depthLeft - 1))
  }

  /** What `own` turns may cost when each may delegate for `bound`: the product of `own` and `1 + bound`. */
  function Credit(own: nat, bound: nat): nat {
    if own == 0 then 0 else Credit(own - 1, bound) + 1 + bound
  }

  lemma {:induction false} CreditIsProduct(own: nat, bound: nat)
    ensures Credit(own, bound) == own * (1 + bound)
  {
    if own > 0 {
      CreditIsProduct(own - 1, bound);
      assert own * (1 + bound) == (own - 1) * (1 + bound) + (1 + bound);
    }
  }

  lemma CreditGrows(own: nat, more: nat, bound: nat)
    requires own <= more
    ensures Credit(own, bound) <= Credit(more, bound)
  {
    if own < more { CreditGrows(own, more - 1, bound); }
  }

  /** One run of an llm node: whose it was, at which depth, and the state the model was shown. */
  datatype LlmRun = LlmRun(agent: string, depth: int, shown: State)

  /** The state a sub-agent starts from: an empty history, and of its parent's envelope only `SubMeta`. */
  function SubState(task: string, parent: State): State {
    State(task, [], SubMeta(parent.meta, Depth(parent) + 1))
  }

  lemma SubStateIsIsolated(task: string, parent: State)
    ensures var sub := SubState(task, parent);
            && Depth(sub) == Depth(parent) + 1 && sub.messages == []
            && (Depth(parent) < MAX_AGENT_DEPTH ==> DepthLeft(sub) == DepthLeft(parent) - 1)
            && sub.task == task && sub.meta[DEPTH_KEY] == IntValue(Depth(parent) + 1)
            && (forall k | k in sub.meta && k != DEPTH_KEY :: k in parent.meta && sub.meta[k] == parent.meta[k])
            && forall k :: k in sub.meta <==>
                 k == DEPTH_KEY || (k in parent.meta && k in {"bunshin.tenant_id", "bunshin.trace_id", "bunshin.cost_budget"})
  {
  }

  /** `%q` */
  type Quote = string -> string

  /** What a call that names neither a tool nor an agent is answered with. */
  function OtherOutput(quote: Quote, def: AgentDef, name: string): string {
    if "load_skill_" <= name then
      var skill := name[|"load_skill_"|..];
      if skill in def.skills then "Skill " + quote(skill) + " loaded. Name: " + def.skills[skill]
      else "skill " + quote(skill) + " not found"
    else "tool " + quote(name) + " not found"
  }

  lemma OtherOutputMeans(quote: Quote, def: AgentDef, skill: string, name: string)
    ensures skill in def.skills ==>
              OtherOutput(quote, def, "load_skill_" + skill) == "Skill " + quote(skill) + " loaded. Name: " + def.skills[skill]
    ensures skill !in def.skills ==> OtherOutput(quote, def, "load_skill_" + skill) == "skill " + quote(skill) + " not found"
    ensures !("load_skill_" <= name) ==> OtherOutput(quote, def, name) == "tool " + quote(name) + " not found"
  {
    assert ("load_skill_" + skill)[|"load_skill_"|..] == skill;
  }

  /** The run ends with a message of the assistant and, below the cap, with no call pending. */
  ghost predicate Delivered(state: State, below: bool) {
    && |state.messages| > 0 && state.messages[|state.messages| - 1].role == Assistant
    && (below ==> PendingCalls(state) == [])
  }

  const CANCELLED := "context canceled"
  const LLM_FAILURE := "agent LLM call: "
  const DEPTH_ERROR := "error: agent depth limit (8) exceeded"

  ghost function RunsAt(log: seq<LlmRun>, depth: int): nat {
    if log == [] then 0 else RunsAt(log[..|log| - 1], depth) + (if log[|log| - 1].depth == depth then 1 else 0)
  }

  lemma {:induction false} RunsAtConcat(a: seq<LlmRun>, b: seq<LlmRun>, depth: int)
    ensures RunsAt(a + b, depth) == RunsAt(a, depth) + RunsAt(b, depth)
    decreases |b|
  {
    if b == [] {
      assert a + b == a;
    } else {
      assert (a + b)[..|a + b| - 1] == a + b[..|b| - 1];
      RunsAtConcat(a, b[..|b| - 1], depth);
    }
  }

  lemma {:induction false} NoRunsAt(log: seq<LlmRun>, depth: int)
    requires forall e | e in log :: e.depth > depth
    ensures RunsAt(log, depth) == 0
    decreases |log|
  {
    if log != [] {
      assert log[|log| - 1] in log;
      NoRunsAt(log[..|log| - 1], depth);
    }
  }

  function Clamp(n: int): nat {
    if n < 0 then 0 else n
  }

  function Max(a: int, b: int): int {
    if a > b then a else b
  }

  /** What delegation below one turn can cost. */
  function SubBound(turns: nat, depthLeft: nat): nat {
    if depthLeft == 0 then 0 else CallBound(turns, depthLeft - 1)
  }

  /** The model calls made during an invocation at `depth`: its own are by `agent`, all others are
      deeper and within the depth limit. */
  ghost predicate Within(made: seq<LlmRun>, agent: string, depth: int) {
    forall e | e in made :: depth <= e.depth <= Max(depth, MAX_AGENT_DEPTH) && (e.depth == depth ==> e.agent == agent)
  }

  lemma OwnRun(made: seq<LlmRun>, agent: string, depth: int, shown: State)
    requires Within(made, agent, depth)
    ensures Within(made + [LlmRun(agent, depth, shown)], agent, depth)
    ensures RunsAt(made + [LlmRun(agent, depth, shown)], depth) == RunsAt(made, depth) + 1
  {
    assert (made + [LlmRun(agent, depth, shown)])[..|made|] == made;
  }

  /** Deeper model calls, all within the limit, made while `depth` waits. */
  ghost predicate Deeper(made: seq<LlmRun>, depth: int) {
    forall e | e in made :: depth < e.depth <= MAX_AGENT_DEPTH
  }

  lemma DeeperRuns(made: seq<LlmRun>, more: seq<LlmRun>, agent: string, depth: int)
    requires Within(made, agent, depth) && Deeper(more, depth)
    ensures Within(made + more, agent, depth) && RunsAt(made + more, depth) == RunsAt(made, depth)
  {
    RunsAtConcat(made, more, depth);
    NoRunsAt(more, depth);
  }

  /** The bookkeeping of one invocation: the runs it `made` so far, `own` of them at its own depth,
      its router's counter at `step` after starting from `used`.  `spare` is the delegation that the
      last own run still has to its credit. */
  ghost predicate Tally(made: seq<LlmRun>, id: string, depth: int, own: nat, used: nat, step: nat,
                        cap: int, bound: nat, spare: nat) {
    && Within(made, id, depth) && own == RunsAt(made, depth)
    && own <= Max(1, cap - used) && own <= step - used
    && |made| + spare <= Credit(own, bound)
  }

  /** The bookkeeping while the loop goes on: there is a turn left. */
  ghost predicate TurnLeft(own: nat, used: nat, cap: int) {
    own == 0 || own <= cap - used - 1
  }

  lemma TallyOwnRun(made: seq<LlmRun>, id: string, depth: int, own: nat, used: nat, step: nat,
                    cap: int, bound: nat, shown: State)
    requires Tally(made, id, depth, own, used, step, cap, bound, 0) && TurnLeft(own, used, cap)
    ensures Tally(made + [LlmRun(id, depth, shown)], id, depth, own + 1, used, step + 1, cap, bound, bound)
  {
    OwnRun(made, id, depth, shown);
  }

  lemma TallyDeeper(made: seq<LlmRun>, more: seq<LlmRun>, id: string, depth: int, own: nat, used: nat, step: nat, step': nat,
                    cap: int, bound: nat)
    requires Tally(made, id, depth, own, used, step, cap, bound, bound) && own <= step - used && step <= step'
    requires Deeper(more, depth) && |more| <= bound
    ensures Tally(made + more, id, depth, own, used, step', cap, bound, 0)
  {
    DeeperRuns(made, more, id, depth);
  }

  lemma TallyBounds(made: seq<LlmRun>, id: string, depth: int, own: nat, used: nat, step: nat,
                    cap: int, spare: nat, turns: nat, depthLeft: nat)
    requires Tally(made, id, depth, own, used, step, cap, SubBound(turns, depthLeft), spare) && 1 <= turns && cap <= turns
    ensures |made| <= CallBound(turns, depthLeft) && RunsAt(made, depth) <= Max(1, cap - used)
  {
    CreditGrows(own, turns, SubBound(turns, depthLeft));
  }

  /** What an invocation may have done to the state it was given. */
  ghost predicate Carried(input: State, state: State) {
    && input.messages <= state.messages && state.task == input.task
    && (state.meta == input.meta || state.meta == input.meta[TRUNCATED_KEY := BoolValue(true)])
  }

  ghost predicate Truncated(state: State) {
    TRUNCATED_KEY in state.meta && state.meta[TRUNCATED_KEY] == BoolValue(true)
  }

  datatype Progress = Progress(own: nat, spare: nat)

  /** The first model call, if any, is the agent's own and sees the input as it came. */
  ghost predicate StartsWith(made: seq<LlmRun>, id: string, input: State) {
    made == [] || made[0] == LlmRun(id, Depth(input), input)
  }

  /** The invariant of the loop, standing before `current`. */
  ghost predicate Going(current: string, made: seq<LlmRun>, id: string, input: State, state: State, progress: Progress,
                        used: nat, step: nat, cap: int, turns: nat)
  {
    var bound := SubBound(turns, DepthLeft(input));
    && Tally(made, id, Depth(input), progress.own, used, step, cap, bound, progress.spare)
    && progress.spare == (if current == "llm" then 0 else bound)
    && Carried(input, state) && StartsWith(made, id, input)
    && (made == [] ==> current == "llm" && state == input)
    && if current == END then step >= cap ==> Truncated(state)
       else TurnLeft(progress.own, used, cap) && state.meta == input.meta
  }

  /** What an invocation may have cost, however it ended. */
  ghost predicate WithinBounds(made: seq<LlmRun>, id: string, input: State, used: nat, step: nat, cap: int, turns: nat) {
    && Within(made, id, Depth(input)) && StartsWith(made, id, input)
    // turns: what is left of the cap, which earlier invocations may have used up, but at least one
    && RunsAt(made, Depth(input)) <= Max(1, cap - used)
    // each turn is counted, but for one that fails
    && RunsAt(made, Depth(input)) <= step - used + 1
    // the whole nested call tree is finite, and this large at most
    && |made| <= CallBound(turns, DepthLeft(input))
  }

  lemma GoingBounds(current: string, made: seq<LlmRun>, id: string, input: State, state: State, progress: Progress,
                    used: nat, step: nat, cap: int, turns: nat)
    requires Going(current, made, id, input, state, progress, used, step, cap, turns) && 1 <= turns && cap <= turns
    ensures WithinBounds(made, id, input, used, step, cap, turns) && RunsAt(made, Depth(input)) <= step - used
  {
    TallyBounds(made, id, Depth(input), progress.own, used, step, cap, progress.spare, turns, DepthLeft(input));
  }

  lemma GoingLlm(made: seq<LlmRun>, id: string, input: State, state: State, progress: Progress,
                 used: nat, step: nat, cap: int, turns: nat, next: string, after: State, failed: bool)
    requires Going("llm", made, id, input, state, progress, used, step, cap, turns) && 1 <= turns && cap <= turns
    requires failed ==> after == state
    requires !failed ==> Carried(state, after) && (next == "tools" || next == END)
    requires !failed && next == "tools" ==> step + 1 < cap && after.meta == state.meta
    requires !failed && next == END ==> (step + 1 >= cap ==> Truncated(after))
    ensures var made' := made + [LlmRun(id, Depth(input), state)];
            var progress' := Progress(progress.own + 1, SubBound(turns, DepthLeft(input)));
            && (!failed ==> Going(next, made', id, input, after, progress', used, step + 1, cap, turns))
            && WithinBounds(made', id, input, used, if failed then step else step + 1, cap, turns) && Carried(input, after)
  {
    var bound := SubBound(turns, DepthLeft(input));
    TallyOwnRun(made, id, Depth(input), progress.own, used, step, cap, bound, state);
    TallyBounds(made + [LlmRun(id, Depth(input), state)], id, Depth(input), progress.own + 1, used, step + 1,
                cap, bound, turns, DepthLeft(input));
  }

  lemma GoingTools(made: seq<LlmRun>, id: string, input: State, state: State, progress: Progress,
                   used: nat, step: nat, step': nat, cap: int, turns: nat, more: seq<LlmRun>, after: State)
    requires Going("tools", made, id, input, state, progress, used, step, cap, turns)
    requires step <= step' && Deeper(more, Depth(input)) && |PendingCalls(state)| <= 1
    requires |more| <= |PendingCalls(state)| * SubBound(turns, DepthLeft(input))
    requires state.messages <= after.messages && after.task == state.task && after.meta == state.meta
    ensures Going("llm", made + more, id, input, after, progress.(spare := 0), used, step', cap, turns)
  {
    var bound := SubBound(turns, DepthLeft(input));
    if |PendingCalls(state)| == 0 {
      assert |more| <= 0 * bound;
    } else {
      assert |more| <= 1 * bound;
    }
    TallyDeeper(made, more, id, Depth(input), progress.own, used, step, step', cap, bound);
  }

  /** What is logged since the start of an invocation, after one more pass. */
  lemma LogFollows(start: seq<LlmRun>, before: seq<LlmRun>, log: seq<LlmRun>, made: seq<LlmRun>, made': seq<LlmRun>)
    requires start <= before <= log && made <= made'
    requires before[|start|..] == made && log[|before|..] == made'[|made|..]
    ensures log[|start|..] == made'
  {
    assert log[|start|..] == before[|start|..] + log[|before|..];
    assert made' == made + made'[|made|..];
  }

  // ---- invocations in turn ----

  /** One invocation: the counter before and after, the model calls made, those of its own turns, and
      whether it returned without an error. */
  datatype Visit = Visit(used: nat, step: nat, made: seq<LlmRun>, turns: nat, returned: bool)

  /** What an invocation guarantees about its turns. */
  ghost predicate VisitOk(v: Visit, cap: int) {
    && v.used <= v.step && v.turns <= Max(1, cap - v.used)
    && v.turns <= v.step - v.used + (if v.returned then 0 else 1)
  }

  /** Invocations one after the other, while the counter goes from `first` to `last`; others may move it
      in between. */
  ghost predicate Visiting(visits: seq<Visit>, first: nat, last: nat, cap: int) {
    if visits == [] then first <= last
    else
      var v := visits[|visits| - 1];
      VisitOk(v, cap) && v.step <= last && Visiting(visits[..|visits| - 1], first, v.used, cap)
  }

  lemma OneMoreVisit(visits: seq<Visit>, v: Visit, first: nat, cap: int)
    requires Visiting(visits, first, v.used, cap) && VisitOk(v, cap)
    ensures Visiting(visits + [v], first, v.step, cap) && AllMade(visits + [v]) == AllMade(visits) + v.made
  {
    assert (visits + [v])[..|visits|] == visits;
  }

  /** A visit records what an invocation on an input made and returned. */
  ghost predicate Records(v: Visit, input: State, r: InvokeResult) {
    v.turns == RunsAt(v.made, Depth(input)) && v.returned == r.Returned?
  }

  function Turns(visits: seq<Visit>): nat {
    if visits == [] then 0 else Turns(visits[..|visits| - 1]) + visits[|visits| - 1].turns
  }

  /** The turns granted beyond the cap: one to each invocation that failed or found the cap used up. */
  function Granted(visits: seq<Visit>, cap: int): nat {
    if visits == [] then 0
    else
      var v := visits[|visits| - 1];
      Granted(visits[..|visits| - 1], cap) + if v.used >= cap || !v.returned then 1 else 0
  }

  function AllMade(visits: seq<Visit>): seq<LlmRun> {
    if visits == [] then [] else AllMade(visits[..|visits| - 1]) + visits[|visits| - 1].made
  }

  /** The cap bounds the turns of all invocations together, in whatever order and with whatever else in
      between, but for one turn granted to each that failed or found the cap used up. */
  lemma {:induction false} TurnsTogether(visits: seq<Visit>, first: nat, last: nat, cap: int)
    requires Visiting(visits, first, last, cap)
    ensures first <= last && Turns(visits) <= Clamp(cap - first) - Clamp(cap - last) + Granted(visits, cap)
    decreases |visits|
  {
    if visits != [] {
      var front, v := visits[..|visits| - 1], visits[|visits| - 1];
      TurnsTogether(front, first, v.used, cap);
    }
  }

  // ---- the closures ----

  /** All agent instances and the variables their closures captured.  `steps` holds, for each
      instance, the router's counter: it is created at compile time and never reset. */
  class AgentRuntime {
    const agents: map<string, AgentDef>
    const llm: nat -> LlmAnswer
    const tool: (nat, ToolCall) -> string
    const cancelled: nat -> bool
    const taskOf: string -> string
    const quote: Quote
    ghost const turns: nat
    var steps: map<string, nat>
    var clock: nat
    ghost var log: seq<LlmRun>

    /** Every reference was resolved at compile time, and `turns` bounds every iteration cap. */
    ghost predicate Valid()
      reads this
    {
      && steps.Keys == agents.Keys && turns >= 1
      && forall a | a in agents :: agents[a].maxIterations <= turns && forall s | s in agents[a].subs :: agents[a].subs[s] in agents
    }

    /** The counters only ever grow and the log is only ever extended. */
    twostate predicate Onward()
      reads this
    {
      && steps.Keys == old(steps.Keys) && old(log) <= log
      && forall a | a in old(steps) :: old(steps)[a] <= steps[a]
    }

    /** What a tool call may be answered with: what the tool says at some time; the text of the last
        message of a sub-agent that started from the isolated state, or its error; or a fixed text. */
    ghost predicate OutputOk(id: string, call: ToolCall, state: State, output: string)
      requires id in agents
    {
      if call.name in agents[id].tools then exists t: nat :: output == tool(t, call)
      else if call.name in agents[id].subs then
        if Depth(state) >= MAX_AGENT_DEPTH then output == DEPTH_ERROR
        else exists result :: Delegated(call, state, result) && output == SubOutput(result)
      else output == OtherOutput(quote, agents[id], call.name)
    }

    /** A sub-agent's run starts from the isolated state and ends with a model answer or for a stated reason. */
    ghost predicate Delegated(call: ToolCall, state: State, result: InvokeResult) {
      && Carried(SubState(taskOf(call.arguments), state), result.state)
      && match result
         case Returned(after) => exists prev, content, calls :: Answered(prev, after, content, calls)
         case Failed(_, error) => Broke(error)
    }

    /** The model has answered what it was shown, at some time. */
    ghost predicate Answered(prev: State, state: State, content: string, calls: seq<ToolCall>) {
      Replied(prev, state, content, calls) && exists t: nat :: llm(t) == Reply(content, calls)
    }

    /** Why an invocation fails: it was cancelled, or a model call failed. */
    ghost predicate Broke(error: string) {
      error == CANCELLED || exists t: nat :: llm(t).LlmError? && error == LLM_FAILURE + llm(t).error
    }

    ghost predicate AnswersCall(id: string, m: Message, call: ToolCall, state: State)
      requires id in agents
    {
      exists output :: OutputOk(id, call, state, output) && m == Message(Tool, [ResultPart(call.id, output)])
    }

    /** One answer to each call, in order. */
    ghost predicate AllAnswered(id: string, answers: seq<Message>, calls: seq<ToolCall>, state: State)
      requires id in agents
    {
      |answers| == |calls| && forall k | 0 <= k < |calls| :: AnswersCall(id, answers[k], calls[k], state)
    }

    lemma OneMoreAnswer(id: string, answers: seq<Message>, calls: seq<ToolCall>, call: ToolCall, state: State, output: string)
      requires id in agents && AllAnswered(id, answers, calls, state) && OutputOk(id, call, state, output)
      ensures AllAnswered(id, answers + [Message(Tool, [ResultPart(call.id, output)])], calls + [call], state)
    {
      assert AnswersCall(id, Message(Tool, [ResultPart(call.id, output)]), call, state);
    }

    /** From one model call to the next: an answer with a tool call, and the answer to its last call. */
    ghost predicate ExchangedBy(id: string, input: State, prev: State, next: State,
                                content: string, calls: seq<ToolCall>, m: Message)
      requires id in agents
    {
      && calls != [] && AnswersCall(id, m, calls[|calls| - 1], input)
      && (exists t: nat :: llm(t) == Reply(content, calls))
      && next.messages == prev.messages + ReplyMessages(content, calls) + [m]
    }

    ghost predicate Exchanged(id: string, input: State, prev: State, next: State)
      requires id in agents
    {
      exists content, calls, m :: ExchangedBy(id, input, prev, next, content, calls, m)
    }

    ghost predicate Conversation(id: string, input: State, shown: seq<State>)
      requires id in agents
    {
      && (shown != [] ==> shown[0] == input)
      && forall k | 0 < k < |shown| :: Exchanged(id, input, shown[k - 1], shown[k])
    }

    /** The model's last answer, to what it was shown last, has a tool call that is still to be executed. */
    ghost predicate Asks(shown: seq<State>, state: State) {
      shown != [] && exists content, calls :: calls != [] && Answered(Last(shown), state, content, calls)
    }

    /** The last message is the model's answer to what it was shown last and, below the cap, one without
        a tool call: nothing is left to do. */
    ghost predicate Concludes(shown: seq<State>, state: State, below: bool) {
      shown != [] && exists content, calls :: Answered(Last(shown), state, content, calls) && (below ==> calls == [])
    }

    /** All that an invocation promises about the model calls `made` and its result. */
    ghost predicate Outcome(id: string, input: State, made: seq<LlmRun>, r: InvokeResult, below: bool)
      requires id in agents
    {
      var shown := Shown(made, Depth(input));
      && Conversation(id, input, shown)
      && match r
         case Returned(state) => Concludes(shown, state, below)
         case Failed(_, error) => Broke(error)
    }

    /** How the state of an invocation standing before `current` came about. */
    ghost predicate Talk(id: string, current: string, made: seq<LlmRun>, input: State, state: State, step: nat)
      requires id in agents
    {
      var shown := Shown(made, Depth(input));
      && Conversation(id, input, shown)
      && (current == "llm" ==> if shown == [] then state == input else Exchanged(id, input, Last(shown), state))
      && (current == "tools" ==> Asks(shown, state))
      && (current == END ==> Concludes(shown, state, step < agents[id].maxIterations))
    }

    ghost predicate TurnIs(state: State, after: State, next: string, below: bool, content: string, calls: seq<ToolCall>) {
      Answered(state, after, content, calls) && (below ==> (next == "tools" <==> calls != []))
    }

    lemma TalkAfterLlm(id: string, made: seq<LlmRun>, input: State, state: State, after: State, next: string, step: nat,
                       content: string, calls: seq<ToolCall>)
      requires id in agents && Talk(id, "llm", made, input, state, step)
      requires next == "tools" || next == END
      requires next == "tools" ==> step + 1 < agents[id].maxIterations
      requires TurnIs(state, after, next, step + 1 < agents[id].maxIterations, content, calls)
      ensures Talk(id, next, made + [LlmRun(id, Depth(input), state)], input, after, step + 1)
    {
      ShownOwn(made, id, Depth(input), state);
      assert Last(Shown(made + [LlmRun(id, Depth(input), state)], Depth(input))) == state;
      assert Answered(state, after, content, calls) && |END| != |"tools"| && |END| != |"llm"|;
    }

    lemma TalkAfterFailure(id: string, made: seq<LlmRun>, input: State, state: State, step: nat)
      requires id in agents && Talk(id, "llm", made, input, state, step)
      ensures Conversation(id, input, Shown(made + [LlmRun(id, Depth(input), state)], Depth(input)))
    {
      ShownOwn(made, id, Depth(input), state);
    }

    lemma TalkAfterTools(id: string, made: seq<LlmRun>, more: seq<LlmRun>, input: State, state: State, after: State,
                         results: seq<Message>, step: nat, step': nat)
      requires id in agents && Talk(id, "tools", made, input, state, step) && Deeper(more, Depth(input))
      requires after.messages == state.messages + results && AllAnswered(id, results, PendingCalls(state), input)
      ensures Talk(id, "llm", made + more, input, after, step')
    {
      ShownDeeper(made, more, Depth(input));
      var shown := Shown(made, Depth(input));
      var last := Last(shown);
      var content, calls :| calls != [] && Answered(last, state, content, calls);
      PendingOfReply(last, state, content, calls);
      assert results == [results[0]];
      assert ExchangedBy(id, input, last, after, content, calls, results[0]);
    }

    /** Answers depend on the envelope alone, not on the messages. */
    lemma SameEnvelope(id: string, m: Message, call: ToolCall, state: State, input: State)
      requires id in agents && AnswersCall(id, m, call, state) && state.meta == input.meta
      ensures AnswersCall(id, m, call, input)
    {
      var output :| OutputOk(id, call, state, output) && m == Message(Tool, [ResultPart(call.id, output)]);
      assert SubState(taskOf(call.arguments), state) == SubState(taskOf(call.arguments), input);
      if call.name !in agents[id].tools && call.name in agents[id].subs && Depth(state) < MAX_AGENT_DEPTH {
        var result :| Delegated(call, state, result) && output == SubOutput(result);
        assert Delegated(call, input, result);
      }
      assert OutputOk(id, call, input, output);
    }

    lemma AnswerIn(t: nat, state: State, after: State)
      requires llm(t).Reply? && Returned(after) == AfterLlm(llm(t), state)
      ensures Answered(state, after, llm(t).content, llm(t).calls)
      ensures state.messages < after.messages && after.task == state.task && after.meta == state.meta
      ensures |PendingCalls(after)| <= 1 && (PendingCalls(after) == [] <==> llm(t).calls == [])
      ensures after.messages[|after.messages| - 1].role == Assistant
    {
      LlmAnswered(llm(t), state);
      PendingOfReply(state, after, llm(t).content, llm(t).calls);
      assert llm(t) == Reply(llm(t).content, llm(t).calls);
    }

    method LlmNode(id: string, state: State) returns (r: InvokeResult)
      requires Valid()
      modifies this`clock, this`log
      ensures Valid() && log == old(log) + [LlmRun(id, Depth(state), state)]
      ensures r == AfterLlm(llm(old(clock)), state)
    {
      var answer := llm(clock);
      clock := clock + 1;
      log := log + [LlmRun(id, Depth(state), state)];
      if answer.LlmError? {
        return Failed(state, answer.error);
      }
      var messages := state.messages + [Message(Assistant, [Text(answer.content)])];
      for i := 0 to |answer.calls|
        invariant messages == state.messages + ReplyMessages(answer.content, answer.calls)[..i + 1]
      {
        messages := messages + [Message(Assistant, [CallPart(answer.calls[i])])];
      }
      assert ReplyMessages(answer.content, answer.calls)[..|answer.calls| + 1] == ReplyMessages(answer.content, answer.calls);
      return Returned(state.(messages := messages));
    }

    method Router(id: string, state: State) returns (d: Decision)
      requires Valid() && id in agents
      modifies this`steps
      ensures Valid() && steps == old(steps)[id := old(steps)[id] + 1]
      ensures d == Decide(steps[id], agents[id].maxIterations, state)
      // below the cap, tools if and only if a call is pending
      ensures steps[id] < agents[id].maxIterations ==>
                d.state == state && d.next == if PendingCalls(state) != [] then "tools" else END
    {
      steps := steps[id := steps[id] + 1];
      if |state.messages| == 0 {
        return Decision(END, state);
      }
      var last := state.messages[|state.messages| - 1];
      if last.role != Assistant {
        return Decision(END, state);
      }
      if steps[id] >= agents[id].maxIterations {
        return Decision(END, state.(meta := state.meta[TRUNCATED_KEY := BoolValue(true)]));
      }
      for i := 0 to |last.parts|
        invariant CallsIn(last.parts[..i]) == []
      {
        assert last.parts[..i + 1][..i] == last.parts[..i];
        if last.parts[i].CallPart? {
          SomeCall(last.parts, i);
          return Decision("tools", state);
        }
      }
      assert last.parts[..|last.parts|] == last.parts;
      return Decision(END, state);
    }

    lemma DelegatedBy(sub: string, call: ToolCall, state: State, made: seq<LlmRun>, r: InvokeResult, below: bool)
      requires sub in agents && Outcome(sub, SubState(taskOf(call.arguments), state), made, r, below)
      requires Carried(SubState(taskOf(call.arguments), state), r.state)
      ensures Delegated(call, state, r)
    {
    }

    /** The depth guard: at the limit the parent gets an error text and no agent runs. */
    method InvokeSubAgent(call: ToolCall, sub: string, state: State) returns (output: string, ghost result: InvokeResult)
      requires Valid() && sub in agents
      modifies this
      ensures Valid() && Onward()
      ensures Deeper(log[|old(log)|..], Depth(state))
      ensures |log| - |old(log)| <= SubBound(turns, DepthLeft(state))
      ensures Depth(state) >= MAX_AGENT_DEPTH ==> output == DEPTH_ERROR && log == old(log)
      // below the limit the caller gets the text of the sub-agent's last message, or its error
      ensures Depth(state) < MAX_AGENT_DEPTH ==>
                && output == SubOutput(result) && Delegated(call, state, result)
                && Outcome(sub, SubState(taskOf(call.arguments), state), log[|old(log)|..], result,
                           steps[sub] < agents[sub].maxIterations)
      ensures StartsWith(log[|old(log)|..], sub, SubState(taskOf(call.arguments), state))
      decreases DepthLeft(state), 0
    {
      var parentDepth := Depth(state);
      if parentDepth >= MAX_AGENT_DEPTH {
        return DEPTH_ERROR, Failed(state, "");
      }
      var subState := State(taskOf(call.arguments), [], SubMeta(state.meta, parentDepth + 1));
      assert subState == SubState(taskOf(call.arguments), state);
      SubStateIsIsolated(taskOf(call.arguments), state);
      var r := Invoke(sub, subState);
      DelegatedBy(sub, call, state, log[|old(log)|..], r, steps[sub] < agents[sub].maxIterations);
      output, result := SubOutput(r), r;
    }

    method ExecuteToolCall(id: string, call: ToolCall, state: State) returns (output: string)
      requires Valid() && id in agents
      modifies this
      ensures Valid() && Onward()
      ensures Deeper(log[|old(log)|..], Depth(state))
      ensures |log| - |old(log)| <= SubBound(turns, DepthLeft(state))
      // a tool wins over an agent of the same name, and an agent over a skill
      ensures call.name in agents[id].tools ==> output == tool(old(clock), call) && log == old(log)
      ensures call.name !in agents[id].tools && call.name in agents[id].subs ==>
                && StartsWith(log[|old(log)|..], agents[id].subs[call.name], SubState(taskOf(call.arguments), state))
                && (Depth(state) >= MAX_AGENT_DEPTH ==> output == DEPTH_ERROR)
      ensures call.name !in agents[id].tools && call.name !in agents[id].subs ==>
                output == OtherOutput(quote, agents[id], call.name) && log == old(log)
      ensures OutputOk(id, call, state, output)
      decreases DepthLeft(state), 1
    {
      if call.name in agents[id].tools {
        output := tool(clock, call);
        clock := clock + 1;
      } else if call.name in agents[id].subs {
        ghost var result;
        output, result := InvokeSubAgent(call, agents[id].subs[call.name], state);
      } else if "load_skill_" <= call.name {
        var skill := call.name[|"load_skill_"|..];
        if skill in agents[id].skills {
          output := "Skill " + quote(skill) + " loaded. Name: " + agents[id].skills[skill];
        } else {
          output := "skill " + quote(skill) + " not found";
        }
      } else {
        output := "tool " + quote(call.name) + " not found";
      }
    }

    /** Executes the pending calls in order and answers each with one tool message. */
    method ToolsNode(id: string, state: State) returns (after: State, ghost results: seq<Message>)
      requires Valid() && id in agents
      modifies this
      ensures Valid() && Onward()
      ensures Deeper(log[|old(log)|..], Depth(state))
      ensures |log| - |old(log)| <= |PendingCalls(state)| * SubBound(turns, DepthLeft(state))
      ensures after.task == state.task && after.meta == state.meta
      ensures after.messages == state.messages + results && AllAnswered(id, results, PendingCalls(state), state)
      decreases DepthLeft(state), 2
    {
      var calls := PendingCalls(state);
      var answers: seq<Message> := [];
      ghost var bound := SubBound(turns, DepthLeft(state));
      for i := 0 to |calls|
        invariant Valid() && Onward() && Deeper(log[|old(log)|..], Depth(state))
        invariant AllAnswered(id, answers, calls[..i], state)
        invariant |log| - |old(log)| <= i * bound
      {
        ghost var before := log;
        var output := ExecuteToolCall(id, calls[i], state);
        LogFollows(old(log), before, log, before[|old(log)|..], before[|old(log)|..] + log[|before|..]);
        OneMoreAnswer(id, answers, calls[..i], calls[i], state, output);
        assert calls[..i] + [calls[i]] == calls[..i + 1];
        answers := answers + [Message(Tool, [ResultPart(calls[i].id, output)])];
        OneMoreTime(i, bound);
      }
      assert calls[..|calls|] == calls;
      after, results := state.(messages := state.messages + answers), answers;
    }

    /** One pass through the executor's loop at the llm node: the model's turn, then its router. */
    method LlmTurn(id: string, state: State)
      returns (failed: bool, error: string, next: string, after: State, ghost content: string, ghost calls: seq<ToolCall>)
      requires Valid() && id in agents
      modifies this`clock, this`log, this`steps
      ensures Valid() && log == old(log) + [LlmRun(id, Depth(state), state)]
      ensures failed ==> steps == old(steps) && after == state && Broke(LLM_FAILURE + error)
      ensures !failed ==> steps == old(steps)[id := old(steps)[id] + 1] && Carried(state, after)
      ensures !failed && next == "tools" ==>
                steps[id] < agents[id].maxIterations && after.meta == state.meta && |PendingCalls(after)| <= 1
      ensures !failed && next != "tools" ==> next == END && (steps[id] >= agents[id].maxIterations ==> Truncated(after))
      ensures !failed ==> TurnIs(state, after, next, steps[id] < agents[id].maxIterations, content, calls)
    {
      ghost var asked := clock;
      var out := LlmNode(id, state);
      if out.Failed? {
        return true, out.error, "", out.state, "", [];
      }
      content, calls := llm(asked).content, llm(asked).calls;
      AnswerIn(asked, state, out.state);
      var decision := Router(id, out.state);
      failed, error, next, after := false, "", decision.next, decision.state;
    }

    /** The llm node's pass, with the bookkeeping of the invocation it belongs to in ghost parameters. */
    method LlmPass(id: string, state: State, ghost input: State, ghost made: seq<LlmRun>, ghost progress: Progress, ghost used: nat)
      returns (error: string, next: string, after: State, ghost made': seq<LlmRun>, ghost progress': Progress)
      requires Valid() && id in agents
      requires Going("llm", made, id, input, state, progress, used, steps[id], agents[id].maxIterations, turns)
      requires Talk(id, "llm", made, input, state, steps[id])
      modifies this`clock, this`log, this`steps
      ensures Valid() && Onward() && made <= made' && log[|old(log)|..] == made'[|made|..] && Carried(input, after)
      ensures Conversation(id, input, Shown(made', Depth(input)))
      ensures error == "" ==> Talk(id, next, made', input, after, steps[id])
      ensures error != "" ==> WithinBounds(made', id, input, used, steps[id], agents[id].maxIterations, turns) && Broke(error)
      ensures error == "" ==> Going(next, made', id, input, after, progress', used, steps[id], agents[id].maxIterations, turns)
      ensures error == "" && next != END ==>
        next == "tools" && old(steps)[id] < steps[id] < agents[id].maxIterations && |PendingCalls(after)| <= 1
    {
      var failed, why;
      ghost var content, calls;
      failed, why, next, after, content, calls := LlmTurn(id, state);
      GoingLlm(made, id, input, state, progress, used, old(steps)[id], agents[id].maxIterations, turns, next, after, failed);
      made', progress' := made + [LlmRun(id, Depth(input), state)], Progress(progress.own + 1, SubBound(turns, DepthLeft(input)));
      error := if failed then LLM_FAILURE + why else "";
      TalkAfterFailure(id, made, input, state, old(steps)[id]);
      if !failed { TalkAfterLlm(id, made, input, state, after, next, old(steps)[id], content, calls); }
    }

    /** The tools node's pass. */
    method ToolsPass(id: string, state: State, ghost input: State, ghost made: seq<LlmRun>, ghost progress: Progress, ghost used: nat)
      returns (after: State, ghost made': seq<LlmRun>, ghost progress': Progress)
      requires Valid() && id in agents && |PendingCalls(state)| <= 1
      requires Going("tools", made, id, input, state, progress, used, steps[id], agents[id].maxIterations, turns)
      requires Talk(id, "tools", made, input, state, steps[id])
      modifies this
      ensures Valid() && Onward() && made <= made' && log[|old(log)|..] == made'[|made|..] && Carried(input, after)
      ensures Talk(id, "llm", made', input, after, steps[id])
      ensures Going("llm", made', id, input, after, progress', used, steps[id], agents[id].maxIterations, turns)
      decreases DepthLeft(input), 3
    {
      ghost var results;
      after, results := ToolsNode(id, state);
      made', progress' := made + log[|old(log)|..], progress.(spare := 0);
      GoingTools(made, id, input, state, progress, used, old(steps)[id], steps[id], agents[id].maxIterations, turns,
                 log[|old(log)|..], after);
      forall i | 0 <= i < |results| ensures AnswersCall(id, results[i], PendingCalls(state)[i], input) {
        SameEnvelope(id, results[i], PendingCalls(state)[i], state, input);
      }
      TalkAfterTools(id, made, log[|old(log)|..], input, state, after, results, old(steps)[id], steps[id]);
    }

    /** One pass through the executor's loop. */
    method Pass(id: string, current: string, state: State,
                ghost input: State, ghost made: seq<LlmRun>, ghost progress: Progress, ghost used: nat)
      returns (error: string, next: string, after: State, ghost made': seq<LlmRun>, ghost progress': Progress)
      requires Valid() && id in agents
      requires current == "llm" || (current == "tools" && steps[id] < agents[id].maxIterations && |PendingCalls(state)| <= 1)
      requires Going(current, made, id, input, state, progress, used, steps[id], agents[id].maxIterations, turns)
      requires Talk(id, current, made, input, state, steps[id])
      modifies this
      ensures Valid() && Onward() && made <= made' && log[|old(log)|..] == made'[|made|..] && Carried(input, after)
      ensures Conversation(id, input, Shown(made', Depth(input)))
      ensures error == "" ==> Talk(id, next, made', input, after, steps[id])
      ensures error != "" ==> WithinBounds(made', id, input, used, steps[id], agents[id].maxIterations, turns) && Broke(error)
      ensures error == "" ==> Going(next, made', id, input, after, progress', used, steps[id], agents[id].maxIterations, turns)
      ensures error == "" && current == "tools" ==> next == "llm"
      ensures error == "" && current == "llm" && next != END ==>
        next == "tools" && old(steps)[id] < steps[id] < agents[id].maxIterations && |PendingCalls(after)| <= 1
      decreases DepthLeft(input), 4
    {
      if cancelled(clock) {
        GoingBounds(current, made, id, input, state, progress, used, steps[id], agents[id].maxIterations, turns);
        return CANCELLED, "", state, made, progress;
      }
      clock := clock + 1;
      if current == "llm" {
        error, next, after, made', progress' := LlmPass(id, state, input, made, progress, used);
      } else {
        error, next := "", "llm";
        after, made', progress' := ToolsPass(id, state, input, made, progress, used);
      }
    }

    /** The executor's loop over the two-node graph, from the llm node until its end or an error. */
    method RunLoop(id: string, input: State)
      returns (r: InvokeResult, ghost made: seq<LlmRun>, ghost progress: Progress)
      requires Valid() && id in agents
      modifies this
      ensures Valid() && Onward() && log[|old(log)|..] == made && Carried(input, r.state)
      ensures r.Failed? ==> WithinBounds(made, id, input, old(steps)[id], steps[id], agents[id].maxIterations, turns)
      ensures r.Returned? ==>
        Going(END, made, id, input, r.state, progress, old(steps)[id], steps[id], agents[id].maxIterations, turns)
      ensures Outcome(id, input, made, r, steps[id] < agents[id].maxIterations)
      decreases DepthLeft(input), 5
    {
      var current := "llm";
      var state := input;
      made, progress := [], Progress(0, 0);
      ghost var cap := agents[id].maxIterations;
      while current != END
        invariant Valid() && Onward() && log[|old(log)|..] == made
        invariant current == "llm" || current == END || (current == "tools" && steps[id] < cap && |PendingCalls(state)| <= 1)
        invariant Going(current, made, id, input, state, progress, old(steps)[id], steps[id], cap, turns)
        invariant Talk(id, current, made, input, state, steps[id])
        decreases 2 * Clamp(cap - steps[id]) + (if current == "tools" then 1 else 0), current != END
      {
        ghost var before, was := log, made;
        var error, next, after;
        error, next, after, made, progress := Pass(id, current, state, input, made, progress, old(steps)[id]);
        LogFollows(old(log), before, log, was, made);
        if error != "" {
          return Failed(after, error), made, progress;
        }
        current, state := next, after;
      }
      r := Returned(state);
    }

    /** `CompiledAgent.Invoke`: the two-node graph, run from its llm node. */
    method Invoke(id: string, input: State) returns (r: InvokeResult)
      requires Valid() && id in agents
      modifies this
      ensures Valid() && Onward()
      ensures WithinBounds(log[|old(log)|..], id, input, old(steps)[id], steps[id], agents[id].maxIterations, turns)
      ensures r.Returned? ==> RunsAt(log[|old(log)|..], Depth(input)) <= steps[id] - old(steps)[id]
      // the history is only extended, and nothing but the truncation flag is added to the envelope
      ensures Carried(input, r.state)
      // running into the cap is flagged
      ensures r.Returned? && steps[id] >= agents[id].maxIterations ==> Truncated(r.state)
      // the model is first shown the input, and then, each time, its last answer with its last tool call
      // answered; a return is with an answer, below the cap with one that has no tool call
      ensures Outcome(id, input, log[|old(log)|..], r, steps[id] < agents[id].maxIterations)
      ensures r.Returned? ==> Delivered(r.state, steps[id] < agents[id].maxIterations)
      decreases DepthLeft(input), 6
    {
      ghost var made, progress;
      r, made, progress := RunLoop(id, input);
      if r.Returned? {
        GoingBounds(END, made, id, input, r.state, progress, old(steps)[id], steps[id], agents[id].maxIterations, turns);
        ConcludedMeans(Shown(made, Depth(input)), r.state, steps[id] < agents[id].maxIterations);
      }
    }

    lemma ConcludedMeans(shown: seq<State>, state: State, below: bool)
      requires Concludes(shown, state, below)
      ensures Delivered(state, below)
    {
      var content, calls :| Answered(Last(shown), state, content, calls) && (below ==> calls == []);
      PendingOfReply(Last(shown), state, content, calls);
    }

    method InvokeOnce(id: string, input: State) returns (r: InvokeResult, ghost visit: Visit)
      requires Valid() && id in agents
      modifies this
      ensures Valid() && Onward() && log == old(log) + visit.made
      ensures Records(visit, input, r) && VisitOk(visit, agents[id].maxIterations)
      ensures visit.used == old(steps)[id] && visit.step == steps[id]
    {
      ghost var before, used := log, steps[id];
      r := Invoke(id, input);
      ghost var made := log[|before|..];
      visit := Visit(used, steps[id], made, RunsAt(made, Depth(input)), r.Returned?);
    }

    /** One invocation after another, on whatever inputs: `visits` records the counter before and after
        each, the model calls it made, and whether it returned. */
    method InvokeInTurn(id: string, inputs: seq<State>) returns (results: seq<InvokeResult>, ghost visits: seq<Visit>)
      requires Valid() && id in agents
      modifies this
      ensures Valid() && Onward() && |results| == |visits| == |inputs|
      ensures log == old(log) + AllMade(visits)
      ensures forall i | 0 <= i < |visits| :: Records(visits[i], inputs[i], results[i])
      ensures Visiting(visits, old(steps)[id], steps[id], agents[id].maxIterations)
      // all turns together stay within what was left of the cap, plus one for each invocation that
      // failed or began with the cap used up
      ensures Turns(visits) <= Clamp(agents[id].maxIterations - old(steps)[id]) + Granted(visits, agents[id].maxIterations)
    {
      results, visits := [], [];
      for i := 0 to |inputs|
        invariant Valid() && Onward() && |results| == |visits| == i
        invariant log == old(log) + AllMade(visits)
        invariant forall k | 0 <= k < i :: Records(visits[k], inputs[k], results[k])
        invariant Visiting(visits, old(steps)[id], steps[id], agents[id].maxIterations)
      {
        ghost var visit;
        var r;
        r, visit := InvokeOnce(id, inputs[i]);
        OneMoreVisit(visits, visit, old(steps)[id], agents[id].maxIterations);
        results, visits := results + [r], visits + [visit];
      }
      TurnsTogether(visits, old(steps)[id], steps[id], agents[id].maxIterations);
    }
  }

  lemma SomeCall(parts: seq<Part>, i: nat)
    requires i < |parts| && parts[i].CallPart?
    ensures CallsIn(parts) != []
    decreases |parts|
  {
    if i < |parts| - 1 { SomeCall(parts[..|parts| - 1], i); }
  }
}
