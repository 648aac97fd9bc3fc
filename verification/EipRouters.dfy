/** The stateful routers of `pkg/graph/router/eip/eip.go`.  Each keeps a position in the state and
    so turns a cyclic graph into an iteration over a list. */
module EipRouters {
  import opened Wrappers
  import opened GraphExec

  /** The dynamic values that workflows carry, as far as the routers tell them apart. */
  datatype Value =
    | Nil
    | Bool(b: bool)
    | Int(n: int)
    | Int64(n64: int)
    | Int32(n32: int)
    | Float(x: real)
    | Str(s: string)
    | List(items: seq<Value>)
    | Strings(strings: seq<string>)
    | Maps(maps: seq<map<string, Value>>)
    | Object(fields: map<string, Value>)

  datatype State = State(data: map<string, Value>, meta: map<string, Value>)

  /** Go's conversion of a float to an integer drops the fraction. */
  function Truncate(x: real): int {
    if x >= 0.0 then x.Floor else -(-x).Floor
  }

  function ToInt(v: Value): int {
    match v
    case Int(n) => n
    case Int64(n) => n
    case Int32(n) => n
    case Float(x) => Truncate(x)
    case _ => 0
  }

  function MetaInt(state: State, key: string): int {
    if key in state.meta then ToInt(state.meta[key]) else 0
  }

  function ToAnySlice(v: Value): Option<seq<Value>> {
    match v
    case List(items) => Some(items)
    case Strings(strings) => Some(seq(|strings|, i requires 0 <= i < |strings| => Str(strings[i])))
    case Maps(maps) => Some(seq(|maps|, i requires 0 <= i < |maps| => Object(maps[i])))
    case _ => None
  }

  function ToStringSlice(v: Value): Option<seq<string>> {
    match v
    case Strings(strings) => Some(strings)
    case List(items) =>
      if forall i | 0 <= i < |items| :: items[i].Str?
      then Some(seq(|items|, i requires 0 <= i < |items| && items[i].Str? => items[i].s))
      else None
    case _ => None
  }

  // ---- what the conversions mean, over the stored values themselves ----

  /** The value stores these strings, in order, as a list of strings or as a list of values. */
  ghost predicate StoresNames(v: Value, names: seq<string>) {
    || v == Strings(names)
    || (v.List? && |v.items| == |names| && forall i | 0 <= i < |names| :: v.items[i] == Str(names[i]))
  }

  /** The value stores these items, in order, in one of the three kinds of list. */
  ghost predicate StoresItems(v: Value, items: seq<Value>) {
    || v == List(items)
    || (v.Strings? && |v.strings| == |items| && forall i | 0 <= i < |items| :: items[i] == Str(v.strings[i]))
    || (v.Maps? && |v.maps| == |items| && forall i | 0 <= i < |items| :: items[i] == Object(v.maps[i]))
  }

  /** Exactly the lists of strings are read as such, and as the strings they store. */
  lemma StringSliceIsStored(v: Value)
    ensures forall names | StoresNames(v, names) :: ToStringSlice(v) == Some(names)
    ensures ToStringSlice(v).Some? ==> StoresNames(v, ToStringSlice(v).value)
    ensures ToStringSlice(v).None? <==> !v.Strings? && !(v.List? && forall i | 0 <= i < |v.items| :: v.items[i].Str?)
  {
    forall names | StoresNames(v, names) ensures ToStringSlice(v) == Some(names) {
      if v.List? { assert ToStringSlice(v).value == names; }
    }
  }

  lemma AnySliceIsStored(v: Value)
    ensures forall items | StoresItems(v, items) :: ToAnySlice(v) == Some(items)
    ensures ToAnySlice(v).Some? ==> StoresItems(v, ToAnySlice(v).value)
    ensures ToAnySlice(v).None? <==> !v.List? && !v.Strings? && !v.Maps?
  {
    forall items | StoresItems(v, items) ensures ToAnySlice(v) == Some(items) {
      assert ToAnySlice(v).value == items;
    }
  }

  /** Integers of every width are read as they are, a float loses its fraction towards zero, and
      everything else, like a missing key, counts as zero. */
  lemma ToIntMeans(n: int, x: real, v: Value, state: State, key: string)
    ensures ToInt(Int(n)) == ToInt(Int64(n)) == ToInt(Int32(n)) == n
    ensures x >= 0.0 ==> ToInt(Float(x)) as real <= x < ToInt(Float(x)) as real + 1.0
    ensures x <= 0.0 ==> ToInt(Float(x)) as real - 1.0 < x <= ToInt(Float(x)) as real
    ensures !v.Int? && !v.Int64? && !v.Int32? && !v.Float? ==> ToInt(v) == 0
    ensures MetaInt(state.(meta := state.meta[key := v]), key) == ToInt(v)
    ensures key !in state.meta ==> MetaInt(state, key) == 0
  {
  }

  // ---- the routing decisions ----

  datatype PositionRouter =
    | RoutingSlip(slipKey: string, posKey: string)
    | RecipientList(recipients: seq<string>, posKey: string)
    | Splitter(inputKey: string, itemKey: string, posKey: string, next: string)

  function Advance(state: State, posKey: string, pos: int): State {
    state.(meta := state.meta[posKey := Int(pos + 1)])
  }

  function RouteSlip(slipKey: string, posKey: string, state: State): Routing<State> {
    if slipKey !in state.meta then Goto(END, state)
    else
      match ToStringSlice(state.meta[slipKey])
      case None => RouteFail(state, "routing_slip: slip_key")
      case Some(slip) =>
        var pos := MetaInt(state, posKey);
        if pos < 0 || pos >= |slip| then Goto(END, state)
        else Goto(slip[pos], Advance(state, posKey, pos))
  }

  function RouteRecipients(recipients: seq<string>, posKey: string, state: State): Routing<State> {
    var pos := MetaInt(state, posKey);
    if pos < 0 || pos >= |recipients| then Goto(END, state)
    else Goto(recipients[pos], Advance(state, posKey, pos))
  }

  function RouteSplitter(inputKey: string, itemKey: string, posKey: string, next: string, state: State): Routing<State> {
    if inputKey !in state.data then Goto(END, state)
    else
      match ToAnySlice(state.data[inputKey])
      case None => RouteFail(state, "splitter: input_key")
      case Some(items) =>
        var pos := MetaInt(state, posKey);
        if pos < 0 || pos >= |items| then Goto(END, state)
        else Goto(next, Advance(state.(data := state.data[itemKey := items[pos]]), posKey, pos))
  }

  function Route(r: PositionRouter, state: State): Routing<State> {
    match r
    case RoutingSlip(slipKey, posKey) => RouteSlip(slipKey, posKey, state)
    case RecipientList(recipients, posKey) => RouteRecipients(recipients, posKey, state)
    case Splitter(inputKey, itemKey, posKey, next) => RouteSplitter(inputKey, itemKey, posKey, next, state)
  }

  function RouteAggregator(itemKey: string, outputKey: string, countKey: string, next: string, state: State): Routing<State> {
    if itemKey !in state.data then Goto(END, state)
    else if outputKey in state.data && !state.data[outputKey].List? then RouteFail(state, "aggregator: output_key")
    else
      var acc := (if outputKey in state.data then state.data[outputKey].items else []) + [state.data[itemKey]];
      var collected := state.(data := state.data[outputKey := List(acc)]);
      var expected := MetaInt(state, countKey);
      if expected > 0 && |acc| >= expected then Goto(next, collected) else Goto(END, collected)
  }

  // ---- the router closures, which write the maps of the state in place ----

  /** The two maps behind a state: whoever holds the state sees what a router writes into them. */
  class SharedState {
    var data: map<string, Value>
    var meta: map<string, Value>

    constructor (state: State)
      ensures Snapshot() == state
    {
      data, meta := state.data, state.meta;
    }

    function Snapshot(): State
      reads this
    {
      State(data, meta)
    }

    /** The verdict of a router call, given what it decides and leaves behind. */
    ghost predicate Obeys(routing: Routing<State>, next: string, failed: bool)
      reads this
    {
      match routing
      case Goto(target, state) => !failed && next == target && Snapshot() == state
      case RouteFail(left, _) => failed && Snapshot() == left
    }

    method RoutingSlipRouter(slipKey: string, posKey: string) returns (next: string, failed: bool)
      modifies this
      ensures Obeys(RouteSlip(slipKey, posKey, old(Snapshot())), next, failed)
      ensures forall names | slipKey in old(meta) && StoresNames(old(meta)[slipKey], names) ::
        var pos := MetaInt(old(Snapshot()), posKey);
        && !failed && data == old(data)
        && if 0 <= pos < |names| then next == names[pos] && meta == old(meta)[posKey := Int(pos + 1)]
           else next == END && meta == old(meta)
    {
      if slipKey !in meta {
        return END, false;
      }
      StringSliceIsStored(meta[slipKey]);
      var slip := ToStringSlice(meta[slipKey]);
      if slip.None? {
        return "", true;
      }
      var pos := MetaInt(Snapshot(), posKey);
      if pos < 0 || pos >= |slip.value| {
        return END, false;
      }
      meta := meta[posKey := Int(pos + 1)];
      return slip.value[pos], false;
    }

    method RecipientListRouter(recipients: seq<string>, posKey: string) returns (next: string, failed: bool)
      modifies this
      ensures Obeys(RouteRecipients(recipients, posKey, old(Snapshot())), next, failed)
      ensures var pos := MetaInt(old(Snapshot()), posKey);
              && !failed && data == old(data)
              && if 0 <= pos < |recipients| then next == recipients[pos] && meta == old(meta)[posKey := Int(pos + 1)]
                 else next == END && meta == old(meta)
    {
      var pos := MetaInt(Snapshot(), posKey);
      if pos < 0 || pos >= |recipients| {
        return END, false;
      }
      meta := meta[posKey := Int(pos + 1)];
      return recipients[pos], false;
    }

    method SplitterRouter(inputKey: string, itemKey: string, posKey: string, target: string) returns (next: string, failed: bool)
      modifies this
      ensures Obeys(RouteSplitter(inputKey, itemKey, posKey, target, old(Snapshot())), next, failed)
      ensures forall items | inputKey in old(data) && StoresItems(old(data)[inputKey], items) ::
        var pos := MetaInt(old(Snapshot()), posKey);
        && !failed
        && if 0 <= pos < |items| then
             next == target && data == old(data)[itemKey := items[pos]] && meta == old(meta)[posKey := Int(pos + 1)]
           else next == END && data == old(data) && meta == old(meta)
    {
      if inputKey !in data {
        return END, false;
      }
      AnySliceIsStored(data[inputKey]);
      var items := ToAnySlice(data[inputKey]);
      if items.None? {
        return "", true;
      }
      var pos := MetaInt(Snapshot(), posKey);
      if pos < 0 || pos >= |items.value| {
        return END, false;
      }
      data := data[itemKey := items.value[pos]];
      meta := meta[posKey := Int(pos + 1)];
      return target, false;
    }

    method AggregatorRouter(itemKey: string, outputKey: string, countKey: string, target: string) returns (next: string, failed: bool)
      modifies this
      ensures Obeys(RouteAggregator(itemKey, outputKey, countKey, target, old(Snapshot())), next, failed)
    {
      if itemKey !in data {
        return END, false;
      }
      var acc := [];
      if outputKey in data {
        if !data[outputKey].List? {
          return "", true;
        }
        acc := data[outputKey].items;
      }
      acc := acc + [data[itemKey]];
      data := data[outputKey := List(acc)];
      var expected := MetaInt(Snapshot(), countKey);
      if expected > 0 && |acc| >= expected {
        return target, false;
      }
      return END, false;
    }
  }

  // ---- iteration ----

  /** One stop of an iteration: the node to visit and, for a splitter, the item it is to see. */
  datatype Stop = Stop(node: string, item: Option<Value>)

  function Pos(r: PositionRouter, state: State): int {
    MetaInt(state, r.posKey)
  }

  /** All stops the router would make from position zero; `None` when it would report an error. */
  function Plan(r: PositionRouter, state: State): Option<seq<Stop>> {
    match r
    case RoutingSlip(slipKey, _) =>
      if slipKey !in state.meta then Some([])
      else (match ToStringSlice(state.meta[slipKey])
            case None => None
            case Some(slip) => Some(seq(|slip|, i requires 0 <= i < |slip| => Stop(slip[i], None))))
    case RecipientList(recipients, _) =>
      Some(seq(|recipients|, i requires 0 <= i < |recipients| => Stop(recipients[i], None)))
    case Splitter(inputKey, _, _, next) =>
      if inputKey !in state.data then Some([])
      else (match ToAnySlice(state.data[inputKey])
            case None => None
            case Some(items) => Some(seq(|items|, i requires 0 <= i < |items| => Stop(next, Some(items[i])))))
  }

  /** What a visited node can observe of the stop it was reached for. */
  function Observed(r: PositionRouter, node: string, state: State): Stop {
    match r
    case Splitter(_, itemKey, _, _) => Stop(node, if itemKey in state.data then Some(state.data[itemKey]) else None)
    case _ => Stop(node, None)
  }

  /** The keys a router writes are not the keys it iterates over. */
  predicate SeparateKeys(r: PositionRouter) {
    match r
    case RoutingSlip(slipKey, posKey) => slipKey != posKey
    case RecipientList(_, _) => true
    case Splitter(inputKey, itemKey, _, _) => inputKey != itemKey
  }

  function Remaining(plan: seq<Stop>, pos: int): seq<Stop> {
    if 0 <= pos <= |plan| then plan[pos..] else []
  }

  /** One routing decision: the next stop of the plan and the position after it, or the end. */
  lemma RouteFollowsPlan(r: PositionRouter, state: State)
    requires SeparateKeys(r) && Plan(r, state).Some?
    ensures var plan, pos := Plan(r, state).value, Pos(r, state);
            if 0 <= pos < |plan| then
              && Route(r, state).Goto? && Route(r, state).next == plan[pos].node
              && var after := Route(r, state).state;
                 Plan(r, after) == Some(plan) && Pos(r, after) == pos + 1 && Observed(r, plan[pos].node, after) == plan[pos]
            else Route(r, state) == Goto(END, state)
  {
  }

  ghost predicate KeepsAt(r: PositionRouter, node: Node<State>, t: nat, s: State) {
    node.run(t, s).Ok? ==> Plan(r, node.run(t, s).value) == Plan(r, s) && Pos(r, node.run(t, s).value) == Pos(r, s)
  }

  /** A node that leaves the list and the position alone. */
  ghost predicate Keeps(r: PositionRouter, node: Node<State>) {
    forall t: nat, s :: KeepsAt(r, node, t, s)
  }

  ghost predicate RoutesAt(node: Node<State>, t: nat, s: State, routing: Routing<State>) {
    node.router.Some? && node.router.value(t, s) == routing
  }

  ghost predicate RoutesBy(node: Node<State>, r: PositionRouter) {
    forall t: nat, s :: RoutesAt(node, t, s, Route(r, s))
  }

  ghost predicate ReturnsTo(node: Node<State>, hub: string) {
    forall t: nat, s :: RoutesAt(node, t, s, Goto(hub, s))
  }

  /** A graph that iterates: the hub routes by `r`, and each node of the plan either returns to the
      hub or routes by `r` itself. */
  ghost predicate Iterates(nodes: map<string, Node<State>>, hub: string, r: PositionRouter, plan: seq<Stop>) {
    && SeparateKeys(r)
    && hub in nodes && hub != END && Keeps(r, nodes[hub]) && RoutesBy(nodes[hub], r)
    && forall k {:trigger plan[k]} | 0 <= k < |plan| ::
         var id := plan[k].node;
         && id in nodes && id != END && id != hub && Keeps(r, nodes[id])
         && (ReturnsTo(nodes[id], hub) || RoutesBy(nodes[id], r))
  }

  /** The stops made within the next `n` node executions, the hub's own executions aside. */
  ghost function Visited(nodes: map<string, Node<State>>, cancelled: nat -> bool, hub: string, r: PositionRouter,
                         tick: nat, c: Config<State>, n: nat): seq<Stop>
    decreases n
  {
    if n == 0 || c.Halted? || cancelled(tick) || c.node !in nodes then []
    else
      (if c.node == hub then [] else [Observed(r, c.node, c.state)])
      + Visited(nodes, cancelled, hub, r, tick + 1, Step(nodes, cancelled, tick, c), n - 1)
  }

  /** The stops still to be made from a configuration inside an iteration. */
  ghost predicate Underway(nodes: map<string, Node<State>>, hub: string, r: PositionRouter, plan: seq<Stop>,
                           c: Config<State>, left: seq<Stop>)
  {
    match c
    case Halted(result) => left == [] && result.Finished?
    case At(node, state) =>
      && Plan(r, state) == Some(plan)
      && var pos := Pos(r, state);
         if node == hub then left == Remaining(plan, pos)
         else 0 < pos <= |plan| && plan[pos - 1] == Observed(r, node, state) && left == plan[pos - 1..]
  }

  ghost predicate Healthy(nodes: map<string, Node<State>>, cancelled: nat -> bool) {
    (forall t: nat :: !cancelled(t)) && forall id, t: nat, s | id in nodes :: nodes[id].run(t, s).Ok?
  }

  /** How many executions the rest of an iteration needs at most. */
  function Budget(c: Config<State>, hub: string, left: seq<Stop>): int {
    if c.Halted? then 0 else if c.node == hub then 2 * |left| + 1 else 2 * |left|
  }

  /** The hub's turn: it names the next stop, or ends the run when there is none. */
  lemma HubStep(nodes: map<string, Node<State>>, cancelled: nat -> bool, hub: string, r: PositionRouter,
                plan: seq<Stop>, tick: nat, state: State, left: seq<Stop>)
    requires Iterates(nodes, hub, r, plan) && Underway(nodes, hub, r, plan, At(hub, state), left)
    requires !cancelled(tick) && nodes[hub].run(tick, state).Ok?
    ensures var c := Step(nodes, cancelled, tick, At(hub, state));
            Underway(nodes, hub, r, plan, c, left) && Budget(c, hub, left) < 2 * |left| + 1
  {
    var out := nodes[hub].run(tick, state).value;
    assert KeepsAt(r, nodes[hub], tick, state) && RoutesAt(nodes[hub], tick, out, Route(r, out));
    RouteFollowsPlan(r, out);
    if 0 <= Pos(r, state) < |plan| { assert plan[Pos(r, state)].node != END; }
  }

  /** A visited node's turn: it was the stop that is due, and it hands back or on. */
  lemma StopStep(nodes: map<string, Node<State>>, cancelled: nat -> bool, hub: string, r: PositionRouter,
                 plan: seq<Stop>, tick: nat, node: string, state: State, left: seq<Stop>)
    requires Iterates(nodes, hub, r, plan) && node != hub && Underway(nodes, hub, r, plan, At(node, state), left)
    requires !cancelled(tick) && node in nodes && nodes[node].run(tick, state).Ok?
    ensures left != []
    ensures var c := Step(nodes, cancelled, tick, At(node, state));
            Underway(nodes, hub, r, plan, c, left[1..]) && Budget(c, hub, left[1..]) < 2 * |left|
  {
    var pos := Pos(r, state);
    assert plan[pos - 1].node == node;
    assert left[1..] == plan[pos..] == Remaining(plan, pos);
    var out := nodes[node].run(tick, state).value;
    assert KeepsAt(r, nodes[node], tick, state);
    if ReturnsTo(nodes[node], hub) {
      assert RoutesAt(nodes[node], tick, out, Goto(hub, out));
    } else {
      assert RoutesAt(nodes[node], tick, out, Route(r, out));
      RouteFollowsPlan(r, out);
      if pos < |plan| { assert plan[pos].node != END; }
    }
  }

  lemma DueStop(nodes: map<string, Node<State>>, hub: string, r: PositionRouter, plan: seq<Stop>, c: Config<State>, left: seq<Stop>)
    requires Iterates(nodes, hub, r, plan) && c.At? && Underway(nodes, hub, r, plan, c, left)
    ensures c.node in nodes
    ensures c.node != hub ==> left != [] && left[0] == Observed(r, c.node, c.state)
  {
    if c.node != hub { assert plan[Pos(r, c.state) - 1].node == c.node; }
  }

  function LeftAfter(c: Config<State>, hub: string, left: seq<Stop>): seq<Stop> {
    if c.At? && c.node != hub && left != [] then left[1..] else left
  }

  lemma UnderwayStep(nodes: map<string, Node<State>>, cancelled: nat -> bool, hub: string, r: PositionRouter,
                     plan: seq<Stop>, tick: nat, c: Config<State>, left: seq<Stop>)
    requires Iterates(nodes, hub, r, plan) && c.At? && Underway(nodes, hub, r, plan, c, left)
    requires !cancelled(tick) && c.node in nodes && nodes[c.node].run(tick, c.state).Ok?
    ensures var c' := Step(nodes, cancelled, tick, c);
            Underway(nodes, hub, r, plan, c', LeftAfter(c, hub, left)) && Budget(c', hub, LeftAfter(c, hub, left)) < Budget(c, hub, left)
  {
    if c.node == hub {
      HubStep(nodes, cancelled, hub, r, plan, tick, c.state, left);
    } else {
      StopStep(nodes, cancelled, hub, r, plan, tick, c.node, c.state, left);
    }
  }

  /** A run of at most `n` more executions, from `c` on, that makes the stops `made` and stands at `end`. */
  ghost predicate Sound(made: seq<Stop>, end: Config<State>, left: seq<Stop>) {
    && made <= left
    && (end.Halted? ==> end.result.Finished? || end.result.Cancelled? || end.result.NodeFailed?)
    && (end.Halted? && end.result.Finished? ==> made == left)
  }

  lemma SoundAfterStop(stop: Stop, made: seq<Stop>, end: Config<State>, left: seq<Stop>)
    requires left != [] && left[0] == stop && Sound(made, end, left[1..])
    ensures Sound([stop] + made, end, left)
  {
    assert left == [stop] + left[1..];
  }

  /** One turn of an iteration: cancelled or failed, or under way again with what is then left. */
  lemma FollowStep(nodes: map<string, Node<State>>, cancelled: nat -> bool, hub: string, r: PositionRouter,
                   plan: seq<Stop>, tick: nat, c: Config<State>, left: seq<Stop>)
    requires Iterates(nodes, hub, r, plan) && Underway(nodes, hub, r, plan, c, left) && c.At?
    ensures c.node in nodes && (c.node != hub ==> left != [] && left[0] == Observed(r, c.node, c.state))
    ensures CutShort(Step(nodes, cancelled, tick, c))
            || Underway(nodes, hub, r, plan, Step(nodes, cancelled, tick, c), LeftAfter(c, hub, left))
  {
    DueStop(nodes, hub, r, plan, c, left);
    if !cancelled(tick) && nodes[c.node].run(tick, c.state).Ok? {
      UnderwayStep(nodes, cancelled, hub, r, plan, tick, c, left);
    }
  }

  predicate CutShort(c: Config<State>) {
    c.Halted? && (c.result.Cancelled? || c.result.NodeFailed?)
  }

  /** Safety of an iteration, for all runnables and cancellations: the stops made are always the
      next ones of the plan, in order, and a run that finishes has made them all. */
  lemma {:induction false} IterationFollowsPlan(nodes: map<string, Node<State>>, cancelled: nat -> bool, hub: string, r: PositionRouter,
                                                plan: seq<Stop>, tick: nat, c: Config<State>, left: seq<Stop>, n: nat)
    requires Iterates(nodes, hub, r, plan) && Underway(nodes, hub, r, plan, c, left)
    ensures Sound(Visited(nodes, cancelled, hub, r, tick, c, n), RunFor(nodes, cancelled, tick, c, n), left)
    decreases n
  {
    if n > 0 && c.At? {
      FollowStep(nodes, cancelled, hub, r, plan, tick, c, left);
      var c', left' := Step(nodes, cancelled, tick, c), LeftAfter(c, hub, left);
      var rest, end := Visited(nodes, cancelled, hub, r, tick + 1, c', n - 1), RunFor(nodes, cancelled, tick + 1, c', n - 1);
      if CutShort(c') {
        NothingAfterEnd(nodes, cancelled, hub, r, tick + 1, c', left', n - 1);
      } else {
        IterationFollowsPlan(nodes, cancelled, hub, r, plan, tick + 1, c', left', n - 1);
      }
      if c.node != hub { SoundAfterStop(left[0], rest, end, left); } else { assert [] + rest == rest; }
    }
  }

  lemma NothingAfterEnd(nodes: map<string, Node<State>>, cancelled: nat -> bool, hub: string, r: PositionRouter,
                        tick: nat, c: Config<State>, left: seq<Stop>, n: nat)
    requires CutShort(c)
    ensures Sound(Visited(nodes, cancelled, hub, r, tick, c, n), RunFor(nodes, cancelled, tick, c, n), left)
  {
  }

  /** An iteration under way in which nothing fails or is cancelled. */
  ghost predicate Thriving(nodes: map<string, Node<State>>, cancelled: nat -> bool, hub: string, r: PositionRouter,
                           plan: seq<Stop>, c: Config<State>, left: seq<Stop>)
  {
    Iterates(nodes, hub, r, plan) && Underway(nodes, hub, r, plan, c, left) && Healthy(nodes, cancelled)
  }

  lemma ThrivingStep(nodes: map<string, Node<State>>, cancelled: nat -> bool, hub: string, r: PositionRouter,
                     plan: seq<Stop>, tick: nat, c: Config<State>, left: seq<Stop>) returns (left': seq<Stop>)
    requires Thriving(nodes, cancelled, hub, r, plan, c, left) && c.At?
    ensures Thriving(nodes, cancelled, hub, r, plan, Step(nodes, cancelled, tick, c), left')
    ensures 0 <= Budget(Step(nodes, cancelled, tick, c), hub, left') < Budget(c, hub, left)
  {
    DueStop(nodes, hub, r, plan, c, left);
    UnderwayStep(nodes, cancelled, hub, r, plan, tick, c, left);
    left' := LeftAfter(c, hub, left);
  }

  /** Liveness: a run in which nothing fails or is cancelled finishes within its budget. */
  lemma {:induction false} IterationFinishes(nodes: map<string, Node<State>>, cancelled: nat -> bool, hub: string, r: PositionRouter,
                                             plan: seq<Stop>, tick: nat, c: Config<State>, left: seq<Stop>, n: nat)
    requires Thriving(nodes, cancelled, hub, r, plan, c, left) && n >= Budget(c, hub, left)
    ensures RunFor(nodes, cancelled, tick, c, n).Halted? && RunFor(nodes, cancelled, tick, c, n).result.Finished?
    decreases n
  {
    if c.At? {
      var c' := Step(nodes, cancelled, tick, c);
      var left' := ThrivingStep(nodes, cancelled, hub, r, plan, tick, c, left);
      IterationFinishes(nodes, cancelled, hub, r, plan, tick + 1, c', left', n - 1);
    }
  }

  /** A whole run from the hub, at any position the state may hold. */
  lemma HubVisitsListInOrder(nodes: map<string, Node<State>>, cancelled: nat -> bool, hub: string, r: PositionRouter,
                             state: State, plan: seq<Stop>, n: nat)
    requires Plan(r, state) == Some(plan) && Iterates(nodes, hub, r, plan) && hub != ""
    ensures var end := RunFor(nodes, cancelled, 0, Start(hub, state), n);
            var made := Visited(nodes, cancelled, hub, r, 0, Start(hub, state), n);
            var due := Remaining(plan, Pos(r, state));
            && made <= due
            && (end.Halted? && end.result.Finished? ==> made == due)
            && (Healthy(nodes, cancelled) && n >= 2 * |due| + 1 ==> end.Halted? && end.result.Finished? && made == due)
  {
    var due := Remaining(plan, Pos(r, state));
    IterationFollowsPlan(nodes, cancelled, hub, r, plan, 0, Start(hub, state), due, n);
    if Healthy(nodes, cancelled) && n >= 2 * |due| + 1 {
      IterationFinishes(nodes, cancelled, hub, r, plan, 0, Start(hub, state), due, n);
    }
  }

  // ---- the same, over the stored lists ----

  function NamedStops(names: seq<string>): (stops: seq<Stop>)
    ensures |stops| == |names| && forall i | 0 <= i < |names| :: stops[i] == Stop(names[i], None)
  {
    seq(|names|, i requires 0 <= i < |names| => Stop(names[i], None))
  }

  function ItemStops(next: string, items: seq<Value>): (stops: seq<Stop>)
    ensures |stops| == |items| && forall i | 0 <= i < |items| :: stops[i] == Stop(next, Some(items[i]))
  {
    seq(|items|, i requires 0 <= i < |items| => Stop(next, Some(items[i])))
  }

  /** The plan of a slip is the strings it stores, that of a recipient list its recipients, and that of a
      splitter its items, in order, whatever kind of list holds them; a missing list has no stops. */
  lemma PlanIsStored(r: PositionRouter, state: State, names: seq<string>, items: seq<Value>)
    ensures r.RoutingSlip? && r.slipKey in state.meta && StoresNames(state.meta[r.slipKey], names) ==>
              Plan(r, state) == Some(NamedStops(names))
    ensures r.RecipientList? ==> Plan(r, state) == Some(NamedStops(r.recipients))
    ensures r.Splitter? && r.inputKey in state.data && StoresItems(state.data[r.inputKey], items) ==>
              Plan(r, state) == Some(ItemStops(r.next, items))
    ensures (r.RoutingSlip? && r.slipKey !in state.meta) || (r.Splitter? && r.inputKey !in state.data) ==>
              Plan(r, state) == Some([])
  {
    match r
    case RoutingSlip(slipKey, _) =>
      if slipKey in state.meta && StoresNames(state.meta[slipKey], names) {
        StringSliceIsStored(state.meta[slipKey]);
        assert Plan(r, state).value == NamedStops(names);
      }
    case RecipientList(recipients, _) =>
      assert Plan(r, state).value == NamedStops(recipients);
    case Splitter(inputKey, _, _, next) =>
      if inputKey in state.data && StoresItems(state.data[inputKey], items) {
        AnySliceIsStored(state.data[inputKey]);
        assert Plan(r, state).value == ItemStops(next, items);
      }
  }

  /** A run goes through the stops due: it makes the first of them, in order, all of them when it
      finishes, and it finishes when nothing fails. */
  ghost predicate GoesThrough(nodes: map<string, Node<State>>, cancelled: nat -> bool, hub: string, r: PositionRouter,
                              state: State, due: seq<Stop>, n: nat)
  {
    var end := RunFor(nodes, cancelled, 0, Start(hub, state), n);
    var made := Visited(nodes, cancelled, hub, r, 0, Start(hub, state), n);
    && made <= due
    && (end.Halted? && end.result.Finished? ==> made == due)
    && (Healthy(nodes, cancelled) && n >= 2 * |due| + 1 ==> end.Halted? && end.result.Finished? && made == due)
  }

  /** A routing slip with the strings `names` and position `p` visits exactly `names[p..]`. */
  lemma SlipVisitsNames(nodes: map<string, Node<State>>, cancelled: nat -> bool, hub: string, slipKey: string, posKey: string,
                        state: State, names: seq<string>, p: nat, n: nat)
    requires slipKey in state.meta && StoresNames(state.meta[slipKey], names)
    requires MetaInt(state, posKey) == p <= |names| && hub != ""
    requires Iterates(nodes, hub, RoutingSlip(slipKey, posKey), NamedStops(names))
    ensures GoesThrough(nodes, cancelled, hub, RoutingSlip(slipKey, posKey), state, NamedStops(names[p..]), n)
  {
    PlanIsStored(RoutingSlip(slipKey, posKey), state, names, []);
    HubVisitsListInOrder(nodes, cancelled, hub, RoutingSlip(slipKey, posKey), state, NamedStops(names), n);
    assert NamedStops(names)[p..] == NamedStops(names[p..]);
  }

  /** A recipient list at position `p` visits exactly `recipients[p..]`. */
  lemma RecipientsVisited(nodes: map<string, Node<State>>, cancelled: nat -> bool, hub: string, recipients: seq<string>,
                          posKey: string, state: State, p: nat, n: nat)
    requires MetaInt(state, posKey) == p <= |recipients| && hub != ""
    requires Iterates(nodes, hub, RecipientList(recipients, posKey), NamedStops(recipients))
    ensures GoesThrough(nodes, cancelled, hub, RecipientList(recipients, posKey), state, NamedStops(recipients[p..]), n)
  {
    PlanIsStored(RecipientList(recipients, posKey), state, [], []);
    HubVisitsListInOrder(nodes, cancelled, hub, RecipientList(recipients, posKey), state, NamedStops(recipients), n);
    assert NamedStops(recipients)[p..] == NamedStops(recipients[p..]);
  }

  /** A splitter over the items, in whatever kind of list, at position `p` shows its worker exactly `items[p..]`. */
  lemma SplitterShowsItems(nodes: map<string, Node<State>>, cancelled: nat -> bool, hub: string, r: PositionRouter,
                           state: State, items: seq<Value>, p: nat, n: nat)
    requires r.Splitter? && r.inputKey in state.data && StoresItems(state.data[r.inputKey], items)
    requires MetaInt(state, r.posKey) == p <= |items| && hub != ""
    requires Iterates(nodes, hub, r, ItemStops(r.next, items))
    ensures GoesThrough(nodes, cancelled, hub, r, state, ItemStops(r.next, items[p..]), n)
  {
    PlanIsStored(r, state, [], items);
    HubVisitsListInOrder(nodes, cancelled, hub, r, state, ItemStops(r.next, items), n);
    assert ItemStops(r.next, items)[p..] == ItemStops(r.next, items[p..]);
  }

  /** There is a stop to make. */
  predicate StopDue(r: PositionRouter, state: State) {
    Plan(r, state).Some? && 0 <= Pos(r, state) < |Plan(r, state).value|
  }

  ghost predicate KeepsPlanAt(r: PositionRouter, state: State) {
    StopDue(r, state) ==> Plan(r, Route(r, state).state) == Plan(r, state)
  }

  /** No list is one of its own items. */
  lemma NotItsOwnItem(v: Value, pos: nat)
    requires ToAnySlice(v).Some? && pos < |ToAnySlice(v).value|
    ensures ToAnySlice(ToAnySlice(v).value[pos]) != ToAnySlice(v)
  {
    var items := ToAnySlice(v).value;
    var item := items[pos];
    if v.List? && item.Strings? {
      assert ToAnySlice(item).value != items by { AllStrings(item.strings); }
    }
    if v.List? && item.Maps? {
      assert ToAnySlice(item).value != items by { AllObjects(item.maps); }
    }
  }

  lemma AllStrings(strings: seq<string>)
    ensures forall v <- ToAnySlice(Strings(strings)).value :: v.Str?
  {
  }

  lemma AllObjects(maps: seq<map<string, Value>>)
    ensures forall v <- ToAnySlice(Maps(maps)).value :: v.Object?
  {
  }

  /** A decision that makes a stop keeps the list exactly for routers that write no key they iterate over. */
  lemma SharedKeyLosesPlan(r: PositionRouter, state: State)
    requires StopDue(r, state)
    ensures KeepsPlanAt(r, state) <==> SeparateKeys(r)
  {
    if SeparateKeys(r) {
      RouteFollowsPlan(r, state);
    } else if r.Splitter? {
      NotItsOwnItem(state.data[r.inputKey], Pos(r, state));
      var items := ToAnySlice(state.data[r.inputKey]).value;
      var after := ToAnySlice(items[Pos(r, state)]);
      if after.Some? && Plan(r, Route(r, state).state) == Plan(r, state) {
        SameStopsSameItems(r.next, items, after.value);
      }
    }
  }

  lemma SameStopsSameItems(next: string, a: seq<Value>, b: seq<Value>)
    requires ItemStops(next, a) == ItemStops(next, b)
    ensures a == b
  {
    assert |a| == |ItemStops(next, a)| == |b|;
    forall i | 0 <= i < |a| ensures a[i] == b[i] {
      assert ItemStops(next, a)[i] == ItemStops(next, b)[i];
    }
  }

  /** Routers that keep their list in every state are exactly those with separate keys. */
  lemma KeepsPlanIffSeparate(r: PositionRouter)
    ensures (forall state :: KeepsPlanAt(r, state)) <==> SeparateKeys(r)
  {
    if SeparateKeys(r) {
      forall state ensures KeepsPlanAt(r, state) {
        if StopDue(r, state) { SharedKeyLosesPlan(r, state); }
      }
    } else {
      var state := if r.Splitter? then State(map[r.inputKey := List([Nil])], map[]) else State(map[], map[r.posKey := Strings(["a"])]);
      assert StopDue(r, state);
      SharedKeyLosesPlan(r, state);
    }
  }

  /** What a splitter with a shared key does next: it fails unless the item was itself a list; then it
      goes on with that list at the next position, or ends if that list is too short. */
  lemma SharedKeySplitterGoesOn(r: PositionRouter, state: State)
    requires r.Splitter? && !SeparateKeys(r) && StopDue(r, state)
    ensures var pos := Pos(r, state);
            var after := Route(r, state).state;
            match ToAnySlice(Plan(r, state).value[pos].item.value)
            case None => Route(r, after).RouteFail?
            case Some(inner) =>
              if pos + 1 < |inner|
              then Route(r, after) == Goto(r.next, Advance(WithItem(after, r.itemKey, inner[pos + 1]), r.posKey, pos + 1))
              else Route(r, after) == Goto(END, after)
  {
  }

  /** A routing slip that keeps its position under the key of the slip fails after its first stop. */
  lemma SharedKeySlipFails(r: PositionRouter, state: State)
    requires r.RoutingSlip? && !SeparateKeys(r) && StopDue(r, state)
    ensures Route(r, state).Goto? && Pos(r, state) == 0 && Route(r, Route(r, state).state).RouteFail?
  {
  }

  // ---- aggregation ----

  function Landing(routing: Routing<State>): State {
    match routing
    case Goto(_, state) => state
    case RouteFail(left, _) => left
  }

  function WithItem(state: State, itemKey: string, item: Value): State {
    state.(data := state.data[itemKey := item])
  }

  /** The state after the aggregator has been shown the items, one routing decision for each. */
  function Fed(itemKey: string, outputKey: string, countKey: string, next: string, state: State, items: seq<Value>): State {
    if items == [] then state
    else
      var before := Fed(itemKey, outputKey, countKey, next, state, items[..|items| - 1]);
      Landing(RouteAggregator(itemKey, outputKey, countKey, next, WithItem(before, itemKey, items[|items| - 1])))
  }

  /** What the output key holds so far. */
  function Collected(state: State, outputKey: string): seq<Value> {
    if outputKey in state.data && state.data[outputKey].List? then state.data[outputKey].items else []
  }

  ghost predicate CanCollect(state: State, outputKey: string) {
    outputKey in state.data ==> state.data[outputKey].List?
  }

  /** The aggregator collects the items it is shown, all of them and in order, after what was there
      already, and touches nothing else. */
  lemma {:induction false} AggregatorCollects(itemKey: string, outputKey: string, countKey: string, next: string, state: State, items: seq<Value>)
    requires itemKey != outputKey && CanCollect(state, outputKey)
    ensures var fed := Fed(itemKey, outputKey, countKey, next, state, items);
            && CanCollect(fed, outputKey) && Collected(fed, outputKey) == Collected(state, outputKey) + items
            && fed.meta == state.meta
            && forall k | k != itemKey && k != outputKey :: (k in fed.data <==> k in state.data) && (k in fed.data ==> fed.data[k] == state.data[k])
    decreases |items|
  {
    if items != [] {
      var front, last := items[..|items| - 1], items[|items| - 1];
      AggregatorCollects(itemKey, outputKey, countKey, next, state, front);
      assert (Collected(state, outputKey) + front) + [last] == Collected(state, outputKey) + items;
    } else {
      assert Collected(state, outputKey) + items == Collected(state, outputKey);
    }
  }

  /** It hands on to the next node exactly when a positive expected number has been collected, and
      ends the run before that. */
  lemma AggregatorHandsOnAtCount(itemKey: string, outputKey: string, countKey: string, next: string,
                                 state: State, items: seq<Value>, last: Value)
    requires itemKey != outputKey && CanCollect(state, outputKey) && next != END
    ensures var fed := Fed(itemKey, outputKey, countKey, next, state, items);
            var routing := RouteAggregator(itemKey, outputKey, countKey, next, WithItem(fed, itemKey, last));
            && routing.Goto? && routing.next in {next, END}
            && (routing.next == next <==> 0 < MetaInt(state, countKey) <= |Collected(state, outputKey)| + |items| + 1)
  {
    AggregatorCollects(itemKey, outputKey, countKey, next, state, items);
  }

  ghost predicate AggregatesBy(node: Node<State>, itemKey: string, outputKey: string, countKey: string, next: string) {
    forall t: nat, s :: RoutesAt(node, t, s, RouteAggregator(itemKey, outputKey, countKey, next, s))
  }

  /** Inside a graph an aggregator that still waits for items ends the whole run: the executor goes on
      past it exactly when the expected number is reached with this very item. */
  lemma AggregatorStep(nodes: map<string, Node<State>>, cancelled: nat -> bool, tick: nat, id: string, state: State,
                       itemKey: string, outputKey: string, countKey: string, next: string)
    requires id in nodes && AggregatesBy(nodes[id], itemKey, outputKey, countKey, next) && itemKey != outputKey && next != END
    requires !cancelled(tick) && nodes[id].run(tick, state).Ok?
    requires var out := nodes[id].run(tick, state).value; itemKey in out.data && CanCollect(out, outputKey)
    ensures var out := nodes[id].run(tick, state).value;
            var c := Step(nodes, cancelled, tick, At(id, state));
            if 0 < MetaInt(out, countKey) <= |Collected(out, outputKey)| + 1
            then c.At? && c.node == next && Collected(c.state, outputKey) == Collected(out, outputKey) + [out.data[itemKey]]
            else c.Halted? && c.result.Finished?
                 && Collected(c.result.state, outputKey) == Collected(out, outputKey) + [out.data[itemKey]]
  {
    var out := nodes[id].run(tick, state).value;
    assert RoutesAt(nodes[id], tick, out, RouteAggregator(itemKey, outputKey, countKey, next, out));
  }

  ghost predicate PassesOnAt(node: Node<State>, t: nat, s: State) {
    node.run(t, s) == Ok(s)
  }

  ghost predicate PassesOn(node: Node<State>) {
    forall t: nat, s :: PassesOnAt(node, t, s)
  }

  /** The configuration of an aggregator. */
  datatype Aggregation = Aggregation(itemKey: string, outputKey: string, countKey: string, next: string)

  /** What the worker at a stop answers. */
  type Answers = Stop -> Value

  ghost predicate WorksAt(node: Node<State>, r: PositionRouter, id: string, answer: Answers, itemKey: string, t: nat, s: State) {
    node.run(t, s) == Ok(WithItem(s, itemKey, answer(Observed(r, id, s))))
  }

  /** A worker: it leaves its answer for the aggregator, which is its router. */
  ghost predicate Works(node: Node<State>, r: PositionRouter, id: string, answer: Answers, a: Aggregation) {
    && (forall t: nat, s :: WorksAt(node, r, id, answer, a.itemKey, t, s))
    && AggregatesBy(node, a.itemKey, a.outputKey, a.countKey, a.next)
  }

  /** The aggregator's keys do not disturb the list, nor the router's keys the collection. */
  predicate KeysApart(r: PositionRouter, a: Aggregation) {
    && a.itemKey != a.outputKey && a.countKey != r.posKey
    && (r.Splitter? ==> a.itemKey != r.inputKey && a.outputKey != r.inputKey && a.outputKey != r.itemKey)
  }

  /** A hub that hands out the stops of a list, each to a worker that feeds the aggregator. */
  ghost predicate Feeds(nodes: map<string, Node<State>>, hub: string, r: PositionRouter, plan: seq<Stop>, answer: Answers, a: Aggregation) {
    && SeparateKeys(r) && KeysApart(r, a) && a.next != END
    && hub in nodes && hub != END && PassesOn(nodes[hub]) && RoutesBy(nodes[hub], r)
    && forall k {:trigger plan[k]} | 0 <= k < |plan| ::
         var id := plan[k].node;
         id in nodes && id != END && id != hub && Works(nodes[id], r, id, answer, a)
  }

  /** The aggregator's part of a state. */
  datatype Collection = Collection(items: seq<Value>, expected: int)

  function CollectionOf(state: State, a: Aggregation): Collection {
    Collection(Collected(state, a.outputKey), MetaInt(state, a.countKey))
  }

  /** With the next item the expected number is reached. */
  predicate Reaches(c: Collection) {
    0 < c.expected <= |c.items| + 1
  }

  /** Standing with a list, a position and a collection. */
  ghost predicate Holds(r: PositionRouter, plan: seq<Stop>, pos: int, a: Aggregation, c: Collection, state: State) {
    Plan(r, state) == Some(plan) && Pos(r, state) == pos && CanCollect(state, a.outputKey) && CollectionOf(state, a) == c
  }

  lemma HubHandsOut(nodes: map<string, Node<State>>, cancelled: nat -> bool, tick: nat, hub: string, r: PositionRouter,
                    plan: seq<Stop>, answer: Answers, a: Aggregation, state: State, pos: int, c: Collection)
    requires Feeds(nodes, hub, r, plan, answer, a) && Holds(r, plan, pos, a, c, state) && !cancelled(tick)
    ensures 0 <= pos < |plan| ==>
      var handed := Route(r, state).state;
      && Step(nodes, cancelled, tick, At(hub, state)) == At(plan[pos].node, handed)
      && Holds(r, plan, pos + 1, a, c, handed) && Observed(r, plan[pos].node, handed) == plan[pos]
    ensures !(0 <= pos < |plan|) ==> Step(nodes, cancelled, tick, At(hub, state)) == Halted(Finished(state))
  {
    assert PassesOnAt(nodes[hub], tick, state) && RoutesAt(nodes[hub], tick, state, Route(r, state));
    RouteFollowsPlan(r, state);
    if 0 <= pos < |plan| { assert plan[pos].node != END; }
  }

  /** The state a worker leaves, and with it the aggregator's decision. */
  lemma WorkerFeeds(nodes: map<string, Node<State>>, cancelled: nat -> bool, tick: nat, hub: string, r: PositionRouter,
                    plan: seq<Stop>, answer: Answers, a: Aggregation, state: State, pos: int, c: Collection)
    returns (after: State)
    requires Feeds(nodes, hub, r, plan, answer, a) && Holds(r, plan, pos, a, c, state) && !cancelled(tick)
    requires 0 < pos <= |plan| && Observed(r, plan[pos - 1].node, state) == plan[pos - 1]
    ensures Holds(r, plan, pos, a, c.(items := c.items + [answer(plan[pos - 1])]), after)
    ensures Step(nodes, cancelled, tick, At(plan[pos - 1].node, state))
         == if Reaches(c) then At(a.next, after) else Halted(Finished(after))
  {
    var id := plan[pos - 1].node;
    assert WorksAt(nodes[id], r, id, answer, a.itemKey, tick, state);
    var out := WithItem(state, a.itemKey, answer(plan[pos - 1]));
    assert RoutesAt(nodes[id], tick, out, RouteAggregator(a.itemKey, a.outputKey, a.countKey, a.next, out));
    after := Landing(RouteAggregator(a.itemKey, a.outputKey, a.countKey, a.next, out));
    assert Collected(out, a.outputKey) == c.items;
  }

  /** Two executions make one stop and collect one answer, and then the run ends, unless the expected
      number is reached, when it goes on at the aggregator's next node. */
  lemma AggregatorTakesOne(nodes: map<string, Node<State>>, cancelled: nat -> bool, tick: nat, hub: string, r: PositionRouter,
                           plan: seq<Stop>, answer: Answers, a: Aggregation, state: State, pos: int, c: Collection)
    returns (after: State)
    requires Feeds(nodes, hub, r, plan, answer, a) && Holds(r, plan, pos, a, c, state)
    requires !cancelled(tick) && !cancelled(tick + 1) && 0 <= pos < |plan|
    ensures Holds(r, plan, pos + 1, a, c.(items := c.items + [answer(plan[pos])]), after)
    ensures RunFor(nodes, cancelled, tick, At(hub, state), 2)
         == if Reaches(c) then At(a.next, after) else Halted(Finished(after))
  {
    HubHandsOut(nodes, cancelled, tick, hub, r, plan, answer, a, state, pos, c);
    var handed := Route(r, state).state;
    after := WorkerFeeds(nodes, cancelled, tick + 1, hub, r, plan, answer, a, handed, pos + 1, c);
    TwoSteps(nodes, cancelled, tick, At(hub, state), At(plan[pos].node, handed));
  }

  lemma TwoSteps(nodes: map<string, Node<State>>, cancelled: nat -> bool, tick: nat, c: Config<State>, c': Config<State>)
    requires c.At? && c'.At? && Step(nodes, cancelled, tick, c) == c'
    ensures RunFor(nodes, cancelled, tick, c, 2) == Step(nodes, cancelled, tick + 1, c')
  {
    assert RunFor(nodes, cancelled, tick + 1, c', 1) == Step(nodes, cancelled, tick + 1, c');
  }

  lemma AfterTwo(nodes: map<string, Node<State>>, cancelled: nat -> bool, tick: nat, c: Config<State>, c': Config<State>, n: nat)
    requires n >= 2 && RunFor(nodes, cancelled, tick, c, 2) == c'
    ensures RunFor(nodes, cancelled, tick, c, n) == RunFor(nodes, cancelled, tick + 2, c', n - 2)
  {
    RunForSplit(nodes, cancelled, tick, c, 2, n - 2);
  }

  function AnswersTo(answer: Answers, stops: seq<Stop>): seq<Value> {
    if stops == [] then [] else [answer(stops[0])] + AnswersTo(answer, stops[1..])
  }

  /** An aggregator that hands back to the hub, and reaches its number with every item, collects everything. */
  lemma {:induction false} CollectsAll(nodes: map<string, Node<State>>, cancelled: nat -> bool, tick: nat, hub: string, r: PositionRouter,
                                       plan: seq<Stop>, answer: Answers, a: Aggregation, state: State, pos: nat, c: Collection, n: nat)
    returns (after: State)
    requires Feeds(nodes, hub, r, plan, answer, a) && Holds(r, plan, pos, a, c, state) && a.next == hub && Reaches(c)
    requires (forall t: nat :: !cancelled(t)) && pos <= |plan| && n >= 2 * (|plan| - pos) + 1
    ensures RunFor(nodes, cancelled, tick, At(hub, state), n) == Halted(Finished(after))
    ensures Collected(after, a.outputKey) == c.items + AnswersTo(answer, plan[pos..])
    decreases |plan| - pos
  {
    if pos == |plan| {
      HubHandsOut(nodes, cancelled, tick, hub, r, plan, answer, a, state, pos, c);
      after := state;
      assert c.items + AnswersTo(answer, plan[pos..]) == c.items;
    } else {
      var grown := c.(items := c.items + [answer(plan[pos])]);
      var one := CollectOne(nodes, cancelled, tick, hub, r, plan, answer, a, state, pos, c, n);
      after := CollectsAll(nodes, cancelled, tick + 2, hub, r, plan, answer, a, one, pos + 1, grown, n - 2);
      OneMoreAnswer(c.items, answer, plan, pos);
    }
  }

  lemma CollectOne(nodes: map<string, Node<State>>, cancelled: nat -> bool, tick: nat, hub: string, r: PositionRouter,
                   plan: seq<Stop>, answer: Answers, a: Aggregation, state: State, pos: nat, c: Collection, n: nat)
    returns (one: State)
    requires Feeds(nodes, hub, r, plan, answer, a) && Holds(r, plan, pos, a, c, state) && a.next == hub && Reaches(c)
    requires (forall t: nat :: !cancelled(t)) && pos < |plan| && n >= 2
    ensures Holds(r, plan, pos + 1, a, c.(items := c.items + [answer(plan[pos])]), one)
    ensures RunFor(nodes, cancelled, tick, At(hub, state), n) == RunFor(nodes, cancelled, tick + 2, At(hub, one), n - 2)
  {
    one := AggregatorTakesOne(nodes, cancelled, tick, hub, r, plan, answer, a, state, pos, c);
    AfterTwo(nodes, cancelled, tick, At(hub, state), At(hub, one), n);
  }

  lemma OneMoreAnswer(items: seq<Value>, answer: Answers, plan: seq<Stop>, pos: nat)
    requires pos < |plan|
    ensures items + AnswersTo(answer, plan[pos..]) == (items + [answer(plan[pos])]) + AnswersTo(answer, plan[pos + 1..])
  {
    assert plan[pos..][1..] == plan[pos + 1..];
  }

  /** An aggregator that waits ends the run with one answer more. */
  lemma WaitingCollectsOne(nodes: map<string, Node<State>>, cancelled: nat -> bool, hub: string, r: PositionRouter,
                           plan: seq<Stop>, answer: Answers, a: Aggregation, state: State, pos: nat, c: Collection, n: nat)
    returns (after: State)
    requires Feeds(nodes, hub, r, plan, answer, a) && Holds(r, plan, pos, a, c, state) && !Reaches(c)
    requires (forall t: nat :: !cancelled(t)) && pos < |plan| && n >= 2
    ensures RunFor(nodes, cancelled, 0, At(hub, state), n) == Halted(Finished(after))
    ensures Collected(after, a.outputKey) == c.items + [answer(plan[pos])]
  {
    after := AggregatorTakesOne(nodes, cancelled, 0, hub, r, plan, answer, a, state, pos, c);
    ResultIsStable(nodes, cancelled, 0, At(hub, state), 2, n);
  }

  lemma {:induction false} AnswersCount(answer: Answers, stops: seq<Stop>)
    ensures |AnswersTo(answer, stops)| == |stops|
    decreases |stops|
  {
    if stops != [] { AnswersCount(answer, stops[1..]); }
  }

  /** What the aggregator has when a run from the hub is over, for splitters, recipient lists and
      routing slips alike and for every worker.  While it waits for more items it ends the run; so it
      collects all answers that are due exactly when only one is due, or when it hands back to the hub
      and its expected number is reached with the very first item. */
  lemma AggregationExact(nodes: map<string, Node<State>>, cancelled: nat -> bool, hub: string, r: PositionRouter,
                         plan: seq<Stop>, answer: Answers, a: Aggregation, state: State, n: nat)
    requires Feeds(nodes, hub, r, plan, answer, a) && hub != "" && StopDue(r, state)
    requires Plan(r, state) == Some(plan) && CanCollect(state, a.outputKey) && (forall t: nat :: !cancelled(t))
    requires n >= 2 * |Remaining(plan, Pos(r, state))| + 1 && (a.next == hub || !Reaches(CollectionOf(state, a)))
    ensures var due, had := Remaining(plan, Pos(r, state)), CollectionOf(state, a);
            var end := RunFor(nodes, cancelled, 0, Start(hub, state), n);
            && end.Halted? && end.result.Finished?
            && (Collected(end.result.state, a.outputKey) == had.items + AnswersTo(answer, due) <==> |due| == 1 || Reaches(had))
            && (!Reaches(had) ==> Collected(end.result.state, a.outputKey) == had.items + [answer(due[0])])
  {
    var pos, had := Pos(r, state), CollectionOf(state, a);
    var due := Remaining(plan, pos);
    AnswersCount(answer, due);
    if Reaches(had) {
      var after := CollectsAll(nodes, cancelled, 0, hub, r, plan, answer, a, state, pos, had, n);
    } else {
      var after := WaitingCollectsOne(nodes, cancelled, hub, r, plan, answer, a, state, pos, had, n);
      OneAnswerIsAll(had.items, answer, due);
    }
  }

  lemma OneAnswerIsAll(had: seq<Value>, answer: Answers, due: seq<Stop>)
    requires due != []
    ensures had + [answer(due[0])] == had + AnswersTo(answer, due) <==> |due| == 1
  {
    AnswersCount(answer, due);
    if |due| == 1 {
      assert due[1..] == [];
      assert AnswersTo(answer, due) == [answer(due[0])];
    } else {
      assert |had + [answer(due[0])]| != |had + AnswersTo(answer, due)|;
    }
  }
}
