/** The checkpoint table with optimistic locking (`pkg/checkpoint/postgres.go`).  One upsert is one
    atomic statement; what runs concurrently are the load-compute-save cycles of several nodes. */
module Checkpointer {
  import opened Wrappers

  datatype Checkpoint = Checkpoint(workflowId: string, threadId: string, stepIndex: int, stepId: string,
                                   state: string, version: int, createdAt: int)

  type Table = map<string, Checkpoint>

  /** The statement's condition: a free thread id, or a row at the expected version. */
  predicate Accepts(table: Table, cp: Checkpoint) {
    cp.threadId !in table || table[cp.threadId].version == cp.version
  }

  /** The row the statement leaves: version one on insert, whatever version was passed, else one more. */
  function Stored(table: Table, cp: Checkpoint): Checkpoint {
    cp.(version := if cp.threadId in table then table[cp.threadId].version + 1 else 1)
  }

  function Upsert(table: Table, cp: Checkpoint): Table {
    if Accepts(table, cp) then table[cp.threadId := Stored(table, cp)] else table
  }

  function Find(table: Table, threadId: string): Option<Checkpoint> {
    if threadId in table then Some(table[threadId]) else None
  }

  /** Save and load: what a load finds after a save that won is what was saved, under the next version;
      it can be saved again, while the saved checkpoint itself would now conflict, unless it was
      inserted at version one.  A save that lost, and other threads, are not seen by a load. */
  lemma SavedIsLoaded(table: Table, cp: Checkpoint, other: string)
    ensures var after := Upsert(table, cp);
            && Find(after, other) == (if other == cp.threadId && Accepts(table, cp) then Some(Stored(table, cp)) else Find(table, other))
            && (Accepts(table, cp) ==>
                  && Find(after, cp.threadId).value.(version := cp.version) == cp
                  && Find(after, cp.threadId).value.version == (if cp.threadId in table then cp.version + 1 else 1)
                  && Accepts(after, Find(after, cp.threadId).value)
                  && (Accepts(after, cp) <==> cp.threadId !in table && cp.version == 1))
  {
  }

  class PostgresCheckpointer {
    var rows: Table

    constructor ()
      ensures rows == map[]
    {
      rows := map[];
    }

    method Save(cp: Checkpoint) returns (conflict: bool)
      modifies this
      ensures rows == Upsert(old(rows), cp)
      ensures conflict <==> !Accepts(old(rows), cp)
      // a conflict means, exactly, that the thread has a row at another version
      ensures conflict <==> cp.threadId in old(rows) && old(rows)[cp.threadId].version != cp.version
    {
      if cp.threadId !in rows {
        rows := rows[cp.threadId := cp.(version := 1)];
        return false;
      }
      if rows[cp.threadId].version == cp.version {
        rows := rows[cp.threadId := cp.(version := rows[cp.threadId].version + 1)];
        return false;
      }
      return true;
    }

    method Load(threadId: string) returns (cp: Option<Checkpoint>)
      ensures cp == Find(rows, threadId)
    {
      return if threadId in rows then Some(rows[threadId]) else None;
    }

    method Delete(threadId: string)
      modifies this
      ensures rows == old(rows) - {threadId}
    {
      rows := rows - {threadId};
    }
  }

  // ---- interleaved nodes ----

  /** A successful save: which version it expected, what its node had loaded, what it wrote, and whether
      the load came after the thread's last deletion. */
  datatype Win = Win(node: nat, expected: int, base: Option<Checkpoint>, written: Checkpoint, upToDate: bool)

  /** What a node loaded last, and how often the row's thread had been deleted by then. */
  datatype Held = Held(row: Checkpoint, deletions: nat)

  /** The table, what the nodes hold, the successful saves of each thread since its last deletion in
      order, and how often a row of the thread was deleted. */
  datatype World = World(table: Table, held: map<nat, Held>, wins: map<string, seq<Win>>, deletions: map<string, nat>)

  datatype Action =
    | LoadRow(node: nat, threadId: string)
    | SaveNew(node: nat, cp: Checkpoint)      // with version zero
    | SaveLoaded(node: nat, cp: Checkpoint)   // with the thread and version the node loaded
    | DeleteRow(threadId: string)

  function WinsOf(w: World, threadId: string): seq<Win> {
    if threadId in w.wins then w.wins[threadId] else []
  }

  function DeletionsOf(w: World, threadId: string): nat {
    if threadId in w.deletions then w.deletions[threadId] else 0
  }

  /** The node holds a row, and its thread has not been deleted since. */
  predicate HoldsFresh(w: World, node: nat) {
    node in w.held && w.held[node].deletions == DeletionsOf(w, w.held[node].row.threadId)
  }

  function TrySave(w: World, node: nat, base: Option<Checkpoint>, cp: Checkpoint, upToDate: bool): World {
    if Accepts(w.table, cp) then
      w.(table := Upsert(w.table, cp),
         wins := w.wins[cp.threadId := WinsOf(w, cp.threadId) + [Win(node, cp.version, base, Stored(w.table, cp), upToDate)]])
    else w
  }

  /** What a node submits when it saves what it computed from the row it holds. */
  function Submitted(held: Held, cp: Checkpoint): Checkpoint {
    cp.(threadId := held.row.threadId, version := held.row.version)
  }

  function Step(w: World, a: Action): World {
    match a
    case LoadRow(node, threadId) =>
      if threadId in w.table then w.(held := w.held[node := Held(w.table[threadId], DeletionsOf(w, threadId))]) else w
    case SaveNew(node, cp) => TrySave(w, node, None, cp.(version := 0), true)
    case SaveLoaded(node, cp) =>
      if node in w.held
      then TrySave(w, node, Some(w.held[node].row), Submitted(w.held[node], cp), HoldsFresh(w, node))
      else w
    case DeleteRow(threadId) =>
      if threadId in w.table
      then w.(table := w.table - {threadId}, wins := w.wins[threadId := []],
              deletions := w.deletions[threadId := DeletionsOf(w, threadId) + 1])
      else w
  }

  function RunFrom(w: World, actions: seq<Action>): World {
    if actions == [] then w else Step(RunFrom(w, actions[..|actions| - 1]), actions[|actions| - 1])
  }

  function Run(actions: seq<Action>): World {
    RunFrom(World(map[], map[], map[], map[]), actions)
  }

  function BaseFor(wins: seq<Win>, i: nat): Option<Checkpoint>
    requires i < |wins|
  {
    if i == 0 then None else Some(wins[i - 1].written)
  }

  /** An unbroken chain since the last deletion: the save at position `i` expected version `i` and, if
      its node had loaded since, was computed from exactly what the save before it had written.  Only
      a node that loaded before the deletion can have inserted with another version. */
  ghost predicate Chain(wins: seq<Win>) {
    forall i | 0 <= i < |wins| :: Linked(wins, i)
  }

  ghost predicate Linked(wins: seq<Win>, i: nat)
    requires i < |wins|
  {
    && wins[i].written.version == i + 1
    && (i > 0 || wins[i].upToDate ==> wins[i].expected == i)
    && (wins[i].upToDate ==> wins[i].base == BaseFor(wins, i))
  }

  ghost predicate RowOk(w: World, threadId: string) {
    var wins := WinsOf(w, threadId);
    && Chain(wins)
    && (threadId in w.table <==> wins != [])
    && (wins != [] ==> w.table[threadId] == wins[|wins| - 1].written && w.table[threadId].threadId == threadId)
  }

  ghost predicate HeldOk(w: World, node: nat) {
    node in w.held ==>
      var cp := w.held[node].row;
      var wins := WinsOf(w, cp.threadId);
      && cp.version >= 1 && w.held[node].deletions <= DeletionsOf(w, cp.threadId)
      && (HoldsFresh(w, node) ==> cp.version <= |wins| && wins[cp.version - 1].written == cp)
  }

  ghost predicate Invariant(w: World) {
    (forall threadId :: RowOk(w, threadId)) && forall node :: HeldOk(w, node)
  }

  lemma RowVersion(w: World, threadId: string)
    requires RowOk(w, threadId)
    ensures threadId in w.table ==> w.table[threadId].version == |WinsOf(w, threadId)|
  {
    var wins := WinsOf(w, threadId);
    if wins != [] { assert Linked(wins, |wins| - 1); }
  }

  lemma ChainAppend(wins: seq<Win>, win: Win)
    requires Chain(wins) && Linked(wins + [win], |wins|)
    ensures Chain(wins + [win])
  {
    forall i | 0 <= i < |wins| + 1 ensures Linked(wins + [win], i) {
      if i < |wins| { assert Linked(wins, i); }
    }
  }

  /** What a save may claim: nothing and version zero, or a row that its node holds. */
  ghost predicate Honest(w: World, node: nat, base: Option<Checkpoint>, cp: Checkpoint, upToDate: bool) {
    match base
    case None => cp.version == 0 && upToDate
    case Some(row) =>
      && HeldOk(w, node) && node in w.held && row == w.held[node].row
      && cp.threadId == row.threadId && cp.version == row.version && upToDate == HoldsFresh(w, node)
  }

  /** An accepted save extends the chain; one by a node that loaded since the thread's last deletion, or
      that never loaded, was computed from exactly the row it replaces. */
  lemma AcceptedSaveExtendsChain(w: World, node: nat, base: Option<Checkpoint>, cp: Checkpoint, upToDate: bool)
    requires RowOk(w, cp.threadId) && Honest(w, node, base, cp, upToDate) && Accepts(w.table, cp)
    ensures upToDate ==> base == Find(w.table, cp.threadId)
    ensures Chain(WinsOf(w, cp.threadId) + [Win(node, cp.version, base, Stored(w.table, cp), upToDate)])
  {
    var wins := WinsOf(w, cp.threadId);
    RowVersion(w, cp.threadId);
    ChainAppend(wins, Win(node, cp.version, base, Stored(w.table, cp), upToDate));
  }

  lemma SaveKeepsRows(w: World, node: nat, base: Option<Checkpoint>, cp: Checkpoint, upToDate: bool, threadId: string)
    requires RowOk(w, threadId) && RowOk(w, cp.threadId) && Honest(w, node, base, cp, upToDate)
    ensures RowOk(TrySave(w, node, base, cp, upToDate), threadId)
  {
    if Accepts(w.table, cp) {
      AcceptedSaveExtendsChain(w, node, base, cp, upToDate);
      if threadId != cp.threadId {
        assert WinsOf(TrySave(w, node, base, cp, upToDate), threadId) == WinsOf(w, threadId);
      }
    }
  }

  lemma TrySaveKeepsInvariant(w: World, node: nat, base: Option<Checkpoint>, cp: Checkpoint, upToDate: bool)
    requires Invariant(w) && Honest(w, node, base, cp, upToDate)
    ensures Invariant(TrySave(w, node, base, cp, upToDate))
  {
    var w' := TrySave(w, node, base, cp, upToDate);
    forall threadId ensures RowOk(w', threadId) {
      assert RowOk(w, threadId) && RowOk(w, cp.threadId);
      SaveKeepsRows(w, node, base, cp, upToDate, threadId);
    }
    forall other ensures HeldOk(w', other) {
      assert HeldOk(w, other);
    }
  }

  lemma LoadKeepsInvariant(w: World, node: nat, threadId: string)
    requires Invariant(w)
    ensures Invariant(Step(w, LoadRow(node, threadId)))
  {
    var w' := Step(w, LoadRow(node, threadId));
    forall t ensures RowOk(w', t) { assert RowOk(w, t); }
    forall other ensures HeldOk(w', other) {
      assert HeldOk(w, other);
      if other == node && threadId in w.table {
        assert RowOk(w, threadId);
        LoadedIsHeld(w, w', node, threadId);
      }
    }
  }

  lemma LoadedIsHeld(w: World, w': World, node: nat, threadId: string)
    requires RowOk(w, threadId) && threadId in w.table
    requires w'.wins == w.wins && w'.deletions == w.deletions
    requires node in w'.held && w'.held[node] == Held(w.table[threadId], DeletionsOf(w, threadId))
    ensures HeldOk(w', node)
  {
    RowVersion(w, threadId);
  }

  lemma DeleteKeepsInvariant(w: World, threadId: string)
    requires Invariant(w)
    ensures Invariant(Step(w, DeleteRow(threadId)))
  {
    var w' := Step(w, DeleteRow(threadId));
    forall t ensures RowOk(w', t) {
      assert RowOk(w, t);
      if t != threadId { assert WinsOf(w', t) == WinsOf(w, t); }
    }
    forall node ensures HeldOk(w', node) {
      assert HeldOk(w, node);
      if node in w.held && w.held[node].row.threadId != threadId {
        assert WinsOf(w', w.held[node].row.threadId) == WinsOf(w, w.held[node].row.threadId);
      }
    }
  }

  lemma StepKeepsInvariant(w: World, a: Action)
    requires Invariant(w)
    ensures Invariant(Step(w, a))
  {
    match a
    case LoadRow(node, threadId) => LoadKeepsInvariant(w, node, threadId);
    case SaveNew(node, cp) => TrySaveKeepsInvariant(w, node, None, cp.(version := 0), true);
    case SaveLoaded(node, cp) =>
      assert HeldOk(w, node);
      if node in w.held {
        TrySaveKeepsInvariant(w, node, Some(w.held[node].row), Submitted(w.held[node], cp), HoldsFresh(w, node));
      }
    case DeleteRow(threadId) => DeleteKeepsInvariant(w, threadId);
  }

  lemma {:induction false} RunKeepsInvariant(actions: seq<Action>)
    ensures Invariant(Run(actions))
    decreases |actions|
  {
    if actions != [] {
      RunKeepsInvariant(actions[..|actions| - 1]);
      StepKeepsInvariant(Run(actions[..|actions| - 1]), actions[|actions| - 1]);
    }
  }

  // ---- without deletions ----

  ghost predicate DeleteFree(actions: seq<Action>) {
    forall a | a in actions :: !a.DeleteRow?
  }

  ghost predicate NothingDeleted(w: World, threadId: string) {
    && w.deletions == map[] && (forall node | node in w.held :: w.held[node].deletions == 0)
    && forall win | win in WinsOf(w, threadId) :: win.upToDate
  }

  lemma StepDeletesNothing(w: World, a: Action, threadId: string)
    requires NothingDeleted(w, threadId) && !a.DeleteRow?
    ensures NothingDeleted(Step(w, a), threadId)
  {
    match a
    case LoadRow(_, _) =>
    case SaveNew(_, _) =>
    case SaveLoaded(_, _) =>
  }

  lemma {:induction false} AllFreshWithoutDelete(actions: seq<Action>, threadId: string)
    requires DeleteFree(actions)
    ensures NothingDeleted(Run(actions), threadId)
    decreases |actions|
  {
    if actions != [] {
      assert actions[|actions| - 1] in actions;
      AllFreshWithoutDelete(actions[..|actions| - 1], threadId);
      StepDeletesNothing(Run(actions[..|actions| - 1]), actions[|actions| - 1], threadId);
    }
  }

  /** No update is lost on any delete-free interleaving: for each thread the row's version counts the
      successful saves, each expected version was won once, and each save was computed from exactly
      the row it replaced. */
  lemma NoUpdateLost(actions: seq<Action>, threadId: string)
    requires DeleteFree(actions)
    ensures var w := Run(actions);
            var wins := WinsOf(w, threadId);
            && (if threadId in w.table then w.table[threadId].version else 0) == |wins|
            && (forall i, j | 0 <= i < j < |wins| :: wins[i].expected != wins[j].expected)
            && (forall i | 0 < i < |wins| :: wins[i].base == Some(wins[i - 1].written))
            && (wins != [] ==> wins[0].base == None && w.table[threadId] == wins[|wins| - 1].written)
  {
    RunKeepsInvariant(actions);
    AllFreshWithoutDelete(actions, threadId);
    var w := Run(actions);
    assert RowOk(w, threadId);
    RowVersion(w, threadId);
    var wins := WinsOf(w, threadId);
    forall i | 0 <= i < |wins| ensures wins[i].expected == i && wins[i].base == BaseFor(wins, i) {
      assert Linked(wins, i) && wins[i] in wins;
    }
  }

  // ---- with deletions ----

  /** On every interleaving, deletions included: a save that wins, by a node that loaded since the
      thread's last deletion, replaces exactly the row that the node had loaded. */
  lemma FreshSaveReplacesItsBase(actions: seq<Action>, node: nat, cp: Checkpoint)
    requires var w := Run(actions); HoldsFresh(w, node) && Accepts(w.table, Submitted(w.held[node], cp))
    ensures var w := Run(actions); Find(w.table, w.held[node].row.threadId) == Some(w.held[node].row)
  {
    var w := Run(actions);
    RunKeepsInvariant(actions);
    assert HeldOk(w, node) && RowOk(w, w.held[node].row.threadId);
    AcceptedSaveExtendsChain(w, node, Some(w.held[node].row), Submitted(w.held[node], cp), true);
  }

  /** The next save of the node wins over a row that it did not load. */
  predicate OverwritesUnseen(w: World, node: nat) {
    node in w.held
    && var row := w.held[node].row;
       row.threadId in w.table && w.table[row.threadId].version == row.version && w.table[row.threadId] != row
  }

  /** That can still come about: the thread is free, or its row stands before the version that the node
      holds, or at it with other contents. */
  predicate AtRisk(w: World, node: nat) {
    node in w.held
    && var row := w.held[node].row;
       row.threadId !in w.table || w.table[row.threadId].version < row.version || OverwritesUnseen(w, node)
  }

  /** The others go on, without deleting the thread's row, while the node keeps what it loaded. */
  ghost predicate Meanwhile(more: seq<Action>, node: nat, threadId: string) {
    forall a | a in more :: (a.LoadRow? ==> a.node != node) && a != DeleteRow(threadId)
  }

  lemma {:induction false} SafeStaysSafe(w: World, node: nat, more: seq<Action>)
    requires node in w.held && !AtRisk(w, node) && Meanwhile(more, node, w.held[node].row.threadId)
    ensures var w' := RunFrom(w, more);
            node in w'.held && w'.held[node] == w.held[node] && !AtRisk(w', node)
    decreases |more|
  {
    if more != [] {
      assert more[|more| - 1] in more;
      SafeStaysSafe(w, node, more[..|more| - 1]);
    }
  }

  /** A node that loaded since the last deletion is not at risk. */
  lemma FreshNotAtRisk(actions: seq<Action>, node: nat)
    requires HoldsFresh(Run(actions), node)
    ensures !AtRisk(Run(actions), node)
  {
    var w := Run(actions);
    RunKeepsInvariant(actions);
    assert HeldOk(w, node) && RowOk(w, w.held[node].row.threadId);
    RowVersion(w, w.held[node].row.threadId);
  }

  lemma {:induction false} RunFromSplit(w: World, a: seq<Action>, b: seq<Action>)
    ensures RunFrom(w, a + b) == RunFrom(RunFrom(w, a), b)
    decreases |b|
  {
    if b == [] {
      assert a + b == a;
    } else {
      assert (a + b)[..|a + b| - 1] == a + b[..|b| - 1];
      RunFromSplit(w, a, b[..|b| - 1]);
    }
  }

  lemma OneThen(w: World, a: Action, more: seq<Action>)
    ensures RunFrom(w, [a] + more) == RunFrom(Step(w, a), more)
  {
    RunFromSplit(w, [a], more);
    assert [a][..0] == [];
    assert RunFrom(w, [a]) == Step(RunFrom(w, []), a);
  }

  /** Another node can drive a thread's row up to any version, with contents of its own. */
  lemma {:induction false} Climb(w: World, node: nat, cp: Checkpoint, version: int) returns (more: seq<Action>)
    requires cp.threadId in w.table && w.table[cp.threadId].threadId == cp.threadId && w.table[cp.threadId].version < version
    ensures Meanwhile(more, node, cp.threadId)
    ensures var w' := RunFrom(w, more);
            && cp.threadId in w'.table && w'.table[cp.threadId].version == version && w'.table[cp.threadId].state == cp.state
            && (node in w.held ==> node in w'.held && w'.held[node] == w.held[node])
    decreases version - w.table[cp.threadId].version
  {
    var load, save := LoadRow(node + 1, cp.threadId), SaveLoaded(node + 1, cp);
    var w' := Step(Step(w, load), save);
    assert w'.table[cp.threadId].version == w.table[cp.threadId].version + 1;
    var rest := [];
    if w'.table[cp.threadId].version < version {
      rest := Climb(w', node, cp, version);
    }
    more := [load] + ([save] + rest);
    OneThen(w, load, [save] + rest);
    OneThen(Step(w, load), save, rest);
  }

  /** From every state reached, deletions included: without another deletion of the thread, a node that
      keeps what it loaded can come to overwrite a row it never saw exactly when it is at risk. */
  lemma OverwriteUnseenIffAtRisk(actions: seq<Action>, node: nat)
    requires node in Run(actions).held
    ensures (exists more :: Meanwhile(more, node, Run(actions).held[node].row.threadId)
                            && OverwritesUnseen(RunFrom(Run(actions), more), node))
            <==> AtRisk(Run(actions), node)
  {
    var w := Run(actions);
    if AtRisk(w, node) {
      RunKeepsInvariant(actions);
      var more := DriveOver(w, node);
      assert OverwritesUnseen(RunFrom(w, more), node);
    } else {
      forall more | Meanwhile(more, node, w.held[node].row.threadId) ensures !OverwritesUnseen(RunFrom(w, more), node) {
        SafeStaysSafe(w, node, more);
      }
    }
  }

  lemma DriveOver(w: World, node: nat) returns (more: seq<Action>)
    requires Invariant(w) && AtRisk(w, node)
    ensures Meanwhile(more, node, w.held[node].row.threadId) && OverwritesUnseen(RunFrom(w, more), node)
  {
    var row := w.held[node].row;
    var cp := row.(state := row.state + "!");
    assert RowOk(w, row.threadId) && HeldOk(w, node);
    if row.threadId !in w.table {
      var insert := SaveNew(node + 1, cp);
      var rest := [];
      if row.version > 1 { rest := Climb(Step(w, insert), node, cp, row.version); }
      more := [insert] + rest;
      OneThen(w, insert, rest);
    } else if w.table[row.threadId].version < row.version {
      more := Climb(w, node, cp, row.version);
    } else {
      more := [];
    }
  }

  /** And a deletion puts every node at risk that holds a row of the thread. */
  lemma DeletionPutsAtRisk(actions: seq<Action>, node: nat)
    requires node in Run(actions).held
    ensures AtRisk(Run(actions + [DeleteRow(Run(actions).held[node].row.threadId)]), node)
  {
    var delete := DeleteRow(Run(actions).held[node].row.threadId);
    assert (actions + [delete])[..|actions|] == actions;
  }
}
