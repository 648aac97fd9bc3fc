/** The blob store simulates the in-memory store, workflow by workflow, on every run; what a `Delete`
    leaves behind decides exactly where their answers part. */
module StoreAgreement {
  import opened Sequences
  import opened Wrappers
  import opened WorkflowStore
  import opened Text
  import M = MemoryStore
  import B = BlobStore

  datatype Op =
    | Create(tenant: string, spec: Spec)
    | Activate(tenant: string, name: string, version: string)
    | Delete(tenant: string, name: string)

  function NameOf(op: Op): string {
    if op.Create? then op.spec.name else op.name
  }

  /** Slash-free tenants and names; versions that are not blank and hold no white space. */
  predicate Clean(op: Op) {
    && SlashFree(op.tenant) && SlashFree(NameOf(op))
    && (op.Create? ==> CleanEntry(op.spec.version))
  }

  function StepMemory(data: M.Data, op: Op): M.Data {
    match op
    case Create(tenant, spec) => M.Create(data, tenant, spec)
    case Activate(tenant, name, version) => M.Activate(data, tenant, name, version)
    case Delete(tenant, name) => M.Delete(data, tenant, name)
  }

  function StepBlob(prefix: string, b: B.Bucket, op: Op): B.Bucket {
    match op
    case Create(tenant, spec) => B.Create(prefix, b, tenant, spec)
    case Activate(tenant, name, version) => B.Activate(prefix, b, tenant, name, version)
    case Delete(tenant, name) => B.Delete(prefix, b, tenant, name)
  }

  function RunMemory(ops: seq<Op>): M.Data {
    if ops == [] then map[] else StepMemory(RunMemory(ops[..|ops| - 1]), ops[|ops| - 1])
  }

  function RunBlob(prefix: string, ops: seq<Op>): B.Bucket {
    if ops == [] then map[] else StepBlob(prefix, RunBlob(prefix, ops[..|ops| - 1]), ops[|ops| - 1])
  }

  // ---- the simulation relation, workflow by workflow ----

  /** The list and the map of versions hold the same versions. */
  ghost predicate ListOk(e: M.Entry) {
    && (forall v | v in e.versionList :: CleanEntry(v) && v in e.versions)
    && (forall v | v in e.versions :: v in e.versionList)
  }

  /** The active version, if any, is stored and has the active status; a deleted workflow has none. */
  ghost predicate ActiveOk(e: M.Entry) {
    && (forall v | v in e.versions :: e.versions[v].version == v)
    && (e.active != "" ==> !e.deleted && e.active in e.versions && e.versions[e.active].status == ACTIVE)
  }

  /** Memory keeps its own status in its clone, so the specs agree up to status. */
  predicate SameSpec(s: Spec, t: Spec) {
    s.(status := DRAFT) == t.(status := DRAFT)
  }

  /** The files of one workflow in the bucket. */
  datatype View = View(specs: imap<string, B.Object>, log: Option<B.Object>, active: Option<B.Object>, deleted: bool)

  function At(b: B.Bucket, key: string): Option<B.Object> {
    if key in b then Some(b[key]) else None
  }

  ghost function ViewOf(prefix: string, b: B.Bucket, tenant: string, name: string): View {
    View(imap v | B.Key(prefix, tenant, name, B.VersionFile(v)) in b :: b[B.Key(prefix, tenant, name, B.VersionFile(v))],
         At(b, B.Key(prefix, tenant, name, "_versions")),
         At(b, B.Key(prefix, tenant, name, "_active")),
         B.Key(prefix, tenant, name, "_deleted") in b)
  }

  ghost predicate SpecsMatch(specs: imap<string, B.Object>, versions: map<string, Spec>) {
    && (forall v :: v in specs <==> v in versions)
    && (forall v | v in versions :: specs[v].SpecObject? && SameSpec(specs[v].spec, versions[v]))
  }

  /** Memory has forgotten its active version in a `Delete`, while the bucket still points at it. */
  function Forgotten(ops: seq<Op>, tenant: string, name: string): bool {
    if ops == [] then false
    else
      var front, op := ops[..|ops| - 1], ops[|ops| - 1];
      var was := Forgotten(front, tenant, name);
      if op.tenant != tenant || NameOf(op) != name then was else ForgottenAfter(RunMemory(front), op, was)
  }

  /** Deleting a workflow that has an active version makes memory forget it; activating one mends that. */
  function ForgottenAfter(data: M.Data, op: Op, was: bool): bool {
    match op
    case Create(_, _) => was
    case Activate(tenant, name, version) => was && M.ActivateError(data, tenant, name, version).Some?
    case Delete(tenant, name) => was || M.Get(data, tenant, name).Value?
  }

  /** What the bucket's active pointer holds. */
  ghost predicate PointerOk(pointer: Option<B.Object>, e: M.Entry, forgotten: bool) {
    if e.active != "" then !forgotten && pointer == Some(B.TextObject(e.active))
    else if forgotten then
      pointer.Some? && pointer.value.TextObject? && pointer.value.text in e.versions
    else pointer == None
  }

  ghost predicate Stored(view: View, e: M.Entry, forgotten: bool) {
    && ListOk(e) && ActiveOk(e) && view.deleted == e.deleted
    && SpecsMatch(view.specs, e.versions)
    && view.log == Some(B.TextObject(LogText(e.versionList)))
    && PointerOk(view.active, e, forgotten)
  }

  ghost predicate Linked(view: View, e: Option<M.Entry>, forgotten: bool) {
    match e
    case None => view.specs == imap[] && view.log == None && view.active == None && !forgotten
    case Some(e) => Stored(view, e, forgotten)
  }

  ghost predicate LinkedAt(prefix: string, data: M.Data, b: B.Bucket, tenant: string, name: string, forgotten: bool) {
    Linked(ViewOf(prefix, b, tenant, name), M.EntryAt(data, tenant, name), forgotten)
  }

  ghost predicate Simulates(prefix: string, ops: seq<Op>, tenant: string, name: string) {
    LinkedAt(prefix, RunMemory(ops), RunBlob(prefix, ops), tenant, name, Forgotten(ops, tenant, name))
  }

  // ---- what an operation does to the files of each workflow ----

  /** An operation leaves the files of every other workflow alone. */
  lemma OthersUntouched(prefix: string, b: B.Bucket, op: Op, tenant: string, name: string)
    requires Clean(op) && SlashFree(tenant) && SlashFree(name)
    requires tenant != op.tenant || name != NameOf(op)
    ensures ViewOf(prefix, StepBlob(prefix, b, op), tenant, name) == ViewOf(prefix, b, tenant, name)
  {
    var b' := StepBlob(prefix, b, op);
    forall file ensures At(b', B.Key(prefix, tenant, name, file)) == At(b, B.Key(prefix, tenant, name, file)) {
      forall file' | B.Key(prefix, tenant, name, file) == B.Key(prefix, op.tenant, NameOf(op), file') ensures false {
        B.KeyInjective(prefix, tenant, name, file, op.tenant, NameOf(op), file');
      }
    }
    forall v
      ensures v in ViewOf(prefix, b', tenant, name).specs <==> v in ViewOf(prefix, b, tenant, name).specs
      ensures v in ViewOf(prefix, b, tenant, name).specs ==>
        ViewOf(prefix, b', tenant, name).specs[v] == ViewOf(prefix, b, tenant, name).specs[v]
    {
      var key := B.Key(prefix, tenant, name, B.VersionFile(v));
      assert At(b', key) == At(b, key);
    }
  }

  /** Within one workflow, the keys of different files differ. */
  lemma FilesApart(prefix: string, tenant: string, name: string, file: string, file': string)
    requires SlashFree(tenant) && SlashFree(name) && file != file'
    ensures B.Key(prefix, tenant, name, file) != B.Key(prefix, tenant, name, file')
  {
    if B.Key(prefix, tenant, name, file) == B.Key(prefix, tenant, name, file') {
      B.KeyInjective(prefix, tenant, name, file, tenant, name, file');
    }
  }

  lemma VersionsApart(prefix: string, tenant: string, name: string, version: string)
    requires SlashFree(tenant) && SlashFree(name)
    ensures forall v | v != version ::
      B.Key(prefix, tenant, name, B.VersionFile(v)) != B.Key(prefix, tenant, name, B.VersionFile(version))
    ensures forall v :: var key := B.Key(prefix, tenant, name, B.VersionFile(v));
      && key != B.Key(prefix, tenant, name, "_versions") && key != B.Key(prefix, tenant, name, "_active")
      && key != B.Key(prefix, tenant, name, "_deleted")
    ensures B.Key(prefix, tenant, name, "_versions") != B.Key(prefix, tenant, name, "_active")
    ensures B.Key(prefix, tenant, name, "_versions") != B.Key(prefix, tenant, name, "_deleted")
    ensures B.Key(prefix, tenant, name, "_active") != B.Key(prefix, tenant, name, "_deleted")
  {
    forall v | v != version
      ensures B.Key(prefix, tenant, name, B.VersionFile(v)) != B.Key(prefix, tenant, name, B.VersionFile(version))
    {
      B.FilesDiffer(v, version);
      FilesApart(prefix, tenant, name, B.VersionFile(v), B.VersionFile(version));
    }
    forall v, file | file in {"_versions", "_active", "_deleted"}
      ensures B.Key(prefix, tenant, name, B.VersionFile(v)) != B.Key(prefix, tenant, name, file)
    {
      B.FilesDiffer(v, v);
      FilesApart(prefix, tenant, name, B.VersionFile(v), file);
    }
    assert "_versions" != "_active" && "_versions"[1] != "_deleted"[1] && "_active"[1] != "_deleted"[1];
    FilesApart(prefix, tenant, name, "_versions", "_active");
    FilesApart(prefix, tenant, name, "_versions", "_deleted");
    FilesApart(prefix, tenant, name, "_active", "_deleted");
  }

  function TextIn(o: Option<B.Object>): string {
    if o.Some? && o.value.TextObject? then o.value.text else ""
  }

  ghost function CreatedView(view: View, spec: Spec): View {
    if spec.version in view.specs then view.(deleted := false)
    else
      var log := TextIn(view.log) + spec.version + "\n";
      View(view.specs[spec.version := B.SpecObject(spec)], Some(B.TextObject(log)), view.active, false)
  }

  lemma CreateView(prefix: string, b: B.Bucket, tenant: string, spec: Spec)
    requires SlashFree(tenant) && SlashFree(spec.name)
    ensures ViewOf(prefix, B.Create(prefix, b, tenant, spec), tenant, spec.name)
         == CreatedView(ViewOf(prefix, b, tenant, spec.name), spec)
  {
    VersionsApart(prefix, tenant, spec.name, spec.version);
  }

  ghost function ActivatedView(view: View, version: string): View {
    if view.deleted || version !in view.specs then view else view.(active := Some(B.TextObject(version)))
  }

  lemma ActivateView(prefix: string, b: B.Bucket, tenant: string, name: string, version: string)
    requires SlashFree(tenant) && SlashFree(name)
    ensures ViewOf(prefix, B.Activate(prefix, b, tenant, name, version), tenant, name)
         == ActivatedView(ViewOf(prefix, b, tenant, name), version)
  {
    VersionsApart(prefix, tenant, name, version);
  }

  lemma LogGrows(entries: seq<string>, v: string)
    ensures LogText(entries + [v]) == LogText(entries) + v + "\n"
  {
    assert (entries + [v])[..|entries|] == entries;
  }

  ghost function DeletedView(view: View): View {
    view.(deleted := true)
  }

  lemma DeleteView(prefix: string, b: B.Bucket, tenant: string, name: string)
    requires SlashFree(tenant) && SlashFree(name)
    ensures ViewOf(prefix, B.Delete(prefix, b, tenant, name), tenant, name) == DeletedView(ViewOf(prefix, b, tenant, name))
  {
    VersionsApart(prefix, tenant, name, "");
  }

  lemma SpecsGrow(specs: imap<string, B.Object>, versions: map<string, Spec>, spec: Spec)
    requires SpecsMatch(specs, versions)
    ensures SpecsMatch(specs[spec.version := B.SpecObject(spec)], versions[spec.version := spec.(status := DRAFT)])
  {
  }

  lemma WithVersionOk(e: M.Entry, pointer: Option<B.Object>, forgotten: bool, spec: Spec)
    requires ListOk(e) && ActiveOk(e) && PointerOk(pointer, e, forgotten) && CleanEntry(spec.version)
    ensures var e' := M.WithVersion(e, spec);
            ListOk(e') && ActiveOk(e') && PointerOk(pointer, e', forgotten)
  {
    assert ListOk(M.WithVersion(e, spec));
  }

  lemma CreateMatches(view: View, e: Option<M.Entry>, forgotten: bool, spec: Spec)
    requires Linked(view, e, forgotten) && CleanEntry(spec.version)
    ensures Stored(CreatedView(view, spec), M.WithVersion(if e.Some? then e.value else M.EMPTY_ENTRY, spec), forgotten)
  {
    match e
    case Some(was) =>
      StoredWithVersion(view, was, forgotten, spec);
    case None =>
      WithVersionOk(M.EMPTY_ENTRY, view.active, forgotten, spec);
      LogGrows([], spec.version);
      assert LogText([]) == "";
      SpecsGrow(view.specs, map[], spec);
  }

  lemma StoredWithVersion(view: View, e: M.Entry, forgotten: bool, spec: Spec)
    requires Stored(view, e, forgotten) && CleanEntry(spec.version)
    ensures Stored(CreatedView(view, spec), M.WithVersion(e, spec), forgotten)
  {
    WithVersionOk(e, view.active, forgotten, spec);
    if spec.version in e.versions {
      assert spec.version in view.specs;
    } else {
      assert spec.version !in view.specs;
      StoredNewVersion(view, e, forgotten, spec);
    }
  }

  lemma StoredNewVersion(view: View, e: M.Entry, forgotten: bool, spec: Spec)
    requires Stored(view, e, forgotten) && CleanEntry(spec.version)
    requires spec.version !in e.versions && spec.version !in view.specs
    ensures var view', e' := CreatedView(view, spec), M.WithVersion(e, spec);
            && view'.deleted == e'.deleted && SpecsMatch(view'.specs, e'.versions)
            && view'.log == Some(B.TextObject(LogText(e'.versionList))) && view'.active == view.active
  {
    LogGrows(e.versionList, spec.version);
    SpecsGrow(view.specs, e.versions, spec);
  }

  lemma PromotedOk(e: M.Entry, version: string)
    requires ListOk(e) && ActiveOk(e) && version in e.versions && !e.deleted
    ensures ListOk(M.Promoted(e, version)) && ActiveOk(M.Promoted(e, version)) && version != ""
  {
    assert version in e.versionList && CleanEntry(version);
    assert forall v :: v in M.Promoted(e, version).versions <==> v in e.versions;
  }

  lemma PromotedKeepsSpecs(specs: imap<string, B.Object>, e: M.Entry, version: string)
    requires SpecsMatch(specs, e.versions) && version in e.versions
    ensures SpecsMatch(specs, M.Promoted(e, version).versions)
  {
  }

  lemma ActivateMatches(view: View, e: M.Entry, forgotten: bool, version: string)
    requires Stored(view, e, forgotten) && version in e.versions && !e.deleted
    ensures Stored(view.(active := Some(B.TextObject(version))), M.Promoted(e, version), false)
  {
    PromotedOk(e, version);
    PromotedKeepsSpecs(view.specs, e, version);
  }

  lemma DeleteMatches(view: View, e: M.Entry, forgotten: bool)
    requires Stored(view, e, forgotten) && !e.deleted
    ensures Stored(DeletedView(view), e.(deleted := true, active := ""), forgotten || e.active != "")
  {
  }

  lemma OwnCreate(prefix: string, data: M.Data, b: B.Bucket, tenant: string, spec: Spec, forgotten: bool)
    requires LinkedAt(prefix, data, b, tenant, spec.name, forgotten)
    requires SlashFree(tenant) && SlashFree(spec.name) && CleanEntry(spec.version)
    ensures LinkedAt(prefix, M.Create(data, tenant, spec), B.Create(prefix, b, tenant, spec), tenant, spec.name, forgotten)
  {
    var e := M.EntryAt(data, tenant, spec.name);
    CreateView(prefix, b, tenant, spec);
    CreateMatches(ViewOf(prefix, b, tenant, spec.name), e, forgotten, spec);
    assert M.EntryAt(M.Create(data, tenant, spec), tenant, spec.name)
        == Some(M.WithVersion(if e.Some? then e.value else M.EMPTY_ENTRY, spec));
  }

  lemma OwnActivate(prefix: string, data: M.Data, b: B.Bucket, tenant: string, name: string, version: string, forgotten: bool)
    requires LinkedAt(prefix, data, b, tenant, name, forgotten) && SlashFree(tenant) && SlashFree(name)
    ensures LinkedAt(prefix, M.Activate(data, tenant, name, version), B.Activate(prefix, b, tenant, name, version), tenant, name,
                     forgotten && M.ActivateError(data, tenant, name, version).Some?)
  {
    var e := M.EntryAt(data, tenant, name);
    ActivateView(prefix, b, tenant, name, version);
    if M.ActivateError(data, tenant, name, version).None? {
      ActivateMatches(ViewOf(prefix, b, tenant, name), e.value, forgotten, version);
      assert M.EntryAt(M.Activate(data, tenant, name, version), tenant, name) == Some(M.Promoted(e.value, version));
    }
  }

  lemma OwnDelete(prefix: string, data: M.Data, b: B.Bucket, tenant: string, name: string, forgotten: bool)
    requires LinkedAt(prefix, data, b, tenant, name, forgotten) && SlashFree(tenant) && SlashFree(name)
    ensures LinkedAt(prefix, M.Delete(data, tenant, name), B.Delete(prefix, b, tenant, name), tenant, name,
                     forgotten || M.Get(data, tenant, name).Value?)
  {
    DeleteView(prefix, b, tenant, name);
    if M.FindEntry(data, tenant, name).Some? {
      DeleteMatches(ViewOf(prefix, b, tenant, name), M.EntryAt(data, tenant, name).value, forgotten);
    }
  }

  /** One operation, as its own workflow sees it. */
  lemma OwnStep(prefix: string, data: M.Data, b: B.Bucket, op: Op, forgotten: bool)
    requires Clean(op) && LinkedAt(prefix, data, b, op.tenant, NameOf(op), forgotten)
    ensures LinkedAt(prefix, StepMemory(data, op), StepBlob(prefix, b, op), op.tenant, NameOf(op), ForgottenAfter(data, op, forgotten))
  {
    match op
    case Create(tenant, spec) => OwnCreate(prefix, data, b, tenant, spec, forgotten);
    case Activate(tenant, name, version) => OwnActivate(prefix, data, b, tenant, name, version, forgotten);
    case Delete(tenant, name) => OwnDelete(prefix, data, b, tenant, name, forgotten);
  }

  /** And as every other workflow sees it. */
  lemma OtherStep(prefix: string, data: M.Data, b: B.Bucket, op: Op, tenant: string, name: string, forgotten: bool)
    requires Clean(op) && SlashFree(tenant) && SlashFree(name) && (tenant != op.tenant || name != NameOf(op))
    requires LinkedAt(prefix, data, b, tenant, name, forgotten)
    ensures LinkedAt(prefix, StepMemory(data, op), StepBlob(prefix, b, op), tenant, name, forgotten)
  {
    OthersUntouched(prefix, b, op, tenant, name);
    assert M.EntryAt(StepMemory(data, op), tenant, name) == M.EntryAt(data, tenant, name);
  }

  ghost predicate CleanRun(ops: seq<Op>) {
    forall op | op in ops :: Clean(op)
  }

  lemma {:induction false} RunSimulates(prefix: string, ops: seq<Op>, tenant: string, name: string)
    requires CleanRun(ops) && SlashFree(tenant) && SlashFree(name)
    ensures Simulates(prefix, ops, tenant, name)
    decreases |ops|
  {
    if ops == [] {
      assert ViewOf(prefix, RunBlob(prefix, ops), tenant, name).specs == imap[];
    } else {
      var front, op := ops[..|ops| - 1], ops[|ops| - 1];
      assert op in ops;
      RunSimulates(prefix, front, tenant, name);
      if tenant == op.tenant && name == NameOf(op) {
        OwnStep(prefix, RunMemory(front), RunBlob(prefix, front), op, Forgotten(front, tenant, name));
      } else {
        OtherStep(prefix, RunMemory(front), RunBlob(prefix, front), op, tenant, name, Forgotten(front, tenant, name));
      }
    }
  }

  // ---- what a caller observes ----

  lemma TrimClean(v: string)
    requires NoSpace(v)
    ensures TrimSpace(v) == v
  {
  }

  /** After any clean run, deletions included: activation succeeds together, a created workflow lists
      the same versions in the same order, and `Get` answers alike exactly when the workflow is
      deleted now or memory has not forgotten the active version that the bucket still points at. */
  lemma StoresAgree(prefix: string, ops: seq<Op>, tenant: string, name: string, version: string)
    requires CleanRun(ops) && SlashFree(tenant) && SlashFree(name)
    ensures var data, b := RunMemory(ops), RunBlob(prefix, ops);
            && (M.Get(data, tenant, name) == B.Get(prefix, b, tenant, name)
                <==> M.FindEntry(data, tenant, name).None? || !Forgotten(ops, tenant, name))
            && (M.ActivateError(data, tenant, name, version).None? <==> B.ActivateError(prefix, b, tenant, name, version).None?)
            && (M.EntryAt(data, tenant, name).Some? ==>
                  M.ListVersions(data, tenant, name) == B.ListVersions(prefix, b, tenant, name))
            && (M.EntryAt(data, tenant, name).None? ==> B.ListVersions(prefix, b, tenant, name) in {Value([]), Err(NotFound)})
  {
    RunSimulates(prefix, ops, tenant, name);
    var data, b := RunMemory(ops), RunBlob(prefix, ops);
    GetsMatch(prefix, data, b, tenant, name, Forgotten(ops, tenant, name));
    ActivationsMatch(prefix, data, b, tenant, name, Forgotten(ops, tenant, name), version);
    ListsMatch(prefix, data, b, tenant, name, Forgotten(ops, tenant, name));
  }

  lemma GetsMatch(prefix: string, data: M.Data, b: B.Bucket, tenant: string, name: string, forgotten: bool)
    requires Linked(ViewOf(prefix, b, tenant, name), M.EntryAt(data, tenant, name), forgotten)
    ensures M.Get(data, tenant, name) == B.Get(prefix, b, tenant, name)
            <==> M.FindEntry(data, tenant, name).None? || !forgotten
  {
    var view, e := ViewOf(prefix, b, tenant, name), M.EntryAt(data, tenant, name);
    if e.Some? && view.active.Some? {
      var v := view.active.value.text;
      assert v in e.value.versionList;
      TrimClean(v);
      assert v in view.specs;
    }
  }

  lemma ActivationsMatch(prefix: string, data: M.Data, b: B.Bucket, tenant: string, name: string, forgotten: bool, version: string)
    requires Linked(ViewOf(prefix, b, tenant, name), M.EntryAt(data, tenant, name), forgotten)
    ensures M.ActivateError(data, tenant, name, version).None? <==> B.ActivateError(prefix, b, tenant, name, version).None?
  {
    assert version in ViewOf(prefix, b, tenant, name).specs <==> B.Key(prefix, tenant, name, B.VersionFile(version)) in b;
  }

  lemma ListsMatch(prefix: string, data: M.Data, b: B.Bucket, tenant: string, name: string, forgotten: bool)
    requires Linked(ViewOf(prefix, b, tenant, name), M.EntryAt(data, tenant, name), forgotten)
    ensures M.EntryAt(data, tenant, name).Some? ==> M.ListVersions(data, tenant, name) == B.ListVersions(prefix, b, tenant, name)
    ensures M.EntryAt(data, tenant, name).None? ==> B.ListVersions(prefix, b, tenant, name) in {Value([]), Err(NotFound)}
  {
    match M.EntryAt(data, tenant, name)
    case None =>
      LogRoundTrip([]);
      assert LogText([]) == "";
    case Some(e) =>
      forall i | 0 <= i < |e.versionList| ensures CleanEntry(e.versionList[i]) { assert e.versionList[i] in e.versionList; }
      LogRoundTrip(e.versionList);
  }

  // ---- the order of versions ----

  /** The versions of a workflow in the order in which each was first created. */
  function FirstCreations(ops: seq<Op>, tenant: string, name: string): seq<string> {
    if ops == [] then []
    else
      var before, op := FirstCreations(ops[..|ops| - 1], tenant, name), ops[|ops| - 1];
      if op.Create? && op.tenant == tenant && op.spec.name == name && op.spec.version !in before
      then before + [op.spec.version] else before
  }

  function VersionList(data: M.Data, tenant: string, name: string): seq<string> {
    match M.EntryAt(data, tenant, name)
    case None => []
    case Some(e) => e.versionList
  }

  function Versions(data: M.Data, tenant: string, name: string): map<string, Spec> {
    match M.EntryAt(data, tenant, name)
    case None => map[]
    case Some(e) => e.versions
  }

  lemma StepLists(data: M.Data, op: Op, tenant: string, name: string)
    requires forall v :: v in VersionList(data, tenant, name) <==> v in Versions(data, tenant, name)
    ensures var was, data' := VersionList(data, tenant, name), StepMemory(data, op);
            && VersionList(data', tenant, name)
               == (if op.Create? && op.tenant == tenant && op.spec.name == name && op.spec.version !in was
                   then was + [op.spec.version] else was)
            && forall v :: v in VersionList(data', tenant, name) <==> v in Versions(data', tenant, name)
  {
    match op
    case Create(_, _) =>
    case Activate(_, _, _) =>
    case Delete(_, _) =>
  }

  /** The memory store keeps exactly this order, each version once, through every run. */
  lemma {:induction false} ListedInCreationOrder(ops: seq<Op>, tenant: string, name: string)
    ensures VersionList(RunMemory(ops), tenant, name) == FirstCreations(ops, tenant, name)
    ensures forall v :: v in VersionList(RunMemory(ops), tenant, name) <==> v in Versions(RunMemory(ops), tenant, name)
    ensures Distinct(FirstCreations(ops, tenant, name))
    decreases |ops|
  {
    if ops != [] {
      ListedInCreationOrder(ops[..|ops| - 1], tenant, name);
      StepLists(RunMemory(ops[..|ops| - 1]), ops[|ops| - 1], tenant, name);
    }
  }

  function Reversed(s: seq<string>): (r: seq<string>)
    ensures |r| == |s| && forall i | 0 <= i < |s| :: r[i] == s[|s| - 1 - i]
  {
    if s == [] then [] else [s[|s| - 1]] + Reversed(s[..|s| - 1])
  }

  lemma ReversedSameIffShort(s: seq<string>)
    requires Distinct(s)
    ensures Reversed(s) == s <==> |s| <= 1
  {
    if |s| > 1 { assert Reversed(s)[0] == s[|s| - 1] != s[0]; }
  }

  /** Both stores list the versions of a workflow oldest first, so newest first exactly when it has at most one. */
  lemma NewestFirstIffOne(prefix: string, ops: seq<Op>, tenant: string, name: string)
    requires CleanRun(ops) && SlashFree(tenant) && SlashFree(name)
    requires M.FindEntry(RunMemory(ops), tenant, name).Some?
    ensures var created := FirstCreations(ops, tenant, name);
            && M.ListVersions(RunMemory(ops), tenant, name) == Value(created)
            && B.ListVersions(prefix, RunBlob(prefix, ops), tenant, name) == Value(created)
            && (M.ListVersions(RunMemory(ops), tenant, name) == Value(Reversed(created)) <==> |created| <= 1)
            && (B.ListVersions(prefix, RunBlob(prefix, ops), tenant, name) == Value(Reversed(created)) <==> |created| <= 1)
  {
    ListedInCreationOrder(ops, tenant, name);
    StoresAgree(prefix, ops, tenant, name, "");
    ReversedSameIffShort(FirstCreations(ops, tenant, name));
  }

  // ---- runs without Delete ----

  ghost predicate DeleteFree(ops: seq<Op>) {
    forall op | op in ops :: !op.Delete?
  }

  /** Without `Delete`, exactly the active version has the active status, and nothing is forgotten. */
  ghost predicate StatusOk(e: M.Entry) {
    && !e.deleted
    && (e.active == "" || e.active in e.versions)
    && (forall v | v in e.versions :: v != "" && e.versions[v].status == if v == e.active then ACTIVE else DRAFT)
  }

  ghost predicate StatusOkAt(data: M.Data, tenant: string, name: string) {
    match M.EntryAt(data, tenant, name)
    case None => true
    case Some(e) => StatusOk(e)
  }

  lemma StepKeepsStatus(data: M.Data, op: Op, tenant: string, name: string)
    requires StatusOkAt(data, tenant, name) && Clean(op) && !op.Delete?
    ensures StatusOkAt(StepMemory(data, op), tenant, name)
  {
    if tenant == op.tenant && name == NameOf(op) {
      match op
      case Create(_, _) =>
      case Activate(_, _, _) =>
    } else {
      assert M.EntryAt(StepMemory(data, op), tenant, name) == M.EntryAt(data, tenant, name);
    }
  }

  lemma {:induction false} StatusKept(ops: seq<Op>, tenant: string, name: string)
    requires CleanRun(ops) && DeleteFree(ops)
    ensures StatusOkAt(RunMemory(ops), tenant, name) && !Forgotten(ops, tenant, name)
    decreases |ops|
  {
    if ops != [] {
      assert ops[|ops| - 1] in ops;
      StatusKept(ops[..|ops| - 1], tenant, name);
      StepKeepsStatus(RunMemory(ops[..|ops| - 1]), ops[|ops| - 1], tenant, name);
    }
  }

  /** On runs without `Delete` every read agrees, except that the bucket reports the active version
      as a draft when it is read by its number. */
  lemma AgreeWithoutDelete(prefix: string, ops: seq<Op>, tenant: string, name: string, version: string)
    requires CleanRun(ops) && DeleteFree(ops) && SlashFree(tenant) && SlashFree(name)
    ensures M.Get(RunMemory(ops), tenant, name) == B.Get(prefix, RunBlob(prefix, ops), tenant, name)
    ensures var inMemory := M.GetVersion(RunMemory(ops), tenant, name, version);
            var inBlob := B.GetVersion(prefix, RunBlob(prefix, ops), tenant, name, version);
            && (inMemory.Value? <==> inBlob.Value?)
            && (inMemory.Value? ==> SameSpec(inMemory.value, inBlob.value))
            && (inMemory == inBlob <==> (inMemory.Value? ==> inMemory.value.status != ACTIVE))
  {
    StoresAgree(prefix, ops, tenant, name, version);
    StatusKept(ops, tenant, name);
    RunSimulates(prefix, ops, tenant, name);
    var view := ViewOf(prefix, RunBlob(prefix, ops), tenant, name);
    assert version in view.specs <==> B.Key(prefix, tenant, name, B.VersionFile(version)) in RunBlob(prefix, ops);
    assert DRAFT != ACTIVE;
  }

  // ---- with Delete the stores part ways ----

  function DeleteAndRecreate(tenant: string, spec: Spec): seq<Op> {
    [Create(tenant, spec), Activate(tenant, spec.name, spec.version), Delete(tenant, spec.name), Create(tenant, spec)]
  }

  lemma RecreatedIsForgotten(tenant: string, spec: Spec)
    requires CleanEntry(spec.version)
    ensures var ops := DeleteAndRecreate(tenant, spec);
            M.FindEntry(RunMemory(ops), tenant, spec.name).Some? && Forgotten(ops, tenant, spec.name)
  {
    var ops := DeleteAndRecreate(tenant, spec);
    assert ops[..3][..2] == ops[..2] && ops[..2][..1] == ops[..1] && ops[..1][..0] == [];
    assert RunMemory(ops[..1]) == StepMemory(map[], ops[0]);
    assert RunMemory(ops[..2]) == StepMemory(RunMemory(ops[..1]), ops[1]);
    assert RunMemory(ops[..3]) == StepMemory(RunMemory(ops[..2]), ops[2]);
    assert RunMemory(ops) == StepMemory(RunMemory(ops[..3]), ops[3]);
    assert Forgotten(ops[..3], tenant, spec.name);
  }

  /** Deleting an active workflow and creating it again revives its active version in the bucket but
      not in memory. */
  lemma DeleteDiverges(prefix: string, tenant: string, spec: Spec)
    requires SlashFree(tenant) && SlashFree(spec.name) && CleanEntry(spec.version)
    ensures M.Get(RunMemory(DeleteAndRecreate(tenant, spec)), tenant, spec.name)
         != B.Get(prefix, RunBlob(prefix, DeleteAndRecreate(tenant, spec)), tenant, spec.name)
  {
    RecreatedIsForgotten(tenant, spec);
    StoresAgree(prefix, DeleteAndRecreate(tenant, spec), tenant, spec.name, spec.version);
  }
}
