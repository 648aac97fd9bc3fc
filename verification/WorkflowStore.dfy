/** What both workflow stores share (`pkg/workflow/spec.go`, `pkg/workflow/interfaces.go`). */
module WorkflowStore {
  const DRAFT := "draft"
  const ACTIVE := "active"

  /** A spec; everything but its name, version and status is kept as one value. */
  datatype Spec = Spec(name: string, version: string, status: string, content: string)

  datatype Error = NotFound | VersionConflict

  datatype Answer<T> = Value(value: T) | Err(error: Error)
}

/** The in-memory store (`pkg/workflow/store/memory/memory.go`). */
module MemoryStore {
  import opened Wrappers
  import opened WorkflowStore

  datatype Entry = Entry(versions: map<string, Spec>, versionList: seq<string>, active: string, deleted: bool)

  /** Tenant, then name. */
  type Data = map<string, map<string, Entry>>

  const EMPTY_ENTRY := Entry(map[], [], "", false)

  function Bucket(data: Data, tenant: string): map<string, Entry> {
    if tenant in data then data[tenant] else map[]
  }

  function EntryAt(data: Data, tenant: string, name: string): Option<Entry> {
    if name in Bucket(data, tenant) then Some(Bucket(data, tenant)[name]) else None
  }

  /** `findEntry`: deleted entries are not found. */
  function FindEntry(data: Data, tenant: string, name: string): Option<Entry> {
    match EntryAt(data, tenant, name)
    case Some(e) => if e.deleted then None else Some(e)
    case None => None
  }

  function Put(data: Data, tenant: string, name: string, e: Entry): Data {
    data[tenant := Bucket(data, tenant)[name := e]]
  }

  function WithVersion(e: Entry, spec: Spec): Entry {
    if spec.version in e.versions then e.(deleted := false)
    else e.(deleted := false, versions := e.versions[spec.version := spec.(status := DRAFT)], versionList := e.versionList + [spec.version])
  }

  function Create(data: Data, tenant: string, spec: Spec): Data {
    var e := EntryAt(data, tenant, spec.name);
    Put(data, tenant, spec.name, WithVersion(if e.Some? then e.value else EMPTY_ENTRY, spec))
  }

  function Get(data: Data, tenant: string, name: string): Answer<Spec> {
    match FindEntry(data, tenant, name)
    case None => Err(NotFound)
    case Some(e) => if e.active == "" || e.active !in e.versions then Err(NotFound) else Value(e.versions[e.active])
  }

  function GetVersion(data: Data, tenant: string, name: string, version: string): Answer<Spec> {
    match FindEntry(data, tenant, name)
    case None => Err(NotFound)
    case Some(e) => if version in e.versions then Value(e.versions[version]) else Err(NotFound)
  }

  function ListVersions(data: Data, tenant: string, name: string): Answer<seq<string>> {
    match FindEntry(data, tenant, name)
    case None => Err(NotFound)
    case Some(e) => Value(e.versionList)
  }

  /** The previously active version goes back to draft. */
  function Promoted(e: Entry, version: string): Entry
    requires version in e.versions
  {
    var demoted := if e.active in e.versions && e.active != version
                   then e.versions[e.active := e.versions[e.active].(status := DRAFT)] else e.versions;
    e.(versions := demoted[version := demoted[version].(status := ACTIVE)], active := version)
  }

  function ActivateError(data: Data, tenant: string, name: string, version: string): Option<Error> {
    match FindEntry(data, tenant, name)
    case None => Some(NotFound)
    case Some(e) => if version in e.versions then None else Some(VersionConflict)
  }

  function Activate(data: Data, tenant: string, name: string, version: string): Data {
    if ActivateError(data, tenant, name, version).Some? then data
    else Put(data, tenant, name, Promoted(FindEntry(data, tenant, name).value, version))
  }

  function Delete(data: Data, tenant: string, name: string): Data {
    match FindEntry(data, tenant, name)
    case None => data
    case Some(e) => Put(data, tenant, name, e.(deleted := true, active := ""))
  }

  // ---- what the operations mean to a reader ----

  /** Creating a version adds it as a draft at the end of the list; a known version stays as it is.
      Either way the workflow can be read again, and no other workflow changes. */
  lemma CreateMeans(data: Data, tenant: string, spec: Spec, tenant': string, name': string)
    ensures var was, after := EntryAt(data, tenant, spec.name), Create(data, tenant, spec);
            && GetVersion(after, tenant, spec.name, spec.version)
               == Value(if was.Some? && spec.version in was.value.versions then was.value.versions[spec.version] else spec.(status := DRAFT))
            && ListVersions(after, tenant, spec.name)
               == Value(if was.None? then [spec.version]
                        else if spec.version in was.value.versions then was.value.versionList
                        else was.value.versionList + [spec.version])
            && (tenant' != tenant || name' != spec.name ==> EntryAt(after, tenant', name') == EntryAt(data, tenant', name'))
  {
    assert [] + [spec.version] == [spec.version];
  }

  /** Activation needs a stored version of an undeleted workflow; then that version is the active one, and
      the one active before is a draft again.  All else stays. */
  lemma ActivateMeans(data: Data, tenant: string, name: string, version: string, other: string, tenant': string, name': string)
    ensures var after := Activate(data, tenant, name, version);
            && (ActivateError(data, tenant, name, version).None? <==> GetVersion(data, tenant, name, version).Value?)
            && (ActivateError(data, tenant, name, version) == Some(NotFound) <==> ListVersions(data, tenant, name).Err?)
            && (GetVersion(data, tenant, name, version).Value? ==>
                  Get(after, tenant, name)
                  == if version == "" then Err(NotFound) else Value(GetVersion(data, tenant, name, version).value.(status := ACTIVE)))
            && (GetVersion(data, tenant, name, version).Value? && other != version && GetVersion(data, tenant, name, other).Value? ==>
                  GetVersion(after, tenant, name, other)
                  == if EntryAt(data, tenant, name).value.active == other
                     then Value(GetVersion(data, tenant, name, other).value.(status := DRAFT)) else GetVersion(data, tenant, name, other))
            && (GetVersion(data, tenant, name, version).Err? ==> after == data)
            && ListVersions(after, tenant, name) == ListVersions(data, tenant, name)
            && (tenant' != tenant || name' != name ==> EntryAt(after, tenant', name') == EntryAt(data, tenant', name'))
  {
  }

  /** After a deletion nothing is found, and creating a version brings the workflow back without an active one. */
  lemma DeleteMeans(data: Data, tenant: string, name: string, version: string, spec: Spec)
    requires spec.name == name
    ensures var after := Delete(data, tenant, name);
            && Get(after, tenant, name) == Err(NotFound) && GetVersion(after, tenant, name, version) == Err(NotFound)
            && ListVersions(after, tenant, name) == Err(NotFound)
            && ActivateError(after, tenant, name, version) == Some(NotFound)
            && (FindEntry(data, tenant, name).Some? ==> Get(Create(after, tenant, spec), tenant, name) == Err(NotFound))
  {
  }

  class Store {
    var data: Data

    constructor ()
      ensures data == map[]
    {
      data := map[];
    }

    method CreateSpec(tenant: string, spec: Spec) returns (version: string)
      modifies this
      ensures data == Create(old(data), tenant, spec) && version == spec.version
    {
      if tenant !in data {
        data := data[tenant := map[]];
      }
      var e := if spec.name in data[tenant] then data[tenant][spec.name] else EMPTY_ENTRY;
      e := e.(deleted := false);
      if spec.version !in e.versions {
        e := e.(versions := e.versions[spec.version := spec.(status := DRAFT)], versionList := e.versionList + [spec.version]);
      }
      data := data[tenant := data[tenant][spec.name := e]];
      return spec.version;
    }

    method GetActive(tenant: string, name: string) returns (r: Answer<Spec>)
      ensures r == Get(data, tenant, name)
    {
      var e := FindEntry(data, tenant, name);
      if e.None? {
        return Err(NotFound);
      }
      if e.value.active == "" || e.value.active !in e.value.versions {
        return Err(NotFound);
      }
      return Value(e.value.versions[e.value.active]);
    }

    method DeleteSpec(tenant: string, name: string) returns (error: Option<Error>)
      modifies this
      ensures data == Delete(old(data), tenant, name)
      ensures error.Some? <==> FindEntry(old(data), tenant, name).None?
    {
      var e := FindEntry(data, tenant, name);
      if e.None? {
        return Some(NotFound);
      }
      data := data[tenant := data[tenant][name := e.value.(deleted := true, active := "")]];
      return None;
    }

    method ActivateVersion(tenant: string, name: string, version: string) returns (error: Option<Error>)
      modifies this
      ensures data == Activate(old(data), tenant, name, version)
      ensures error == ActivateError(old(data), tenant, name, version)
    {
      var e := FindEntry(data, tenant, name);
      if e.None? {
        return Some(NotFound);
      }
      if version !in e.value.versions {
        return Some(VersionConflict);
      }
      var versions := e.value.versions;
      if e.value.active in versions && e.value.active != version {
        versions := versions[e.value.active := versions[e.value.active].(status := DRAFT)];
      }
      versions := versions[version := versions[version].(status := ACTIVE)];
      data := Put(data, tenant, name, e.value.(versions := versions, active := version));
      return None;
    }
  }
}

/** The store over a flat bucket of objects (`pkg/workflow/store/blob/blob.go`).  The JSON encoding of
    a spec is taken to be faithful: a spec object is kept as the spec it encodes. */
module BlobStore {
  import opened Wrappers
  import opened WorkflowStore
  import opened Text

  datatype Object = SpecObject(spec: Spec) | TextObject(text: string)

  type Bucket = map<string, Object>

  function Key(prefix: string, tenant: string, name: string, file: string): string {
    prefix + "workflows/" + tenant + "/" + name + "/" + file
  }

  function VersionFile(version: string): string {
    version + ".json"
  }

  function ReadText(b: Bucket, key: string): string {
    if key in b && b[key].TextObject? then b[key].text else ""
  }

  function AppendVersion(b: Bucket, key: string, version: string): Bucket {
    b[key := TextObject(ReadText(b, key) + version + "\n")]
  }

  predicate Deleted(prefix: string, b: Bucket, tenant: string, name: string) {
    Key(prefix, tenant, name, "_deleted") in b
  }

  function Create(prefix: string, b: Bucket, tenant: string, spec: Spec): Bucket {
    var versionKey := Key(prefix, tenant, spec.name, VersionFile(spec.version));
    var written := if versionKey in b then b
                   else AppendVersion(b[versionKey := SpecObject(spec)], Key(prefix, tenant, spec.name, "_versions"), spec.version);
    written - {Key(prefix, tenant, spec.name, "_deleted")}
  }

  function ReadSpec(prefix: string, b: Bucket, tenant: string, name: string, version: string, status: string): Answer<Spec> {
    var key := Key(prefix, tenant, name, VersionFile(version));
    if key in b && b[key].SpecObject? then Value(b[key].spec.(version := version, status := status)) else Err(NotFound)
  }

  function Get(prefix: string, b: Bucket, tenant: string, name: string): Answer<Spec> {
    if Deleted(prefix, b, tenant, name) || Key(prefix, tenant, name, "_active") !in b then Err(NotFound)
    else ReadSpec(prefix, b, tenant, name, TrimSpace(ReadText(b, Key(prefix, tenant, name, "_active"))), ACTIVE)
  }

  /** A version read by name is always reported as a draft. */
  function GetVersion(prefix: string, b: Bucket, tenant: string, name: string, version: string): Answer<Spec> {
    ReadSpec(prefix, b, tenant, name, version, DRAFT)
  }

  function ListVersions(prefix: string, b: Bucket, tenant: string, name: string): Answer<seq<string>> {
    if Deleted(prefix, b, tenant, name) then Err(NotFound)
    else Value(NonBlank(Lines(ReadText(b, Key(prefix, tenant, name, "_versions")))))
  }

  function ActivateError(prefix: string, b: Bucket, tenant: string, name: string, version: string): Option<Error> {
    if Deleted(prefix, b, tenant, name) || Key(prefix, tenant, name, VersionFile(version)) !in b
    then Some(VersionConflict) else None
  }

  function Activate(prefix: string, b: Bucket, tenant: string, name: string, version: string): Bucket {
    if ActivateError(prefix, b, tenant, name, version).Some? then b
    else b[Key(prefix, tenant, name, "_active") := TextObject(version)]
  }

  function Delete(prefix: string, b: Bucket, tenant: string, name: string): Bucket {
    if Deleted(prefix, b, tenant, name) then b
    else b[Key(prefix, tenant, name, "_deleted") := TextObject("deleted")]
  }

  class Store {
    const prefix: string
    var bucket: Bucket

    constructor (prefix: string)
      ensures this.prefix == prefix && bucket == map[]
    {
      this.prefix, bucket := prefix, map[];
    }

    method CreateSpec(tenant: string, spec: Spec) returns (version: string)
      modifies this
      ensures bucket == Create(prefix, old(bucket), tenant, spec) && version == spec.version
    {
      var versionKey := Key(prefix, tenant, spec.name, VersionFile(spec.version));
      var deletedKey := Key(prefix, tenant, spec.name, "_deleted");
      var versionsKey := Key(prefix, tenant, spec.name, "_versions");
      if versionKey !in bucket {
        bucket := bucket[versionKey := SpecObject(spec)];
        var existing := ReadText(bucket, versionsKey);
        bucket := bucket[versionsKey := TextObject(existing + spec.version + "\n")];
      }
      if deletedKey in bucket {
        bucket := bucket - {deletedKey};
      }
      return spec.version;
    }

    method DeleteSpec(tenant: string, name: string) returns (error: Option<Error>)
      modifies this
      ensures bucket == Delete(prefix, old(bucket), tenant, name)
      ensures error.Some? <==> Deleted(prefix, old(bucket), tenant, name)
    {
      if Deleted(prefix, bucket, tenant, name) {
        return Some(NotFound);
      }
      bucket := bucket[Key(prefix, tenant, name, "_deleted") := TextObject("deleted")];
      return None;
    }

    method GetActive(tenant: string, name: string) returns (r: Answer<Spec>)
      ensures r == Get(prefix, bucket, tenant, name)
    {
      if Deleted(prefix, bucket, tenant, name) {
        return Err(NotFound);
      }
      var activeKey := Key(prefix, tenant, name, "_active");
      if activeKey !in bucket {
        return Err(NotFound);
      }
      var version := TrimSpace(ReadText(bucket, activeKey));
      var versionKey := Key(prefix, tenant, name, VersionFile(version));
      if versionKey !in bucket || !bucket[versionKey].SpecObject? {
        return Err(NotFound);
      }
      return Value(bucket[versionKey].spec.(version := version, status := ACTIVE));
    }

    /** Splits the log and keeps the lines that are not blank. */
    method ReadVersions(tenant: string, name: string) returns (versions: seq<string>)
      ensures versions == NonBlank(Lines(ReadText(bucket, Key(prefix, tenant, name, "_versions"))))
    {
      versions := [];
      var lines := Lines(ReadText(bucket, Key(prefix, tenant, name, "_versions")));
      for i := 0 to |lines|
        invariant versions == NonBlank(lines[..i])
      {
        assert lines[..i + 1][..i] == lines[..i];
        var v := TrimSpace(lines[i]);
        if v != "" {
          versions := versions + [v];
        }
      }
      assert lines[..|lines|] == lines;
    }

    method ActivateVersion(tenant: string, name: string, version: string) returns (error: Option<Error>)
      modifies this
      ensures bucket == Activate(prefix, old(bucket), tenant, name, version)
      ensures error == ActivateError(prefix, old(bucket), tenant, name, version)
    {
      if Deleted(prefix, bucket, tenant, name) {
        return Some(VersionConflict);
      }
      if Key(prefix, tenant, name, VersionFile(version)) !in bucket {
        return Some(VersionConflict);
      }
      bucket := bucket[Key(prefix, tenant, name, "_active") := TextObject(version)];
      return None;
    }
  }

  // ---- keys ----

  /** A key as it looks. */
  lemma KeyFormat(prefix: string, tenant: string, name: string, version: string)
    ensures Key(prefix, tenant, name, VersionFile(version)) == prefix + "workflows/" + tenant + "/" + name + "/" + version + ".json"
  {
    var root := prefix + "workflows/" + tenant + "/" + name + "/";
    assert root + (version + ".json") == root + version + ".json";
  }

  /** Distinct files of distinct workflows never share a key, whatever the file names contain. */
  lemma KeyInjective(prefix: string, tenant: string, name: string, file: string, tenant': string, name': string, file': string)
    requires SlashFree(tenant) && SlashFree(name) && SlashFree(tenant') && SlashFree(name')
    requires Key(prefix, tenant, name, file) == Key(prefix, tenant', name', file')
    ensures tenant == tenant' && name == name' && file == file'
  {
    var root := prefix + "workflows/";
    var rest, rest' := tenant + "/" + (name + "/" + file), tenant' + "/" + (name' + "/" + file');
    assert Key(prefix, tenant, name, file) == root + rest;
    assert Key(prefix, tenant', name', file') == root + rest';
    assert rest == (root + rest)[|root|..] && rest' == (root + rest')[|root|..];
    SplitAtSlash(tenant, name + "/" + file, tenant', name' + "/" + file');
    SplitAtSlash(name, file, name', file');
  }

  ghost predicate SharesEveryKey(prefix: string, tenant: string, name: string, tenant': string, name': string) {
    forall file :: Key(prefix, tenant, name, file) == Key(prefix, tenant', name', file)
  }

  lemma SharedKeysMean(prefix: string, tenant: string, name: string, tenant': string, name': string)
    ensures SharesEveryKey(prefix, tenant, name, tenant', name') <==> tenant + "/" + name == tenant' + "/" + name'
  {
    var root := prefix + "workflows/";
    forall file ensures Key(prefix, tenant, name, file) == root + (tenant + "/" + name) + ("/" + file)
                        && Key(prefix, tenant', name', file) == root + (tenant' + "/" + name') + ("/" + file)
    {
      assert Key(prefix, tenant, name, file) == root + (tenant + "/" + name) + ("/" + file);
      assert Key(prefix, tenant', name', file) == root + (tenant' + "/" + name') + ("/" + file);
    }
    if SharesEveryKey(prefix, tenant, name, tenant', name') {
      var a, b := tenant + "/" + name, tenant' + "/" + name';
      assert Key(prefix, tenant, name, "") == Key(prefix, tenant', name', "");
      assert "/" + "" == "/" && root + a + "/" == root + b + "/";
      assert (root + a + "/")[|root|..|root| + |a|] == a && (root + b + "/")[|root|..|root| + |b|] == b;
    }
  }

  /** Where a string has a slash. */
  lemma SlashAt(s: string) returns (i: nat)
    requires !SlashFree(s)
    ensures i < |s| && s == s[..i] + "/" + s[i + 1..]
  {
    i :| 0 <= i < |s| && s[i] == '/';
  }

  /** A workflow shares all its keys with another one exactly when its tenant or its name contains a slash. */
  lemma KeysSharedIffSlash(prefix: string, tenant: string, name: string)
    ensures (exists tenant', name' :: (tenant' != tenant || name' != name) && SharesEveryKey(prefix, tenant, name, tenant', name'))
            <==> !SlashFree(tenant) || !SlashFree(name)
  {
    if !SlashFree(tenant) {
      var i := SlashAt(tenant);
      var tenant', name' := tenant[..i], tenant[i + 1..] + "/" + name;
      assert tenant + "/" + name == tenant' + "/" + name';
      SharedKeysMean(prefix, tenant, name, tenant', name');
    } else if !SlashFree(name) {
      var i := SlashAt(name);
      var tenant', name' := tenant + "/" + name[..i], name[i + 1..];
      assert tenant + "/" + name == tenant' + "/" + name';
      SharedKeysMean(prefix, tenant, name, tenant', name');
    } else {
      forall tenant', name' | SharesEveryKey(prefix, tenant, name, tenant', name') ensures tenant' == tenant && name' == name {
        SharedKeysMean(prefix, tenant, name, tenant', name');
        OneSlash(tenant, name, tenant', name');
      }
    }
  }

  lemma OneSlash(a: string, b: string, a': string, b': string)
    requires SlashFree(a) && SlashFree(b) && a + "/" + b == a' + "/" + b'
    ensures a == a' && b == b'
  {
    var s := a + "/" + b;
    assert s[|a'|] == '/';
    assert forall i | 0 <= i < |s| && i != |a| :: s[i] != '/';
    assert |a| == |a'|;
    assert s[..|a|] == a && (a' + "/" + b')[..|a'|] == a';
    assert s[|a| + 1..] == b && (a' + "/" + b')[|a'| + 1..] == b';
  }

  lemma FilesDiffer(version: string, version': string)
    ensures VersionFile(version) == VersionFile(version') <==> version == version'
    ensures VersionFile(version) !in {"_versions", "_active", "_deleted"}
  {
    assert VersionFile(version)[..|version|] == version && VersionFile(version')[..|version'|] == version';
    assert VersionFile(version)[|VersionFile(version)| - 1] == 'n';
  }
}
