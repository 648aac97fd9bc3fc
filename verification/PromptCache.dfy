/** The two-level prompt cache (`pkg/prompt/cache.go`): Redis shared by all writers, and a snapshot
    that one background loop rebuilds from Redis on a tick or on request.  A fragment's JSON
    encoding is taken to be faithful, and Redis commands to succeed. */
module PromptCache {
  import opened Wrappers
  import opened PromptKeys

  datatype Fragment = Fragment(slug: string, content: string)

  /** A put that reached Redis. */
  datatype Put = Put(tenant: string, fragment: Fragment)

  type Pair = (string, string)

  function PairOf(p: Put): Pair {
    (p.tenant, p.fragment.slug)
  }

  function KeyOf(p: Put): string {
    RedisKey(p.tenant, p.fragment.slug)
  }

  // ---- the cache as one goroutine sees it ----

  class Cache {
    var redis: map<string, Fragment>
    var snapshot: map<Pair, Fragment>
    var refreshCh: bool

    constructor ()
      ensures redis == map[] && snapshot == map[] && !refreshCh
    {
      redis, snapshot, refreshCh := map[], map[], false;
    }

    method Put(tenant: string, f: Fragment)
      modifies this`redis
      ensures redis == old(redis)[RedisKey(tenant, f.slug) := f]
    {
      redis := redis[RedisKey(tenant, f.slug) := f];
    }

    /** Snapshot first, then Redis; `None` stands for asking the backend. */
    method Get(tenant: string, slug: string) returns (f: Option<Fragment>)
      ensures f == if (tenant, slug) in snapshot then Some(snapshot[(tenant, slug)])
                   else if RedisKey(tenant, slug) in redis then Some(redis[RedisKey(tenant, slug)]) else None
    {
      if (tenant, slug) in snapshot {
        return Some(snapshot[(tenant, slug)]);
      }
      if RedisKey(tenant, slug) in redis {
        return Some(redis[RedisKey(tenant, slug)]);
      }
      return None;
    }

    /** A send that does not block: coalesced if a token is already in the one-slot channel. */
    method Refresh()
      modifies this`refreshCh
      ensures refreshCh
    {
      if !refreshCh {
        refreshCh := true;
      }
    }

    /** A refresh that no write overlaps, on whatever Redis holds. */
    method DoRefresh()
      modifies this`snapshot
      ensures Rebuilt(redis, redis.Keys, snapshot)
    {
      var keys := redis.Keys;
      var fragments: map<Pair, Fragment> := map[];
      while keys != {}
        invariant keys <= redis.Keys && Rebuilt(redis, redis.Keys - keys, fragments)
        decreases keys
      {
        var key :| key in keys;
        var tenant := ExtractTenantID(key);
        FileOne(redis, redis.Keys - keys, fragments, key);
        assert redis.Keys - (keys - {key}) == redis.Keys - keys + {key};
        keys := keys - {key};
        if tenant != "" {
          fragments := fragments[(tenant, redis[key].slug) := redis[key]];
        }
      }
      assert redis.Keys - keys == redis.Keys;
      snapshot := fragments;
    }
  }

  /** Where a refresh files the fragment under a key. */
  function FiledAs(key: string, f: Fragment): Pair {
    (ExtractTenantID(key), f.slug)
  }

  ghost predicate FiledFrom(redis: map<string, Fragment>, keys: set<string>, pair: Pair, f: Fragment) {
    exists key :: key in keys && key in redis && FiledAs(key, redis[key]) == pair && redis[key] == f
  }

  /** Every key with a tenant is filed, and every entry comes from a key filed there. */
  ghost predicate Rebuilt(redis: map<string, Fragment>, keys: set<string>, entries: map<Pair, Fragment>) {
    && (forall key | key in keys && key in redis && ExtractTenantID(key) != "" :: FiledAs(key, redis[key]) in entries)
    && (forall pair | pair in entries :: pair.0 != "" && FiledFrom(redis, keys, pair, entries[pair]))
  }

  lemma FileOne(redis: map<string, Fragment>, keys: set<string>, entries: map<Pair, Fragment>, key: string)
    requires Rebuilt(redis, keys, entries) && key in redis
    ensures Rebuilt(redis, keys + {key},
                    if ExtractTenantID(key) == "" then entries else entries[FiledAs(key, redis[key]) := redis[key]])
  {
    var entries' := if ExtractTenantID(key) == "" then entries else entries[FiledAs(key, redis[key]) := redis[key]];
    forall pair | pair in entries' ensures pair.0 != "" && FiledFrom(redis, keys + {key}, pair, entries'[pair]) {
      if pair in entries && entries[pair] == entries'[pair] {
        assert FiledFrom(redis, keys, pair, entries[pair]);
      }
    }
  }

  /** Every key is that of a separable, non-empty tenant and of the fragment it holds. */
  ghost predicate KeysInOrder(redis: map<string, Fragment>) {
    forall key | key in redis :: exists t :: Separable(t) && t != "" && key == RedisKey(t, redis[key].slug)
  }

  /** A rebuilt snapshot mirrors Redis exactly, when all keys are in order. */
  lemma RebuiltMirrors(redis: map<string, Fragment>, snapshot: map<Pair, Fragment>, tenant: string, slug: string)
    requires KeysInOrder(redis) && Rebuilt(redis, redis.Keys, snapshot) && Separable(tenant) && tenant != ""
    ensures (tenant, slug) in snapshot <==> RedisKey(tenant, slug) in redis
    ensures (tenant, slug) in snapshot ==> snapshot[(tenant, slug)] == redis[RedisKey(tenant, slug)]
  {
    var own := RedisKey(tenant, slug);
    if own in redis {
      OwnPair(redis, own);
      ExtractionExact(tenant, slug);
      var t :| Separable(t) && own == RedisKey(t, redis[own].slug);
      KeysUnique(t, redis[own].slug, tenant, slug);
    }
    if (tenant, slug) in snapshot {
      var key :| key in redis.Keys && FiledAs(key, redis[key]) == (tenant, slug) && redis[key] == snapshot[(tenant, slug)];
      OwnPair(redis, key);
    }
  }

  lemma OwnPair(redis: map<string, Fragment>, key: string)
    requires KeysInOrder(redis) && key in redis
    ensures key == RedisKey(ExtractTenantID(key), redis[key].slug)
  {
    var t :| Separable(t) && t != "" && key == RedisKey(t, redis[key].slug);
    ExtractionExact(t, redis[key].slug);
  }

  /** A tenant that is not separable has all its fragments filed under another tenant, or under none. */
  lemma FiledElsewhereIff(tenant: string, f: Fragment)
    ensures FiledAs(RedisKey(tenant, f.slug), f) != (tenant, f.slug) <==> !Separable(tenant)
  {
    ExtractionExact(tenant, f.slug);
  }

  // ---- writers, requests and the background loop, interleaved ----

  /** The background loop: idle; refreshing but not yet past the key scan; or reading the listed keys
      one by one.  `listedAt` is the number of puts at the scan. */
  datatype Poller = Idle | Starting | Reading(listedAt: nat, todo: set<string>, read: map<Pair, nat>)

  /** The last `Refresh()`: how many key scans and how many puts there had been by then. */
  datatype Demand = NoDemand | Demand(scans: nat, puts: nat)

  /** `redis` and `snapshot` point into `puts`, the puts so far in order.  `scans` counts the key
      scans, `served` is the number of the one whose refresh completed last, and `freshAt` the number
      of puts at that scan. */
  datatype World = World(puts: seq<Put>, redis: map<string, nat>, snapshot: map<Pair, nat>,
                         token: bool, poller: Poller, demand: Demand, scans: nat, served: nat, freshAt: nat)

  datatype Action =
    | DoPut(put: Put)
    | Request            // Refresh()
    | TakeToken          // the loop receives from the channel
    | Tick               // the loop's ticker fires
    | ListKeys
    | ReadKey(key: string)
    | Swap               // the new snapshot is stored

  function Step(w: World, a: Action): World {
    match a
    case DoPut(put) => w.(puts := w.puts + [put], redis := w.redis[KeyOf(put) := |w.puts|])
    case Request => w.(token := true, demand := Demand(w.scans, |w.puts|))
    case TakeToken => if w.poller.Idle? && w.token then w.(token := false, poller := Starting) else w
    case Tick => if w.poller.Idle? then w.(poller := Starting) else w
    case ListKeys =>
      if w.poller.Starting? then w.(scans := w.scans + 1, poller := Reading(|w.puts|, w.redis.Keys, map[])) else w
    case ReadKey(key) =>
      if w.poller.Reading? && key in w.poller.todo && key in w.redis && w.redis[key] < |w.puts| then
        var f := w.puts[w.redis[key]].fragment;
        var tenant := ExtractTenantID(key);
        w.(poller := w.poller.(todo := w.poller.todo - {key},
                               read := if tenant == "" then w.poller.read else w.poller.read[(tenant, f.slug) := w.redis[key]]))
      else w
    case Swap =>
      if w.poller.Reading? && w.poller.todo == {}
      then w.(snapshot := w.poller.read, served := w.scans, freshAt := w.poller.listedAt, poller := Idle)
      else w
  }

  const INITIAL := World([], map[], map[], false, Idle, NoDemand, 0, 0, 0)

  function RunFrom(w: World, actions: seq<Action>): World {
    if actions == [] then w else Step(RunFrom(w, actions[..|actions| - 1]), actions[|actions| - 1])
  }

  function Run(actions: seq<Action>): World {
    RunFrom(INITIAL, actions)
  }

  /** All writers are separable, non-empty tenants. */
  ghost predicate GoodTenants(actions: seq<Action>) {
    forall a | a in actions && a.DoPut? :: Separable(a.put.tenant) && a.put.tenant != ""
  }

  /** What a read answers, as an index into `puts`; `None` stands for asking the backend. */
  function Get(w: World, pair: Pair): Option<nat> {
    if pair in w.snapshot then Some(w.snapshot[pair])
    else if RedisKey(pair.0, pair.1) in w.redis then Some(w.redis[RedisKey(pair.0, pair.1)]) else None
  }

  /** The index of the last put of a pair among the first `n`. */
  function LastPut(puts: seq<Put>, n: nat, pair: Pair): (last: Option<nat>)
    requires n <= |puts|
    ensures last.Some? ==> last.value < n && PairOf(puts[last.value]) == pair
    ensures forall i | 0 <= i < n && PairOf(puts[i]) == pair :: last.Some? && i <= last.value
  {
    if n == 0 then None
    else if PairOf(puts[n - 1]) == pair then Some(n - 1)
    else LastPut(puts, n - 1, pair)
  }

  /** Entries for a pair are puts of that pair, and no pair put before `since` is missing or older than its last put then. */
  ghost predicate Covers(puts: seq<Put>, entries: map<Pair, nat>, since: nat)
    requires since <= |puts|
  {
    && (forall pair | pair in entries :: entries[pair] < |puts| && PairOf(puts[entries[pair]]) == pair)
    && (forall i | 0 <= i < since :: PairOf(puts[i]) in entries && i <= entries[PairOf(puts[i])])
  }

  ghost predicate RedisOk(w: World) {
    && (forall i | 0 <= i < |w.puts| ::
          Separable(w.puts[i].tenant) && w.puts[i].tenant != "" && KeyOf(w.puts[i]) in w.redis && i <= w.redis[KeyOf(w.puts[i])])
    && (forall key | key in w.redis :: w.redis[key] < |w.puts| && KeyOf(w.puts[w.redis[key]]) == key)
  }

  /** What a refresh in progress has read so far: everything listed is read or still to be read. */
  ghost predicate ReadingOk(w: World) {
    w.poller.Reading? ==>
      var p := w.poller;
      && w.freshAt <= p.listedAt <= |w.puts| && p.todo <= w.redis.Keys
      && (forall pair | pair in p.read :: p.read[pair] < |w.puts| && PairOf(w.puts[p.read[pair]]) == pair)
      && (forall i | 0 <= i < p.listedAt ::
            KeyOf(w.puts[i]) in p.todo || (PairOf(w.puts[i]) in p.read && i <= p.read[PairOf(w.puts[i])]))
  }

  /** A scan made after the request has been turned into a snapshot. */
  predicate Served(w: World) {
    w.demand.Demand? && w.demand.scans < w.served
  }

  /** A scan made after the request is being turned into a snapshot. */
  predicate BeingServed(w: World) {
    w.demand.Demand? && w.poller.Reading? && w.demand.scans < w.scans
  }

  /** No request is lost: it is pending in the channel, or the loop is about to scan, is reading the
      keys of a scan made after the request, or has completed such a refresh. */
  ghost predicate RequestKept(w: World) {
    w.demand.Demand? ==> w.token || w.poller.Starting? || BeingServed(w) || Served(w)
  }

  /** The counters are consistent, and a scan made after the request saw every put before it. */
  ghost predicate CountersOk(w: World) {
    && w.served <= w.scans && w.freshAt <= |w.puts|
    && (forall key | key in w.redis :: w.redis[key] < |w.puts|)
    && (w.poller.Reading? ==> w.freshAt <= w.poller.listedAt <= |w.puts| && w.poller.todo <= w.redis.Keys)
    && (w.demand.Demand? ==> w.demand.scans <= w.scans && w.demand.puts <= |w.puts|)
    && (BeingServed(w) ==> w.demand.puts <= w.poller.listedAt)
    && (Served(w) ==> w.demand.puts <= w.freshAt)
  }

  ghost predicate Invariant(w: World) {
    RedisOk(w) && ReadingOk(w) && w.freshAt <= |w.puts| && Covers(w.puts, w.snapshot, w.freshAt)
  }

  lemma PutKeepsInvariant(w: World, put: Put)
    requires Invariant(w) && Separable(put.tenant) && put.tenant != ""
    ensures Invariant(Step(w, DoPut(put)))
  {
    var w' := Step(w, DoPut(put));
    assert forall i | 0 <= i < |w.puts| :: w'.puts[i] == w.puts[i];
    assert RedisOk(w');
    assert ReadingOk(w');
    assert Covers(w'.puts, w'.snapshot, w'.freshAt);
  }

  lemma ReadKeepsInvariant(w: World, key: string)
    requires Invariant(w)
    ensures Invariant(Step(w, ReadKey(key)))
  {
    if w.poller.Reading? && key in w.poller.todo && key in w.redis {
      var put := w.puts[w.redis[key]];
      assert key == RedisKey(put.tenant, put.fragment.slug) by { assert KeyOf(put) == key; }
      ExtractionExact(put.tenant, put.fragment.slug);
      forall i | 0 <= i < w.poller.listedAt && KeyOf(w.puts[i]) == key ensures PairOf(w.puts[i]) == PairOf(put) {
        KeysUnique(w.puts[i].tenant, w.puts[i].fragment.slug, put.tenant, put.fragment.slug);
      }
    }
  }

  lemma StepKeepsInvariant(w: World, a: Action)
    requires Invariant(w) && (a.DoPut? ==> Separable(a.put.tenant) && a.put.tenant != "")
    ensures Invariant(Step(w, a))
  {
    match a
    case DoPut(put) => PutKeepsInvariant(w, put);
    case ReadKey(key) => ReadKeepsInvariant(w, key);
    case Request =>
    case TakeToken =>
    case Tick =>
    case ListKeys =>
    case Swap =>
  }

  lemma {:induction false} RunKeepsInvariant(actions: seq<Action>)
    requires GoodTenants(actions)
    ensures Invariant(Run(actions))
    decreases |actions|
  {
    if actions != [] {
      RunKeepsInvariant(actions[..|actions| - 1]);
      assert actions[|actions| - 1] in actions;
      StepKeepsInvariant(Run(actions[..|actions| - 1]), actions[|actions| - 1]);
    }
  }

  // ---- what every interleaving guarantees ----

  lemma StepKeepsRequest(w: World, a: Action)
    requires CountersOk(w) && RequestKept(w)
    ensures CountersOk(Step(w, a)) && RequestKept(Step(w, a))
  {
  }

  /** No refresh request is lost, in any interleaving and for any tenants. */
  lemma {:induction false} NoRequestLost(actions: seq<Action>)
    ensures RequestKept(Run(actions)) && CountersOk(Run(actions))
    decreases |actions|
  {
    if actions != [] {
      NoRequestLost(actions[..|actions| - 1]);
      StepKeepsRequest(Run(actions[..|actions| - 1]), actions[|actions| - 1]);
    }
  }

  predicate ByLoop(a: Action) {
    a.TakeToken? || a.ListKeys? || a.ReadKey? || a.Swap?
  }

  lemma {:induction false} RunFromSplit(w: World, a: seq<Action>, b: seq<Action>)
    ensures RunFrom(w, a + b) == RunFrom(RunFrom(w, a), b)
    decreases |b|
  {
    if b == [] {
      assert a + b == a;
    } else {
      assert (a + b)[..|a + b| - 1] == a + b[..|b| - 1];
      RunFromSplit(w, a, b[..|b| - 1]);
    }
  }

  lemma Then(w: World, a: Action, more: seq<Action>)
    ensures RunFrom(w, [a] + more) == RunFrom(Step(w, a), more)
  {
    RunFromSplit(w, [a], more);
    assert [a][..0] == [];
    assert RunFrom(w, [a]) == Step(RunFrom(w, []), a);
  }

  /** How many steps of its own the loop needs at most until the request is served. */
  function StepsLeft(w: World): nat {
    if Served(w) then 0
    else
      match w.poller
      case Reading(_, todo, _) => |todo| + 1 + if BeingServed(w) then 0 else 3 + |w.redis|
      case Starting => 2 + |w.redis|
      case Idle => 3 + |w.redis|
  }

  /** The loop's next step on the way to serving the request: it is possible and brings it closer. */
  lemma LoopStep(w: World) returns (a: Action)
    requires CountersOk(w) && RequestKept(w) && w.demand.Demand? && !Served(w)
    ensures ByLoop(a) && Step(w, a).demand == w.demand && StepsLeft(Step(w, a)) < StepsLeft(w)
  {
    match w.poller
    case Idle => a := TakeToken;
    case Starting =>
      a := ListKeys;
      assert |w.redis.Keys| == |w.redis|;
    case Reading(_, todo, _) =>
      if todo == {} {
        a := Swap;
      } else {
        var key :| key in todo;
        a := ReadKey(key);
        ReadBringsCloser(w, key);
      }
  }

  lemma ReadBringsCloser(w: World, key: string)
    requires CountersOk(w) && w.poller.Reading? && key in w.poller.todo && !Served(w)
    ensures var w' := Step(w, ReadKey(key));
            w'.demand == w.demand && StepsLeft(w') < StepsLeft(w)
  {
    var w' := Step(w, ReadKey(key));
    assert w'.poller.todo == w.poller.todo - {key};
    assert w.poller.todo == (w.poller.todo - {key}) + {key};
    assert BeingServed(w') == BeingServed(w) && !Served(w') && w'.redis == w.redis;
  }

  /** And served it can be, whatever happened so far: the loop's own steps, finitely many, lead to a
      snapshot built from a scan made after the request. */
  lemma {:induction false} RequestCanBeServed(w: World) returns (more: seq<Action>)
    requires CountersOk(w) && RequestKept(w) && w.demand.Demand?
    ensures (forall a | a in more :: ByLoop(a)) && |more| <= StepsLeft(w)
    ensures Served(RunFrom(w, more)) && RunFrom(w, more).demand == w.demand
    decreases StepsLeft(w)
  {
    if Served(w) {
      more := [];
    } else {
      var a := LoopStep(w);
      StepKeepsRequest(w, a);
      var rest := RequestCanBeServed(Step(w, a));
      Then(w, a, rest);
      more := [a] + rest;
    }
  }

  /** A read never crosses tenants or slugs, and never goes behind the last complete refresh. */
  lemma GetIsOwnAndFresh(actions: seq<Action>, pair: Pair)
    requires GoodTenants(actions) && Separable(pair.0)
    ensures var w := Run(actions);
            && (Get(w, pair).Some? ==> Get(w, pair).value < |w.puts| && PairOf(w.puts[Get(w, pair).value]) == pair)
            && w.freshAt <= |w.puts|
            && forall i | 0 <= i < w.freshAt && PairOf(w.puts[i]) == pair :: Get(w, pair).Some? && i <= Get(w, pair).value
  {
    RunKeepsInvariant(actions);
    var w := Run(actions);
    var key := RedisKey(pair.0, pair.1);
    if key in w.redis {
      var put := w.puts[w.redis[key]];
      assert KeyOf(put) == key;
      KeysUnique(put.tenant, put.fragment.slug, pair.0, pair.1);
    }
  }

  /** Once the loop is idle and no token is pending, every put that preceded the last `Refresh()` is
      visible; where no later put of the pair followed, a read answers exactly the last put. */
  lemma QuiescentGetIsLastPut(actions: seq<Action>, pair: Pair)
    requires GoodTenants(actions) && Separable(pair.0)
    requires Run(actions).poller.Idle? && !Run(actions).token
    ensures var w := Run(actions);
            && w.freshAt <= |w.puts| && (w.demand.Demand? ==> w.demand.puts <= w.freshAt)
            && (LastPut(w.puts, |w.puts|, pair) == LastPut(w.puts, w.freshAt, pair) ==>
                  Get(w, pair) == LastPut(w.puts, |w.puts|, pair))
  {
    NoRequestLost(actions);
    GetIsOwnAndFresh(actions, pair);
    var w := Run(actions);
    var last := LastPut(w.puts, |w.puts|, pair);
    if last == LastPut(w.puts, w.freshAt, pair) {
      if last.Some? {
        assert last.value < w.freshAt && PairOf(w.puts[last.value]) == pair;
      }
    }
  }

  lemma PrefixStep(actions: seq<Action>, k: nat)
    requires k < |actions|
    ensures Run(actions[..k + 1]) == Step(Run(actions[..k]), actions[k])
  {
    assert actions[..k + 1][..k] == actions[..k];
  }

  /** One put, and a whole refresh after it. */
  function PutAndRefresh(put: Put): seq<Action> {
    [DoPut(put), Tick, ListKeys, ReadKey(KeyOf(put)), Swap]
  }

  lemma RefreshedOnce(put: Put)
    ensures var w := Run(PutAndRefresh(put));
            var filed := FiledAs(KeyOf(put), put.fragment);
            && w.puts == [put] && w.redis == map[KeyOf(put) := 0]
            && w.snapshot == if filed.0 == "" then map[] else map[filed := 0]
  {
    var a := PutAndRefresh(put);
    PrefixStep(a, 0);
    PrefixStep(a, 1);
    PrefixStep(a, 2);
    assert Run(a[..3]).poller.todo == {KeyOf(put)};
    PrefixStep(a, 3);
    assert Run(a[..4]).poller.todo == {};
    PrefixStep(a, 4);
    assert a[..0] == [] && a[..5] == a;
  }

  /** Between a put and the next refresh a read of a pair already in the snapshot is stale. */
  lemma StaleUntilRefreshed(tenant: string, first: Fragment, second: Fragment)
    requires Separable(tenant) && tenant != "" && first.slug == second.slug
    ensures var w := Run(PutAndRefresh(Put(tenant, first)) + [DoPut(Put(tenant, second))]);
            Get(w, (tenant, first.slug)) == Some(0) && LastPut(w.puts, |w.puts|, (tenant, first.slug)) == Some(1)
  {
    var a := PutAndRefresh(Put(tenant, first)) + [DoPut(Put(tenant, second))];
    RefreshedOnce(Put(tenant, first));
    ExtractionExact(tenant, first.slug);
    PrefixStep(a, 5);
    assert a[..5] == PutAndRefresh(Put(tenant, first)) && a[..6] == a;
  }

  /** The condition on tenants is needed: a put of any other tenant, once refreshed, is what a read of a
      different tenant answers, unless it is filed under none. */
  lemma MisfiledRead(tenant: string, f: Fragment)
    requires !Separable(tenant)
    ensures var filed := FiledAs(RedisKey(tenant, f.slug), f);
            filed.0 != tenant && (filed.0 != "" ==> Get(Run(PutAndRefresh(Put(tenant, f))), filed) == Some(0))
  {
    ExtractionExact(tenant, f.slug);
    RefreshedOnce(Put(tenant, f));
  }
}
