/** The message archive on an object store (`pkg/memory/minio.go`): one object per message, under a
    key with a zero-padded sequence number. */
module MinioStore {
  import opened Wrappers
  import opened Decimals
  import opened Text
  import opened TokenWindow

  const WIDTH := 16

  const SUFFIX := ".json"

  function Prefix(tenant: string, thread: string): string {
    tenant + "/" + thread + "/"
  }

  function ObjectKey(tenant: string, thread: string, n: nat): string {
    Prefix(tenant, thread) + Padded(n, WIDTH) + SUFFIX
  }

  /** A key as it looks. */
  lemma KeyFormat(tenant: string, thread: string)
    ensures ObjectKey(tenant, thread, 107) == tenant + "/" + thread + "/0000000000000107.json"
  {
    var p := Prefix(tenant, thread);
    assert Zeros(13) == "0000000000000" by { ZerosAre(); }
    assert Padded(1, 14) == Zeros(13) + [Digit(1)];
    assert Padded(10, 15) == Padded(1, 14) + [Digit(0)];
    assert Padded(107, 16) == Padded(10, 15) + [Digit(7)] == "0000000000000107";
    assert p + "0000000000000107" + ".json" == tenant + "/" + thread + "/0000000000000107.json";
  }

  lemma ZerosAre()
    ensures Zeros(13) == "0000000000000"
  {
    assert |Zeros(13)| == |"0000000000000"|;
  }

  // ---- string order ----

  /** Strictly before in the order of `sort.Strings`. */
  predicate Before(a: string, b: string) {
    if b == "" then false
    else if a == "" then true
    else a[0] < b[0] || (a[0] == b[0] && Before(a[1..], b[1..]))
  }

  /** The order is lexicographic: a proper prefix comes before, and else the first difference decides. */
  lemma {:induction false} BeforeIsLexicographic(a: string, b: string)
    ensures Before(a, b) <==> a < b || exists i :: DiffersBelow(a, b, i)
    decreases |a|
  {
    if a != "" && b != "" {
      var a', b' := a[1..], b[1..];
      BeforeIsLexicographic(a', b');
      assert a == [a[0]] + a' && b == [b[0]] + b';
      forall i | DiffersBelow(a, b, i) ensures a[0] <= b[0] {
        assert i > 0 ==> a[..i][0] == b[..i][0];
      }
      if a[0] == b[0] {
        assert a < b <==> a' < b';
        forall i | DiffersBelow(a', b', i) ensures DiffersBelow(a, b, i + 1) {
          assert a[..i + 1] == [a[0]] + a'[..i] && b[..i + 1] == [b[0]] + b'[..i];
        }
        forall i | DiffersBelow(a, b, i) ensures i > 0 && DiffersBelow(a', b', i - 1) {
          assert a'[..i - 1] == a[..i][1..] && b'[..i - 1] == b[..i][1..];
        }
      } else {
        assert a[0] < b[0] ==> DiffersBelow(a, b, 0);
      }
    }
  }

  /** The strings agree before position `i`, and at it the first is below the second. */
  ghost predicate DiffersBelow(a: string, b: string, i: int) {
    0 <= i < |a| && i < |b| && a[..i] == b[..i] && a[i] < b[i]
  }

  lemma {:induction false} BeforePrefixed(p: string, a: string, b: string)
    ensures Before(p + a, p + b) <==> Before(a, b)
    decreases |p|
  {
    if p == "" {
      assert p + a == a && p + b == b;
    } else {
      assert (p + a)[1..] == p[1..] + a && (p + b)[1..] == p[1..] + b;
      BeforePrefixed(p[1..], a, b);
    }
  }

  lemma {:induction false} BeforeExtended(a: string, b: string, x: string, y: string)
    requires |a| == |b| && Before(a, b)
    ensures Before(a + x, b + y)
    decreases |a|
  {
    assert (a + x)[1..] == a[1..] + x && (b + y)[1..] == b[1..] + y;
    if a[0] == b[0] { BeforeExtended(a[1..], b[1..], x, y); }
  }

  lemma {:induction false} BeforeTransitive(a: string, b: string, c: string)
    requires Before(a, b) && Before(b, c)
    ensures Before(a, c)
    decreases |a|
  {
    if a != "" && a[0] == b[0] && b[0] == c[0] { BeforeTransitive(a[1..], b[1..], c[1..]); }
  }

  lemma {:induction false} NotBeforeSelf(a: string)
    ensures !Before(a, a)
    decreases |a|
  {
    if a != "" { NotBeforeSelf(a[1..]); }
  }

  lemma {:induction false} BeforeTotal(a: string, b: string)
    ensures Before(a, b) || a == b || Before(b, a)
    decreases |a|
  {
    if a != "" && b != "" {
      if a[0] == b[0] {
        BeforeTotal(a[1..], b[1..]);
        assert a == [a[0]] + a[1..] && b == [b[0]] + b[1..];
      }
    }
  }

  // ---- numeric order ----

  lemma {:induction false} PaddedOrder(n: nat, m: nat, width: nat)
    requires n < m < Pow10(width)
    ensures Before(Padded(n, width), Padded(m, width))
    decreases width
  {
    PaddedWidth(n, width);
    PaddedWidth(m, width);
    PaddedSplit(n, width);
    PaddedSplit(m, width);
    if n / 10 < m / 10 {
      PaddedOrder(n / 10, m / 10, width - 1);
      if width > 1 {
        PaddedWidth(n / 10, width - 1);
        PaddedWidth(m / 10, width - 1);
      }
      BeforeExtended(Padded(n / 10, width - 1), Padded(m / 10, width - 1), [Digit(n % 10)], [Digit(m % 10)]);
    } else {
      BeforePrefixed(Padded(n / 10, width - 1), [Digit(n % 10)], [Digit(m % 10)]);
    }
  }

  /** The last digit of a padded numeral, and the numeral before it. */
  lemma PaddedSplit(n: nat, width: nat)
    requires width > 0 && n < Pow10(width)
    ensures Padded(n, width) == Padded(n / 10, width - 1) + [Digit(n % 10)]
  {
    PaddedZero(width - 1);
  }

  lemma PaddedZero(width: nat)
    ensures Padded(0, width) == Zeros(width)
  {
    if width > 0 { assert Digit(0) == '0'; }
  }

  /** For sequence numbers of at most sixteen digits, key order is numeric order. */
  lemma KeyOrder(tenant: string, thread: string, n: nat, m: nat)
    requires n < m < Pow10(WIDTH)
    ensures Before(ObjectKey(tenant, thread, n), ObjectKey(tenant, thread, m))
  {
    KeyOrderAt(Prefix(tenant, thread), n, m, WIDTH);
  }

  lemma KeyOrderAt(prefix: string, n: nat, m: nat, width: nat)
    requires n < m < Pow10(width)
    ensures Before(prefix + Padded(n, width) + SUFFIX, prefix + Padded(m, width) + SUFFIX)
  {
    PaddedOrder(n, m, width);
    if width > 0 {
      PaddedWidth(n, width);
      PaddedWidth(m, width);
    }
    BeforeExtended(Padded(n, width), Padded(m, width), SUFFIX, SUFFIX);
    BeforeAround(prefix, Padded(n, width), Padded(m, width), SUFFIX);
  }

  lemma BeforeAround(prefix: string, a: string, b: string, suffix: string)
    requires Before(a + suffix, b + suffix)
    ensures Before(prefix + a + suffix, prefix + b + suffix)
  {
    Regroup(prefix, a, suffix);
    Regroup(prefix, b, suffix);
    BeforePrefixed(prefix, a + suffix, b + suffix);
  }

  lemma Regroup(a: string, b: string, c: string)
    ensures a + b + c == a + (b + c)
  {
  }

  /** The first number with one digit more starts with a one, its predecessor with a nine. */
  lemma {:induction false} LeadingDigits(width: nat)
    requires width >= 1
    ensures Padded(Pow10(width), width) != "" && Padded(Pow10(width), width)[0] == '1'
    ensures Padded(Pow10(width) - 1, width) != "" && Padded(Pow10(width) - 1, width)[0] == '9'
    decreases width
  {
    if width == 1 {
      assert Pow10(1) == 10 * Pow10(0) == 10;
      assert Padded(10, 1) == Padded(1, 0) + [Digit(0)] && ToString(1) == [Digit(1)];
      assert Padded(9, 1) == Zeros(0) + [Digit(9)];
    } else {
      LeadingDigits(width - 1);
      assert Pow10(width - 1) == 10 * Pow10(width - 2);
      assert Pow10(width) / 10 == Pow10(width - 1) && (Pow10(width) - 1) / 10 == Pow10(width - 1) - 1;
    }
  }

  /** At the first number of seventeen digits key order and numeric order part. */
  lemma KeyOrderBreaks(tenant: string, thread: string)
    ensures Before(ObjectKey(tenant, thread, Pow10(WIDTH)), ObjectKey(tenant, thread, Pow10(WIDTH) - 1))
  {
    KeyOrderBreaksAt(Prefix(tenant, thread), WIDTH);
  }

  lemma KeyOrderBreaksAt(prefix: string, width: nat)
    requires width >= 1
    ensures Before(prefix + Padded(Pow10(width), width) + SUFFIX, prefix + Padded(Pow10(width) - 1, width) + SUFFIX)
  {
    LeadingDigits(width);
    BeforeAround(prefix, Padded(Pow10(width), width), Padded(Pow10(width) - 1, width), SUFFIX);
  }

  // ---- reading a key back ----

  /** What `Restore` parses out of a key with the prefix: a number, if a numeral stands there. */
  function SeqOf(prefix: string, key: string): Option<nat> {
    if !(prefix <= key) then None
    else
      var base := key[|prefix|..];
      var numeral := if |base| >= 5 && base[|base| - 5..] == SUFFIX then base[..|base| - 5] else base;
      if numeral != "" && AllDigits(numeral) then Some(Denotes(numeral)) else None
  }

  /** Parsing undoes formatting, at any width. */
  lemma SeqOfKey(tenant: string, thread: string, n: nat)
    ensures SeqOf(Prefix(tenant, thread), ObjectKey(tenant, thread, n)) == Some(n)
  {
    var p, key := Prefix(tenant, thread), ObjectKey(tenant, thread, n);
    var base := key[|p|..];
    assert base == Padded(n, WIDTH) + SUFFIX;
    assert base[|base| - 5..] == SUFFIX && base[..|base| - 5] == Padded(n, WIDTH);
    PaddedDenotes(n, WIDTH);
    assert Padded(n, WIDTH) != "" by { assert n < 10 || Padded(n, WIDTH) == Padded(n / 10, WIDTH - 1) + [Digit(n % 10)]; }
  }

  lemma KeysDistinct(tenant: string, thread: string, n: nat, m: nat)
    requires ObjectKey(tenant, thread, n) == ObjectKey(tenant, thread, m)
    ensures n == m
  {
    SeqOfKey(tenant, thread, n);
    SeqOfKey(tenant, thread, m);
  }

  // ---- sorting ----

  ghost predicate Ascending(keys: seq<string>) {
    forall i, j | 0 <= i < j < |keys| :: Before(keys[i], keys[j])
  }

  /** The given keys, each once, in ascending order. */
  ghost predicate SortedListing(keys: seq<string>, listed: set<string>) {
    Ascending(keys) && forall k :: k in keys <==> k in listed
  }

  /** `sort.Strings`, on the distinct keys of a listing that may come in any order. */
  method SortKeys(listed: set<string>) returns (keys: seq<string>)
    ensures SortedListing(keys, listed)
  {
    keys := [];
    var rest := listed;
    while rest != {}
      invariant rest <= listed && SortedListing(keys, listed - rest)
      decreases rest
    {
      var key :| key in rest;
      var i := 0;
      while i < |keys| && Before(keys[i], key)
        invariant 0 <= i <= |keys| && forall j | 0 <= j < i :: Before(keys[j], key)
      {
        i := i + 1;
      }
      forall j | i <= j < |keys| ensures Before(key, keys[j]) {
        BeforeTotal(key, keys[i]);
        assert keys[i] in keys;
        if j > i { BeforeTransitive(key, keys[i], keys[j]); }
      }
      rest := rest - {key};
      ghost var before := keys;
      keys := keys[..i] + [key] + keys[i..];
      assert forall k :: k in keys <==> k in before || k == key;
    }
  }

  lemma HeadListed(keys: seq<string>, listed: set<string>)
    requires keys != [] && SortedListing(keys, listed)
    ensures keys[0] in listed
  {
    assert keys[0] in keys;
  }

  lemma {:induction false} SortedListingUnique(a: seq<string>, b: seq<string>, listed: set<string>)
    requires SortedListing(a, listed) && SortedListing(b, listed)
    ensures a == b
    decreases |a|
  {
    if a == [] {
      if b != [] { HeadListed(b, listed); }
    } else {
      assert a[0] in listed && a[0] in b;
      var i :| 0 <= i < |b| && b[i] == a[0];
      assert b[0] in listed && b[0] in a;
      var j :| 0 <= j < |a| && a[j] == b[0];
      SameHead(a, b, i, j);
      TailListing(a, listed);
      TailListing(b, listed);
      SortedListingUnique(a[1..], b[1..], listed - {a[0]});
    }
  }

  lemma SameHead(a: seq<string>, b: seq<string>, i: nat, j: nat)
    requires Ascending(a) && Ascending(b) && i < |b| && j < |a| && b[i] == a[0] && a[j] == b[0]
    ensures a[0] == b[0]
  {
    if i > 0 && j > 0 {
      BeforeTransitive(a[0], a[j], b[i]);
      NotBeforeSelf(a[0]);
    }
  }

  lemma TailListing(a: seq<string>, listed: set<string>)
    requires a != [] && SortedListing(a, listed)
    ensures SortedListing(a[1..], listed - {a[0]})
  {
    forall k ensures k in a[1..] <==> k in listed - {a[0]} {
      if k in a[1..] {
        var i :| 0 <= i < |a[1..]| && a[1..][i] == k;
        assert a[i + 1] == k && Before(a[0], k);
        NotBeforeSelf(k);
      }
    }
  }

  // ---- the store ----

  function Listed(bucket: map<string, Message>, prefix: string): set<string> {
    set key | key in bucket && prefix <= key
  }

  function SeqsIn(bucket: map<string, Message>, prefix: string): set<nat> {
    set key | key in bucket && SeqOf(prefix, key).Some? :: SeqOf(prefix, key).value
  }

  ghost function MaxOf(s: set<nat>): (m: nat)
    ensures (forall n | n in s :: n <= m) && (m == 0 || m in s)
  {
    if s == {} then 0 else
      var n :| n in s;
      var rest := MaxOf(s - {n});
      assert s == (s - {n}) + {n};
      if n > rest then n else rest
  }

  predicate SeqAtMost(prefix: string, key: string, m: nat) {
    match SeqOf(prefix, key)
    case None => true
    case Some(n) => n <= m
  }

  lemma HighestIsMax(bucket: map<string, Message>, prefix: string, m: nat)
    requires forall key | key in Listed(bucket, prefix) :: SeqAtMost(prefix, key, m)
    requires m == 0 || m in SeqsIn(bucket, prefix)
    ensures m == MaxOf(SeqsIn(bucket, prefix))
  {
    var top := MaxOf(SeqsIn(bucket, prefix));
    if top != 0 {
      var key :| key in bucket && SeqOf(prefix, key).Some? && SeqOf(prefix, key).value == top;
      assert SeqAtMost(prefix, key, m);
    }
  }

  function MessagesAt(bucket: map<string, Message>, keys: seq<string>): (msgs: seq<Message>)
    requires forall k | k in keys :: k in bucket
    ensures |msgs| == |keys| && forall i | 0 <= i < |keys| :: msgs[i] == bucket[keys[i]]
  {
    if keys == [] then [] else [bucket[keys[0]]] + MessagesAt(bucket, keys[1..])
  }

  /** A store for one thread; the bucket outlives it and may hold other threads' objects. */
  class MinIOMessageStore {
    const tenant: string
    const thread: string
    const counter: Counter
    var bucket: map<string, Message>
    var seq_: nat

    /** A fresh process on an existing bucket: the counter starts at zero. */
    constructor (tenant: string, thread: string, counter: Counter, bucket: map<string, Message>)
      ensures this.tenant == tenant && this.thread == thread && this.counter == counter && this.bucket == bucket && seq_ == 0
    {
      this.tenant, this.thread, this.counter, this.bucket, this.seq_ := tenant, thread, counter, bucket, 0;
    }

    method Append(msg: Message)
      modifies this
      ensures seq_ == old(seq_) + 1 && bucket == old(bucket)[ObjectKey(tenant, thread, seq_) := msg]
    {
      seq_ := seq_ + 1;
      bucket := bucket[ObjectKey(tenant, thread, seq_) := msg];
    }

    /** Finds the highest sequence number among the listed keys. */
    method Restore()
      modifies this`seq_
      ensures seq_ == MaxOf(SeqsIn(bucket, Prefix(tenant, thread)))
    {
      var maxSeq := 0;
      ghost var prefix := Prefix(tenant, thread);
      var rest := Listed(bucket, Prefix(tenant, thread));
      while rest != {}
        invariant rest <= Listed(bucket, prefix)
        invariant forall key | key in Listed(bucket, prefix) - rest :: SeqAtMost(prefix, key, maxSeq)
        invariant maxSeq == 0 || maxSeq in SeqsIn(bucket, prefix)
        decreases rest
      {
        var key :| key in rest;
        rest := rest - {key};
        ghost var before := maxSeq;
        var n := SeqOf(Prefix(tenant, thread), key);
        if n.Some? && n.value > maxSeq {
          maxSeq := n.value;
        }
        forall k | k in Listed(bucket, prefix) - rest ensures SeqAtMost(prefix, k, maxSeq) {
          assert k == key || SeqAtMost(prefix, k, before);
        }
      }
      HighestIsMax(bucket, prefix, maxSeq);
      seq_ := maxSeq;
    }

    method ReadObjects(keys: seq<string>) returns (msgs: seq<Message>)
      requires forall k | k in keys :: k in bucket
      ensures msgs == MessagesAt(bucket, keys)
    {
      msgs := [];
      for i := 0 to |keys|
        invariant msgs == MessagesAt(bucket, keys)[..i]
      {
        assert keys[i] in keys;
        msgs := msgs + [bucket[keys[i]]];
      }
    }

    /** Reads the listed objects in key order and applies the token window. */
    method Window(maxTokens: int) returns (window: seq<Message>)
      ensures forall keys | SortedListing(keys, Listed(bucket, Prefix(tenant, thread))) ::
        IsWindow(MessagesAt(bucket, keys), maxTokens, counter, window)
    {
      var listed := Listed(bucket, Prefix(tenant, thread));
      var keys := SortKeys(listed);
      var msgs := ReadObjects(keys);
      window := ApplyWindow(msgs, maxTokens, counter);
      forall other | SortedListing(other, listed) ensures other == keys {
        SortedListingUnique(other, keys, listed);
      }
    }
  }

  // ---- one writer, restarts, and other threads' writers ----

  datatype World = World(bucket: map<string, Message>, counter: nat, appended: seq<Message>)

  datatype Action =
    | Append(msg: Message)
    | Restart                                                            // a new process that calls Restore
    | BlankRestart                                                       // a new process that does not
    | Foreign(tenant: string, thread: string, n: nat, msg: Message)      // a store of another thread

  ghost function Step(tenant: string, thread: string, w: World, a: Action): World {
    match a
    case Append(msg) =>
      World(w.bucket[ObjectKey(tenant, thread, w.counter + 1) := msg], w.counter + 1, w.appended + [msg])
    case Restart => w.(counter := MaxOf(SeqsIn(w.bucket, Prefix(tenant, thread))))
    case BlankRestart => w.(counter := 0)
    case Foreign(tenant', thread', n, msg) => w.(bucket := w.bucket[ObjectKey(tenant', thread', n) := msg])
  }

  ghost function Run(tenant: string, thread: string, actions: seq<Action>): World {
    if actions == [] then World(map[], 0, [])
    else Step(tenant, thread, Run(tenant, thread, actions[..|actions| - 1]), actions[|actions| - 1])
  }

  /** The other stores serve other threads, and no name contains a slash. */
  ghost predicate OthersElsewhere(tenant: string, thread: string, actions: seq<Action>) {
    && SlashFree(tenant) && SlashFree(thread)
    && forall a | a in actions && a.Foreign? ::
         SlashFree(a.tenant) && SlashFree(a.thread) && (a.tenant != tenant || a.thread != thread)
  }

  /** Where the counter stands after a run, and the highest number written so far: both follow from
      the appends and restarts alone. */
  datatype Mark = Mark(counter: nat, height: nat)

  function MarkOf(actions: seq<Action>): (m: Mark)
    ensures m.counter <= m.height
  {
    if actions == [] then Mark(0, 0)
    else
      var m := MarkOf(actions[..|actions| - 1]);
      match actions[|actions| - 1]
      case Append(_) => Mark(m.counter + 1, if m.counter == m.height then m.height + 1 else m.height)
      case Restart => m.(counter := m.height)
      case BlankRestart => m.(counter := 0)
      case Foreign(_, _, _, _) => m
  }

  /** Every append comes when the counter stands at the highest number written. */
  predicate Careful(actions: seq<Action>) {
    actions == [] || (Careful(actions[..|actions| - 1])
                      && (actions[|actions| - 1].Append? ==>
                            MarkOf(actions[..|actions| - 1]).counter == MarkOf(actions[..|actions| - 1]).height))
  }

  predicate NoBlankRestart(actions: seq<Action>) {
    forall a <- actions :: !a.BlankRestart?
  }

  /** Runs whose restarts all call `Restore` are careful. */
  lemma {:induction false} RestoredIsCareful(actions: seq<Action>)
    requires NoBlankRestart(actions)
    ensures Careful(actions) && MarkOf(actions).counter == MarkOf(actions).height
    decreases |actions|
  {
    if actions != [] {
      assert actions[|actions| - 1] in actions;
      RestoredIsCareful(actions[..|actions| - 1]);
    }
  }

  lemma PrefixIsolated(tenant: string, thread: string, tenant': string, thread': string, n: nat)
    requires SlashFree(tenant) && SlashFree(thread) && SlashFree(tenant') && SlashFree(thread')
    requires Prefix(tenant, thread) <= ObjectKey(tenant', thread', n)
    ensures tenant == tenant' && thread == thread'
  {
    var key, numeral := ObjectKey(tenant', thread', n), Padded(n, WIDTH) + SUFFIX;
    assert key == Prefix(tenant', thread') + numeral;
    PrefixesDiffer(tenant, thread, key[|Prefix(tenant, thread)|..], tenant', thread', numeral);
  }

  lemma PrefixesDiffer(tenant: string, thread: string, rest: string, tenant': string, thread': string, rest': string)
    requires SlashFree(tenant) && SlashFree(thread) && SlashFree(tenant') && SlashFree(thread')
    requires Prefix(tenant, thread) + rest == Prefix(tenant', thread') + rest'
    ensures tenant == tenant' && thread == thread'
  {
    assert Prefix(tenant, thread) + rest == tenant + "/" + (thread + "/" + rest);
    assert Prefix(tenant', thread') + rest' == tenant' + "/" + (thread' + "/" + rest');
    SplitAtSlash(tenant, thread + "/" + rest, tenant', thread' + "/" + rest');
    SplitAtSlash(thread, rest, thread', rest');
  }

  /** The thread's objects are those numbered from one to the height. */
  ghost predicate Numbered(tenant: string, thread: string, bucket: map<string, Message>, height: nat) {
    && (forall i {:trigger ObjectKey(tenant, thread, i)} | 1 <= i <= height :: ObjectKey(tenant, thread, i) in bucket)
    && (forall key | key in bucket && Prefix(tenant, thread) <= key :: IsNumbered(tenant, thread, key, height))
  }

  ghost predicate IsNumbered(tenant: string, thread: string, key: string, height: nat) {
    exists i {:trigger ObjectKey(tenant, thread, i)} :: 1 <= i <= height && key == ObjectKey(tenant, thread, i)
  }

  ghost predicate Invariant(tenant: string, thread: string, w: World, m: Mark) {
    && w.counter == m.counter <= m.height
    && Numbered(tenant, thread, w.bucket, m.height)
  }

  /** The counter after a restart with `Restore` is the height. */
  lemma RestoreFindsHeight(tenant: string, thread: string, bucket: map<string, Message>, height: nat)
    requires Numbered(tenant, thread, bucket, height)
    ensures MaxOf(SeqsIn(bucket, Prefix(tenant, thread))) == height
  {
    var prefix := Prefix(tenant, thread);
    forall n | n in SeqsIn(bucket, prefix) ensures n <= height {
      var key :| key in bucket && SeqOf(prefix, key) == Some(n);
      assert IsNumbered(tenant, thread, key, height);
      var i :| 1 <= i <= height && key == ObjectKey(tenant, thread, i);
      SeqOfKey(tenant, thread, i);
    }
    if height > 0 {
      SeqOfKey(tenant, thread, height);
      assert ObjectKey(tenant, thread, height) in bucket;
      assert height in SeqsIn(bucket, prefix);
    }
  }

  /** An object of a number is there exactly up to the height. */
  lemma StoredUpTo(tenant: string, thread: string, bucket: map<string, Message>, height: nat, n: nat)
    requires Numbered(tenant, thread, bucket, height) && n >= 1
    ensures ObjectKey(tenant, thread, n) in bucket <==> n <= height
  {
    var key := ObjectKey(tenant, thread, n);
    if key in bucket {
      assert IsNumbered(tenant, thread, key, height);
      var i :| 1 <= i <= height && key == ObjectKey(tenant, thread, i);
      KeysDistinct(tenant, thread, i, n);
    }
  }

  lemma WriteKeepsNumbered(tenant: string, thread: string, bucket: map<string, Message>, height: nat, n: nat, msg: Message)
    requires Numbered(tenant, thread, bucket, height) && 1 <= n <= height + 1
    ensures Numbered(tenant, thread, bucket[ObjectKey(tenant, thread, n) := msg], if n <= height then height else n)
  {
    var key, bucket', height' := ObjectKey(tenant, thread, n), bucket[ObjectKey(tenant, thread, n) := msg], if n <= height then height else n;
    forall i | 1 <= i <= height' ensures ObjectKey(tenant, thread, i) in bucket' {
      if i <= height { assert ObjectKey(tenant, thread, i) in bucket; }
    }
    forall k | k in bucket' && Prefix(tenant, thread) <= k ensures IsNumbered(tenant, thread, k, height') {
      if k != key {
        assert IsNumbered(tenant, thread, k, height);
        var i :| 1 <= i <= height && k == ObjectKey(tenant, thread, i);
        assert 1 <= i <= height';
      }
    }
  }

  lemma ForeignKeyApart(tenant: string, thread: string, tenant': string, thread': string, n: nat)
    requires SlashFree(tenant) && SlashFree(thread) && SlashFree(tenant') && SlashFree(thread')
    requires tenant' != tenant || thread' != thread
    ensures !(Prefix(tenant, thread) <= ObjectKey(tenant', thread', n))
    ensures forall i :: ObjectKey(tenant, thread, i) != ObjectKey(tenant', thread', n)
  {
    if Prefix(tenant, thread) <= ObjectKey(tenant', thread', n) { PrefixIsolated(tenant, thread, tenant', thread', n); }
    forall i ensures ObjectKey(tenant, thread, i) != ObjectKey(tenant', thread', n) {
      assert Prefix(tenant, thread) <= ObjectKey(tenant, thread, i);
    }
  }

  lemma StepKeepsInvariant(tenant: string, thread: string, actions: seq<Action>, a: Action)
    requires OthersElsewhere(tenant, thread, actions + [a])
    requires Invariant(tenant, thread, Run(tenant, thread, actions), MarkOf(actions))
    ensures Invariant(tenant, thread, Run(tenant, thread, actions + [a]), MarkOf(actions + [a]))
  {
    assert (actions + [a])[..|actions|] == actions && a in actions + [a];
    var w, m := Run(tenant, thread, actions), MarkOf(actions);
    match a
    case Append(msg) => WriteKeepsNumbered(tenant, thread, w.bucket, m.height, w.counter + 1, msg);
    case Restart => RestoreFindsHeight(tenant, thread, w.bucket, m.height);
    case BlankRestart =>
    case Foreign(tenant', thread', n, msg) => ForeignKeyApart(tenant, thread, tenant', thread', n);
  }

  lemma {:induction false} RunKeepsInvariant(tenant: string, thread: string, actions: seq<Action>)
    requires OthersElsewhere(tenant, thread, actions)
    ensures Invariant(tenant, thread, Run(tenant, thread, actions), MarkOf(actions))
    decreases |actions|
  {
    if actions == [] {
      assert Numbered(tenant, thread, map[], 0);
    } else {
      var front, a := actions[..|actions| - 1], actions[|actions| - 1];
      assert actions == front + [a];
      RunKeepsInvariant(tenant, thread, front);
      StepKeepsInvariant(tenant, thread, front, a);
    }
  }

  /** In every run, restarts without `Restore` and other threads' writes included: the next append
      overwrites an object exactly when the counter stands below the highest number written.  For a
      fresh process that did not call `Restore` this means: exactly when the thread has a message. */
  lemma AppendOverwritesIff(tenant: string, thread: string, actions: seq<Action>)
    requires OthersElsewhere(tenant, thread, actions)
    ensures var w, m := Run(tenant, thread, actions), MarkOf(actions);
            && (ObjectKey(tenant, thread, w.counter + 1) in w.bucket <==> m.counter < m.height)
            && (ObjectKey(tenant, thread, 1) in w.bucket <==> w.appended != [])
  {
    RunKeepsInvariant(tenant, thread, actions);
    var w, m := Run(tenant, thread, actions), MarkOf(actions);
    StoredUpTo(tenant, thread, w.bucket, m.height, w.counter + 1);
    StoredUpTo(tenant, thread, w.bucket, m.height, 1);
    CarefulCounts(tenant, thread, actions);
  }

  /** Appends and numbers written: as many, exactly in a careful run. */
  lemma {:induction false} CarefulCounts(tenant: string, thread: string, actions: seq<Action>)
    ensures MarkOf(actions).height <= |Run(tenant, thread, actions).appended|
    ensures MarkOf(actions).height == |Run(tenant, thread, actions).appended| <==> Careful(actions)
    ensures MarkOf(actions).height == 0 <==> Run(tenant, thread, actions).appended == []
    decreases |actions|
  {
    if actions != [] { CarefulCounts(tenant, thread, actions[..|actions| - 1]); }
  }

  /** Every message is stored under the number of its append. */
  ghost predicate AllKept(tenant: string, thread: string, w: World) {
    forall i {:trigger ObjectKey(tenant, thread, i)} | 1 <= i <= |w.appended| ::
      ObjectKey(tenant, thread, i) in w.bucket && w.bucket[ObjectKey(tenant, thread, i)] == w.appended[i - 1]
  }

  lemma AppendKeepsAll(tenant: string, thread: string, w: World, msg: Message)
    requires AllKept(tenant, thread, w) && w.counter == |w.appended|
    ensures AllKept(tenant, thread, Step(tenant, thread, w, Append(msg)))
  {
    var w' := Step(tenant, thread, w, Append(msg));
    forall i | 1 <= i <= |w'.appended|
      ensures ObjectKey(tenant, thread, i) in w'.bucket && w'.bucket[ObjectKey(tenant, thread, i)] == w'.appended[i - 1]
    {
      if i <= |w.appended| {
        assert ObjectKey(tenant, thread, i) in w.bucket;
        KeysApart(tenant, thread, i, w.counter + 1);
      }
    }
  }

  lemma ForeignKeepsAll(tenant: string, thread: string, w: World, a: Action)
    requires AllKept(tenant, thread, w) && a.Foreign?
    requires SlashFree(tenant) && SlashFree(thread) && SlashFree(a.tenant) && SlashFree(a.thread)
    requires a.tenant != tenant || a.thread != thread
    ensures AllKept(tenant, thread, Step(tenant, thread, w, a))
  {
    ForeignKeyApart(tenant, thread, a.tenant, a.thread, a.n);
  }

  lemma {:induction false} CarefulKeepsAll(tenant: string, thread: string, actions: seq<Action>)
    requires OthersElsewhere(tenant, thread, actions) && Careful(actions)
    ensures AllKept(tenant, thread, Run(tenant, thread, actions))
    decreases |actions|
  {
    if actions != [] {
      var front, a := actions[..|actions| - 1], actions[|actions| - 1];
      CarefulKeepsAll(tenant, thread, front);
      var w := Run(tenant, thread, front);
      if a.Append? {
        CarefulCounts(tenant, thread, front);
        RunKeepsInvariant(tenant, thread, front);
        AppendKeepsAll(tenant, thread, w, a.msg);
      } else if a.Foreign? {
        assert a in actions;
        ForeignKeepsAll(tenant, thread, w, a);
      }
    }
  }

  lemma KeysApart(tenant: string, thread: string, n: nat, m: nat)
    requires n != m
    ensures ObjectKey(tenant, thread, n) != ObjectKey(tenant, thread, m)
  {
    if ObjectKey(tenant, thread, n) == ObjectKey(tenant, thread, m) { KeysDistinct(tenant, thread, n, m); }
  }

  lemma {:induction false} ObjectCount(tenant: string, thread: string, n: nat)
    ensures |(set k | k in KeysUpTo(tenant, thread, n))| == n
  {
    var keys := KeysUpTo(tenant, thread, n);
    if n == 0 {
      assert (set k | k in keys) == {};
    } else {
      var front := KeysUpTo(tenant, thread, n - 1);
      ObjectCount(tenant, thread, n - 1);
      forall k | k in front ensures k != ObjectKey(tenant, thread, n) {
        var i :| 0 <= i < |front| && front[i] == k;
        KeysApart(tenant, thread, i + 1, n);
      }
      assert keys == front + [ObjectKey(tenant, thread, n)];
      assert (set k | k in keys) == (set k | k in front) + {ObjectKey(tenant, thread, n)};
    }
  }

  lemma ListedAreNumbered(tenant: string, thread: string, bucket: map<string, Message>, height: nat)
    requires Numbered(tenant, thread, bucket, height)
    ensures Listed(bucket, Prefix(tenant, thread)) == set k | k in KeysUpTo(tenant, thread, height)
  {
    var keys, listed := KeysUpTo(tenant, thread, height), Listed(bucket, Prefix(tenant, thread));
    forall key ensures key in listed <==> key in keys {
      if key in listed {
        assert IsNumbered(tenant, thread, key, height);
        var i :| 1 <= i <= height && key == ObjectKey(tenant, thread, i);
        assert keys[i - 1] == key;
      }
      if key in keys {
        var i :| 0 <= i < |keys| && keys[i] == key;
        assert key == ObjectKey(tenant, thread, i + 1) && Prefix(tenant, thread) <= key;
      }
    }
  }

  /** Over a whole run: the thread has as many objects as messages were appended, and each message
      under its own number, exactly when every append came with the counter at the highest number
      written.  Otherwise it has fewer objects than messages, so messages are lost. */
  lemma MessagesKeptIff(tenant: string, thread: string, actions: seq<Action>)
    requires OthersElsewhere(tenant, thread, actions)
    ensures var w := Run(tenant, thread, actions);
            var objects := |Listed(w.bucket, Prefix(tenant, thread))|;
            && (objects == |w.appended| <==> Careful(actions))
            && (AllKept(tenant, thread, w) <==> Careful(actions))
            && (!Careful(actions) ==> objects < |w.appended|)
  {
    RunKeepsInvariant(tenant, thread, actions);
    CarefulCounts(tenant, thread, actions);
    var w, height := Run(tenant, thread, actions), MarkOf(actions).height;
    ListedAreNumbered(tenant, thread, w.bucket, height);
    ObjectCount(tenant, thread, height);
    if Careful(actions) {
      CarefulKeepsAll(tenant, thread, actions);
    } else {
      StoredUpTo(tenant, thread, w.bucket, height, |w.appended|);
    }
  }

  /** Across any number of restarts that call `Restore`, and whatever other threads store, no append
      overwrites an object and every appended message is still stored under its number. */
  lemma NothingOverwritten(tenant: string, thread: string, actions: seq<Action>)
    requires OthersElsewhere(tenant, thread, actions) && NoBlankRestart(actions)
    ensures var w := Run(tenant, thread, actions);
            ObjectKey(tenant, thread, w.counter + 1) !in w.bucket && AllKept(tenant, thread, w)
  {
    RestoredIsCareful(actions);
    AppendOverwritesIff(tenant, thread, actions);
    MessagesKeptIff(tenant, thread, actions);
  }

  function KeysUpTo(tenant: string, thread: string, n: nat): (keys: seq<string>)
    ensures |keys| == n && forall i | 0 <= i < n :: keys[i] == ObjectKey(tenant, thread, i + 1)
  {
    if n == 0 then [] else KeysUpTo(tenant, thread, n - 1) + [ObjectKey(tenant, thread, n)]
  }

  lemma AppendOrderHolds(tenant: string, thread: string, n: nat)
    requires n < Pow10(WIDTH)
    ensures Ascending(KeysUpTo(tenant, thread, n))
  {
    forall i: nat, j: nat | i < j <= n ensures KeysOrdered(tenant, thread, i, j) {
      KeyOrder(tenant, thread, i, j);
    }
    OrderedKeysAscend(tenant, thread, n);
  }

  ghost predicate KeysOrdered(tenant: string, thread: string, i: nat, j: nat) {
    Before(ObjectKey(tenant, thread, i), ObjectKey(tenant, thread, j))
  }

  lemma OrderedKeysAscend(tenant: string, thread: string, n: nat)
    requires forall i: nat, j: nat | i < j <= n :: KeysOrdered(tenant, thread, i, j)
    ensures Ascending(KeysUpTo(tenant, thread, n))
  {
    var keys := KeysUpTo(tenant, thread, n);
    forall i, j | 0 <= i < j < n ensures Before(keys[i], keys[j]) {
      assert KeysOrdered(tenant, thread, i + 1, j + 1);
    }
  }

  lemma AppendOrderFails(tenant: string, thread: string, n: nat)
    requires n >= Pow10(WIDTH)
    ensures !Ascending(KeysUpTo(tenant, thread, n))
  {
    PowerAboveOne(WIDTH);
    KeyOrderBreaks(tenant, thread);
    OneBreakSuffices(tenant, thread, n, Pow10(WIDTH));
  }

  lemma OneBreakSuffices(tenant: string, thread: string, n: nat, last: nat)
    requires 2 <= last <= n && KeysOrdered(tenant, thread, last, last - 1)
    ensures !Ascending(KeysUpTo(tenant, thread, n))
  {
    var keys := KeysUpTo(tenant, thread, n);
    assert Before(keys[last - 1], keys[last - 2]);
    if Before(keys[last - 2], keys[last - 1]) {
      BeforeTransitive(keys[last - 2], keys[last - 1], keys[last - 2]);
      NotBeforeSelf(keys[last - 2]);
    }
  }

  lemma PowerAboveOne(k: nat)
    requires k > 0
    ensures Pow10(k) >= 2
  {
  }

  /** The listing comes back in append order exactly as long as sixteen digits suffice. */
  lemma AppendOrderExact(tenant: string, thread: string, n: nat, keys: seq<string>)
    requires SortedListing(keys, set key | key in KeysUpTo(tenant, thread, n))
    ensures keys == KeysUpTo(tenant, thread, n) <==> n < Pow10(WIDTH)
  {
    if n < Pow10(WIDTH) {
      AppendOrderHolds(tenant, thread, n);
      SortedListingUnique(keys, KeysUpTo(tenant, thread, n), set key | key in KeysUpTo(tenant, thread, n));
    } else {
      AppendOrderFails(tenant, thread, n);
    }
  }

  /** In a careful run, restarts included, an unbounded window returns the messages in append order
      while there are fewer than 10^16 of them. */
  lemma WindowInAppendOrder(tenant: string, thread: string, actions: seq<Action>, keys: seq<string>)
    requires OthersElsewhere(tenant, thread, actions) && Careful(actions)
    requires SortedListing(keys, Listed(Run(tenant, thread, actions).bucket, Prefix(tenant, thread)))
    requires |Run(tenant, thread, actions).appended| < Pow10(WIDTH)
    ensures MessagesAt(Run(tenant, thread, actions).bucket, keys) == Run(tenant, thread, actions).appended
  {
    var w := Run(tenant, thread, actions);
    RunKeepsInvariant(tenant, thread, actions);
    CarefulCounts(tenant, thread, actions);
    CarefulKeepsAll(tenant, thread, actions);
    ListedAreNumbered(tenant, thread, w.bucket, |w.appended|);
    AppendOrderExact(tenant, thread, |w.appended|, keys);
    forall i | 0 <= i < |keys| ensures MessagesAt(w.bucket, keys)[i] == w.appended[i] {
      assert keys[i] == ObjectKey(tenant, thread, i + 1);
    }
  }
}
