/** The Redis keys of the prompt cache (`pkg/prompt/cache.go`, `redisKey` and `extractTenantID`). */
module PromptKeys {
  import opened Wrappers

  const SEPARATOR := ":prompt:"

  function RedisKey(tenant: string, slug: string): string {
    tenant + SEPARATOR + slug
  }

  predicate MatchAt(s: string, i: nat) {
    i + 8 <= |s| && s[i..i + 8] == SEPARATOR
  }

  /** `strings.Index(s, ":prompt:")`, searching from position `i`. */
  function IndexFrom(s: string, i: nat): (r: Option<nat>)
    requires i <= |s|
    ensures r.Some? ==> i <= r.value && MatchAt(s, r.value) && forall k | i <= k < r.value :: !MatchAt(s, k)
    ensures r.None? ==> forall k | i <= k :: !MatchAt(s, k)
    decreases |s| - i
  {
    if MatchAt(s, i) then Some(i)
    else if i == |s| then None
    else IndexFrom(s, i + 1)
  }

  function ExtractTenantID(key: string): string {
    match IndexFrom(key, 0)
    case None => ""
    case Some(i) => key[..i]
  }

  /** A tenant name that the separator cannot be mistaken for a part of. */
  predicate Separable(tenant: string) {
    (forall i | 0 <= i < |tenant| :: !MatchAt(tenant, i))
    && !(|tenant| >= 7 && tenant[|tenant| - 7..] == ":prompt")
  }

  lemma MatchInside(tenant: string, slug: string, i: nat)
    requires i + 8 <= |tenant|
    ensures MatchAt(RedisKey(tenant, slug), i) <==> MatchAt(tenant, i)
  {
    assert RedisKey(tenant, slug)[i..i + 8] == tenant[i..i + 8];
  }

  /** The separator overlaps a shifted copy of itself only by its last colon. */
  lemma MatchAcross(tenant: string, slug: string, i: nat)
    requires i < |tenant| < i + 8
    ensures MatchAt(RedisKey(tenant, slug), i) <==> (i + 7 == |tenant| && tenant[i..] == ":prompt")
  {
    var key, d := RedisKey(tenant, slug), |tenant| - i;
    var window := key[i..i + 8];
    assert window[d] == key[|tenant|] == ':';
    if MatchAt(key, i) {
      assert window == SEPARATOR && SEPARATOR[d] == ':';
      assert d == 7;
      assert tenant[i..] == window[..7];
    }
    if d == 7 && tenant[i..] == ":prompt" {
      assert window == tenant[i..] + [key[|tenant|]];
    }
  }

  lemma MatchAtBoundary(tenant: string, slug: string)
    ensures MatchAt(RedisKey(tenant, slug), |tenant|)
  {
    assert RedisKey(tenant, slug)[|tenant|..|tenant| + 8] == SEPARATOR;
  }

  /** The tenant is recovered from its keys exactly when it neither contains the separator nor ends
      with all of it but the last colon. */
  lemma ExtractionExact(tenant: string, slug: string)
    ensures ExtractTenantID(RedisKey(tenant, slug)) == tenant <==> Separable(tenant)
  {
    var key := RedisKey(tenant, slug);
    MatchAtBoundary(tenant, slug);
    var i := IndexFrom(key, 0).value;
    assert i <= |tenant| && key[..|tenant|] == tenant;
    if i < |tenant| {
      if i + 8 <= |tenant| { MatchInside(tenant, slug, i); } else { MatchAcross(tenant, slug, i); }
    } else {
      forall k | 0 <= k < |tenant| ensures !MatchAt(tenant, k) {
        if k + 8 <= |tenant| { MatchInside(tenant, slug, k); }
      }
      if |tenant| >= 7 && tenant[|tenant| - 7..] == ":prompt" { MatchAcross(tenant, slug, |tenant| - 7); }
    }
  }

  /** Distinct pairs have distinct keys as long as both tenants are separable. */
  lemma KeysUnique(tenant: string, slug: string, tenant': string, slug': string)
    requires Separable(tenant) && Separable(tenant') && RedisKey(tenant, slug) == RedisKey(tenant', slug')
    ensures tenant == tenant' && slug == slug'
  {
    ExtractionExact(tenant, slug);
    ExtractionExact(tenant', slug');
    assert slug == RedisKey(tenant, slug)[|tenant| + 8..];
    assert slug' == RedisKey(tenant', slug')[|tenant'| + 8..];
  }

  /** What is extracted from a key names a separable tenant, and the key is one of that tenant's. */
  lemma ExtractedIsSeparable(tenant: string, slug: string)
    ensures var key := RedisKey(tenant, slug);
            var owner := ExtractTenantID(key);
            && Separable(owner) && |owner| + 8 <= |key| && key == RedisKey(owner, key[|owner| + 8..])
  {
    var key := RedisKey(tenant, slug);
    MatchAtBoundary(tenant, slug);
    var i := IndexFrom(key, 0).value;
    var owner, rest := key[..i], key[i + 8..];
    assert key[i..i + 8] == SEPARATOR;
    assert key == RedisKey(owner, rest);
    assert ExtractTenantID(RedisKey(owner, rest)) == owner;
    ExtractionExact(owner, rest);
  }

  /** A tenant's keys are its own against all separable tenants exactly when it is separable itself.
      Otherwise every one of its keys is also a key of another tenant. */
  lemma KeysOwnIffSeparable(tenant: string, slug: string)
    ensures Separable(tenant)
            <==> forall t, s | Separable(t) && RedisKey(t, s) == RedisKey(tenant, slug) :: t == tenant && s == slug
    ensures !Separable(tenant) ==> exists t, s :: t != tenant && RedisKey(t, s) == RedisKey(tenant, slug)
  {
    if Separable(tenant) {
      forall t, s | Separable(t) && RedisKey(t, s) == RedisKey(tenant, slug) ensures t == tenant && s == slug {
        KeysUnique(t, s, tenant, slug);
      }
    } else {
      ExtractedIsSeparable(tenant, slug);
      var key := RedisKey(tenant, slug);
      var owner := ExtractTenantID(key);
      assert RedisKey(owner, key[|owner| + 8..]) == key && owner != tenant;
    }
  }

  /** Two tenants share a key, with whatever slugs, exactly when one of them followed by the separator
      is a prefix of the other followed by the separator. */
  lemma TenantsShareKeyIff(tenant: string, other: string)
    ensures (exists s, s' :: RedisKey(tenant, s) == RedisKey(other, s'))
            <==> tenant + SEPARATOR <= other + SEPARATOR || other + SEPARATOR <= tenant + SEPARATOR
  {
    var p, q := tenant + SEPARATOR, other + SEPARATOR;
    if s, s' :| RedisKey(tenant, s) == RedisKey(other, s') {
      var key := RedisKey(tenant, s);
      assert key[..|p|] == p && key[..|q|] == q;
      if |p| <= |q| { assert q[..|p|] == p; } else { assert p[..|q|] == q; }
    }
    if p <= q {
      assert RedisKey(tenant, q[|p|..]) == q == RedisKey(other, "");
    } else if q <= p {
      assert RedisKey(other, p[|q|..]) == p == RedisKey(tenant, "");
    }
  }
}
