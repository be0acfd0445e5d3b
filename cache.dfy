// The small cache the CVE lookups sit behind: the in-memory fallback store with
// per-entry expiry (get/set), the namespaced key builder and the choice of the
// Redis URL among the three settings that may hold one.

module Cache {
  import opened Wrappers
  import opened Text

  /** A stored value and the instant it expires at; `None` never expires. */
  datatype Entry<V> = Entry(value: V, expiresAt: Option<int>)

  /**
   * `expires_at and expires_at < time.time()`: an entry without an expiry, or whose
   * expiry is the falsy instant 0, is never stale; otherwise it is stale strictly
   * after its expiry.
   */
  predicate Expired<V>(e: Entry<V>, now: int) {
    e.expiresAt.Some? && e.expiresAt.value != 0 && e.expiresAt.value < now
  }

  /** `(time.time() + ttl) if ttl else None` */
  function ExpiryFor(ttl: int, now: int): (r: Option<int>)
    ensures r.None? <==> ttl == 0
    ensures r.Some? ==> r.value - now == ttl
  {
    if ttl != 0 then Some(now + ttl) else None
  }

  /** What get(key) answers at instant `now` from the store contents `m`. */
  function Served<V>(m: map<string, Entry<V>>, key: string, now: int): (r: Option<V>)
    ensures r.Some? <==> key in m && !Expired(m[key], now)
    ensures r.Some? ==> r.value == m[key].value
  {
    if key !in m then None
    else if Expired(m[key], now) then None
    else Some(m[key].value)
  }

  /** The store contents after get(key) at `now`: a stale entry under `key` is dropped. */
  function AfterGet<V>(m: map<string, Entry<V>>, key: string, now: int): (r: map<string, Entry<V>>)
    ensures forall k :: k in r <==> k in m && !(k == key && Expired(m[k], now))
    ensures forall k :: k in r ==> r[k] == m[k]
  {
    if key in m && Expired(m[key], now) then m - {key} else m
  }

  /** The store contents after set(key, value, ttl) at `now`. */
  function AfterSet<V>(m: map<string, Entry<V>>, key: string, value: V, ttl: int, now: int): map<string, Entry<V>> {
    m[key := Entry(value, ExpiryFor(ttl, now))]
  }

  /**
   * The module-level `_memory_store` dictionary together with get and set, used when
   * no Redis client is configured. The clock is the `now` argument.
   */
  class MemoryStore<V> {
    var entries: map<string, Entry<V>>

    constructor()
      ensures entries == map[]
    {
      entries := map[];
    }

    /** get(key): the stored value unless it is missing or stale; a stale entry is removed. */
    method Get(key: string, now: int) returns (r: Option<V>)
      modifies this
      ensures r == Served(old(entries), key, now)
      ensures entries == AfterGet(old(entries), key, now)
    {
      if key !in entries {
        return None;
      }
      var e := entries[key];
      var expiresAt := e.expiresAt.GetOr(0);
      if expiresAt != 0 && expiresAt < now {
        entries := entries - {key};
        return None;
      }
      return Some(e.value);
    }

    /** set(key, value, ttl): overwrite the entry under `key`, expiring `ttl` seconds from now. */
    method Set(key: string, value: V, ttl: int, now: int)
      modifies this
      ensures entries == AfterSet(old(entries), key, value, ttl, now)
    {
      entries := entries[key := Entry(value, ExpiryFor(ttl, now))];
    }
  }

  /** A value set with a ttl is served up to and including the instant it expires; ttl 0 keeps it forever. */
  lemma SetThenGet<V>(m: map<string, Entry<V>>, key: string, value: V, ttl: int, now: int, later: int)
    requires ttl == 0 || later <= now + ttl
    ensures Served(AfterSet(m, key, value, ttl, now), key, later) == Some(value)
  {
  }

  /** ... and after that instant it is gone (unless the expiry is the falsy instant 0). */
  lemma SetThenExpire<V>(m: map<string, Entry<V>>, key: string, value: V, ttl: int, now: int, later: int)
    requires ttl != 0 && now + ttl != 0 && now + ttl < later
    ensures Served(AfterSet(m, key, value, ttl, now), key, later) == None
  {
  }

  /** A negative ttl stores a value that no later get serves. */
  lemma NegativeTtlNeverServed<V>(m: map<string, Entry<V>>, key: string, value: V, ttl: int, now: int, later: int)
    requires ttl < 0 && now + ttl != 0 && now <= later
    ensures Served(AfterSet(m, key, value, ttl, now), key, later) == None
  {
  }

  /** set touches only its own key. */
  lemma SetLeavesOthers<V>(m: map<string, Entry<V>>, key: string, value: V, ttl: int, now: int, k: string, later: int)
    requires k != key
    ensures Served(AfterSet(m, key, value, ttl, now), k, later) == Served(m, k, later)
  {
  }

  /** Dropping a stale entry changes no answer: get is observably read-only, now and later. */
  lemma GetKeepsAnswers<V>(m: map<string, Entry<V>>, key: string, now: int, k: string, later: int)
    requires now <= later
    ensures Served(AfterGet(m, key, now), k, later) == Served(m, k, later)
  {
    if k == key && key in m && Expired(m[key], now) {
      assert Expired(m[key], later);
    }
  }

  /** Once stale, always stale. */
  lemma ExpiryIsPermanent<V>(e: Entry<V>, now: int, later: int)
    requires Expired(e, now) && now <= later
    ensures Expired(e, later)
  {
  }

  // ---------- cache_key ----------

  const KeyPrefix: string := "vulnscanner:"

  /** One part of a key: blanks become underscores, letters are lower-cased. */
  function SafePart(p: string): (r: string)
    ensures |r| == |p|
    ensures ' ' !in r
    ensures ':' !in p ==> ':' !in r
    ensures forall i :: 0 <= i < |r| ==> !IsUpper(r[i])
  {
    var r := Lower(ReplaceChar(p, ' ', '_'));
    assert forall i :: 0 <= i < |r| ==> r[i] != ' ';
    r
  }

  /** The parts that are kept (the non-empty ones), each made safe, in order. */
  function SafeParts(parts: seq<string>): (r: seq<string>)
    ensures |r| <= |parts|
    ensures forall i :: 0 <= i < |r| ==> r[i] != [] && ' ' !in r[i]
  {
    if parts == [] then []
    else if parts[0] == [] then SafeParts(parts[1..])
    else [SafePart(parts[0])] + SafeParts(parts[1..])
  }

  /** cache_key(*parts): "vulnscanner:" followed by the kept parts joined with ':'. */
  function CacheKey(parts: seq<string>): (k: string)
    ensures StartsWith(k, KeyPrefix)
    ensures ' ' !in k
  {
    JoinAvoids(SafeParts(parts), ':', ' ');
    KeyPrefix + Join(SafeParts(parts), ':')
  }

  predicate NoColon(parts: seq<string>) {
    forall i :: 0 <= i < |parts| ==> ':' !in parts[i]
  }

  lemma {:induction false} SafePartsNoColon(parts: seq<string>)
    requires NoColon(parts)
    ensures NoColon(SafeParts(parts))
  {
    if parts != [] {
      assert NoColon(parts[1..]);
      SafePartsNoColon(parts[1..]);
    }
  }

  /** Empty parts are skipped: leaving them out gives the same key. */
  lemma {:induction false} EmptyPartsSkipped(front: seq<string>, back: seq<string>)
    ensures CacheKey(front + [[]] + back) == CacheKey(front + back)
  {
    SkipInSafeParts(front, back);
  }

  lemma {:induction false} SkipInSafeParts(front: seq<string>, back: seq<string>)
    ensures SafeParts(front + [[]] + back) == SafeParts(front + back)
  {
    if front == [] {
      assert front + [[]] + back == [[]] + back;
      assert ([[]] + back)[1..] == back;
      assert front + back == back;
    } else {
      assert (front + [[]] + back)[0] == front[0];
      assert (front + [[]] + back)[1..] == front[1..] + [[]] + back;
      assert (front + back)[0] == front[0];
      assert (front + back)[1..] == front[1..] + back;
      SkipInSafeParts(front[1..], back);
    }
  }

  /** When no part holds ':', the kept parts can be read back by splitting the key after its prefix. */
  lemma CacheKeyParts(parts: seq<string>)
    requires NoColon(parts)
    requires SafeParts(parts) != []
    ensures Split(CacheKey(parts)[|KeyPrefix|..], ':') == SafeParts(parts)
  {
    SafePartsNoColon(parts);
    var k := CacheKey(parts);
    assert k[|KeyPrefix|..] == Join(SafeParts(parts), ':');
    SplitJoin(SafeParts(parts), ':');
  }

  /** Keys built from colon-free parts collide only when the kept, made-safe parts coincide. */
  lemma CacheKeyCollision(a: seq<string>, b: seq<string>)
    requires NoColon(a) && NoColon(b)
    requires SafeParts(a) != [] && SafeParts(b) != []
    requires CacheKey(a) == CacheKey(b)
    ensures SafeParts(a) == SafeParts(b)
  {
    CacheKeyParts(a);
    CacheKeyParts(b);
  }

  // ---------- _pick_redis_url ----------

  /**
   * `REDIS_URL or CELERY_RESULT_BACKEND or CELERY_BROKER_URL`, kept only when it is a
   * redis:// URL. The three settings are the arguments (`None` when unset).
   */
  function PickRedisUrl(redisUrl: Option<string>, resultBackend: Option<string>, brokerUrl: Option<string>): (r: Option<string>)
    ensures r.Some? ==> StartsWith(r.value, "redis://")
    ensures r.Some? ==> Some(r.value) in [redisUrl, resultBackend, brokerUrl]
  {
    var url := OrText(redisUrl, OrText(resultBackend, OrText(brokerUrl, "")));
    if url != [] && StartsWith(url, "redis://") then Some(url) else None
  }

  /**
   * The first setting that is set and non-empty decides alone: it is the answer when it is a
   * redis:// URL, and otherwise there is none, whatever the later settings hold.
   */
  lemma FirstSettingDecides(redisUrl: Option<string>, resultBackend: Option<string>, brokerUrl: Option<string>)
    ensures redisUrl.Some? && redisUrl.value != [] ==>
      PickRedisUrl(redisUrl, resultBackend, brokerUrl) == (if StartsWith(redisUrl.value, "redis://") then Some(redisUrl.value) else None)
    ensures (redisUrl.None? || redisUrl.value == []) && resultBackend.Some? && resultBackend.value != [] ==>
      PickRedisUrl(redisUrl, resultBackend, brokerUrl) == (if StartsWith(resultBackend.value, "redis://") then Some(resultBackend.value) else None)
    ensures (redisUrl.None? || redisUrl.value == []) && (resultBackend.None? || resultBackend.value == []) ==>
      PickRedisUrl(redisUrl, resultBackend, brokerUrl)
      == (if brokerUrl.Some? && StartsWith(brokerUrl.value, "redis://") then brokerUrl else None)
  {
  }
}
