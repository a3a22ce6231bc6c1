/**
 * The in-memory translation cache that both remote translators keep: a
 * JavaScript `Map` from `${text}_${sourceLang}_${targetLang}` to the
 * translated text and the time it was stored. Entries older than one hour
 * are purged lazily, on every read and every statistics request.
 *
 * The `Map` is modelled by its entries together with its key order (the
 * insertion order that `forEach` and `keys()` follow). `CacheState` is that
 * pair as a value, with the cache operations as functions over it; the
 * `TtlCache` class holds the same pair as mutable fields and its methods are
 * proved to perform those functions.
 */
module TranslationCache {
  import opened Wrappers
  import opened TranslationTypes
  import opened JsStrings

  /** `CACHE_EXPIRY_MS`: one hour in milliseconds. */
  const CacheExpiryMs: int := 60 * 60 * 1000

  datatype CacheItem = CacheItem(translatedText: Text, timestamp: int)

  datatype CacheState = CacheState(entries: map<Text, CacheItem>, order: seq<Text>)

  /** The language code written into cache keys. */
  function LangCode(lang: Language): (code: Text)
    ensures |code| == 2
  {
    if lang == Zh then "zh" else "ko"
  }

  /** `generateCacheKey`: `${text}_${sourceLang}_${targetLang}`. */
  function CacheKey(text: Text, sourceLang: Language, targetLang: Language): Text
  {
    text + "_" + LangCode(sourceLang) + "_" + LangCode(targetLang)
  }

  /** The key ends in a fixed-length suffix, so it determines all three parts. */
  lemma CacheKeyInjective(t1: Text, s1: Language, d1: Language, t2: Text, s2: Language, d2: Language)
    ensures CacheKey(t1, s1, d1) == CacheKey(t2, s2, d2) <==> t1 == t2 && s1 == s2 && d1 == d2
  {
    var k1 := CacheKey(t1, s1, d1);
    var k2 := CacheKey(t2, s2, d2);
    if k1 == k2 {
      assert |t1| == |t2|;
      assert t1 == k1[..|t1|] && t2 == k2[..|t2|];
      assert k1[|k1| - 5..|k1| - 3] == LangCode(s1) && k2[|k2| - 5..|k2| - 3] == LangCode(s2);
      assert k1[|k1| - 2..] == LangCode(d1) && k2[|k2| - 2..] == LangCode(d2);
      assert LangCode(Zh) != LangCode(Ko) by {
        assert LangCode(Zh)[0] != LangCode(Ko)[0];
      }
    }
  }

  /** An entry is expired when it was stored more than an hour before `now`. */
  predicate Expired(item: CacheItem, now: int)
  {
    now - item.timestamp > CacheExpiryMs
  }

  /** The key order lists every key of the map exactly once. */
  ghost predicate WellFormed(st: CacheState)
  {
    Distinct(st.order) && forall k :: k in st.entries <==> k in st.order
  }

  /** The keys of `order`, in order, whose entry has expired: those `cleanExpiredCache` collects. */
  function ExpiredKeys(order: seq<Text>, entries: map<Text, CacheItem>, now: int): seq<Text>
  {
    if |order| == 0 then []
    else
      var k := order[|order| - 1];
      var rest := ExpiredKeys(order[..|order| - 1], entries, now);
      if k in entries && Expired(entries[k], now) then rest + [k] else rest
  }

  /** `s` without the elements listed in `gone`, in order. */
  function Without(s: seq<Text>, gone: seq<Text>): seq<Text>
  {
    if |s| == 0 then []
    else
      var rest := Without(s[..|s| - 1], gone);
      if s[|s| - 1] in gone then rest else rest + [s[|s| - 1]]
  }

  /** The keys of `order` whose entry is still fresh. */
  function LiveOrder(order: seq<Text>, entries: map<Text, CacheItem>, now: int): seq<Text>
  {
    if |order| == 0 then []
    else
      var k := order[|order| - 1];
      var rest := LiveOrder(order[..|order| - 1], entries, now);
      if k in entries && Expired(entries[k], now) then rest else rest + [k]
  }

  /** The cache after `cleanExpiredCache()` at time `now`: exactly the fresh entries. */
  function Clean(st: CacheState, now: int): CacheState
  {
    CacheState(
      map k | k in st.entries && !Expired(st.entries[k], now) :: st.entries[k],
      LiveOrder(st.order, st.entries, now))
  }

  /** What `translationCache.get(key)?.translatedText || null` yields: a stored '' is a miss. */
  function Lookup(st: CacheState, key: Text): Option<Text>
  {
    if key in st.entries && st.entries[key].translatedText != [] then Some(st.entries[key].translatedText)
    else None
  }

  /** `getFromCache`: cleans, then looks the key up in the cleaned cache. */
  function Get(st: CacheState, text: Text, sourceLang: Language, targetLang: Language, now: int): (Option<Text>, CacheState)
  {
    var cleaned := Clean(st, now);
    (Lookup(cleaned, CacheKey(text, sourceLang, targetLang)), cleaned)
  }

  /** `Map.prototype.set`: a new key goes last, an existing key keeps its place. */
  function Set(st: CacheState, key: Text, item: CacheItem): CacheState
  {
    CacheState(st.entries[key := item], if key in st.order then st.order else st.order + [key])
  }

  /** `saveToCache`: stores `result` under the key with timestamp `now`. */
  function Save(st: CacheState, text: Text, sourceLang: Language, targetLang: Language, result: Text, now: int): CacheState
  {
    Set(st, CacheKey(text, sourceLang, targetLang), CacheItem(result, now))
  }

  /** `getCacheStats`: the size and keys of the cleaned cache. */
  function Stats(st: CacheState, now: int): (nat, seq<Text>)
  {
    var cleaned := Clean(st, now);
    (|cleaned.entries|, cleaned.order)
  }

  // ---------------------------------------------------------------------
  // Properties of the cache operations

  lemma {:induction false} ExpiredKeysMembers(order: seq<Text>, entries: map<Text, CacheItem>, now: int)
    ensures forall k :: k in ExpiredKeys(order, entries, now) <==> k in order && k in entries && Expired(entries[k], now)
  {
    if |order| > 0 {
      ExpiredKeysMembers(order[..|order| - 1], entries, now);
      assert order == order[..|order| - 1] + [order[|order| - 1]];
    }
  }

  lemma {:induction false} LiveOrderMembers(order: seq<Text>, entries: map<Text, CacheItem>, now: int)
    ensures forall k :: k in LiveOrder(order, entries, now) <==> k in order && !(k in entries && Expired(entries[k], now))
    ensures Distinct(order) ==> Distinct(LiveOrder(order, entries, now))
  {
    if |order| > 0 {
      var init := order[..|order| - 1];
      LiveOrderMembers(init, entries, now);
      assert order == init + [order[|order| - 1]];
      if Distinct(order) {
        assert Distinct(init);
        assert order[|order| - 1] !in init;
      }
    }
  }

  /** Cleaning keeps exactly the fresh entries, unchanged, and leaves a well-formed cache. */
  lemma CleanKeepsExactlyFresh(st: CacheState, now: int)
    requires WellFormed(st)
    ensures WellFormed(Clean(st, now))
    ensures forall k :: k in Clean(st, now).entries <==> k in st.entries && !Expired(st.entries[k], now)
    ensures forall k :: k in Clean(st, now).entries ==> Clean(st, now).entries[k] == st.entries[k]
  {
    LiveOrderMembers(st.order, st.entries, now);
  }

  /** Cleaning twice at the same time is cleaning once. */
  lemma CleanIdempotent(st: CacheState, now: int)
    requires WellFormed(st)
    ensures Clean(Clean(st, now), now) == Clean(st, now)
  {
    var c := Clean(st, now);
    CleanKeepsExactlyFresh(st, now);
    LiveOrderFresh(c.order, c.entries, now);
  }

  lemma {:induction false} LiveOrderFresh(order: seq<Text>, entries: map<Text, CacheItem>, now: int)
    requires forall k :: k in order && k in entries ==> !Expired(entries[k], now)
    ensures LiveOrder(order, entries, now) == order
  {
    if |order| > 0 {
      LiveOrderFresh(order[..|order| - 1], entries, now);
      assert order == order[..|order| - 1] + [order[|order| - 1]];
    }
  }

  /** `getFromCache` hits exactly when the key is stored, fresh and non-empty,
    * and afterwards no expired entry is left. */
  lemma GetHitsExactlyFresh(st: CacheState, text: Text, sourceLang: Language, targetLang: Language, now: int)
    requires WellFormed(st)
    ensures var key := CacheKey(text, sourceLang, targetLang);
      var (r, after) := Get(st, text, sourceLang, targetLang, now);
      && (r.Some? <==> key in st.entries && !Expired(st.entries[key], now) && st.entries[key].translatedText != [])
      && (r.Some? ==> r.value == st.entries[key].translatedText)
      && WellFormed(after)
      && (forall k :: k in after.entries ==> !Expired(after.entries[k], now))
  {
    CleanKeepsExactlyFresh(st, now);
  }

  /** Saving writes its own key with timestamp `now` and touches no other key. */
  lemma SaveTouchesOnlyItsKey(st: CacheState, text: Text, sourceLang: Language, targetLang: Language, result: Text, now: int)
    requires WellFormed(st)
    ensures var key := CacheKey(text, sourceLang, targetLang);
      var after := Save(st, text, sourceLang, targetLang, result, now);
      && WellFormed(after)
      && after.entries[key] == CacheItem(result, now)
      && (forall k :: k != key ==> (k in after.entries <==> k in st.entries))
      && (forall k :: k != key && k in st.entries ==> after.entries[k] == st.entries[k])
  {
    var key := CacheKey(text, sourceLang, targetLang);
    var after := Save(st, text, sourceLang, targetLang, result, now);
    if key !in st.order {
      forall i, j | 0 <= i < j < |after.order|
        ensures after.order[i] != after.order[j]
      {
        if j == |st.order| {
          assert after.order[i] in st.order;
        }
      }
    }
  }

  /** Round trip: a saved translation is read back until it expires, unless it is ''. */
  lemma SaveThenGet(st: CacheState, text: Text, sourceLang: Language, targetLang: Language, result: Text, saved: int, now: int)
    requires WellFormed(st)
    ensures var after := Save(st, text, sourceLang, targetLang, result, saved);
      Get(after, text, sourceLang, targetLang, now).0 ==
        if now - saved <= CacheExpiryMs && result != [] then Some(result) else None
  {
    SaveTouchesOnlyItsKey(st, text, sourceLang, targetLang, result, saved);
    GetHitsExactlyFresh(Save(st, text, sourceLang, targetLang, result, saved), text, sourceLang, targetLang, now);
  }

  /** Saving one direction of a text never changes what is cached for another key. */
  lemma SaveKeepsOtherLookups(st: CacheState, text: Text, sourceLang: Language, targetLang: Language,
                              result: Text, now: int, other: Text)
    requires WellFormed(st) && other != CacheKey(text, sourceLang, targetLang)
    ensures Lookup(Save(st, text, sourceLang, targetLang, result, now), other) == Lookup(st, other)
  {
  }

  lemma {:induction false} DistinctSize(s: seq<Text>)
    requires Distinct(s)
    ensures |set k | k in s| == |s|
  {
    if |s| > 0 {
      var init := s[..|s| - 1];
      var last := s[|s| - 1];
      DistinctSize(init);
      assert s == init + [last];
      assert last !in init;
      assert (set k | k in s) == (set k | k in init) + {last};
    }
  }

  /** `getCacheStats` reports the number of fresh entries and their keys, once each. */
  lemma StatsCountsFreshEntries(st: CacheState, now: int)
    requires WellFormed(st)
    ensures var (size, keys) := Stats(st, now);
      && size == |keys|
      && Distinct(keys)
      && (forall k :: k in keys <==> k in st.entries && !Expired(st.entries[k], now))
  {
    var c := Clean(st, now);
    CleanKeepsExactlyFresh(st, now);
    DistinctSize(c.order);
    assert c.entries.Keys == set k | k in c.order;
  }

  // ---------------------------------------------------------------------
  // The mutable cache

  lemma {:induction false} WithoutMembers(s: seq<Text>, gone: seq<Text>)
    ensures forall k :: k in Without(s, gone) <==> k in s && k !in gone
  {
    if |s| > 0 {
      WithoutMembers(s[..|s| - 1], gone);
      assert s == s[..|s| - 1] + [s[|s| - 1]];
    }
  }

  lemma {:induction false} WithoutMore(s: seq<Text>, gone: seq<Text>, k: Text)
    ensures Without(Without(s, gone), [k]) == Without(s, gone + [k])
  {
    if |s| > 0 {
      WithoutMore(s[..|s| - 1], gone, k);
      var w := Without(s[..|s| - 1], gone);
      var last := s[|s| - 1];
      if last !in gone {
        assert (w + [last])[..|w + [last]| - 1] == w;
      }
    }
  }

  /** Deleting the collected expired keys from the order leaves the live order. */
  lemma {:induction false} WithoutExpiredIsLive(s: seq<Text>, gone: seq<Text>, entries: map<Text, CacheItem>, now: int)
    requires forall k :: k in s ==> (k in gone <==> k in entries && Expired(entries[k], now))
    ensures Without(s, gone) == LiveOrder(s, entries, now)
  {
    if |s| > 0 {
      WithoutExpiredIsLive(s[..|s| - 1], gone, entries, now);
    }
  }

  /** `entries` without the keys listed in `gone`. */
  function Prune(entries: map<Text, CacheItem>, gone: seq<Text>): map<Text, CacheItem>
  {
    map k | k in entries && k !in gone :: entries[k]
  }

  lemma PruneMore(entries: map<Text, CacheItem>, gone: seq<Text>, k: Text)
    ensures Prune(entries, gone) - {k} == Prune(entries, gone + [k])
  {
  }

  /** Deleting every collected expired key, from the map and from the key
    * order, is exactly cleaning. */
  lemma DeletingExpiredKeysCleans(st: CacheState, now: int)
    requires WellFormed(st)
    ensures var gone := ExpiredKeys(st.order, st.entries, now);
      CacheState(Prune(st.entries, gone), Without(st.order, gone)) == Clean(st, now)
  {
    var gone := ExpiredKeys(st.order, st.entries, now);
    ExpiredKeysMembers(st.order, st.entries, now);
    WithoutExpiredIsLive(st.order, gone, st.entries, now);
    assert Prune(st.entries, gone) == Clean(st, now).entries;
  }

  lemma {:induction false} WithoutNothing(s: seq<Text>)
    ensures Without(s, []) == s
  {
    if |s| > 0 {
      WithoutNothing(s[..|s| - 1]);
    }
  }

  /** The first loop of `cleanExpiredCache`: the expired keys, in key order. */
  method CollectExpiredKeys(order: seq<Text>, entries: map<Text, CacheItem>, now: int) returns (keysToDelete: seq<Text>)
    requires forall k :: k in order ==> k in entries
    ensures keysToDelete == ExpiredKeys(order, entries, now)
  {
    keysToDelete := [];
    var i := 0;
    while i < |order|
      invariant 0 <= i <= |order|
      invariant keysToDelete == ExpiredKeys(order[..i], entries, now)
    {
      var key := order[i];
      if now - entries[key].timestamp > CacheExpiryMs {
        keysToDelete := keysToDelete + [key];
      }
      assert order[..i + 1] == order[..i] + [key];
      i := i + 1;
    }
    assert order[..i] == order;
  }

  /** The module-level `translationCache`. */
  class TtlCache {
    var entries: map<Text, CacheItem>
    var order: seq<Text>

    function State(): CacheState
      reads this
    {
      CacheState(entries, order)
    }

    ghost predicate Valid()
      reads this
    {
      WellFormed(State())
    }

    constructor()
      ensures Valid() && State() == CacheState(map[], [])
    {
      entries := map[];
      order := [];
    }

    /** `Map.prototype.delete`. */
    method Delete(key: Text)
      modifies this
      ensures entries == old(entries) - {key} && order == Without(old(order), [key])
    {
      entries := entries - {key};
      order := Without(order, [key]);
    }

    /** Deletes the given keys one after the other. */
    method DeleteAll(keys: seq<Text>)
      modifies this
      ensures entries == Prune(old(entries), keys) && order == Without(old(order), keys)
    {
      ghost var entries0 := entries;
      ghost var order0 := order;
      WithoutNothing(order0);
      var j := 0;
      while j < |keys|
        invariant 0 <= j <= |keys|
        invariant entries == Prune(entries0, keys[..j])
        invariant order == Without(order0, keys[..j])
      {
        var key := keys[j];
        Delete(key);
        WithoutMore(order0, keys[..j], key);
        PruneMore(entries0, keys[..j], key);
        assert keys[..j + 1] == keys[..j] + [key];
        j := j + 1;
      }
      assert keys[..j] == keys;
    }

    /** `cleanExpiredCache`: collects the expired keys in key order, then deletes them. */
    method CleanExpiredCache(now: int)
      requires Valid()
      modifies this
      ensures Valid() && State() == Clean(old(State()), now)
    {
      var keysToDelete := CollectExpiredKeys(order, entries, now);
      ghost var before := State();
      DeleteAll(keysToDelete);
      DeletingExpiredKeysCleans(before, now);
      CleanKeepsExactlyFresh(before, now);
    }

    /** `getFromCache`. */
    method GetFromCache(text: Text, sourceLang: Language, targetLang: Language, now: int) returns (r: Option<Text>)
      requires Valid()
      modifies this
      ensures Valid() && (r, State()) == Get(old(State()), text, sourceLang, targetLang, now)
    {
      CleanExpiredCache(now);
      var key := CacheKey(text, sourceLang, targetLang);
      if key in entries && entries[key].translatedText != [] {
        r := Some(entries[key].translatedText);
      } else {
        r := None;
      }
    }

    /** `saveToCache`. */
    method SaveToCache(text: Text, sourceLang: Language, targetLang: Language, result: Text, now: int)
      requires Valid()
      modifies this
      ensures Valid() && State() == Save(old(State()), text, sourceLang, targetLang, result, now)
    {
      var key := CacheKey(text, sourceLang, targetLang);
      SaveTouchesOnlyItsKey(State(), text, sourceLang, targetLang, result, now);
      if key !in entries {
        order := order + [key];
      }
      entries := entries[key := CacheItem(result, now)];
    }

    /** `clearTranslationCache`. */
    method ClearTranslationCache()
      modifies this
      ensures Valid() && State() == CacheState(map[], [])
    {
      entries := map[];
      order := [];
    }

    /** `getCacheStats` at time `now`: cleans, then reports. */
    method GetCacheStats(now: int) returns (size: nat, keys: seq<Text>)
      requires Valid()
      modifies this
      ensures Valid() && (size, keys) == Stats(old(State()), now)
      ensures State() == Clean(old(State()), now)
    {
      CleanExpiredCache(now);
      size := |entries|;
      keys := order;
    }
  }
}
