/**
 * The Google translator: the same one-hour cache as the DeepSeek translator,
 * the romanization placeholder, the error table keyed by the error body's
 * `code`, and a batch mode that answers cached texts first and sends the
 * rest in chunks of at most 50, falling back to one request per text when a
 * chunk fails.
 *
 * The endpoint is a parameter: `reply` answers a single request, `chunkApi`
 * a chunk request. The API key read from the environment is a parameter.
 */
module GoogleTranslate {
  import opened Wrappers
  import opened TranslationTypes
  import opened JsStrings
  import opened TranslationCache
  import opened Romanizer

  /** What the endpoint answers to a single-text request. */
  datatype Reply =
    | Answered(first: Option<Text>)                  // ok; `data.translations[0]?.translatedText`
    | Rejected(status: int, code: int, message: Text) // not ok; the error body's `code` and `message`
    | Unreachable(message: Text)                     // `fetch` itself rejects with this message

  /** What the endpoint answers to a chunk request: the translations, or any failure. */
  datatype ChunkReply = ChunkAnswered(translations: seq<Text>) | ChunkFailed

  const MissingKeyMessage: Text := "Google Translate API 密钥未配置。请在 .env.local 中设置 NEXT_PUBLIC_GOOGLE_TRANSLATE_API_KEY"
  const EmptyResultMessage: Text := "翻译结果为空"
  const EmptyTextMessage: Text := "翻译文本不能为空"
  const TooLongMessage: Text := "翻译文本长度不能超过 5000 字符"
  const QuotaMessage: Text := "API 配额已用完，请稍后再试或升级配额"
  const ForbiddenMessage: Text := "API 密钥无效或无权限访问"

  const MaxTextLength: nat := 5000

  /** The number of texts one chunk request carries. */
  const BatchSize: nat := 50

  /** `extractRomanization`: '' for blank text, else the placeholder `[韩文发音: N 字]`. */
  function ExtractRomanization(text: Text): Text
  {
    if IsBlank(text) then "" else PronunciationPlaceholder(text)
  }

  /** The message `handleAPIError` throws with, chosen by the error body's `code`;
    * only the default message shows the HTTP status. */
  function ErrorMessage(code: int, status: int, message: Text): Text
  {
    if code == 400 then "请求参数无效：" + message
    else if code == 403 then (if Includes(message, "quota") then QuotaMessage else ForbiddenMessage)
    else if code == 404 then "翻译服务未找到"
    else if code == 429 then "请求过于频繁，请稍后再试"
    else "翻译失败（" + IntToDecimal(status) + "）：" + message
  }

  /** `callTranslateAPI`: a rejected response always throws through `handleAPIError`. */
  function CallTranslateApi(apiKey: Text, reply: Reply): Result<Text, Text>
  {
    if apiKey == [] then Failure(MissingKeyMessage)
    else match reply
      case Answered(first) =>
        if first.None? || first.value == [] then Failure(EmptyResultMessage) else Success(first.value)
      case Rejected(status, code, message) => Failure(ErrorMessage(code, status, message))
      case Unreachable(message) => Failure(message)
  }

  /** The result returned for a translated text: online, with the placeholder when the target is Korean. */
  function OnlineResult(text: Text, targetLang: Language): TranslationResult
  {
    TranslationResult(text, if targetLang == Ko then Some(ExtractRomanization(text)) else None, false, None)
  }

  /** `translateText` on cache state `st` at time `now`: the result and the new cache. */
  function Translate(st: CacheState, text: Text, sourceLang: Language, targetLang: Language, now: int,
                     apiKey: Text, reply: Reply): (Result<TranslationResult, Text>, CacheState)
  {
    if IsBlank(text) then (Failure(EmptyTextMessage), st)
    else if |text| > MaxTextLength then (Failure(TooLongMessage), st)
    else
      var (cached, st1) := Get(st, text, sourceLang, targetLang, now);
      if cached.Some? then (Success(OnlineResult(cached.value, targetLang)), st1)
      else match CallTranslateApi(apiKey, reply)
        case Failure(e) => (Failure(e), st1)
        case Success(t) => (Success(OnlineResult(t, targetLang)), Save(st1, text, sourceLang, targetLang, t, now))
  }

  // ---------------------------------------------------------------------
  // Batch translation

  /** The `filter` callback on one text: a cached text is answered, any other
    * is kept for translation. */
  function CachedStep(results: seq<TranslationResult>, pending: seq<Text>, st: CacheState, text: Text,
                      sourceLang: Language, targetLang: Language, now: int)
    : (seq<TranslationResult>, seq<Text>, CacheState)
  {
    var (cached, st1) := Get(st, text, sourceLang, targetLang, now);
    if cached.Some? then (results + [OnlineResult(cached.value, targetLang)], pending, st1)
    else (results, pending + [text], st1)
  }

  /** The cache-first pass of `batchTranslate`: the answers for cached texts,
    * the texts still to translate, in order, and the cache afterwards. */
  function CachedPass(st: CacheState, texts: seq<Text>, sourceLang: Language, targetLang: Language, now: int)
    : (seq<TranslationResult>, seq<Text>, CacheState)
  {
    if |texts| == 0 then ([], [], st)
    else
      var (results, pending, st1) := CachedPass(st, texts[..|texts| - 1], sourceLang, targetLang, now);
      CachedStep(results, pending, st1, texts[|texts| - 1], sourceLang, targetLang, now)
  }

  /** Where the chunk holding the last element starts. */
  function LastChunkStart(n: nat): (start: nat)
    requires n > 0
    ensures start < n && start % BatchSize == 0 && n - start <= BatchSize
  {
    ((n - 1) / BatchSize) * BatchSize
  }

  /** `s` cut into consecutive chunks `s.slice(i, i + 50)` for i = 0, 50, 100, ... */
  function Chunks(s: seq<Text>): seq<seq<Text>>
  {
    if |s| == 0 then []
    else
      var start := LastChunkStart(|s|);
      Chunks(s[..start]) + [s[start..]]
  }

  function Flatten(chunks: seq<seq<Text>>): seq<Text>
  {
    if |chunks| == 0 then [] else Flatten(chunks[..|chunks| - 1]) + chunks[|chunks| - 1]
  }

  /** The text a chunk translation is cached under: `batch[index]`, which is
    * `undefined` (rendered 'undefined' in the key) past the end of the batch. */
  function OriginalText(batch: seq<Text>, index: nat): Text
  {
    if index < |batch| then batch[index] else "undefined"
  }

  /** The `forEach` over a chunk's translations: each is cached under its
    * original text and answered, empty or not. */
  function SaveChunk(st: CacheState, batch: seq<Text>, translations: seq<Text>, sourceLang: Language,
                     targetLang: Language, now: int): (seq<TranslationResult>, CacheState)
  {
    if |translations| == 0 then ([], st)
    else
      var last := |translations| - 1;
      var (results, st1) := SaveChunk(st, batch, translations[..last], sourceLang, targetLang, now);
      (results + [OnlineResult(translations[last], targetLang)],
       Save(st1, OriginalText(batch, last), sourceLang, targetLang, translations[last], now))
  }

  /** The fallback after a failed chunk: `translateText` on each text, keeping the successes. */
  function Fallback(st: CacheState, batch: seq<Text>, sourceLang: Language, targetLang: Language, now: int,
                    apiKey: Text, replies: Text -> Reply): (seq<TranslationResult>, CacheState)
  {
    if |batch| == 0 then ([], st)
    else
      var (results, st1) := Fallback(st, batch[..|batch| - 1], sourceLang, targetLang, now, apiKey, replies);
      var text := batch[|batch| - 1];
      var (r, st2) := Translate(st1, text, sourceLang, targetLang, now, apiKey, replies(text));
      (if r.Success? then results + [r.value] else results, st2)
  }

  /** One chunk: its translations when the request succeeds, else the fallback. */
  function ProcessChunk(st: CacheState, batch: seq<Text>, sourceLang: Language, targetLang: Language, now: int,
                        apiKey: Text, chunkApi: seq<Text> -> ChunkReply, replies: Text -> Reply)
    : (seq<TranslationResult>, CacheState)
  {
    match chunkApi(batch)
    case ChunkAnswered(translations) => SaveChunk(st, batch, translations, sourceLang, targetLang, now)
    case ChunkFailed => Fallback(st, batch, sourceLang, targetLang, now, apiKey, replies)
  }

  function ProcessChunks(st: CacheState, chunks: seq<seq<Text>>, sourceLang: Language, targetLang: Language, now: int,
                         apiKey: Text, chunkApi: seq<Text> -> ChunkReply, replies: Text -> Reply)
    : (seq<TranslationResult>, CacheState)
  {
    if |chunks| == 0 then ([], st)
    else
      var (results, st1) := ProcessChunks(st, chunks[..|chunks| - 1], sourceLang, targetLang, now, apiKey, chunkApi, replies);
      var (more, st2) := ProcessChunk(st1, chunks[|chunks| - 1], sourceLang, targetLang, now, apiKey, chunkApi, replies);
      (results + more, st2)
  }

  /** `batchTranslate`: the cached answers first, then the chunks' results in order. */
  function Batch(st: CacheState, texts: seq<Text>, sourceLang: Language, targetLang: Language, now: int,
                 apiKey: Text, chunkApi: seq<Text> -> ChunkReply, replies: Text -> Reply)
    : (seq<TranslationResult>, CacheState)
  {
    var (cachedResults, pending, st1) := CachedPass(st, texts, sourceLang, targetLang, now);
    var (results, st2) := ProcessChunks(st1, Chunks(pending), sourceLang, targetLang, now, apiKey, chunkApi, replies);
    (cachedResults + results, st2)
  }

  // ---------------------------------------------------------------------
  // Properties

  /** The placeholder is what the shared romanizer gives when its library fails. */
  lemma ExtractRomanizationIsFallback(text: Text)
    ensures ExtractRomanization(text) == KoreanToRomanization(text, _ => Threw)
    ensures !IsBlank(text) ==> ExtractRomanization(text) == "[韩文发音: " + NatToDecimal(|text|) + " 字]"
  {
  }

  /** A 403 reports the exhausted quota exactly when the message mentions 'quota'. */
  lemma ForbiddenSplitsOnQuota(status: int, message: Text)
    ensures ErrorMessage(403, status, message) == QuotaMessage <==> Includes(message, "quota")
    ensures !Includes(message, "quota") ==> ErrorMessage(403, status, message) == ForbiddenMessage
  {
    assert QuotaMessage[0] != ForbiddenMessage[0] || QuotaMessage[1] != ForbiddenMessage[1]
        || QuotaMessage[4] != ForbiddenMessage[4];
  }

  /** A rejected response always fails with the error table's message. */
  lemma RejectedCallFails(apiKey: Text, status: int, code: int, message: Text)
    requires apiKey != []
    ensures CallTranslateApi(apiKey, Rejected(status, code, message)) == Failure(ErrorMessage(code, status, message))
  {
  }

  /** `translateText` refuses blank and over-long text without touching the
    * cache, and leaves a well-formed cache well-formed. */
  lemma TranslateKeepsCacheWellFormed(st: CacheState, text: Text, sourceLang: Language, targetLang: Language, now: int,
                                      apiKey: Text, reply: Reply)
    requires WellFormed(st)
    ensures var (r, after) := Translate(st, text, sourceLang, targetLang, now, apiKey, reply);
      && WellFormed(after)
      && (IsBlank(text) || |text| > MaxTextLength ==> r.Failure? && after == st)
  {
    if !IsBlank(text) && |text| <= MaxTextLength {
      var (cached, st1) := Get(st, text, sourceLang, targetLang, now);
      GetHitsExactlyFresh(st, text, sourceLang, targetLang, now);
      if cached.None? && CallTranslateApi(apiKey, reply).Success? {
        var t := CallTranslateApi(apiKey, reply).value;
        SaveTouchesOnlyItsKey(st1, text, sourceLang, targetLang, t, now);
      }
    }
  }

  /** Every success is online, with the placeholder exactly when the target is
    * Korean; afterwards the cache answers the same text with it. */
  lemma TranslateResultFacts(st: CacheState, text: Text, sourceLang: Language, targetLang: Language, now: int,
                             apiKey: Text, reply: Reply)
    requires WellFormed(st)
    ensures var (r, after) := Translate(st, text, sourceLang, targetLang, now, apiKey, reply);
      && (r.Success? ==> !r.value.isOffline && (r.value.romanization.Some? <==> targetLang == Ko))
      && (r.Success? ==> Get(after, text, sourceLang, targetLang, now).0 == Some(r.value.translatedText))
  {
    if !IsBlank(text) && |text| <= MaxTextLength {
      var (cached, st1) := Get(st, text, sourceLang, targetLang, now);
      GetHitsExactlyFresh(st, text, sourceLang, targetLang, now);
      if cached.Some? {
        CleanIdempotent(st, now);
      } else if CallTranslateApi(apiKey, reply).Success? {
        var t := CallTranslateApi(apiKey, reply).value;
        SaveThenGet(st1, text, sourceLang, targetLang, t, now, now);
      }
    }
  }

  /** The cache-first pass answers each text either from the cache or leaves
    * it pending, in order: answered texts had a fresh, non-empty entry. */
  lemma {:induction false} CachedPassSplitsTexts(st: CacheState, texts: seq<Text>, sourceLang: Language,
                                                 targetLang: Language, now: int)
    requires WellFormed(st)
    ensures var (results, pending, after) := CachedPass(st, texts, sourceLang, targetLang, now);
      && WellFormed(after)
      && |results| + |pending| == |texts|
      && (forall t :: t in pending ==> t in texts)
      && (forall r :: r in results ==> !r.isOffline && r.translatedText != [])
  {
    if |texts| > 0 {
      var init := texts[..|texts| - 1];
      var text := texts[|texts| - 1];
      CachedPassSplitsTexts(st, init, sourceLang, targetLang, now);
      var (results, pending, st1) := CachedPass(st, init, sourceLang, targetLang, now);
      GetHitsExactlyFresh(st1, text, sourceLang, targetLang, now);
      assert forall t :: t in init ==> t in texts;
    }
  }

  /** The chunks partition the pending texts in order, each holding 1 to 50 texts. */
  lemma {:induction false} ChunksPartition(s: seq<Text>)
    ensures Flatten(Chunks(s)) == s
    ensures forall c :: c in Chunks(s) ==> 0 < |c| <= BatchSize
    ensures |Chunks(s)| == (|s| + BatchSize - 1) / BatchSize
  {
    if |s| > 0 {
      var start := LastChunkStart(|s|);
      ChunksPartition(s[..start]);
      var init := Chunks(s[..start]);
      assert (init + [s[start..]])[..|init|] == init;
    }
  }

  /** The chunk for positions i .. i + 50 extends the chunks of the first i texts. */
  lemma ChunksExtend(s: seq<Text>, i: nat, k: nat)
    requires i < |s| && i == k * BatchSize
    ensures var end := if i + BatchSize < |s| then i + BatchSize else |s|;
      Chunks(s[..end]) == Chunks(s[..i]) + [s[i..end]]
  {
    var end := if i + BatchSize < |s| then i + BatchSize else |s|;
    var t := s[..end];
    assert (|t| - 1) / BatchSize == k;
    assert LastChunkStart(|t|) == i;
    assert t[..i] == s[..i];
    assert t[i..] == s[i..end];
  }

  /** A successful chunk answers once per returned translation, in order. */
  lemma {:induction false} SaveChunkAnswers(st: CacheState, batch: seq<Text>, translations: seq<Text>,
                                            sourceLang: Language, targetLang: Language, now: int)
    requires WellFormed(st)
    ensures var (results, after) := SaveChunk(st, batch, translations, sourceLang, targetLang, now);
      && WellFormed(after)
      && |results| == |translations|
      && (forall i :: 0 <= i < |translations| ==> results[i] == OnlineResult(translations[i], targetLang))
  {
    if |translations| > 0 {
      var last := |translations| - 1;
      SaveChunkAnswers(st, batch, translations[..last], sourceLang, targetLang, now);
      var (results, st1) := SaveChunk(st, batch, translations[..last], sourceLang, targetLang, now);
      SaveTouchesOnlyItsKey(st1, OriginalText(batch, last), sourceLang, targetLang, translations[last], now);
      var all := results + [OnlineResult(translations[last], targetLang)];
      assert SaveChunk(st, batch, translations, sourceLang, targetLang, now).0 == all;
      forall i | 0 <= i < |translations|
        ensures all[i] == OnlineResult(translations[i], targetLang)
      {
        if i < last {
          assert translations[..last][i] == translations[i];
        }
      }
    }
  }

  /** A successful chunk of distinct texts caches each translation under its own text. */
  lemma {:induction false} SaveChunkCaches(st: CacheState, batch: seq<Text>, translations: seq<Text>,
                                           sourceLang: Language, targetLang: Language, now: int)
    requires WellFormed(st) && |translations| <= |batch| && Distinct(batch)
    ensures var after := SaveChunk(st, batch, translations, sourceLang, targetLang, now).1;
      forall i :: 0 <= i < |translations| ==>
        var key := CacheKey(batch[i], sourceLang, targetLang);
        key in after.entries && after.entries[key] == CacheItem(translations[i], now)
  {
    if |translations| > 0 {
      var last := |translations| - 1;
      SaveChunkCaches(st, batch, translations[..last], sourceLang, targetLang, now);
      SaveChunkAnswers(st, batch, translations[..last], sourceLang, targetLang, now);
      var st1 := SaveChunk(st, batch, translations[..last], sourceLang, targetLang, now).1;
      var after := Save(st1, batch[last], sourceLang, targetLang, translations[last], now);
      assert SaveChunk(st, batch, translations, sourceLang, targetLang, now).1 == after;
      SaveTouchesOnlyItsKey(st1, batch[last], sourceLang, targetLang, translations[last], now);
      forall i | 0 <= i < |translations|
        ensures CacheKey(batch[i], sourceLang, targetLang) in after.entries
        ensures after.entries[CacheKey(batch[i], sourceLang, targetLang)] == CacheItem(translations[i], now)
      {
        if i < last {
          CacheKeyInjective(batch[i], sourceLang, targetLang, batch[last], sourceLang, targetLang);
          assert translations[..last][i] == translations[i];
        }
      }
    }
  }

  lemma {:induction false} FallbackFacts(st: CacheState, batch: seq<Text>, sourceLang: Language, targetLang: Language,
                                         now: int, apiKey: Text, replies: Text -> Reply)
    requires WellFormed(st)
    ensures var (results, after) := Fallback(st, batch, sourceLang, targetLang, now, apiKey, replies);
      WellFormed(after) && |results| <= |batch| && forall r :: r in results ==> !r.isOffline
  {
    if |batch| > 0 {
      var init := batch[..|batch| - 1];
      FallbackFacts(st, init, sourceLang, targetLang, now, apiKey, replies);
      var (results, st1) := Fallback(st, init, sourceLang, targetLang, now, apiKey, replies);
      TranslateKeepsCacheWellFormed(st1, batch[|batch| - 1], sourceLang, targetLang, now, apiKey, replies(batch[|batch| - 1]));
      TranslateResultFacts(st1, batch[|batch| - 1], sourceLang, targetLang, now, apiKey, replies(batch[|batch| - 1]));
    }
  }

  /** Every batch answer is online; the cache stays well formed. */
  lemma {:induction false} ProcessChunksFacts(st: CacheState, chunks: seq<seq<Text>>, sourceLang: Language,
                                              targetLang: Language, now: int, apiKey: Text,
                                              chunkApi: seq<Text> -> ChunkReply, replies: Text -> Reply)
    requires WellFormed(st)
    ensures var (results, after) := ProcessChunks(st, chunks, sourceLang, targetLang, now, apiKey, chunkApi, replies);
      WellFormed(after) && forall r :: r in results ==> !r.isOffline
  {
    if |chunks| > 0 {
      ProcessChunksFacts(st, chunks[..|chunks| - 1], sourceLang, targetLang, now, apiKey, chunkApi, replies);
      var (results, st1) := ProcessChunks(st, chunks[..|chunks| - 1], sourceLang, targetLang, now, apiKey, chunkApi, replies);
      var batch := chunks[|chunks| - 1];
      match chunkApi(batch)
      case ChunkAnswered(translations) =>
        SaveChunkAnswers(st1, batch, translations, sourceLang, targetLang, now);
      case ChunkFailed =>
        FallbackFacts(st1, batch, sourceLang, targetLang, now, apiKey, replies);
    }
  }

  /** The cached answers come first, one per cached text, and everything answered is online. */
  lemma BatchFacts(st: CacheState, texts: seq<Text>, sourceLang: Language, targetLang: Language, now: int,
                   apiKey: Text, chunkApi: seq<Text> -> ChunkReply, replies: Text -> Reply)
    requires WellFormed(st)
    ensures var (cachedResults, pending, _) := CachedPass(st, texts, sourceLang, targetLang, now);
      var (results, after) := Batch(st, texts, sourceLang, targetLang, now, apiKey, chunkApi, replies);
      && WellFormed(after)
      && results[..|cachedResults|] == cachedResults
      && |cachedResults| + |pending| == |texts|
      && (forall r :: r in results ==> !r.isOffline)
  {
    CachedPassSplitsTexts(st, texts, sourceLang, targetLang, now);
    var (cachedResults, pending, st1) := CachedPass(st, texts, sourceLang, targetLang, now);
    ProcessChunksFacts(st1, Chunks(pending), sourceLang, targetLang, now, apiKey, chunkApi, replies);
  }

  // ---------------------------------------------------------------------
  // The translator over the module's cache

  /** `translateText`. */
  method TranslateText(cache: TtlCache, text: Text, sourceLang: Language, targetLang: Language, now: int,
                       apiKey: Text, reply: Reply)
    returns (r: Result<TranslationResult, Text>)
    requires cache.Valid()
    modifies cache
    ensures cache.Valid()
    ensures (r, cache.State()) == Translate(old(cache.State()), text, sourceLang, targetLang, now, apiKey, reply)
  {
    if IsBlank(text) {
      return Failure(EmptyTextMessage);
    }
    if |text| > MaxTextLength {
      return Failure(TooLongMessage);
    }
    var cached := cache.GetFromCache(text, sourceLang, targetLang, now);
    if cached.Some? {
      return Success(OnlineResult(cached.value, targetLang));
    }
    var translated := CallTranslateApi(apiKey, reply);
    if translated.Failure? {
      return Failure(translated.error);
    }
    cache.SaveToCache(text, sourceLang, targetLang, translated.value, now);
    r := Success(OnlineResult(translated.value, targetLang));
  }

  /** The `filter` callback on one text. */
  method AnswerIfCached(cache: TtlCache, results: seq<TranslationResult>, pending: seq<Text>, text: Text,
                        sourceLang: Language, targetLang: Language, now: int)
    returns (results': seq<TranslationResult>, pending': seq<Text>)
    requires cache.Valid()
    modifies cache
    ensures cache.Valid()
    ensures (results', pending', cache.State()) == CachedStep(results, pending, old(cache.State()), text, sourceLang, targetLang, now)
  {
    var cached := cache.GetFromCache(text, sourceLang, targetLang, now);
    if cached.Some? {
      results', pending' := results + [OnlineResult(cached.value, targetLang)], pending;
    } else {
      results', pending' := results, pending + [text];
    }
  }

  /** The `filter` callback pass of `batchTranslate`. */
  method AnswerCached(cache: TtlCache, texts: seq<Text>, sourceLang: Language, targetLang: Language, now: int)
    returns (results: seq<TranslationResult>, pending: seq<Text>)
    requires cache.Valid()
    modifies cache
    ensures cache.Valid()
    ensures (results, pending, cache.State()) == CachedPass(old(cache.State()), texts, sourceLang, targetLang, now)
  {
    results, pending := [], [];
    var i := 0;
    while i < |texts|
      invariant 0 <= i <= |texts|
      invariant cache.Valid()
      invariant (results, pending, cache.State()) == CachedPass(old(cache.State()), texts[..i], sourceLang, targetLang, now)
    {
      results, pending := AnswerIfCached(cache, results, pending, texts[i], sourceLang, targetLang, now);
      assert texts[..i + 1][..i] == texts[..i];
      i := i + 1;
    }
    assert texts[..i] == texts;
  }

  /** One more translation of a chunk: answered, and cached under its original text. */
  lemma SaveChunkStep(st: CacheState, batch: seq<Text>, translations: seq<Text>, index: nat, sourceLang: Language,
                      targetLang: Language, now: int)
    requires index < |translations|
    ensures var (results, st1) := SaveChunk(st, batch, translations[..index], sourceLang, targetLang, now);
      SaveChunk(st, batch, translations[..index + 1], sourceLang, targetLang, now)
        == (results + [OnlineResult(translations[index], targetLang)],
            Save(st1, if index < |batch| then batch[index] else "undefined", sourceLang, targetLang, translations[index], now))
  {
    assert translations[..index + 1][..index] == translations[..index];
  }

  /** The `forEach` over a successful chunk's translations. */
  method CacheChunk(cache: TtlCache, batch: seq<Text>, translations: seq<Text>, sourceLang: Language,
                    targetLang: Language, now: int)
    returns (results: seq<TranslationResult>)
    requires cache.Valid()
    modifies cache
    ensures cache.Valid()
    ensures (results, cache.State()) == SaveChunk(old(cache.State()), batch, translations, sourceLang, targetLang, now)
  {
    ghost var st0 := cache.State();
    results := [];
    var index := 0;
    while index < |translations|
      invariant 0 <= index <= |translations|
      invariant cache.Valid()
      invariant results == SaveChunk(st0, batch, translations[..index], sourceLang, targetLang, now).0
      invariant cache.State() == SaveChunk(st0, batch, translations[..index], sourceLang, targetLang, now).1
    {
      var translatedText := translations[index];
      var originalText := if index < |batch| then batch[index] else "undefined";
      SaveChunkStep(st0, batch, translations, index, sourceLang, targetLang, now);
      cache.SaveToCache(originalText, sourceLang, targetLang, translatedText, now);
      results := results + [OnlineResult(translatedText, targetLang)];
      index := index + 1;
    }
    assert translations[..index] == translations;
  }

  /** The per-text retry after a failed chunk. */
  method TranslateEach(cache: TtlCache, batch: seq<Text>, sourceLang: Language, targetLang: Language, now: int,
                       apiKey: Text, replies: Text -> Reply)
    returns (results: seq<TranslationResult>)
    requires cache.Valid()
    modifies cache
    ensures cache.Valid()
    ensures (results, cache.State()) == Fallback(old(cache.State()), batch, sourceLang, targetLang, now, apiKey, replies)
  {
    results := [];
    var i := 0;
    while i < |batch|
      invariant 0 <= i <= |batch|
      invariant cache.Valid()
      invariant (results, cache.State()) == Fallback(old(cache.State()), batch[..i], sourceLang, targetLang, now, apiKey, replies)
    {
      var r := TranslateText(cache, batch[i], sourceLang, targetLang, now, apiKey, replies(batch[i]));
      if r.Success? {
        results := results + [r.value];
      }
      assert batch[..i + 1][..i] == batch[..i];
      i := i + 1;
    }
    assert batch[..i] == batch;
  }

  /** One chunk of `batchTranslate`: one request for the chunk, or one per text when it fails. */
  method TranslateChunk(cache: TtlCache, batch: seq<Text>, sourceLang: Language, targetLang: Language, now: int,
                        apiKey: Text, chunkApi: seq<Text> -> ChunkReply, replies: Text -> Reply)
    returns (results: seq<TranslationResult>)
    requires cache.Valid()
    modifies cache
    ensures cache.Valid()
    ensures (results, cache.State()) == ProcessChunk(old(cache.State()), batch, sourceLang, targetLang, now, apiKey, chunkApi, replies)
  {
    match chunkApi(batch)
    case ChunkAnswered(translations) =>
      results := CacheChunk(cache, batch, translations, sourceLang, targetLang, now);
    case ChunkFailed =>
      results := TranslateEach(cache, batch, sourceLang, targetLang, now, apiKey, replies);
  }

  /** The chunk loop of `batchTranslate`: `for (i = 0; i < n; i += 50)` over the pending texts. */
  method TranslateInChunks(cache: TtlCache, textsToTranslate: seq<Text>, sourceLang: Language, targetLang: Language,
                           now: int, apiKey: Text, chunkApi: seq<Text> -> ChunkReply, replies: Text -> Reply)
    returns (results: seq<TranslationResult>)
    requires cache.Valid()
    modifies cache
    ensures cache.Valid()
    ensures (results, cache.State())
         == ProcessChunks(old(cache.State()), Chunks(textsToTranslate), sourceLang, targetLang, now, apiKey, chunkApi, replies)
  {
    results := [];
    var i := 0;
    ghost var k: nat := 0;
    while i < |textsToTranslate|
      invariant i == k * BatchSize
      invariant i < |textsToTranslate| + BatchSize
      invariant cache.Valid()
      invariant (results, cache.State())
             == ProcessChunks(old(cache.State()), Chunks(textsToTranslate[..if i < |textsToTranslate| then i else |textsToTranslate|]),
                              sourceLang, targetLang, now, apiKey, chunkApi, replies)
    {
      var end := if i + BatchSize < |textsToTranslate| then i + BatchSize else |textsToTranslate|;
      var batch := textsToTranslate[i..end];
      ChunksExtend(textsToTranslate, i, k);
      var more := TranslateChunk(cache, batch, sourceLang, targetLang, now, apiKey, chunkApi, replies);
      results := results + more;
      i := i + BatchSize;
      k := k + 1;
    }
    assert textsToTranslate[..|textsToTranslate|] == textsToTranslate;
  }

  /** `batchTranslate`. */
  method BatchTranslate(cache: TtlCache, texts: seq<Text>, sourceLang: Language, targetLang: Language, now: int,
                        apiKey: Text, chunkApi: seq<Text> -> ChunkReply, replies: Text -> Reply)
    returns (results: seq<TranslationResult>)
    requires cache.Valid()
    modifies cache
    ensures cache.Valid()
    ensures (results, cache.State()) == Batch(old(cache.State()), texts, sourceLang, targetLang, now, apiKey, chunkApi, replies)
  {
    var cachedResults, textsToTranslate := AnswerCached(cache, texts, sourceLang, targetLang, now);
    var translated := TranslateInChunks(cache, textsToTranslate, sourceLang, targetLang, now, apiKey, chunkApi, replies);
    results := cachedResults + translated;
  }
}
