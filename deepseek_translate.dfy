/**
 * The DeepSeek translator: input validation, the shared one-hour cache, the
 * per-call retry decision for failed HTTP responses, and the batch loop.
 *
 * The HTTP exchange is a parameter: `reply` is what the endpoint answers to
 * the request, and `retry` is the outcome of the nested call that a retry
 * makes. The API key read from the environment and the romanizing library
 * are parameters too.
 */
module DeepSeekTranslate {
  import opened Wrappers
  import opened TranslationTypes
  import opened JsStrings
  import opened TranslationCache
  import opened Romanizer

  /** What the chat-completions endpoint answers to one request. */
  datatype Reply =
    | Answered(content: Option<Text>)     // `response.ok`; `choices[0]?.message?.content`
    | Rejected(status: int, message: Text) // not ok; the error body's `error.message`
    | Unreachable(message: Text)           // `fetch` itself rejects with this message

  /** Why a call failed: an `Error` with its message, or the `TypeError` raised
    * by reading a response body a second time. */
  datatype Failure = Error(message: Text) | BodyAlreadyRead

  const MissingKeyMessage: Text := "DeepSeek API 密钥未配置。请在 .env.local 中设置 NEXT_PUBLIC_DEEPSEEK_API_KEY"
  const EmptyResultMessage: Text := "翻译结果为空"
  const EmptyTextMessage: Text := "翻译文本不能为空"
  const TooLongMessage: Text := "翻译文本长度不能超过 5000 字符"

  /** The longest text `translateText` accepts. */
  const MaxTextLength: nat := 5000

  datatype RetryEntry = RetryEntry(delay: int, maxRetries: int)

  /** `RETRY_CONFIG`, looked up by key. */
  function RetryConfig(key: Text): Option<RetryEntry>
  {
    if key == "429" then Some(RetryEntry(2000, 1))
    else if key == "500" then Some(RetryEntry(1000, 1))
    else if key == "timeout" then Some(RetryEntry(3000, 1))
    else None
  }

  /** Whether `handleAPIError` retries: the entry for `String(status)` exists
    * and fewer than `maxRetries` retries were made. */
  predicate ShouldRetry(status: int, retryCount: int)
  {
    var entry := RetryConfig(IntToDecimal(status));
    entry.Some? && retryCount < entry.value.maxRetries
  }

  /** The message `handleAPIError` throws with when it does not return. */
  function StatusMessage(status: int, message: Text): Text
  {
    if status == 401 then "API 密钥无效或无权限访问"
    else if status == 429 then "请求过于频繁，请稍后再试"
    else if status == 500 then "DeepSeek 服务器错误，请稍后再试"
    else if status == 503 then "DeepSeek 服务暂时不可用，请稍后再试"
    else "翻译失败（" + IntToDecimal(status) + "）：" + message
  }

  /** `handleAPIError(errorData, status, ...)` called with `retryCount`: a retry
    * whose nested call succeeds returns that text; otherwise it throws. */
  function HandleApiError(status: int, message: Text, retryCount: int, retry: Result<Text, Failure>): Result<Text, Failure>
  {
    if ShouldRetry(status, retryCount) && retry.Success? then Success(retry.value)
    else Failure(Error(StatusMessage(status, message)))
  }

  /** `callTranslateAPI`. After a rejected response it awaits `handleAPIError`
    * (with the default `retryCount` of 0), discards what that returns and
    * reads the same response body again, which throws. */
  function CallTranslateApi(apiKey: Text, reply: Reply, retry: Result<Text, Failure>): Result<Text, Failure>
  {
    if apiKey == [] then Failure(Error(MissingKeyMessage))
    else match reply
      case Answered(content) =>
        if content.None? || content.value == [] then Failure(Error(EmptyResultMessage)) else Success(content.value)
      case Unreachable(message) => Failure(Error(message))
      case Rejected(status, message) =>
        match HandleApiError(status, message, 0, retry)
        case Failure(f) => Failure(f)
        case Success(_) => Failure(BodyAlreadyRead)
  }

  /** The result returned for a translated text: online, romanized when the target is Korean. */
  function OnlineResult(text: Text, targetLang: Language, romanize: Text -> LibraryOutcome): TranslationResult
  {
    TranslationResult(text, if targetLang == Ko then Some(KoreanToRomanization(text, romanize)) else None, false, None)
  }

  /** `translateText` on cache state `st` at time `now`: the result and the new cache. */
  function Translate(st: CacheState, text: Text, sourceLang: Language, targetLang: Language, now: int,
                     apiKey: Text, reply: Reply, retry: Result<Text, Failure>,
                     romanize: Text -> LibraryOutcome): (Result<TranslationResult, Failure>, CacheState)
  {
    if IsBlank(text) then (Failure(Error(EmptyTextMessage)), st)
    else if |text| > MaxTextLength then (Failure(Error(TooLongMessage)), st)
    else
      var (cached, st1) := Get(st, text, sourceLang, targetLang, now);
      if cached.Some? then (Success(OnlineResult(cached.value, targetLang, romanize)), st1)
      else match CallTranslateApi(apiKey, reply, retry)
        case Failure(f) => (Failure(f), st1)
        case Success(t) => (Success(OnlineResult(t, targetLang, romanize)), Save(st1, text, sourceLang, targetLang, t, now))
  }

  /** `batchTranslate`: each text translated in turn against the evolving
    * cache; failures are skipped. `replies` and `retries` give the endpoint's
    * answers per text. */
  function Batch(st: CacheState, texts: seq<Text>, sourceLang: Language, targetLang: Language, now: int,
                 apiKey: Text, replies: Text -> Reply, retries: Text -> Result<Text, Failure>,
                 romanize: Text -> LibraryOutcome): (seq<TranslationResult>, CacheState)
  {
    if |texts| == 0 then ([], st)
    else
      var (results, st1) := Batch(st, texts[..|texts| - 1], sourceLang, targetLang, now, apiKey, replies, retries, romanize);
      var text := texts[|texts| - 1];
      var (r, st2) := Translate(st1, text, sourceLang, targetLang, now, apiKey, replies(text), retries(text), romanize);
      (if r.Success? then results + [r.value] else results, st2)
  }

  // ---------------------------------------------------------------------
  // Properties

  lemma DecimalKeys(status: int)
    ensures IntToDecimal(status) == "429" <==> status == 429
    ensures IntToDecimal(status) == "500" <==> status == 500
    ensures IntToDecimal(status) != "timeout"
  {
    var d := IntToDecimal(status);
    assert NatToDecimal(429) == "429";
    assert NatToDecimal(500) == "500";
    if status >= 0 {
      if d == "429" {
        NatToDecimalInjective(status, 429);
      }
      if d == "500" {
        NatToDecimalInjective(status, 500);
      }
      assert '0' <= d[0] <= '9';
    } else {
      assert d[0] == '-';
    }
  }

  /** Only statuses 429 and 500 are retried, and only on the first failure;
    * the 'timeout' entry never matches a numeric status. */
  lemma RetryOnlyFor429And500(status: int, retryCount: int)
    ensures ShouldRetry(status, retryCount) <==> (status == 429 || status == 500) && retryCount < 1
  {
    DecimalKeys(status);
  }

  /** A rejected response always ends the call with an error, even when the
    * retry succeeds: the retried text is never returned. */
  lemma RejectedCallAlwaysFails(apiKey: Text, status: int, message: Text, retry: Result<Text, Failure>)
    requires apiKey != []
    ensures var r := CallTranslateApi(apiKey, Rejected(status, message), retry);
      r == if (status == 429 || status == 500) && retry.Success? then Failure(BodyAlreadyRead)
           else Failure(Error(StatusMessage(status, message)))
  {
    RetryOnlyFor429And500(status, 0);
  }

  /** A call succeeds only with the non-empty content of an accepted response. */
  lemma CallSucceedsOnlyWithContent(apiKey: Text, reply: Reply, retry: Result<Text, Failure>)
    ensures CallTranslateApi(apiKey, reply, retry).Success? <==>
      apiKey != [] && reply.Answered? && reply.content.Some? && reply.content.value != []
    ensures CallTranslateApi(apiKey, reply, retry).Success? ==>
      CallTranslateApi(apiKey, reply, retry).value == reply.content.value
  {
    if apiKey != [] && reply.Rejected? {
      RejectedCallAlwaysFails(apiKey, reply.status, reply.message, retry);
    }
  }

  /** Blank or over-long input is refused before the cache is touched. */
  lemma InvalidInputRefused(st: CacheState, text: Text, sourceLang: Language, targetLang: Language, now: int,
                            apiKey: Text, reply: Reply, retry: Result<Text, Failure>, romanize: Text -> LibraryOutcome)
    requires IsBlank(text) || |text| > MaxTextLength
    ensures var (r, after) := Translate(st, text, sourceLang, targetLang, now, apiKey, reply, retry, romanize);
      r.Failure? && after == st
      && r.error == Error(if IsBlank(text) then EmptyTextMessage else TooLongMessage)
  {
  }

  /** A cache hit is answered without the endpoint: the reply plays no part. */
  lemma CacheHitIgnoresEndpoint(st: CacheState, text: Text, sourceLang: Language, targetLang: Language, now: int,
                                apiKey: Text, reply1: Reply, retry1: Result<Text, Failure>,
                                reply2: Reply, retry2: Result<Text, Failure>, romanize: Text -> LibraryOutcome)
    requires !IsBlank(text) && |text| <= MaxTextLength
    requires Get(st, text, sourceLang, targetLang, now).0.Some?
    ensures Translate(st, text, sourceLang, targetLang, now, apiKey, reply1, retry1, romanize)
         == Translate(st, text, sourceLang, targetLang, now, apiKey, reply2, retry2, romanize)
    ensures Translate(st, text, sourceLang, targetLang, now, apiKey, reply1, retry1, romanize).0
         == Success(OnlineResult(Get(st, text, sourceLang, targetLang, now).0.value, targetLang, romanize))
  {
  }

  /** Every success is online, and carries a romanization exactly when the target is Korean;
    * after a remote success the cache answers the same text until it expires. */
  lemma TranslateResultFacts(st: CacheState, text: Text, sourceLang: Language, targetLang: Language, now: int,
                             apiKey: Text, reply: Reply, retry: Result<Text, Failure>, romanize: Text -> LibraryOutcome)
    requires WellFormed(st)
    ensures var (r, after) := Translate(st, text, sourceLang, targetLang, now, apiKey, reply, retry, romanize);
      && WellFormed(after)
      && (r.Success? ==> !r.value.isOffline && (r.value.romanization.Some? <==> targetLang == Ko))
      && (r.Success? ==> Get(after, text, sourceLang, targetLang, now).0 == Some(r.value.translatedText))
  {
    var (r, after) := Translate(st, text, sourceLang, targetLang, now, apiKey, reply, retry, romanize);
    if !IsBlank(text) && |text| <= MaxTextLength {
      var (cached, st1) := Get(st, text, sourceLang, targetLang, now);
      GetHitsExactlyFresh(st, text, sourceLang, targetLang, now);
      if cached.Some? {
        CleanIdempotent(st, now);
      } else if CallTranslateApi(apiKey, reply, retry).Success? {
        var t := CallTranslateApi(apiKey, reply, retry).value;
        CallSucceedsOnlyWithContent(apiKey, reply, retry);
        SaveThenGet(st1, text, sourceLang, targetLang, t, now, now);
        SaveTouchesOnlyItsKey(st1, text, sourceLang, targetLang, t, now);
      }
    }
  }

  /** A text that passes validation and whose call would succeed (by
    * `CallSucceedsOnlyWithContent`: the endpoint answers it with content). */
  predicate Translatable(text: Text, apiKey: Text, reply: Reply, retry: Result<Text, Failure>)
  {
    !IsBlank(text) && |text| <= MaxTextLength && CallTranslateApi(apiKey, reply, retry).Success?
  }

  /** A valid text whose call would succeed is translated, from the cache or the endpoint. */
  lemma ValidTextIsTranslated(st: CacheState, text: Text, sourceLang: Language, targetLang: Language, now: int,
                              apiKey: Text, reply: Reply, retry: Result<Text, Failure>, romanize: Text -> LibraryOutcome)
    requires Translatable(text, apiKey, reply, retry)
    ensures Translate(st, text, sourceLang, targetLang, now, apiKey, reply, retry, romanize).0.Success?
  {
  }

  /** The batch keeps at most one result per text, all online, romanized exactly for Korean. */
  lemma {:induction false} BatchResultFacts(st: CacheState, texts: seq<Text>, sourceLang: Language, targetLang: Language,
                                            now: int, apiKey: Text, replies: Text -> Reply,
                                            retries: Text -> Result<Text, Failure>, romanize: Text -> LibraryOutcome)
    requires WellFormed(st)
    ensures var (results, after) := Batch(st, texts, sourceLang, targetLang, now, apiKey, replies, retries, romanize);
      && WellFormed(after)
      && |results| <= |texts|
      && (forall r :: r in results ==> !r.isOffline && (r.romanization.Some? <==> targetLang == Ko))
  {
    if |texts| > 0 {
      var init := texts[..|texts| - 1];
      var text := texts[|texts| - 1];
      BatchResultFacts(st, init, sourceLang, targetLang, now, apiKey, replies, retries, romanize);
      var (results, st1) := Batch(st, init, sourceLang, targetLang, now, apiKey, replies, retries, romanize);
      TranslateResultFacts(st1, text, sourceLang, targetLang, now, apiKey, replies(text), retries(text), romanize);
    }
  }

  /** When every text is translatable, nothing is skipped. */
  lemma {:induction false} BatchKeepsEverySuccess(st: CacheState, texts: seq<Text>, sourceLang: Language, targetLang: Language,
                                                  now: int, apiKey: Text, replies: Text -> Reply,
                                                  retries: Text -> Result<Text, Failure>, romanize: Text -> LibraryOutcome)
    requires forall t :: t in texts ==> Translatable(t, apiKey, replies(t), retries(t))
    ensures |Batch(st, texts, sourceLang, targetLang, now, apiKey, replies, retries, romanize).0| == |texts|
  {
    if |texts| > 0 {
      var init := texts[..|texts| - 1];
      var text := texts[|texts| - 1];
      assert forall t :: t in init ==> t in texts;
      BatchKeepsEverySuccess(st, init, sourceLang, targetLang, now, apiKey, replies, retries, romanize);
      var (results, st1) := Batch(st, init, sourceLang, targetLang, now, apiKey, replies, retries, romanize);
      ValidTextIsTranslated(st1, text, sourceLang, targetLang, now, apiKey, replies(text), retries(text), romanize);
    }
  }

  // ---------------------------------------------------------------------
  // The translator over the module's cache

  /** `translateText`. */
  method TranslateText(cache: TtlCache, text: Text, sourceLang: Language, targetLang: Language, now: int,
                       apiKey: Text, reply: Reply, retry: Result<Text, Failure>, romanize: Text -> LibraryOutcome)
    returns (r: Result<TranslationResult, Failure>)
    requires cache.Valid()
    modifies cache
    ensures cache.Valid()
    ensures (r, cache.State()) == Translate(old(cache.State()), text, sourceLang, targetLang, now, apiKey, reply, retry, romanize)
  {
    if IsBlank(text) {
      return Failure(Error(EmptyTextMessage));
    }
    if |text| > MaxTextLength {
      return Failure(Error(TooLongMessage));
    }
    var cached := cache.GetFromCache(text, sourceLang, targetLang, now);
    if cached.Some? {
      return Success(OnlineResult(cached.value, targetLang, romanize));
    }
    var translated := CallTranslateApi(apiKey, reply, retry);
    if translated.Failure? {
      return Failure(translated.error);
    }
    cache.SaveToCache(text, sourceLang, targetLang, translated.value, now);
    r := Success(OnlineResult(translated.value, targetLang, romanize));
  }

  /** `batchTranslate`: translates the texts in order, keeping the successes. */
  method BatchTranslate(cache: TtlCache, texts: seq<Text>, sourceLang: Language, targetLang: Language, now: int,
                        apiKey: Text, replies: Text -> Reply, retries: Text -> Result<Text, Failure>,
                        romanize: Text -> LibraryOutcome)
    returns (results: seq<TranslationResult>)
    requires cache.Valid()
    modifies cache
    ensures cache.Valid()
    ensures (results, cache.State())
         == Batch(old(cache.State()), texts, sourceLang, targetLang, now, apiKey, replies, retries, romanize)
  {
    results := [];
    var i := 0;
    while i < |texts|
      invariant 0 <= i <= |texts|
      invariant cache.Valid()
      invariant (results, cache.State())
             == Batch(old(cache.State()), texts[..i], sourceLang, targetLang, now, apiKey, replies, retries, romanize)
    {
      var text := texts[i];
      var r := TranslateText(cache, text, sourceLang, targetLang, now, apiKey, replies(text), retries(text), romanize);
      if r.Success? {
        results := results + [r.value];
      }
      assert texts[..i + 1][..i] == texts[..i];
      i := i + 1;
    }
    assert texts[..i] == texts;
  }
}
