/**
 * The translation router and the history store of the application's own
 * service: input validation, an offline catalog lookup through the phrase
 * matcher, the call to the application's `/api/translate` endpoint, and a
 * history list kept newest first and cut to a configurable size.
 */
module TranslationService {
  import opened Wrappers
  import opened JsStrings
  import opened TranslationTypes
  import opened TextScores
  import opened TextMatcher
  import StableSort
  import PhraseLibrary

  /** A catalog hit must score at least this much. */
  const OfflineMatchThreshold: real := 0.8
  const DefaultMaxHistorySize: int := 20
  const MaxTextLength: int := 5000

  const EmptyTextMessage: Text := "翻译文本不能为空"
  const TooLongMessage: Text := "翻译文本长度不能超过 5000 字符"
  const ServiceErrorPrefix: Text := "翻译服务错误: "
  /** Appended to the message of every failed remote call. */
  const RetryHint: Text := "。请检查网络连接或稍后再试。"

  /** What `/api/translate` answered: a translation, an HTTP error status
    * with the `error` field of the JSON body (None when the body has none or
    * is not JSON), or a rejection of the request itself with its message. */
  datatype RemoteReply =
    | Translated(translatedText: Text, romanization: Option<Text>)
    | HttpError(status: int, error: Option<Text>)
    | Thrown(message: Text)

  datatype TranslationStats = TranslationStats(
    totalTranslations: nat,
    offlineTranslations: nat,
    onlineTranslations: int,
    offlineRate: real,
    maxHistorySize: int)

  // ---------------------------------------------------------------------
  // The router

  /** `callDeepSeekTranslate`: an online result, or the message it throws. */
  function RemoteCall(reply: RemoteReply): Result<TranslationResult, Text>
  {
    match reply
    case Translated(t, romanization) => Success(TranslationResult(t, romanization, false, None))
    case HttpError(status, error) =>
      Failure(if error.Some? && error.value != [] then error.value else ServiceErrorPrefix + IntToDecimal(status))
    case Thrown(message) => Failure(message)
  }

  /** `searchOfflinePhrases` over the catalog `ps`: the matcher's answer at
    * threshold 0.8, kept only when its score is at least 0.8. */
  function OfflineHit(ps: seq<Phrase>, text: Text, lang: Language): Option<Phrase>
  {
    var m := Fuzzy(ps, text, lang, OfflineMatchThreshold, ScoreOf);
    if m.Some? && m.value.similarity >= OfflineMatchThreshold then Some(m.value.phrase) else None
  }

  /** The result served from a catalog phrase. */
  function OfflineResult(p: Phrase, targetLang: Language): TranslationResult
  {
    TranslationResult(TextIn(p, targetLang), if targetLang == Ko then Some(p.romanization) else None, true, Some(p))
  }

  /** Neither blank nor longer than the limit. */
  predicate Admissible(text: Text)
  {
    !IsBlank(text) && |text| <= MaxTextLength
  }

  /** `translateText` over the catalog `ps`, the endpoint answering `reply`. */
  function Translate(ps: seq<Phrase>, text: Text, sourceLang: Language, targetLang: Language, reply: RemoteReply): Result<TranslationResult, Text>
  {
    if IsBlank(text) then Failure(EmptyTextMessage)
    else if |text| > MaxTextLength then Failure(TooLongMessage)
    else match OfflineHit(ps, Trim(text), sourceLang)
      case Some(p) => Success(OfflineResult(p, targetLang))
      case None =>
        match RemoteCall(reply)
        case Success(result) => Success(result)
        case Failure(message) => Failure(message + RetryHint)
  }

  /** The history record `translateText` saves for a successful result. */
  function RecordOf(id: Text, trimmedText: Text, result: TranslationResult, sourceLang: Language, targetLang: Language, now: int): TranslationHistory
  {
    TranslationHistory(id, trimmedText, result.translatedText, sourceLang, targetLang, result.romanization, now, result.isOffline)
  }

  /** A hit is decided by the best candidate alone: the earliest best-scoring
    * candidate for the trimmed text, provided it scores at least 0.8. The
    * matcher's relaxed passes (0.64, 0.512, 0.4096) never produce a hit. */
  lemma OfflineHitIsBestCandidate(ps: seq<Phrase>, text: Text, lang: Language)
    ensures IsBlank(text) ==> OfflineHit(ps, text, lang) == None
    ensures !IsBlank(text) ==>
      var input := Trim(text);
      var scored := Scored(Candidates(ps, input, lang), input, lang, ScoreOf);
      OfflineHit(ps, text, lang) ==
        if |scored| > 0 && StableSort.FirstMax(scored, SimilarityOf).similarity >= OfflineMatchThreshold
        then Some(StableSort.FirstMax(scored, SimilarityOf).phrase)
        else None
  {
    if !IsBlank(text) {
      var input := Trim(text);
      var scored := Scored(Candidates(ps, input, lang), input, lang, ScoreOf);
      PassesIsBestCandidate(scored, OfflineMatchThreshold);
      LowestPassBounds(OfflineMatchThreshold);
    }
  }

  /** A hit is a catalog phrase whose text in the source language scores
    * between 0.8 and 0.9 against the trimmed input. */
  lemma OfflineHitFacts(ps: seq<Phrase>, text: Text, lang: Language)
    requires OfflineHit(ps, text, lang).Some?
    ensures OfflineHit(ps, text, lang).value in ps
    ensures OfflineMatchThreshold <= ScoreOf(Trim(text), TextIn(OfflineHit(ps, text, lang).value, lang)) <= 0.9
  {
    ScoreOfBounded();
    var input := Trim(text);
    var candidates := Candidates(ps, input, lang);
    var scored := Scored(candidates, input, lang, ScoreOf);
    PassesIsBestCandidate(scored, OfflineMatchThreshold);
    StableSort.FirstMaxIsMaximal(scored, SimilarityOf);
    ScoredFacts(candidates, input, lang, ScoreOf);
    CandidatesFromIndex(ps, input, lang);
  }

  /** What `translateText` answers: the two validation errors first; then a
    * catalog hit, served offline in the target language; then the endpoint's
    * translation, marked online; and every endpoint failure as its message
    * followed by the retry hint. */
  lemma TranslateFacts(ps: seq<Phrase>, text: Text, sourceLang: Language, targetLang: Language, reply: RemoteReply)
    ensures var r := Translate(ps, text, sourceLang, targetLang, reply);
      && (IsBlank(text) ==> r == Failure(EmptyTextMessage))
      && (!IsBlank(text) && |text| > MaxTextLength ==> r == Failure(TooLongMessage))
      && (r.Success? && r.value.isOffline ==>
            && r.value.matchedPhrase.Some? && r.value.matchedPhrase.value in ps
            && r.value.translatedText == (if targetLang == Zh then r.value.matchedPhrase.value.zh else r.value.matchedPhrase.value.ko)
            && (r.value.romanization.Some? <==> targetLang == Ko)
            && (targetLang == Ko ==> r.value.romanization.value == r.value.matchedPhrase.value.romanization))
      && (r.Success? && !r.value.isOffline ==>
            && Admissible(text) && OfflineHit(ps, Trim(text), sourceLang) == None
            && reply.Translated? && r.value == TranslationResult(reply.translatedText, reply.romanization, false, None))
      && (r.Failure? && Admissible(text) ==>
            && OfflineHit(ps, Trim(text), sourceLang) == None
            && RemoteCall(reply).Failure? && r.error == RemoteCall(reply).error + RetryHint)
  {
    if Admissible(text) && OfflineHit(ps, Trim(text), sourceLang).Some? {
      OfflineHitFacts(ps, Trim(text), sourceLang);
    }
  }

  /** The message of a failed endpoint call: the body's non-empty `error`
    * field, else the service error prefix and the HTTP status. */
  lemma RemoteFailureMessage(reply: RemoteReply)
    requires reply.HttpError?
    ensures RemoteCall(reply).Failure?
    ensures reply.error.Some? && reply.error.value != [] ==> RemoteCall(reply).error == reply.error.value
    ensures (reply.error.None? || reply.error.value == []) ==>
      && RemoteCall(reply).error[..|ServiceErrorPrefix|] == ServiceErrorPrefix
      && ParseInt(RemoteCall(reply).error[|ServiceErrorPrefix|..]) == Some(reply.status)
  {
    if reply.error.None? || reply.error.value == [] {
      var m := RemoteCall(reply).error;
      assert m == ServiceErrorPrefix + IntToDecimal(reply.status);
      assert m[|ServiceErrorPrefix|..] == IntToDecimal(reply.status);
      ParseIntOfDecimal(reply.status);
    }
  }

  // ---------------------------------------------------------------------
  // The history store

  /** `getMaxHistorySize` from the stored setting: 20 when it is missing,
    * empty or not a number for `parseInt`. */
  function MaxSize(setting: Option<Text>): int
  {
    match setting
    case None => DefaultMaxHistorySize
    case Some(s) =>
      if s == [] then DefaultMaxHistorySize
      else match ParseInt(s)
        case None => DefaultMaxHistorySize
        case Some(n) => n
  }

  /** `[item, ...history].slice(0, max)`. */
  function Saved(history: seq<TranslationHistory>, item: TranslationHistory, max: int): seq<TranslationHistory>
  {
    Slice([item] + history, 0, max)
  }

  /** `history.filter(item => item.id !== id)`. */
  function Deleted(history: seq<TranslationHistory>, id: Text): seq<TranslationHistory>
  {
    if history == [] then []
    else
      var last := history[|history| - 1];
      Deleted(history[..|history| - 1], id) + (if last.id != id then [last] else [])
  }

  /** The history after `setMaxHistorySize(size)`. */
  function ShrunkTo(history: seq<TranslationHistory>, size: int): seq<TranslationHistory>
  {
    if |history| > size then Slice(history, 0, size) else history
  }

  /** The number of records served offline. */
  function CountOffline(history: seq<TranslationHistory>): (n: nat)
    ensures n <= |history|
  {
    if history == [] then 0
    else CountOffline(history[..|history| - 1]) + (if history[|history| - 1].isOffline then 1 else 0)
  }

  /** `getTranslationStats` over the stored history and size setting. */
  function Stats(history: seq<TranslationHistory>, setting: Option<Text>): TranslationStats
  {
    var offline := CountOffline(history);
    TranslationStats(|history|, offline, |history| - offline,
      if |history| > 0 then offline as real / |history| as real else 0.0,
      MaxSize(setting))
  }

  /** The history stays within a non-negative size setting. */
  predicate WithinLimit(history: seq<TranslationHistory>, setting: Option<Text>)
  {
    MaxSize(setting) >= 0 ==> |history| <= MaxSize(setting)
  }

  /** Storing `String(size)` and reading it back gives `size`; a missing,
    * empty or non-numeric setting reads as 20. */
  lemma MaxSizeFacts(size: int, s: Text)
    ensures MaxSize(Some(IntToDecimal(size))) == size
    ensures MaxSize(None) == DefaultMaxHistorySize
    ensures s == [] || ParseInt(s) == None ==> MaxSize(Some(s)) == DefaultMaxHistorySize
  {
    ParseIntOfDecimal(size);
    var d := IntToDecimal(size);
    assert d != [] by {
      if size < 0 {
        assert d[0] == '-';
      } else {
        assert |NatToDecimal(size)| >= 1;
      }
    }
  }

  /** The new record comes first and the older ones follow in their order,
    * cut to the size setting: exactly `max` records when there are more,
    * and `max` records fewer than all when it is negative. */
  lemma SavedFacts(history: seq<TranslationHistory>, item: TranslationHistory, max: int)
    ensures var s := Saved(history, item, max);
      && s == ([item] + history)[..|s|]
      && (|s| > 0 ==> s[0] == item && s[1..] == history[..|s| - 1])
      && (max >= 0 ==> |s| == if max < |history| + 1 then max else |history| + 1)
      && (max < 0 ==> |s| == if -max < |history| + 1 then |history| + 1 + max else 0)
  {
    var all := [item] + history;
    var s := Saved(history, item, max);
    if max >= 0 {
      SlicePrefix(all, max);
    } else {
      SliceDropLast(all, -max);
    }
    if |s| > 0 {
      assert s[1..] == all[1..|s|];
      assert all[1..] == history;
    }
  }

  /** Deleting keeps exactly the records with another id, in their order. */
  lemma {:induction false} DeletedFacts(history: seq<TranslationHistory>, id: Text)
    ensures forall r :: r in Deleted(history, id) <==> r in history && r.id != id
    ensures |Deleted(history, id)| <= |history|
  {
    if history != [] {
      var init := history[..|history| - 1];
      DeletedFacts(init, id);
      assert history == init + [history[|history| - 1]];
    }
  }

  /** Filtering distributes over concatenation: records on either side of a
    * boundary stay on that side. */
  lemma {:induction false} DeletedAppend(front: seq<TranslationHistory>, back: seq<TranslationHistory>, id: Text)
    ensures Deleted(front + back, id) == Deleted(front, id) + Deleted(back, id)
    decreases |back|
  {
    if back == [] {
      assert front + back == front;
    } else {
      var init := back[..|back| - 1];
      DeletedAppend(front, init, id);
      assert (front + back)[..|front + back| - 1] == front + init;
    }
  }

  /** `setMaxHistorySize(size)` keeps the first `size` records of a longer
    * history, and the first `|history| + size` of them for a negative size. */
  lemma ShrunkToFacts(history: seq<TranslationHistory>, size: int)
    ensures var s := ShrunkTo(history, size);
      && s == history[..|s|]
      && (size >= 0 ==> |s| == if size < |history| then size else |history|)
      && WithinLimit(s, Some(IntToDecimal(size)))
  {
    MaxSizeFacts(size, []);
    if |history| > size {
      if size >= 0 {
        SlicePrefix(history, size);
      } else {
        SliceDropLast(history, -size);
      }
    }
  }

  /** Offline and online counts add up to the total; the offline rate is a
    * fraction, and 0 for an empty history. */
  lemma StatsFacts(history: seq<TranslationHistory>, setting: Option<Text>)
    ensures var st := Stats(history, setting);
      && st.totalTranslations == |history|
      && st.offlineTranslations + st.onlineTranslations == st.totalTranslations
      && st.onlineTranslations >= 0
      && 0.0 <= st.offlineRate <= 1.0
      && (|history| == 0 ==> st.offlineRate == 0.0)
      && ((forall i :: 0 <= i < |history| ==> history[i].isOffline) ==> st.offlineRate == (if |history| > 0 then 1.0 else 0.0))
  {
    var offline := CountOffline(history);
    if forall i :: 0 <= i < |history| ==> history[i].isOffline {
      AllOfflineCounted(history);
      if |history| > 0 {
        var total := |history| as real;
        assert offline as real == total;
        assert total / total == 1.0;
      }
    }
  }

  lemma {:induction false} AllOfflineCounted(history: seq<TranslationHistory>)
    requires forall i :: 0 <= i < |history| ==> history[i].isOffline
    ensures CountOffline(history) == |history|
  {
    if history != [] {
      AllOfflineCounted(history[..|history| - 1]);
    }
  }

  /** A save keeps the history within a non-negative size setting. */
  lemma SavedWithinLimit(history: seq<TranslationHistory>, item: TranslationHistory, setting: Option<Text>)
    ensures WithinLimit(Saved(history, item, MaxSize(setting)), setting)
  {
    SavedFacts(history, item, MaxSize(setting));
  }

  // ---------------------------------------------------------------------
  // Batches

  /** The outcome of `translateText` for each text, the endpoint answering
    * the trimmed text through `replies`. */
  function Outcomes(ps: seq<Phrase>, sourceLang: Language, targetLang: Language, replies: Text -> RemoteReply)
    : Text -> Result<TranslationResult, Text>
  {
    text => Translate(ps, text, sourceLang, targetLang, replies(Trim(text)))
  }

  /** `batchTranslate`: the successful outcomes in input order. */
  function BatchResults(texts: seq<Text>, outcome: Text -> Result<TranslationResult, Text>): seq<TranslationResult>
  {
    if texts == [] then []
    else
      var r := outcome(texts[|texts| - 1]);
      BatchResults(texts[..|texts| - 1], outcome) + (if r.Success? then [r.value] else [])
  }

  /** The history after `batchTranslate`: one save per successful text, the
    * k-th text's record taking the identifier `ids(k)`. */
  function BatchHistory(history: seq<TranslationHistory>, texts: seq<Text>, outcome: Text -> Result<TranslationResult, Text>,
                        sourceLang: Language, targetLang: Language, ids: nat -> Text, now: int, max: int): seq<TranslationHistory>
  {
    if texts == [] then history
    else
      var n := |texts| - 1;
      var before := BatchHistory(history, texts[..n], outcome, sourceLang, targetLang, ids, now, max);
      var r := outcome(texts[n]);
      if r.Success? then Saved(before, RecordOf(ids(n), Trim(texts[n]), r.value, sourceLang, targetLang, now), max) else before
  }

  /** Failures are skipped: the batch is never longer than its input and
    * every result is the outcome of some text of it. */
  lemma {:induction false} BatchResultsFromTexts(texts: seq<Text>, outcome: Text -> Result<TranslationResult, Text>)
    ensures var rs := BatchResults(texts, outcome);
      && |rs| <= |texts|
      && forall k :: 0 <= k < |rs| ==> exists j :: 0 <= j < |texts| && outcome(texts[j]) == Success(rs[k])
  {
    if texts != [] {
      var n := |texts| - 1;
      var init := texts[..n];
      BatchResultsFromTexts(init, outcome);
      var before := BatchResults(init, outcome);
      var rs := BatchResults(texts, outcome);
      forall k | 0 <= k < |rs|
        ensures exists j :: 0 <= j < |texts| && outcome(texts[j]) == Success(rs[k])
      {
        if k < |before| {
          var j :| 0 <= j < |init| && outcome(init[j]) == Success(before[k]);
          assert init[j] == texts[j];
        } else {
          assert outcome(texts[n]) == Success(rs[k]);
        }
      }
    }
  }

  /** Successes are kept in input order: when every text succeeds, the k-th
    * result is the k-th text's outcome. */
  lemma {:induction false} BatchKeepsEverySuccess(texts: seq<Text>, outcome: Text -> Result<TranslationResult, Text>)
    requires forall j :: 0 <= j < |texts| ==> outcome(texts[j]).Success?
    ensures var rs := BatchResults(texts, outcome);
      && |rs| == |texts|
      && forall k :: 0 <= k < |rs| ==> outcome(texts[k]) == Success(rs[k])
  {
    if texts != [] {
      var init := texts[..|texts| - 1];
      assert forall j :: 0 <= j < |init| ==> init[j] == texts[j];
      BatchKeepsEverySuccess(init, outcome);
    }
  }

  /** A batch keeps the history within a non-negative size setting. */
  lemma {:induction false} BatchHistoryWithinLimit(history: seq<TranslationHistory>, texts: seq<Text>,
                                                  outcome: Text -> Result<TranslationResult, Text>, sourceLang: Language,
                                                  targetLang: Language, ids: nat -> Text, now: int, setting: Option<Text>)
    requires WithinLimit(history, setting)
    ensures WithinLimit(BatchHistory(history, texts, outcome, sourceLang, targetLang, ids, now, MaxSize(setting)), setting)
  {
    if texts != [] {
      var n := |texts| - 1;
      BatchHistoryWithinLimit(history, texts[..n], outcome, sourceLang, targetLang, ids, now, setting);
      var before := BatchHistory(history, texts[..n], outcome, sourceLang, targetLang, ids, now, MaxSize(setting));
      var r := outcome(texts[n]);
      if r.Success? {
        SavedWithinLimit(before, RecordOf(ids(n), Trim(texts[n]), r.value, sourceLang, targetLang, now), setting);
      }
    }
  }

  // ---------------------------------------------------------------------
  // The module state: the phrase-index flag and the stored history

  /** The module's state: the shared matcher, the `isPhraseIndexInitialized`
    * flag, and the two stored values, the history list and the size setting
    * (the string kept under `translation_max_history_size`, None when absent). */
  class Service {
    const matcher: Matcher
    const catalog: seq<Phrase>
    var isPhraseIndexInitialized: bool
    var history: seq<TranslationHistory>
    var maxSizeSetting: Option<Text>

    ghost predicate Valid()
      reads this, matcher, matcher.phraseIndex
    {
      && matcher.Valid() && matcher.score == ScoreOf
      && (isPhraseIndexInitialized ==> matcher.phraseIndex != null && matcher.Built() == catalog)
      && WithinLimit(history, maxSizeSetting)
    }

    /** A service over the phrase catalog, with empty storage. */
    constructor()
      ensures Valid() && fresh(matcher)
      ensures catalog == PhraseLibrary.AllPhrases
      ensures !isPhraseIndexInitialized && history == [] && maxSizeSetting == None
    {
      matcher := new Matcher();
      catalog := PhraseLibrary.AllPhrases;
      isPhraseIndexInitialized := false;
      history := [];
      maxSizeSetting := None;
    }

    /** `initializePhraseIndex`: builds the index from the catalog once. */
    method InitializePhraseIndex()
      requires Valid()
      modifies this, matcher, matcher.phraseIndex
      ensures Valid() && isPhraseIndexInitialized && matcher.Built() == catalog
      ensures old(isPhraseIndexInitialized) ==> matcher.phraseIndex == old(matcher.phraseIndex)
      ensures matcher.phraseIndex == old(matcher.phraseIndex) || fresh(matcher.phraseIndex)
      ensures history == old(history) && maxSizeSetting == old(maxSizeSetting)
    {
      if !isPhraseIndexInitialized {
        matcher.InitPhraseIndex(catalog);
        isPhraseIndexInitialized := true;
      }
    }

    /** `initTranslationService`. */
    method InitTranslationService()
      requires Valid()
      modifies this, matcher, matcher.phraseIndex
      ensures Valid() && isPhraseIndexInitialized && matcher.Built() == catalog
      ensures history == old(history) && maxSizeSetting == old(maxSizeSetting)
    {
      InitializePhraseIndex();
    }

    /** `searchOfflinePhrases`: initializes the index, then asks the matcher. */
    method SearchOfflinePhrases(text: Text, sourceLang: Language) returns (p: Option<Phrase>)
      requires Valid()
      modifies this, matcher, matcher.phraseIndex
      ensures Valid() && isPhraseIndexInitialized
      ensures p == OfflineHit(catalog, text, sourceLang)
      ensures old(isPhraseIndexInitialized) ==> matcher.phraseIndex == old(matcher.phraseIndex)
      ensures matcher.phraseIndex == old(matcher.phraseIndex) || fresh(matcher.phraseIndex)
      ensures history == old(history) && maxSizeSetting == old(maxSizeSetting)
    {
      InitializePhraseIndex();
      var m := matcher.FuzzyMatch(text, sourceLang, OfflineMatchThreshold);
      if m.Some? && m.value.similarity >= OfflineMatchThreshold {
        return Some(m.value.phrase);
      }
      return None;
    }

    /** `getHistory`. */
    method GetHistory() returns (h: seq<TranslationHistory>)
      ensures h == history
    {
      h := history;
    }

    /** `getMaxHistorySize`. */
    method GetMaxHistorySize() returns (n: int)
      ensures n == MaxSize(maxSizeSetting)
    {
      n := DefaultMaxHistorySize;
      if maxSizeSetting.Some? && maxSizeSetting.value != [] {
        var size := ParseInt(maxSizeSetting.value);
        if size.Some? {
          n := size.value;
        }
      }
    }

    /** `saveToHistory`: the new record first, then the stored ones, cut to
    * the size setting. */
    method SaveToHistory(sourceText: Text, targetText: Text, sourceLang: Language, targetLang: Language,
                         isOffline: bool, romanization: Option<Text>, id: Text, now: int)
      requires Valid()
      modifies this
      ensures Valid()
      ensures history == Saved(old(history),
        TranslationHistory(id, sourceText, targetText, sourceLang, targetLang, romanization, now, isOffline),
        MaxSize(maxSizeSetting))
      ensures maxSizeSetting == old(maxSizeSetting) && isPhraseIndexInitialized == old(isPhraseIndexInitialized)
    {
      var item := TranslationHistory(id, sourceText, targetText, sourceLang, targetLang, romanization, now, isOffline);
      var existing := GetHistory();
      var maxSize := GetMaxHistorySize();
      SavedWithinLimit(existing, item, maxSizeSetting);
      history := Slice([item] + existing, 0, maxSize);
    }

    /** `clearHistory`. */
    method ClearHistory()
      requires Valid()
      modifies this
      ensures Valid() && history == []
      ensures maxSizeSetting == old(maxSizeSetting) && isPhraseIndexInitialized == old(isPhraseIndexInitialized)
    {
      history := [];
    }

    /** `clearAllCaches`: clears the history only. */
    method ClearAllCaches()
      requires Valid()
      modifies this
      ensures Valid() && history == []
      ensures maxSizeSetting == old(maxSizeSetting) && isPhraseIndexInitialized == old(isPhraseIndexInitialized)
    {
      ClearHistory();
    }

    /** `deleteHistoryItem`: drops every record with that id. */
    method DeleteHistoryItem(id: Text)
      requires Valid()
      modifies this
      ensures Valid() && history == Deleted(old(history), id)
      ensures maxSizeSetting == old(maxSizeSetting) && isPhraseIndexInitialized == old(isPhraseIndexInitialized)
    {
      var existing := GetHistory();
      DeletedFacts(existing, id);
      history := Deleted(existing, id);
    }

    /** `setMaxHistorySize`: stores `String(size)`, then cuts a longer history. */
    method SetMaxHistorySize(size: int)
      requires Valid()
      modifies this
      ensures Valid()
      ensures maxSizeSetting == Some(IntToDecimal(size)) && MaxSize(maxSizeSetting) == size
      ensures history == ShrunkTo(old(history), size)
      ensures isPhraseIndexInitialized == old(isPhraseIndexInitialized)
    {
      maxSizeSetting := Some(IntToDecimal(size));
      var current := GetHistory();
      ShrunkToFacts(current, size);
      MaxSizeFacts(size, []);
      if |current| > size {
        history := Slice(current, 0, size);
      }
    }

    /** `getTranslationStats`. */
    method GetTranslationStats() returns (st: TranslationStats)
      requires Valid()
      ensures st == Stats(history, maxSizeSetting)
    {
      var h := GetHistory();
      var offline := CountOffline(h);
      var maxSize := GetMaxHistorySize();
      st := TranslationStats(|h|, offline, |h| - offline,
        if |h| > 0 then offline as real / |h| as real else 0.0, maxSize);
    }

    /** `translateText`: validation, then the catalog, then the endpoint. A
      * failed endpoint call falls back to the same catalog lookup, which
      * cannot succeed where the first one failed, so the failure surfaces. */
    method TranslateText(text: Text, sourceLang: Language, targetLang: Language, reply: RemoteReply, id: Text, now: int)
      returns (r: Result<TranslationResult, Text>)
      requires Valid()
      modifies this, matcher, matcher.phraseIndex
      ensures Valid()
      ensures r == Translate(catalog, text, sourceLang, targetLang, reply)
      ensures history == if r.Success?
        then Saved(old(history), RecordOf(id, Trim(text), r.value, sourceLang, targetLang, now), MaxSize(maxSizeSetting))
        else old(history)
      ensures maxSizeSetting == old(maxSizeSetting)
      ensures isPhraseIndexInitialized == (old(isPhraseIndexInitialized) || Admissible(text))
      ensures !Admissible(text) ==> matcher.phraseIndex == old(matcher.phraseIndex)
      ensures matcher.phraseIndex == old(matcher.phraseIndex) || fresh(matcher.phraseIndex)
    {
      if IsBlank(text) {
        return Failure(EmptyTextMessage);
      }
      if |text| > MaxTextLength {
        return Failure(TooLongMessage);
      }
      var trimmedText := Trim(text);
      var matchedPhrase := SearchOfflinePhrases(trimmedText, sourceLang);
      if matchedPhrase.Some? {
        var result := OfflineResult(matchedPhrase.value, targetLang);
        SaveToHistory(trimmedText, result.translatedText, sourceLang, targetLang, true, result.romanization, id, now);
        return Success(result);
      }
      var call := RemoteCall(reply);
      if call.Success? {
        SaveToHistory(trimmedText, call.value.translatedText, sourceLang, targetLang, false, call.value.romanization, id, now);
        return Success(call.value);
      }
      var partialMatch := SearchOfflinePhrases(trimmedText, sourceLang);
      if partialMatch.Some? {
        // The same lookup over the same index has just found nothing.
        assert false;
      }
      return Failure(call.error + RetryHint);
    }

    /** `batchTranslate`: each text in turn; failures are skipped. */
    method BatchTranslate(texts: seq<Text>, sourceLang: Language, targetLang: Language,
                          replies: Text -> RemoteReply, ids: nat -> Text, now: int)
      returns (results: seq<TranslationResult>)
      requires Valid()
      modifies this, matcher, matcher.phraseIndex
      ensures Valid()
      ensures results == BatchResults(texts, Outcomes(catalog, sourceLang, targetLang, replies))
      ensures history == BatchHistory(old(history), texts, Outcomes(catalog, sourceLang, targetLang, replies),
                                      sourceLang, targetLang, ids, now, MaxSize(maxSizeSetting))
      ensures maxSizeSetting == old(maxSizeSetting)
    {
      ghost var outcome := Outcomes(catalog, sourceLang, targetLang, replies);
      results := [];
      var i := 0;
      while i < |texts|
        invariant 0 <= i <= |texts|
        invariant Valid() && maxSizeSetting == old(maxSizeSetting)
        invariant matcher.phraseIndex == old(matcher.phraseIndex) || fresh(matcher.phraseIndex)
        invariant results == BatchResults(texts[..i], outcome)
        invariant history == BatchHistory(old(history), texts[..i], outcome, sourceLang, targetLang, ids, now, MaxSize(maxSizeSetting))
      {
        assert texts[..i + 1][..i] == texts[..i];
        var r := TranslateText(texts[i], sourceLang, targetLang, replies(Trim(texts[i])), ids(i), now);
        assert r == outcome(texts[i]);
        if r.Success? {
          results := results + [r.value];
        }
        i := i + 1;
      }
      assert texts[..i] == texts;
    }
  }
}
