# Currency exchange and travel companion — a verified model of its core

The application helps a traveller in Korea. It converts between won and
yuan, estimates the tourist tax refund, keeps a shared trip ledger, and
translates between Chinese and Korean. This Dafny project models the parts
of it that decide things and proves what they promise:

- **The offline translator.** A catalog of 175 phrases in six categories
  (`PhraseLibrary`); the phrase index and fuzzy matcher over it
  (`TextMatcher`, scores in `TextScores`); language detection
  (`LanguageDetection`); and romanization with its fallback placeholder
  (`Romanizer`).
- **The online translators.**
  - Both keep a one-hour cache (`TranslationCache`, one class for the two
    identical caches).
  - `DeepSeekTranslate` has its error and retry table.
  - `GoogleTranslate` has its error table and chunked batch mode.
  - The router tries the catalog first and the remote translator second,
    and keeps a bounded history (`TranslationService`).
- **The trip ledger.** Settlement, grouping by date and personal totals
  (`TripCalculations`, types in `TripTypes`); the exchange rate service
  with its one-hour stored rate (`Exchange`); and the refund tiers
  (`TaxRefund`).
- **The dialogs and hooks.**
  - The ledger has the settlement, new-transaction and settings dialogs
    (`SettlementModal`, `AddTransactionModal`, `SettingsModal`) and the
    avatar row (`TravelerAvatars`).
  - The translation card has the favourites dialog, the history dialog,
    the translation hook, relative times and image recognition
    (`QuickPhrasesModal`, `HistoryModal`, `UseTranslation`, `FormatDate`,
    `OcrService`).
- **Shared helpers.** `Wrappers` (Option and Result), `JsStrings` (the
  JavaScript string operations the code relies on: `trim`, `slice` with
  negative indexes, `split`/`join`, `includes`, `parseInt` and decimal
  printing) and `StableSort` (`Array.prototype.sort`, which is stable,
  with a descending numeric comparator).

Each module follows one source file and keeps its form:

- **Code that updates state in place is a `class`.** This covers the
  caches, the exchange service, the translation service, the hook and the
  dialogs. Each method's `ensures` gives the whole new state, usually as a
  pure transition function of the old state (`State() == Swapped(old(State()))`).
- **Loops are methods with invariants.** These are the Levenshtein table,
  the common-substring search, index building, cache cleaning, settlement,
  grouping, the refund scan and the batch loops. Each is proved equal to a
  specification function.
- **What the program reads from outside is a parameter.** This includes the
  clock (`now`), the remote services' replies, the romanizer library,
  Tesseract's outcome, `parseFloat`, `toString`/`toFixed`, the local
  calendar rendering, and what local storage holds.
- **Numbers are `real`.** JavaScript's `Math.round`, `parseInt` and
  `String(n)` are written out where the code depends on them.

## Behaviour worth knowing

These are behaviours of the code as written. The model keeps them and the
lemmas named here state them.

- **Toggling a split member can empty the list.** When the split list
  holds one traveler twice, `toggleSplitAmong` filters out both
  (`AddTransactionModal.ToggledFacts`).
- **`translate("")` clears the source text.** The hook translates the
  current source text, then replaces it with the empty argument
  (`UseTranslation.EmptyArgumentClearsSourceOnSuccess`).
- **Personal totals match when nobody is listed twice.** A settlement
  row agrees with `calculatePersonalSpent`/`calculatePersonalShare` for
  duplicate-free traveler and split lists (`TripCalculations.RowsMatchPersonalTotals`).
  A traveler named twice in an even split is charged twice in the
  settlement row and once in the personal share
  (`TripCalculations.DuplicateSharerChargedTwice`).
- **Negative limits drop from the end or the start.**
  - A negative stored history size makes `slice(0, n)` drop the last
    records (`TranslationService.SavedFacts`).
  - A negative `maxDisplay` drops the first travelers
    (`TravelerAvatars.DisplayedFacts`).
- **The avatar label "?" is ambiguous.** It marks both an empty name and a
  name ending in "?" (`TravelerAvatars.LabelFacts`).
- **The header comment overstates the catalog.** It promises 200+ phrases;
  there are 175. Two Chinese texts repeat (one of them three times) and one Korean text occurs twice
  (`PhraseLibrary.CatalogTotals`, `PhraseLibrary.DuplicateZhLost`,
  `PhraseLibrary.DuplicateZhNeverMind`, `PhraseLibrary.DuplicateKoReserved`).
- **The offline fallback never finds anything new.** After a remote
  failure, the router repeats the same offline search, so every remote
  failure surfaces as an error with the retry hint
  (`TranslationService.TranslateFacts`).
- **A retried DeepSeek response is discarded.** A rejected response that
  is retried still fails the call, because the first response's body is
  read a second time (`DeepSeekTranslate.RejectedCallAlwaysFails`).
- **Two rate conventions coexist.** The ledger converts won to yuan by
  dividing by its rate (`convertKRWToCNY`). The exchange service
  multiplies, since its rate is yuan per won.

## Model

| member | source | states |
|---|---|---|
| TextScores.Lev | src/utils/textMatcher.ts:146-182 | the edit distance lies between the length difference and the longer length |
| TextScores.CellBorders | src/utils/textMatcher.ts:156-161 | the first column of the table holds i and the first row holds j |
| TextScores.CellStep | src/utils/textMatcher.ts:164-178 | an inner cell copies its diagonal on equal characters, otherwise takes the cheapest of delete, insert and substitute plus one |
| TextScores.LevenshteinDistance | src/utils/textMatcher.ts:146-182 | the table-filling loops return the edit distance `Lev(a, b)` |
| TextScores.LevSelf | src/utils/textMatcher.ts:146-182 | the distance of a string to itself is 0 |
| TextScores.LevZeroOnlyIfEqual | src/utils/textMatcher.ts:146-182 | distance 0 only between equal strings |
| TextScores.LevSymmetric | src/utils/textMatcher.ts:146-182 | the distance is symmetric |
| TextScores.Ratio | src/utils/textMatcher.ts:197-199 | a distance no larger than the longer length gives a ratio in (0, 1] |
| TextScores.SimilarityOfDifferent | src/utils/textMatcher.ts:191-202 | for different non-empty strings the similarity is 1 - distance / longer length, in [0, 1) |
| TextScores.SimilarityRange | src/utils/textMatcher.ts:191-202 | the similarity lies in [0, 1]; it is 1 exactly for equal strings (two empty strings included) and 0 when exactly one string is empty |
| TextScores.ContainsSubstringFacts | src/utils/textMatcher.ts:211-214 | a match needs a non-empty search no longer than the text; a non-empty string contains itself |
| TextScores.IncludesPrefix | src/utils/textMatcher.ts:232-241 | a text containing a string contains each of its prefixes, which is why the descending-length loop adds nothing |
| TextScores.HasCommonSubstring | src/utils/textMatcher.ts:224-247 | the loops report true exactly when both strings are at least m long and some length-m window of the first occurs in the second |
| TextScores.SubstringBonus | src/utils/textMatcher.ts:264-274 | the bonus is 0, 0.1, or in (0, 0.3] |
| TextScores.MatchScoreRange | src/utils/textMatcher.ts:261-287 | the score is defined exactly when one string is non-empty (two empty strings give NaN), and then lies in [0, 0.9] |
| TextScores.ScoreParts | src/utils/textMatcher.ts:264-281 | the penalty lies in [0, 0.2] and is 0 exactly for equal lengths; the bonus lies in [0, 0.3] |
| TextScores.ExactMatchScore | src/utils/textMatcher.ts:261-287 | an exact match scores 0.9, not 1 |
| TextScores.ScoreOfLongerInput | src/utils/textMatcher.ts:261-287 | ("你好呀", "你好") scores 2/5 + 1/10 - 1/15 = 13/30 |
| TextMatcher.AddToBucket | src/utils/textMatcher.ts:52-55 | create-if-missing then push appends the phrase to that key's bucket |
| TextMatcher.BucketsSnoc | src/utils/textMatcher.ts:49-74 | one more phrase pushes it onto its key's bucket; a new key joins the key order at the end |
| TextMatcher.BucketsAreFilters | src/utils/textMatcher.ts:42-75 | each bucket is the input filtered to that key, in input order; a key is present exactly when a phrase has it |
| TextMatcher.MatchingMembers | src/utils/textMatcher.ts:58-73 | a phrase is in a bucket exactly when it was built and has that key (first characters only for non-empty texts) |
| TextMatcher.KeyOrderDistinct | src/utils/textMatcher.ts:104-106 | the category order lists each category once |
| TextMatcher.ConcatIgnoresOtherKeys | src/utils/textMatcher.ts:104-106 | the flattened list ignores buckets whose key is not listed |
| TextMatcher.ConcatAppendOne | src/utils/textMatcher.ts:104-106 | pushing onto a listed bucket adds exactly that phrase to the flattened list |
| TextMatcher.InIndexOrderIsPermutation | src/utils/textMatcher.ts:101-108 | `getAll` returns every built phrase exactly once |
| TextMatcher.IndexStateStep | src/utils/textMatcher.ts:49-74 | one loop iteration of `build` keeps the three maps equal to the buckets of the phrases seen so far |
| TextMatcher.PhraseIndex.constructor | src/utils/textMatcher.ts:29-37 | a new index is empty |
| TextMatcher.PhraseIndex.Build | src/utils/textMatcher.ts:42-75 | the maps are cleared and then hold exactly the buckets of the given phrases, so rebuilding is idempotent |
| TextMatcher.PhraseIndex.GetByCategory | src/utils/textMatcher.ts:80-82 | the built phrases of that category, in build order, or none |
| TextMatcher.PhraseIndex.GetByZhFirstChar | src/utils/textMatcher.ts:87-89 | the built phrases whose Chinese text starts with that character, in build order |
| TextMatcher.PhraseIndex.GetByKoFirstChar | src/utils/textMatcher.ts:94-96 | the built phrases whose Korean text starts with that character, in build order |
| TextMatcher.PhraseIndex.GetAll | src/utils/textMatcher.ts:101-108 | the category buckets concatenated in first-appearance order; each built phrase appears once |
| TextMatcher.PassMeasureDecreases | src/utils/textMatcher.ts:354-356 | multiplying a threshold above 0.5 by 0.8 lowers the pass count, so the relaxation terminates |
| TextMatcher.LowestPassBounds | src/utils/textMatcher.ts:354-356 | the last pass threshold is at most the first, and above 0.4 when the first is above 0.5 |
| TextMatcher.DefaultPassFloors | src/utils/textMatcher.ts:300-356 | passes from 0.8 end at 0.4096 and passes from the default 0.7 end at 0.448 |
| TextMatcher.ScoreOfBounded | src/utils/textMatcher.ts:261-287 | the score used by the matcher lies in [0, 0.9] |
| TextMatcher.Scored | src/utils/textMatcher.ts:334-351 | every candidate is scored, against its text in the source language |
| TextMatcher.PassesIsBestCandidate | src/utils/textMatcher.ts:348-370 | the passes return the first highest-scoring candidate when its score reaches the lowest pass threshold, else nothing |
| TextMatcher.ScoredFacts | src/utils/textMatcher.ts:334-351 | every scored candidate comes from the candidate list, carries the source language and its score, which lies in [0, 0.9] |
| TextMatcher.CandidatesFromIndex | src/utils/textMatcher.ts:317-329 | candidates are built phrases: the first-character bucket, or all phrases when it has fewer than 5 |
| TextMatcher.PassesResultFacts | src/utils/textMatcher.ts:348-370 | a match is a built phrase, scores at least the lowest pass threshold and at most 0.9, and no candidate scores higher |
| TextMatcher.FuzzyResultFacts | src/utils/textMatcher.ts:297-371 | blank input matches nothing; a match is a built phrase in the source language scoring at least the lowest pass threshold |
| TextMatcher.SortedPrefixCut | src/utils/textMatcher.ts:439-440 | the first `limit` entries of a sorted list are sorted, at most `limit` long and taken from the list |
| TextMatcher.SimilarFacts | src/utils/textMatcher.ts:397-441 | at most `limit` results, sorted by descending score, each scoring above 0.3 |
| TextMatcher.SimilarKeepsTop | src/utils/textMatcher.ts:397-441 | blank input finds nothing; otherwise the result holds min(limit, n) of the n candidates above 0.3 (all of them when the limit reaches n, all but the last -limit for a negative limit), and no candidate above 0.3 that is left out scores higher than any result |
| TextMatcher.SlicedTop | src/utils/textMatcher.ts:438-440 | `slice(0, limit)` of the sorted copy has the length `slice` gives, is drawn from the list, and nothing left out has a larger key than anything kept |
| TextMatcher.CollectMatches | src/utils/textMatcher.ts:332-351 | the loop keeps exactly the candidates scoring at least the threshold, in candidate order |
| TextMatcher.CollectAbove | src/utils/textMatcher.ts:414-436 | the loop keeps exactly the candidates scoring above 0.3, in candidate order |
| TextMatcher.SelectCandidates | src/utils/textMatcher.ts:317-329 | the candidate list chosen from the index is `Candidates` of the built phrases |
| TextMatcher.Matcher.constructor | src/utils/textMatcher.ts:114 | no index exists yet |
| TextMatcher.Matcher.GetPhraseIndex | src/utils/textMatcher.ts:119-124 | returns the existing index, or a fresh empty one which is kept |
| TextMatcher.Matcher.InitPhraseIndex | src/utils/textMatcher.ts:131-134 | the (possibly new) index is rebuilt from the phrases |
| TextMatcher.Matcher.ClearPhraseIndex | src/utils/textMatcher.ts:446-448 | the index is dropped |
| TextMatcher.Matcher.FuzzyMatch | src/utils/textMatcher.ts:297-371 | the result is `Fuzzy` of the built phrases; the built phrases do not change |
| TextMatcher.Matcher.BatchFuzzyMatch | src/utils/textMatcher.ts:381-387 | one result per input, each the `fuzzyMatch` of that input |
| TextMatcher.Matcher.FindSimilarPhrases | src/utils/textMatcher.ts:397-441 | the result is `Similar` of the built phrases, so by `SimilarFacts` and `SimilarKeepsTop` it is the best min(limit, n) of the n phrases scoring above 0.3, best first, leaving the index unchanged |
| LanguageDetection.HangulRangeIsSyllableBlock | src/utils/detectLanguage.ts:22-23 | U+AC00..U+D7A3 is SBase..SBase+SCount-1 of section 3.12 of the Unicode Standard |
| LanguageDetection.HangulIsNotWhitespace | src/utils/detectLanguage.ts:15-23 | a Hangul syllable is never trimmed away |
| LanguageDetection.ContainsHangulTrim | src/utils/detectLanguage.ts:15-23 | trimming keeps exactly the Hangul test's answer |
| LanguageDetection.DetectLanguageIsHangulTest | src/utils/detectLanguage.ts:14-39 | the result is 'ko' exactly when the text holds a Hangul syllable, else 'zh' (blank text included), so the CJK test never changes it |
| LanguageDetection.KoreanIffNotChinese | src/utils/detectLanguage.ts:44-53 | `isKorean(t) == !isChinese(t)` for every t |
| LanguageDetection.DetectLanguageIgnoresPadding | src/utils/detectLanguage.ts:15 | surrounding whitespace does not change the result |
| Romanizer.PlaceholderEncodesLength | src/utils/romanizer.ts:34 | the placeholder is `[韩文发音: N 字]` with N the text's length, read back exactly |
| Romanizer.RomanizationCases | src/utils/romanizer.ts:21-36 | blank text gives ''; otherwise the library result is returned, or the non-empty placeholder when the library throws |
| Romanizer.NeedsRomanizationIffKorean | src/utils/romanizer.ts:79-87 | `needsRomanization(t) == (detectLanguage(t) == 'ko')` |
| Romanizer.SmartRomanizationKeepsNonKorean | src/utils/romanizer.ts:104-116 | blank gives ''; text without a Hangul syllable comes back unchanged; otherwise it is romanized |
| Romanizer.BatchIsElementwise | src/utils/romanizer.ts:52-62 | same length as the input, element-wise `koreanToRomanization` (empty for empty input) |
| PhraseLibrary.GroupSizesMatchMetadata | src/data/phraseLibrary.ts:18-49 | every group has exactly the size its metadata declares: 35/30/30/25/30/25 |
| PhraseLibrary.GroupEntriesTagged | src/data/phraseLibrary.ts:55-1352 | entry i of a group carries that group's category tag, the id `<category>_NN` with NN = i + 1, and its own texts |
| PhraseLibrary.CatalogTotals | src/data/phraseLibrary.ts:1357-1392 | the catalog holds 175 entries in 6 categories (the header comment claims 200+) and the breakdown matches the metadata counts |
| PhraseLibrary.CatalogLaid | src/data/phraseLibrary.ts:1357-1376 | `ALL_PHRASES` is the six groups of `PHRASES_BY_CATEGORY`, in category order, with the declared sizes |
| PhraseLibrary.LaidLocate | src/data/phraseLibrary.ts:1357-1364 | in such a concatenation every position falls in exactly one group, at its offset |
| PhraseLibrary.LaidAt | src/data/phraseLibrary.ts:1357-1364 | in such a concatenation entry k of a group sits at its group's offset plus k |
| PhraseLibrary.Locate | src/data/phraseLibrary.ts:1357-1376 | each catalog position is an entry of the group it falls in |
| PhraseLibrary.DecimalDigitInjective | src/data/phraseLibrary.ts:55-1352 | different digits print differently |
| PhraseLibrary.IdForInjective | src/data/phraseLibrary.ts:55-1352 | different (category, ordinal) pairs spell different ids |
| PhraseLibrary.LaidIdsUnique | src/data/phraseLibrary.ts:1357-1364 | in such a concatenation, ids given by position are all distinct |
| PhraseLibrary.CatalogIdsByPosition | src/data/phraseLibrary.ts:55-1352 | every entry's id is the one of its position in its group |
| PhraseLibrary.CatalogIdsUnique | src/data/phraseLibrary.ts:55-1364 | no two catalog entries share an id |
| PhraseLibrary.RestaurantTextsNonEmpty | src/data/phraseLibrary.ts:55-307 | every restaurant entry has non-empty Chinese, Korean and romanization texts |
| PhraseLibrary.ShoppingTextsNonEmpty | src/data/phraseLibrary.ts:313-530 | the same for the shopping group |
| PhraseLibrary.TransportationTextsNonEmpty | src/data/phraseLibrary.ts:536-753 | the same for the transportation group |
| PhraseLibrary.EmergencyTextsNonEmpty | src/data/phraseLibrary.ts:759-941 | the same for the emergency group |
| PhraseLibrary.AccommodationTextsNonEmpty | src/data/phraseLibrary.ts:947-1164 | the same for the accommodation group |
| PhraseLibrary.GreetingTextsNonEmpty | src/data/phraseLibrary.ts:1170-1352 | the same for the greeting group |
| PhraseLibrary.GroupTextsNonEmpty | src/data/phraseLibrary.ts:55-1352 | every group's entries have non-empty texts |
| PhraseLibrary.CatalogTextsNonEmpty | src/data/phraseLibrary.ts:1357-1364 | every catalog entry has non-empty texts, so each enters both first-character indexes |
| PhraseLibrary.CatalogEntryAt | src/data/phraseLibrary.ts:1357-1364 | the catalog entry at a group's offset plus k has the texts of that group's entry k |
| PhraseLibrary.LostTexts | src/data/phraseLibrary.ts:626-776 | transportation entry 13 and emergency entry 3 both read '我迷路了' |
| PhraseLibrary.NeverMindTexts | src/data/phraseLibrary.ts:1194-1317 | greeting entries 4, 19 and 21 all read '没关系' |
| PhraseLibrary.ReservedTexts | src/data/phraseLibrary.ts:951 | restaurant entry 12 and accommodation entry 1 both read '예약했어요' |
| PhraseLibrary.DuplicateZhLost | src/data/phraseLibrary.ts:626-776 | '我迷路了' occurs at catalog positions 77 and 97 under different ids |
| PhraseLibrary.DuplicateZhNeverMind | src/data/phraseLibrary.ts:1194-1317 | '没关系' occurs at catalog positions 153, 168 and 170 |
| PhraseLibrary.DuplicateKoReserved | src/data/phraseLibrary.ts:951 | '예약했어요' occurs at catalog positions 11 and 120 under different ids |
| TranslationCache.LangCode | src/utils/deepseekTranslate.ts:217 | a language code is two characters |
| TranslationCache.CacheKeyInjective | src/utils/deepseekTranslate.ts:212-218 | two keys are equal exactly when text, source and target language are |
| TranslationCache.ExpiredKeysMembers | src/utils/deepseekTranslate.ts:235-239 | the keys collected are exactly the stored entries older than one hour |
| TranslationCache.LiveOrderMembers | src/utils/deepseekTranslate.ts:230-243 | the remaining key order holds exactly the keys that are not expired, once each |
| TranslationCache.CleanKeepsExactlyFresh | src/utils/deepseekTranslate.ts:230-243 | cleaning deletes exactly the entries with now - timestamp > 3 600 000 and leaves the others unchanged |
| TranslationCache.CleanIdempotent | src/utils/deepseekTranslate.ts:230-243 | cleaning twice at the same time is cleaning once |
| TranslationCache.LiveOrderFresh | src/utils/deepseekTranslate.ts:230-243 | with nothing expired the key order is kept |
| TranslationCache.GetHitsExactlyFresh | src/utils/deepseekTranslate.ts:263-275 | a hit happens exactly when the key is stored, fresh and its text non-empty, and returns that text; afterwards no expired entry remains |
| TranslationCache.SaveTouchesOnlyItsKey | src/utils/deepseekTranslate.ts:292-303 | saving writes its own key with `timestamp = now` and changes no other entry |
| TranslationCache.SaveThenGet | src/utils/deepseekTranslate.ts:263-303 | a saved text is found again while fresh, unless it is empty |
| TranslationCache.SaveKeepsOtherLookups | src/utils/deepseekTranslate.ts:292-303 | saving changes no other key's lookup |
| TranslationCache.DistinctSize | src/utils/deepseekTranslate.ts:604-605 | a duplicate-free key list has as many keys as its set |
| TranslationCache.StatsCountsFreshEntries | src/utils/deepseekTranslate.ts:601-607 | the size reported is the number of keys listed, and these are exactly the fresh entries |
| TranslationCache.WithoutMembers | src/utils/deepseekTranslate.ts:242 | deleting keys leaves exactly the others |
| TranslationCache.WithoutMore | src/utils/deepseekTranslate.ts:242 | deleting one more key after some is deleting them all |
| TranslationCache.WithoutExpiredIsLive | src/utils/deepseekTranslate.ts:235-242 | deleting the collected keys leaves the live key order |
| TranslationCache.PruneMore | src/utils/deepseekTranslate.ts:242 | deleting one more entry after some is deleting them all |
| TranslationCache.DeletingExpiredKeysCleans | src/utils/deepseekTranslate.ts:230-243 | collecting then deleting the expired keys yields the cleaned cache |
| TranslationCache.WithoutNothing | src/utils/deepseekTranslate.ts:242 | deleting no key changes nothing |
| TranslationCache.CollectExpiredKeys | src/utils/deepseekTranslate.ts:232-239 | the loop collects exactly the expired keys, in insertion order |
| TranslationCache.TtlCache.constructor | src/utils/deepseekTranslate.ts:125 | a new cache is empty |
| TranslationCache.TtlCache.Delete | src/utils/deepseekTranslate.ts:242 | `Map.delete` drops that key and its place in the order |
| TranslationCache.TtlCache.DeleteAll | src/utils/deepseekTranslate.ts:242 | the delete loop drops exactly the given keys |
| TranslationCache.TtlCache.CleanExpiredCache | src/utils/deepseekTranslate.ts:230-243 | the new cache is `Clean` of the old one |
| TranslationCache.TtlCache.GetFromCache | src/utils/deepseekTranslate.ts:263-275 | the answer and the new cache are `Get` of the old cache |
| TranslationCache.TtlCache.SaveToCache | src/utils/deepseekTranslate.ts:292-303 | the new cache is `Save` of the old one |
| TranslationCache.TtlCache.ClearTranslationCache | src/utils/deepseekTranslate.ts:583-585 | the cache is empty |
| TranslationCache.TtlCache.GetCacheStats | src/utils/deepseekTranslate.ts:601-607 | the cache is cleaned and its size and keys reported |
| DeepSeekTranslate.DecimalKeys | src/utils/deepseekTranslate.ts:423 | `String(status)` is '429' or '500' exactly for those statuses and is never 'timeout' |
| DeepSeekTranslate.RetryOnlyFor429And500 | src/utils/deepseekTranslate.ts:423-426 | a retry happens exactly for status 429 or 500 with `retryCount < 1`; the 'timeout' entry never matches |
| DeepSeekTranslate.RejectedCallAlwaysFails | src/utils/deepseekTranslate.ts:367-457 | a rejected response always fails the call: with the status message, or, after a successful retry, because the body is read a second time; the retried text is discarded |
| DeepSeekTranslate.CallSucceedsOnlyWithContent | src/utils/deepseekTranslate.ts:330-386 | a call succeeds exactly with a key and an accepted response with non-empty content, and returns that content |
| DeepSeekTranslate.InvalidInputRefused | src/utils/deepseekTranslate.ts:500-506 | blank or over-5000-character text fails with its message and leaves the cache untouched |
| DeepSeekTranslate.CacheHitIgnoresEndpoint | src/utils/deepseekTranslate.ts:509-517 | a cache hit is answered (online, from the cached text) whatever the endpoint would say |
| DeepSeekTranslate.TranslateResultFacts | src/utils/deepseekTranslate.ts:494-534 | a success is online with a romanization exactly for Korean, and afterwards the cache answers the same text |
| DeepSeekTranslate.ValidTextIsTranslated | src/utils/deepseekTranslate.ts:494-534 | a valid text whose call succeeds is translated |
| DeepSeekTranslate.BatchResultFacts | src/utils/deepseekTranslate.ts:552-570 | at most one result per text, each online and romanized exactly for Korean |
| DeepSeekTranslate.BatchKeepsEverySuccess | src/utils/deepseekTranslate.ts:559-567 | when every text can be translated, no text is skipped |
| DeepSeekTranslate.TranslateText | src/utils/deepseekTranslate.ts:494-534 | result and new cache are `Translate` of the old cache |
| DeepSeekTranslate.BatchTranslate | src/utils/deepseekTranslate.ts:552-570 | the loop's results and cache are `Batch` of the old cache: successes in input order |
| GoogleTranslate.LastChunkStart | src/utils/googleTranslate.ts:346-347 | the last chunk starts at a multiple of 50 and holds at most 50 texts |
| GoogleTranslate.ExtractRomanizationIsFallback | src/utils/googleTranslate.ts:170-187 | the romanization is the same placeholder `[韩文发音: N 字]` as the romanizer's fallback, and "" for blank text |
| GoogleTranslate.ForbiddenSplitsOnQuota | src/utils/googleTranslate.ts:255-259 | a 403 reports the quota message exactly when the message mentions "quota", otherwise the forbidden message |
| GoogleTranslate.RejectedCallFails | src/utils/googleTranslate.ts:225-267 | with a key, a rejected response always fails with the message chosen by the error body's code |
| GoogleTranslate.TranslateKeepsCacheWellFormed | src/utils/googleTranslate.ts:283-289 | translation keeps the cache well formed; blank or over-5000-character text fails and leaves the cache untouched |
| GoogleTranslate.TranslateResultFacts | src/utils/googleTranslate.ts:277-313 | a success is online with a romanization exactly for Korean, and afterwards the cache answers the same text |
| GoogleTranslate.CachedPassSplitsTexts | src/utils/googleTranslate.ts:331-342 | the cache pass splits the texts into cached answers and texts still to translate, and every cached answer is online and non-empty |
| GoogleTranslate.ChunksPartition | src/utils/googleTranslate.ts:345-347 | the chunks concatenate back to the texts, each holds 1 to 50 texts, and there are ceil(n / 50) of them |
| GoogleTranslate.ChunksExtend | src/utils/googleTranslate.ts:346-347 | each loop round appends the next `slice(i, i + 50)` to the chunks taken so far |
| GoogleTranslate.SaveChunkAnswers | src/utils/googleTranslate.ts:375-387 | a chunk's answers give one online result per translation, in order |
| GoogleTranslate.SaveChunkCaches | src/utils/googleTranslate.ts:375-381 | for distinct texts, each text of the chunk is cached with its own translation at time `now` |
| GoogleTranslate.FallbackFacts | src/utils/googleTranslate.ts:388-399 | the one-by-one retry gives at most one online result per text and keeps the cache well formed |
| GoogleTranslate.ProcessChunksFacts | src/utils/googleTranslate.ts:346-400 | processing the chunks gives only online results and keeps the cache well formed |
| GoogleTranslate.BatchFacts | src/utils/googleTranslate.ts:323-403 | the cached answers come first, in input order, then the translated ones; every result is online |
| GoogleTranslate.SaveChunkStep | src/utils/googleTranslate.ts:375-387 | each `forEach` round appends one result and saves one text, `undefined` when the chunk ran out of texts |
| GoogleTranslate.TranslateText | src/utils/googleTranslate.ts:277-313 | result and new cache are `Translate` of the old cache |
| GoogleTranslate.AnswerIfCached | src/utils/googleTranslate.ts:331-342 | one filter round is `CachedStep` |
| GoogleTranslate.AnswerCached | src/utils/googleTranslate.ts:331-342 | the filter loop is `CachedPass` |
| GoogleTranslate.CacheChunk | src/utils/googleTranslate.ts:375-387 | the `forEach` loop is `SaveChunk` |
| GoogleTranslate.TranslateEach | src/utils/googleTranslate.ts:388-399 | the retry loop is `Fallback` |
| GoogleTranslate.TranslateChunk | src/utils/googleTranslate.ts:348-399 | one chunk is `ProcessChunk`: the chunk answers, or the retry one by one |
| GoogleTranslate.TranslateInChunks | src/utils/googleTranslate.ts:345-400 | the chunk loop is `ProcessChunks` over `Chunks` of the texts |
| GoogleTranslate.BatchTranslate | src/utils/googleTranslate.ts:323-403 | result and new cache are `Batch` of the old cache |
| TranslationService.OfflineHitIsBestCandidate | src/services/translationService.ts:59-69 | the offline hit is the fuzzy matcher's best candidate for the trimmed text, and only when its similarity reaches 0.8; blank text has none |
| TranslationService.OfflineHitFacts | src/services/translationService.ts:59-69 | an offline hit is a catalog phrase whose score lies between 0.8 and 0.9 |
| TranslationService.TranslateFacts | src/services/translationService.ts:297-389 | blank and over-5000-character text fail with their messages; an offline answer is the hit's text in the target language, with its romanization exactly for Korean; an online answer comes only without a hit and is the endpoint's; a failure of admissible text has no hit and carries the endpoint's message plus the retry hint |
| TranslationService.RemoteFailureMessage | src/services/translationService.ts:99-102 | a rejected proxy call fails with the body's `error` when present and non-empty, otherwise with `翻译服务错误: ` and the status |
| TranslationService.CountOffline | src/services/translationService.ts:471 | the offline count never exceeds the number of records |
| TranslationService.MaxSizeFacts | src/services/translationService.ts:241-267 | a stored size is read back as written; a missing, empty or non-numeric setting gives the default |
| TranslationService.SavedFacts | src/services/translationService.ts:156-164 | the new record goes first, followed by the old ones, cut by `slice(0, maxSize)`: to `maxSize` records, or with a negative size to all but the last -maxSize |
| TranslationService.DeletedFacts | src/services/translationService.ts:223-234 | the records left are exactly those whose id differs |
| TranslationService.DeletedAppend | src/services/translationService.ts:226 | the filter distributes over concatenation |
| TranslationService.ShrunkToFacts | src/services/translationService.ts:264-279 | shrinking keeps a prefix of the history, of at most `size` records, within the new limit |
| TranslationService.StatsFacts | src/services/translationService.ts:468-481 | total is the history length, offline plus online is total, and the offline rate lies in [0, 1], 0 for no record and 1 when every record is offline |
| TranslationService.AllOfflineCounted | src/services/translationService.ts:471 | every record offline means every record is counted |
| TranslationService.SavedWithinLimit | src/services/translationService.ts:156-168 | saving a record keeps the history within the configured limit |
| TranslationService.BatchResultsFromTexts | src/services/translationService.ts:399-417 | at most one result per text, each the successful outcome of some text |
| TranslationService.BatchKeepsEverySuccess | src/services/translationService.ts:406-414 | when every text succeeds, the results are their outcomes, in order |
| TranslationService.BatchHistoryWithinLimit | src/services/translationService.ts:399-417 | a batch keeps the history within the configured limit |
| TranslationService.Service.constructor | src/services/translationService.ts:43 | the service starts with no index built, no history and no size setting |
| TranslationService.Service.InitializePhraseIndex | src/services/translationService.ts:45-50 | the index is built from the catalog once, and a second call leaves it as it is |
| TranslationService.Service.InitTranslationService | src/services/translationService.ts:461-463 | afterwards the index holds the catalog |
| TranslationService.Service.SearchOfflinePhrases | src/services/translationService.ts:59-69 | the answer is `OfflineHit` over the catalog, and the index is built |
| TranslationService.Service.GetHistory | src/services/translationService.ts:180-203 | the stored history |
| TranslationService.Service.GetMaxHistorySize | src/services/translationService.ts:241-257 | `MaxSize` of the stored setting |
| TranslationService.Service.SaveToHistory | src/services/translationService.ts:126-173 | the new history is `Saved` of the old one under the current limit |
| TranslationService.Service.ClearHistory | src/services/translationService.ts:208-216 | the history is empty and nothing else changes |
| TranslationService.Service.ClearAllCaches | src/services/translationService.ts:452-454 | the history is empty and nothing else changes |
| TranslationService.Service.DeleteHistoryItem | src/services/translationService.ts:223-234 | the new history is `Deleted` of the old one |
| TranslationService.Service.SetMaxHistorySize | src/services/translationService.ts:264-279 | the setting is written as a decimal that reads back as `size`, and the history is shrunk to it |
| TranslationService.Service.GetTranslationStats | src/services/translationService.ts:468-481 | `Stats` of the history |
| TranslationService.Service.TranslateText | src/services/translationService.ts:297-389 | the answer is `Translate`, and only a success is saved, trimmed, to the history; the index is built for admissible text |
| TranslationService.Service.BatchTranslate | src/services/translationService.ts:399-417 | results and history are `BatchResults` and `BatchHistory` of the per-text outcomes |
| TripCalculations.SplitSharesSum | src/utils/tripCalculations.ts:43-51 | when every person splitting is a traveler, the shares credited add up to the per-person share times the number of people |
| TripCalculations.EqualSharesAddUp | src/utils/tripCalculations.ts:45 | the per-person shares of an even split add back up to the amount |
| TripCalculations.TransactionSums | src/utils/tripCalculations.ts:30-62 | a transaction whose payer and sharers are travelers adds its amount once to the paid column and once to the share column |
| TripCalculations.Conservation | src/utils/tripCalculations.ts:16-118 | over such transactions, total paid and total shares each equal `calculateTotalSpent` |
| TripCalculations.SettlementColumns | src/utils/tripCalculations.ts:16-73 | the report's paid, share and balance columns are the per-traveler totals and their difference |
| TripCalculations.SettlementBalancesCancel | src/utils/tripCalculations.ts:16-73 | the report's paid and share columns each add up to the total spent, so the balances add up to zero |
| TripCalculations.UnknownPayerIgnored | src/utils/tripCalculations.ts:32-37 | a transaction whose payer is not a traveler leaves the report unchanged |
| TripCalculations.AddSplitShares | src/utils/tripCalculations.ts:46-51 | the split loop adds its share to exactly the rows of travelers among the sharers |
| TripCalculations.ApplyTransaction | src/utils/tripCalculations.ts:30-62 | one `forEach` round adds the transaction's paid and share vectors to the rows |
| TripCalculations.AccumulateOne | src/utils/tripCalculations.ts:30-62 | after one more transaction the rows hold the running totals of one more transaction |
| TripCalculations.FillBalances | src/utils/tripCalculations.ts:68-70 | each balance becomes share minus paid, and nothing else changes |
| TripCalculations.CalculateSettlement | src/utils/tripCalculations.ts:16-73 | the report is `Settlement`: one row per traveler, with colour `COLORS[index % 6]` |
| TripCalculations.BalancesCompleteSettlement | src/utils/tripCalculations.ts:68-72 | running totals with their balances filled in are the settlement |
| TripCalculations.StartAccumulated | src/utils/tripCalculations.ts:21-27 | the initial zero rows hold the totals of no transaction |
| TripCalculations.CalculatePersonalShare | src/utils/tripCalculations.ts:141-167 | the loop computes `PersonalShare` |
| TripCalculations.IndexOfDistinct | src/utils/tripCalculations.ts:32 | in a duplicate-free traveler list, `indexOf` finds exactly that traveler's position |
| TripCalculations.SplitSharesAt | src/utils/tripCalculations.ts:46-51 | for duplicate-free lists, a traveler is credited the per-person share exactly when among the sharers |
| TripCalculations.ShareVecAt | src/utils/tripCalculations.ts:30-163 | for duplicate-free lists, a transaction's contribution to a traveler's row is the personal share and, for the payer, the amount paid |
| TripCalculations.DuplicateSharerChargedTwice | src/utils/tripCalculations.ts:30-167 | a traveler listed twice in an even split bears the whole amount in the settlement row but half of it in the personal share, so the two differ |
| TripCalculations.RowsMatchPersonalTotals | src/utils/tripCalculations.ts:16-167 | for duplicate-free lists and known payers, each settlement row equals `calculatePersonalSpent` and `calculatePersonalShare` of its traveler |
| TripCalculations.DatesFacts | src/utils/tripCalculations.ts:84-92 | the dates grouped are distinct, and exactly those of the transactions |
| TripCalculations.OnDateFacts | src/utils/tripCalculations.ts:86-92 | a date's group holds exactly the transactions on that date |
| TripCalculations.DistinctCounts | src/utils/tripCalculations.ts:84 | a key occurs at most once in a duplicate-free list |
| TripCalculations.RepeatCounted | src/utils/tripCalculations.ts:84 | a repeated element occurs at least twice in the multiset |
| TripCalculations.PermutationDistinct | src/utils/tripCalculations.ts:101-104 | reordering a duplicate-free list keeps it duplicate-free |
| TripCalculations.GroupsFacts | src/utils/tripCalculations.ts:84-100 | groups are distinct, each is its date's group, and every transaction's date has one |
| TripCalculations.GroupsByDateFacts | src/utils/tripCalculations.ts:80-107 | the result is a permutation of the groups sorted newest date first, with distinct dates, each group holding exactly its date's transactions and their total |
| TripCalculations.OnDateOfUnknownDate | src/utils/tripCalculations.ts:86-92 | a date no transaction has gets no transaction |
| TripCalculations.GroupTransactionsByDate | src/utils/tripCalculations.ts:80-107 | the loop computes `GroupsByDate` |
| TripCalculations.ConvertKRWToCNY | src/utils/tripCalculations.ts:185-187 | the result times the rate is the amount, defined exactly for a non-zero rate |
| TripCalculations.ConversionRoundTrip | src/utils/tripCalculations.ts:185-197 | converting there and back gives the amount |
| Exchange.Round | src/services/exchange.ts:104-117 | `Math.round` gives the integer within half of x, halves rounding up |
| Exchange.RoundIsNearest | src/services/exchange.ts:104-117 | that integer is unique |
| Exchange.Cents | src/services/exchange.ts:104 | `n / 100` is a whole number of cents |
| Exchange.ExchangeRateService.constructor | src/services/exchange.ts:13-15 | a new service has no rate and no update time |
| Exchange.ExchangeRateService.CachedRate | src/services/exchange.ts:77-92 | the stored rate is returned exactly when it is at most an hour old |
| Exchange.ExchangeRateService.KrwToCny | src/services/exchange.ts:97-105 | fails with `汇率未加载` exactly without a non-zero rate; otherwise the result is in cents and within half a cent of krw times the rate |
| Exchange.ExchangeRateService.KrwToCnyIsNearestCent | src/services/exchange.ts:103-104 | that cent value is the only one |
| Exchange.ExchangeRateService.CnyToKrw | src/services/exchange.ts:110-118 | fails exactly without a non-zero rate; otherwise the whole number within half a won of cny divided by the rate |
| Exchange.ExchangeRateService.CnyToKrwIsNearestWon | src/services/exchange.ts:116-117 | that whole number is the only one |
| Exchange.ExchangeRateService.SetRate | src/services/exchange.ts:144-147 | the rate and update time are set, the stored entry untouched |
| Exchange.ExchangeRateService.FetchRate | src/services/exchange.ts:20-72 | a good reply with a non-zero CNY rate is adopted and stored with `now`; otherwise a cached rate under an hour old is adopted with its own time, and failing that the error is rethrown and nothing changes |
| TaxRefund.StepsUpAscending | src/components/TaxRefundCard.tsx:11-25 | tiers whose minimums and refunds both rise from one to the next are ascending throughout |
| TaxRefund.TierValues | src/components/TaxRefundCard.tsx:11-25 | the table holds the thirteen tiers, from 15 000 → 1 000 to 500 000 → 33 500 |
| TaxRefund.TiersStepUp | src/components/TaxRefundCard.tsx:11-25 | each tier's minimum and refund exceed the previous tier's |
| TaxRefund.RefundTiersAscending | src/components/TaxRefundCard.tsx:11-25 | the tiers ascend, starting at the 15 000 minimum and ending at 500 000 |
| TaxRefund.Reached | src/components/TaxRefundCard.tsx:35-40 | the downward scan stops at the highest tier whose minimum is reached, or none |
| TaxRefund.FirstAbove | src/components/TaxRefundCard.tsx:46 | `find` gives the first tier whose minimum exceeds the amount, or none |
| TaxRefund.GetCurrentRefund | src/components/TaxRefundCard.tsx:31-42 | the loop computes `CurrentRefund` |
| TaxRefund.ReachedIsHighest | src/components/TaxRefundCard.tsx:35-40 | the highest reached tier is unique |
| TaxRefund.RefundInMonotonic | src/components/TaxRefundCard.tsx:31-42 | over ascending tiers, spending more never lowers the refund |
| TaxRefund.FirstAboveFollowsReached | src/components/TaxRefundCard.tsx:35-46 | over ascending tiers, the next tier is the one right after the reached tier |
| TaxRefund.NextMinRaisesRefund | src/components/TaxRefundCard.tsx:31-52 | reaching the next tier's minimum raises the refund |
| TaxRefund.CurrentRefundIsHighestTier | src/components/TaxRefundCard.tsx:31-42 | the refund is 0 exactly under 15 000, otherwise the refund of some reached tier, and no reached tier refunds more |
| TaxRefund.CurrentRefundMonotonic | src/components/TaxRefundCard.tsx:31-42 | the refund never falls as the amount grows |
| TaxRefund.NextTierFacts | src/components/TaxRefundCard.tsx:45-52 | there is no next tier exactly from 500 000 on; otherwise it is the lowest minimum above the amount, and `needed` is the positive gap to it |
| TaxRefund.NextTierRaisesRefund | src/components/TaxRefundCard.tsx:45-54 | spending up to the next tier's minimum raises the refund |
| TaxRefund.RefundCNY | src/components/TaxRefundCard.tsx:55 | the yuan refund is the won refund times the rate, or 0 without a rate |
| SettlementModal.ClassifyFacts | src/components/TripLedgerCard/SettlementModal.tsx:38-97 | a row is settled exactly for -0.01 < balance < 0.01, to receive exactly for balance ≤ -0.01, and to pay exactly for balance ≥ 0.01 |
| SettlementModal.NetShownFacts | src/components/TripLedgerCard/SettlementModal.tsx:128-146 | a net amount is shown exactly for an unsettled row, and it is the absolute balance, at least 0.01 |
| SettlementModal.UnsettledCountFacts | src/components/TripLedgerCard/SettlementModal.tsx:171 | the unsettled count is at most the number of rows, 0 exactly when all are settled, and all rows exactly when none is |
| SettlementModal.SummaryOfSettlement | src/components/TripLedgerCard/SettlementModal.tsx:159-165 | for a settlement report, both summary totals equal the total spent |
| SettlementModal.SettlementDialog.constructor | src/components/TripLedgerCard/SettlementModal.tsx:13-14 | the dialog opens without the confirmation |
| SettlementModal.SettlementDialog.AskToClear | src/components/TripLedgerCard/SettlementModal.tsx:179-181 | the clear button, shown only with `onClear`, asks for confirmation |
| SettlementModal.SettlementDialog.CancelClear | src/components/TripLedgerCard/SettlementModal.tsx:222 | cancelling withdraws the confirmation |
| SettlementModal.SettlementDialog.HandleClear | src/components/TripLedgerCard/SettlementModal.tsx:17-23 | with `onClear`, clearing calls it, withdraws the confirmation and closes; without, nothing happens |
| AddTransactionModal.RemoveOnlyName | src/components/TripLedgerCard/AddTransactionModal.tsx:139 | filtering out the only name present leaves nothing |
| AddTransactionModal.ToggledFacts | src/components/TripLedgerCard/AddTransactionModal.tsx:134-145 | a chosen traveler is removed (every other name kept with its count) unless the list has one name; an unchosen one is appended; the list empties only when it held the traveler repeated, twice or more |
| AddTransactionModal.Validate | src/components/TripLedgerCard/AddTransactionModal.tsx:150-187 | each error is present exactly when its check fails: blank merchant, no positive amount in either currency, no payer, even split with no one, treat with no host |
| AddTransactionModal.BuildTransaction | src/components/TripLedgerCard/AddTransactionModal.tsx:203-213 | the transaction carries the trimmed name, the payer and split type, the split list only for an even split and the host only for a treat |
| AddTransactionModal.AcceptedFormIsComplete | src/components/TripLedgerCard/AddTransactionModal.tsx:150-213 | an accepted form yields a named transaction with a payer, a positive amount and the data its split type needs |
| AddTransactionModal.TransactionForm.constructor | src/components/TripLedgerCard/AddTransactionModal.tsx:33-82 | the form opens empty with icon 💰 and an even split; payer, host and split list default to the travelers; a non-zero ledger rate is handed to an exchange service that has none |
| AddTransactionModal.TransactionForm.HandleAmountChange | src/components/TripLedgerCard/AddTransactionModal.tsx:85-131 | a negative amount clears both fields with an error; with a rate, the other currency is converted (cents, or whole won) or the rate error is shown; without a number or a rate, the other field is emptied |
| AddTransactionModal.TransactionForm.ToggleSplitAmong | src/components/TripLedgerCard/AddTransactionModal.tsx:134-147 | the split list becomes `Toggled` and only its error is cleared |
| AddTransactionModal.TransactionForm.ValidateForm | src/components/TripLedgerCard/AddTransactionModal.tsx:150-187 | the errors become `Validate` of the fields, and the answer is whether there is none |
| AddTransactionModal.TransactionForm.HandleAdd | src/components/TripLedgerCard/AddTransactionModal.tsx:190-235 | an invalid form adds nothing; a valid one hands `BuildTransaction` to `onAdd` and shows success |
| AddTransactionModal.TransactionForm.SuccessTimerElapsed | src/components/TripLedgerCard/AddTransactionModal.tsx:225-228 | the button returns to normal and nothing else changes |
| SettingsModal.TrimAddsNoCharacter | src/components/TripLedgerCard/SettingsModal.tsx:49 | trimming adds no character |
| SettingsModal.NamesFacts | src/components/TripLedgerCard/SettingsModal.tsx:49-50 | the names kept are trimmed, non-empty and comma-free, one per non-blank piece |
| SettingsModal.ParsedNamesAreClean | src/components/TripLedgerCard/SettingsModal.tsx:47-50 | every parsed name is trimmed, non-empty and comma-free, one per non-blank piece of the text |
| SettingsModal.EmptyNameNeverReported | src/components/TripLedgerCard/SettingsModal.tsx:57-59 | no parsed name is empty, so the "empty name" check never fires |
| SettingsModal.ParseJoined | src/components/TripLedgerCard/SettingsModal.tsx:31-50 | whitespace followed by names joined with ", " parses back to those names |
| SettingsModal.JoinedNamesParseBack | src/components/TripLedgerCard/SettingsModal.tsx:31-50 | clean names joined with ", " parse back to themselves |
| SettingsModal.ReparseIsStable | src/components/TripLedgerCard/SettingsModal.tsx:31-87 | joining the parsed names and parsing again changes nothing |
| SettingsModal.FormErrorsFacts | src/components/TripLedgerCard/SettingsModal.tsx:43-76 | the form passes exactly with at least two names, a positive budget and a non-blank location; each error is present exactly under its condition |
| SettingsModal.RateOrDefault | src/components/TripLedgerCard/SettingsModal.tsx:92 | the rate is the current one unless missing or 0, then 0.0053; never 0 |
| SettingsModal.SavedSettingsAreWellFormed | src/components/TripLedgerCard/SettingsModal.tsx:79-103 | saved settings have at least two clean names, a positive budget, a trimmed non-empty location and a non-zero rate |
| SettingsModal.ReopenAndSaveKeepsSettings | src/components/TripLedgerCard/SettingsModal.tsx:29-103 | reopening well-formed settings and saving without edits gives the same settings back |
| SettingsModal.SettingsForm.constructor | src/components/TripLedgerCard/SettingsModal.tsx:16-40 | the dialog opens on the current settings, or empty with the exchange service's rate |
| SettingsModal.SettingsForm.EditTravelers | src/components/TripLedgerCard/SettingsModal.tsx:149-152 | the text changes and only its error is cleared |
| SettingsModal.SettingsForm.EditBudget | src/components/TripLedgerCard/SettingsModal.tsx:181-184 | the text changes and only its error is cleared |
| SettingsModal.SettingsForm.EditLocation | src/components/TripLedgerCard/SettingsModal.tsx:216-219 | the text changes and only its error is cleared |
| SettingsModal.SettingsForm.ValidateForm | src/components/TripLedgerCard/SettingsModal.tsx:43-76 | the errors become `FormErrors` and the answer is whether there is none |
| SettingsModal.SettingsForm.HandleSave | src/components/TripLedgerCard/SettingsModal.tsx:79-103 | a valid form hands `SavedSettings` to `onSave` and closes; an invalid one does nothing else |
| QuickPhrasesModal.RemoveKeepsDistinct | src/components/TranslationCard/QuickPhrasesModal.tsx:98 | filtering keeps a duplicate-free order duplicate-free, with exactly the other ids |
| QuickPhrasesModal.RemoveAbsent | src/components/TranslationCard/QuickPhrasesModal.tsx:98 | filtering out an absent id changes nothing |
| QuickPhrasesModal.ToggleFacts | src/components/TranslationCard/QuickPhrasesModal.tsx:92-103 | a favourite is removed from the set and the order, other ids kept with their counts; a new one is added and put first; other ids keep their membership |
| QuickPhrasesModal.ToggleKeepsConsistent | src/components/TranslationCard/QuickPhrasesModal.tsx:92-107 | the order stays a duplicate-free listing of exactly the favourites |
| QuickPhrasesModal.DoubleToggle | src/components/TranslationCard/QuickPhrasesModal.tsx:92-103 | toggling twice restores the set; it restores the order too when the id was not a favourite, and otherwise moves the id to the front |
| QuickPhrasesModal.RemoveFront | src/components/TranslationCard/QuickPhrasesModal.tsx:98-102 | filtering an id out after putting it first is filtering it out |
| QuickPhrasesModal.ToastFacts | src/components/TranslationCard/QuickPhrasesModal.tsx:110-114 | the toast says `已收藏` exactly when the phrase is now a favourite |
| QuickPhrasesModal.FavoritesPanel.constructor | src/components/TranslationCard/QuickPhrasesModal.tsx:46-65 | favourites and order load from storage, empty when missing or unreadable |
| QuickPhrasesModal.FavoritesPanel.ToggleFavorite | src/components/TranslationCard/QuickPhrasesModal.tsx:89-118 | set and order are toggled and stored, one toast is shown, `onFavoriteChange` is called once, and a consistent state stays consistent |
| HistoryModal.SortedHistoryFacts | src/components/TranslationCard/HistoryModal.tsx:173-175 | the dialog shows min(n, 20) records of the history, newest first, and nothing left out is newer than anything shown |
| HistoryModal.ClearButtonShownIffHistory | src/components/TranslationCard/HistoryModal.tsx:209 | the clear button is shown exactly when there is a record |
| HistoryModal.HistoryDialog.constructor | src/components/TranslationCard/HistoryModal.tsx:49 | the dialog opens without the confirmation |
| HistoryModal.HistoryDialog.HandleClearAll | src/components/TranslationCard/HistoryModal.tsx:70-81 | the first click asks, the second clears and withdraws the question |
| HistoryModal.HistoryDialog.HandleSelectHistory | src/components/TranslationCard/HistoryModal.tsx:86-89 | the record is handed to the parent, then the dialog closes |
| HistoryModal.HistoryDialog.DeleteItem | src/components/TranslationCard/HistoryModal.tsx:155-157 | the parent is asked to delete the record's id |
| UseTranslation.SwappedFacts | src/hooks/useTranslation.ts:213-237 | every swap exchanges the languages and clears the error; with a translation shown it exchanges the texts and keeps the romanization, without one it empties both texts and the romanization |
| UseTranslation.SwapTwiceRestores | src/hooks/useTranslation.ts:213-237 | with both texts present, two swaps restore texts and languages |
| UseTranslation.SwapTwiceRestoresLanguages | src/hooks/useTranslation.ts:215-222 | two swaps always restore the languages |
| UseTranslation.TranslatedFacts | src/hooks/useTranslation.ts:160-204 | blank input only sets the error; otherwise loading ends, a result is shown with its romanization (empty when absent) and the refreshed history, the argument becomes the source text, and a failure changes only the error |
| UseTranslation.EmptyArgumentClearsSourceOnSuccess | src/hooks/useTranslation.ts:161-190 | `translate("")` translates the current source text and then replaces it with the empty argument |
| UseTranslation.TranslationHook.constructor | src/hooks/useTranslation.ts:101-151 | the hook starts empty with the given languages and, when asked to, the stored history |
| UseTranslation.TranslationHook.SwapLanguages | src/hooks/useTranslation.ts:213-237 | the new state is `Swapped` of the old |
| UseTranslation.TranslationHook.Translate | src/hooks/useTranslation.ts:160-204 | the new state is `Translated` of the old, given the service's answer |
| UseTranslation.TranslationHook.ClearError | src/hooks/useTranslation.ts:261-263 | only the error is cleared |
| FormatDate.BucketFacts | src/utils/formatDate.ts:12-47 | under a minute (future times included) is "just now"; the count shown is the whole number of units elapsed, 1-59 minutes, 1-23 hours or 1-6 days; a week or more goes to the calendar |
| FormatDate.BucketMonotonic | src/utils/formatDate.ts:14-37 | an older time is never shown in a finer unit than a newer one |
| FormatDate.RenderInjective | src/utils/formatDate.ts:17-37 | distinct relative buckets render to distinct texts |
| OcrService.ValidateImageFileFacts | src/services/ocrService.ts:41-57 | a file is refused for its format exactly when its type is not one of the five, and for its size exactly when the type is accepted and it exceeds 10 MiB |
| OcrService.ExtractTextFacts | src/services/ocrService.ts:79-132 | an invalid file is refused before recognition; a success is the recognised text trimmed, never blank, and exactly when the text is not blank |
| OcrService.ExtractTextFailureMessages | src/services/ocrService.ts:111-161 | each failure of `extractText` is shown with the fixed message of its code, and an unknown one with the thrown error's message or the generic one |
| TravelerAvatars.DisplayedFacts | src/components/TripLedgerCard/TravelerAvatars.tsx:22-25 | the travelers shown are a suffix of the list: the last min(n, k) for a positive limit k (4 by default), and all but the first m for a limit of -m |
| TravelerAvatars.LabelFacts | src/components/TripLedgerCard/TravelerAvatars.tsx:31 | the label is one character, the name's last, and is "?" exactly for an empty name or one ending in "?" |
| TravelerAvatars.AvatarsFacts | src/components/TripLedgerCard/TravelerAvatars.tsx:18-47 | nothing is rendered exactly for an empty list; otherwise one avatar per shown traveler, in order, with colours cycling through the four so that neighbours differ |
| StableSort.SortDescIsSorted | src/utils/textMatcher.ts:359-368 | sorting by a descending comparator yields a list sorted by descending key, of the same length |
| StableSort.SortDescIsPermutation | src/utils/textMatcher.ts:359-368 | the sorted list is a permutation of the input |
| StableSort.SortDescHeadIsFirstMax | src/utils/textMatcher.ts:359-368 | the first element after the stable sort is the earliest element of maximal key |
| StableSort.FirstMaxIsMaximal | src/utils/textMatcher.ts:359-368 | that element belongs to the list and no element has a larger key |
| StableSort.SortDescIsStable | src/components/TranslationCard/HistoryModal.tsx:173-175 | the sort is stable: for every key, the elements with that key keep their input order |
| StableSort.SortedPrefixIsTop | src/components/TranslationCard/HistoryModal.tsx:173-175 | a prefix of a descending list is sorted and nothing after it has a larger key than anything in it |
| StableSort.SortDescTop | src/components/TranslationCard/HistoryModal.tsx:173-175 | the first k elements of the sorted copy are k elements of the input, sorted, the whole input when k is its length, and no element left out has a larger key |

## Left out

- **Floating point.**
  - Amounts, rates, scores and shares are Dafny `real`s, so the model's
    sums and quotients are exact.
  - JavaScript's doubles round. The settlement balances therefore cancel
    exactly here and only approximately in the program.
  - `Math.round` is modelled exactly as rounding half up.
  - `toFixed`, `toString` and `toLocaleString` are parameters
    (`fixed2`, `show`).
  - `formatAmount` and `formatNumber` format only; they are not modelled.
- **Text encoding.** Strings are sequences of `char` standing for
  UTF-16 code units. Characters outside the Basic Multilingual Plane would
  make `length` and `slice(-1)` see half a surrogate pair. Every text in
  the catalog lies inside that plane.
- **The network.**
  - Every `fetch` is left out: to DeepSeek, to Google, to the
    application's own `/api/translate` proxy, and to the exchange-rate API.
    What each endpoint answers is a parameter.
  - The proxy's server code (app/api/translate/route.ts) is not part of
    this model.
  - Asynchrony is flattened: an `await` is the reply it yields.
- **DeepSeek retries.**
  - The one-second delay before a retry is left out.
  - The retried call's outcome is a parameter.
  - The model proves the per-call decision: which statuses retry, and
    that a retried rejection still fails.
- **Foreign libraries and browser services.**
  - Tesseract's recognition is a parameter of `ExtractText`. Its progress
    callback is left out.
  - The korean-romanizer library is a parameter of `KoreanToRomanization`.
  - Speech recognition, text-to-speech and the debounce helper are not
    part of this model.
- **Clock, randomness and storage.**
  - `Date.now()` is the parameter `now`.
  - History ids (`crypto.randomUUID` or the timestamp-and-random fallback)
    are the parameters `id` and `ids`.
  - Local storage is a set of fields of the class that owns it.
  - Corrupt or non-array stored JSON is left out. So is the server-side
    rendering branch (`typeof window === 'undefined'`): the model always
    runs in a browser.
  - For the favourites, an unreadable entry is given as `None`.
- **Calendar text.** The local-time rendering of dates a week old or more
  is the parameter `calendarText` of `FormatTimestamp`. The month, day,
  hour and zero-padded minute are not modelled.
- **Timers.** The one-second reset of the add button to normal is the
  separate event `SuccessTimerElapsed`. The two other delays are listed
  below, under the members they weaken.
- **Hook wrappers.**
  - The hook's `clearHistory` and `deleteHistoryItem` delegate to the
    history service; they are modelled as `TranslationService.Service.ClearHistory`
    and `DeleteHistoryItem`.
  - The effects that load the history and start the service are folded
    into the hook's constructor.
- **Trivial or presentational code.**
  - Exchange's `getCurrentRate` and `getLastUpdate` are reads of the
    fields `currentRate` and `lastUpdate`. `lastUpdate` is a time in
    milliseconds rather than a `Date`.
  - Backdrop clicks, category tabs and the phrase click
    (`onPhraseSelect(phrase.zh)`) are not modelled, nor are animations or
    layout.
- DeepSeekTranslate.RetryOnlyFor429And500: it states the decision of one
  `handleAPIError` invocation only. The source does not thread `retryCount`
  into the nested call, so no bound on the total number of requests is
  claimed.
- HistoryModal.HistoryDialog.HandleClearAll: the three-second automatic
  withdrawal of the confirmation is left out, so the confirmation lasts
  until the next click.
- AddTransactionModal.TransactionForm.HandleAdd: it goes straight from
  normal to success. The 300 ms pause in the submitting state is left out,
  and so is the `catch` that restores normal when `onAdd` throws.
- UseTranslation.TranslationHook.Translate: it states the state after the
  service call has settled. `isLoading` being true while the call is in
  flight is not observable.
- TripCalculations.ConvertKRWToCNY: a zero rate gives `None`, where the
  source divides and yields `Infinity` or `NaN`.
- TextScores.ContainsSubstringFacts, TextScores.SubstringBonus: `toLowerCase`
  is modelled on the ASCII letters only (`JsStrings.LowerChar`). The source
  folds case across Unicode, so "É" against "é" earns the containment bonus
  there and not here, and a character whose lower case is two units long
  (such as "İ") can lengthen the searched text. The phrase catalog has no
  cased letter outside ASCII.
- TranslationService.Service.BatchTranslate: every record a batch saves is
  stamped with one time `now`, where the source reads `Date.now()` at each
  save. The history order is the same: records are prepended in save order,
  and the history dialog's sort is stable (`StableSort.SortDescIsStable`).
- TextScores.MatchScore: the score of two empty strings is `None`, where
  the source computes `NaN`. The matcher never scores a blank input.
