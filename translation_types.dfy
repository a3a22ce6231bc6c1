/**
 * The value types of the translation feature: languages, catalog phrases,
 * translation results and history records.
 */
module TranslationTypes {
  import opened Wrappers
  import opened JsStrings

  datatype Language = Zh | Ko

  datatype PhraseCategory =
    | Restaurant
    | Shopping
    | Transportation
    | Emergency
    | Accommodation
    | Greeting

  /** One entry of the offline phrase catalog. */
  datatype Phrase = Phrase(id: Text, zh: Text, ko: Text, romanization: Text, category: PhraseCategory)

  /** The text of a phrase in the given language. */
  function TextIn(p: Phrase, lang: Language): Text
  {
    if lang == Zh then p.zh else p.ko
  }

  datatype TranslationResult = TranslationResult(
    translatedText: Text,
    romanization: Option<Text>,
    isOffline: bool,
    matchedPhrase: Option<Phrase>)

  datatype TranslationHistory = TranslationHistory(
    id: Text,
    sourceText: Text,
    targetText: Text,
    sourceLang: Language,
    targetLang: Language,
    romanization: Option<Text>,
    timestamp: int,
    isOffline: bool)
}
