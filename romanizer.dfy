/**
 * Romanization of Korean text. The romanizing library is foreign code: it is a
 * parameter of the model that either returns a romanization or throws.
 */
module Romanizer {
  import opened TranslationTypes
  import opened JsStrings
  import opened LanguageDetection

  datatype LibraryOutcome = Romanized(text: Text) | Threw

  /** The placeholder shown when the library throws: `[韩文发音: N 字]`, N the text length. */
  function PronunciationPlaceholder(text: Text): Text
  {
    "[韩文发音: " + NatToDecimal(|text|) + " 字]"
  }

  /** `koreanToRomanization`: '' for blank text, else the library's result or the placeholder. */
  function KoreanToRomanization(text: Text, romanize: Text -> LibraryOutcome): Text
  {
    if IsBlank(text) then ""
    else match romanize(text)
      case Romanized(r) => r
      case Threw => PronunciationPlaceholder(text)
  }

  /** `batchKoreanToRomanization`: [] for an empty list, else element-wise romanization. */
  function BatchKoreanToRomanization(texts: seq<Text>, romanize: Text -> LibraryOutcome): seq<Text>
  {
    if |texts| == 0 then []
    else seq(|texts|, i requires 0 <= i < |texts| => KoreanToRomanization(texts[i], romanize))
  }

  /** `needsRomanization`: false for blank text, else whether the text holds a Hangul syllable. */
  function NeedsRomanization(text: Text): bool
  {
    if IsBlank(text) then false else ContainsHangul(text)
  }

  /** `smartRomanization`: '' for blank text, the romanization when needed, the text otherwise. */
  function SmartRomanization(text: Text, romanize: Text -> LibraryOutcome): Text
  {
    if IsBlank(text) then ""
    else if NeedsRomanization(text) then KoreanToRomanization(text, romanize)
    else text
  }

  /** The placeholder is never empty and spells the length of the text in decimal between its fixed parts. */
  lemma PlaceholderEncodesLength(text: Text)
    ensures var p := PronunciationPlaceholder(text);
      |p| > 10 && p[..7] == "[韩文发音: " && p[|p| - 3..] == " 字]"
      && ParseDecimal(p[7..|p| - 3]) == |text|
  {
    var p := PronunciationPlaceholder(text);
    assert p[7..|p| - 3] == NatToDecimal(|text|);
    ParseNatToDecimal(|text|);
  }

  /** Blank text gives ''; otherwise the library's romanization is returned
    * as is, and when the library throws the result is the non-empty placeholder. */
  lemma RomanizationCases(text: Text, romanize: Text -> LibraryOutcome)
    ensures IsBlank(text) ==> KoreanToRomanization(text, romanize) == ""
    ensures !IsBlank(text) && romanize(text).Romanized? ==>
      KoreanToRomanization(text, romanize) == romanize(text).text
    ensures !IsBlank(text) && romanize(text).Threw? ==>
      KoreanToRomanization(text, romanize) == PronunciationPlaceholder(text)
      && |KoreanToRomanization(text, romanize)| > 10
  {
    PlaceholderEncodesLength(text);
  }

  /** Romanization is needed exactly when the detector calls the text Korean. */
  lemma NeedsRomanizationIffKorean(text: Text)
    ensures NeedsRomanization(text) == (DetectLanguage(text) == Ko)
  {
    DetectLanguageIsHangulTest(text);
    if IsBlank(text) {
      BlankIffAllWhitespace(text);
    }
  }

  /** Smart romanization leaves a text without Hangul syllables unchanged (blank text becomes ''). */
  lemma SmartRomanizationKeepsNonKorean(text: Text, romanize: Text -> LibraryOutcome)
    ensures !ContainsHangul(text) && !IsBlank(text) ==> SmartRomanization(text, romanize) == text
    ensures IsBlank(text) ==> SmartRomanization(text, romanize) == ""
    ensures ContainsHangul(text) && !IsBlank(text) ==>
      SmartRomanization(text, romanize) == KoreanToRomanization(text, romanize)
  {
  }

  /** The batch keeps the length and romanizes element by element. */
  lemma BatchIsElementwise(texts: seq<Text>, romanize: Text -> LibraryOutcome)
    ensures |BatchKoreanToRomanization(texts, romanize)| == |texts|
    ensures forall i :: 0 <= i < |texts| ==>
      BatchKoreanToRomanization(texts, romanize)[i] == KoreanToRomanization(texts[i], romanize)
  {
  }
}
