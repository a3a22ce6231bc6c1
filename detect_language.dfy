/**
 * Script detection: a text is Korean when it holds a precomposed Hangul
 * syllable, and Chinese otherwise.
 */
module LanguageDetection {
  import opened TranslationTypes
  import opened JsStrings

  /** The first code point of the Hangul Syllables block (SBase, section 3.12 of the Unicode Standard). */
  const SBase: int := 0xAC00
  /** The number of precomposed Hangul syllables (SCount = 19 * 21 * 28). */
  const SCount: int := 19 * 21 * 28

  /** The character class `[가-힣]`. */
  predicate IsHangulSyllable(c: char)
  {
    '\U{AC00}' <= c <= '\U{D7A3}'
  }

  /** The character class `[一-鿿]`. */
  predicate IsCjkIdeograph(c: char)
  {
    '\U{4E00}' <= c <= '\U{9FFF}'
  }

  predicate ContainsHangul(s: Text)
  {
    exists i | 0 <= i < |s| :: IsHangulSyllable(s[i])
  }

  predicate ContainsCjk(s: Text)
  {
    exists i | 0 <= i < |s| :: IsCjkIdeograph(s[i])
  }

  /** `detectLanguage`: trim; blank gives 'zh'; a Hangul syllable gives 'ko'; otherwise 'zh'. */
  function DetectLanguage(text: Text): Language
  {
    var trimmed := Trim(text);
    if trimmed == [] then Zh
    else if ContainsHangul(trimmed) then Ko
    else if ContainsCjk(trimmed) then Zh
    else Zh
  }

  function IsKorean(text: Text): bool
  {
    DetectLanguage(text) == Ko
  }

  function IsChinese(text: Text): bool
  {
    DetectLanguage(text) == Zh
  }

  /** The regular expression's range is exactly the block SBase .. SBase + SCount - 1. */
  lemma HangulRangeIsSyllableBlock(c: char)
    ensures IsHangulSyllable(c) <==> SBase <= c as int <= SBase + SCount - 1
  {
  }

  lemma HangulIsNotWhitespace(c: char)
    requires IsHangulSyllable(c)
    ensures !IsWhitespace(c)
  {
  }

  /** Trimming never removes or adds a Hangul syllable. */
  lemma ContainsHangulTrim(text: Text)
    ensures ContainsHangul(Trim(text)) <==> ContainsHangul(text)
  {
    var a := TrimIsInnerSlice(text);
    var t := Trim(text);
    if ContainsHangul(text) {
      var i :| 0 <= i < |text| && IsHangulSyllable(text[i]);
      HangulIsNotWhitespace(text[i]);
      if a <= i < a + |t| {
        assert t[i - a] == text[i];
      }
    }
    if ContainsHangul(t) {
      var j :| 0 <= j < |t| && IsHangulSyllable(t[j]);
      assert text[a + j] == t[j];
    }
  }

  /**
   * The language is 'ko' exactly when the text holds a Hangul syllable; blank
   * text and text with only Chinese or other characters all give 'zh', so the
   * Chinese test never changes the outcome.
   */
  lemma DetectLanguageIsHangulTest(text: Text)
    ensures DetectLanguage(text) == (if ContainsHangul(text) then Ko else Zh)
    ensures IsBlank(text) ==> DetectLanguage(text) == Zh
  {
    ContainsHangulTrim(text);
  }

  /** `isKorean` and `isChinese` are complementary. */
  lemma KoreanIffNotChinese(text: Text)
    ensures IsKorean(text) == !IsChinese(text)
  {
  }

  /** Leading and trailing whitespace does not change the detected language. */
  lemma DetectLanguageIgnoresPadding(pre: Text, text: Text, post: Text)
    requires AllWhitespace(pre) && AllWhitespace(post)
    ensures DetectLanguage(pre + text + post) == DetectLanguage(text)
  {
    TrimOfPadded(pre, text, post);
  }
}
