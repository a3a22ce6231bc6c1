/**
 * The translation hook: the texts and languages of the translation card,
 * the loading flag and error message, and the two operations that change
 * them, `translate` and `swapLanguages`. The translation service is reached
 * through its answer, passed in as a parameter.
 */
module UseTranslation {
  import opened Wrappers
  import opened JsStrings
  import opened TranslationTypes

  const EmptyInput: Text := "请输入要翻译的文本"
  const GenericFailure: Text := "翻译失败，请稍后再试"

  /** The hook's state at one moment. */
  datatype HookState = HookState(
    sourceText: Text,
    targetText: Text,
    romanization: Text,
    sourceLang: Language,
    targetLang: Language,
    isLoading: bool,
    error: Option<Text>,
    history: seq<TranslationHistory>)

  /** How the service call ended: a result, a thrown `Error` with its
    * message, or some other thrown value. */
  datatype ServiceAnswer = Answered(result: TranslationResult) | ThrewError(message: Text) | ThrewOther

  /** `swapLanguages`: the languages change places and the error is
    * cleared; a shown translation changes places with the source text,
    * otherwise both texts and the romanization are emptied. */
  function Swapped(st: HookState): HookState
  {
    if st.targetText != [] then
      st.(sourceLang := st.targetLang, targetLang := st.sourceLang,
          sourceText := st.targetText, targetText := st.sourceText, error := None)
    else
      st.(sourceLang := st.targetLang, targetLang := st.sourceLang,
          sourceText := [], targetText := [], romanization := [], error := None)
  }

  /** Every swap exchanges the languages and clears the error; with a
    * translation shown it exchanges the texts and keeps the romanization,
    * without one it empties both texts and the romanization. */
  lemma SwappedFacts(st: HookState)
    ensures var s := Swapped(st);
      && s.sourceLang == st.targetLang && s.targetLang == st.sourceLang && s.error == None
      && s.isLoading == st.isLoading && s.history == st.history
      && (st.targetText != [] ==>
            s.sourceText == st.targetText && s.targetText == st.sourceText && s.romanization == st.romanization)
      && (st.targetText == [] ==> s.sourceText == [] && s.targetText == [] && s.romanization == [])
  {
  }

  /** Two swaps with both texts present restore texts and languages. */
  lemma SwapTwiceRestores(st: HookState)
    requires st.sourceText != [] && st.targetText != []
    ensures Swapped(Swapped(st)) == st.(error := None)
  {
  }

  /** Two swaps always restore the languages. */
  lemma SwapTwiceRestoresLanguages(st: HookState)
    ensures Swapped(Swapped(st)).sourceLang == st.sourceLang
    ensures Swapped(Swapped(st)).targetLang == st.targetLang
  {
  }

  /** `text || sourceText`: the argument unless it is absent or empty. */
  function TextToTranslate(text: Option<Text>, sourceText: Text): Text
  {
    if text.Some? && text.value != [] then text.value else sourceText
  }

  /** The state after `translate(text)`, given the service's answer for the
    * text to translate and the history the service holds afterwards. */
  function Translated(st: HookState, text: Option<Text>, answer: ServiceAnswer, refreshed: seq<TranslationHistory>): HookState
  {
    var t := TextToTranslate(text, st.sourceText);
    if IsBlank(t) then st.(error := Some(EmptyInput))
    else match answer
      case Answered(r) =>
        st.(targetText := r.translatedText,
            romanization := if r.romanization.Some? then r.romanization.value else [],
            sourceText := if text.Some? && text.value != st.sourceText then text.value else st.sourceText,
            history := refreshed, error := None, isLoading := false)
      case ThrewError(m) => st.(error := Some(m), isLoading := false)
      case ThrewOther => st.(error := Some(GenericFailure), isLoading := false)
  }

  /** Blank input only sets the error; otherwise loading ends whatever the
    * answer, a result is shown with its romanization (empty when absent),
    * and a failure changes nothing but the error. */
  lemma TranslatedFacts(st: HookState, text: Option<Text>, answer: ServiceAnswer, refreshed: seq<TranslationHistory>)
    ensures var t := TextToTranslate(text, st.sourceText);
            var s := Translated(st, text, answer, refreshed);
      && (IsBlank(t) ==> s == st.(error := Some(EmptyInput)))
      && (!IsBlank(t) ==> !s.isLoading)
      && (!IsBlank(t) && answer.Answered? ==>
            && s.targetText == answer.result.translatedText && s.error == None && s.history == refreshed
            && (answer.result.romanization.Some? ==> s.romanization == answer.result.romanization.value)
            && (answer.result.romanization.None? ==> s.romanization == [])
            && (text.None? ==> s.sourceText == st.sourceText)
            && (text.Some? ==> s.sourceText == text.value))
      && (!IsBlank(t) && !answer.Answered? ==>
            s == st.(error := s.error, isLoading := false) && s.error.Some?)
      && s.sourceLang == st.sourceLang && s.targetLang == st.targetLang
  {
  }

  /** With an empty argument the source text is translated and then, on
    * success, replaced by the empty argument. */
  lemma EmptyArgumentClearsSourceOnSuccess(st: HookState, result: TranslationResult, refreshed: seq<TranslationHistory>)
    requires !IsBlank(st.sourceText)
    ensures TextToTranslate(Some([]), st.sourceText) == st.sourceText
    ensures Translated(st, Some([]), Answered(result), refreshed).sourceText == []
  {
    assert st.sourceText != [];
  }

  class TranslationHook {
    var sourceText: Text
    var targetText: Text
    var romanization: Text
    var sourceLang: Language
    var targetLang: Language
    var isLoading: bool
    var error: Option<Text>
    var history: seq<TranslationHistory>

    function State(): HookState
      reads this
    {
      HookState(sourceText, targetText, romanization, sourceLang, targetLang, isLoading, error, history)
    }

    /** The hook starts empty, with the given languages (Chinese to Korean by
      * default) and the stored history if it is to be loaded. */
    constructor (initialSourceLang: Language, initialTargetLang: Language, loadHistory: bool, stored: seq<TranslationHistory>)
      ensures State() == HookState([], [], [], initialSourceLang, initialTargetLang, false, None,
                                   if loadHistory then stored else [])
    {
      sourceText := [];
      targetText := [];
      romanization := [];
      sourceLang := initialSourceLang;
      targetLang := initialTargetLang;
      isLoading := false;
      error := None;
      history := if loadHistory then stored else [];
    }

    /** `swapLanguages`. */
    method SwapLanguages()
      modifies this
      ensures State() == Swapped(old(State()))
    {
      var newSourceLang := targetLang;
      var newTargetLang := sourceLang;
      var newSourceText := targetText;
      var newTargetText := sourceText;
      sourceLang := newSourceLang;
      targetLang := newTargetLang;
      if targetText != [] {
        sourceText := newSourceText;
        targetText := newTargetText;
      } else {
        sourceText := [];
        targetText := [];
        romanization := [];
      }
      error := None;
    }

    /** `translate(text)`: validates the text, calls the service (whose
      * answer is `answer`), shows the result or the error and refreshes the
      * history from the service (`refreshed`). */
    method Translate(text: Option<Text>, answer: ServiceAnswer, refreshed: seq<TranslationHistory>)
      modifies this
      ensures State() == Translated(old(State()), text, answer, refreshed)
    {
      var textToTranslate := if text.Some? && text.value != [] then text.value else sourceText;
      if IsBlank(textToTranslate) {
        error := Some(EmptyInput);
        return;
      }
      error := None;
      isLoading := true;
      match answer {
        case Answered(result) =>
          targetText := result.translatedText;
          romanization := if result.romanization.Some? then result.romanization.value else [];
          if text.Some? && text.value != sourceText {
            sourceText := text.value;
          }
          history := refreshed;
        case ThrewError(message) =>
          error := Some(message);
        case ThrewOther =>
          error := Some(GenericFailure);
      }
      isLoading := false;
    }

    /** `clearError`. */
    method ClearError()
      modifies this
      ensures State() == old(State()).(error := None)
    {
      error := None;
    }
  }
}
