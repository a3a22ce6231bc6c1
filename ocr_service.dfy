/**
 * The checks around image text recognition: which image files are
 * accepted, how the recognised text and the failures of recognition are
 * turned into a result or an `OCRError`, and the friendly message shown for
 * each error. The recognition engine itself is reached through its outcome,
 * passed in as a parameter.
 */
module OcrService {
  import opened Wrappers
  import opened JsStrings

  /** 10 MiB, the largest image accepted. */
  const MaxFileSize: int := 10 * 1024 * 1024

  const SupportedFormats: seq<Text> := ["image/jpeg", "image/jpg", "image/png", "image/bmp", "image/webp"]

  datatype OcrCode = UnsupportedFormat | FileTooLarge | RecognitionFailed | NetworkError | Unknown

  /** An `OCRError`: a message and a code. */
  datatype OcrError = OcrError(message: Text, code: OcrCode)

  /** A value thrown: an `OCRError`, another `Error` with its message, or
    * anything else. */
  datatype Thrown = ThrownOcr(error: OcrError) | ThrownError(message: Text) | ThrownOther

  /** The MIME type and the size in bytes of the chosen file. */
  datatype ImageFile = ImageFile(mimeType: Text, size: int)

  /** How recognition ended: the recognised text, or a value thrown by the
    * engine (while loading the language data, recognising or shutting down). */
  datatype Recognition = Recognized(text: Text) | Threw(thrown: Thrown)

  const NoTextMessage: Text := "未能识别出文字，请确保图片清晰"
  const NetworkMessage: Text := "网络错误，无法下载语言包。请检查网络连接后重试"
  const GenericMessage: Text := "图片识别失败，请重试"

  /** `validateImageFile`: the error it throws, if any; the format is
    * checked before the size. `fixed2` is `toFixed(2)`. */
  function ValidateImageFile(file: ImageFile, fixed2: real -> Text): Option<OcrError>
  {
    if file.mimeType !in SupportedFormats then
      Some(OcrError("不支持的图片格式: " + file.mimeType + "。支持的格式: " + JoinWith(SupportedFormats, ", "), UnsupportedFormat))
    else if file.size > MaxFileSize then
      Some(OcrError("图片太大: " + fixed2(file.size as real / 1024.0 / 1024.0) + "MB。最大支持: 10MB", FileTooLarge))
    else None
  }

  /** A file is refused for its format exactly when its type is not one of
    * the five, and for its size exactly when the type is accepted and it is
    * over 10 MiB; 10 MiB exactly passes. */
  lemma ValidateImageFileFacts(file: ImageFile, fixed2: real -> Text)
    ensures var r := ValidateImageFile(file, fixed2);
      && (r.Some? && r.value.code == UnsupportedFormat <==> file.mimeType !in SupportedFormats)
      && (r.Some? && r.value.code == FileTooLarge <==> file.mimeType in SupportedFormats && file.size > 10485760)
      && (r.None? <==> file.mimeType in SupportedFormats && file.size <= 10485760)
      && (r.Some? ==> r.value.code == UnsupportedFormat || r.value.code == FileTooLarge)
  {
  }

  /** `extractText`: validation first, then recognition. Blank text is a
    * recognition failure, other text comes back trimmed; an `OCRError`
    * passes through, an `Error` mentioning "Network error" becomes a
    * network error, and anything else an unknown error. */
  function ExtractText(file: ImageFile, outcome: Recognition, fixed2: real -> Text): Result<Text, OcrError>
  {
    var invalid := ValidateImageFile(file, fixed2);
    if invalid.Some? then Failure(invalid.value)
    else match outcome
      case Recognized(text) =>
        if IsBlank(text) then Failure(OcrError(NoTextMessage, RecognitionFailed)) else Success(Trim(text))
      case Threw(ThrownOcr(e)) => Failure(e)
      case Threw(ThrownError(m)) =>
        if Includes(m, "Network error") then Failure(OcrError(NetworkMessage, NetworkError))
        else Failure(OcrError(m, Unknown))
      case Threw(ThrownOther) => Failure(OcrError(GenericMessage, Unknown))
  }

  /** A file that fails validation is refused before recognition, whatever
    * the engine would have done; a success is the recognised text trimmed,
    * never blank, and trimming it again changes nothing. */
  lemma ExtractTextFacts(file: ImageFile, outcome: Recognition, fixed2: real -> Text)
    ensures ValidateImageFile(file, fixed2).Some? ==> ExtractText(file, outcome, fixed2) == Failure(ValidateImageFile(file, fixed2).value)
    ensures ExtractText(file, outcome, fixed2).Success? ==>
      && ValidateImageFile(file, fixed2).None? && outcome.Recognized?
      && ExtractText(file, outcome, fixed2).value == Trim(outcome.text)
      && !IsBlank(outcome.text) && ExtractText(file, outcome, fixed2).value != []
      && Trim(ExtractText(file, outcome, fixed2).value) == ExtractText(file, outcome, fixed2).value
    ensures ValidateImageFile(file, fixed2).None? && outcome.Recognized? ==>
      (ExtractText(file, outcome, fixed2).Success? <==> !IsBlank(outcome.text))
  {
    if outcome.Recognized? {
      TrimIdempotent(outcome.text);
    }
  }

  /** `getOCRErrorMessage`. */
  function GetOcrErrorMessage(thrown: Thrown): Text
  {
    match thrown
    case ThrownOcr(e) =>
      (match e.code
       case UnsupportedFormat => "图片格式不支持"
       case FileTooLarge => "图片太大，请选择小于 10MB 的图片"
       case RecognitionFailed => NoTextMessage
       case NetworkError => "网络错误，请检查网络连接"
       case Unknown => e.message)
    case ThrownError(m) => m
    case ThrownOther => GenericMessage
  }

  /** Every failure of `extractText` is shown with the fixed message of its
    * code, or with its own message when the code is unknown; an unknown
    * error's message is the thrown error's, or the generic one. */
  lemma ExtractTextFailureMessages(file: ImageFile, outcome: Recognition, fixed2: real -> Text)
    requires ExtractText(file, outcome, fixed2).Failure?
    ensures var e := ExtractText(file, outcome, fixed2).error;
      && (e.code == UnsupportedFormat ==> GetOcrErrorMessage(ThrownOcr(e)) == "图片格式不支持")
      && (e.code == FileTooLarge ==> GetOcrErrorMessage(ThrownOcr(e)) == "图片太大，请选择小于 10MB 的图片")
      && (e.code == RecognitionFailed ==> GetOcrErrorMessage(ThrownOcr(e)) == NoTextMessage)
      && (e.code == NetworkError ==> GetOcrErrorMessage(ThrownOcr(e)) == "网络错误，请检查网络连接")
      && (e.code == Unknown && ValidateImageFile(file, fixed2).None? && outcome.Threw? && !outcome.thrown.ThrownOcr? ==>
            GetOcrErrorMessage(ThrownOcr(e)) == GetOcrErrorMessage(outcome.thrown))
  {
  }
}
