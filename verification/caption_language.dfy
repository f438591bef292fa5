/** `findBestSubtitleLanguage`, which the older and the current subtitle
    service define identically: pick the automatic-caption language to
    download from the video's metadata. Only the two fields it reads are
    modelled; the JSON parser is not. */
module CaptionLanguage {
  import opened Wrappers
  import opened Jobs

  /** The JSON node found at `automatic_captions`, by the node kinds that
      `isMissingNode`, `isEmpty` and `fieldNames` tell apart. */
  datatype Captions =
    | Absent                     // no such field
    | Scalar                     // a string, number, boolean or null
    | ArrayNode(size: nat)
    | ObjectNode(keys: seq<string>)  // field names in document order

  /** `language` read with `asText(null)`, and the captions node. */
  datatype VideoInfo = VideoInfo(language: Option<string>, captions: Captions)

  const NoCaptionsMessage: string := "이 영상에는 자동 생성된 자막이 없습니다."
  const NoUsableLanguageMessage: string := "처리 가능한 언어의 자동 생성 자막을 찾을 수 없습니다."

  /** `isMissingNode() || isEmpty()`: a scalar has size zero, so it counts
      as empty too. */
  predicate NoCaptions(c: Captions) {
    match c
    case Absent => true
    case Scalar => true
    case ArrayNode(n) => n == 0
    case ObjectNode(keys) => |keys| == 0
  }

  /** `fieldNames()`: an array has none. */
  function CaptionKeys(c: Captions): seq<string> {
    if c.ObjectNode? then c.keys else []
  }

  function FindBestSubtitleLanguage(info: VideoInfo): (r: Result<string, Exception>)
    ensures r.Success? <==> info.captions.ObjectNode? && |info.captions.keys| > 0
    ensures r.Success? ==> r.value in CaptionKeys(info.captions)
    ensures NoCaptions(info.captions) ==> r == Failure(NoSubtitlesFound(NoCaptionsMessage))
    ensures info.captions.ArrayNode? && info.captions.size > 0 ==>
      r == Failure(NoSubtitlesFound(NoUsableLanguageMessage))
  {
    var keys := CaptionKeys(info.captions);
    if NoCaptions(info.captions) then Failure(NoSubtitlesFound(NoCaptionsMessage))
    else if info.language == Some("ko") && "ko" in keys then Success("ko")
    else if "en" in keys then Success("en")
    else if |keys| > 0 then Success(keys[0])
    else Failure(NoSubtitlesFound(NoUsableLanguageMessage))
  }

  /** How much a caption key is wanted: Korean when the video itself is in
      Korean, then English, then anything else. */
  function Preference(language: Option<string>, key: string): nat {
    if key == "ko" && language == Some("ko") then 0
    else if key == "en" then 1
    else 2
  }

  /** The chosen language is a most-wanted key, and when no key is wanted
      more than any other the first one is taken. */
  lemma ChoiceIsMostPreferred(info: VideoInfo)
    requires FindBestSubtitleLanguage(info).Success?
    ensures var lang := FindBestSubtitleLanguage(info).value;
      && (forall k :: 0 <= k < |info.captions.keys| ==>
            Preference(info.language, lang) <= Preference(info.language, info.captions.keys[k]))
      && (Preference(info.language, lang) == 2 ==> lang == info.captions.keys[0])
  {
  }

  /** Korean is taken only for a Korean video: for any other video, keys
      holding both `ko` and `en` give `en`. */
  lemma KoreanOnlyForKoreanVideos(info: VideoInfo)
    requires info.captions.ObjectNode?
    requires "ko" in info.captions.keys && "en" in info.captions.keys
    ensures FindBestSubtitleLanguage(info) == Success(if info.language == Some("ko") then "ko" else "en")
  {
  }
}
