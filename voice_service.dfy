/**
 * The voice-note processor's file-extension choice: the URL is looked at first, then the
 * reported content type, and ".mp3" is the fallback.
 */
module VoiceService {
  import opened Wrappers
  import opened Text

  /** The extensions looked for in the URL, in the order they are tried. */
  const UrlExtensions: seq<string> := [".mp3", ".m4a", ".ogg", ".oga", ".wav"]

  /** `_get_audio_extension`: one if/elif chain over the URL, then one over the content type. */
  function AudioExtension(url: string, contentType: Option<string>): (r: string)
    ensures r in UrlExtensions
  {
    if Contains(url, ".mp3") then ".mp3"
    else if Contains(url, ".m4a") then ".m4a"
    else if Contains(url, ".ogg") then ".ogg"
    else if Contains(url, ".oga") then ".oga"
    else if Contains(url, ".wav") then ".wav"
    else if contentType.Some? && contentType.value != "" then
      var ct := contentType.value;
      if Contains(ct, "mp3") then ".mp3"
      else if Contains(ct, "m4a") || Contains(ct, "mp4") then ".m4a"
      else if Contains(ct, "ogg") then ".ogg"
      else if Contains(ct, "wav") then ".wav"
      else ".mp3"
    else ".mp3"
  }

  /** Reference reading of the URL step: the first listed extension the URL contains. */
  function FirstInUrl(url: string, exts: seq<string>): (r: Option<string>)
    ensures r.Some? ==> exists k :: 0 <= k < |exts| && exts[k] == r.value && Contains(url, exts[k])
    ensures r.Some? ==> Contains(url, r.value)
    ensures r.None? <==> forall k :: 0 <= k < |exts| ==> !Contains(url, exts[k])
  {
    if exts == [] then None
    else if Contains(url, exts[0]) then Some(exts[0])
    else
      var r := FirstInUrl(url, exts[1..]);
      assert forall k :: 1 <= k < |exts| ==> exts[k] == exts[1..][k - 1];
      r
  }

  /** Reference reading of the content-type step, from the media types it recognises. */
  function FromContentType(contentType: Option<string>): (r: Option<string>)
    ensures r != Some(".oga")
  {
    match contentType
    case None => None
    case Some(ct) =>
      if Contains(ct, "mp3") then Some(".mp3")
      else if Contains(ct, "m4a") || Contains(ct, "mp4") then Some(".m4a")
      else if Contains(ct, "ogg") then Some(".ogg")
      else if Contains(ct, "wav") then Some(".wav")
      else None
  }

  /**
   * The chain is "the URL's first listed extension, else the content type's, else .mp3":
   * the URL is tried extension by extension in list order and the first hit wins.
   */
  lemma {:induction false} AudioExtensionIsFirstHit(url: string, contentType: Option<string>)
    ensures AudioExtension(url, contentType) ==
              match FirstInUrl(url, UrlExtensions)
              case Some(e) => e
              case None => FromContentType(contentType).GetOr(".mp3")
  {
    var e := UrlExtensions;
    assert e[0] == ".mp3" && e[1..][0] == ".m4a" && e[1..][1..][0] == ".ogg";
    assert e[1..][1..][1..][0] == ".oga" && e[1..][1..][1..][1..][0] == ".wav";
    assert e[1..][1..][1..][1..][1..] == [];
    var e1, e2, e3, e4 := e[1..], e[1..][1..], e[1..][1..][1..], e[1..][1..][1..][1..];
    assert FirstInUrl(url, e) == if Contains(url, ".mp3") then Some(".mp3") else FirstInUrl(url, e1);
    assert FirstInUrl(url, e1) == if Contains(url, ".m4a") then Some(".m4a") else FirstInUrl(url, e2);
    assert FirstInUrl(url, e2) == if Contains(url, ".ogg") then Some(".ogg") else FirstInUrl(url, e3);
    assert FirstInUrl(url, e3) == if Contains(url, ".oga") then Some(".oga") else FirstInUrl(url, e4);
    assert FirstInUrl(url, e4) == if Contains(url, ".wav") then Some(".wav") else None;
    if contentType == Some("") {
      assert !Contains("", "mp3") && !Contains("", "m4a") && !Contains("", "mp4");
      assert !Contains("", "ogg") && !Contains("", "wav");
      assert FromContentType(contentType) == None;
    }
  }

  /** A URL that names one of the extensions decides alone: the content type is ignored. */
  lemma UrlDecides(url: string, a: Option<string>, b: Option<string>, k: nat)
    requires k < |UrlExtensions| && Contains(url, UrlExtensions[k])
    ensures AudioExtension(url, a) == AudioExtension(url, b)
    ensures Contains(url, AudioExtension(url, a))
  {
    AudioExtensionIsFirstHit(url, a);
    AudioExtensionIsFirstHit(url, b);
  }

  /** ".oga" comes only from the URL: the content type never produces it. */
  lemma OgaOnlyFromUrl(url: string, contentType: Option<string>)
    requires AudioExtension(url, contentType) == ".oga"
    ensures Contains(url, ".oga")
  {
    AudioExtensionIsFirstHit(url, contentType);
  }

  /** With no hit in the URL and none in the content type (or no content type), ".mp3". */
  lemma DefaultIsMp3(url: string, contentType: Option<string>)
    requires forall k :: 0 <= k < |UrlExtensions| ==> !Contains(url, UrlExtensions[k])
    requires FromContentType(contentType).None?
    ensures AudioExtension(url, contentType) == ".mp3"
  {
    AudioExtensionIsFirstHit(url, contentType);
  }
}
