/** The pure helpers of the embedded player component (`YouTubePlayer.jsx`): its own copy of
    the video-id extractor, the error-code messages and the getters that default to 0. */
module YouTubePlayer {
  import opened Wrappers
  import YouTubeUrl

  /** `extractYouTubeVideoId`: nothing for an absent or empty URL, otherwise the same two
      patterns as the form's extractor, tried in the same order. */
  function ExtractYouTubeVideoId(url: Option<string>): (r: Option<string>)
    ensures url.None? || url.value == [] ==> r.None?
    ensures r.Some? ==> r.value != [] && forall j :: 0 <= j < |r.value| ==> YouTubeUrl.IsIdChar(r.value[j])
  {
    if url.None? || url.value == [] then None
    else
      var direct := YouTubeUrl.ExtractDirect(url.value);
      if direct.Some? then direct else YouTubeUrl.ExtractWatch(url.value)
  }

  /** The player and the form agree on every URL, the empty one included. */
  lemma ExtractorsAgree(url: string)
    ensures ExtractYouTubeVideoId(Some(url)) == YouTubeUrl.ExtractVideoId(url)
  {
    if url == [] {
      assert forall q: nat :: !YouTubeUrl.DirectMatchAt(url, q);
      assert forall q: nat, k: nat :: !YouTubeUrl.WatchParamAt(url, q, k);
    }
  }

  /** The categories the `onError` handler distinguishes. */
  datatype ErrorKind = InvalidVideoId | Html5Error | NotFound | NotEmbeddable | UnknownError

  /** The YouTube IFrame API error code, as the `switch` reads it. */
  function ErrorKindOf(code: int): (k: ErrorKind)
    ensures k == InvalidVideoId <==> code == 2
    ensures k == Html5Error <==> code == 5
    ensures k == NotFound <==> code == 100
    ensures k == NotEmbeddable <==> code == 101 || code == 150
  {
    match code
    case 2 => InvalidVideoId
    case 5 => Html5Error
    case 100 => NotFound
    case 101 => NotEmbeddable
    case 150 => NotEmbeddable
    case _ => UnknownError
  }

  const ErrorPrefix: string := "Error loading video: "

  function Reason(k: ErrorKind): string {
    match k
    case InvalidVideoId => "Invalid video ID"
    case Html5Error => "HTML5 player error"
    case NotFound => "Video not found or private"
    case NotEmbeddable => "Video cannot be embedded"
    case UnknownError => "Unknown error"
  }

  /** The message `onError` shows: the common prefix, then the reason for the code. */
  function ErrorMessage(code: int): (m: string)
    ensures |m| > |ErrorPrefix| && m[..|ErrorPrefix|] == ErrorPrefix
    ensures m[|ErrorPrefix|..] == Reason(ErrorKindOf(code))
  {
    ErrorPrefix + Reason(ErrorKindOf(code))
  }

  /** Two codes give the same message exactly when they fall in the same category. */
  lemma ErrorMessagesDistinguishKinds(a: int, b: int)
    ensures ErrorMessage(a) == ErrorMessage(b) <==> ErrorKindOf(a) == ErrorKindOf(b)
  {
    if ErrorMessage(a) == ErrorMessage(b) {
      assert Reason(ErrorKindOf(a)) == ErrorMessage(a)[|ErrorPrefix|..];
      ReasonInjective(ErrorKindOf(a), ErrorKindOf(b));
    }
  }

  lemma ReasonInjective(j: ErrorKind, k: ErrorKind)
    requires Reason(j) == Reason(k)
    ensures j == k
  {
  }

  /** What the underlying player reports for a time query: a number, or a falsy value (`None`). */
  type Reading = Option<int>

  /** `youtubePlayerRef.current?.getCurrentTime() || 0` (and `getDuration`): 0 when there is no
      player or the player's answer is falsy, the answer otherwise. */
  function TimeOrZero(player: Option<Reading>): (t: int)
    ensures player.None? || player.value.None? ==> t == 0
    ensures player.Some? && player.value.Some? ==> t == player.value.value
  {
    if player.Some? && player.value.Some? && player.value.value != 0 then player.value.value else 0
  }

  /** `getPlayerState() === window.YT?.PlayerState?.PLAYING`: both sides may be missing, and
      strict equality then compares `undefined` with `undefined`. */
  function IsPlaying(state: Option<int>, playingConstant: Option<int>): (playing: bool)
    ensures playing <==> state == playingConstant
  {
    match (state, playingConstant)
    case (None, None) => true
    case (Some(s), Some(c)) => s == c
    case _ => false
  }
}
