/** The YouTube URL checks of the review-session form (`validateYouTubeUrl`,
    `extractVideoId` in `CreateReviewSessionForm.jsx`), written as explicit scans over the
    string. Each scan is tied to a declarative statement of what the regular expression
    accepts: where a pattern may start, which alternative it takes, how far `.*` and `+`
    reach. */
module YouTubeUrl {
  import opened Wrappers

  /** `[^&\n?#]`: a character that may appear in a video id. */
  predicate IsIdChar(c: char) {
    c != '&' && c != '\n' && c != '?' && c != '#'
  }

  /** The characters `.` does not match (ECMAScript line terminators). */
  predicate IsLineTerminator(c: char) {
    c == '\n' || c == '\r' || c == '\U{2028}' || c == '\U{2029}'
  }

  /** `lit` occurs in `s` starting at `p`. */
  predicate HasAt(s: string, p: nat, lit: string) {
    p + |lit| <= |s| && s[p..p + |lit|] == lit
  }

  const WatchPrefix: string := "youtube.com/watch?v="
  const ShortPrefix: string := "youtu.be/"
  const EmbedPrefix: string := "youtube.com/embed/"
  const WatchPath: string := "youtube.com/watch?"

  /** The length of the greedy `([^&\n?#]+)` run starting at `i`. */
  function IdRunLength(s: string, i: nat): (n: nat)
    requires i <= |s|
    ensures i + n <= |s|
    ensures forall j :: i <= j < i + n ==> IsIdChar(s[j])
    ensures i + n < |s| ==> !IsIdChar(s[i + n])
    decreases |s| - i
  {
    if i < |s| && IsIdChar(s[i]) then 1 + IdRunLength(s, i + 1) else 0
  }

  /** The captured id: the longest run of id characters starting at `i`. */
  function Capture(s: string, i: nat): string
    requires i <= |s|
  {
    s[i..i + IdRunLength(s, i)]
  }

  /** Which alternative of `(youtube\.com\/watch\?v=|youtu\.be\/|youtube\.com\/embed\/)`
      matches at `p`, tried in order, by its length; 0 when none does. */
  function DirectPrefixLength(s: string, p: nat): (n: nat)
    ensures n == 0 <==> !HasAt(s, p, WatchPrefix) && !HasAt(s, p, ShortPrefix) && !HasAt(s, p, EmbedPrefix)
    ensures n != 0 ==> p < |s| && s[p] == 'y' && p + n <= |s|
  {
    if HasAt(s, p, WatchPrefix) then assert s[p] == WatchPrefix[0]; |WatchPrefix|
    else if HasAt(s, p, ShortPrefix) then assert s[p] == ShortPrefix[0]; |ShortPrefix|
    else if HasAt(s, p, EmbedPrefix) then assert s[p] == EmbedPrefix[0]; |EmbedPrefix|
    else 0
  }

  /** The first pattern matches at `p`: a recognised prefix followed by at least one id character. */
  predicate DirectMatchAt(s: string, p: nat) {
    var n := DirectPrefixLength(s, p);
    n > 0 && p + n < |s| && IsIdChar(s[p + n])
  }

  /** The leftmost position at or after `p` where the first pattern matches. */
  function FirstDirect(s: string, p: nat): (r: Option<nat>)
    ensures r.Some? ==> p <= r.value < |s| && DirectMatchAt(s, r.value)
    ensures r.Some? ==> forall q: nat :: p <= q < r.value ==> !DirectMatchAt(s, q)
    ensures r.None? ==> forall q: nat :: p <= q ==> !DirectMatchAt(s, q)
    decreases |s| - p
  {
    if p >= |s| then None
    else if DirectMatchAt(s, p) then Some(p)
    else FirstDirect(s, p + 1)
  }

  /** `v=` followed by an id character at `k`. */
  predicate VAt(s: string, k: nat) {
    k + 3 <= |s| && s[k] == 'v' && s[k + 1] == '=' && IsIdChar(s[k + 2])
  }

  /** `.*` can span `i..k`: no line terminator in between. */
  predicate NoTerminatorBetween(s: string, i: nat, k: nat) {
    forall j :: i <= j < k && j < |s| ==> !IsLineTerminator(s[j])
  }

  /** `.*v=([^&\n?#]+)` can match from `i` with `v=` at `k`. */
  predicate VParamFrom(s: string, i: nat, k: nat) {
    i <= k && VAt(s, k) && NoTerminatorBetween(s, i, k)
  }

  /** Where the greedy `.*` stops: the last `k` the tail can use. */
  function LastVFrom(s: string, i: nat): (r: Option<nat>)
    ensures r.Some? ==> VParamFrom(s, i, r.value)
    ensures r.Some? ==> forall k: nat :: r.value < k ==> !VParamFrom(s, i, k)
    ensures r.None? ==> forall k: nat :: !VParamFrom(s, i, k)
    decreases |s| - i
  {
    if i >= |s| || IsLineTerminator(s[i]) then None
    else
      var later := LastVFrom(s, i + 1);
      StepVParam(s, i);
      if later.Some? then later
      else if VAt(s, i) then Some(i)
      else None
  }

  /** Moving the start of `.*` one character to the right. */
  lemma StepVParam(s: string, i: nat)
    requires i < |s| && !IsLineTerminator(s[i])
    ensures forall k: nat :: VParamFrom(s, i, k) <==> (k == i && VAt(s, i)) || VParamFrom(s, i + 1, k)
  {
  }

  /** The second pattern with `v=` at `k`, the path starting at `p`. */
  predicate WatchParamAt(s: string, p: nat, k: nat) {
    HasAt(s, p, WatchPath) && VParamFrom(s, p + |WatchPath|, k)
  }

  /** The second pattern matches at `p`. */
  predicate WatchMatchAt(s: string, p: nat) {
    HasAt(s, p, WatchPath) && LastVFrom(s, p + |WatchPath|).Some?
  }

  lemma WatchMatchIff(s: string, p: nat)
    ensures WatchMatchAt(s, p) <==> exists k: nat :: WatchParamAt(s, p, k)
  {
    if HasAt(s, p, WatchPath) && LastVFrom(s, p + |WatchPath|).Some? {
      assert WatchParamAt(s, p, LastVFrom(s, p + |WatchPath|).value);
    }
  }

  /** The leftmost position at or after `p` where the second pattern matches. */
  function FirstWatch(s: string, p: nat): (r: Option<nat>)
    ensures r.Some? ==> p <= r.value < |s| && WatchMatchAt(s, r.value)
    ensures r.Some? ==> forall q: nat :: p <= q < r.value ==> !WatchMatchAt(s, q)
    ensures r.None? ==> forall q: nat :: p <= q ==> !WatchMatchAt(s, q)
    decreases |s| - p
  {
    if p >= |s| then None
    else if WatchMatchAt(s, p) then Some(p)
    else FirstWatch(s, p + 1)
  }

  /** The first pattern alone: the id after its leftmost match. */
  function ExtractDirect(url: string): (r: Option<string>)
    ensures r.Some? ==> r.value != [] && forall j :: 0 <= j < |r.value| ==> IsIdChar(r.value[j])
    ensures r.None? <==> forall q: nat :: !DirectMatchAt(url, q)
  {
    var direct := FirstDirect(url, 0);
    if direct.Some? then
      var p := direct.value;
      Some(Capture(url, p + DirectPrefixLength(url, p)))
    else None
  }

  /** The first pattern reports the id at its leftmost match. */
  lemma ExtractDirectLeftmost(url: string, p: nat)
    requires DirectMatchAt(url, p)
    requires forall q: nat :: q < p ==> !DirectMatchAt(url, q)
    ensures ExtractDirect(url) == Some(Capture(url, p + DirectPrefixLength(url, p)))
  {
    var first := FirstDirect(url, 0);
    assert first.Some?;
  }

  /** The second pattern alone: the id after the last usable `v=` of its leftmost match. */
  function ExtractWatch(url: string): (r: Option<string>)
    ensures r.Some? ==> r.value != [] && forall j :: 0 <= j < |r.value| ==> IsIdChar(r.value[j])
    ensures r.None? <==> forall q: nat, k: nat :: !WatchParamAt(url, q, k)
  {
    var watch := FirstWatch(url, 0);
    WatchMatchesAll(url);
    if watch.Some? then
      var p := watch.value;
      var k := LastVFrom(url, p + |WatchPath|).value;
      Some(Capture(url, k + 2))
    else
      NoWatchAnywhere(url);
      None
  }

  lemma NoWatchAnywhere(url: string)
    requires FirstWatch(url, 0).None?
    ensures forall q: nat, k: nat :: !WatchParamAt(url, q, k)
  {
    forall q: nat, k: nat
      ensures !WatchParamAt(url, q, k)
    {
      assert !WatchMatchAt(url, q);
      WatchMatchIff(url, q);
    }
  }

  /** The second pattern reports the id after the greedy `.*`, at its leftmost match. */
  lemma ExtractWatchLeftmostGreedy(url: string, p: nat, k: nat)
    requires WatchParamAt(url, p, k)
    requires forall q: nat, k': nat :: q < p ==> !WatchParamAt(url, q, k')
    requires forall k': nat :: k < k' ==> !WatchParamAt(url, p, k')
    ensures ExtractWatch(url) == Some(Capture(url, k + 2))
  {
    FirstWatchIs(url, p, k);
    LastVIs(url, p, k);
  }

  lemma FirstWatchIs(url: string, p: nat, k: nat)
    requires WatchParamAt(url, p, k)
    requires forall q: nat, k': nat :: q < p ==> !WatchParamAt(url, q, k')
    ensures FirstWatch(url, 0) == Some(p)
  {
    WatchMatchIff(url, p);
    forall q: nat | q < p
      ensures !WatchMatchAt(url, q)
    {
      WatchMatchIff(url, q);
    }
  }

  lemma LastVIs(url: string, p: nat, k: nat)
    requires WatchParamAt(url, p, k)
    requires forall k': nat :: k < k' ==> !WatchParamAt(url, p, k')
    ensures LastVFrom(url, p + |WatchPath|) == Some(k)
  {
    var last := LastVFrom(url, p + |WatchPath|);
    if last.Some? && last.value > k {
      assert WatchParamAt(url, p, last.value);
    }
  }

  /** `extractVideoId`: the first pattern's id when it matches anywhere, else the second's. */
  function ExtractVideoId(url: string): (r: Option<string>)
    ensures r.Some? ==> r.value != [] && forall j :: 0 <= j < |r.value| ==> IsIdChar(r.value[j])
    ensures r.None? <==>
      (forall q: nat :: !DirectMatchAt(url, q)) && (forall q: nat, k: nat :: !WatchParamAt(url, q, k))
    ensures (exists q: nat :: DirectMatchAt(url, q)) ==> r == ExtractDirect(url)
    ensures (forall q: nat :: !DirectMatchAt(url, q)) ==> r == ExtractWatch(url)
  {
    var direct := ExtractDirect(url);
    if direct.Some? then direct else ExtractWatch(url)
  }

  lemma WatchMatchesAll(s: string)
    ensures forall p: nat :: WatchMatchAt(s, p) <==> exists k: nat :: WatchParamAt(s, p, k)
  {
    forall p: nat
      ensures WatchMatchAt(s, p) <==> exists k: nat :: WatchParamAt(s, p, k)
    {
      WatchMatchIff(s, p);
    }
  }

  /** The four ways `^https?:\/\/(www\.)?` can read the start of a URL. */
  const UrlPrefixes: seq<string> := ["http://", "https://", "http://www.", "https://www."]

  /** The first validator pattern: some reading of scheme and optional `www.` is followed
      directly by a recognised prefix and an id character. */
  predicate AnchoredDirect(url: string) {
    exists i :: 0 <= i < |UrlPrefixes| && HasAt(url, 0, UrlPrefixes[i]) && DirectMatchAt(url, |UrlPrefixes[i]|)
  }

  /** The second validator pattern: some reading of scheme and optional `www.` is followed by
      `youtube.com/watch?`, then anything on the same line, then `v=` and an id character. */
  ghost predicate AnchoredWatch(url: string) {
    exists i, k: nat :: 0 <= i < |UrlPrefixes| && HasAt(url, 0, UrlPrefixes[i]) && WatchParamAt(url, |UrlPrefixes[i]|, k)
  }

  /** The length of the `https?:\/\/` the URL starts with, 0 when it has none. */
  function SchemeLength(url: string): (n: nat)
    ensures n == 0 || n == 7 || n == 8
  {
    if HasAt(url, 0, "https://") then 8 else if HasAt(url, 0, "http://") then 7 else 0
  }

  /** Where the host part starts once the scheme and an optional `www.` are skipped. */
  function HostStart(url: string): nat {
    var n := SchemeLength(url);
    n + (if HasAt(url, n, "www.") then 4 else 0)
  }

  /** `validateYouTubeUrl`: false for the empty string, otherwise one of the two anchored
      patterns must match. The scan skips `www.` whenever it is there: every alternative
      after it starts with `y`, so the reading without `www.` can never succeed instead. */
  function ValidateYouTubeUrl(url: string): (ok: bool)
    ensures url == [] ==> !ok
    ensures ok <==> AnchoredDirect(url) || AnchoredWatch(url)
  {
    ValidatorReadsHostStart(url);
    if url == [] then false
    else
      var h := HostStart(url);
      WatchMatchIff(url, h);
      SchemeLength(url) > 0 && (DirectMatchAt(url, h) || WatchMatchAt(url, h))
  }

  /** Both patterns need a `y` where they start. */
  lemma MatchStartsWithY(s: string, p: nat)
    ensures DirectMatchAt(s, p) ==> p < |s| && s[p] == 'y'
    ensures forall k: nat :: WatchParamAt(s, p, k) ==> p < |s| && s[p] == 'y'
  {
    forall k: nat | WatchParamAt(s, p, k)
      ensures p < |s| && s[p] == 'y'
    {
      assert s[p] == s[p..p + |WatchPath|][0];
    }
  }

  /** The only reading of the scheme and `www.` that can lead to a match ends at `HostStart`. */
  lemma ValidatorReadsHostStart(url: string)
    ensures AnchoredDirect(url) <==> url != [] && SchemeLength(url) > 0 && DirectMatchAt(url, HostStart(url))
    ensures AnchoredWatch(url) <==>
      url != [] && SchemeLength(url) > 0 && exists k: nat :: WatchParamAt(url, HostStart(url), k)
  {
    var h := HostStart(url);
    forall i | 0 <= i < |UrlPrefixes| && HasAt(url, 0, UrlPrefixes[i])
      ensures (DirectMatchAt(url, |UrlPrefixes[i]|) || exists k: nat :: WatchParamAt(url, |UrlPrefixes[i]|, k))
        ==> |UrlPrefixes[i]| == h
    {
      var n := |UrlPrefixes[i]|;
      MatchStartsWithY(url, n);
      if DirectMatchAt(url, n) || exists k: nat :: WatchParamAt(url, n, k) {
        ReadingEndsAtHost(url, i);
      }
    }
    if url != [] && SchemeLength(url) > 0 {
      var i := HostReading(url);
      assert HasAt(url, 0, UrlPrefixes[i]) && |UrlPrefixes[i]| == h;
      if exists k: nat :: WatchParamAt(url, h, k) {
        var k: nat :| WatchParamAt(url, h, k);
        assert WatchParamAt(url, |UrlPrefixes[i]|, k);
      }
    }
  }

  /** A reading followed by `y` is the one `HostStart` takes. */
  lemma ReadingEndsAtHost(url: string, i: nat)
    requires i < |UrlPrefixes| && HasAt(url, 0, UrlPrefixes[i])
    requires |UrlPrefixes[i]| < |url| && url[|UrlPrefixes[i]|] == 'y'
    ensures |UrlPrefixes[i]| == HostStart(url)
  {
    var pre := UrlPrefixes[i];
    assert url[..|pre|] == pre;
    assert url[4] == pre[4];
    if i == 0 || i == 2 {
      assert !HasAt(url, 0, "https://") by { assert url[4] == ':'; }
      assert HasAt(url, 0, "http://") by { assert url[..7] == pre[..7]; }
      if i == 0 {
        assert !HasAt(url, 7, "www.") by { assert url[7] == 'y'; }
      } else {
        assert url[7..11] == pre[7..11];
      }
    } else {
      assert HasAt(url, 0, "https://") by { assert url[..8] == pre[..8]; }
      if i == 1 {
        assert !HasAt(url, 8, "www.") by { assert url[8] == 'y'; }
      } else {
        assert url[8..12] == pre[8..12];
      }
    }
  }

  /** The reading `HostStart` takes, as an index into `UrlPrefixes`. */
  lemma HostReading(url: string) returns (i: nat)
    requires SchemeLength(url) > 0
    ensures i < |UrlPrefixes| && HasAt(url, 0, UrlPrefixes[i]) && |UrlPrefixes[i]| == HostStart(url)
  {
    var n := SchemeLength(url);
    var www := HasAt(url, n, "www.");
    i := (if n == 7 then 0 else 1) + (if www then 2 else 0);
    var pre := UrlPrefixes[i];
    assert url[..n] == pre[..n];
    if www {
      assert url[n..n + 4] == pre[n..n + 4];
      assert url[..|pre|] == url[..n] + url[n..n + 4];
      assert pre == pre[..n] + pre[n..n + 4];
    }
  }

  /** Every URL the validator accepts has a video id for the extractor to find. */
  lemma ValidUrlHasVideoId(url: string)
    requires ValidateYouTubeUrl(url)
    ensures ExtractVideoId(url).Some?
  {
    ValidatorReadsHostStart(url);
  }

  /** For a URL accepted by the first pattern, the extractor reports the id right after the
      recognised prefix: nothing before the host can start a match. */
  lemma ValidDirectUrlId(url: string)
    requires SchemeLength(url) > 0 && DirectMatchAt(url, HostStart(url))
    ensures ExtractVideoId(url) == Some(Capture(url, HostStart(url) + DirectPrefixLength(url, HostStart(url))))
  {
    var h := HostStart(url);
    NoDirectMatchBeforeHost(url);
    ExtractDirectLeftmost(url, h);
  }

  /** The URL prefixes contain no `y`, so no match of the first pattern starts inside them. */
  lemma NoDirectMatchBeforeHost(url: string)
    requires SchemeLength(url) > 0
    ensures forall q: nat :: q < HostStart(url) ==> !DirectMatchAt(url, q)
  {
    var h := HostStart(url);
    var i := HostReading(url);
    var pre := UrlPrefixes[i];
    assert forall j :: 0 <= j < |pre| ==> pre[j] != 'y';
    forall q: nat | q < h
      ensures !DirectMatchAt(url, q)
    {
      MatchStartsWithY(url, q);
      assert url[q] == url[..h][q] == pre[q];
    }
  }

}
