/** The submit logic of the review-session creation form (`CreateReviewSessionForm.jsx`):
    the ordered checks, the payload sent to the server and the reset after success. */
module CreateReviewSessionForm {
  import opened Wrappers
  import Text
  import YouTubeUrl

  const MaxTitleLength := 200
  const MaxDescriptionLength := 1000

  const UrlRequired: string := "YouTube URL is required"
  const UrlInvalid: string := "Please enter a valid YouTube URL (youtube.com or youtu.be)"
  const TitleRequired: string := "Title is required"
  const TitleTooLong: string := "Title must be less than 200 characters"
  const DescriptionTooLong: string := "Description must be less than 1000 characters"

  datatype FormData = FormData(videoUrl: string, title: string, description: string)

  const EmptyForm := FormData("", "", "")

  /** The body of the create request; `description` is `None` for `null`. */
  datatype SessionData = SessionData(teamId: Option<string>, videoUrl: string, title: string, description: Option<string>)

  datatype SubmitOutcome = Rejected(message: string) | Create(data: SessionData)

  /** The URL passes the first two checks. */
  predicate UrlAccepted(f: FormData) {
    !Text.IsBlank(f.videoUrl) && YouTubeUrl.ValidateYouTubeUrl(f.videoUrl)
  }

  /** The checks of `handleSubmit`, in order: the message of the first that fails. A title of
      exactly 200 characters and a description of exactly 1000 are accepted. */
  function FirstFailure(f: FormData): (r: Option<string>)
    ensures r == Some(UrlRequired) <==> Text.IsBlank(f.videoUrl)
    ensures r == Some(UrlInvalid) <==> !Text.IsBlank(f.videoUrl) && !YouTubeUrl.ValidateYouTubeUrl(f.videoUrl)
    ensures r == Some(TitleRequired) <==> UrlAccepted(f) && Text.IsBlank(f.title)
    ensures r == Some(TitleTooLong) <==> UrlAccepted(f) && !Text.IsBlank(f.title) && |f.title| > MaxTitleLength
    ensures r == Some(DescriptionTooLong) <==>
      UrlAccepted(f) && !Text.IsBlank(f.title) && |f.title| <= MaxTitleLength && |f.description| > MaxDescriptionLength
    ensures r.None? <==>
      UrlAccepted(f) && !Text.IsBlank(f.title) && |f.title| <= MaxTitleLength && |f.description| <= MaxDescriptionLength
  {
    if Text.Trim(f.videoUrl) == [] then Some(UrlRequired)
    else if !YouTubeUrl.ValidateYouTubeUrl(f.videoUrl) then Some(UrlInvalid)
    else if Text.Trim(f.title) == [] then Some(TitleRequired)
    else if |f.title| > MaxTitleLength then Some(TitleTooLong)
    else if |f.description| > MaxDescriptionLength then Some(DescriptionTooLong)
    else None
  }

  /** `sessionData`: trimmed URL and title; the trimmed description, or null when blank. */
  function Payload(f: FormData, teamId: Option<string>): (d: SessionData)
    ensures d.teamId == teamId
    ensures d.videoUrl == Text.Trim(f.videoUrl) && d.title == Text.Trim(f.title)
    ensures d.description.None? <==> Text.IsBlank(f.description)
    ensures d.description.Some? ==> d.description.value == Text.Trim(f.description) && d.description.value != []
  {
    var description := Text.Trim(f.description);
    SessionData(teamId, Text.Trim(f.videoUrl), Text.Trim(f.title), if description == [] then None else Some(description))
  }

  /** `handleSubmit` up to the HTTP call: a failed check rejects with its message, otherwise the
      payload is sent. */
  function Submit(f: FormData, teamId: Option<string>): (r: SubmitOutcome)
    ensures r.Rejected? <==> FirstFailure(f).Some?
    ensures r.Rejected? ==> r.message == FirstFailure(f).value
    ensures r.Create? ==> r.data == Payload(f, teamId)
  {
    var failure := FirstFailure(f);
    if failure.Some? then Rejected(failure.value) else Create(Payload(f, teamId))
  }

  /** The form after the create call: cleared when the session was created, kept otherwise. */
  function AfterCreate(f: FormData, created: bool): (g: FormData)
    ensures created ==> g.videoUrl == [] && g.title == [] && g.description == []
    ensures !created ==> g == f
  {
    if created then EmptyForm else f
  }

  /** A form cleared after a successful create is rejected if submitted again: the user has
      to enter a new URL before another session can be created. */
  lemma ClearedFormRejected(f: FormData, teamId: Option<string>)
    ensures Submit(AfterCreate(f, true), teamId) == Rejected(UrlRequired)
  {
  }

  /** A sent title is never empty and never longer than the limit. */
  lemma SentTitleWithinLimits(f: FormData, teamId: Option<string>)
    ensures Submit(f, teamId).Create? ==>
      var t := Submit(f, teamId).data.title; t != [] && |t| <= MaxTitleLength
  {
  }

  /** ASCII whitespace as HTML defines it: tab, line feed, form feed, carriage return, space. */
  predicate IsAsciiWhitespace(c: char) {
    c == '\t' || c == '\n' || c == '\U{000C}' || c == '\r' || c == ' '
  }

  /** True when the value sanitization of an `<input type="url">` leaves `s` as it is: the
      browser strips line breaks and then leading and trailing ASCII whitespace. */
  predicate UnchangedByUrlSanitization(s: string) {
    && (forall k :: 0 <= k < |s| ==> s[k] != '\n' && s[k] != '\r')
    && (s != [] ==> !IsAsciiWhitespace(s[0]) && !IsAsciiWhitespace(s[|s| - 1]))
  }

  /** The URL is checked before trimming but sent trimmed. A trailing no-break space after
      `youtu.be/` counts as a video id, survives the URL field's own sanitization (it is not
      ASCII whitespace) and is removed by the JavaScript trim, so this form is accepted
      although the URL it sends fails the same check. */
  lemma TrimmedUrlLosesId(f: FormData)
    requires f == FormData("https://youtu.be/\U{00A0}", "Review", "")
    ensures UnchangedByUrlSanitization(f.videoUrl)
    ensures Submit(f, None).Create?
    ensures !YouTubeUrl.ValidateYouTubeUrl(Submit(f, None).data.videoUrl)
  {
    NoBreakWitnessSurvivesSanitization(f.videoUrl);
    SpaceIdAccepted();
    TitleNotBlank(f.title);
    assert UrlAccepted(f);
    assert FirstFailure(f).None?;
    UrlTrimmed(f.videoUrl);
    BareShortLinkRejected();
  }

  lemma NoBreakWitnessSurvivesSanitization(url: string)
    requires url == "https://youtu.be/\U{00A0}"
    ensures UnchangedByUrlSanitization(url)
  {
    assert url[|url| - 1] == '\U{00A0}';
  }

  lemma TitleNotBlank(title: string)
    requires title == "Review"
    ensures !Text.IsBlank(title)
  {
    assert !Text.IsJsWhitespace(title[0]);
  }

  lemma UrlTrimmed(url: string)
    requires url == "https://youtu.be/\U{00A0}"
    ensures Text.Trim(url) == "https://youtu.be/"
  {
    assert url == "https://youtu.be/" + "\U{00A0}";
    Text.TrimDropsTrailing("https://youtu.be/", "\U{00A0}");
  }

  lemma SpaceIdAccepted()
    ensures YouTubeUrl.ValidateYouTubeUrl("https://youtu.be/\U{00A0}")
    ensures !Text.IsBlank("https://youtu.be/\U{00A0}")
  {
    var url := "https://youtu.be/\U{00A0}";
    assert !Text.IsJsWhitespace(url[0]);
    assert YouTubeUrl.HasAt(url, 0, "https://") by { assert url[..8] == "https://"; }
    assert !YouTubeUrl.HasAt(url, 8, "www.") by { assert url[8] == 'y'; }
    assert YouTubeUrl.HostStart(url) == 8;
    assert YouTubeUrl.HasAt(url, 8, YouTubeUrl.ShortPrefix) by { assert url[8..17] == "youtu.be/"; }
    assert YouTubeUrl.DirectMatchAt(url, 8);
  }

  lemma BareShortLinkRejected()
    ensures !YouTubeUrl.ValidateYouTubeUrl("https://youtu.be/")
  {
    var url := "https://youtu.be/";
    assert YouTubeUrl.HasAt(url, 0, "https://") by { assert url[..8] == "https://"; }
    assert !YouTubeUrl.HasAt(url, 8, "www.") by { assert url[8] == 'y'; }
    assert YouTubeUrl.HostStart(url) == 8;
  }

  /** The checks with the URL trimmed before it is validated, so that the URL checked is
      the URL sent. */
  function FirstFailureTrimmed(f: FormData): (r: Option<string>)
    ensures r.None? ==> YouTubeUrl.ValidateYouTubeUrl(Text.Trim(f.videoUrl))
    ensures r.None? <==>
      && YouTubeUrl.ValidateYouTubeUrl(Text.Trim(f.videoUrl))
      && !Text.IsBlank(f.title) && |f.title| <= MaxTitleLength && |f.description| <= MaxDescriptionLength
    ensures r == Some(UrlRequired) <==> Text.IsBlank(f.videoUrl)
  {
    var url := Text.Trim(f.videoUrl);
    if url == [] then Some(UrlRequired)
    else if !YouTubeUrl.ValidateYouTubeUrl(url) then Some(UrlInvalid)
    else if Text.Trim(f.title) == [] then Some(TitleRequired)
    else if |f.title| > MaxTitleLength then Some(TitleTooLong)
    else if |f.description| > MaxDescriptionLength then Some(DescriptionTooLong)
    else None
  }

  function SubmitTrimmed(f: FormData, teamId: Option<string>): (r: SubmitOutcome)
    ensures r.Rejected? <==> FirstFailureTrimmed(f).Some?
    ensures r.Create? ==> r.data == Payload(f, teamId)
  {
    var failure := FirstFailureTrimmed(f);
    if failure.Some? then Rejected(failure.value) else Create(Payload(f, teamId))
  }

  /** With the trimmed URL checked, every URL sent passes the check and carries a video id. */
  lemma SubmitTrimmedSendsValidUrl(f: FormData, teamId: Option<string>)
    ensures SubmitTrimmed(f, teamId).Create? ==>
      && YouTubeUrl.ValidateYouTubeUrl(SubmitTrimmed(f, teamId).data.videoUrl)
      && YouTubeUrl.ExtractVideoId(SubmitTrimmed(f, teamId).data.videoUrl).Some?
  {
    if SubmitTrimmed(f, teamId).Create? {
      YouTubeUrl.ValidUrlHasVideoId(Text.Trim(f.videoUrl));
    }
  }
}
