/** The practice-plan request validator, the practice-type constants and the duration
    formatter of `PracticeService.js`. The HTTP fetchers of the same file are not modelled. */
module PracticeService {
  import opened Wrappers
  import Seqs
  import Text
  import Decimal
  import Uuid

  const Individual: string := "INDIVIDUAL"
  const Team: string := "TEAM"

  /** `Object.values(PRACTICE_TYPE)`. */
  const PracticeTypes: seq<string> := [Individual, Team]

  /** `Object.values(PRACTICE_FOCUS)`, the ten training focuses. */
  const PracticeFocuses: seq<string> := [
    "AIM_TRAINING", "GAME_SENSE", "MOVEMENT_MECHANICS", "MAP_KNOWLEDGE", "TEAM_COORDINATION",
    "STRATEGY_REVIEW", "VOD_ANALYSIS", "COMMUNICATION", "POST_PLANT_SCENARIOS", "SITE_HOLDS"
  ]

  /** The `focusAreas` field of a request: absent or falsy, some non-array value, or a list. */
  datatype FocusAreas = Missing | NotAnArray | Areas(items: seq<string>)

  /** A practice-plan request; `None` stands for an absent, null or otherwise falsy field. */
  datatype PracticeRequest = PracticeRequest(
    practiceType: Option<string>,
    focusAreas: FocusAreas,
    availableHours: Option<int>,
    teamId: Option<string>)

  datatype Validation = Validation(isValid: bool, errors: seq<string>)

  const HoursError: string := "Available hours must be between 1 and 50"
  const FocusCountError: string := "Must provide 1-3 focus areas"
  const FocusUniqueError: string := "Focus areas must be unique"
  const PracticeTypeError: string := "Invalid practice type. Must be INDIVIDUAL or TEAM"
  const TeamIdError: string := "Invalid team ID format"

  /** The order in which the validator runs its checks. */
  const CheckOrder: seq<string> := [HoursError, FocusCountError, FocusUniqueError, PracticeTypeError, TeamIdError]

  /** What each check accepts, stated independently of how the validator tests it. */
  predicate HoursInRange(req: PracticeRequest) {
    req.availableHours.Some? && 1 <= req.availableHours.value <= 50
  }

  predicate FocusCountInRange(req: PracticeRequest) {
    req.focusAreas.Areas? && 1 <= |req.focusAreas.items| <= 3
  }

  predicate FocusAreasRepeat(req: PracticeRequest) {
    req.focusAreas.Areas? && Seqs.HasDuplicate(req.focusAreas.items)
  }

  predicate KnownPracticeType(req: PracticeRequest) {
    req.practiceType.Some? && (req.practiceType.value == Individual || req.practiceType.value == Team)
  }

  /** An absent or blank team id is never checked; any other must have the UUID layout. */
  predicate TeamIdAcceptable(req: PracticeRequest) {
    req.teamId.None? || Text.IsBlank(req.teamId.value) || Uuid.UuidLayout(req.teamId.value)
  }

  /** `validatePracticeRequest`: runs the five checks in order, collecting one message per
      failed check; the request is valid exactly when no message was collected. */
  function ValidatePracticeRequest(req: PracticeRequest): (r: Validation)
    ensures r.isValid <==> r.errors == []
    ensures HoursError in r.errors <==> !HoursInRange(req)
    ensures FocusCountError in r.errors <==> !FocusCountInRange(req)
    ensures FocusUniqueError in r.errors <==> FocusAreasRepeat(req)
    ensures PracticeTypeError in r.errors <==> !KnownPracticeType(req)
    ensures TeamIdError in r.errors <==> !TeamIdAcceptable(req)
    ensures Seqs.IsSubsequence(r.errors, CheckOrder)
  {
    var hoursBad := HoursRejected(req.availableHours);
    var countBad := FocusCountRejected(req.focusAreas);
    var uniqueBad := req.focusAreas.Areas? && SetSizeDiffers(req.focusAreas.items);
    var typeBad := PracticeTypeRejected(req.practiceType);
    var teamBad := req.teamId.Some? && TeamIdRejected(req.teamId.value);
    ErrorsInCheckOrder(hoursBad, countBad, uniqueBad, typeBad, teamBad);
    var errors := Collect(hoursBad, countBad, uniqueBad, typeBad, teamBad);
    Validation(|errors| == 0, errors)
  }

  /** `!hours || hours < 1 || hours > 50`: a missing (or zero) count fails as well. */
  function HoursRejected(hours: Option<int>): (bad: bool)
    ensures bad <==> !(hours.Some? && 1 <= hours.value <= 50)
  {
    hours.None? || hours.value == 0 || hours.value < 1 || hours.value > 50
  }

  /** `!Array.isArray(focusAreas) || focusAreas.length === 0 || focusAreas.length > 3`. */
  function FocusCountRejected(focus: FocusAreas): (bad: bool)
    ensures bad <==> !(focus.Areas? && 1 <= |focus.items| <= 3)
  {
    !focus.Areas? || |focus.items| == 0 || |focus.items| > 3
  }

  /** `!practiceType || !Object.values(PRACTICE_TYPE).includes(practiceType)`. */
  function PracticeTypeRejected(practiceType: Option<string>): (bad: bool)
    ensures bad <==> !(practiceType.Some? && (practiceType.value == Individual || practiceType.value == Team))
  {
    practiceType.None? || practiceType.value !in PracticeTypes
  }

  /** `new Set(items).size !== items.length`: true exactly when some focus repeats. */
  function SetSizeDiffers(items: seq<string>): (differs: bool)
    ensures differs <==> Seqs.HasDuplicate(items)
  {
    Seqs.DistinctIffNoDuplicate(items);
    |Seqs.Elements(items)| != |items|
  }

  /** The team-id check on a present id: rejected exactly when it is not blank and lacks
      the UUID layout. */
  function TeamIdRejected(teamId: string): (rejected: bool)
    ensures rejected <==> !Text.IsBlank(teamId) && !Uuid.UuidLayout(teamId)
  {
    Uuid.MatchesUuidIffLayout(teamId);
    Text.Trim(teamId) != [] && !Uuid.MatchesUuid(teamId)
  }

  /** The messages of the failed checks, in check order. */
  function Collect(hoursBad: bool, countBad: bool, uniqueBad: bool, typeBad: bool, teamBad: bool): (errors: seq<string>)
    ensures HoursError in errors <==> hoursBad
    ensures FocusCountError in errors <==> countBad
    ensures FocusUniqueError in errors <==> uniqueBad
    ensures PracticeTypeError in errors <==> typeBad
    ensures TeamIdError in errors <==> teamBad
    ensures errors == [] <==> !(hoursBad || countBad || uniqueBad || typeBad || teamBad)
  {
    (if hoursBad then [HoursError] else [])
    + ((if countBad then [FocusCountError] else [])
    + ((if uniqueBad then [FocusUniqueError] else [])
    + ((if typeBad then [PracticeTypeError] else [])
    + (if teamBad then [TeamIdError] else []))))
  }

  /** The collected messages appear in the order the checks run. */
  lemma ErrorsInCheckOrder(hoursBad: bool, countBad: bool, uniqueBad: bool, typeBad: bool, teamBad: bool)
    ensures Seqs.IsSubsequence(Collect(hoursBad, countBad, uniqueBad, typeBad, teamBad), CheckOrder)
  {
    var e5: seq<string> := if teamBad then [TeamIdError] else [];
    var e4: seq<string> := if typeBad then [PracticeTypeError] else [];
    var e3: seq<string> := if uniqueBad then [FocusUniqueError] else [];
    var e2: seq<string> := if countBad then [FocusCountError] else [];
    var t4: seq<string> := [TeamIdError];
    var t3 := [PracticeTypeError] + t4;
    var t2 := [FocusUniqueError] + t3;
    var t1 := [FocusCountError] + t2;
    assert CheckOrder == [HoursError] + t1;
    Seqs.KeepOrDropHead(TeamIdError, teamBad, [], []);
    assert e5 + [] == e5 && t4 == [TeamIdError] + [];
    Seqs.KeepOrDropHead(PracticeTypeError, typeBad, e5, t4);
    Seqs.KeepOrDropHead(FocusUniqueError, uniqueBad, e4 + e5, t3);
    Seqs.KeepOrDropHead(FocusCountError, countBad, e3 + (e4 + e5), t2);
    Seqs.KeepOrDropHead(HoursError, hoursBad, e2 + (e3 + (e4 + e5)), t1);
  }

  /** A request that passes every check is valid, and validity depends on nothing else. */
  lemma ValidIffAllChecksPass(req: PracticeRequest)
    ensures ValidatePracticeRequest(req).isValid <==>
      && HoursInRange(req)
      && FocusCountInRange(req)
      && !FocusAreasRepeat(req)
      && KnownPracticeType(req)
      && TeamIdAcceptable(req)
  {
    var r := ValidatePracticeRequest(req);
    if !r.isValid {
      assert r.errors[0] in r.errors;
    }
  }

  /** `formatPracticeDuration` for whole hours: "0 minutes" for zero or a missing value,
      otherwise the count followed by "hour", plural only above one. */
  function FormatPracticeDuration(hours: Option<int>): (r: string)
    ensures hours.None? || hours.value == 0 ==> r == "0 minutes"
    ensures hours == Some(1) ==> r == "1 hour"
    ensures hours.Some? && hours.value > 1 ==> r == Decimal.IntToString(hours.value) + " hours"
  {
    if hours.None? || hours.value == 0 then "0 minutes"
    else
      var whole := hours.value;
      Decimal.IntToString(whole) + (if whole > 1 then " hours" else " hour")
  }

  /** Reads a formatted duration back as a number of whole hours. */
  function ParseDuration(s: string): Option<int> {
    if s == "0 minutes" then Some(0)
    else if |s| >= 6 && s[|s| - 6..] == " hours" then Decimal.ParseInt(s[..|s| - 6])
    else if |s| >= 5 && s[|s| - 5..] == " hour" then Decimal.ParseInt(s[..|s| - 5])
    else None
  }

  /** The formatted duration determines the hour count: a missing value reads back as zero. */
  lemma FormatPracticeDurationRoundTrip(hours: Option<int>)
    ensures ParseDuration(FormatPracticeDuration(hours)) == Some(hours.GetOr(0))
  {
    if hours.Some? && hours.value != 0 {
      var n := hours.value;
      Decimal.IntToStringRoundTrip(n);
      if n > 1 {
        ParsePlural(Decimal.IntToString(n), n);
      } else {
        ParseSingular(Decimal.IntToString(n), n);
      }
    }
  }

  lemma ParsePlural(digits: string, n: int)
    requires Decimal.ParseInt(digits) == Some(n)
    ensures ParseDuration(digits + " hours") == Some(n)
  {
    var s := digits + " hours";
    assert s[|s| - 2] == 'r';
    assert "0 minutes"[7] == 'e';
    assert s[|s| - 6..] == " hours";
    assert s[..|s| - 6] == digits;
  }

  lemma ParseSingular(digits: string, n: int)
    requires Decimal.ParseInt(digits) == Some(n)
    ensures ParseDuration(digits + " hour") == Some(n)
  {
    var s := digits + " hour";
    assert s[|s| - 1] == 'r';
    assert "0 minutes"[8] == 's';
    assert " hours"[5] == 's';
    assert s[|s| - 5..] == " hour";
    assert s[..|s| - 5] == digits;
  }
}
