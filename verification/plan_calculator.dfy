/** The form logic of the practice-plan calculator (`PracticePlanCalculator.jsx`): the initial
    practice type, the capped focus-area selection, the popular-combination shortcut and the
    construction of the request sent on submit. */
module PracticePlanCalculator {
  import opened Wrappers
  import Seqs
  import Text
  import PS = PracticeService

  /** The most focus areas the form keeps. */
  const MaxFocusAreas := 3

  /** The team the calculator was opened for; `teamId` is `None` when absent or falsy. */
  datatype SelectedTeam = SelectedTeam(teamId: Option<string>)

  /** The calculator's form state. `teamId` is `None` when it holds `undefined`. */
  datatype FormData = FormData(
    practiceType: string,
    focusAreas: seq<string>,
    availableHours: Option<int>,
    teamId: Option<string>)

  /** `initialPracticeType`: forced individual wins, then a selected team means TEAM. */
  function InitialPracticeType(selectedTeam: Option<SelectedTeam>, forceIndividual: bool): (t: string)
    ensures t == PS.Team <==> !forceIndividual && selectedTeam.Some?
    ensures t == PS.Individual <==> forceIndividual || selectedTeam.None?
  {
    if forceIndividual then PS.Individual
    else if selectedTeam.Some? then PS.Team
    else PS.Individual
  }

  /** The first form state: no focuses, two hours, the selected team's id or the empty string. */
  function InitialForm(selectedTeam: Option<SelectedTeam>, forceIndividual: bool): (f: FormData)
    ensures f.focusAreas == [] && f.availableHours == Some(2)
    ensures f.practiceType == InitialPracticeType(selectedTeam, forceIndividual)
    ensures f.teamId.Some?
    ensures selectedTeam.None? ==> f.teamId == Some("")
    ensures selectedTeam.Some? ==> f.teamId == Some(Text.OrElse(selectedTeam.value.teamId, ""))
  {
    var teamId := if selectedTeam.Some? then Text.OrElse(selectedTeam.value.teamId, "") else "";
    FormData(InitialPracticeType(selectedTeam, forceIndividual), [], Some(2), Some(teamId))
  }

  /** The effect run when the selected team or the flag changes: with a team and no forcing,
      the form switches to TEAM for that team; otherwise it is left alone. */
  function SelectTeamEffect(f: FormData, selectedTeam: Option<SelectedTeam>, forceIndividual: bool): (g: FormData)
    ensures g.focusAreas == f.focusAreas && g.availableHours == f.availableHours
    ensures selectedTeam.Some? && !forceIndividual ==> g.practiceType == PS.Team && g.teamId == selectedTeam.value.teamId
    ensures selectedTeam.None? || forceIndividual ==> g == f
  {
    if selectedTeam.Some? && !forceIndividual then
      f.(teamId := selectedTeam.value.teamId, practiceType := PS.Team)
    else f
  }

  /** On mount the effect never contradicts the initial practice type. */
  lemma MountedTypeIsInitialType(selectedTeam: Option<SelectedTeam>, forceIndividual: bool)
    ensures SelectTeamEffect(InitialForm(selectedTeam, forceIndividual), selectedTeam, forceIndividual).practiceType
            == InitialPracticeType(selectedTeam, forceIndividual)
  {
  }

  /** The bounds of the hours slider (`<input type="range" min="1" max="12">`). The browser
      keeps a range input's value within its bounds. */
  const MinSliderHours := 1
  const MaxSliderHours := 12

  /** `handleInputChange` for the hours slider. A range input is not of type `number`, so the
      value is stored as the slider's text; the model keeps the integer that text denotes,
      which is what the validator's comparisons see. */
  function SlideHours(f: FormData, position: int): (g: FormData)
    requires MinSliderHours <= position <= MaxSliderHours
    ensures g.availableHours == Some(position)
    ensures g.(availableHours := f.availableHours) == f
  {
    f.(availableHours := Some(position))
  }

  /** Every slider position passes the validator's hours check (1 to 50). */
  lemma SliderHoursAccepted(f: FormData, position: int)
    requires MinSliderHours <= position <= MaxSliderHours
    ensures !PS.HoursRejected(AsRequest(SlideHours(f, position)).availableHours)
  {
  }

  /** `newFocusAreas.slice(0, 3)`. */
  function Cap(xs: seq<string>): (r: seq<string>)
    ensures |r| <= MaxFocusAreas
    ensures |xs| <= MaxFocusAreas ==> r == xs
    ensures |xs| > MaxFocusAreas ==> |r| == MaxFocusAreas && r == xs[..MaxFocusAreas]
  {
    if |xs| <= MaxFocusAreas then xs else xs[..MaxFocusAreas]
  }

  function WithoutFocus(areas: seq<string>, focus: string): seq<string> {
    Seqs.Filter(areas, (x: string) => x != focus)
  }

  /** `handleFocusAreaChange`: checking appends the value, unchecking removes every
      occurrence of it, and the list is then cut to its first three entries. */
  function FocusAreaChange(areas: seq<string>, focus: string, isChecked: bool): (r: seq<string>)
    ensures |r| <= MaxFocusAreas
    ensures isChecked && |areas| < MaxFocusAreas ==> r == areas + [focus]
    ensures isChecked && |areas| == MaxFocusAreas ==> r == areas
    ensures isChecked && |areas| > MaxFocusAreas ==> r == areas[..MaxFocusAreas]
    ensures !isChecked ==> focus !in r && Seqs.IsSubsequence(r, areas)
    ensures !isChecked && |areas| <= MaxFocusAreas ==>
      forall x :: x != focus ==> multiset(r)[x] == multiset(areas)[x]
  {
    if isChecked then
      var next := areas + [focus];
      assert |areas| == MaxFocusAreas ==> next[..MaxFocusAreas] == areas;
      assert |areas| > MaxFocusAreas ==> next[..MaxFocusAreas] == areas[..MaxFocusAreas];
      Cap(next)
    else
      var next := WithoutFocus(areas, focus);
      assert multiset(next)[focus] == 0;
      Seqs.SubsequencePrefix(next, areas, if |next| > MaxFocusAreas then MaxFocusAreas else |next|);
      Cap(next)
  }

  /** Unchecking a focus just checked undoes the check when the box was free and there was room. */
  lemma CheckThenUncheck(areas: seq<string>, focus: string)
    requires focus !in areas && |areas| < MaxFocusAreas
    ensures FocusAreaChange(FocusAreaChange(areas, focus, true), focus, false) == areas
  {
    var checked := FocusAreaChange(areas, focus, true);
    assert checked == areas + [focus];
    Seqs.FilterKeepsAll(areas, (x: string) => x != focus);
    FilterAppendDropped(areas, focus);
  }

  /** Filtering out a value that was appended last removes just that element. */
  lemma FilterAppendDropped(areas: seq<string>, focus: string)
    requires focus !in areas
    ensures WithoutFocus(areas + [focus], focus) == WithoutFocus(areas, focus)
  {
    FilterAppend(areas, [focus], (x: string) => x != focus);
    assert Seqs.Filter([focus], (x: string) => x != focus) == [];
  }

  lemma {:induction false} FilterAppend(xs: seq<string>, ys: seq<string>, keep: string -> bool)
    ensures Seqs.Filter(xs + ys, keep) == Seqs.Filter(xs, keep) + Seqs.Filter(ys, keep)
    decreases |xs|
  {
    if xs == [] {
      assert xs + ys == ys;
    } else {
      assert (xs + ys)[1..] == xs[1..] + ys;
      assert (xs + ys)[0] == xs[0];
      FilterAppend(xs[1..], ys, keep);
    }
  }

  /** A popular focus entry: an object with a name, or a bare value. */
  datatype FocusEntry = NamedFocus(name: string) | PlainFocus(value: string)

  /** `focus.name || focus`. */
  function EntryValue(e: FocusEntry): string {
    match e
    case NamedFocus(n) => n
    case PlainFocus(v) => v
  }

  /** The popular combination for one practice type; `focuses` is `None` when absent. */
  datatype Combination = Combination(focuses: Option<seq<FocusEntry>>)

  /** What the popular-combinations fetch returned, per practice type. */
  datatype Popular = Popular(individual: Option<Combination>, team: Option<Combination>)

  /** `handleUsePopularCombination`: with data for the current practice type and a non-empty
      focus list, the focuses become that list's values; in every other case nothing changes. */
  function UsePopularCombination(f: FormData, popular: Option<Popular>): (g: FormData)
    ensures g.practiceType == f.practiceType && g.availableHours == f.availableHours && g.teamId == f.teamId
    ensures g.focusAreas != f.focusAreas ==> g.focusAreas != []
    ensures popular.None? ==> g == f
    ensures
      var current := if popular.Some? then PopularFor(popular.value, f.practiceType) else None;
      && (current.Some? && current.value.focuses.Some? && current.value.focuses.value != [] ==>
            && |g.focusAreas| == |current.value.focuses.value|
            && forall i :: 0 <= i < |g.focusAreas| ==> g.focusAreas[i] == EntryValue(current.value.focuses.value[i]))
      && (!(current.Some? && current.value.focuses.Some? && current.value.focuses.value != []) ==> g == f)
  {
    if popular.None? then f
    else
      var current := PopularFor(popular.value, f.practiceType);
      if current.Some? && current.value.focuses.Some? && |current.value.focuses.value| > 0 then
        var entries := current.value.focuses.value;
        f.(focusAreas := seq(|entries|, i requires 0 <= i < |entries| => EntryValue(entries[i])))
      else f
  }

  /** INDIVIDUAL reads the individual combination; every other type reads the team one. */
  function PopularFor(p: Popular, practiceType: string): Option<Combination> {
    if practiceType == PS.Individual then p.individual else p.team
  }

  /** The form as the validator sees it. */
  function AsRequest(f: FormData): PS.PracticeRequest {
    PS.PracticeRequest(Some(f.practiceType), PS.Areas(f.focusAreas), f.availableHours, f.teamId)
  }

  datatype SubmitOutcome = Rejected(message: string) | Sent(request: PS.PracticeRequest)

  /** `handleSubmit` up to the HTTP call: an invalid form is rejected with its errors joined by
      ", "; a valid one produces the request, whose team id is kept only for TEAM practice. */
  function Submit(f: FormData): (r: SubmitOutcome)
    ensures r.Rejected? <==> !PS.ValidatePracticeRequest(AsRequest(f)).isValid
    ensures r.Sent? ==>
      && r.request.practiceType == Some(f.practiceType)
      && r.request.focusAreas == PS.Areas(f.focusAreas)
      && r.request.availableHours == f.availableHours
      && (r.request.teamId.Some? ==> f.practiceType == PS.Team)
      && (f.practiceType == PS.Team ==> r.request.teamId == f.teamId)
  {
    var validation := PS.ValidatePracticeRequest(AsRequest(f));
    if !validation.isValid then Rejected(Seqs.Join(validation.errors, ", "))
    else
      var teamId := if f.practiceType == PS.Team then f.teamId else None;
      Sent(PS.PracticeRequest(Some(f.practiceType), PS.Areas(f.focusAreas), f.availableHours, teamId))
  }

  /** `msg` holds `errors[i]` where a ", "-join of `errors` places it. */
  predicate ListsErrorAt(msg: string, errors: seq<string>, i: nat)
    requires i < |errors|
  {
    && Seqs.JoinOffset(errors, ", ", i) + |errors[i]| <= |msg|
    && msg[Seqs.JoinOffset(errors, ", ", i)..Seqs.JoinOffset(errors, ", ", i) + |errors[i]|] == errors[i]
  }

  /** A rejection message spells out every validation error, in order, separated by ", ". */
  lemma {:induction false} RejectionListsErrors(f: FormData, i: nat)
    requires Submit(f).Rejected?
    requires i < |PS.ValidatePracticeRequest(AsRequest(f)).errors|
    ensures ListsErrorAt(Submit(f).message, PS.ValidatePracticeRequest(AsRequest(f)).errors, i)
  {
    RejectionIsJoin(f);
    JoinedErrorAt(PS.ValidatePracticeRequest(AsRequest(f)).errors, Submit(f).message, i);
  }

  lemma JoinedErrorAt(errors: seq<string>, msg: string, i: nat)
    requires msg == Seqs.Join(errors, ", ") && i < |errors|
    ensures ListsErrorAt(msg, errors, i)
  {
    Seqs.JoinPlacesParts(errors, ", ", i);
  }

  lemma RejectionIsJoin(f: FormData)
    requires Submit(f).Rejected?
    ensures Submit(f).message == Seqs.Join(PS.ValidatePracticeRequest(AsRequest(f)).errors, ", ")
  {
  }

  /** Between two consecutive errors of a rejection message stands exactly ", ". */
  lemma {:induction false} RejectionSeparatesErrors(f: FormData, i: nat)
    requires Submit(f).Rejected?
    requires i + 1 < |PS.ValidatePracticeRequest(AsRequest(f)).errors|
    ensures
      var errors := PS.ValidatePracticeRequest(AsRequest(f)).errors;
      var msg := Submit(f).message;
      && Seqs.JoinOffset(errors, ", ", i + 1) <= |msg|
      && msg[Seqs.JoinOffset(errors, ", ", i) + |errors[i]|..Seqs.JoinOffset(errors, ", ", i + 1)] == ", "
  {
    var errors := PS.ValidatePracticeRequest(AsRequest(f)).errors;
    RejectionIsJoin(f);
    Seqs.JoinPlacesSeparators(errors, ", ", i);
  }

  /** The request that is sent is itself a valid practice request. */
  lemma SentRequestIsValid(f: FormData)
    requires Submit(f).Sent?
    ensures PS.ValidatePracticeRequest(Submit(f).request).isValid
  {
    PS.ValidIffAllChecksPass(AsRequest(f));
    PS.ValidIffAllChecksPass(Submit(f).request);
  }
}
