/** The "Create election" form (src/components/modals/CreateElection.tsx): its validators,
    the voting-hour options, the duration label and what a valid submit sends. */
module CreateElectionForm {
  import opened Basics
  import opened Text
  import opened Clock
  import Slug

  const NameMessage := "Election name must be at least 3 characters"
  const DateMessage := "Please select a date range"

  /** The form state. An hour is the selected option; the form holds its decimal string. */
  datatype FormValues = FormValues(
    name: string, slug: string,
    startDate: Option<int>, endDate: Option<int>,
    votingStart: nat, votingEnd: nat, template: nat)

  /** Empty name and slug, no dates, voting from 7 to 19, template 0. */
  const InitialValues := FormValues("", "", None, None, 7, 19, 0)

  /** `hasLength({min: 3})`, which measures the trimmed value. */
  function NameError(name: string): (r: Option<string>)
    ensures r == None <==> |Trim(name)| >= 3
  {
    if |Trim(name)| < 3 then Some(NameMessage) else None
  }

  /** Both ends of the date range must be chosen. */
  function DateError(startDate: Option<int>, endDate: Option<int>): (r: Option<string>)
    ensures r == None <==> startDate.Some? && endDate.Some?
  {
    if startDate.None? || endDate.None? then Some(DateMessage) else None
  }

  datatype FormErrors = FormErrors(name: Option<string>, slug: Option<string>, date: Option<string>)

  function Validate(v: FormValues): FormErrors {
    FormErrors(NameError(v.name), Slug.SlugError(v.slug), DateError(v.startDate, v.endDate))
  }

  predicate NoErrors(e: FormErrors) {
    e.name.None? && e.slug.None? && e.date.None?
  }

  // ---- Voting-hour selects ----

  /** One option of an hour select: its value string and whether it can be picked. */
  datatype HourOption = HourOption(value: string, disabled: bool)

  /** The start-hour select: hours 0 to 23, all selectable. */
  function StartHourOptions(): (r: seq<HourOption>)
    ensures |r| == 24
    ensures forall i :: 0 <= i < 24 ==> r[i] == HourOption(Decimal(i), false)
  {
    seq(24, i requires 0 <= i < 24 => HourOption(Decimal(i), false))
  }

  /** The end-hour select: hours 0 to 23, option `i` disabled when `i <= parseInt(start)`. */
  function EndHourOptions(votingStart: nat): (r: seq<HourOption>)
    ensures |r| == 24
    ensures forall i :: 0 <= i < 24 ==> r[i].value == Decimal(i)
  {
    var start := ParseDecimal(Decimal(votingStart));
    seq(24, i requires 0 <= i < 24 => HourOption(Decimal(i), i <= start))
  }

  /** An end hour can be picked exactly when it is strictly after the start hour; after a start
      of 23 nothing can be picked. */
  lemma EndHourSelectable(votingStart: nat, i: nat)
    requires i < 24
    ensures !EndHourOptions(votingStart)[i].disabled <==> votingStart < i
    ensures votingStart >= 23 ==> EndHourOptions(votingStart)[i].disabled
  {
    ParseDecimalOfDecimal(votingStart);
  }

  /** The option values read back as their hours: the select's values are exactly `0`..`23`. */
  lemma HourOptionValues(i: nat, j: nat)
    requires i < 24 && j < 24
    ensures ParseDecimal(StartHourOptions()[i].value) == i
    ensures StartHourOptions()[i].value == StartHourOptions()[j].value ==> i == j
  {
    ParseDecimalOfDecimal(i);
    ParseDecimalOfDecimal(j);
  }

  /** The text under the hour selects: the difference, then `hour`, plural above one. */
  function DurationLabel(votingStart: nat, votingEnd: nat): string {
    var d := votingEnd - votingStart;
    IntText(d) + " hour" + (if d > 1 then "s" else "")
  }

  /** The label starts with the difference as a number and says `hours` exactly when the
      difference is more than one. */
  lemma DurationLabelShape(votingStart: nat, votingEnd: nat)
    ensures var d := votingEnd - votingStart;
      var r := DurationLabel(votingStart, votingEnd);
      |r| >= |IntText(d)| + 5 && r[..|IntText(d)|] == IntText(d) &&
      r[|IntText(d)|..|IntText(d)| + 5] == " hour" &&
      (r[|r| - 1] == 's' <==> d > 1)
  {
    var d := votingEnd - votingStart;
    var r := DurationLabel(votingStart, votingEnd);
    var suffix := if d > 1 then "s" else "";
    assert r == IntText(d) + " hour" + suffix;
  }

  /** With the initial hours the label reads `12 hours`; one hour apart it reads `1 hour`. */
  lemma DurationLabelExamples()
    ensures DurationLabel(7, 19) == "12 hours"
    ensures DurationLabel(7, 8) == "1 hour"
  {
    assert Decimal(12) == "12" by {
      assert Decimal(1) == "1";
    }
  }

  // ---- Submit ----

  /** What the form sends to `election.create`. */
  datatype CreateElectionInput = CreateElectionInput(
    name: string, slug: string, startDate: int, endDate: int,
    votingStart: int, votingEnd: int, template: int)

  /** The submit handler: a chosen date or a fallback of one (start) and eight (end) days from
      `now`, and every select value passed through `parseInt`. */
  function SubmitInput(v: FormValues, now: int): CreateElectionInput {
    CreateElectionInput(
      v.name, v.slug,
      if v.startDate.Some? then v.startDate.value else now + DayMs,
      if v.endDate.Some? then v.endDate.value else now + 8 * DayMs,
      ParseDecimal(Decimal(v.votingStart)), ParseDecimal(Decimal(v.votingEnd)), ParseDecimal(Decimal(v.template)))
  }

  /** `form.onSubmit`: validate every field; only a form without errors is sent. */
  function Submit(v: FormValues, now: int): Result<CreateElectionInput, FormErrors> {
    var errors := Validate(v);
    if NoErrors(errors) then Ok(SubmitInput(v, now)) else Err(errors)
  }

  /** A submitted election has a name of at least three characters once trimmed, a well-formed
      slug of 3 to 24 characters, the chosen dates (the fallback dates are never used) and the
      selected hours and template. */
  lemma SubmitSends(v: FormValues, now: int)
    ensures Submit(v, now).Ok? <==>
      |Trim(v.name)| >= 3 && Slug.WellFormed(v.slug) && 3 <= |v.slug| <= 24 &&
      v.startDate.Some? && v.endDate.Some?
    ensures Submit(v, now).Ok? ==>
      Submit(v, now).value ==
        CreateElectionInput(v.name, v.slug, v.startDate.value, v.endDate.value, v.votingStart, v.votingEnd, v.template)
  {
    Slug.SlugAccepted(v.slug);
    ParseDecimalOfDecimal(v.votingStart);
    ParseDecimalOfDecimal(v.votingEnd);
    ParseDecimalOfDecimal(v.template);
  }

  /** The initial form cannot be submitted: name, slug and dates are all reported. */
  lemma InitialValuesRejected(now: int)
    ensures Submit(InitialValues, now) == Err(FormErrors(Some(NameMessage), Some(Slug.EmptySlugMessage), Some(DateMessage)))
  {
  }
}
