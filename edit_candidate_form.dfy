/** The "Edit candidate" form (src/components/modals/EditCandidate.tsx): its validators, the
    credential lists the form edits locally (platforms, achievements, affiliations and events
    attended), the delete button that either removes a local entry or asks the server to delete a
    saved one, and the image the submit sends. */
module EditCandidateForm {
  import opened Basics
  import opened Text
  import Slug

  const FirstNameMessage := "First name must be at least 1 characters"
  const LastNameMessage := "Last name must be at least 1 characters"

  // ---- Form state ----

  /** A `Date` built as `new Date(year, monthIndex)`: the first instant of a calendar month,
      kept as its year and its month (0 = January). */
  datatype MonthStart = MonthStart(year: int, month: int)

  /** Mantine's `DateValue`: a date, or `null`. */
  type DateValue = Option<MonthStart>

  datatype Platform = Platform(id: string, title: string, description: string)
  datatype Achievement = Achievement(id: string, name: string, year: DateValue)
  datatype Affiliation = Affiliation(id: string, orgName: string, orgPosition: string,
                                     startYear: DateValue, endYear: DateValue)
  datatype EventAttended = EventAttended(id: string, name: string, year: DateValue)

  /** The image field: nothing, the URL of the stored image, or a newly dropped file. */
  datatype ImageValue = NoImage | ImageUrl(url: string) | ImageFile(fileName: string)

  datatype CandidateValues = CandidateValues(
    firstName: string, middleName: Option<string>, lastName: string, slug: string,
    partylistId: string, position: string, image: ImageValue,
    platforms: seq<Platform>, achievements: seq<Achievement>,
    affiliations: seq<Affiliation>, eventAttended: seq<EventAttended>)

  /** The candidate as loaded from the server: its saved platforms and, when it has a credential
      row, its saved achievements, affiliations and events. */
  datatype SavedCredential = SavedCredential(
    achievements: seq<Achievement>, affiliations: seq<Affiliation>, eventsAttended: seq<EventAttended>)
  datatype SavedCandidate = SavedCandidate(
    id: string, electionId: string, platform: seq<Platform>, credential: Option<SavedCredential>)

  /** `new Date(year, monthIndex)`: a month index outside 0..11 rolls over into neighbouring
      years, so `new Date(y, -1)` is December of `y - 1`. */
  function NewDate(year: int, monthIndex: int): (d: MonthStart)
    ensures 0 <= d.month < 12
    ensures 12 * d.year + d.month == 12 * year + monthIndex
  {
    MonthStart(year + monthIndex / 12, monthIndex % 12)
  }

  lemma NewDateExamples(year: int)
    ensures NewDate(year, 0) == MonthStart(year, 0)
    ensures NewDate(year, -1) == MonthStart(year - 1, 11)
  {
  }

  // ---- Validators ----

  /** `hasLength({min: 1}, message)`, which measures the trimmed value. */
  function RequiredName(value: string, message: string): (r: Option<string>)
    ensures r == None <==> Trim(value) != []
    ensures r != None ==> r == Some(message)
  {
    if |Trim(value)| < 1 then Some(message) else None
  }

  datatype CandidateErrors = CandidateErrors(firstName: Option<string>, lastName: Option<string>, slug: Option<string>)

  /** The form's `validate` rules; the slug follows the same rule as an election slug. */
  function Validate(v: CandidateValues): CandidateErrors {
    CandidateErrors(RequiredName(v.firstName, FirstNameMessage),
                    RequiredName(v.lastName, LastNameMessage),
                    Slug.SlugError(v.slug))
  }

  /** The form passes validation exactly when both names have a non-blank character and the slug
      is dash-separated alphanumeric groups of 3 to 24 characters. */
  lemma ValidateAccepts(v: CandidateValues)
    ensures var e := Validate(v);
      e.firstName.None? && e.lastName.None? && e.slug.None? <==>
      Trim(v.firstName) != [] && Trim(v.lastName) != [] &&
      Slug.WellFormed(v.slug) && 3 <= |v.slug| <= 24
    ensures Validate(v).slug == Some(Slug.EmptySlugMessage) <==> v.slug == []
  {
    Slug.SlugAccepted(v.slug);
    Slug.SlugErrorOrder(v.slug);
  }

  // ---- Local list operations ----

  function PlatformId(p: Platform): string { p.id }
  function AchievementId(a: Achievement): string { a.id }
  function AffiliationId(a: Affiliation): string { a.id }
  function EventId(e: EventAttended): string { e.id }

  /** `map((item, i) => i === index ? f(item) : item)`: the entry at `index` is rewritten. */
  function EditAt<T>(xs: seq<T>, index: int, f: T -> T): (r: seq<T>)
    ensures |r| == |xs|
    ensures forall k :: 0 <= k < |xs| && k != index ==> r[k] == xs[k]
    ensures 0 <= index < |xs| ==> r[index] == f(xs[index])
  {
    seq(|xs|, k requires 0 <= k < |xs| => if k == index then f(xs[k]) else xs[k])
  }

  // ---- Adding an entry ----

  /** The value a local id reads as, when it is a decimal number. */
  function NumericValue(s: string): nat {
    if AllDigits(s) then ParseDecimal(s) else 0
  }

  /** The largest number among the ids that are decimal numbers (0 when there is none). */
  function MaxNumeric(ids: seq<string>): (m: nat)
    ensures forall k :: 0 <= k < |ids| ==> NumericValue(ids[k]) <= m
    decreases |ids|
  {
    if ids == [] then 0
    else
      var m := MaxNumeric(ids[..|ids| - 1]);
      assert forall k :: 0 <= k < |ids| - 1 ==> ids[k] == ids[..|ids| - 1][k];
      var v := NumericValue(ids[|ids| - 1]);
      if v > m then v else m
  }

  lemma {:induction false} MaxNumericBound(ids: seq<string>, b: nat)
    requires forall k :: 0 <= k < |ids| ==> NumericValue(ids[k]) <= b
    ensures MaxNumeric(ids) <= b
    decreases |ids|
  {
    if ids != [] {
      var init := ids[..|ids| - 1];
      assert forall k :: 0 <= k < |init| ==> init[k] == ids[k];
      MaxNumericBound(init, b);
    }
  }

  /** The id a new entry gets: the decimal string of one more than both the list's length and
      every numeric id already in the list, so it is never among them. */
  function FreshLocalId(ids: seq<string>): (r: string)
    ensures r !in ids
    ensures AllDigits(r)
  {
    var top := MaxNumeric(ids);
    var n := (if top > |ids| then top else |ids|) + 1;
    ParseDecimalOfDecimal(n);
    assert NumericValue(Decimal(n)) == n;
    Decimal(n)
  }

  /** While every numeric id is at most the list's length (entries saved on the server have
      non-numeric ids, and local entries numbered 1, 2, ... in order), the fresh id is the
      decimal string of the length plus one. */
  lemma FreshLocalIdIsLengthPlusOne(ids: seq<string>)
    requires forall k :: 0 <= k < |ids| ==> NumericValue(ids[k]) <= |ids|
    ensures FreshLocalId(ids) == Decimal(|ids| + 1)
  {
    MaxNumericBound(ids, |ids|);
  }

  /** The "Add platform" button as written: the id is `(length + 1).toString()`. */
  function AddPlatformAsWritten(ps: seq<Platform>): (r: seq<Platform>)
    ensures |r| == |ps| + 1 && r[..|ps|] == ps
    ensures r[|ps|].id == Decimal(|ps| + 1) && r[|ps|].title == "" && r[|ps|].description == ""
  {
    ps + [Platform(Decimal(|ps| + 1), "", "")]
  }

  /** "Add achievement" as written: the same `(length + 1).toString()` id rule. */
  function AddAchievementAsWritten(xs: seq<Achievement>, currentYear: int): (r: seq<Achievement>)
    ensures |r| == |xs| + 1 && r[..|xs|] == xs
    ensures r[|xs|].id == Decimal(|xs| + 1)
    ensures r[|xs|].name == "" && r[|xs|].year == Some(MonthStart(currentYear, 0))
  {
    xs + [Achievement(Decimal(|xs| + 1), "", Some(NewDate(currentYear, 0)))]
  }

  /** "Add affiliation" as written: the same `(length + 1).toString()` id rule. */
  function AddAffiliationAsWritten(xs: seq<Affiliation>, currentYear: int): (r: seq<Affiliation>)
    ensures |r| == |xs| + 1 && r[..|xs|] == xs
    ensures r[|xs|].id == Decimal(|xs| + 1)
    ensures r[|xs|].orgName == "" && r[|xs|].orgPosition == ""
    ensures r[|xs|].startYear == Some(MonthStart(currentYear - 1, 11))
    ensures r[|xs|].endYear == Some(MonthStart(currentYear, 0))
  {
    xs + [Affiliation(Decimal(|xs| + 1), "", "", Some(NewDate(currentYear, -1)), Some(NewDate(currentYear, 0)))]
  }

  /** "Add seminar attended" as written: the same `(length + 1).toString()` id rule. */
  function AddEventAsWritten(xs: seq<EventAttended>, currentYear: int): (r: seq<EventAttended>)
    ensures |r| == |xs| + 1 && r[..|xs|] == xs
    ensures r[|xs|].id == Decimal(|xs| + 1)
    ensures r[|xs|].name == "" && r[|xs|].year == Some(MonthStart(currentYear, 0))
  {
    xs + [EventAttended(Decimal(|xs| + 1), "", Some(NewDate(currentYear, 0)))]
  }

  /** Add, add, delete the first local entry, add: the last add reuses the id "2", and deleting
      the new entry then removes the older one as well. */
  lemma AddPlatformAsWrittenExample()
    ensures var p2 := AddPlatformAsWritten(AddPlatformAsWritten([]));
      var p3 := WithoutKey(p2, PlatformId, "1");
      var p4 := AddPlatformAsWritten(p3);
      p3 == [Platform("2", "", "")] &&
      p4 == [Platform("2", "", ""), Platform("2", "", "")] &&
      WithoutKey(p4, PlatformId, p4[1].id) == [] != p3
  {
    var p1 := AddPlatformAsWritten([]);
    assert p1 == [Platform("1", "", "")];
    var p2 := AddPlatformAsWritten(p1);
    assert p2 == [Platform("1", "", ""), Platform("2", "", "")];
    var p3 := WithoutKey(p2, PlatformId, "1");
    assert WithoutKey(p2[..1], PlatformId, "1") == [];
    assert p2[..1] == p2[..|p2| - 1];
    assert p3 == [Platform("2", "", "")];
    var p4 := AddPlatformAsWritten(p3);
    assert p4 == [Platform("2", "", ""), Platform("2", "", "")];
    assert p4[..1] == p3;
    assert WithoutKey(p3, PlatformId, "2") == [] by {
      assert p3[..0] == [];
    }
  }

  /** "Add platform": one entry with a fresh id and empty title and description is appended. */
  function AddPlatform(ps: seq<Platform>): (r: seq<Platform>)
    ensures |r| == |ps| + 1 && r[..|ps|] == ps
    ensures r[|ps|].title == "" && r[|ps|].description == ""
    ensures forall k :: 0 <= k < |ps| ==> ps[k].id != r[|ps|].id
  {
    var ids := KeysOf(ps, PlatformId);
    assert forall k :: 0 <= k < |ps| ==> ps[k].id == ids[k];
    ps + [Platform(FreshLocalId(ids), "", "")]
  }

  /** "Add achievement": an entry with a fresh id, an empty name and January of this year. */
  function AddAchievement(xs: seq<Achievement>, currentYear: int): (r: seq<Achievement>)
    ensures |r| == |xs| + 1 && r[..|xs|] == xs
    ensures r[|xs|].name == "" && r[|xs|].year == Some(MonthStart(currentYear, 0))
    ensures forall k :: 0 <= k < |xs| ==> xs[k].id != r[|xs|].id
  {
    var ids := KeysOf(xs, AchievementId);
    assert forall k :: 0 <= k < |xs| ==> xs[k].id == ids[k];
    xs + [Achievement(FreshLocalId(ids), "", Some(NewDate(currentYear, 0)))]
  }

  /** "Add affiliation": an entry with a fresh id, empty organisation and position, from
      December of last year to January of this year. */
  function AddAffiliation(xs: seq<Affiliation>, currentYear: int): (r: seq<Affiliation>)
    ensures |r| == |xs| + 1 && r[..|xs|] == xs
    ensures r[|xs|].orgName == "" && r[|xs|].orgPosition == ""
    ensures r[|xs|].startYear == Some(MonthStart(currentYear - 1, 11))
    ensures r[|xs|].endYear == Some(MonthStart(currentYear, 0))
    ensures forall k :: 0 <= k < |xs| ==> xs[k].id != r[|xs|].id
  {
    var ids := KeysOf(xs, AffiliationId);
    assert forall k :: 0 <= k < |xs| ==> xs[k].id == ids[k];
    xs + [Affiliation(FreshLocalId(ids), "", "", Some(NewDate(currentYear, -1)), Some(NewDate(currentYear, 0)))]
  }

  /** "Add seminar attended": an entry with a fresh id, an empty name and January of this year. */
  function AddEvent(xs: seq<EventAttended>, currentYear: int): (r: seq<EventAttended>)
    ensures |r| == |xs| + 1 && r[..|xs|] == xs
    ensures r[|xs|].name == "" && r[|xs|].year == Some(MonthStart(currentYear, 0))
    ensures forall k :: 0 <= k < |xs| ==> xs[k].id != r[|xs|].id
  {
    var ids := KeysOf(xs, EventId);
    assert forall k :: 0 <= k < |xs| ==> xs[k].id == ids[k];
    xs + [EventAttended(FreshLocalId(ids), "", Some(NewDate(currentYear, 0)))]
  }

  /** The corrected add differs from the add as written only once some id reads as a number
      above the list's length (a deletion of an earlier local entry): before that, both append
      the same entry. */
  lemma AddPlatformAgrees(ps: seq<Platform>)
    requires forall k :: 0 <= k < |ps| ==> NumericValue(ps[k].id) <= |ps|
    ensures AddPlatformAsWritten(ps) == AddPlatform(ps)
  {
    KeysFreshIsLengthPlusOne(ps, PlatformId);
  }

  lemma AddAchievementAgrees(xs: seq<Achievement>, currentYear: int)
    requires forall k :: 0 <= k < |xs| ==> NumericValue(xs[k].id) <= |xs|
    ensures AddAchievementAsWritten(xs, currentYear) == AddAchievement(xs, currentYear)
  {
    KeysFreshIsLengthPlusOne(xs, AchievementId);
  }

  lemma AddAffiliationAgrees(xs: seq<Affiliation>, currentYear: int)
    requires forall k :: 0 <= k < |xs| ==> NumericValue(xs[k].id) <= |xs|
    ensures AddAffiliationAsWritten(xs, currentYear) == AddAffiliation(xs, currentYear)
  {
    KeysFreshIsLengthPlusOne(xs, AffiliationId);
  }

  lemma AddEventAgrees(xs: seq<EventAttended>, currentYear: int)
    requires forall k :: 0 <= k < |xs| ==> NumericValue(xs[k].id) <= |xs|
    ensures AddEventAsWritten(xs, currentYear) == AddEvent(xs, currentYear)
  {
    KeysFreshIsLengthPlusOne(xs, EventId);
  }

  lemma KeysFreshIsLengthPlusOne<T>(xs: seq<T>, key: T -> string)
    requires forall k :: 0 <= k < |xs| ==> NumericValue(key(xs[k])) <= |xs|
    ensures FreshLocalId(KeysOf(xs, key)) == Decimal(|xs| + 1)
  {
    FreshLocalIdIsLengthPlusOne(KeysOf(xs, key));
  }

  /** Deleting a just-added entry gives back the list as it was before the add, for each of the
      four lists. */
  lemma AddThenDelete(v: CandidateValues, currentYear: int)
    ensures var r := AddPlatform(v.platforms); WithoutKey(r, PlatformId, r[|v.platforms|].id) == v.platforms
    ensures var r := AddAchievement(v.achievements, currentYear);
      WithoutKey(r, AchievementId, r[|v.achievements|].id) == v.achievements
    ensures var r := AddAffiliation(v.affiliations, currentYear);
      WithoutKey(r, AffiliationId, r[|v.affiliations|].id) == v.affiliations
    ensures var r := AddEvent(v.eventAttended, currentYear);
      WithoutKey(r, EventId, r[|v.eventAttended|].id) == v.eventAttended
  {
    var rp := AddPlatform(v.platforms);
    assert rp == v.platforms + [rp[|v.platforms|]];
    WithoutFreshKey(v.platforms, rp[|v.platforms|], PlatformId);
    var ra := AddAchievement(v.achievements, currentYear);
    assert ra == v.achievements + [ra[|v.achievements|]];
    WithoutFreshKey(v.achievements, ra[|v.achievements|], AchievementId);
    var rf := AddAffiliation(v.affiliations, currentYear);
    assert rf == v.affiliations + [rf[|v.affiliations|]];
    WithoutFreshKey(v.affiliations, rf[|v.affiliations|], AffiliationId);
    var re := AddEvent(v.eventAttended, currentYear);
    assert re == v.eventAttended + [re[|v.eventAttended|]];
    WithoutFreshKey(v.eventAttended, re[|v.eventAttended|], EventId);
  }

  // ---- Editing a field of one entry ----

  /** One of the form's per-field change handlers, with the value it writes. */
  datatype FieldEdit =
    | PlatformTitle(title: string)
    | PlatformDescription(description: string)
    | AchievementName(achievementName: string)
    | AchievementYear(achievementYear: DateValue)
    | AffiliationOrgName(orgName: string)
    | AffiliationOrgPosition(orgPosition: string)
    | AffiliationStartYear(startYear: DateValue)
    | AffiliationEndYear(endYear: DateValue)
    | EventName(eventName: string)
    | EventYear(eventYear: DateValue)

  /** `form.setValues` with the edited list: the entry at `index` gets the new field value. */
  function EditField(v: CandidateValues, index: int, edit: FieldEdit): CandidateValues {
    match edit
    case PlatformTitle(s) => v.(platforms := EditAt(v.platforms, index, (p: Platform) => p.(title := s)))
    case PlatformDescription(s) => v.(platforms := EditAt(v.platforms, index, (p: Platform) => p.(description := s)))
    case AchievementName(s) => v.(achievements := EditAt(v.achievements, index, (a: Achievement) => a.(name := s)))
    case AchievementYear(d) => v.(achievements := EditAt(v.achievements, index, (a: Achievement) => a.(year := d)))
    case AffiliationOrgName(s) => v.(affiliations := EditAt(v.affiliations, index, (a: Affiliation) => a.(orgName := s)))
    case AffiliationOrgPosition(s) => v.(affiliations := EditAt(v.affiliations, index, (a: Affiliation) => a.(orgPosition := s)))
    case AffiliationStartYear(d) => v.(affiliations := EditAt(v.affiliations, index, (a: Affiliation) => a.(startYear := d)))
    case AffiliationEndYear(d) => v.(affiliations := EditAt(v.affiliations, index, (a: Affiliation) => a.(endYear := d)))
    case EventName(s) => v.(eventAttended := EditAt(v.eventAttended, index, (e: EventAttended) => e.(name := s)))
    case EventYear(d) => v.(eventAttended := EditAt(v.eventAttended, index, (e: EventAttended) => e.(year := d)))
  }

  /** Which list an edit or a delete button belongs to. */
  datatype CredentialKind = PlatformKind | AchievementKind | AffiliationKind | EventKind

  function EditKind(edit: FieldEdit): CredentialKind {
    match edit
    case PlatformTitle(_) => PlatformKind
    case PlatformDescription(_) => PlatformKind
    case AchievementName(_) => AchievementKind
    case AchievementYear(_) => AchievementKind
    case AffiliationOrgName(_) => AffiliationKind
    case AffiliationOrgPosition(_) => AffiliationKind
    case AffiliationStartYear(_) => AffiliationKind
    case AffiliationEndYear(_) => AffiliationKind
    case EventName(_) => EventKind
    case EventYear(_) => EventKind
  }

  /** The ids of the entries of one list. */
  function IdsIn(v: CandidateValues, kind: CredentialKind): seq<string> {
    match kind
    case PlatformKind => KeysOf(v.platforms, PlatformId)
    case AchievementKind => KeysOf(v.achievements, AchievementId)
    case AffiliationKind => KeysOf(v.affiliations, AffiliationId)
    case EventKind => KeysOf(v.eventAttended, EventId)
  }

  /** `v` and `w` agree on everything but the list of `kind`. */
  predicate SameExcept(v: CandidateValues, w: CandidateValues, kind: CredentialKind) {
    v.firstName == w.firstName && v.middleName == w.middleName && v.lastName == w.lastName &&
    v.slug == w.slug && v.partylistId == w.partylistId && v.position == w.position && v.image == w.image &&
    (kind == PlatformKind || v.platforms == w.platforms) &&
    (kind == AchievementKind || v.achievements == w.achievements) &&
    (kind == AffiliationKind || v.affiliations == w.affiliations) &&
    (kind == EventKind || v.eventAttended == w.eventAttended)
  }

  /** An edit touches only its own list, keeps that list's length and ids, and changes only the
      entry at `index`, in only the edited field. */
  lemma EditFieldLocal(v: CandidateValues, index: int, edit: FieldEdit)
    ensures var w := EditField(v, index, edit);
      SameExcept(v, w, EditKind(edit)) &&
      |w.platforms| == |v.platforms| && |w.achievements| == |v.achievements| &&
      |w.affiliations| == |v.affiliations| && |w.eventAttended| == |v.eventAttended| &&
      IdsIn(w, EditKind(edit)) == IdsIn(v, EditKind(edit)) &&
      (forall k :: 0 <= k < |v.platforms| && k != index ==> w.platforms[k] == v.platforms[k]) &&
      (forall k :: 0 <= k < |v.achievements| && k != index ==> w.achievements[k] == v.achievements[k]) &&
      (forall k :: 0 <= k < |v.affiliations| && k != index ==> w.affiliations[k] == v.affiliations[k]) &&
      (forall k :: 0 <= k < |v.eventAttended| && k != index ==> w.eventAttended[k] == v.eventAttended[k])
    ensures var w := EditField(v, index, edit);
      0 <= index < |v.platforms| ==>
        (edit.PlatformTitle? ==> w.platforms[index] == v.platforms[index].(title := edit.title)) &&
        (edit.PlatformDescription? ==> w.platforms[index] == v.platforms[index].(description := edit.description))
    ensures var w := EditField(v, index, edit);
      0 <= index < |v.achievements| ==>
        (edit.AchievementName? ==> w.achievements[index] == v.achievements[index].(name := edit.achievementName)) &&
        (edit.AchievementYear? ==> w.achievements[index] == v.achievements[index].(year := edit.achievementYear))
    ensures var w := EditField(v, index, edit);
      0 <= index < |v.affiliations| ==>
        (edit.AffiliationOrgName? ==> w.affiliations[index] == v.affiliations[index].(orgName := edit.orgName)) &&
        (edit.AffiliationOrgPosition? ==> w.affiliations[index] == v.affiliations[index].(orgPosition := edit.orgPosition)) &&
        (edit.AffiliationStartYear? ==> w.affiliations[index] == v.affiliations[index].(startYear := edit.startYear)) &&
        (edit.AffiliationEndYear? ==> w.affiliations[index] == v.affiliations[index].(endYear := edit.endYear))
    ensures var w := EditField(v, index, edit);
      0 <= index < |v.eventAttended| ==>
        (edit.EventName? ==> w.eventAttended[index] == v.eventAttended[index].(name := edit.eventName)) &&
        (edit.EventYear? ==> w.eventAttended[index] == v.eventAttended[index].(year := edit.eventYear))
  {
    var w := EditField(v, index, edit);
    match EditKind(edit)
    case PlatformKind =>
      assert KeysOf(w.platforms, PlatformId) == KeysOf(v.platforms, PlatformId);
    case AchievementKind =>
      assert KeysOf(w.achievements, AchievementId) == KeysOf(v.achievements, AchievementId);
    case AffiliationKind =>
      assert KeysOf(w.affiliations, AffiliationId) == KeysOf(v.affiliations, AffiliationId);
    case EventKind =>
      assert KeysOf(w.eventAttended, EventId) == KeysOf(v.eventAttended, EventId);
  }

  // ---- The delete button ----

  /** The word after "Delete" on the button. */
  function KindLabel(kind: CredentialKind): (r: string)
    ensures r in {"Platform", "Achievement", "Affiliation", "Event Attended"}
  {
    match kind
    case PlatformKind => "Platform"
    case AchievementKind => "Achievement"
    case AffiliationKind => "Affiliation"
    case EventKind => "Event Attended"
  }

  function DeleteButtonText(kind: CredentialKind): string {
    "Delete " + KindLabel(kind)
  }

  /** Each kind of entry gets its own button text. */
  lemma DeleteButtonTextsDiffer(k1: CredentialKind, k2: CredentialKind)
    requires k1 != k2
    ensures DeleteButtonText(k1) != DeleteButtonText(k2)
  {
    assert DeleteButtonText(k1)[7..] == KindLabel(k1);
    assert DeleteButtonText(k2)[7..] == KindLabel(k2);
  }

  /** Whether the entry is saved on the server: the candidate's loaded list holds that id. */
  predicate IsSaved(c: SavedCandidate, kind: CredentialKind, id: string) {
    match kind
    case PlatformKind => id in KeysOf(c.platform, PlatformId)
    case AchievementKind => c.credential.Some? && id in KeysOf(c.credential.value.achievements, AchievementId)
    case AffiliationKind => c.credential.Some? && id in KeysOf(c.credential.value.affiliations, AffiliationId)
    case EventKind => c.credential.Some? && id in KeysOf(c.credential.value.eventsAttended, EventId)
  }

  /** A click on a delete button: a saved entry goes to the server's delete (and the form is
      left as it is), any other entry is filtered out of the form. */
  datatype DeleteOutcome = ServerDelete(kind: CredentialKind, id: string) | LocalRemoval(values: CandidateValues)

  function DeleteCredential(c: SavedCandidate, v: CandidateValues, kind: CredentialKind, id: string): DeleteOutcome {
    if IsSaved(c, kind, id) then ServerDelete(kind, id)
    else LocalRemoval(match kind
      case PlatformKind => v.(platforms := WithoutKey(v.platforms, PlatformId, id))
      case AchievementKind => v.(achievements := WithoutKey(v.achievements, AchievementId, id))
      case AffiliationKind => v.(affiliations := WithoutKey(v.affiliations, AffiliationId, id))
      case EventKind => v.(eventAttended := WithoutKey(v.eventAttended, EventId, id)))
  }

  /** The server is asked to delete exactly the saved entries. A local removal changes only the
      button's own list: no entry of that id is left and every other entry stays. */
  lemma DeleteCredentialEffect(c: SavedCandidate, v: CandidateValues, kind: CredentialKind, id: string)
    ensures var out := DeleteCredential(c, v, kind, id);
      (out.ServerDelete? <==> IsSaved(c, kind, id)) &&
      (out.ServerDelete? ==> out.kind == kind && out.id == id) &&
      (out.LocalRemoval? ==>
        SameExcept(v, out.values, kind) &&
        id !in IdsIn(out.values, kind) &&
        (forall p :: p in out.values.platforms <==> p in v.platforms && (kind != PlatformKind || p.id != id)) &&
        (forall a :: a in out.values.achievements <==> a in v.achievements && (kind != AchievementKind || a.id != id)) &&
        (forall a :: a in out.values.affiliations <==> a in v.affiliations && (kind != AffiliationKind || a.id != id)) &&
        (forall e :: e in out.values.eventAttended <==> e in v.eventAttended && (kind != EventKind || e.id != id)))
  {
    var out := DeleteCredential(c, v, kind, id);
    if out.LocalRemoval? {
      var w := out.values;
      match kind
      case PlatformKind =>
        assert forall k :: 0 <= k < |w.platforms| ==> w.platforms[k] in w.platforms;
      case AchievementKind =>
        assert forall k :: 0 <= k < |w.achievements| ==> w.achievements[k] in w.achievements;
      case AffiliationKind =>
        assert forall k :: 0 <= k < |w.affiliations| ==> w.affiliations[k] in w.affiliations;
      case EventKind =>
        assert forall k :: 0 <= k < |w.eventAttended| ==> w.eventAttended[k] in w.eventAttended;
    }
  }

  /** The local removal of a corrected add's entry, right after the add, restores the list. */
  lemma DeleteAddedPlatform(c: SavedCandidate, v: CandidateValues)
    requires var r := AddPlatform(v.platforms); !IsSaved(c, PlatformKind, r[|v.platforms|].id)
    ensures var r := AddPlatform(v.platforms);
      DeleteCredential(c, v.(platforms := r), PlatformKind, r[|v.platforms|].id) == LocalRemoval(v)
  {
    AddThenDelete(v, 0);
  }

  // ---- The image the submit sends ----

  /** What the submit sends for the image: `null`, the URL it already had, or the result of
      uploading the file under the given storage path. */
  datatype SubmittedImage = NullImage | KeepUrl(url: string) | UploadAt(path: string, fileName: string)

  function ImagePath(electionId: string, candidateId: string, nowMs: nat): string {
    "elections/" + electionId + "/candidates/" + candidateId + "/image/" + Decimal(nowMs)
  }

  /** `!image ? null : typeof image === "string" ? image : await uploadImage(...)`; the empty
      string is falsy, so it sends `null` too. */
  function SubmitImage(c: SavedCandidate, image: ImageValue, nowMs: nat): (r: SubmittedImage)
    ensures r.NullImage? <==> image.NoImage? || image == ImageUrl("")
    ensures r.KeepUrl? <==> image.ImageUrl? && image.url != ""
    ensures r.KeepUrl? ==> r.url == image.url
    ensures r.UploadAt? <==> image.ImageFile?
    ensures r.UploadAt? ==> r.fileName == image.fileName
  {
    match image
    case NoImage => NullImage
    case ImageUrl(url) => if url == "" then NullImage else KeepUrl(url)
    case ImageFile(name) => UploadAt(ImagePath(c.electionId, c.id, nowMs), name)
  }

  /** An upload goes under the candidate's own image folder of its election, named by the
      submit's timestamp; uploads at different milliseconds go to different paths. */
  lemma ImagePathShape(electionId: string, candidateId: string, t1: nat, t2: nat)
    ensures var folder := "elections/" + electionId + "/candidates/" + candidateId + "/image/";
      ImagePath(electionId, candidateId, t1) == folder + Decimal(t1)
    ensures t1 != t2 ==> ImagePath(electionId, candidateId, t1) != ImagePath(electionId, candidateId, t2)
  {
    var folder := "elections/" + electionId + "/candidates/" + candidateId + "/image/";
    if ImagePath(electionId, candidateId, t1) == ImagePath(electionId, candidateId, t2) {
      assert (folder + Decimal(t1))[|folder|..] == Decimal(t1);
      assert (folder + Decimal(t2))[|folder|..] == Decimal(t2);
      DecimalInjective(t1, t2);
    }
  }
}
