/** The "Create an election" modal of the Firestore-backed dashboard
    (src/components/CreateElectionModal.tsx): the election id-name input rule, the templates of
    positions, the date pickers, and the submit that writes the election, its default partylist
    and its template positions. */
module CreateElectionModal {
  import opened Basics
  import opened Text

  // ---- The election id name ----

  /** The id name as stored: one trailing dash, if there is one, is cut off. */
  function StripTrailingDash(s: string): (r: string)
    ensures |s| - 1 <= |r| <= |s| && r == s[..|r|]
    ensures r != s <==> s != [] && s[|s| - 1] == '-'
  {
    if s != [] && s[|s| - 1] == '-' then s[..|s| - 1] else s
  }

  /** Stripping takes back exactly one appended dash: a name that ended in two dashes keeps one. */
  lemma StripTrailingDashInverse(s: string)
    ensures StripTrailingDash(s + "-") == s
    ensures StripTrailingDash("a--") == "a-"
  {
    assert (s + "-")[..|s|] == s;
  }

  /** The id-name input's change rule: after a trailing dash the new value is trimmed, otherwise
      its first space (only the first) becomes a dash. */
  function EditIdName(current: string, input: string): (r: string)
    ensures current != [] && current[|current| - 1] == '-' ==> r == Trim(input)
    ensures !(current != [] && current[|current| - 1] == '-') ==>
      |r| == |input| &&
      var k := IndexOf(input, ' ');
      (forall j :: 0 <= j < |input| && j != k ==> r[j] == input[j]) && (k < |input| ==> r[k] == '-')
  {
    if current != [] && current[|current| - 1] == '-' then Trim(input) else ReplaceFirst(input, ' ', '-')
  }

  /** Typing a space after a name without spaces or a final dash turns that space into a dash. */
  lemma TypingSpaceAddsDash(name: string)
    requires name == [] || name[|name| - 1] != '-'
    requires forall k :: 0 <= k < |name| ==> name[k] != ' '
    ensures EditIdName(name, name + " ") == name + "-"
  {
    var typed := name + " ";
    assert typed[|name|] == ' ';
    assert forall j :: 0 <= j < |name| ==> typed[j] == name[j];
    var r := EditIdName(name, typed);
    assert IndexOf(typed, ' ') == |name|;
    assert forall j :: 0 <= j < |typed| ==> r[j] == (name + "-")[j];
  }

  /** A space typed right after a trailing dash is swallowed, so typing never makes a double
      dash. */
  lemma TypingSpaceAfterDash(name: string)
    requires name != [] && !IsSpace(name[0])
    ensures EditIdName(name + "-", name + "- ") == name + "-"
  {
    var d := name + "-";
    var s := d + " ";
    assert name + "- " == s;
    assert !IsSpace(s[0]) && IsSpace(s[|s| - 1]) && !IsSpace(s[|d| - 1]);
    assert TrimStart(s) == s;
    var r := Trim(s);
    assert |r| == |d|;
    assert r == d;
  }

  // ---- Templates ----

  datatype Template = Template(id: nat, title: string, positions: seq<string>)

  /** The template radio options, in display order. */
  const Templates: seq<Template> := [
    Template(0, "None", []),
    Template(1, "CEIT-SC", [
      "President",
      "Vice President for Internal Affairs",
      "Vice President for External Affairs",
      "Vice President for Documentation",
      "Vice President for Finance",
      "Vice President for Budget Management",
      "Vice President for Operations",
      "Vice President for Public Relations",
      "Gender and Development Representative "]),
    Template(2, "CSSO", [
      "President",
      "Vice President for Internal Affairs",
      "Vice President for External Affairs",
      "Secretary",
      "Treasurer",
      "Auditor",
      "Business Manager",
      "Public Relations Officer"]),
    Template(3, "CoESS-ICPEP", [
      "President",
      "Vice President for Internal Affair",
      "Vice President for External Affair",
      "Secretary",
      "Assistant Secretary",
      "Treasurer",
      "Auditor",
      "Business Manager",
      "Public Relations Officer"]),
    Template(4, "IIEE", [
      "President",
      "Vice President for Internal Affairs",
      "Vice President for External Affairs",
      "Vice President for Technical",
      "Secretary",
      "Assistant Secretary",
      "Treasurer",
      "Assistant Treasurer",
      "Auditor",
      "Public Relations Officer"]),
    Template(5, "PIIE", [
      "President",
      "Vice President for Internal Affairs",
      "Vice President for External Affairs",
      "Vice President for Finance",
      "Vice President for Documentation",
      "Vice President for Academics and Research",
      "Vice President for Publication",
      "Vice President for Activities and Preparation",
      "Vice President for Communication",
      "Vice President for Marketing"])
  ]

  /** The position titles the submit creates for the selected radio value among `options`:
      none for "0", the titles of the first option whose id prints as the value otherwise, none
      when no option matches. The modal's own options are `Templates`. */
  function TemplateTitles(options: seq<Template>, selected: string): (r: seq<string>)
    ensures selected == "0" ==> r == []
    ensures r != [] ==> exists k :: 0 <= k < |options| && Decimal(options[k].id) == selected && r == options[k].positions
  {
    if selected == "0" then []
    else
      var k := FirstWhere(options, (t: Template) => Decimal(t.id) == selected);
      if k < |options| then options[k].positions else []
  }

  /** Each option's id is its place in the list. */
  lemma TemplateIds()
    ensures forall j :: 0 <= j < |Templates| ==> Templates[j].id == j
  {
  }

  /** The radio value of option `k` selects that option's titles, and a value that no option
      prints as selects none. */
  lemma TemplateTitlesOf(k: nat)
    requires 1 <= k < |Templates|
    ensures TemplateTitles(Templates, Decimal(k)) == Templates[k].positions
    ensures TemplateTitles(Templates, Decimal(k + |Templates|)) == []
  {
    TemplateIds();
    TitlesOfNumberedOptions(Templates, k);
  }

  /** For options numbered by their place, the value `k` selects option `k` and a value past
      the last option selects nothing. */
  lemma TitlesOfNumberedOptions(options: seq<Template>, k: nat)
    requires forall j :: 0 <= j < |options| ==> options[j].id == j
    requires 1 <= k < |options|
    ensures TemplateTitles(options, Decimal(k)) == options[k].positions
    ensures TemplateTitles(options, Decimal(k + |options|)) == []
  {
    var v := Decimal(k);
    assert v != "0";
    var j := FirstWhere(options, (t: Template) => Decimal(t.id) == v);
    assert Decimal(options[k].id) == v;
    assert j <= k;
    if j < k {
      DecimalInjective(j, k);
    }
    var w := Decimal(k + |options|);
    assert w != "0";
    forall j | 0 <= j < |options|
      ensures Decimal(options[j].id) != w
    {
      if Decimal(j) == w {
        DecimalInjective(j, k + |options|);
      }
    }
  }

  /** What the five templates hold. */
  lemma TemplateContents()
    ensures |Templates| == 6 && Templates[0].positions == []
    ensures |Templates[1].positions| == 9 && Templates[1].positions[8] == "Gender and Development Representative "
    ensures |Templates[2].positions| == 8 && |Templates[3].positions| == 9
    ensures |Templates[4].positions| == 10 && |Templates[5].positions| == 10
    ensures forall k :: 1 <= k < |Templates| ==> Templates[k].positions[0] == "President"
  {
  }

  // ---- The documents ----

  datatype ElectionDoc = ElectionDoc(
    docId: string, uid: string, id: string, name: string, electionIdName: string,
    startDate: int, endDate: int, publicity: string, createdAt: int)

  datatype PartylistDoc = PartylistDoc(
    electionDocId: string, docId: string, uid: string, id: string,
    name: string, abbreviation: string, logo: string, description: string, createdAt: int)

  datatype PositionDoc = PositionDoc(
    electionDocId: string, docId: string, order: nat, uid: string, id: string,
    title: string, undecidedVotingCount: nat, createdAt: int)

  /** The collections the submit writes, and the next document id the store hands out. */
  datatype Store = Store(
    elections: seq<ElectionDoc>, partylists: seq<PartylistDoc>, positions: seq<PositionDoc>,
    adminElections: map<string, seq<string>>, nextDocId: nat)

  /** The id the store gives its `n`-th new document (a stand-in for Firestore's random ids). */
  function DocId(n: nat): string {
    "d" + Decimal(n)
  }

  /** Whether an election already has that id name. */
  predicate IdNameTaken(st: Store, idName: string) {
    exists k :: 0 <= k < |st.elections| && st.elections[k].electionIdName == idName
  }

  /** `arrayUnion(x)`: appended unless already there. */
  function ArrayUnion(xs: seq<string>, x: string): (r: seq<string>)
    ensures x in r && forall y :: y in xs ==> y in r
    ensures x in xs ==> r == xs
  {
    if x in xs then xs else xs + [x]
  }

  /** The modal's form: the election draft made when the modal mounted and the inputs. */
  datatype Draft = Draft(
    id: string, name: string, electionIdName: string,
    startDate: Option<int>, endDate: Option<int>, selectedTemplate: string, createdAt: int)

  const DatesMessage := "Please select a start and end date for the election."
  const IdNameTakenMessage := "Election ID Name is already taken"

  datatype FormError = DatesError(dateMessage: string) | IdNameError(idNameMessage: string)

  /** How a submit ends: refused by one of the two guards, stopped by the admin update failing
      (no admin document), or done, navigating to the new election's dashboard. */
  datatype SubmitOutcome = DatesMissing | IdNameIsTaken | AdminUpdateFailed | Created(electionDocId: string, destination: string)

  /** The one partylist every new election gets. */
  function DefaultPartylist(electionDocId: string, docId: string, id: string, now: int): PartylistDoc {
    PartylistDoc(electionDocId, docId, docId, id, "Independent", "IND", "", "", now)
  }

  /** The position documents of a template, one per title: the title, its index as `order`, no
      undecided votes, and its own document id as `uid`. */
  function TemplateDocs(electionDocId: string, firstDocId: nat, titles: seq<string>,
                        uuidOf: nat -> string, now: int): (r: seq<PositionDoc>)
    ensures |r| == |titles|
    ensures forall i :: 0 <= i < |titles| ==>
      r[i].electionDocId == electionDocId && r[i].order == i && r[i].title == titles[i] &&
      r[i].undecidedVotingCount == 0 && r[i].uid == r[i].docId == DocId(firstDocId + i)
  {
    seq(|titles|, i requires 0 <= i < |titles| =>
      PositionDoc(electionDocId, DocId(firstDocId + i), i, DocId(firstDocId + i), uuidOf(i), titles[i], 0, now))
  }

  /** The election document a submit writes: the draft with the name trimmed, the id name as
      stored and the picked dates; its `uid` is set afterwards. */
  function NewElection(d: Draft, eId: string, idName: string): ElectionDoc
    requires d.startDate.Some? && d.endDate.Some?
  {
    ElectionDoc(eId, "", d.id, Trim(d.name), idName, d.startDate.value, d.endDate.value, "private", d.createdAt)
  }

  /** `addDoc` of an election. */
  function AddElection(st: Store, e: ElectionDoc): Store {
    st.(elections := st.elections + [e], nextDocId := st.nextDocId + 1)
  }

  /** The signed-in admin's `elections` gain the new election; nothing happens without a session. */
  function LinkAdmin(st: Store, session: Option<string>, eId: string): Store
    requires session.Some? ==> session.value in st.adminElections
  {
    if session.None? then st
    else st.(adminElections := st.adminElections[session.value := ArrayUnion(st.adminElections[session.value], eId)])
  }

  /** `updateDoc` of an election's `uid`. */
  function SetElectionUid(st: Store, k: nat, eId: string): Store
    requires k < |st.elections|
  {
    st.(elections := st.elections[k := st.elections[k].(uid := eId)])
  }

  /** `addDoc` of the default partylist, whose `uid` is set to its document id. */
  function AddPartylist(st: Store, eId: string, partylistUuid: string, now: int): Store {
    st.(partylists := st.partylists + [DefaultPartylist(eId, DocId(st.nextDocId), partylistUuid, now)],
        nextDocId := st.nextDocId + 1)
  }

  /** `addDoc` of each template position in turn, each `uid` set to its document id. */
  function AddPositions(st: Store, eId: string, titles: seq<string>, uuidOf: nat -> string, now: int): Store {
    st.(positions := st.positions + TemplateDocs(eId, st.nextDocId, titles, uuidOf, now),
        nextDocId := st.nextDocId + |titles|)
  }

  /** The submit, as the store sees it. `session` is the signed-in admin's document id, if any;
      `partylistUuid` and `uuidOf` are the uuids the code draws; `options` are the template
      options on offer (`Templates` in the modal). */
  function Submit(st: Store, d: Draft, options: seq<Template>, session: Option<string>, now: int,
                  partylistUuid: string, uuidOf: nat -> string): (Store, SubmitOutcome)
  {
    if d.startDate.None? || d.endDate.None? then (st, DatesMissing)
    else
      var idName := StripTrailingDash(d.electionIdName);
      if IdNameTaken(st, idName) then (st, IdNameIsTaken)
      else
        var eId := DocId(st.nextDocId);
        var st1 := AddElection(st, NewElection(d, eId, idName));
        if session.Some? && session.value !in st1.adminElections then (st1, AdminUpdateFailed)
        else
          var st2 := SetElectionUid(LinkAdmin(st1, session, eId), |st.elections|, eId);
          var st3 := AddPositions(AddPartylist(st2, eId, partylistUuid, now), eId, TemplateTitles(options, d.selectedTemplate), uuidOf, now);
          (st3, Created(eId, "/" + idName + "/dashboard"))
  }

  /** A missing date and a taken id name are refused before anything is written; the date check
      comes first. */
  lemma SubmitGuards(st: Store, d: Draft, options: seq<Template>, session: Option<string>, now: int, pu: string, uuidOf: nat -> string)
    ensures d.startDate.None? || d.endDate.None? ==> Submit(st, d, options, session, now, pu, uuidOf) == (st, DatesMissing)
    ensures d.startDate.Some? && d.endDate.Some? && IdNameTaken(st, StripTrailingDash(d.electionIdName)) ==>
      Submit(st, d, options, session, now, pu, uuidOf) == (st, IdNameIsTaken)
    ensures Submit(st, d, options, session, now, pu, uuidOf).1.Created? <==>
      d.startDate.Some? && d.endDate.Some? && !IdNameTaken(st, StripTrailingDash(d.electionIdName)) &&
      (session.None? || session.value in st.adminElections)
  {
  }

  /** A created election: exactly one election document is added, with the trimmed name, the
      stripped id name, the picked dates and its own document id as `uid`, and the submit
      navigates to its dashboard. */
  lemma SubmitCreatesElection(st: Store, d: Draft, options: seq<Template>, session: Option<string>, now: int, pu: string, uuidOf: nat -> string)
    requires Submit(st, d, options, session, now, pu, uuidOf).1.Created?
    ensures var (st', out) := Submit(st, d, options, session, now, pu, uuidOf);
      |st'.elections| == |st.elections| + 1 && st'.elections[..|st.elections|] == st.elections &&
      var e := st'.elections[|st.elections|];
      e.docId == e.uid == out.electionDocId && e.name == Trim(d.name) &&
      e.electionIdName == StripTrailingDash(d.electionIdName) &&
      Some(e.startDate) == d.startDate && Some(e.endDate) == d.endDate &&
      out.destination == "/" + e.electionIdName + "/dashboard"
  {
    var eId := DocId(st.nextDocId);
    var st1 := AddElection(st, NewElection(d, eId, StripTrailingDash(d.electionIdName)));
    var st2 := SetElectionUid(LinkAdmin(st1, session, eId), |st.elections|, eId);
    assert st2.elections[..|st.elections|] == st.elections;
  }

  /** `docs` are the positions of election `eId` for `titles`, one per title in order, with the
      title's index as `order` and no undecided votes. */
  predicate PositionsFor(docs: seq<PositionDoc>, eId: string, titles: seq<string>) {
    |docs| == |titles| &&
    forall i :: 0 <= i < |docs| ==>
      docs[i].electionDocId == eId && docs[i].order == i && docs[i].title == titles[i] && docs[i].undecidedVotingCount == 0
  }

  /** From `st` to `st'`: exactly one partylist is appended, the Independent "IND" one of
      election `eId`, and the positions for `titles` are appended. */
  predicate AddsDefaultContents(st: Store, st': Store, eId: string, titles: seq<string>) {
    |st'.partylists| == |st.partylists| + 1 && st'.partylists[..|st.partylists|] == st.partylists &&
    st'.partylists[|st.partylists|].electionDocId == eId &&
    st'.partylists[|st.partylists|].name == "Independent" &&
    st'.partylists[|st.partylists|].abbreviation == "IND" &&
    |st.positions| <= |st'.positions| && st'.positions[..|st.positions|] == st.positions &&
    PositionsFor(st'.positions[|st.positions|..], eId, titles)
  }

  /** A created election gets exactly one partylist, the Independent "IND" one, and the
      template's positions in order; template "0" creates no position. */
  lemma SubmitCreatesContents(st: Store, d: Draft, options: seq<Template>, session: Option<string>, now: int, pu: string, uuidOf: nat -> string)
    requires Submit(st, d, options, session, now, pu, uuidOf).1.Created?
    ensures var (st', out) := Submit(st, d, options, session, now, pu, uuidOf);
      AddsDefaultContents(st, st', out.electionDocId, TemplateTitles(options, d.selectedTemplate)) &&
      (d.selectedTemplate == "0" ==> st'.positions == st.positions)
  {
    var st2 := SubmitCreatedStore(st, d, options, session, now, pu, uuidOf);
    PartylistThenPositions(st2, DocId(st.nextDocId), pu, TemplateTitles(options, d.selectedTemplate), uuidOf, now);
  }

  /** A created election's store before the partylist and the positions are added: it has the
      partylists and positions of the store the submit started from. */
  lemma SubmitCreatedStore(st: Store, d: Draft, options: seq<Template>, session: Option<string>, now: int, pu: string, uuidOf: nat -> string)
    returns (st2: Store)
    requires Submit(st, d, options, session, now, pu, uuidOf).1.Created?
    ensures st2.partylists == st.partylists && st2.positions == st.positions
    ensures var eId := DocId(st.nextDocId);
      Submit(st, d, options, session, now, pu, uuidOf).0 ==
        AddPositions(AddPartylist(st2, eId, pu, now), eId, TemplateTitles(options, d.selectedTemplate), uuidOf, now) &&
      Submit(st, d, options, session, now, pu, uuidOf).1.electionDocId == eId
  {
    var eId := DocId(st.nextDocId);
    var st1 := AddElection(st, NewElection(d, eId, StripTrailingDash(d.electionIdName)));
    st2 := SetElectionUid(LinkAdmin(st1, session, eId), |st.elections|, eId);
  }

  /** The default partylist, then the positions: one partylist and the titles' positions are
      appended, in order. */
  lemma PartylistThenPositions(st: Store, eId: string, pu: string, titles: seq<string>, uuidOf: nat -> string, now: int)
    ensures var st' := AddPositions(AddPartylist(st, eId, pu, now), eId, titles, uuidOf, now);
      AddsDefaultContents(st, st', eId, titles) && (titles == [] ==> st'.positions == st.positions)
  {
    var st3 := AddPartylist(st, eId, pu, now);
    assert st3.partylists[..|st.partylists|] == st.partylists;
    assert st3.positions == st.positions;
    AddPositionsEffect(st3, eId, titles, uuidOf, now);
  }

  /** The positions the template loop adds, in terms of the store before it. */
  lemma AddPositionsEffect(st: Store, eId: string, titles: seq<string>, uuidOf: nat -> string, now: int)
    ensures var st' := AddPositions(st, eId, titles, uuidOf, now);
      |st.positions| <= |st'.positions| && st'.positions[..|st.positions|] == st.positions &&
      PositionsFor(st'.positions[|st.positions|..], eId, titles) &&
      (titles == [] ==> st'.positions == st.positions) &&
      st'.partylists == st.partylists
  {
    var docs := TemplateDocs(eId, st.nextDocId, titles, uuidOf, now);
    var st' := AddPositions(st, eId, titles, uuidOf, now);
    assert st'.positions[..|st.positions|] == st.positions;
    assert st'.positions[|st.positions|..] == docs;
  }

  /** No two elections share an id name, and a submit keeps it so. */
  predicate UniqueIdNames(st: Store) {
    forall i, j :: 0 <= i < j < |st.elections| ==> st.elections[i].electionIdName != st.elections[j].electionIdName
  }

  lemma SubmitKeepsIdNamesUnique(st: Store, d: Draft, options: seq<Template>, session: Option<string>, now: int, pu: string, uuidOf: nat -> string)
    requires UniqueIdNames(st)
    ensures UniqueIdNames(Submit(st, d, options, session, now, pu, uuidOf).0)
  {
    var st' := Submit(st, d, options, session, now, pu, uuidOf).0;
    if st' != st {
      var n := |st.elections|;
      assert |st'.elections| == n + 1 && st'.elections[..n] == st.elections;
      forall i, j | 0 <= i < j < |st'.elections|
        ensures st'.elections[i].electionIdName != st'.elections[j].electionIdName
      {
        if j == n {
          assert st'.elections[i] == st.elections[i];
        } else {
          assert st'.elections[i] == st.elections[i] && st'.elections[j] == st.elections[j];
        }
      }
    }
  }

  // ---- The date pickers ----

  /** A start time can be picked only when it is later than now. */
  predicate StartTimeSelectable(now: int, time: int) {
    now < time
  }

  /** An end time can be picked only when it is later than the start, or than now when there is
      no start. */
  predicate EndTimeSelectable(startDate: Option<int>, now: int, time: int) {
    if startDate.Some? then startDate.value < time else now < time
  }

  /** Picking the start and then the end leaves a range that starts after now and ends after
      its start; with no start, the end picker falls back to now. */
  lemma PickedRangeOrdered(now: int, start: int, end: int)
    requires StartTimeSelectable(now, start) && EndTimeSelectable(Some(start), now, end)
    ensures now < start < end
    ensures EndTimeSelectable(None, now, end)
  {
  }

  /** Re-picking the start after the end keeps the end, so the stored range can end before it
      starts: a later start is not checked against an end already picked. */
  lemma RepickedStartCanPassEnd(d: Draft, now: int)
    requires d.startDate == Some(now + 1) && d.endDate == Some(now + 2)
    ensures StartTimeSelectable(now, now + 3)
    ensures var d' := d.(startDate := Some(now + 3)); d'.endDate.value < d'.startDate.value
  {
  }

  // ---- The modal's state and the store ----

  class Firestore {
    var elections: seq<ElectionDoc>
    var partylists: seq<PartylistDoc>
    var positions: seq<PositionDoc>
    var adminElections: map<string, seq<string>>
    var nextDocId: nat

    constructor (st: Store)
      ensures Snapshot() == st
    {
      elections, partylists, positions := st.elections, st.partylists, st.positions;
      adminElections, nextDocId := st.adminElections, st.nextDocId;
    }

    function Snapshot(): Store
      reads this
    {
      Store(elections, partylists, positions, adminElections, nextDocId)
    }

    /** A new document id. */
    method NewDocId() returns (id: string)
      modifies this
      ensures id == DocId(old(nextDocId))
      ensures Snapshot() == old(Snapshot()).(nextDocId := old(nextDocId) + 1)
    {
      id := DocId(nextDocId);
      nextDocId := nextDocId + 1;
    }

    /** `addDoc(collection(firestore, "elections"), ...)`. */
    method AddElectionDoc(d: Draft, idName: string) returns (eId: string)
      requires d.startDate.Some? && d.endDate.Some?
      modifies this
      ensures eId == DocId(old(nextDocId))
      ensures Snapshot() == AddElection(old(Snapshot()), NewElection(d, eId, idName))
    {
      eId := NewDocId();
      elections := elections + [NewElection(d, eId, idName)];
    }

    /** `updateDoc` with `arrayUnion` on the admin's document; it fails, changing nothing, when
        there is no such document. */
    method LinkAdminDoc(adminId: string, eId: string) returns (ok: bool)
      modifies this
      ensures ok == (adminId in old(adminElections))
      ensures ok ==> Snapshot() == LinkAdmin(old(Snapshot()), Some(adminId), eId)
      ensures !ok ==> Snapshot() == old(Snapshot())
    {
      ok := adminId in adminElections;
      if ok {
        adminElections := adminElections[adminId := ArrayUnion(adminElections[adminId], eId)];
      }
    }

    /** `updateDoc(doc(firestore, "elections", id), { uid: id })`. */
    method SetElectionUidDoc(k: nat, eId: string)
      requires k < |elections|
      modifies this
      ensures Snapshot() == SetElectionUid(old(Snapshot()), k, eId)
    {
      elections := elections[k := elections[k].(uid := eId)];
    }

    /** The default partylist's `addDoc` and its `uid` update. */
    method AddPartylistDoc(eId: string, partylistUuid: string, now: int)
      modifies this
      ensures Snapshot() == AddPartylist(old(Snapshot()), eId, partylistUuid, now)
    {
      var pId := NewDocId();
      partylists := partylists + [DefaultPartylist(eId, pId, partylistUuid, now)];
    }

    /** The template loop: one position document per title, in order. */
    method AddPositionDocs(eId: string, titles: seq<string>, uuidOf: nat -> string, now: int)
      modifies this
      ensures Snapshot() == AddPositions(old(Snapshot()), eId, titles, uuidOf, now)
    {
      ghost var first := nextDocId;
      for i := 0 to |titles|
        invariant positions == old(positions) + TemplateDocs(eId, first, titles[..i], uuidOf, now)
        invariant nextDocId == first + i
        invariant elections == old(elections) && partylists == old(partylists) && adminElections == old(adminElections)
      {
        var posId := NewDocId();
        positions := positions + [PositionDoc(eId, posId, i, posId, uuidOf(i), titles[i], 0, now)];
        assert TemplateDocs(eId, first, titles[..i + 1], uuidOf, now) ==
               TemplateDocs(eId, first, titles[..i], uuidOf, now) + [PositionDoc(eId, posId, i, posId, uuidOf(i), titles[i], 0, now)];
      }
      assert titles[..|titles|] == titles;
    }
  }

  class ModalState {
    var draft: Draft
    var error: Option<FormError>
    var loading: bool

    constructor (id: string, now: int)
      ensures draft == Draft(id, "", "", Some(now), None, "0", now) && error == None && !loading
    {
      draft := Draft(id, "", "", Some(now), None, "0", now);
      error := None;
      loading := false;
    }

    /** Opening the modal clears the names, starts the range now with no end, clears the error
        and selects the empty template. */
    method Reset(now: int)
      modifies this
      ensures draft == old(draft).(name := "", electionIdName := "", startDate := Some(now), endDate := None,
                                    selectedTemplate := "0")
      ensures error == None && loading == old(loading)
    {
      draft := draft.(name := "", electionIdName := "", startDate := Some(now), endDate := None, selectedTemplate := "0");
      error := None;
    }

    /** A keystroke in the id-name input. */
    method TypeIdName(input: string)
      modifies this
      ensures draft == old(draft).(electionIdName := EditIdName(old(draft).electionIdName, input))
      ensures error == old(error) && loading == old(loading)
    {
      draft := draft.(electionIdName := EditIdName(draft.electionIdName, input));
    }

    /** Picking or clearing the start date: clearing it clears the end date too. */
    method SetStartDate(date: Option<int>)
      modifies this
      ensures date.Some? ==> draft == old(draft).(startDate := date) && error == None
      ensures date.None? ==> draft == old(draft).(startDate := None, endDate := None) && error == old(error)
      ensures loading == old(loading)
    {
      if date.Some? {
        draft := draft.(startDate := date);
        error := None;
      } else {
        draft := draft.(startDate := None, endDate := None);
      }
    }

    /** Picking or clearing the end date. */
    method SetEndDate(date: Option<int>)
      modifies this
      ensures draft == old(draft).(endDate := date) && error == None && loading == old(loading)
    {
      draft := draft.(endDate := date);
      error := None;
    }

    /** The form's `onSubmit`. */
    method OnSubmit(store: Firestore, session: Option<string>, now: int, partylistUuid: string, uuidOf: nat -> string)
      returns (outcome: SubmitOutcome)
      modifies this, store
      ensures (store.Snapshot(), outcome) == Submit(old(store.Snapshot()), old(draft), Templates, session, now, partylistUuid, uuidOf)
      ensures draft == old(draft)
      ensures outcome == DatesMissing ==> error == Some(DatesError(DatesMessage)) && loading == old(loading)
      ensures outcome == IdNameIsTaken ==> error == Some(IdNameError(IdNameTakenMessage)) && !loading
      ensures outcome == AdminUpdateFailed ==> error == None && loading
      ensures outcome.Created? ==> error == None && !loading
    {
      var d := draft;
      if d.startDate.None? || d.endDate.None? {
        error := Some(DatesError(DatesMessage));
        return DatesMissing;
      }
      error := None;
      loading := true;
      var idName := StripTrailingDash(d.electionIdName);
      if IdNameTaken(store.Snapshot(), idName) {
        error := Some(IdNameError(IdNameTakenMessage));
        loading := false;
        return IdNameIsTaken;
      }
      var n := |store.elections|;
      var eId := store.AddElectionDoc(d, idName);
      if session.Some? {
        var ok := store.LinkAdminDoc(session.value, eId);
        if !ok {
          return AdminUpdateFailed;
        }
      }
      store.SetElectionUidDoc(n, eId);
      store.AddPartylistDoc(eId, partylistUuid, now);
      var titles := TemplateTitles(Templates, d.selectedTemplate);
      store.AddPositionDocs(eId, titles, uuidOf, now);
      loading := false;
      outcome := Created(eId, "/" + idName + "/dashboard");
    }
  }
}
