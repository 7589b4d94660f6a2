/** The hourly election lifecycle tick (src/pages/api/do-election-processing.tsx, `handler`).

    Opening step: for every election whose start date is today's Manila date and whose
    `voting_start` is the current Manila hour, every voter still ADDED gets a fresh
    ELECTION_INVITATION token, is e-mailed and is marked INVITED; then the election's
    publicity becomes VOTER. Closing step: for every election whose end date and
    `voting_end` match, the tally is rendered, uploaded and one result record appended.

    Nothing in the handler catches an exception: a failed e-mail send or a failed render
    ends the tick where it happened. Nothing checks for an existing result: a second run in
    the same hour appends a second record. */
module ElectionProcessing {
  import opened Basics
  import opened Text
  import opened Clock
  import opened Schema
  import opened Tally

  /** How a tick ended: normally (HTTP 200), or by the exception a collaborator threw. */
  datatype Outcome = Completed | SendFailed(voterId: Id) | UploadFailed(electionId: Id)

  /** One reading of `new Date()` when a result file is named: `getTime()` and `toDateString()`. */
  datatype Stamp = Stamp(ms: nat, dateText: string)

  // ---- Selection ----

  /** The election's voting opens in Manila civil hour `c`. */
  predicate OpensAt(e: Election, c: CivilTime) {
    e.startDate == ManilaMidnight(c.day) && e.votingStart == c.hour
  }

  /** The election's voting closes in Manila civil hour `c`. */
  predicate ClosesAt(e: Election, c: CivilTime) {
    e.endDate == ManilaMidnight(c.day) && e.votingEnd == c.hour
  }

  function WhereStart(es: seq<Election>, date: int, hour: int): (r: seq<Election>)
    ensures |r| <= |es|
    ensures forall e :: e in r <==> e in es && e.startDate == date && e.votingStart == hour
    decreases |es|
  {
    if es == [] then []
    else if es[0].startDate == date && es[0].votingStart == hour then [es[0]] + WhereStart(es[1..], date, hour)
    else WhereStart(es[1..], date, hour)
  }

  function WhereEnd(es: seq<Election>, date: int, hour: int): (r: seq<Election>)
    ensures |r| <= |es|
    ensures forall e :: e in r <==> e in es && e.endDate == date && e.votingEnd == hour
    decreases |es|
  {
    if es == [] then []
    else if es[0].endDate == date && es[0].votingEnd == hour then [es[0]] + WhereEnd(es[1..], date, hour)
    else WhereEnd(es[1..], date, hour)
  }

  /** The opening query, with the date and hour the handler computes from `now`: exactly the
      elections whose voting opens in the current Manila hour. Publicity is not consulted. */
  function OpeningElections(es: seq<Election>, now: int): (r: seq<Election>)
    ensures forall e :: e in r <==> e in es && OpensAt(e, ManilaCivil(now))
  {
    QueryIsManilaCivil(now);
    WhereStart(es, QueryDate(now), QueryHour(now))
  }

  /** The closing query: exactly the elections whose voting closes in the current Manila hour. */
  function ClosingElections(es: seq<Election>, now: int): (r: seq<Election>)
    ensures forall e :: e in r <==> e in es && ClosesAt(e, ManilaCivil(now))
  {
    QueryIsManilaCivil(now);
    WhereEnd(es, QueryDate(now), QueryHour(now))
  }

  /** An election is selected for opening in one Manila hour only: two ticks that both open
      it run in the same Manila day and hour. */
  lemma OpensInOneHour(es: seq<Election>, now1: int, now2: int, e: Election)
    requires e in OpeningElections(es, now1) && e in OpeningElections(es, now2)
    ensures ManilaCivil(now1) == ManilaCivil(now2)
  {
    ManilaMidnightInjective(ManilaCivil(now1).day, ManilaCivil(now2).day);
  }

  /** Likewise an election is selected for closing in one Manila hour only. */
  lemma ClosesInOneHour(es: seq<Election>, now1: int, now2: int, e: Election)
    requires e in ClosingElections(es, now1) && e in ClosingElections(es, now2)
    ensures ManilaCivil(now1) == ManilaCivil(now2)
  {
    ManilaMidnightInjective(ManilaCivil(now1).day, ManilaCivil(now2).day);
  }

  // ---- Invitation expiry ----

  /** The instant voting closes: hour `voting_end` of the Manila day on which the election ends. */
  function InvitationExpiry(e: Election): int {
    ManilaInstant(ManilaCivil(e.endDate).day, e.votingEnd)
  }

  /** The expiry as the handler computes it on a UTC server: the end date re-read as Manila
      wall-clock time, then `setHours(voting_end)` applied in UTC. */
  function InvitationExpiryAsWritten(e: Election): int {
    SetHours(WallClock(e.endDate), e.votingEnd)
  }

  /** The invitation expires at the election's close: read in Manila time it is the end date
      at hour `voting_end`. */
  lemma InvitationExpiryIsClose(e: Election, d: int)
    requires e.endDate == ManilaMidnight(d) && 0 <= e.votingEnd < 24
    ensures ManilaCivil(InvitationExpiry(e)) == CivilTime(d, e.votingEnd)
    ensures InvitationExpiry(e) == ManilaInstant(d, e.votingEnd)
  {
    ManilaCivilOfInstant(d, 0, e.endDate);
    ManilaCivilOfInstant(d, e.votingEnd, InvitationExpiry(e));
  }

  /** As written, the expiry lands eight hours after the close: the wall-clock value is
      built to show Manila time but is then compared as a UTC instant. */
  lemma InvitationExpiryAsWrittenIsLate(e: Election, d: int)
    requires e.endDate == ManilaMidnight(d) && 0 <= e.votingEnd < 24
    ensures InvitationExpiryAsWritten(e) == InvitationExpiry(e) + ManilaOffsetMs
  {
    InvitationExpiryIsClose(e, d);
    var w := d * DayMs;
    assert e.endDate + ManilaOffsetMs == (d * 86400) * SecondMs;
    assert ((d * 86400) * SecondMs) / SecondMs == d * 86400;
    assert WallClock(e.endDate) == w;
    assert w / DayMs == d;
    assert w == (d * 24) * HourMs;
    assert w % HourMs == 0;
    assert SetHours(w, e.votingEnd) == w + e.votingEnd * HourMs;
  }

  /** Concretely: an election ending on 2024-06-01 (Manila) at 19:00 hands out invitations
      that, read in Manila time, stay valid until 03:00 on 2024-06-02. */
  lemma InvitationExpiryAsWrittenExample(e: Election)
    requires e.endDate == ManilaMidnight(19875) && e.votingEnd == 19
    ensures ManilaCivil(InvitationExpiry(e)) == CivilTime(19875, 19)
    ensures ManilaCivil(InvitationExpiryAsWritten(e)) == CivilTime(19876, 3)
  {
    InvitationExpiryIsClose(e, 19875);
    InvitationExpiryAsWrittenIsLate(e, 19875);
    ManilaCivilOfInstant(19876, 3, InvitationExpiryAsWritten(e));
  }

  // ---- Opening step ----

  /** `findMany({where: {electionId, status: "ADDED"}})`, in table order. */
  function AddedVoters(vs: seq<InvitedVoter>, electionId: Id): (r: seq<InvitedVoter>)
    ensures |r| <= |vs|
    ensures forall v :: v in r <==> v in vs && v.electionId == electionId && v.status == Added
    decreases |vs|
  {
    if vs == [] then []
    else if vs[0].electionId == electionId && vs[0].status == Added then [vs[0]] + AddedVoters(vs[1..], electionId)
    else AddedVoters(vs[1..], electionId)
  }

  /** `invitedVoter.update({where: {id}, data: {status: "INVITED"}})` for every id in `ids`:
      status is the only field written. */
  function MarkInvited(vs: seq<InvitedVoter>, ids: set<Id>): (r: seq<InvitedVoter>)
    ensures |r| == |vs|
    ensures forall k :: 0 <= k < |vs| ==> r[k] == if vs[k].id in ids then vs[k].(status := Invited) else vs[k]
  {
    seq(|vs|, k requires 0 <= k < |vs| => if vs[k].id in ids then vs[k].(status := Invited) else vs[k])
  }

  /** `election.update({where: {id}, data: {publicity: "VOTER"}})` for every id in `ids`. */
  function PublishToVoters(es: seq<Election>, ids: set<Id>): (r: seq<Election>)
    ensures |r| == |es|
    ensures forall k :: 0 <= k < |es| ==> r[k] == if es[k].id in ids then es[k].(publicity := Voter) else es[k]
  {
    seq(|es|, k requires 0 <= k < |es| => if es[k].id in ids then es[k].(publicity := Voter) else es[k])
  }

  /** The id of the `n`-th token the tick mints (a stand-in for the database's cuid). */
  function NewTokenId(n: nat): Id {
    "c" + Decimal(n)
  }

  function InvitationSubject(e: Election): string {
    "You have been invited to vote in " + e.name
  }

  function InvitationToken(e: Election, v: InvitedVoter, n: nat): VerificationToken {
    VerificationToken(NewTokenId(n), ElectionInvitation, InvitationExpiryAsWritten(e), OwnedByVoter(v.id))
  }

  function InvitationMail(e: Election, v: InvitedVoter, n: nat): Invitation {
    Invitation(v.email, InvitationSubject(e), NewTokenId(n), e.name, InvitationExpiryAsWritten(e))
  }

  /** One pass of the voter loop: create the token, hand the e-mail to the transport (which
      throws for an undeliverable address), then mark the voter INVITED. */
  function InviteVoter(t: Tables, e: Election, v: InvitedVoter, undeliverable: set<string>): (Tables, Outcome) {
    var n := t.tokenCounter;
    var t1 := t.(tokens := t.tokens + [InvitationToken(e, v, n)], tokenCounter := n + 1);
    if v.email in undeliverable then (t1, SendFailed(v.id))
    else (t1.(outbox := t1.outbox + [InvitationMail(e, v, n)], voters := MarkInvited(t1.voters, {v.id})), Completed)
  }

  /** The voter loop over `vs`, stopping at the first exception. */
  function InviteVoters(t: Tables, e: Election, vs: seq<InvitedVoter>, undeliverable: set<string>): (Tables, Outcome)
    decreases |vs|
  {
    if vs == [] then (t, Completed)
    else
      var (t1, o) := InviteVoters(t, e, vs[..|vs| - 1], undeliverable);
      if o != Completed then (t1, o) else InviteVoter(t1, e, vs[|vs| - 1], undeliverable)
  }

  /** Opening one election: invite its ADDED voters, then set its publicity to VOTER. */
  function OpenElection(t: Tables, e: Election, undeliverable: set<string>): (Tables, Outcome) {
    var (t1, o) := InviteVoters(t, e, AddedVoters(t.voters, e.id), undeliverable);
    if o != Completed then (t1, o) else (t1.(elections := PublishToVoters(t1.elections, {e.id})), Completed)
  }

  /** The election loop of the opening step, stopping at the first exception. */
  function OpenElections(t: Tables, es: seq<Election>, undeliverable: set<string>): (Tables, Outcome)
    decreases |es|
  {
    if es == [] then (t, Completed)
    else
      var (t1, o) := OpenElections(t, es[..|es| - 1], undeliverable);
      if o != Completed then (t1, o) else OpenElection(t1, es[|es| - 1], undeliverable)
  }

  // ---- Closing step ----

  /** `${ms} - ${election name} (Result) (${date}).pdf` */
  function ResultFileName(s: Stamp, electionName: string): string {
    Decimal(s.ms) + " - " + electionName + " (Result) (" + s.dateText + ").pdf"
  }

  /** `elections/${id}/results/${name}` */
  function ResultPath(electionId: Id, fileName: string): string {
    "elections/" + electionId + "/results/" + fileName
  }

  /** Two elections never share a result path for the same file name, so one election's
      upload is never refused because of another's file. */
  lemma ResultPathsDiffer(id1: Id, id2: Id, fileName: string)
    requires id1 != id2
    ensures ResultPath(id1, fileName) != ResultPath(id2, fileName)
  {
    var p1 := ResultPath(id1, fileName);
    var p2 := ResultPath(id2, fileName);
    if |id1| != |id2| {
      assert |p1| != |p2|;
    } else {
      assert p1[10..10 + |id1|] == id1;
      assert p2[10..10 + |id2|] == id2;
    }
  }

  /** The public URL the storage bucket hands out for a path (relative to the project URL). */
  function PublicUrl(path: string): string {
    "/storage/v1/object/public/eboto-mo/" + path
  }

  function ResultRecord(e: Election, s: Stamp): GeneratedElectionResult {
    var name := ResultFileName(s, e.name);
    GeneratedElectionResult(name, PublicUrl(ResultPath(e.id, name)), e.id, s.ms)
  }

  /** Closing one election: build the tally, render and upload it (the render throws for the
      elections in `throwing`; an upload onto an existing path is refused without an exception
      and leaves the stored file), then append the result record. */
  function CloseElection(t: Tables, e: Election, s: Stamp, throwing: set<Id>): (Tables, Outcome) {
    if e.id in throwing then (t, UploadFailed(e.id))
    else
      var path := ResultPath(e.id, ResultFileName(s, e.name));
      var doc := BuildResult(e, t.positions, t.candidates, t.votes);
      var bucket := if path in t.bucket then t.bucket else t.bucket[path := doc];
      (t.(bucket := bucket, results := t.results + [ResultRecord(e, s)]), Completed)
  }

  /** The election loop of the closing step; the `i`-th election is named with clock reading `i`. */
  function CloseElections(t: Tables, es: seq<Election>, clock: nat -> Stamp, throwing: set<Id>): (Tables, Outcome)
    decreases |es|
  {
    if es == [] then (t, Completed)
    else
      var (t1, o) := CloseElections(t, es[..|es| - 1], clock, throwing);
      if o != Completed then (t1, o) else CloseElection(t1, es[|es| - 1], clock(|es| - 1), throwing)
  }

  /** One tick: all opening work, then (if nothing threw) all closing work. */
  function Tick(t: Tables, now: int, undeliverable: set<string>, clock: nat -> Stamp, throwing: set<Id>): (Tables, Outcome) {
    var (t1, o) := OpenElections(t, OpeningElections(t.elections, now), undeliverable);
    if o != Completed then (t1, o)
    else CloseElections(t1, ClosingElections(t1.elections, now), clock, throwing)
  }

  // ---- The handler ----

  /** One pass of the voter loop: mint the token, hand the e-mail to the transport, mark the
      voter INVITED. */
  method InviteOne(db: Database, e: Election, voter: InvitedVoter, undeliverable: set<string>) returns (outcome: Outcome)
    modifies db
    ensures (db.Snapshot(), outcome) == InviteVoter(old(db.Snapshot()), e, voter, undeliverable)
  {
    var expiresAt := InvitationExpiryAsWritten(e);
    var token := VerificationToken(NewTokenId(db.tokenCounter), ElectionInvitation, expiresAt, OwnedByVoter(voter.id));
    db.tokens := db.tokens + [token];
    db.tokenCounter := db.tokenCounter + 1;
    if voter.email in undeliverable {
      return SendFailed(voter.id);
    }
    db.outbox := db.outbox + [Invitation(voter.email, InvitationSubject(e), token.id, e.name, expiresAt)];
    db.voters := MarkInvited(db.voters, {voter.id});
    outcome := Completed;
  }

  /** The voter loop and the publicity update for one opening election. */
  method OpenOne(db: Database, e: Election, undeliverable: set<string>) returns (outcome: Outcome)
    modifies db
    ensures (db.Snapshot(), outcome) == OpenElection(old(db.Snapshot()), e, undeliverable)
  {
    ghost var te := db.Snapshot();
    var invitedVoters := AddedVoters(db.voters, e.id);
    var j := 0;
    while j < |invitedVoters|
      invariant 0 <= j <= |invitedVoters|
      invariant InviteVoters(te, e, invitedVoters[..j], undeliverable) == (db.Snapshot(), Completed)
    {
      InviteVotersNext(te, e, invitedVoters, j, undeliverable);
      outcome := InviteOne(db, e, invitedVoters[j], undeliverable);
      if outcome != Completed {
        InviteVotersStops(te, e, invitedVoters, j + 1, undeliverable);
        return;
      }
      j := j + 1;
    }
    assert invitedVoters[..j] == invitedVoters;
    db.elections := PublishToVoters(db.elections, {e.id});
    outcome := Completed;
  }

  /** Rendering, uploading and recording the result of one closing election. */
  method CloseOne(db: Database, e: Election, stamp: Stamp, throwing: set<Id>) returns (outcome: Outcome)
    modifies db
    ensures (db.Snapshot(), outcome) == CloseElection(old(db.Snapshot()), e, stamp, throwing)
  {
    if e.id in throwing {
      return UploadFailed(e.id);
    }
    var result := BuildResult(e, db.positions, db.candidates, db.votes);
    var name := ResultFileName(stamp, e.name);
    var path := ResultPath(e.id, name);
    if path !in db.bucket {
      db.bucket := db.bucket[path := result];
    }
    db.results := db.results + [GeneratedElectionResult(name, PublicUrl(path), e.id, stamp.ms)];
    outcome := Completed;
  }

  /** The handler. `now` is the instant of the request; `undeliverable` the addresses for which
      the mail transport throws; `clock(i)` the reading of `new Date()` when the `i`-th closing
      election's file is named; `throwing` the elections whose result render throws. */
  method ProcessTick(db: Database, now: int, undeliverable: set<string>, clock: nat -> Stamp, throwing: set<Id>)
    returns (outcome: Outcome)
    modifies db
    ensures (db.Snapshot(), outcome) == Tick(old(db.Snapshot()), now, undeliverable, clock, throwing)
  {
    ghost var t0 := db.Snapshot();
    var opening := OpeningElections(db.elections, now);
    var i := 0;
    while i < |opening|
      invariant 0 <= i <= |opening|
      invariant OpenElections(t0, opening[..i], undeliverable) == (db.Snapshot(), Completed)
    {
      OpenElectionsNext(t0, opening, i, undeliverable);
      outcome := OpenOne(db, opening[i], undeliverable);
      if outcome != Completed {
        OpenElectionsStops(t0, opening, i + 1, undeliverable);
        return;
      }
      i := i + 1;
    }
    assert opening[..i] == opening;
    ghost var t1 := db.Snapshot();
    var closing := ClosingElections(db.elections, now);
    var k := 0;
    while k < |closing|
      invariant 0 <= k <= |closing|
      invariant CloseElections(t1, closing[..k], clock, throwing) == (db.Snapshot(), Completed)
    {
      CloseElectionsNext(t1, closing, clock, k, throwing);
      outcome := CloseOne(db, closing[k], clock(k), throwing);
      if outcome != Completed {
        CloseElectionsStops(t1, closing, clock, k + 1, throwing);
        return;
      }
      k := k + 1;
    }
    assert closing[..k] == closing;
    outcome := Completed;
  }

  // ---- Unfolding the loops one pass at a time ----

  lemma InviteVotersNext(t: Tables, e: Election, vs: seq<InvitedVoter>, j: nat, undeliverable: set<string>)
    requires j < |vs| && InviteVoters(t, e, vs[..j], undeliverable).1 == Completed
    ensures InviteVoters(t, e, vs[..j + 1], undeliverable) ==
            InviteVoter(InviteVoters(t, e, vs[..j], undeliverable).0, e, vs[j], undeliverable)
  {
    assert vs[..j + 1][..j] == vs[..j];
  }

  lemma OpenElectionsNext(t: Tables, es: seq<Election>, i: nat, undeliverable: set<string>)
    requires i < |es| && OpenElections(t, es[..i], undeliverable).1 == Completed
    ensures OpenElections(t, es[..i + 1], undeliverable) ==
            OpenElection(OpenElections(t, es[..i], undeliverable).0, es[i], undeliverable)
  {
    assert es[..i + 1][..i] == es[..i];
  }

  lemma CloseElectionsNext(t: Tables, es: seq<Election>, clock: nat -> Stamp, i: nat, throwing: set<Id>)
    requires i < |es| && CloseElections(t, es[..i], clock, throwing).1 == Completed
    ensures CloseElections(t, es[..i + 1], clock, throwing) ==
            CloseElection(CloseElections(t, es[..i], clock, throwing).0, es[i], clock(i), throwing)
  {
    assert es[..i + 1][..i] == es[..i];
  }

  // ---- An exception ends the loops ----

  lemma {:induction false} InviteVotersStops(t: Tables, e: Election, vs: seq<InvitedVoter>, k: nat, undeliverable: set<string>)
    requires k <= |vs| && InviteVoters(t, e, vs[..k], undeliverable).1 != Completed
    ensures InviteVoters(t, e, vs, undeliverable) == InviteVoters(t, e, vs[..k], undeliverable)
    decreases |vs| - k
  {
    if k < |vs| {
      assert vs[..k + 1][..k] == vs[..k];
      InviteVotersStops(t, e, vs, k + 1, undeliverable);
    } else {
      assert vs[..k] == vs;
    }
  }

  lemma {:induction false} OpenElectionsStops(t: Tables, es: seq<Election>, k: nat, undeliverable: set<string>)
    requires k <= |es| && OpenElections(t, es[..k], undeliverable).1 != Completed
    ensures OpenElections(t, es, undeliverable) == OpenElections(t, es[..k], undeliverable)
    decreases |es| - k
  {
    if k < |es| {
      assert es[..k + 1][..k] == es[..k];
      OpenElectionsStops(t, es, k + 1, undeliverable);
    } else {
      assert es[..k] == es;
    }
  }

  lemma {:induction false} CloseElectionsStops(t: Tables, es: seq<Election>, clock: nat -> Stamp, k: nat, throwing: set<Id>)
    requires k <= |es| && CloseElections(t, es[..k], clock, throwing).1 != Completed
    ensures CloseElections(t, es, clock, throwing) == CloseElections(t, es[..k], clock, throwing)
    decreases |es| - k
  {
    if k < |es| {
      assert es[..k + 1][..k] == es[..k];
      CloseElectionsStops(t, es, clock, k + 1, throwing);
    } else {
      assert es[..k] == es;
    }
  }

  // ---- The voter loop in closed form ----

  /** Index of the first voter whose address the transport refuses, or `|vs|` when none is. */
  function FirstUndeliverable(vs: seq<InvitedVoter>, undeliverable: set<string>): (m: nat)
    ensures m <= |vs|
    ensures forall k :: 0 <= k < m ==> vs[k].email !in undeliverable
    ensures m < |vs| ==> vs[m].email in undeliverable
    decreases |vs|
  {
    if vs == [] then 0
    else
      var m := FirstUndeliverable(vs[..|vs| - 1], undeliverable);
      if m < |vs| - 1 || vs[|vs| - 1].email in undeliverable then m else |vs|
  }

  /** The tokens the voter loop mints for `vs`, numbered from `n`. */
  function TokensFor(e: Election, vs: seq<InvitedVoter>, n: nat): (r: seq<VerificationToken>)
    ensures |r| == |vs|
    ensures forall k :: 0 <= k < |vs| ==> r[k] == InvitationToken(e, vs[k], n + k)
  {
    seq(|vs|, k requires 0 <= k < |vs| => InvitationToken(e, vs[k], n + k))
  }

  /** The e-mails the voter loop hands to the transport for `vs`, numbered from `n`. */
  function MailsFor(e: Election, vs: seq<InvitedVoter>, n: nat): (r: seq<Invitation>)
    ensures |r| == |vs|
    ensures forall k :: 0 <= k < |vs| ==> r[k] == InvitationMail(e, vs[k], n + k)
  {
    seq(|vs|, k requires 0 <= k < |vs| => InvitationMail(e, vs[k], n + k))
  }

  function IdsOf(vs: seq<InvitedVoter>): set<Id> {
    set v | v in vs :: v.id
  }

  lemma MarkInvitedTwice(vs: seq<InvitedVoter>, a: set<Id>, b: set<Id>)
    ensures MarkInvited(MarkInvited(vs, a), b) == MarkInvited(vs, a + b)
  {
  }

  lemma PublishToVotersTwice(es: seq<Election>, a: set<Id>, b: set<Id>)
    ensures PublishToVoters(PublishToVoters(es, a), b) == PublishToVoters(es, a + b)
  {
  }

  /** The voter loop in closed form: it mints one token for every voter up to and including
      the first undeliverable one, mails and marks INVITED every voter before that one, and
      ends there with the exception; with every address deliverable it mails and marks all. */
  function InviteAll(t: Tables, e: Election, vs: seq<InvitedVoter>, undeliverable: set<string>): (Tables, Outcome) {
    var m := FirstUndeliverable(vs, undeliverable);
    var minted := if m < |vs| then m + 1 else m;
    (t.(tokens := t.tokens + TokensFor(e, vs[..minted], t.tokenCounter),
        tokenCounter := t.tokenCounter + minted,
        outbox := t.outbox + MailsFor(e, vs[..m], t.tokenCounter),
        voters := MarkInvited(t.voters, IdsOf(vs[..m]))),
     if m < |vs| then SendFailed(vs[m].id) else Completed)
  }

  /** Once the closed form has stopped on a prefix, a further voter changes nothing. */
  lemma InviteAllStopped(t: Tables, e: Election, vs: seq<InvitedVoter>, undeliverable: set<string>)
    requires vs != [] && FirstUndeliverable(vs[..|vs| - 1], undeliverable) < |vs| - 1
    ensures InviteAll(t, e, vs, undeliverable) == InviteAll(t, e, vs[..|vs| - 1], undeliverable)
  {
    var init := vs[..|vs| - 1];
    var m := FirstUndeliverable(init, undeliverable);
    assert vs[..m] == init[..m];
    assert vs[..m + 1] == init[..m + 1];
  }

  /** The tokens minted for a prefix and one more voter. */
  lemma TokensForSnoc(e: Election, vs: seq<InvitedVoter>, n: nat)
    requires vs != []
    ensures TokensFor(e, vs, n) == TokensFor(e, vs[..|vs| - 1], n) + [InvitationToken(e, vs[|vs| - 1], n + |vs| - 1)]
  {
  }

  /** When the closed form completed on a prefix and the next address is refused, the pass
      mints the token and stops. */
  lemma InviteAllStepRefused(t: Tables, e: Election, vs: seq<InvitedVoter>, undeliverable: set<string>)
    requires vs != [] && FirstUndeliverable(vs[..|vs| - 1], undeliverable) == |vs| - 1
    requires vs[|vs| - 1].email in undeliverable
    ensures InviteAll(t, e, vs, undeliverable) ==
            InviteVoter(InviteAll(t, e, vs[..|vs| - 1], undeliverable).0, e, vs[|vs| - 1], undeliverable)
  {
    var init := vs[..|vs| - 1];
    var last := vs[|vs| - 1];
    var n := t.tokenCounter + |init|;
    assert FirstUndeliverable(vs, undeliverable) == |init|;
    assert init[..|init|] == init;
    assert vs[..|init| + 1] == vs;
    assert vs[..|init|] == init;
    TokensForSnoc(e, vs, t.tokenCounter);
    var t1 := t.(tokens := t.tokens + TokensFor(e, init, t.tokenCounter), tokenCounter := n,
                 outbox := t.outbox + MailsFor(e, init, t.tokenCounter),
                 voters := MarkInvited(t.voters, IdsOf(init)));
    assert InviteAll(t, e, init, undeliverable) == (t1, Completed);
    assert InviteVoter(t1, e, last, undeliverable) ==
      (t1.(tokens := t1.tokens + [InvitationToken(e, last, n)], tokenCounter := n + 1), SendFailed(last.id));
    assert t1.tokens + [InvitationToken(e, last, n)] == t.tokens + TokensFor(e, vs, t.tokenCounter);
  }

  /** With every address deliverable the closed form mails and marks every voter. */
  lemma InviteAllDelivered(t: Tables, e: Election, vs: seq<InvitedVoter>, undeliverable: set<string>)
    requires FirstUndeliverable(vs, undeliverable) == |vs|
    ensures InviteAll(t, e, vs, undeliverable) ==
      (t.(tokens := t.tokens + TokensFor(e, vs, t.tokenCounter), tokenCounter := t.tokenCounter + |vs|,
          outbox := t.outbox + MailsFor(e, vs, t.tokenCounter), voters := MarkInvited(t.voters, IdsOf(vs))),
       Completed)
  {
    assert vs[..|vs|] == vs;
  }

  /** The e-mails and ids of a prefix and one more voter. */
  lemma MailsForSnoc(e: Election, vs: seq<InvitedVoter>, n: nat)
    requires vs != []
    ensures MailsFor(e, vs, n) == MailsFor(e, vs[..|vs| - 1], n) + [InvitationMail(e, vs[|vs| - 1], n + |vs| - 1)]
    ensures IdsOf(vs) == IdsOf(vs[..|vs| - 1]) + {vs[|vs| - 1].id}
  {
    assert vs == vs[..|vs| - 1] + [vs[|vs| - 1]];
  }

  /** When the closed form completed on a prefix and the next address is accepted, the pass
      mints, mails and marks the voter. */
  lemma InviteAllStepDelivered(t: Tables, e: Election, vs: seq<InvitedVoter>, undeliverable: set<string>)
    requires vs != [] && FirstUndeliverable(vs[..|vs| - 1], undeliverable) == |vs| - 1
    requires vs[|vs| - 1].email !in undeliverable
    ensures InviteAll(t, e, vs, undeliverable) ==
            InviteVoter(InviteAll(t, e, vs[..|vs| - 1], undeliverable).0, e, vs[|vs| - 1], undeliverable)
  {
    var init := vs[..|vs| - 1];
    var last := vs[|vs| - 1];
    var n := t.tokenCounter + |init|;
    InviteAllDelivered(t, e, init, undeliverable);
    InviteAllDelivered(t, e, vs, undeliverable);
    var t1 := InviteAll(t, e, init, undeliverable).0;
    var tv := InviteAll(t, e, vs, undeliverable).0;
    var t3 := InviteVoter(t1, e, last, undeliverable).0;
    assert t3.tokens == tv.tokens by {
      TokensForSnoc(e, vs, t.tokenCounter);
    }
    assert t3.outbox == tv.outbox by {
      MailsForSnoc(e, vs, t.tokenCounter);
    }
    assert t3.voters == tv.voters by {
      MailsForSnoc(e, vs, t.tokenCounter);
      MarkInvitedTwice(t.voters, IdsOf(init), {last.id});
    }
  }

  /** The voter loop is its closed form. */
  lemma {:induction false} InviteVotersClosedForm(t: Tables, e: Election, vs: seq<InvitedVoter>, undeliverable: set<string>)
    ensures InviteVoters(t, e, vs, undeliverable) == InviteAll(t, e, vs, undeliverable)
    decreases |vs|
  {
    if vs == [] {
      assert IdsOf(vs) == {};
      assert MarkInvited(t.voters, {}) == t.voters;
      assert t.tokens + TokensFor(e, vs, t.tokenCounter) == t.tokens;
      assert t.outbox + MailsFor(e, vs, t.tokenCounter) == t.outbox;
    } else {
      var init := vs[..|vs| - 1];
      InviteVotersClosedForm(t, e, init, undeliverable);
      if FirstUndeliverable(init, undeliverable) < |init| {
        InviteAllStopped(t, e, vs, undeliverable);
      } else if vs[|vs| - 1].email in undeliverable {
        InviteAllStepRefused(t, e, vs, undeliverable);
      } else {
        InviteAllStepDelivered(t, e, vs, undeliverable);
      }
    }
  }

  // ---- What the opening step does ----

  /** The ids of the voters ADDED to one of the elections `electionIds`. */
  function AddedIn(vs: seq<InvitedVoter>, electionIds: set<Id>): set<Id> {
    set v | v in vs && v.status == Added && v.electionId in electionIds :: v.id
  }

  function ElectionIds(es: seq<Election>): set<Id> {
    set e | e in es :: e.id
  }

  /** `tok` is an invitation to one of the ADDED voters of `e`, with the expiry the handler
      computes for `e`. */
  predicate InvitesFor(tok: VerificationToken, vs: seq<InvitedVoter>, e: Election) {
    tok.tokenType == ElectionInvitation && tok.expiresAt == InvitationExpiryAsWritten(e) &&
    tok.owner.OwnedByVoter? && tok.owner.voterId in AddedIn(vs, {e.id})
  }

  /** Marking voters INVITED removes exactly their ids from the ADDED ones. */
  lemma AddedInAfterMark(vs: seq<InvitedVoter>, marked: set<Id>, electionIds: set<Id>)
    ensures AddedIn(MarkInvited(vs, marked), electionIds) == AddedIn(vs, electionIds) - marked
  {
    var r := MarkInvited(vs, marked);
    forall x | x in AddedIn(r, electionIds)
      ensures x in AddedIn(vs, electionIds) - marked
    {
      var v :| v in r && v.status == Added && v.electionId in electionIds && v.id == x;
      var k :| 0 <= k < |r| && r[k] == v;
      assert vs[k] == v;
    }
    forall x | x in AddedIn(vs, electionIds) - marked
      ensures x in AddedIn(r, electionIds)
    {
      var v :| v in vs && v.status == Added && v.electionId in electionIds && v.id == x;
      var k :| 0 <= k < |vs| && vs[k] == v;
      assert r[k] == v;
    }
  }

  lemma AddedInUnion(vs: seq<InvitedVoter>, a: set<Id>, b: set<Id>)
    ensures AddedIn(vs, a + b) == AddedIn(vs, a) + AddedIn(vs, b)
  {
  }

  /** Every token minted for ADDED voters of `e` invites one of them until `e` closes. */
  lemma TokensForInvite(e: Election, ws: seq<InvitedVoter>, n: nat, vs: seq<InvitedVoter>)
    requires forall w :: w in ws ==> w.id in AddedIn(vs, {e.id})
    ensures forall k :: 0 <= k < |ws| ==> InvitesFor(TokensFor(e, ws, n)[k], vs, e)
  {
    forall k | 0 <= k < |ws|
      ensures InvitesFor(TokensFor(e, ws, n)[k], vs, e)
    {
      assert ws[k] in ws;
    }
  }

  /** Opening one election: its ADDED voters (all of them, or those before the refused
      address) are marked INVITED, the publicity becomes VOTER only when every voter was
      mailed, and no table other than the voters, the elections, the tokens and the outbox
      changes. */
  lemma OpenElectionEffect(t: Tables, e: Election, undeliverable: set<string>) returns (marked: set<Id>)
    ensures !OpenElection(t, e, undeliverable).1.UploadFailed?
    ensures marked <= AddedIn(t.voters, {e.id})
    ensures var t' := OpenElection(t, e, undeliverable).0;
      t' == t.(voters := MarkInvited(t.voters, marked),
               elections := if OpenElection(t, e, undeliverable).1 == Completed
                            then PublishToVoters(t.elections, {e.id}) else t.elections,
               tokens := t'.tokens, tokenCounter := t'.tokenCounter, outbox := t'.outbox)
    ensures OpenElection(t, e, undeliverable).1 == Completed ==> marked == AddedIn(t.voters, {e.id})
  {
    var vs := AddedVoters(t.voters, e.id);
    InviteVotersClosedForm(t, e, vs, undeliverable);
    var m := FirstUndeliverable(vs, undeliverable);
    marked := IdsOf(vs[..m]);
    assert IdsOf(vs) == AddedIn(t.voters, {e.id});
    if m == |vs| {
      assert vs[..m] == vs;
    }
  }

  /** Opening one election only appends tokens and e-mails, and every token it mints invites
      one of the election's ADDED voters until the election closes. */
  lemma OpenElectionTokens(t: Tables, e: Election, undeliverable: set<string>)
    ensures var t' := OpenElection(t, e, undeliverable).0;
      t.tokens <= t'.tokens && t.outbox <= t'.outbox &&
      forall k :: |t.tokens| <= k < |t'.tokens| ==> InvitesFor(t'.tokens[k], t.voters, e)
  {
    var vs := AddedVoters(t.voters, e.id);
    InviteVotersClosedForm(t, e, vs, undeliverable);
    var m := FirstUndeliverable(vs, undeliverable);
    var ws := vs[..if m < |vs| then m + 1 else m];
    forall w | w in ws
      ensures w.id in AddedIn(t.voters, {e.id})
    {
      assert w in vs;
    }
    TokensForInvite(e, ws, t.tokenCounter, t.voters);
    var tokens := TokensFor(e, ws, t.tokenCounter);
    var t1 := InviteAll(t, e, vs, undeliverable).0;
    assert t1.tokens == t.tokens + tokens;
    assert t.outbox <= t1.outbox;
    assert OpenElection(t, e, undeliverable).0.tokens == t1.tokens;
    assert OpenElection(t, e, undeliverable).0.outbox == t1.outbox;
    AppendedInvitations(t.tokens, tokens, t.voters, e);
  }

  /** Tokens appended to a table, each inviting a voter of `e`, are the new entries of the table. */
  lemma AppendedInvitations(before: seq<VerificationToken>, added: seq<VerificationToken>,
                            vs: seq<InvitedVoter>, e: Election)
    requires forall k :: 0 <= k < |added| ==> InvitesFor(added[k], vs, e)
    ensures before <= before + added
    ensures forall k :: |before| <= k < |before + added| ==> InvitesFor((before + added)[k], vs, e)
  {
    forall k | |before| <= k < |before + added|
      ensures InvitesFor((before + added)[k], vs, e)
    {
      assert (before + added)[k] == added[k - |before|];
    }
  }

  /** The opening phase: the voters marked INVITED are ADDED voters of the opening elections
      (all of them when the phase completes), the elections switched to VOTER are opening
      elections (all of them when the phase completes), and no other table changes but the
      tokens and the outbox. */
  lemma {:induction false} OpenElectionsEffect(t: Tables, es: seq<Election>, undeliverable: set<string>)
    returns (marked: set<Id>, published: set<Id>)
    ensures !OpenElections(t, es, undeliverable).1.UploadFailed?
    ensures marked <= AddedIn(t.voters, ElectionIds(es)) && published <= ElectionIds(es)
    ensures var t' := OpenElections(t, es, undeliverable).0;
      t' == t.(voters := MarkInvited(t.voters, marked), elections := PublishToVoters(t.elections, published),
               tokens := t'.tokens, tokenCounter := t'.tokenCounter, outbox := t'.outbox)
    ensures OpenElections(t, es, undeliverable).1 == Completed ==>
      marked == AddedIn(t.voters, ElectionIds(es)) && published == ElectionIds(es)
    decreases |es|
  {
    if es == [] {
      marked, published := {}, {};
      assert MarkInvited(t.voters, {}) == t.voters;
      assert PublishToVoters(t.elections, {}) == t.elections;
      assert AddedIn(t.voters, {}) == {};
    } else {
      var init := es[..|es| - 1];
      var last := es[|es| - 1];
      var marked0, published0 := OpenElectionsEffect(t, init, undeliverable);
      assert es == init + [last];
      assert ElectionIds(es) == ElectionIds(init) + {last.id};
      AddedInUnion(t.voters, ElectionIds(init), {last.id});
      if OpenElections(t, init, undeliverable).1 != Completed {
        marked, published := marked0, published0;
      } else {
        var t1 := OpenElections(t, init, undeliverable).0;
        var marked1 := OpenElectionEffect(t1, last, undeliverable);
        AddedInAfterMark(t.voters, marked0, {last.id});
        MarkInvitedTwice(t.voters, marked0, marked1);
        marked := marked0 + marked1;
        if OpenElection(t1, last, undeliverable).1 == Completed {
          PublishToVotersTwice(t.elections, published0, {last.id});
          published := published0 + {last.id};
        } else {
          published := published0;
        }
      }
    }
  }

  /** The opening phase only appends tokens and e-mails, and every token it mints invites an
      ADDED voter of one of the opening elections until that election closes. */
  lemma {:induction false} OpenElectionsTokens(t: Tables, es: seq<Election>, undeliverable: set<string>)
    ensures var t' := OpenElections(t, es, undeliverable).0;
      t.tokens <= t'.tokens && t.outbox <= t'.outbox &&
      forall k :: |t.tokens| <= k < |t'.tokens| ==> exists e :: e in es && InvitesFor(t'.tokens[k], t.voters, e)
    decreases |es|
  {
    if es != [] {
      var init := es[..|es| - 1];
      var last := es[|es| - 1];
      OpenElectionsTokens(t, init, undeliverable);
      assert forall e :: e in init ==> e in es;
      if OpenElections(t, init, undeliverable).1 == Completed {
        var t1 := OpenElections(t, init, undeliverable).0;
        var t2 := OpenElection(t1, last, undeliverable).0;
        var marked0, published0 := OpenElectionsEffect(t, init, undeliverable);
        OpenElectionTokens(t1, last, undeliverable);
        AddedInAfterMark(t.voters, marked0, {last.id});
        forall k | |t.tokens| <= k < |t2.tokens|
          ensures exists e :: e in es && InvitesFor(t2.tokens[k], t.voters, e)
        {
          if k < |t1.tokens| {
            assert t2.tokens[k] == t1.tokens[k];
          } else {
            assert InvitesFor(t2.tokens[k], t1.voters, last);
            assert InvitesFor(t2.tokens[k], t.voters, last);
          }
        }
      }
    }
  }

  // ---- What the closing step does ----

  /** Index of the first election whose result render throws, or `|es|` when none does. */
  function FirstThrowing(es: seq<Election>, throwing: set<Id>): (m: nat)
    ensures m <= |es|
    ensures forall k :: 0 <= k < m ==> es[k].id !in throwing
    ensures m < |es| ==> es[m].id in throwing
    decreases |es|
  {
    if es == [] then 0
    else
      var m := FirstThrowing(es[..|es| - 1], throwing);
      if m < |es| - 1 || es[|es| - 1].id in throwing then m else |es|
  }

  /** The result records the closing loop appends for `es`, the `i`-th named with reading `i`. */
  function RecordsFor(es: seq<Election>, clock: nat -> Stamp): (r: seq<GeneratedElectionResult>)
    ensures |r| == |es|
    ensures forall i :: 0 <= i < |es| ==> r[i] == ResultRecord(es[i], clock(i))
  {
    seq(|es|, i requires 0 <= i < |es| => ResultRecord(es[i], clock(i)))
  }

  /** Where the result of `e` named with reading `s` is uploaded. */
  function ResultPathOf(e: Election, s: Stamp): string {
    ResultPath(e.id, ResultFileName(s, e.name))
  }

  /** The closing loop ends with the exception of the first election whose render throws. */
  lemma {:induction false} CloseElectionsOutcome(t: Tables, es: seq<Election>, clock: nat -> Stamp, throwing: set<Id>)
    ensures var m := FirstThrowing(es, throwing);
      CloseElections(t, es, clock, throwing).1 == (if m < |es| then UploadFailed(es[m].id) else Completed)
    decreases |es|
  {
    if es != [] {
      CloseElectionsOutcome(t, es[..|es| - 1], clock, throwing);
    }
  }

  /** The closing loop: it appends one record per closing election, in order, up to the first
      election whose render throws, and ends there with the exception; no table but the
      results and the bucket changes. */
  lemma {:induction false} CloseElectionsRecords(t: Tables, es: seq<Election>, clock: nat -> Stamp, throwing: set<Id>)
    ensures var m := FirstThrowing(es, throwing);
      CloseElections(t, es, clock, throwing).1 == (if m < |es| then UploadFailed(es[m].id) else Completed)
    ensures var t' := CloseElections(t, es, clock, throwing).0;
      t' == t.(results := t.results + RecordsFor(es[..FirstThrowing(es, throwing)], clock), bucket := t'.bucket)
    decreases |es|
  {
    CloseElectionsOutcome(t, es, clock, throwing);
    if es == [] {
      assert t.results + RecordsFor(es, clock) == t.results;
    } else {
      var init := es[..|es| - 1];
      var last := es[|es| - 1];
      CloseElectionsRecords(t, init, clock, throwing);
      var m0 := FirstThrowing(init, throwing);
      var t1 := CloseElections(t, init, clock, throwing).0;
      if m0 < |init| {
        assert es[..m0] == init[..m0];
      } else if last.id in throwing {
        assert init[..m0] == init && es[..m0] == init;
      } else {
        assert init[..m0] == init && es[..|es|] == es;
        RecordsForSnoc(es, clock);
        CloseElectionAppends(t, t1, last, clock(|init|), throwing, RecordsFor(init, clock));
      }
    }
  }

  /** The records of a prefix and one more election. */
  lemma RecordsForSnoc(es: seq<Election>, clock: nat -> Stamp)
    requires es != []
    ensures RecordsFor(es, clock) == RecordsFor(es[..|es| - 1], clock) + [ResultRecord(es[|es| - 1], clock(|es| - 1))]
  {
  }

  /** A closing pass that does not throw appends the election's record to those before it. */
  lemma CloseElectionAppends(t: Tables, t1: Tables, e: Election, s: Stamp, throwing: set<Id>,
                             records: seq<GeneratedElectionResult>)
    requires t1 == t.(results := t.results + records, bucket := t1.bucket) && e.id !in throwing
    ensures var t2 := CloseElection(t1, e, s, throwing).0;
      t2 == t.(results := t.results + (records + [ResultRecord(e, s)]), bucket := t2.bucket)
  {
    assert t.results + records + [ResultRecord(e, s)] == t.results + (records + [ResultRecord(e, s)]);
  }

  /** One closing pass keeps every stored file, stores the election's path when its render
      does not throw, and adds at most that path, holding the election's tally. */
  lemma CloseElectionBucket(t: Tables, e: Election, s: Stamp, throwing: set<Id>)
    ensures var b := CloseElection(t, e, s, throwing).0.bucket;
      (forall p :: p in t.bucket ==> p in b && b[p] == t.bucket[p]) &&
      (e.id !in throwing ==> ResultPathOf(e, s) in b) &&
      (forall p :: p in b && p !in t.bucket ==>
         p == ResultPathOf(e, s) && b[p] == BuildResult(e, t.positions, t.candidates, t.votes))
  {
  }

  /** The closing loop never replaces or removes a stored file. */
  lemma {:induction false} CloseElectionsKeepFiles(t: Tables, es: seq<Election>, clock: nat -> Stamp, throwing: set<Id>)
    ensures var b := CloseElections(t, es, clock, throwing).0.bucket;
      forall p :: p in t.bucket ==> p in b && b[p] == t.bucket[p]
    decreases |es|
  {
    if es != [] {
      var init := es[..|es| - 1];
      CloseElectionsKeepFiles(t, init, clock, throwing);
      var (t1, o) := CloseElections(t, init, clock, throwing);
      if o == Completed {
        CloseElectionBucket(t1, es[|es| - 1], clock(|es| - 1), throwing);
      }
    }
  }

  /** After the closing loop, the result path of every recorded election holds a file. */
  lemma {:induction false} CloseElectionsStoreRecorded(t: Tables, es: seq<Election>, clock: nat -> Stamp, throwing: set<Id>)
    ensures var b := CloseElections(t, es, clock, throwing).0.bucket;
      forall i :: 0 <= i < FirstThrowing(es, throwing) ==> ResultPathOf(es[i], clock(i)) in b
    decreases |es|
  {
    if es != [] {
      var init := es[..|es| - 1];
      var last := es[|es| - 1];
      CloseElectionsStoreRecorded(t, init, clock, throwing);
      CloseElectionsOutcome(t, init, clock, throwing);
      var (t1, o) := CloseElections(t, init, clock, throwing);
      var m0 := FirstThrowing(init, throwing);
      var b := CloseElections(t, es, clock, throwing).0.bucket;
      if o == Completed {
        CloseElectionBucket(t1, last, clock(|init|), throwing);
        forall i | 0 <= i < FirstThrowing(es, throwing)
          ensures ResultPathOf(es[i], clock(i)) in b
        {
          if i < |init| {
            assert es[i] == init[i];
          }
        }
      } else {
        forall i | 0 <= i < FirstThrowing(es, throwing)
          ensures ResultPathOf(es[i], clock(i)) in b
        {
          assert es[i] == init[i];
        }
      }
    }
  }

  /** Every file the closing loop adds holds the tally of a recorded election and sits at
      that election's result path. */
  lemma {:induction false} CloseElectionsAddTallies(t: Tables, es: seq<Election>, clock: nat -> Stamp, throwing: set<Id>)
    ensures var b := CloseElections(t, es, clock, throwing).0.bucket;
      forall p :: p in b && p !in t.bucket ==>
        exists i :: 0 <= i < FirstThrowing(es, throwing) && p == ResultPathOf(es[i], clock(i)) &&
                    b[p] == BuildResult(es[i], t.positions, t.candidates, t.votes)
    decreases |es|
  {
    if es != [] {
      var init := es[..|es| - 1];
      var last := es[|es| - 1];
      CloseElectionsAddTallies(t, init, clock, throwing);
      CloseElectionsRecords(t, init, clock, throwing);
      var (t1, o) := CloseElections(t, init, clock, throwing);
      var m0 := FirstThrowing(init, throwing);
      assert forall i :: 0 <= i < |init| ==> es[i] == init[i];
      if o == Completed {
        CloseElectionBucket(t1, last, clock(|init|), throwing);
        var b := CloseElections(t, es, clock, throwing).0.bucket;
        forall p | p in b && p !in t.bucket
          ensures exists i :: 0 <= i < FirstThrowing(es, throwing) && p == ResultPathOf(es[i], clock(i)) &&
                              b[p] == BuildResult(es[i], t.positions, t.candidates, t.votes)
        {
          if p !in t1.bucket {
            assert es[|init|] == last;
          }
        }
      }
    }
  }

  // ---- What a tick does ----

  predicate UniqueVoterIds(vs: seq<InvitedVoter>) {
    forall i, j :: 0 <= i < j < |vs| ==> vs[i].id != vs[j].id
  }

  /** The ids of the elections whose voting opens in the Manila hour of `now`. */
  function OpeningIds(t: Tables, now: int): set<Id> {
    ElectionIds(OpeningElections(t.elections, now))
  }

  /** The tables between the opening and the closing step of a tick. */
  function AfterOpening(t: Tables, now: int, undeliverable: set<string>): Tables {
    OpenElections(t, OpeningElections(t.elections, now), undeliverable).0
  }

  /** A tick in two halves: the opening step marks ADDED voters of opening elections and
      publishes opening elections (all of them unless an e-mail send threw); the closing step
      runs only when nothing threw and then changes only the results and the bucket. */
  lemma TickEffect(t: Tables, now: int, undeliverable: set<string>, clock: nat -> Stamp, throwing: set<Id>)
    returns (marked: set<Id>, published: set<Id>)
    ensures marked <= AddedIn(t.voters, OpeningIds(t, now)) && published <= OpeningIds(t, now)
    ensures var t' := Tick(t, now, undeliverable, clock, throwing).0;
      t'.voters == MarkInvited(t.voters, marked) && t'.elections == PublishToVoters(t.elections, published) &&
      t'.commissioners == t.commissioners && t'.users == t.users && t'.positions == t.positions &&
      t'.candidates == t.candidates && t'.votes == t.votes
    ensures var (t', o) := Tick(t, now, undeliverable, clock, throwing);
      o.SendFailed? ==> t'.results == t.results && t'.bucket == t.bucket
    ensures var (t', o) := Tick(t, now, undeliverable, clock, throwing);
      !o.SendFailed? ==>
        marked == AddedIn(t.voters, OpeningIds(t, now)) && published == OpeningIds(t, now) &&
        var closing := ClosingElections(AfterOpening(t, now, undeliverable).elections, now);
        var m := FirstThrowing(closing, throwing);
        t'.results == t.results + RecordsFor(closing[..m], clock) && (o == Completed <==> m == |closing|)
  {
    var opening := OpeningElections(t.elections, now);
    marked, published := OpenElectionsEffect(t, opening, undeliverable);
    var (t1, o1) := OpenElections(t, opening, undeliverable);
    if o1 == Completed {
      CloseElectionsRecords(t1, ClosingElections(t1.elections, now), clock, throwing);
    }
  }

  /** Voter rows across a tick (voter ids being unique): a row either stays as it was or is an
      ADDED voter of an opening election that is now INVITED; INVITED and ACCEPTED voters are
      never touched; and unless an e-mail send threw, no ADDED voter of an opening election
      is left. */
  lemma TickVoters(t: Tables, now: int, undeliverable: set<string>, clock: nat -> Stamp, throwing: set<Id>)
    requires UniqueVoterIds(t.voters)
    ensures var t' := Tick(t, now, undeliverable, clock, throwing).0;
      |t'.voters| == |t.voters| &&
      forall k :: 0 <= k < |t.voters| ==>
        t'.voters[k] == t.voters[k] ||
        (t.voters[k].status == Added && t.voters[k].electionId in OpeningIds(t, now) &&
         t'.voters[k] == t.voters[k].(status := Invited))
    ensures var (t', o) := Tick(t, now, undeliverable, clock, throwing);
      !o.SendFailed? ==>
        forall k :: 0 <= k < |t.voters| && t.voters[k].status == Added && t.voters[k].electionId in OpeningIds(t, now) ==>
          t'.voters[k].status == Invited
  {
    var marked, published := TickEffect(t, now, undeliverable, clock, throwing);
    var t' := Tick(t, now, undeliverable, clock, throwing).0;
    forall k | 0 <= k < |t.voters| && t'.voters[k] != t.voters[k]
      ensures t.voters[k].status == Added && t.voters[k].electionId in OpeningIds(t, now)
    {
      var v :| v in t.voters && v.status == Added && v.electionId in OpeningIds(t, now) && v.id == t.voters[k].id;
      var j :| 0 <= j < |t.voters| && t.voters[j] == v;
      assert j == k;
    }
    forall k | 0 <= k < |t.voters| && t.voters[k].status == Added && t.voters[k].electionId in OpeningIds(t, now)
      ensures t.voters[k].id in AddedIn(t.voters, OpeningIds(t, now))
    {
      assert t.voters[k] in t.voters;
    }
  }

  /** Election rows across a tick: only the publicity of an opening election changes, and it
      becomes VOTER; unless an e-mail send threw, every opening election is now VOTER. */
  lemma TickElections(t: Tables, now: int, undeliverable: set<string>, clock: nat -> Stamp, throwing: set<Id>)
    ensures var t' := Tick(t, now, undeliverable, clock, throwing).0;
      |t'.elections| == |t.elections| &&
      forall k :: 0 <= k < |t.elections| ==>
        t'.elections[k] == t.elections[k] ||
        (t.elections[k].id in OpeningIds(t, now) && t'.elections[k] == t.elections[k].(publicity := Voter))
    ensures var (t', o) := Tick(t, now, undeliverable, clock, throwing);
      !o.SendFailed? ==>
        forall k :: 0 <= k < |t.elections| && OpensAt(t.elections[k], ManilaCivil(now)) ==> t'.elections[k].publicity == Voter
  {
    var marked, published := TickEffect(t, now, undeliverable, clock, throwing);
    forall k | 0 <= k < |t.elections| && OpensAt(t.elections[k], ManilaCivil(now))
      ensures t.elections[k].id in OpeningIds(t, now)
    {
      assert t.elections[k] in OpeningElections(t.elections, now);
    }
  }

  /** Tokens and e-mails across a tick: both tables only grow, and every new token is an
      ELECTION_INVITATION for an ADDED voter of an opening election, with the expiry the
      handler computes for that election (see `InvitesForIsLate`). */
  lemma TickTokens(t: Tables, now: int, undeliverable: set<string>, clock: nat -> Stamp, throwing: set<Id>)
    ensures var t' := Tick(t, now, undeliverable, clock, throwing).0;
      t.tokens <= t'.tokens && t.outbox <= t'.outbox &&
      forall k :: |t.tokens| <= k < |t'.tokens| ==> InvitesForOpening(t'.tokens[k], t, now)
  {
    var opening := OpeningElections(t.elections, now);
    OpenElectionsTokens(t, opening, undeliverable);
    var t1 := OpenElections(t, opening, undeliverable).0;
    var t' := Tick(t, now, undeliverable, clock, throwing).0;
    if OpenElections(t, opening, undeliverable).1 == Completed {
      CloseElectionsRecords(t1, ClosingElections(t1.elections, now), clock, throwing);
      assert t'.tokens == t1.tokens && t'.outbox == t1.outbox;
    } else {
      assert t' == t1;
    }
    forall k | |t.tokens| <= k < |t'.tokens|
      ensures InvitesForOpening(t'.tokens[k], t, now)
    {
      var tok := t1.tokens[k];
      assert tok == t'.tokens[k];
      assert exists e :: e in opening && InvitesFor(tok, t.voters, e);
      var e :| e in opening && InvitesFor(tok, t.voters, e);
    }
  }

  /** Every invitation the tick mints for an election that ends at a Manila midnight (which,
      with `TickTokens`, is every token it adds) stays valid eight hours past the close. */
  lemma InvitesForIsLate(tok: VerificationToken, vs: seq<InvitedVoter>, e: Election, d: int)
    requires InvitesFor(tok, vs, e)
    requires e.endDate == ManilaMidnight(d) && 0 <= e.votingEnd < 24
    ensures tok.expiresAt == InvitationExpiry(e) + ManilaOffsetMs
    ensures tok.expiresAt == ManilaInstant(d, e.votingEnd) + ManilaOffsetMs
  {
    InvitationExpiryAsWrittenIsLate(e, d);
    InvitationExpiryIsClose(e, d);
  }

  /** `tok` invites an ADDED voter of one of the elections opening in the hour of `now`. */
  predicate InvitesForOpening(tok: VerificationToken, t: Tables, now: int) {
    exists e :: e in OpeningElections(t.elections, now) && InvitesFor(tok, t.voters, e)
  }

  lemma NoIdsNoVoters(vs: seq<InvitedVoter>)
    ensures IdsOf(vs) == {} ==> vs == []
  {
    if vs != [] {
      assert vs[0].id in IdsOf(vs);
    }
  }

  /** An opening step over elections that have no ADDED voter and are already VOTER changes
      nothing and cannot fail. */
  lemma {:induction false} OpenElectionsIdle(t: Tables, es: seq<Election>, undeliverable: set<string>)
    requires forall e :: e in es ==> AddedIn(t.voters, {e.id}) == {}
    requires forall e, k :: e in es && 0 <= k < |t.elections| && t.elections[k].id == e.id ==> t.elections[k].publicity == Voter
    ensures OpenElections(t, es, undeliverable) == (t, Completed)
    decreases |es|
  {
    if es != [] {
      var init := es[..|es| - 1];
      var last := es[|es| - 1];
      assert forall e :: e in init ==> e in es;
      OpenElectionsIdle(t, init, undeliverable);
      var vs := AddedVoters(t.voters, last.id);
      assert IdsOf(vs) == AddedIn(t.voters, {last.id});
      NoIdsNoVoters(vs);
      assert PublishToVoters(t.elections, {last.id}) == t.elections;
    }
  }

  /** After a completed tick, the opening step of a second run in the same hour finds no
      ADDED voter and no election left to publish, so it changes nothing. */
  lemma RerunOpeningIsIdle(t: Tables, now: int, undeliverable: set<string>, clock: nat -> Stamp, throwing: set<Id>,
                           undeliverable2: set<string>)
    requires Tick(t, now, undeliverable, clock, throwing).1 == Completed
    ensures var t1 := Tick(t, now, undeliverable, clock, throwing).0;
      OpenElections(t1, OpeningElections(t1.elections, now), undeliverable2) == (t1, Completed)
  {
    var e0 := OpeningIds(t, now);
    var marked, published := TickEffect(t, now, undeliverable, clock, throwing);
    var t1 := Tick(t, now, undeliverable, clock, throwing).0;
    AddedInAfterMark(t.voters, AddedIn(t.voters, e0), e0);
    PublishedOpeningIsIdle(t.elections, t1.elections, t1.voters, now);
    OpenElectionsIdle(t1, OpeningElections(t1.elections, now), undeliverable2);
  }

  /** Once the opening elections are published and have no ADDED voter left, every election
      the opening query finds again is VOTER and has no ADDED voter. */
  lemma PublishedOpeningIsIdle(es: seq<Election>, es1: seq<Election>, vs1: seq<InvitedVoter>, now: int)
    requires es1 == PublishToVoters(es, ElectionIds(OpeningElections(es, now)))
    requires AddedIn(vs1, ElectionIds(OpeningElections(es, now))) == {}
    ensures forall e :: e in OpeningElections(es1, now) ==> AddedIn(vs1, {e.id}) == {}
    ensures forall e, k :: e in OpeningElections(es1, now) && 0 <= k < |es1| && es1[k].id == e.id ==>
      es1[k].publicity == Voter
  {
    var ids := ElectionIds(OpeningElections(es, now));
    forall e | e in OpeningElections(es1, now)
      ensures e.id in ids
    {
      var j :| 0 <= j < |es1| && es1[j] == e;
      assert es[j] in OpeningElections(es, now);
    }
    forall e | e in OpeningElections(es1, now)
      ensures AddedIn(vs1, {e.id}) == {}
    {
      AddedInUnion(vs1, {e.id}, ids);
      assert ids == {e.id} + ids;
    }
  }

  /** Running the handler again in the same hour after a completed tick sends nothing, mints
      nothing and changes no voter or election, whatever the mail transport does; but it
      renders and appends the result records of the closing elections a second time. */
  lemma TickRerun(t: Tables, now: int, undeliverable: set<string>, clock: nat -> Stamp, throwing: set<Id>,
                  undeliverable2: set<string>, clock2: nat -> Stamp, throwing2: set<Id>)
    requires Tick(t, now, undeliverable, clock, throwing).1 == Completed
    ensures var t1 := Tick(t, now, undeliverable, clock, throwing).0;
      var (t2, o2) := Tick(t1, now, undeliverable2, clock2, throwing2);
      var closing := ClosingElections(t1.elections, now);
      t2 == t1.(results := t2.results, bucket := t2.bucket) && !o2.SendFailed? &&
      t2.results == t1.results + RecordsFor(closing[..FirstThrowing(closing, throwing2)], clock2)
  {
    var t1 := Tick(t, now, undeliverable, clock, throwing).0;
    RerunOpeningIsIdle(t, now, undeliverable, clock, throwing, undeliverable2);
    CloseElectionsRecords(t1, ClosingElections(t1.elections, now), clock2, throwing2);
  }

  /** Result files named at different milliseconds have different names, whatever the
      elections are called: the leading digits before ` - ` are the milliseconds. */
  lemma ResultFileNamesDiffer(s1: Stamp, s2: Stamp, name1: string, name2: string)
    requires s1.ms != s2.ms
    ensures ResultFileName(s1, name1) != ResultFileName(s2, name2)
  {
    var d1 := Decimal(s1.ms);
    var d2 := Decimal(s2.ms);
    var r1 := ResultFileName(s1, name1);
    var r2 := ResultFileName(s2, name2);
    assert r1[..|d1|] == d1 && r1[|d1|] == ' ';
    assert r2[..|d2|] == d2 && r2[|d2|] == ' ';
    if |d1| < |d2| {
      assert r2[|d1|] == d2[|d1|];
    } else if |d2| < |d1| {
      assert r1[|d2|] == d1[|d2|];
    } else if r1 == r2 {
      assert d1 == r1[..|d1|] == r2[..|d2|] == d2;
      DecimalInjective(s1.ms, s2.ms);
    }
  }
}
