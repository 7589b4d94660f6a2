/** The tally an election's result document is rendered from
    (src/pages/api/do-election-processing.tsx, the result object built for each closing election). */
module Tally {
  import opened Basics
  import opened Schema

  // ---- Candidate display name ----

  /** The ` M.` part: a space, the first character of the middle name and a dot, present
      only when the middle name is a non-empty string (JavaScript truthiness). */
  function MiddleInitial(middle: Option<string>): string {
    if middle.Some? && middle.value != [] then [' ', middle.value[0], '.'] else []
  }

  /** `Last, First M. (ACR)`. */
  function DisplayName(c: Candidate): string {
    c.lastName + ", " + c.firstName + MiddleInitial(c.middleName) + " (" + c.partylist.acronym + ")"
  }

  /** The display name starts with `Last, First`, ends with ` (ACR)`, and between them holds
      ` M.` (M the middle name's first character) exactly when the middle name is non-empty. */
  lemma DisplayNameShape(c: Candidate)
    ensures var r := DisplayName(c);
      var head := c.lastName + ", " + c.firstName;
      var tail := " (" + c.partylist.acronym + ")";
      var hasMiddle := c.middleName.Some? && c.middleName.value != [];
      |r| == |head| + (if hasMiddle then 3 else 0) + |tail| &&
      r[..|head|] == head && r[|r| - |tail|..] == tail &&
      (hasMiddle ==> r[|head|..|head| + 3] == [' ', c.middleName.value[0], '.'])
  {
    var r := DisplayName(c);
    var head := c.lastName + ", " + c.firstName;
    var tail := " (" + c.partylist.acronym + ")";
    var mid := MiddleInitial(c.middleName);
    assert r == head + mid + tail;
    assert (head + mid + tail)[..|head|] == head;
    assert (head + mid + tail)[|head| + |mid|..] == tail;
    assert (head + mid + tail)[|head|..|head| + |mid|] == mid;
  }

  /** Worked examples: a middle name, none, and an empty one. */
  lemma DisplayNameExamples()
    ensures DisplayName(Candidate("c1", "p1", "Juan", Some("Santos"), "Dela Cruz", Partylist("pl", "IND")))
         == "Dela Cruz, Juan S. (IND)"
    ensures DisplayName(Candidate("c1", "p1", "Juan", None, "Dela Cruz", Partylist("pl", "IND")))
         == "Dela Cruz, Juan (IND)"
    ensures DisplayName(Candidate("c1", "p1", "Juan", Some(""), "Dela Cruz", Partylist("pl", "IND")))
         == "Dela Cruz, Juan (IND)"
  {
  }

  // ---- Counting vote rows ----

  /** The indices of the vote rows that `attached` selects: the reference count. */
  ghost function RowsWhere(votes: seq<Vote>, attached: Vote -> bool): set<int> {
    set k | 0 <= k < |votes| && attached(votes[k])
  }

  /** `relation.length` for a one-to-many relation: the number of vote rows attached. */
  function CountRows(votes: seq<Vote>, attached: Vote -> bool): (n: nat)
    ensures n == |RowsWhere(votes, attached)|
    ensures n <= |votes|
    decreases |votes|
  {
    if votes == [] then 0
    else
      var init := votes[..|votes| - 1];
      var n := CountRows(init, attached) + (if attached(votes[|votes| - 1]) then 1 else 0);
      assert RowsWhere(votes, attached) ==
        RowsWhere(init, attached) + (if attached(votes[|votes| - 1]) then {|votes| - 1} else {});
      n
  }

  /** Votes cast directly against a position: its abstains. */
  function AbstainsOf(positionId: Id): Vote -> bool {
    (v: Vote) => v.positionId == Some(positionId)
  }

  /** Votes cast for a candidate. */
  function VotesFor(candidateId: Id): Vote -> bool {
    (v: Vote) => v.candidateId == Some(candidateId)
  }

  // ---- The loaded relations ----

  /** `election.positions`: the position rows of the election, in table order. */
  function PositionsOf(ps: seq<Position>, electionId: Id): (r: seq<Position>)
    ensures |r| <= |ps|
    ensures forall p :: p in r <==> p in ps && p.electionId == electionId
    decreases |ps|
  {
    if ps == [] then []
    else if ps[0].electionId == electionId then [ps[0]] + PositionsOf(ps[1..], electionId)
    else PositionsOf(ps[1..], electionId)
  }

  /** `position.candidate`: the candidate rows of the position, in table order. */
  function CandidatesOf(cs: seq<Candidate>, positionId: Id): (r: seq<Candidate>)
    ensures |r| <= |cs|
    ensures forall c :: c in r <==> c in cs && c.positionId == positionId
    decreases |cs|
  {
    if cs == [] then []
    else if cs[0].positionId == positionId then [cs[0]] + CandidatesOf(cs[1..], positionId)
    else CandidatesOf(cs[1..], positionId)
  }

  // ---- The result object ----

  function CandidateTally(c: Candidate, votes: seq<Vote>): CandidateResult {
    CandidateResult(c.id, DisplayName(c), CountRows(votes, VotesFor(c.id)))
  }

  function CandidateTallies(cs: seq<Candidate>, votes: seq<Vote>): (r: seq<CandidateResult>)
    ensures |r| == |cs|
    ensures forall j :: 0 <= j < |cs| ==> r[j] == CandidateTally(cs[j], votes)
  {
    seq(|cs|, j requires 0 <= j < |cs| => CandidateTally(cs[j], votes))
  }

  function PositionTally(p: Position, cs: seq<Candidate>, votes: seq<Vote>): PositionResult {
    PositionResult(p.id, p.name, CountRows(votes, AbstainsOf(p.id)),
                   CandidateTallies(CandidatesOf(cs, p.id), votes))
  }

  /** `logo || null`: an empty logo string counts as no logo. */
  function LogoOrNull(logo: Option<string>): Option<string> {
    if logo.Some? && logo.value != [] then logo else None
  }

  /** The result object of a closing election. */
  function BuildResult(e: Election, ps: seq<Position>, cs: seq<Candidate>, votes: seq<Vote>): ElectionResult {
    var eps := PositionsOf(ps, e.id);
    ElectionResult(e.id, e.name, e.slug, e.startDate, e.endDate, LogoOrNull(e.logo),
                   e.votingStart, e.votingEnd,
                   seq(|eps|, i requires 0 <= i < |eps| => PositionTally(eps[i], cs, votes)))
  }

  /** The tally keeps the election's positions and each position's candidates in loaded order,
      and every count is the number of vote rows attached: a position's count its abstains,
      a candidate's count the rows cast for it. */
  lemma TallyCountsRows(e: Election, ps: seq<Position>, cs: seq<Candidate>, votes: seq<Vote>)
    ensures var r := BuildResult(e, ps, cs, votes);
      var eps := PositionsOf(ps, e.id);
      |r.positions| == |eps| &&
      forall i :: 0 <= i < |eps| ==>
        var pcs := CandidatesOf(cs, eps[i].id);
        r.positions[i].id == eps[i].id &&
        r.positions[i].votes == |set k | 0 <= k < |votes| && votes[k].positionId == Some(eps[i].id)| &&
        |r.positions[i].candidates| == |pcs| &&
        forall j :: 0 <= j < |pcs| ==>
          r.positions[i].candidates[j].id == pcs[j].id &&
          r.positions[i].candidates[j].name == DisplayName(pcs[j]) &&
          r.positions[i].candidates[j].votes == |set k | 0 <= k < |votes| && votes[k].candidateId == Some(pcs[j].id)|
  {
    var r := BuildResult(e, ps, cs, votes);
    var eps := PositionsOf(ps, e.id);
    forall i | 0 <= i < |eps|
      ensures r.positions[i].votes == |set k | 0 <= k < |votes| && votes[k].positionId == Some(eps[i].id)|
    {
      assert RowsWhere(votes, AbstainsOf(eps[i].id)) == set k | 0 <= k < |votes| && votes[k].positionId == Some(eps[i].id);
    }
    forall i, j | 0 <= i < |eps| && 0 <= j < |CandidatesOf(cs, eps[i].id)|
      ensures var c := CandidatesOf(cs, eps[i].id)[j];
        r.positions[i].candidates[j].votes == |set k | 0 <= k < |votes| && votes[k].candidateId == Some(c.id)|
    {
      var c := CandidatesOf(cs, eps[i].id)[j];
      assert RowsWhere(votes, VotesFor(c.id)) == set k | 0 <= k < |votes| && votes[k].candidateId == Some(c.id);
    }
  }

  // ---- Totals ----

  function SumVotes(rs: seq<CandidateResult>): nat
    decreases |rs|
  {
    if rs == [] then 0 else rs[0].votes + SumVotes(rs[1..])
  }

  predicate DistinctCandidateIds(cs: seq<Candidate>) {
    forall i, j :: 0 <= i < j < |cs| ==> cs[i].id != cs[j].id
  }

  /** The vote rows cast for one of the candidates in `cs`. */
  ghost function RowsForAny(votes: seq<Vote>, cs: seq<Candidate>): set<int> {
    set k | 0 <= k < |votes| && votes[k].candidateId.Some? &&
            exists j :: 0 <= j < |cs| && cs[j].id == votes[k].candidateId.value
  }

  /** The rows cast for any of `cs` are those cast for its first candidate plus those cast for
      the rest, and with distinct ids the two parts do not overlap. */
  lemma RowsForAnySplit(cs: seq<Candidate>, votes: seq<Vote>)
    requires cs != [] && DistinctCandidateIds(cs)
    ensures RowsForAny(votes, cs) == RowsWhere(votes, VotesFor(cs[0].id)) + RowsForAny(votes, cs[1..])
    ensures RowsWhere(votes, VotesFor(cs[0].id)) !! RowsForAny(votes, cs[1..])
  {
    var rest := cs[1..];
    var first := RowsWhere(votes, VotesFor(cs[0].id));
    assert forall k :: k in first <==> 0 <= k < |votes| && votes[k].candidateId == Some(cs[0].id);
    forall k | k in RowsForAny(votes, cs)
      ensures k in first + RowsForAny(votes, rest)
    {
      var j :| 0 <= j < |cs| && cs[j].id == votes[k].candidateId.value;
      if j > 0 {
        assert rest[j - 1].id == votes[k].candidateId.value;
      }
    }
    forall k | k in RowsForAny(votes, rest)
      ensures k in RowsForAny(votes, cs)
    {
      var j :| 0 <= j < |rest| && rest[j].id == votes[k].candidateId.value;
      assert cs[j + 1].id == votes[k].candidateId.value;
    }
    forall k | k in RowsForAny(votes, rest)
      ensures k !in first
    {
      var j :| 0 <= j < |rest| && rest[j].id == votes[k].candidateId.value;
      assert cs[0].id != cs[j + 1].id;
    }
  }

  /** With distinct candidate ids, the candidates' counts add up to the number of vote rows
      cast for any of them: no vote row is counted twice or lost. */
  lemma {:induction false} TallySumsCandidateVotes(cs: seq<Candidate>, votes: seq<Vote>)
    requires DistinctCandidateIds(cs)
    ensures SumVotes(CandidateTallies(cs, votes)) == |RowsForAny(votes, cs)|
    decreases |cs|
  {
    var rs := CandidateTallies(cs, votes);
    if cs == [] {
      assert RowsForAny(votes, cs) == {};
    } else {
      var rest := cs[1..];
      assert CandidateTallies(rest, votes) == rs[1..];
      TallySumsCandidateVotes(rest, votes);
      RowsForAnySplit(cs, votes);
      var first := RowsWhere(votes, VotesFor(cs[0].id));
      assert rs[0].votes == |first|;
      assert |first + RowsForAny(votes, rest)| == |first| + |RowsForAny(votes, rest)|;
    }
  }
}
