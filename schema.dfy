/** The rows the election core reads and writes, and the database that holds them.
    Ids are the database's opaque string keys; instants are UTC milliseconds. */
module Schema {
  import opened Basics

  type Id = string

  datatype Publicity = Private | Voter | Public

  /** An invited voter moves ADDED -> INVITED -> ACCEPTED. */
  datatype VoterStatus = Added | Invited | Accepted

  datatype TokenType = ElectionInvitation | EmailVerification | PasswordReset

  datatype Election = Election(
    id: Id, name: string, slug: string,
    startDate: int, endDate: int,      // instants at which the start / end Manila day begins
    votingStart: int, votingEnd: int,  // hours of the day
    publicity: Publicity, logo: Option<string>)

  datatype InvitedVoter = InvitedVoter(id: Id, electionId: Id, email: string, status: VoterStatus)

  datatype InvitedCommissioner = InvitedCommissioner(id: Id, electionId: Id, email: string)

  datatype User = User(id: Id, email: string, emailVerified: Option<int>)

  /** The one row a verification token belongs to. */
  datatype Owner =
    | OwnedByUser(userId: Id)
    | OwnedByVoter(voterId: Id)
    | OwnedByCommissioner(commissionerId: Id)
    | Unowned

  datatype VerificationToken = VerificationToken(id: Id, tokenType: TokenType, expiresAt: int, owner: Owner)

  datatype Partylist = Partylist(id: Id, acronym: string)

  datatype Position = Position(id: Id, electionId: Id, name: string)

  /** A candidate row together with its partylist, as the closing query loads it. */
  datatype Candidate = Candidate(
    id: Id, positionId: Id,
    firstName: string, middleName: Option<string>, lastName: string,
    partylist: Partylist)

  /** A cast ballot entry: attached to a candidate, or directly to a position (an abstain). */
  datatype Vote = Vote(id: Id, positionId: Option<Id>, candidateId: Option<Id>)

  datatype GeneratedElectionResult = GeneratedElectionResult(name: string, link: string, electionId: Id, createdAt: int)

  /** The object the result PDF is rendered from. */
  datatype CandidateResult = CandidateResult(id: Id, name: string, votes: nat)
  datatype PositionResult = PositionResult(id: Id, name: string, votes: nat, candidates: seq<CandidateResult>)
  datatype ElectionResult = ElectionResult(
    id: Id, name: string, slug: string, startDate: int, endDate: int, logo: Option<string>,
    votingStart: int, votingEnd: int, positions: seq<PositionResult>)

  /** An invitation e-mail handed to the mail transport. */
  datatype Invitation = Invitation(to: string, subject: string, tokenId: Id, electionName: string, electionEnd: int)

  /** A snapshot of every table, the storage bucket and the mail transport's outbox. */
  datatype Tables = Tables(
    elections: seq<Election>,
    voters: seq<InvitedVoter>,
    commissioners: seq<InvitedCommissioner>,
    users: seq<User>,
    tokens: seq<VerificationToken>,
    positions: seq<Position>,
    candidates: seq<Candidate>,
    votes: seq<Vote>,
    results: seq<GeneratedElectionResult>,
    bucket: map<string, ElectionResult>,
    outbox: seq<Invitation>,
    tokenCounter: nat)

  /** The database, the result bucket and the outbox, updated in place by the handlers. */
  class Database {
    var elections: seq<Election>
    var voters: seq<InvitedVoter>
    var commissioners: seq<InvitedCommissioner>
    var users: seq<User>
    var tokens: seq<VerificationToken>
    var positions: seq<Position>
    var candidates: seq<Candidate>
    var votes: seq<Vote>
    var results: seq<GeneratedElectionResult>
    var bucket: map<string, ElectionResult>
    var outbox: seq<Invitation>
    var tokenCounter: nat

    constructor (t: Tables)
      ensures Snapshot() == t
    {
      elections, voters, commissioners, users := t.elections, t.voters, t.commissioners, t.users;
      tokens, positions, candidates, votes := t.tokens, t.positions, t.candidates, t.votes;
      results, bucket, outbox, tokenCounter := t.results, t.bucket, t.outbox, t.tokenCounter;
    }

    function Snapshot(): Tables
      reads this
    {
      Tables(elections, voters, commissioners, users, tokens, positions, candidates, votes,
             results, bucket, outbox, tokenCounter)
    }
  }
}
