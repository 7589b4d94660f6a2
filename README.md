# eboto-mo election core in Dafny

This project models the core of eboto-mo, an online election platform, and proves properties of
that model. It covers these parts:

- **The election lifecycle tick.** This is the scheduled handler that runs once an hour.
  - It opens the elections whose start day and start hour are now in Manila time. Each voter
    still `ADDED` gets an `ELECTION_INVITATION` token and an e-mail and is marked `INVITED`.
    Then the election's publicity becomes `VOTER`.
  - It then closes the elections whose end day and end hour are now. For each, it tallies the
    votes, stores the result document and appends a result record.
- **The token router.** `getById` looks up the invitation token of the signed-in invitee.
  `verify` verifies an e-mail or password-reset token. On e-mail verification it marks the user
  verified and deletes that user's e-mail tokens.
- **The form components' logic:**
  - the create-election form's validators, hour options, duration label and submit mapping;
  - the candidate editor's validators, credential lists (add, edit at an index, delete) and
    image submission;
  - the bulk-voter upload's drop acceptance, file and voter removal, and e-mail flattening;
  - the sign-up page's guards, name capitalisation, submit gating and redirect choice;
  - the older create-election modal's submit sequence of Firestore writes, its trailing-dash
    strip, its id-name edit rule, its template expansion and its date-picker rules.

The modules follow the source files:

- Helper modules:
  - `Basics` holds Option, Result and list helpers.
  - `Text` holds JavaScript whitespace, `trim`, decimal `toString`/`parseInt` and first-match
    `replace`.
  - `Clock` holds Manila civil time over UTC millisecond instants.
  - `Schema` holds the Prisma tables and the `Database` class.
  - `Tally` holds the result object built at the close.
  - `Slug` holds the slug rule.
- One module per source file: `ElectionProcessing`, `TokenRouter`, `CreateElectionForm`,
  `EditCandidateForm`, `UploadBulkVoter`, `Signup` and `CreateElectionModal`.

How the stateful parts are modelled:

- The tick, `verify` and the modal's submit change a database. Each is a method on a class:
  `Database` for the Prisma tables, `Firestore` for the modal's documents.
- Each such method is proved equal to a function of the old state, through
  `Snapshot()`. The lemmas about that function state what the source promises.
- Component state that the source replaces through `setState` is a class field: `VoterUpload`,
  `ModalState` and `SignupPage`. Each handler is a method over those fields.

Inputs the code reads from the outside world are parameters:

- the current instant (UTC milliseconds);
- the set of addresses whose e-mail send throws;
- the set of elections whose PDF render or upload throws;
- the `Date.now()`/`toDateString()` stamp used for each result file;
- uuids and Firestore document ids.

## Model

| member | source | states |
|---|---|---|
| Basics.FirstWhere | src/server/api/routers/token.ts:11-32 | the index found is the first element satisfying the condition, or the length when none does (`findFirst`) |
| Basics.FirstWhereAgrees | src/server/api/routers/token.ts:11-32 | two conditions that agree on every element find the same first element |
| Basics.WithoutKey | src/components/modals/EditCandidate.tsx:235-238 | `filter(a => a.id !== id)` keeps exactly the elements whose key differs from the one removed, and never lengthens the list |
| Basics.WithoutKeyAppend | src/components/modals/EditCandidate.tsx:235-238 | filtering distributes over concatenation |
| Basics.WithoutAbsentKey | src/components/modals/EditCandidate.tsx:235-238 | filtering out a key that no element has leaves the list unchanged |
| Basics.WithoutFreshKey | src/components/modals/EditCandidate.tsx:235-238 | appending an element with a fresh key and then filtering that key out gives back the original list |
| Text.IsWordChar | src/pages/signup.tsx:83 | `\w` without the `u` flag: ASCII letters, digits and `_`; CapitalizePointwise and UpperWordCharStable are stated with it |
| Text.IsSpace | src/pages/signup.tsx:82-83 | the JavaScript white-space set of `\s` and of `trim`; TrimStart, TrimEnd and Trim state what they strip with it |
| Text.UpperWordChar | src/pages/signup.tsx:83-84 | `toUpperCase` on a word character: a lower-case letter moves to its upper-case letter (32 code points down) and every other word character is unchanged |
| Text.Decimal | src/components/modals/EditCandidate.tsx:659 | `toString` of a natural number is a non-empty digit string without a leading zero, except for zero itself |
| Text.ParseDecimal | src/components/modals/CreateElection.tsx:114-116 | `parseInt` of a digit string; ParseDecimalOfDecimal proves it inverts Decimal |
| Text.ParseDecimalOfDecimal | src/components/modals/CreateElection.tsx:114-116 | `parseInt` of a number's decimal text gives the number back |
| Text.DecimalInjective | src/components/modals/EditCandidate.tsx:659 | different numbers have different decimal texts |
| Text.IntText | src/components/modals/CreateElection.tsx:208-209 | the text of an integer starts with `-` exactly when it is negative, and is the decimal text otherwise |
| Text.TrimStart | src/pages/signup.tsx:81-82 | the result is a suffix of the input, every removed character is JavaScript whitespace, and the result does not start with whitespace |
| Text.TrimEnd | src/pages/signup.tsx:81-82 | the result is a prefix of the input, every removed character is whitespace, and the result does not end with whitespace |
| Text.Trim | src/pages/signup.tsx:81-82 | `trim()` returns the slice of the input that lies between a leading and a trailing whitespace run, and that slice neither starts nor ends with whitespace |
| Text.TrimOfTrimmed | src/pages/signup.tsx:81-82 | trimming a string that has no whitespace at either end changes nothing |
| Text.IndexOf | src/components/CreateElectionModal.tsx:351 | the position found is the first occurrence of the character, or the length when there is none |
| Text.ReplaceFirst | src/components/CreateElectionModal.tsx:351 | `replace(" ", "-")` changes only the first occurrence and keeps the length |
| Clock.ManilaCivil | src/pages/api/do-election-processing.tsx:17-19 | an instant's Manila day and hour: the hour is in 0..23 and the instant lies within that Manila hour |
| Clock.ManilaCivilOfInstant | src/pages/api/do-election-processing.tsx:17-19 | every instant inside a given Manila hour has that day and hour, so the civil time is unique |
| Clock.TruncateKeepsHour | src/pages/api/do-election-processing.tsx:17-19 | dropping the milliseconds in the locale round-trip changes neither the day nor the hour |
| Clock.QueryIsManilaCivil | src/pages/api/do-election-processing.tsx:17-47 | with the server on UTC, the query date (`setHours(0,0,0,0)` and then minus 8 hours) is the instant at which today's Manila day began, and `nowPHT.getHours()` is the Manila hour |
| Clock.WallClock | src/pages/api/do-election-processing.tsx:17-19 | the Manila wall-clock reading of an instant, cut to whole seconds; TruncateKeepsHour shows the cut keeps its day and hour and QueryIsManilaCivil uses it for the Manila civil day and hour |
| Clock.SetHours | src/pages/api/do-election-processing.tsx:25-31 | `setHours` on a UTC server, keeping minutes, seconds and milliseconds; QueryIsManilaCivil and InvitationExpiryAsWrittenIsLate state what it yields for the query date and for the expiry |
| Clock.QueryDate | src/pages/api/do-election-processing.tsx:25-31 | the date queried for; QueryIsManilaCivil proves it is the Manila midnight of the Manila civil day of now |
| Clock.QueryHour | src/pages/api/do-election-processing.tsx:46 | the hour queried for; QueryIsManilaCivil proves it is the Manila civil hour of now |
| Clock.LocalMidnight | src/pages/api/do-election-processing.tsx:25-26 | `setHours(0, 0, 0, 0)` on a UTC server, the start of the UTC day; QueryIsManilaCivil proves the query date built from it is the Manila midnight |
| Slug.MatchesFromIff | src/components/modals/CreateElection.tsx:59 | the regex's tail `(?:-[A-Za-z0-9]+)*` matches exactly the strings of letters, digits and single dashes that end in a letter or digit |
| Slug.MatchesPattern | src/components/modals/CreateElection.tsx:59 | the slug regular expression run by hand; MatchesPatternIff proves it accepts exactly WellFormed |
| Slug.MatchesPatternIff | src/components/modals/CreateElection.tsx:59 | the whole regex accepts exactly the well-formed slugs: letters, digits and dashes, alphanumeric at both ends, and no two dashes in a row |
| Slug.SlugAccepted | src/components/modals/CreateElection.tsx:55-65 | a slug is accepted exactly when it is well formed and 3 to 24 characters long, so an accepted slug never starts or ends with `-` and never contains `--` |
| Slug.SlugErrorOrder | src/components/modals/CreateElection.tsx:55-65 | the empty message comes first, then the pattern message for any ill-formed slug, then the length message |
| Slug.SlugErrorExamples | src/components/modals/CreateElection.tsx:55-65 | `""`, `"a-"`, `"ab"` and `"ssc-2023"` get the empty, pattern, length and no message respectively |
| Slug.WellFormed | src/components/modals/CreateElection.tsx:59 | alphanumeric runs joined by single dashes; MatchesPatternIff proves the slug pattern accepts exactly these strings |
| Slug.SlugError | src/components/modals/CreateElection.tsx:55-65 | the first failing slug check; SlugAccepted gives no error iff the slug is well formed and 3 to 24 characters long, SlugErrorOrder the order of the checks, SlugErrorExamples the messages |
| CreateElectionForm.NameError | src/components/modals/CreateElection.tsx:51-54 | the name is accepted exactly when it has at least 3 characters after trimming |
| CreateElectionForm.DateError | src/components/modals/CreateElection.tsx:67-71 | the date range is accepted exactly when both ends are set |
| CreateElectionForm.StartHourOptions | src/components/modals/CreateElection.tsx:180-183 | the start-hour options are "0" to "23", none disabled |
| CreateElectionForm.EndHourOptions | src/components/modals/CreateElection.tsx:194-198 | the end-hour options are "0" to "23" |
| CreateElectionForm.EndHourSelectable | src/components/modals/CreateElection.tsx:194-198 | end hour i is selectable exactly when it is strictly after the start hour, so nothing is selectable once the start is 23 |
| CreateElectionForm.HourOptionValues | src/components/modals/CreateElection.tsx:180-183 | each option's value parses back to its hour, and option values are pairwise different |
| CreateElectionForm.DurationLabelShape | src/components/modals/CreateElection.tsx:208-215 | the label is the difference, then " hour", and it ends in `s` exactly when the difference exceeds 1 |
| CreateElectionForm.DurationLabelExamples | src/components/modals/CreateElection.tsx:208-215 | start 7 and end 19 read "12 hours"; start 7 and end 8 read "1 hour" |
| CreateElectionForm.SubmitSends | src/components/modals/CreateElection.tsx:104-118 | the mutation is sent exactly when name, slug and dates all validate, and it then carries the form's name, slug, dates, hours and template unchanged |
| CreateElectionForm.InitialValuesRejected | src/components/modals/CreateElection.tsx:41-73 | the initial values (empty name and slug, no dates, hours 7 and 19, template 0) fail all three validators with their messages |
| CreateElectionForm.Validate | src/components/modals/CreateElection.tsx:50-72 | the name, slug and date errors of the form; SubmitSends and InitialValuesRejected state which values pass |
| CreateElectionForm.DurationLabel | src/components/modals/CreateElection.tsx:208-215 | the hour difference and "hour", plural above one; DurationLabelShape and DurationLabelExamples |
| CreateElectionForm.Submit | src/components/modals/CreateElection.tsx:104-118 | only a form without errors is sent; SubmitSends states what is sent |
| CreateElectionForm.SubmitInput | src/components/modals/CreateElection.tsx:104-117 | the picked dates or fallbacks of one and eight days, and the select values through `parseInt`; SubmitSends states the payload, with the hours and template equal to the selected numbers |
| Tally.DisplayNameShape | src/pages/api/do-election-processing.tsx:175-179 | a display name is `Last, First`, then ` M.` with the middle name's first character only when the middle name is set and non-empty, then ` (ACR)` |
| Tally.DisplayNameExamples | src/pages/api/do-election-processing.tsx:175-179 | "Dela Cruz, Juan S. (IND)" with middle name "Santos"; "Dela Cruz, Juan (IND)" with a null or an empty middle name |
| Tally.MiddleInitial | src/pages/api/do-election-processing.tsx:175-178 | a space, the first character and a dot, only for a non-empty middle name; DisplayNameShape |
| Tally.DisplayName | src/pages/api/do-election-processing.tsx:175-179 | `Last, First M. (ACR)`; DisplayNameShape and DisplayNameExamples |
| Tally.CountRows | src/pages/api/do-election-processing.tsx:172-180 | `vote.length` is the number of vote rows attached to the position or candidate |
| Tally.AbstainsOf | src/pages/api/do-election-processing.tsx:172 | a vote row on the position itself (`position.vote`); TallyCountsRows counts these rows as the position's votes |
| Tally.VotesFor | src/pages/api/do-election-processing.tsx:180 | a vote row for the candidate (`candidate.vote`); TallyCountsRows and TallySumsCandidateVotes count these rows |
| Tally.PositionsOf | src/pages/api/do-election-processing.tsx:145 | the loaded positions are exactly the election's positions |
| Tally.CandidatesOf | src/pages/api/do-election-processing.tsx:147 | the loaded candidates are exactly the position's candidates |
| Tally.CandidateTallies | src/pages/api/do-election-processing.tsx:173-181 | the tally has one entry per candidate, in the candidates' order |
| Tally.TallyCountsRows | src/pages/api/do-election-processing.tsx:160-183 | the result has one entry per loaded position, in the order of the load, each with its abstain count and one entry per loaded candidate, in the order of that load, with display names and per-candidate vote counts |
| Tally.RowsForAnySplit | src/pages/api/do-election-processing.tsx:173-181 | with distinct candidate ids, the rows for any candidate split into the first candidate's rows and the rest's, disjointly |
| Tally.TallySumsCandidateVotes | src/pages/api/do-election-processing.tsx:173-181 | with distinct candidate ids, the candidate counts add up to the number of vote rows cast for one of those candidates |
| Tally.CandidateTally | src/pages/api/do-election-processing.tsx:173-181 | one candidate's id, display name and vote count; TallyCountsRows |
| Tally.PositionTally | src/pages/api/do-election-processing.tsx:169-182 | one position's id, name, abstain count and candidates; TallyCountsRows |
| Tally.BuildResult | src/pages/api/do-election-processing.tsx:160-183 | the result object of a closing election; TallyCountsRows and TallySumsCandidateVotes |
| Tally.LogoOrNull | src/pages/api/do-election-processing.tsx:166 | `logo || null`: an empty logo is none; used by BuildResult |
| ElectionProcessing.WhereStart | src/pages/api/do-election-processing.tsx:43-48 | the query returns exactly the elections with that start date and start hour |
| ElectionProcessing.WhereEnd | src/pages/api/do-election-processing.tsx:139-157 | the query returns exactly the elections with that end date and end hour |
| ElectionProcessing.OpensAt | src/pages/api/do-election-processing.tsx:42-48 | start date at the Manila midnight of a civil day and start hour equal to its hour; OpeningElections selects exactly the elections that open in the current Manila hour |
| ElectionProcessing.ClosesAt | src/pages/api/do-election-processing.tsx:139-143 | the same for the end date and end hour; ClosingElections selects exactly the elections that close in the current Manila hour |
| ElectionProcessing.OpeningElections | src/pages/api/do-election-processing.tsx:17-48 | the opening step selects exactly the elections whose start day is today's Manila date and whose start hour is the current Manila hour, whatever their publicity |
| ElectionProcessing.ClosingElections | src/pages/api/do-election-processing.tsx:116-157 | the closing step selects exactly the elections whose end day is today's Manila date and whose end hour is the current Manila hour |
| ElectionProcessing.OpensInOneHour | src/pages/api/do-election-processing.tsx:17-48 | two ticks that both select an election for opening run in the same Manila day and hour, so hourly ticks open each election at most once |
| ElectionProcessing.ClosesInOneHour | src/pages/api/do-election-processing.tsx:116-157 | two ticks that both select an election for closing run in the same Manila day and hour |
| ElectionProcessing.InvitationExpiryIsClose | src/pages/api/do-election-processing.tsx:58-66 | the corrected expiry is the election's end day at hour `voting_end`, Manila time |
| ElectionProcessing.InvitationExpiryAsWrittenIsLate | src/pages/api/do-election-processing.tsx:58-66 | the expiry as written is exactly 8 hours after the Manila end hour |
| ElectionProcessing.InvitationExpiryAsWrittenExample | src/pages/api/do-election-processing.tsx:58-66 | an election ending on 2024-06-01 at hour 19 gets tokens that are valid until 03:00 on 2024-06-02, Manila time |
| ElectionProcessing.InvitationExpiry | src/pages/api/do-election-processing.tsx:58-66 | the intended expiry, hour `voting_end` of the Manila end day; InvitationExpiryIsClose |
| ElectionProcessing.InvitationExpiryAsWritten | src/pages/api/do-election-processing.tsx:58-66 | the expiry as the handler computes it on a UTC server; InvitationExpiryAsWrittenIsLate shows it is eight hours after the intended one |
| ElectionProcessing.InvitationSubject | src/pages/api/do-election-processing.tsx:83 | the invitation subject with the election name; part of InvitationMail |
| ElectionProcessing.InvitationToken | src/pages/api/do-election-processing.tsx:69-79 | an ELECTION_INVITATION token for the voter with the expiry as written; TokensFor, TokensForInvite and InvitesForIsLate |
| ElectionProcessing.InvitationMail | src/pages/api/do-election-processing.tsx:81-91 | the invitation e-mail to the voter with the token id and the expiry as written; MailsFor |
| ElectionProcessing.AddedVoters | src/pages/api/do-election-processing.tsx:51-56 | only that election's voters in status `ADDED` are processed |
| ElectionProcessing.MarkInvited | src/pages/api/do-election-processing.tsx:94-101 | the marked voters become `INVITED`, status being the only field written, and every other row is unchanged |
| ElectionProcessing.PublishToVoters | src/pages/api/do-election-processing.tsx:104-111 | the opened elections get publicity `VOTER`, and every other row is unchanged |
| ElectionProcessing.InviteOne | src/pages/api/do-election-processing.tsx:58-101 | one voter: create the token with the expiry as the handler computes it (`InvitationExpiryAsWritten`), then send, then mark `INVITED`; a throwing send leaves the token and the voter `ADDED` |
| ElectionProcessing.OpenOne | src/pages/api/do-election-processing.tsx:50-112 | the loop over the election's `ADDED` voters, and then the publicity update, equals the per-election specification |
| ElectionProcessing.CloseOne | src/pages/api/do-election-processing.tsx:159-210 | one closing election: the tally is stored at the result path and one result record is appended, unless the render or upload throws |
| ElectionProcessing.ProcessTick | src/pages/api/do-election-processing.tsx:11-213 | the handler's loops equal the tick specification: all opening work, then all closing work, stopping at the first throw |
| ElectionProcessing.InviteVoter | src/pages/api/do-election-processing.tsx:69-101 | one pass of the voter loop (token, mail, INVITED mark); InviteOne is proved equal to it |
| ElectionProcessing.InviteVoters | src/pages/api/do-election-processing.tsx:68-102 | the voter loop, stopping at the first exception; InviteVotersClosedForm, InviteVotersNext and InviteVotersStops |
| ElectionProcessing.OpenElection | src/pages/api/do-election-processing.tsx:50-112 | inviting an election's ADDED voters, then publishing to voters; OpenElectionEffect and OpenElectionTokens |
| ElectionProcessing.OpenElections | src/pages/api/do-election-processing.tsx:50-112 | the opening loop; OpenElectionsEffect and OpenElectionsTokens |
| ElectionProcessing.CloseElection | src/pages/api/do-election-processing.tsx:159-210 | tally, upload and result record of one election; CloseElectionBucket and CloseElectionAppends |
| ElectionProcessing.CloseElections | src/pages/api/do-election-processing.tsx:159-210 | the closing loop; CloseElectionsRecords and CloseElectionsOutcome |
| ElectionProcessing.Tick | src/pages/api/do-election-processing.tsx:11-213 | one run of the handler; TickEffect, TickVoters, TickElections, TickTokens and TickRerun |
| ElectionProcessing.InviteVotersNext | src/pages/api/do-election-processing.tsx:68-102 | the voter loop's next step is one more invitation, as long as no send has thrown |
| ElectionProcessing.OpenElectionsNext | src/pages/api/do-election-processing.tsx:50-112 | the election loop's next step opens one more election, as long as nothing has thrown |
| ElectionProcessing.CloseElectionsNext | src/pages/api/do-election-processing.tsx:159-210 | the closing loop's next step closes one more election, as long as nothing has thrown |
| ElectionProcessing.InviteVotersStops | src/pages/api/do-election-processing.tsx:68-102 | once a send throws, the later voters are not processed |
| ElectionProcessing.OpenElectionsStops | src/pages/api/do-election-processing.tsx:50-112 | once a send throws, the later elections are not opened |
| ElectionProcessing.CloseElectionsStops | src/pages/api/do-election-processing.tsx:159-210 | once an upload throws, the later elections are not closed |
| ElectionProcessing.FirstUndeliverable | src/pages/api/do-election-processing.tsx:68-92 | the position of the first voter whose send throws, or the count when none does |
| ElectionProcessing.TokensFor | src/pages/api/do-election-processing.tsx:69-79 | the k-th voter's token is an `ELECTION_INVITATION` owned by that voter, with the expiry as the handler computes it (8 hours late, see InvitesForIsLate) and the k-th fresh id |
| ElectionProcessing.MailsFor | src/pages/api/do-election-processing.tsx:81-92 | the k-th e-mail goes to the k-th voter, with the invitation subject, the k-th token id, the election's name and the expiry as the handler computes it |
| ElectionProcessing.MarkInvitedTwice | src/pages/api/do-election-processing.tsx:94-101 | marking voters in two steps is marking their union |
| ElectionProcessing.PublishToVotersTwice | src/pages/api/do-election-processing.tsx:104-111 | publishing elections in two steps is publishing their union |
| ElectionProcessing.InviteAllStopped | src/pages/api/do-election-processing.tsx:68-102 | in closed form, voters after a throwing send add nothing |
| ElectionProcessing.TokensForSnoc | src/pages/api/do-election-processing.tsx:69-79 | the tokens for one more voter are the earlier tokens plus that voter's token |
| ElectionProcessing.InviteAllStepRefused | src/pages/api/do-election-processing.tsx:69-92 | a throwing send after deliveries: the closed form equals one more loop step, token minted and nothing sent |
| ElectionProcessing.InviteAllDelivered | src/pages/api/do-election-processing.tsx:68-102 | when every send succeeds, each voter gets its token and its e-mail, and all are marked `INVITED` |
| ElectionProcessing.MailsForSnoc | src/pages/api/do-election-processing.tsx:81-92 | the e-mails for one more voter are the earlier e-mails plus that voter's e-mail |
| ElectionProcessing.InviteAllStepDelivered | src/pages/api/do-election-processing.tsx:68-102 | a delivered send: the closed form equals one more loop step |
| ElectionProcessing.InviteVotersClosedForm | src/pages/api/do-election-processing.tsx:68-102 | the voter loop mints tokens up to and including the first throwing send, e-mails and marks the voters before it, and reports the failing voter |
| ElectionProcessing.AddedInAfterMark | src/pages/api/do-election-processing.tsx:51-56 | after marking, the `ADDED` voters are the earlier ones minus those marked |
| ElectionProcessing.AddedInUnion | src/pages/api/do-election-processing.tsx:51-56 | the `ADDED` voters of two sets of elections are the union of each set's |
| ElectionProcessing.TokensForInvite | src/pages/api/do-election-processing.tsx:69-79 | every token minted for `ADDED` voters of an election invites an `ADDED` voter of that election, with the expiry the handler computes for that election |
| ElectionProcessing.OpenElectionEffect | src/pages/api/do-election-processing.tsx:50-112 | opening changes only `ADDED` voters of the election, to `INVITED`, plus the tokens and the e-mails; publicity becomes `VOTER` only when every send succeeded, and then every `ADDED` voter is marked |
| ElectionProcessing.OpenElectionTokens | src/pages/api/do-election-processing.tsx:68-102 | opening only appends tokens and e-mails, and each new token invites an `ADDED` voter of that election |
| ElectionProcessing.AppendedInvitations | src/pages/api/do-election-processing.tsx:69-79 | appending invitation tokens keeps the earlier tokens as a prefix, and every appended one is an invitation |
| ElectionProcessing.OpenElectionsEffect | src/pages/api/do-election-processing.tsx:50-112 | the opening step changes only `ADDED` voters and publicity of the elections selected; when no send throws, all of those voters are `INVITED` and all those elections are published |
| ElectionProcessing.OpenElectionsTokens | src/pages/api/do-election-processing.tsx:50-112 | the opening step only appends tokens and e-mails, and each new token invites an `ADDED` voter of one of the elections selected |
| ElectionProcessing.FirstThrowing | src/pages/api/do-election-processing.tsx:193-198 | the position of the first election whose upload throws, or the count when none does |
| ElectionProcessing.RecordsFor | src/pages/api/do-election-processing.tsx:185-209 | one result record per closed election, in order, named `<ms> - <name> (Result) (<date>).pdf` with a link under `elections/<id>/results/` |
| ElectionProcessing.CloseElectionsOutcome | src/pages/api/do-election-processing.tsx:159-210 | the closing step fails exactly at the first throwing upload |
| ElectionProcessing.CloseElectionsRecords | src/pages/api/do-election-processing.tsx:159-210 | the closing step appends exactly one record per election before the first throwing upload, and changes no table but the results and the bucket; existing records are kept |
| ElectionProcessing.RecordsForSnoc | src/pages/api/do-election-processing.tsx:203-209 | the records for one more election are the earlier records plus that election's record |
| ElectionProcessing.CloseElectionAppends | src/pages/api/do-election-processing.tsx:203-209 | closing one more election appends its record after those already appended |
| ElectionProcessing.CloseElectionBucket | src/pages/api/do-election-processing.tsx:193-198 | closing keeps every stored file, stores the tally at the election's result path, and writes nothing else |
| ElectionProcessing.CloseElectionsKeepFiles | src/pages/api/do-election-processing.tsx:193-198 | the closing step never changes or removes a stored file |
| ElectionProcessing.CloseElectionsStoreRecorded | src/pages/api/do-election-processing.tsx:193-209 | every election closed before the first throwing upload has a file at its result path |
| ElectionProcessing.CloseElectionsAddTallies | src/pages/api/do-election-processing.tsx:160-198 | every new stored file is the tally of an election closed in this step, at that election's result path |
| ElectionProcessing.TickEffect | src/pages/api/do-election-processing.tsx:11-213 | a tick changes only voter status, publicity, tokens, e-mails, results and stored files; a throwing send stops it before any closing work; otherwise all selected voters and elections are processed, and one record is appended per closing election up to the first throwing upload |
| ElectionProcessing.TickVoters | src/pages/api/do-election-processing.tsx:51-101 | each voter row stays as it was or is an `ADDED` voter of an opening election that became `INVITED`; without a throwing send, no such voter is left `ADDED` |
| ElectionProcessing.TickElections | src/pages/api/do-election-processing.tsx:104-111 | each election row stays as it was or is an opening election now published to voters; without a throwing send, every opening election is published |
| ElectionProcessing.TickTokens | src/pages/api/do-election-processing.tsx:58-79 | a tick only appends tokens and e-mails, and each new token invites an `ADDED` voter of an election opening now, with the expiry the handler computes for that election |
| ElectionProcessing.InvitesForIsLate | src/pages/api/do-election-processing.tsx:58-79 | every invitation minted for an election ending at a Manila midnight expires 8 hours after the end day's `voting_end` hour |
| ElectionProcessing.NoIdsNoVoters | src/pages/api/do-election-processing.tsx:51-56 | voters with no ids form the empty list |
| ElectionProcessing.OpenElectionsIdle | src/pages/api/do-election-processing.tsx:50-112 | opening elections that have no `ADDED` voter and are already published changes nothing |
| ElectionProcessing.RerunOpeningIsIdle | src/pages/api/do-election-processing.tsx:43-112 | after a completed tick, rerunning the opening step in the same hour sends nothing and changes nothing |
| ElectionProcessing.PublishedOpeningIsIdle | src/pages/api/do-election-processing.tsx:43-112 | after the opening step, the elections opening now are all published and have no `ADDED` voters left |
| ElectionProcessing.TickRerun | src/pages/api/do-election-processing.tsx:139-210 | a rerun in the same hour changes only results and files, and appends another record for each closing election, since no existing result is checked |
| ElectionProcessing.ResultFileNamesDiffer | src/pages/api/do-election-processing.tsx:185-189 | result files stamped at different milliseconds have different names |
| ElectionProcessing.ResultFileName | src/pages/api/do-election-processing.tsx:185-189 | the result file name; ResultFileNamesDiffer |
| ElectionProcessing.ResultPath | src/pages/api/do-election-processing.tsx:191 | the storage path of a result; ResultPathsDiffer |
| ElectionProcessing.ResultPathsDiffer | src/pages/api/do-election-processing.tsx:191 | two different elections never share a result path for the same file name |
| ElectionProcessing.PublicUrl | src/pages/api/do-election-processing.tsx:199-201 | the public URL of a stored path, which each result record carries; RecordsFor and CloseElectionAppends |
| ElectionProcessing.ResultRecord | src/pages/api/do-election-processing.tsx:185-209 | the result record: the file name, the public URL of its path, the election and the stamp; RecordsFor, CloseElectionAppends and CloseElectionsRecords |
| TokenRouter.InvitedVoterId | src/server/api/routers/token.ts:61 | `token.invitedVoter?.id`: the voter id when the token is a voter's and the voter exists |
| TokenRouter.InvitedCommissionerId | src/server/api/routers/token.ts:68 | `token.invitedCommissioner?.id`, the same for commissioners |
| TokenRouter.InviteeEmail | src/server/api/routers/token.ts:15-26 | the invited voter's or commissioner's address; GetByIdNotFound and GetByIdOk are stated with it |
| TokenRouter.IsInvitationFor | src/server/api/routers/token.ts:11-27 | the token lookup filter: this id, an invitation, and an invitee with the session's address; GetByIdNotFound gives NOT_FOUND iff no token meets it |
| TokenRouter.InviteeElection | src/server/api/routers/token.ts:55-74 | the election found is one whose invited voters or commissioners include the token's owner, and none is found only when no election does |
| TokenRouter.MatchesAsWritten | src/server/api/routers/token.ts:55-74 | the election filter as Prisma reads `id: undefined`: the missing half matches any election with an invitee of that kind; InviteeElectionAsWritten, InvitesOwnerMatches and InviteeElectionAsWrittenExample |
| TokenRouter.InviteeElectionAsWritten | src/server/api/routers/token.ts:55-74 | the lookup as written returns an election having some voter or commissioner whose id matches the owner's id, or any such invitee when that id is undefined, and finds none exactly when no election matches that filter |
| TokenRouter.InvitesOwnerMatches | src/server/api/routers/token.ts:55-74 | an election that invites the token's owner always matches the filter as written |
| TokenRouter.GetByIdNotFound | src/server/api/routers/token.ts:11-46 | `NOT_FOUND` exactly when no token has that id, type `ELECTION_INVITATION` and an owning voter or commissioner with the session's e-mail |
| TokenRouter.GetByIdOk | src/server/api/routers/token.ts:11-76 | a returned token has that id, that type and the session's e-mail and has not expired; the election returned is one the filter as written matches, not necessarily one that invites the owner |
| TokenRouter.GetByIdIntendedOk | src/server/api/routers/token.ts:11-76 | with the intended lookup the same token checks hold and the election returned invites the token's owner |
| TokenRouter.GetByIdIntendedAgrees | src/server/api/routers/token.ts:11-76 | every error as written is also the intended error, and whenever the intended lookup succeeds the one as written succeeds with the same token |
| TokenRouter.GetByIdExpiry | src/server/api/routers/token.ts:48-53 | `FORBIDDEN` "Token expired" exactly when the expiry is strictly before now, so a token expiring exactly now passes |
| TokenRouter.FindInvitation | src/server/api/routers/token.ts:11-53 | the token part of `getById`; GetByIdNotFound and GetByIdExpiry |
| TokenRouter.GetById | src/server/api/routers/token.ts:11-76 | `getById` as written; GetByIdNotFound, GetByIdOk and GetByIdExpiry |
| TokenRouter.GetByIdIntended | src/server/api/routers/token.ts:11-76 | `getById` with the intended lookup; GetByIdIntendedOk and GetByIdIntendedAgrees |
| TokenRouter.InviteeElectionAsWrittenExample | src/server/api/routers/token.ts:55-74 | a voter's token for election b resolves to election a as written, because a has a commissioner and the commissioner id is undefined |
| TokenRouter.InviteeElectionAsWrittenAgrees | src/server/api/routers/token.ts:55-74 | with no commissioners in the table, the lookup as written and the corrected lookup agree for voter tokens |
| TokenRouter.MarkVerified | src/server/api/routers/token.ts:121-128 | only that user's `emailVerified` is set to now |
| TokenRouter.DeleteUserTokens | src/server/api/routers/token.ts:130-135 | `deleteMany` removes exactly that user's tokens of that type and keeps every other token |
| TokenRouter.KindTokenType | src/server/api/routers/token.ts:98-103 | the token type a request kind names; VerifyGuardOrder and VerifyReadOnlyCases look tokens up by it |
| TokenRouter.OwnedTokenOfType | src/server/api/routers/token.ts:130-135 | the rows `deleteMany` removes: owned by that user and of that type; DeleteUserTokens and VerifyEmailEffect |
| TokenRouter.HasUser | src/server/api/routers/token.ts:119 | `!token.userId` negated: the token belongs to a user with a non-empty id; VerifyReadOnlyCases |
| TokenRouter.Verify | src/server/api/routers/token.ts:85-140 | the procedure's reads and writes on the database equal the `verify` specification |
| TokenRouter.VerifyGuardOrder | src/server/api/routers/token.ts:86-115 | a missing type gives `BAD_REQUEST`, then a missing or empty token gives `BAD_REQUEST`, then `NOT_FOUND` exactly when no token has that id and type, then `FORBIDDEN` "Token expired" exactly when the found token's expiry is strictly before now; errors change nothing |
| TokenRouter.VerifyEmailEffect | src/server/api/routers/token.ts:117-136 | a successful e-mail verification found an unexpired token of that user, sets that user's `emailVerified` and deletes exactly that user's `EMAIL_VERIFICATION` tokens |
| TokenRouter.VerifyEmailTwice | src/server/api/routers/token.ts:98-135 | with token ids unique, verifying the same e-mail token again gives `NOT_FOUND` and changes nothing |
| TokenRouter.VerifyReadOnlyCases | src/server/api/routers/token.ts:119-139 | a found, unexpired password-reset token returns `"PASSWORD_RESET"`, and a found, unexpired e-mail token without a user returns nothing; a reset request never changes the tables, and an empty answer only comes from such an e-mail token and changes nothing |
| TokenRouter.VerifyRequest | src/server/api/routers/token.ts:85-140 | `verify` over the tables; VerifyGuardOrder, VerifyEmailEffect, VerifyEmailTwice and VerifyReadOnlyCases, and Verify is proved equal to it |
| EditCandidateForm.NewDate | src/components/modals/EditCandidate.tsx:764 | `new Date(year, monthIndex)` normalises the month into 0..11 and carries the rest into the year |
| EditCandidateForm.NewDateExamples | src/components/modals/EditCandidate.tsx:900-904 | month 0 is January of that year, and month -1 is December of the year before |
| EditCandidateForm.RequiredName | src/components/modals/EditCandidate.tsx:127-134 | a first or last name is accepted exactly when it is non-empty after trimming, and is otherwise refused with its message |
| EditCandidateForm.ValidateAccepts | src/components/modals/EditCandidate.tsx:127-145 | the form is valid exactly when both names are non-empty and the slug passes the empty, regex and length rule; the empty-slug message appears exactly for the empty slug |
| EditCandidateForm.Validate | src/components/modals/EditCandidate.tsx:126-146 | the required names and the slug rule; ValidateAccepts |
| EditCandidateForm.EditAt | src/components/modals/EditCandidate.tsx:610-622 | editing at index i changes only element i and keeps the length |
| EditCandidateForm.EditFieldLocal | src/components/modals/EditCandidate.tsx:610-966 | each field edit changes only the one list it belongs to, only at the index, and keeps every length and id; a title or description edit sets exactly that field |
| EditCandidateForm.EditField | src/components/modals/EditCandidate.tsx:610-966 | one edited field of one entry; EditFieldLocal |
| EditCandidateForm.MaxNumeric | src/components/modals/EditCandidate.tsx:656-663 | a bound on the numeric value of every id |
| EditCandidateForm.MaxNumericBound | src/components/modals/EditCandidate.tsx:656-663 | it is the least such bound |
| EditCandidateForm.FreshLocalId | src/components/modals/EditCandidate.tsx:656-663 | the corrected new id is a digit string that no existing id equals |
| EditCandidateForm.FreshLocalIdIsLengthPlusOne | src/components/modals/EditCandidate.tsx:656-663 | while no id exceeds the list's length, the corrected id is the source's length + 1 |
| EditCandidateForm.AddPlatformAsWritten | src/components/modals/EditCandidate.tsx:652-665 | as written, adding keeps the earlier platforms and appends one with id `(length + 1).toString()` and empty title and description |
| EditCandidateForm.AddAchievementAsWritten | src/components/modals/EditCandidate.tsx:757-766 | as written, adding keeps the earlier achievements and appends one with id `(length + 1).toString()`, an empty name and January of the current year |
| EditCandidateForm.AddAffiliationAsWritten | src/components/modals/EditCandidate.tsx:892-906 | as written, adding keeps the earlier affiliations and appends one with id `(length + 1).toString()`, empty texts, from December of last year to January of this year |
| EditCandidateForm.AddEventAsWritten | src/components/modals/EditCandidate.tsx:984-993 | as written, adding keeps the earlier events and appends one with id `(length + 1).toString()`, an empty name and January of the current year |
| EditCandidateForm.AddPlatformAgrees | src/components/modals/EditCandidate.tsx:652-665 | while no platform id reads as a number above the list's length, the add as written and the corrected add give the same list |
| EditCandidateForm.AddAchievementAgrees | src/components/modals/EditCandidate.tsx:757-766 | the same agreement for achievements |
| EditCandidateForm.AddAffiliationAgrees | src/components/modals/EditCandidate.tsx:892-906 | the same agreement for affiliations |
| EditCandidateForm.AddEventAgrees | src/components/modals/EditCandidate.tsx:984-993 | the same agreement for events attended |
| EditCandidateForm.AddPlatformAsWrittenExample | src/components/modals/EditCandidate.tsx:652-665 | as written, add, add, delete "1" and add gives two platforms with id "2", and deleting the newest then removes both |
| EditCandidateForm.AddPlatform | src/components/modals/EditCandidate.tsx:652-665 | adding appends one platform with empty title and description and a fresh id, and keeps the earlier entries |
| EditCandidateForm.AddAchievement | src/components/modals/EditCandidate.tsx:757-766 | adding appends one achievement with an empty name and January of the current year, with a fresh id |
| EditCandidateForm.AddAffiliation | src/components/modals/EditCandidate.tsx:892-906 | adding appends one affiliation with empty texts, from December of last year to January of this year, with a fresh id |
| EditCandidateForm.AddEvent | src/components/modals/EditCandidate.tsx:984-993 | adding appends one event with an empty name and January of the current year, with a fresh id |
| EditCandidateForm.AddThenDelete | src/components/modals/EditCandidate.tsx:229-279 | deleting a just-added entry by its id gives back the list as it was, for all four lists |
| EditCandidateForm.KindLabel | src/components/modals/EditCandidate.tsx:286-292 | the label is one of "Platform", "Achievement", "Affiliation" and "Event Attended" |
| EditCandidateForm.DeleteButtonTextsDiffer | src/components/modals/EditCandidate.tsx:285-292 | different kinds get different delete-button texts |
| EditCandidateForm.DeleteCredentialEffect | src/components/modals/EditCandidate.tsx:229-279 | a saved item goes to the server delete; otherwise every form entry with that id is removed from that one list, everything else is kept, and no entry with the id is left |
| EditCandidateForm.DeleteAddedPlatform | src/components/modals/EditCandidate.tsx:229-238 | deleting a platform just added and not saved restores the form values |
| EditCandidateForm.IsSaved | src/components/modals/EditCandidate.tsx:229-279 | whether the entry's id is in the loaded list; DeleteCredentialEffect |
| EditCandidateForm.DeleteCredential | src/components/modals/EditCandidate.tsx:229-279 | a server delete for a saved entry, a local removal otherwise; DeleteCredentialEffect and DeleteAddedPlatform |
| EditCandidateForm.DeleteButtonText | src/components/modals/EditCandidate.tsx:285-292 | "Delete" and the kind's label; DeleteButtonTextsDiffer |
| EditCandidateForm.SubmitImage | src/components/modals/EditCandidate.tsx:322-331 | an empty image submits null, a URL string submits itself, and a file is uploaded |
| EditCandidateForm.ImagePathShape | src/components/modals/EditCandidate.tsx:326-330 | the upload path is `elections/<electionId>/candidates/<id>/image/<ms>`, and different instants give different paths |
| EditCandidateForm.ImagePath | src/components/modals/EditCandidate.tsx:326-330 | the image storage path; ImagePathShape |
| UploadBulkVoter.FirstCell | src/components/modals/UploadBulkVoter.tsx:176 | `row[0]`, none for an empty row; IsVoterSheet and Emails use it |
| UploadBulkVoter.Admitted | src/components/modals/UploadBulkVoter.tsx:172-182 | a voter sheet whose name was not selected before the drop; AdmittedFiles and DropEffect keep exactly these files |
| UploadBulkVoter.AdmittedFiles | src/components/modals/UploadBulkVoter.tsx:169-188 | a dropped file is added exactly when its first row starts with "Email" and its name is not already selected, with the rows after the header as voters |
| UploadBulkVoter.DropEffect | src/components/modals/UploadBulkVoter.tsx:160-189 | a drop is ignored if any dropped name is already selected; otherwise it keeps the selection and appends exactly the voter sheets dropped |
| UploadBulkVoter.Clashes | src/components/modals/UploadBulkVoter.tsx:161-167 | some dropped file has a selected file's name; DropEffect |
| UploadBulkVoter.IsVoterSheet | src/components/modals/UploadBulkVoter.tsx:172-178 | a sheet whose first cell is "Email"; AdmittedFiles |
| UploadBulkVoter.Dropped | src/components/modals/UploadBulkVoter.tsx:160-189 | the selection after a drop; DropEffect, and VoterUpload.Drop is proved equal to it |
| UploadBulkVoter.WithoutVoter | src/components/modals/UploadBulkVoter.tsx:126-141 | after removing a voter, no file is left without voters |
| UploadBulkVoter.WithoutVoterEntries | src/components/modals/UploadBulkVoter.tsx:126-141 | the remaining files are the other files and the named file without the rows whose first cell matches, in each case only if it still has voters |
| UploadBulkVoter.WithoutVoterRemovesRows | src/components/modals/UploadBulkVoter.tsx:126-141 | no row with that first cell is left in the named file |
| UploadBulkVoter.WithoutVoterDateByIdentity | src/components/modals/UploadBulkVoter.tsx:133-135 | `!==` compares date cells as objects: a row whose date prints the same text but is another object is kept |
| UploadBulkVoter.Emails | src/components/modals/UploadBulkVoter.tsx:286-291 | one e-mail per row of every file |
| UploadBulkVoter.EmailsAppend | src/components/modals/UploadBulkVoter.tsx:286-291 | the e-mails of two selections concatenated are the concatenation of their e-mails, file by file |
| UploadBulkVoter.EmailsOfOneFile | src/components/modals/UploadBulkVoter.tsx:288-290 | a file's e-mails are its rows' first cells as text, "" when missing, row by row |
| UploadBulkVoter.CellText | src/components/modals/UploadBulkVoter.tsx:288-290 | the first cell as text, or empty; EmailsOfOneFile |
| UploadBulkVoter.VoterUpload.constructor | src/components/modals/UploadBulkVoter.tsx:57-62 | the selection starts empty |
| UploadBulkVoter.VoterUpload.SetOpen | src/components/modals/UploadBulkVoter.tsx:66-70 | opening the modal empties the selection; closing it leaves the selection |
| UploadBulkVoter.VoterUpload.ClearAll | src/components/modals/UploadBulkVoter.tsx:263-266 | "Clear all" empties the selection |
| UploadBulkVoter.VoterUpload.RemoveFile | src/components/modals/UploadBulkVoter.tsx:95-105 | removing a file removes exactly the entries with that name |
| UploadBulkVoter.VoterUpload.RemoveVoter | src/components/modals/UploadBulkVoter.tsx:125-143 | the selection becomes the specification of voter removal |
| UploadBulkVoter.VoterUpload.Drop | src/components/modals/UploadBulkVoter.tsx:160-189 | the loop over dropped files gives the drop specification |
| UploadBulkVoter.VoterUpload.UploadEmails | src/components/modals/UploadBulkVoter.tsx:283-291 | the submitted list has one e-mail per selected row, and is empty whenever upload is disabled |
| UploadBulkVoter.VoterUpload.UploadDisabled | src/components/modals/UploadBulkVoter.tsx:283 | the upload button is disabled while nothing is selected; UploadEmails sends nothing then |
| Signup.SpaceRun | src/pages/signup.tsx:83 | the length of the maximal whitespace run at a position |
| Signup.MatchAt | src/pages/signup.tsx:83 | a match of the name pattern is a whitespace run followed by one word character, and a one-character match only happens at the start |
| Signup.UpperChar | src/pages/signup.tsx:83-85 | `toUpperCase` of one matched character; white space stays; Upper's ensures is stated with it |
| Signup.Upper | src/pages/signup.tsx:83-84 | `toUpperCase` on a match keeps its length and upper-cases each word character |
| Signup.ReplaceFrom | src/pages/signup.tsx:83-84 | a global replace keeps the length |
| Signup.MatchStep | src/pages/signup.tsx:83-84 | replacing one match and then scanning on agrees with the per-character description |
| Signup.NoMatchStep | src/pages/signup.tsx:83-84 | copying a non-matching character and then scanning on agrees with the per-character description |
| Signup.ReplaceFromPointwise | src/pages/signup.tsx:83-84 | the global replace equals the per-character description |
| Signup.CapitalizePointwise | src/pages/signup.tsx:81-90 | a name is its trimmed text, with the first character and each word character after whitespace upper-cased and every other character unchanged |
| Signup.UpperWordCharStable | src/pages/signup.tsx:83-84 | upper-casing a word character gives no whitespace and is idempotent |
| Signup.CapitalizeKeepsClasses | src/pages/signup.tsx:81-90 | capitalisation keeps the trimmed length and each character's class (whitespace, word character) |
| Signup.CapitalizeIdempotent | src/pages/signup.tsx:81-90 | capitalising a capitalised name changes nothing |
| Signup.CapitalizeExampleWords | src/pages/signup.tsx:81-90 | "a b" becomes "A B" |
| Signup.CapitalizeExampleDash | src/pages/signup.tsx:81-90 | "a-b" becomes "A-b": a dash does not start a word |
| Signup.Capitalize | src/pages/signup.tsx:81-90 | trim, then upper-case word starts; CapitalizePointwise, CapitalizeKeepsClasses and CapitalizeIdempotent |
| Signup.AdminExists | src/pages/signup.tsx:69-73 | an admin with that e-mail is on record; SubmitRefusals refuses with "Admin already exists" when it holds |
| Signup.SubmitRefusals | src/pages/signup.tsx:63-74 | mismatched passwords are refused first, then an existing admin e-mail; both write nothing; otherwise there is no error |
| Signup.SubmitCreatesAdmin | src/pages/signup.tsx:77-104 | a successful sign-up appends one admin with capitalised names, no photo, no elections, an unverified e-mail and its own document id as `uid`; signing up the same e-mail again is refused |
| Signup.SubmitEnabled | src/pages/signup.tsx:206-216 | the button is enabled exactly when every field is filled, the password has 8 or more characters and equals the confirmation, and nothing is loading; an enabled submit never meets the mismatch error |
| Signup.NewAdmin | src/pages/signup.tsx:77-97 | the admin document the submit writes; SubmitCreatesAdmin |
| Signup.SubmitResult | src/pages/signup.tsx:59-104 | the admins afterwards and the error shown; SubmitRefusals and SubmitCreatesAdmin |
| Signup.SubmitDisabled | src/pages/signup.tsx:206-216 | the submit button's disabled expression; SubmitEnabled |
| Signup.AdminStore.constructor | src/pages/signup.tsx:70-97 | the store holds the given admins |
| Signup.SignupPage.constructor | src/pages/signup.tsx:40-48 | no error, not loading, and all fields empty |
| Signup.SignupPage.OnSubmit | src/pages/signup.tsx:59-112 | the handler's steps leave the admins and the error as the sign-up specification says, keep the fields and end not loading |
| Signup.ServerSideRedirect | src/pages/signup.tsx:231-263 | no session (or another account type) renders the page; a voter goes to `/<electionIdName>`; an admin with no elections goes to `/create-election`, any other admin to `/dashboard` |
| CreateElectionModal.StripTrailingDash | src/components/CreateElectionModal.tsx:211-219 | exactly one trailing `-` is removed if present, and otherwise the input is returned; the result is always a prefix |
| CreateElectionModal.StripTrailingDashInverse | src/components/CreateElectionModal.tsx:211-219 | stripping undoes appending a dash, and only one dash goes |
| CreateElectionModal.EditIdName | src/components/CreateElectionModal.tsx:344-352 | when the current id ends in `-` the typed value is trimmed; otherwise only its first space becomes `-` |
| CreateElectionModal.TypingSpaceAddsDash | src/components/CreateElectionModal.tsx:344-352 | typing a space after an id without spaces or a final dash appends a dash |
| CreateElectionModal.TypingSpaceAfterDash | src/components/CreateElectionModal.tsx:344-352 | typing a space right after a dash is trimmed away |
| CreateElectionModal.TemplateTitles | src/components/CreateElectionModal.tsx:268-272 | template "0" gives no positions, and any positions given are those of the option whose id is the selection |
| CreateElectionModal.TemplateIds | src/components/CreateElectionModal.tsx:94-172 | each template's id is its index |
| CreateElectionModal.TemplateTitlesOf | src/components/CreateElectionModal.tsx:94-172 | selecting template k (1 to 5) gives its positions, and the value k plus the number of templates gives none; that any value no option prints as gives none is TemplateTitles' own ensures |
| CreateElectionModal.TitlesOfNumberedOptions | src/components/CreateElectionModal.tsx:268-272 | with options numbered by index, selecting k gives option k's positions and the value k plus the number of options gives none |
| CreateElectionModal.TemplateContents | src/components/CreateElectionModal.tsx:94-172 | six templates: "None" with no positions, then five with 9, 8, 9, 10 and 10 positions, each starting with "President" |
| CreateElectionModal.ArrayUnion | src/components/CreateElectionModal.tsx:239 | `arrayUnion` adds the election id and keeps every earlier one, and adds nothing when the id is already there |
| CreateElectionModal.TemplateDocs | src/components/CreateElectionModal.tsx:272-302 | one position document per title, with its index as order, the title, `undecidedVotingCount` 0 and its own document id as `uid` |
| CreateElectionModal.SubmitGuards | src/components/CreateElectionModal.tsx:199-240 | a missing date is refused first, then a taken id name, and neither writes; an election is created exactly when both dates are set, the stripped id name is free and either there is no session or the admin document exists |
| CreateElectionModal.SubmitCreatesElection | src/components/CreateElectionModal.tsx:230-243 | exactly one election is appended, with the trimmed name, the stripped id name, the picked dates and its document id as `uid`, and the user is sent to `/<id>/dashboard` |
| CreateElectionModal.SubmitCreatesContents | src/components/CreateElectionModal.tsx:73-82 | a created election gets one "Independent"/"IND" partylist and one position per entry of the selected template, in order; template "0" adds no positions |
| CreateElectionModal.SubmitCreatedStore | src/components/CreateElectionModal.tsx:230-305 | the writes are the election and its links, then the partylist, then the template positions |
| CreateElectionModal.PartylistThenPositions | src/components/CreateElectionModal.tsx:244-303 | the partylist write and then the position writes add the default contents |
| CreateElectionModal.AddPositionsEffect | src/components/CreateElectionModal.tsx:268-303 | the position writes append one document per title and keep the earlier positions and the partylists |
| CreateElectionModal.SubmitKeepsIdNamesUnique | src/components/CreateElectionModal.tsx:220-233 | if id names were unique before a submit, they still are after it |
| CreateElectionModal.Submit | src/components/CreateElectionModal.tsx:199-312 | the submit as the store sees it; SubmitGuards, SubmitCreatesElection, SubmitCreatesContents, SubmitCreatedStore and SubmitKeepsIdNamesUnique |
| CreateElectionModal.NewElection | src/components/CreateElectionModal.tsx:230-236 | the election document written; SubmitCreatesElection |
| CreateElectionModal.DefaultPartylist | src/components/CreateElectionModal.tsx:73-82 | the "Independent" (IND) partylist every new election gets; SubmitCreatesContents |
| CreateElectionModal.AddElection | src/components/CreateElectionModal.tsx:230-236 | `addDoc` of the election; SubmitCreatesElection and SubmitCreatedStore |
| CreateElectionModal.LinkAdmin | src/components/CreateElectionModal.tsx:237-240 | the signed-in admin's elections gain the id through ArrayUnion, nothing without a session; SubmitCreatedStore |
| CreateElectionModal.SetElectionUid | src/components/CreateElectionModal.tsx:241-243 | the new election's `uid` becomes its document id; SubmitCreatesElection |
| CreateElectionModal.AddPartylist | src/components/CreateElectionModal.tsx:244-265 | `addDoc` of the default partylist with its `uid` set; SubmitCreatesContents and PartylistThenPositions |
| CreateElectionModal.AddPositions | src/components/CreateElectionModal.tsx:267-303 | one position document per template title, in order; AddPositionsEffect and PartylistThenPositions |
| CreateElectionModal.PickedRangeOrdered | src/components/CreateElectionModal.tsx:377-405 | a start the picker allows is after now, and an end it allows is after that start |
| CreateElectionModal.RepickedStartCanPassEnd | src/components/CreateElectionModal.tsx:368-376 | picking a new start later than the chosen end is allowed and leaves the end before the start |
| CreateElectionModal.StartTimeSelectable | src/components/CreateElectionModal.tsx:377-382 | a start time later than now; PickedRangeOrdered |
| CreateElectionModal.EndTimeSelectable | src/components/CreateElectionModal.tsx:399-405 | an end time later than the start, or now; PickedRangeOrdered and RepickedStartCanPassEnd |
| CreateElectionModal.Firestore.constructor | src/components/CreateElectionModal.tsx:230 | the store holds the given documents |
| CreateElectionModal.Firestore.NewDocId | src/components/CreateElectionModal.tsx:230 | a fresh document id comes from the counter |
| CreateElectionModal.Firestore.AddElectionDoc | src/components/CreateElectionModal.tsx:230-236 | appends the election document under a fresh id |
| CreateElectionModal.Firestore.LinkAdminDoc | src/components/CreateElectionModal.tsx:237-240 | `updateDoc` on the admin succeeds exactly when the admin document exists, and then adds the election to its list |
| CreateElectionModal.Firestore.SetElectionUidDoc | src/components/CreateElectionModal.tsx:241-243 | sets the election's `uid` |
| CreateElectionModal.Firestore.AddPartylistDoc | src/components/CreateElectionModal.tsx:244-265 | appends the default partylist, with its own id as `uid` |
| CreateElectionModal.Firestore.AddPositionDocs | src/components/CreateElectionModal.tsx:272-303 | the loop over the template writes one position document per title |
| CreateElectionModal.ModalState.constructor | src/components/CreateElectionModal.tsx:84-92 | no error, not loading, the start date now, no end date and template "0" |
| CreateElectionModal.ModalState.Reset | src/components/CreateElectionModal.tsx:183-189 | opening clears the name and id name, sets the start to now, clears the end and the error, and selects template "0" |
| CreateElectionModal.ModalState.TypeIdName | src/components/CreateElectionModal.tsx:343-353 | typing applies the id-name edit rule |
| CreateElectionModal.ModalState.SetStartDate | src/components/CreateElectionModal.tsx:368-376 | picking a start clears the error; clearing the start also clears the end |
| CreateElectionModal.ModalState.SetEndDate | src/components/CreateElectionModal.tsx:394-397 | picking an end clears the error |
| CreateElectionModal.ModalState.OnSubmit | src/components/CreateElectionModal.tsx:199-312 | the submit's writes equal the submit specification; a missing date sets the dates error and a taken id name the id-name error, and success clears loading |

## Left out

- E-mail rendering and delivery, PDF rendering and the storage upload are left out. Each is a
  step that may throw: a set of undeliverable addresses, and a set of elections whose render or
  upload throws. The stored document is the tally itself.
- The Supabase upload returns its errors instead of throwing them, and the handler ignores them.
  So only a throw, not a returned error, stops the tick.
- Prisma, Firestore and Supabase are in-memory tables, maps and counters:
  - Document ids come from a counter.
  - Invitation token ids are "c" plus a counter, not a cuid.
  - The public URL is a fixed prefix plus the path.
- `Date` handling is reduced to integer instants in UTC milliseconds.
  - The server is assumed to run in UTC, which is what the `- 8` hour correction at
    do-election-processing.tsx lines 31 and 128 assumes.
  - Asia/Manila is a fixed UTC+08:00 offset.
  - `toLocaleString`'s format is not modelled, only its loss of milliseconds.
  - `Date.now()` and `toDateString()` in result file names are an input stamp per closed
    election.
- QStash signature checking, next-auth (`getSession`, `signIn`, `reloadSession`), router
  navigation, notifications, confetti and every piece of layout are left out.
- `isAdminExists` and `isElectionIdNameExists` are not part of this model. The model uses their
  plain meaning: an admin with that e-mail exists; an election with that id name exists.
- `slugify`, `readXlsxFile`, the sample-sheet download and `uploadImage` are unseen libraries.
  - A dropped file is its name and its already-parsed rows.
  - A spreadsheet cell is a string, an integer, a boolean, null, a fractional number with its
    display text, or a date object with its display text and an object identity.
  - Identities of date objects are whatever the reader assigned; the model does not require
    them to be distinct across rows.
- The server mutations called by the candidate editor are a `ServerDelete` outcome. Their effect
  is not modelled, nor is the candidate edit mutation.
- Concurrency is left out:
  - overlapping ticks;
  - the un-awaited `forEach` over template positions and the un-awaited partylist `uid` write in
    the modal;
  - the asynchronous per-file reads on a drop.

  Each of these is modelled in its sequential order.
- ElectionProcessing.ProcessTick: per-voter failure isolation and a check for an existing result
  are not modelled, because the code has neither. Invitations are minted with the expiry as the
  code computes it, 8 hours after the close (InvitesForIsLate); the intended expiry is
  InvitationExpiry, which the tick does not use. A throwing send aborts the rest of the tick,
  and a rerun in the same hour appends another result record (TickRerun).
- CreateElectionForm.NameError: this assumes Mantine's `hasLength` measures the trimmed value.
  A raw name shorter than 3 characters is refused either way. Lengths count Unicode code points,
  while JavaScript's `length` counts UTF-16 code units, so a name with characters outside the
  Basic Multilingual Plane can pass in the browser and fail here.
- Signup.SubmitEnabled: the 8-character password minimum counts Unicode code points, not UTF-16
  code units as JavaScript's `length` does, so a short password of such characters is enabled
  in the browser and not here.
- Tally.DisplayNameShape: the middle initial is the middle name's first code point. JavaScript's
  `charAt(0)` returns one UTF-16 unit, which is half a character when the name starts outside the
  Basic Multilingual Plane.
- Tally.DisplayName: the same code-point reading of `charAt(0)` as DisplayNameShape.
- ElectionProcessing.WhereStart, WhereEnd, AddedVoters, Tally.PositionsOf and Tally.CandidatesOf:
  the contracts state which rows are returned, not their order or repeats. The tick uses these
  functions themselves, so the order the tick processes rows in is the table order.
- EditCandidateForm.RequiredName: the same assumption about `hasLength` with a minimum of 1.
- CreateElectionModal.ModalState.OnSubmit: when the admin document is missing, `updateDoc`
  throws after the election was written. Loading then stays on (AdminUpdateFailed), and the
  model does not say what the user sees afterwards.
- CreateElectionModal.RepickedStartCanPassEnd: re-picking the start does not clear or check the
  end, so a range can end before it starts. This is stated as the code behaves; no correction is
  modelled.
- CreateElectionModal.SubmitCreatesContents: the lemmas take the template options as a
  parameter. The modal passes its six templates (`Templates`), whose contents are stated by
  TemplateContents.
- TokenRouter.FindInvitation and TokenRouter.IsInvitationFor: the signed-in session is assumed
  to carry an e-mail (`sessionEmail` is a string). When `session.user.email` is undefined,
  Prisma drops that filter, which this model does not capture.
- TokenRouter.Verify: the `userId` test is written as a non-empty owner id. A token owned by an
  invitee instead of a user counts as having no `userId`.
- Signup.SignupPage.OnSubmit: the `signIn` after the `uid` write is left out, and a failing
  Firestore write is not modelled.

## Findings

| source | as written | input that shows it | evidently intended | confidence | as-written member | corrected member |
|---|---|---|---|---|---|---|
| src/pages/api/do-election-processing.tsx:58-66 | the token expiry is `end_date` converted to Manila wall-clock text and read back in the server's zone (UTC), then `setHours(voting_end)`, with no `- 8` correction, unlike lines 31 and 128 | an election ending on 2024-06-01 with `voting_end` 19: the token is valid until 03:00 on 2024-06-02 Manila time, 8 hours after voting ended | the token expires at the end day's `voting_end` hour, Manila time | not executed | ElectionProcessing.InvitationExpiryAsWrittenIsLate | ElectionProcessing.InvitationExpiryIsClose |
| src/server/api/routers/token.ts:55-74 | the election lookup is an `OR` over `invitedVoter some {id: token.invitedVoter?.id}` and `invitedCommissioner some {id: token.invitedCommissioner?.id}`, and Prisma ignores an `id: undefined` filter | a voter's token for election b, where election a has any invited commissioner: the commissioner branch matches a, which comes first, so a is returned | the election whose invited voters or commissioners include the token's owner | not executed | TokenRouter.InviteeElectionAsWrittenExample | TokenRouter.GetByIdIntendedOk |
| src/components/modals/EditCandidate.tsx:652-665 | a new item's id is `(length + 1).toString()`, the same rule for all four lists | add, add, delete the unsaved "1", add: two platforms now have id "2", and deleting the newest removes both | a new item's id differs from every id in the list | not executed | EditCandidateForm.AddPlatformAsWrittenExample | EditCandidateForm.AddPlatform |
