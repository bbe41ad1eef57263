# FlexyVotes election engine: a verified model

FlexyVotes runs secret-ballot elections and paid public votes. This project models its election engine in
Dafny and proves what the engine is for. `dafny verify dfyconfig.toml` checks everything.

Each part of the engine that changes things step by step is a method with its loops, or a class with the
stored fields, and its contract ties the new state to a function of the old one. The lemmas are about those
functions, over every input or every run. In the table, "every run" means any number of the listed
operations in any order, starting from nothing stored.

| files | part of the engine |
|---|---|
| `RankedRounds`, `RankedCount`, `RankedAsCast`, `RankedProportionality`, `RankedAnonymity`, `RankedExplained`, `RankedTheorems`, `Sums` | the ranked count (instant runoff and single transferable vote) |
| `Plurality`, `PositionTally` | first-past-the-post and approval counts with their ties, and which votes they count |
| `Shamir`, `ShamirTheorems`, `Polynomials`, `PrimeField`, `ShareText`, `ByteStrings`, `Trustees`, `TrusteeRuns` | secret sharing and key custody |
| `Merkle`, `ProofProfiles`, `Bulletin` | the bulletin board of ballot trackers |
| `Ballots`, `BallotMeaning`, `Casting`, `CastingRuns`, `CastingRecord`, `RollRecord`, `CastingSecrecy` | what a ballot may say, and how it is cast once and anonymously |
| `Lifecycle`, `Elections`, `ElectionDesk`, `ElectionRuns`, `ElectionTheorems`, `ElectionEffects`, `ElectionCounts`, `DualControl`, `Verification`, `BundleRuns` | stages, edits, approval, tallying, certification, public verification |
| `Payments`, `PaymentRuns`, `PaymentHolds`, `PaymentRefunds` | a payment, its ledger row, holds, refunds and disputes |
| `AuditChain` | the hash-chained audit log |
| `Constituencies` | the constituency tree and its path index |

Exact fractions are `real`. Hashes, checksums, encodings and the lot drawn for a candidate are parameters;
that a hash has no collisions is assumed only of the finitely many texts a statement is about. The prime of
the key sharing is a parameter with its primality as a hypothesis. Time, randomness, permissions, the answers
of the payment gateway and the fraud score are arguments of the operations, so the theorems hold for all of them.

Where the code limits what is true, the condition proved is exact, and a lemma shows an input on the other side:

- A transition can be requested by its name, and nothing there asks whether the action is one of the manual
  ones (`api/api.py:534-541`, `elections/lifecycle.py:173-200`); only the list of offered actions does
  (`elections/lifecycle.py:166-170`). A plain `decertify` leaves a certification in force: at most one is in
  force exactly in the runs without that step (`OneCertificationInForce`, `TwoInForce`). A plain `decertify` or
  `reopen_voting` takes one person where two are required: two it takes exactly in the runs without those
  (`SensitiveTakesTwo`, `OnePersonReopens`, `OnePersonDecertifies`).
- A snapshot can be signed on demand in any stage (`elections/views_console.py:543-546`), and the bundle shows
  the latest one. After certification that fails the check of the certified configuration; the exact condition is
  `BundlePassesThroughout`, an input `SnapshotBreaksBundle`. Root, result hash and signature hold regardless.
- Saving the settings of an approved election clears the approver and then writes the loaded row back, approver
  included (`elections/lifecycle.py:269-272`, `api/api.py:519-529`). The approver's name therefore says something
  only together with the history (`ConfigurationIsApproved`, `ApproverOutlivesEdit`).
- A refund request is checked against processed refunds only. Too much can go back exactly if an accepted
  request exceeded what the open ones leave (`CoveredIffNotOverasked`, `OverRefundIffUncovered`).
- A dispute won over a payment that was never reported as successful makes it successful, and reconciliation then
  credits its votes (`payments/service.py:600-602`, `763-768`). The exact condition is `OnlyReportedIffNoJump`, an input `WonDisputeCredits`.
- A refund that takes votes back does so when it is processed. Votes credited for the first time after that count
  (`RefundTakesVotesBack`, `CreditedAfterRefund`).
- Losing a dispute does not itself reverse votes (`LostPaymentsDoNotCount`, `LostDisputeKeepsVotes`).
- A leaf is hashed from the byte 0 and a value of any length, a pair from two texts of any length. So a digest with a
  single byte beside it can pass for a leaf, and a pair of digests that starts with 0 for the leaf of a value of 63
  bytes. Going by lengths, the proofs of a value are sound unless one sibling is a single byte and all later ones
  have full length, or the value has 63 bytes and all siblings have full length (`SoundProfiles`,
  `OneByteSiblingUnsound`, `LongValueUnsound`). Stored trackers have 32 bytes, and so have all siblings in the proofs
  the engine hands out.
- A bundle is not checked for repeated trackers or for their length. Two passing bundles with one payload show one
  board if no tracker is repeated and none has 63 bytes, as on every stored board (`BundlesBind`, `BoardIsBound`,
  `RepeatedTrackerPasses`, `LongTrackerPasses`).
- A voter row read before and saved after somebody else's commit carries its old status back
  (`elections/voters.py:279-297`). The roll agrees with the ballots throughout a run exactly if that never takes the
  mark from a voter who has voted (`RollAgreesWithBallots`, `StaleWriteUnmarksVoter`); one ballot per voter holds
  regardless (`OneBallotPerVoter`).
- A key share scheme for the empty secret deals shares that do not combine (`Reconstruction`).
- A comment in the key sharing says that wrong shares are always detected (`core/crypto.py:413-414`).
  The code compares an eight-byte checksum, so a wrong reconstruction passes whenever the checksum happens to match; detection is not claimed here.
- After the submitted shares are wiped the tally cannot rebuild the key, although the submissions stay on
  record; this is the exact condition in `TallyObtainsKey`.
- An audit chain whose head row is missing verifies whenever it is linked: after its end is cut off, and with any other
  content hashed anew from the start (`HeadGuardsTheEnd`, `WithoutHeadAnythingLinked`).
- A constituency saved below itself breaks the path index for good (`SaveBelowItselfBreaks`), and one moved to another
  organization leaves those below it behind (`OrganizationsAgree`, `LeftBehind`).

## Model

| member | source | states |
|---|---|---|
| RankedCount.Ranked | elections/tally.py:114-216 | the whole count ends, on every input including no ballots or no candidates; its result reports a sequence of states, each reached from the one before by a legal round, with every round's tallies, exhausted weight and ties |
| RankedCount.PlayRound | elections/tally.py:153-204 | one pass of the loop is a legal round: fill the rest, seat the best who reached the quota, or eliminate the lowest |
| RankedCount.CurrentTallies | elections/tally.py:138-148 | tallies and exhausted weight are the sums of the ballot weights by top continuing preference |
| RankedCount.FillRemaining | elections/tally.py:159-165 | the remaining candidates are appended, each once, in order of tally, then lot |
| RankedCount.Reduce | elections/tally.py:175-187 | in place, the ballots that back the winner and no others keep the given share of their weight |
| RankedCount.ElectFirst | elections/tally.py:166-189 | the one seated leads the tallies among those who reached the quota, lots deciding; the ballots are the transferred ones |
| RankedCount.EliminateLowest | elections/tally.py:190-204 | the one eliminated is lowest by tally, then by first preferences, then by lot; the tie list is exact |
| RankedCount.CollectBallots | elections/tally.py:119-127 | the loop lists the known marks of each selection that has any; every other selection is an abstention |
| RankedAsCast.BallotsAsCast | elections/tally.py:119-127 | the lists counted are, in order, those of the selections with a known mark: each is the subsequence of exactly the known marks, in the voter's order |
| RankedAsCast.CountedAsItStands | elections/tally.py:122-126 | a ranking of known candidates is counted as it stands |
| RankedRounds.TraceInvariant | elections/tally.py:153-205 | before every round each candidate is in exactly one of continuing, elected and eliminated, every weight is in [0,1] and no seat is overfilled |
| RankedRounds.WeightConservation | elections/tally.py:133-189 | before every round the total weight is valid minus elected times quota, and equals the tallies plus the exhausted weight |
| RankedRounds.TransferTakesQuota | elections/tally.py:175-187 | seating a winner removes exactly one quota, whether there is a surplus or the quota was met exactly |
| RankedRounds.ActiveIsTallySum | elections/tally.py:138-155 | the weight in play is what the tallies of the continuing candidates add up to |
| RankedRounds.SeatsFilled | elections/tally.py:132-204 | at most one round per candidate; exactly max(1, min(seats, candidates)) distinct winners, none of them eliminated |
| RankedProportionality.SolidCoalitionsAreServed | elections/tally.py:114-205 | Droop proportionality: more than k quotas of ballots that rank a group first seat at least min(k, size) of it; with one seat, mutual majority |
| RankedAnonymity.CountIsAnonymous | elections/tally.py:119-205 | counts of the same ballots in any order and any iteration order, with distinct lots, seat and eliminate the same candidates with the same tallies, round by round |
| RankedTheorems.ResultFillsSeats | elections/tally.py:114-216 | what the count returns has exactly the clamped number of distinct winners, disjoint from the eliminated |
| RankedTheorems.ResultCountsVoters | elections/tally.py:119-131 | the valid ballots and first preferences published are the numbers of voters who marked anybody known, and whose first known mark is for the candidate |
| RankedExplained.RoundsExplainThemselves | elections/tally.py:153-204 | every published round can be checked against the numbers it shows: who was tallied, who was seated or dropped, by which rule and tie-break |
| RankedExplained.FirstRoundIsFirstPrefs | elections/tally.py:128-148 | the first round tallies first preferences |
| RankedExplained.WeightsAddUp | elections/tally.py:138-189 | in every published round tallies and exhausted weight make up the valid ballots less a quota for each candidate seated before |
| RankedTheorems.ResultIsProportional | elections/tally.py:114-216 | the proportionality guarantee in terms of the marks as cast: more than k quotas of the voters who took part, each naming exactly a group before any other known candidate, seat at least min(k, size) of it |
| RankedTheorems.ResultIsReproducible | elections/tally.py:114-216 | permuting the selections leaves winners, eliminated and every published round unchanged |
| Plurality.Count | elections/tally.py:27-67 | counts are the marks each candidate received, winners those sure of a seat, ties those for whom a seat is drawn |
| Plurality.SeatsAreNeverDrawn | elections/tally.py:27-36 | a candidate wins exactly if fewer than the number of seats have at least as many votes besides; a tie across the last seat seats nobody of it |
| Plurality.CountMarks | elections/tally.py:45-62 | every mark for a candidate counts once, blank selections are abstentions |
| Plurality.MarksAreCounted | elections/tally.py:45-62 | the votes of a candidate are the number of marks for them, over all places of all ballots |
| Plurality.TotalIsMarks | elections/tally.py:45-67 | the total is the number of all marks for candidates |
| Plurality.BlanksAreCounted | elections/tally.py:45-55 | abstentions are the selections without a mark |
| PositionTally.CollectSelections | elections/results.py:92-101 | the loop gathers the selections of the ballots that have the position |
| PositionTally.CountedAsCast | elections/results.py:92-101 | after any run of casting, what is counted for a position is, in order, what the successful casts chose for it |
| PositionTally.VotesAreVoters | elections/results.py:92-107 | the marks counted for a candidate are the voters who cast a ballot naming them, each once |
| Shamir.SplitSecret | core/crypto.py:410-425 | the shares are printed points of the polynomial with the packed secret as constant, or the right refusal |
| Shamir.CombineShares | core/crypto.py:438-456 | Lagrange's formula at 0 on the parsed points, unpacked; the refusals for malformed and repeated shares, for differences without inverse and for a wrong mark or checksum |
| ShamirTheorems.SplitOutcome | core/crypto.py:410-425 | the refusals, and otherwise as many shares as asked for, share i parsing to the point at i |
| ShamirTheorems.SharesAreRefused | core/crypto.py:428-441 | refused as malformed exactly if one cannot be read, as repeated exactly if all can and two have one number |
| ShamirTheorems.UnpacksOnlyPacked | core/crypto.py:449-456 | a number unpacks to a secret exactly if it is the packed form of it, checksum included, and the secret is not empty |
| ShamirTheorems.CombinesToInterpolated | core/crypto.py:438-456 | whatever is submitted with distinct nodes: a secret comes out exactly if its packed form is the value at zero of the polynomial through the points |
| Shamir.Evaluate | core/crypto.py:421-423 | the reversed loop gives the polynomial's value modulo the prime |
| ShareText.ShareRoundTrip | core/crypto.py:424-435 | a printed share parses to its point |
| ShareText.ParsesExactly | core/crypto.py:428-435 | a text is read as a share exactly if, stripped, it is the prefix and two numbers joined by dashes |
| ShareText.StripIsPadding | core/crypto.py:430-430 | stripping takes off the blanks around a text, all of them and nothing else |
| ShareText.PrintInjective | core/crypto.py:424-424 | different points print differently |
| ByteStrings.BytesRoundTrip | core/crypto.py:415-450 | reading a marked byte string as a number and writing it back gives the byte string |
| ByteStrings.NumberRoundTrip | core/crypto.py:449-449 | writing a number as bytes and reading them gives the number |
| PrimeField.PrimeInverse | core/crypto.py:448-448 | modulo a prime every non-zero residue has an inverse, and Euclid's algorithm finds it |
| Polynomials.TooManyRoots | core/crypto.py:443-448 | a polynomial with as many distinct roots modulo a prime as coefficients vanishes |
| Polynomials.LagrangeRecovers | core/crypto.py:442-448 | interpolation through enough points of a polynomial gives its value anywhere |
| ShamirTheorems.Reconstruction | core/crypto.py:410-456 | any threshold distinct shares give the secret back, through printing, parsing and packing, if and only if the secret is not empty |
| ShamirTheorems.Hiding | core/crypto.py:418-424 | for any threshold - 1 shares and any value, exactly one choice of coefficients explains the shares |
| Trustees.KeyStore.EnsureKey | elections/keys.py:23-48 | the key is made once; with trustees the shares are dealt in order, each with its hash, otherwise the key is kept wrapped |
| Trustees.KeyStore.Collect | elections/keys.py:61-74 | a share is handed out once and then forgotten |
| Trustees.KeyStore.Submit | elections/keys.py:77-89 | a text is taken only if its hash is that of the trustee's share |
| Trustees.KeyStore.PrivateKey | elections/keys.py:99-118 | the key for the tally, or the reason there is none |
| TrusteeRuns.TallyObtainsKey | elections/keys.py:77-122 | in every run of collecting, submitting and wiping after the deal, told from its steps: refused while too few trustees have submitted the share dealt to them, refused if one of the first of these was wiped since, and otherwise the generated key |
| TrusteeRuns.RowsTellTheRun | elections/keys.py:61-89 | after any run each row says exactly who has handed their dealt share back, whether it is still held, and who has collected theirs |
| TrusteeRuns.ShareIsHandedOutOnce | elections/keys.py:61-74 | a trustee gets the dealt share exactly when asking for the first time |
| TrusteeRuns.KeyFitsElection | elections/keys.py:99-118 | a key kept by the system is obtained as it was made, and no key is given out that does not fit the public one |
| TrusteeRuns.EnoughSharesSuffice | elections/keys.py:77-118 | before any wipe it suffices that threshold trustees, whichever, have submitted the shares dealt to them, with or without blanks around |
| TrusteeRuns.DealingDeals | elections/keys.py:33-39 | generating the key gives every trustee the share the later statements speak of |
| Merkle.MerkleRoot | core/crypto.py:470-478 | the level-by-level loop computes the root of the tree built bottom-up, a last odd node repeated |
| Merkle.SmallBoards | core/crypto.py:462-478 | the format spelled out for boards of up to three values |
| Merkle.MerkleProof | core/crypto.py:481-491 | the loop collects the siblings on the way from a leaf to the root |
| Merkle.VerifyProof | core/crypto.py:494-498 | the checker accepts a value and siblings of any length exactly if climbing along the siblings ends in the root |
| Merkle.SmallProofs | core/crypto.py:494-498 | the sides spelled out for proofs of up to two steps |
| Merkle.ProofsAreComplete | core/crypto.py:470-498 | for every list and every index, the proof of the value there is accepted against the root |
| Merkle.ProofsAreSound | core/crypto.py:494-498 | an accepted proof, for a value of any length, is of a value in the list of digests, unless one sibling is a single byte and all later ones have full length, or the value has 63 bytes and all siblings have full length |
| ProofProfiles.SoundLengths | core/crypto.py:462-498 | accepted proofs for values of one length, with siblings all of one length, are of values in the list, whatever the hash without collisions and whatever the board, exactly if the siblings do not have one byte and the value not 63 |
| ProofProfiles.OneByteSiblingUnsound | core/crypto.py:462-498 | an accepted proof for a value that is not on a one-ballot board |
| ProofProfiles.SoundProfiles | core/crypto.py:462-498 | for a value of any given length and siblings of any given lengths, in order: accepted proofs are sound unless the lengths are those of the two exceptions; and then, for proofs of fewer than 256^31 siblings, there is a counterexample |
| ProofProfiles.PosingAccepted | core/crypto.py:462-498 | the counterexample for a value of any length and each list of lengths with a single byte and only full lengths after it: hash, board, absent value and accepted proof |
| ProofProfiles.LongValueAccepted | core/crypto.py:462-498 | the counterexample for a value of 63 bytes and any number of siblings of full length: hash, board, absent value and accepted proof |
| ProofProfiles.LongValueUnsound | core/crypto.py:462-498 | the shortest such case: a value of 63 bytes accepted with no siblings against a board of two different ballots |
| ProofProfiles.TwoBallotBoardUnsound | core/crypto.py:462-498 | under every hash, a one-byte sibling and the other ballot's leaf prove an absent value against a board of two different ballots |
| Merkle.RootBinds | core/crypto.py:470-478 | without values of 63 bytes, lists of one length, and lists of any lengths without repeated values, have equal roots exactly if they are equal; in general exactly if their trees are |
| Merkle.RepeatedLeafKeepsRoot | core/crypto.py:475-476 | repeating the last of an odd number of leaves keeps the root |
| Merkle.LongLeafHasPairRoot | core/crypto.py:462-478 | where the first leaf of a pair has a digest that starts with 0, the rest of the text of the pair, 63 bytes, is alone a board with the same root |
| Ballots.NormalizeSelection | elections/ballot.py:135-192 | the code path for each kind of position gives the canonical selection or refuses |
| Ballots.ValidateBallot | elections/ballot.py:195-210 | the whole ballot or nothing |
| Ballots.AcceptedIsLegal | elections/ballot.py:113-192 | what is accepted abstains where allowed, or names distinct active candidates within the limits, or scores in range |
| Ballots.LegalIsAccepted | elections/ballot.py:113-192 | every legal selection can be cast, and is recorded as it is |
| Ballots.BallotIsWhole | elections/ballot.py:195-210 | accepted exactly if there are no foreign positions and each position of the style has an acceptable selection; exactly those are recorded |
| BallotMeaning.NormalizeIsExact | elections/ballot.py:113-192 | for every kind of position and all data: accepted with a selection exactly if the data stands for it, told without the code that reads it, and the position allows it |
| BallotMeaning.NumbersAllowed | elections/ballot.py:38-53 | how many candidates a legal choice names, kind by kind |
| BallotMeaning.PrintedIdsAreRecorded | elections/casting.py:166-200 | ids sent as text, as the web form posts them, are recorded as those ids, a ranking in the order sent |
| BallotMeaning.ValidatedIsExact | elections/ballot.py:195-210 | a ballot is recorded with given selections exactly if it names no foreign position and what was sent for each position of the style stands for its selection |
| BallotMeaning.SentBallotIsRecorded | elections/ballot.py:195-210 | a ballot of legal selections, rendered in any order, is recorded with exactly these |
| Casting.PollingPlace.Issue | elections/casting.py:58-83 | refusals in order; otherwise unused authorizations of the voter are revoked and one is issued |
| Casting.PollingPlace.Cast | elections/casting.py:110-157 | refusals in order; otherwise one ballot is stored, the authorization consumed and the voter marked, and the log tells only who voted |
| CastingRecord.BallotsAreAsCast | elections/casting.py:110-157 | every run: the stored ballots are, in order, those of the casts that may succeed, each with the style of the token and for every position the legal selection that the submitted data stands for |
| CastingRecord.EligibleVoterCanCast | elections/casting.py:58-157 | after any run without a stale write on a voter who has voted, whoever may vote gets an authorization and stores exactly the selections chosen with it |
| CastingRecord.UsableTokens | elections/casting.py:58-140 | every run: a token can be used exactly if a step issued it and none has spent, replaced, revoked, expired or removed it since; it says what it was issued with |
| CastingRecord.RefusalsAreTrue | elections/casting.py:110-136 | each reason for refusing a ballot is true of what is stored and submitted |
| CastingRecord.IssueRefusalsAreTrue | elections/casting.py:58-70 | and each reason for not issuing one |
| RollRecord.SpentTokensWereCast | elections/casting.py:141-143 | every run: exactly the tokens that a successful cast presented are spent |
| RollRecord.RollTellsTheRun | elections/voters.py:136-320 | every run: a voter is on the roll, with a status, exactly as the last step about them said |
| RollRecord.DetailsChange | elections/voters.py:160-388 | codes change exactly when a new one is asked for, constituencies only by import, to the last one named |
| RollRecord.LogTellsTheRun | elections/casting.py:79-157 | every run: the log holds exactly what its steps put there |
| Casting.PollingPlace.Expire | core/tasks.py:12-23 | issued authorizations past their time expire, nothing else changes |
| Casting.PollingPlace.Import | elections/voters.py:136-208 | known voters who have not voted are updated, unknown ones added, others skipped; every row is counted |
| Casting.PollingPlace.ResetCredential | elections/voters.py:247-262 | a new code revokes unused authorizations, never for a voter who voted |
| Casting.PollingPlace.ResendCredential | elections/voters.py:366-388 | the same by self-service, only for voters who can vote |
| Casting.PollingPlace.SetStatus | elections/voters.py:279-297 | status changes to and from voted are refused; barring a voter revokes |
| Casting.PollingPlace.Remove | elections/voters.py:300-309 | a voter with a consumed authorization is never removed |
| Casting.PollingPlace.Clear | elections/voters.py:312-320 | the voters who have not voted are removed, or nobody is |
| CastingRuns.OneBallotPerVoter | elections/casting.py:58-157 | every run, stale status writes included: as many ballots as consumed authorizations, at most one of those for each voter, and at most one issued |
| CastingRuns.RollAgreesWithBallots | elections/voters.py:136-320 | throughout a run, ballots, consumed authorizations and voted voters are equally many and match, and nobody who voted holds an issued one, exactly if no stale write takes the mark from a voter who has voted |
| CastingRuns.ConstraintNeverHit | elections/models.py:225-229 | every run without such a write: whatever is cast at any moment of it, the unique constraint never has to refuse a ballot |
| CastingRuns.StaleWriteUnmarksVoter | elections/models.py:225-229 | after a stale write the voter looks able to vote, and no token of theirs casts a second ballot |
| CastingSecrecy.VotesAreUnlinkable | elections/casting.py:110-157 | exchanging the votes of two voters with the same style and recorded constituency, anywhere in any run, leaves roll, authorizations, log and the multiset of ballots the same |
| Lifecycle.Moved | elections/lifecycle.py:41-163 | every action reaches the stage of the table; only approval names an approver, only submitting and withdrawing change the submitter, only closing moves the end, none lifts a freeze or a legal hold |
| Lifecycle.Opened | elections/lifecycle.py:91-101 | opening starts the voting period by now at the latest and keeps its end, submitter and approver |
| Lifecycle.RenamingKeepsCore | elections/integrity.py:30-64 | a candidate's name is outside the part of the configuration that approval is about |
| Elections.Current | elections/results.py:274-275 | the certification in force is the latest that is not revoked, and there is none only if all are revoked |
| ElectionDesk.Desk.Transition | elections/lifecycle.py:173-200 | sources, permission, guard and effect of every action; on approval the signed snapshot of the configuration |
| ElectionEffects.ActOutcome | elections/lifecycle.py:41-200 | when each action is possible and what it leaves of the row, notes of time and freezes included |
| ElectionEffects.NotesAreKept | elections/lifecycle.py:91-160 | every run: archived elections stay archived and are the inactive ones, what was opened or published has a note of it, and the first opening is never rewritten |
| ElectionDesk.Desk.Tick | elections/lifecycle.py:214-228 | opening and closing by time, also both at once after an outage |
| ElectionEffects.TickOutcome | elections/lifecycle.py:214-228 | the clock opens what is due if the key is there and closes what is over, and leaves the rest |
| ElectionDesk.Desk.RequireEditable | elections/lifecycle.py:237-276 | allowed exactly by stage, freeze and scope; an approved election goes back to draft |
| ElectionDesk.Desk.Edit | elections/lifecycle.py:264-276 | an edit changes what its scope covers, or nothing; saving settings writes the loaded row back after a reset, approver included, and bad dates are refused after the reset |
| ElectionEffects.EditOutcome | elections/lifecycle.py:237-276 | which edits are possible when, and what each leaves behind |
| ElectionEffects.RenamingOutcome | elections/integrity.py:30-64 | a new name changes the name of that candidate wherever they stand, and nothing else |
| ElectionDesk.Desk.SnapshotConfiguration | elections/integrity.py:67-78 | the next version of the configuration as it is now, hashed and signed with the current key |
| ElectionDesk.Desk.SignSnapshot | elections/views_console.py:543-546 | a snapshot on demand, in any stage |
| ElectionEffects.SnapshotOutcome | elections/integrity.py:67-78 | a step that signs adds one snapshot of settings, positions, candidates, rules, dates and roll as they are; no other step adds any |
| ElectionEffects.SnapshotsAreNumbered | elections/integrity.py:67-72 | every run: snapshots are numbered from one |
| ElectionDesk.Desk.RunTally | elections/results.py:183-211 | when it may run, what it stores, what it supersedes, and that a failure leaves tallying started |
| ElectionCounts.ResultsCountTheBallots | elections/results.py:53-131 | every run: each stored result was computed at some step, of the kind and by whom it says, with the turnout of the roll then; its winners and votes are the count of exactly the ballots stored that open, in order of trackers, and its numbers are those of valid and invalid ones; a paid election counts an empty box |
| ElectionCounts.CertificationsCountTheBallots | elections/results.py:219-257 | every run: each certification states the ballots and turnout of an official result that counts exactly the ballots stored |
| ElectionEffects.OneResultWaits | elections/results.py:196-206 | every run: at most one official result waits for review |
| ElectionEffects.BoardIsWhatWasCast | elections/casting.py:122-136 | every run: the board holds exactly the votes taken while voting was open, in order |
| ElectionDesk.Desk.ApproveAndCertify | elections/results.py:219-257 | the refusals; otherwise the signed payload of the result, and the election certified |
| ElectionEffects.CertificationOutcome | elections/results.py:219-257 | certifying adds one certification with the result's counts, the latest snapshot and the key in use, approves the result and moves the election, or does nothing |
| ElectionDesk.Desk.RejectResult | elections/results.py:260-271 | only a pending result is rejected |
| ElectionDesk.Desk.CurrentCertification | elections/results.py:274-275 | the most recent certification not revoked |
| ElectionDesk.Desk.RevokeCertification | elections/results.py:278-287 | revoked, superseded and back to tallying, or rolled back as a whole |
| ElectionDesk.Desk.Perform | elections/integrity.py:124-184 | the sensitive actions, each with its refusals |
| ElectionEffects.PerformanceOutcome | elections/integrity.py:124-184 | each sensitive action is possible exactly when it should be, and then does what it says and nothing else |
| ElectionDesk.Desk.Execute | elections/integrity.py:205-222 | a failure is recorded and changes nothing else |
| ElectionDesk.Desk.RequestApproval | elections/integrity.py:225-249 | a request waits for a second person, or is carried out at once where none is required |
| ElectionEffects.AskOutcome | elections/integrity.py:205-249 | a request is put on record with its time limit and waits, or is carried out, and a failure changes nothing else |
| ElectionDesk.Desk.DecideRequest | elections/integrity.py:252-274 | decided once, in time, and by somebody else |
| ElectionEffects.DecisionOutcome | elections/integrity.py:205-274 | a decision in time by somebody else is recorded and carried out if it approves; a late one ends the request |
| ElectionDesk.Desk.CancelRequest | core/views_console.py:93-98 | only who asked withdraws a request, and only while it waits |
| ElectionTheorems.ConfigurationIsApproved | elections/integrity.py:30-78 | every run: an election that was approved and has not been a draft since, archived or not, has an approver, under dual approval not the submitter, and a sound snapshot from that approval that describes a secret-ballot election in all but names, dates and roll |
| ElectionTheorems.ApprovalLasts | elections/lifecycle.py:137-276 | between any two moments from approval on without a draft in between, settings, the approved part and the approval's snapshot are the same, and snapshots are only added |
| ElectionTheorems.ApproverOutlivesEdit | elections/lifecycle.py:269-272 | a run after which an archived election names an approver and has settings nobody approved |
| ElectionTheorems.BoardIsFinal | elections/casting.py:122-123 | from the start of tallying on, ballots are fixed for ever, and results and certifications are only added, re-reviewed or revoked |
| ElectionTheorems.NothingCountedBeforeTallying | elections/integrity.py:153-166 | no results before tallying, no ballots before opening, a ballot key from scheduling on |
| ElectionTheorems.OneCertificationInForce | elections/results.py:219-287 | at most one certification in force, and only when certified, published or archived, throughout a run exactly if no plain decertify action passes one by |
| ElectionTheorems.CertifiedMeansCertification | elections/results.py:219-287 | and certified or published elections have one, exactly if there is no plain certify action either |
| ElectionTheorems.PlainDecertifyLeavesCertification | elections/lifecycle.py:160-160 | the plain action leaves the certification in force on an election that is tallied again |
| ElectionTheorems.TwoInForce | elections/lifecycle.py:155-200 | a run from creation that ends with two certifications in force |
| DualControl.SensitiveTakesTwo | elections/integrity.py:90-274 | every run: where dual approval is required, a freeze is lifted, the end moved later, a hold released, voting re-opened or a result decertified only by somebody deciding a request on record that somebody else put there before for just that, exactly if no plain decertify or re-open action succeeds |
| DualControl.OnePersonReopens | elections/lifecycle.py:161-200 | a run after which one person re-opens a closed election under dual approval, without any request |
| DualControl.OnePersonDecertifies | elections/lifecycle.py:160-200 | a run after which one person decertifies a certified one, without any request |
| DualControl.RequestsWereAsked | elections/integrity.py:225-237 | every run: each request on record was put there, at its place, by an accepted request for that action by whom it names |
| DualControl.RequestsNeedAnother | elections/integrity.py:205-274 | every run: a request under dual control is carried out, or fails, only after the decision of another |
| Bulletin.Decrypt | elections/results.py:49-63 | valid and failed ballots partition the board, and the trackers certified are the sorted trackers of all stored ballots |
| Bulletin.NothingLost | elections/results.py:49-131 | the trackers of valid and of failed ballots together are those of the board |
| Bulletin.TrackerProof | elections/results.py:349-360 | a proof for exactly the stored ballots, accepted against the root |
| Verification.VerifyBundle | elections/results.py:389-415 | all checks come out true exactly if the bundle is sound |
| Verification.BundlePasses | elections/results.py:219-257 | every run: each certification is signed and states the root of the stored ballots, the hash of its result and the hash of a signed snapshot that describes what was approved; the published bundle passes all checks exactly if that snapshot is the latest and the key still trusted |
| BundleRuns.BundleShowsRecord | elections/results.py:363-387 | every run: the bundle shows the snapshot with the highest number, the latest certification in force, its result once published, all stored trackers in order and the keys to trust |
| BundleRuns.BundlePassesThroughout | elections/results.py:363-415 | the bundle passes all checks throughout a run exactly if no snapshot of another configuration is signed on demand past a certification in force, no key it needs is dropped, and no revocation leaves an outdated certification in force |
| BundleRuns.SnapshotBreaksBundle | elections/views_console.py:543-546 | a run from creation to a passing bundle that fails after a snapshot is signed on demand |
| BundleRuns.ExclusiveNeverUncovers | elections/results.py:278-287 | with one certification in force the last of those steps cannot happen |
| Verification.EveryBallotIsProvable | elections/results.py:349-387 | every stored ballot has a proof that the certified root accepts |
| Verification.OnlyBallotsAreProvable | elections/results.py:349-387 | a tracker of any length proven against the certified root is that of a stored ballot, unless the lengths are those of the two exceptions of `Merkle.ProofsAreSound` |
| Verification.BundlesBind | elections/results.py:389-415 | two passing bundles with the same certified payload show the same configuration and result; and the same board if neither repeats a tracker, or both have one length, and no tracker has 63 bytes |
| Verification.BoardIsBound | elections/results.py:363-415 | every run: a passing bundle with the payload of the published one, which passes too, shows exactly the stored board, if its trackers are digests and none is repeated |
| Verification.StoredBoardIsPlain | elections/results.py:363-387 | every run: the published board repeats no tracker and has none of 63 bytes |
| Verification.RepeatedTrackerPasses | elections/results.py:404-405 | a passing bundle with an odd board of more than one passes with its last tracker shown twice |
| Verification.LongTrackerPasses | elections/results.py:404-405 | a passing bundle with two trackers, the first leaf starting with 0, passes with one of 63 bytes in their place |
| Payments.Account.Transition | payments/service.py:193-234 | a change along the table and its record, a remark for a refused one, nothing for a repeated one |
| Payments.Account.ApplyGatewayResult | payments/service.py:332-400 | every gateway message, with mismatches and risk held, and credit only without a hold |
| PaymentHolds.CreditedIffFirstSuccessGood | payments/service.py:335-425 | every run without a released hold, a stale worker or a dispute won over an unpaid payment: votes are credited exactly if the first success reported is for the full amount, in the right currency and not risky; otherwise the payment is held |
| PaymentHolds.OnlyReportedIffNoJump | payments/service.py:586-606 | every run: nothing is, or could be, credited without such a success exactly if no dispute is won over an unpaid payment |
| PaymentHolds.WonDisputeCredits | payments/service.py:600-602 | a dispute won before anything was paid, after which the votes are credited |
| PaymentHolds.NothingBeforeRelease | payments/service.py:358-386 | every run: after a success with a wrong amount, the wrong currency or a risk finding nothing is credited before a hold is released |
| Payments.Account.CreditVotes | payments/service.py:403-425 | a row for a successful, unheld, uncredited payment, and nothing else |
| Payments.Account.ReverseVotes | payments/service.py:446-452 | counting rows stop counting |
| Payments.Account.ReleaseHold | payments/service.py:455-464 | the hold ends and votes are credited if due |
| Payments.Account.RejectHeld | payments/service.py:467-472 | the rejection, and a full refund request if possible |
| PaymentHolds.HoldIsReviewed | payments/service.py:455-472 | releasing the hold of a successful payment credits its votes, rejecting it asks for all of it back |
| Payments.Account.Dispute | payments/service.py:586-606 | opening reverses votes, resolving only changes the status |
| PaymentHolds.LossOutcome | payments/service.py:391-606 | a payment taken back is reversed, a disputed one waits, and in both cases its votes stop counting |
| PaymentHolds.DisputeOutcome | payments/service.py:598-604 | a dispute lost reverses the payment, one won makes it successful again, without touching the votes |
| Payments.Account.RequestRefund | payments/service.py:612-636 | accepted exactly for a refundable status and an amount within what processed refunds leave |
| Payments.Account.ApproveRefund | payments/service.py:639-667 | only a requested refund is submitted, with each answer of the gateway |
| PaymentRefunds.RefundsAreExplained | payments/service.py:570-687 | every run: each refund was asked for while that much could be refunded, and is processed exactly if its approval was carried out at once or a notice was about it |
| PaymentRefunds.ApprovalOutcome | payments/service.py:639-667 | approving moves a requested refund along with the answer of the gateway, and no other one |
| Payments.Account.CompleteRefund | payments/service.py:670-687 | once: amount added, status moved, votes reversed where asked |
| PaymentRefunds.RefundTakesVotesBack | payments/service.py:670-687 | every run: once a refund that takes votes back is processed none count, throughout, exactly if no votes are credited for the first time after it |
| PaymentRefunds.CreditedAfterRefund | payments/service.py:455-464 | a run in which they are: refunded in part while held, disputed and won, then released |
| PaymentRefunds.RefundedIffPaidBack | payments/service.py:670-687 | every run: a payment is refunded exactly when all of it was given back, unless it was reversed |
| Payments.Account.RefundNotice | payments/service.py:570-583 | a notice is about the latest refund still open |
| PaymentRefunds.NoticeOutcome | payments/service.py:570-583 | a notice completes, breaks or remarks on the latest refund still open |
| Payments.Account.Expire | payments/service.py:796-808 | only a payment still waiting is abandoned |
| Payments.LatestOutstanding | payments/service.py:571-574 | it is outstanding, none later is, and there is none only if none is |
| PaymentRuns.VotesAreBookedOnce | payments/service.py:206-464 | every run: at most one ledger row, exactly if credited, for the votes paid, only after a success; the history replays along allowed changes to the status |
| PaymentHolds.HistoryTellsVotes | payments/service.py:403-452 | every run: the history tells whether votes were credited, and whether they were reversed since |
| PaymentRuns.ReversedStaysReversed | payments/service.py:403-452 | a reversed row never counts again, and nothing in the history is lost |
| PaymentRuns.HighestStatusWins | payments/service.py:193-400 | under gateway messages and expiry in any order, with repetitions, the status is the highest reported |
| PaymentRuns.OrderDoesNotMatter | payments/service.py:332-400 | the same reports in another order end in the same status |
| PaymentRuns.CreditedOnceIffPaid | payments/service.py:365-425 | with matching amounts and no risk found, votes are credited exactly once if and only if a success was reported |
| PaymentRuns.LostPaymentsDoNotCount | payments/service.py:586-606 | disputed and reversed payments have no counting votes throughout a run exactly if no dispute is lost past counting votes and no stale worker credits one |
| PaymentRuns.LostDisputeKeepsVotes | payments/service.py:599-604 | a dispute lost without having been opened leaves votes counting |
| PaymentRuns.RefundsAddUp | payments/service.py:670-687 | every run: the refunded amount is the sum of processed refunds, and a refunded payment has reached its amount |
| PaymentRuns.CoveredIffNotOverasked | payments/service.py:612-624 | open refunds stay within the amount throughout a run exactly if no accepted request exceeds what the open ones leave |
| PaymentRuns.OverRefundIffUncovered | payments/service.py:570-687 | gateway notices can carry the refunded amount beyond what was paid exactly if the open refunds are not covered |
| PaymentRuns.NeverMoreThanPaid | payments/service.py:612-687 | never more than paid, if no refund is accepted while another is open |
| PaymentRuns.TwoOpenRefundsGoTooFar | payments/service.py:616-620 | two accepted requests for sixty out of a hundred |
| AuditChain.AuditLog.Record | core/audit.py:85-133 | the entry continues its chain, and the head moves with it |
| AuditChain.ChainsCarryContents | core/audit.py:85-133 | whatever is recorded: the table holds one entry for each recording, in order, and each chain carries exactly what was recorded for it, numbered from one |
| AuditChain.AuditLog.VerifyChain | core/audit.py:136-157 | accepts exactly the intact chains; otherwise reports the first fault |
| AuditChain.RecordedChainsVerify | core/audit.py:85-157 | whatever is recorded, in whatever chains, every chain verifies |
| AuditChain.HeadDeterminesChain | core/audit.py:34-157 | two tables that verify against the same head hold the same entries |
| AuditChain.TamperingIsDetected | core/audit.py:136-157 | a recorded chain shown with any edit, gap, move or deletion is refused |
| AuditChain.HeadGuardsTheEnd | core/audit.py:154-156 | prefixes of an intact chain are linked, and the head tells the whole chain from them |
| AuditChain.WithoutHeadAnythingLinked | core/audit.py:154-156 | without a head row every linked chain verifies, also one of any other content hashed anew from the start |
| Constituencies.Register.Save | elections/models.py:50-61 | the node and everything below it get their new paths, the rest stays |
| Constituencies.Register.RewriteBelow | elections/models.py:58-61 | the loop replaces the old prefix in every other path that has it, and only there |
| Constituencies.WithinIsAncestor | elections/models.py:67-68 | in a consistent tree the prefix test means the node itself or an ancestor |
| Constituencies.ConsistentIffProper | elections/models.py:50-68 | the trees of a run are consistent throughout exactly if no saving puts a node below itself |
| Constituencies.PathsAgreeWithTree | elections/models.py:50-68 | so in every tree reached by such a run paths and parents agree |
| Constituencies.TreeIsAsSaved | elections/models.py:50-61 | every run: the tree is the one that was saved, each node below the parent it was last saved with |
| Constituencies.OrganizationsAgree | elections/models.py:45-61 | nodes belong to the organization of their parent throughout a run exactly if no saving takes one with others below it to another organization |
| Constituencies.LeftBehind | elections/models.py:50-61 | a node moved to another organization with one below it |
| Constituencies.SaveBelowItselfBreaks | elections/models.py:50-61 | a node saved below itself |

## Left out

- The rows, display order, percentages and rounding of tally output: presentation, and listed twice in the branch that fills the remaining seats.
- Score and referendum tallies: sums and one comparison, without the state of the counts modelled.
- The text of tie-break explanations; the set of tied candidates is modelled.
- Non-ASCII digits and spaces, floats and booleans in ballot data and share text: the model has ASCII text, integers, lists and dictionaries.
- The text of trackers, siblings and roots in proofs and bundles: byte strings here. Hexadecimal text that does not parse is an error in the code, and differently spelled text of the same bytes is one value here.
- Encryption, signatures and JSON: a sealed ballot is what it opens to, or a failure; a signature checks only under its key and for its text.
- ShamirTheorems.Hiding: says that coefficients and shares match one to one for every value; it speaks of no distribution, since randomness is a parameter.
- Which eligibility rules a voter passes and the style they give: arguments of issuing an authorization. Signing in by code, directory or single sign-on: not modelled.
- Resetting all unused codes at once: a sequence of single resets. Self-registration and single additions: an import of one row.
- The list of configuration problems and open disputes about an election: arguments of the transitions that ask for them.
- Each transaction is one step, with the rows it locks. The two exceptions kept are stale status writes in casting and stale crediting of votes; results computed long before they are stored are kept too. A stale save that re-creates a deleted voter, and two people revoking a certification at once, are not modelled.
- Which former signing keys stay trusted is a setting filled in by hand, and an argument of replacing the key.
- Permissions are an argument; how roles grant them is not modelled.
- Edits by database administration and deleting constituencies of a whole organization bypass the edit policy and are not modelled.
- ElectionDesk.Desk.RunTally: counts the positions by an arbitrary function of configuration and valid ballots, so that what is said of results holds for every counting method; how selections are gathered for a position and counted is modelled apart. The counts by constituency and the votes of an older ledger are not modelled.
- Casting.PollingPlace.Import: the validation of single rows and the generation of codes are not modelled; a row stands for one that passed.
- Invoices and tickets: an invoice payment follows the same statuses and gets no ledger row; marking the invoice paid is not modelled.
- Purchase limits, discounts and prices: checked at checkout only.
- The greatest length of a stored path or text, and the database's case rules for prefix queries.
- Payment approval by two persons above the refund threshold: whether and when a refund is approved is arbitrary.
- Notifications, exports, metrics, caches, rate limits and views: input and output.
