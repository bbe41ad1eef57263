/**
 Secret-ballot casting. A voter on the roll is issued a single-use authorization; whoever presents its token
 stores one ballot that names neither the voter nor the token. One method is one database transaction.
 */
module Casting {
  import opened Collections
  import opened Ballots

  type VoterId = nat
  type Token = nat

  datatype Status = Eligible | Verified | Voted | Suspended | Ineligible

  datatype Voter = Voter(status: Status, constituency: Option<nat>, credential: nat)

  datatype AuthStatus = Issued | Consumed | Revoked | Expired

  datatype Authorization = Authorization(voter: VoterId, status: AuthStatus, style: set<nat>, expires: int)

  /** A stored ballot: what its ciphertext contains, and the constituency when the election records it. */
  datatype Ballot = Ballot(style: set<nat>, selections: Selections, nonce: nat, constituency: Option<nat>)

  datatype Entry = BallotIssued(voter: VoterId) | BallotCast(voter: VoterId) | CredentialReset(voter: VoterId)
                 | StatusChanged(voter: VoterId, before: Status, after: Status) | VoterRemoved(voter: VoterId)
                 | VotersImported | VotersCleared | CodeResent(voter: VoterId) | CodeRefused

  datatype Setup = Setup(positions: seq<Position>, recordConstituency: bool)

  datatype Polls = Polls(roll: map<VoterId, Voter>, auths: map<Token, Authorization>, ballots: seq<Ballot>,
                         audit: seq<Entry>)

  datatype Refusal = NotAccepting | NoSuchVoter | AlreadyVoted | NotEligible | NoPositions | TokenTaken
                   | BadToken | SessionExpired | InvalidBallot | SecondBallot | CannotChange | HasVoted | Protected

  datatype Outcome = Done | Refused(why: Refusal)

  predicate CanVote(v: Voter) { v.status == Eligible || v.status == Verified }

  predicate Barred(v: Voter) { v.status == Suspended || v.status == Ineligible }

  /** Revoke the unused authorizations of a voter. */
  function RevokeIssued(auths: map<Token, Authorization>, voter: VoterId): map<Token, Authorization> {
    map t | t in auths ::
      if auths[t].voter == voter && auths[t].status == Issued then auths[t].(status := Revoked) else auths[t]
  }

  predicate HasConsumed(auths: map<Token, Authorization>, voter: VoterId) {
    exists t :: t in auths && auths[t].voter == voter && auths[t].status == Consumed
  }

  // ---- The transactions as functions of the stored state ----

  /** `rulesPass` and `style` are what the eligibility rules give for this voter. */
  function IssueRefusal(s: Polls, accepting: bool, voter: VoterId, token: Token, rulesPass: bool,
                        style: set<nat>): Option<Refusal> {
    if !accepting then Some(NotAccepting)
    else if voter !in s.roll then Some(NoSuchVoter)
    else if s.roll[voter].status == Voted then Some(AlreadyVoted)
    else if Barred(s.roll[voter]) || !rulesPass then Some(NotEligible)
    else if style == {} then Some(NoPositions)
    else if token in s.auths then Some(TokenTaken)
    else None
  }

  function AfterIssue(s: Polls, voter: VoterId, token: Token, style: set<nat>, expires: int): Polls {
    s.(auths := RevokeIssued(s.auths, voter)[token := Authorization(voter, Issued, style, expires)],
       audit := s.audit + [BallotIssued(voter)])
  }

  function CastRefusal(u: Setup, s: Polls, accepting: bool, token: Token, payload: Raw, now: int): Option<Refusal> {
    if token !in s.auths then Some(BadToken)
    else
      var a := s.auths[token];
      if a.status == Consumed then Some(AlreadyVoted)
      else if a.status != Issued || a.expires <= now then Some(SessionExpired)
      else if !accepting then Some(NotAccepting)
      else if a.voter !in s.roll then Some(NoSuchVoter)
      else if s.roll[a.voter].status == Voted then Some(AlreadyVoted)
      else if !CanVote(s.roll[a.voter]) then Some(NotEligible)
      else if Validated(u.positions, a.style, payload).None? then Some(InvalidBallot)
      else if HasConsumed(s.auths, a.voter) then Some(SecondBallot)
      else None
  }

  function NewBallot(u: Setup, s: Polls, token: Token, selections: Selections, nonce: nat): Ballot
    requires token in s.auths && s.auths[token].voter in s.roll
  {
    Ballot(s.auths[token].style, selections, nonce,
           if u.recordConstituency then s.roll[s.auths[token].voter].constituency else None)
  }

  function AfterCast(u: Setup, s: Polls, token: Token, selections: Selections, nonce: nat): Polls
    requires token in s.auths && s.auths[token].voter in s.roll
  {
    var a := s.auths[token];
    Polls(s.roll[a.voter := s.roll[a.voter].(status := Voted)],
          s.auths[token := a.(status := Consumed)],
          s.ballots + [NewBallot(u, s, token, selections, nonce)],
          s.audit + [BallotCast(a.voter)])
  }

  /** Authorizations past their time, as the periodic clean-up marks them. */
  function AfterExpire(s: Polls, now: int): Polls {
    s.(auths := map t | t in s.auths ::
         if s.auths[t].status == Issued && s.auths[t].expires < now then s.auths[t].(status := Expired) else s.auths[t])
  }

  function AfterReset(s: Polls, voter: VoterId): Polls {
    if voter !in s.roll || s.roll[voter].status == Voted then s
    else s.(auths := RevokeIssued(s.auths, voter),
            roll := s.roll[voter := s.roll[voter].(credential := s.roll[voter].credential + 1)],
            audit := s.audit + [CredentialReset(voter)])
  }

  function AfterResend(s: Polls, voter: VoterId, hasEmail: bool): Polls {
    if voter !in s.roll || !CanVote(s.roll[voter]) || !hasEmail then s.(audit := s.audit + [CodeRefused])
    else s.(auths := RevokeIssued(s.auths, voter),
            roll := s.roll[voter := s.roll[voter].(credential := s.roll[voter].credential + 1)],
            audit := s.audit + [CodeResent(voter)])
  }

  function AfterSetStatus(s: Polls, voter: VoterId, status: Status): Polls {
    if voter !in s.roll || s.roll[voter].status == Voted || status == Voted then s
    else s.(roll := s.roll[voter := s.roll[voter].(status := status)],
            auths := if status == Suspended || status == Ineligible then RevokeIssued(s.auths, voter) else s.auths,
            audit := s.audit + [StatusChanged(voter, s.roll[voter].status, status)])
  }

  /** One imported row: a new voter, or new details for a known one who has not voted. */
  function AfterImportRow(roll: map<VoterId, Voter>, voter: VoterId, constituency: Option<nat>): map<VoterId, Voter> {
    if voter !in roll then roll[voter := Voter(Eligible, constituency, 0)]
    else if roll[voter].status == Voted then roll
    else
      var known := roll[voter];
      roll[voter := known.(constituency := if constituency.Some? then constituency else known.constituency)]
  }

  function AfterImportRows(roll: map<VoterId, Voter>, rows: seq<(VoterId, Option<nat>)>): map<VoterId, Voter> {
    if rows == [] then roll
    else AfterImportRow(AfterImportRows(roll, rows[..|rows| - 1]), rows[|rows| - 1].0, rows[|rows| - 1].1)
  }

  function AfterImport(s: Polls, rows: seq<(VoterId, Option<nat>)>): Polls {
    s.(roll := AfterImportRows(s.roll, rows), audit := s.audit + [VotersImported])
  }

  function AfterRemove(s: Polls, voter: VoterId): Polls {
    if voter !in s.roll || s.roll[voter].status == Voted || HasConsumed(s.auths, voter) then s
    else s.(audit := s.audit + [VoterRemoved(voter)],
            auths := map t | t in s.auths && s.auths[t].voter != voter :: s.auths[t],
            roll := s.roll - {voter})
  }

  function Unvoted(s: Polls): set<VoterId> { set v | v in s.roll && s.roll[v].status != Voted }

  /** Deleting the unvoted voters fails as a whole when one of them still has a consumed authorization. */
  function AfterClear(s: Polls): Polls {
    var kept :=
      map t | t in s.auths && !(s.auths[t].voter in Unvoted(s) && s.auths[t].status != Consumed) :: s.auths[t];
    if exists v :: v in Unvoted(s) && HasConsumed(kept, v) then s.(auths := kept)
    else s.(auths := kept, roll := s.roll - Unvoted(s), audit := s.audit + [VotersCleared])
  }

  class PollingPlace {
    const setup: Setup
    var roll: map<VoterId, Voter>
    var auths: map<Token, Authorization>
    var ballots: seq<Ballot>
    var audit: seq<Entry>

    constructor (u: Setup)
      ensures setup == u && Stored() == Polls(map[], map[], [], [])
    {
      setup := u;
      roll, auths, ballots, audit := map[], map[], [], [];
    }

    function Stored(): Polls
      reads this
    {
      Polls(roll, auths, ballots, audit)
    }

    method Issue(accepting: bool, voter: VoterId, token: Token, rulesPass: bool, style: set<nat>, now: int, closes: int)
      returns (r: Outcome)
      modifies this
      ensures r == match IssueRefusal(old(Stored()), accepting, voter, token, rulesPass, style)
                   case Some(why) => Refused(why)
                   case None => Done
      ensures Stored() == if r.Done? then AfterIssue(old(Stored()), voter, token, style, Min(now + 30 * 60, closes))
        else old(Stored())
    {
      if !accepting {
        return Refused(NotAccepting);
      }
      if voter !in roll {
        return Refused(NoSuchVoter);
      }
      if roll[voter].status == Voted {
        return Refused(AlreadyVoted);
      }
      if Barred(roll[voter]) || !rulesPass {
        return Refused(NotEligible);
      }
      if style == {} {
        return Refused(NoPositions);
      }
      if token in auths {
        return Refused(TokenTaken);
      }
      auths := RevokeIssued(auths, voter);
      auths := auths[token := Authorization(voter, Issued, style, Min(now + 30 * 60, closes))];
      audit := audit + [BallotIssued(voter)];
      r := Done;
    }

    method Cast(accepting: bool, token: Token, payload: Raw, nonce: nat, now: int) returns (r: Outcome)
      modifies this
      ensures r == match CastRefusal(setup, old(Stored()), accepting, token, payload, now)
                   case Some(why) => Refused(why)
                   case None => Done
      ensures Stored() ==
        if r.Done? then
          var selections := Validated(setup.positions, old(auths)[token].style, payload).value;
          AfterCast(setup, old(Stored()), token, selections, nonce)
        else old(Stored())
    {
      hide Validated;
      if token !in auths {
        return Refused(BadToken);
      }
      var authorization := auths[token];
      if authorization.status == Consumed {
        return Refused(AlreadyVoted);
      }
      if authorization.status != Issued || authorization.expires <= now {
        return Refused(SessionExpired);
      }
      if !accepting {
        return Refused(NotAccepting);
      }
      if authorization.voter !in roll {
        return Refused(NoSuchVoter);
      }
      var voter := roll[authorization.voter];
      if voter.status == Voted {
        return Refused(AlreadyVoted);
      }
      if !CanVote(voter) {
        return Refused(NotEligible);
      }
      var selections := ValidateBallot(setup.positions, authorization.style, payload);
      if selections.None? {
        return Refused(InvalidBallot);
      }
      if HasConsumed(auths, authorization.voter) {
        return Refused(SecondBallot);
      }
      ballots := ballots + [Ballot(authorization.style, selections.value, nonce,
                                   if setup.recordConstituency then voter.constituency else None)];
      auths := auths[token := authorization.(status := Consumed)];
      roll := roll[authorization.voter := voter.(status := Voted)];
      audit := audit + [BallotCast(authorization.voter)];
      r := Done;
    }

    method Expire(now: int)
      modifies this
      ensures Stored() == AfterExpire(old(Stored()), now)
    {
      auths := map t | t in auths ::
        if auths[t].status == Issued && auths[t].expires < now then auths[t].(status := Expired) else auths[t];
    }

    method ResetCredential(voter: VoterId) returns (r: Outcome)
      modifies this
      ensures Stored() == AfterReset(old(Stored()), voter)
      ensures r.Done? <==> voter in old(roll) && old(roll)[voter].status != Voted
    {
      if voter !in roll {
        return Refused(NoSuchVoter);
      }
      if roll[voter].status == Voted {
        return Refused(CannotChange);
      }
      auths := RevokeIssued(auths, voter);
      roll := roll[voter := roll[voter].(credential := roll[voter].credential + 1)];
      audit := audit + [CredentialReset(voter)];
      r := Done;
    }

    method ResendCredential(voter: VoterId, hasEmail: bool)
      modifies this
      ensures Stored() == AfterResend(old(Stored()), voter, hasEmail)
    {
      if voter !in roll || !CanVote(roll[voter]) || !hasEmail {
        audit := audit + [CodeRefused];
        return;
      }
      auths := RevokeIssued(auths, voter);
      roll := roll[voter := roll[voter].(credential := roll[voter].credential + 1)];
      audit := audit + [CodeResent(voter)];
    }

    method SetStatus(voter: VoterId, status: Status) returns (r: Outcome)
      modifies this
      ensures Stored() == AfterSetStatus(old(Stored()), voter, status)
      ensures r.Done? <==> voter in old(roll) && old(roll)[voter].status != Voted && status != Voted
    {
      if voter !in roll {
        return Refused(NoSuchVoter);
      }
      if roll[voter].status == Voted || status == Voted {
        return Refused(CannotChange);
      }
      var before := roll[voter].status;
      roll := roll[voter := roll[voter].(status := status)];
      if status == Suspended || status == Ineligible {
        auths := RevokeIssued(auths, voter);
      }
      audit := audit + [StatusChanged(voter, before, status)];
      r := Done;
    }

    method Import(rows: seq<(VoterId, Option<nat>)>) returns (created: nat, updated: nat, skipped: nat)
      modifies this
      ensures Stored() == AfterImport(old(Stored()), rows)
      ensures created + updated + skipped == |rows|
    {
      created, updated, skipped := 0, 0, 0;
      for i := 0 to |rows|
        invariant roll == AfterImportRows(old(roll), rows[..i])
        invariant auths == old(auths) && ballots == old(ballots) && audit == old(audit)
        invariant created + updated + skipped == i
      {
        assert rows[..i + 1][..i] == rows[..i];
        var (voter, constituency) := rows[i];
        if voter !in roll {
          roll := roll[voter := Voter(Eligible, constituency, 0)];
          created := created + 1;
        } else if roll[voter].status == Voted {
          skipped := skipped + 1;
        } else {
          var known := roll[voter];
          roll := roll[voter := known.(constituency := if constituency.Some? then constituency
                                       else known.constituency)];
          updated := updated + 1;
        }
      }
      assert rows[..|rows|] == rows;
      audit := audit + [VotersImported];
    }

    method Remove(voter: VoterId) returns (r: Outcome)
      modifies this
      ensures Stored() == AfterRemove(old(Stored()), voter)
      ensures r.Done? <==> voter in old(roll) && old(roll)[voter].status != Voted && !HasConsumed(old(auths), voter)
    {
      if voter !in roll {
        return Refused(NoSuchVoter);
      }
      if roll[voter].status == Voted || HasConsumed(auths, voter) {
        return Refused(HasVoted);
      }
      audit := audit + [VoterRemoved(voter)];
      auths := map t | t in auths && auths[t].voter != voter :: auths[t];
      roll := roll - {voter};
      r := Done;
    }

    method Clear() returns (r: Outcome)
      modifies this
      ensures Stored() == AfterClear(old(Stored()))
    {
      var unvoted := set v | v in roll && roll[v].status != Voted;
      auths := map t | t in auths && !(auths[t].voter in unvoted && auths[t].status != Consumed) :: auths[t];
      if exists v :: v in unvoted && HasConsumed(auths, v) {
        return Refused(Protected);
      }
      roll := roll - unvoted;
      audit := audit + [VotersCleared];
      r := Done;
    }
  }
}
