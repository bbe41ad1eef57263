/** What every run of casting and roll-management transactions keeps, in any order and any number. */
module CastingRuns {
  import opened Collections
  import opened Ballots
  import opened Casting

  datatype Step =
    | IssueStep(accepting: bool, voter: VoterId, token: Token, rulesPass: bool, style: set<nat>, expires: int)
    | CastStep(accepting: bool, token: Token, payload: Raw, nonce: nat, now: int)
    | ExpireStep(now: int)
    | ResetStep(voter: VoterId)
    | ResendStep(voter: VoterId, hasEmail: bool)
    | SetStatusStep(voter: VoterId, status: Status)
    | ImportStep(rows: seq<(VoterId, Option<nat>)>)
    | RemoveStep(voter: VoterId)
    | ClearStep
    | StaleStep(voter: VoterId, status: Status)  // a save that writes back a status read before someone else's commit

  function After(u: Setup, s: Polls, step: Step): Polls {
    match step
    case IssueStep(accepting, voter, token, rulesPass, style, expires) =>
      if IssueRefusal(s, accepting, voter, token, rulesPass, style).Some? then s
      else AfterIssue(s, voter, token, style, expires)
    case CastStep(accepting, token, payload, nonce, now) =>
      if CastRefusal(u, s, accepting, token, payload, now).Some? then s
      else AfterCast(u, s, token, Validated(u.positions, s.auths[token].style, payload).value, nonce)
    case ExpireStep(now) => AfterExpire(s, now)
    case ResetStep(voter) => AfterReset(s, voter)
    case ResendStep(voter, hasEmail) => AfterResend(s, voter, hasEmail)
    case SetStatusStep(voter, status) => AfterSetStatus(s, voter, status)
    case ImportStep(rows) => AfterImport(s, rows)
    case RemoveStep(voter) => AfterRemove(s, voter)
    case ClearStep => AfterClear(s)
    case StaleStep(voter, status) =>
      if voter in s.roll && status != Voted then s.(roll := s.roll[voter := s.roll[voter].(status := status)]) else s
  }

  function AfterAll(u: Setup, s: Polls, run: seq<Step>): Polls {
    if run == [] then s else After(u, AfterAll(u, s, run[..|run| - 1]), run[|run| - 1])
  }

  const EMPTY := Polls(map[], map[], [], [])

  function ConsumedTokens(s: Polls): set<Token> { set t | t in s.auths && s.auths[t].status == Consumed }
  function VotedVoters(s: Polls): set<VoterId> { set v | v in s.roll && s.roll[v].status == Voted }

  ghost predicate AtMostOne(s: Polls, status: AuthStatus) {
    forall t, t' :: t in s.auths && t' in s.auths && t != t' && s.auths[t].status == s.auths[t'].status == status
      ==> s.auths[t].voter != s.auths[t'].voter
  }

  /** Kept by every run, stale writes included. */
  ghost predicate Sound(s: Polls) {
    && (forall t :: t in s.auths ==> s.auths[t].voter in s.roll)
    && AtMostOne(s, Consumed) && AtMostOne(s, Issued)
    && |s.ballots| == |ConsumedTokens(s)|
  }

  /** Kept by every run in which no stale write hits a voter marked as voted. */
  ghost predicate Exact(s: Polls) {
    && Sound(s) && Marked(s) && NoneIdle(s)
    && |VotedVoters(s)| == |s.ballots|
  }

  /** Voted means that an authorization of this voter was consumed. */
  ghost predicate Marked(s: Polls) {
    forall v :: v in s.roll ==> (s.roll[v].status == Voted <==> HasConsumed(s.auths, v))
  }

  /** No unused authorization of a voter who has voted. */
  ghost predicate NoneIdle(s: Polls) {
    forall t :: t in s.auths && s.auths[t].status == Issued ==>
      s.auths[t].voter in s.roll && s.roll[s.auths[t].voter].status != Voted
  }

  /** A change that consumes nothing: authorizations stay, are revoked, expire or disappear unless consumed. */
  ghost predicate Quiet(s: Polls, t: Polls) {
    && t.ballots == s.ballots
    && (forall k :: k in t.auths ==> k in s.auths && t.auths[k].voter == s.auths[k].voter && t.auths[k].voter in t.roll)
    && (forall k :: k in t.auths && (t.auths[k].status == Issued || t.auths[k].status == Consumed)
          ==> s.auths[k].status == t.auths[k].status)
    && ConsumedTokens(t) == ConsumedTokens(s)
  }

  lemma QuietKeepsSound(s: Polls, t: Polls)
    requires Sound(s) && Quiet(s, t)
    ensures Sound(t)
  {
  }

  /** A quiet change that leaves the voted voters alone keeps the exact agreement. */
  lemma QuietKeepsExact(s: Polls, t: Polls)
    requires Exact(s) && Quiet(s, t)
    requires forall v :: v in t.roll && v in s.roll ==> (t.roll[v].status == Voted <==> s.roll[v].status == Voted)
    requires forall v :: v in t.roll && v !in s.roll ==> t.roll[v].status != Voted
    requires forall v :: v in s.roll && s.roll[v].status == Voted ==> v in t.roll
    ensures Exact(t)
  {
    QuietKeepsSound(s, t);
    assert VotedVoters(t) == VotedVoters(s);
    forall v ensures HasConsumed(t.auths, v) == HasConsumed(s.auths, v) {
      SameConsumed(s, t, v);
    }
    forall v | v in t.roll && v !in s.roll ensures !HasConsumed(t.auths, v) {
    }
  }

  lemma {:induction false} ImportKeepsRoll(roll: map<VoterId, Voter>, rows: seq<(VoterId, Option<nat>)>)
    ensures var after := AfterImportRows(roll, rows);
      && (forall v :: v in roll ==> v in after && after[v].status == roll[v].status)
      && (forall v :: v in after && v !in roll ==> after[v].status == Eligible)
  {
    if rows != [] {
      ImportKeepsRoll(roll, rows[..|rows| - 1]);
    }
  }

  /** A stale write takes the mark from a voter who has voted. */
  predicate Unmarks(s: Polls, step: Step) {
    step.StaleStep? && step.voter in s.roll && s.roll[step.voter].status == Voted && step.status != Voted
  }

  predicate Plain(step: Step) { !step.IssueStep? && !step.CastStep? }

  lemma RevokingIsQuiet(s: Polls, roll: map<VoterId, Voter>, audit: seq<Entry>, voter: VoterId)
    requires Sound(s) && s.roll.Keys <= roll.Keys
    ensures Quiet(s, Polls(roll, RevokeIssued(s.auths, voter), s.ballots, audit))
  {
    hide AtMostOne;
    var t := Polls(roll, RevokeIssued(s.auths, voter), s.ballots, audit);
    assert ConsumedTokens(t) == ConsumedTokens(s);
  }

  lemma SameAuthsIsQuiet(s: Polls, roll: map<VoterId, Voter>, audit: seq<Entry>)
    requires Sound(s) && s.roll.Keys <= roll.Keys
    ensures Quiet(s, Polls(roll, s.auths, s.ballots, audit))
  {
    hide AtMostOne;
    assert ConsumedTokens(Polls(roll, s.auths, s.ballots, audit)) == ConsumedTokens(s);
  }

  lemma ExpiringIsQuiet(s: Polls, now: int)
    requires Sound(s)
    ensures Quiet(s, AfterExpire(s, now))
  {
    hide AtMostOne;
    assert ConsumedTokens(AfterExpire(s, now)) == ConsumedTokens(s);
  }

  lemma RemovingIsQuiet(s: Polls, voter: VoterId)
    requires Sound(s)
    ensures Quiet(s, AfterRemove(s, voter))
  {
    hide AtMostOne;
    var t := AfterRemove(s, voter);
    forall k | k in s.auths && s.auths[k].status == Consumed ensures k in t.auths && t.auths[k] == s.auths[k] {
    }
    assert ConsumedTokens(t) == ConsumedTokens(s);
  }

  lemma ClearingIsQuiet(s: Polls)
    requires Sound(s)
    ensures Quiet(s, AfterClear(s))
  {
    hide AtMostOne;
    var t := AfterClear(s);
    forall k | k in t.auths ensures t.auths[k].voter in t.roll {
      assert s.auths[k].voter in Unvoted(s) ==> HasConsumed(t.auths, s.auths[k].voter);
    }
    assert ConsumedTokens(t) == ConsumedTokens(s);
  }

  lemma PlainIsQuiet(u: Setup, s: Polls, step: Step)
    requires Sound(s) && Plain(step)
    ensures Quiet(s, After(u, s, step))
  {
    hide Quiet, Sound, RevokeIssued, HasConsumed;
    var t := After(u, s, step);
    SameAuthsIsQuiet(s, s.roll, t.audit);
    match step
    case ExpireStep(now) => ExpiringIsQuiet(s, now);
    case ResetStep(voter) => RevokingIsQuiet(s, t.roll, t.audit, voter);
    case ResendStep(voter, _) => RevokingIsQuiet(s, t.roll, t.audit, voter);
    case SetStatusStep(voter, _) =>
      RevokingIsQuiet(s, t.roll, t.audit, voter);
      SameAuthsIsQuiet(s, t.roll, t.audit);
    case ImportStep(rows) =>
      ImportKeepsRoll(s.roll, rows);
      SameAuthsIsQuiet(s, t.roll, t.audit);
    case RemoveStep(voter) => RemovingIsQuiet(s, voter);
    case ClearStep => ClearingIsQuiet(s);
    case StaleStep(_, _) => SameAuthsIsQuiet(s, t.roll, t.audit);
  }

  /** Which voters a plain step without a stale write leaves as voted, and which it adds or removes. */
  lemma PlainKeepsVoted(u: Setup, s: Polls, step: Step)
    requires Exact(s) && Plain(step) && !Unmarks(s, step)
    ensures var t := After(u, s, step);
      && (forall v :: v in t.roll && v in s.roll ==> (t.roll[v].status == Voted <==> s.roll[v].status == Voted))
      && (forall v :: v in t.roll && v !in s.roll ==> t.roll[v].status != Voted)
      && (forall v :: v in s.roll && s.roll[v].status == Voted ==> v in t.roll)
  {
    hide RevokeIssued, HasConsumed, Exact;
    match step
    case ImportStep(rows) => ImportKeepsRoll(s.roll, rows);
    case _ =>
  }

  // ---- Issuing and casting ----

  lemma IssueKeepsSound(s: Polls, voter: VoterId, token: Token, style: set<nat>, expires: int)
    requires Sound(s) && voter in s.roll && token !in s.auths
    ensures Sound(AfterIssue(s, voter, token, style, expires))
    ensures ConsumedTokens(AfterIssue(s, voter, token, style, expires)) == ConsumedTokens(s)
  {
    var t := AfterIssue(s, voter, token, style, expires);
    assert ConsumedTokens(t) == ConsumedTokens(s);
    IssueKeepsSingle(s, voter, token, style, expires);
    hide AtMostOne;
  }

  lemma IssueKeepsSingle(s: Polls, voter: VoterId, token: Token, style: set<nat>, expires: int)
    requires AtMostOne(s, Issued) && AtMostOne(s, Consumed) && voter in s.roll && token !in s.auths
    ensures AtMostOne(AfterIssue(s, voter, token, style, expires), Issued)
    ensures AtMostOne(AfterIssue(s, voter, token, style, expires), Consumed)
  {
  }

  lemma IssueKeepsExact(s: Polls, voter: VoterId, token: Token, style: set<nat>, expires: int)
    requires Exact(s) && voter in s.roll && s.roll[voter].status != Voted && token !in s.auths
    ensures Exact(AfterIssue(s, voter, token, style, expires))
  {
    var t := AfterIssue(s, voter, token, style, expires);
    IssueKeepsSound(s, voter, token, style, expires);
    IssueLeavesNoneIdle(s, voter, token, style, expires);
    hide Sound, HasConsumed, NoneIdle, RevokeIssued;
    assert VotedVoters(t) == VotedVoters(s);
    forall v | v in t.roll ensures HasConsumed(t.auths, v) == HasConsumed(s.auths, v) {
      SameConsumed(s, t, v);
    }
  }

  lemma IssueLeavesNoneIdle(s: Polls, voter: VoterId, token: Token, style: set<nat>, expires: int)
    requires NoneIdle(s) && voter in s.roll && s.roll[voter].status != Voted
    ensures NoneIdle(AfterIssue(s, voter, token, style, expires))
  {
  }

  lemma SameConsumed(s: Polls, t: Polls, v: VoterId)
    requires ConsumedTokens(s) == ConsumedTokens(t)
    requires forall k :: k in ConsumedTokens(s) ==> t.auths[k].voter == s.auths[k].voter
    ensures HasConsumed(t.auths, v) == HasConsumed(s.auths, v)
  {
    if HasConsumed(s.auths, v) {
      var k :| k in s.auths && s.auths[k].voter == v && s.auths[k].status == Consumed;
      assert k in ConsumedTokens(s);
      assert k in ConsumedTokens(t);
    }
    if HasConsumed(t.auths, v) {
      var k :| k in t.auths && t.auths[k].voter == v && t.auths[k].status == Consumed;
      assert k in ConsumedTokens(t);
      assert k in ConsumedTokens(s);
    }
  }

  ghost predicate Castable(s: Polls, token: Token) {
    && token in s.auths && s.auths[token].status == Issued
    && s.auths[token].voter in s.roll && !HasConsumed(s.auths, s.auths[token].voter)
  }

  lemma CastKeepsSound(u: Setup, s: Polls, token: Token, selections: Selections, nonce: nat)
    requires Sound(s) && Castable(s, token)
    ensures Sound(AfterCast(u, s, token, selections, nonce))
  {
    var t := AfterCast(u, s, token, selections, nonce);
    assert ConsumedTokens(t) == ConsumedTokens(s) + {token};
    assert token !in ConsumedTokens(s);
    forall k | k in s.auths && s.auths[k].status == Consumed ensures s.auths[k].voter != s.auths[token].voter {
    }
  }

  lemma CastKeepsExact(u: Setup, s: Polls, token: Token, selections: Selections, nonce: nat)
    requires Exact(s) && Castable(s, token) && s.roll[s.auths[token].voter].status != Voted
    ensures Exact(AfterCast(u, s, token, selections, nonce))
  {
    CastKeepsSound(u, s, token, selections, nonce);
    CastMarks(u, s, token, selections, nonce);
    CastLeavesNoneIdle(u, s, token, selections, nonce);
    CastCounts(u, s, token, selections, nonce);
    hide Sound, Marked, NoneIdle, AfterCast, VotedVoters, HasConsumed;
  }

  lemma CastCounts(u: Setup, s: Polls, token: Token, selections: Selections, nonce: nat)
    requires Castable(s, token) && s.roll[s.auths[token].voter].status != Voted
    ensures var t := AfterCast(u, s, token, selections, nonce);
      |VotedVoters(t)| == |VotedVoters(s)| + 1 && |t.ballots| == |s.ballots| + 1
  {
    hide HasConsumed;
    var t := AfterCast(u, s, token, selections, nonce);
    assert VotedVoters(t) == VotedVoters(s) + {s.auths[token].voter};
  }

  lemma CastMarks(u: Setup, s: Polls, token: Token, selections: Selections, nonce: nat)
    requires Marked(s) && Castable(s, token)
    ensures Marked(AfterCast(u, s, token, selections, nonce))
  {
    var t, voter := AfterCast(u, s, token, selections, nonce), s.auths[token].voter;
    assert t.auths[token].voter == voter && HasConsumed(t.auths, voter);
    forall v | v in s.roll && v != voter ensures HasConsumed(t.auths, v) == HasConsumed(s.auths, v) {
      if HasConsumed(s.auths, v) {
        var k :| k in s.auths && s.auths[k].voter == v && s.auths[k].status == Consumed;
        assert k in t.auths && t.auths[k] == s.auths[k];
      }
    }
  }

  lemma CastLeavesNoneIdle(u: Setup, s: Polls, token: Token, selections: Selections, nonce: nat)
    requires Sound(s) && NoneIdle(s) && Castable(s, token)
    ensures NoneIdle(AfterCast(u, s, token, selections, nonce))
  {
    hide HasConsumed;
  }

  lemma StepKeepsSound(u: Setup, s: Polls, step: Step)
    requires Sound(s)
    ensures Sound(After(u, s, step))
  {
    hide Sound, Validated, RevokeIssued, HasConsumed;
    match step
    case IssueStep(accepting, voter, token, rulesPass, style, expires) =>
      if IssueRefusal(s, accepting, voter, token, rulesPass, style).None? {
        IssueKeepsSound(s, voter, token, style, expires);
      }
    case CastStep(accepting, token, payload, nonce, now) =>
      if CastRefusal(u, s, accepting, token, payload, now).None? {
        CastKeepsSound(u, s, token, Validated(u.positions, s.auths[token].style, payload).value, nonce);
      }
    case _ =>
      PlainIsQuiet(u, s, step);
      QuietKeepsSound(s, After(u, s, step));
  }

  lemma StepKeepsExact(u: Setup, s: Polls, step: Step)
    requires Exact(s) && !Unmarks(s, step)
    ensures Exact(After(u, s, step))
  {
    assert Sound(s);
    hide Sound, Exact, Validated, RevokeIssued, HasConsumed;
    match step
    case IssueStep(accepting, voter, token, rulesPass, style, expires) =>
      if IssueRefusal(s, accepting, voter, token, rulesPass, style).None? {
        IssueKeepsExact(s, voter, token, style, expires);
      }
    case CastStep(accepting, token, payload, nonce, now) =>
      if CastRefusal(u, s, accepting, token, payload, now).None? {
        CastKeepsExact(u, s, token, Validated(u.positions, s.auths[token].style, payload).value, nonce);
      }
    case _ =>
      PlainIsQuiet(u, s, step);
      PlainKeepsVoted(u, s, step);
      QuietKeepsExact(s, After(u, s, step));
  }

  lemma EmptyIsExact()
    ensures Exact(EMPTY)
  {
    assert ConsumedTokens(EMPTY) == {} && VotedVoters(EMPTY) == {};
  }

  lemma {:induction false} RunIsSound(u: Setup, run: seq<Step>)
    ensures Sound(AfterAll(u, EMPTY, run))
  {
    hide Sound, After;
    if run == [] {
      ExactIsSound();
    } else {
      RunIsSound(u, run[..|run| - 1]);
      StepKeepsSound(u, AfterAll(u, EMPTY, run[..|run| - 1]), run[|run| - 1]);
    }
  }

  lemma ExactIsSound()
    ensures Sound(EMPTY)
  {
    EmptyIsExact();
  }

  lemma UnmarkingBreaks(u: Setup, s: Polls, step: Step)
    requires Exact(s) && Unmarks(s, step)
    ensures !Agrees(After(u, s, step))
  {
    hide HasConsumed, Marked, NoneIdle, AtMostOne;
    var t := After(u, s, step);
    assert VotedVoters(t) == VotedVoters(s) - {step.voter};
    assert step.voter in VotedVoters(s);
    assert t.ballots == s.ballots;
  }

  lemma StepAgrees(u: Setup, s: Polls, step: Step)
    requires Sound(s) && Agrees(s)
    ensures Agrees(After(u, s, step)) <==> !Unmarks(s, step)
  {
    assert Exact(s);
    if Unmarks(s, step) {
      UnmarkingBreaks(u, s, step);
    } else {
      StepKeepsExact(u, s, step);
      ExactAgrees(After(u, s, step));
    }
    hide After, Agrees, Unmarks;
  }

  lemma ExactAgrees(s: Polls)
    requires Exact(s)
    ensures Agrees(s)
  {
    hide HasConsumed, Marked, NoneIdle, AtMostOne;
  }

  /** The polls after the first `k` steps of a run. */
  function At(u: Setup, run: seq<Step>, k: nat): Polls
    requires k <= |run|
  {
    AfterAll(u, EMPTY, run[..k])
  }

  lemma NextAt(u: Setup, run: seq<Step>, k: nat)
    requires k < |run|
    ensures At(u, run, k + 1) == After(u, At(u, run, k), run[k])
  {
    assert run[..k + 1][..k] == run[..k];
  }

  // ---- The results ----

  /**
   Every run, whatever stale status a save writes back: there are as many ballots as consumed
   authorizations, and no voter has two of those, so no voter has cast two ballots.
   */
  lemma OneBallotPerVoter(u: Setup, run: seq<Step>)
    ensures var s := AfterAll(u, EMPTY, run);
      && |s.ballots| == |ConsumedTokens(s)|
      && (forall t, t' ::
            t in ConsumedTokens(s) && t' in ConsumedTokens(s) && s.auths[t].voter == s.auths[t'].voter ==> t == t')
      && AtMostOne(s, Issued)
  {
    RunIsSound(u, run);
  }

  /**
   Ballots, consumed authorizations and voted voters are equally many, a voter is marked as voted exactly when an
   authorization of theirs was consumed, and nobody who has voted holds an unused authorization.
   */
  ghost predicate Agrees(s: Polls) {
    && |s.ballots| == |ConsumedTokens(s)| == |VotedVoters(s)|
    && Marked(s) && NoneIdle(s)
  }

  /** They agree throughout a run exactly when no stale write hits a voter marked as voted. */
  lemma {:induction false} RollAgreesWithBallots(u: Setup, run: seq<Step>)
    ensures (forall k :: 0 <= k <= |run| ==> Agrees(At(u, run, k))) <==>
      (forall k :: 0 <= k < |run| ==> !Unmarks(At(u, run, k), run[k]))
  {
    EmptyIsExact();
    ExactAgrees(EMPTY);
    assert At(u, run, 0) == EMPTY;
    hide Agrees, Unmarks, After, AfterAll, Exact, Sound;
    forall k | 0 <= k < |run| && Agrees(At(u, run, k))
      ensures Agrees(At(u, run, k + 1)) <==> !Unmarks(At(u, run, k), run[k])
    {
      NextAt(u, run, k);
      RunIsSound(u, run[..k]);
      StepAgrees(u, At(u, run, k), run[k]);
    }
    if forall k :: 0 <= k < |run| ==> !Unmarks(At(u, run, k), run[k]) {
      for n := 0 to |run|
        invariant forall k :: 0 <= k <= n ==> Agrees(At(u, run, k))
      {
        assert Agrees(At(u, run, n)) && !Unmarks(At(u, run, n), run[n]);
      }
    } else {
      var k :| 0 <= k < |run| && Unmarks(At(u, run, k), run[k]);
      assert !(Agrees(At(u, run, k)) && Agrees(At(u, run, k + 1)));
    }
  }

  /** In such a run the uniqueness constraint never has to refuse a ballot, whatever is cast at any moment of it. */
  lemma ConstraintNeverHit(u: Setup, run: seq<Step>, k: nat, accepting: bool, token: Token, payload: Raw, now: int)
    requires k <= |run| && forall j :: 0 <= j < |run| ==> !Unmarks(At(u, run, j), run[j])
    ensures CastRefusal(u, At(u, run, k), accepting, token, payload, now) != Some(SecondBallot)
  {
    RollAgreesWithBallots(u, run);
    hide Validated, AfterAll, Unmarks;
    assert Agrees(At(u, run, k));
  }

  /** With a stale write the marks can fall behind the ballots, though never the other way to a second ballot. */
  lemma StaleWriteUnmarksVoter(u: Setup, s: Polls, voter: VoterId)
    requires Exact(s) && voter in VotedVoters(s)
    ensures var t := After(u, s, StaleStep(voter, Eligible));
      && CanVote(t.roll[voter]) && |VotedVoters(t)| == |t.ballots| - 1
      && forall token, accepting, payload, now :: token in t.auths && t.auths[token].voter == voter
           ==> CastRefusal(u, t, accepting, token, payload, now).Some?
  {
    hide Validated;
    var t := After(u, s, StaleStep(voter, Eligible));
    assert VotedVoters(t) == VotedVoters(s) - {voter};
    assert t.auths == s.auths && HasConsumed(t.auths, voter);
  }
}
