/**
 What casting leaves behind, told from the steps of a run: the ballots are those cast, as chosen, and whoever is on the
 roll, holds a usable token or is named in the log is so because of the steps that say it.
 */
module CastingRecord {
  import opened Collections
  import opened Ballots
  import opened BallotMeaning
  import opened Casting
  import opened CastingRuns

  // ---- When a step has an effect ----

  /** A usable token of a voter on the roll who may vote and has not, and data that stands for a ballot. */
  ghost predicate MayCast(u: Setup, s: Polls, step: Step) {
    && step.CastStep? && step.accepting && step.token in s.auths
    && var a := s.auths[step.token];
    && a.status == Issued && step.now < a.expires
    && a.voter in s.roll && s.roll[a.voter].status in {Eligible, Verified}
    && (forall t :: t in s.auths && s.auths[t].voter == a.voter ==> s.auths[t].status != Consumed)
    && exists m :: StandsFor(u.positions, a.style, step.payload, m)
  }

  predicate MayIssue(s: Polls, step: Step) {
    && step.IssueStep? && step.accepting && step.voter in s.roll && s.roll[step.voter].status in {Eligible, Verified}
    && step.rulesPass && step.style != {} && step.token !in s.auths
  }

  ghost predicate MayRemove(s: Polls, voter: VoterId) {
    && voter in s.roll && s.roll[voter].status != Voted
    && forall t :: t in s.auths && s.auths[t].voter == voter ==> s.auths[t].status != Consumed
  }

  ghost predicate MayClear(s: Polls) {
    forall t :: t in s.auths && s.auths[t].status == Consumed && s.auths[t].voter in s.roll
      ==> s.roll[s.auths[t].voter].status == Voted
  }

  predicate Unvoting(s: Polls, voter: VoterId) { voter in s.roll && s.roll[voter].status != Voted }

  lemma CastIffMay(u: Setup, s: Polls, step: Step)
    requires DistinctIds(u.positions) && step.CastStep?
    ensures CastRefusal(u, s, step.accepting, step.token, step.payload, step.now).None? <==> MayCast(u, s, step)
    ensures MayCast(u, s, step) ==>
      var m := Validated(u.positions, s.auths[step.token].style, step.payload);
      m.Some? && StandsFor(u.positions, s.auths[step.token].style, step.payload, m.value)
  {
    hide StandsFor, Validated;
    if step.token in s.auths {
      var style := s.auths[step.token].style;
      var m := Validated(u.positions, style, step.payload);
      if m.Some? {
        ValidatedIsExact(u.positions, style, step.payload, m.value);
      }
      forall other | StandsFor(u.positions, style, step.payload, other) ensures m == Some(other) {
        ValidatedIsExact(u.positions, style, step.payload, other);
      }
    }
  }

  lemma IssueIffMay(s: Polls, step: Step)
    requires step.IssueStep?
    ensures IssueRefusal(s, step.accepting, step.voter, step.token, step.rulesPass, step.style).None?
      <==> MayIssue(s, step)
  {
  }

  /** A refusal says why: each reason given is true. */
  ghost predicate Reason(u: Setup, s: Polls, step: Step, why: Refusal)
    requires step.CastStep?
  {
    if why == BadToken then step.token !in s.auths
    else
      && step.token in s.auths
      && var a := s.auths[step.token];
      match why
      case AlreadyVoted => a.status == Consumed || (a.voter in s.roll && s.roll[a.voter].status == Voted)
      case SessionExpired => a.status in {Revoked, Expired} || a.expires <= step.now
      case NotAccepting => !step.accepting
      case NoSuchVoter => a.voter !in s.roll
      case NotEligible => a.voter in s.roll && s.roll[a.voter].status in {Suspended, Ineligible}
      case InvalidBallot => forall m :: !StandsFor(u.positions, a.style, step.payload, m)
      case SecondBallot => exists t :: t in s.auths && s.auths[t].voter == a.voter && s.auths[t].status == Consumed
      case _ => false
  }

  lemma RefusalsAreTrue(u: Setup, s: Polls, step: Step)
    requires DistinctIds(u.positions) && step.CastStep?
    ensures var why := CastRefusal(u, s, step.accepting, step.token, step.payload, step.now);
      why.Some? ==> Reason(u, s, step, why.value)
  {
    hide StandsFor, Validated;
    if step.token in s.auths {
      forall m | StandsFor(u.positions, s.auths[step.token].style, step.payload, m)
        ensures Validated(u.positions, s.auths[step.token].style, step.payload).Some?
      {
        ValidatedIsExact(u.positions, s.auths[step.token].style, step.payload, m);
      }
    }
  }

  /** So is each reason for not issuing a ballot. */
  lemma IssueRefusalsAreTrue(s: Polls, step: Step)
    requires step.IssueStep?
    ensures var why := IssueRefusal(s, step.accepting, step.voter, step.token, step.rulesPass, step.style);
      why.Some? ==>
        match why.value
        case NotAccepting => !step.accepting
        case NoSuchVoter => step.voter !in s.roll
        case AlreadyVoted => step.voter in s.roll && s.roll[step.voter].status == Voted
        case NotEligible =>
          step.voter in s.roll && (s.roll[step.voter].status in {Suspended, Ineligible} || !step.rulesPass)
        case NoPositions => step.style == {}
        case TokenTaken => step.token in s.auths
        case _ => false
  {
  }

  // ---- Ballots ----

  /** The ballot of a cast: the style of the token, the voter's constituency where it is recorded, what was chosen. */
  ghost predicate IsVote(u: Setup, s: Polls, step: Step, b: Ballot) {
    && MayCast(u, s, step)
    && b.style == s.auths[step.token].style && b.nonce == step.nonce
    && b.constituency == (if u.recordConstituency then s.roll[s.auths[step.token].voter].constituency else None)
    && StandsFor(u.positions, b.style, step.payload, b.selections)
  }

  /** The ballots are those of the casts at `from`, in order, and no cast is left out. */
  ghost predicate CastFrom(u: Setup, run: seq<Step>, ballots: seq<Ballot>, from: seq<nat>) {
    && |from| == |ballots| && (forall j, k :: 0 <= j < k < |from| ==> from[j] < from[k])
    && (forall k :: 0 <= k < |from| ==> from[k] < |run| && IsVote(u, At(u, run, from[k]), run[from[k]], ballots[k]))
    && forall k :: 0 <= k < |run| && MayCast(u, At(u, run, k), run[k]) ==> k in from
  }

  lemma AtPrefix(u: Setup, run: seq<Step>, step: Step, k: nat)
    requires k <= |run|
    ensures At(u, run + [step], k) == At(u, run, k)
  {
    assert (run + [step])[..k] == run[..k];
  }

  lemma BallotsGrow(u: Setup, s: Polls, step: Step)
    requires DistinctIds(u.positions)
    ensures MayCast(u, s, step) ==>
      |After(u, s, step).ballots| == |s.ballots| + 1 && After(u, s, step).ballots[..|s.ballots|] == s.ballots
      && IsVote(u, s, step, After(u, s, step).ballots[|s.ballots|])
    ensures !MayCast(u, s, step) ==> After(u, s, step).ballots == s.ballots
  {
    hide StandsFor, Validated, RevokeIssued, AfterImportRows;
    if step.CastStep? {
      CastIffMay(u, s, step);
      hide HasConsumed;
    } else {
      hide HasConsumed;
    }
  }

  lemma CastFromMore(u: Setup, run: seq<Step>, step: Step, ballots: seq<Ballot>, from: seq<nat>)
    requires CastFrom(u, run, ballots, from)
    ensures !MayCast(u, At(u, run, |run|), step) ==> CastFrom(u, run + [step], ballots, from)
    ensures forall b :: IsVote(u, At(u, run, |run|), step, b) ==>
      CastFrom(u, run + [step], ballots + [b], from + [|run|])
  {
    hide IsVote, MayCast, AfterAll;
    var more := run + [step];
    forall k: nat | k <= |run| ensures At(u, more, k) == At(u, run, k) && (k < |run| ==> more[k] == run[k]) {
      AtPrefix(u, run, step, k);
    }
    forall b | IsVote(u, At(u, run, |run|), step, b) ensures CastFrom(u, more, ballots + [b], from + [|run|]) {
      var all := from + [|run|];
      assert all[|from|] == |run| && forall k :: 0 <= k < |from| ==> all[k] == from[k];
      assert forall k :: k in from ==> k in all;
      assert |run| in all;
    }
  }

  /**
   The ballots stored after a run are those of its successful casts, in order: each has the style of the token presented
   and, for every position of the style, the legal selection that the submitted data stands for.
   */
  lemma {:induction false} BallotsAreAsCast(u: Setup, run: seq<Step>) returns (from: seq<nat>)
    requires DistinctIds(u.positions)
    ensures CastFrom(u, run, AfterAll(u, EMPTY, run).ballots, from)
  {
    hide CastFrom, After, MayCast, IsVote;
    if run == [] {
      from := [];
      NothingCast(u);
    } else {
      var (n, step) := (|run| - 1, run[|run| - 1]);
      var s := AfterAll(u, EMPTY, run[..n]);
      from := BallotsAreAsCast(u, run[..n]);
      assert run[..n] + [step] == run && At(u, run[..n], n) == s by { assert run[..n][..n] == run[..n]; }
      CastFromMore(u, run[..n], step, s.ballots, from);
      BallotsGrow(u, s, step);
      if MayCast(u, s, step) {
        var ballots := After(u, s, step).ballots;
        assert ballots == s.ballots + [ballots[|s.ballots|]];
        from := from + [n];
      }
    }
  }

  lemma NothingCast(u: Setup)
    ensures CastFrom(u, [], AfterAll(u, EMPTY, []).ballots, [])
  {
  }

  // ---- Tokens ----

  /** The step takes a usable token out of use: it is spent, replaced, revoked, expired or removed with its voter. */
  ghost predicate Withdraws(u: Setup, s: Polls, step: Step, t: Token)
    requires t in s.auths
  {
    var voter := s.auths[t].voter;
    match step
    case IssueStep(_, v, _, _, _, _) => v == voter && MayIssue(s, step)
    case CastStep(_, token, _, _, _) => token == t && MayCast(u, s, step)
    case ExpireStep(now) => s.auths[t].expires < now
    case ResetStep(v) => v == voter && Unvoting(s, v)
    case ResendStep(v, hasEmail) => v == voter && v in s.roll && s.roll[v].status in {Eligible, Verified} && hasEmail
    case SetStatusStep(v, status) => v == voter && Unvoting(s, v) && status in {Suspended, Ineligible}
    case RemoveStep(v) => v == voter && MayRemove(s, v)
    case ClearStep => Unvoting(s, voter)
    case ImportStep(_) => false
    case StaleStep(_, _) => false
  }

  predicate Usable(s: Polls, t: Token) { t in s.auths && s.auths[t].status == Issued }

  ghost predicate Issues(s: Polls, step: Step, t: Token) { MayIssue(s, step) && step.token == t }

  lemma UsableStep(u: Setup, s: Polls, step: Step, t: Token)
    requires DistinctIds(u.positions) && Sound(s)
    ensures Usable(After(u, s, step), t) <==>
      Issues(s, step, t) || (Usable(s, t) && !Withdraws(u, s, step, t))
    ensures Usable(After(u, s, step), t) && Usable(s, t) ==> After(u, s, step).auths[t] == s.auths[t]
  {
    hide StandsFor, Validated, AfterImportRows, AtMostOne;
    match step
    case CastStep(_, _, _, _, _) => CastIffMay(u, s, step); hide HasConsumed;
    case IssueStep(_, _, _, _, _, _) => IssueIffMay(s, step); hide HasConsumed;
    case RemoveStep(_) =>
    case _ => hide HasConsumed;
  }

  /** Step `j` issues the token and nothing takes it out of use since. */
  ghost predicate IssuedAt(u: Setup, run: seq<Step>, j: int, t: Token) {
    && 0 <= j < |run| && Issues(At(u, run, j), run[j], t)
    && forall k :: j < k < |run| ==> t in At(u, run, k).auths && !Withdraws(u, At(u, run, k), run[k], t)
  }

  lemma IssuedAtMore(u: Setup, run: seq<Step>, step: Step, j: int, t: Token)
    requires 0 <= j < |run|
    ensures IssuedAt(u, run + [step], j, t) <==>
      IssuedAt(u, run, j, t) && t in At(u, run, |run|).auths && !Withdraws(u, At(u, run, |run|), step, t)
  {
    hide Issues, Withdraws, AfterAll;
    var more := run + [step];
    forall k: nat | k <= |run| ensures At(u, more, k) == At(u, run, k) && (k < |run| ==> more[k] == run[k]) {
      AtPrefix(u, run, step, k);
    }
    assert more[|run|] == step;
  }

  /** What a usable token says is what it was issued with. */
  ghost predicate SaysAsIssued(s: Polls, t: Token, step: Step)
    requires t in s.auths && step.IssueStep?
  {
    s.auths[t] == Authorization(step.voter, Issued, step.style, step.expires)
  }

  /** A token can be used after a run exactly if a step issued it and none has taken it out of use since. */
  lemma {:induction false} UsableTokens(u: Setup, run: seq<Step>, t: Token)
    requires DistinctIds(u.positions)
    ensures var s := AfterAll(u, EMPTY, run);
      && (Usable(s, t) <==> exists j :: IssuedAt(u, run, j, t))
      && forall j :: IssuedAt(u, run, j, t) ==> t in s.auths && run[j].IssueStep? && SaysAsIssued(s, t, run[j])
  {
    hide After, Issues, Withdraws, Usable, IssuedAt, SaysAsIssued, Sound;
    if run == [] {
      NothingIssued(u, t);
    } else {
      var (n, step) := (|run| - 1, run[|run| - 1]);
      var (front, s) := (run[..n], AfterAll(u, EMPTY, run[..n]));
      UsableTokens(u, front, t);
      RunIsSound(u, front);
      assert front + [step] == run && At(u, front, n) == s by { assert front[..n] == front; }
      OneMoreToken(u, front, step, t);
    }
  }

  lemma NothingIssued(u: Setup, t: Token)
    ensures !Usable(AfterAll(u, EMPTY, []), t) && forall j :: !IssuedAt(u, [], j, t)
  {
  }

  lemma OneMoreToken(u: Setup, run: seq<Step>, step: Step, t: Token)
    requires DistinctIds(u.positions) && Sound(At(u, run, |run|))
    requires var s := At(u, run, |run|);
      && (Usable(s, t) <==> exists j :: IssuedAt(u, run, j, t))
      && forall j :: IssuedAt(u, run, j, t) ==> t in s.auths && run[j].IssueStep? && SaysAsIssued(s, t, run[j])
    ensures var (s, more) := (After(u, At(u, run, |run|), step), run + [step]);
      && (Usable(s, t) <==> exists j :: IssuedAt(u, more, j, t))
      && forall j :: IssuedAt(u, more, j, t) ==> t in s.auths && more[j].IssueStep? && SaysAsIssued(s, t, more[j])
  {
    hide After, Issues, Withdraws, Usable, IssuedAt, SaysAsIssued, Sound;
    var (s, more) := (At(u, run, |run|), run + [step]);
    UsableStep(u, s, step, t);
    UsableIsIssued(s, t);
    IssuedIsFresh(s, step, t);
    IssuedNow(u, run, step, t);
    forall j | 0 <= j < |run|
      ensures IssuedAt(u, more, j, t) <==> IssuedAt(u, run, j, t) && Usable(s, t) && !Withdraws(u, s, step, t)
      ensures more[j] == run[j]
    {
      IssuedAtMore(u, run, step, j, t);
    }
    UsableIsIssued(After(u, s, step), t);
    TokenKept(u, s, step, t);
    forall j | IssuedAt(u, more, j, t)
      ensures 0 <= j <= |run| && t in After(u, s, step).auths && more[j].IssueStep?
      ensures SaysAsIssued(After(u, s, step), t, more[j])
    {
      IssuedInRun(u, more, j, t);
      assert more[|run|] == step;
      assert j < |run| ==> IssuedAt(u, run, j, t) && SaysAsIssued(s, t, run[j]);
    }
    if j :| 0 <= j < |run| && IssuedAt(u, more, j, t) {
      assert IssuedAt(u, run, j, t);
    }
    if Usable(s, t) && !Withdraws(u, s, step, t) {
      var j :| IssuedAt(u, run, j, t);
      IssuedInRun(u, run, j, t);
      assert IssuedAt(u, more, j, t);
    }
  }

  lemma IssuedInRun(u: Setup, run: seq<Step>, j: int, t: Token)
    requires IssuedAt(u, run, j, t)
    ensures 0 <= j < |run|
  {
  }

  lemma UsableIsIssued(s: Polls, t: Token)
    ensures Usable(s, t) ==> t in s.auths
  {
  }

  lemma IssuedIsFresh(s: Polls, step: Step, t: Token)
    ensures Issues(s, step, t) ==> t !in s.auths
  {
  }

  lemma IssuedNow(u: Setup, run: seq<Step>, step: Step, t: Token)
    ensures IssuedAt(u, run + [step], |run|, t) <==> Issues(At(u, run, |run|), step, t)
  {
    AtPrefix(u, run, step, |run|);
    assert (run + [step])[|run|] == step;
  }

  lemma TokenKept(u: Setup, s: Polls, step: Step, t: Token)
    ensures Issues(s, step, t) ==>
      step.IssueStep? && t in After(u, s, step).auths && SaysAsIssued(After(u, s, step), t, step)
    ensures Usable(s, t) && Usable(After(u, s, step), t) && After(u, s, step).auths[t] == s.auths[t] ==>
      forall issue: Step :: issue.IssueStep? && SaysAsIssued(s, t, issue) ==> SaysAsIssued(After(u, s, step), t, issue)
  {
    hide After;
    if Issues(s, step, t) {
      IssueShows(u, s, step);
    }
  }

  lemma IssueShows(u: Setup, s: Polls, step: Step)
    requires MayIssue(s, step)
    ensures step.token in After(u, s, step).auths && SaysAsIssued(After(u, s, step), step.token, step)
  {
    IssueIffMay(s, step);
  }

  // ---- A voter votes ----

  lemma MayVote(u: Setup, run: seq<Step>, voter: VoterId)
    requires forall j :: 0 <= j < |run| ==> !Unmarks(At(u, run, j), run[j])
    requires voter in AfterAll(u, EMPTY, run).roll && AfterAll(u, EMPTY, run).roll[voter].status != Voted
    ensures !HasConsumed(AfterAll(u, EMPTY, run).auths, voter)
  {
    RollAgreesWithBallots(u, run);
    hide AfterAll, HasConsumed, Unmarks;
    assert run[..|run|] == run && Agrees(At(u, run, |run|));
  }

  lemma IssueGives(u: Setup, s: Polls, voter: VoterId, token: Token, style: set<nat>, expires: int)
    requires MayIssue(s, IssueStep(true, voter, token, true, style, expires)) && !HasConsumed(s.auths, voter)
    ensures var t := After(u, s, IssueStep(true, voter, token, true, style, expires));
      && t.roll == s.roll && t.ballots == s.ballots && token in t.auths
      && t.auths[token] == Authorization(voter, Issued, style, expires) && !HasConsumed(t.auths, voter)
  {
  }

  /**
   Whoever is on the roll and may vote can: after any run without a stale write on a voter who has voted, one
   authorization and one cast of the chosen selections store exactly these, spend the token and mark the voter.
   */
  lemma EligibleVoterCanCast(u: Setup, run: seq<Step>, voter: VoterId, token: Token, style: set<nat>, expires: int,
                             m: Selections, ids: seq<nat>, orders: map<nat, seq<nat>>, nonce: nat, now: int)
    requires DistinctIds(u.positions) && forall j :: 0 <= j < |run| ==> !Unmarks(At(u, run, j), run[j])
    requires var s := AfterAll(u, EMPTY, run);
      && voter in s.roll && s.roll[voter].status in {Eligible, Verified} && token !in s.auths
    requires style != {} && AllLegal(u.positions, style, m) && Lists(m, ids, orders) && now < expires
    ensures var s := AfterAll(u, EMPTY, run);
      var issued := After(u, s, IssueStep(true, voter, token, true, style, expires));
      var t := After(u, issued, CastStep(true, token, Dict(Sent(m, ids, orders)), nonce, now));
      var place := if u.recordConstituency then s.roll[voter].constituency else None;
      && t.ballots == s.ballots + [Ballot(style, m, nonce, place)]
      && t.roll == s.roll[voter := s.roll[voter].(status := Voted)]
      && token in t.auths && t.auths[token].status == Consumed
  {
    hide AfterAll, StandsFor, AllLegal, Lists, Sent, HasConsumed, Validated, RevokeIssued, Unmarks;
    MayVote(u, run, voter);
    IssueGives(u, AfterAll(u, EMPTY, run), voter, token, style, expires);
    SentBallotIsRecorded(u.positions, style, m, ids, orders);
  }
}
