/**
 Ballot secrecy as a statement about two runs. Two voters who were given the same ballot style, and whose
 ballots record the same constituency, exchange what they submit; everything stored afterwards is the same.
 */
module CastingSecrecy {
  import opened Collections
  import opened Ballots
  import opened Casting
  import opened CastingRuns

  /** The cast step with the vote of another: only the submitted data and its padding change. */
  function Voting(step: Step, other: Step): Step
    requires step.CastStep? && other.CastStep?
  {
    step.(payload := other.payload, nonce := other.nonce)
  }

  function Exchanged(run: seq<Step>, i: nat, j: nat): (r: seq<Step>)
    requires i < j < |run| && run[i].CastStep? && run[j].CastStep?
    ensures |r| == |run|
  {
    run[i := Voting(run[i], run[j])][j := Voting(run[j], run[i])]
  }

  predicate Succeeds(u: Setup, s: Polls, step: Step) {
    step.CastStep? && CastRefusal(u, s, step.accepting, step.token, step.payload, step.now).None?
  }

  function CastBallot(u: Setup, s: Polls, step: Step): Ballot
    requires Succeeds(u, s, step)
  {
    NewBallot(u, s, step.token, Validated(u.positions, s.auths[step.token].style, step.payload).value, step.nonce)
  }

  /** Everything stored but the ballots. */
  predicate SamePublic(s: Polls, t: Polls) {
    s.roll == t.roll && s.auths == t.auths && s.audit == t.audit
  }

  /** The ballots a step adds. */
  function Added(u: Setup, s: Polls, step: Step): seq<Ballot> {
    if Succeeds(u, s, step) then [CastBallot(u, s, step)] else []
  }

  lemma StepOnPublic(u: Setup, s: Polls, t: Polls, step: Step)
    requires SamePublic(s, t)
    ensures SamePublic(After(u, s, step), After(u, t, step))
    ensures Added(u, s, step) == Added(u, t, step)
    ensures After(u, s, step).ballots == s.ballots + Added(u, s, step)
    ensures After(u, t, step).ballots == t.ballots + Added(u, t, step)
  {
    hide Validated, RevokeIssued, HasConsumed, AfterImportRows;
    assert t == s.(ballots := t.ballots);
  }

  /** Only whether the submitted data is acceptable shows outside the ballots. */
  lemma OtherVote(u: Setup, s: Polls, t: Polls, step: Step, other: Step)
    requires SamePublic(s, t) && Succeeds(u, s, step) && other.CastStep?
    requires Validated(u.positions, s.auths[step.token].style, other.payload).Some?
    ensures Succeeds(u, t, Voting(step, other))
    ensures SamePublic(After(u, s, step), After(u, t, Voting(step, other)))
    ensures After(u, s, step).ballots == s.ballots + [CastBallot(u, s, step)]
    ensures After(u, t, Voting(step, other)).ballots == t.ballots + [CastBallot(u, t, Voting(step, other))]
  {
    hide Validated, HasConsumed;
    assert t == s.(ballots := t.ballots);
  }

  /** The two casts: both succeed, on the same ballot style and with the same recorded constituency. */
  ghost predicate SameKind(u: Setup, run: seq<Step>, i: nat, j: nat)
    requires i < j < |run|
  {
    var s, t := AfterAll(u, EMPTY, run[..i]), AfterAll(u, EMPTY, run[..j]);
    && Succeeds(u, s, run[i]) && Succeeds(u, t, run[j])
    && CastBallot(u, s, run[i]).style == CastBallot(u, t, run[j]).style
    && CastBallot(u, s, run[i]).constituency == CastBallot(u, t, run[j]).constituency
  }

  lemma {:induction false} Between(u: Setup, run: seq<Step>, i: nat, j: nat, k: nat)
    requires i < j < |run| && SameKind(u, run, i, j) && i < k <= j
    ensures var s, t := AfterAll(u, EMPTY, run[..k]), AfterAll(u, EMPTY, Exchanged(run, i, j)[..k]);
      && SamePublic(s, t)
      && multiset(s.ballots) + multiset{CastBallot(u, AfterAll(u, EMPTY, run[..j]), run[j])}
         == multiset(t.ballots) + multiset{CastBallot(u, AfterAll(u, EMPTY, run[..i]), run[i])}
  {
    hide CastRefusal, Validated, After;
    var other := Exchanged(run, i, j);
    assert run[..k][..k - 1] == run[..k - 1] && other[..k][..k - 1] == other[..k - 1];
    var s, t := AfterAll(u, EMPTY, run[..k - 1]), AfterAll(u, EMPTY, other[..k - 1]);
    if k == i + 1 {
      assert other[..i] == run[..i];
      ValidForBoth(u, s, AfterAll(u, EMPTY, run[..j]), run[i], run[j]);
      OtherVote(u, s, s, run[i], run[j]);
    } else {
      Between(u, run, i, j, k - 1);
      assert other[k - 1] == run[k - 1];
      StepKeepsDifference(u, s, t, run[k - 1], CastBallot(u, AfterAll(u, EMPTY, run[..j]), run[j]),
                          CastBallot(u, AfterAll(u, EMPTY, run[..i]), run[i]));
    }
  }

  lemma StepKeepsDifference(u: Setup, s: Polls, t: Polls, step: Step, mine: Ballot, theirs: Ballot)
    requires SamePublic(s, t) && multiset(s.ballots) + multiset{mine} == multiset(t.ballots) + multiset{theirs}
    ensures SamePublic(After(u, s, step), After(u, t, step))
    ensures multiset(After(u, s, step).ballots) + multiset{mine} == multiset(After(u, t, step).ballots)
      + multiset{theirs}
  {
    hide CastRefusal, After, CastBallot, Added;
    StepOnPublic(u, s, t, step);
    var added := multiset(Added(u, s, step));
    assert multiset(After(u, s, step).ballots) + multiset{mine} == (multiset(s.ballots) + multiset{mine}) + added;
  }

  lemma ValidForBoth(u: Setup, s: Polls, t: Polls, step: Step, other: Step)
    requires Succeeds(u, s, step) && Succeeds(u, t, other)
    requires s.auths[step.token].style == t.auths[other.token].style
    ensures Validated(u.positions, s.auths[step.token].style, other.payload).Some?
    ensures Validated(u.positions, t.auths[other.token].style, step.payload).Some?
    ensures CastBallot(u, s, step).constituency == CastBallot(u, t, other).constituency
      && Succeeds(u, s, Voting(step, other))
      ==> CastBallot(u, s, Voting(step, other)) == CastBallot(u, t, other)
    ensures CastBallot(u, s, step).constituency == CastBallot(u, t, other).constituency
      && Succeeds(u, t, Voting(other, step))
      ==> CastBallot(u, t, Voting(other, step)) == CastBallot(u, s, step)
  {
    hide Validated, HasConsumed;
  }

  lemma SameBallot(u: Setup, s: Polls, t: Polls, step: Step)
    requires SamePublic(s, t) && Succeeds(u, s, step)
    ensures Succeeds(u, t, step) && CastBallot(u, t, step) == CastBallot(u, s, step)
  {
    hide Validated, HasConsumed;
  }

  lemma {:induction false} Afterwards(u: Setup, run: seq<Step>, i: nat, j: nat, k: nat)
    requires i < j < |run| && SameKind(u, run, i, j) && j < k <= |run|
    ensures var s, t := AfterAll(u, EMPTY, run[..k]), AfterAll(u, EMPTY, Exchanged(run, i, j)[..k]);
      SamePublic(s, t) && multiset(s.ballots) == multiset(t.ballots)
  {
    hide CastRefusal, Validated, After, CastBallot;
    var other := Exchanged(run, i, j);
    assert run[..k][..k - 1] == run[..k - 1] && other[..k][..k - 1] == other[..k - 1];
    var s, t := AfterAll(u, EMPTY, run[..k - 1]), AfterAll(u, EMPTY, other[..k - 1]);
    if k == j + 1 {
      Between(u, run, i, j, j);
      SecondExchange(u, AfterAll(u, EMPTY, run[..i]), s, t, run[i], run[j]);
    } else {
      Afterwards(u, run, i, j, k - 1);
      StepOnPublic(u, s, t, run[k - 1]);
    }
  }

  lemma SecondExchange(u: Setup, first: Polls, s: Polls, t: Polls, step: Step, other: Step)
    requires Succeeds(u, first, step) && Succeeds(u, s, other) && SamePublic(s, t)
    requires CastBallot(u, first, step).style == CastBallot(u, s, other).style
    requires CastBallot(u, first, step).constituency == CastBallot(u, s, other).constituency
    requires multiset(s.ballots) + multiset{CastBallot(u, s, other)} == multiset(t.ballots)
      + multiset{CastBallot(u, first, step)}
    ensures SamePublic(After(u, s, other), After(u, t, Voting(other, step)))
    ensures multiset(After(u, s, other).ballots) == multiset(After(u, t, Voting(other, step)).ballots)
  {
    hide CastRefusal, Validated, After;
    ValidForBoth(u, first, s, step, other);
    OtherVote(u, s, t, other, step);
    SameBallot(u, t, s, Voting(other, step));
  }

  /**
   Secrecy. In any run, with any other steps before, between and after, let two successful casts have the same
   style and recorded constituency. If the two voters exchange their votes, the roll,
   the authorizations and the audit log are the same, and so is the collection of stored ballots.
   */
  lemma VotesAreUnlinkable(u: Setup, run: seq<Step>, i: nat, j: nat)
    requires i < j < |run| && SameKind(u, run, i, j)
    ensures var s, t := AfterAll(u, EMPTY, run), AfterAll(u, EMPTY, Exchanged(run, i, j));
      SamePublic(s, t) && multiset(s.ballots) == multiset(t.ballots)
  {
    hide SamePublic, AfterAll, CastRefusal, Validated;
    Afterwards(u, run, i, j, |run|);
    assert run[..|run|] == run && Exchanged(run, i, j)[..|run|] == Exchanged(run, i, j);
  }
}
