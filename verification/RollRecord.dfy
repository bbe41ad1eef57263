/** Who is on the roll, who has spent a token and what the log says, told from the steps of a run. */
module RollRecord {
  import opened Collections
  import opened Ballots
  import opened BallotMeaning
  import opened Casting
  import opened CastingRuns
  import opened CastingRecord

  ghost predicate CastsFor(u: Setup, s: Polls, step: Step, voter: VoterId) {
    MayCast(u, s, step) && s.auths[step.token].voter == voter
  }

  predicate Imports(step: Step, voter: VoterId) {
    step.ImportStep? && exists i :: 0 <= i < |step.rows| && step.rows[i].0 == voter
  }

  ghost predicate Spends(u: Setup, s: Polls, step: Step, t: Token) { MayCast(u, s, step) && step.token == t }

  // ---- The roll ----

  /** The status a step gives a voter, if it gives one. */
  ghost function Sets(u: Setup, s: Polls, step: Step, voter: VoterId): Option<Status> {
    if CastsFor(u, s, step, voter) then Some(Voted)
    else if step.SetStatusStep? && step.voter == voter && Unvoting(s, voter) && step.status != Voted
      then Some(step.status)
    else if step.StaleStep? && step.voter == voter && voter in s.roll && step.status != Voted then Some(step.status)
    else if Imports(step, voter) && voter !in s.roll then Some(Eligible)
    else None
  }

  ghost predicate Drops(s: Polls, step: Step, voter: VoterId) {
    || (step == RemoveStep(voter) && MayRemove(s, voter))
    || (step.ClearStep? && MayClear(s) && Unvoting(s, voter))
  }

  lemma {:induction false} ImportAdds(roll: map<VoterId, Voter>, rows: seq<(VoterId, Option<nat>)>, voter: VoterId)
    ensures var after := AfterImportRows(roll, rows);
      && (voter in after <==> voter in roll || exists i :: 0 <= i < |rows| && rows[i].0 == voter)
      && (voter in after ==> after[voter].status == if voter in roll then roll[voter].status else Eligible)
  {
    if rows != [] {
      ImportAdds(roll, rows[..|rows| - 1], voter);
      assert forall i :: 0 <= i < |rows| - 1 ==> rows[..|rows| - 1][i] == rows[i];
    }
  }

  lemma ClearIffMay(s: Polls)
    ensures AfterClear(s).roll == if MayClear(s) then s.roll - Unvoted(s) else s.roll
    ensures AfterClear(s).audit == if MayClear(s) then s.audit + [VotersCleared] else s.audit
  {
    var kept :=
      map t | t in s.auths && !(s.auths[t].voter in Unvoted(s) && s.auths[t].status != Consumed) :: s.auths[t];
    if v :| v in Unvoted(s) && HasConsumed(kept, v) {
      var t :| t in kept && kept[t].voter == v && kept[t].status == Consumed;
      assert s.auths[t].status == Consumed;
    }
    if !MayClear(s) {
      var t :| t in s.auths && s.auths[t].status == Consumed && s.auths[t].voter in s.roll
        && s.roll[s.auths[t].voter].status != Voted;
      assert t in kept && HasConsumed(kept, s.auths[t].voter);
    }
  }

  lemma RemoveIffMay(s: Polls, voter: VoterId)
    ensures AfterRemove(s, voter).roll == if MayRemove(s, voter) then s.roll - {voter} else s.roll
  {
  }

  lemma RollStep(u: Setup, s: Polls, step: Step, voter: VoterId)
    requires DistinctIds(u.positions)
    ensures var (t, status) := (After(u, s, step), Sets(u, s, step, voter));
      && (voter in t.roll <==> status.Some? || (voter in s.roll && !Drops(s, step, voter)))
      && (voter in t.roll ==> t.roll[voter].status == if status.Some? then status.value else s.roll[voter].status)
  {
    hide StandsFor, Validated, RevokeIssued, HasConsumed;
    match step
    case CastStep(_, _, _, _, _) => CastIffMay(u, s, step);
    case ImportStep(rows) => ImportAdds(s.roll, rows, voter);
    case RemoveStep(v) => RemoveIffMay(s, v); hide AfterRemove;
    case ClearStep => ClearIffMay(s); hide AfterClear;
    case _ =>
  }

  /** Step `j` is the last to say anything about the voter, and it gives a status. */
  ghost predicate LastSet(u: Setup, run: seq<Step>, j: int, voter: VoterId) {
    && 0 <= j < |run| && Sets(u, At(u, run, j), run[j], voter).Some?
    && forall k :: j < k < |run| ==>
         Sets(u, At(u, run, k), run[k], voter).None? && !Drops(At(u, run, k), run[k], voter)
  }

  lemma LastSetMore(u: Setup, run: seq<Step>, step: Step, j: int, voter: VoterId)
    ensures LastSet(u, run + [step], j, voter) <==>
      if j == |run| then Sets(u, At(u, run, |run|), step, voter).Some?
      else
        && LastSet(u, run, j, voter)
        && Sets(u, At(u, run, |run|), step, voter).None? && !Drops(At(u, run, |run|), step, voter)
  {
    hide Sets, Drops, AfterAll;
    var more := run + [step];
    forall k: nat | k <= |run| ensures At(u, more, k) == At(u, run, k) && (k < |run| ==> more[k] == run[k]) {
      AtPrefix(u, run, step, k);
    }
    assert more[|run|] == step;
  }

  /** What a run says about a voter: a voter is on the roll exactly if some step was the last to give them a status. */
  ghost predicate Told(u: Setup, run: seq<Step>, s: Polls, voter: VoterId) {
    && (voter in s.roll <==> exists j :: LastSet(u, run, j, voter))
    && forall j :: LastSet(u, run, j, voter) ==>
         voter in s.roll && Some(s.roll[voter].status) == Sets(u, At(u, run, j), run[j], voter)
  }

  lemma OneMoreTold(u: Setup, run: seq<Step>, step: Step, voter: VoterId)
    requires DistinctIds(u.positions) && Told(u, run, At(u, run, |run|), voter)
    ensures Told(u, run + [step], After(u, At(u, run, |run|), step), voter)
  {
    hide After, Sets, Drops, LastSet, AfterAll;
    var (s, more) := (At(u, run, |run|), run + [step]);
    RollStep(u, s, step, voter);
    forall j ensures LastSet(u, more, j, voter) <==>
      if j == |run| then Sets(u, s, step, voter).Some?
      else LastSet(u, run, j, voter) && Sets(u, s, step, voter).None? && !Drops(s, step, voter)
    {
      LastSetMore(u, run, step, j, voter);
    }
    assert more[|run|] == step;
    forall k: nat | k <= |run| ensures At(u, more, k) == At(u, run, k) && (k < |run| ==> more[k] == run[k]) {
      AtPrefix(u, run, step, k);
    }
    forall j | LastSet(u, run, j, voter) ensures 0 <= j < |run| {
      InRun(u, run, j, voter);
    }
    if voter in s.roll {
      var j :| LastSet(u, run, j, voter);
      assert Sets(u, s, step, voter).None? && !Drops(s, step, voter) ==> LastSet(u, more, j, voter);
    }
    assert Sets(u, s, step, voter).Some? ==> LastSet(u, more, |run|, voter);
  }

  lemma InRun(u: Setup, run: seq<Step>, j: int, voter: VoterId)
    requires LastSet(u, run, j, voter)
    ensures 0 <= j < |run|
  {
  }

  /** After any run each voter's place on the roll and status are what the last step about them said. */
  lemma {:induction false} RollTellsTheRun(u: Setup, run: seq<Step>, voter: VoterId)
    requires DistinctIds(u.positions)
    ensures Told(u, run, AfterAll(u, EMPTY, run), voter)
  {
    hide After, Told;
    if run == [] {
      NothingTold(u, voter);
    } else {
      var (n, step) := (|run| - 1, run[|run| - 1]);
      RollTellsTheRun(u, run[..n], voter);
      assert run[..n] + [step] == run && run[..n][..n] == run[..n];
      OneMoreTold(u, run[..n], step, voter);
    }
  }

  lemma NothingTold(u: Setup, voter: VoterId)
    ensures Told(u, [], AfterAll(u, EMPTY, []), voter)
  {
  }

  // ---- Spent tokens and the log ----

  /** What a step puts in the log. */
  ghost predicate Logs(u: Setup, s: Polls, step: Step, e: Entry) {
    match e
    case BallotIssued(v) => MayIssue(s, step) && step.voter == v
    case BallotCast(v) => CastsFor(u, s, step, v)
    case CredentialReset(v) => step == ResetStep(v) && Unvoting(s, v)
    case StatusChanged(v, before, after) =>
      step == SetStatusStep(v, after) && Unvoting(s, v) && after != Voted && before == s.roll[v].status
    case VoterRemoved(v) => step == RemoveStep(v) && MayRemove(s, v)
    case VotersImported => step.ImportStep?
    case VotersCleared => step.ClearStep? && MayClear(s)
    case CodeResent(v) => step == ResendStep(v, true) && v in s.roll && s.roll[v].status in {Eligible, Verified}
    case CodeRefused =>
      step.ResendStep? && !(step.hasEmail && step.voter in s.roll && s.roll[step.voter].status in {Eligible, Verified})
  }

  lemma LogStep(u: Setup, s: Polls, step: Step, e: Entry)
    requires DistinctIds(u.positions)
    ensures e in After(u, s, step).audit <==> e in s.audit || Logs(u, s, step, e)
  {
    hide StandsFor, Validated, RevokeIssued, AfterImportRows;
    match step
    case CastStep(_, _, _, _, _) => CastIffMay(u, s, step); hide HasConsumed;
    case ClearStep => ClearIffMay(s); hide AfterClear;
    case _ =>
  }

  lemma SpentStep(u: Setup, s: Polls, step: Step, t: Token)
    requires DistinctIds(u.positions) && Sound(s)
    ensures t in ConsumedTokens(After(u, s, step)) <==>
      t in ConsumedTokens(s) || Spends(u, s, step, t)
  {
    hide StandsFor, Validated, After, Sound;
    match step
    case CastStep(_, _, _, _, _) => CastSpends(u, s, step, t);
    case IssueStep(_, _, _, _, _, _) => IssueSpendsNothing(u, s, step, t);
    case _ => PlainIsQuiet(u, s, step);
  }

  lemma CastSpends(u: Setup, s: Polls, step: Step, t: Token)
    requires DistinctIds(u.positions) && step.CastStep?
    ensures t in ConsumedTokens(After(u, s, step)) <==>
      t in ConsumedTokens(s) || Spends(u, s, step, t)
  {
    hide StandsFor, Validated, HasConsumed;
    CastIffMay(u, s, step);
  }

  lemma IssueSpendsNothing(u: Setup, s: Polls, step: Step, t: Token)
    requires step.IssueStep?
    ensures t in ConsumedTokens(After(u, s, step)) <==> t in ConsumedTokens(s)
  {
  }

  /** After any run: exactly the tokens that a successful cast presented are spent. */
  lemma {:induction false} SpentTokensWereCast(u: Setup, run: seq<Step>, t: Token)
    requires DistinctIds(u.positions)
    ensures t in ConsumedTokens(AfterAll(u, EMPTY, run)) <==>
      exists k :: 0 <= k < |run| && Spends(u, At(u, run, k), run[k], t)
  {
    hide After, Spends, Sound;
    if run != [] {
      var (n, step) := (|run| - 1, run[|run| - 1]);
      SpentTokensWereCast(u, run[..n], t);
      RunIsSound(u, run[..n]);
      var s := AfterAll(u, EMPTY, run[..n]);
      SpentStep(u, s, step, t);
      PrefixStates(u, run);
      hide AfterAll, ConsumedTokens;
      assert At(u, run, n) == s;
      if k :| 0 <= k < n && Spends(u, At(u, run[..n], k), run[..n][k], t) {
        assert Spends(u, At(u, run, k), run[k], t);
      }
    }
  }

  lemma PrefixStates(u: Setup, run: seq<Step>)
    requires run != []
    ensures var n := |run| - 1;
      forall k :: 0 <= k < n ==> At(u, run[..n], k) == At(u, run, k) && run[..n][k] == run[k]
  {
    var n := |run| - 1;
    forall k | 0 <= k < n ensures At(u, run[..n], k) == At(u, run, k) {
      assert run[..n][..k] == run[..k];
    }
  }

  /** After any run the log holds exactly what its steps put there: who was issued a ballot, who cast one, and so on. */
  lemma {:induction false} LogTellsTheRun(u: Setup, run: seq<Step>, e: Entry)
    requires DistinctIds(u.positions)
    ensures e in AfterAll(u, EMPTY, run).audit <==> exists k :: 0 <= k < |run| && Logs(u, At(u, run, k), run[k], e)
  {
    hide After, Logs;
    if run != [] {
      var (n, step) := (|run| - 1, run[|run| - 1]);
      LogTellsTheRun(u, run[..n], e);
      var s := AfterAll(u, EMPTY, run[..n]);
      LogStep(u, s, step, e);
      PrefixStates(u, run);
      hide AfterAll;
      assert At(u, run, n) == s;
      if k :| 0 <= k < n && Logs(u, At(u, run[..n], k), run[..n][k], e) {
        assert Logs(u, At(u, run, k), run[k], e);
      }
    }
  }

  // ---- Codes and constituencies ----

  /** A new code is made for the voter, so that the old one no longer signs them in. */
  predicate NewCode(s: Polls, step: Step, voter: VoterId) {
    || (step == ResetStep(voter) && Unvoting(s, voter))
    || (step == ResendStep(voter, true) && voter in s.roll && s.roll[voter].status in {Eligible, Verified})
  }

  /** The constituency of the last row that names one for the voter. */
  ghost predicate PlacedBy(rows: seq<(VoterId, Option<nat>)>, i: int, voter: VoterId) {
    && 0 <= i < |rows| && rows[i].0 == voter && rows[i].1.Some?
    && forall j :: i < j < |rows| && rows[j].0 == voter ==> rows[j].1.None?
  }

  lemma {:induction false} ImportPlaces(roll: map<VoterId, Voter>, rows: seq<(VoterId, Option<nat>)>, voter: VoterId)
    requires voter in AfterImportRows(roll, rows)
    ensures var (before, after) := (if voter in roll then roll[voter].constituency else None,
                                    AfterImportRows(roll, rows)[voter]);
      if voter in roll && roll[voter].status == Voted then after == roll[voter]
      else
        && (forall i :: PlacedBy(rows, i, voter) ==> after.constituency == rows[i].1)
        && ((forall i :: !PlacedBy(rows, i, voter)) ==> after.constituency == before)
        && after.credential == if voter in roll then roll[voter].credential else 0
  {
    if rows != [] {
      var (n, last) := (|rows| - 1, rows[|rows| - 1]);
      ImportAdds(roll, rows[..n], voter);
      forall i ensures PlacedBy(rows, i, voter) <==>
        if i == n then last.0 == voter && last.1.Some?
        else PlacedBy(rows[..n], i, voter) && (last.0 == voter ==> last.1.None?)
      {
      }
      if voter in AfterImportRows(roll, rows[..n]) {
        ImportPlaces(roll, rows[..n], voter);
        if forall i :: !PlacedBy(rows, i, voter) {
          assert !PlacedBy(rows, n, voter);
          forall i ensures !PlacedBy(rows[..n], i, voter) {
            assert !PlacedBy(rows, i, voter);
          }
        }
      } else {
        forall i ensures !PlacedBy(rows[..n], i, voter) {
        }
        assert last.0 == voter && AfterImportRows(roll, rows)[voter] == Voter(Eligible, last.1, 0);
        assert PlacedBy(rows, n, voter) <==> last.1.Some?;
      }
    }
  }

  /** Codes change exactly when a new one is asked for, and constituencies only by import. */
  lemma DetailsChange(u: Setup, s: Polls, step: Step, voter: VoterId)
    requires DistinctIds(u.positions) && voter in s.roll && voter in After(u, s, step).roll
    ensures var (before, after) := (s.roll[voter], After(u, s, step).roll[voter]);
      && after.credential == before.credential + (if NewCode(s, step, voter) then 1 else 0)
      && (after.constituency != before.constituency ==>
            before.status != Voted && step.ImportStep? && exists i :: PlacedBy(step.rows, i, voter))
      && (before.status != Voted && step.ImportStep? ==>
            forall i :: PlacedBy(step.rows, i, voter) ==> after.constituency == step.rows[i].1)
  {
    hide StandsFor, Validated, RevokeIssued, HasConsumed;
    match step
    case ImportStep(rows) => ImportPlaces(s.roll, rows, voter); hide AfterImportRows;
    case RemoveStep(v) => RemoveIffMay(s, v); hide AfterRemove;
    case ClearStep => ClearIffMay(s); hide AfterClear;
    case _ =>
  }
}
