/**
 Dual control as a statement about what happens to an election. Where it is required, lifting a freeze, moving
 the end later, releasing a legal hold, re-opening and decertifying take two persons, save for one way round it.
 */
module DualControl {
  import opened Collections
  import opened Lifecycle
  import opened Elections
  import opened ElectionRuns
  import opened ElectionTheorems

  /** A change that dual control is about; new dates of a draft are not. */
  predicate Effect(s: Stored, t: Stored) {
    || !StillFrozen(s.event, t.event)
    || (t.event.end > s.event.end && t.event.stage != Draft)
    || (s.event.legalHold && !t.event.legalHold)
    || (s.event.stage == Closed && t.event.stage == Open)
    || (s.event.stage in {Certified, Published} && t.event.stage == Tallying)
  }

  /** The change is what this action is for. */
  predicate Accounts(action: Sensitive, s: Stored, t: Stored) {
    match action
    case UnfreezeFlag(scope) => Frozen(s.event, scope) && !Frozen(t.event, scope)
    case ExtendVoting(newEnd) => s.event.end < newEnd == t.event.end && t.event.stage == s.event.stage
    case ReopenVoting(newEnd) => s.event.stage == Closed && t.event.stage == Open && t.event.end == newEnd
    case DecertifyResult => s.event.stage in {Certified, Published} && t.event.stage == Tallying
    case ReleaseHold => s.event.legalHold && !t.event.legalHold
  }

  /** One person takes the stage back by naming a transition that is meant for an agreed request. */
  predicate Alone(s: Stored, step: Step) {
    && s.config.settings.dualApproval && step.Act? && (step.action == Decertify || step.action == Reopen)
    && s.event.stage in Sources(step.action) && step.call.permitted
  }

  /**
   This step decides, for somebody else, a request that an earlier step put on record for just what happens: step `j`
   is an accepted request, and its row is the one decided.
   */
  ghost predicate TakesTwo(e: Env, m: Machine, run: seq<Step>, k: nat)
    requires k < |run|
  {
    var (s, t) := (StateAt(e, m, run, k), StateAt(e, m, run, k + 1));
    && run[k].Decide? && run[k].k < |s.requests|
    && s.requests[run[k].k].requestedBy != run[k].approver && Accounts(s.requests[run[k].k].action, s, t)
    && exists j :: 0 <= j < k && PutsOnRecord(e, m, run, j, run[k].k, s.requests[run[k].k])
  }

  /** Step `j` of the run appends the row `i` of the requests, with this action and requester. */
  ghost predicate PutsOnRecord(e: Env, m: Machine, run: seq<Step>, j: nat, i: nat, q: Request)
    requires j < |run|
  {
    && run[j].Ask? && run[j].sensitive == q.action && run[j].requester == q.requestedBy
    && |StateAt(e, m, run, j).requests| == i && |StateAt(e, m, run, j + 1).requests| == i + 1
  }

  // ---- One step ----

  /** A decision in time, by somebody else than who asked, for this very change. */
  predicate Decided(s: Stored, step: Step, t: Stored) {
    && step.Decide? && step.k < |s.requests| && s.requests[step.k].requestedBy != step.approver
    && Accounts(s.requests[step.k].action, s, t)
  }

  lemma ActionEffect(e: Env, s: Stored, a: Action, c: Call)
    ensures var t := OrSame(AfterTransition(e, s, a, c, Nothing), s);
      Effect(s, t) <==> (a == Decertify || a == Reopen) && Moves(s.event, s.config.settings, a, c)
  {
    hide Moved, Guard, KeyAvailable, NewSnapshot;
  }

  lemma TickEffect(e: Env, s: Stored, now: int, keyOk: bool)
    ensures !Effect(s, AfterTick(e, s, now, keyOk))
  {
    hide Moved, Guard, KeyAvailable, NewSnapshot;
  }

  lemma EditEffect(s: Stored, change: Change)
    ensures !Effect(s, AfterEdit(s, change))
  {
    hide Renamed;
  }

  lemma PerformedEffect(e: Env, s: Stored, action: Sensitive, now: int)
    ensures var t := OrSame(Performed(e, s, action, now), s); Effect(s, t) ==> Accounts(action, s, t)
  {
    hide AfterTransition, AfterRevoke, Flagged;
    match action
    case ReopenVoting(newEnd) => ReopenEffect(e, s, SystemCall(now, false, false), newEnd);
    case DecertifyResult => RevokeEffect(s, now);
    case UnfreezeFlag(scope) => LiftingLifts(s.event, scope);
    case _ =>
  }

  lemma ReopenEffect(e: Env, s: Stored, c: Call, newEnd: int)
    ensures var t := OrSame(AfterTransition(e, s, Reopen, c, NewEnd(newEnd)), s);
      t != s ==> s.event.stage == Closed && t.event.stage == Open && t.event.end == newEnd
  {
    hide Moved, Guard, NewSnapshot;
  }

  lemma RevokeEffect(s: Stored, now: int)
    ensures var t := OrSame(AfterRevoke(s, now), s); Effect(s, t) ==> Accounts(DecertifyResult, s, t)
  {
  }

  lemma LiftingLifts(row: EventRow, scope: Scope)
    ensures var r := Flagged(row, scope, false);
      && r.end == row.end && r.legalHold == row.legalHold && r.stage == row.stage
      && (!StillFrozen(row, r) ==> Frozen(row, scope) && !Frozen(r, scope))
  {
  }

  lemma DecisionEffect(e: Env, s: Stored, step: Step)
    requires step.Decide?
    ensures Effect(s, AfterStored(e, s, step)) ==> Decided(s, step, AfterStored(e, s, step))
  {
    var asked := RequestsOnly(s, step);
    if asked.1.Some? {
      PerformedEffect(e, asked.0, asked.1.value, step.now);
    }
    hide Performed;
  }

  lemma RequestEffect(e: Env, s: Stored, step: Step)
    requires step.Ask? && s.config.settings.dualApproval
    ensures !Effect(s, AfterStored(e, s, step))
  {
    hide Performed;
  }

  lemma QuietEffect(s: Stored, t: Stored)
    requires t.event.end == s.event.end && (s.event.legalHold ==> t.event.legalHold) && StillFrozen(s.event, t.event)
    requires t.event.stage == s.event.stage || (s.event.stage == Tallying && t.event.stage == Certified)
    ensures !Effect(s, t)
  {
  }

  lemma StepEffect(e: Env, m: Machine, step: Step)
    requires m.db.config.settings.dualApproval
    ensures Effect(m.db, After(e, m, step).db) ==> Alone(m.db, step) || Decided(m.db, step, After(e, m, step).db)
    ensures Alone(m.db, step) ==> Effect(m.db, After(e, m, step).db)
  {
    hide Effect, AfterStored, Accounts, MayTally, NewResult;
    match step
    case Compute(_, _, _, _) => QuietEffect(m.db, m.db);
    case Store(k) => QuietEffect(m.db, After(e, m, step).db);
    case _ => StoredEffect(e, m.db, step);
  }

  lemma StoredEffect(e: Env, s: Stored, step: Step)
    requires s.config.settings.dualApproval
    ensures Effect(s, AfterStored(e, s, step)) ==> Alone(s, step) || Decided(s, step, AfterStored(e, s, step))
    ensures Alone(s, step) ==> Effect(s, AfterStored(e, s, step))
  {
    hide Effect, AfterTransition, AfterTick, AfterEdit, AfterRequest, AfterDecide, Accounts;
    match step
    case Act(a, c) => 
      ActionEffect(e, s, a, c.(skipGuard := false));
      if a == Decertify || a == Reopen {
        PlainActionsMove(s, a, c.(skipGuard := false));
      }
    case Tick(now, keyOk) => TickEffect(e, s, now, keyOk);
    case Edit(change) => EditEffect(s, change);
    case Ask(_, _, _, _, _) => RequestEffect(e, s, step);
    case Decide(_, _, _, _, _) => DecisionEffect(e, s, step);
    case _ => OtherEffect(e, s, step);
  }

  lemma PlainActionsMove(s: Stored, a: Action, c: Call)
    requires a == Decertify || a == Reopen
    ensures Moves(s.event, s.config.settings, a, c) <==> s.event.stage in Sources(a) && c.permitted
  {
  }

  lemma OtherEffect(e: Env, s: Stored, step: Step)
    requires !step.Act? && !step.Tick? && !step.Edit? && !step.Ask? && !step.Decide?
    ensures !Effect(s, AfterStored(e, s, step))
  {
    hide Effect, Flagged, AfterCertify;
    match step
    case Freeze(scope) =>
      FreezingFreezes(s.event, scope);
      QuietEffect(s, s.(event := Flagged(s.event, scope, true)));
    case CertifyResult(k, reviewer, now, permitted) => CertifyEffect(s, k, reviewer, now, permitted);
    case PlaceHold => QuietEffect(s, s.(event := s.event.(legalHold := true)));
    case _ => QuietEffect(s, AfterStored(e, s, step));
  }

  lemma FreezingFreezes(row: EventRow, scope: Scope)
    ensures var r := Flagged(row, scope, true);
      StillFrozen(row, r) && r.end == row.end && r.legalHold == row.legalHold && r.stage == row.stage
  {
  }

  lemma CertifyEffect(s: Stored, k: nat, reviewer: User, now: int, permitted: bool)
    ensures !Effect(s, AfterCertify(s, k, reviewer, now, permitted))
  {
    hide Effect, NewCertification;
    QuietEffect(s, AfterCertify(s, k, reviewer, now, permitted));
  }

  // ---- Requests come from those who made them ----

  /** Of a request already there only the decision changes; a new one is what the step asks for. */
  ghost predicate RequestsGrow(s: Stored, step: Step, t: Stored) {
    && |s.requests| <= |t.requests| <= |s.requests| + 1
    && (forall i :: 0 <= i < |s.requests| ==>
          t.requests[i] == s.requests[i].(status := t.requests[i].status, decidedBy := t.requests[i].decidedBy))
    && (|t.requests| > |s.requests| ==>
          && step.Ask? && t.requests[|s.requests|].action == step.sensitive
          && t.requests[|s.requests|].requestedBy == step.requester)
  }

  lemma PerformedKeepsRequests(e: Env, s: Stored, action: Sensitive, now: int)
    ensures OrSame(Performed(e, s, action, now), s).requests == s.requests
  {
    hide Moves, Moved, NewSnapshot;
  }

  lemma TickKeepsRequests(e: Env, s: Stored, now: int, keyOk: bool)
    ensures AfterTick(e, s, now, keyOk).requests == s.requests
  {
    hide Moves, Moved, NewSnapshot;
  }

  /** The state with the request row written, before and after anything is carried out. */
  lemma RequestRows(e: Env, s: Stored, step: Step)
    requires step.Ask? || step.Decide?
    ensures RequestsGrow(s, step, AfterStored(e, s, step))
  {
    var asked := RequestsOnly(s, step);
    if asked.1.Some? {
      PerformedKeepsRequests(e, asked.0, asked.1.value, step.now);
    }
    hide Performed;
  }

  lemma OthersKeepRequests(e: Env, m: Machine, step: Step)
    requires !step.Ask? && !step.Decide? && !step.Cancel?
    ensures After(e, m, step).db.requests == m.db.requests
  {
    hide Moves, Moved, EditPolicy, Renamed, MayCertify, NewResult, MayTally, NewSnapshot, AfterTick, NewCertification,
      Supersede;
    if step.Tick? {
      TickKeepsRequests(e, m.db, step.now, step.keyOk);
    }
  }

  lemma StepRequests(e: Env, m: Machine, step: Step)
    ensures RequestsGrow(m.db, step, After(e, m, step).db)
  {
    hide AfterRequest, AfterDecide;
    if step.Ask? || step.Decide? {
      RequestRows(e, m.db, step);
    } else if !step.Cancel? {
      OthersKeepRequests(e, m, step);
      hide After;
    }
  }

  ghost predicate WasAsked(e: Env, m: Machine, run: seq<Step>, k: nat, i: nat, q: Request)
    requires k <= |run|
  {
    exists j :: 0 <= j < k && PutsOnRecord(e, m, run, j, i, q)
  }

  /** Each request on record was put there by an accepted request for that action by whom it names. */
  lemma {:induction false} RequestsWereAsked(e: Env, config: Config, start: int, end: int, key: nat, run: seq<Step>,
                                             k: nat)
    requires k <= |run|
    ensures var m := Created(config, start, end, key);
      var s := StateAt(e, m, run, k);
      forall i :: 0 <= i < |s.requests| ==> WasAsked(e, m, run, k, i, s.requests[i])
  {
    hide After, AfterAll;
    var m := Created(config, start, end, key);
    if k == 0 {
      NothingAsked(e, config, start, end, key, run);
    } else {
      RequestsWereAsked(e, config, start, end, key, run, k - 1);
      NextState(e, m, run, k - 1);
      StepRequests(e, AfterAll(e, m, run[..k - 1]), run[k - 1]);
      var s, t := StateAt(e, m, run, k - 1), StateAt(e, m, run, k);
      forall i | 0 <= i < |t.requests| ensures WasAsked(e, m, run, k, i, t.requests[i]) {
        if i < |s.requests| {
          assert WasAsked(e, m, run, k - 1, i, s.requests[i]);
          var j :| 0 <= j < k - 1 && PutsOnRecord(e, m, run, j, i, s.requests[i]);
          assert PutsOnRecord(e, m, run, j, i, t.requests[i]);
        } else {
          assert PutsOnRecord(e, m, run, k - 1, i, t.requests[i]);
        }
      }
    }
  }

  lemma NothingAsked(e: Env, config: Config, start: int, end: int, key: nat, run: seq<Step>)
    ensures StateAt(e, Created(config, start, end, key), run, 0).requests == []
  {
  }

  // ---- The results ----

  /**
   In every run: where dual control is required, nothing it is about happens except that somebody decides a
   request somebody else made for just that, exactly when no step of the run is a plain decertify or re-open
   action that succeeds.
   */
  lemma SensitiveTakesTwo(e: Env, config: Config, start: int, end: int, key: nat, run: seq<Step>)
    ensures var m := Created(config, start, end, key);
      (forall k :: 0 <= k < |run| && StateAt(e, m, run, k).config.settings.dualApproval
         && Effect(StateAt(e, m, run, k), StateAt(e, m, run, k + 1))
         ==> TakesTwo(e, m, run, k))
      <==> (forall k :: 0 <= k < |run| ==> !Alone(StateAt(e, m, run, k), run[k]))
  {
    hide After, AfterAll, Effect, Accounts, WasAsked;
    var m := Created(config, start, end, key);
    forall k | 0 <= k < |run| && StateAt(e, m, run, k).config.settings.dualApproval
      ensures Alone(StateAt(e, m, run, k), run[k]) <==>
        && Effect(StateAt(e, m, run, k), StateAt(e, m, run, k + 1))
        && !TakesTwo(e, m, run, k)
    {
      var s, t := StateAt(e, m, run, k), StateAt(e, m, run, k + 1);
      NextState(e, m, run, k);
      StepEffect(e, AfterAll(e, m, run[..k]), run[k]);
      RequestsWereAsked(e, config, start, end, key, run, k);
      if Decided(s, run[k], t) {
        AskedAndDecided(e, m, run, k);
      }
    }
    if forall k :: 0 <= k < |run| ==> !Alone(StateAt(e, m, run, k), run[k]) {
    } else {
      var k :| 0 <= k < |run| && Alone(StateAt(e, m, run, k), run[k]);
      assert Effect(StateAt(e, m, run, k), StateAt(e, m, run, k + 1)) && !TakesTwo(e, m, run, k);
    }
  }

  lemma AskedAndDecided(e: Env, m: Machine, run: seq<Step>, k: nat)
    requires k < |run| && Decided(StateAt(e, m, run, k), run[k], StateAt(e, m, run, k + 1))
    requires WasAsked(e, m, run, k, run[k].k, StateAt(e, m, run, k).requests[run[k].k])
    ensures TakesTwo(e, m, run, k)
  {
    hide Accounts, PutsOnRecord;
  }

  /** What one person can do: the stage of an election without any request moves, with one plain action. */
  predicate MovedAlone(e: Env, m: Machine, action: Action, before: Stage, after: Stage) {
    var t := After(e, m, Act(action, PlainCall(1, 0))).db;
    && Alone(m.db, Act(action, PlainCall(1, 0)))
    && m.db.event.stage == before && t.event.stage == after && t.requests == []
  }

  /** Such steps can be reached: one person re-opens a closed election. */
  lemma OnePersonReopens(e: Env, config: Config, key: nat) returns (run: seq<Step>)
    requires config.settings.dualApproval
    ensures MovedAlone(e, AfterAll(e, Created(config, 0, 10, key), run), Reopen, Closed, Open)
  {
    hide AfterAll, MovedAlone, OnRoute;
    run := RouteTaken(e, config, key, 5);
    Reopens(e, AfterAll(e, Created(config, 0, 10, key), run), config);
  }

  lemma Reopens(e: Env, m: Machine, config: Config)
    requires OnRoute(m, config, 5) && config.settings.dualApproval
    ensures MovedAlone(e, m, Reopen, Closed, Open)
  {
    hide Moved, NewSnapshot, KeyAvailable;
  }

  /** And one person decertifies a certified one. */
  lemma OnePersonDecertifies(e: Env, config: Config, key: nat) returns (run: seq<Step>)
    requires config.settings.dualApproval
    ensures MovedAlone(e, AfterAll(e, Created(config, 0, 10, key), run), Decertify, Certified, Tallying)
  {
    hide AfterAll, MovedAlone, CertifiedTimes;
    run := CertifiedReached(e, config, key, 1);
    Decertifies(e, AfterAll(e, Created(config, 0, 10, key), run), config);
  }

  lemma Decertifies(e: Env, m: Machine, config: Config)
    requires m.db.event.stage == Certified && CertifiedTimes(m, config, 1) && config.settings.dualApproval
    ensures MovedAlone(e, m, Decertify, Certified, Tallying)
  {
    hide Moved, NewSnapshot, KeyAvailable, ApprovedOnce;
  }

  /** A request under dual control is carried out, or fails, only after somebody else than who asked has decided. */
  lemma {:induction false} RequestsNeedAnother(e: Env, config: Config, start: int, end: int, key: nat, run: seq<Step>)
    ensures var s := AfterAll(e, Created(config, start, end, key), run).db;
      forall i :: 0 <= i < |s.requests| && s.requests[i].dual && s.requests[i].status in {Executed, Failed} ==>
        s.requests[i].decidedBy.Some? && s.requests[i].decidedBy != Some(s.requests[i].requestedBy)
  {
    TwoPersonsAlways(e, config, start, end, key, run);
    hide AfterAll;
  }

  ghost predicate TwoPersons(s: Stored) {
    forall i :: 0 <= i < |s.requests| ==>
      var q := s.requests[i];
      && (q.dual && q.status in {Executed, Failed} ==> q.decidedBy.Some? && q.decidedBy != Some(q.requestedBy))
  }

  lemma {:induction false} TwoPersonsAlways(e: Env, config: Config, start: int, end: int, key: nat, run: seq<Step>)
    ensures TwoPersons(AfterAll(e, Created(config, start, end, key), run).db)
  {
    hide TwoPersons, After;
    if run == [] {
      NobodyAsked(config, start, end, key);
    } else {
      TwoPersonsAlways(e, config, start, end, key, run[..|run| - 1]);
      StepTwoPersons(e, AfterAll(e, Created(config, start, end, key), run[..|run| - 1]), run[|run| - 1]);
    }
  }

  lemma NobodyAsked(config: Config, start: int, end: int, key: nat)
    ensures TwoPersons(Created(config, start, end, key).db)
  {
  }

  lemma StepTwoPersons(e: Env, m: Machine, step: Step)
    requires TwoPersons(m.db)
    ensures TwoPersons(After(e, m, step).db)
  {
    hide AfterRequest, AfterDecide;
    if step.Ask? || step.Decide? {
      RequestTwoPersons(e, m.db, step);
    } else if !step.Cancel? {
      OthersKeepRequests(e, m, step);
      hide After;
    }
  }

  lemma RequestTwoPersons(e: Env, s: Stored, step: Step)
    requires TwoPersons(s) && (step.Ask? || step.Decide?)
    ensures TwoPersons(AfterStored(e, s, step))
  {
    var asked := RequestsOnly(s, step);
    if asked.1.Some? {
      PerformedKeepsRequests(e, asked.0, asked.1.value, step.now);
    }
    hide Performed;
  }
}
