/**
 What each step does to what is stored, said without the functions that carry it out: which ballots, snapshots,
 certifications and requests it adds, what it reviews or carries out, and what it leaves alone.
 */
module ElectionEffects {
  import opened Collections
  import opened ByteStrings
  import opened Merkle
  import opened Bulletin
  import opened Lifecycle
  import opened Elections
  import opened ElectionRuns
  import opened ElectionTheorems

  // ---- Ballots ----

  /** Votes are accepted now, by a secret-ballot election with its key, and the tracker is new. */
  predicate TakesVote(s: Stored, vote: Vote, now: int) {
    && s.event.stage == Open && s.event.start <= now < s.event.end
    && s.config.settings.institutional && s.event.keyReady
    && forall i :: 0 <= i < |s.board| ==> s.board[i].tracker != vote.tracker
  }

  lemma NewTracker(board: seq<Vote>, tracker: Digest)
    ensures tracker in Trackers(board) <==> exists i :: 0 <= i < |board| && board[i].tracker == tracker
  {
    if i :| 0 <= i < |board| && board[i].tracker == tracker {
      assert Trackers(board)[i] == tracker;
    }
  }

  lemma CastOutcome(s: Stored, vote: Vote, now: int)
    ensures AfterCast(s, vote, now) == if TakesVote(s, vote, now) then s.(board := s.board + [vote]) else s
  {
    NewTracker(s.board, vote.tracker);
    hide Trackers;
  }

  /** The votes that a run has stored. */
  ghost function VotesCast(e: Env, m: Machine, run: seq<Step>): seq<Vote> {
    if run == [] then []
    else
      var (front, step) := (run[..|run| - 1], run[|run| - 1]);
      VotesCast(e, m, front)
      + if step.Cast? && TakesVote(AfterAll(e, m, front).db, step.vote, step.now) then [step.vote] else []
  }

  lemma OthersKeepBoard(e: Env, s: Stored, step: Step)
    requires !step.Cast?
    ensures AfterStored(e, s, step).board == s.board
  {
    hide Moves, Moved, NewSnapshot, AfterTick, AfterEdit, AfterRequest, AfterDecide, Flagged;
    match step
    case Tick(now, keyOk) => TickKeepsBoard(e, s, now, keyOk);
    case Edit(change) => EditTouches(s, change);
    case Ask(_, _, _, _, _) => RequestKeepsBoard(e, s, step);
    case Decide(_, _, _, _, _) => RequestKeepsBoard(e, s, step);
    case _ =>
  }

  lemma TickKeepsBoard(e: Env, s: Stored, now: int, keyOk: bool)
    ensures AfterTick(e, s, now, keyOk).board == s.board
  {
    hide Moves, Moved, NewSnapshot;
  }

  lemma RequestKeepsBoard(e: Env, s: Stored, step: Step)
    requires step.Ask? || step.Decide?
    ensures AfterStored(e, s, step).board == s.board
  {
    forall u: Stored, action, now | u.board == s.board
      ensures OrSame(Performed(e, u, action, now), u).board == s.board
    {
      PerformedKeepsBoard(e, u, action, now);
    }
    hide Performed;
  }

  lemma PerformedKeepsBoard(e: Env, s: Stored, action: Sensitive, now: int)
    ensures OrSame(Performed(e, s, action, now), s).board == s.board
  {
    hide Moves, Moved, NewSnapshot, Flagged;
  }

  /** The board holds the votes taken while voting was open, in the order they came, and nothing else. */
  lemma {:induction false} BoardIsWhatWasCast(e: Env, config: Config, start: int, end: int, key: nat, run: seq<Step>)
    ensures var m := Created(config, start, end, key); AfterAll(e, m, run).db.board == VotesCast(e, m, run)
  {
    hide AfterStored, TakesVote;
    if run != [] {
      var (m, front, step) := (Created(config, start, end, key), run[..|run| - 1], run[|run| - 1]);
      BoardIsWhatWasCast(e, config, start, end, key, front);
      var s := AfterAll(e, m, front).db;
      match step
      case Cast(vote, now) => CastOutcome(s, vote, now); CastIsStored(e, s, vote, now);
      case _ => OthersKeepBoard(e, s, step);
    }
  }

  lemma CastIsStored(e: Env, s: Stored, vote: Vote, now: int)
    ensures AfterStored(e, s, Cast(vote, now)) == AfterCast(s, vote, now)
  {
  }

  // ---- Snapshots ----

  /** The document says everything there is to say: settings, positions, candidates, rules, dates and roll. */
  ghost predicate Describes(d: Document, s: Stored) {
    && d.settings == s.config.settings && d.positions == s.config.positions && d.rules == s.config.rules
    && |d.uncategorized| == |s.config.uncategorized|
    && (forall i :: 0 <= i < |d.uncategorized| ==>
          d.uncategorized[i] == (s.config.uncategorized[i].id, s.config.uncategorized[i].name))
    && d.start == s.event.start && d.end == s.event.end && d.roll == s.roll
  }

  /** Somebody asks for a snapshot, or approves what another submitted. */
  predicate Signs(s: Stored, step: Step) {
    || step.SignSnapshot?
    || (step.Act? && step.action == Approve && s.event.stage == Review && step.call.permitted
        && !(s.config.settings.dualApproval && s.event.submittedBy == Some(step.call.actor)))
  }

  ghost predicate SignedAt(e: Env, s: Stored, step: Step, n: Snapshot) {
    && Describes(n.config, s) && n.hash == e.docHash(n.config)
    && VerifySignature(n.config, n.signature, n.publicKey) && n.publicKey == s.signing
    && n.reason == if step.SignSnapshot? then OnDemand else OnApproval
  }

  lemma SnapshotSigned(e: Env, s: Stored, event: EventRow, step: Step)
    requires event.start == s.event.start && event.end == s.event.end
    ensures SignedAt(e, s, step, NewSnapshot(e, s, event, if step.SignSnapshot? then OnDemand else OnApproval))
  {
  }

  lemma ApprovalSigns(e: Env, s: Stored, c: Call)
    ensures var (t, step) := (AfterStored(e, s, Act(Approve, c)), Act(Approve, c));
      if Signs(s, step) then
        |t.snapshots| == |s.snapshots| + 1 && t.snapshots[..|s.snapshots|] == s.snapshots
        && SignedAt(e, s, step, t.snapshots[|s.snapshots|])
      else t.snapshots == s.snapshots
  {
    var step := Act(Approve, c);
    var moved := Moved(s.event, s.config.settings, Approve, c.(skipGuard := false));
    SnapshotSigned(e, s, moved, step);
    hide NewSnapshot, SignedAt;
  }

  lemma OthersSignNothing(e: Env, s: Stored, step: Step)
    requires !step.SignSnapshot? && !(step.Act? && step.action == Approve)
    ensures AfterStored(e, s, step).snapshots == s.snapshots
  {
    hide Moves, Moved, NewSnapshot, AfterTick, AfterEdit, AfterRequest, AfterDecide, Flagged;
    match step
    case Tick(now, keyOk) => TickSignsNothing(e, s, now, keyOk);
    case Edit(change) => EditTouches(s, change);
    case Ask(_, _, _, _, _) => RequestSignsNothing(e, s, step);
    case Decide(_, _, _, _, _) => RequestSignsNothing(e, s, step);
    case _ =>
  }

  lemma TickSignsNothing(e: Env, s: Stored, now: int, keyOk: bool)
    ensures AfterTick(e, s, now, keyOk).snapshots == s.snapshots
  {
    hide Moves, Moved, NewSnapshot;
  }

  lemma RequestSignsNothing(e: Env, s: Stored, step: Step)
    requires step.Ask? || step.Decide?
    ensures AfterStored(e, s, step).snapshots == s.snapshots
  {
    forall u: Stored, action, now | u.snapshots == s.snapshots
      ensures OrSame(Performed(e, u, action, now), u).snapshots == s.snapshots
    {
      PerformedSignsNothing(e, u, action, now);
    }
    hide Performed;
  }

  lemma PerformedSignsNothing(e: Env, s: Stored, action: Sensitive, now: int)
    ensures OrSame(Performed(e, s, action, now), s).snapshots == s.snapshots
  {
    hide Moves, Moved, NewSnapshot, Flagged;
  }

  /** A step that signs adds one snapshot of everything as it is, under the key in use; no other step adds any. */
  lemma SnapshotOutcome(e: Env, s: Stored, step: Step)
    ensures var t := AfterStored(e, s, step);
      if Signs(s, step) then
        |t.snapshots| == |s.snapshots| + 1 && t.snapshots[..|s.snapshots|] == s.snapshots
        && SignedAt(e, s, step, t.snapshots[|s.snapshots|])
      else t.snapshots == s.snapshots
  {
    if step.SignSnapshot? {
      SnapshotSigned(e, s, s.event, step);
      hide NewSnapshot, SignedAt;
    } else if step.Act? && step.action == Approve {
      ApprovalSigns(e, s, step.call);
      hide AfterStored, SignedAt, Signs;
    } else {
      OthersSignNothing(e, s, step);
      hide AfterStored;
    }
  }

  predicate Numbered(snapshots: seq<Snapshot>) { forall i :: 0 <= i < |snapshots| ==> snapshots[i].version == i + 1 }

  lemma NextVersion(e: Env, s: Stored, step: Step)
    requires Numbered(s.snapshots)
    ensures Numbered(AfterStored(e, s, step).snapshots)
  {
    if step.SignSnapshot? {
      hide DocumentOf;
    } else if step.Act? && step.action == Approve {
      hide DocumentOf, Moved, Moves;
    } else {
      OthersSignNothing(e, s, step);
      hide AfterStored;
    }
  }

  /** Snapshots are numbered from one. */
  lemma {:induction false} SnapshotsAreNumbered(e: Env, config: Config, start: int, end: int, key: nat, run: seq<Step>)
    ensures Numbered(AfterAll(e, Created(config, start, end, key), run).db.snapshots)
  {
    hide AfterStored, Numbered;
    if run == [] {
      NoneNumbered();
    } else {
      SnapshotsAreNumbered(e, config, start, end, key, run[..|run| - 1]);
      NextVersion(e, AfterAll(e, Created(config, start, end, key), run[..|run| - 1]).db, run[|run| - 1]);
    }
  }

  lemma NoneNumbered()
    ensures Numbered([])
  {
  }

  // ---- Certifications ----

  /** A pending official result of an election being tallied, which under dual approval somebody else has computed. */
  predicate Certifiable(s: Stored, step: Step) {
    && step.CertifyResult? && step.permitted && step.k < |s.results| && s.event.stage == Tallying
    && s.results[step.k].kind == Official && s.results[step.k].status == PendingReview
    && (s.config.settings.dualApproval ==> s.results[step.k].talliedBy != Some(step.reviewer))
  }

  /** The certification states the result with its counts, the latest snapshot, and who signed when with which key. */
  ghost predicate CertifiedBy(s: Stored, step: Step, c: Certification)
    requires Certifiable(s, step)
  {
    var (r, p) := (s.results[step.k], c.payload);
    && c.result == step.k && c.talliedBy == r.talliedBy && c.certifiedBy == step.reviewer && c.certifiedAt == step.now
    && c.revokedAt == None && c.publicKey == s.signing && VerifySignature(p, c.signature, c.publicKey)
    && p.resultHash == r.hash && p.root == r.root && p.certifiedAt == step.now
    && p.ballots == r.data.stable.ballots && p.participated == r.data.stable.turnout.participated
    && p.eligible == r.data.stable.turnout.eligible
    && p.configHash == if s.snapshots == [] then None else Some(s.snapshots[|s.snapshots| - 1].hash)
  }

  /** Certifying adds the certification, approves the result and moves the election; otherwise nothing happens. */
  lemma CertificationOutcome(e: Env, s: Stored, step: Step)
    requires step.CertifyResult?
    ensures var t := AfterStored(e, s, step);
      if Certifiable(s, step) then
        && |t.certifications| == |s.certifications| + 1 && t.certifications[..|s.certifications|] == s.certifications
        && CertifiedBy(s, step, t.certifications[|s.certifications|])
        && t.results == s.results[step.k := s.results[step.k].(status := ResultApproved,
                                                                reviewedBy := Some(step.reviewer))]
        && t.event == s.event.(stage := Certified, certifiedAt := Some(step.now))
        && t == s.(certifications := t.certifications, results := t.results, event := t.event)
      else t == s
  {
  }

  lemma OthersCertifyNothing(e: Env, s: Stored, step: Step)
    requires !step.CertifyResult?
    ensures |AfterStored(e, s, step).certifications| == |s.certifications|
  {
    hide Moves, Moved, NewSnapshot, AfterTick, AfterEdit, AfterRequest, AfterDecide, Flagged;
    match step
    case Tick(now, keyOk) => TickCertifiesNothing(e, s, now, keyOk);
    case Edit(change) => EditTouches(s, change);
    case Ask(_, _, _, _, _) => RequestCertifiesNothing(e, s, step);
    case Decide(_, _, _, _, _) => RequestCertifiesNothing(e, s, step);
    case _ =>
  }

  lemma TickCertifiesNothing(e: Env, s: Stored, now: int, keyOk: bool)
    ensures AfterTick(e, s, now, keyOk).certifications == s.certifications
  {
    hide Moves, Moved, NewSnapshot;
  }

  lemma RequestCertifiesNothing(e: Env, s: Stored, step: Step)
    requires step.Ask? || step.Decide?
    ensures |AfterStored(e, s, step).certifications| == |s.certifications|
  {
    forall u: Stored, action, now | u.certifications == s.certifications
      ensures |OrSame(Performed(e, u, action, now), u).certifications| == |s.certifications|
    {
      PerformedCertifiesNothing(e, u, action, now);
    }
    hide Performed;
  }

  lemma PerformedCertifiesNothing(e: Env, s: Stored, action: Sensitive, now: int)
    ensures |OrSame(Performed(e, s, action, now), s).certifications| == |s.certifications|
  {
    hide Moves, Moved, NewSnapshot, Flagged;
  }

  /** Only a pending result is rejected. */
  lemma RejectionOutcome(e: Env, s: Stored, k: nat, reviewer: User, permitted: bool)
    ensures AfterStored(e, s, RejectResult(k, reviewer, permitted)) ==
      if permitted && k < |s.results| && s.results[k].status == PendingReview
      then s.(results := s.results[k := s.results[k].(status := ResultRejected, reviewedBy := Some(reviewer))]) else s
  {
  }

  predicate Waiting(r: Result) { r.kind == Official && r.status == PendingReview }

  /**
   A new official result takes the place of those that wait, and waits itself; any other result is for
   information.
   */
  lemma StoreOutcome(s: Stored, r: Result)
    ensures var t := AfterStore(s, r);
      && |t.results| == |s.results| + 1 && t.results[|s.results|] == r && t == s.(results := t.results)
      && forall i :: 0 <= i < |s.results| ==>
           t.results[i] == if r.kind == Official && Waiting(s.results[i]) then s.results[i].(status := Superseded)
                           else s.results[i]
  {
  }

  lemma NewResultWaits(e: Env, s: Stored, kind: Kind, actor: Option<User>, now: int)
    ensures NewResult(e, s, kind, actor, now).status == if kind == Official then PendingReview else Informational
  {
    hide BoardCounts;
  }

  ghost predicate OneWaits(results: seq<Result>) {
    forall i, j :: 0 <= i < j < |results| && Waiting(results[i]) ==> !Waiting(results[j])
  }

  predicate NoMoreWait(results: seq<Result>, later: seq<Result>) {
    |later| == |results| && forall i :: 0 <= i < |results| && Waiting(later[i]) ==> Waiting(results[i])
  }

  lemma StepOneWaits(e: Env, m: Machine, step: Step)
    requires OneWaits(m.db.results) && forall r :: r in m.working ==> (Waiting(r) <==> r.kind == Official)
    ensures var t := After(e, m, step);
      OneWaits(t.db.results) && forall r :: r in t.working ==> (Waiting(r) <==> r.kind == Official)
  {
    hide AfterStored, NewResult, AfterStore, MayTally;
    match step
    case Compute(kind, actor, now, unlocked) =>
      NewResultWaits(e, m.db, kind, actor, now);
      ResultIsOfKind(e, m.db, kind, actor, now);
    case Store(k) =>
      if k < |m.working| {
        StoreOutcome(m.db, m.working[k]);
      }
    case _ => NothingNewWaits(e, m.db, step);
  }

  lemma ResultIsOfKind(e: Env, s: Stored, kind: Kind, actor: Option<User>, now: int)
    ensures NewResult(e, s, kind, actor, now).kind == kind
  {
    hide BoardCounts;
  }

  lemma NothingNewWaits(e: Env, s: Stored, step: Step)
    ensures NoMoreWait(s.results, AfterStored(e, s, step).results)
  {
    hide Moves, Moved, NewSnapshot, AfterTick, AfterEdit, AfterRequest, AfterDecide, Flagged;
    match step
    case Tick(now, keyOk) => TickKeepsResults(e, s, now, keyOk);
    case Edit(change) => EditTouches(s, change);
    case Ask(_, _, _, _, _) => RequestAddsNoResult(e, s, step);
    case Decide(_, _, _, _, _) => RequestAddsNoResult(e, s, step);
    case _ =>
  }

  lemma TickKeepsResults(e: Env, s: Stored, now: int, keyOk: bool)
    ensures AfterTick(e, s, now, keyOk).results == s.results
  {
    hide Moves, Moved, NewSnapshot;
  }

  lemma RequestAddsNoResult(e: Env, s: Stored, step: Step)
    requires step.Ask? || step.Decide?
    ensures NoMoreWait(s.results, AfterStored(e, s, step).results)
  {
    forall u: Stored, action, now | u.results == s.results
      ensures NoMoreWait(s.results, OrSame(Performed(e, u, action, now), u).results)
    {
      PerformedAddsNoResult(e, u, action, now);
    }
    hide Performed, NoMoreWait;
  }

  lemma PerformedAddsNoResult(e: Env, s: Stored, action: Sensitive, now: int)
    ensures NoMoreWait(s.results, OrSame(Performed(e, s, action, now), s).results)
  {
    hide Moves, Moved, NewSnapshot, Flagged;
  }

  /** At no time do two official results wait for review. */
  lemma {:induction false} OneResultWaits(e: Env, config: Config, start: int, end: int, key: nat, run: seq<Step>)
    ensures var m := AfterAll(e, Created(config, start, end, key), run);
      OneWaits(m.db.results) && forall r :: r in m.working ==> (Waiting(r) <==> r.kind == Official)
  {
    hide After, OneWaits, Waiting;
    if run == [] {
      NothingWaits();
    } else {
      OneResultWaits(e, config, start, end, key, run[..|run| - 1]);
      StepOneWaits(e, AfterAll(e, Created(config, start, end, key), run[..|run| - 1]), run[|run| - 1]);
    }
  }

  lemma NothingWaits()
    ensures OneWaits([])
  {
  }

  // ---- Requests ----

  predicate FlagOf(row: EventRow, scope: Scope) {
    match scope
    case ConfigScope => row.configFrozen
    case BallotScope => row.ballotFrozen
    case CandidatesScope => row.candidatesFrozen
    case VotersScope => row.votersFrozen
    case ProfileScope => false
  }

  /** The same row but for one flag. */
  predicate SameButFlag(row: EventRow, later: EventRow, scope: Scope) {
    && later == row.(configFrozen := later.configFrozen, ballotFrozen := later.ballotFrozen,
                      candidatesFrozen := later.candidatesFrozen, votersFrozen := later.votersFrozen)
    && forall other: Scope :: other != scope ==> FlagOf(later, other) == FlagOf(row, other)
  }

  predicate Possible(s: Stored, action: Sensitive, now: int) {
    match action
    case UnfreezeFlag(scope) => scope != ProfileScope
    case ExtendVoting(newEnd) =>
      newEnd > now && newEnd > s.event.end && s.event.stage in {Open, Paused, Scheduled}
    case ReopenVoting(newEnd) =>
      && newEnd > now && s.event.stage == Closed
      && forall i :: 0 <= i < |s.results| ==> s.results[i].status != ResultApproved
    case DecertifyResult =>
      && s.event.stage in {Certified, Published}
      && exists i :: 0 <= i < |s.certifications| && s.certifications[i].revokedAt.None?
    case ReleaseHold => true
  }

  /** What carrying out the action does. */
  ghost predicate Does(s: Stored, t: Stored, action: Sensitive, now: int) {
    match action
    case UnfreezeFlag(scope) =>
      t == s.(event := t.event) && SameButFlag(s.event, t.event, scope) && !FlagOf(t.event, scope)
    case ExtendVoting(newEnd) => t == s.(event := s.event.(end := newEnd))
    case ReopenVoting(newEnd) =>
      && t == s.(event := t.event) && t.event.stage == Open && t.event.end == newEnd && t.event.closedAt == None
      && t.event.start == Min(s.event.start, now)
      && t.event.submittedBy == s.event.submittedBy && t.event.reviewedBy == s.event.reviewedBy
    case DecertifyResult =>
      exists i :: 0 <= i < |s.certifications| && s.certifications[i].revokedAt.None? && Revokes(s, t, i, now)
    case ReleaseHold => t == s.(event := s.event.(legalHold := false))
  }

  /** The latest certification in force is revoked and its result superseded; the election is tallied again. */
  predicate Revokes(s: Stored, t: Stored, i: nat, now: int)
    requires i < |s.certifications|
  {
    var k := s.certifications[i].result;
    && (forall j :: 0 <= j < |s.certifications| && s.certifications[j].revokedAt.None?
          ==> s.certifications[j].certifiedAt <= s.certifications[i].certifiedAt)
    && t == s.(certifications := s.certifications[i := s.certifications[i].(revokedAt := Some(now))],
               results := if k < |s.results| then s.results[k := s.results[k].(status := Superseded)] else s.results,
               event := s.event.(stage := Tallying))
  }

  lemma PerformanceOutcome(e: Env, s: Stored, action: Sensitive, now: int)
    ensures Performed(e, s, action, now).Some? <==> Possible(s, action, now)
    ensures Possible(s, action, now) ==> Does(s, Performed(e, s, action, now).value, action, now)
  {
    match action
    case UnfreezeFlag(scope) => UnfreezeOutcome(e, s, scope, now);
    case ExtendVoting(newEnd) => ExtensionOutcome(e, s, newEnd, now);
    case ReopenVoting(newEnd) => ReopenOutcome(e, s, newEnd, now);
    case DecertifyResult => RevocationOutcome(s, now); RevocationIs(e, s, now);
    case ReleaseHold => ReleaseOutcome(e, s, now);
    hide Performed, Possible, Does, AfterRevoke;
  }

  lemma RevocationIs(e: Env, s: Stored, now: int)
    ensures Performed(e, s, DecertifyResult, now) == AfterRevoke(s, now)
  {
  }

  lemma UnfreezeOutcome(e: Env, s: Stored, scope: Scope, now: int)
    ensures var t := Performed(e, s, UnfreezeFlag(scope), now);
      && (t.Some? <==> Possible(s, UnfreezeFlag(scope), now))
      && (t.Some? ==> Does(s, t.value, UnfreezeFlag(scope), now))
  {
    hide AfterTransition, AfterRevoke;
  }

  lemma ExtensionOutcome(e: Env, s: Stored, newEnd: int, now: int)
    ensures var t := Performed(e, s, ExtendVoting(newEnd), now);
      && (t.Some? <==> Possible(s, ExtendVoting(newEnd), now))
      && (t.Some? ==> Does(s, t.value, ExtendVoting(newEnd), now))
  {
    hide AfterTransition, AfterRevoke;
  }

  lemma ReleaseOutcome(e: Env, s: Stored, now: int)
    ensures var t := Performed(e, s, ReleaseHold, now); t.Some? && Does(s, t.value, ReleaseHold, now)
    ensures Possible(s, ReleaseHold, now)
  {
    hide AfterTransition, AfterRevoke;
  }

  lemma ReopenOutcome(e: Env, s: Stored, newEnd: int, now: int)
    ensures var t := Performed(e, s, ReopenVoting(newEnd), now);
      && (t.Some? <==> Possible(s, ReopenVoting(newEnd), now))
      && (t.Some? ==> Does(s, t.value, ReopenVoting(newEnd), now))
  {
    ClockReopens(e, s, newEnd, now);
    hide AfterTransition, AfterRevoke;
  }

  lemma ClockReopens(e: Env, s: Stored, newEnd: int, now: int)
    ensures var t := AfterTransition(e, s, Reopen, SystemCall(now, false, false), NewEnd(newEnd));
      && (t.Some? <==> s.event.stage == Closed)
      && (t.Some? ==>
            && t.value == s.(event := t.value.event) && t.value.event.stage == Open && t.value.event.end == newEnd
            && t.value.event.closedAt == None && t.value.event.start == Min(s.event.start, now)
            && t.value.event.submittedBy == s.event.submittedBy && t.value.event.reviewedBy == s.event.reviewedBy)
  {
    hide NewSnapshot, KeyAvailable;
  }

  lemma RevocationOutcome(s: Stored, now: int)
    ensures AfterRevoke(s, now).Some? <==> Possible(s, DecertifyResult, now)
    ensures AfterRevoke(s, now).Some? ==> Does(s, AfterRevoke(s, now).value, DecertifyResult, now)
  {
    var current := Current(s.certifications);
    if AfterRevoke(s, now).Some? {
      assert Revokes(s, AfterRevoke(s, now).value, current.value, now);
    }
  }

  /** Execution at step's time `now`: done, or failed with nothing changed. */
  ghost predicate CarriedOut(s: Stored, t: Stored, action: Sensitive, now: int, status: RequestStatus) {
    && (status == Executed || status == Failed)
    && (status == Executed <==> Possible(s, action, now))
    && if status == Executed then exists u :: Does(s, u, action, now) && t == u.(requests := t.requests)
       else t == s.(requests := t.requests)
  }

  lemma ExecutionOutcome(e: Env, s: Stored, k: nat, now: int)
    requires k < |s.requests|
    ensures var t := AfterExecute(e, s, k, now);
      && t.requests == s.requests[k := s.requests[k].(status := t.requests[k].status)]
      && CarriedOut(s, t, s.requests[k].action, now, t.requests[k].status)
  {
    PerformanceOutcome(e, s, s.requests[k].action, now);
    PerformedKeepsRequests(e, s, s.requests[k].action, now);
    hide Performed, Possible, Does;
  }

  lemma PerformedKeepsRequests(e: Env, s: Stored, action: Sensitive, now: int)
    ensures OrSame(Performed(e, s, action, now), s).requests == s.requests
  {
    hide Moves, Moved, NewSnapshot, Flagged;
  }

  /**
   A request that may be made is put on record with its time limit; it waits under dual approval, else is carried
   out.
   */
  lemma AskOutcome(e: Env, s: Stored, action: Sensitive, actor: User, now: int, permitted: bool, reasoned: bool)
    ensures var t := AfterRequest(e, s, action, actor, now, permitted, reasoned);
      if !permitted || !reasoned || (action.UnfreezeFlag? && LockedStage(s.event.stage)) then t == s
      else
        && |t.requests| == |s.requests| + 1 && t.requests[..|s.requests|] == s.requests
        && var q := t.requests[|s.requests|];
        && q.action == action && q.requestedBy == actor && q.expires == now + 259200
        && if s.config.settings.dualApproval then
             q.dual && q.status == Pending && q.decidedBy == None && t == s.(requests := t.requests)
           else
             !q.dual && q.decidedBy == Some(actor)
             && exists u: Stored :: u == s.(requests := u.requests) && CarriedOut(u, t, action, now, q.status)
  {
    if !s.config.settings.dualApproval {
      ExecutionOutcome(e, s.(requests := s.requests + [NewRequest(s, action, actor, now)]), |s.requests|, now);
    }
    hide AfterExecute, CarriedOut;
  }

  predicate Decidable(s: Stored, k: nat, approver: User, now: int, permitted: bool) {
    && k < |s.requests| && s.requests[k].status == Pending && now < s.requests[k].expires
    && permitted && approver != s.requests[k].requestedBy
  }

  /** A decision in time by somebody else is recorded and carried out if it approves; a late one ends the request. */
  lemma DecisionOutcome(e: Env, s: Stored, k: nat, approver: User, approve: bool, now: int, permitted: bool)
    ensures var t := AfterDecide(e, s, k, approver, approve, now, permitted);
      if Decidable(s, k, approver, now, permitted) then
        && |t.requests| == |s.requests|
        && t.requests == s.requests[k := s.requests[k].(decidedBy := Some(approver), status := t.requests[k].status)]
        && if approve then
             exists u: Stored :: u == s.(requests := u.requests)
               && CarriedOut(u, t, s.requests[k].action, now, t.requests[k].status)
           else t.requests[k].status == Refused && t == s.(requests := t.requests)
      else if k < |s.requests| && s.requests[k].status == Pending && s.requests[k].expires <= now then
        t == s.(requests := s.requests[k := s.requests[k].(status := Expired)])
      else t == s
  {
    if Decidable(s, k, approver, now, permitted) && approve {
      var decided := s.requests[k].(decidedBy := Some(approver), status := Agreed);
      ExecutionOutcome(e, s.(requests := s.requests[k := decided]), k, now);
    }
    hide AfterExecute, CarriedOut;
  }

  /** Only who asked takes a request back, while it waits. */
  lemma CancelOutcome(s: Stored, k: nat, actor: User)
    ensures var t := AfterCancel(s, k, actor);
      if k < |s.requests| && s.requests[k].status == Pending && s.requests[k].requestedBy == actor then
        t.requests == s.requests[k := s.requests[k].(status := Cancelled)] && t == s.(requests := t.requests)
      else t == s
  {
  }

  /** Freezing raises one flag. */
  lemma FreezeOutcome(e: Env, s: Stored, scope: Scope)
    ensures var t := AfterStored(e, s, Freeze(scope));
      && t == s.(event := t.event) && SameButFlag(s.event, t.event, scope)
      && (scope != ProfileScope ==> FlagOf(t.event, scope))
  {
    FlagRaised(s.event, scope);
    hide Flagged, SameButFlag, FlagOf, AfterTransition, AfterTick, AfterEdit, AfterRequest, AfterDecide;
  }

  lemma FlagRaised(row: EventRow, scope: Scope)
    ensures var later := Flagged(row, scope, true);
      SameButFlag(row, later, scope) && (scope != ProfileScope ==> FlagOf(later, scope))
  {
  }

  // ---- Actions ----

  predicate HasKey(s: Stored, c: Call) { !s.config.settings.institutional || s.event.keyReady || c.keyOk }

  /** Which actions are possible when. */
  predicate MayAct(s: Stored, a: Action, c: Call) {
    && c.permitted
    && match a
       case Submit => s.event.stage == Draft && !c.problems
       case Withdraw => s.event.stage == Review
       case Approve =>
         s.event.stage == Review && (s.config.settings.dualApproval ==> s.event.submittedBy != Some(c.actor))
       case SendBack => s.event.stage == Review
       case Schedule => s.event.stage == Approved && !c.problems && c.now < s.event.end && HasKey(s, c)
       case Unschedule => s.event.stage == Scheduled
       case OpenVoting => s.event.stage == Scheduled && c.now < s.event.end && HasKey(s, c)
       case Pause => s.event.stage == Open
       case Resume => s.event.stage == Paused && c.now < s.event.end
       case Close => s.event.stage in {Open, Paused}
       case StartTally => s.event.stage == Closed
       case Certify => s.event.stage == Tallying
       case Publish => s.event.stage == Certified
       case Archive => s.event.stage in {Draft, Closed, Published} && !s.event.legalHold && !c.disputes
       case Decertify => s.event.stage in {Certified, Published}
       case Reopen => s.event.stage == Closed
  }

  /** Voting opens: from now at the latest, first noted once, and in a secret-ballot election with everything frozen. */
  predicate OpensVoting(s: Stored, later: EventRow, now: int) {
    && later.stage == Open && later.start == Min(s.event.start, now)
    && later.openedAt == (if s.event.openedAt.Some? then s.event.openedAt else Some(now))
    && (s.config.settings.institutional ==>
          && later.configFrozen && later.ballotFrozen && later.candidatesFrozen
          && (later.votersFrozen <==> s.event.votersFrozen || !s.config.settings.selfRegistration))
    && (!s.config.settings.institutional ==> SameFlags(s.event, later))
    && later == s.event.(stage := Open, start := later.start, openedAt := later.openedAt,
                          configFrozen := later.configFrozen, ballotFrozen := later.ballotFrozen,
                          candidatesFrozen := later.candidatesFrozen, votersFrozen := later.votersFrozen,
                          keyReady := later.keyReady)
  }

  predicate SameFlags(row: EventRow, later: EventRow) {
    && later.configFrozen == row.configFrozen && later.ballotFrozen == row.ballotFrozen
    && later.candidatesFrozen == row.candidatesFrozen && later.votersFrozen == row.votersFrozen
  }

  /** What an action leaves of the row. */
  predicate Acts(s: Stored, a: Action, c: Call, later: EventRow) {
    var row := s.event;
    match a
    case Submit => later == row.(stage := Review, submittedBy := Some(c.actor))
    case Withdraw => later == row.(stage := Draft, submittedBy := None)
    case Approve => later == row.(stage := Approved, reviewedBy := Some(c.actor))
    case SendBack => later == row.(stage := Draft)
    case Schedule => later == row.(stage := Scheduled, keyReady := row.keyReady || s.config.settings.institutional)
    case Unschedule => later == row.(stage := Approved)
    case OpenVoting =>
      OpensVoting(s, later, c.now) && later.keyReady == (row.keyReady || s.config.settings.institutional)
    case Pause => later == row.(stage := Paused)
    case Resume => later == row.(stage := Open)
    case Close =>
      later == row.(stage := Closed, closedAt := Some(c.now), end := Min(row.end, c.now), configFrozen := true,
                     ballotFrozen := true, candidatesFrozen := true, votersFrozen := true)
    case StartTally => later == row.(stage := Tallying)
    case Certify => later == row.(stage := Certified)
    case Publish => later == row.(stage := Published, publishedAt := Some(c.now))
    case Archive => later == row.(stage := Archived, archivedAt := Some(c.now), active := false)
    case Decertify => later == row.(stage := Tallying)
    case Reopen => OpensVoting(s, later, c.now) && later.keyReady == row.keyReady
  }

  /** An action that is possible does what it should to the row and signs on approval; any other does nothing. */
  lemma ActOutcome(e: Env, s: Stored, a: Action, c: Call)
    ensures var t := AfterStored(e, s, Act(a, c));
      if MayAct(s, a, c) then
        t == s.(event := t.event, snapshots := t.snapshots) && Acts(s, a, c, t.event)
        && (a != Approve ==> t.snapshots == s.snapshots)
      else t == s
  {
    MovesIffMay(s, a, c);
    MovedActs(s, a, c.(skipGuard := false));
    hide Moves, Moved, NewSnapshot, Acts, MayAct;
  }

  lemma MovesIffMay(s: Stored, a: Action, c: Call)
    ensures Moves(s.event, s.config.settings, a, c.(skipGuard := false)) <==> MayAct(s, a, c)
  {
  }

  lemma MovedActs(s: Stored, a: Action, c: Call)
    requires !c.skipGuard
    ensures Acts(s, a, c, Moved(s.event, s.config.settings, a, c))
  {
    match a
    case OpenVoting =>
      OpenedOpens(s, s.event.keyReady || s.config.settings.institutional, c.now); hide Opened, OpensVoting;
    case Reopen => OpenedOpens(s, s.event.keyReady, c.now); hide Opened, OpensVoting;
    case _ => hide Opened, OpensVoting;
  }

  lemma OpenedOpens(s: Stored, keyReady: bool, now: int)
    ensures var later := Opened(s.event.(keyReady := keyReady), s.config.settings, now);
      OpensVoting(s, later, now) && later.keyReady == keyReady
    ensures s.event.(keyReady := s.event.keyReady) == s.event
  {
  }

  /** What is noted for good: the first opening, and that an election is no longer active exactly when archived. */
  predicate Noted(row: EventRow) {
    && (row.active <==> row.stage != Archived) && (row.stage == Archived ==> row.archivedAt.Some?)
    && (row.stage in {Open, Paused, Closed, Tallying, Certified, Published} ==> row.openedAt.Some?)
    && (row.stage == Published ==> row.publishedAt.Some?)
  }

  predicate KeepsNotes(row: EventRow, later: EventRow) {
    (row.openedAt.Some? ==> later.openedAt == row.openedAt) && (row.stage == Archived ==> later.stage == Archived)
  }

  lemma StepNoted(e: Env, s: Stored, step: Step)
    requires Noted(s.event)
    ensures Noted(AfterStored(e, s, step).event) && KeepsNotes(s.event, AfterStored(e, s, step).event)
  {
    hide AfterTransition, AfterTick, AfterEdit, AfterRequest, AfterDecide, AfterCertify, AfterCast, AfterReject,
      AfterCancel, AfterSign, Flagged, Noted, KeepsNotes;
    match step
    case Act(a, c) => ActNoted(e, s, a, c); hide AfterStored;
    case Tick(now, keyOk) => TickNoted(e, s, now, keyOk);
    case Edit(change) => EditNoted(s, change);
    case Freeze(scope) => FreezeNoted(s.event, scope);
    case CertifyResult(k, reviewer, now, permitted) => CertifyNoted(s, k, reviewer, now, permitted);
    case Ask(_, _, _, _, _) => RequestNoted(e, s, step); hide AfterStored;
    case Decide(_, _, _, _, _) => RequestNoted(e, s, step); hide AfterStored;
    case _ => RestNoted(e, s, step); hide AfterStored;
  }

  lemma ActNoted(e: Env, s: Stored, a: Action, c: Call)
    requires Noted(s.event)
    ensures var t := AfterStored(e, s, Act(a, c)); Noted(t.event) && KeepsNotes(s.event, t.event)
  {
    ActOutcome(e, s, a, c);
    hide AfterStored;
  }

  lemma EditNoted(s: Stored, change: Change)
    requires Noted(s.event)
    ensures Noted(AfterEdit(s, change).event) && KeepsNotes(s.event, AfterEdit(s, change).event)
  {
    EditOutcome(s, change);
    hide AfterEdit, Configured, KeptOut;
  }

  lemma FreezeNoted(row: EventRow, scope: Scope)
    requires Noted(row)
    ensures Noted(Flagged(row, scope, true)) && KeepsNotes(row, Flagged(row, scope, true))
  {
  }

  lemma CertifyNoted(s: Stored, k: nat, reviewer: User, now: int, permitted: bool)
    requires Noted(s.event)
    ensures var t := AfterCertify(s, k, reviewer, now, permitted); Noted(t.event) && KeepsNotes(s.event, t.event)
  {
    hide NewCertification;
  }

  /** The other steps leave the row alone, or put a hold on it. */
  lemma RestNoted(e: Env, s: Stored, step: Step)
    requires Noted(s.event) && !step.Act? && !step.Tick? && !step.Edit? && !step.Freeze? && !step.CertifyResult?
    requires !step.Ask? && !step.Decide?
    ensures Noted(AfterStored(e, s, step).event) && KeepsNotes(s.event, AfterStored(e, s, step).event)
  {
    hide AfterTransition, AfterTick, AfterEdit, AfterRequest, AfterDecide, AfterCertify, Flagged;
  }

  lemma TickNoted(e: Env, s: Stored, now: int, keyOk: bool)
    requires Noted(s.event)
    ensures var t := AfterTick(e, s, now, keyOk); Noted(t.event) && KeepsNotes(s.event, t.event)
  {
    hide AfterTransition;
    var (opening, closing) := (SystemCall(now, keyOk, s.event.end <= now), SystemCall(now, keyOk, false));
    var open := OrSame(AfterTransition(e, s, OpenVoting, opening, Nothing), s);
    MoveNoted(e, s, OpenVoting, opening, Nothing);
    MoveNoted(e, s, Close, closing, Nothing);
    MoveNoted(e, open, Close, closing, Nothing);
  }

  lemma MoveNoted(e: Env, s: Stored, a: Action, c: Call, x: Extra)
    requires Noted(s.event) && (a == OpenVoting || a == Close || a == Reopen)
    ensures var t := OrSame(AfterTransition(e, s, a, c, x), s); Noted(t.event) && KeepsNotes(s.event, t.event)
  {
    hide NewSnapshot, Guard, KeyAvailable;
  }

  lemma PerformedNoted(e: Env, s: Stored, action: Sensitive, now: int)
    requires Noted(s.event)
    ensures var t := OrSame(Performed(e, s, action, now), s); Noted(t.event) && KeepsNotes(s.event, t.event)
  {
    hide AfterTransition, AfterRevoke, Flagged, Noted, KeepsNotes;
    NotesStay(s.event);
    match action
    case ReopenVoting(newEnd) => MoveNoted(e, s, Reopen, SystemCall(now, false, false), NewEnd(newEnd));
    case UnfreezeFlag(scope) => UnfreezeNoted(s.event, scope);
    case ExtendVoting(newEnd) => EndNoted(s.event, newEnd);
    case DecertifyResult => RevokeNoted(s, now);
    case ReleaseHold => HoldNoted(s.event);
  }

  lemma UnfreezeNoted(row: EventRow, scope: Scope)
    requires Noted(row)
    ensures Noted(Flagged(row, scope, false)) && KeepsNotes(row, Flagged(row, scope, false))
  {
  }

  lemma EndNoted(row: EventRow, end: int)
    requires Noted(row)
    ensures Noted(row.(end := end)) && KeepsNotes(row, row.(end := end))
  {
  }

  lemma HoldNoted(row: EventRow)
    requires Noted(row)
    ensures Noted(row.(legalHold := false)) && KeepsNotes(row, row.(legalHold := false))
  {
  }

  lemma RevokeNoted(s: Stored, now: int)
    requires Noted(s.event)
    ensures var t := OrSame(AfterRevoke(s, now), s); Noted(t.event) && KeepsNotes(s.event, t.event)
  {
  }

  lemma RequestNoted(e: Env, s: Stored, step: Step)
    requires (step.Ask? || step.Decide?) && Noted(s.event)
    ensures Noted(AfterStored(e, s, step).event) && KeepsNotes(s.event, AfterStored(e, s, step).event)
  {
    forall u: Stored, action, now | u == s.(requests := u.requests)
      ensures var t := OrSame(Performed(e, u, action, now), u); Noted(t.event) && KeepsNotes(s.event, t.event)
    {
      PerformedNoted(e, u, action, now);
    }
    hide Performed, Noted, KeepsNotes;
    assert KeepsNotes(s.event, s.event) by { NotesStay(s.event); }
  }

  lemma NotesStay(row: EventRow)
    ensures KeepsNotes(row, row)
  {
  }

  /**
   In every run: archived elections stay archived and are the inactive ones, and the first opening is never
   rewritten.
   */
  lemma {:induction false} NotesAreKept(e: Env, config: Config, start: int, end: int, key: nat, run: seq<Step>)
    ensures var m := Created(config, start, end, key);
      && Noted(AfterAll(e, m, run).db.event)
      && forall k :: 0 <= k < |run| ==> KeepsNotes(StateAt(e, m, run, k).event, StateAt(e, m, run, k + 1).event)
  {
    hide After, AfterAll, Noted, KeepsNotes;
    var m := Created(config, start, end, key);
    EachNoted(e, config, start, end, key, run);
    forall k | 0 <= k < |run|
      ensures KeepsNotes(StateAt(e, m, run, k).event, StateAt(e, m, run, k + 1).event)
    {
      EachNoted(e, config, start, end, key, run[..k]);
      NextState(e, m, run, k);
      OneNoted(e, AfterAll(e, m, run[..k]), run[k]);
    }
  }

  lemma OneNoted(e: Env, m: Machine, step: Step)
    requires Noted(m.db.event)
    ensures Noted(After(e, m, step).db.event) && KeepsNotes(m.db.event, After(e, m, step).db.event)
  {
    hide AfterStored, Noted;
    StepNoted(e, m.db, step);
  }

  lemma {:induction false} EachNoted(e: Env, config: Config, start: int, end: int, key: nat, run: seq<Step>)
    ensures Noted(AfterAll(e, Created(config, start, end, key), run).db.event)
  {
    hide After, Noted;
    if run == [] {
      NewRowNoted(start, end);
    } else {
      EachNoted(e, config, start, end, key, run[..|run| - 1]);
      OneNoted(e, AfterAll(e, Created(config, start, end, key), run[..|run| - 1]), run[|run| - 1]);
    }
  }

  lemma NewRowNoted(start: int, end: int)
    ensures Noted(NewRow(start, end))
  {
  }

  // ---- Time ----

  lemma ClockOpens(e: Env, s: Stored, now: int, keyOk: bool)
    ensures var t := AfterTransition(e, s, OpenVoting, SystemCall(now, keyOk, s.event.end <= now), Nothing);
      && (t.Some? <==> s.event.stage == Scheduled
                       && (s.event.end <= now || !s.config.settings.institutional || s.event.keyReady || keyOk))
      && (t.Some? ==> t.value == s.(event := t.value.event) && t.value.event.stage == Open
                      && t.value.event.start == Min(s.event.start, now) && t.value.event.end == s.event.end)
  {
    hide NewSnapshot;
  }

  lemma ClockCloses(e: Env, s: Stored, now: int, keyOk: bool)
    requires s.event.stage == Open || s.event.stage == Paused
    ensures var t := AfterTransition(e, s, Close, SystemCall(now, keyOk, false), Nothing);
      && t.Some? && t.value == s.(event := t.value.event)
      && t.value.event.stage == Closed && t.value.event.closedAt == Some(now)
  {
    hide NewSnapshot;
  }

  /** The clock opens what is due, if the key is there, and closes what is over, both at once if need be. */
  lemma TickOutcome(e: Env, s: Stored, now: int, keyOk: bool)
    ensures var t := AfterTick(e, s, now, keyOk);
      var over := s.event.stage in {Open, Paused} && s.event.end <= now;
      var due := s.event.stage == Scheduled && s.event.start <= now;
      && t == s.(event := t.event)
      && (if over || (due && s.event.end <= now) then t.event.stage == Closed && t.event.closedAt == Some(now)
          else if due && (s.config.settings.institutional ==> s.event.keyReady || keyOk)
            then t.event.stage == Open && t.event.start == s.event.start && t.event.end == s.event.end
          else t == s)
  {
    hide AfterTransition;
    ClockOpens(e, s, now, keyOk);
    if s.event.stage == Open || s.event.stage == Paused {
      ClockCloses(e, s, now, keyOk);
    }
    var open := AfterTransition(e, s, OpenVoting, SystemCall(now, keyOk, s.event.end <= now), Nothing);
    if open.Some? {
      ClockCloses(e, open.value, now, keyOk);
    }
  }

  // ---- Edits ----

  /** Which freeze keeps a change out. */
  predicate KeptOut(row: EventRow, change: Change) {
    match change
    case NewDetails(_, _, _) => row.configFrozen
    case NewSettings(_) => row.configFrozen
    case NewRules(_) => row.configFrozen
    case NewBallot(_, _) => row.ballotFrozen
    case NewCandidates(_, _) => row.candidatesFrozen
    case NewName(_, _) => row.candidatesFrozen
    case NewRoll(_) => row.votersFrozen
  }

  predicate Minor(change: Change) { change.NewName? || change.NewRoll? }

  /** Nothing in review or after closing; while voting runs only names, the roll and what a paid election offers. */
  predicate Editable(s: Stored, change: Change) {
    && !KeptOut(s.event, change) && s.event.stage in {Draft, Approved, Scheduled, Open, Paused}
    && (s.event.stage in {Open, Paused} ==>
          Minor(change) || (!s.config.settings.institutional && (change.NewBallot? || change.NewCandidates?)))
  }

  /** An edit of what approval is about sends an approved election back to draft. */
  predicate Resetting(s: Stored, change: Change) { s.event.stage in {Approved, Scheduled} && !Minor(change) }

  function Configured(s: Stored, change: Change): Config {
    match change
    case NewDetails(settings, start, end) => if end <= start then s.config else s.config.(settings := settings)
    case NewSettings(settings) => s.config.(settings := settings)
    case NewRules(rules) => s.config.(rules := rules)
    case NewBallot(positions, uncategorized) => s.config.(positions := positions, uncategorized := uncategorized)
    case NewCandidates(positions, uncategorized) => s.config.(positions := positions, uncategorized := uncategorized)
    case NewName(id, name) => Renamed(s.config, id, name)
    case NewRoll(_) => s.config
  }

  lemma PolicyIsEditable(s: Stored, change: Change)
    ensures var policy := EditPolicy(s.event, s.config.settings, ScopeOf(change));
      && (policy != Denied <==> Editable(s, change))
      && (Editable(s, change) ==> (policy == Resets <==> Resetting(s, change)))
  {
  }

  /** What an edit leaves behind. */
  lemma EditOutcome(s: Stored, change: Change)
    ensures var t := AfterEdit(s, change);
      if !Editable(s, change) then t == s
      else
        && t == s.(event := t.event, config := Configured(s, change),
                   roll := if change.NewRoll? then change.roll else s.roll)
        && t.event.stage == (if Resetting(s, change) then Draft else s.event.stage)
        && (if change.NewDetails? && change.start < change.end
            then t.event.start == change.start && t.event.end == change.end
            else t.event.start == s.event.start && t.event.end == s.event.end)
        && t.event.reviewedBy == (
             if Resetting(s, change) && !change.NewSettings? && !(change.NewDetails? && change.start < change.end)
             then None else s.event.reviewedBy)
        && t.event == s.event.(stage := t.event.stage, start := t.event.start, end := t.event.end,
                                reviewedBy := t.event.reviewedBy)
  {
    PolicyIsEditable(s, change);
    hide Renamed, EditPolicy, ScopeOf, Editable, Resetting;
  }

  /** A new name changes the name of that candidate wherever they stand, and nothing else. */
  lemma RenamingOutcome(c: Config, id: nat, name: string)
    ensures var d := Renamed(c, id, name);
      && d == c.(positions := d.positions, uncategorized := d.uncategorized)
      && |d.positions| == |c.positions| && |d.uncategorized| == |c.uncategorized|
      && (forall i :: 0 <= i < |c.positions| ==>
            && d.positions[i] == c.positions[i].(candidates := d.positions[i].candidates)
            && |d.positions[i].candidates| == |c.positions[i].candidates|
            && forall j :: 0 <= j < |c.positions[i].candidates| ==>
                 d.positions[i].candidates[j] == RenamedOne(c.positions[i].candidates[j], id, name))
      && forall i :: 0 <= i < |c.uncategorized| ==>
           d.uncategorized[i] == RenamedOne(c.uncategorized[i], id, name)
  {
  }

  function RenamedOne(c: Candidate, id: nat, name: string): Candidate {
    if c.id == id then Candidate(id, name, c.status) else c
  }
}
