/**
 Every run of an election: actions, time-based changes, edits, ballots, tallies, certifications and sensitive
 requests in any order. A tally is computed outside the transaction that stores it, so computed results wait
 in `working` and may be stored any number of steps later.
 */
module ElectionRuns {
  import opened Collections
  import opened ByteStrings
  import opened Merkle
  import opened Bulletin
  import opened Lifecycle
  import opened Elections

  datatype Machine = Machine(db: Stored, working: seq<Result>)

  datatype Step =
    | Act(action: Action, call: Call)
    | Tick(now: int, keyOk: bool)
    | Edit(change: Change)
    | RollChange(roll: seq<string>)
    | Freeze(scope: Scope)
    | Cast(vote: Vote, now: int)
    | Compute(kind: Kind, actor: Option<User>, now: int, unlocked: bool)
    | Store(k: nat)
    | CertifyResult(k: nat, reviewer: User, now: int, permitted: bool)
    | RejectResult(k: nat, reviewer: User, permitted: bool)
    | Ask(sensitive: Sensitive, requester: User, now: int, permitted: bool, reasoned: bool)
    | Decide(k: nat, approver: User, approve: bool, now: int, permitted: bool)
    | Cancel(k: nat, requester: User)
    | PlaceHold
    | SignSnapshot
    | NewKey(key: nat, kept: seq<nat>)  // the keys still trusted beside the new one are set by hand

  function AfterStored(e: Env, s: Stored, step: Step): Stored {
    match step
    case Act(a, c) => OrSame(AfterTransition(e, s, a, c.(skipGuard := false), Nothing), s)
    case Tick(now, keyOk) => AfterTick(e, s, now, keyOk)
    case Edit(change) => AfterEdit(s, change)
    case RollChange(roll) => s.(roll := roll)
    case Freeze(scope) => s.(event := Flagged(s.event, scope, true))
    case Cast(vote, now) => AfterCast(s, vote, now)
    case CertifyResult(k, reviewer, now, permitted) => AfterCertify(s, k, reviewer, now, permitted)
    case RejectResult(k, reviewer, permitted) => AfterReject(s, k, reviewer, permitted)
    case Ask(action, requester, now, permitted, reasoned) =>
      AfterRequest(e, s, action, requester, now, permitted, reasoned)
    case Decide(k, approver, approve, now, permitted) => AfterDecide(e, s, k, approver, approve, now, permitted)
    case PlaceHold => s.(event := s.event.(legalHold := true))
    case Cancel(k, requester) => AfterCancel(s, k, requester)
    case SignSnapshot => AfterSign(e, s)
    case NewKey(key, kept) => s.(signing := key, retired := kept)
    case _ => s
  }

  function After(e: Env, m: Machine, step: Step): Machine {
    match step
    case Compute(kind, actor, now, unlocked) =>
      if MayTally(m.db, kind, unlocked) then m.(working := m.working + [NewResult(e, m.db, kind, actor, now)]) else m
    case Store(k) => if k < |m.working| then m.(db := AfterStore(m.db, m.working[k])) else m
    case _ => m.(db := AfterStored(e, m.db, step))
  }

  function Created(config: Config, start: int, end: int, key: nat): Machine {
    Machine(Fresh(config, start, end, key), [])
  }

  function AfterAll(e: Env, m: Machine, run: seq<Step>): Machine {
    if run == [] then m else After(e, AfterAll(e, m, run[..|run| - 1]), run[|run| - 1])
  }

  // ---- What every run keeps ----

  predicate HasOpened(stage: Stage) { Counting(stage) || stage in {Open, Paused, Closed} }

  /**
   Somebody approved the election, under dual approval not the one who submitted it, and both the latest snapshot
   and the one signed on approval describe a secret-ballot election in all that approval is about.
   */
  ghost predicate Endorsed(s: Stored) {
    && s.event.reviewedBy.Some? && s.snapshots != [] && LastApproved(s.snapshots).Some?
    && (s.config.settings.dualApproval ==> s.event.reviewedBy != s.event.submittedBy)
    && (s.config.settings.institutional ==>
          && DocumentCore(LastApproved(s.snapshots).value.config) == CoreOf(s.config)
          && DocumentCore(s.snapshots[|s.snapshots| - 1].config) == CoreOf(s.config))
  }

  predicate PastApproval(stage: Stage) { stage !in {Draft, Review, Archived} }

  ghost predicate Staged(s: Stored, working: seq<Result>) {
    && (s.board != [] ==> s.config.settings.institutional && HasOpened(s.event.stage))
    && (s.results != [] || working != [] || s.certifications != [] ==> Counting(s.event.stage))
    && (s.config.settings.institutional && s.event.stage !in {Draft, Review, Approved, Archived} ==> s.event.keyReady)
  }

  /** A result as a recomputation from the board confirms it. */
  ghost predicate Confirmed(e: Env, board: seq<Vote>, r: Result) {
    && r.root == r.data.stable.root == Root(e.h, Listed(board))
    && r.hash == e.dataHash(r.data.stable)
  }

  ghost predicate AllConfirmed(e: Env, board: seq<Vote>, rs: seq<Result>) {
    forall i :: 0 <= i < |rs| ==> Confirmed(e, board, rs[i])
  }

  ghost predicate Signed(e: Env, snapshots: seq<Snapshot>) {
    forall i :: 0 <= i < |snapshots| ==>
      snapshots[i].hash == e.docHash(snapshots[i].config)
      && VerifySignature(snapshots[i].config, snapshots[i].signature, snapshots[i].publicKey)
  }

  /** A hash that is one of a signed snapshot of the configuration, as far as approval is about it. */
  ghost predicate Describes(s: Stored, configHash: Option<Digest>) {
    exists j :: 0 <= j < |s.snapshots| && configHash == Some(s.snapshots[j].hash)
      && (s.config.settings.institutional ==> DocumentCore(s.snapshots[j].config) == CoreOf(s.config))
  }

  ghost predicate Certifies(s: Stored, c: Certification) {
    && c.result < |s.results|
    && c.payload.root == s.results[c.result].root && c.payload.resultHash == s.results[c.result].hash
    && VerifySignature(c.payload, c.signature, c.publicKey)
    && Describes(s, c.payload.configHash)
    && (s.config.settings.dualApproval ==> c.talliedBy != Some(c.certifiedBy))
  }

  ghost predicate AllCertify(s: Stored) {
    forall i :: 0 <= i < |s.certifications| ==> Certifies(s, s.certifications[i])
  }

  ghost predicate Sound(e: Env, s: Stored, working: seq<Result>) {
    && (PastApproval(s.event.stage) ==> Endorsed(s))
    && Staged(s, working) && Signed(e, s.snapshots) && AllCertify(s) && NoDup(Trackers(s.board))
    && AllConfirmed(e, s.board, s.results) && AllConfirmed(e, s.board, working)
  }

  lemma DocumentHasCore(event: EventRow, config: Config, roll: seq<string>)
    ensures DocumentCore(DocumentOf(event, config, roll)) == CoreOf(config)
  {
  }

  lemma LastApprovedAdded(snapshots: seq<Snapshot>, n: Snapshot)
    ensures LastApproved(snapshots + [n]) == if n.reason == OnApproval then Some(n) else LastApproved(snapshots)
  {
    assert (snapshots + [n])[..|snapshots|] == snapshots;
  }

  lemma TransitionKeepsEndorsed(e: Env, s: Stored, a: Action, c: Call, x: Extra)
    requires (PastApproval(s.event.stage) ==> Endorsed(s)) && (a == Approve ==> !c.skipGuard)
    ensures var t := OrSame(AfterTransition(e, s, a, c, x), s); PastApproval(t.event.stage) ==> Endorsed(t)
  {
    hide DocumentCore, CoreOf, DocumentOf, Moved, WithExtra, LastApproved;
    var moved := Moved(s.event, s.config.settings, a, c);
    DocumentHasCore(moved, s.config, s.roll);
    LastApprovedAdded(s.snapshots, NewSnapshot(e, s, moved, OnApproval));
  }

  lemma SnapshotsKeepCertified(s: Stored, t: Stored)
    requires AllCertify(s) && s.snapshots <= t.snapshots
    requires t.config == s.config && t.results == s.results && t.certifications == s.certifications
    ensures AllCertify(t)
  {
    hide DocumentCore, CoreOf, VerifySignature;
    forall i | 0 <= i < |s.certifications| ensures Certifies(t, t.certifications[i]) {
      assert Certifies(s, s.certifications[i]);
      var hash := s.certifications[i].payload.configHash;
      var j :| 0 <= j < |s.snapshots| && hash == Some(s.snapshots[j].hash)
        && (s.config.settings.institutional ==> DocumentCore(s.snapshots[j].config) == CoreOf(s.config));
      assert t.snapshots[j] == s.snapshots[j];
    }
  }

  lemma TransitionKeepsStaged(e: Env, s: Stored, working: seq<Result>, a: Action, c: Call, x: Extra)
    requires Staged(s, working)
    ensures Staged(OrSame(AfterTransition(e, s, a, c, x), s), working)
  {
    hide NewSnapshot, Moved, WithExtra;
  }

  lemma TransitionKeepsSigned(e: Env, s: Stored, a: Action, c: Call, x: Extra)
    requires Signed(e, s.snapshots) && AllCertify(s)
    ensures var t := OrSame(AfterTransition(e, s, a, c, x), s); Signed(e, t.snapshots) && AllCertify(t)
  {
    SnapshotsKeepCertified(s, OrSame(AfterTransition(e, s, a, c, x), s));
    hide Moved, WithExtra, DocumentOf, Guard, KeyAvailable, AllCertify;
  }

  lemma TransitionKeeps(e: Env, s: Stored, working: seq<Result>, a: Action, c: Call, x: Extra)
    requires Sound(e, s, working) && (a == Approve ==> !c.skipGuard)
    ensures Sound(e, OrSame(AfterTransition(e, s, a, c, x), s), working)
  {
    TransitionKeepsEndorsed(e, s, a, c, x);
    TransitionKeepsStaged(e, s, working, a, c, x);
    TransitionKeepsSigned(e, s, a, c, x);
    hide AllConfirmed, Endorsed, Staged, Signed, AllCertify, Moved, Moves, NewSnapshot;
  }

  lemma SignKeeps(e: Env, s: Stored, working: seq<Result>)
    requires Sound(e, s, working)
    ensures Sound(e, AfterSign(e, s), working)
  {
    SnapshotsKeepCertified(s, AfterSign(e, s));
    DocumentHasCore(s.event, s.config, s.roll);
    LastApprovedAdded(s.snapshots, NewSnapshot(e, s, s.event, OnDemand));
    hide DocumentCore, CoreOf, DocumentOf, LastApproved, AllConfirmed, AllCertify;
  }

  lemma TickKeeps(e: Env, s: Stored, working: seq<Result>, now: int, keyOk: bool)
    requires Sound(e, s, working)
    ensures Sound(e, AfterTick(e, s, now, keyOk), working)
  {
    hide Sound, AfterTransition;
    var skip := s.event.end <= now;
    TransitionKeeps(e, s, working, OpenVoting, SystemCall(now, keyOk, skip), Nothing);
    var t := OrSame(AfterTransition(e, s, OpenVoting, SystemCall(now, keyOk, skip), Nothing), s);
    TransitionKeeps(e, t, working, Close, SystemCall(now, keyOk, false), Nothing);
    TransitionKeeps(e, s, working, Close, SystemCall(now, keyOk, false), Nothing);
  }

  /** An edit touches the row, the configuration and the roll; outside a draft it leaves approver and settings alone. */
  lemma EditTouches(s: Stored, change: Change)
    ensures var t := AfterEdit(s, change);
      && t == s.(event := t.event, config := t.config, roll := t.roll) && t.event.keyReady == s.event.keyReady
      && (t.event.stage == s.event.stage || (t.event.stage == Draft && s.event.stage in {Approved, Scheduled}))
      && (t.event.stage != Draft ==>
            && t.event.reviewedBy == s.event.reviewedBy && t.event.submittedBy == s.event.submittedBy
            && t.config.settings == s.config.settings)
      && (Counting(s.event.stage) ==> t == s)
  {
    hide Changed, AfterPolicy, EditPolicy, ScopeOf;
    var policy := EditPolicy(s.event, s.config.settings, ScopeOf(change));
    PolicyMoves(s.event, policy);
    PolicyAllows(s.event, s.config.settings, ScopeOf(change));
    ChangedTouches(s.(event := AfterPolicy(s.event, policy)), change, s.event);
  }

  lemma ChangedTouches(s: Stored, change: Change, loaded: EventRow)
    requires loaded.keyReady == s.event.keyReady
    ensures var t := Changed(s, change, loaded);
      && t == s.(event := t.event, config := t.config, roll := t.roll)
      && t.event.stage == s.event.stage && t.event.keyReady == s.event.keyReady
      && (ScopeOf(change) != ConfigScope ==> t.event == s.event && t.config.settings == s.config.settings)
  {
    hide Renamed;
    if change.NewName? {
      RenamingKeepsCore(s.config, change.id, change.name);
    }
  }

  /** Nothing is edited once counting has begun, and settings only in a draft. */
  lemma PolicyAllows(row: EventRow, settings: Settings, scope: Scope)
    ensures var policy := EditPolicy(row, settings, scope);
      && (Counting(row.stage) ==> policy == Denied)
      && (policy == Resets ==> row.stage == Approved || row.stage == Scheduled)
      && (policy == Allowed && scope == ConfigScope ==> row.stage == Draft)
  {
  }

  lemma PolicyMoves(row: EventRow, policy: Policy)
    ensures var r := AfterPolicy(row, policy);
      r == row.(stage := r.stage, reviewedBy := r.reviewedBy)
        && (if policy == Resets then r.stage == Draft else r == row)
  {
  }

  lemma EditKeepsCore(s: Stored, change: Change)
    requires s.config.settings.institutional && AfterEdit(s, change).event.stage != Draft
    ensures CoreOf(AfterEdit(s, change).config) == CoreOf(s.config)
  {
    hide CoreOf, Renamed, AfterPolicy;
    PolicyMoves(s.event, EditPolicy(s.event, s.config.settings, ScopeOf(change)));
    if change.NewName? {
      RenamingKeepsCore(s.config, change.id, change.name);
    }
  }

  lemma EditKeeps(e: Env, s: Stored, working: seq<Result>, change: Change)
    requires Sound(e, s, working)
    ensures Sound(e, AfterEdit(s, change), working)
  {
    var t := AfterEdit(s, change);
    EditTouches(s, change);
    if s.config.settings.institutional && t.event.stage != Draft {
      EditKeepsCore(s, change);
    }
    hide AfterEdit, AllConfirmed, DocumentCore, CoreOf, Signed, VerifySignature, LastApproved;
  }

  lemma CastKeeps(e: Env, s: Stored, working: seq<Result>, vote: Vote, now: int)
    requires Sound(e, s, working)
    ensures Sound(e, AfterCast(s, vote, now), working)
  {
    CastKeepsDistinct(s, vote, now);
    hide DocumentCore, CoreOf, Confirmed, Listed, Trackers, NoDup;
  }

  lemma CastKeepsDistinct(s: Stored, vote: Vote, now: int)
    requires NoDup(Trackers(s.board))
    ensures NoDup(Trackers(AfterCast(s, vote, now).board))
  {
    if vote.tracker !in Trackers(s.board) {
      Appended(Trackers(s.board), vote.tracker);
      assert Trackers(s.board + [vote]) == Trackers(s.board) + [vote.tracker];
    }
  }

  lemma NewResultConfirmed(e: Env, s: Stored, working: seq<Result>, kind: Kind, actor: Option<User>, now: int)
    requires Sound(e, s, working)
    ensures Confirmed(e, s.board, NewResult(e, s, kind, actor, now))
  {
    hide AllCertify, AllConfirmed, Signed, Endorsed;
    if !s.config.settings.institutional {
      assert Listed(s.board) == [];
    }
  }

  lemma ComputeKeeps(e: Env, m: Machine, kind: Kind, actor: Option<User>, now: int, unlocked: bool)
    requires Sound(e, m.db, m.working)
    ensures var n := After(e, m, Compute(kind, actor, now, unlocked)); Sound(e, n.db, n.working)
  {
    NewResultConfirmed(e, m.db, m.working, kind, actor, now);
    hide Endorsed, Signed, Confirmed, AllCertify, NewResult;
  }

  lemma SupersedingKeeps(e: Env, board: seq<Vote>, results: seq<Result>, r: Result)
    requires AllConfirmed(e, board, results) && Confirmed(e, board, r)
    ensures AllConfirmed(e, board, Supersede(results) + [r]) && AllConfirmed(e, board, results + [r])
  {
    hide Listed, Root;
  }

  lemma StoreKeeps(e: Env, s: Stored, working: seq<Result>, k: nat)
    requires Sound(e, s, working) && k < |working|
    ensures Sound(e, AfterStore(s, working[k]), working)
  {
    SupersedingKeeps(e, s.board, s.results, working[k]);
    hide AllConfirmed, DocumentCore, CoreOf, Signed, VerifySignature;
    assert working != [];
  }

  lemma CertifyKeeps(e: Env, s: Stored, working: seq<Result>, k: nat, reviewer: User, now: int, permitted: bool)
    requires Sound(e, s, working)
    ensures Sound(e, AfterCertify(s, k, reviewer, now, permitted), working)
  {
    hide Signed, DocumentCore, CoreOf, Listed, Root;
  }

  lemma RejectKeeps(e: Env, s: Stored, working: seq<Result>, k: nat, reviewer: User, permitted: bool)
    requires Sound(e, s, working)
    ensures Sound(e, AfterReject(s, k, reviewer, permitted), working)
  {
    hide Signed, DocumentCore, CoreOf, Listed, Root, VerifySignature;
  }

  lemma RevokeKeeps(e: Env, s: Stored, working: seq<Result>, now: int)
    requires Sound(e, s, working)
    ensures Sound(e, OrSame(AfterRevoke(s, now), s), working)
  {
    hide Signed, DocumentCore, CoreOf, Listed, Root;
  }

  lemma PerformedKeeps(e: Env, s: Stored, working: seq<Result>, action: Sensitive, now: int)
    requires Sound(e, s, working)
    ensures Sound(e, OrSame(Performed(e, s, action, now), s), working)
  {
    hide Sound, AfterTransition, AfterRevoke, Flagged;
    match action
    case ReopenVoting(newEnd) => TransitionKeeps(e, s, working, Reopen, SystemCall(now, false, false), NewEnd(newEnd));
    case DecertifyResult => RevokeKeeps(e, s, working, now);
    case UnfreezeFlag(scope) => FlagKeeps(e, s, working, scope, false);
    case ExtendVoting(newEnd) => RowKeeps(e, s, working, s.event.(end := newEnd));
    case ReleaseHold => RowKeeps(e, s, working, s.event.(legalHold := false));
  }

  lemma FlagKeeps(e: Env, s: Stored, working: seq<Result>, scope: Scope, flag: bool)
    requires Sound(e, s, working)
    ensures Sound(e, s.(event := Flagged(s.event, scope, flag)), working)
  {
    hide Sound;
    RowKeeps(e, s, working, Flagged(s.event, scope, flag));
  }

  lemma RowKeeps(e: Env, s: Stored, working: seq<Result>, row: EventRow)
    requires Sound(e, s, working)
    requires row.stage == s.event.stage && row.reviewedBy == s.event.reviewedBy
      && row.submittedBy == s.event.submittedBy
    requires row.keyReady == s.event.keyReady
    ensures Sound(e, s.(event := row), working)
  {
    hide AllConfirmed, DocumentCore, CoreOf, Signed, VerifySignature;
  }

  lemma RequestsKeep(e: Env, s: Stored, working: seq<Result>, requests: seq<Request>)
    requires Sound(e, s, working)
    ensures Sound(e, s.(requests := requests), working)
  {
    hide AllConfirmed, DocumentCore, CoreOf, Signed, VerifySignature;
  }

  lemma ExecuteKeeps(e: Env, s: Stored, working: seq<Result>, k: nat, now: int)
    requires Sound(e, s, working) && k < |s.requests|
    ensures Sound(e, AfterExecute(e, s, k, now), working)
  {
    PerformedKeeps(e, s, working, s.requests[k].action, now);
    var t := OrSame(Performed(e, s, s.requests[k].action, now), s);
    hide Sound, Performed;
    RequestsKeep(e, t, working, AfterExecute(e, s, k, now).requests);
  }

  lemma AskKeeps(e: Env, s: Stored, working: seq<Result>, action: Sensitive, actor: User, now: int, permitted: bool,
                 reasoned: bool)
    requires Sound(e, s, working)
    ensures Sound(e, AfterRequest(e, s, action, actor, now, permitted, reasoned), working)
  {
    var dual := s.config.settings.dualApproval;
    var request := NewRequest(s, action, actor, now);
    RequestsKeep(e, s, working, s.requests + [request]);
    ExecuteKeeps(e, s.(requests := s.requests + [request]), working, |s.requests|, now);
    hide Sound, AfterExecute;
  }

  lemma DecideKeeps(e: Env, s: Stored, working: seq<Result>, k: nat, approver: User, approve: bool, now: int,
                    permitted: bool)
    requires Sound(e, s, working)
    ensures Sound(e, AfterDecide(e, s, k, approver, approve, now, permitted), working)
  {
    if k < |s.requests| {
      var decided := s.requests[k].(decidedBy := Some(approver), status := if approve then Agreed else Refused);
      var t := s.(requests := s.requests[k := decided]);
      RequestsKeep(e, s, working, s.requests[k := s.requests[k].(status := Expired)]);
      RequestsKeep(e, s, working, t.requests);
      ExecuteKeeps(e, t, working, k, now);
      hide Sound, AfterExecute;
    }
  }

  lemma NewKeyKeeps(e: Env, s: Stored, working: seq<Result>, key: nat, kept: seq<nat>)
    requires Sound(e, s, working)
    ensures Sound(e, s.(signing := key, retired := kept), working)
  {
    hide AllConfirmed, DocumentCore, CoreOf, Signed, LastApproved;
  }

  lemma RollKeeps(e: Env, s: Stored, working: seq<Result>, roll: seq<string>)
    requires Sound(e, s, working)
    ensures Sound(e, s.(roll := roll), working)
  {
    hide AllConfirmed, DocumentCore, CoreOf, Signed;
  }

  lemma StepKeeps(e: Env, m: Machine, step: Step)
    requires Sound(e, m.db, m.working)
    ensures Sound(e, After(e, m, step).db, After(e, m, step).working)
  {
    hide Sound, AfterTransition, AfterTick, AfterEdit, AfterCast, AfterCertify, AfterReject, AfterRequest, AfterDecide,
      AfterStore, AfterSign, Flagged, MayTally, NewResult;
    var s, working := m.db, m.working;
    match step
    case Act(a, c) => TransitionKeeps(e, s, working, a, c.(skipGuard := false), Nothing);
    case Tick(now, keyOk) => TickKeeps(e, s, working, now, keyOk);
    case Edit(change) => EditKeeps(e, s, working, change);
    case RollChange(roll) => RollKeeps(e, s, working, roll);
    case Freeze(scope) => FlagKeeps(e, s, working, scope, true);
    case Cast(vote, now) => CastKeeps(e, s, working, vote, now);
    case Compute(kind, actor, now, unlocked) => ComputeKeeps(e, m, kind, actor, now, unlocked);
    case Store(k) => if k < |working| { StoreKeeps(e, s, working, k); }
    case CertifyResult(k, reviewer, now, permitted) => CertifyKeeps(e, s, working, k, reviewer, now, permitted);
    case RejectResult(k, reviewer, permitted) => RejectKeeps(e, s, working, k, reviewer, permitted);
    case Ask(action, requester, now, permitted, reasoned) =>
      AskKeeps(e, s, working, action, requester, now, permitted, reasoned);
    case Decide(k, approver, approve, now, permitted) =>
      DecideKeeps(e, s, working, k, approver, approve, now, permitted);
    case PlaceHold => RowKeeps(e, s, working, s.event.(legalHold := true));
    case Cancel(k, requester) => RequestsKeep(e, s, working, AfterCancel(s, k, requester).requests);
    case SignSnapshot => SignKeeps(e, s, working);
    case NewKey(key, kept) => NewKeyKeeps(e, s, working, key, kept);
  }

  lemma CreatedIsSound(e: Env, config: Config, start: int, end: int, key: nat)
    ensures Sound(e, Created(config, start, end, key).db, []) && Created(config, start, end, key).working == []
  {
  }

  lemma {:induction false} RunIsSound(e: Env, config: Config, start: int, end: int, key: nat, run: seq<Step>)
    ensures var m := AfterAll(e, Created(config, start, end, key), run); Sound(e, m.db, m.working)
  {
    hide Sound, After;
    if run == [] {
      CreatedIsSound(e, config, start, end, key);
    } else {
      RunIsSound(e, config, start, end, key, run[..|run| - 1]);
      StepKeeps(e, AfterAll(e, Created(config, start, end, key), run[..|run| - 1]), run[|run| - 1]);
    }
  }

  // ---- From one step to the next ----

  ghost predicate NamesTheSame(before: Result, after: Result) {
    after == before.(status := after.status, reviewedBy := after.reviewedBy)
  }

  /**
   Snapshots, results and certifications are only added; of an old one only its status, or its revocation, can
   change.
   */
  ghost predicate Extends(s: Stored, t: Stored) {
    && s.snapshots <= t.snapshots
    && |s.results| <= |t.results| && (forall i :: 0 <= i < |s.results| ==> NamesTheSame(s.results[i], t.results[i]))
    && |s.certifications| <= |t.certifications|
    && (forall i :: 0 <= i < |s.certifications| ==>
          && t.certifications[i] == s.certifications[i].(revokedAt := t.certifications[i].revokedAt)
          && (s.certifications[i].revokedAt.Some? ==> t.certifications[i].revokedAt.Some?))
  }

  /** Once tallying has begun the ballots are final. */
  ghost predicate Final(s: Stored, t: Stored) {
    Counting(s.event.stage) ==> Counting(t.event.stage) && t.board == s.board
  }

  /** From approval on, what was approved changes only by going back to draft. */
  ghost predicate Settled(s: Stored, t: Stored) {
    s.event.stage !in {Draft, Review} && t.event.stage != Draft ==>
      && t.event.stage != Review && LastApproved(t.snapshots) == LastApproved(s.snapshots)
      && t.config.settings == s.config.settings
      && (s.config.settings.institutional ==> CoreOf(t.config) == CoreOf(s.config))
      && (Endorsed(s) ==> Endorsed(t))
  }

  ghost predicate Onward(s: Stored, t: Stored) { Extends(s, t) && Final(s, t) && Settled(s, t) }

  lemma TransitionOnward(e: Env, s: Stored, a: Action, c: Call, x: Extra)
    ensures Onward(s, OrSame(AfterTransition(e, s, a, c, x), s))
  {
    hide CoreOf, DocumentCore, LastApproved, NewSnapshot, Guard, KeyAvailable, Moved, WithExtra;
  }

  lemma SignOnward(e: Env, s: Stored)
    ensures Onward(s, AfterSign(e, s))
  {
    DocumentHasCore(s.event, s.config, s.roll);
    LastApprovedAdded(s.snapshots, NewSnapshot(e, s, s.event, OnDemand));
    hide CoreOf, DocumentCore, LastApproved, DocumentOf;
  }

  lemma EditOnward(s: Stored, change: Change)
    ensures Onward(s, AfterEdit(s, change))
  {
    EditTouches(s, change);
    if s.config.settings.institutional && AfterEdit(s, change).event.stage != Draft {
      EditKeepsCore(s, change);
    }
    hide AfterEdit, CoreOf, DocumentCore, LastApproved;
  }

  lemma UntouchedOnward(s: Stored, t: Stored)
    requires t == s.(event := t.event, roll := t.roll, requests := t.requests, signing := t.signing,
                     retired := t.retired)
    requires t.event.stage == s.event.stage
    requires t.event.reviewedBy == s.event.reviewedBy && t.event.submittedBy == s.event.submittedBy
    ensures Onward(s, t)
  {
    hide CoreOf, DocumentCore, LastApproved;
  }

  lemma RejectOnward(s: Stored, k: nat, reviewer: User, permitted: bool)
    ensures Onward(s, AfterReject(s, k, reviewer, permitted))
  {
    hide CoreOf, DocumentCore, LastApproved;
  }

  lemma CastOnward(s: Stored, vote: Vote, now: int)
    ensures Onward(s, AfterCast(s, vote, now))
  {
    hide CoreOf, DocumentCore, LastApproved, Trackers;
  }

  lemma CertifyOnward(s: Stored, k: nat, reviewer: User, now: int, permitted: bool)
    ensures Onward(s, AfterCertify(s, k, reviewer, now, permitted))
  {
    hide CoreOf, DocumentCore, LastApproved, NewCertification;
  }

  lemma TickOnward(e: Env, s: Stored, now: int, keyOk: bool)
    ensures Onward(s, AfterTick(e, s, now, keyOk))
  {
    hide AfterTransition, Onward;
    var (opening, closing) := (SystemCall(now, keyOk, s.event.end <= now), SystemCall(now, keyOk, false));
    var open := OrSame(AfterTransition(e, s, OpenVoting, opening, Nothing), s);
    var closed := OrSame(AfterTransition(e, open, Close, closing, Nothing), open);
    SameOnward(s);
    TransitionOnward(e, s, OpenVoting, opening, Nothing);
    TransitionOnward(e, s, Close, closing, Nothing);
    TransitionOnward(e, open, Close, closing, Nothing);
    OpeningLeavesDraft(e, s, opening);
    OnwardTwice(s, open, closed);
  }

  lemma OpeningLeavesDraft(e: Env, s: Stored, c: Call)
    ensures var open := OrSame(AfterTransition(e, s, OpenVoting, c, Nothing), s);
      open == s || (open.event.stage == Open && s.event.stage == Scheduled)
  {
    hide Moved, Guard;
  }

  /** Two steps in a row, with no draft between them. */
  lemma OnwardTwice(s: Stored, u: Stored, t: Stored)
    requires Onward(s, u) && Onward(u, t) && (u == s || u.event.stage != Draft)
    ensures Onward(s, t)
  {
    hide Endorsed, CoreOf, LastApproved;
    forall i | 0 <= i < |s.certifications|
      ensures t.certifications[i] == s.certifications[i].(revokedAt := t.certifications[i].revokedAt)
    {
      assert u.certifications[i] == s.certifications[i].(revokedAt := u.certifications[i].revokedAt);
    }
    forall i | 0 <= i < |s.results| ensures NamesTheSame(s.results[i], t.results[i]) {
      assert NamesTheSame(s.results[i], u.results[i]);
    }
  }

  lemma RevokeOnward(s: Stored, now: int)
    ensures Onward(s, OrSame(AfterRevoke(s, now), s))
  {
    hide CoreOf, DocumentCore, LastApproved;
  }

  lemma PerformedOnward(e: Env, s: Stored, action: Sensitive, now: int)
    ensures Onward(s, OrSame(Performed(e, s, action, now), s))
  {
    hide Onward, AfterTransition, AfterRevoke, Flagged;
    SameOnward(s);
    match action
    case ReopenVoting(newEnd) => TransitionOnward(e, s, Reopen, SystemCall(now, false, false), NewEnd(newEnd));
    case DecertifyResult => RevokeOnward(s, now);
    case UnfreezeFlag(scope) => FlaggedOnward(s, scope, false);
    case ExtendVoting(newEnd) => UntouchedOnward(s, s.(event := s.event.(end := newEnd)));
    case ReleaseHold => UntouchedOnward(s, s.(event := s.event.(legalHold := false)));
  }

  lemma OnwardPastRequests(s: Stored, requests: seq<Request>, t: Stored, after: seq<Request>)
    requires Onward(s.(requests := requests), t)
    ensures Onward(s, t.(requests := after)) && Onward(s, t)
  {
    hide CoreOf, DocumentCore, LastApproved;
  }

  lemma StepOnward(e: Env, m: Machine, step: Step)
    ensures Onward(m.db, After(e, m, step).db)
  {
    hide Onward, AfterStored, AfterStore, MayTally, NewResult;
    match step
    case Compute(_, _, _, _) => SameOnward(m.db);
    case Store(k) =>
      SameOnward(m.db);
      if k < |m.working| {
        StoreOnward(m.db, m.working[k]);
      }
    case _ => StoredOnward(e, m.db, step);
  }

  lemma StoredOnward(e: Env, s: Stored, step: Step)
    ensures Onward(s, AfterStored(e, s, step))
  {
    hide Onward, AfterTransition, AfterTick, AfterEdit, AfterCast, AfterCertify, AfterReject, AfterRequest, AfterDecide,
      AfterSign, Flagged;
    match step
    case Act(a, c) => TransitionOnward(e, s, a, c.(skipGuard := false), Nothing);
    case Tick(now, keyOk) => TickOnward(e, s, now, keyOk);
    case Edit(change) => EditOnward(s, change);
    case RollChange(roll) => UntouchedOnward(s, s.(roll := roll));
    case Freeze(scope) => FlaggedOnward(s, scope, true);
    case Cast(vote, now) => CastOnward(s, vote, now);
    case CertifyResult(k, reviewer, now, permitted) => CertifyOnward(s, k, reviewer, now, permitted);
    case RejectResult(k, reviewer, permitted) => RejectOnward(s, k, reviewer, permitted);
    case Ask(action, requester, now, permitted, reasoned) =>
      AskOnward(e, s, action, requester, now, permitted, reasoned);
    case Decide(k, approver, approve, now, permitted) => DecideOnward(e, s, k, approver, approve, now, permitted);
    case PlaceHold => UntouchedOnward(s, s.(event := s.event.(legalHold := true)));
    case Cancel(k, requester) => UntouchedOnward(s, AfterCancel(s, k, requester));
    case SignSnapshot => SignOnward(e, s);
    case NewKey(key, kept) => UntouchedOnward(s, s.(signing := key, retired := kept));
    case _ => SameOnward(s);
  }

  lemma FlaggedOnward(s: Stored, scope: Scope, flag: bool)
    ensures Onward(s, s.(event := Flagged(s.event, scope, flag)))
  {
    hide Onward;
    UntouchedOnward(s, s.(event := Flagged(s.event, scope, flag)));
  }

  lemma SameOnward(s: Stored)
    ensures Onward(s, s)
  {
  }

  lemma StoreOnward(s: Stored, r: Result)
    ensures Onward(s, AfterStore(s, r))
  {
    hide CoreOf, DocumentCore, LastApproved;
  }

  lemma AskOnward(e: Env, s: Stored, action: Sensitive, actor: User, now: int, permitted: bool, reasoned: bool)
    ensures Onward(s, AfterRequest(e, s, action, actor, now, permitted, reasoned))
  {
    SameOnward(s);
    var t := AfterRequest(e, s, action, actor, now, permitted, reasoned);
    var dual := s.config.settings.dualApproval;
    var request := NewRequest(s, action, actor, now);
    var asked := s.(requests := s.requests + [request]);
    SameOnward(asked);
    OnwardPastRequests(s, asked.requests, asked, asked.requests);
    PerformedOnward(e, asked, action, now);
    OnwardPastRequests(s, asked.requests, OrSame(Performed(e, asked, action, now), asked), t.requests);
    hide Onward, Performed;
  }

  lemma DecideOnward(e: Env, s: Stored, k: nat, approver: User, approve: bool, now: int, permitted: bool)
    ensures Onward(s, AfterDecide(e, s, k, approver, approve, now, permitted))
  {
    SameOnward(s);
    var t := AfterDecide(e, s, k, approver, approve, now, permitted);
    OnwardPastRequests(s, s.requests, s, t.requests);
    if k < |s.requests| {
      var decided := s.requests[k].(decidedBy := Some(approver), status := if approve then Agreed else Refused);
      var asked := s.(requests := s.requests[k := decided]);
      PerformedOnward(e, asked, decided.action, now);
      OnwardPastRequests(s, asked.requests, OrSame(Performed(e, asked, decided.action, now), asked), t.requests);
      hide Onward, Performed;
    }
  }
}
