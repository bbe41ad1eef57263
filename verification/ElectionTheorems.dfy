/** What holds in every state an election can reach, and from one such state to any later one. */
module ElectionTheorems {
  import opened Collections
  import opened ByteStrings
  import opened Merkle
  import opened Bulletin
  import opened Lifecycle
  import opened Elections
  import opened ElectionRuns

  /** Where the election is after the first `k` steps of a run. */
  function StateAt(e: Env, m: Machine, run: seq<Step>, k: nat): Stored
    requires k <= |run|
  {
    AfterAll(e, m, run[..k]).db
  }

  lemma NextState(e: Env, m: Machine, run: seq<Step>, k: nat)
    requires k < |run|
    ensures AfterAll(e, m, run[..k + 1]) == After(e, AfterAll(e, m, run[..k]), run[k])
  {
    assert run[..k + 1][..k] == run[..k];
  }

  // ---- The approved configuration ----

  /** Between two moments with no draft in between, nothing approved about the election changes. */
  lemma {:induction false} ApprovalLasts(e: Env, m: Machine, run: seq<Step>, i: nat, j: nat)
    requires i <= j <= |run|
    requires StateAt(e, m, run, i).event.stage !in {Draft, Review}
    requires forall k :: i <= k <= j ==> StateAt(e, m, run, k).event.stage != Draft
    ensures Settled(StateAt(e, m, run, i), StateAt(e, m, run, j))
    ensures StateAt(e, m, run, i).snapshots <= StateAt(e, m, run, j).snapshots
    decreases j
  {
    hide After, AfterAll, Settled, Extends, Final;
    var s, t := StateAt(e, m, run, i), StateAt(e, m, run, j);
    if i < j {
      var u := StateAt(e, m, run, j - 1);
      ApprovalLasts(e, m, run, i, j - 1);
      NextState(e, m, run, j - 1);
      StepOnward(e, AfterAll(e, m, run[..j - 1]), run[j - 1]);
      SettledTwice(s, u, t);
      assert u.snapshots <= t.snapshots by { ExtendsSnapshots(u, t); }
    } else {
      SettledOnce(s);
    }
  }

  lemma SettledOnce(s: Stored)
    ensures Settled(s, s)
  {
  }

  lemma SettledTwice(s: Stored, u: Stored, t: Stored)
    requires Settled(s, u) && Settled(u, t)
    requires s.event.stage !in {Draft, Review} && u.event.stage != Draft && t.event.stage != Draft
    ensures Settled(s, t)
  {
    hide Endorsed, CoreOf, LastApproved;
  }

  lemma ExtendsSnapshots(s: Stored, t: Stored)
    requires Extends(s, t)
    ensures s.snapshots <= t.snapshots
  {
  }

  /**
   An election that is approved or further on, and that has not been a draft since, archived or not: somebody
   approved it, under dual approval not the one who submitted it; the snapshot signed on approval is sound, and
   its positions, rules, candidates and settings are still those of a secret-ballot election.
   */
  lemma ConfigurationIsApproved(e: Env, config: Config, start: int, end: int, key: nat, run: seq<Step>, i: nat, j: nat)
    requires i <= j <= |run|
    requires PastApproval(StateAt(e, Created(config, start, end, key), run, i).event.stage)
    requires forall k :: i <= k <= j ==> StateAt(e, Created(config, start, end, key), run, k).event.stage != Draft
    ensures var s := StateAt(e, Created(config, start, end, key), run, j);
      && s.event.reviewedBy.Some? && LastApproved(s.snapshots).Some?
      && var n := LastApproved(s.snapshots).value;
      && n.hash == e.docHash(n.config) && VerifySignature(n.config, n.signature, n.publicKey)
      && (s.config.settings.institutional ==> DocumentCore(n.config) == CoreOf(s.config))
      && (s.config.settings.dualApproval ==> s.event.reviewedBy != s.event.submittedBy)
  {
    var m := Created(config, start, end, key);
    RunIsSound(e, config, start, end, key, run[..i]);
    RunIsSound(e, config, start, end, key, run[..j]);
    ApprovalLasts(e, m, run, i, j);
    hide DocumentCore, CoreOf, Staged, AllCertify, AllConfirmed, AfterAll, VerifySignature, LastApproved;
    LastApprovedIsSigned(StateAt(e, m, run, j).snapshots);
  }

  lemma {:induction false} LastApprovedIsSigned(snapshots: seq<Snapshot>)
    ensures LastApproved(snapshots).Some? ==> LastApproved(snapshots).value in snapshots
  {
    if snapshots != [] {
      LastApprovedIsSigned(snapshots[..|snapshots| - 1]);
    }
  }

  /**
   Without the history an approver's name says little: saving settings sends an approved election back to draft
   and restores the name, and the draft can be archived with a configuration that nobody approved.
   */
  lemma ApproverOutlivesEdit(e: Env, config: Config, settings: Settings, key: nat) returns (run: seq<Step>)
    requires settings != config.settings
    ensures var s := AfterAll(e, Created(config, 0, 10, key), run).db;
      && s.event.stage == Archived && s.event.reviewedBy == Some(2) && LastApproved(s.snapshots).Some?
      && DocumentCore(LastApproved(s.snapshots).value.config) != CoreOf(s.config)
  {
    hide After, LastApproved;
    var m := Created(config, 0, 10, key);
    run := RouteTaken(e, config, key, 2);
    var approved := AfterAll(e, m, run);
    OneMore(e, m, run, Edit(NewSettings(settings)));
    var edited := run + [Edit(NewSettings(settings))];
    OneMore(e, m, edited, Act(Archive, PlainCall(1, 0)));
    run := edited + [Act(Archive, PlainCall(1, 0))];
    EditedAndArchived(e, approved, config, settings);
    OnlyApproved(approved.db, config);
  }

  lemma OnlyApproved(s: Stored, config: Config)
    requires ApprovedOnce(s, config)
    ensures LastApproved(s.snapshots) == Some(s.snapshots[0])
  {
  }

  lemma EditedAndArchived(e: Env, m: Machine, config: Config, settings: Settings)
    requires OnRoute(m, config, 2)
    ensures var s := After(e, After(e, m, Edit(NewSettings(settings))), Act(Archive, PlainCall(1, 0))).db;
      && s.event.stage == Archived && s.event.reviewedBy == Some(2) && s.snapshots == m.db.snapshots
      && s.config == config.(settings := settings)
  {
    hide Moved, OnRoute;
    EditedDraft(e, m, config, settings);
    hide AfterEdit;
  }

  lemma EditedDraft(e: Env, m: Machine, config: Config, settings: Settings)
    requires OnRoute(m, config, 2)
    ensures var s := After(e, m, Edit(NewSettings(settings))).db;
      && s.event.stage == Draft && s.event.reviewedBy == Some(2) && !s.event.legalHold && s.snapshots == m.db.snapshots
      && s.config == config.(settings := settings)
  {
  }

  // ---- Ballots, results and certifications ----

  /**
   Tallying is only ever reached for good: from the first moment it has begun the stored ballots stay as they
   are, and results and certifications are added to but never altered, apart from their review status and a
   certification being revoked.
   */
  lemma {:induction false} BoardIsFinal(e: Env, m: Machine, run: seq<Step>, i: nat, j: nat)
    requires i <= j <= |run|
    requires Counting(StateAt(e, m, run, i).event.stage)
    ensures Counting(StateAt(e, m, run, j).event.stage)
    ensures StateAt(e, m, run, j).board == StateAt(e, m, run, i).board
    ensures Extends(StateAt(e, m, run, i), StateAt(e, m, run, j))
    decreases j
  {
    hide After, AfterAll, Settled, Extends;
    SelfExtends(StateAt(e, m, run, i));
    if i < j {
      BoardIsFinal(e, m, run, i, j - 1);
      NextState(e, m, run, j - 1);
      StepOnward(e, AfterAll(e, m, run[..j - 1]), run[j - 1]);
      ExtendsFurther(StateAt(e, m, run, i), StateAt(e, m, run, j - 1), StateAt(e, m, run, j));
    }
  }

  lemma SelfExtends(s: Stored)
    ensures Extends(s, s)
  {
  }

  lemma ExtendsFurther(s: Stored, t: Stored, u: Stored)
    requires Extends(s, t) && Extends(t, u)
    ensures Extends(s, u)
  {
    forall i | 0 <= i < |s.certifications|
      ensures u.certifications[i] == s.certifications[i].(revokedAt := u.certifications[i].revokedAt)
    {
      assert t.certifications[i] == s.certifications[i].(revokedAt := t.certifications[i].revokedAt);
    }
    forall i | 0 <= i < |s.results| ensures NamesTheSame(s.results[i], u.results[i]) {
      assert NamesTheSame(s.results[i], t.results[i]);
    }
  }

  /**
   Before tallying there are no results, so the check that keeps certified voting from re-opening never has to
   refuse.
   */
  lemma NothingCountedBeforeTallying(e: Env, config: Config, start: int, end: int, key: nat, run: seq<Step>)
    ensures var s := AfterAll(e, Created(config, start, end, key), run).db;
      && (!Counting(s.event.stage) ==> s.results == [] && s.certifications == [])
      && (s.board != [] ==> s.config.settings.institutional && HasOpened(s.event.stage))
      && (s.config.settings.institutional && s.event.stage in {Scheduled, Open, Paused, Closed} ==> s.event.keyReady)
  {
    RunIsSound(e, config, start, end, key, run);
    hide AfterAll, Endorsed, AllCertify, AllConfirmed;
  }

  // ---- At most one certification in force ----

  ghost predicate Live(s: Stored, i: int) { 0 <= i < |s.certifications| && s.certifications[i].revokedAt.None? }

  /** At most one certification is not revoked, and only a certified, published or archived election has one. */
  ghost predicate Exclusive(s: Stored) {
    && (forall i, j :: Live(s, i) && Live(s, j) ==> i == j)
    && ((exists i :: Live(s, i)) ==> s.event.stage in {Certified, Published, Archived})
  }

  /** A certified or published election has a certification in force. */
  ghost predicate Backed(s: Stored) {
    s.event.stage in {Certified, Published} ==> exists i :: Live(s, i)
  }

  /** The stage is moved out of certification as a plain action, past a certification that is in force. */
  predicate SkipsRevoking(s: Stored, step: Step) {
    && step.Act? && step.action == Decertify && Current(s.certifications).Some?
    && Moves(s.event, s.config.settings, Decertify, step.call.(skipGuard := false))
  }

  /** The stage is moved into certification as a plain action, without a certification. */
  predicate SkipsCertifying(s: Stored, step: Step) {
    step.Act? && step.action == Certify && Moves(s.event, s.config.settings, Certify, step.call.(skipGuard := false))
  }

  predicate SkipsAny(s: Stored, step: Step) { SkipsRevoking(s, step) || SkipsCertifying(s, step) }

  /** Certifications are the same, and the stage moves neither into nor out of certification. */
  ghost predicate KeepsCertified(s: Stored, t: Stored) {
    && t.certifications == s.certifications
    && (s.event.stage in {Certified, Published, Archived} ==> t.event.stage in {Certified, Published, Archived})
    && (t.event.stage in {Certified, Published} ==> s.event.stage in {Certified, Published})
  }

  lemma KeepsBoth(s: Stored, t: Stored)
    requires KeepsCertified(s, t)
    ensures Exclusive(s) ==> Exclusive(t)
    ensures Backed(s) ==> Backed(t)
  {
    assert forall i :: Live(s, i) == Live(t, i);
  }

  lemma ActionKeepsCertified(e: Env, s: Stored, a: Action, c: Call, x: Extra)
    requires a != Certify && a != Decertify
    ensures KeepsCertified(s, OrSame(AfterTransition(e, s, a, c, x), s))
  {
    hide NewSnapshot, Guard, KeyAvailable, Moved, WithExtra;
  }

  lemma CertifyExclusive(s: Stored, k: nat, reviewer: User, now: int, permitted: bool)
    requires Exclusive(s)
    ensures Exclusive(AfterCertify(s, k, reviewer, now, permitted))
    ensures Backed(s) ==> Backed(AfterCertify(s, k, reviewer, now, permitted))
  {
    var t := AfterCertify(s, k, reviewer, now, permitted);
    if MayCertify(s, k, reviewer, permitted) {
      hide NewPayload;
      assert Live(t, |s.certifications|);
      assert forall i :: Live(t, i) ==> i == |s.certifications| || Live(s, i);
    }
  }

  lemma RevokeExclusive(s: Stored, now: int)
    requires Exclusive(s)
    ensures Exclusive(OrSame(AfterRevoke(s, now), s))
    ensures Backed(s) ==> Backed(OrSame(AfterRevoke(s, now), s))
  {
    var t := OrSame(AfterRevoke(s, now), s);
    var current := Current(s.certifications);
    if AfterRevoke(s, now).Some? {
      assert Live(s, current.value);
      forall i ensures !Live(t, i) {
        assert Live(t, i) ==> Live(s, i);
      }
    }
  }

  lemma PerformedExclusive(e: Env, s: Stored, action: Sensitive, now: int)
    requires Exclusive(s)
    ensures Exclusive(OrSame(Performed(e, s, action, now), s))
    ensures Backed(s) ==> Backed(OrSame(Performed(e, s, action, now), s))
  {
    hide Exclusive, Backed, AfterTransition, AfterRevoke, KeepsCertified;
    var t := OrSame(Performed(e, s, action, now), s);
    if action.DecertifyResult? {
      RevokeExclusive(s, now);
    } else {
      PerformedKeepsCertified(e, s, action, now);
      KeepsBoth(s, t);
    }
  }

  lemma PerformedKeepsCertified(e: Env, s: Stored, action: Sensitive, now: int)
    requires !action.DecertifyResult?
    ensures KeepsCertified(s, OrSame(Performed(e, s, action, now), s))
  {
    hide KeepsCertified, AfterTransition, Flagged;
    SameCertified(s, s);
    match action
    case ReopenVoting(newEnd) => ActionKeepsCertified(e, s, Reopen, SystemCall(now, false, false), NewEnd(newEnd));
    case UnfreezeFlag(scope) =>
      FlaggingKeepsStage(s.event, scope);
      SameCertified(s, s.(event := Flagged(s.event, scope, false)));
    case ExtendVoting(newEnd) => SameCertified(s, s.(event := s.event.(end := newEnd)));
    case ReleaseHold => SameCertified(s, s.(event := s.event.(legalHold := false)));
  }

  lemma FlaggingKeepsStage(row: EventRow, scope: Scope)
    ensures Flagged(row, scope, false).stage == row.stage
  {
  }

  lemma RequestExclusive(e: Env, s: Stored, step: Step)
    requires Exclusive(s) && (step.Ask? || step.Decide?)
    ensures Exclusive(AfterStored(e, s, step))
    ensures Backed(s) ==> Backed(AfterStored(e, s, step))
  {
    hide Performed, Exclusive, Backed;
    var t := AfterStored(e, s, step);
    var asked := RequestsOnly(s, step);
    KeepsBoth(s, asked.0);
    if asked.1.Some? {
      PerformedExclusive(e, asked.0, asked.1.value, step.now);
      KeepsBoth(OrSame(Performed(e, asked.0, asked.1.value, step.now), asked.0), t);
    } else {
      KeepsBoth(s, t);
    }
  }

  /** The state with a request recorded, and the action that is then carried out, if any. */
  function RequestsOnly(s: Stored, step: Step): (Stored, Option<Sensitive>)
    requires step.Ask? || step.Decide?
  {
    match step
    case Ask(action, requester, now, permitted, reasoned) =>
      if !permitted || !reasoned || (action.UnfreezeFlag? && LockedStage(s.event.stage)) then (s, None)
      else
        var dual := s.config.settings.dualApproval;
        var request := NewRequest(s, action, requester, now);
        (s.(requests := s.requests + [request]), if dual then None else Some(action))
    case Decide(k, approver, approve, now, permitted) =>
      if k >= |s.requests| || s.requests[k].status != Pending || s.requests[k].expires <= now || !permitted
         || approver == s.requests[k].requestedBy then (s, None)
      else
        var decided := s.requests[k].(decidedBy := Some(approver), status := if approve then Agreed else Refused);
        (s.(requests := s.requests[k := decided]), if approve then Some(decided.action) else None)
  }

  lemma SameCertified(s: Stored, t: Stored)
    requires t.certifications == s.certifications && t.event.stage == s.event.stage
    ensures KeepsCertified(s, t)
  {
  }

  lemma StepKeepsCertified(e: Env, m: Machine, step: Step)
    requires !step.CertifyResult? && !step.Ask? && !step.Decide?
    requires step.Act? ==> step.action != Certify && step.action != Decertify
    ensures KeepsCertified(m.db, After(e, m, step).db)
  {
    hide KeepsCertified, AfterStored;
    match step
    case Compute(_, _, _, _) => SameCertified(m.db, m.db);
    case Store(k) => SameCertified(m.db, After(e, m, step).db);
    case _ => StoredKeepsCertified(e, m.db, step);
  }

  lemma StoredKeepsCertified(e: Env, s: Stored, step: Step)
    requires !step.CertifyResult? && !step.Ask? && !step.Decide?
    requires step.Act? ==> step.action != Certify && step.action != Decertify
    ensures KeepsCertified(s, AfterStored(e, s, step))
  {
    hide KeepsCertified, AfterTransition, AfterTick, AfterEdit, AfterCast, AfterReject, AfterCancel, AfterSign, Flagged;
    match step
    case Act(a, c) => ActionKeepsCertified(e, s, a, c.(skipGuard := false), Nothing);
    case Tick(now, keyOk) => TickKeepsCertified(e, s, now, keyOk);
    case Edit(change) => EditKeepsCertified(s, change);
    case Cast(vote, now) => CastKeepsCertified(s, vote, now);
    case RejectResult(k, reviewer, permitted) => RejectKeepsCertified(s, k, reviewer, permitted);
    case Cancel(k, requester) => CancelKeepsCertified(s, k, requester);
    case SignSnapshot => SignKeepsCertified(e, s);
    case _ => FlagsKeepCertified(e, s, step);
  }

  /** The remaining steps touch the roll, the flags or the key. */
  lemma FlagsKeepCertified(e: Env, s: Stored, step: Step)
    requires step.RollChange? || step.Freeze? || step.PlaceHold? || step.NewKey? || step.Compute? || step.Store?
    ensures KeepsCertified(s, AfterStored(e, s, step))
  {
    hide KeepsCertified, AfterTransition, AfterTick, AfterEdit, AfterCast, AfterReject, AfterCancel, AfterSign,
      AfterCertify, AfterRequest, AfterDecide, OrSame;
    SameCertified(s, AfterStored(e, s, step));
  }

  lemma CastKeepsCertified(s: Stored, vote: Vote, now: int)
    ensures KeepsCertified(s, AfterCast(s, vote, now))
  {
    SameCertified(s, AfterCast(s, vote, now));
  }

  lemma RejectKeepsCertified(s: Stored, k: nat, reviewer: User, permitted: bool)
    ensures KeepsCertified(s, AfterReject(s, k, reviewer, permitted))
  {
    SameCertified(s, AfterReject(s, k, reviewer, permitted));
  }

  lemma CancelKeepsCertified(s: Stored, k: nat, requester: User)
    ensures KeepsCertified(s, AfterCancel(s, k, requester))
  {
    SameCertified(s, AfterCancel(s, k, requester));
  }

  lemma SignKeepsCertified(e: Env, s: Stored)
    ensures KeepsCertified(s, AfterSign(e, s))
  {
    SameCertified(s, AfterSign(e, s));
  }

  lemma TickKeepsCertified(e: Env, s: Stored, now: int, keyOk: bool)
    ensures KeepsCertified(s, AfterTick(e, s, now, keyOk))
  {
    hide AfterTransition;
    var call := SystemCall(now, keyOk, s.event.end <= now);
    ActionKeepsCertified(e, s, OpenVoting, call, Nothing);
    var t := OrSame(AfterTransition(e, s, OpenVoting, call, Nothing), s);
    ActionKeepsCertified(e, t, Close, SystemCall(now, keyOk, false), Nothing);
    ActionKeepsCertified(e, s, Close, SystemCall(now, keyOk, false), Nothing);
  }

  lemma EditKeepsCertified(s: Stored, change: Change)
    ensures KeepsCertified(s, AfterEdit(s, change))
  {
    hide Renamed;
  }

  lemma BareActions(e: Env, m: Machine, step: Step)
    requires Exclusive(m.db) && step.Act? && (step.action == Certify || step.action == Decertify)
    ensures Exclusive(After(e, m, step).db) <==> !SkipsRevoking(m.db, step)
    ensures Backed(m.db) ==>
      (Exclusive(After(e, m, step).db) && Backed(After(e, m, step).db)
       <==> !SkipsAny(m.db, step))
  {
    var s, t := m.db, After(e, m, step).db;
    assert forall i :: Live(s, i) == Live(t, i);
    if Current(s.certifications).Some? {
      assert Live(s, Current(s.certifications).value);
    } else {
      assert forall i :: !Live(s, i);
    }
  }

  lemma StepExclusive(e: Env, m: Machine, step: Step)
    requires Exclusive(m.db)
    ensures Exclusive(After(e, m, step).db) <==> !SkipsRevoking(m.db, step)
    ensures Backed(m.db) ==>
      (Exclusive(After(e, m, step).db) && Backed(After(e, m, step).db)
       <==> !SkipsAny(m.db, step))
  {
    if step.Act? && (step.action == Certify || step.action == Decertify) {
      BareActions(e, m, step);
    } else {
      match step
      case CertifyResult(k, reviewer, now, permitted) =>
        CertifyExclusive(m.db, k, reviewer, now, permitted);
        hide Exclusive, Backed, AfterCertify;
      case Ask(_, _, _, _, _) =>
        RequestExclusive(e, m.db, step);
        hide Exclusive, Backed, AfterStored;
      case Decide(_, _, _, _, _) =>
        RequestExclusive(e, m.db, step);
        hide Exclusive, Backed, AfterStored;
      case _ =>
        StepKeepsCertified(e, m, step);
        KeepsBoth(m.db, After(e, m, step).db);
        hide Exclusive, Backed, After;
    }
  }

  lemma CreatedIsExclusive(config: Config, start: int, end: int, key: nat)
    ensures Exclusive(Created(config, start, end, key).db) && Backed(Created(config, start, end, key).db)
  {
  }

  /**
   A certification in force is the only one, and stands only while the election is certified, published or
   archived, throughout a run exactly when no step of it is a plain decertify action past a certification in
   force. Revoking through `AfterRevoke`, alone or as an agreed request, is such a step never.
   */
  lemma {:induction false} OneCertificationInForce(e: Env, config: Config, start: int, end: int, key: nat,
                                                   run: seq<Step>)
    ensures var m := Created(config, start, end, key);
      (forall k :: 0 <= k <= |run| ==> Exclusive(StateAt(e, m, run, k))) <==>
      (forall k :: 0 <= k < |run| ==> !SkipsRevoking(StateAt(e, m, run, k), run[k]))
  {
    hide Exclusive, Backed, SkipsRevoking, After, AfterAll;
    var m := Created(config, start, end, key);
    StartExclusive(e, config, start, end, key, run);
    forall k | 0 <= k < |run| && Exclusive(StateAt(e, m, run, k))
      ensures Exclusive(StateAt(e, m, run, k + 1)) <==> !SkipsRevoking(StateAt(e, m, run, k), run[k])
    {
      NextState(e, m, run, k);
      StepExclusive(e, AfterAll(e, m, run[..k]), run[k]);
    }
    if forall k :: 0 <= k < |run| ==> !SkipsRevoking(StateAt(e, m, run, k), run[k]) {
      for n := 0 to |run|
        invariant forall k :: 0 <= k <= n ==> Exclusive(StateAt(e, m, run, k))
      {
        assert Exclusive(StateAt(e, m, run, n)) && !SkipsRevoking(StateAt(e, m, run, n), run[n]);
      }
    } else {
      var k :| 0 <= k < |run| && SkipsRevoking(StateAt(e, m, run, k), run[k]);
      assert !(Exclusive(StateAt(e, m, run, k)) && Exclusive(StateAt(e, m, run, k + 1)));
    }
  }

  lemma StartExclusive(e: Env, config: Config, start: int, end: int, key: nat, run: seq<Step>)
    ensures Exclusive(StateAt(e, Created(config, start, end, key), run, 0))
      && Backed(StateAt(e, Created(config, start, end, key), run, 0))
  {
    CreatedIsExclusive(config, start, end, key);
    hide Exclusive, Backed;
  }

  /**
   In addition every certified or published election has a certification in force, throughout a run, exactly
   when it also contains no successful plain certify action.
   */
  lemma {:induction false} CertifiedMeansCertification(e: Env, config: Config, start: int, end: int, key: nat,
                                                       run: seq<Step>)
    ensures var m := Created(config, start, end, key);
      (forall k :: 0 <= k <= |run| ==> Exclusive(StateAt(e, m, run, k)) && Backed(StateAt(e, m, run, k))) <==>
      (forall k :: 0 <= k < |run| ==> !SkipsAny(StateAt(e, m, run, k), run[k]))
  {
    hide Exclusive, Backed, SkipsAny, After, AfterAll;
    var m := Created(config, start, end, key);
    StartExclusive(e, config, start, end, key, run);
    forall k | 0 <= k < |run| && Exclusive(StateAt(e, m, run, k)) && Backed(StateAt(e, m, run, k))
      ensures Exclusive(StateAt(e, m, run, k + 1)) && Backed(StateAt(e, m, run, k + 1)) <==>
        !SkipsAny(StateAt(e, m, run, k), run[k])
    {
      NextState(e, m, run, k);
      StepExclusive(e, AfterAll(e, m, run[..k]), run[k]);
    }
    if forall k :: 0 <= k < |run| ==> !SkipsAny(StateAt(e, m, run, k), run[k]) {
      for n := 0 to |run|
        invariant forall k :: 0 <= k <= n ==> Exclusive(StateAt(e, m, run, k)) && Backed(StateAt(e, m, run, k))
      {
        assert Exclusive(StateAt(e, m, run, n)) && Backed(StateAt(e, m, run, n));
        assert !SkipsAny(StateAt(e, m, run, n), run[n]);
      }
    } else {
      var k :| 0 <= k < |run| && SkipsAny(StateAt(e, m, run, k), run[k]);
      assert !(Exclusive(StateAt(e, m, run, k + 1)) && Backed(StateAt(e, m, run, k + 1)))
        || !(Exclusive(StateAt(e, m, run, k)) && Backed(StateAt(e, m, run, k)));
    }
  }

  lemma PlainDecertifyLeavesCertification(e: Env, s: Stored, actor: User, now: int)
    requires s.event.stage == Certified && Current(s.certifications).Some?
    ensures var t := AfterStored(e, s, Act(Decertify, PlainCall(actor, now)));
      t.event.stage == Tallying && Current(t.certifications).Some? && !Exclusive(t)
  {
    assert Live(s, Current(s.certifications).value);
    assert Live(AfterStored(e, s, Act(Decertify, PlainCall(actor, now))), Current(s.certifications).value);
  }

  function PlainCall(actor: User, now: int): Call { Call(actor, now, true, false, true, false, false) }

  lemma OneMore(e: Env, m: Machine, run: seq<Step>, step: Step)
    ensures AfterAll(e, m, run + [step]) == After(e, AfterAll(e, m, run), step)
  {
    assert (run + [step])[..|run|] == run;
  }

  const MILESTONES := [Draft, Review, Approved, Scheduled, Open, Closed, Tallying]

  const ROUTE := [Submit, Approve, Schedule, OpenVoting, Close, StartTally]

  /** Submitted by one person, all else done by another, at the time 0 with the end planned for 10. */
  function RouteStep(i: nat): Step
    requires i < |ROUTE|
  {
    Act(ROUTE[i], PlainCall(if i == 0 then 1 else 2, 0))
  }

  predicate OnRoute(m: Machine, config: Config, i: nat)
    requires i < |MILESTONES|
  {
    && m.db.event.stage == MILESTONES[i] && m.db.event.end == (if i < 5 then 10 else 0)
    && (i >= 1 ==> m.db.event.submittedBy == Some(1))
    && (i >= 2 ==> m.db.event.reviewedBy == Some(2) && ApprovedOnce(m.db, config))
    && !m.db.event.legalHold && (i < 4 ==> !m.db.event.configFrozen) && (i < 2 ==> m.db.snapshots == [])
    && m.db.results == [] && m.db.certifications == [] && m.db.requests == [] && m.working == []
      && m.db.config == config
  }

  /** One snapshot so far, signed on approval, with the planned end. */
  predicate ApprovedOnce(s: Stored, config: Config) {
    && |s.snapshots| == 1 && s.snapshots[0].reason == OnApproval && s.snapshots[0].config.end == 10
    && s.snapshots[0].config.settings == config.settings
  }

  lemma RouteGoesOn(e: Env, m: Machine, config: Config, i: nat)
    requires i < |ROUTE| && OnRoute(m, config, i)
    ensures OnRoute(After(e, m, RouteStep(i)), config, i + 1)
  {
    hide Moved, Guard;
    RouteIsOpen(m.db.event, config.settings, i);
    assert RouteStep(i).call.(skipGuard := false) == RouteStep(i).call;
  }

  lemma RouteIsOpen(row: EventRow, settings: Settings, i: nat)
    requires i < |ROUTE| && row.stage == MILESTONES[i] && row.end == (if i < 5 then 10 else 0)
    requires i >= 1 ==> row.submittedBy == Some(1)
    ensures row.stage in Sources(ROUTE[i]) && Target(ROUTE[i]) == MILESTONES[i + 1]
    ensures Guard(row, settings, ROUTE[i], RouteStep(i).call)
  {
  }

  /** An election driven from its creation along the route. */
  lemma RouteTaken(e: Env, config: Config, key: nat, n: nat) returns (run: seq<Step>)
    requires n <= |ROUTE|
    ensures OnRoute(AfterAll(e, Created(config, 0, 10, key), run), config, n)
  {
    hide After;
    var m := Created(config, 0, 10, key);
    run := [];
    for i := 0 to n
      invariant OnRoute(AfterAll(e, m, run), config, i)
    {
      RouteGoesOn(e, AfterAll(e, m, run), config, i);
      OneMore(e, m, run, RouteStep(i));
      run := run + [RouteStep(i)];
    }
  }

  /** Ready to tally, with `i` results and certifications, none of them revoked. */
  predicate CertifiedTimes(m: Machine, config: Config, i: nat) {
    && |m.db.results| == |m.working| == |m.db.certifications| == i && m.db.config == config && m.db.requests == []
    && ApprovedOnce(m.db, config) && m.db.event.end == 0
    && forall k :: 0 <= k < i ==>
         && m.db.certifications[k].revokedAt.None? && m.db.certifications[k].publicKey == m.db.signing
         && m.db.certifications[k].payload.configHash == LatestHash(m.db)
  }

  lemma TallyStored(e: Env, m: Machine, config: Config, i: nat)
    requires m.db.event.stage == Tallying && CertifiedTimes(m, config, i)
    ensures var t := After(e, After(e, m, Compute(Official, None, 0, true)), Store(i));
      && |t.db.results| == |t.working| == i + 1 && t.db == m.db.(results := t.db.results)
      && t.db.results[i].kind == Official && t.db.results[i].status == PendingReview && t.db.results[i].talliedBy.None?
  {
    hide BoardCounts, CertifiedTimes;
    assert |m.working| == |m.db.results| == i by { CountedTimes(m, config, i); }
  }

  lemma CountedTimes(m: Machine, config: Config, i: nat)
    requires CertifiedTimes(m, config, i)
    ensures |m.working| == |m.db.results| == i
  {
  }

  lemma TallyAndCertify(e: Env, m: Machine, config: Config, i: nat) returns (t: Machine)
    requires m.db.event.stage == Tallying && CertifiedTimes(m, config, i)
    ensures t == After(e, After(e, After(e, m, Compute(Official, None, 0, true)), Store(i)),
                       CertifyResult(i, 1, 0, true))
    ensures t.db.event.stage == Certified && CertifiedTimes(t, config, i + 1)
  {
    TallyStored(e, m, config, i);
    var stored := After(e, After(e, m, Compute(Official, None, 0, true)), Store(i));
    hide NewResult, Supersede, AfterStore, MayTally;
    t := After(e, stored, CertifyResult(i, 1, 0, true));
  }

  lemma PlainDecertify(e: Env, m: Machine, config: Config, i: nat)
    requires m.db.event.stage == Certified && CertifiedTimes(m, config, i)
    ensures var t := After(e, m, Act(Decertify, PlainCall(1, 0)));
      t.db.event.stage == Tallying && CertifiedTimes(t, config, i)
  {
  }

  /** An election driven from its creation to its `n`-th certification, all of them in force. */
  lemma CertifiedReached(e: Env, config: Config, key: nat, n: nat) returns (run: seq<Step>)
    requires n > 0
    ensures var m := AfterAll(e, Created(config, 0, 10, key), run);
      m.db.event.stage == Certified && CertifiedTimes(m, config, n)
  {
    hide After;
    var m := Created(config, 0, 10, key);
    run := RouteTaken(e, config, key, |ROUTE|);
    for i := 0 to n
      invariant CertifiedTimes(AfterAll(e, m, run), config, i)
      invariant AfterAll(e, m, run).db.event.stage == if i == 0 then Tallying else Certified
    {
      if i > 0 {
        PlainDecertify(e, AfterAll(e, m, run), config, i);
        OneMore(e, m, run, Act(Decertify, PlainCall(1, 0)));
        run := run + [Act(Decertify, PlainCall(1, 0))];
      }
      var t := TallyAndCertify(e, AfterAll(e, m, run), config, i);
      var tallied := run + [Compute(Official, None, 0, true)];
      OneMore(e, m, run, Compute(Official, None, 0, true));
      OneMore(e, m, tallied, Store(i));
      OneMore(e, m, tallied + [Store(i)], CertifyResult(i, 1, 0, true));
      run := tallied + [Store(i)] + [CertifyResult(i, 1, 0, true)];
    }
  }

  /** Plain decertify actions can be reached, and two certifications be in force from then on. */
  lemma TwoInForce(e: Env, config: Config, key: nat) returns (run: seq<Step>)
    ensures var s := AfterAll(e, Created(config, 0, 10, key), run).db;
      Live(s, 0) && Live(s, 1) && !Exclusive(s)
  {
    run := CertifiedReached(e, config, key, 2);
    hide AfterAll;
  }
}
