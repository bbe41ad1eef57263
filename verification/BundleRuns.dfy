/** When the published bundle passes all its checks throughout the life of an election. */
module BundleRuns {
  import opened Collections
  import opened ByteStrings
  import opened Merkle
  import opened Bulletin
  import opened Lifecycle
  import opened Elections
  import opened ElectionRuns
  import opened ElectionTheorems
  import opened Verification
  import opened ElectionEffects

  /** A snapshot is signed on demand past a certification in force that was signed over another configuration. */
  predicate SignsOver(e: Env, s: Stored, step: Step) {
    && step.SignSnapshot? && Current(s.certifications).Some?
    && s.certifications[Current(s.certifications).value].payload.configHash
       != Some(e.docHash(DocumentOf(s.event, s.config, s.roll)))
  }

  /** The signing key is replaced, and that of the certification in force is not kept among the trusted ones. */
  predicate DropsKey(s: Stored, step: Step) {
    && step.NewKey? && Current(s.certifications).Some?
    && s.certifications[Current(s.certifications).value].publicKey !in [step.key] + step.kept
  }

  /** What is in force once the certification in force is revoked. */
  function NextCurrent(s: Stored): (r: Option<nat>)
    ensures r.Some? ==> r.value < |s.certifications|
  {
    match Current(s.certifications)
    case None => None
    case Some(i) => Current(s.certifications[i := s.certifications[i].(revokedAt := Some(0))])
  }

  /** A certification is revoked, and another in force besides it, which is out of date, is shown from now on. */
  predicate Uncovers(s: Stored, step: Step) {
    && (step.Ask? || step.Decide?) && RequestsOnly(s, step).1 == Some(DecertifyResult)
    && s.event.stage in Sources(Decertify) && !UpToDate(s, NextCurrent(s))
  }

  predicate Outdates(e: Env, s: Stored, step: Step) { SignsOver(e, s, step) || DropsKey(s, step) || Uncovers(s, step) }

  predicate Shown(s: Stored) { UpToDate(s, Current(s.certifications)) }

  lemma {:induction false} RevocationTime(cs: seq<Certification>, others: seq<Certification>)
    requires |cs| == |others|
    requires forall i :: 0 <= i < |cs| ==>
      cs[i].certifiedAt == others[i].certifiedAt && (cs[i].revokedAt.Some? <==> others[i].revokedAt.Some?)
    ensures Current(cs) == Current(others)
  {
    if cs != [] {
      RevocationTime(cs[..|cs| - 1], others[..|cs| - 1]);
    }
  }

  lemma RevokedShown(s: Stored, now: int)
    requires AfterRevoke(s, now).Some?
    ensures Shown(AfterRevoke(s, now).value) <==> UpToDate(s, NextCurrent(s))
  {
    var i := Current(s.certifications).value;
    var t := AfterRevoke(s, now).value;
    RevocationTime(t.certifications, s.certifications[i := s.certifications[i].(revokedAt := Some(0))]);
  }

  lemma SameShown(s: Stored, t: Stored)
    requires t.certifications == s.certifications && LatestHash(t) == LatestHash(s) && Trusted(t) == Trusted(s)
    ensures Shown(t) <==> Shown(s)
  {
  }

  lemma ActionShown(e: Env, s: Stored, working: seq<Result>, a: Action, c: Call, x: Extra)
    requires Sound(e, s, working) && Shown(s)
    ensures Shown(OrSame(AfterTransition(e, s, a, c, x), s))
  {
    hide Endorsed, Signed, AllCertify, AllConfirmed, Moved, Guard, KeyAvailable, NewSnapshot;
    var t := OrSame(AfterTransition(e, s, a, c, x), s);
    if a == Approve && t != s {
      assert s.certifications == [];
    } else {
      SameShown(s, t);
    }
  }

  lemma TickShown(e: Env, s: Stored, now: int, keyOk: bool)
    ensures Shown(AfterTick(e, s, now, keyOk)) <==> Shown(s)
  {
    hide Moves, Moved, NewSnapshot, Shown;
    SameShown(s, AfterTick(e, s, now, keyOk));
  }

  lemma EditShown(s: Stored, change: Change)
    ensures Shown(AfterEdit(s, change)) <==> Shown(s)
  {
    hide EditPolicy, Renamed, Shown;
    SameShown(s, AfterEdit(s, change));
  }

  lemma CertifyShown(s: Stored, k: nat, reviewer: User, now: int, permitted: bool)
    requires Shown(s)
    ensures Shown(AfterCertify(s, k, reviewer, now, permitted))
  {
    if MayCertify(s, k, reviewer, permitted) {
      var t := AfterCertify(s, k, reviewer, now, permitted);
      var n := |s.certifications|;
      assert t.certifications[..n] == s.certifications;
    }
  }

  lemma PerformedShown(e: Env, s: Stored, working: seq<Result>, action: Sensitive, now: int)
    requires Sound(e, s, working) && Shown(s)
    ensures Shown(OrSame(Performed(e, s, action, now), s)) <==>
      !(action == DecertifyResult && s.event.stage in Sources(Decertify) && !UpToDate(s, NextCurrent(s)))
  {
    hide Sound, Shown, AfterTransition, AfterRevoke, Flagged, UpToDate;
    match action
    case DecertifyResult => RevocationShown(s, now);
    case ReopenVoting(newEnd) => ActionShown(e, s, working, Reopen, SystemCall(now, false, false), NewEnd(newEnd));
    case UnfreezeFlag(scope) => SameShown(s, s.(event := Flagged(s.event, scope, false)));
    case ExtendVoting(newEnd) => SameShown(s, s.(event := s.event.(end := newEnd)));
    case ReleaseHold => SameShown(s, s.(event := s.event.(legalHold := false)));
  }

  lemma RevocationShown(s: Stored, now: int)
    requires Shown(s)
    ensures Shown(OrSame(AfterRevoke(s, now), s)) <==>
      !(s.event.stage in Sources(Decertify) && !UpToDate(s, NextCurrent(s)))
  {
    if AfterRevoke(s, now).Some? {
      RevokedShown(s, now);
    }
  }

  lemma RequestShown(e: Env, s: Stored, working: seq<Result>, step: Step)
    requires Sound(e, s, working) && Shown(s) && (step.Ask? || step.Decide?)
    ensures Shown(AfterStored(e, s, step)) <==> !Uncovers(s, step)
  {
    hide Sound, Shown, Performed, UpToDate;
    var (asked, action) := RequestsOnly(s, step);
    RequestsKeep(e, s, working, asked.requests);
    SameShown(s, asked);
    if action.Some? {
      PerformedShown(e, asked, working, action.value, step.now);
      NextShown(s, asked);
      SameShown(OrSame(Performed(e, asked, action.value, step.now), asked), AfterStored(e, s, step));
    } else {
      SameShown(s, AfterStored(e, s, step));
    }
  }

  lemma NextShown(s: Stored, t: Stored)
    requires t == s.(requests := t.requests)
    ensures UpToDate(t, NextCurrent(t)) <==> UpToDate(s, NextCurrent(s))
  {
  }

  lemma StepShown(e: Env, m: Machine, step: Step)
    requires Sound(e, m.db, m.working) && Shown(m.db)
    ensures Shown(After(e, m, step).db) <==> !Outdates(e, m.db, step)
  {
    hide Sound, Shown, AfterStored, MayTally, NewResult, Uncovers, SignsOver, DropsKey;
    NotByOthers(e, m.db, step);
    match step
    case Compute(_, _, _, _) =>
    case Store(k) => SameShown(m.db, After(e, m, step).db);
    case _ => StoredShown(e, m.db, m.working, step);
  }

  /** Each of the three ways is a way of certain steps only. */
  lemma NotByOthers(e: Env, s: Stored, step: Step)
    ensures SignsOver(e, s, step) ==> step.SignSnapshot?
    ensures DropsKey(s, step) ==> step.NewKey?
    ensures Uncovers(s, step) ==> step.Ask? || step.Decide?
  {
  }

  lemma StoredShown(e: Env, s: Stored, working: seq<Result>, step: Step)
    requires Sound(e, s, working) && Shown(s) && !step.Compute? && !step.Store?
    ensures Shown(AfterStored(e, s, step)) <==> !Outdates(e, s, step)
  {
    hide Sound, Shown, AfterTransition, AfterTick, AfterEdit, AfterCertify, AfterRequest, AfterDecide, Flagged,
      Uncovers, SignsOver, DropsKey;
    NotByOthers(e, s, step);
    match step
    case Act(a, c) => ActionShown(e, s, working, a, c.(skipGuard := false), Nothing);
    case Tick(now, keyOk) => TickShown(e, s, now, keyOk);
    case Edit(change) => EditShown(s, change);
    case CertifyResult(k, reviewer, now, permitted) => CertifyShown(s, k, reviewer, now, permitted);
    case Ask(_, _, _, _, _) => RequestShown(e, s, working, step);
    case Decide(_, _, _, _, _) => RequestShown(e, s, working, step);
    case SignSnapshot => SignShown(e, s);
    case NewKey(key, kept) => KeyShown(s, key, kept);
    case _ => SameShown(s, AfterStored(e, s, step));
  }

  lemma SignShown(e: Env, s: Stored)
    requires Shown(s)
    ensures Shown(AfterSign(e, s)) <==> !SignsOver(e, s, SignSnapshot)
  {
    hide DocumentOf;
  }

  lemma KeyShown(s: Stored, key: nat, kept: seq<nat>)
    requires Shown(s)
    ensures Shown(s.(signing := key, retired := kept)) <==> !DropsKey(s, NewKey(key, kept))
  {
  }

  // ---- The result ----

  /**
   The published bundle passes all checks throughout a run exactly when the run contains none of three steps: a
   snapshot signed on demand past a certification in force over another configuration; a key that is dropped while
   the certification in force depends on it; a revocation that leaves an outdated certification in force, which
   takes two in force at once.
   */
  lemma {:induction false} BundlePassesThroughout(e: Env, config: Config, start: int, end: int, key: nat,
                                                  run: seq<Step>)
    ensures var m := Created(config, start, end, key);
      (forall k :: 0 <= k <= |run| ==> Passes(e, BundleOf(StateAt(e, m, run, k)))) <==>
      (forall k :: 0 <= k < |run| ==> !Outdates(e, StateAt(e, m, run, k), run[k]))
  {
    hide Shown, Passes, BundleOf, Outdates, After, AfterAll, Truthful, Sound;
    var m := Created(config, start, end, key);
    forall k | 0 <= k <= |run| ensures Passes(e, BundleOf(StateAt(e, m, run, k))) <==> Shown(StateAt(e, m, run, k)) {
      BundleShown(e, config, start, end, key, run[..k]);
    }
    StartShown(e, config, start, end, key, run);
    forall k | 0 <= k < |run| && Shown(StateAt(e, m, run, k))
      ensures Shown(StateAt(e, m, run, k + 1)) <==> !Outdates(e, StateAt(e, m, run, k), run[k])
    {
      RunIsSound(e, config, start, end, key, run[..k]);
      NextState(e, m, run, k);
      StepShown(e, AfterAll(e, m, run[..k]), run[k]);
    }
    if forall k :: 0 <= k < |run| ==> !Outdates(e, StateAt(e, m, run, k), run[k]) {
      for n := 0 to |run|
        invariant forall k :: 0 <= k <= n ==> Shown(StateAt(e, m, run, k))
      {
        assert Shown(StateAt(e, m, run, n)) && !Outdates(e, StateAt(e, m, run, n), run[n]);
      }
    } else {
      var k :| 0 <= k < |run| && Outdates(e, StateAt(e, m, run, k), run[k]);
      assert !(Shown(StateAt(e, m, run, k)) && Shown(StateAt(e, m, run, k + 1)));
    }
  }

  lemma BundleShown(e: Env, config: Config, start: int, end: int, key: nat, run: seq<Step>)
    ensures var s := AfterAll(e, Created(config, start, end, key), run).db; Passes(e, BundleOf(s)) <==> Shown(s)
  {
    BundlePasses(e, config, start, end, key, run);
    hide Passes, BundleOf, Truthful, AfterAll;
  }

  lemma StartShown(e: Env, config: Config, start: int, end: int, key: nat, run: seq<Step>)
    ensures Shown(StateAt(e, Created(config, start, end, key), run, 0))
  {
  }

  /** With at most one certification in force, revoking it never shows another. */
  lemma ExclusiveNeverUncovers(s: Stored, step: Step)
    requires Exclusive(s)
    ensures !Uncovers(s, step)
  {
    if Current(s.certifications).Some? && NextCurrent(s).Some? {
      assert Live(s, Current(s.certifications).value) && Live(s, NextCurrent(s).value);
    }
  }

  /** A hash that tells documents by the end of voting. */
  function ByEnd(): Env {
    Env(text => ZeroDigest(), (d: Document) => if d.end == 10 then ZeroDigest() else OtherDigest(), (c: Counts) =>
        ZeroDigest(),
        (config, votes) => Counted([], []), roll => Turnout(0, 0))
  }

  function ZeroDigest(): Digest { seq(32, i => 0) }

  function OtherDigest(): Digest { seq(32, i => 1) }

  /**
   The first of the steps can be reached: the election was closed early, so a snapshot signed on demand after
   certification has another end, and the bundle fails that passed before.
   */
  lemma SnapshotBreaksBundle(config: Config, key: nat) returns (run: seq<Step>)
    ensures var s := AfterAll(ByEnd(), Created(config, 0, 10, key), run).db;
      && Passes(ByEnd(), BundleOf(s)) && SignsOver(ByEnd(), s, SignSnapshot)
    ensures var t := AfterAll(ByEnd(), Created(config, 0, 10, key), run + [SignSnapshot]).db;
      !Passes(ByEnd(), BundleOf(t))
  {
    run := CertifiedReached(ByEnd(), config, key, 1);
    var m := Created(config, 0, 10, key);
    var s := AfterAll(ByEnd(), m, run).db;
    OneMore(ByEnd(), m, run, SignSnapshot);
    BundleShown(ByEnd(), config, 0, 10, key, run);
    BundleShown(ByEnd(), config, 0, 10, key, run + [SignSnapshot]);
    SnapshotsSigned(ByEnd(), config, key, run);
    OnlyCertified(ByEnd(), AfterAll(ByEnd(), m, run), config);
    hide AfterAll, Passes, BundleOf, SignsOver, Shown;
    SignedShown(ByEnd(), AfterAll(ByEnd(), m, run));
  }

  lemma SignedShown(e: Env, m: Machine)
    requires Shown(m.db) && SignsOver(e, m.db, SignSnapshot)
    ensures !Shown(After(e, m, SignSnapshot).db)
  {
    hide Shown;
    SignShown(e, m.db);
  }

  lemma SnapshotsSigned(e: Env, config: Config, key: nat, run: seq<Step>)
    ensures Signed(e, AfterAll(e, Created(config, 0, 10, key), run).db.snapshots)
  {
    RunIsSound(e, config, 0, 10, key, run);
    hide AfterAll, Signed;
  }

  lemma OnlyCertified(e: Env, m: Machine, config: Config)
    requires e == ByEnd() && CertifiedTimes(m, config, 1) && Signed(e, m.db.snapshots)
    ensures Shown(m.db) && SignsOver(e, m.db, SignSnapshot)
  {
    assert ZeroDigest()[0] != OtherDigest()[0];
  }

  // ---- What the bundle shows ----

  /**
   In every run the bundle shows the snapshot with the highest number, the latest certification in force,
     its result once
   the election is published, all stored trackers in order, and the keys to trust.
   */
  lemma BundleShowsRecord(e: Env, config: Config, start: int, end: int, key: nat, run: seq<Step>)
    ensures var s := AfterAll(e, Created(config, start, end, key), run).db;
      var b := BundleOf(s);
      && (b.configuration.None? <==> s.snapshots == [])
      && (b.configuration.Some? ==>
            b.configuration.value in s.snapshots
            && forall i :: 0 <= i < |s.snapshots| ==> s.snapshots[i].version <= b.configuration.value.version)
      && (b.certification.Some? <==> exists i :: 0 <= i < |s.certifications| && s.certifications[i].revokedAt.None?)
      && (b.certification.Some? ==>
            && b.certification.value in s.certifications && b.certification.value.revokedAt.None?
            && (forall i :: 0 <= i < |s.certifications| && s.certifications[i].revokedAt.None? ==>
                  s.certifications[i].certifiedAt <= b.certification.value.certifiedAt)
            && b.certification.value.result < |s.results|)
      && (b.result.Some? <==> b.certification.Some? && s.event.stage in {Published, Archived})
      && (b.result.Some? ==> b.result == Some(s.results[b.certification.value.result].data))
      && |b.trackers| == |s.board| && multiset(Listed(s.board)) == multiset(Trackers(s.board))
        && Ordered(Listed(s.board))
      && b.trackers == Listed(s.board) && b.keys == [s.signing] + s.retired
  {
    RunIsSound(e, config, start, end, key, run);
    SnapshotsAreNumbered(e, config, start, end, key, run);
    var s := AfterAll(e, Created(config, start, end, key), run).db;
    SortedIsOrdered(Trackers(s.board));
    CertifiedResultIsThere(e, s, AfterAll(e, Created(config, start, end, key), run).working);
    hide AfterAll, Sound, Sorted, Trackers, Ordered;
  }

  lemma CertifiedResultIsThere(e: Env, s: Stored, working: seq<Result>)
    requires Sound(e, s, working)
    ensures Current(s.certifications).Some? ==>
      s.certifications[Current(s.certifications).value].result < |s.results|
  {
    if Current(s.certifications).Some? {
      assert Certifies(s, s.certifications[Current(s.certifications).value]);
    }
    hide Endorsed, Staged, AllConfirmed, Signed;
  }
}
