/** What results and certifications say, told from the stored ballots and the steps of the run that made them. */
module ElectionCounts {
  import opened Collections
  import opened ByteStrings
  import opened Merkle
  import opened Bulletin
  import opened Lifecycle
  import opened Elections
  import opened ElectionRuns
  import opened ElectionTheorems
  import opened ElectionEffects

  /**
   The counts are those of the ballots that open, each as often as it is stored, in the order of their trackers; the
   others are invalid. A paid election has no ballots to count.
   */
  ghost predicate CountsBoard(e: Env, config: Config, board: seq<Vote>, c: Counts) {
    if config.settings.institutional then
      && c.root == Root(e.h, Listed(board))
      && exists valid :: OpensTo(board, valid) && CountsVotes(e, config, valid, |board|, c)
    else c.counted == e.count(config, []) && c.ballots == 0 && c.invalid == 0 && c.root == Root(e.h, [])
  }

  ghost predicate CountsVotes(e: Env, config: Config, valid: seq<Vote>, stored: nat, c: Counts) {
    c.counted == e.count(config, valid) && c.ballots == |valid| && c.invalid == stored - |valid|
  }

  lemma BoardIsCounted(e: Env, s: Stored)
    ensures CountsBoard(e, s.config, s.board, BoardCounts(e, s))
    ensures BoardCounts(e, s).turnout == e.turnout(s.roll)
  {
    hide OpensTo, Root, Listed;
    OpeningIsBoard(s.board);
    var c := BoardCounts(e, s);
    if s.config.settings.institutional {
      assert CountsVotes(e, s.config, Opening(ByTracker(s.board)), |s.board|, c);
    }
  }

  // ---- What steps leave alone ----

  /** Nothing is counted or reconfigured; old results at most change their review. */
  ghost predicate Recounts(s: Stored, t: Stored) {
    && |t.results| == |s.results|
    && (Counting(s.event.stage) ==> t.config == s.config)
  }

  lemma RequestsRecount(e: Env, s: Stored, step: Step)
    requires step.Ask? || step.Decide?
    ensures Recounts(s, AfterStored(e, s, step))
  {
    hide AfterTransition, AfterRevoke, Flagged;
    forall u: Stored, action, now | u == s.(requests := u.requests)
      ensures Recounts(s, OrSame(Performed(e, u, action, now), u))
    {
      PerformedRecounts(e, u, action, now);
    }
    hide Performed;
  }

  lemma PerformedRecounts(e: Env, s: Stored, action: Sensitive, now: int)
    ensures Recounts(s, OrSame(Performed(e, s, action, now), s))
  {
    hide Moves, Moved, NewSnapshot, Flagged;
  }

  lemma TickRecounts(e: Env, s: Stored, now: int, keyOk: bool)
    ensures AfterTick(e, s, now, keyOk).results == s.results && AfterTick(e, s, now, keyOk).config == s.config
  {
    hide Moves, Moved, NewSnapshot;
  }

  lemma StoredRecounts(e: Env, s: Stored, step: Step)
    ensures Recounts(s, AfterStored(e, s, step))
  {
    hide Moves, Moved, NewSnapshot, AfterTick, AfterEdit, AfterRequest, AfterDecide, Flagged;
    match step
    case Tick(now, keyOk) => TickRecounts(e, s, now, keyOk);
    case Edit(change) => EditTouches(s, change);
    case Ask(_, _, _, _, _) => RequestsRecount(e, s, step);
    case Decide(_, _, _, _, _) => RequestsRecount(e, s, step);
    case _ =>
  }

  // ---- Where results come from ----

  /** The result was computed at step `k`, from what was stored then. */
  ghost predicate ComputedAt(e: Env, m: Machine, run: seq<Step>, k: int, r: Result) {
    && 0 <= k < |run| && run[k].Compute?
    && var s := StateAt(e, m, run, k);
    && (if run[k].kind == Official then s.event.stage == Tallying else Counting(s.event.stage))
    && (s.config.settings.institutional ==> run[k].unlocked)
    && r.kind == run[k].kind && r.talliedBy == run[k].actor && r.data.generatedAt == run[k].now
    && r.data.stable.turnout == e.turnout(s.roll) && CountsBoard(e, s.config, s.board, r.data.stable)
    && r.root == r.data.stable.root && r.hash == e.dataHash(r.data.stable)
  }

  ghost predicate Computed(e: Env, m: Machine, run: seq<Step>, r: Result) { exists k :: ComputedAt(e, m, run, k, r) }

  /** Each result was computed at some step, and counts what is stored now. */
  ghost predicate Sourced(e: Env, m: Machine, run: seq<Step>, s: Stored, rs: seq<Result>) {
    forall i :: 0 <= i < |rs| ==> Computed(e, m, run, rs[i]) && CountsBoard(e, s.config, s.board, rs[i].data.stable)
  }

  lemma StatePrefix(e: Env, m: Machine, run: seq<Step>, step: Step, k: nat)
    requires k <= |run|
    ensures StateAt(e, m, run + [step], k) == StateAt(e, m, run, k)
  {
    assert (run + [step])[..k] == run[..k];
  }

  lemma ComputedLater(e: Env, m: Machine, run: seq<Step>, step: Step, r: Result, later: Result)
    requires Computed(e, m, run, r) && NamesTheSame(r, later)
    ensures Computed(e, m, run + [step], later)
  {
    hide StateAt, CountsBoard;
    var k :| ComputedAt(e, m, run, k, r);
    StatePrefix(e, m, run, step, k);
    assert (run + [step])[k] == run[k];
    assert ComputedAt(e, m, run + [step], k, later);
  }

  lemma ComputedNow(e: Env, m: Machine, run: seq<Step>, step: Step)
    requires step.Compute? && MayTally(StateAt(e, m, run, |run|), step.kind, step.unlocked)
    ensures var r := NewResult(e, StateAt(e, m, run, |run|), step.kind, step.actor, step.now);
      Computed(e, m, run + [step], r)
  {
    var s := StateAt(e, m, run, |run|);
    BoardIsCounted(e, s);
    StatePrefix(e, m, run, step, |run|);
    hide StateAt, CountsBoard, BoardCounts;
    assert (run + [step])[|run|] == step;
    assert ComputedAt(e, m, run + [step], |run|, NewResult(e, s, step.kind, step.actor, step.now));
  }

  lemma SourcedLater(e: Env, m: Machine, run: seq<Step>, step: Step, s: Stored, t: Stored, rs: seq<Result>,
                     ts: seq<Result>)
    requires Sourced(e, m, run, s, rs) && |ts| <= |rs| && forall i :: 0 <= i < |ts| ==> NamesTheSame(rs[i], ts[i])
    requires rs != [] ==> t.config == s.config && t.board == s.board
    ensures Sourced(e, m, run + [step], t, ts)
  {
    hide Computed, CountsBoard;
    forall i | 0 <= i < |ts| ensures Computed(e, m, run + [step], ts[i]) {
      ComputedLater(e, m, run, step, rs[i], ts[i]);
    }
  }

  /** One step keeps all that: it stores nothing but what was computed, and leaves what was counted alone. */
  lemma StepSourced(e: Env, m: Machine, run: seq<Step>, step: Step, n: Machine)
    requires n == AfterAll(e, m, run) && Staged(n.db, n.working)
    requires Sourced(e, m, run, n.db, n.db.results) && Sourced(e, m, run, n.db, n.working)
    ensures var t := After(e, n, step);
      Sourced(e, m, run + [step], t.db, t.db.results) && Sourced(e, m, run + [step], t.db, t.working)
  {
    hide Sourced, AfterStored, MayTally, NewResult, Supersede;
    var t := After(e, n, step);
    StepOnward(e, n, step);
    hide Settled;
    assert run[..|run|] == run && StateAt(e, m, run, |run|) == n.db;
    match step
    case Compute(kind, actor, now, unlocked) =>
      SourcedLater(e, m, run, step, n.db, t.db, n.db.results, t.db.results);
      SourcedLater(e, m, run, step, n.db, t.db, n.working, n.working);
      if MayTally(n.db, kind, unlocked) {
        ComputedNow(e, m, run, step);
        ComputedMore(e, m, run + [step], n.db, n.working, kind, actor, now);
      }
    case Store(k) =>
      SourcedLater(e, m, run, step, n.db, t.db, n.working, t.working);
      if k < |n.working| {
        StoreSourced(e, m, run, step, n, k);
      } else {
        SourcedLater(e, m, run, step, n.db, t.db, n.db.results, t.db.results);
      }
    case _ =>
      StoredRecounts(e, n.db, step);
      SourcedLater(e, m, run, step, n.db, t.db, n.db.results, t.db.results);
      SourcedLater(e, m, run, step, n.db, t.db, n.working, t.working);
  }

  lemma ComputedMore(e: Env, m: Machine, run: seq<Step>, s: Stored, rs: seq<Result>, kind: Kind, actor: Option<User>,
                     now: int)
    requires Sourced(e, m, run, s, rs) && Computed(e, m, run, NewResult(e, s, kind, actor, now))
    ensures Sourced(e, m, run, s, rs + [NewResult(e, s, kind, actor, now)])
  {
    BoardIsCounted(e, s);
    hide Computed, CountsBoard, BoardCounts;
  }

  lemma StoreSourced(e: Env, m: Machine, run: seq<Step>, step: Step, n: Machine, k: nat)
    requires k < |n.working| && Sourced(e, m, run, n.db, n.db.results) && Sourced(e, m, run, n.db, n.working)
    ensures var t := AfterStore(n.db, n.working[k]); Sourced(e, m, run + [step], t, t.results)
  {
    hide Computed, CountsBoard;
    var t := AfterStore(n.db, n.working[k]);
    var last := |t.results| - 1;
    SourcedLater(e, m, run, step, n.db, t, n.db.results, t.results[..last]);
    ComputedLater(e, m, run, step, n.working[k], n.working[k]);
    forall i | 0 <= i < |t.results| ensures Computed(e, m, run + [step], t.results[i]) {
      if i < last { assert t.results[..last][i] == t.results[i]; }
    }
    forall i | 0 <= i < |t.results| ensures CountsBoard(e, t.config, t.board, t.results[i].data.stable) {
      if i < last { assert t.results[..last][i] == t.results[i]; }
    }
  }

  /**
   Every result ever stored was computed at some step of the run, by whom and of the kind it says, with the turnout of
   the roll at that step, and it counts exactly the ballots stored: the valid ones by their contents, and how many there
   are of these and of the others.
   */
  lemma {:induction false} ResultsCountTheBallots(e: Env, config: Config, start: int, end: int, key: nat,
                                                  run: seq<Step>)
    ensures var (m, n) := (Created(config, start, end, key), AfterAll(e, Created(config, start, end, key), run));
      Sourced(e, m, run, n.db, n.db.results) && Sourced(e, m, run, n.db, n.working)
  {
    hide After, Sourced, Endorsed, Signed, AllCertify, AllConfirmed;
    var m := Created(config, start, end, key);
    if run == [] {
      NothingSourced(e, m);
    } else {
      var front := run[..|run| - 1];
      ResultsCountTheBallots(e, config, start, end, key, front);
      RunIsSound(e, config, start, end, key, front);
      StepSourced(e, m, front, run[|run| - 1], AfterAll(e, m, front));
      assert front + [run[|run| - 1]] == run;
    }
  }

  lemma NothingSourced(e: Env, m: Machine)
    requires m.db.results == [] && m.working == []
    ensures Sourced(e, m, [], m.db, m.db.results) && Sourced(e, m, [], m.db, m.working)
  {
  }

  // ---- Certifications ----

  /** The certification states the counts of its result, which is an official one. */
  ghost predicate StatesCounts(s: Stored, c: Certification) {
    && c.result < |s.results| && s.results[c.result].kind == Official
    && var (r, p) := (s.results[c.result], c.payload);
    && p.resultHash == r.hash && p.root == r.root && p.ballots == r.data.stable.ballots
    && p.participated == r.data.stable.turnout.participated && p.eligible == r.data.stable.turnout.eligible
  }

  ghost predicate AllStateCounts(s: Stored) {
    forall i :: 0 <= i < |s.certifications| ==> StatesCounts(s, s.certifications[i])
  }

  lemma StatesLater(s: Stored, t: Stored, c: Certification, later: Certification)
    requires Extends(s, t) && StatesCounts(s, c) && later == c.(revokedAt := later.revokedAt)
    ensures StatesCounts(t, later)
  {
    assert NamesTheSame(s.results[c.result], t.results[c.result]);
  }

  lemma StepStates(e: Env, m: Machine, step: Step)
    requires AllStateCounts(m.db)
    ensures AllStateCounts(After(e, m, step).db)
  {
    hide AfterStored, AfterStore, StatesCounts, MayTally, NewResult, Extends, Final, Settled;
    var (s, t) := (m.db, After(e, m, step).db);
    StepOnward(e, m, step);
    assert Extends(s, t);
    if step.CertifyResult? {
      CertificationOutcome(e, s, step);
      hide Certifiable, CertifiedBy;
      if Certifiable(s, step) {
        CertifiedStates(s, t, step);
      }
      KeptStates(s, t, |s.certifications|);
    } else {
      CertificationsKept(e, m, step);
      KeptStates(s, t, |s.certifications|);
    }
  }

  lemma CertificationsKept(e: Env, m: Machine, step: Step)
    requires !step.CertifyResult?
    ensures |After(e, m, step).db.certifications| == |m.db.certifications|
  {
    hide AfterStored, MayTally, NewResult, Supersede;
    if !step.Compute? && !step.Store? {
      OthersCertifyNothing(e, m.db, step);
    }
  }

  lemma KeptStates(s: Stored, t: Stored, n: nat)
    requires Extends(s, t) && AllStateCounts(s) && n == |s.certifications|
    ensures forall i :: 0 <= i < n ==> StatesCounts(t, t.certifications[i])
  {
    forall i | 0 <= i < n ensures StatesCounts(t, t.certifications[i]) {
      StatesLater(s, t, s.certifications[i], t.certifications[i]);
    }
  }

  lemma CertifiedStates(s: Stored, t: Stored, step: Step)
    requires Certifiable(s, step) && Extends(s, t) && |t.certifications| == |s.certifications| + 1
    requires CertifiedBy(s, step, t.certifications[|s.certifications|])
    ensures StatesCounts(t, t.certifications[|s.certifications|])
  {
    assert NamesTheSame(s.results[step.k], t.results[step.k]);
  }

  lemma {:induction false} RunStates(e: Env, config: Config, start: int, end: int, key: nat, run: seq<Step>)
    ensures AllStateCounts(AfterAll(e, Created(config, start, end, key), run).db)
  {
    hide After, AllStateCounts;
    if run == [] {
      NothingStated(Created(config, start, end, key).db);
    } else {
      RunStates(e, config, start, end, key, run[..|run| - 1]);
      StepStates(e, AfterAll(e, Created(config, start, end, key), run[..|run| - 1]), run[|run| - 1]);
    }
  }

  lemma NothingStated(s: Stored)
    requires s.certifications == []
    ensures AllStateCounts(s)
  {
  }

  /**
   Every certification, in force or revoked, states the number of ballots and the turnout of an official result whose
   winners and votes are the count of exactly the valid ballots stored, and the root of exactly the stored trackers.
   */
  lemma CertificationsCountTheBallots(e: Env, config: Config, start: int, end: int, key: nat, run: seq<Step>, i: nat)
    requires i < |AfterAll(e, Created(config, start, end, key), run).db.certifications|
    ensures var s := AfterAll(e, Created(config, start, end, key), run).db;
      var c := s.certifications[i];
      && StatesCounts(s, c) && CountsBoard(e, s.config, s.board, s.results[c.result].data.stable)
      && Computed(e, Created(config, start, end, key), run, s.results[c.result])
  {
    RunStates(e, config, start, end, key, run);
    ResultsCountTheBallots(e, config, start, end, key, run);
    hide AfterAll, CountsBoard, Computed;
    var s := AfterAll(e, Created(config, start, end, key), run).db;
    assert StatesCounts(s, s.certifications[i]);
  }
}
