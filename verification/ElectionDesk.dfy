/** The operations of an election as they are called, each against the function that says what it does. */
module ElectionDesk {
  import opened Collections
  import opened ByteStrings
  import opened Merkle
  import opened Bulletin
  import opened Lifecycle
  import opened Elections

  class Desk {
    const env: Env
    var event: EventRow
    var config: Config
    var roll: seq<string>
    var snapshots: seq<Snapshot>
    var board: seq<Vote>
    var results: seq<Result>
    var certifications: seq<Certification>
    var requests: seq<Request>
    var signing: nat
    var retired: seq<nat>

    function Stored(): Stored
      reads this
    {
      Elections.Stored.Stored(event, config, roll, snapshots, board, results, certifications, requests, signing,
                              retired)
    }

    constructor (e: Env, c: Config, start: int, end: int, key: nat)
      ensures env == e && Stored() == Fresh(c, start, end, key)
    {
      env, config, signing, retired := e, c, key, [];
      event := NewRow(start, end);
      roll, snapshots, board, results, certifications, requests := [], [], [], [], [], [];
    }

    /** Sign the configuration as it is now; `before` has the same configuration, roll, snapshots and key. */
    method SnapshotConfiguration(reason: Reason, ghost before: Stored)
      requires before == Stored().(event := before.event)
      modifies this`snapshots
      ensures snapshots == old(snapshots) + [NewSnapshot(env, before, event, reason)]
    {
      var document := DocumentOf(event, config, roll);
      var version := if snapshots == [] then 1 else snapshots[|snapshots| - 1].version + 1;
      var signature := Signature(signing, document);
      snapshots := snapshots + [Snapshot(version, reason, document, env.docHash(document), signature, signing)];
    }

    method Transition(a: Action, c: Call, x: Extra) returns (ok: bool)
      modifies this
      ensures ok == AfterTransition(env, old(Stored()), a, c, x).Some?
      ensures Stored() == OrSame(AfterTransition(env, old(Stored()), a, c, x), old(Stored()))
    {
      hide Guard, Moved, KeyAvailable, WithExtra, NewSnapshot;
      if event.stage !in Sources(a) || !c.permitted {
        return false;
      }
      if !c.skipGuard && !Guard(event, config.settings, a, c) {
        return false;
      }
      if a == Schedule && !KeyAvailable(event, config.settings, c) {
        return false;
      }
      event := Moved(event, config.settings, a, c);
      if a == Approve {
        SnapshotConfiguration(OnApproval, old(Stored()));
      }
      event := WithExtra(event, x);
      ok := true;
    }

    method Tick(now: int, keyOk: bool)
      modifies this
      ensures Stored() == AfterTick(env, old(Stored()), now, keyOk)
    {
      hide AfterTransition;
      if event.stage == Scheduled && event.start <= now {
        var open := Transition(OpenVoting, SystemCall(now, keyOk, event.end <= now), Nothing);
        if !open {
          return;
        }
      }
      if (event.stage == Open || event.stage == Paused) && event.end <= now {
        var _ := Transition(Close, SystemCall(now, keyOk, false), Nothing);
      }
    }

    /** Whether the change may be made; an approved election is sent back to draft first. */
    method RequireEditable(scope: Scope) returns (ok: bool)
      modifies this
      ensures ok <==> EditPolicy(old(event), config.settings, scope) != Denied
      ensures Stored() == old(Stored()).(event := AfterPolicy(old(event),
                                                              EditPolicy(old(event), old(config).settings, scope)))
    {
      var policy := EditPolicy(event, config.settings, scope);
      if policy == Denied {
        return false;
      }
      if policy == Resets {
        event := event.(stage := Draft, reviewedBy := None);
      }
      ok := true;
    }

    /** An edit as its form makes it: the row is loaded first, and saving settings saves that row. */
    method Edit(change: Change) returns (ok: bool)
      modifies this
      ensures Stored() == AfterEdit(old(Stored()), change)
    {
      var loaded := event;
      ok := RequireEditable(ScopeOf(change));
      if !ok {
        return;
      }
      match change
      case NewDetails(settings, start, end) =>
        if end <= start {
          return false;
        }
        config := config.(settings := settings);
        event := loaded.(stage := event.stage, start := start, end := end);
      case NewSettings(settings) =>
        config := config.(settings := settings);
        event := loaded.(stage := event.stage);
      case NewRules(rules) => config := config.(rules := rules);
      case NewBallot(positions, uncategorized) =>
        config := config.(positions := positions, uncategorized := uncategorized);
      case NewCandidates(positions, uncategorized) =>
        config := config.(positions := positions, uncategorized := uncategorized);
      case NewName(id, name) => config := Renamed(config, id, name);
      case NewRoll(newRoll) => roll := newRoll;
    }

    method SignSnapshot()
      modifies this
      ensures Stored() == AfterSign(env, old(Stored()))
    {
      SnapshotConfiguration(OnDemand, Stored());
    }

    /** Tally: an official tally starts from the closed election; what is computed is then stored for review. */
    method RunTally(kind: Kind, actor: Option<User>, now: int, unlocked: bool, permitted: bool) returns (ok: bool)
      modifies this
      ensures
        var start := AfterTransition(env, old(Stored()), StartTally, SystemCall(now, false, false), Nothing);
        var s := if permitted && kind == Official then OrSame(start, old(Stored())) else old(Stored());
        && ok == (permitted && MayTally(s, kind, unlocked))
        && Stored() == if ok then AfterStore(s, NewResult(env, s, kind, actor, now)) else s
    {
      hide AfterTransition, Root, Listed, Supersede;
      StartTallyOnlyMoves(Stored(), now);
      ok := false;
      if !permitted {
        return;
      }
      if kind == Official {
        if event.stage == Closed {
          var _ := Transition(StartTally, SystemCall(now, false, false), Nothing);
        }
        if event.stage != Tallying {
          return;
        }
      } else if event.stage !in {Tallying, Certified, Published, Archived} {
        return;
      }
      if config.settings.institutional && !unlocked {
        return;
      }
      var counts;
      if config.settings.institutional {
        var valid, invalid, trackers := Decrypt(board);
        assert |invalid| == |Failing(ByTracker(board))|;
        var root := MerkleRoot(env.h, trackers);
        counts := Counts(env.count(config, valid), env.turnout(roll), |valid|, |invalid|, root);
      } else {
        var root := MerkleRoot(env.h, []);
        counts := Counts(env.count(config, []), env.turnout(roll), 0, 0, root);
      }
      assert counts == BoardCounts(env, Stored());
      var digest := env.dataHash(counts);
      if kind == Official {
        results := Supersede(results);
      }
      var status := if kind == Official then PendingReview else Informational;
      results := results + [Result(kind, status, ResultData(counts, now), digest, counts.root, actor, None)];
      ok := true;
    }

    lemma StartTallyOnlyMoves(s: Stored, now: int)
      ensures AfterTransition(env, s, StartTally, SystemCall(now, false, false), Nothing) ==
        if s.event.stage == Closed then Some(s.(event := s.event.(stage := Tallying))) else None
    {
    }

    method ApproveAndCertify(k: nat, reviewer: User, now: int, permitted: bool) returns (ok: bool)
      requires k < |results|
      modifies this
      ensures ok == MayCertify(old(Stored()), k, reviewer, permitted)
      ensures Stored() == AfterCertify(old(Stored()), k, reviewer, now, permitted)
    {
      hide AfterTransition;
      var result := results[k];
      if !permitted || result.kind != Official || result.status != PendingReview {
        return false;
      }
      if event.stage != Tallying {
        return false;
      }
      if config.settings.dualApproval && result.talliedBy == Some(reviewer) {
        return false;
      }
      var payload := NewPayload(Stored(), result, now);
      results := results[k := result.(status := ResultApproved, reviewedBy := Some(reviewer))];
      var certification :=
        Certification(k, payload, Signature(signing, payload), signing, result.talliedBy, reviewer, now, None);
      certifications := certifications + [certification];
      CertifyOnlyMoves(Stored(), reviewer, now);
      var _ := Transition(Certify, Call(reviewer, now, true, false, false, false, false), CertifiedNow(now));
      ok := true;
    }

    lemma CertifyOnlyMoves(s: Stored, reviewer: User, now: int)
      ensures var call := Call(reviewer, now, true, false, false, false, false);
        AfterTransition(env, s, Certify, call, CertifiedNow(now)) ==
        if s.event.stage == Tallying then Some(s.(event := WithExtra(s.event.(stage := Certified), CertifiedNow(now))))
        else None
    {
    }

    lemma DecertifyOnlyMoves(s: Stored, now: int)
      ensures AfterTransition(env, s, Decertify, SystemCall(now, false, false), Nothing) ==
        if s.event.stage in Sources(Decertify) then Some(s.(event := s.event.(stage := Tallying))) else None
    {
    }

    method RejectResult(k: nat, reviewer: User, permitted: bool) returns (ok: bool)
      requires k < |results|
      modifies this
      ensures Stored() == AfterReject(old(Stored()), k, reviewer, permitted)
    {
      if !permitted || results[k].status != PendingReview {
        return false;
      }
      results := results[k := results[k].(status := ResultRejected, reviewedBy := Some(reviewer))];
      ok := true;
    }

    /** The most recent certification that is not revoked. */
    method CurrentCertification() returns (current: Option<nat>)
      ensures current == Current(certifications)
    {
      current := None;
      for i := 0 to |certifications|
        invariant current == Current(certifications[..i])
      {
        assert certifications[..i + 1][..i] == certifications[..i];
        var c := certifications[i];
        if c.revokedAt.None? && (current.None? || certifications[current.value].certifiedAt <= c.certifiedAt) {
          current := Some(i);
        }
      }
      assert certifications[..|certifications|] == certifications;
    }

    /** All or nothing: if the stage cannot move, the revocation is rolled back. */
    method RevokeCertification(now: int) returns (ok: bool)
      modifies this
      ensures ok == AfterRevoke(old(Stored()), now).Some?
      ensures Stored() == OrSame(AfterRevoke(old(Stored()), now), old(Stored()))
    {
      hide AfterTransition;
      var current := CurrentCertification();
      if current.None? {
        return false;
      }
      var savedCertifications, savedResults := certifications, results;
      var k := certifications[current.value].result;
      certifications := certifications[current.value := certifications[current.value].(revokedAt := Some(now))];
      if k < |results| {
        results := results[k := results[k].(status := Superseded)];
      }
      DecertifyOnlyMoves(Stored(), now);
      ok := Transition(Decertify, SystemCall(now, false, false), Nothing);
      if !ok {
        certifications, results := savedCertifications, savedResults;
      }
    }

    method Perform(action: Sensitive, now: int) returns (ok: bool)
      modifies this
      ensures ok == Performed(env, old(Stored()), action, now).Some?
      ensures Stored() == OrSame(Performed(env, old(Stored()), action, now), old(Stored()))
    {
      hide AfterTransition, AfterRevoke;
      match action
      case UnfreezeFlag(scope) =>
        ok := scope != ProfileScope;
        if ok {
          event := Flagged(event, scope, false);
        }
      case ExtendVoting(newEnd) =>
        ok := newEnd > now && newEnd > event.end && event.stage in {Open, Paused, Scheduled};
        if ok {
          event := event.(end := newEnd);
        }
      case ReopenVoting(newEnd) =>
        if newEnd <= now || exists i :: 0 <= i < |results| && results[i].status == ResultApproved {
          return false;
        }
        ok := Transition(Reopen, SystemCall(now, false, false), NewEnd(newEnd));
      case DecertifyResult => ok := RevokeCertification(now);
      case ReleaseHold =>
        event := event.(legalHold := false);
        ok := true;
    }

    method Execute(k: nat, now: int)
      requires k < |requests|
      modifies this
      ensures Stored() == AfterExecute(env, old(Stored()), k, now)
    {
      hide Performed;
      ghost var before := Stored();
      PerformedKeepsRequests(before, requests[k].action, now);
      var done := Perform(requests[k].action, now);
      requests := requests[k := requests[k].(status := if done then Executed else Failed)];
    }

    lemma PerformedKeepsRequests(s: Stored, action: Sensitive, now: int)
      ensures OrSame(Performed(env, s, action, now), s).requests == s.requests
    {
      hide Moves, Moved, NewSnapshot;
    }

    method RequestApproval(action: Sensitive, actor: User, now: int, permitted: bool, reasoned: bool)
      modifies this
      ensures Stored() == AfterRequest(env, old(Stored()), action, actor, now, permitted, reasoned)
    {
      hide AfterExecute;
      if !permitted || !reasoned || (action.UnfreezeFlag? && LockedStage(event.stage)) {
        return;
      }
      var dual := config.settings.dualApproval;
      requests := requests + [NewRequest(Stored(), action, actor, now)];
      if !dual {
        Execute(|requests| - 1, now);
      }
    }

    method DecideRequest(k: nat, approver: User, approve: bool, now: int, permitted: bool)
      requires k < |requests|
      modifies this
      ensures Stored() == AfterDecide(env, old(Stored()), k, approver, approve, now, permitted)
    {
      hide AfterExecute;
      if requests[k].status != Pending {
        return;
      }
      if requests[k].expires <= now {
        requests := requests[k := requests[k].(status := Expired)];
        return;
      }
      if !permitted || approver == requests[k].requestedBy {
        return;
      }
      var status := if approve then Agreed else Refused;
      requests := requests[k := requests[k].(decidedBy := Some(approver), status := status)];
      if approve {
        Execute(k, now);
      }
    }

    method CancelRequest(k: nat, actor: User) returns (ok: bool)
      requires k < |requests|
      modifies this
      ensures Stored() == AfterCancel(old(Stored()), k, actor)
    {
      ok := requests[k].status == Pending && requests[k].requestedBy == actor;
      if ok {
        requests := requests[k := requests[k].(status := Cancelled)];
      }
    }
  }
}
