/**
 One election with everything stored about it: its row and configuration, signed snapshots, ballots, results,
 certifications and approval requests. Each transaction is a function of the stored state, and a method.
 */
module Elections {
  import opened Collections
  import opened ByteStrings
  import opened Ballots
  import opened Merkle
  import opened Bulletin
  import opened Lifecycle

  /** A configuration document, as it is signed. */
  datatype Document = Document(settings: Settings, positions: seq<PositionRow>, uncategorized: seq<(nat, string)>,
                               rules: seq<Rule>, start: int, end: int, roll: seq<string>)

  /** A signature checks only under the key and for the text it was made with. */
  datatype Signature<T> = Signature(key: nat, text: T)

  predicate VerifySignature<T(==)>(text: T, signature: Signature<T>, key: nat) { signature == Signature(key, text) }

  /** Why a snapshot was signed: the configuration was approved, or somebody asked for one. */
  datatype Reason = OnApproval | OnDemand

  datatype Snapshot = Snapshot(version: nat, reason: Reason, config: Document, hash: Digest,
                               signature: Signature<Document>, publicKey: nat)

  /** What a tally computes for the positions: winners and votes, position by position. */
  datatype Counted = Counted(winners: seq<seq<nat>>, votes: seq<seq<nat>>)

  datatype Turnout = Turnout(eligible: nat, participated: nat)

  /** The part of a result that does not change from one computation to the next. */
  datatype Counts = Counts(counted: Counted, turnout: Turnout, ballots: nat, invalid: nat, root: Digest)

  datatype ResultData = ResultData(stable: Counts, generatedAt: int)

  datatype Kind = Official | Recount | Independent

  datatype ResultStatus = PendingReview | ResultApproved | ResultRejected | Superseded | Informational

  datatype Result = Result(kind: Kind, status: ResultStatus, data: ResultData, hash: Digest, root: Digest,
                           talliedBy: Option<User>, reviewedBy: Option<User>)

  datatype Payload = Payload(resultHash: Digest, root: Digest, ballots: nat, participated: nat, eligible: nat,
                             configHash: Option<Digest>, certifiedAt: int)

  datatype Certification = Certification(
    result: nat, payload: Payload, signature: Signature<Payload>, publicKey: nat, talliedBy: Option<User>,
    certifiedBy: User, certifiedAt: int, revokedAt: Option<int>)

  datatype Sensitive = UnfreezeFlag(scope: Scope) | ExtendVoting(newEnd: int) | ReopenVoting(newEnd: int)
                     | DecertifyResult | ReleaseHold

  datatype RequestStatus = Pending | Agreed | Refused | Executed | Failed | Expired | Cancelled

  datatype Request = Request(action: Sensitive, requestedBy: User, status: RequestStatus, decidedBy: Option<User>,
                             expires: int, dual: bool)

  /** `signing` is the key signatures are made with, `retired` are former keys that are still trusted. */
  datatype Stored = Stored(
    event: EventRow, config: Config, roll: seq<string>, snapshots: seq<Snapshot>, board: seq<Vote>,
      results: seq<Result>,
    certifications: seq<Certification>, requests: seq<Request>, signing: nat, retired: seq<nat>)

  /** The foreign code: a byte hash, hashes of encoded documents and results, and the count of the positions. */
  datatype Env = Env(h: seq<Byte> -> Digest, docHash: Document -> Digest, dataHash: Counts -> Digest,
                     count: (Config, seq<Vote>) -> Counted, turnout: seq<string> -> Turnout)

  function NewRow(start: int, end: int): EventRow {
    EventRow(Draft, start, end, false, false, false, false, None, None, false, false, true,
             None, None, None, None, None)
  }

  function Fresh(config: Config, start: int, end: int, key: nat): Stored {
    Stored(NewRow(start, end), config, [], [], [], [], [], [], key, [])
  }

  /** The keys an observer is told to trust. */
  function Trusted(s: Stored): seq<nat> { [s.signing] + s.retired }

  // ---- Configuration snapshots ----

  function Named(cs: seq<Candidate>): seq<(nat, string)> {
    seq(|cs|, i requires 0 <= i < |cs| => (cs[i].id, cs[i].name))
  }

  function DocumentOf(event: EventRow, config: Config, roll: seq<string>): Document {
    Document(config.settings, config.positions, Named(config.uncategorized), config.rules, event.start, event.end, roll)
  }

  function DocumentCore(d: Document): Core {
    Core(d.settings, UnnamedPositions(d.positions),
         seq(|d.uncategorized|, i requires 0 <= i < |d.uncategorized| => d.uncategorized[i].0), d.rules)
  }

  function NewSnapshot(e: Env, s: Stored, event: EventRow, reason: Reason): Snapshot {
    var document := DocumentOf(event, s.config, s.roll);
    var version := if s.snapshots == [] then 1 else s.snapshots[|s.snapshots| - 1].version + 1;
    Snapshot(version, reason, document, e.docHash(document), Signature(s.signing, document), s.signing)
  }

  /** Signing a snapshot on demand, which any stage allows. */
  function AfterSign(e: Env, s: Stored): Stored {
    s.(snapshots := s.snapshots + [NewSnapshot(e, s, s.event, OnDemand)])
  }

  /** The latest of the snapshots that approvals signed. */
  function LastApproved(snapshots: seq<Snapshot>): Option<Snapshot> {
    if snapshots == [] then None
    else if snapshots[|snapshots| - 1].reason == OnApproval then Some(snapshots[|snapshots| - 1])
    else LastApproved(snapshots[..|snapshots| - 1])
  }

  function AfterTransition(e: Env, s: Stored, a: Action, c: Call, x: Extra): Option<Stored> {
    if !Moves(s.event, s.config.settings, a, c) then None
    else
      var moved := Moved(s.event, s.config.settings, a, c);
      Some(s.(event := WithExtra(moved, x),
              snapshots := if a == Approve then s.snapshots + [NewSnapshot(e, s, moved, OnApproval)] else s.snapshots))
  }

  function OrSame(r: Option<Stored>, s: Stored): Stored { if r.Some? then r.value else s }

  function SystemCall(now: int, keyOk: bool, skipGuard: bool): Call {
    Call(0, now, true, false, keyOk, false, skipGuard)
  }

  /** Opening at the start time and closing at the end time; an opening that is refused also skips the closing. */
  function AfterTick(e: Env, s: Stored, now: int, keyOk: bool): Stored {
    var due := s.event.stage == Scheduled && s.event.start <= now;
    var open := AfterTransition(e, s, OpenVoting, SystemCall(now, keyOk, s.event.end <= now), Nothing);
    if due && open.None? then s
    else
      var t := if due then open.value else s;
      if (t.event.stage == Open || t.event.stage == Paused) && t.event.end <= now
      then OrSame(AfterTransition(e, t, Close, SystemCall(now, keyOk, false), Nothing), t)
      else t
  }

  // ---- Edits ----

  /** A new title and period are one form; the other settings and the eligibility rules are edited on their own. */
  datatype Change = NewDetails(settings: Settings, start: int, end: int)
                  | NewSettings(settings: Settings)
                  | NewRules(rules: seq<Rule>)
                  | NewBallot(positions: seq<PositionRow>, uncategorized: seq<Candidate>)
                  | NewCandidates(positions: seq<PositionRow>, uncategorized: seq<Candidate>)
                  | NewName(id: nat, name: string)
                  | NewRoll(roll: seq<string>)

  function ScopeOf(change: Change): Scope {
    match change
    case NewDetails(_, _, _) => ConfigScope
    case NewSettings(_) => ConfigScope
    case NewRules(_) => ConfigScope
    case NewBallot(_, _) => BallotScope
    case NewCandidates(_, _) => CandidatesScope
    case NewName(_, _) => ProfileScope
    case NewRoll(_) => VotersScope
  }

  /**
   A permitted edit of the row `loaded`, after a reset where the policy asks for one. Saving settings writes the
   loaded row back with the new stage, and with it whoever had approved; bad dates are refused after the reset.
   */
  function Changed(s: Stored, change: Change, loaded: EventRow): Stored {
    match change
    case NewDetails(settings, start, end) =>
      if end <= start then s
      else s.(config := s.config.(settings := settings),
              event := loaded.(stage := s.event.stage, start := start, end := end))
    case NewSettings(settings) =>
      s.(config := s.config.(settings := settings), event := loaded.(stage := s.event.stage))
    case NewRules(rules) => s.(config := s.config.(rules := rules))
    case NewBallot(positions, uncategorized) =>
      s.(config := s.config.(positions := positions, uncategorized := uncategorized))
    case NewCandidates(positions, uncategorized) =>
      s.(config := s.config.(positions := positions, uncategorized := uncategorized))
    case NewName(id, name) => s.(config := Renamed(s.config, id, name))
    case NewRoll(roll) => s.(roll := roll)
  }

  function AfterEdit(s: Stored, change: Change): Stored {
    var policy := EditPolicy(s.event, s.config.settings, ScopeOf(change));
    if policy == Denied then s else Changed(s.(event := AfterPolicy(s.event, policy)), change, s.event)
  }

  function Flagged(row: EventRow, scope: Scope, flag: bool): EventRow {
    match scope
    case ConfigScope => row.(configFrozen := flag)
    case BallotScope => row.(ballotFrozen := flag)
    case CandidatesScope => row.(candidatesFrozen := flag)
    case VotersScope => row.(votersFrozen := flag)
    case ProfileScope => row
  }

  // ---- Casting, as far as the board is concerned ----

  /** A ballot is stored only while votes are accepted, by an election with a ballot key, under a new tracker. */
  function AfterCast(s: Stored, vote: Vote, now: int): Stored {
    if Accepting(s.event, now) && s.config.settings.institutional && s.event.keyReady
      && vote.tracker !in Trackers(s.board)
    then s.(board := s.board + [vote]) else s
  }

  // ---- Results ----

  predicate Counting(stage: Stage) { stage in {Tallying, Certified, Published, Archived} }

  /** A secret ballot counts its board; a paid election has no ballots and an empty bulletin. */
  function BoardCounts(e: Env, s: Stored): Counts {
    if s.config.settings.institutional then
      var votes := ByTracker(s.board);
      Counts(e.count(s.config, Opening(votes)), e.turnout(s.roll), |Opening(votes)|, |Failing(votes)|,
             Root(e.h, Listed(s.board)))
    else Counts(e.count(s.config, []), e.turnout(s.roll), 0, 0, Root(e.h, []))
  }

  function NewResult(e: Env, s: Stored, kind: Kind, actor: Option<User>, now: int): Result {
    var data := ResultData(BoardCounts(e, s), now);
    Result(kind, if kind == Official then PendingReview else Informational, data, e.dataHash(data.stable),
           data.stable.root, actor, None)
  }

  /** Whether a tally of this kind may be computed now; `unlocked`: the private key can be obtained. */
  predicate MayTally(s: Stored, kind: Kind, unlocked: bool) {
    && (if kind == Official then s.event.stage == Tallying else Counting(s.event.stage))
    && (s.config.settings.institutional ==> unlocked)
  }

  /** A new official result supersedes the official ones still waiting for review. */
  function Supersede(results: seq<Result>): (r: seq<Result>)
    ensures |r| == |results|
  {
    seq(|results|, i requires 0 <= i < |results| =>
      if results[i].kind == Official && results[i].status == PendingReview
      then results[i].(status := Superseded) else results[i])
  }

  function AfterStore(s: Stored, r: Result): Stored {
    s.(results := (if r.kind == Official then Supersede(s.results) else s.results) + [r])
  }

  function LatestHash(s: Stored): Option<Digest> {
    if s.snapshots == [] then None else Some(s.snapshots[|s.snapshots| - 1].hash)
  }

  function NewPayload(s: Stored, r: Result, now: int): Payload {
    Payload(r.hash, r.root, r.data.stable.ballots, r.data.stable.turnout.participated, r.data.stable.turnout.eligible,
            LatestHash(s), now)
  }

  predicate MayCertify(s: Stored, k: nat, reviewer: User, permitted: bool) {
    && permitted && k < |s.results| && s.results[k].kind == Official && s.results[k].status == PendingReview
    && s.event.stage == Tallying
    && !(s.config.settings.dualApproval && s.results[k].talliedBy == Some(reviewer))
  }

  function NewCertification(s: Stored, k: nat, reviewer: User, now: int): Certification
    requires k < |s.results|
  {
    var payload := NewPayload(s, s.results[k], now);
    Certification(k, payload, Signature(s.signing, payload), s.signing, s.results[k].talliedBy, reviewer, now, None)
  }

  function AfterCertify(s: Stored, k: nat, reviewer: User, now: int, permitted: bool): Stored {
    if !MayCertify(s, k, reviewer, permitted) then s
    else
      s.(results := s.results[k := s.results[k].(status := ResultApproved, reviewedBy := Some(reviewer))],
         certifications := s.certifications + [NewCertification(s, k, reviewer, now)],
         event := WithExtra(s.event.(stage := Certified), CertifiedNow(now)))
  }

  function AfterReject(s: Stored, k: nat, reviewer: User, permitted: bool): Stored {
    if !permitted || k >= |s.results| || s.results[k].status != PendingReview then s
    else s.(results := s.results[k := s.results[k].(status := ResultRejected, reviewedBy := Some(reviewer))])
  }

  /** The certification in force: of those not revoked, the most recent. */
  function Current(cs: seq<Certification>): (r: Option<nat>)
    ensures r.Some? ==> r.value < |cs| && cs[r.value].revokedAt.None?
    ensures r.Some? ==>
      forall i :: 0 <= i < |cs| && cs[i].revokedAt.None? ==> cs[i].certifiedAt <= cs[r.value].certifiedAt
    ensures r.None? ==> forall i :: 0 <= i < |cs| ==> cs[i].revokedAt.Some?
  {
    if cs == [] then None
    else
      var last, before := |cs| - 1, Current(cs[..|cs| - 1]);
      if cs[last].revokedAt.None? && (before.None? || cs[before.value].certifiedAt <= cs[last].certifiedAt)
      then Some(last) else before
  }

  function AfterRevoke(s: Stored, now: int): Option<Stored> {
    var current := Current(s.certifications);
    if current.None? || s.event.stage !in Sources(Decertify) then None
    else
      var i := current.value;
      var k := s.certifications[i].result;
      Some(s.(certifications := s.certifications[i := s.certifications[i].(revokedAt := Some(now))],
              results := if k < |s.results| then s.results[k := s.results[k].(status := Superseded)] else s.results,
              event := s.event.(stage := Tallying)))
  }

  // ---- Sensitive actions under dual control ----

  function Performed(e: Env, s: Stored, action: Sensitive, now: int): Option<Stored> {
    match action
    case UnfreezeFlag(scope) =>
      if scope == ProfileScope then None else Some(s.(event := Flagged(s.event, scope, false)))
    case ExtendVoting(newEnd) =>
      if newEnd <= now || newEnd <= s.event.end || s.event.stage !in {Open, Paused, Scheduled} then None
      else Some(s.(event := s.event.(end := newEnd)))
    case ReopenVoting(newEnd) =>
      if newEnd <= now || exists i :: 0 <= i < |s.results| && s.results[i].status == ResultApproved then None
      else AfterTransition(e, s, Reopen, SystemCall(now, false, false), NewEnd(newEnd))
    case DecertifyResult => AfterRevoke(s, now)
    case ReleaseHold => Some(s.(event := s.event.(legalHold := false)))
  }

  /** Carry out an agreed request; a failure leaves everything but the request as it was. */
  function AfterExecute(e: Env, s: Stored, k: nat, now: int): Stored
    requires k < |s.requests|
  {
    var done := Performed(e, s, s.requests[k].action, now);
    var t := OrSame(done, s);
    t.(requests := s.requests[k := s.requests[k].(status := if done.Some? then Executed else Failed)])
  }

  /** A request waits for a second person where one is required, and is agreed with its maker otherwise. */
  function NewRequest(s: Stored, action: Sensitive, actor: User, now: int): Request {
    var dual := s.config.settings.dualApproval;
    Request(action, actor, if dual then Pending else Agreed, if dual then None else Some(actor), now + 3 * 86400, dual)
  }

  function AfterRequest(e: Env, s: Stored, action: Sensitive, actor: User, now: int, permitted: bool,
                        reasoned: bool): Stored {
    if !permitted || !reasoned || (action.UnfreezeFlag? && LockedStage(s.event.stage)) then s
    else
      var dual := s.config.settings.dualApproval;
      var request := NewRequest(s, action, actor, now);
      var t := s.(requests := s.requests + [request]);
      if dual then t else AfterExecute(e, t, |s.requests|, now)
  }

  function AfterDecide(e: Env, s: Stored, k: nat, approver: User, approve: bool, now: int, permitted: bool): Stored {
    if k >= |s.requests| || s.requests[k].status != Pending then s
    else if s.requests[k].expires <= now then s.(requests := s.requests[k := s.requests[k].(status := Expired)])
    else if !permitted || approver == s.requests[k].requestedBy then s
    else
      var decided := s.requests[k].(decidedBy := Some(approver), status := if approve then Agreed else Refused);
      var t := s.(requests := s.requests[k := decided]);
      if approve then AfterExecute(e, t, k, now) else t
  }

  /** Whoever asked may withdraw a request that is still waiting. */
  function AfterCancel(s: Stored, k: nat, actor: User): Stored {
    if k >= |s.requests| || s.requests[k].status != Pending || s.requests[k].requestedBy != actor then s
    else s.(requests := s.requests[k := s.requests[k].(status := Cancelled)])
  }
}
