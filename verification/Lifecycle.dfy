/**
 The stages of an election, the actions that move it between them, and what may be edited in each stage.
 One action is one transaction on the locked election row.
 */
module Lifecycle {
  import opened Collections

  type User = nat

  datatype Stage = Draft | Review | Approved | Scheduled | Open | Paused | Closed | Tallying | Certified | Published
                 | Archived

  datatype Scope = ConfigScope | BallotScope | CandidatesScope | VotersScope | ProfileScope

  datatype Candidate = Candidate(id: nat, name: string, status: string)

  datatype Terms = Terms(name: string, kind: string, least: nat, most: nat, seats: nat, maxScore: nat, abstain: bool,
                         threshold: int, constituency: Option<nat>)

  datatype PositionRow = PositionRow(id: nat, terms: Terms, candidates: seq<Candidate>)

  datatype Rule = Rule(id: nat, kind: string, position: Option<nat>, attribute: string, values: seq<string>,
                       constituency: Option<nat>, active: bool)

  /** `others` stands for the settings no transition looks at. */
  datatype Settings = Settings(title: string, institutional: bool, selfRegistration: bool, dualApproval: bool,
                               others: seq<string>)

  datatype Config = Config(settings: Settings, positions: seq<PositionRow>, uncategorized: seq<Candidate>,
                           rules: seq<Rule>)

  datatype EventRow = EventRow(
    stage: Stage, start: int, end: int,
    configFrozen: bool, ballotFrozen: bool, candidatesFrozen: bool, votersFrozen: bool,
    submittedBy: Option<User>, reviewedBy: Option<User>, keyReady: bool, legalHold: bool, active: bool,
    openedAt: Option<int>, closedAt: Option<int>, certifiedAt: Option<int>, publishedAt: Option<int>,
    archivedAt: Option<int>)

  datatype Action = Submit | Withdraw | Approve | SendBack | Schedule | Unschedule | OpenVoting | Pause | Resume | Close
                  | StartTally | Certify | Publish | Archive | Decertify | Reopen

  function Sources(a: Action): set<Stage> {
    match a
    case Submit => {Draft}
    case Withdraw => {Review}
    case Approve => {Review}
    case SendBack => {Review}
    case Schedule => {Approved}
    case Unschedule => {Scheduled}
    case OpenVoting => {Scheduled}
    case Pause => {Open}
    case Resume => {Paused}
    case Close => {Open, Paused}
    case StartTally => {Closed}
    case Certify => {Tallying}
    case Publish => {Certified}
    case Archive => {Published, Closed, Draft}
    case Decertify => {Certified, Published}
    case Reopen => {Closed}
  }

  function Target(a: Action): Stage {
    match a
    case Submit => Review
    case Withdraw => Draft
    case Approve => Approved
    case SendBack => Draft
    case Schedule => Scheduled
    case Unschedule => Approved
    case OpenVoting => Open
    case Pause => Paused
    case Resume => Open
    case Close => Closed
    case StartTally => Tallying
    case Certify => Certified
    case Publish => Published
    case Archive => Archived
    case Decertify => Tallying
    case Reopen => Open
  }

  /** What a transition finds outside the election row. `keyOk`: a missing ballot key can be generated. */
  datatype Call = Call(actor: User, now: int, permitted: bool, problems: bool, keyOk: bool, disputes: bool,
                       skipGuard: bool)

  /** What a caller changes on the row in the same transaction. */
  datatype Extra = Nothing | NewEnd(end: int) | CertifiedNow(at: int)

  predicate KeyAvailable(row: EventRow, settings: Settings, c: Call) {
    settings.institutional ==> row.keyReady || c.keyOk
  }

  predicate Guard(row: EventRow, settings: Settings, a: Action, c: Call) {
    match a
    case Submit => !c.problems
    case Approve => !(settings.dualApproval && row.submittedBy == Some(c.actor))
    case Schedule => !c.problems && c.now < row.end
    case OpenVoting => c.now < row.end && KeyAvailable(row, settings, c)
    case Resume => c.now < row.end
    case Archive => !row.legalHold && !c.disputes
    case _ => true
  }

  predicate Moves(row: EventRow, settings: Settings, a: Action, c: Call) {
    && row.stage in Sources(a) && c.permitted
    && (c.skipGuard || Guard(row, settings, a, c))
    && (a == Schedule ==> KeyAvailable(row, settings, c))
  }

  /** What was frozen is. */
  predicate StillFrozen(row: EventRow, later: EventRow) {
    && (row.configFrozen ==> later.configFrozen) && (row.ballotFrozen ==> later.ballotFrozen)
    && (row.candidatesFrozen ==> later.candidatesFrozen) && (row.votersFrozen ==> later.votersFrozen)
  }

  function Opened(row: EventRow, settings: Settings, now: int): (r: EventRow)
    ensures r.stage == Open && r.reviewedBy == row.reviewedBy && r.submittedBy == row.submittedBy
      && r.keyReady == row.keyReady
    ensures r.end == row.end && r.start <= now && r.legalHold == row.legalHold && StillFrozen(row, r)
  {
    var live := row.(stage := Open, start := Min(row.start, now),
                       openedAt := if row.openedAt.Some? then row.openedAt else Some(now));
    if settings.institutional then
      live.(configFrozen := true, ballotFrozen := true, candidatesFrozen := true,
              votersFrozen := row.votersFrozen || !settings.selfRegistration)
    else live
  }

  /** The row after an action; snapshots taken on approval are kept beside it. */
  function Moved(row: EventRow, settings: Settings, a: Action, c: Call): (r: EventRow)
    ensures r.stage == Target(a)
    ensures r.reviewedBy == if a == Approve then Some(c.actor) else row.reviewedBy
    ensures r.submittedBy == if a == Submit then Some(c.actor) else if a == Withdraw then None else row.submittedBy
    ensures row.keyReady || (a == Schedule && settings.institutional) ==> r.keyReady
    ensures r.end == (if a == Close then Min(row.end, c.now) else row.end) && r.legalHold == row.legalHold
    ensures StillFrozen(row, r) && (a != OpenVoting && a != Close && a != Reopen ==> StillFrozen(r, row))
  {
    match a
    case Submit => row.(stage := Review, submittedBy := Some(c.actor))
    case Withdraw => row.(stage := Draft, submittedBy := None)
    case Approve => row.(stage := Approved, reviewedBy := Some(c.actor))
    case Schedule => row.(stage := Scheduled, keyReady := row.keyReady || settings.institutional)
    case OpenVoting =>
      Opened(row.(keyReady := row.keyReady || (settings.institutional && !c.skipGuard)), settings, c.now)
    case Close => row.(stage := Closed, closedAt := Some(c.now), end := Min(row.end, c.now),
                       configFrozen := true, ballotFrozen := true, candidatesFrozen := true, votersFrozen := true)
    case Publish => row.(stage := Published, publishedAt := Some(c.now))
    case Archive => row.(stage := Archived, archivedAt := Some(c.now), active := false)
    case Reopen => Opened(row, settings, c.now)
    case _ => row.(stage := Target(a))
  }

  function WithExtra(row: EventRow, x: Extra): (r: EventRow)
    ensures r.stage == row.stage && r.reviewedBy == row.reviewedBy && r.submittedBy == row.submittedBy
      && r.keyReady == row.keyReady
  {
    match x
    case Nothing => row
    case NewEnd(end) => row.(end := end, closedAt := None)
    case CertifiedNow(at) => row.(certifiedAt := Some(at))
  }

  predicate Accepting(row: EventRow, now: int) { row.stage == Open && row.start <= now < row.end }

  // ---- Editing ----

  datatype Policy = Denied | Allowed | Resets

  predicate LockedStage(stage: Stage) { stage in {Closed, Tallying, Certified, Published, Archived} }

  predicate Frozen(row: EventRow, scope: Scope) {
    match scope
    case ConfigScope => row.configFrozen
    case BallotScope => row.ballotFrozen
    case CandidatesScope => row.candidatesFrozen
    case VotersScope => row.votersFrozen
    case ProfileScope => row.candidatesFrozen
  }

  function EditPolicy(row: EventRow, settings: Settings, scope: Scope): Policy {
    if LockedStage(row.stage) || row.stage == Review || Frozen(row, scope) then Denied
    else if row.stage == Draft || scope == VotersScope || scope == ProfileScope then Allowed
    else if row.stage == Approved || row.stage == Scheduled then Resets
    else if !settings.institutional && (scope == CandidatesScope || scope == BallotScope) then Allowed
    else Denied
  }

  /** An edit that resets sends the election back to draft before it is applied. */
  function AfterPolicy(row: EventRow, policy: Policy): EventRow {
    if policy == Resets then row.(stage := Draft, reviewedBy := None) else row
  }

  // ---- The part of the configuration that approval is about ----

  /** Everything but candidate names and, for candidates without a position, their status. */
  datatype Core = Core(settings: Settings, positions: seq<PositionRow>, uncategorized: seq<nat>, rules: seq<Rule>)

  function Unnamed(cs: seq<Candidate>): (r: seq<Candidate>)
    ensures |r| == |cs|
  {
    seq(|cs|, i requires 0 <= i < |cs| => cs[i].(name := ""))
  }

  function Ids(cs: seq<Candidate>): seq<nat> { seq(|cs|, i requires 0 <= i < |cs| => cs[i].id) }

  function UnnamedPositions(ps: seq<PositionRow>): (r: seq<PositionRow>)
    ensures |r| == |ps|
  {
    seq(|ps|, i requires 0 <= i < |ps| => ps[i].(candidates := Unnamed(ps[i].candidates)))
  }

  function CoreOf(c: Config): Core { Core(c.settings, UnnamedPositions(c.positions), Ids(c.uncategorized), c.rules) }

  function RenamedAll(cs: seq<Candidate>, id: nat, name: string): (r: seq<Candidate>)
    ensures |r| == |cs|
  {
    seq(|cs|, i requires 0 <= i < |cs| => if cs[i].id == id then cs[i].(name := name) else cs[i])
  }

  function Renamed(c: Config, id: nat, name: string): Config {
    c.(positions := seq(|c.positions|, i requires 0 <= i < |c.positions| =>
                          c.positions[i].(candidates := RenamedAll(c.positions[i].candidates, id, name))),
       uncategorized := RenamedAll(c.uncategorized, id, name))
  }

  lemma RenamingKeepsCore(c: Config, id: nat, name: string)
    ensures CoreOf(Renamed(c, id, name)) == CoreOf(c) && Renamed(c, id, name).settings == c.settings
  {
    var d := Renamed(c, id, name);
    assert Ids(d.uncategorized) == Ids(c.uncategorized);
    forall i | 0 <= i < |c.positions| ensures UnnamedPositions(d.positions)[i] == UnnamedPositions(c.positions)[i] {
      assert Unnamed(d.positions[i].candidates) == Unnamed(c.positions[i].candidates);
    }
    assert UnnamedPositions(d.positions) == UnnamedPositions(c.positions);
  }
}
