/**
 The ranked count as it is computed: ballots reweighed in place, dictionaries of tallies built by loops,
 candidate sets walked in an arbitrary order. Its rounds are the rounds of RankedRounds.
 */
module RankedCount {
  import opened Collections
  import opened Sums
  import opened RankedRounds

  datatype Candidate = Candidate(id: Id, name: string)

  /** What one round publishes. */
  datatype Snapshot = Snapshot(tallies: map<Id, real>, exhausted: real, elected: seq<Id>, eliminated: seq<Id>,
                               tied: set<Id>)

  datatype Result = Result(seats: nat, valid: nat, abstentions: nat, quota: Option<real>, firstPrefs: map<Id, nat>,
                           rounds: seq<Snapshot>, winners: seq<Id>, eliminated: seq<Id>)

  /** The preferences for known candidates, in order; none of them for an abstention. */
  function Usable(selection: Option<seq<Id>>, cands: set<Id>): seq<Id> {
    match selection
    case None => []
    case Some(marks) => Known(marks, cands)
  }

  function Known(marks: seq<Id>, cands: set<Id>): (r: seq<Id>)
    ensures forall c :: c in r ==> c in cands
  {
    if marks == [] then []
    else if marks[0] in cands then [marks[0]] + Known(marks[1..], cands)
    else Known(marks[1..], cands)
  }

  function BallotLists(selections: seq<Option<seq<Id>>>, cands: set<Id>): (r: seq<seq<Id>>)
    ensures forall prefs :: prefs in r ==> prefs != [] && forall c :: c in prefs ==> c in cands
    ensures |r| <= |selections|
  {
    if selections == [] then []
    else
      BallotLists(selections[..|selections| - 1], cands) + BallotList(selections[|selections| - 1], cands)
  }

  /** No ballot for an abstention, or for a ballot that marks no known candidate. */
  function BallotList(selection: Option<seq<Id>>, cands: set<Id>): seq<seq<Id>> {
    var usable := Usable(selection, cands);
    if usable == [] then [] else [usable]
  }

  function Ids(candidates: seq<Candidate>): set<Id> { set c | c in candidates :: c.id }

  function PollOf(selections: seq<Option<seq<Id>>>, candidates: seq<Candidate>, seats: int, lot: Id -> nat): (p: Poll)
    ensures IsPoll(p)
  {
    var cands := Ids(candidates);
    Poll(cands, ClampedSeats(seats, |cands|), BallotLists(selections, cands), lot)
  }

  // ---- Walking sets in an arbitrary order ----

  ghost predicate TotalPreorder(before: (Id, Id) -> bool) {
    && (forall a, b :: before(a, b) || before(b, a))
    && (forall a, b, c :: before(a, b) && before(b, c) ==> before(a, c))
  }

  method Take<T(==)>(s: set<T>) returns (x: T)
    requires s != {}
    ensures x in s
  {
    x :| x in s;
  }

  method FirstOf(cs: set<Id>, before: (Id, Id) -> bool) returns (first: Id)
    requires cs != {} && TotalPreorder(before)
    ensures first in cs && forall c :: c in cs ==> before(first, c)
  {
    first := Take(cs);
    var rest := cs - {first};
    while rest != {}
      invariant rest <= cs && first in cs
      invariant forall c :: c in cs - rest ==> before(first, c)
    {
      var c := Take(rest);
      if !before(first, c) {
        first := c;
      }
      rest := rest - {c};
    }
  }

  ghost predicate OrderedBy(xs: seq<Id>, before: (Id, Id) -> bool) {
    forall i, j :: 0 <= i < j < |xs| ==> before(xs[i], xs[j])
  }

  method SortBy(cs: set<Id>, before: (Id, Id) -> bool) returns (xs: seq<Id>)
    requires TotalPreorder(before)
    ensures Listing(xs, cs) && OrderedBy(xs, before)
  {
    xs := [];
    var rest := cs;
    while rest != {}
      invariant rest <= cs && Listing(xs, cs - rest) && OrderedBy(xs, before)
      invariant forall i, c :: 0 <= i < |xs| && c in rest ==> before(xs[i], c)
    {
      var x := FirstOf(rest, before);
      assert x !in Elems(xs);
      Appended(xs, x);
      xs := xs + [x];
      rest := rest - {x};
    }
  }

  // ---- One round's arithmetic ----

  ghost function TalliesOf(s: State): map<Id, real> { map c | c in s.continuing :: Tally(s, c) }

  method CurrentTallies(ballots: array<Ballot>, continuing: set<Id>) returns (tallies: map<Id, real>, exhausted: real)
    ensures tallies == map c | c in continuing :: Sum(ballots[..], Backs(continuing, c))
    ensures exhausted == Sum(ballots[..], Spent(continuing))
  {
    tallies := map c | c in continuing :: 0.0;
    exhausted := 0.0;
    for i := 0 to ballots.Length
      invariant tallies.Keys == continuing
      invariant forall c :: c in continuing ==> tallies[c] == Sum(ballots[..i], Backs(continuing, c))
      invariant exhausted == Sum(ballots[..i], Spent(continuing))
    {
      var b := ballots[i];
      var j := 0;
      while j < |b.prefs| && b.prefs[j] !in continuing
        invariant j <= |b.prefs| && Top(b.prefs, continuing) == Top(b.prefs[j..], continuing)
      {
        j := j + 1;
      }
      if j < |b.prefs| {
        tallies := tallies[b.prefs[j] := tallies[b.prefs[j]] + b.weight];
      } else {
        exhausted := exhausted + b.weight;
      }
      assert ballots[..i + 1][..i] == ballots[..i];
    }
    assert ballots[..ballots.Length] == ballots[..];
  }

  method SumValues(tallies: map<Id, real>, ghost s: State) returns (total: real)
    requires tallies == TalliesOf(s)
    ensures total == Active(s)
  {
    total := 0.0;
    var rest := tallies.Keys;
    assert s.continuing - rest == {};
    TallySumIs(s, {});
    while rest != {}
      invariant rest <= s.continuing
      invariant total == Sum(s.ballots, BacksAny(s.continuing, s.continuing - rest))
    {
      var c := Take(rest);
      SumAdd(s.ballots, Backs(s.continuing, c), BacksAny(s.continuing, s.continuing - rest),
             BacksAny(s.continuing, s.continuing - (rest - {c})));
      total := total + tallies[c];
      rest := rest - {c};
    }
    SumEq(s.ballots, Counted(s.continuing), BacksAny(s.continuing, s.continuing - rest));
  }

  method FirstPreferences(prefs: seq<seq<Id>>, cands: set<Id>) returns (first: map<Id, nat>)
    requires forall ps :: ps in prefs ==> ps != [] && ps[0] in cands
    ensures first == map c | c in cands :: FirstPrefs(prefs, c)
  {
    first := map c | c in cands :: 0;
    for i := 0 to |prefs|
      invariant first == map c | c in cands :: FirstPrefs(prefs[..i], c)
    {
      assert prefs[i] in prefs && prefs[..i + 1][..i] == prefs[..i];
      first := first[prefs[i][0] := first[prefs[i][0]] + 1];
    }
    assert prefs[..|prefs|] == prefs;
  }

  /** Multiply in place the weight of every ballot that now counts for the winner. */
  method Reduce(ballots: array<Ballot>, continuing: set<Id>, winner: Id, share: real)
    modifies ballots
    ensures ballots[..] == Mapped(old(ballots[..]), Reweigh(continuing + {winner}, winner, share))
  {
    for i := 0 to ballots.Length
      invariant forall k :: 0 <= k < i ==> ballots[k] == Reweigh(continuing + {winner}, winner, share)(old(ballots[k]))
      invariant forall k :: i <= k < ballots.Length ==> ballots[k] == old(ballots[k])
    {
      if Top(ballots[i].prefs, continuing + {winner}) == Some(winner) {
        ballots[i] := ballots[i].(weight := Times(share, ballots[i].weight));
      }
    }
  }

  // ---- The three kinds of round ----

  function ByTally(tallies: map<Id, real>, lot: Id -> nat): (Id, Id) -> bool {
    (a, b) => var ta, tb := Read(tallies, a), Read(tallies, b); ta > tb || (ta == tb && lot(a) <= lot(b))
  }

  function Read(tallies: map<Id, real>, c: Id): real { if c in tallies then tallies[c] else 0.0 }

  function ByLot(lot: Id -> nat): (Id, Id) -> bool { (a, b) => lot(a) <= lot(b) }

  /** The remaining candidates, best tally first, take the remaining seats. */
  method FillRemaining(ghost p: Poll, ghost s: State, tallies: map<Id, real>, lot: Id -> nat) returns (newly: seq<Id>)
    requires tallies == TalliesOf(s) && lot == p.lot
    ensures Fills(p, s, s.(elected := s.elected + newly), newly)
  {
    newly := SortBy(tallies.Keys, ByTally(tallies, lot));
    forall i, j | 0 <= i < j < |newly| ensures Ahead(p, s, newly[i], newly[j]) {
      assert newly[i] in Elems(newly) && newly[j] in Elems(newly);
    }
  }

  /** Elect the first of those who reached the line and pass on, or use up, the weight behind the seat. */
  method ElectFirst(ghost p: Poll, ghost s: State, ballots: array<Ballot>, tallies: map<Id, real>, reached: set<Id>,
                    quota: Option<real>, lot: Id -> nat) returns (winner: Id)
    requires s.ballots == ballots[..] && tallies == TalliesOf(s) && lot == p.lot
    requires reached != {} && reached == set c | c in s.continuing && Reached(p, s, c)
    requires quota == if p.seats > 1 then Some(Quota(p)) else None
    modifies ballots
    ensures Elects(p, s, State(s.continuing - {winner}, s.elected + [winner], s.eliminated, ballots[..]), winner)
  {
    hide Quota, Times, Sum, Top, Listing;
    var winnersNow := SortBy(reached, ByTally(tallies, lot));
    FirstOfListing(winnersNow, reached, ByTally(tallies, lot));
    winner := winnersNow[0];
    var continuing := tallies.Keys - {winner};
    assert continuing + {winner} == s.continuing;
    forall c | c in s.continuing && Reached(p, s, c) ensures Ahead(p, s, winner, c) {
      assert ByTally(tallies, lot)(winner, c);
    }
    if quota.Some? {
      QuotaFacts(p);
      if tallies[winner] > quota.value {
        Reduce(ballots, continuing, winner, (tallies[winner] - quota.value) / tallies[winner]);
      } else {
        TimesNothing();
        Reduce(ballots, continuing, winner, 0.0);
      }
    }
  }

  lemma TimesNothing()
    ensures forall w :: Times(0.0, w) == 0.0
  {
  }

  lemma FirstOfListing(xs: seq<Id>, cs: set<Id>, before: (Id, Id) -> bool)
    requires Listing(xs, cs) && OrderedBy(xs, before) && cs != {} && TotalPreorder(before)
    ensures xs != [] && xs[0] in cs && forall c :: c in cs ==> before(xs[0], c)
  {
    var any := PickOne(cs);
    assert any in Elems(xs);
    forall c | c in cs ensures before(xs[0], c) {
      assert c in Elems(xs);
      var i :| 0 <= i < |xs| && xs[i] == c;
    }
    assert xs[0] in Elems(xs);
  }

  /** Eliminate the lowest tally; a tie falls to the fewest first preferences, then to the lot. */
  method EliminateLowest(ghost p: Poll, ghost s: State, tallies: map<Id, real>, firstPrefs: map<Id, nat>,
                         lot: Id -> nat)
    returns (loser: Id, tied: set<Id>)
    requires tallies == TalliesOf(s) && lot == p.lot && s.continuing != {} && s.continuing <= p.cands
    requires firstPrefs == map c | c in p.cands :: FirstPrefs(p.prefs, c)
    ensures Eliminates(p, s, State(s.continuing - {loser}, s.elected, s.eliminated + [loser], s.ballots), loser)
    ensures tied == LowestTied(s)
  {
    hide Sum, FirstPrefs, Tally;
    var low := FirstOf(tallies.Keys, LowTally(tallies));
    var lowest := set c | c in tallies.Keys && tallies[c] == tallies[low];
    forall c | c in s.continuing ensures Tally(s, low) <= Tally(s, c) {
      assert LowTally(tallies)(low, c);
    }
    assert low in lowest && lowest == Lowest(s);
    if |lowest| > 1 {
      var fewest := FirstOf(lowest, LowCount(firstPrefs));
      var narrowed := set c | c in lowest && firstPrefs[c] == firstPrefs[fewest];
      assert fewest in narrowed;
      loser := FirstOf(narrowed, ByLot(lot));
      tied := lowest;
      forall c | c in s.continuing ensures Behind(p, s, loser, c) {
        if c in lowest {
          assert LowCount(firstPrefs)(fewest, c);
          assert c in narrowed ==> ByLot(lot)(loser, c);
        }
      }
    } else {
      loser := Take(lowest);
      SingletonHas(lowest, loser);
      tied := {};
      assert forall c :: c in s.continuing && c != loser ==> c !in lowest;
    }
  }

  function LowTally(tallies: map<Id, real>): (Id, Id) -> bool {
    (a, b) => Read(tallies, a) <= Read(tallies, b)
  }

  function LowCount(counts: map<Id, nat>): (Id, Id) -> bool {
    (a, b) => ReadCount(counts, a) <= ReadCount(counts, b)
  }

  function ReadCount(counts: map<Id, nat>, c: Id): nat { if c in counts then counts[c] else 0 }

  lemma SingletonHas<T>(s: set<T>, x: T)
    requires |s| <= 1 && x in s
    ensures s == {x}
  {
    assert |s - {x}| == 0;
  }

  ghost function Lowest(s: State): set<Id> {
    set c | c in s.continuing && forall d :: d in s.continuing ==> Tally(s, c) <= Tally(s, d)
  }

  ghost function LowestTied(s: State): set<Id> { if |Lowest(s)| > 1 then Lowest(s) else {} }

  // ---- The count ----

  /** A published round shows the tallies before it and exactly what it changed. */
  ghost predicate Publishes(snap: Snapshot, s: State, t: State) {
    && snap.tallies == TalliesOf(s) && snap.exhausted == Exhausted(s)
    && t.elected == s.elected + snap.elected
    && t.eliminated == s.eliminated + snap.eliminated
    && snap.tied == (if snap.eliminated != [] then LowestTied(s) else {})
  }

  ghost predicate Reports(r: Result, p: Poll, trace: seq<State>) {
    && CountTrace(p, trace)
    && r.seats == p.seats && r.valid == |p.prefs|
    && r.firstPrefs == (map c | c in p.cands :: FirstPrefs(p.prefs, c))
    && r.quota == (if p.seats > 1 then Some(Quota(p)) else None)
    && r.winners == trace[|trace| - 1].elected
    && r.eliminated == trace[|trace| - 1].eliminated
    && |r.rounds| == |trace| - 1
    && forall i :: 0 <= i < |r.rounds| ==> Publishes(r.rounds[i], trace[i], trace[i + 1])
  }

  /** The rounds so far: everything of `CountTrace` but the end. */
  ghost predicate Underway(p: Poll, trace: seq<State>, rounds: seq<Snapshot>) {
    && |trace| > 0 && trace[0] == Init(p)
    && |rounds| == |trace| - 1
    && forall i :: 0 <= i < |rounds| ==>
         Round(p, trace[i], trace[i + 1]) && Publishes(rounds[i], trace[i], trace[i + 1])
  }

  lemma OneMore(p: Poll, trace: seq<State>, rounds: seq<Snapshot>, t: State, snap: Snapshot)
    requires Underway(p, trace, rounds)
    requires Round(p, trace[|trace| - 1], t) && Publishes(snap, trace[|trace| - 1], t)
    ensures Underway(p, trace + [t], rounds + [snap])
  {
    hide Round, Publishes, Init;
    var ts, rs := trace + [t], rounds + [snap];
    forall i | 0 <= i < |rs| ensures Round(p, ts[i], ts[i + 1]) && Publishes(rs[i], ts[i], ts[i + 1]) {
      if i < |rounds| {
        assert ts[i] == trace[i] && ts[i + 1] == trace[i + 1] && rs[i] == rounds[i];
      }
    }
  }

  method CollectBallots(selections: seq<Option<seq<Id>>>, cands: set<Id>)
      returns (prefs: seq<seq<Id>>, abstentions: nat)
    ensures prefs == BallotLists(selections, cands)
    ensures abstentions == |selections| - |prefs|
  {
    prefs, abstentions := [], 0;
    for i := 0 to |selections|
      invariant prefs == BallotLists(selections[..i], cands) && abstentions == i - |prefs|
    {
      var usable := Usable(selections[i], cands);
      assert selections[..i + 1][..i] == selections[..i];
      if usable == [] {
        abstentions := abstentions + 1;
      } else {
        prefs := prefs + [usable];
      }
    }
    assert selections[..|selections|] == selections;
  }

  /** One pass of the loop: count, then fill, elect or eliminate. */
  method PlayRound(ghost p: Poll, ghost s: State, ballots: array<Ballot>, seats: nat, elected: seq<Id>,
                   firstPrefs: map<Id, nat>, quota: Option<real>, continuing: set<Id>, lot: Id -> nat)
    returns (snap: Snapshot, last: bool)
    requires IsPoll(p) && BeforeRound(p, s) && !Over(p, s)
    requires s.ballots == ballots[..] && s.elected == elected && s.continuing == continuing && p.seats == seats
      && p.lot == lot
    requires firstPrefs == map c | c in p.cands :: FirstPrefs(p.prefs, c)
    requires quota == if p.seats > 1 then Some(Quota(p)) else None
    modifies ballots
    ensures last == MustFill(p, s)
    ensures var t := State(if last then continuing else continuing - Gone(snap), elected + snap.elected,
                           s.eliminated + snap.eliminated, ballots[..]);
            Round(p, s, t) && Publishes(snap, s, t)
  {
    hide Quota, Sum, Times, FirstPrefs, BeforeRound, Ahead, Behind, Transferred;
    var tallies, exhausted := CurrentTallies(ballots, continuing);
    assert tallies == TalliesOf(s);
    assert s.eliminated + [] == s.eliminated && elected + [] == elected;
    last := |continuing| <= seats - |elected|;
    if last {
      var newly := FillRemaining(p, s, tallies, lot);
      snap := Snapshot(tallies, exhausted, newly, [], {});
      assert Fills(p, s, s.(elected := s.elected + newly), newly);
    } else {
      var active := SumValues(tallies, s);
      var reached := set c | c in continuing && (if quota.Some? then tallies[c] >= quota.value
                                                 else tallies[c] > active / 2.0);
      assert reached == set c | c in s.continuing && Reached(p, s, c);
      if reached != {} {
        var winner := ElectFirst(p, s, ballots, tallies, reached, quota, lot);
        snap := Snapshot(tallies, exhausted, [winner], [], {});
        assert Gone(snap) == {winner};
        RoundByElection(p, s, State(continuing - {winner}, elected + [winner], s.eliminated, ballots[..]), winner);
      } else {
        CandidatesInPlay(p, s);
        var loser, tied := EliminateLowest(p, s, tallies, firstPrefs, lot);
        snap := Snapshot(tallies, exhausted, [], [loser], tied);
        assert Gone(snap) == {loser};
        assert forall c :: c in s.continuing ==> c in reached || !Reached(p, s, c);
        RoundByElimination(p, s, State(continuing - {loser}, elected, s.eliminated + [loser], s.ballots), loser);
      }
    }
  }

  lemma RoundByElection(p: Poll, s: State, t: State, w: Id)
    requires !Over(p, s) && !MustFill(p, s) && Elects(p, s, t, w)
    ensures Round(p, s, t)
  {
  }

  lemma RoundByElimination(p: Poll, s: State, t: State, l: Id)
    requires !Over(p, s) && !MustFill(p, s) && !SomeoneReached(p, s) && Eliminates(p, s, t, l)
    ensures Round(p, s, t)
  {
  }

  function Gone(snap: Snapshot): set<Id> { (set c | c in snap.elected) + (set c | c in snap.eliminated) }

  lemma CandidatesInPlay(p: Poll, s: State)
    requires BeforeRound(p, s)
    ensures s.continuing <= p.cands
  {
  }

  /** The loop of rounds over ballots that start with weight one. */
  method PlayRounds(ghost p: Poll, ballots: array<Ballot>, seats: nat, hopeful: set<Id>, firstPrefs: map<Id, nat>,
                    quota: Option<real>, lot: Id -> nat)
    returns (rounds: seq<Snapshot>, elected: seq<Id>, eliminated: seq<Id>, ghost trace: seq<State>)
    requires IsPoll(p) && p.seats == seats && p.lot == lot && p.cands == hopeful && ballots[..] == Cast(p.prefs)
    requires firstPrefs == map c | c in p.cands :: FirstPrefs(p.prefs, c)
    requires quota == if p.seats > 1 then Some(Quota(p)) else None
    modifies ballots
    ensures Underway(p, trace, rounds) && Over(p, trace[|trace| - 1])
    ensures trace[|trace| - 1].elected == elected && trace[|trace| - 1].eliminated == eliminated
  {
    hide Quota, Round, Publishes, BeforeRound, Times, Sum, FirstPrefs, IsPoll, Gone, Cast, Underway;
    var continuing := hopeful;
    elected, eliminated, rounds := [], [], [];
    ghost var s := Init(p);
    trace := [s];
    Start(p);
    while continuing != {} && |elected| < seats
      invariant Underway(p, trace, rounds) && |trace| > 0 && trace[|trace| - 1] == s
      invariant s == State(continuing, elected, eliminated, ballots[..]) && BeforeRound(p, s)
      decreases |continuing|
    {
      var snap, last := PlayRound(p, s, ballots, seats, elected, firstPrefs, quota, continuing, lot);
      elected, eliminated := elected + snap.elected, eliminated + snap.eliminated;
      if !last {
        continuing := continuing - Gone(snap);
      }
      ghost var t := State(continuing, elected, eliminated, ballots[..]);
      OneMore(p, trace, rounds, t, snap);
      rounds, trace := rounds + [snap], trace + [t];
      if last {
        LastRound(p, s, t);
        break;
      }
      RoundKeeps(p, s, t);
      s := t;
    }
  }

  lemma Start(p: Poll)
    requires IsPoll(p)
    ensures Underway(p, [Init(p)], []) && BeforeRound(p, Init(p))
  {
    InitHolds(p);
  }

  /** The whole count. It ends, and what it reports is a count in the sense of RankedRounds. */
  method Ranked(selections: seq<Option<seq<Id>>>, candidates: seq<Candidate>, seats: int, lot: Id -> nat)
    returns (r: Result, ghost trace: seq<State>)
    ensures Reports(r, PollOf(selections, candidates, seats, lot), trace)
    ensures r.abstentions == |selections| - r.valid
  {
    hide Round, Publishes, BeforeRound, Times, Sum, FirstPrefs, Init;
    var hopeful := Ids(candidates);
    var prefs, abstentions := CollectBallots(selections, hopeful);
    ghost var p := PollOf(selections, candidates, seats, lot);
    var first := FirstPreferences(prefs, hopeful);
    var clamped := ClampedSeats(seats, |hopeful|);
    var quota := if clamped > 1 then Some(|prefs| as real / ((clamped + 1) as real)) else None;
    var cast := Cast(prefs);
    var ballots := new Ballot[|cast|](i requires 0 <= i < |cast| => cast[i]);
    assert ballots[..] == cast;
    var rounds, elected, eliminated;
    rounds, elected, eliminated, trace := PlayRounds(p, ballots, clamped, hopeful, first, quota, lot);
    r := Result(clamped, |prefs|, abstentions, quota, first, rounds, elected, eliminated);
  }

  lemma LastRound(p: Poll, s: State, t: State)
    requires IsPoll(p) && BeforeRound(p, s) && Round(p, s, t) && MustFill(p, s)
    ensures Over(p, t)
  {
    var newly :| Fills(p, s, t, newly);
    FillFills(p, s, t, newly);
  }
}
