/** The published result explains itself: what each round did can be checked against the numbers it shows. */
module RankedExplained {
  import opened Collections
  import opened Sums
  import opened RankedRounds
  import opened RankedCount

  function SeatedBefore(r: Result, i: nat): seq<Id>
    requires i <= |r.rounds|
  {
    if i == 0 then [] else SeatedBefore(r, i - 1) + r.rounds[i - 1].elected
  }

  function GoneBefore(r: Result, i: nat): seq<Id>
    requires i <= |r.rounds|
  {
    if i == 0 then [] else GoneBefore(r, i - 1) + r.rounds[i - 1].eliminated
  }

  /** The quota of valid/(seats + 1) for several seats, more than half of what is not exhausted for one. */
  predicate Wins(r: Result, round: Snapshot, c: Id) {
    && c in round.tallies
    && if r.seats > 1 then round.tallies[c] >= (r.valid as real) / ((r.seats + 1) as real)
       else round.tallies[c] > (r.valid as real - round.exhausted) / 2.0
  }

  predicate Higher(round: Snapshot, lot: Id -> nat, a: Id, b: Id)
    requires a in round.tallies && b in round.tallies
  {
    round.tallies[a] > round.tallies[b] || (round.tallies[a] == round.tallies[b] && lot(a) <= lot(b))
  }

  predicate Lower(r: Result, round: Snapshot, lot: Id -> nat, a: Id, b: Id)
    requires a in round.tallies && b in round.tallies && round.tallies.Keys <= r.firstPrefs.Keys
  {
    || round.tallies[a] < round.tallies[b]
    || (round.tallies[a] == round.tallies[b] && r.firstPrefs[a] < r.firstPrefs[b])
    || (round.tallies[a] == round.tallies[b] && r.firstPrefs[a] == r.firstPrefs[b] && lot(a) <= lot(b))
  }

  ghost function Least(round: Snapshot): set<Id> {
    set c | c in round.tallies && forall d :: d in round.tallies ==> round.tallies[c] <= round.tallies[d]
  }

  ghost predicate SeatsRest(round: Snapshot, lot: Id -> nat) {
    && round.eliminated == [] && round.tied == {} && Listing(round.elected, round.tallies.Keys)
    && forall i, j :: 0 <= i < j < |round.elected| ==>
         round.elected[i] in round.tallies && round.elected[j] in round.tallies
         && Higher(round, lot, round.elected[i], round.elected[j])
  }

  ghost predicate SeatsOne(r: Result, round: Snapshot, lot: Id -> nat) {
    && |round.elected| == 1 && round.eliminated == [] && round.tied == {} && Wins(r, round, round.elected[0])
    && forall c :: c in round.tallies ==> Higher(round, lot, round.elected[0], c)
  }

  ghost predicate DropsOne(r: Result, round: Snapshot, lot: Id -> nat)
    requires round.tallies.Keys <= r.firstPrefs.Keys
  {
    && round.elected == [] && |round.eliminated| == 1 && round.eliminated[0] in round.tallies
    && (forall c :: c in round.tallies ==> Lower(r, round, lot, round.eliminated[0], c))
    && round.tied == if |Least(round)| > 1 then Least(round) else {}
  }

  /**
   A round tallies those neither seated nor gone. If they fit the seats left all are seated, best tally first;
   otherwise the best is seated if anybody reaches the line, and the last is dropped if nobody does.
   */
  ghost predicate Explained(r: Result, cands: set<Id>, lot: Id -> nat, i: nat)
    requires i < |r.rounds|
  {
    var (round, seated, gone) := (r.rounds[i], SeatedBefore(r, i), GoneBefore(r, i));
    && round.tallies.Keys == cands - Elems(seated) - Elems(gone) && round.tallies.Keys <= r.firstPrefs.Keys
    && |seated| < r.seats
    && if |round.tallies.Keys| <= r.seats - |seated| then SeatsRest(round, lot)
       else if exists c :: Wins(r, round, c) then SeatsOne(r, round, lot)
       else DropsOne(r, round, lot)
  }

  lemma {:induction false} BeforeIsTraced(r: Result, p: Poll, trace: seq<State>, i: nat)
    requires Reports(r, p, trace) && i <= |r.rounds|
    ensures trace[i].elected == SeatedBefore(r, i) && trace[i].eliminated == GoneBefore(r, i)
  {
    hide Round, TalliesOf, Exhausted, LowestTied;
    if i > 0 {
      BeforeIsTraced(r, p, trace, i - 1);
      assert Publishes(r.rounds[i - 1], trace[i - 1], trace[i]);
    }
  }

  /** For one seat the line is half of the weight still in play, which nothing has been taken from. */
  lemma InPlayIsRest(p: Poll, s: State)
    requires BeforeRound(p, s) && p.seats <= 1 && s.elected == []
    ensures Active(s) == Valid(p) - Exhausted(s)
  {
    hide Quota, Sum, Sorted, Weighed;
    ActivePlusExhausted(s);
    TimesFacts(Quota(p), 0.0, 0.0);
  }

  lemma WinsIsReached(r: Result, p: Poll, s: State, round: Snapshot, c: Id)
    requires BeforeRound(p, s) && !Over(p, s) && r.seats == p.seats && r.valid == |p.prefs|
    requires round.tallies == TalliesOf(s) && round.exhausted == Exhausted(s)
    ensures Wins(r, round, c) <==> c in s.continuing && Reached(p, s, c)
  {
    hide Sum, Sorted, Weighed, Conserved;
    if p.seats <= 1 {
      InPlayIsRest(p, s);
    }
  }

  lemma AheadIsHigher(p: Poll, s: State, round: Snapshot, a: Id, b: Id)
    requires round.tallies == TalliesOf(s) && a in s.continuing && b in s.continuing && Ahead(p, s, a, b)
    ensures a in round.tallies && b in round.tallies && Higher(round, p.lot, a, b)
  {
    hide Tally;
  }

  lemma OnlySeated(s: State, t: State, round: Snapshot, newly: seq<Id>)
    requires t == s.(elected := s.elected + newly) && Publishes(round, s, t)
    ensures round.elected == newly && round.eliminated == [] && round.tied == {} && round.tallies == TalliesOf(s)
    ensures round.tallies.Keys == s.continuing
  {
    hide Tally, LowestTied;
    assert round.elected == t.elected[|s.elected|..] == newly;
    assert |round.eliminated| == 0;
  }

  lemma FillExplained(p: Poll, s: State, t: State, round: Snapshot, newly: seq<Id>)
    requires Fills(p, s, t, newly) && Publishes(round, s, t)
    ensures SeatsRest(round, p.lot)
  {
    hide Publishes, TalliesOf, Ahead, Higher;
    OnlySeated(s, t, round, newly);
    forall i, j | 0 <= i < j < |newly|
      ensures newly[i] in round.tallies && newly[j] in round.tallies && Higher(round, p.lot, newly[i], newly[j])
    {
      assert newly[i] in Elems(newly) && newly[j] in Elems(newly);
      AheadIsHigher(p, s, round, newly[i], newly[j]);
    }
  }

  lemma SeatExplained(r: Result, p: Poll, s: State, t: State, round: Snapshot)
    requires BeforeRound(p, s) && !Over(p, s) && r.seats == p.seats && r.valid == |p.prefs|
    requires Round(p, s, t) && !MustFill(p, s) && SomeoneReached(p, s) && Publishes(round, s, t)
    ensures SeatsOne(r, round, p.lot) && exists c :: Wins(r, round, c)
  {
    hide Sum, LowestTied, BeforeRound, Transferred;
    var w :| Elects(p, s, t, w);
    assert round.elected == t.elected[|s.elected|..] == [w];
    assert |round.eliminated| == 0;
    WinsIsReached(r, p, s, round, w);
    forall c | c in round.tallies ensures Higher(round, p.lot, w, c) {
      LinesApart(p, s, w, c);
    }
  }

  lemma LinesApart(p: Poll, s: State, w: Id, c: Id)
    requires Reached(p, s, w)
    ensures !Reached(p, s, c) ==> Tally(s, c) < Tally(s, w)
  {
    hide Sum, Quota;
  }

  lemma DropExplained(r: Result, p: Poll, s: State, t: State, round: Snapshot, l: Id)
    requires Eliminates(p, s, t, l) && Publishes(round, s, t) && s.continuing <= p.cands
    requires r.firstPrefs == map c | c in p.cands :: FirstPrefs(p.prefs, c)
    ensures round.tallies.Keys <= r.firstPrefs.Keys && DropsOne(r, round, p.lot)
  {
    hide Tally, FirstPrefs;
    assert round.eliminated == t.eliminated[|s.eliminated|..] == [l];
    assert |round.elected| == 0;
    LeastIsLowest(s, round);
    hide Lowest, Least;
  }

  lemma LeastIsLowest(s: State, round: Snapshot)
    requires round.tallies == TalliesOf(s)
    ensures Least(round) == Lowest(s)
  {
    hide Tally;
    assert round.tallies.Keys == s.continuing && forall c :: c in s.continuing ==> round.tallies[c] == Tally(s, c);
    assert forall c :: c in round.tallies <==> c in s.continuing;
  }

  /** What is published is enough to check every round: who was tallied, who was seated or dropped, and why. */
  lemma RoundsExplainThemselves(selections: seq<Option<seq<Id>>>, candidates: seq<Candidate>, seats: int,
                                lot: Id -> nat,
                                r: Result, trace: seq<State>, i: nat)
    requires Reports(r, PollOf(selections, candidates, seats, lot), trace) && i < |r.rounds|
    ensures Explained(r, Ids(candidates), lot, i)
    ensures r.winners == SeatedBefore(r, |r.rounds|) && r.eliminated == GoneBefore(r, |r.rounds|)
  {
    hide PollOf, Round, Publishes, BeforeRound, Filled, Explained;
    var p := PollOf(selections, candidates, seats, lot);
    PollFields(selections, candidates, seats, lot);
    BeforeIsTraced(r, p, trace, |r.rounds|);
    RoundExplained(r, p, trace, i);
    hide CountTrace;
  }

  lemma RoundExplained(r: Result, p: Poll, trace: seq<State>, i: nat)
    requires IsPoll(p) && Reports(r, p, trace) && i < |r.rounds|
    ensures Explained(r, p.cands, p.lot, i)
  {
    hide Round, Publishes, BeforeRound, Filled, SeatsRest, SeatsOne, DropsOne, Wins, IsPoll;
    BeforeIsTraced(r, p, trace, i);
    TraceInvariant(p, trace, i);
    assert Round(p, trace[i], trace[i + 1]) && Publishes(r.rounds[i], trace[i], trace[i + 1]);
    OneRoundExplained(r, p, trace[i], trace[i + 1], r.rounds[i]);
    StillStanding(p, trace[i], r.rounds[i]);
    hide Reports, CountTrace;
  }

  lemma PollFields(selections: seq<Option<seq<Id>>>, candidates: seq<Candidate>, seats: int, lot: Id -> nat)
    ensures var p := PollOf(selections, candidates, seats, lot); p.cands == Ids(candidates) && p.lot == lot
  {
  }

  lemma StillStanding(p: Poll, s: State, round: Snapshot)
    requires BeforeRound(p, s) && (round.tallies == TalliesOf(s) || exists t :: Publishes(round, s, t))
    ensures round.tallies.Keys == s.continuing == p.cands - Elems(s.elected) - Elems(s.eliminated)
  {
    hide Tally;
  }

  lemma OneRoundExplained(r: Result, p: Poll, s: State, t: State, round: Snapshot)
    requires BeforeRound(p, s) && r.seats == p.seats && r.valid == |p.prefs|
    requires r.firstPrefs == map c | c in p.cands :: FirstPrefs(p.prefs, c)
    requires Round(p, s, t) && Publishes(round, s, t)
    ensures |s.elected| < r.seats && round.tallies.Keys <= r.firstPrefs.Keys
    ensures if |s.continuing| <= r.seats - |s.elected| then SeatsRest(round, p.lot)
            else if exists c :: Wins(r, round, c) then SeatsOne(r, round, p.lot)
            else DropsOne(r, round, p.lot)
  {
    hide TalliesOf, Exhausted, LowestTied, FirstPrefs, Transferred, Ahead, Behind, Reached, SeatsRest, SeatsOne,
      DropsOne,
      Wins;
    StillStanding(p, s, round);
    hide BeforeRound;
    forall c ensures Wins(r, round, c) <==> c in s.continuing && Reached(p, s, c) {
      WinsIsReached(r, p, s, round, c);
    }
    if MustFill(p, s) {
      var newly :| Fills(p, s, t, newly);
      FillExplained(p, s, t, round, newly);
    } else if SomeoneReached(p, s) {
      SeatExplained(r, p, s, t, round);
    } else {
      var l :| Eliminates(p, s, t, l);
      DropExplained(r, p, s, t, round, l);
    }
  }

  // ---- The first tallies ----

  lemma {:induction false} FirstTally(prefs: seq<seq<Id>>, cands: set<Id>, c: Id)
    requires forall i :: 0 <= i < |prefs| ==> prefs[i] != [] && prefs[i][0] in cands
    ensures Sum(Cast(prefs), Backs(cands, c)) == FirstPrefs(prefs, c) as real
  {
    if prefs != [] {
      var n := |prefs| - 1;
      FirstTally(prefs[..n], cands, c);
      assert Cast(prefs)[..n] == Cast(prefs[..n]);
    }
  }

  /** The first round tallies first preferences. */
  lemma FirstRoundIsFirstPrefs(selections: seq<Option<seq<Id>>>, candidates: seq<Candidate>, seats: int, lot: Id -> nat,
                               r: Result, trace: seq<State>, c: Id)
    requires Reports(r, PollOf(selections, candidates, seats, lot), trace) && r.rounds != [] && c in Ids(candidates)
    ensures c in r.rounds[0].tallies && c in r.firstPrefs && r.rounds[0].tallies[c] == r.firstPrefs[c] as real
  {
    hide Round, Exhausted, LowestTied, Sum, FirstPrefs;
    var p := PollOf(selections, candidates, seats, lot);
    assert Publishes(r.rounds[0], trace[0], trace[1]);
    forall i | 0 <= i < |p.prefs| ensures p.prefs[i] != [] && p.prefs[i][0] in p.cands {
      assert p.prefs[i] in p.prefs && p.prefs[i][0] in p.prefs[i];
    }
    FirstTally(p.prefs, p.cands, c);
  }

  // ---- The weights shown ----

  ghost function TotalOf(tallies: map<Id, real>, cs: set<Id>): real
    requires cs <= tallies.Keys
  {
    if cs == {} then 0.0
    else
      var c := PickOne(cs);
      tallies[c] + TotalOf(tallies, cs - {c})
  }

  lemma {:induction false} TotalIsTallySum(s: State, cs: set<Id>)
    requires cs <= s.continuing
    ensures TotalOf(TalliesOf(s), cs) == TallySum(s, cs)
  {
    hide Tally;
    if cs != {} {
      TotalIsTallySum(s, cs - {PickOne(cs)});
    }
  }

  /**
   The tallies shown and the weight shown as exhausted make up all ballots, less a quota for each one seated
   before.
   */
  lemma WeightsAddUp(selections: seq<Option<seq<Id>>>, candidates: seq<Candidate>, seats: int, lot: Id -> nat,
                     r: Result, trace: seq<State>, i: nat)
    requires Reports(r, PollOf(selections, candidates, seats, lot), trace) && i < |r.rounds|
    ensures var round := r.rounds[i];
      TotalOf(round.tallies, round.tallies.Keys) + round.exhausted
      == r.valid as real - Times(|SeatedBefore(r, i)| as real, (r.valid as real) / ((r.seats + 1) as real))
  {
    hide PollOf, Round, Times, Sum, Tally, Exhausted, LowestTied, BeforeRound, TallySum, TotalOf;
    var p := PollOf(selections, candidates, seats, lot);
    BeforeIsTraced(r, p, trace, i);
    WeightConservation(p, trace, i);
    assert Publishes(r.rounds[i], trace[i], trace[i + 1]);
    TotalIsTallySum(trace[i], trace[i].continuing);
    assert r.rounds[i].tallies.Keys == trace[i].continuing;
  }
}
