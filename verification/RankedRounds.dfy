/**
 The rounds of the ranked count (instant runoff for one seat, single transferable vote for several),
 as a relation between the state before and after a round. A round is nondeterministic only where two
 candidates tie on everything including their lot key; every safety property below holds for each choice.
 */
module RankedRounds {
  import opened Collections
  import opened Sums

  type Id = int

  datatype Ballot = Ballot(prefs: seq<Id>, weight: real)

  /** One count: the candidates, the seats after clamping, the non-empty preference lists, the lot keys. */
  datatype Poll = Poll(cands: set<Id>, seats: nat, prefs: seq<seq<Id>>, lot: Id -> nat)

  datatype State = State(continuing: set<Id>, elected: seq<Id>, eliminated: seq<Id>, ballots: seq<Ballot>)

  function ClampedSeats(seats: int, candidates: nat): nat {
    if candidates == 0 then 0 else Max(1, Min(seats, candidates))
  }

  predicate IsPoll(p: Poll) {
    && p.seats <= |p.cands|
    && (p.cands != {} ==> 1 <= p.seats)
    && forall prefs :: prefs in p.prefs ==> prefs != [] && forall c :: c in prefs ==> c in p.cands
  }

  function Valid(p: Poll): real { |p.prefs| as real }

  /** valid / (seats + 1): the STV quota, and for one seat the majority line of the first round. */
  function Quota(p: Poll): real { Valid(p) / ((p.seats + 1) as real) }

  /** The first preference that is still in play. */
  function Top(prefs: seq<Id>, inPlay: set<Id>): (r: Option<Id>)
    ensures r.Some? ==> r.value in inPlay && r.value in prefs
    ensures r.None? ==> forall c :: c in prefs ==> c !in inPlay
  {
    if prefs == [] then None
    else if prefs[0] in inPlay then Some(prefs[0])
    else Top(prefs[1..], inPlay)
  }

  function Weight(): Ballot -> real { (b: Ballot) => b.weight }

  /** Weight a ballot gives to candidate `c`. */
  function Backs(inPlay: set<Id>, c: Id): Ballot -> real {
    (b: Ballot) => if Top(b.prefs, inPlay) == Some(c) then b.weight else 0.0
  }

  /** Weight a ballot gives to any candidate in play. */
  function Counted(inPlay: set<Id>): Ballot -> real {
    (b: Ballot) => if Top(b.prefs, inPlay).Some? then b.weight else 0.0
  }

  function Spent(inPlay: set<Id>): Ballot -> real {
    (b: Ballot) => if Top(b.prefs, inPlay).None? then b.weight else 0.0
  }

  function Total(bs: seq<Ballot>): real { Sum(bs, Weight()) }
  function Tally(s: State, c: Id): real { Sum(s.ballots, Backs(s.continuing, c)) }
  function Active(s: State): real { Sum(s.ballots, Counted(s.continuing)) }
  function Exhausted(s: State): real { Sum(s.ballots, Spent(s.continuing)) }

  /** Ballots whose first choice is `c`, counted once on the ballots as cast. */
  function FirstPrefs(prefs: seq<seq<Id>>, c: Id): nat {
    if prefs == [] then 0
    else
      var last := prefs[|prefs| - 1];
      FirstPrefs(prefs[..|prefs| - 1], c) + (if last != [] && last[0] == c then 1 else 0)
  }

  predicate Over(p: Poll, s: State) { s.continuing == {} || |s.elected| >= p.seats }

  /** Order of the winners: larger tally first, then smaller lot key. */
  predicate Ahead(p: Poll, s: State, a: Id, b: Id) {
    Tally(s, a) > Tally(s, b) || (Tally(s, a) == Tally(s, b) && p.lot(a) <= p.lot(b))
  }

  predicate Reached(p: Poll, s: State, c: Id) {
    if p.seats > 1 then Tally(s, c) >= Quota(p) else Tally(s, c) > Active(s) / 2.0
  }

  /** Order of elimination: smaller tally, then fewer first preferences, then smaller lot key. */
  predicate Behind(p: Poll, s: State, a: Id, b: Id) {
    var ta, tb := Tally(s, a), Tally(s, b);
    var fa, fb := FirstPrefs(p.prefs, a), FirstPrefs(p.prefs, b);
    ta < tb || (ta == tb && (fa < fb || (fa == fb && p.lot(a) <= p.lot(b))))
  }

  /** Share of its weight a ballot for the winner keeps: the surplus over the tally, nothing at the exact quota. */
  function KeptShare(p: Poll, tally: real): real {
    if tally > Quota(p) && tally != 0.0 then (tally - Quota(p)) / tally else 0.0
  }

  function Reweigh(inPlay: set<Id>, winner: Id, share: real): Ballot -> Ballot {
    (b: Ballot) => if Top(b.prefs, inPlay) == Some(winner) then b.(weight := Times(share, b.weight)) else b
  }

  function Transferred(p: Poll, s: State, winner: Id): seq<Ballot> {
    if p.seats > 1 then Mapped(s.ballots, Reweigh(s.continuing, winner, KeptShare(p, Tally(s, winner))))
    else s.ballots
  }

  ghost predicate Fills(p: Poll, s: State, t: State, newly: seq<Id>) {
    && Listing(newly, s.continuing)
    && (forall i, j :: 0 <= i < j < |newly| ==> Ahead(p, s, newly[i], newly[j]))
    && t == s.(elected := s.elected + newly)
  }

  ghost predicate Elects(p: Poll, s: State, t: State, w: Id) {
    && w in s.continuing && Reached(p, s, w)
    && (forall c :: c in s.continuing && Reached(p, s, c) ==> Ahead(p, s, w, c))
    && t == State(s.continuing - {w}, s.elected + [w], s.eliminated, Transferred(p, s, w))
  }

  ghost predicate Eliminates(p: Poll, s: State, t: State, l: Id) {
    && l in s.continuing
    && (forall c :: c in s.continuing ==> Behind(p, s, l, c))
    && t == State(s.continuing - {l}, s.elected, s.eliminated + [l], s.ballots)
  }

  /** The remaining candidates only just fill the remaining seats. */
  predicate MustFill(p: Poll, s: State) { |s.continuing| <= p.seats - |s.elected| }

  ghost predicate SomeoneReached(p: Poll, s: State) { exists c :: c in s.continuing && Reached(p, s, c) }

  ghost predicate Round(p: Poll, s: State, t: State) {
    && !Over(p, s)
    && if MustFill(p, s) then exists newly :: Fills(p, s, t, newly)
       else if SomeoneReached(p, s) then exists w :: Elects(p, s, t, w)
       else exists l :: Eliminates(p, s, t, l)
  }

  function Cast(prefs: seq<seq<Id>>): seq<Ballot> {
    seq(|prefs|, i requires 0 <= i < |prefs| => Ballot(prefs[i], 1.0))
  }

  function Init(p: Poll): State { State(p.cands, [], [], Cast(p.prefs)) }

  /** `trace` lists the states of a whole count: before each round, and after the last. */
  ghost predicate CountTrace(p: Poll, trace: seq<State>) {
    && |trace| > 0
    && trace[0] == Init(p)
    && Over(p, trace[|trace| - 1])
    && forall i :: 0 <= i < |trace| - 1 ==> Round(p, trace[i], trace[i + 1])
  }

  // ---- What every round keeps ----

  ghost predicate Sorted(p: Poll, s: State) {
    && s.continuing <= p.cands
    && NoDup(s.elected) && NoDup(s.eliminated)
    && Elems(s.elected) !! Elems(s.eliminated)
    && Elems(s.elected) !! s.continuing && Elems(s.eliminated) !! s.continuing
    && Elems(s.elected) + Elems(s.eliminated) + s.continuing == p.cands
    && |s.elected| <= p.seats <= |s.elected| + |s.continuing|
  }

  ghost predicate Weighed(p: Poll, s: State) {
    && |s.ballots| == |p.prefs|
    && (forall i :: 0 <= i < |p.prefs| ==> s.ballots[i].prefs == p.prefs[i])
    && (forall b :: b in s.ballots ==> 0.0 <= b.weight <= 1.0)
    && (p.seats <= 1 ==> forall b :: b in s.ballots ==> b.weight == 1.0)
  }

  /** Every quota of weight is either still on a ballot or has bought a seat. */
  ghost predicate Conserved(p: Poll, s: State) {
    Total(s.ballots) == Valid(p) - Times(|s.elected| as real, Quota(p))
  }

  ghost predicate BeforeRound(p: Poll, s: State) {
    Sorted(p, s) && Weighed(p, s) && (p.seats > 1 || s.elected == [] ==> Conserved(p, s))
  }

  lemma InitHolds(p: Poll)
    requires IsPoll(p)
    ensures BeforeRound(p, Init(p))
  {
    SumConstant(Cast(p.prefs), Weight(), 1.0);
  }

  /** A tally counts the whole weight of some ballots and nothing of the others. */
  lemma TallyBounds(s: State, c: Id)
    requires forall b :: b in s.ballots ==> 0.0 <= b.weight
    ensures 0.0 <= Tally(s, c) <= Active(s) <= Total(s.ballots)
  {
    var zero := (b: Ballot) => 0.0;
    SumConstant(s.ballots, zero, 0.0);
    SumLe(s.ballots, zero, Backs(s.continuing, c));
    SumLe(s.ballots, Backs(s.continuing, c), Counted(s.continuing));
    SumLe(s.ballots, Counted(s.continuing), Weight());
  }

  lemma ActivePlusExhausted(s: State)
    ensures Active(s) + Exhausted(s) == Total(s.ballots)
  {
    SumAdd(s.ballots, Counted(s.continuing), Spent(s.continuing), Weight());
  }

  /** Sum of the tallies over a set of candidates. */
  ghost function TallySum(s: State, cs: set<Id>): real {
    if cs == {} then 0.0
    else
      var c := PickOne(cs);
      Tally(s, c) + TallySum(s, cs - {c})
  }

  function BacksAny(inPlay: set<Id>, cs: set<Id>): Ballot -> real {
    (b: Ballot) => var top := Top(b.prefs, inPlay); if top.Some? && top.value in cs then b.weight else 0.0
  }

  lemma {:induction false} TallySumIs(s: State, cs: set<Id>)
    ensures TallySum(s, cs) == Sum(s.ballots, BacksAny(s.continuing, cs))
  {
    if cs == {} {
      SumConstant(s.ballots, BacksAny(s.continuing, cs), 0.0);
    } else {
      var c := PickOne(cs);
      TallySumIs(s, cs - {c});
      SumAdd(s.ballots, Backs(s.continuing, c), BacksAny(s.continuing, cs - {c}), BacksAny(s.continuing, cs));
    }
  }

  /** The active total is the sum of the tallies of the continuing candidates. */
  lemma ActiveIsTallySum(s: State)
    ensures Active(s) == TallySum(s, s.continuing)
  {
    TallySumIs(s, s.continuing);
    SumEq(s.ballots, Counted(s.continuing), BacksAny(s.continuing, s.continuing));
  }

  lemma QuotaFacts(p: Poll)
    ensures Quota(p) >= 0.0
    ensures Times((p.seats + 1) as real, Quota(p)) == Valid(p)
  {
  }

  lemma KeptShareFacts(p: Poll, tally: real)
    requires tally >= Quota(p)
    ensures 0.0 <= KeptShare(p, tally) <= 1.0
    ensures tally - Times(KeptShare(p, tally), tally) == Quota(p)
  {
    hide Quota;
    QuotaFacts(p);
  }

  /** The surplus transfer, and the exact-quota case, each take exactly one quota off the ballots. */
  lemma TransferTakesQuota(p: Poll, s: State, w: Id)
    requires p.seats > 1 && Tally(s, w) >= Quota(p)
    ensures Total(Transferred(p, s, w)) == Total(s.ballots) - Quota(p)
  {
    hide Quota, KeptShare, Times;
    KeptShareFacts(p, Tally(s, w));
    ReweighTakes(s, w, KeptShare(p, Tally(s, w)));
  }

  lemma ReweighTakes(s: State, w: Id, share: real)
    ensures Total(Mapped(s.ballots, Reweigh(s.continuing, w, share)))
         == Total(s.ballots) - (Tally(s, w) - Times(share, Tally(s, w)))
  {
    hide Times;
    TimesFacts(share, 0.0, 0.0);
    var f := Backs(s.continuing, w);
    var g := Reweigh(s.continuing, w, share);
    var after := (b: Ballot) => g(b).weight;
    var kept := (b: Ballot) => Times(share, f(b));
    var others := (b: Ballot) => Weight()(b) - f(b);
    SumMapped(s.ballots, g, Weight(), after);
    SumScale(s.ballots, f, kept, share);
    SumAdd(s.ballots, f, others, Weight());
    SumAdd(s.ballots, kept, others, after);
  }

  lemma TransferWeighs(p: Poll, s: State, w: Id)
    requires Weighed(p, s) && Reached(p, s, w)
    ensures Weighed(p, s.(ballots := Transferred(p, s, w)))
  {
    hide Quota, KeptShare, Times;
    if p.seats > 1 {
      var share := KeptShare(p, Tally(s, w));
      KeptShareFacts(p, Tally(s, w));
      forall i | 0 <= i < |p.prefs| ensures 0.0 <= Transferred(p, s, w)[i].weight <= 1.0 {
        assert s.ballots[i] in s.ballots;
        ShareOfWeight(share, s.ballots[i].weight);
      }
    }
  }

  lemma ShareOfWeight(share: real, weight: real)
    requires 0.0 <= share <= 1.0 && 0.0 <= weight
    ensures 0.0 <= Times(share, weight) <= weight
  {
    TimesMonotone(weight, share, 1.0);
    TimesMonotone(weight, 0.0, share);
  }

  lemma ElectSorts(p: Poll, s: State, t: State, w: Id)
    requires Sorted(p, s) && w in s.continuing && |s.elected| < p.seats
    requires t.continuing == s.continuing - {w} && t.elected == s.elected + [w] && t.eliminated == s.eliminated
    ensures Sorted(p, t)
  {
    assert w !in Elems(s.elected);
    Appended(s.elected, w);
    Removed(s.continuing, w);
  }

  lemma EliminateSorts(p: Poll, s: State, t: State, l: Id)
    requires Sorted(p, s) && l in s.continuing && !MustFill(p, s)
    requires t.continuing == s.continuing - {l} && t.elected == s.elected && t.eliminated == s.eliminated + [l]
    ensures Sorted(p, t)
  {
    assert l !in Elems(s.eliminated);
    Appended(s.eliminated, l);
    Removed(s.continuing, l);
  }

  lemma ElectKeeps(p: Poll, s: State, t: State, w: Id)
    requires BeforeRound(p, s) && !Over(p, s) && Elects(p, s, t, w)
    ensures BeforeRound(p, t)
  {
    hide Quota, KeptShare, Times, Sum, Sorted, Transferred, Ahead;
    ElectSorts(p, s, t, w);
    TransferWeighs(p, s, w);
    if p.seats > 1 {
      TransferTakesQuota(p, s, w);
      TimesFacts(Quota(p), |s.elected| as real, 1.0);
    }
  }

  lemma EliminateKeeps(p: Poll, s: State, t: State, l: Id)
    requires BeforeRound(p, s) && !MustFill(p, s) && Eliminates(p, s, t, l)
    ensures BeforeRound(p, t)
  {
    hide Quota, Times, Sum, Sorted, Behind;
    EliminateSorts(p, s, t, l);
  }

  /** A round that does not fill the last seats keeps the invariant and retires one candidate. */
  lemma RoundKeeps(p: Poll, s: State, t: State)
    requires IsPoll(p) && BeforeRound(p, s) && Round(p, s, t) && !MustFill(p, s)
    ensures BeforeRound(p, t) && |t.continuing| == |s.continuing| - 1
  {
    hide BeforeRound, Transferred, Ahead, Behind, Reached;
    if SomeoneReached(p, s) {
      var w :| Elects(p, s, t, w);
      ElectKeeps(p, s, t, w);
      Removed(s.continuing, w);
    } else {
      var l :| Eliminates(p, s, t, l);
      EliminateKeeps(p, s, t, l);
      Removed(s.continuing, l);
    }
  }

  /** What the count hands over: the seats are filled by distinct candidates, none of them eliminated. */
  ghost predicate Filled(p: Poll, s: State) {
    && NoDup(s.elected) && NoDup(s.eliminated)
    && Elems(s.elected) <= p.cands && Elems(s.eliminated) <= p.cands
    && Elems(s.elected) !! Elems(s.eliminated)
    && |s.elected| == p.seats
  }

  lemma FilledSeats(p: Poll, s: State, newly: seq<Id>)
    requires Sorted(p, s) && MustFill(p, s) && Listing(newly, s.continuing)
    ensures NoDup(s.elected + newly) && Elems(s.elected + newly) == Elems(s.elected) + s.continuing
    ensures |s.elected + newly| == p.seats
  {
    hide NoDup, Elems;
    ListingSize(newly, s.continuing);
    Joined(s.elected, newly);
  }

  lemma Parts<T>(e: set<T>, l: set<T>, c: set<T>, all: set<T>)
    requires e + l + c == all && l !! e && l !! c
    ensures e + c <= all && l <= all && (e + c) !! l
  {
  }

  lemma FillFills(p: Poll, s: State, t: State, newly: seq<Id>)
    requires Sorted(p, s) && MustFill(p, s) && Fills(p, s, t, newly)
    ensures Filled(p, t)
    ensures Elems(t.elected) == Elems(s.elected) + s.continuing
  {
    hide Ahead, NoDup, Elems;
    FilledSeats(p, s, newly);
    Parts(Elems(s.elected), Elems(s.eliminated), s.continuing, p.cands);
  }

  /** Before every round the invariant holds; the fill branch is always the last round. */
  lemma {:induction false} TraceInvariant(p: Poll, trace: seq<State>, i: nat)
    requires IsPoll(p) && CountTrace(p, trace) && i < |trace|
    ensures BeforeRound(p, trace[i]) || (i == |trace| - 1 && Filled(p, trace[i]))
    ensures BeforeRound(p, trace[i]) ==> i + |trace[i].continuing| == |p.cands|
    ensures i < |trace| - 1 ==> BeforeRound(p, trace[i])
  {
    if i == 0 {
      InitHolds(p);
    } else {
      assert i < |trace| - 1 ==> Round(p, trace[i], trace[i + 1]);
      TraceInvariant(p, trace, i - 1);
      var s, t := trace[i - 1], trace[i];
      assert Round(p, s, t);
      if MustFill(p, s) {
        var newly :| Fills(p, s, t, newly);
        FillFills(p, s, t, newly);
        assert Over(p, t);
        assert t.continuing <= Elems(t.elected) && t.continuing != {};
        assert !BeforeRound(p, t);
      } else {
        RoundKeeps(p, s, t);
      }
    }
  }

  /**
   Weight conservation: before every round the weight left on the ballots is the valid ballots less one
   quota per elected candidate, it is the sum of the tallies plus the exhausted weight, and every ballot
   weighs between nothing and one.
   */
  lemma WeightConservation(p: Poll, trace: seq<State>, i: nat)
    requires IsPoll(p) && CountTrace(p, trace) && i < |trace| - 1
    ensures Total(trace[i].ballots) == Valid(p) - Times(|trace[i].elected| as real, Quota(p))
    ensures Total(trace[i].ballots) == TallySum(trace[i], trace[i].continuing) + Exhausted(trace[i])
    ensures forall b :: b in trace[i].ballots ==> 0.0 <= b.weight <= 1.0
  {
    hide Quota, KeptShare, Times, Sum;
    TraceInvariant(p, trace, i);
    assert Round(p, trace[i], trace[i + 1]);
    ActivePlusExhausted(trace[i]);
    ActiveIsTallySum(trace[i]);
  }

  /** The count takes at most one round per candidate and fills exactly the clamped seats. */
  lemma SeatsFilled(p: Poll, trace: seq<State>)
    requires IsPoll(p) && CountTrace(p, trace)
    ensures |trace| - 1 <= |p.cands|
    ensures Filled(p, trace[|trace| - 1])
  {
    var last := |trace| - 1;
    TraceInvariant(p, trace, last);
    if last > 0 {
      TraceInvariant(p, trace, last - 1);
      assert Round(p, trace[last - 1], trace[last]);
      assert |trace[last - 1].continuing| > 0;
    }
  }
}
