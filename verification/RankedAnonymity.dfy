/**
 Anonymity and determinism of the ranked count. When lot keys are distinct, the order in which ballots are
 stored and the order in which candidate sets are walked leave the outcome of every round unchanged.
 */
module RankedAnonymity {
  import opened Collections
  import opened Sums
  import opened RankedRounds

  predicate DistinctLots(p: Poll) {
    forall a, b :: a in p.cands && b in p.cands && a != b ==> p.lot(a) != p.lot(b)
  }

  /** The same election with its ballots in another order. */
  ghost predicate SameElection(p: Poll, q: Poll) {
    && p.cands == q.cands && p.seats == q.seats && p.lot == q.lot
    && multiset(p.prefs) == multiset(q.prefs)
  }

  ghost predicate Alike(s: State, t: State) {
    && s.continuing == t.continuing && s.elected == t.elected && s.eliminated == t.eliminated
    && multiset(s.ballots) == multiset(t.ballots)
  }

  function FirstMark(c: Id): seq<Id> -> real {
    (prefs: seq<Id>) => if prefs != [] && prefs[0] == c then 1.0 else 0.0
  }

  lemma {:induction false} FirstPrefsIsSum(prefs: seq<seq<Id>>, c: Id)
    ensures FirstPrefs(prefs, c) as real == Sum(prefs, FirstMark(c))
  {
    if prefs != [] {
      FirstPrefsIsSum(prefs[..|prefs| - 1], c);
    }
  }

  lemma SameFirstPrefs(p: Poll, q: Poll, c: Id)
    requires SameElection(p, q)
    ensures FirstPrefs(p.prefs, c) == FirstPrefs(q.prefs, c)
  {
    FirstPrefsIsSum(p.prefs, c);
    FirstPrefsIsSum(q.prefs, c);
    SumPermuted(p.prefs, q.prefs, FirstMark(c));
  }

  lemma SameQuota(p: Poll, q: Poll)
    requires SameElection(p, q)
    ensures |p.prefs| == |q.prefs| && Valid(p) == Valid(q) && Quota(p) == Quota(q)
  {
    assert |multiset(p.prefs)| == |p.prefs| && |multiset(q.prefs)| == |q.prefs|;
  }

  lemma SameTally(s: State, t: State, c: Id)
    requires Alike(s, t)
    ensures Tally(s, c) == Tally(t, c)
  {
    SumPermuted(s.ballots, t.ballots, Backs(s.continuing, c));
  }

  lemma SameExhausted(s: State, t: State)
    requires Alike(s, t)
    ensures Exhausted(s) == Exhausted(t)
  {
    SumPermuted(s.ballots, t.ballots, Spent(s.continuing));
  }

  lemma SameReached(p: Poll, q: Poll, s: State, t: State, c: Id)
    requires SameElection(p, q) && Alike(s, t)
    ensures Reached(p, s, c) == Reached(q, t, c)
  {
    hide Quota;
    SameQuota(p, q);
    SameTally(s, t, c);
    SumPermuted(s.ballots, t.ballots, Counted(s.continuing));
  }

  lemma SameTransfer(p: Poll, q: Poll, s: State, t: State, w: Id)
    requires SameElection(p, q) && Alike(s, t)
    ensures multiset(Transferred(p, s, w)) == multiset(Transferred(q, t, w))
  {
    hide Quota, Times;
    SameQuota(p, q);
    SameTally(s, t, w);
    if p.seats > 1 {
      MappedPermuted(s.ballots, t.ballots, Reweigh(s.continuing, w, KeptShare(p, Tally(s, w))));
    }
  }

  lemma SameWinner(p: Poll, q: Poll, s: State, t: State, s': State, t': State, v: Id, w: Id)
    requires SameElection(p, q) && DistinctLots(p) && s.continuing <= p.cands && Alike(s, t)
    requires Elects(p, s, s', v) && Elects(q, t, t', w)
    ensures Alike(s', t')
  {
    hide Quota, Transferred, Tally, Reached, SameElection;
    SameReached(p, q, s, t, v);
    SameReached(p, q, s, t, w);
    SameTally(s, t, v);
    SameTally(s, t, w);
    assert p.lot == q.lot by { SameLots(p, q); }
    assert v == w;
    SameTransfer(p, q, s, t, w);
  }

  lemma SameLots(p: Poll, q: Poll)
    requires SameElection(p, q)
    ensures p.lot == q.lot && p.seats == q.seats && p.cands == q.cands
  {
  }

  lemma SameLoser(p: Poll, q: Poll, s: State, t: State, s': State, t': State, k: Id, l: Id)
    requires SameElection(p, q) && DistinctLots(p) && s.continuing <= p.cands && Alike(s, t)
    requires Eliminates(p, s, s', k) && Eliminates(q, t, t', l)
    ensures Alike(s', t')
  {
    hide Tally, FirstPrefs, SameElection;
    SameLots(p, q);
    SameTally(s, t, k);
    SameTally(s, t, l);
    SameFirstPrefs(p, q, k);
    SameFirstPrefs(p, q, l);
    assert k == l;
  }

  ghost predicate InOrder(p: Poll, s: State, xs: seq<Id>) {
    forall i, j :: 0 <= i < j < |xs| ==> Ahead(p, s, xs[i], xs[j])
  }

  /** Under distinct lot keys the candidates can be put in order in one way only. */
  lemma {:induction false} OneOrder(p: Poll, s: State, xs: seq<Id>, ys: seq<Id>, cs: set<Id>)
    requires DistinctLots(p) && cs <= p.cands
    requires Listing(xs, cs) && InOrder(p, s, xs) && Listing(ys, cs) && InOrder(p, s, ys)
    ensures xs == ys
    decreases |xs|
  {
    hide Tally;
    ListingSize(xs, cs);
    ListingSize(ys, cs);
    if xs != [] {
      assert xs[0] in cs && ys[0] in cs;
      var i :| 0 <= i < |ys| && ys[i] == xs[0];
      var j :| 0 <= j < |xs| && xs[j] == ys[0];
      assert xs[0] == ys[0];
      TailLists(xs, cs);
      TailLists(ys, cs);
      OneOrder(p, s, xs[1..], ys[1..], cs - {xs[0]});
    }
  }

  lemma TailLists(xs: seq<Id>, cs: set<Id>)
    requires xs != [] && Listing(xs, cs)
    ensures Listing(xs[1..], cs - {xs[0]})
  {
    forall x ensures x in Elems(xs[1..]) <==> x in cs - {xs[0]} {
      assert x in Elems(xs) <==> x in cs;
    }
  }

  lemma SameFill(p: Poll, q: Poll, s: State, t: State, s': State, t': State, xs: seq<Id>, ys: seq<Id>)
    requires SameElection(p, q) && DistinctLots(p) && s.continuing <= p.cands && Alike(s, t)
    requires Fills(p, s, s', xs) && Fills(q, t, t', ys)
    ensures Alike(s', t')
  {
    hide Tally, SameElection;
    SameLots(p, q);
    forall i, j | 0 <= i < j < |ys| ensures Ahead(p, s, ys[i], ys[j]) {
      SameTally(s, t, ys[i]);
      SameTally(s, t, ys[j]);
    }
    OneOrder(p, s, xs, ys, s.continuing);
  }

  lemma SameRound(p: Poll, q: Poll, s: State, t: State, s': State, t': State)
    requires SameElection(p, q) && DistinctLots(p) && s.continuing <= p.cands && Alike(s, t)
    requires Round(p, s, s') && Round(q, t, t')
    ensures Alike(s', t')
  {
    hide Fills, Elects, Eliminates, Reached, SameElection;
    SameLots(p, q);
    forall c ensures Reached(p, s, c) == Reached(q, t, c) {
      SameReached(p, q, s, t, c);
    }
    if MustFill(p, s) {
      var xs :| Fills(p, s, s', xs);
      var ys :| Fills(q, t, t', ys);
      SameFill(p, q, s, t, s', t', xs, ys);
    } else if SomeoneReached(p, s) {
      var v :| Elects(p, s, s', v);
      var w :| Elects(q, t, t', w);
      SameWinner(p, q, s, t, s', t', v, w);
    } else {
      var k :| Eliminates(p, s, s', k);
      var l :| Eliminates(q, t, t', l);
      SameLoser(p, q, s, t, s', t', k, l);
    }
  }

  lemma {:induction false} SameCast(p: seq<seq<Id>>, q: seq<seq<Id>>)
    requires multiset(p) == multiset(q)
    ensures multiset(Cast(p)) == multiset(Cast(q))
  {
    var g := (prefs: seq<Id>) => Ballot(prefs, 1.0);
    MappedPermuted(p, q, g);
    assert Mapped(p, g) == Cast(p) && Mapped(q, g) == Cast(q);
  }

  lemma {:induction false} SamePrefix(p: Poll, q: Poll, ps: seq<State>, qs: seq<State>, i: nat)
    requires IsPoll(p) && IsPoll(q) && SameElection(p, q) && DistinctLots(p)
    requires CountTrace(p, ps) && CountTrace(q, qs) && i < |ps|
    ensures i < |qs| && Alike(ps[i], qs[i])
  {
    hide Round, SameElection;
    SameLots(p, q);
    if i == 0 {
      SameInit(p, q);
    } else {
      SamePrefix(p, q, ps, qs, i - 1);
      assert Round(p, ps[i - 1], ps[i]);
      NotOver(p, ps[i - 1], ps[i]);
      assert Round(q, qs[i - 1], qs[i]);
      ContinuingAreCandidates(p, ps, i - 1);
      SameRound(p, q, ps[i - 1], qs[i - 1], ps[i], qs[i]);
    }
  }

  lemma SameInit(p: Poll, q: Poll)
    requires SameElection(p, q)
    ensures Alike(Init(p), Init(q))
  {
    SameCast(p.prefs, q.prefs);
  }

  lemma NotOver(p: Poll, s: State, t: State)
    requires Round(p, s, t)
    ensures !Over(p, s)
  {
  }

  lemma ContinuingAreCandidates(p: Poll, trace: seq<State>, i: nat)
    requires IsPoll(p) && CountTrace(p, trace) && i < |trace| - 1
    ensures trace[i].continuing <= p.cands
  {
    TraceInvariant(p, trace, i);
  }

  /**
   Two counts of the same ballots in any two orders, walking the candidate sets in any two orders, take the
   same number of rounds, agree on every tally of every round, and elect and eliminate the same candidates
   in the same order.
   */
  lemma CountIsAnonymous(p: Poll, q: Poll, ps: seq<State>, qs: seq<State>)
    requires IsPoll(p) && IsPoll(q) && SameElection(p, q) && DistinctLots(p)
    requires CountTrace(p, ps) && CountTrace(q, qs)
    ensures |ps| == |qs|
    ensures forall i :: 0 <= i < |ps| ==>
      ps[i].continuing == qs[i].continuing && ps[i].elected == qs[i].elected && ps[i].eliminated == qs[i].eliminated
    ensures forall i, c :: 0 <= i < |ps| ==> Tally(ps[i], c) == Tally(qs[i], c)
    ensures forall i :: 0 <= i < |ps| ==> Exhausted(ps[i]) == Exhausted(qs[i])
  {
    hide Tally, Exhausted, CountTrace;
    SameLots(p, q);
    assert SameElection(q, p) && DistinctLots(q);
    forall i | 0 <= i < |ps| ensures i < |qs| && Alike(ps[i], qs[i]) {
      SamePrefix(p, q, ps, qs, i);
    }
    TracesNonempty(p, ps);
    TracesNonempty(q, qs);
    SamePrefix(p, q, ps, qs, |ps| - 1);
    SamePrefix(q, p, qs, ps, |qs| - 1);
    forall i, c | 0 <= i < |ps| ensures Tally(ps[i], c) == Tally(qs[i], c) {
      SameTally(ps[i], qs[i], c);
    }
    forall i | 0 <= i < |ps| ensures Exhausted(ps[i]) == Exhausted(qs[i]) {
      SameExhausted(ps[i], qs[i]);
    }
  }

  lemma TracesNonempty(p: Poll, trace: seq<State>)
    requires CountTrace(p, trace)
    ensures |trace| > 0
  {
  }
}
