/** What a caller of the ranked count can rely on, stated about the published result. */
module RankedTheorems {
  import opened Collections
  import opened Sums
  import opened RankedRounds
  import opened RankedProportionality
  import opened RankedAnonymity
  import opened RankedCount
  import opened RankedAsCast

  /** Exactly the clamped number of distinct candidates wins, none of them eliminated, in at most one round each. */
  lemma ResultFillsSeats(selections: seq<Option<seq<Id>>>, candidates: seq<Candidate>, seats: int, lot: Id -> nat,
                         r: Result, trace: seq<State>)
    requires Reports(r, PollOf(selections, candidates, seats, lot), trace)
    ensures NoDup(r.winners) && Elems(r.winners) <= Ids(candidates)
    ensures |r.winners| == if candidates == [] then 0 else Max(1, Min(seats, |Ids(candidates)|))
    ensures NoDup(r.eliminated) && Elems(r.winners) !! Elems(r.eliminated)
    ensures |r.rounds| <= |Ids(candidates)|
  {
    hide CountTrace, Publishes;
    SeatsFilled(PollOf(selections, candidates, seats, lot), trace);
    if candidates != [] {
      assert candidates[0].id in Ids(candidates);
    }
  }

  /** The numbers published are those of the selections: who took part, and whom each of them prefers. */
  lemma ResultCountsVoters(selections: seq<Option<seq<Id>>>, candidates: seq<Candidate>, seats: int, lot: Id -> nat,
                           r: Result, trace: seq<State>)
    requires Reports(r, PollOf(selections, candidates, seats, lot), trace)
    ensures r.valid == |Participants(selections, Ids(candidates))|
    ensures r.firstPrefs.Keys == Ids(candidates)
    ensures forall c :: c in Ids(candidates) ==>
      r.firstPrefs[c] == |FirstChoosers(selections, Ids(candidates), c)|
  {
    hide CountTrace, Publishes, FirstPrefs, Participants, FirstChoosers;
    ValidAreParticipants(selections, Ids(candidates));
    forall c ensures FirstPrefs(BallotLists(selections, Ids(candidates)), c)
      == |FirstChoosers(selections, Ids(candidates), c)|
    {
      FirstPrefsAreChoosers(selections, Ids(candidates), c);
    }
  }

  lemma QuotaPublished(selections: seq<Option<seq<Id>>>, candidates: seq<Candidate>, seats: int, lot: Id -> nat,
                       r: Result, trace: seq<State>)
    requires Reports(r, PollOf(selections, candidates, seats, lot), trace)
    ensures var p := PollOf(selections, candidates, seats, lot);
      && p.prefs == BallotLists(selections, Ids(candidates)) && |p.prefs| == r.valid
      && Quota(p) == (r.valid as real) / ((r.seats + 1) as real)
      && CountTrace(p, trace) && r.winners == trace[|trace| - 1].elected
  {
    hide CountTrace, Publishes, BallotLists;
  }

  /** More than `k` quotas of voters who put the same group first seat min(k, |group|) of its members. */
  lemma ResultIsProportional(selections: seq<Option<seq<Id>>>, candidates: seq<Candidate>, seats: int, lot: Id -> nat,
                             r: Result, trace: seq<State>, group: set<Id>, k: nat)
    requires Reports(r, PollOf(selections, candidates, seats, lot), trace)
    requires var (backers, voters) := (Backers(selections, Ids(candidates), group),
                                       Participants(selections, Ids(candidates)));
      |backers| as real > Times(k as real, (|voters| as real) / ((r.seats + 1) as real))
    ensures |Elems(r.winners) * group| >= Min(k, |group|)
  {
    hide CountTrace, Publishes, Reports, Times, Backers, Participants, Quota, PollOf, BallotLists, Supporters, IsPoll;
    QuotaPublished(selections, candidates, seats, lot, r, trace);
    if group != {} {
      ValidAreParticipants(selections, Ids(candidates));
      SupportersAreBackers(selections, Ids(candidates), group);
      SolidCoalitionsAreServed(PollOf(selections, candidates, seats, lot), trace, group, k);
    }
  }

  // ---- Anonymity ----

  lemma {:induction false} BallotListsWithout(xs: seq<Option<seq<Id>>>, i: nat, cands: set<Id>)
    requires i < |xs|
    ensures multiset(BallotLists(xs, cands))
         == multiset(BallotLists(xs[..i] + xs[i + 1..], cands)) + multiset(BallotList(xs[i], cands))
  {
    hide BallotList, Usable, BallotLists;
    var last := |xs| - 1;
    BallotListsExtended(xs[..last], xs[last], cands);
    assert xs == xs[..last] + [xs[last]];
    if i == last {
      assert xs[..i] + xs[i + 1..] == xs[..last];
    } else {
      BallotListsWithout(xs[..last], i, cands);
      var rest := xs[..last][..i] + xs[..last][i + 1..];
      BallotListsExtended(rest, xs[last], cands);
      assert xs[..i] + xs[i + 1..] == rest + [xs[last]];
    }
  }

  lemma BallotListsExtended(xs: seq<Option<seq<Id>>>, x: Option<seq<Id>>, cands: set<Id>)
    ensures multiset(BallotLists(xs + [x], cands)) == multiset(BallotLists(xs, cands)) + multiset(BallotList(x, cands))
  {
    hide BallotList, Usable;
    assert (xs + [x])[..|xs|] == xs;
  }

  lemma {:induction false} BallotListsPermuted(xs: seq<Option<seq<Id>>>, ys: seq<Option<seq<Id>>>, cands: set<Id>)
    requires multiset(xs) == multiset(ys)
    ensures multiset(BallotLists(xs, cands)) == multiset(BallotLists(ys, cands))
    decreases |xs|
  {
    if xs == [] {
      assert |multiset(ys)| == 0;
    } else {
      var last := |xs| - 1;
      var i := StrikeLast(xs, ys);
      BallotListsPermuted(xs[..last], ys[..i] + ys[i + 1..], cands);
      BallotListsWithout(ys, i, cands);
      BallotListsWithout(xs, last, cands);
      assert xs[..last] + xs[last + 1..] == xs[..last];
    }
  }

  lemma SameRounds(r: Result, r': Result, p: Poll, q: Poll, ps: seq<State>, qs: seq<State>, i: nat)
    requires Reports(r, p, ps) && Reports(r', q, qs) && |ps| == |qs| && i < |r.rounds|
    requires forall j :: 0 <= j < |ps| ==>
      ps[j].continuing == qs[j].continuing && ps[j].elected == qs[j].elected && ps[j].eliminated == qs[j].eliminated
    requires forall j, c :: 0 <= j < |ps| ==> Tally(ps[j], c) == Tally(qs[j], c)
    requires forall j :: 0 <= j < |ps| ==> Exhausted(ps[j]) == Exhausted(qs[j])
    ensures r.rounds[i] == r'.rounds[i]
  {
    hide CountTrace, Tally, Exhausted;
    var a, b := r.rounds[i], r'.rounds[i];
    assert Publishes(a, ps[i], ps[i + 1]) && Publishes(b, qs[i], qs[i + 1]);
    SameTail(ps[i].elected, a.elected, b.elected);
    SameTail(ps[i].eliminated, a.eliminated, b.eliminated);
    assert Lowest(ps[i]) == Lowest(qs[i]);
  }

  lemma SameTail<T>(s: seq<T>, a: seq<T>, b: seq<T>)
    requires s + a == s + b
    ensures a == b
  {
    assert a == (s + a)[|s|..] && b == (s + b)[|s|..];
  }

  /**
   Whoever runs the count again, with the ballots and the candidates stored in any order and the candidate
   sets walked in any order, publishes the same result down to every tally, given distinct lot keys.
   */
  lemma ResultIsReproducible(selections: seq<Option<seq<Id>>>, candidates: seq<Candidate>, seats: int, lot: Id -> nat,
                             selections': seq<Option<seq<Id>>>, candidates': seq<Candidate>,
                             r: Result, trace: seq<State>, r': Result, trace': seq<State>)
    requires multiset(selections) == multiset(selections') && Ids(candidates) == Ids(candidates')
    requires forall a, b :: a in Ids(candidates) && b in Ids(candidates) && a != b ==> lot(a) != lot(b)
    requires Reports(r, PollOf(selections, candidates, seats, lot), trace)
    requires Reports(r', PollOf(selections', candidates', seats, lot), trace')
    requires r.abstentions == |selections| - r.valid && r'.abstentions == |selections'| - r'.valid
    ensures r == r'
  {
    hide CountTrace, Publishes, Tally, Exhausted, Quota, IsPoll, BallotLists, Ids, FirstPrefs;
    var p, q := PollOf(selections, candidates, seats, lot), PollOf(selections', candidates', seats, lot);
    BallotListsPermuted(selections, selections', Ids(candidates));
    assert |multiset(selections)| == |selections| && |multiset(selections')| == |selections'|;
    CountIsAnonymous(p, q, trace, trace');
    SameQuota(p, q);
    forall c ensures FirstPrefs(p.prefs, c) == FirstPrefs(q.prefs, c) {
      SameFirstPrefs(p, q, c);
    }
    forall i | 0 <= i < |r.rounds| ensures r.rounds[i] == r'.rounds[i] {
      SameRounds(r, r', p, q, trace, trace', i);
    }
  }
}
