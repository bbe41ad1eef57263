/**
 Proportionality for solid coalitions. Voters who put the same set of candidates first, in whatever order
 among themselves, win as many seats as they hold full quotas of the vote (as far as the set is that large).
 With one seat this is the mutual-majority criterion of instant runoff.
 */
module RankedProportionality {
  import opened Collections
  import opened Sums
  import opened RankedRounds

  /** The first preferences of the ballot, down to some place, are exactly the candidates of `group`. */
  ghost predicate Solid(prefs: seq<Id>, group: set<Id>) { exists n :: 0 <= n <= |prefs| && Elems(prefs[..n]) == group }

  ghost function Supporters(prefs: seq<seq<Id>>, group: set<Id>): nat {
    if prefs == [] then 0
    else Supporters(prefs[..|prefs| - 1], group) + (if Solid(prefs[|prefs| - 1], group) then 1 else 0)
  }

  ghost function SolidWeight(group: set<Id>): Ballot -> real {
    (b: Ballot) => if Solid(b.prefs, group) then b.weight else 0.0
  }

  ghost function OtherWeight(group: set<Id>): Ballot -> real {
    (b: Ballot) => if Solid(b.prefs, group) then 0.0 else b.weight
  }

  ghost function Coalition(s: State, group: set<Id>): real { Sum(s.ballots, SolidWeight(group)) }

  ghost function Seated(s: State, group: set<Id>): nat { |Elems(s.elected) * group| }

  lemma {:induction false} SupportersWeigh(prefs: seq<seq<Id>>, group: set<Id>)
    ensures Sum(Cast(prefs), SolidWeight(group)) == Supporters(prefs, group) as real
  {
    if prefs != [] {
      SupportersWeigh(prefs[..|prefs| - 1], group);
      assert Cast(prefs)[..|prefs| - 1] == Cast(prefs[..|prefs| - 1]);
    }
  }

  lemma {:induction false} SomeSupporter(prefs: seq<seq<Id>>, group: set<Id>) returns (i: nat)
    requires Supporters(prefs, group) > 0
    ensures i < |prefs| && Solid(prefs[i], group)
  {
    if Solid(prefs[|prefs| - 1], group) {
      i := |prefs| - 1;
    } else {
      i := SomeSupporter(prefs[..|prefs| - 1], group);
    }
  }

  lemma {:induction false} TopInPrefix(prefs: seq<Id>, inPlay: set<Id>, n: nat, c: Id)
    requires n <= |prefs| && c in prefs[..n] && c in inPlay
    ensures Top(prefs, inPlay).Some? && Top(prefs, inPlay).value in prefs[..n]
  {
    if prefs[0] !in inPlay {
      assert prefs[..n] == [prefs[0]] + prefs[1..][..n - 1];
      TopInPrefix(prefs[1..], inPlay, n - 1, c);
      assert prefs[1..][..n - 1] <= prefs[1..];
    }
  }

  /** While a member is in play, a coalition ballot counts for a member. */
  lemma SolidBacksMember(prefs: seq<Id>, inPlay: set<Id>, group: set<Id>)
    requires Solid(prefs, group) && group * inPlay != {}
    ensures Top(prefs, inPlay).Some? && Top(prefs, inPlay).value in group * inPlay
  {
    var n :| 0 <= n <= |prefs| && Elems(prefs[..n]) == group;
    var c := PickOne(group * inPlay);
    TopInPrefix(prefs, inPlay, n, c);
    assert Top(prefs, inPlay).value in Elems(prefs[..n]);
  }

  lemma CoalitionBacksMembers(s: State, group: set<Id>)
    requires group * s.continuing != {} && forall b :: b in s.ballots ==> 0.0 <= b.weight
    ensures Coalition(s, group) <= TallySum(s, group * s.continuing)
  {
    var members := group * s.continuing;
    forall b | b in s.ballots ensures SolidWeight(group)(b) <= BacksAny(s.continuing, members)(b) {
      if Solid(b.prefs, group) {
        SolidBacksMember(b.prefs, s.continuing, group);
      }
    }
    SumLe(s.ballots, SolidWeight(group), BacksAny(s.continuing, members));
    TallySumIs(s, members);
  }

  /** Among candidates holding more than |cs| quotas together, one holds more than a quota. */
  lemma {:induction false} Pigeonhole(s: State, cs: set<Id>, q: real) returns (c: Id)
    requires TallySum(s, cs) > Times(|cs| as real, q)
    ensures c in cs && Tally(s, c) > q
  {
    hide Times, Sum;
    TimesFacts(q, 0.0, 0.0);
    c := 0;
    if cs != {} {
      var first := PickOne(cs);
      if Tally(s, first) > q {
        c := first;
      } else {
        Removed(cs, first);
        TimesFacts(q, (|cs| - 1) as real, 1.0);
        c := Pigeonhole(s, cs - {first}, q);
      }
    }
  }

  lemma WeightSplits(s: State, group: set<Id>)
    ensures Total(s.ballots) == Coalition(s, group) + Sum(s.ballots, OtherWeight(group))
  {
    SumAdd(s.ballots, SolidWeight(group), OtherWeight(group), Weight());
  }

  lemma NoNegativeWeight(s: State, group: set<Id>)
    requires forall b :: b in s.ballots ==> 0.0 <= b.weight
    ensures 0.0 <= Coalition(s, group) <= Total(s.ballots)
  {
    var zero := (b: Ballot) => 0.0;
    SumConstant(s.ballots, zero, 0.0);
    SumLe(s.ballots, zero, SolidWeight(group));
    SumLe(s.ballots, SolidWeight(group), Weight());
  }

  /** Electing anyone never makes the ballots outside the coalition heavier. */
  lemma OthersNeverGain(s: State, w: Id, share: real, group: set<Id>)
    requires 0.0 <= share <= 1.0 && forall b :: b in s.ballots ==> 0.0 <= b.weight
    ensures Sum(Mapped(s.ballots, Reweigh(s.continuing, w, share)), OtherWeight(group))
      <= Sum(s.ballots, OtherWeight(group))
  {
    hide Times;
    var g := Reweigh(s.continuing, w, share);
    var after := (b: Ballot) => OtherWeight(group)(g(b));
    SumMapped(s.ballots, g, OtherWeight(group), after);
    forall b | b in s.ballots ensures after(b) <= OtherWeight(group)(b) {
      ShareOfWeight(share, b.weight);
    }
    SumLe(s.ballots, after, OtherWeight(group));
  }

  /** A seat costs the coalition at most one quota of its weight. */
  lemma SeatCostsAtMostQuota(p: Poll, s: State, t: State, w: Id, group: set<Id>)
    requires p.seats > 1 && Weighed(p, s) && Elects(p, s, t, w)
    ensures Coalition(t, group) >= Coalition(s, group) - Quota(p)
  {
    hide Quota, KeptShare, Times, Sum;
    KeptShareFacts(p, Tally(s, w));
    TransferTakesQuota(p, s, w);
    WeightSplits(s, group);
    WeightSplits(t, group);
    OthersNeverGain(s, w, KeptShare(p, Tally(s, w)), group);
  }

  /** Electing an outsider while a member is in play costs the coalition nothing. */
  lemma OutsiderCostsNothing(p: Poll, s: State, t: State, w: Id, group: set<Id>)
    requires group * s.continuing != {} && w !in group && Elects(p, s, t, w)
    ensures Coalition(t, group) == Coalition(s, group)
  {
    hide Quota, KeptShare, Times;
    if p.seats > 1 {
      var g := Reweigh(s.continuing, w, KeptShare(p, Tally(s, w)));
      forall b | b in s.ballots ensures SolidWeight(group)(b) == SolidWeight(group)(g(b)) {
        if Solid(b.prefs, group) {
          SolidBacksMember(b.prefs, s.continuing, group);
        }
      }
      SumMapped(s.ballots, g, SolidWeight(group), SolidWeight(group));
    }
  }

  // ---- The invariant of a count ----

  /** What the coalition can claim: `k` quotas of ballots. */
  ghost predicate Claims(p: Poll, group: set<Id>, k: nat) {
    Supporters(p.prefs, group) as real > Times(k as real, Quota(p))
  }

  /**
   Enough members are seated or still in play, and while any is in play the coalition has paid at most one
   quota per seat it holds.
   */
  ghost predicate OnCourse(p: Poll, s: State, group: set<Id>, k: nat) {
    && Seated(s, group) + |group * s.continuing| >= Min(k, |group|)
    && (group * s.continuing != {} ==>
          Coalition(s, group) >= Supporters(p.prefs, group) as real - Times(Seated(s, group) as real, Quota(p)))
  }

  lemma SupportersInPoll(p: Poll, group: set<Id>, k: nat)
    requires IsPoll(p) && Claims(p, group, k)
    ensures group <= p.cands
  {
    hide Quota;
    QuotaFacts(p);
    TimesMonotone(k as real, 0.0, Quota(p));
    var i := SomeSupporter(p.prefs, group);
    assert p.prefs[i] in p.prefs;
    var n :| 0 <= n <= |p.prefs[i]| && Elems(p.prefs[i][..n]) == group;
    forall c | c in group ensures c in p.cands {
      assert c in Elems(p.prefs[i][..n]);
    }
  }

  lemma StartsOnCourse(p: Poll, group: set<Id>, k: nat)
    requires IsPoll(p) && Claims(p, group, k)
    ensures OnCourse(p, Init(p), group, k)
  {
    hide Quota, Times;
    SupportersInPoll(p, group, k);
    SupportersWeigh(p.prefs, group);
    assert group * p.cands == group;
    assert Elems<Id>([]) * group == {};
    TimesFacts(Quota(p), 0.0, 0.0);
  }

  /** What is left of the claim after `seated` seats still exceeds `rest` quotas. */
  lemma ClaimLeft(support: real, k: nat, seated: nat, rest: nat, q: real)
    requires support > Times(k as real, q) && seated + rest <= k && q >= 0.0
    ensures support - Times(seated as real, q) > Times(rest as real, q)
  {
    hide Times;
    TimesFacts(q, seated as real, rest as real);
    TimesMonotone(q, (seated + rest) as real, k as real);
  }

  /** The line to be reached never lies above a quota. */
  lemma AboveQuotaReaches(p: Poll, s: State, c: Id)
    requires IsPoll(p) && BeforeRound(p, s) && !Over(p, s) && Tally(s, c) > Quota(p)
    ensures Reached(p, s, c)
  {
    if p.seats == 1 {
      TallyBounds(s, c);
    }
  }

  /** When every remaining member is needed, someone reaches the line, so no one is eliminated. */
  lemma NeededMembersReach(p: Poll, s: State, group: set<Id>, k: nat)
    requires IsPoll(p) && BeforeRound(p, s) && !Over(p, s) && Claims(p, group, k) && OnCourse(p, s, group, k)
    requires group * s.continuing != {} && Seated(s, group) + |group * s.continuing| == Min(k, |group|)
    ensures SomeoneReached(p, s)
  {
    hide Quota, Times, Sum, Tally;
    QuotaFacts(p);
    ClaimLeft(Supporters(p.prefs, group) as real, k, Seated(s, group), |group * s.continuing|, Quota(p));
    CoalitionBacksMembers(s, group);
    var c := Pigeonhole(s, group * s.continuing, Quota(p));
    AboveQuotaReaches(p, s, c);
  }

  lemma EliminationStaysOnCourse(p: Poll, s: State, t: State, l: Id, group: set<Id>, k: nat)
    requires IsPoll(p) && BeforeRound(p, s) && !Over(p, s) && Claims(p, group, k) && OnCourse(p, s, group, k)
    requires !SomeoneReached(p, s) && Eliminates(p, s, t, l)
    ensures OnCourse(p, t, group, k)
  {
    hide Quota, Times, Sum, Behind;
    if l in group {
      assert group * t.continuing == group * s.continuing - {l};
      Removed(group * s.continuing, l);
      if Seated(s, group) + |group * s.continuing| == Min(k, |group|) {
        NeededMembersReach(p, s, group, k);
      }
    } else {
      assert group * t.continuing == group * s.continuing;
    }
  }

  lemma SeatTaken(s: State, t: State, w: Id, group: set<Id>)
    requires w in s.continuing && w !in s.elected
    requires t.elected == s.elected + [w] && t.continuing == s.continuing - {w}
    ensures w in group ==>
      Seated(t, group) == Seated(s, group) + 1 && |group * t.continuing| == |group * s.continuing| - 1
    ensures w !in group ==> Seated(t, group) == Seated(s, group) && group * t.continuing == group * s.continuing
  {
    assert forall c :: c in t.elected <==> c in s.elected || c == w;
    if w in group {
      assert Elems(t.elected) * group == Elems(s.elected) * group + {w};
      assert group * t.continuing == group * s.continuing - {w};
      Removed(group * s.continuing, w);
    } else {
      assert Elems(t.elected) * group == Elems(s.elected) * group;
      assert group * t.continuing == group * s.continuing;
    }
  }

  lemma InPlayNotElected(p: Poll, s: State, c: Id)
    requires Sorted(p, s) && c in s.continuing
    ensures c !in s.elected
  {
    assert c !in Elems(s.elected);
  }

  lemma ElectionStaysOnCourse(p: Poll, s: State, t: State, w: Id, group: set<Id>, k: nat)
    requires BeforeRound(p, s) && p.seats > 1 && OnCourse(p, s, group, k) && Elects(p, s, t, w)
    ensures OnCourse(p, t, group, k)
  {
    hide Quota, Times, Sum, Ahead, Reached, Transferred, Coalition, Conserved, Sorted, Weighed, Seated;
    InPlayNotElected(p, s, w);
    SeatTaken(s, t, w, group);
    if w in group {
      SeatCostsAtMostQuota(p, s, t, w, group);
      TimesFacts(Quota(p), Seated(s, group) as real, 1.0);
    } else if group * s.continuing != {} {
      OutsiderCostsNothing(p, s, t, w, group);
    }
  }

  /** With one seat no coalition can claim more than the seat. */
  lemma OneSeatOneClaim(p: Poll, s: State, group: set<Id>, k: nat)
    requires p.seats == 1 && BeforeRound(p, s) && s.elected == [] && Claims(p, group, k) && OnCourse(p, s, group, k)
    requires group * s.continuing != {}
    ensures k <= 1 && Coalition(s, group) > Times(k as real, Valid(p) / 2.0)
  {
    hide Times, Sum;
    NoneSeated(s, group);
    TimesFacts(Quota(p), 0.0, 0.0);
    NoNegativeWeight(s, group);
    QuotaFacts(p);
    if k > 1 {
      TimesMonotone(Quota(p), 2.0, k as real);
    }
  }

  lemma NoneSeated(s: State, group: set<Id>)
    requires s.elected == []
    ensures Seated(s, group) == 0
  {
    assert Elems(s.elected) * group == {};
  }

  lemma MajorityBlocks(p: Poll, s: State, w: Id, group: set<Id>)
    requires p.seats == 1 && BeforeRound(p, s) && s.elected == [] && group * s.continuing != {}
    requires Coalition(s, group) > Valid(p) / 2.0 && Reached(p, s, w)
    ensures w in group
  {
    hide Quota, Times, Sum, Coalition;
    if w !in group {
      TimesFacts(Quota(p), 0.0, 0.0);
      CoalitionAndWinner(s, group, w);
      TallyBounds(s, w);
    }
  }

  /** With one seat, a coalition holding a majority of the ballots gets the winner. */
  lemma MajorityWins(p: Poll, s: State, t: State, w: Id, group: set<Id>, k: nat)
    requires IsPoll(p) && p.seats == 1 && BeforeRound(p, s) && !Over(p, s) && Claims(p, group, k)
      && OnCourse(p, s, group, k)
    requires Elects(p, s, t, w)
    ensures Seated(t, group) >= Min(k, |group|)
  {
    hide Ahead, Reached, Transferred, Quota, Times, Sum, Claims, Coalition, Conserved, Weighed, Seated, Sorted;
    NoneSeated(s, group);
    SeatTaken(s, t, w, group);
    if group * s.continuing != {} {
      OneSeatOneClaim(p, s, group, k);
      if k == 1 {
        TimesFacts(Valid(p) / 2.0, 0.0, 0.0);
        MajorityBlocks(p, s, w, group);
      }
    }
  }

  /** Coalition ballots and the ballots of an outside winner do not overlap. */
  lemma CoalitionAndWinner(s: State, group: set<Id>, w: Id)
    requires group * s.continuing != {} && w !in group && forall b :: b in s.ballots ==> 0.0 <= b.weight
    ensures Coalition(s, group) + Tally(s, w) <= Active(s)
  {
    var both := (b: Ballot) => SolidWeight(group)(b) + Backs(s.continuing, w)(b);
    SumAdd(s.ballots, SolidWeight(group), Backs(s.continuing, w), both);
    forall b | b in s.ballots ensures both(b) <= Counted(s.continuing)(b) {
      if Solid(b.prefs, group) {
        SolidBacksMember(b.prefs, s.continuing, group);
      }
    }
    SumLe(s.ballots, both, Counted(s.continuing));
  }

  /** When all seats are taken one quota of weight is left, less than any unserved claim. */
  lemma SeatedWhenSeatsRunOut(p: Poll, t: State, group: set<Id>, k: nat)
    requires IsPoll(p) && p.seats > 1 && BeforeRound(p, t) && Over(p, t) && Claims(p, group, k)
      && OnCourse(p, t, group, k)
    ensures Seated(t, group) >= Min(k, |group|)
  {
    hide Quota, Times, Sum;
    if Seated(t, group) < Min(k, |group|) {
      assert group * t.continuing != {};
      assert |t.elected| == p.seats;
      QuotaFacts(p);
      TimesFacts(Quota(p), p.seats as real, 1.0);
      ClaimLeft(Supporters(p.prefs, group) as real, k, Seated(t, group), 1, Quota(p));
      NoNegativeWeight(t, group);
      assert false;
    }
  }

  lemma SplitBy<T>(e: set<T>, c: set<T>, group: set<T>)
    requires e !! c
    ensures |(e + c) * group| == |e * group| + |group * c|
  {
    assert (e + c) * group == e * group + group * c;
  }

  lemma FillSeatsMembers(p: Poll, s: State, t: State, newly: seq<Id>, group: set<Id>, k: nat)
    requires BeforeRound(p, s) && MustFill(p, s) && Fills(p, s, t, newly) && OnCourse(p, s, group, k)
    ensures Seated(t, group) >= Min(k, |group|)
  {
    hide Quota, Times, Sum, Fills, Elems, Coalition;
    FillFills(p, s, t, newly);
    SplitBy(Elems(s.elected), s.continuing, group);
  }

  /** A round ends the count with enough members seated, or stays on course. */
  lemma RoundOnCourse(p: Poll, s: State, t: State, group: set<Id>, k: nat)
    requires IsPoll(p) && BeforeRound(p, s) && Round(p, s, t) && Claims(p, group, k) && OnCourse(p, s, group, k)
    ensures (Over(p, t) && Seated(t, group) >= Min(k, |group|)) || (BeforeRound(p, t) && OnCourse(p, t, group, k))
    ensures p.seats <= 1 && Over(p, t) ==> Seated(t, group) >= Min(k, |group|)
  {
    hide BeforeRound, OnCourse, Claims, Seated, Quota, Reached, Ahead, Behind, Transferred;
    if MustFill(p, s) {
      var newly :| Fills(p, s, t, newly);
      FillSeatsMembers(p, s, t, newly, group, k);
      FillIsLast(p, s, t, newly);
    } else {
      RoundKeeps(p, s, t);
      if SomeoneReached(p, s) {
        var w :| Elects(p, s, t, w);
        if p.seats > 1 {
          ElectionStaysOnCourse(p, s, t, w, group, k);
        } else {
          MajorityWins(p, s, t, w, group, k);
        }
      } else {
        var l :| Eliminates(p, s, t, l);
        EliminationStaysOnCourse(p, s, t, l, group, k);
        if p.seats <= 1 && Over(p, t) {
          NoMembersLeft(p, t, group, k);
        }
      }
    }
  }

  lemma FillIsLast(p: Poll, s: State, t: State, newly: seq<Id>)
    requires BeforeRound(p, s) && MustFill(p, s) && Fills(p, s, t, newly)
    ensures Over(p, t)
  {
    FillFills(p, s, t, newly);
  }

  lemma NoMembersLeft(p: Poll, t: State, group: set<Id>, k: nat)
    requires t.continuing == {} && OnCourse(p, t, group, k)
    ensures Seated(t, group) >= Min(k, |group|)
  {
    assert group * t.continuing == {};
  }

  lemma {:induction false} CourseKept(p: Poll, trace: seq<State>, i: nat, group: set<Id>, k: nat)
    requires IsPoll(p) && CountTrace(p, trace) && i < |trace| - 1 && Claims(p, group, k)
    ensures BeforeRound(p, trace[i]) && OnCourse(p, trace[i], group, k)
  {
    hide OnCourse, BeforeRound, Quota, Claims, Seated;
    if i == 0 {
      InitHolds(p);
      StartsOnCourse(p, group, k);
    } else {
      CourseKept(p, trace, i - 1, group, k);
      assert Round(p, trace[i - 1], trace[i]) && Round(p, trace[i], trace[i + 1]);
      RoundOnCourse(p, trace[i - 1], trace[i], group, k);
    }
  }

  /**
   Proportionality: when more than `k` quotas of ballots rank exactly the candidates of `group` first, at
   least min(k, |group|) members of `group` are elected.
   */
  lemma SolidCoalitionsAreServed(p: Poll, trace: seq<State>, group: set<Id>, k: nat)
    requires IsPoll(p) && CountTrace(p, trace)
    requires Supporters(p.prefs, group) as real > Times(k as real, Quota(p))
    ensures |Elems(trace[|trace| - 1].elected) * group| >= Min(k, |group|)
  {
    hide OnCourse, BeforeRound, Quota;
    var last := |trace| - 1;
    var t := trace[last];
    if last == 0 {
      StartsOnCourse(p, group, k);
      NoMembersLeft(p, t, group, k);
    } else {
      CourseKept(p, trace, last - 1, group, k);
      assert Round(p, trace[last - 1], t);
      RoundOnCourse(p, trace[last - 1], t, group, k);
      if p.seats > 1 && BeforeRound(p, t) && OnCourse(p, t, group, k) {
        SeatedWhenSeatsRunOut(p, t, group, k);
      }
    }
  }
}
