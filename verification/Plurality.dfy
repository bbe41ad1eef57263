/**
 Single choice, first past the post, multiple choice and approval: counting marks, and handing out seats
 without ever breaking a tie that decides one.
 */
module Plurality {
  import opened Collections
  import opened RankedRounds
  import opened RankedCount

  datatype Outcome = Outcome(valid: nat, abstentions: nat, total: nat, counts: map<Id, nat>, winners: seq<Id>,
                             ties: seq<Id>)

  function Votes(counts: map<Id, nat>, c: Id): nat { if c in counts then counts[c] else 0 }

  /** Those of `xs` whose votes pass the test, in order. */
  function Where(xs: seq<Id>, test: Id -> bool): (r: seq<Id>)
    ensures forall c :: c in r <==> c in xs && test(c)
  {
    if xs == [] then []
    else if test(xs[0]) then [xs[0]] + Where(xs[1..], test)
    else Where(xs[1..], test)
  }

  predicate Straddles(tied: seq<Id>, winners: seq<Id>) {
    |tied| > 1 && exists c :: c in tied && c !in winners
  }

  function WinnersWithTies(ordered: seq<Id>, counts: map<Id, nat>, seats: int): (seq<Id>, seq<Id>) {
    if seats <= 0 || ordered == [] then ([], [])
    else
      var winners := if seats < |ordered| then ordered[..seats] else ordered;
      var cutoff := Votes(counts, winners[|winners| - 1]);
      var tied := Where(ordered, c => Votes(counts, c) == cutoff);
      if Straddles(tied, winners) then
        (Where(winners, c => Votes(counts, c) > cutoff), tied)
      else (winners, [])
  }

  ghost predicate ByVotes(ordered: seq<Id>, counts: map<Id, nat>) {
    forall i, j :: 0 <= i < j < |ordered| ==> Votes(counts, ordered[i]) >= Votes(counts, ordered[j])
  }

  ghost function AtLeast(cands: set<Id>, counts: map<Id, nat>, votes: nat): set<Id> {
    set c | c in cands && Votes(counts, c) >= votes
  }

  ghost function Above(cands: set<Id>, counts: map<Id, nat>, votes: nat): set<Id> {
    set c | c in cands && Votes(counts, c) > votes
  }

  /** A seat is safe when everyone with at least as many votes fits into the seats. */
  ghost predicate Safe(cands: set<Id>, counts: map<Id, nat>, seats: int, c: Id) {
    c in cands && |AtLeast(cands, counts, Votes(counts, c))| <= seats
  }

  /** A candidate is tied for a seat when those ahead leave a seat but the level as a whole does not fit. */
  ghost predicate Contested(cands: set<Id>, counts: map<Id, nat>, seats: int, c: Id) {
    && c in cands
    && |Above(cands, counts, Votes(counts, c))| < seats < |AtLeast(cands, counts, Votes(counts, c))|
  }

  lemma {:induction false} PrefixSize(xs: seq<Id>, n: nat)
    requires NoDup(xs) && n <= |xs|
    ensures |Elems(xs[..n])| == n
  {
    ListingSize(xs[..n], Elems(xs[..n]));
  }

  lemma SubsetSize<T>(a: set<T>, b: set<T>)
    requires a <= b
    ensures |a| <= |b|
  {
    assert |b| == |a| + |b - a| by { assert b == a + (b - a); }
  }

  /** In a list sorted by votes, position `i` is outside a level only if the level ends before it. */
  lemma LevelsArePrefixes(ordered: seq<Id>, counts: map<Id, nat>, i: nat)
    requires NoDup(ordered) && ByVotes(ordered, counts) && i < |ordered|
    ensures |AtLeast(Elems(ordered), counts, Votes(counts, ordered[i]))| >= i + 1
    ensures |Above(Elems(ordered), counts, Votes(counts, ordered[i]))| <= i
    ensures i + 1 < |ordered| && Votes(counts, ordered[i + 1]) < Votes(counts, ordered[i])
      ==> |AtLeast(Elems(ordered), counts, Votes(counts, ordered[i]))| == i + 1
  {
    var v := Votes(counts, ordered[i]);
    PrefixSize(ordered, i);
    PrefixSize(ordered, i + 1);
    forall c | c in Elems(ordered[..i + 1]) ensures c in AtLeast(Elems(ordered), counts, v) {
    }
    SubsetSize(Elems(ordered[..i + 1]), AtLeast(Elems(ordered), counts, v));
    forall c | c in Above(Elems(ordered), counts, v) ensures c in Elems(ordered[..i]) {
      var k :| 0 <= k < |ordered| && ordered[k] == c;
      assert ordered[..i][k] == c;
    }
    SubsetSize(Above(Elems(ordered), counts, v), Elems(ordered[..i]));
    if i + 1 < |ordered| && Votes(counts, ordered[i + 1]) < v {
      forall c | c in AtLeast(Elems(ordered), counts, v) ensures c in Elems(ordered[..i + 1]) {
        var k :| 0 <= k < |ordered| && ordered[k] == c;
        assert k <= i;
        assert ordered[..i + 1][k] == c;
      }
      SubsetSize(AtLeast(Elems(ordered), counts, v), Elems(ordered[..i + 1]));
    }
  }

  /** How the levels of candidate `c` and of the last seat compare. */
  lemma LevelsCompare(ordered: seq<Id>, counts: map<Id, nat>, seats: nat, i: nat)
    requires NoDup(ordered) && ByVotes(ordered, counts) && 0 < seats < |ordered| && i < |ordered|
    ensures var cands, votes, cutoff := Elems(ordered), Votes(counts, ordered[i]), Votes(counts, ordered[seats - 1]);
      && (votes > cutoff ==> |AtLeast(cands, counts, votes)| < seats)
      && (votes < cutoff ==> |Above(cands, counts, votes)| >= seats && |AtLeast(cands, counts, votes)| > seats)
      && (votes == cutoff ==> |Above(cands, counts, votes)| < seats)
      && (votes == cutoff ==> (|AtLeast(cands, counts, votes)| > seats <==> Votes(counts, ordered[seats]) == cutoff))
  {
    var cands, votes, cutoff := Elems(ordered), Votes(counts, ordered[i]), Votes(counts, ordered[seats - 1]);
    LevelsArePrefixes(ordered, counts, i);
    LevelsArePrefixes(ordered, counts, seats - 1);
    LevelsArePrefixes(ordered, counts, seats);
    if votes > cutoff {
      SubsetSize(AtLeast(cands, counts, votes), Above(cands, counts, cutoff));
    } else if votes < cutoff {
      SubsetSize(AtLeast(cands, counts, cutoff), Above(cands, counts, votes));
    }
  }

  /**
   Who wins and who is reported as tied depends on the votes alone: a winner's level fits the seats, a tied
   candidate's level straddles the last seat, and the order in which equal candidates are displayed decides
   nothing.
   */
  lemma SeatsAreNeverDrawn(ordered: seq<Id>, counts: map<Id, nat>, seats: int)
    requires NoDup(ordered) && ByVotes(ordered, counts)
    ensures forall c :: c in WinnersWithTies(ordered, counts, seats).0 <==> Safe(Elems(ordered), counts, seats, c)
    ensures forall c :: c in WinnersWithTies(ordered, counts, seats).1 <==> Contested(Elems(ordered), counts, seats, c)
  {
    hide NoDup, ByVotes, WinnersWithTies, Safe, Contested;
    forall c ensures (c in WinnersWithTies(ordered, counts, seats).0 <==> Safe(Elems(ordered), counts, seats, c))
                  && (c in WinnersWithTies(ordered, counts, seats).1 <==> Contested(Elems(ordered), counts, seats, c)) {
      if c in ordered {
        var i :| 0 <= i < |ordered| && ordered[i] == c;
        if 0 < seats < |ordered| {
          CutVerdict(ordered, counts, seats, i);
        } else {
          EdgeVerdict(ordered, counts, seats, i);
        }
      } else {
        StrangerVerdict(ordered, counts, seats, c);
      }
    }
  }

  ghost predicate Verdict(ordered: seq<Id>, counts: map<Id, nat>, seats: int, c: Id) {
    && (c in WinnersWithTies(ordered, counts, seats).0 <==> Safe(Elems(ordered), counts, seats, c))
    && (c in WinnersWithTies(ordered, counts, seats).1 <==> Contested(Elems(ordered), counts, seats, c))
  }

  lemma CutVerdict(ordered: seq<Id>, counts: map<Id, nat>, seats: nat, i: nat)
    requires NoDup(ordered) && ByVotes(ordered, counts) && 0 < seats < |ordered| && i < |ordered|
    ensures Verdict(ordered, counts, seats, ordered[i])
  {
    hide NoDup, ByVotes, WinnersWithTies, AtLeast, Above, Votes;
    assert ordered[i] in Elems(ordered);
    LevelsCompare(ordered, counts, seats, i);
    CutPoint(ordered, counts, seats, i);
    CutoffOrder(ordered, counts, seats, i);
  }

  lemma EdgeVerdict(ordered: seq<Id>, counts: map<Id, nat>, seats: int, i: nat)
    requires NoDup(ordered) && ByVotes(ordered, counts) && i < |ordered| && !(0 < seats < |ordered|)
    ensures Verdict(ordered, counts, seats, ordered[i])
  {
    hide NoDup, ByVotes, AtLeast, Above, Votes;
    assert ordered[i] in Elems(ordered);
    LevelsArePrefixes(ordered, counts, i);
    EverybodyFits(ordered, counts, Votes(counts, ordered[i]));
  }

  lemma StrangerVerdict(ordered: seq<Id>, counts: map<Id, nat>, seats: int, c: Id)
    requires c !in ordered
    ensures Verdict(ordered, counts, seats, c)
  {
    assert c !in Elems(ordered);
  }

  lemma EverybodyFits(ordered: seq<Id>, counts: map<Id, nat>, votes: nat)
    requires NoDup(ordered)
    ensures |AtLeast(Elems(ordered), counts, votes)| <= |ordered|
  {
    ListingSize(ordered, Elems(ordered));
    SubsetSize(AtLeast(Elems(ordered), counts, votes), Elems(ordered));
  }

  lemma AmongFirst(xs: seq<Id>, n: nat, i: nat)
    requires NoDup(xs) && n <= |xs| && i < |xs|
    ensures xs[i] in xs[..n] <==> i < n
  {
    if i < n { assert xs[..n][i] == xs[i]; }
  }

  /** What the slice and the filters of `WinnersWithTies` select. */
  lemma CutPoint(ordered: seq<Id>, counts: map<Id, nat>, seats: nat, i: nat)
    requires NoDup(ordered) && ByVotes(ordered, counts) && 0 < seats < |ordered| && i < |ordered|
    ensures var (winners, ties) := WinnersWithTies(ordered, counts, seats);
      var votes, cutoff := Votes(counts, ordered[i]), Votes(counts, ordered[seats - 1]);
      if Votes(counts, ordered[seats]) == cutoff then
        (ordered[i] in winners <==> votes > cutoff) && (ordered[i] in ties <==> votes == cutoff)
      else (ordered[i] in winners <==> votes >= cutoff) && ties == []
  {
    hide NoDup, ByVotes, Straddles;
    assert ordered[..seats][seats - 1] == ordered[seats - 1];
    AmongFirst(ordered, seats, i);
    StraddlesWhenTied(ordered, counts, seats);
    CutoffOrder(ordered, counts, seats, i);
  }

  lemma CutoffOrder(ordered: seq<Id>, counts: map<Id, nat>, seats: nat, i: nat)
    requires ByVotes(ordered, counts) && 0 < seats < |ordered| && i < |ordered|
    ensures i < seats ==> Votes(counts, ordered[i]) >= Votes(counts, ordered[seats - 1])
    ensures i >= seats ==> Votes(counts, ordered[i]) <= Votes(counts, ordered[seats])
    ensures Votes(counts, ordered[seats]) <= Votes(counts, ordered[seats - 1])
  {
  }

  lemma StraddlesWhenTied(ordered: seq<Id>, counts: map<Id, nat>, seats: nat)
    requires NoDup(ordered) && ByVotes(ordered, counts) && 0 < seats < |ordered|
    ensures var cutoff := Votes(counts, ordered[seats - 1]);
      Straddles(Where(ordered, c => Votes(counts, c) == cutoff), ordered[..seats]) <==>
      Votes(counts, ordered[seats]) == cutoff
  {
    hide NoDup, ByVotes;
    var cutoff := Votes(counts, ordered[seats - 1]);
    var tied := Where(ordered, c => Votes(counts, c) == cutoff);
    AmongFirst(ordered, seats, seats);
    AmongFirst(ordered, seats, seats - 1);
    if Votes(counts, ordered[seats]) == cutoff {
      assert ordered[seats] in tied && ordered[seats - 1] in tied;
      TwoMembers(tied, ordered[seats], ordered[seats - 1]);
    } else {
      forall c | c in tied ensures c in ordered[..seats] {
        var k :| 0 <= k < |ordered| && ordered[k] == c;
        CutoffOrder(ordered, counts, seats, k);
        AmongFirst(ordered, seats, k);
      }
    }
  }

  lemma TwoMembers<T>(xs: seq<T>, a: T, b: T)
    requires a in xs && b in xs && a != b
    ensures |xs| > 1
  {
  }

  // ---- Counting marks ----

  /** How often `c` is marked, over all ballots; a ballot may mark a candidate more than once. */
  function Marks(selections: seq<Option<seq<Id>>>, c: Id): nat {
    if selections == [] then 0
    else Marks(selections[..|selections| - 1], c) + Occurrences(Chosen(selections[|selections| - 1]), c)
  }

  function Occurrences(xs: seq<Id>, c: Id): nat {
    if xs == [] then 0 else Occurrences(xs[..|xs| - 1], c) + (if xs[|xs| - 1] == c then 1 else 0)
  }

  function Chosen(selection: Option<seq<Id>>): seq<Id> { if selection.Some? then selection.value else [] }

  function Blank(selections: seq<Option<seq<Id>>>): nat {
    if selections == [] then 0
    else Blank(selections[..|selections| - 1]) + (if Chosen(selections[|selections| - 1]) == [] then 1 else 0)
  }

  /** Display order: votes first, then the name order. */
  function DisplayOrder(counts: map<Id, nat>, name: Id -> nat): (Id, Id) -> bool {
    (a, b) => Votes(counts, a) > Votes(counts, b) || (Votes(counts, a) == Votes(counts, b) && name(a) <= name(b))
  }

  ghost function SumOver(counts: map<Id, nat>, cs: set<Id>): nat {
    if cs == {} then 0 else var c := PickOne(cs); Votes(counts, c) + SumOver(counts, cs - {c})
  }

  lemma {:induction false} SumOverAny(counts: map<Id, nat>, cs: set<Id>, c: Id)
    requires c in cs
    ensures SumOver(counts, cs) == Votes(counts, c) + SumOver(counts, cs - {c})
  {
    var first := PickOne(cs);
    if c != first {
      SumOverAny(counts, cs - {first}, c);
      SumOverAny(counts, cs - {c}, first);
      assert cs - {first} - {c} == cs - {c} - {first};
    }
  }

  // ---- What is counted ----

  /** The marks for these candidates: which ballot, and which place on it. */
  ghost function MarksFor(selections: seq<Option<seq<Id>>>, cs: set<Id>): set<(nat, nat)> {
    set i: nat, j: nat | i < |selections| && j < |Chosen(selections[i])| && Chosen(selections[i])[j] in cs :: (i, j)
  }

  ghost function PlacesOf(marks: seq<Id>, c: Id): set<nat> { set j: nat | j < |marks| && marks[j] == c }

  ghost function OnBallot(i: nat, places: set<nat>): set<(nat, nat)> { set j | j in places :: (i, j) }

  lemma {:induction false} OccurrencesArePlaces(marks: seq<Id>, c: Id)
    ensures Occurrences(marks, c) == |PlacesOf(marks, c)|
  {
    if marks != [] {
      var n := |marks| - 1;
      OccurrencesArePlaces(marks[..n], c);
      assert PlacesOf(marks, c) == PlacesOf(marks[..n], c) + if marks[n] == c then {n} else {};
    }
  }

  lemma {:induction false} AsManyPairs(i: nat, places: set<nat>)
    ensures |OnBallot(i, places)| == |places|
  {
    if places != {} {
      var j := PickOne(places);
      AsManyPairs(i, places - {j});
      assert OnBallot(i, places) == OnBallot(i, places - {j}) + {(i, j)};
    }
  }

  lemma {:induction false} MarksAreCounted(selections: seq<Option<seq<Id>>>, c: Id)
    ensures Marks(selections, c) == |MarksFor(selections, {c})|
  {
    if selections != [] {
      var n := |selections| - 1;
      var marks := Chosen(selections[n]);
      MarksAreCounted(selections[..n], c);
      OccurrencesArePlaces(marks, c);
      AsManyPairs(n, PlacesOf(marks, c));
      OneMoreBallot(selections, c);
      hide Marks, MarksFor, Occurrences, PlacesOf, OnBallot;
    }
  }

  predicate IsMark(selections: seq<Option<seq<Id>>>, i: int, j: int, cs: set<Id>) {
    0 <= i < |selections| && 0 <= j < |Chosen(selections[i])| && Chosen(selections[i])[j] in cs
  }

  lemma MarkOnBallot(selections: seq<Option<seq<Id>>>, i: nat, j: nat, c: Id)
    requires selections != []
    ensures var (n, last) := (|selections| - 1, Chosen(selections[|selections| - 1]));
      IsMark(selections, i, j, {c}) <==>
        IsMark(selections[..n], i, j, {c}) || (i, j) in OnBallot(n, PlacesOf(last, c))
  {
    hide Chosen;
    assert i < |selections| - 1 ==> selections[..|selections| - 1][i] == selections[i];
  }

  lemma OneMoreBallot(selections: seq<Option<seq<Id>>>, c: Id)
    requires selections != []
    ensures var (n, last) := (|selections| - 1, Chosen(selections[|selections| - 1]));
      && |MarksFor(selections, {c})| == |MarksFor(selections[..n], {c})| + |OnBallot(n, PlacesOf(last, c))|
      && Marks(selections, c) == Marks(selections[..n], c) + Occurrences(last, c)
  {
    var (n, last) := (|selections| - 1, Chosen(selections[|selections| - 1]));
    var (before, here) := (MarksFor(selections[..n], {c}), OnBallot(n, PlacesOf(last, c)));
    hide Chosen, PlacesOf, IsMark;
    forall i: nat, j: nat ensures (i, j) in MarksFor(selections, {c}) <==> (i, j) in before || (i, j) in here {
      MarkOnBallot(selections, i, j, c);
      MarkIsListed(selections, i, j, {c});
      MarkIsListed(selections[..n], i, j, {c});
    }
    assert before !! here;
    hide MarksFor, OnBallot;
    assert MarksFor(selections, {c}) == before + here;
  }

  lemma MarkIsListed(selections: seq<Option<seq<Id>>>, i: nat, j: nat, cs: set<Id>)
    ensures (i, j) in MarksFor(selections, cs) <==> IsMark(selections, i, j, cs)
  {
  }

  /** The total is the number of all marks for candidates. */
  lemma {:induction false} TotalIsMarks(selections: seq<Option<seq<Id>>>, counts: map<Id, nat>, cs: set<Id>)
    requires forall c :: c in cs ==> c in counts && counts[c] == Marks(selections, c)
    ensures SumOver(counts, cs) == |MarksFor(selections, cs)|
  {
    if cs == {} {
      assert MarksFor(selections, cs) == {};
    } else {
      var c := PickOne(cs);
      TotalIsMarks(selections, counts, cs - {c});
      MarksAreCounted(selections, c);
      assert MarksFor(selections, cs) == MarksFor(selections, {c}) + MarksFor(selections, cs - {c});
      assert MarksFor(selections, {c}) !! MarksFor(selections, cs - {c});
    }
  }

  predicate Unmarked(selection: Option<seq<Id>>) { selection == None || selection == Some([]) }

  ghost function Abstainers(selections: seq<Option<seq<Id>>>): set<nat> {
    set i: nat | i < |selections| && Unmarked(selections[i])
  }

  lemma OneMoreAbstainer(selections: seq<Option<seq<Id>>>)
    requires selections != []
    ensures var n := |selections| - 1;
      |Abstainers(selections)| == |Abstainers(selections[..n])| + (if Unmarked(selections[n]) then 1 else 0)
  {
    hide Unmarked;
    var n := |selections| - 1;
    var before := Abstainers(selections[..n]);
    assert n !in before && forall i :: 0 <= i < n ==> selections[..n][i] == selections[i];
    assert Abstainers(selections) == if Unmarked(selections[n]) then before + {n} else before;
  }

  /** Abstentions are the selections without a mark. */
  lemma {:induction false} BlanksAreCounted(selections: seq<Option<seq<Id>>>)
    ensures Blank(selections) == |Abstainers(selections)|
  {
    if selections != [] {
      BlanksAreCounted(selections[..|selections| - 1]);
      OneMoreAbstainer(selections);
      hide Abstainers;
    }
  }

  method MarkBallot(counts: map<Id, nat>, chosen: seq<Id>) returns (r: map<Id, nat>)
    ensures r == map c | c in counts :: counts[c] + Occurrences(chosen, c)
  {
    r := counts;
    for j := 0 to |chosen|
      invariant r == map c | c in counts :: counts[c] + Occurrences(chosen[..j], c)
    {
      assert chosen[..j + 1][..j] == chosen[..j];
      if chosen[j] in r {
        r := r[chosen[j] := r[chosen[j]] + 1];
      }
    }
    assert chosen[..|chosen|] == chosen;
  }

  method CountMarks(selections: seq<Option<seq<Id>>>, cands: set<Id>)
      returns (counts: map<Id, nat>, valid: nat, abstentions: nat)
    ensures counts == map c | c in cands :: Marks(selections, c)
    ensures abstentions == Blank(selections) && valid == |selections| - abstentions
  {
    counts := map c | c in cands :: 0;
    valid, abstentions := 0, 0;
    for i := 0 to |selections|
      invariant counts == map c | c in cands :: Marks(selections[..i], c)
      invariant abstentions == Blank(selections[..i]) && valid == i - abstentions
    {
      assert selections[..i + 1][..i] == selections[..i];
      var chosen := Chosen(selections[i]);
      if chosen == [] {
        abstentions := abstentions + 1;
      } else {
        valid := valid + 1;
        counts := MarkBallot(counts, chosen);
      }
    }
    assert selections[..|selections|] == selections;
  }

  method Count(selections: seq<Option<seq<Id>>>, cands: set<Id>, name: Id -> nat, seats: int) returns (r: Outcome)
    ensures r.counts == map c | c in cands :: Marks(selections, c)
    ensures r.abstentions == Blank(selections) && r.valid == |selections| - r.abstentions
    ensures r.total == SumOver(r.counts, cands)
    ensures forall c :: c in r.winners <==> Safe(cands, r.counts, seats, c)
    ensures forall c :: c in r.ties <==> Contested(cands, r.counts, seats, c)
  {
    var counts, valid, abstentions := CountMarks(selections, cands);
    var total, rest := 0, cands;
    while rest != {}
      invariant rest <= cands && total + SumOver(counts, rest) == SumOver(counts, cands)
    {
      var c := Take(rest);
      SumOverAny(counts, rest, c);
      total, rest := total + counts[c], rest - {c};
    }
    var ordered := SortBy(cands, DisplayOrder(counts, name));
    assert ByVotes(ordered, counts) by {
      forall i, j | 0 <= i < j < |ordered| ensures Votes(counts, ordered[i]) >= Votes(counts, ordered[j]) {
        assert DisplayOrder(counts, name)(ordered[i], ordered[j]);
      }
    }
    SeatsAreNeverDrawn(ordered, counts, seats);
    var (winners, ties) := WinnersWithTies(ordered, counts, seats);
    r := Outcome(valid, abstentions, total, counts, winners, ties);
  }
}
