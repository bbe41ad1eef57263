/** From ballots to the count of a position: which selections are counted, and whose votes they are. */
module PositionTally {
  import opened Collections
  import opened Ballots
  import opened BallotMeaning
  import opened Casting
  import opened CastingRuns
  import opened CastingRecord
  import P = Plurality

  /** The marks a count sees in a selection; nothing for an abstention. */
  function MarksOf(s: Selection): Option<seq<int>> { if s.Chosen? then Some(s.ids) else None }

  /** The selections for a position, of those ballots whose style has it. */
  function Selected(contents: seq<Selections>, position: nat): seq<Option<seq<int>>> {
    if contents == [] then []
    else
      var (front, last) := (contents[..|contents| - 1], contents[|contents| - 1]);
      Selected(front, position) + if position in last then [MarksOf(last[position])] else []
  }

  method CollectSelections(contents: seq<Selections>, position: nat) returns (r: seq<Option<seq<int>>>)
    ensures r == Selected(contents, position)
  {
    r := [];
    for i := 0 to |contents|
      invariant r == Selected(contents[..i], position)
    {
      assert contents[..i + 1][..i] == contents[..i];
      if position in contents[i] {
        r := r + [MarksOf(contents[i][position])];
      }
    }
    assert contents[..|contents|] == contents;
  }

  function Contents(ballots: seq<Ballot>): (r: seq<Selections>)
    ensures |r| == |ballots|
  {
    seq(|ballots|, i requires 0 <= i < |ballots| => ballots[i].selections)
  }

  // ---- Votes counted are votes cast ----

  /** The step casts a ballot with these selections. */
  ghost predicate Chooses(u: Setup, s: Polls, step: Step, m: Selections) {
    MayCast(u, s, step) && StandsFor(u.positions, s.auths[step.token].style, step.payload, m)
  }

  /** Step `k` casts a ballot with this selection for the position. */
  ghost predicate CastsSelection(u: Setup, run: seq<Step>, k: int, position: nat, s: Selection) {
    && 0 <= k < |run|
    && exists m :: Chooses(u, At(u, run, k), run[k], m) && position in m && m[position] == s
  }

  ghost predicate CastsAny(u: Setup, run: seq<Step>, k: int, position: nat) {
    exists s :: CastsSelection(u, run, k, position, s)
  }

  /** The selections counted are those of the casts at `from`, in order, and no cast for the position is left out. */
  ghost predicate SelectedFrom(u: Setup, run: seq<Step>, position: nat, selected: seq<Option<seq<int>>>,
                               from: seq<nat>) {
    && |from| == |selected| && (forall j, k :: 0 <= j < k < |from| ==> from[j] < from[k])
    && (forall k :: 0 <= k < |from| ==> HasMarks(u, run, from[k], position, selected[k]))
    && forall k :: CastsAny(u, run, k, position) ==> k in from
  }

  ghost predicate HasMarks(u: Setup, run: seq<Step>, k: int, position: nat, marks: Option<seq<int>>) {
    exists s :: CastsSelection(u, run, k, position, s) && MarksOf(s) == marks
  }

  /** What the first `n` ballots contribute. */
  ghost predicate PartFrom(u: Setup, run: seq<Step>, position: nat, selected: seq<Option<seq<int>>>, all: seq<nat>,
                           n: nat,
                           from: seq<nat>)
    requires n <= |all|
  {
    && |from| == |selected| && (forall j, k :: 0 <= j < k < |from| ==> from[j] < from[k])
    && (forall k :: 0 <= k < |from| ==> HasMarks(u, run, from[k], position, selected[k]) && from[k] in all[..n])
    && forall i :: 0 <= i < n && CastsAny(u, run, all[i], position) ==> all[i] in from
  }

  lemma VoteIsCast(u: Setup, run: seq<Step>, k: nat, b: Ballot, position: nat)
    requires DistinctIds(u.positions) && k < |run| && IsVote(u, At(u, run, k), run[k], b)
    ensures position in b.selections ==> HasMarks(u, run, k, position, MarksOf(b.selections[position]))
    ensures CastsAny(u, run, k, position) ==> position in b.selections
  {
    VoteChooses(u, At(u, run, k), run[k], b);
    hide Chooses, IsVote, At;
    if position in b.selections {
      assert CastsSelection(u, run, k, position, b.selections[position]);
    }
    if s :| CastsSelection(u, run, k, position, s) {
      var m :| Chooses(u, At(u, run, k), run[k], m) && position in m && m[position] == s;
      OneChoice(u, At(u, run, k), run[k], m, b.selections);
    }
  }

  lemma VoteChooses(u: Setup, s: Polls, step: Step, b: Ballot)
    requires IsVote(u, s, step, b)
    ensures Chooses(u, s, step, b.selections)
  {
    hide StandsFor;
  }

  lemma OneChoice(u: Setup, s: Polls, step: Step, a: Selections, b: Selections)
    requires DistinctIds(u.positions) && Chooses(u, s, step, a) && Chooses(u, s, step, b)
    ensures a == b
  {
    hide Validated, StandsFor;
    ValidatedIsExact(u.positions, s.auths[step.token].style, step.payload, a);
    ValidatedIsExact(u.positions, s.auths[step.token].style, step.payload, b);
  }

  lemma {:induction false} PartsAdd(u: Setup, run: seq<Step>, ballots: seq<Ballot>, all: seq<nat>, position: nat,
                                    n: nat)
      returns (from: seq<nat>)
    requires DistinctIds(u.positions) && CastFrom(u, run, ballots, all) && n <= |ballots|
    ensures PartFrom(u, run, position, Selected(Contents(ballots)[..n], position), all, n, from)
  {
    hide HasMarks, CastsAny, IsVote, MayCast, At, PartFrom;
    if n == 0 {
      from := [];
      assert Contents(ballots)[..0] == [];
      NoPart(u, run, position, all);
    } else {
      from := PartsAdd(u, run, ballots, all, position, n - 1);
      var (last, contents) := (ballots[n - 1], Contents(ballots)[..n]);
      assert contents[..n - 1] == Contents(ballots)[..n - 1] && contents[n - 1] == last.selections;
      assert IsVote(u, At(u, run, all[n - 1]), run[all[n - 1]], last);
      VoteIsCast(u, run, all[n - 1], last, position);
      assert |contents| == n;
      SelectedMore(contents, position);
      hide Selected;
      if position in last.selections {
        OnePart(u, run, position, Selected(contents[..n - 1], position), all, n - 1, from,
                MarksOf(last.selections[position]));
        from := from + [all[n - 1]];
      } else {
        SkippedPart(u, run, position, Selected(contents[..n - 1], position), all, n - 1, from);
      }
    }
  }

  lemma SelectedMore(contents: seq<Selections>, position: nat)
    requires contents != []
    ensures var (front, last) := (contents[..|contents| - 1], contents[|contents| - 1]);
      Selected(contents, position) ==
        if position in last then Selected(front, position) + [MarksOf(last[position])] else Selected(front, position)
  {
  }

  lemma NoPart(u: Setup, run: seq<Step>, position: nat, all: seq<nat>)
    ensures PartFrom(u, run, position, [], all, 0, [])
  {
  }

  lemma OnePart(u: Setup, run: seq<Step>, position: nat, selected: seq<Option<seq<int>>>, all: seq<nat>, n: nat,
                from: seq<nat>, marks: Option<seq<int>>)
    requires n < |all| && PartFrom(u, run, position, selected, all, n, from)
      && HasMarks(u, run, all[n], position, marks)
    requires forall j, k :: 0 <= j < k < |all| ==> all[j] < all[k]
    ensures PartFrom(u, run, position, selected + [marks], all, n + 1, from + [all[n]])
  {
    hide HasMarks, CastsAny;
    var more := from + [all[n]];
    assert more[|from|] == all[n];
    forall k | 0 <= k < |from| ensures from[k] < all[n] && from[k] in all[..n + 1] {
      Earlier(all, n, from[k]);
    }
    assert all[..n + 1][n] == all[n];
    forall i | 0 <= i < n + 1 && CastsAny(u, run, all[i], position) ensures all[i] in more {
      assert i < n ==> all[i] in from;
    }
  }

  lemma Earlier(all: seq<nat>, n: nat, x: nat)
    requires n < |all| && x in all[..n] && forall j, k :: 0 <= j < k < |all| ==> all[j] < all[k]
    ensures x < all[n] && x in all[..n + 1]
  {
    assert all[..n + 1] == all[..n] + [all[n]];
  }

  lemma SkippedPart(u: Setup, run: seq<Step>, position: nat, selected: seq<Option<seq<int>>>, all: seq<nat>, n: nat,
                    from: seq<nat>)
    requires n < |all| && PartFrom(u, run, position, selected, all, n, from) && !CastsAny(u, run, all[n], position)
    ensures PartFrom(u, run, position, selected, all, n + 1, from)
  {
    hide HasMarks, CastsAny;
    assert all[..n + 1] == all[..n] + [all[n]];
  }

  /**
   After any run of casting, what is counted for a position is, in order, what the successful casts of ballots with this
   position chose for it: nothing is left out, added or altered between a voter's submission and the count.
   */
  lemma CountedAsCast(u: Setup, run: seq<Step>, position: nat) returns (from: seq<nat>)
    requires DistinctIds(u.positions)
    ensures SelectedFrom(u, run, position, Selected(Contents(AfterAll(u, EMPTY, run).ballots), position), from)
  {
    hide HasMarks, IsVote, MayCast, AfterAll;
    var ballots := AfterAll(u, EMPTY, run).ballots;
    var all := BallotsAreAsCast(u, run);
    from := PartsAdd(u, run, ballots, all, position, |ballots|);
    assert Contents(ballots)[..|ballots|] == Contents(ballots) && all[..|ballots|] == all;
    forall k | CastsAny(u, run, k, position) ensures k in from {
      AnyIsCast(u, run, k, position);
      var i :| 0 <= i < |all| && all[i] == k;
    }
  }

  lemma AnyIsCast(u: Setup, run: seq<Step>, k: int, position: nat)
    requires CastsAny(u, run, k, position)
    ensures 0 <= k < |run| && MayCast(u, At(u, run, k), run[k])
  {
  }

  // ---- Votes for a candidate ----

  /** Who cast a ballot that names the candidate for the position. */
  ghost predicate VotesFor(u: Setup, run: seq<Step>, k: int, position: nat, c: int) {
    exists ids :: CastsSelection(u, run, k, position, Chosen(ids)) && c in ids
  }

  ghost function VotersFor(u: Setup, run: seq<Step>, position: nat, c: int): set<nat> {
    set k: nat | k < |run| && VotesFor(u, run, k, position, c)
  }

  lemma {:induction false} OccursOnce(ids: seq<int>, c: int)
    requires Distinct(ids)
    ensures P.Occurrences(ids, c) == if c in ids then 1 else 0
  {
    if ids != [] {
      OccursOnce(ids[..|ids| - 1], c);
      assert ids == ids[..|ids| - 1] + [ids[|ids| - 1]];
    }
  }

  /** A selection cast is one the position allows, so it names nobody twice. */
  lemma CastNamesOnce(u: Setup, run: seq<Step>, k: int, position: nat, ids: seq<int>)
    requires CastsSelection(u, run, k, position, Chosen(ids))
    ensures Distinct(ids)
  {
    hide Chooses, Distinct, At;
    var m :| Chooses(u, At(u, run, k), run[k], m) && position in m && m[position] == Chosen(ids);
    ChoiceIsLegal(u, At(u, run, k), run[k], m, position);
  }

  lemma ChoiceIsLegal(u: Setup, s: Polls, step: Step, m: Selections, position: nat)
    requires Chooses(u, s, step, m) && position in m
    ensures exists i :: 0 <= i < |u.positions| && u.positions[i].id == position && Legal(u.positions[i], m[position])
  {
    hide NoForeign, Legal;
    var i :| 0 <= i < |u.positions| && u.positions[i].id == position;
    assert RecordedFor(u.positions[i], step.payload.entries, m[position]);
  }

  lemma OneSelection(u: Setup, run: seq<Step>, k: int, position: nat, a: Selection, b: Selection)
    requires DistinctIds(u.positions)
    requires CastsSelection(u, run, k, position, a) && CastsSelection(u, run, k, position, b)
    ensures a == b
  {
    hide Chooses, At;
    var m :| Chooses(u, At(u, run, k), run[k], m) && position in m && m[position] == a;
    var other :| Chooses(u, At(u, run, k), run[k], other) && position in other && other[position] == b;
    OneChoice(u, At(u, run, k), run[k], m, other);
  }

  lemma OneVote(u: Setup, run: seq<Step>, k: int, position: nat, marks: Option<seq<int>>, c: int)
    requires DistinctIds(u.positions) && HasMarks(u, run, k, position, marks)
    ensures P.Occurrences(P.Chosen(marks), c) == if VotesFor(u, run, k, position, c) then 1 else 0
  {
    hide CastsSelection, Distinct;
    var s :| CastsSelection(u, run, k, position, s) && MarksOf(s) == marks;
    if s.Chosen? {
      CastNamesOnce(u, run, k, position, s.ids);
      OccursOnce(s.ids, c);
    }
    if VotesFor(u, run, k, position, c) {
      var ids :| CastsSelection(u, run, k, position, Chosen(ids)) && c in ids;
      OneSelection(u, run, k, position, s, Chosen(ids));
    }
  }

  lemma {:induction false} MarksAreVoters(u: Setup, run: seq<Step>, position: nat, selected: seq<Option<seq<int>>>,
                                          from: seq<nat>, c: int)
    requires DistinctIds(u.positions) && |from| == |selected|
    requires forall k :: 0 <= k < |from| ==> HasMarks(u, run, from[k], position, selected[k])
    requires forall j, k :: 0 <= j < k < |from| ==> from[j] < from[k]
    ensures P.Marks(selected, c) == |Among(u, run, position, from, c)|
  {
    hide HasMarks, VotesFor, P.Occurrences;
    if selected != [] {
      var n := |from| - 1;
      MarksAreVoters(u, run, position, selected[..n], from[..n], c);
      OneVote(u, run, from[n], position, selected[n], c);
      OneMoreVoter(u, run, position, from, c);
    }
  }

  ghost function Among(u: Setup, run: seq<Step>, position: nat, from: seq<nat>, c: int): set<nat> {
    set k | k in from && VotesFor(u, run, k, position, c)
  }

  lemma OneMoreVoter(u: Setup, run: seq<Step>, position: nat, from: seq<nat>, c: int)
    requires from != [] && forall j, k :: 0 <= j < k < |from| ==> from[j] < from[k]
    ensures var n := |from| - 1;
      |Among(u, run, position, from, c)| ==
        |Among(u, run, position, from[..n], c)| + (if VotesFor(u, run, from[n], position, c) then 1 else 0)
  {
    hide VotesFor;
    var n := |from| - 1;
    var before := Among(u, run, position, from[..n], c);
    assert from == from[..n] + [from[n]];
    assert from[n] !in before;
    assert Among(u, run, position, from, c) ==
      if VotesFor(u, run, from[n], position, c) then before + {from[n]} else before;
  }

  /** The votes counted for a candidate are the voters who cast a ballot that names them for the position, each once. */
  lemma VotesAreVoters(u: Setup, run: seq<Step>, position: nat, c: int)
    requires DistinctIds(u.positions)
    ensures P.Marks(Selected(Contents(AfterAll(u, EMPTY, run).ballots), position), c)
         == |VotersFor(u, run, position, c)|
  {
    hide AfterAll, HasMarks, CastsSelection;
    var selected := Selected(Contents(AfterAll(u, EMPTY, run).ballots), position);
    var from := CountedAsCast(u, run, position);
    MarksAreVoters(u, run, position, selected, from, c);
    forall k | VotesFor(u, run, k, position, c) ensures k in from && 0 <= k < |run| {
      VoterCasts(u, run, k, position, c);
    }
    hide VotesFor;
    assert VotersFor(u, run, position, c) == Among(u, run, position, from, c);
  }

  lemma VoterCasts(u: Setup, run: seq<Step>, k: int, position: nat, c: int)
    requires VotesFor(u, run, k, position, c)
    ensures CastsAny(u, run, k, position) && 0 <= k < |run|
  {
  }
}
