/** What the ranked count makes of the selections as they were cast, in terms of the marks alone. */
module RankedAsCast {
  import opened Collections
  import opened RankedRounds
  import opened RankedProportionality
  import opened RankedCount

  // ---- One selection ----

  /** The marks kept are those at `places`, in the voter's order, and no known candidate's mark is left out. */
  ghost predicate KeptAt(marks: seq<Id>, cands: set<Id>, kept: seq<Id>, places: seq<nat>) {
    && |places| == |kept|
    && (forall k :: 0 <= k < |places| ==> places[k] < |marks| && kept[k] == marks[places[k]] && kept[k] in cands)
    && (forall j, k :: 0 <= j < k < |places| ==> places[j] < places[k])
    && (forall i :: 0 <= i < |marks| && marks[i] in cands ==> i in places)
  }

  ghost predicate InOrder(marks: seq<Id>, cands: set<Id>, kept: seq<Id>) {
    exists places :: KeptAt(marks, cands, kept, places)
  }

  lemma {:induction false} KnownSplit(marks: seq<Id>, cands: set<Id>, n: nat)
    requires n <= |marks|
    ensures Known(marks, cands) == Known(marks[..n], cands) + Known(marks[n..], cands)
  {
    if n > 0 {
      assert marks[1..][..n - 1] == marks[..n][1..] && marks[1..][n - 1..] == marks[n..];
      KnownSplit(marks[1..], cands, n - 1);
    } else {
      assert marks[0..] == marks;
    }
  }

  lemma {:induction false} KnownPlaces(marks: seq<Id>, cands: set<Id>) returns (places: seq<nat>)
    ensures KeptAt(marks, cands, Known(marks, cands), places)
  {
    if marks == [] {
      places := [];
    } else {
      var n := |marks| - 1;
      var front := KnownPlaces(marks[..n], cands);
      KnownSplit(marks, cands, n);
      assert marks[n..] == [marks[n]] && marks[n..][1..] == [];
      places := front + if marks[n] in cands then [n] else [];
      assert forall i :: i in front ==> i in places;
      if marks[n] in cands {
        assert places[|front|] == n;
      }
      forall i | 0 <= i < n && marks[i] in cands ensures i in places {
        assert marks[..n][i] in cands;
      }
    }
  }

  lemma {:induction false} KnownElems(marks: seq<Id>, cands: set<Id>)
    ensures forall c :: c in Known(marks, cands) <==> c in marks && c in cands
  {
    if marks != [] {
      KnownElems(marks[1..], cands);
      assert marks == [marks[0]] + marks[1..];
    }
  }

  /** Where the marks kept first number `m`. */
  lemma {:induction false} CutAt(marks: seq<Id>, cands: set<Id>, m: nat) returns (n: nat)
    requires m <= |Known(marks, cands)|
    ensures n <= |marks| && Known(marks[..n], cands) == Known(marks, cands)[..m]
  {
    if m == 0 {
      n := 0;
    } else {
      var fewer := if marks[0] in cands then m - 1 else m;
      var rest := CutAt(marks[1..], cands, fewer);
      n := rest + 1;
      assert marks[..n][1..] == marks[1..][..rest];
    }
  }

  /** The known candidates among the first so many marks are exactly the group. */
  ghost predicate PutsFirst(selection: Option<seq<Id>>, cands: set<Id>, group: set<Id>) {
    selection.Some? && exists n :: 0 <= n <= |selection.value| && LeadsWith(selection.value[..n], cands, group)
  }

  ghost predicate LeadsWith(marks: seq<Id>, cands: set<Id>, group: set<Id>) {
    forall c :: c in group <==> c in marks && c in cands
  }

  lemma SolidAsCast(marks: seq<Id>, cands: set<Id>, group: set<Id>)
    ensures Solid(Known(marks, cands), group) <==> PutsFirst(Some(marks), cands, group)
  {
    var kept := Known(marks, cands);
    if Solid(kept, group) {
      var m :| 0 <= m <= |kept| && Elems(kept[..m]) == group;
      var n := CutAt(marks, cands, m);
      KnownElems(marks[..n], cands);
      assert LeadsWith(marks[..n], cands, group);
    }
    if PutsFirst(Some(marks), cands, group) {
      var n :| 0 <= n <= |marks| && LeadsWith(marks[..n], cands, group);
      KnownElems(marks[..n], cands);
      KnownSplit(marks, cands, n);
      var front := Known(marks[..n], cands);
      forall c ensures c in Elems(front) <==> c in group {
        assert c in front <==> c in marks[..n] && c in cands;
      }
      assert kept[..|front|] == front;
    }
  }

  /** The first mark for a known candidate is for `c`. */
  ghost predicate Prefers(selection: Option<seq<Id>>, cands: set<Id>, c: Id) {
    && selection.Some? && c in cands
    && exists n :: 0 <= n < |selection.value| && selection.value[n] == c
         && forall m :: 0 <= m < n ==> selection.value[m] !in cands
  }

  ghost predicate Marked(selection: Option<seq<Id>>, cands: set<Id>) {
    selection.Some? && exists n :: 0 <= n < |selection.value| && selection.value[n] in cands
  }

  lemma FirstAsCast(selection: Option<seq<Id>>, cands: set<Id>, c: Id)
    ensures Usable(selection, cands) != [] <==> Marked(selection, cands)
    ensures (Usable(selection, cands) != [] && Usable(selection, cands)[0] == c) <==> Prefers(selection, cands, c)
  {
    if selection.Some? {
      var marks := selection.value;
      var places := KnownPlaces(marks, cands);
      if places != [] {
        var first := places[0];
        forall m | 0 <= m < first ensures marks[m] !in cands {
        }
        assert marks[first] in cands;
      }
    }
  }

  // ---- All selections ----

  lemma OneMoreList(selections: seq<Option<seq<Id>>>, cands: set<Id>)
    requires selections != []
    ensures var (last, usable) := (|selections| - 1, Usable(selections[|selections| - 1], cands));
      BallotLists(selections, cands) ==
        if usable == [] then BallotLists(selections[..last], cands)
        else BallotLists(selections[..last], cands) + [usable]
  {
    hide Usable;
  }

  /**
   The lists counted are those of the selections at `from`, in order, and no selection with a known mark is left
   out.
   */
  ghost predicate ListedFrom(selections: seq<Option<seq<Id>>>, cands: set<Id>, lists: seq<seq<Id>>, from: seq<nat>) {
    && |from| == |lists| && (forall j, k :: 0 <= j < k < |from| ==> from[j] < from[k])
    && (forall k :: 0 <= k < |from| ==> from[k] < |selections| && CountedAs(selections[from[k]], cands, lists[k]))
    && (forall i :: 0 <= i < |selections| && Marked(selections[i], cands) ==> i in from)
  }

  ghost predicate CountedAs(selection: Option<seq<Id>>, cands: set<Id>, list: seq<Id>) {
    selection.Some? && InOrder(selection.value, cands, list)
  }

  lemma {:induction false} BallotsAsCast(selections: seq<Option<seq<Id>>>, cands: set<Id>) returns (from: seq<nat>)
    ensures ListedFrom(selections, cands, BallotLists(selections, cands), from)
  {
    hide CountedAs, Usable, Marked, BallotLists, ListedFrom;
    if selections == [] {
      from := [];
      NothingListed(cands);
    } else {
      var last := |selections| - 1;
      from := BallotsAsCast(selections[..last], cands);
      OneMoreList(selections, cands);
      FirstAsCast(selections[last], cands, 0);
      var lists := BallotLists(selections[..last], cands);
      if Usable(selections[last], cands) == [] {
        SkippedList(selections, cands, lists, from);
      } else {
        UsableInOrder(selections[last], cands);
        AddedList(selections, cands, lists, from, Usable(selections[last], cands));
        from := from + [last];
      }
    }
  }

  lemma NothingListed(cands: set<Id>)
    ensures ListedFrom([], cands, BallotLists([], cands), [])
  {
  }

  lemma SkippedList(selections: seq<Option<seq<Id>>>, cands: set<Id>, lists: seq<seq<Id>>, from: seq<nat>)
    requires selections != [] && ListedFrom(selections[..|selections| - 1], cands, lists, from)
    requires !Marked(selections[|selections| - 1], cands)
    ensures ListedFrom(selections, cands, lists, from)
  {
    hide CountedAs, Marked;
    forall i | 0 <= i < |selections| && Marked(selections[i], cands) ensures i in from {
      assert selections[..|selections| - 1][i] == selections[i];
    }
  }

  lemma AddedList(selections: seq<Option<seq<Id>>>, cands: set<Id>, lists: seq<seq<Id>>, from: seq<nat>, list: seq<Id>)
    requires selections != [] && ListedFrom(selections[..|selections| - 1], cands, lists, from)
    requires CountedAs(selections[|selections| - 1], cands, list)
    ensures ListedFrom(selections, cands, lists + [list], from + [|selections| - 1])
  {
    hide CountedAs, Marked;
    var (last, more) := (|selections| - 1, from + [|selections| - 1]);
    assert more[|from|] == last;
    forall i | 0 <= i < |selections| && Marked(selections[i], cands) ensures i in more {
      if i < last {
        assert selections[..last][i] == selections[i] && i in from;
      }
    }
  }

  lemma UsableInOrder(selection: Option<seq<Id>>, cands: set<Id>)
    requires Usable(selection, cands) != []
    ensures CountedAs(selection, cands, Usable(selection, cands))
  {
    var _ := KnownPlaces(selection.value, cands);
  }

  /** The order of the marks and the marks kept leave no choice. */
  lemma {:induction false} OneOrder(marks: seq<Id>, cands: set<Id>, kept: seq<Id>)
    requires InOrder(marks, cands, kept)
    ensures kept == Known(marks, cands)
  {
    var places :| KeptAt(marks, cands, kept, places);
    var others := KnownPlaces(marks, cands);
    SamePlaces(marks, cands, kept, places, Known(marks, cands), others);
  }

  lemma {:induction false} SamePlaces(marks: seq<Id>, cands: set<Id>, a: seq<Id>, ps: seq<nat>, b: seq<Id>,
                                      qs: seq<nat>)
    requires KeptAt(marks, cands, a, ps) && KeptAt(marks, cands, b, qs)
    ensures a == b
    decreases |marks|
  {
    if marks != [] {
      var n := |marks| - 1;
      LastPlace(marks, cands, a, ps);
      LastPlace(marks, cands, b, qs);
      if marks[n] in cands {
        SamePlaces(marks[..n], cands, a[..|a| - 1], ps[..|ps| - 1], b[..|b| - 1], qs[..|qs| - 1]);
        assert a == a[..|a| - 1] + [marks[n]] && b == b[..|b| - 1] + [marks[n]];
      } else {
        SamePlaces(marks[..n], cands, a, ps, b, qs);
      }
    }
  }

  lemma LastPlace(marks: seq<Id>, cands: set<Id>, kept: seq<Id>, places: seq<nat>)
    requires marks != [] && KeptAt(marks, cands, kept, places)
    ensures var n := |marks| - 1;
      if marks[n] in cands then
        && kept != [] && places[|places| - 1] == n && kept[|kept| - 1] == marks[n]
        && KeptAt(marks[..n], cands, kept[..|kept| - 1], places[..|places| - 1])
      else KeptAt(marks[..n], cands, kept, places)
  {
    var n := |marks| - 1;
    if marks[n] in cands {
      assert n in places;
      var k :| 0 <= k < |places| && places[k] == n;
      assert places[|places| - 1] <= n;
      assert k == |places| - 1;
      forall i | 0 <= i < n && marks[i] in cands ensures i in places[..k] {
        var j :| 0 <= j < |places| && places[j] == i;
        assert places[..k][j] == i;
      }
    } else {
      forall k | 0 <= k < |places| ensures places[k] < n {
      }
    }
  }

  /** A selection of known candidates is counted as it stands. */
  lemma CountedAsItStands(marks: seq<Id>, cands: set<Id>)
    requires marks != [] && forall i :: 0 <= i < |marks| ==> marks[i] in cands
    ensures BallotLists([Some(marks)], cands) == [marks]
  {
    AllKnown(marks, cands);
    assert [Some(marks)][..0] == [];
  }

  lemma {:induction false} AllKnown(marks: seq<Id>, cands: set<Id>)
    requires forall i :: 0 <= i < |marks| ==> marks[i] in cands
    ensures Known(marks, cands) == marks
  {
    if marks != [] {
      AllKnown(marks[1..], cands);
      assert marks == [marks[0]] + marks[1..];
    }
  }

  // ---- Numbers of voters ----

  ghost function Voters(selections: seq<Option<seq<Id>>>, test: Option<seq<Id>> -> bool): set<nat> {
    set i: nat | i < |selections| && test(selections[i])
  }

  ghost function Backing(cands: set<Id>, group: set<Id>): Option<seq<Id>> -> bool { s => PutsFirst(s, cands, group) }
  ghost function Marking(cands: set<Id>): Option<seq<Id>> -> bool { s => Marked(s, cands) }
  ghost function Preferring(cands: set<Id>, c: Id): Option<seq<Id>> -> bool { s => Prefers(s, cands, c) }

  lemma OneMoreVoter(selections: seq<Option<seq<Id>>>, test: Option<seq<Id>> -> bool)
    requires selections != []
    ensures var last := |selections| - 1;
      |Voters(selections, test)| == |Voters(selections[..last], test)| + (if test(selections[last]) then 1 else 0)
  {
    var last := |selections| - 1;
    var before := Voters(selections[..last], test);
    assert last !in before && forall i :: 0 <= i < last ==> selections[..last][i] == selections[i];
    assert Voters(selections, test) == if test(selections[last]) then before + {last} else before;
  }

  ghost function Backers(selections: seq<Option<seq<Id>>>, cands: set<Id>, group: set<Id>): set<nat> {
    Voters(selections, Backing(cands, group))
  }

  ghost function Participants(selections: seq<Option<seq<Id>>>, cands: set<Id>): set<nat> {
    Voters(selections, Marking(cands))
  }

  ghost function FirstChoosers(selections: seq<Option<seq<Id>>>, cands: set<Id>, c: Id): set<nat> {
    Voters(selections, Preferring(cands, c))
  }

  lemma {:induction false} SupportersAreBackers(selections: seq<Option<seq<Id>>>, cands: set<Id>, group: set<Id>)
    requires group != {}
    ensures Supporters(BallotLists(selections, cands), group) == |Backers(selections, cands, group)|
  {
    hide PutsFirst, Solid, Usable, BallotLists;
    if selections != [] {
      var last := |selections| - 1;
      SupportersAreBackers(selections[..last], cands, group);
      OneMoreVoter(selections, Backing(cands, group));
      OneMoreList(selections, cands);
      BacksAsCast(selections[last], cands, group);
      var before := BallotLists(selections[..last], cands);
      assert (before + [Usable(selections[last], cands)])[..|before|] == before;
    }
  }

  lemma BacksAsCast(selection: Option<seq<Id>>, cands: set<Id>, group: set<Id>)
    requires group != {}
    ensures PutsFirst(selection, cands, group) <==>
      Usable(selection, cands) != [] && Solid(Usable(selection, cands), group)
  {
    if selection.Some? {
      SolidAsCast(selection.value, cands, group);
    }
  }

  lemma {:induction false} ValidAreParticipants(selections: seq<Option<seq<Id>>>, cands: set<Id>)
    ensures |BallotLists(selections, cands)| == |Participants(selections, cands)|
  {
    hide Marked, Usable, BallotLists;
    if selections != [] {
      var last := |selections| - 1;
      ValidAreParticipants(selections[..last], cands);
      OneMoreVoter(selections, Marking(cands));
      OneMoreList(selections, cands);
      FirstAsCast(selections[last], cands, 0);
    }
  }

  lemma {:induction false} FirstPrefsAreChoosers(selections: seq<Option<seq<Id>>>, cands: set<Id>, c: Id)
    ensures FirstPrefs(BallotLists(selections, cands), c) == |FirstChoosers(selections, cands, c)|
  {
    hide Prefers, Usable, BallotLists;
    if selections != [] {
      var last := |selections| - 1;
      FirstPrefsAreChoosers(selections[..last], cands, c);
      OneMoreVoter(selections, Preferring(cands, c));
      OneMoreList(selections, cands);
      FirstAsCast(selections[last], cands, c);
      var before := BallotLists(selections[..last], cands);
      assert (before + [Usable(selections[last], cands)])[..|before|] == before;
    }
  }
}
