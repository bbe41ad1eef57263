/**
 Ballot validation. What a voter submits is arbitrary data; what is stored is a legal selection for each
 position of the ballot style, or nothing at all.
 */
module Ballots {
  import opened Collections
  import opened ShareText

  datatype Raw = Null | Text(s: string) | Number(n: int) | List(items: seq<Raw>) | Dict(entries: seq<(string, Raw)>)

  datatype Kind = Single | Fptp | Multiple | Approval | Ranking | Score | Referendum

  datatype Position = Position(id: nat, kind: Kind, minSelect: nat, maxSelect: nat, seats: nat, maxScore: nat,
                               allowAbstain: bool, active: set<nat>)

  datatype Selection = Abstained | Chosen(ids: seq<int>) | Scored(scores: map<int, int>) | Answered(yes: bool)

  function Least(p: Position): nat {
    match p.kind
    case Single => Min(p.minSelect, 1)
    case Approval => Min(p.minSelect, Max(|p.active|, 1))
    case Referendum => 1
    case Fptp => Min(p.minSelect, Max(p.maxSelect, p.seats))
    case _ => p.minSelect
  }

  function Most(p: Position): nat {
    match p.kind
    case Single => 1
    case Approval => Max(|p.active|, 1)
    case Referendum => 1
    case Score => Max(|p.active|, 1)
    case Fptp => Max(p.maxSelect, p.seats)
    case _ => Max(p.maxSelect, p.minSelect)
  }

  predicate IsBlank(raw: Raw) { raw == Null || raw == Text("") }

  function NonBlank(items: seq<Raw>): seq<Raw> {
    if items == [] then []
    else (if IsBlank(items[0]) then [] else [items[0]]) + NonBlank(items[1..])
  }

  function AsList(raw: Raw): seq<Raw> {
    if IsBlank(raw) then [] else if raw.List? then NonBlank(raw.items) else [raw]
  }

  function ToInt(raw: Raw): Option<int> {
    match raw
    case Number(n) => Some(n)
    case Text(s) => ReadInt(s, 10)
    case _ => None
  }

  function ToInts(values: seq<Raw>): Option<seq<int>> {
    if values == [] then Some([])
    else
      match (ToInts(values[..|values| - 1]), ToInt(values[|values| - 1]))
      case (Some(ids), Some(id)) => Some(ids + [id])
      case _ => None
  }

  predicate Distinct(xs: seq<int>) { forall i, j :: 0 <= i < j < |xs| ==> xs[i] != xs[j] }

  predicate Among(xs: seq<int>, valid: set<nat>) { forall i :: 0 <= i < |xs| ==> xs[i] in valid }

  predicate Ascending(xs: seq<int>) { forall i, j :: 0 <= i < j < |xs| ==> xs[i] <= xs[j] }

  function Insert(xs: seq<int>, x: int): (r: seq<int>)
    ensures multiset(r) == multiset(xs) + multiset{x}
  {
    if xs == [] then [x]
    else if x <= xs[0] then [x] + xs
    else
      assert xs == [xs[0]] + xs[1..];
      [xs[0]] + Insert(xs[1..], x)
  }

  lemma {:induction false} InsertAscends(xs: seq<int>, x: int)
    requires Ascending(xs)
    ensures Ascending(Insert(xs, x))
  {
    if xs != [] && x > xs[0] {
      var rest := Insert(xs[1..], x);
      InsertAscends(xs[1..], x);
      forall y | y in rest ensures xs[0] <= y {
        InsertedFrom(xs[1..], x, y);
      }
      AscendsAfter(xs[0], rest);
      hide Insert, Ascending;
    }
  }

  lemma InsertedFrom(xs: seq<int>, x: int, y: int)
    requires y in Insert(xs, x)
    ensures y == x || y in xs
  {
    assert y in multiset(Insert(xs, x));
    hide Insert;
  }

  lemma AscendsAfter(first: int, rest: seq<int>)
    requires Ascending(rest) && forall y :: y in rest ==> first <= y
    ensures Ascending([first] + rest)
  {
    forall i, j | 0 <= i < j < |rest| + 1 ensures ([first] + rest)[i] <= ([first] + rest)[j] {
      assert rest[j - 1] in rest;
    }
  }

  function Sorted(xs: seq<int>): (r: seq<int>)
    ensures multiset(r) == multiset(xs) && Ascending(r)
  {
    if xs == [] then []
    else
      assert xs == xs[..|xs| - 1] + [xs[|xs| - 1]];
      InsertAscends(Sorted(xs[..|xs| - 1]), xs[|xs| - 1]);
      Insert(Sorted(xs[..|xs| - 1]), xs[|xs| - 1])
  }

  function Upper(s: string): string {
    if s == "" then "" else [if 'a' <= s[0] <= 'z' then (s[0] as int - 32) as char else s[0]] + Upper(s[1..])
  }

  /** One marked score: nothing for a blank one, an error for anything but a valid score. */
  datatype Mark = Skip | Bad | Mark(id: int, score: int)

  function ReadMark(p: Position, key: string, value: Raw): Mark {
    if IsBlank(value) then Skip
    else
      match (ReadInt(key, 10), ToInt(value))
      case (Some(id), Some(score)) =>
        if id < 0 || id !in p.active || !(0 <= score <= p.maxScore) then Bad else Mark(id, score)
      case _ => Bad
  }

  function ReadScores(p: Position, entries: seq<(string, Raw)>): Option<map<int, int>> {
    if entries == [] then Some(map[])
    else
      var last := entries[|entries| - 1];
      match (ReadScores(p, entries[..|entries| - 1]), ReadMark(p, last.0, last.1))
      case (Some(scores), Skip) => Some(scores)
      case (Some(scores), Mark(id, score)) => Some(scores[id := score])
      case _ => None
  }

  function Abstention(p: Position): Option<Selection> { if p.allowAbstain then Some(Abstained) else None }

  function NormalizeReferendum(p: Position, raw: Raw): Option<Selection> {
    var values := AsList(raw);
    if values == [] then Abstention(p)
    else if |values| != 1 || !values[0].Text? then None
    else if Upper(values[0].s) == "YES" then Some(Answered(true))
    else if Upper(values[0].s) == "NO" then Some(Answered(false))
    else None
  }

  function NormalizeScore(p: Position, raw: Raw): Option<Selection> {
    if IsBlank(raw) || raw == Dict([]) then Abstention(p)
    else if !raw.Dict? then None
    else
      match ReadScores(p, raw.entries)
      case None => None
      case Some(scores) =>
        if scores == map[] then Abstention(p)
        else if |scores| < Least(p) then None
        else Some(Scored(scores))
  }

  function NormalizeChoice(p: Position, raw: Raw): Option<Selection> {
    var values := AsList(raw);
    if values == [] then Abstention(p)
    else
      match ToInts(values)
      case None => None
      case Some(ids) =>
        if !Distinct(ids) || !Among(ids, p.active) then None
        else if |ids| > Most(p) || |ids| < Least(p) then None
        else Some(Chosen(if p.kind == Ranking then ids else Sorted(ids)))
  }

  /** The canonical form of one position's raw selection, or nothing when it must be refused. */
  function Normalize(p: Position, raw: Raw): Option<Selection> {
    match p.kind
    case Referendum => NormalizeReferendum(p, raw)
    case Score => NormalizeScore(p, raw)
    case _ => NormalizeChoice(p, raw)
  }

  // ---- The legal selections ----

  predicate Legal(p: Position, s: Selection) {
    match s
    case Abstained => p.allowAbstain
    case Answered(_) => p.kind == Referendum
    case Scored(scores) =>
      && p.kind == Score && scores != map[] && |scores| >= Least(p)
      && forall id :: id in scores ==> 0 <= id && id in p.active && 0 <= scores[id] <= p.maxScore
    case Chosen(ids) =>
      && p.kind != Score && p.kind != Referendum
      && ids != [] && Least(p) <= |ids| <= Most(p)
      && Distinct(ids) && Among(ids, p.active)
      && (p.kind != Ranking ==> Ascending(ids))
  }

  lemma {:induction false} SortedKeeps(xs: seq<int>, valid: set<nat>)
    requires Distinct(xs) && Among(xs, valid)
    ensures |Sorted(xs)| == |xs| && Distinct(Sorted(xs)) && Among(Sorted(xs), valid)
  {
    var ys := Sorted(xs);
    assert |ys| == |multiset(ys)| == |multiset(xs)| == |xs|;
    forall i | 0 <= i < |ys| ensures ys[i] in valid {
      assert ys[i] in multiset(ys);
      assert ys[i] in multiset(xs);
      var k :| 0 <= k < |xs| && xs[k] == ys[i];
    }
    forall i, j | 0 <= i < j < |ys| ensures ys[i] != ys[j] {
      if ys[i] == ys[j] {
        TwiceInMultiset(ys, i, j);
        DistinctOnce(xs, ys[i]);
      }
    }
  }

  lemma TwiceInMultiset(xs: seq<int>, i: nat, j: nat)
    requires i < j < |xs| && xs[i] == xs[j]
    ensures multiset(xs)[xs[i]] >= 2
  {
    assert xs == xs[..i] + [xs[i]] + xs[i + 1..j] + [xs[j]] + xs[j + 1..];
  }

  lemma {:induction false} DistinctOnce(xs: seq<int>, x: int)
    requires Distinct(xs)
    ensures multiset(xs)[x] <= 1
  {
    if xs != [] {
      var front, last := xs[..|xs| - 1], xs[|xs| - 1];
      DistinctOnce(front, x);
      assert xs == front + [last];
      assert forall k :: 0 <= k < |front| ==> front[k] == xs[k] != last;
    }
  }

  lemma {:induction false} ScoresLegal(p: Position, entries: seq<(string, Raw)>)
    requires ReadScores(p, entries).Some?
    ensures forall id :: id in ReadScores(p, entries).value ==>
      0 <= id && id in p.active && 0 <= ReadScores(p, entries).value[id] <= p.maxScore
  {
    if entries != [] {
      ScoresLegal(p, entries[..|entries| - 1]);
    }
  }

  lemma ChoiceLegal(p: Position, raw: Raw)
    requires p.kind != Score && p.kind != Referendum && NormalizeChoice(p, raw).Some?
    ensures Legal(p, NormalizeChoice(p, raw).value)
  {
    hide Least, Most, Sorted, Distinct, Among, AsList, ToInts;
    var values := AsList(raw);
    if values != [] {
      IntsSize(values);
      SortedKeeps(ToInts(values).value, p.active);
    }
  }

  /** Whatever is accepted is a legal selection. */
  lemma AcceptedIsLegal(p: Position, raw: Raw)
    requires Normalize(p, raw).Some?
    ensures Legal(p, Normalize(p, raw).value)
  {
    hide Least, Most, AsList, Upper, ReadScores, NormalizeChoice;
    match p.kind
    case Referendum =>
    case Score =>
      if raw.Dict? && ReadScores(p, raw.entries).Some? {
        ScoresLegal(p, raw.entries);
      }
    case _ => ChoiceLegal(p, raw);
  }

  lemma {:induction false} IntsSize(values: seq<Raw>)
    requires ToInts(values).Some?
    ensures |ToInts(values).value| == |values|
  {
    if values != [] {
      IntsSize(values[..|values| - 1]);
    }
  }

  // ---- Every legal selection can be cast ----

  function Numbers(ids: seq<int>): (r: seq<Raw>)
    ensures |r| == |ids|
  {
    seq(|ids|, i requires 0 <= i < |ids| => Number(ids[i]))
  }

  lemma {:induction false} NumbersRead(ids: seq<int>)
    ensures NonBlank(Numbers(ids)) == Numbers(ids) && ToInts(Numbers(ids)) == Some(ids)
  {
    if ids != [] {
      var n := |ids|;
      NumbersRead(ids[..n - 1]);
      assert Numbers(ids)[..n - 1] == Numbers(ids[..n - 1]);
      assert Numbers(ids)[n - 1] == Number(ids[n - 1]) && ids == ids[..n - 1] + [ids[n - 1]];
      NothingBlank(Numbers(ids));
    }
  }

  lemma {:induction false} NothingBlank(items: seq<Raw>)
    requires forall i :: 0 <= i < |items| ==> !IsBlank(items[i])
    ensures NonBlank(items) == items
  {
    if items != [] {
      NothingBlank(items[1..]);
    }
  }

  lemma FirstIsLeast(xs: seq<int>, x: int)
    requires Ascending(xs) && x in multiset(xs)
    ensures xs != [] && xs[0] <= x
  {
    var i :| 0 <= i < |xs| && xs[i] == x;
  }

  lemma WithoutFirst(xs: seq<int>)
    requires xs != []
    ensures multiset(xs[1..]) == multiset(xs) - multiset{xs[0]} && (Ascending(xs) ==> Ascending(xs[1..]))
  {
    assert xs == [xs[0]] + xs[1..];
  }

  lemma SameFirst(xs: seq<int>, ys: seq<int>)
    requires Ascending(xs) && Ascending(ys) && multiset(xs) == multiset(ys) && xs != []
    ensures ys != [] && xs[0] == ys[0]
    ensures multiset(xs[1..]) == multiset(ys[1..]) && Ascending(xs[1..]) && Ascending(ys[1..])
  {
    assert xs[0] in multiset(ys);
    FirstIsLeast(ys, xs[0]);
    assert ys[0] in multiset(xs);
    FirstIsLeast(xs, ys[0]);
    hide Ascending;
    WithoutFirst(xs);
    WithoutFirst(ys);
  }

  lemma {:induction false} AscendingUnique(xs: seq<int>, ys: seq<int>)
    requires Ascending(xs) && Ascending(ys) && multiset(xs) == multiset(ys)
    ensures xs == ys
  {
    hide Ascending;
    if xs != [] {
      SameFirst(xs, ys);
      AscendingUnique(xs[1..], ys[1..]);
      assert xs == [xs[0]] + xs[1..] && ys == [ys[0]] + ys[1..];
    } else {
      assert |multiset(ys)| == 0;
    }
  }

  lemma AscendingIsSorted(xs: seq<int>)
    requires Ascending(xs)
    ensures Sorted(xs) == xs
  {
    AscendingUnique(Sorted(xs), xs);
  }

  /** The data a client would send for a selection; `order` lists the scored candidates. */
  function Render(s: Selection, order: seq<nat>): Raw
    requires s.Scored? ==> forall i :: 0 <= i < |order| ==> order[i] in s.scores
  {
    match s
    case Abstained => Null
    case Answered(yes) => Text(if yes then "YES" else "NO")
    case Chosen(ids) => List(Numbers(ids))
    case Scored(scores) => Dict(Entries(scores, order))
  }

  function Entries(scores: map<int, int>, order: seq<nat>): (r: seq<(string, Raw)>)
    requires forall i :: 0 <= i < |order| ==> order[i] in scores
    ensures |r| == |order|
  {
    seq(|order|, i requires 0 <= i < |order| => (Digits(order[i], 10), Number(scores[order[i]])))
  }

  function Keys(order: seq<nat>): set<int> { set i | 0 <= i < |order| :: order[i] as int }

  /** The part of the scores that concerns the listed candidates. */
  function ListedScores(scores: map<int, int>, order: seq<nat>): map<int, int> {
    map id | id in scores && id in Keys(order) :: scores[id]
  }

  lemma EntryRead(p: Position, scores: map<int, int>, id: nat)
    requires Legal(p, Scored(scores)) && id in scores
    ensures ReadMark(p, Digits(id, 10), Number(scores[id])) == Mark(id, scores[id])
  {
    ReadPrinted(id, 10);
    hide Digits;
  }

  lemma EntriesSplit(scores: map<int, int>, front: seq<nat>, last: nat)
    requires last in scores && forall i :: 0 <= i < |front| ==> front[i] in scores
    ensures Entries(scores, front + [last]) == Entries(scores, front) + [(Digits(last, 10), Number(scores[last]))]
    ensures ListedScores(scores, front + [last]) == ListedScores(scores, front)[last := scores[last]]
  {
    hide Digits;
    var order := front + [last];
    assert order[..|front|] == front;
    forall id ensures id in Keys(order) <==> id in Keys(front) || id == last {
      if id in Keys(front) {
        var i :| 0 <= i < |front| && front[i] as int == id;
        assert order[i] == front[i];
      }
      assert order[|front|] == last;
    }
  }

  lemma {:induction false} EntriesRead(p: Position, scores: map<int, int>, order: seq<nat>)
    requires Legal(p, Scored(scores)) && forall i :: 0 <= i < |order| ==> order[i] in scores
    ensures ReadScores(p, Entries(scores, order)) == Some(ListedScores(scores, order))
  {
    hide Legal, ReadMark, Digits, Keys;
    if order == [] {
      NothingListed(scores, order);
    } else {
      var front, last := order[..|order| - 1], order[|order| - 1];
      EntriesRead(p, scores, front);
      EntryRead(p, scores, last);
      EntriesSplit(scores, front, last);
      hide Entries, ListedScores;
      assert order == front + [last];
      var entries := Entries(scores, order);
      assert entries[..|order| - 1] == Entries(scores, front);
      assert entries[|order| - 1] == (Digits(last, 10), Number(scores[last]));
    }
  }

  lemma NothingListed(scores: map<int, int>, order: seq<nat>)
    requires order == []
    ensures ListedScores(scores, order) == map[]
  {
    forall id ensures id !in ListedScores(scores, order) {
      assert id !in Keys(order);
    }
  }

  lemma ChoiceAccepted(p: Position, ids: seq<int>)
    requires Legal(p, Chosen(ids))
    ensures NormalizeChoice(p, List(Numbers(ids))) == Some(Chosen(ids))
  {
    hide Least, Most, Sorted, Among, ToInts, NonBlank;
    NumbersRead(ids);
    if p.kind != Ranking {
      AscendingIsSorted(ids);
    }
  }

  lemma AnswerAccepted(p: Position, yes: bool)
    ensures NormalizeReferendum(p, Text(if yes then "YES" else "NO")) == Some(Answered(yes))
  {
    assert Upper("YES") == "YES" && Upper("NO") == "NO" && "YES" != "NO";
  }

  lemma ScoresAccepted(p: Position, scores: map<int, int>, order: seq<nat>)
    requires Legal(p, Scored(scores)) && forall i :: 0 <= i < |order| ==> order[i] in scores
    requires Keys(order) == scores.Keys
    ensures NormalizeScore(p, Dict(Entries(scores, order))) == Some(Scored(scores))
  {
    hide Least, ReadScores;
    EntriesRead(p, scores, order);
    assert ListedScores(scores, order) == scores;
  }

  /**
   The accepted selections are exactly the legal ones: each legal selection is the canonical form of the data
   a client sends for it, and sending a canonical form again changes nothing.
   */
  lemma LegalIsAccepted(p: Position, s: Selection, order: seq<nat>)
    requires Legal(p, s)
    requires s.Scored? ==> forall i :: 0 <= i < |order| ==> order[i] in s.scores
    requires s.Scored? ==> Keys(order) == s.scores.Keys
    ensures Normalize(p, Render(s, order)) == Some(s)
  {
    hide Upper, NormalizeReferendum, NormalizeScore, NormalizeChoice;
    match s
    case Abstained => NullAbstains(p);
    case Answered(yes) => AnswerAccepted(p, yes);
    case Chosen(ids) => ChoiceAccepted(p, ids);
    case Scored(scores) => ScoresAccepted(p, scores, order);
  }

  lemma NullAbstains(p: Position)
    ensures NormalizeReferendum(p, Null) == NormalizeScore(p, Null) == NormalizeChoice(p, Null) == Abstention(p)
  {
  }

  // ---- The whole ballot ----

  type Selections = map<nat, Selection>

  /** What the payload holds under a key; a repeated key counts once, with its last value. */
  function Lookup(entries: seq<(string, Raw)>, key: string): Raw {
    if entries == [] then Null
    else if entries[|entries| - 1].0 == key then entries[|entries| - 1].1
    else Lookup(entries[..|entries| - 1], key)
  }

  predicate NamesPosition(key: string, style: set<nat>) { exists id :: id in style && key == Digits(id, 10) }

  predicate Known(entries: seq<(string, Raw)>, style: set<nat>) {
    forall i :: 0 <= i < |entries| ==> NamesPosition(entries[i].0, style)
  }

  function NormalizeAll(positions: seq<Position>, style: set<nat>, entries: seq<(string, Raw)>): Option<Selections> {
    if positions == [] then Some(map[])
    else
      var p := positions[|positions| - 1];
      match NormalizeAll(positions[..|positions| - 1], style, entries)
      case None => None
      case Some(done) =>
        if p.id !in style then Some(done)
        else
          match Normalize(p, Lookup(entries, Digits(p.id, 10)))
          case None => None
          case Some(s) => Some(done[p.id := s])
  }

  /** The selections of a whole ballot, or nothing: there is no partial ballot. */
  function Validated(positions: seq<Position>, style: set<nat>, payload: Raw): Option<Selections> {
    if !payload.Dict? || !Known(payload.entries, style) then None
    else NormalizeAll(positions, style, payload.entries)
  }

  ghost predicate DistinctIds(positions: seq<Position>) {
    forall i, j :: 0 <= i < j < |positions| ==> positions[i].id != positions[j].id
  }

  lemma {:induction false} AllNormalized(positions: seq<Position>, style: set<nat>, entries: seq<(string, Raw)>)
    requires DistinctIds(positions)
    ensures NormalizeAll(positions, style, entries).Some? <==>
      forall i :: 0 <= i < |positions| && positions[i].id in style ==>
        Normalize(positions[i], Lookup(entries, Digits(positions[i].id, 10))).Some?
    ensures NormalizeAll(positions, style, entries).Some? ==>
      var m := NormalizeAll(positions, style, entries).value;
      && (forall id :: id in m ==> id in style && exists i :: 0 <= i < |positions| && positions[i].id == id)
      && forall i :: 0 <= i < |positions| && positions[i].id in style ==>
           && positions[i].id in m
           && Some(m[positions[i].id]) == Normalize(positions[i], Lookup(entries, Digits(positions[i].id, 10)))
  {
    hide Normalize, Lookup, Digits;
    if positions != [] {
      AllNormalized(positions[..|positions| - 1], style, entries);
      forall i | 0 <= i < |positions| - 1 ensures positions[..|positions| - 1][i] == positions[i] {
      }
    }
  }

  /**
   A ballot is accepted exactly when it is a dictionary without foreign positions and every position of the
   style has an acceptable selection; then exactly those positions are recorded, each legally.
   */
  lemma BallotIsWhole(positions: seq<Position>, style: set<nat>, payload: Raw)
    requires DistinctIds(positions)
    ensures Validated(positions, style, payload).Some? <==>
      && payload.Dict? && Known(payload.entries, style)
      && forall i :: 0 <= i < |positions| && positions[i].id in style ==>
           Normalize(positions[i], Lookup(payload.entries, Digits(positions[i].id, 10))).Some?
    ensures Validated(positions, style, payload).Some? ==>
      var m := Validated(positions, style, payload).value;
      && (forall id :: id in m ==> id in style && exists i :: 0 <= i < |positions| && positions[i].id == id)
      && forall i :: 0 <= i < |positions| && positions[i].id in style ==>
           positions[i].id in m && Legal(positions[i], m[positions[i].id])
  {
    hide Normalize, Legal, Lookup, Digits, Known;
    if payload.Dict? {
      AllNormalized(positions, style, payload.entries);
      if Validated(positions, style, payload).Some? {
        forall i | 0 <= i < |positions| && positions[i].id in style
          ensures Legal(positions[i], Validated(positions, style, payload).value[positions[i].id])
        {
          AcceptedIsLegal(positions[i], Lookup(payload.entries, Digits(positions[i].id, 10)));
        }
      }
    }
  }

  // ---- The loops ----

  method ReadIds(values: seq<Raw>) returns (r: Option<seq<int>>)
    ensures r == ToInts(values)
  {
    var ids := [];
    for i := 0 to |values|
      invariant ToInts(values[..i]) == Some(ids)
    {
      assert values[..i + 1][..i] == values[..i];
      match ToInt(values[i])
      case None =>
        NoIntsAfter(values, i + 1);
        return None;
      case Some(id) => ids := ids + [id];
    }
    assert values[..|values|] == values;
    r := Some(ids);
  }

  lemma {:induction false} NoIntsAfter(values: seq<Raw>, i: nat)
    requires i <= |values| && ToInts(values[..i]).None?
    ensures ToInts(values).None?
    decreases |values|
  {
    if i < |values| {
      assert values[..|values| - 1][..i] == values[..i];
      NoIntsAfter(values[..|values| - 1], i);
    } else {
      assert values[..i] == values;
    }
  }

  method CollectScores(p: Position, entries: seq<(string, Raw)>) returns (r: Option<map<int, int>>)
    ensures r == ReadScores(p, entries)
  {
    var scores := map[];
    for i := 0 to |entries|
      invariant ReadScores(p, entries[..i]) == Some(scores)
    {
      assert entries[..i + 1][..i] == entries[..i];
      match ReadMark(p, entries[i].0, entries[i].1)
      case Skip =>
      case Bad =>
        NoScoresAfter(p, entries, i + 1);
        return None;
      case Mark(id, score) => scores := scores[id := score];
    }
    assert entries[..|entries|] == entries;
    r := Some(scores);
  }

  lemma {:induction false} NoScoresAfter(p: Position, entries: seq<(string, Raw)>, i: nat)
    requires i <= |entries| && ReadScores(p, entries[..i]).None?
    ensures ReadScores(p, entries).None?
    decreases |entries|
  {
    if i < |entries| {
      assert entries[..|entries| - 1][..i] == entries[..i];
      NoScoresAfter(p, entries[..|entries| - 1], i);
    } else {
      assert entries[..i] == entries;
    }
  }

  method NormalizeSelection(p: Position, raw: Raw) returns (r: Option<Selection>)
    ensures r == Normalize(p, raw)
  {
    hide Upper, ReadScores, ToInts, AsList, Sorted, Distinct, Among, Least, Most;
    if p.kind == Referendum {
      return NormalizeReferendum(p, raw);
    }
    if p.kind == Score {
      if IsBlank(raw) || raw == Dict([]) {
        return Abstention(p);
      }
      if !raw.Dict? {
        return None;
      }
      var scores := CollectScores(p, raw.entries);
      if scores.None? {
        return None;
      }
      if scores.value == map[] {
        return Abstention(p);
      }
      return if |scores.value| < Least(p) then None else Some(Scored(scores.value));
    }
    var values := AsList(raw);
    if values == [] {
      return Abstention(p);
    }
    var ids := ReadIds(values);
    if ids.None? || !Distinct(ids.value) || !Among(ids.value, p.active) {
      return None;
    }
    if |ids.value| > Most(p) || |ids.value| < Least(p) {
      return None;
    }
    r := Some(Chosen(if p.kind == Ranking then ids.value else Sorted(ids.value)));
  }

  method ValidateBallot(positions: seq<Position>, style: set<nat>, payload: Raw) returns (r: Option<Selections>)
    ensures r == Validated(positions, style, payload)
  {
    if !payload.Dict? || !Known(payload.entries, style) {
      return None;
    }
    hide Normalize, Lookup, Digits;
    var selections: Selections := map[];
    for i := 0 to |positions|
      invariant NormalizeAll(positions[..i], style, payload.entries) == Some(selections)
    {
      assert positions[..i + 1][..i] == positions[..i];
      var p := positions[i];
      if p.id in style {
        var s := NormalizeSelection(p, Lookup(payload.entries, Digits(p.id, 10)));
        if s.None? {
          NoBallotAfter(positions, style, payload.entries, i + 1);
          return None;
        }
        selections := selections[p.id := s.value];
      }
    }
    assert positions[..|positions|] == positions;
    r := Some(selections);
  }

  lemma {:induction false} NoBallotAfter(positions: seq<Position>, style: set<nat>, entries: seq<(string, Raw)>, i: nat)
    requires i <= |positions| && NormalizeAll(positions[..i], style, entries).None?
    ensures NormalizeAll(positions, style, entries).None?
    decreases |positions|
  {
    if i < |positions| {
      assert positions[..|positions| - 1][..i] == positions[..i];
      NoBallotAfter(positions[..|positions| - 1], style, entries, i);
    } else {
      assert positions[..i] == positions;
    }
  }
}
