/**
 What submitted data means, told without the code that reads it: which selection it stands for, and that exactly this
 selection is recorded, position by position and for the whole ballot.
 */
module BallotMeaning {
  import opened Collections
  import opened ShareText
  import opened Ballots

  predicate Filled(raw: Raw) { raw != Null && raw != Text("") }

  /** A number, or text that reads as one. */
  predicate Reads(raw: Raw, n: int) { raw == Number(n) || (raw.Text? && ReadInt(raw.s, 10) == Some(n)) }

  /** A list without its blanks; anything else stands for itself. */
  function Items(raw: Raw): seq<Raw> {
    if raw.List? then Filter(raw.items, Filled) else if Filled(raw) then [raw] else []
  }

  ghost predicate Named(raw: Raw, ids: seq<int>) {
    |ids| == |Items(raw)| && forall k :: 0 <= k < |ids| ==> Reads(Items(raw)[k], ids[k])
  }

  predicate SameLetters(text: string, word: string) {
    && |text| == |word|
    && forall i :: 0 <= i < |word| ==>
         text[i] == word[i] || ('a' <= text[i] <= 'z' && text[i] as int - 'a' as int == word[i] as int - 'A' as int)
  }

  /** A valid score for a candidate. */
  predicate Scores(p: Position, entry: (string, Raw), id: int, score: int) {
    && ReadInt(entry.0, 10) == Some(id) && Reads(entry.1, score)
    && 0 <= id && id in p.active && 0 <= score <= p.maxScore
  }

  /** Entry `i` is the last to score the candidate. */
  ghost predicate LastScore(p: Position, entries: seq<(string, Raw)>, i: nat, id: int, score: int)
    requires i < |entries|
  {
    && Filled(entries[i].1) && Scores(p, entries[i], id, score)
    && forall j :: i < j < |entries| && Filled(entries[j].1) ==> ReadInt(entries[j].0, 10) != Some(id)
  }

  ghost predicate AllScore(p: Position, entries: seq<(string, Raw)>) {
    forall i :: 0 <= i < |entries| && Filled(entries[i].1) ==> exists id, score :: Scores(p, entries[i], id, score)
  }

  ghost predicate Given(p: Position, entries: seq<(string, Raw)>, id: int, score: int) {
    exists i :: 0 <= i < |entries| && LastScore(p, entries, i, id, score)
  }

  predicate Holds(scores: map<int, int>, id: int, score: int) { id in scores && scores[id] == score }

  ghost predicate ScoresAre(p: Position, entries: seq<(string, Raw)>, scores: map<int, int>) {
    && AllScore(p, entries)
    && forall id, score :: Holds(scores, id, score) <==> Given(p, entries, id, score)
  }

  /** Nothing filled in. */
  ghost predicate Empty(p: Position, raw: Raw) {
    if p.kind == Score then
      !Filled(raw) || (raw.Dict? && forall i :: 0 <= i < |raw.entries| ==> !Filled(raw.entries[i].1))
    else Items(raw) == []
  }

  /** The data stands for the selection: a ranking as it was sent, any other choice by whom it names. */
  ghost predicate Means(p: Position, raw: Raw, s: Selection) {
    match s
    case Abstained => Empty(p, raw)
    case Answered(yes) =>
      |Items(raw)| == 1 && Items(raw)[0].Text? && SameLetters(Items(raw)[0].s, if yes then "YES" else "NO")
    case Chosen(ids) =>
      exists named :: Named(raw, named) && if p.kind == Ranking then ids == named else multiset(ids) == multiset(named)
    case Scored(scores) => raw.Dict? && ScoresAre(p, raw.entries, scores)
  }

  // ---- Lists ----

  lemma {:induction false} NonBlankIsFilter(items: seq<Raw>)
    ensures NonBlank(items) == Filter(items, Filled)
  {
    if items != [] {
      NonBlankIsFilter(items[1..]);
      assert items == [items[0]] + items[1..];
      FilterJoined([items[0]], items[1..], Filled);
      assert [items[0]][..0] == [];
    }
  }

  lemma ListIsItems(raw: Raw)
    ensures AsList(raw) == Items(raw)
  {
    if raw.List? {
      NonBlankIsFilter(raw.items);
    }
  }

  lemma {:induction false} IntsAreRead(values: seq<Raw>, ids: seq<int>)
    ensures ToInts(values) == Some(ids) <==>
      |ids| == |values| && forall k :: 0 <= k < |ids| ==> Reads(values[k], ids[k])
  {
    hide Reads, ReadInt;
    if values == [] || ids == [] {
      ShortInts(values);
    } else {
      var n := |values| - 1;
      IntsAreRead(values[..n], ids[..|ids| - 1]);
      ToIntReads(values[n], ids[|ids| - 1]);
      assert ids == ids[..|ids| - 1] + [ids[|ids| - 1]];
      if |ids| == |values| && forall k :: 0 <= k < |ids| ==> Reads(values[k], ids[k]) {
        assert forall k :: 0 <= k < n ==> values[..n][k] == values[k] && ids[..n][k] == ids[k];
        assert ToInts(values[..n]) == Some(ids[..n]);
      }
      if ToInts(values) == Some(ids) {
        assert ToInts(values[..n]).value == ids[..|ids| - 1];
        forall k | 0 <= k < |ids| ensures Reads(values[k], ids[k]) {
          if k < n {
            assert values[..n][k] == values[k] && ids[..n][k] == ids[k];
          }
        }
      }
    }
  }

  lemma ShortInts(values: seq<Raw>)
    ensures values != [] && ToInts(values).Some? ==> ToInts(values).value != []
  {
  }

  lemma ToIntReads(raw: Raw, n: int)
    ensures ToInt(raw) == Some(n) <==> Reads(raw, n)
  {
    hide ReadInt;
  }

  lemma IntsAreNamed(raw: Raw, ids: seq<int>)
    ensures ToInts(AsList(raw)) == Some(ids) <==> Named(raw, ids)
  {
    ListIsItems(raw);
    IntsAreRead(AsList(raw), ids);
  }

  // ---- Choices ----

  /** A rearrangement names the same candidates, each once if the other does. */
  lemma Rearranged(xs: seq<int>, ys: seq<int>, valid: set<nat>)
    requires multiset(xs) == multiset(ys) && Distinct(xs) && Among(xs, valid)
    ensures Distinct(ys) && Among(ys, valid) && |ys| == |xs|
  {
    assert |multiset(xs)| == |multiset(ys)|;
    forall i, j | 0 <= i < j < |ys| ensures ys[i] != ys[j] {
      if ys[i] == ys[j] {
        TwiceInMultiset(ys, i, j);
        DistinctOnce(xs, ys[i]);
      }
    }
    forall i | 0 <= i < |ys| ensures ys[i] in valid {
      assert ys[i] in multiset(xs);
      var k :| 0 <= k < |xs| && xs[k] == ys[i];
    }
  }

  lemma ChoiceStands(p: Position, raw: Raw, ids: seq<int>)
    requires NormalizeChoice(p, raw) == Some(Chosen(ids))
    ensures Means(p, raw, Chosen(ids))
  {
    hide Distinct, Among, AsList, ToInts, Least, Most, Named;
    var named := ToInts(AsList(raw)).value;
    IntsAreNamed(raw, named);
    assert Named(raw, named);
  }

  lemma ChoiceRecorded(p: Position, raw: Raw, ids: seq<int>)
    requires Legal(p, Chosen(ids)) && Means(p, raw, Chosen(ids))
    ensures NormalizeChoice(p, raw) == Some(Chosen(ids))
  {
    hide Least, Most, Named, AsList, ToInts, Among, Distinct, Ascending;
    var named :| Named(raw, named) && if p.kind == Ranking then ids == named else multiset(ids) == multiset(named);
    IntsAreNamed(raw, named);
    Rearranged(ids, named, p.active);
    if p.kind != Ranking {
      AscendingUnique(ids, Sorted(named));
    }
    NothingToRead(raw);
  }

  lemma NothingToRead(raw: Raw)
    ensures AsList(raw) == [] ==> ToInts(AsList(raw)) == Some([])
  {
  }

  lemma ChoiceExact(p: Position, raw: Raw, s: Selection)
    requires p.kind != Score && p.kind != Referendum
    ensures NormalizeChoice(p, raw) == Some(s) <==> Means(p, raw, s) && Legal(p, s)
  {
    hide Least, Most, Named, AsList, ToInts, Among, Distinct, Ascending, Items;
    ListIsItems(raw);
    match s
    case Chosen(ids) =>
      if NormalizeChoice(p, raw) == Some(s) {
        ChoiceStands(p, raw, ids);
        ChoiceLegal(p, raw);
      }
      if Means(p, raw, s) && Legal(p, s) {
        ChoiceRecorded(p, raw, ids);
      }
    case _ =>
  }

  // ---- Answers ----

  lemma {:induction false} UpperPointwise(text: string)
    ensures |Upper(text)| == |text|
    ensures forall i :: 0 <= i < |text| ==>
      Upper(text)[i] == if 'a' <= text[i] <= 'z' then (text[i] as int - 32) as char else text[i]
  {
    if text != "" {
      UpperPointwise(text[1..]);
    }
  }

  lemma UpperIsSameLetters(text: string, word: string)
    requires forall i :: 0 <= i < |word| ==> 'A' <= word[i] <= 'Z'
    ensures Upper(text) == word <==> SameLetters(text, word)
  {
    UpperPointwise(text);
    hide Upper;
    if SameLetters(text, word) {
      assert forall i :: 0 <= i < |word| ==> Upper(text)[i] == word[i];
    }
  }

  lemma AnswerExact(p: Position, raw: Raw, s: Selection)
    requires p.kind == Referendum
    ensures NormalizeReferendum(p, raw) == Some(s) <==> Means(p, raw, s) && Legal(p, s)
  {
    hide Items, AsList, Upper, SameLetters;
    ListIsItems(raw);
    var values := Items(raw);
    if |values| == 1 && values[0].Text? {
      UpperIsSameLetters(values[0].s, "YES");
      UpperIsSameLetters(values[0].s, "NO");
      assert "YES" != "NO";
    }
  }

  // ---- Scores ----

  lemma MarkScores(p: Position, entry: (string, Raw))
    ensures ReadMark(p, entry.0, entry.1) == Skip <==> !Filled(entry.1)
    ensures forall id, score ::
      ReadMark(p, entry.0, entry.1) == Mark(id, score) <==> Filled(entry.1) && Scores(p, entry, id, score)
  {
    hide ReadInt;
  }

  lemma {:induction false} ScoresExact(p: Position, entries: seq<(string, Raw)>)
    ensures ReadScores(p, entries).Some? <==> AllScore(p, entries)
    ensures ReadScores(p, entries).Some? ==> ScoresAre(p, entries, ReadScores(p, entries).value)
  {
    hide Scores, Filled, ReadMark;
    if entries != [] {
      var (n, last) := (|entries| - 1, entries[|entries| - 1]);
      ScoresExact(p, entries[..n]);
      MarkScores(p, last);
      AllScoreMore(p, entries);
      match ReadMark(p, last.0, last.1)
      case Bad =>
      case Skip => if AllScore(p, entries[..n]) { SkippedScore(p, entries, ReadScores(p, entries[..n]).value); }
      case Mark(id, score) =>
        if AllScore(p, entries[..n]) { AddedScore(p, entries, ReadScores(p, entries[..n]).value, id, score); }
    }
  }

  lemma AllScoreMore(p: Position, entries: seq<(string, Raw)>)
    requires entries != []
    ensures var (n, last) := (|entries| - 1, entries[|entries| - 1]);
      AllScore(p, entries) <==>
      AllScore(p, entries[..n]) && (Filled(last.1) ==> exists id, score :: Scores(p, last, id, score))
  {
    hide Scores, Filled;
    var n := |entries| - 1;
    assert forall i :: 0 <= i < n ==> entries[..n][i] == entries[i];
    if AllScore(p, entries) {
      forall i | 0 <= i < n && Filled(entries[..n][i].1)
        ensures exists id, score :: Scores(p, entries[..n][i], id, score)
      {
        assert Filled(entries[i].1);
      }
    }
  }

  lemma LastScoreMore(p: Position, entries: seq<(string, Raw)>, i: nat, id: int, score: int)
    requires i < |entries|
    ensures var (n, last) := (|entries| - 1, entries[|entries| - 1]);
      LastScore(p, entries, i, id, score) <==>
      if i == n then Filled(last.1) && Scores(p, last, id, score)
      else LastScore(p, entries[..n], i, id, score) && (Filled(last.1) ==> ReadInt(last.0, 10) != Some(id))
  {
    hide Scores, Filled, ReadInt;
    var n := |entries| - 1;
    assert forall j :: 0 <= j < n ==> entries[..n][j] == entries[j];
    if i < n && LastScore(p, entries, i, id, score) {
      forall j | i < j < n && Filled(entries[..n][j].1) ensures ReadInt(entries[..n][j].0, 10) != Some(id) {
        assert Filled(entries[j].1);
      }
    }
  }

  lemma GivenMore(p: Position, entries: seq<(string, Raw)>, id: int, score: int)
    requires entries != []
    ensures var (n, last) := (|entries| - 1, entries[|entries| - 1]);
      Given(p, entries, id, score) <==>
      (Filled(last.1) && Scores(p, last, id, score))
      || (Given(p, entries[..n], id, score) && (Filled(last.1) ==> ReadInt(last.0, 10) != Some(id)))
  {
    hide Scores, Filled, LastScore, ReadInt;
    var n := |entries| - 1;
    LastScoreMore(p, entries, n, id, score);
    if i :| 0 <= i < n && LastScore(p, entries[..n], i, id, score) {
      LastScoreMore(p, entries, i, id, score);
    }
    if i :| 0 <= i < |entries| && LastScore(p, entries, i, id, score) {
      LastScoreMore(p, entries, i, id, score);
      assert i < n ==> LastScore(p, entries[..n], i, id, score);
    }
  }

  lemma SkippedScore(p: Position, entries: seq<(string, Raw)>, scores: map<int, int>)
    requires entries != [] && !Filled(entries[|entries| - 1].1) && ScoresAre(p, entries[..|entries| - 1], scores)
    requires AllScore(p, entries)
    ensures ScoresAre(p, entries, scores)
  {
    hide Scores, Filled, Given, AllScore, Holds, ReadInt;
    forall id, score ensures Holds(scores, id, score) <==> Given(p, entries, id, score) {
      GivenMore(p, entries, id, score);
    }
  }

  lemma AddedScore(p: Position, entries: seq<(string, Raw)>, scores: map<int, int>, id: int, score: int)
    requires entries != [] && ScoresAre(p, entries[..|entries| - 1], scores) && AllScore(p, entries)
    requires var last := entries[|entries| - 1]; Filled(last.1) && Scores(p, last, id, score)
    ensures ScoresAre(p, entries, scores[id := score])
  {
    var last := entries[|entries| - 1];
    OneReading(p, last, id, score);
    hide Scores, Filled, Given, AllScore, ReadInt;
    forall k, value ensures Holds(scores[id := score], k, value) <==> Given(p, entries, k, value) {
      GivenMore(p, entries, k, value);
      assert Holds(scores, k, value) <==> Given(p, entries[..|entries| - 1], k, value);
    }
  }

  lemma OneReading(p: Position, entry: (string, Raw), id: int, score: int)
    requires Scores(p, entry, id, score)
    ensures ReadInt(entry.0, 10) == Some(id)
    ensures forall k, value :: Scores(p, entry, k, value) <==> k == id && value == score
  {
    hide ReadInt;
  }

  lemma ScoresUnique(p: Position, entries: seq<(string, Raw)>, a: map<int, int>, b: map<int, int>)
    requires ScoresAre(p, entries, a) && ScoresAre(p, entries, b)
    ensures a == b
  {
    hide Given, AllScore;
    forall id ensures id in a <==> id in b {
      assert id in a ==> Holds(a, id, a[id]) && Holds(b, id, a[id]);
      assert id in b ==> Holds(b, id, b[id]) && Holds(a, id, b[id]);
    }
    forall id | id in a ensures a[id] == b[id] {
      assert Holds(a, id, a[id]) && Holds(b, id, a[id]);
    }
  }

  lemma NoScores(p: Position, entries: seq<(string, Raw)>)
    requires ReadScores(p, entries).Some?
    ensures ReadScores(p, entries).value == map[] <==> forall i :: 0 <= i < |entries| ==> !Filled(entries[i].1)
  {
    ScoresExact(p, entries);
    var scores := ReadScores(p, entries).value;
    hide Filled, ReadScores, Given;
    if scores != map[] {
      assert scores.Keys != {};
      ScoreIsFilled(p, entries, scores, PickOne(scores.Keys));
    }
    if i :| 0 <= i < |entries| && Filled(entries[i].1) {
      var id, score := FilledGives(p, entries, i);
      assert Holds(scores, id, score);
    }
  }

  lemma ScoreIsFilled(p: Position, entries: seq<(string, Raw)>, scores: map<int, int>, id: int)
    requires ScoresAre(p, entries, scores) && id in scores
    ensures exists i :: 0 <= i < |entries| && Filled(entries[i].1)
  {
    hide Scores, Filled, AllScore;
    assert Holds(scores, id, scores[id]);
    var i :| 0 <= i < |entries| && LastScore(p, entries, i, id, scores[id]);
    assert Filled(entries[i].1);
  }

  /** Where anything is filled in, the last entry filled in gives a score. */
  lemma {:induction false} FilledGives(p: Position, entries: seq<(string, Raw)>, i: nat) returns (id: int, score: int)
    requires i < |entries| && Filled(entries[i].1) && AllScore(p, entries)
    ensures Given(p, entries, id, score)
    decreases |entries| - i
  {
    hide Filled, ReadInt, Scores;
    if j :| i < j < |entries| && Filled(entries[j].1) {
      id, score := FilledGives(p, entries, j);
    } else {
      id, score :| Scores(p, entries[i], id, score);
      assert LastScore(p, entries, i, id, score);
    }
  }

  lemma ScoreExact(p: Position, raw: Raw, s: Selection)
    requires p.kind == Score
    ensures NormalizeScore(p, raw) == Some(s) <==> Means(p, raw, s) && Legal(p, s)
  {
    hide ReadScores, AllScore, LastScore, Least;
    if raw.Dict? {
      ScoresExact(p, raw.entries);
      if ReadScores(p, raw.entries).Some? {
        NoScores(p, raw.entries);
        ScoresLegal(p, raw.entries);
      }
      match s
      case Scored(scores) =>
        if ScoresAre(p, raw.entries, scores) && ReadScores(p, raw.entries).Some? {
          ScoresUnique(p, raw.entries, scores, ReadScores(p, raw.entries).value);
        }
      case Abstained => NothingScores(p, raw.entries);
      case _ =>
    }
  }

  lemma NothingScores(p: Position, entries: seq<(string, Raw)>)
    ensures (forall i :: 0 <= i < |entries| ==> !Filled(entries[i].1)) ==> AllScore(p, entries)
  {
  }

  // ---- One position ----

  /** Accepted with this selection exactly if the data stands for it and the position allows it. */
  lemma NormalizeIsExact(p: Position, raw: Raw, s: Selection)
    ensures Normalize(p, raw) == Some(s) <==> Means(p, raw, s) && Legal(p, s)
  {
    hide NormalizeChoice, NormalizeScore, NormalizeReferendum, Means, Legal;
    match p.kind
    case Referendum => AnswerExact(p, raw, s);
    case Score => ScoreExact(p, raw, s);
    case _ => ChoiceExact(p, raw, s);
  }

  function Printed(ids: seq<nat>): (r: seq<Raw>)
    ensures |r| == |ids|
  {
    seq(|ids|, i requires 0 <= i < |ids| => Text(Digits(ids[i], 10)))
  }

  lemma {:induction false} AllFilled(items: seq<Raw>)
    requires forall i :: 0 <= i < |items| ==> Filled(items[i])
    ensures Filter(items, Filled) == items
  {
    if items != [] {
      AllFilled(items[..|items| - 1]);
      assert items == items[..|items| - 1] + [items[|items| - 1]];
    }
  }

  function AsInts(ids: seq<nat>): (r: seq<int>)
    ensures |r| == |ids|
  {
    seq(|ids|, i requires 0 <= i < |ids| => ids[i])
  }

  lemma PrintedNamed(sent: seq<nat>)
    ensures Named(List(Printed(sent)), AsInts(sent))
  {
    hide Digits, ReadInt;
    forall i | 0 <= i < |sent| ensures Reads(Printed(sent)[i], AsInts(sent)[i]) && Filled(Printed(sent)[i]) {
      ReadPrinted(sent[i], 10);
    }
    AllFilled(Printed(sent));
    hide Reads;
  }

  lemma NamedMeans(p: Position, raw: Raw, named: seq<int>, ids: seq<int>)
    requires Named(raw, named) && if p.kind == Ranking then ids == named else multiset(ids) == multiset(named)
    ensures Means(p, raw, Chosen(ids))
  {
    hide Named;
  }

  /**
   Ids sent as text, as a web form sends them, are recorded as those ids: a ranking in the order sent, any other choice
   whatever the order.
   */
  lemma PrintedIdsAreRecorded(p: Position, sent: seq<nat>, ids: seq<int>)
    requires Legal(p, Chosen(ids))
    requires if p.kind == Ranking then ids == AsInts(sent) else multiset(ids) == multiset(AsInts(sent))
    ensures Normalize(p, List(Printed(sent))) == Some(Chosen(ids))
  {
    hide Named, Printed, AsInts, Normalize, Means, Legal;
    PrintedNamed(sent);
    NamedMeans(p, List(Printed(sent)), AsInts(sent), ids);
    NormalizeIsExact(p, List(Printed(sent)), Chosen(ids));
  }

  // ---- How many ----

  lemma {:induction false} NoMoreThanActive(ids: seq<int>, valid: set<nat>)
    requires Distinct(ids) && Among(ids, valid)
    ensures |ids| <= |valid|
  {
    if ids != [] {
      var (front, last) := (ids[..|ids| - 1], ids[|ids| - 1]);
      forall i | 0 <= i < |front| ensures front[i] in valid - {last} {
        assert front[i] == ids[i] != last;
      }
      NoMoreThanActive(front, valid - {last});
    }
  }

  /**
   How many candidates may be named: one for a single choice, up to the larger of the limit and the seats where seats
   are filled by votes, any number that is not too small for approval, and between the limits otherwise.
   */
  lemma NumbersAllowed(p: Position, ids: seq<int>)
    requires p.kind != Score && p.kind != Referendum && ids != [] && Distinct(ids) && Among(ids, p.active)
    requires p.kind != Ranking ==> Ascending(ids)
    ensures Legal(p, Chosen(ids)) <==>
      match p.kind
      case Single => |ids| == 1
      case Fptp => |ids| <= Max(p.maxSelect, p.seats) && (p.minSelect <= |ids| || |ids| == Max(p.maxSelect, p.seats))
      case Approval => p.minSelect <= |ids| || |ids| == |p.active|
      case _ => p.minSelect <= |ids| <= Max(p.maxSelect, p.minSelect)
  {
    NoMoreThanActive(ids, p.active);
    hide Distinct, Among, Ascending;
  }

  /** Scores are limited from below only, since each is for a candidate. */
  lemma ScoresAllowed(p: Position, scores: map<int, int>)
    requires p.kind == Score && forall id :: id in scores ==>
      0 <= id && id in p.active && 0 <= scores[id] <= p.maxScore
    ensures Legal(p, Scored(scores)) <==> scores != map[] && |scores| >= p.minSelect
  {
  }

  // ---- The whole ballot ----

  predicate LastFor(entries: seq<(string, Raw)>, key: string, i: int) {
    && 0 <= i < |entries| && entries[i].0 == key
    && forall j :: i < j < |entries| ==> entries[j].0 != key
  }

  /** What was sent for a key: its last value, or nothing. */
  ghost predicate Submitted(entries: seq<(string, Raw)>, key: string, raw: Raw) {
    || (raw == Null && forall i :: 0 <= i < |entries| ==> entries[i].0 != key)
    || exists i :: LastFor(entries, key, i) && entries[i].1 == raw
  }

  lemma {:induction false} LookupIsLast(entries: seq<(string, Raw)>, key: string)
    ensures Submitted(entries, key, Lookup(entries, key))
  {
    if entries != [] && entries[|entries| - 1].0 == key {
      assert LastFor(entries, key, |entries| - 1);
    } else if entries != [] {
      var front := entries[..|entries| - 1];
      LookupIsLast(front, key);
      if i :| LastFor(front, key, i) && front[i].1 == Lookup(front, key) {
        assert LastFor(entries, key, i);
      }
    }
  }

  lemma SubmittedUnique(entries: seq<(string, Raw)>, key: string, a: Raw, b: Raw)
    requires Submitted(entries, key, a) && Submitted(entries, key, b)
    ensures a == b
  {
    forall i, j | LastFor(entries, key, i) && LastFor(entries, key, j) ensures i == j {
    }
    if i :| LastFor(entries, key, i) && entries[i].1 == a {
      assert entries[i].0 == key;
    }
  }

  /** The selection recorded for a position is one it allows and what was sent for it stands for. */
  ghost predicate RecordedFor(p: Position, entries: seq<(string, Raw)>, s: Selection) {
    Legal(p, s) && exists raw :: Submitted(entries, Digits(p.id, 10), raw) && Means(p, raw, s)
  }

  function KeysOf(style: set<nat>): set<string> { set id | id in style :: Digits(id, 10) }

  ghost predicate NoForeign(entries: seq<(string, Raw)>, style: set<nat>) {
    forall i :: 0 <= i < |entries| ==> entries[i].0 in KeysOf(style)
  }

  /** A ballot stands for these selections: one for each position of the style, and nothing besides. */
  ghost predicate StandsFor(positions: seq<Position>, style: set<nat>, payload: Raw, m: Selections) {
    && payload.Dict? && NoForeign(payload.entries, style)
    && (forall id :: id in m <==> id in style && exists i :: 0 <= i < |positions| && positions[i].id == id)
    && forall i :: 0 <= i < |positions| && positions[i].id in style ==>
         positions[i].id in m && RecordedFor(positions[i], payload.entries, m[positions[i].id])
  }

  lemma RecordedIsNormalized(p: Position, entries: seq<(string, Raw)>, s: Selection)
    ensures RecordedFor(p, entries, s) <==> Normalize(p, Lookup(entries, Digits(p.id, 10))) == Some(s)
  {
    hide Digits, Normalize, Means, Legal, Submitted, Lookup;
    var raw := Lookup(entries, Digits(p.id, 10));
    LookupIsLast(entries, Digits(p.id, 10));
    NormalizeIsExact(p, raw, s);
    forall other | Submitted(entries, Digits(p.id, 10), other) ensures other == raw {
      SubmittedUnique(entries, Digits(p.id, 10), other, raw);
    }
  }

  lemma KeyIsNamed(key: string, style: set<nat>)
    ensures key in KeysOf(style) <==> NamesPosition(key, style)
  {
    hide Digits;
  }

  lemma KnownIsNoForeign(entries: seq<(string, Raw)>, style: set<nat>)
    ensures Known(entries, style) <==> NoForeign(entries, style)
  {
    hide KeysOf, NamesPosition;
    forall i | 0 <= i < |entries| ensures entries[i].0 in KeysOf(style) <==> NamesPosition(entries[i].0, style) {
      KeyIsNamed(entries[i].0, style);
    }
  }

  /** A ballot is recorded with these selections exactly if it stands for them. */
  lemma ValidatedIsExact(positions: seq<Position>, style: set<nat>, payload: Raw, m: Selections)
    requires DistinctIds(positions)
    ensures Validated(positions, style, payload) == Some(m) <==> StandsFor(positions, style, payload, m)
  {
    hide NormalizeAll, RecordedFor, Known, NoForeign;
    if payload.Dict? {
      KnownIsNoForeign(payload.entries, style);
    }
    if Validated(positions, style, payload) == Some(m) {
      ValidatedStands(positions, style, payload.entries, m);
    }
    if StandsFor(positions, style, payload, m) {
      StandingValidated(positions, style, payload.entries, m);
    }
  }

  lemma ValidatedStands(positions: seq<Position>, style: set<nat>, entries: seq<(string, Raw)>, m: Selections)
    requires DistinctIds(positions) && NormalizeAll(positions, style, entries) == Some(m) && Known(entries, style)
    ensures StandsFor(positions, style, Dict(entries), m)
  {
    hide Normalize, Lookup, Digits, RecordedFor, NormalizeAll, Known, NoForeign;
    KnownIsNoForeign(entries, style);
    AllNormalized(positions, style, entries);
    forall i | 0 <= i < |positions| && positions[i].id in style
      ensures positions[i].id in m && RecordedFor(positions[i], entries, m[positions[i].id])
    {
      RecordedIsNormalized(positions[i], entries, m[positions[i].id]);
    }
  }

  lemma StandingValidated(positions: seq<Position>, style: set<nat>, entries: seq<(string, Raw)>, m: Selections)
    requires DistinctIds(positions) && StandsFor(positions, style, Dict(entries), m)
    ensures NormalizeAll(positions, style, entries) == Some(m)
  {
    hide Normalize, Lookup, Digits, RecordedFor, NormalizeAll, NoForeign;
    AllNormalized(positions, style, entries);
    forall i | 0 <= i < |positions| && positions[i].id in style
      ensures Normalize(positions[i], Lookup(entries, Digits(positions[i].id, 10))) == Some(m[positions[i].id])
    {
      RecordedIsNormalized(positions[i], entries, m[positions[i].id]);
    }
    SameSelections(positions, style, m, NormalizeAll(positions, style, entries).value);
  }

  lemma SameSelections(positions: seq<Position>, style: set<nat>, a: Selections, b: Selections)
    requires forall id :: id in a <==> id in style && exists i :: 0 <= i < |positions| && positions[i].id == id
    requires forall id :: id in b ==> id in style && exists i :: 0 <= i < |positions| && positions[i].id == id
    requires forall i :: 0 <= i < |positions| && positions[i].id in style ==>
      positions[i].id in a && positions[i].id in b && a[positions[i].id] == b[positions[i].id]
    ensures a == b
  {
    forall id | id in a ensures id in b && a[id] == b[id] {
      var i :| 0 <= i < |positions| && positions[i].id == id;
    }
    forall id | id in b ensures id in a {
      var i :| 0 <= i < |positions| && positions[i].id == id;
    }
  }

  // ---- Ballots as a client sends them ----

  /** How the scores of a selection are listed, if it has any. */
  ghost predicate ListsScores(s: Selection, order: seq<nat>) {
    s.Scored? ==> (forall i :: 0 <= i < |order| ==> order[i] in s.scores) && Keys(order) == s.scores.Keys
  }

  /** The positions listed once each, with their selections. */
  ghost predicate Lists(m: Selections, ids: seq<nat>, orders: map<nat, seq<nat>>) {
    && NoDup(ids) && (forall id :: id in m <==> id in ids)
    && forall id :: id in m ==> id in orders && ListsScores(m[id], orders[id])
  }

  ghost function Sent(m: Selections, ids: seq<nat>, orders: map<nat, seq<nat>>): (r: seq<(string, Raw)>)
    requires Lists(m, ids, orders)
    ensures |r| == |ids|
  {
    seq(|ids|, i requires 0 <= i < |ids| => assert ids[i] in ids;
        (Digits(ids[i], 10), Render(m[ids[i]], orders[ids[i]])))
  }

  lemma SentOnce(m: Selections, ids: seq<nat>, orders: map<nat, seq<nat>>, i: nat)
    requires Lists(m, ids, orders) && i < |ids|
    ensures ids[i] in m && Submitted(Sent(m, ids, orders), Digits(ids[i], 10), Render(m[ids[i]], orders[ids[i]]))
  {
    hide Digits, Render;
    assert ids[i] in ids;
    var sent := Sent(m, ids, orders);
    forall j | i < j < |sent| ensures sent[j].0 != Digits(ids[i], 10) {
      ReadPrinted(ids[i], 10);
      ReadPrinted(ids[j], 10);
    }
    assert LastFor(sent, Digits(ids[i], 10), i);
  }

  ghost predicate AllLegal(positions: seq<Position>, style: set<nat>, m: Selections) {
    && (forall id :: id in m <==> id in style && exists i :: 0 <= i < |positions| && positions[i].id == id)
    && forall i :: 0 <= i < |positions| && positions[i].id in style ==>
         positions[i].id in m && Legal(positions[i], m[positions[i].id])
  }

  lemma SentIsRecorded(p: Position, m: Selections, ids: seq<nat>, orders: map<nat, seq<nat>>)
    requires Lists(m, ids, orders) && p.id in m && Legal(p, m[p.id])
    ensures RecordedFor(p, Sent(m, ids, orders), m[p.id])
  {
    hide Legal, Means, Digits, Submitted, Normalize, Render;
    var i :| 0 <= i < |ids| && ids[i] == p.id;
    SentOnce(m, ids, orders, i);
    LegalIsAccepted(p, m[p.id], orders[p.id]);
    NormalizeIsExact(p, Render(m[p.id], orders[p.id]), m[p.id]);
  }

  lemma SentNamesPositions(m: Selections, ids: seq<nat>, orders: map<nat, seq<nat>>, style: set<nat>)
    requires Lists(m, ids, orders) && forall id :: id in m ==> id in style
    ensures NoForeign(Sent(m, ids, orders), style)
  {
    hide Digits, Render;
    forall i | 0 <= i < |ids| ensures Sent(m, ids, orders)[i].0 in KeysOf(style) {
      assert ids[i] in ids;
    }
  }

  /** A ballot of legal selections, one for each position of the style, is recorded with exactly these. */
  lemma SentBallotIsRecorded(positions: seq<Position>, style: set<nat>, m: Selections, ids: seq<nat>,
                             orders: map<nat, seq<nat>>)
    requires DistinctIds(positions) && AllLegal(positions, style, m) && Lists(m, ids, orders)
    ensures StandsFor(positions, style, Dict(Sent(m, ids, orders)), m)
    ensures Validated(positions, style, Dict(Sent(m, ids, orders))) == Some(m)
  {
    hide Legal, RecordedFor, Sent, Lists, Validated, NoForeign;
    SentNamesPositions(m, ids, orders, style);
    forall i | 0 <= i < |positions| && positions[i].id in style
      ensures RecordedFor(positions[i], Sent(m, ids, orders), m[positions[i].id])
    {
      SentIsRecorded(positions[i], m, ids, orders);
    }
    ValidatedIsExact(positions, style, Dict(Sent(m, ids, orders)), m);
  }
}
