/** The bulletin board as the tally and the public listing see it: the trackers of all stored ballots, in order. */
module Bulletin {
  import opened Collections
  import opened ByteStrings
  import opened Merkle
  import opened Ballots

  /** A stored ballot: its tracker, and what decryption yields, or nothing when it fails. */
  datatype Vote = Vote(tracker: Digest, content: Option<Selections>)

  predicate Before(a: Digest, b: Digest) { FromBytes(a) <= FromBytes(b) }

  function Insert(xs: seq<Digest>, x: Digest): seq<Digest> {
    if xs == [] then [x] else if Before(x, xs[0]) then [x] + xs else [xs[0]] + Insert(xs[1..], x)
  }

  function Sorted(xs: seq<Digest>): seq<Digest> {
    if xs == [] then [] else Insert(Sorted(xs[..|xs| - 1]), xs[|xs| - 1])
  }

  function Trackers(board: seq<Vote>): (r: seq<Digest>)
    ensures |r| == |board|
  {
    seq(|board|, i requires 0 <= i < |board| => board[i].tracker)
  }

  /** The public list of trackers. */
  function Listed(board: seq<Vote>): seq<Digest> { Sorted(Trackers(board)) }

  ghost predicate Ordered(xs: seq<Digest>) { forall i, j :: 0 <= i < j < |xs| ==> Before(xs[i], xs[j]) }

  lemma SameNumberSameDigest(a: Digest, b: Digest)
    requires FromBytes(a) == FromBytes(b)
    ensures a == b
  {
    BytesThere(a);
    BytesThere(b);
  }

  lemma {:induction false} InsertKeeps(xs: seq<Digest>, x: Digest)
    requires Ordered(xs)
    ensures Ordered(Insert(xs, x)) && multiset(Insert(xs, x)) == multiset(xs) + multiset{x}
  {
    hide FromBytes;
    if xs != [] {
      assert xs == [xs[0]] + xs[1..];
      if !Before(x, xs[0]) {
        InsertKeeps(xs[1..], x);
        forall y | y in Insert(xs[1..], x) ensures Before(xs[0], y) {
          assert y in multiset(xs[1..]) + multiset{x};
        }
      }
    }
  }

  lemma {:induction false} SortedIsOrdered(xs: seq<Digest>)
    ensures Ordered(Sorted(xs)) && multiset(Sorted(xs)) == multiset(xs) && |Sorted(xs)| == |xs|
  {
    if xs != [] {
      SortedIsOrdered(xs[..|xs| - 1]);
      InsertKeeps(Sorted(xs[..|xs| - 1]), xs[|xs| - 1]);
      assert xs == xs[..|xs| - 1] + [xs[|xs| - 1]];
    }
    assert |multiset(Sorted(xs))| == |multiset(xs)|;
  }

  lemma {:induction false} OrderIsUnique(xs: seq<Digest>, ys: seq<Digest>)
    requires Ordered(xs) && Ordered(ys) && multiset(xs) == multiset(ys)
    ensures xs == ys
  {
    assert |multiset(xs)| == |multiset(ys)|;
    if xs != [] {
      assert xs[0] in multiset(ys) && ys[0] in multiset(xs);
      SameNumberSameDigest(xs[0], ys[0]);
      assert xs == [xs[0]] + xs[1..] && ys == [ys[0]] + ys[1..];
      assert multiset(xs[1..]) == multiset(xs) - multiset{xs[0]};
      OrderIsUnique(xs[1..], ys[1..]);
    }
  }

  lemma SortedByContents(xs: seq<Digest>, ys: seq<Digest>)
    requires multiset(xs) == multiset(ys)
    ensures Sorted(xs) == Sorted(ys)
  {
    SortedIsOrdered(xs);
    SortedIsOrdered(ys);
    OrderIsUnique(Sorted(xs), Sorted(ys));
  }

  // ---- The ballots as the tally reads them ----

  function InsertVote(votes: seq<Vote>, v: Vote): seq<Vote> {
    if votes == [] then [v]
    else if Before(v.tracker, votes[0].tracker) then [v] + votes
    else [votes[0]] + InsertVote(votes[1..], v)
  }

  /** The board in the order of its trackers, which tells nothing of the order of casting. */
  function ByTracker(board: seq<Vote>): seq<Vote> {
    if board == [] then [] else InsertVote(ByTracker(board[..|board| - 1]), board[|board| - 1])
  }

  ghost predicate InOrder(votes: seq<Vote>) {
    forall i, j :: 0 <= i < j < |votes| ==> Before(votes[i].tracker, votes[j].tracker)
  }

  lemma {:induction false} InsertVoteKeeps(votes: seq<Vote>, v: Vote)
    requires InOrder(votes)
    ensures InOrder(InsertVote(votes, v)) && multiset(InsertVote(votes, v)) == multiset(votes) + multiset{v}
  {
    hide FromBytes;
    if votes != [] {
      assert votes == [votes[0]] + votes[1..];
      if !Before(v.tracker, votes[0].tracker) {
        InsertVoteKeeps(votes[1..], v);
        forall w | w in InsertVote(votes[1..], v) ensures Before(votes[0].tracker, w.tracker) {
          assert w in multiset(votes[1..]) + multiset{v};
        }
      }
    }
  }

  lemma {:induction false} ByTrackerKeeps(board: seq<Vote>)
    ensures InOrder(ByTracker(board)) && multiset(ByTracker(board)) == multiset(board)
    ensures |ByTracker(board)| == |board|
  {
    if board != [] {
      ByTrackerKeeps(board[..|board| - 1]);
      InsertVoteKeeps(ByTracker(board[..|board| - 1]), board[|board| - 1]);
      assert board == board[..|board| - 1] + [board[|board| - 1]];
    }
    assert |multiset(ByTracker(board))| == |multiset(board)|;
  }

  function Opening(board: seq<Vote>): seq<Vote> {
    if board == [] then []
    else Opening(board[..|board| - 1]) + if board[|board| - 1].content.Some? then [board[|board| - 1]] else []
  }

  function Failing(board: seq<Vote>): seq<Vote> {
    if board == [] then []
    else Failing(board[..|board| - 1]) + if board[|board| - 1].content.None? then [board[|board| - 1]] else []
  }

  lemma {:induction false} NothingLost(board: seq<Vote>)
    ensures multiset(Trackers(Opening(board))) + multiset(Trackers(Failing(board))) == multiset(Trackers(board))
    ensures |Opening(board)| + |Failing(board)| == |board|
  {
    if board != [] {
      var front, last := board[..|board| - 1], board[|board| - 1];
      NothingLost(front);
      assert board == front + [last];
      assert Trackers([last]) == [last.tracker];
      Appending(front, [last]);
      if last.content.Some? {
        Appending(Opening(front), [last]);
        assert Failing(board) == Failing(front);
      } else {
        Appending(Failing(front), [last]);
        assert Opening(board) == Opening(front);
      }
    }
  }

  lemma Appending(a: seq<Vote>, b: seq<Vote>)
    ensures Trackers(a + b) == Trackers(a) + Trackers(b)
  {
  }

  lemma ListedAreStored(board: seq<Vote>, tracker: seq<Byte>)
    ensures |Listed(board)| == |board|
    ensures tracker in Listed(board) <==> exists i :: 0 <= i < |board| && board[i].tracker == tracker
  {
    SortedIsOrdered(Trackers(board));
    assert tracker in Listed(board) <==> tracker in multiset(Listed(board));
    if i :| 0 <= i < |board| && board[i].tracker == tracker {
      assert Trackers(board)[i] == tracker;
    }
  }

  /** A list is as free of repetitions as the board, and its trackers are digests. */
  lemma ListedDistinct(board: seq<Vote>)
    requires NoDup(Trackers(board))
    ensures NoDup(Listed(board)) && Plain(Listed(board))
  {
    var (xs, ys) := (Trackers(board), Listed(board));
    SortedIsOrdered(xs);
    forall i, j | 0 <= i < j < |ys| ensures ys[i] != ys[j] {
      if ys[i] == ys[j] {
        TwiceCounted(ys, i, j);
        CountedOnce(xs, ys[i]);
      }
    }
  }

  lemma TwiceCounted(xs: seq<Digest>, i: nat, j: nat)
    requires i < j < |xs| && xs[i] == xs[j]
    ensures multiset(xs)[xs[i]] >= 2
  {
    assert xs == xs[..j] + [xs[j]] + xs[j + 1..];
    assert xs[..j][i] in multiset(xs[..j]);
  }

  lemma {:induction false} CountedOnce(xs: seq<Digest>, x: Digest)
    requires NoDup(xs)
    ensures multiset(xs)[x] <= 1
  {
    if xs != [] {
      var front, last := xs[..|xs| - 1], xs[|xs| - 1];
      CountedOnce(front, x);
      assert xs == front + [last];
      assert last in multiset(front) <==> last in front;
    }
  }

  /** The ballots that open, by contents and in the order of their trackers. */
  ghost predicate OpensTo(board: seq<Vote>, valid: seq<Vote>) {
    InOrder(valid) && forall v: Vote :: multiset(valid)[v] == if v.content.Some? then multiset(board)[v] else 0
  }

  predicate Opens(v: Vote) { v.content.Some? }

  lemma {:induction false} OpeningIsFilter(votes: seq<Vote>)
    ensures Opening(votes) == Filter(votes, Opens)
  {
    if votes != [] {
      OpeningIsFilter(votes[..|votes| - 1]);
    }
  }

  lemma {:induction false} OpeningInOrder(votes: seq<Vote>)
    requires InOrder(votes)
    ensures InOrder(Opening(votes)) && forall v :: v in Opening(votes) ==> v in votes
  {
    hide Before;
    if votes != [] {
      var front, last := votes[..|votes| - 1], votes[|votes| - 1];
      OpeningInOrder(front);
      forall v | v in Opening(front) ensures Before(v.tracker, last.tracker) {
        assert v in front;
      }
    }
  }

  lemma OpeningIsPart(votes: seq<Vote>)
    requires InOrder(votes)
    ensures OpensTo(votes, Opening(votes))
  {
    hide InOrder, Opening;
    OpeningIsFilter(votes);
    OpeningInOrder(votes);
    FilterCounts(votes, Opens);
  }

  lemma OpeningIsBoard(board: seq<Vote>)
    ensures OpensTo(board, Opening(ByTracker(board)))
    ensures |Opening(ByTracker(board))| + |Failing(ByTracker(board))| == |board|
  {
    ByTrackerKeeps(board);
    OpeningIsPart(ByTracker(board));
    NothingLost(ByTracker(board));
  }

  lemma {:induction false} InsertVoteTrackers(votes: seq<Vote>, v: Vote)
    ensures multiset(Trackers(InsertVote(votes, v))) == multiset(Trackers(votes)) + multiset{v.tracker}
  {
    hide Before;
    if votes == [] {
      assert Trackers([v]) == [v.tracker];
    } else {
      assert votes == [votes[0]] + votes[1..];
      Appending([votes[0]], votes[1..]);
      InsertVoteTrackers(votes[1..], v);
      Appending([votes[0]], InsertVote(votes[1..], v));
      Appending([v], votes);
      assert Trackers([v]) == [v.tracker];
    }
  }

  lemma {:induction false} ByTrackerTrackers(board: seq<Vote>)
    ensures multiset(Trackers(ByTracker(board))) == multiset(Trackers(board))
  {
    hide Trackers, InsertVote;
    if board != [] {
      var front, last := board[..|board| - 1], board[|board| - 1];
      ByTrackerTrackers(front);
      InsertVoteTrackers(ByTracker(front), last);
      assert board == front + [last];
      Appending(front, [last]);
      OneTracker(last);
    }
  }

  lemma OneTracker(v: Vote)
    ensures Trackers([v]) == [v.tracker]
  {
  }

  /** What the ballots of a board contribute to the count, and the trackers that go on the bulletin. */
  method Decrypt(board: seq<Vote>) returns (valid: seq<Vote>, invalid: seq<Digest>, trackers: seq<Digest>)
    ensures valid == Opening(ByTracker(board)) && invalid == Trackers(Failing(ByTracker(board)))
    ensures trackers == Listed(board)
  {
    var votes := ByTracker(board);
    valid, invalid := [], [];
    for i := 0 to |votes|
      invariant valid == Opening(votes[..i]) && invalid == Trackers(Failing(votes[..i]))
    {
      assert votes[..i + 1][..i] == votes[..i];
      if votes[i].content.Some? {
        valid := valid + [votes[i]];
      } else {
        invalid := invalid + [votes[i].tracker];
      }
    }
    assert votes[..|votes|] == votes;
    trackers := Sorted(Sorted(Trackers(valid)) + Sorted(invalid));
    AllListed(board);
    hide Opening, Failing, Sorted, ByTracker;
  }

  lemma AllListed(board: seq<Vote>)
    ensures Sorted(Sorted(Trackers(Opening(ByTracker(board)))) + Sorted(Trackers(Failing(ByTracker(board)))))
         == Listed(board)
  {
    hide Opening, Failing, Sorted, ByTracker, Trackers;
    var votes := ByTracker(board);
    SortedIsOrdered(Trackers(Opening(votes)));
    SortedIsOrdered(Trackers(Failing(votes)));
    NothingLost(votes);
    ByTrackerTrackers(board);
    SortedByContents(Sorted(Trackers(Opening(votes))) + Sorted(Trackers(Failing(votes))), Trackers(board));
  }

  /** The place of a tracker on the list: its first occurrence. */
  method Locate(listed: seq<Digest>, tracker: seq<Byte>) returns (index: Option<nat>)
    ensures index.None? <==> tracker !in listed
    ensures index.Some? ==>
      index.value < |listed| && listed[index.value] == tracker && tracker !in listed[..index.value]
  {
    for i := 0 to |listed|
      invariant tracker !in listed[..i]
    {
      if listed[i] == tracker {
        return Some(i);
      }
    }
    index := None;
  }

  datatype Proof = NotIncluded(root: Digest, size: nat)
                 | Included(index: nat, proof: seq<Sibling>, root: Digest, size: nat)

  /** A proof is returned for exactly the stored ballots, and it checks against the root of the board. */
  method TrackerProof(h: seq<Byte> -> Digest, board: seq<Vote>, tracker: seq<Byte>) returns (r: Proof)
    ensures r.root == Root(h, Listed(board)) && r.size == |board|
    ensures r.Included? <==> exists i :: 0 <= i < |board| && board[i].tracker == tracker
    ensures r.Included? ==> Accepts(h, tracker, r.proof, r.root)
  {
    var listed := Listed(board);
    ListedAreStored(board, tracker);
    hide Listed, Root, Accepts, Path, Climbed;
    var root := MerkleRoot(h, listed);
    var index := Locate(listed, tracker);
    if index.None? {
      return NotIncluded(root, |listed|);
    }
    var proof := MerkleProof(h, listed, index.value);
    ProofsAreComplete(h, listed, index.value);
    r := Included(index.value, proof, root, |listed|);
  }
}
