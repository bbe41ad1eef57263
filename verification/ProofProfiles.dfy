/**
 Which inclusion proofs can be trusted, by the length of the value and the lengths of the siblings. The checker takes
 byte strings of any length. A leaf is hashed from one byte and its value, a node from 64 bytes: a single byte beside
 a digest makes the text of a leaf, and a value of 63 bytes that of a node.
 */
module ProofProfiles {
  import opened Collections
  import opened ByteStrings
  import opened Merkle

  /**
   Whatever collision-free hash and board of digests: an accepted proof of a value of this length, with siblings of
   these lengths, is of a value on the board.
   */
  ghost predicate SoundFor(length: nat, lengths: seq<nat>) {
    forall h: seq<Byte> -> Digest, values: seq<Digest>, value: seq<Byte>, proof: seq<Sibling> ::
      && |value| == length && Lengths(proof) == lengths && Accepts(h, value, proof, Root(h, values))
      && CollisionFree(h, BoardTexts(h, values) + ProofTexts(h, value, proof))
      ==> value in values
  }

  // ---- A digest for every step ----

  function Power(n: nat): (r: nat)
    ensures r > 0
  {
    if n == 0 then 1 else 256 * Power(n - 1)
  }

  lemma {:induction false} NumberThere(n: nat, len: nat)
    requires n < Power(len)
    ensures FromBytes(ToBytes(n, len)) == n
  {
    if len > 0 {
      NumberThere(n / 256, len - 1);
      var bs := ToBytes(n, len);
      assert bs[..len - 1] == ToBytes(n / 256, len - 1) && bs[len - 1] == n % 256;
    }
  }

  function Zeros(n: nat): (bs: seq<Byte>)
    ensures |bs| == n
  {
    seq(n, i => 0)
  }

  /** The digest of step `k`: a byte 1 and the number of the step. */
  function Stamp(k: nat): Digest { [1] + ToBytes(k, 31) }

  /**
   The sibling of step `k`: the single byte 0 on the left at the step `at`, later on the digest reached so far, and
   before any string of the length asked for. With `at` -1 all siblings are digests.
   */
  function Step(lengths: seq<nat>, at: int, k: nat): Sibling
    requires k < |lengths|
  {
    if k == at then Sibling([0], true)
    else if k > at then Sibling(Stamp(k), false)
    else Sibling(Zeros(lengths[k]), false)
  }

  /** The text hashed in step `k`, from a value of zero bytes on. */
  function StepText(length: nat, lengths: seq<nat>, at: int, k: nat): seq<Byte>
    requires k <= |lengths|
  {
    if k == 0 then LeafText(Zeros(length)) else ClimbText(Stamp(k - 1), Step(lengths, at, k - 1))
  }

  function Steps(lengths: seq<nat>, at: int): (proof: seq<Sibling>)
    ensures |proof| == |lengths|
  {
    seq(|lengths|, k requires 0 <= k < |lengths| => Step(lengths, at, k))
  }

  /** Which step a text belongs to. */
  function StepOf(at: int, text: seq<Byte>): nat
    requires at >= -1
  {
    if |text| < 32 then 0
    else if text[0] == 1 then FromBytes(text[1..32]) + 1
    else if text[1] == 1 then at + 1
    else 0
  }

  /** A hash that takes the text of each step to its stamp. */
  ghost predicate Stamps(h: seq<Byte> -> Digest, length: nat, lengths: seq<nat>, at: int) {
    forall k :: 0 <= k <= |lengths| ==> h(StepText(length, lengths, at, k)) == Stamp(k)
  }

  lemma StampThere(k: nat, rest: seq<Byte>)
    requires k < Power(31)
    ensures forall at: int :: at >= -1 ==> StepOf(at, Stamp(k) + rest) == k + 1
  {
    NumberThere(k, 31);
    assert (Stamp(k) + rest)[1..32] == ToBytes(k, 31);
    hide ToBytes, FromBytes;
  }

  lemma TextsAreTold(length: nat, lengths: seq<nat>, at: int, k: nat)
    requires at >= -1 && k <= |lengths| < Power(31)
    ensures StepOf(at, StepText(length, lengths, at, k)) == k
  {
    hide Power, ToBytes, FromBytes;
    if k > 0 {
      var j := k - 1;
      if j == at {
        assert StepText(length, lengths, at, k) == [0] + Stamp(j);
        assert ([0] + Stamp(j))[1] == 1;
      } else {
        StampThere(j, Step(lengths, at, j).hash);
      }
    }
  }

  lemma StampsDiffer(j: nat, k: nat)
    requires j < Power(31) && k < Power(31) && Stamp(j) == Stamp(k)
    ensures j == k
  {
    StampThere(j, []);
    StampThere(k, []);
    assert StepOf(0, Stamp(j) + []) == j + 1 && StepOf(0, Stamp(k) + []) == k + 1;
  }

  ghost predicate AllSteps(length: nat, lengths: seq<nat>, at: int, texts: set<seq<Byte>>) {
    forall t :: t in texts ==> exists k :: 0 <= k <= |lengths| && t == StepText(length, lengths, at, k)
  }

  lemma StepsDoNotCollide(h: seq<Byte> -> Digest, length: nat, lengths: seq<nat>, at: int, texts: set<seq<Byte>>)
    requires |lengths| < Power(31) && Stamps(h, length, lengths, at) && AllSteps(length, lengths, at, texts)
    ensures CollisionFree(h, texts)
  {
    hide StepText, Power, Stamp;
    forall a, b | a in texts && b in texts && h(a) == h(b) ensures a == b {
      var j :| 0 <= j <= |lengths| && a == StepText(length, lengths, at, j);
      var k :| 0 <= k <= |lengths| && b == StepText(length, lengths, at, k);
      StampsDiffer(j, k);
    }
  }

  // ---- The climb ----

  lemma {:induction false} ClimbGoesOn(h: seq<Byte> -> Digest, length: nat, lengths: seq<nat>, at: int, k: nat)
    requires k <= |lengths| && Stamps(h, length, lengths, at)
    ensures Climbed(h, h(LeafText(Zeros(length))), Steps(lengths, at)[..k]) == Stamp(k)
    ensures AllSteps(length, lengths, at, ProofTexts(h, Zeros(length), Steps(lengths, at)[..k]))
  {
    hide Stamp;
    assert StepText(length, lengths, at, 0) == LeafText(Zeros(length));
    var proof := Steps(lengths, at)[..k];
    if k > 0 {
      ClimbGoesOn(h, length, lengths, at, k - 1);
      assert proof[..k - 1] == Steps(lengths, at)[..k - 1] && proof[k - 1] == Step(lengths, at, k - 1);
      assert StepText(length, lengths, at, k) == ClimbText(Stamp(k - 1), Step(lengths, at, k - 1));
    }
  }

  lemma StepsAccepted(h: seq<Byte> -> Digest, length: nat, lengths: seq<nat>, at: int)
    requires Stamps(h, length, lengths, at)
    ensures Accepts(h, Zeros(length), Steps(lengths, at), Stamp(|lengths|))
    ensures AllSteps(length, lengths, at, ProofTexts(h, Zeros(length), Steps(lengths, at)))
  {
    hide Steps, AllSteps, Climbed, ProofTexts, Stamps, Stamp, Zeros;
    ClimbGoesOn(h, length, lengths, at, |lengths|);
    assert Steps(lengths, at)[..|lengths|] == Steps(lengths, at);
  }

  lemma StepLengths(lengths: seq<nat>, at: int)
    requires at < |lengths| && (at >= 0 ==> lengths[at] == 1)
    requires forall j :: at < j && 0 <= j < |lengths| ==> lengths[j] == 32
    ensures Lengths(Steps(lengths, at)) == lengths
  {
    hide Stamp;
    assert forall k :: 0 <= k < |lengths| ==> |Step(lengths, at, k).hash| == lengths[k];
  }

  // ---- The board ----

  function Doubled(d: nat): (n: nat)
    ensures n > 0
  {
    if d == 0 then 1 else 2 * Doubled(d - 1)
  }

  function Copies(t: Tree, d: nat): (level: seq<Tree>)
    ensures |level| == Doubled(d) && forall i :: 0 <= i < |level| ==> level[i] == t
  {
    seq(Doubled(d), i => t)
  }

  /** Copies of a tree, paired over and over. */
  function Tower(t: Tree, d: nat): Tree
    decreases d
  {
    if d == 0 then t else Tower(Node(t, t), d - 1)
  }

  lemma {:induction false} CopiesTower(t: Tree, d: nat)
    ensures Copies(t, d) != [] && TreeOf(Copies(t, d)) == Tower(t, d)
    decreases d
  {
    hide Copies, Tower, Up, TreeOf, Doubled;
    if d > 0 {
      CopiesUp(t, d);
      TowerUp(t, d);
      CopiesTower(Node(t, t), d - 1);
      TreeAbove(Copies(t, d));
    } else {
      OneCopy(t);
    }
  }

  lemma TreeAbove(level: seq<Tree>)
    requires |level| > 1
    ensures TreeOf(level) == TreeOf(Up(level))
  {
  }

  lemma OneCopy(t: Tree)
    ensures Copies(t, 0) == [t] && TreeOf(Copies(t, 0)) == t == Tower(t, 0)
  {
  }

  lemma TowerUp(t: Tree, d: nat)
    requires d > 0
    ensures Tower(t, d) == Tower(Node(t, t), d - 1)
  {
  }

  lemma CopiesUp(t: Tree, d: nat)
    requires d > 0
    ensures Up(Copies(t, d)) == Copies(Node(t, t), d - 1) && |Copies(t, d)| > 1
  {
    assert Doubled(d) == 2 * Doubled(d - 1);
    hide Copies, Doubled;
    var level, up := Copies(t, d), Copies(Node(t, t), d - 1);
    assert Even(level) == level;
    forall i | 0 <= i < |up| ensures Up(level)[i] == up[i] {
      assert Up(level)[i] == Node(level[2 * i], level[2 * i + 1]);
    }
  }

  lemma {:induction false} TowerClimbs(h: seq<Byte> -> Digest, length: nat, lengths: seq<nat>, at: int, t: Tree, k: nat,
                                       d: nat)
    requires at < k && k + d == |lengths| && Stamps(h, length, lengths, at) && HashOf(h, t) == Stamp(k)
    ensures HashOf(h, Tower(t, d)) == Stamp(|lengths|)
    ensures forall text :: text in TreeTexts(h, Tower(t, d)) ==>
      text in TreeTexts(h, t) || exists j :: 0 <= j <= |lengths| && text == StepText(length, lengths, at, j)
    decreases d
  {
    hide Stamp, Stamps, StepText, HashOf, TreeTexts, Tower;
    if d > 0 {
      PairClimbs(h, length, lengths, at, t, k);
      TowerUp(t, d);
      TowerClimbs(h, length, lengths, at, Node(t, t), k + 1, d - 1);
    } else {
      OneCopy(t);
    }
  }

  lemma PairClimbs(h: seq<Byte> -> Digest, length: nat, lengths: seq<nat>, at: int, t: Tree, k: nat)
    requires at < k < |lengths| && Stamps(h, length, lengths, at) && HashOf(h, t) == Stamp(k)
    ensures HashOf(h, Node(t, t)) == Stamp(k + 1)
    ensures TreeTexts(h, Node(t, t)) == TreeTexts(h, t) + {StepText(length, lengths, at, k + 1)}
  {
    hide Stamp;
    assert StepText(length, lengths, at, k + 1) == PairText(Stamp(k), Stamp(k));
  }

  /** A board of copies of one tracker. */
  function Board(tracker: Digest, d: nat): (values: seq<Digest>)
    ensures Leaves(values) == Copies(Leaf(tracker), d)
    ensures forall v :: v in values ==> v == tracker
  {
    var level := Copies(Leaf(tracker), d);
    var values := seq(|level|, i => tracker);
    assert Leaves(values) == level;
    values
  }

  lemma BoardTree(h: seq<Byte> -> Digest, tracker: Digest, d: nat)
    ensures var t := Tower(Leaf(tracker), d);
      Root(h, Board(tracker, d)) == HashOf(h, t) && BoardTexts(h, Board(tracker, d)) == TreeTexts(h, t)
  {
    CopiesTower(Leaf(tracker), d);
    hide Tower, Copies, HashOf, TreeTexts, TreeOf, Doubled, Board;
    assert |Leaves(Board(tracker, d))| == |Board(tracker, d)|;
  }

  /** An accepted proof of these lengths for a value that is not on the board, without collisions. */
  ghost predicate Counterexample(length: nat, lengths: seq<nat>, h: seq<Byte> -> Digest, values: seq<Digest>,
                                 value: seq<Byte>, proof: seq<Sibling>) {
    && |value| == length && Lengths(proof) == lengths && Accepts(h, value, proof, Root(h, values)) && value !in values
    && CollisionFree(h, BoardTexts(h, values) + ProofTexts(h, value, proof))
  }

  lemma CounterexampleRefutes(length: nat, lengths: seq<nat>, h: seq<Byte> -> Digest, values: seq<Digest>,
                              value: seq<Byte>, proof: seq<Sibling>)
    requires Counterexample(length, lengths, h, values, value, proof)
    ensures !SoundFor(length, lengths)
  {
  }

  // ---- A single byte ----

  function Hash(at: int): seq<Byte> -> Digest
    requires at >= -1
  {
    text => Stamp(StepOf(at, text))
  }

  lemma HashStamps(length: nat, lengths: seq<nat>, at: int)
    requires at >= -1 && |lengths| < Power(31)
    ensures Stamps(Hash(at), length, lengths, at)
  {
    hide Power, StepOf, StepText;
    forall k | 0 <= k <= |lengths| ensures Hash(at)(StepText(length, lengths, at, k)) == Stamp(k) {
      TextsAreTold(length, lengths, at, k);
    }
  }

  lemma LeafReached(h: seq<Byte> -> Digest, length: nat, lengths: seq<nat>, at: nat)
    requires at < |lengths| && Stamps(h, length, lengths, at)
    ensures HashOf(h, Leaf(Stamp(at))) == Stamp(at + 1)
    ensures forall text :: text in TreeTexts(h, Leaf(Stamp(at))) ==> text == StepText(length, lengths, at, at + 1)
  {
    assert StepText(length, lengths, at, at + 1) == LeafText(Stamp(at));
    assert h(StepText(length, lengths, at, at + 1)) == Stamp(at + 1);
    hide Stamp;
  }

  lemma BoardReached(h: seq<Byte> -> Digest, length: nat, lengths: seq<nat>, at: nat)
    requires at < |lengths| && Stamps(h, length, lengths, at)
    ensures var values := Board(Stamp(at), |lengths| - 1 - at);
      Root(h, values) == Stamp(|lengths|) && AllSteps(length, lengths, at, BoardTexts(h, values))
  {
    hide Stamps, Board, Tower, Copies, Root, BoardTexts, Stamp, HashOf, TreeTexts, StepText;
    var t, d := Leaf(Stamp(at)), |lengths| - 1 - at;
    LeafReached(h, length, lengths, at);
    TowerClimbs(h, length, lengths, at, t, at + 1, d);
    BoardTree(h, Stamp(at), d);
  }

  lemma ZerosAreOff(length: nat, at: nat, d: nat)
    ensures Zeros(length) !in Board(Stamp(at), d)
  {
    assert Stamp(at)[0] == 1 && (length > 0 ==> Zeros(length)[0] == 0);
    hide Board, Stamp, Zeros;
  }

  /** Every list of lengths with a single byte and only full lengths after it, for a value of any length. */
  lemma PosingAccepted(length: nat, lengths: seq<nat>, at: nat)
    requires at < |lengths| < Power(31) && lengths[at] == 1 && forall j :: at < j < |lengths| ==> lengths[j] == 32
    ensures Counterexample(length, lengths, Hash(at), Board(Stamp(at), |lengths| - 1 - at), Zeros(length),
                           Steps(lengths, at))
  {
    hide Power, Hash, Stamps, Board, Steps, Accepts, Root, BoardTexts, ProofTexts, StepText, CollisionFree, Lengths,
      Zeros, Stamp;
    var (h, values, proof) := (Hash(at), Board(Stamp(at), |lengths| - 1 - at), Steps(lengths, at));
    HashStamps(length, lengths, at);
    BoardReached(h, length, lengths, at);
    StepsAccepted(h, length, lengths, at);
    StepLengths(lengths, at);
    ZerosAreOff(length, at, |lengths| - 1 - at);
    StepsDoNotCollide(h, length, lengths, at, BoardTexts(h, values) + ProofTexts(h, Zeros(length), proof));
  }

  // ---- A value of 63 bytes ----

  const TRACKER: Digest := seq(32, i => 2)

  /** The leaf of the tracker is hashed to zero bytes, so two of them make the text of a value of 63 zero bytes. */
  function LongHash(): seq<Byte> -> Digest {
    text => if text == LeafText(TRACKER) then Zeros(32) else Stamp(StepOf(-1, text))
  }

  lemma LongHashStamps(lengths: seq<nat>)
    requires |lengths| < Power(31)
    ensures Stamps(LongHash(), 63, lengths, -1)
  {
    hide Power, StepOf;
    forall k | 0 <= k <= |lengths| ensures LongHash()(StepText(63, lengths, -1, k)) == Stamp(k) {
      TextsAreTold(63, lengths, -1, k);
      NotTheLeaf(lengths, k);
    }
  }

  lemma NotTheLeaf(lengths: seq<nat>, k: nat)
    requires k <= |lengths|
    ensures StepText(63, lengths, -1, k) != LeafText(TRACKER)
  {
    assert LeafText(TRACKER)[0] == 0 && LeafText(TRACKER)[1] == 2;
    if k == 0 {
      assert StepText(63, lengths, -1, k)[1] == 0;
    } else {
      assert StepText(63, lengths, -1, k)[0] == 1;
    }
  }

  lemma LongBoardReached(lengths: seq<nat>)
    requires |lengths| < Power(31)
    ensures var (h, values) := (LongHash(), Board(TRACKER, |lengths| + 1));
      && Root(h, values) == Stamp(|lengths|)
      && forall text :: text in BoardTexts(h, values) ==>
           text == LeafText(TRACKER) || exists j :: 0 <= j <= |lengths| && text == StepText(63, lengths, -1, j)
  {
    var (h, t, d) := (LongHash(), Node(Leaf(TRACKER), Leaf(TRACKER)), |lengths|);
    LongHashStamps(lengths);
    BottomPair(lengths);
    hide LongHash, Stamps, Board, Tower, Copies, Root, BoardTexts, Stamp, HashOf, TreeTexts, StepText, Power;
    TowerClimbs(h, 63, lengths, -1, t, 0, d);
    BoardTree(h, TRACKER, d + 1);
    TowerUp(Leaf(TRACKER), d + 1);
  }

  lemma BottomPair(lengths: seq<nat>)
    requires Stamps(LongHash(), 63, lengths, -1)
    ensures var t := Node(Leaf(TRACKER), Leaf(TRACKER));
      && HashOf(LongHash(), t) == Stamp(0)
      && forall text :: text in TreeTexts(LongHash(), t) ==>
           text == LeafText(TRACKER) || text == StepText(63, lengths, -1, 0)
  {
    assert HashOf(LongHash(), Leaf(TRACKER)) == Zeros(32);
    assert PairText(Zeros(32), Zeros(32)) == LeafText(Zeros(63)) == StepText(63, lengths, -1, 0);
    assert LongHash()(StepText(63, lengths, -1, 0)) == Stamp(0);
    hide LongHash, Stamp;
  }

  lemma LongDoesNotCollide(lengths: seq<nat>, texts: set<seq<Byte>>)
    requires |lengths| < Power(31)
    requires forall text :: text in texts ==>
      text == LeafText(TRACKER) || exists j :: 0 <= j <= |lengths| && text == StepText(63, lengths, -1, j)
    ensures CollisionFree(LongHash(), texts)
  {
    LongHashStamps(lengths);
    StepsDoNotCollide(LongHash(), 63, lengths, -1, texts - {LeafText(TRACKER)});
    forall a | a in texts && a != LeafText(TRACKER) ensures LongHash()(a) != LongHash()(LeafText(TRACKER)) {
      var j :| 0 <= j <= |lengths| && a == StepText(63, lengths, -1, j);
      assert LongHash()(a) == Stamp(j);
      assert Stamp(j)[0] == 1 && Zeros(32)[0] == 0;
    }
    hide LongHash, StepText;
  }

  /** Every list of full lengths, the empty one included. */
  lemma LongValueAccepted(lengths: seq<nat>)
    requires |lengths| < Power(31) && forall i :: 0 <= i < |lengths| ==> lengths[i] == 32
    ensures Counterexample(63, lengths, LongHash(), Board(TRACKER, |lengths| + 1), Zeros(63), Steps(lengths, -1))
  {
    hide Power, LongHash, Stamps, Board, Steps, Accepts, Root, BoardTexts, ProofTexts, StepText, CollisionFree, Lengths,
      Zeros, Stamp, TRACKER;
    var (h, values, proof) := (LongHash(), Board(TRACKER, |lengths| + 1), Steps(lengths, -1));
    LongHashStamps(lengths);
    LongBoardReached(lengths);
    StepsAccepted(h, 63, lengths, -1);
    StepLengths(lengths, -1);
    LongDoesNotCollide(lengths, BoardTexts(h, values) + ProofTexts(h, Zeros(63), proof));
  }

  // ---- The results ----

  /**
   Proofs for values of a given length with siblings of given lengths are sound unless one sibling is a single byte
   and all later ones are as long as a digest, or the value has 63 bytes and all siblings are as long as a digest; and
   then they are not, as long as there are digests enough to number the steps.
   */
  lemma SoundProfiles(length: nat, lengths: seq<nat>)
    ensures !Posing(length, lengths) ==> SoundFor(length, lengths)
    ensures |lengths| < Power(31) ==> (SoundFor(length, lengths) <==> !Posing(length, lengths))
  {
    if !Posing(length, lengths) {
      NotPosingIsSound(length, lengths);
    } else if |lengths| < Power(31) {
      PosingIsUnsound(length, lengths);
    }
    hide SoundFor, Posing, Power;
  }

  lemma NotPosingIsSound(length: nat, lengths: seq<nat>)
    requires !Posing(length, lengths)
    ensures SoundFor(length, lengths)
  {
    hide Accepts, Root, CollisionFree, BoardTexts, ProofTexts, Lengths, Posing;
    forall h: seq<Byte> -> Digest, values: seq<Digest>, value: seq<Byte>, proof: seq<Sibling> |
      && |value| == length && Lengths(proof) == lengths && Accepts(h, value, proof, Root(h, values))
      && CollisionFree(h, BoardTexts(h, values) + ProofTexts(h, value, proof))
      ensures value in values
    {
      ProofsAreSound(h, values, value, proof);
    }
  }

  lemma PosingIsUnsound(length: nat, lengths: seq<nat>)
    requires Posing(length, lengths) && |lengths| < Power(31)
    ensures !SoundFor(length, lengths)
  {
    hide SoundFor, Counterexample, Power, Hash, LongHash, Board, Steps, Zeros, Stamp, TRACKER;
    if Poses(lengths) {
      var at :| 0 <= at < |lengths| && lengths[at] == 1 && forall j :: at < j < |lengths| ==> lengths[j] == 32;
      PosingAccepted(length, lengths, at);
      CounterexampleRefutes(length, lengths, Hash(at), Board(Stamp(at), |lengths| - 1 - at), Zeros(length),
                            Steps(lengths, at));
    } else {
      LongValueAccepted(lengths);
      CounterexampleRefutes(63, lengths, LongHash(), Board(TRACKER, |lengths| + 1), Zeros(63), Steps(lengths, -1));
    }
  }

  /** The same for proofs of any number of siblings, all of one length. */
  ghost predicate SoundForLength(length: nat, n: nat) {
    forall h: seq<Byte> -> Digest, values: seq<Digest>, value: seq<Byte>, proof: seq<Sibling> ::
      && |value| == length && (forall i :: 0 <= i < |proof| ==> |proof[i].hash| == n)
      && Accepts(h, value, proof, Root(h, values))
      && CollisionFree(h, BoardTexts(h, values) + ProofTexts(h, value, proof))
      ==> value in values
  }

  lemma SoundLengths(length: nat, n: nat)
    ensures SoundForLength(length, n) <==> n != 1 && length != 63
  {
    assert Power(31) == 256 * Power(30);
    if n != 1 && length != 63 {
      EvenLengthsAreSound(length, n);
    } else if n == 1 {
      PosingIsUnsound(length, [1]) by { assert [1][0] == 1; }
      EvenlyUnsound(length, n, [1]);
    } else {
      PosingIsUnsound(63, []);
      EvenlyUnsound(63, n, []);
    }
    hide SoundFor, SoundForLength, Posing, Power;
  }

  lemma EvenlyUnsound(length: nat, n: nat, lengths: seq<nat>)
    requires !SoundFor(length, lengths) && forall i :: 0 <= i < |lengths| ==> lengths[i] == n
    ensures !SoundForLength(length, n)
  {
    hide Accepts, Root, CollisionFree, BoardTexts, ProofTexts;
    var h: seq<Byte> -> Digest, values: seq<Digest>, value: seq<Byte>, proof: seq<Sibling> :|
      && |value| == length && Lengths(proof) == lengths && Accepts(h, value, proof, Root(h, values))
      && CollisionFree(h, BoardTexts(h, values) + ProofTexts(h, value, proof)) && value !in values;
    assert forall i :: 0 <= i < |proof| ==> |proof[i].hash| == Lengths(proof)[i];
  }

  lemma EvenLengthsAreSound(length: nat, n: nat)
    requires n != 1 && length != 63
    ensures SoundForLength(length, n)
  {
    hide Accepts, Root, CollisionFree, BoardTexts, ProofTexts;
    forall h: seq<Byte> -> Digest, values: seq<Digest>, value: seq<Byte>, proof: seq<Sibling> |
      && |value| == length && (forall i :: 0 <= i < |proof| ==> |proof[i].hash| == n)
      && Accepts(h, value, proof, Root(h, values))
      && CollisionFree(h, BoardTexts(h, values) + ProofTexts(h, value, proof))
      ensures value in values
    {
      ProofsAreSound(h, values, value, proof);
    }
  }

  // ---- The shortest cases ----

  /** A one-byte sibling 0 turns a digest into its own leaf string, so a leaf can pose as a node. */
  lemma OneByteSiblingAccepted(h: seq<Byte> -> Digest, value: Digest)
    ensures Accepts(h, value, [Sibling([0], true)], Root(h, [h(LeafText(value))]))
  {
    var proof := [Sibling([0], true)];
    assert proof[..0] == [];
    assert Climbed(h, h(LeafText(value)), proof) == Climb(h, h(LeafText(value)), proof[0]);
    assert ClimbText(h(LeafText(value)), proof[0]) == LeafText(h(LeafText(value)));
  }

  /** The shortest case: a board of one ballot. */
  lemma OneByteSiblingUnsound()
    ensures !SoundFor(32, [1])
  {
    assert Power(31) == 256 * Power(30);
    hide SoundFor, Counterexample, Power, Hash, Board, Steps, Zeros, Stamp;
    PosingAccepted(32, [1], 0);
    CounterexampleRefutes(32, [1], Hash(0), Board(Stamp(0), 0), Zeros(32), Steps([1], 0));
  }

  /** The shortest case with two ballots: any other ballot may stand beside the one that poses as a leaf. */
  lemma TwoBallotBoardUnsound(h: seq<Byte> -> Digest, value: Digest, other: Digest)
    ensures Accepts(h, value, [Sibling([0], true), Sibling(h(LeafText(other)), false)],
                    Root(h, [h(LeafText(value)), other]))
  {
    var (first, second) := (Sibling([0], true), Sibling(h(LeafText(other)), false));
    var proof := [first, second];
    var start := h(LeafText(value));
    assert proof[..1] == [first] && proof[..1][..0] == [];
    assert Climbed(h, start, proof[..1]) == Climb(h, start, first);
    assert ClimbText(h(LeafText(value)), first) == LeafText(h(LeafText(value)));
    var values := [h(LeafText(value)), other];
    assert Leaves(values) == [Leaf(values[0]), Leaf(values[1])];
    assert Up(Leaves(values)) == [Node(Leaf(values[0]), Leaf(values[1]))];
    assert TreeOf(Up(Leaves(values))) == Node(Leaf(values[0]), Leaf(values[1]));
    var posing := h(LeafText(value));
    assert Climb(h, start, first) == h(LeafText(posing));
    assert Climbed(h, start, proof) == Climb(h, Climbed(h, start, proof[..1]), second);
    assert ClimbText(h(LeafText(posing)), second) == PairText(h(LeafText(posing)), h(LeafText(other)));
    assert HashOf(h, Node(Leaf(posing), Leaf(other))) == h(PairText(h(LeafText(posing)), h(LeafText(other))));
  }

  /** Zero bytes for the first of two ballots, and other digests for the second and for all else. */
  function TwoLeaves(): seq<Byte> -> Digest {
    text =>
      if text == LeafText(Filled(1)) then Filled(0) else if text == LeafText(Filled(2)) then Filled(3) else Filled(4)
  }

  function Filled(b: Byte): Digest { seq(32, i => b) }

  /** A value of 63 bytes, with the empty proof, against a board of two different ballots. */
  lemma LongValueUnsound()
    ensures !SoundFor(63, [])
  {
    var (h, a, b) := (TwoLeaves(), Filled(1), Filled(2));
    assert LeafText(a)[1] == 1 && LeafText(b)[1] == 2 && h(LeafText(a))[0] == 0;
    var pair := PairText(h(LeafText(a)), h(LeafText(b)));
    var values, value := [a, b], pair[1..];
    LongLeafHasPairRoot(h, a, b);
    assert LeafText(value) == pair;
    assert Up(Leaves(values)) == [Node(Leaf(a), Leaf(b))];
    assert TreeOf(Up(Leaves(values))) == Node(Leaf(a), Leaf(b));
    assert BoardTexts(h, values) == {LeafText(a), LeafText(b), pair};
    assert ProofTexts(h, value, []) == {pair};
    assert h(LeafText(a))[0] == 0 && h(LeafText(b))[0] == 3 && h(pair)[0] == 4;
    assert Lengths([]) == [];
  }
}
