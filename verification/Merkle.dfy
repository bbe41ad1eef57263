/**
 The bulletin board: a binary hash tree built bottom-up, where a level of odd size repeats its last node,
 with inclusion proofs and their checker. The hash is a parameter `h` into 32-byte digests; that it has no
 collisions is assumed only of the finitely many strings a statement speaks about. The tree is first built
 over symbolic nodes, whose hashes are the digests the code computes. Leaves and siblings are byte strings of any
 length, as the code takes them; the trackers of stored ballots are digests.
 */
module Merkle {
  import opened Collections
  import opened ByteStrings

  type Digest = s: seq<Byte> | |s| == 32 witness seq(32, i => 0)

  datatype Tree = Leaf(value: seq<Byte>) | Node(left: Tree, right: Tree)

  /** A sibling and the side it stands on, as a proof spells them; nothing bounds its length. */
  datatype Sibling = Sibling(hash: seq<Byte>, onLeft: bool)

  function LeafText(value: seq<Byte>): seq<Byte> { [0] + value }

  function LeafHash(h: seq<Byte> -> Digest, value: seq<Byte>): Digest { h(LeafText(value)) }

  function PairText(left: Digest, right: Digest): seq<Byte> { left + right }

  function HashOf(h: seq<Byte> -> Digest, t: Tree): Digest {
    match t
    case Leaf(v) => h(LeafText(v))
    case Node(l, r) => h(PairText(HashOf(h, l), HashOf(h, r)))
  }

  function Even<T>(level: seq<T>): (r: seq<T>)
    requires level != []
    ensures |r| % 2 == 0 && |level| <= |r| <= |level| + 1 && r[..|level|] == level
    ensures |r| > |level| ==> r[|level|] == level[|level| - 1]
  {
    if |level| % 2 == 1 then level + [level[|level| - 1]] else level
  }

  function Up(level: seq<Tree>): (r: seq<Tree>)
    requires level != []
    ensures |r| == (|level| + 1) / 2
  {
    var even := Even(level);
    seq(|even| / 2, i requires 0 <= i < |even| / 2 => Node(even[2 * i], even[2 * i + 1]))
  }

  function TreeOf(level: seq<Tree>): Tree
    requires level != []
    decreases |level|
  {
    if |level| == 1 then level[0] else TreeOf(Up(level))
  }

  function Leaves(values: seq<seq<Byte>>): (r: seq<Tree>)
    ensures |r| == |values|
  {
    seq(|values|, i requires 0 <= i < |values| => Leaf(values[i]))
  }

  function Root(h: seq<Byte> -> Digest, values: seq<seq<Byte>>): Digest {
    if values == [] then h([]) else HashOf(h, TreeOf(Leaves(values)))
  }

  function Hashes(h: seq<Byte> -> Digest, level: seq<Tree>): (r: seq<Digest>)
    ensures |r| == |level|
  {
    seq(|level|, i requires 0 <= i < |level| => HashOf(h, level[i]))
  }

  function Partner(index: nat): nat { if index % 2 == 0 then index + 1 else index - 1 }

  function Path(h: seq<Byte> -> Digest, level: seq<Tree>, index: nat): seq<Sibling>
    requires index < |level|
    decreases |level|
  {
    if |level| == 1 then []
    else
      [Sibling(HashOf(h, Even(level)[Partner(index)]), Partner(index) < index)] + Path(h, Up(level), index / 2)
  }

  function Climb(h: seq<Byte> -> Digest, current: Digest, step: Sibling): Digest {
    h(ClimbText(current, step))
  }

  function ClimbText(current: Digest, step: Sibling): seq<Byte> {
    if step.onLeft then step.hash + current else current + step.hash
  }

  function Climbed(h: seq<Byte> -> Digest, start: Digest, proof: seq<Sibling>): Digest {
    if proof == [] then start else Climb(h, Climbed(h, start, proof[..|proof| - 1]), proof[|proof| - 1])
  }

  predicate Accepts(h: seq<Byte> -> Digest, value: seq<Byte>, proof: seq<Sibling>, root: Digest) {
    Climbed(h, h(LeafText(value)), proof) == root
  }

  // ---- The format ----

  /** Boards of up to three values, spelled out: a zero byte before a value, pairs side by side, the odd one twice. */
  lemma SmallBoards(h: seq<Byte> -> Digest, a: seq<Byte>, b: seq<Byte>, c: seq<Byte>)
    ensures Root(h, []) == h([]) && Root(h, [a]) == h([0] + a)
    ensures var x: seq<Byte> := h([0] + a);
      var y: seq<Byte> := h([0] + b);
      var z: seq<Byte> := h([0] + c);
      var left: seq<Byte> := h(x + y);
      var right: seq<Byte> := h(z + z);
      Root(h, [a, b]) == left && Root(h, [a, b, c]) == h(left + right)
  {
    var (one, two, three) := ([Leaf(a)], [Leaf(a), Leaf(b)], [Leaf(a), Leaf(b), Leaf(c)]);
    assert Leaves([a]) == one && Leaves([a, b]) == two && Leaves([a, b, c]) == three;
    assert TreeOf(one) == Leaf(a);
    var pairs := [Node(Leaf(a), Leaf(b)), Node(Leaf(c), Leaf(c))];
    assert Up(two) == [pairs[0]] && Up(three) == pairs && Up(pairs) == [Node(pairs[0], pairs[1])];
    assert TreeOf(two) == pairs[0] && TreeOf(three) == TreeOf(pairs) == Node(pairs[0], pairs[1]);
    var x: seq<Byte> := h([0] + a);
    var y: seq<Byte> := h([0] + b);
    var z: seq<Byte> := h([0] + c);
    assert HashOf(h, pairs[0]) == h(x + y) && HashOf(h, pairs[1]) == h(z + z);
    hide Up, TreeOf, Leaves;
  }

  /** Proofs of one and two steps, spelled out: each sibling stands on its side. */
  lemma SmallProofs(h: seq<Byte> -> Digest, value: seq<Byte>, first: Sibling, second: Sibling, root: Digest)
    ensures Accepts(h, value, [], root) <==> root == h([0] + value)
    ensures var start := h([0] + value);
      Accepts(h, value, [first], root) <==>
      root == (if first.onLeft then h(first.hash + start) else h(start + first.hash))
    ensures var start := h([0] + value);
      var step := if first.onLeft then h(first.hash + start) else h(start + first.hash);
      Accepts(h, value, [first, second], root) <==>
      root == (if second.onLeft then h(second.hash + step) else h(step + second.hash))
  {
    assert [first][..0] == [] && [first, second][..1] == [first];
    var start := h([0] + value);
    assert Climbed(h, start, [first]) == Climb(h, Climbed(h, start, []), first);
    assert Climbed(h, start, [first, second]) == Climb(h, Climbed(h, start, [first]), second);
  }

  // ---- The code's loops ----

  method NextLevel(h: seq<Byte> -> Digest, ghost level: seq<Tree>, hashes: seq<Digest>)
      returns (even: seq<Digest>, next: seq<Digest>)
    requires level != [] && hashes == Hashes(h, level)
    ensures even == Hashes(h, Even(level)) && next == Hashes(h, Up(level))
  {
    even := hashes;
    if |even| % 2 == 1 {
      even := even + [even[|even| - 1]];
    }
    next := [];
    var i := 0;
    while i < |even|
      invariant i == 2 * |next| && i <= |even|
      invariant next == Hashes(h, Up(level)[..|next|])
    {
      next := next + [h(PairText(even[i], even[i + 1]))];
      i := i + 2;
    }
    assert Up(level)[..|next|] == Up(level);
  }

  method LeafLevel(h: seq<Byte> -> Digest, values: seq<seq<Byte>>) returns (level: seq<Digest>)
    ensures level == Hashes(h, Leaves(values))
  {
    level := seq(|values|, i requires 0 <= i < |values| => LeafHash(h, values[i]));
  }

  method MerkleRoot(h: seq<Byte> -> Digest, values: seq<seq<Byte>>) returns (root: Digest)
    ensures root == Root(h, values)
  {
    var level := LeafLevel(h, values);
    if |level| == 0 {
      return h([]);
    }
    ghost var trees := Leaves(values);
    while |level| > 1
      invariant trees != [] && level == Hashes(h, trees) && TreeOf(trees) == TreeOf(Leaves(values))
    {
      var _, next := NextLevel(h, trees, level);
      level, trees := next, Up(trees);
    }
    root := level[0];
  }

  method MerkleProof(h: seq<Byte> -> Digest, values: seq<seq<Byte>>, index: nat) returns (proof: seq<Sibling>)
    requires index < |values|
    ensures proof == Path(h, Leaves(values), index)
  {
    hide Up, Even, HashOf, Path;
    var level := LeafLevel(h, values);
    var at: nat := index;
    proof := [];
    ghost var trees := Leaves(values);
    while |level| > 1
      invariant at < |trees| && level == Hashes(h, trees)
      invariant proof + Path(h, trees, at) == Path(h, Leaves(values), index)
    {
      var even, next := NextLevel(h, trees, level);
      var sibling := Partner(at);
      proof := proof + [Sibling(even[sibling], sibling < at)];
      PathUnfolds(h, trees, at);
      level, trees, at := next, Up(trees), at / 2;
    }
    PathEnds(h, trees, at);
  }

  method VerifyProof(h: seq<Byte> -> Digest, value: seq<Byte>, proof: seq<Sibling>, root: Digest) returns (ok: bool)
    ensures ok == Accepts(h, value, proof, root)
  {
    var current := h(LeafText(value));
    for i := 0 to |proof|
      invariant current == Climbed(h, h(LeafText(value)), proof[..i])
    {
      assert proof[..i + 1][..i] == proof[..i];
      current := h(if proof[i].onLeft then proof[i].hash + current else current + proof[i].hash);
    }
    assert proof[..|proof|] == proof;
    ok := current == root;
  }

  // ---- Completeness ----

  lemma {:induction false} ClimbFirst(h: seq<Byte> -> Digest, start: Digest, step: Sibling, rest: seq<Sibling>)
    ensures Climbed(h, start, [step] + rest) == Climbed(h, Climb(h, start, step), rest)
  {
    var all := [step] + rest;
    if rest == [] {
      assert all[..0] == [];
    } else {
      ClimbFirst(h, start, step, rest[..|rest| - 1]);
      assert all[..|all| - 1] == [step] + rest[..|rest| - 1];
    }
  }

  lemma {:induction false} PathClimbs(h: seq<Byte> -> Digest, level: seq<Tree>, index: nat)
    requires index < |level|
    ensures Climbed(h, HashOf(h, level[index]), Path(h, level, index)) == HashOf(h, TreeOf(level))
    decreases |level|
  {
    hide Up, Even, Partner, HashOf;
    if |level| > 1 {
      PathSteps(h, level, index);
      var partner := Even(level)[Partner(index)];
      ClimbFirst(h, HashOf(h, level[index]), Sibling(HashOf(h, partner), Partner(index) < index),
                 Path(h, Up(level), index / 2));
      PathClimbs(h, Up(level), index / 2);
    }
  }

  lemma PathUnfolds(h: seq<Byte> -> Digest, level: seq<Tree>, index: nat)
    requires index < |level| && |level| > 1
    ensures index / 2 < |Up(level)| && Partner(index) < |Even(level)|
    ensures Path(h, level, index)
         == [Sibling(HashOf(h, Even(level)[Partner(index)]), Partner(index) < index)] + Path(h, Up(level), index / 2)
  {
    hide HashOf, Up, Even;
  }

  lemma PathEnds(h: seq<Byte> -> Digest, level: seq<Tree>, index: nat)
    requires index < |level| && |level| == 1
    ensures Path(h, level, index) == []
  {
  }

  lemma NodeHash(h: seq<Byte> -> Digest, l: Tree, r: Tree)
    ensures HashOf(h, Node(l, r)) == h(PairText(HashOf(h, l), HashOf(h, r)))
  {
  }

  /** A node and its partner are the children of the node above. */
  lemma PathSteps(h: seq<Byte> -> Digest, level: seq<Tree>, index: nat)
    requires index < |level| && |level| > 1
    ensures index / 2 < |Up(level)| && Partner(index) < |Even(level)|
    ensures Climb(h, HashOf(h, level[index]), Sibling(HashOf(h, Even(level)[Partner(index)]), Partner(index) < index))
         == HashOf(h, Up(level)[index / 2])
  {
    hide HashOf;
    var even := Even(level);
    assert even[index] == level[index];
    var k := index / 2;
    assert Up(level)[k] == Node(even[2 * k], even[2 * k + 1]);
    NodeHash(h, even[2 * k], even[2 * k + 1]);
    if index % 2 == 0 {
      assert 2 * k == index;
    } else {
      assert 2 * k + 1 == index;
    }
  }

  /** Every leaf's own proof is accepted, for every hash whatsoever. */
  lemma ProofsAreComplete(h: seq<Byte> -> Digest, values: seq<seq<Byte>>, index: nat)
    requires index < |values|
    ensures Accepts(h, values[index], Path(h, Leaves(values), index), Root(h, values))
  {
    PathClimbs(h, Leaves(values), index);
  }

  // ---- Soundness ----

  /** Everything hashed in building a tree. */
  function TreeTexts(h: seq<Byte> -> Digest, t: Tree): set<seq<Byte>> {
    match t
    case Leaf(v) => {LeafText(v)}
    case Node(l, r) => {PairText(HashOf(h, l), HashOf(h, r))} + TreeTexts(h, l) + TreeTexts(h, r)
  }

  function BoardTexts(h: seq<Byte> -> Digest, values: seq<seq<Byte>>): set<seq<Byte>> {
    if values == [] then {[]} else TreeTexts(h, TreeOf(Leaves(values)))
  }

  /** Everything hashed in checking a proof. */
  function ProofTexts(h: seq<Byte> -> Digest, value: seq<Byte>, proof: seq<Sibling>): set<seq<Byte>> {
    if proof == [] then {LeafText(value)}
    else
      var front := proof[..|proof| - 1];
      ProofTexts(h, value, front) + {ClimbText(Climbed(h, h(LeafText(value)), front), proof[|proof| - 1])}
  }

  ghost predicate CollisionFree(h: seq<Byte> -> Digest, texts: set<seq<Byte>>) {
    forall a, b :: a in texts && b in texts && h(a) == h(b) ==> a == b
  }

  function Fringe(t: Tree): seq<seq<Byte>> {
    match t
    case Leaf(v) => [v]
    case Node(l, r) => Fringe(l) + Fringe(r)
  }

  function Lengths(proof: seq<Sibling>): (lengths: seq<nat>)
    ensures |lengths| == |proof|
  {
    seq(|proof|, i requires 0 <= i < |proof| => |proof[i].hash|)
  }

  /** Somewhere a sibling of one byte, and none but full-length siblings after it. */
  predicate Poses(lengths: seq<nat>) {
    exists i :: 0 <= i < |lengths| && lengths[i] == 1 && forall j :: i < j < |lengths| ==> lengths[j] == 32
  }

  /** That, or a value as long as a pair of digests without its first byte, and only full-length siblings. */
  predicate Posing(length: nat, lengths: seq<nat>) {
    Poses(lengths) || (length == 63 && forall i :: 0 <= i < |lengths| ==> lengths[i] == 32)
  }

  lemma PosingAbove(length: nat, front: seq<nat>)
    requires Posing(length, front)
    ensures Posing(length, front + [32])
  {
    if Poses(front) {
      var i :| 0 <= i < |front| && front[i] == 1 && forall j :: i < j < |front| ==> front[j] == 32;
      assert (front + [32])[i] == 1;
    }
  }

  lemma LengthsSplit(proof: seq<Sibling>)
    requires proof != []
    ensures Lengths(proof) == Lengths(proof[..|proof| - 1]) + [|proof[|proof| - 1].hash|]
  {
  }

  /** The text whose hash is the digest of a node. */
  function LastText(h: seq<Byte> -> Digest, t: Tree): (text: seq<Byte>)
    ensures text in TreeTexts(h, t) && h(text) == HashOf(h, t)
    ensures t.Leaf? ==> text == LeafText(t.value) && |text| == 1 + |t.value|
    ensures t.Node? ==> text == PairText(HashOf(h, t.left), HashOf(h, t.right)) && |text| == 64
  {
    if t.Leaf? then LeafText(t.value) else PairText(HashOf(h, t.left), HashOf(h, t.right))
  }

  lemma SplitHalves(a: Digest, b: Digest, x: Digest, hash: seq<Byte>, onLeft: bool)
    requires PairText(a, b) == if onLeft then hash + x else x + hash
    ensures x == if onLeft then b else a
  {
    assert |hash| == 32;
    assert (a + b)[..32] == a && (a + b)[32..] == b;
    if onLeft {
      assert (hash + x)[32..] == x;
    } else {
      assert (x + hash)[..32] == x;
    }
  }

  /** An accepted climb into a tree whose leaves are digests ends at one of its leaves. */
  lemma {:induction false} ClimbStaysInTree(h: seq<Byte> -> Digest, value: seq<Byte>, proof: seq<Sibling>, t: Tree)
    requires Climbed(h, h(LeafText(value)), proof) == HashOf(h, t) && forall v :: v in Fringe(t) ==> |v| == 32
    requires CollisionFree(h, TreeTexts(h, t) + ProofTexts(h, value, proof)) && !Posing(|value|, Lengths(proof))
    ensures value in Fringe(t)
    decreases |proof|
  {
    hide Poses;
    var text := LastText(h, t);
    if proof == [] {
      assert LeafText(value) in ProofTexts(h, value, proof);
      assert |LeafText(value)| == 1 + |value|;
      assert LeafText(value)[1..] == value;
      assert t.Leaf? ==> text[1..] == t.value;
    } else {
      var front, step := proof[..|proof| - 1], proof[|proof| - 1];
      var below := Climbed(h, h(LeafText(value)), front);
      assert ClimbText(below, step) in ProofTexts(h, value, proof);
      assert text == ClimbText(below, step);
      assert |text| == 32 + |step.hash|;
      LengthsSplit(proof);
      if t.Node? {
        if Posing(|value|, Lengths(front)) {
          PosingAbove(|value|, Lengths(front));
        }
        SplitHalves(HashOf(h, t.left), HashOf(h, t.right), below, step.hash, step.onLeft);
        ClimbStaysInTree(h, value, front, if step.onLeft then t.right else t.left);
      } else {
        assert t.value in Fringe(t);
        PosesAtEnd(Lengths(front));
      }
    }
  }

  lemma PosesAtEnd(front: seq<nat>)
    ensures Poses(front + [1])
  {
    assert (front + [1])[|front|] == 1;
  }

  lemma {:induction false} FringeOfTree(level: seq<Tree>, v: seq<Byte>)
    requires level != [] && v in Fringe(TreeOf(level))
    ensures exists i :: 0 <= i < |level| && v in Fringe(level[i])
    decreases |level|
  {
    if |level| > 1 {
      FringeOfTree(Up(level), v);
      var i :| 0 <= i < |Up(level)| && v in Fringe(Up(level)[i]);
      var even := Even(level);
      assert Up(level)[i] == Node(even[2 * i], even[2 * i + 1]);
      EvenHasNoMore(level, 2 * i);
      EvenHasNoMore(level, 2 * i + 1);
    } else {
      assert v in Fringe(level[0]);
    }
  }

  lemma EvenHasNoMore(level: seq<Tree>, i: nat)
    requires level != [] && i < |Even(level)|
    ensures exists j :: 0 <= j < |level| && level[j] == Even(level)[i]
  {
    var j := if i < |level| then i else |level| - 1;
    assert level[j] == Even(level)[i];
  }

  lemma {:induction false} FringeOfDigests(values: seq<Digest>, v: seq<Byte>)
    requires values != [] && v in Fringe(TreeOf(Leaves(values)))
    ensures v in values
  {
    FringeOfTree(Leaves(values), v);
    var i :| 0 <= i < |values| && v in Fringe(Leaves(values)[i]);
    assert values[i] == v;
  }

  /**
   Soundness on a board of digests: as long as no two of the strings hashed collide, an accepted proof shows that the
   value is on the board, unless one sibling is a single byte and all later ones have full length, or the value has
   63 bytes and all siblings have full length.
   */
  lemma ProofsAreSound(h: seq<Byte> -> Digest, values: seq<Digest>, value: seq<Byte>, proof: seq<Sibling>)
    requires Accepts(h, value, proof, Root(h, values)) && !Posing(|value|, Lengths(proof))
    requires CollisionFree(h, BoardTexts(h, values) + ProofTexts(h, value, proof))
    ensures value in values
  {
    if values == [] {
      var text := FinalText(h, value, proof);
      assert false;
    } else {
      forall v | v in Fringe(TreeOf(Leaves(values))) ensures |v| == 32 {
        FringeOfDigests(values, v);
      }
      ClimbStaysInTree(h, value, proof, TreeOf(Leaves(values)));
      FringeOfDigests(values, value);
    }
  }

  /** The text hashed last in checking a proof. */
  function FinalText(h: seq<Byte> -> Digest, value: seq<Byte>, proof: seq<Sibling>): (text: seq<Byte>)
    ensures text in ProofTexts(h, value, proof) && text != []
    ensures h(text) == Climbed(h, h(LeafText(value)), proof)
  {
    if proof == [] then LeafText(value)
    else ClimbText(Climbed(h, h(LeafText(value)), proof[..|proof| - 1]), proof[|proof| - 1])
  }

  // ---- Binding ----

  /** No value is as long as a pair of digests without its first byte. */
  predicate Plain(values: seq<seq<Byte>>) { forall v :: v in values ==> |v| != 63 }

  ghost predicate PlainTree(t: Tree) { forall v :: v in Fringe(t) ==> |v| != 63 }

  lemma {:induction false} EqualHashesEqualTrees(h: seq<Byte> -> Digest, t: Tree, u: Tree)
    requires HashOf(h, t) == HashOf(h, u) && CollisionFree(h, TreeTexts(h, t) + TreeTexts(h, u))
    requires PlainTree(t) && PlainTree(u)
    ensures t == u
  {
    var a := LastText(h, t);
    var b := LastText(h, u);
    assert a == b;
    assert t.Leaf? ==> t.value in Fringe(t);
    assert u.Leaf? ==> u.value in Fringe(u);
    if t.Leaf? {
      assert a[1..] == t.value && b[1..] == u.value;
    } else {
      assert a[..32] == HashOf(h, t.left) && a[32..] == HashOf(h, t.right);
      assert b[..32] == HashOf(h, u.left) && b[32..] == HashOf(h, u.right);
      EqualHashesEqualTrees(h, t.left, u.left);
      EqualHashesEqualTrees(h, t.right, u.right);
    }
  }

  lemma {:induction false} EqualTreesEqualLevels(a: seq<Tree>, b: seq<Tree>)
    requires a != [] && |a| == |b| && TreeOf(a) == TreeOf(b)
    ensures a == b
    decreases |a|
  {
    hide Up, Even;
    if |a| > 1 {
      EqualTreesEqualLevels(Up(a), Up(b));
      forall i | 0 <= i < |a| ensures a[i] == b[i] {
        EqualPairs(a, b, i);
      }
    }
  }

  lemma EqualPairs(a: seq<Tree>, b: seq<Tree>, i: nat)
    requires |a| == |b| && i < |a| && Up(a) == Up(b)
    ensures a[i] == b[i]
  {
    var k := i / 2;
    assert Up(a)[k] == Node(Even(a)[2 * k], Even(a)[2 * k + 1]);
    assert Up(b)[k] == Node(Even(b)[2 * k], Even(b)[2 * k + 1]);
    assert a[i] == Even(a)[i] && b[i] == Even(b)[i];
    assert i == 2 * k || i == 2 * k + 1;
  }

  /** Every leaf is the same number of nodes below the top. */
  predicate Full(t: Tree, height: nat) {
    match t
    case Leaf(_) => height == 0
    case Node(l, r) => height > 0 && Full(l, height - 1) && Full(r, height - 1)
  }

  ghost predicate Level(level: seq<Tree>, height: nat) {
    level != [] && NoDup(level) && forall i :: 0 <= i < |level| ==> Full(level[i], height)
  }

  /** A level without repetitions has none above it, though it may repeat its last node to get there. */
  lemma LevelAbove(level: seq<Tree>, height: nat)
    requires Level(level, height)
    ensures Level(Up(level), height + 1)
  {
    var even, up := Even(level), Up(level);
    forall i | 0 <= i < |up| ensures up[i] == Node(even[2 * i], even[2 * i + 1]) && Full(up[i], height + 1) {
    }
    forall i, j | 0 <= i < j < |up| ensures up[i] != up[j] {
      assert up[i] == Node(even[2 * i], even[2 * i + 1]) && up[j] == Node(even[2 * j], even[2 * j + 1]);
      assert even[2 * i] == level[2 * i] && even[2 * j] == level[2 * j];
    }
  }

  lemma {:induction false} TreeIsHigh(level: seq<Tree>, height: nat)
    requires Level(level, height)
    ensures !Full(TreeOf(level), height) <==> |level| > 1
    ensures forall low: nat :: low < height ==> !Full(TreeOf(level), low)
    decreases |level|
  {
    if |level| > 1 {
      LevelAbove(level, height);
      TreeIsHigh(Up(level), height + 1);
    } else {
      FullOnce(level[0], height);
    }
  }

  lemma {:induction false} FullOnce(t: Tree, height: nat)
    requires Full(t, height)
    ensures forall other :: Full(t, other) ==> other == height
  {
    if t.Node? {
      FullOnce(t.left, height - 1);
    }
  }

  /** Without repetitions the tree tells the level, its size included. */
  lemma {:induction false} EqualTreesEqualDistinctLevels(a: seq<Tree>, b: seq<Tree>, height: nat)
    requires Level(a, height) && Level(b, height) && TreeOf(a) == TreeOf(b)
    ensures a == b
    decreases |a|
  {
    hide Up, Even, NoDup, Full;
    TreeIsHigh(a, height);
    TreeIsHigh(b, height);
    if |a| > 1 {
      LevelAbove(a, height);
      LevelAbove(b, height);
      EqualTreesEqualDistinctLevels(Up(a), Up(b), height + 1);
      EqualAbove(a, b);
    }
  }

  lemma EqualAbove(a: seq<Tree>, b: seq<Tree>)
    requires |a| > 1 && |b| > 1 && NoDup(a) && NoDup(b) && Up(a) == Up(b)
    ensures a == b
  {
    if |a| < |b| {
      LastPairRepeats(a, b);
    } else if |b| < |a| {
      LastPairRepeats(b, a);
    } else {
      forall i | 0 <= i < |a| ensures a[i] == b[i] {
        EqualPairs(a, b, i);
      }
    }
  }

  lemma LastPairRepeats(a: seq<Tree>, b: seq<Tree>)
    requires |b| > |a| > 1 && Up(a) == Up(b)
    ensures !NoDup(b)
  {
    var k := |Up(a)| - 1;
    assert |a| == 2 * k + 1 && |b| == 2 * k + 2;
    assert Up(a)[k] == Node(Even(a)[2 * k], Even(a)[2 * k + 1]) && Even(a)[2 * k] == Even(a)[2 * k + 1] == a[2 * k];
    assert Up(b)[k] == Node(b[2 * k], b[2 * k + 1]);
  }

  lemma LeavesLevel(values: seq<seq<Byte>>)
    requires values != [] && NoDup(values)
    ensures Level(Leaves(values), 0)
  {
  }

  lemma PlainLeaves(values: seq<seq<Byte>>)
    requires values != [] && Plain(values)
    ensures PlainTree(TreeOf(Leaves(values)))
  {
    forall v | v in Fringe(TreeOf(Leaves(values))) ensures |v| != 63 {
      FringeOfTree(Leaves(values), v);
      var i :| 0 <= i < |values| && v in Fringe(Leaves(values)[i]);
      assert values[i] == v;
    }
  }

  lemma SameLeaves(values: seq<seq<Byte>>, others: seq<seq<Byte>>)
    requires Leaves(values) == Leaves(others)
    ensures values == others
  {
    forall i | 0 <= i < |values| ensures values[i] == others[i] {
      assert Leaves(values)[i] == Leaves(others)[i];
    }
  }

  /**
   Boards with one root have one tree; boards of one size, or without repeated values, are then one board. No value
   may have 63 bytes.
   */
  lemma RootBinds(h: seq<Byte> -> Digest, values: seq<seq<Byte>>, others: seq<seq<Byte>>)
    requires CollisionFree(h, BoardTexts(h, values) + BoardTexts(h, others)) && Plain(values) && Plain(others)
    ensures values != [] && others != [] ==>
      (Root(h, values) == Root(h, others) <==> TreeOf(Leaves(values)) == TreeOf(Leaves(others)))
    ensures |values| == |others| || (NoDup(values) && NoDup(others)) ==>
      (Root(h, values) == Root(h, others) <==> values == others)
  {
    if Root(h, values) == Root(h, others) {
      if values == [] || others == [] {
        EmptyAlone(h, values, others);
      } else {
        PlainLeaves(values);
        PlainLeaves(others);
        EqualHashesEqualTrees(h, TreeOf(Leaves(values)), TreeOf(Leaves(others)));
        TreeTellsBoard(values, others);
      }
    }
  }

  lemma EmptyAlone(h: seq<Byte> -> Digest, values: seq<seq<Byte>>, others: seq<seq<Byte>>)
    requires CollisionFree(h, BoardTexts(h, values) + BoardTexts(h, others)) && Root(h, values) == Root(h, others)
    requires values == [] || others == []
    ensures values == others
  {
    if values != [] {
      var text := LastText(h, TreeOf(Leaves(values)));
      assert false;
    } else if others != [] {
      var text := LastText(h, TreeOf(Leaves(others)));
      assert false;
    }
  }

  lemma TreeTellsBoard(values: seq<seq<Byte>>, others: seq<seq<Byte>>)
    requires values != [] && others != [] && TreeOf(Leaves(values)) == TreeOf(Leaves(others))
    ensures |values| == |others| || (NoDup(values) && NoDup(others)) ==> values == others
  {
    if |values| == |others| {
      EqualTreesEqualLevels(Leaves(values), Leaves(others));
      SameLeaves(values, others);
    } else if NoDup(values) && NoDup(others) {
      LeavesLevel(values);
      LeavesLevel(others);
      EqualTreesEqualDistinctLevels(Leaves(values), Leaves(others), 0);
      SameLeaves(values, others);
    }
  }

  /** Repetitions matter: a board whose last leaf is repeated to an even size has the same root. */
  lemma RepeatedLeafKeepsRoot(h: seq<Byte> -> Digest, values: seq<seq<Byte>>)
    requires |values| > 1 && |values| % 2 == 1
    ensures Root(h, values + [values[|values| - 1]]) == Root(h, values)
  {
    var more := values + [values[|values| - 1]];
    assert Even(Leaves(more)) == Even(Leaves(values));
    assert Up(Leaves(more)) == Up(Leaves(values));
  }

  /** So does length: the text of a pair that starts with the byte 0 is also the text of a leaf. */
  lemma LongLeafHasPairRoot(h: seq<Byte> -> Digest, a: seq<Byte>, b: seq<Byte>)
    requires h(LeafText(a))[0] == 0
    ensures var pair := PairText(h(LeafText(a)), h(LeafText(b)));
      Root(h, [pair[1..]]) == Root(h, [a, b]) && Accepts(h, pair[1..], [], Root(h, [a, b]))
  {
    var pair := PairText(h(LeafText(a)), h(LeafText(b)));
    assert LeafText(pair[1..]) == pair;
    var values := [a, b];
    assert Leaves(values) == [Leaf(a), Leaf(b)];
    assert Up(Leaves(values)) == [Node(Leaf(a), Leaf(b))];
    assert TreeOf(Up(Leaves(values))) == Node(Leaf(a), Leaf(b));
    assert HashOf(h, Node(Leaf(a), Leaf(b))) == h(pair);
    assert Leaves([pair[1..]]) == [Leaf(pair[1..])];
  }
}
