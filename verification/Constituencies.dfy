/**
 The constituency tree with its materialized paths: every node stores the ids from its root down to itself,
 each followed by a slash, and "is within" is a comparison of prefixes.
 */
module Constituencies {
  import opened Collections
  import opened ShareText

  datatype Node = Node(organization: nat, parent: Option<nat>, path: string)

  type Tree = map<nat, Node>

  function Step(id: nat): string { Digits(id, 10) + "/" }

  predicate StartsWith(s: string, prefix: string) { prefix <= s }

  /** The test the application makes. */
  predicate IsWithin(nodes: Tree, id: nat, ancestor: nat)
    requires id in nodes && ancestor in nodes
  {
    StartsWith(nodes[id].path, nodes[ancestor].path)
  }

  function PathUnder(nodes: Tree, parent: Option<nat>, id: nat): string
    requires parent.Some? ==> parent.value in nodes
  {
    (if parent.Some? then nodes[parent.value].path else "") + Step(id)
  }

  /** Saving a node, new or known; known nodes below it follow when its path changes. */
  function AfterSave(nodes: Tree, id: nat, organization: nat, parent: Option<nat>): Tree
    requires parent.Some? ==> parent.value in nodes
    requires id !in nodes ==> parent != Some(id)
  {
    var was := if id in nodes then nodes[id].path else "";
    var path := PathUnder(nodes, parent, id);
    map n | n in nodes.Keys + {id} ::
      if n == id then Node(organization, parent, path)
      else if was != "" && path != was && StartsWith(nodes[n].path, was)
        then nodes[n].(path := path + nodes[n].path[|was|..])
      else nodes[n]
  }

  predicate SameOrganization(nodes: Tree, organization: nat, parent: Option<nat>)
    requires parent.Some? ==> parent.value in nodes
  {
    parent.Some? ==> nodes[parent.value].organization == organization
  }

  class Register {
    var nodes: Tree
    var ids: seq<nat>

    ghost predicate Valid()
      reads this
    {
      Listing(ids, nodes.Keys)
    }

    constructor ()
      ensures Valid() && nodes == map[]
    {
      nodes, ids := map[], [];
    }

    method Save(id: nat, organization: nat, parent: Option<nat>) returns (ok: bool)
      requires Valid() && (parent.Some? ==> parent.value in nodes) && (id !in nodes ==> parent != Some(id))
      modifies this
      ensures Valid()
      ensures ok == SameOrganization(old(nodes), organization, parent)
      ensures nodes == if ok then AfterSave(old(nodes), id, organization, parent) else old(nodes)
    {
      hide Step, Listing;
      if parent.Some? && nodes[parent.value].organization != organization {
        return false;
      }
      ghost var before := nodes;
      var path := PathUnder(nodes, parent, id);
      var oldPath := if id in nodes then nodes[id].path else "";
      if id !in nodes {
        AppendedListing(ids, nodes.Keys, id);
        ids := ids + [id];
      }
      nodes := nodes[id := Node(organization, parent, oldPath)];
      assert nodes.Keys == before.Keys + {id};
      assert id in before ==> before.Keys + {id} == before.Keys;
      if path != oldPath {
        nodes := nodes[id := nodes[id].(path := path)];
        assert nodes.Keys == before.Keys + {id};
        if oldPath != "" {
          RewriteBelow(id, oldPath, path);
        }
      }
      ok := true;
      assert nodes == AfterSave(before, id, organization, parent);
    }

    /** Give every other node below the old path its place below the new one. */
    method RewriteBelow(id: nat, oldPath: string, path: string)
      requires Valid() && id in nodes
      modifies this`nodes
      ensures Valid()
      ensures nodes == map n | n in old(nodes) :: Rewritten(old(nodes)[n], n, id, oldPath, path)
    {
      var before := nodes;
      for i := 0 to |ids|
        invariant nodes.Keys == before.Keys
        invariant forall k :: 0 <= k < i ==> nodes[ids[k]] == Rewritten(before[ids[k]], ids[k], id, oldPath, path)
        invariant forall k :: i <= k < |ids| ==> nodes[ids[k]] == before[ids[k]]
      {
        var child := ids[i];
        assert child in Elems(ids);
        if child != id && StartsWith(before[child].path, oldPath) {
          nodes := nodes[child := nodes[child].(path := path + before[child].path[|oldPath|..])];
        }
      }
      forall n | n in before ensures nodes[n] == Rewritten(before[n], n, id, oldPath, path) {
        assert n in Elems(ids);
        var k :| 0 <= k < |ids| && ids[k] == n;
      }
    }
  }

  function Rewritten(node: Node, n: nat, id: nat, oldPath: string, path: string): Node {
    if n != id && StartsWith(node.path, oldPath) then node.(path := path + node.path[|oldPath|..]) else node
  }

  lemma AppendedListing(ids: seq<nat>, keys: set<nat>, id: nat)
    requires Listing(ids, keys) && id !in keys
    ensures Listing(ids + [id], keys + {id})
  {
    assert id !in Elems(ids);
    Appended(ids, id);
  }

  // ---- Paths agree with parents ----

  /** Every path is the parent's path followed by the node's own step. That leaves no room for cycles. */
  ghost predicate Consistent(nodes: Tree) { forall n :: n in nodes ==> RowConsistent(nodes, n) }

  ghost predicate RowConsistent(nodes: Tree, n: nat)
    requires n in nodes
  {
    (nodes[n].parent.Some? ==> nodes[n].parent.value in nodes) && nodes[n].path == PathUnder(nodes, nodes[n].parent, n)
  }

  /** The plain meaning: `a` is `n` or an ancestor of it. */
  ghost predicate IsAncestor(nodes: Tree, a: nat, n: nat)
    requires Consistent(nodes) && n in nodes
    decreases |nodes[n].path|
  {
    a == n || (nodes[n].parent.Some? && (StepIsLong(n); IsAncestor(nodes, a, nodes[n].parent.value)))
  }

  lemma StepIsLong(id: nat)
    ensures |Step(id)| >= 2 && Step(id)[|Step(id)| - 1] == '/'
    ensures forall i :: 0 <= i < |Step(id)| - 1 ==> Step(id)[i] != '/'
  {
    NoSlash(id);
  }

  lemma {:induction false} NoSlash(id: nat)
    ensures '/' !in Digits(id, 10)
  {
    if id >= 10 {
      NoSlash(id / 10);
    }
    assert DigitChar(id % 10) != '/';
  }

  lemma StepsDiffer(a: nat, b: nat)
    requires Step(a) == Step(b)
    ensures a == b
  {
    assert Step(a)[..|Step(a)| - 1] == Digits(a, 10) && Step(b)[..|Step(b)| - 1] == Digits(b, 10);
    ReadPrinted(a, 10);
    ReadPrinted(b, 10);
  }

  predicate Ended(path: string) { path == "" || path[|path| - 1] == '/' }

  lemma PathEnded(nodes: Tree, n: nat)
    requires Consistent(nodes) && n in nodes
    ensures Ended(nodes[n].path) && |nodes[n].path| >= 2
  {
    StepIsLong(n);
  }

  /** A prefix that ends a step is the whole path or lies within the part before the last step. */
  lemma PrefixEndsEarly(front: string, id: nat, prefix: string)
    requires StartsWith(front + Step(id), prefix) && Ended(prefix)
    ensures prefix == front + Step(id) || StartsWith(front, prefix)
  {
    StepIsLong(id);
    var whole := front + Step(id);
    assert forall i :: |front| <= i < |whole| - 1 ==> whole[i] == Step(id)[i - |front|] != '/';
    assert prefix != "" ==> prefix[|prefix| - 1] == whole[|prefix| - 1];
  }

  /** Equal paths have equal last steps. */
  lemma LastStep(front: string, a: nat, other: string, b: nat)
    requires Ended(front) && Ended(other) && front + Step(a) == other + Step(b)
    ensures a == b && front == other
  {
    StepIsLong(a);
    StepIsLong(b);
    PrefixEndsEarly(other, b, front);
    PrefixEndsEarly(front, a, other);
    var whole := front + Step(a);
    assert |front| == |other|;
    assert whole[|front|..] == Step(a) && whole[|other|..] == Step(b);
    assert whole[..|front|] == front && whole[..|other|] == other;
    StepsDiffer(a, b);
  }

  function Above(nodes: Tree, n: nat): string
    requires n in nodes && (nodes[n].parent.Some? ==> nodes[n].parent.value in nodes)
  {
    if nodes[n].parent.Some? then nodes[nodes[n].parent.value].path else ""
  }

  lemma AboveEnded(nodes: Tree, n: nat)
    requires Consistent(nodes) && n in nodes
    ensures Ended(Above(nodes, n)) && nodes[n].path == Above(nodes, n) + Step(n)
  {
    if nodes[n].parent.Some? {
      PathEnded(nodes, nodes[n].parent.value);
    }
  }

  /** In a consistent tree the prefix test is exactly the tree's own order. */
  lemma {:induction false} WithinIsAncestor(nodes: Tree, n: nat, a: nat)
    requires Consistent(nodes) && n in nodes && a in nodes
    ensures IsWithin(nodes, n, a) <==> IsAncestor(nodes, a, n)
    decreases |nodes[n].path|
  {
    hide Step;
    StepIsLong(n);
    PathEnded(nodes, a);
    AboveEnded(nodes, n);
    AboveEnded(nodes, a);
    var parent := nodes[n].parent;
    if parent.Some? {
      WithinIsAncestor(nodes, parent.value, a);
    }
    if IsWithin(nodes, n, a) {
      PrefixEndsEarly(Above(nodes, n), n, nodes[a].path);
      if nodes[a].path == nodes[n].path {
        LastStep(Above(nodes, a), a, Above(nodes, n), n);
      }
    }
  }

  // ---- Saving keeps them in agreement ----

  /** A node may be saved anywhere but below itself. */
  predicate OutsideOwnSubtree(nodes: Tree, id: nat, parent: Option<nat>)
    requires parent.Some? ==> parent.value in nodes
  {
    parent.Some? && id in nodes ==> !IsWithin(nodes, parent.value, id)
  }

  lemma ParentStaysInside(nodes: Tree, n: nat, id: nat)
    requires Consistent(nodes) && n in nodes && id in nodes && n != id && IsWithin(nodes, n, id)
    ensures nodes[n].parent.Some? && IsWithin(nodes, nodes[n].parent.value, id)
  {
    WithinIsAncestor(nodes, n, id);
    if nodes[n].parent.Some? {
      StepIsLong(n);
      WithinIsAncestor(nodes, nodes[n].parent.value, id);
    }
  }

  lemma InsideBelowParent(nodes: Tree, n: nat, id: nat)
    requires Consistent(nodes) && n in nodes && id in nodes && nodes[n].parent.Some?
      && IsWithin(nodes, nodes[n].parent.value, id)
    ensures IsWithin(nodes, n, id)
  {
  }

  lemma SuffixMoves(was: string, path: string, p: string, last: string)
    requires StartsWith(p, was)
    ensures path + (p + last)[|was|..] == path + p[|was|..] + last
  {
    assert (p + last)[|was|..] == p[|was|..] + last;
  }

  lemma MovedWithParent(nodes: Tree, id: nat, organization: nat, parent: Option<nat>, n: nat)
    requires Consistent(nodes) && (parent.Some? ==> parent.value in nodes) && OutsideOwnSubtree(nodes, id, parent)
    requires id in nodes && n in nodes && n != id && IsWithin(nodes, n, id)
    ensures RowConsistent(AfterSave(nodes, id, organization, parent), n)
  {
    PathEnded(nodes, id);
    ParentStaysInside(nodes, n, id);
    assert RowConsistent(nodes, n);
    var (p, path) := (nodes[n].parent.value, PathUnder(nodes, parent, id));
    SuffixMoves(nodes[id].path, path, nodes[p].path, Step(n));
    InsideMoves(nodes, id, organization, parent, n);
    InsideMoves(nodes, id, organization, parent, p);
    hide Step, Consistent, AfterSave;
  }

  lemma InsideMoves(nodes: Tree, id: nat, organization: nat, parent: Option<nat>, n: nat)
    requires (parent.Some? ==> parent.value in nodes) && id in nodes && n in nodes && IsWithin(nodes, n, id)
      && nodes[id].path != ""
    ensures var after := AfterSave(nodes, id, organization, parent);
      && n in after && after[n].path == PathUnder(nodes, parent, id) + nodes[n].path[|nodes[id].path|..]
      && (n != id ==> after[n].parent == nodes[n].parent)
  {
    hide Step;
    assert nodes[id].path[|nodes[id].path|..] == "";
  }

  lemma StaysWithParent(nodes: Tree, id: nat, organization: nat, parent: Option<nat>, n: nat)
    requires Consistent(nodes) && (parent.Some? ==> parent.value in nodes) && OutsideOwnSubtree(nodes, id, parent)
    requires n in nodes && n != id && (id in nodes ==> !IsWithin(nodes, n, id))
    ensures RowConsistent(AfterSave(nodes, id, organization, parent), n)
  {
    assert RowConsistent(nodes, n);
    if id in nodes && nodes[n].parent.Some? && IsWithin(nodes, nodes[n].parent.value, id) {
      InsideBelowParent(nodes, n, id);
    }
    hide Step, Consistent;
  }

  lemma SaveKeepsConsistent(nodes: Tree, id: nat, organization: nat, parent: Option<nat>)
    requires Consistent(nodes) && (parent.Some? ==> parent.value in nodes) && (id !in nodes ==> parent != Some(id))
    requires OutsideOwnSubtree(nodes, id, parent)
    ensures Consistent(AfterSave(nodes, id, organization, parent))
  {
    var after := AfterSave(nodes, id, organization, parent);
    forall n | n in after ensures RowConsistent(after, n) {
      if n != id {
        if id in nodes && IsWithin(nodes, n, id) {
          MovedWithParent(nodes, id, organization, parent, n);
        } else {
          StaysWithParent(nodes, id, organization, parent, n);
        }
      } else {
        SavedRow(nodes, id, organization, parent);
      }
    }
    hide AfterSave, Step, RowConsistent, OutsideOwnSubtree;
  }

  lemma SavedRow(nodes: Tree, id: nat, organization: nat, parent: Option<nat>)
    requires (parent.Some? ==> parent.value in nodes) && (id !in nodes ==> parent != Some(id))
      && OutsideOwnSubtree(nodes, id, parent)
    ensures RowConsistent(AfterSave(nodes, id, organization, parent), id)
  {
    hide Step;
  }

  /** Saved below itself a node is never consistent again: the condition is exact. */
  lemma SaveBelowItselfBreaks(nodes: Tree, id: nat, organization: nat, parent: Option<nat>)
    requires Consistent(nodes) && parent.Some? && parent.value in nodes && id in nodes
      && IsWithin(nodes, parent.value, id)
    ensures !Consistent(AfterSave(nodes, id, organization, parent))
  {
    hide Step;
    StepIsLong(id);
    PathEnded(nodes, id);
    var after := AfterSave(nodes, id, organization, parent);
    var p := parent.value;
    assert |PathUnder(nodes, parent, id)| > |nodes[p].path| >= |nodes[id].path|;
    assert |after[p].path| > |nodes[p].path|;
    assert after[id].path != PathUnder(after, after[id].parent, id);
  }

  datatype Saving = Saving(id: nat, organization: nat, parent: Option<nat>)

  predicate Possible(nodes: Tree, s: Saving) {
    && (s.parent.Some? ==> s.parent.value in nodes) && (s.id !in nodes ==> s.parent != Some(s.id))
    && SameOrganization(nodes, s.organization, s.parent)
  }

  function AfterAll(run: seq<Saving>): Tree {
    if run == [] then map[]
    else
      var (before, last) := (AfterAll(run[..|run| - 1]), run[|run| - 1]);
      if Possible(before, last) then AfterSave(before, last.id, last.organization, last.parent) else before
  }

  /** No accepted saving puts a node below itself. */
  predicate Proper(run: seq<Saving>, k: nat)
    requires k < |run|
  {
    var before := AfterAll(run[..k]);
    Possible(before, run[k]) ==> OutsideOwnSubtree(before, run[k].id, run[k].parent)
  }

  lemma NextTree(run: seq<Saving>, k: nat)
    requires k < |run|
    ensures AfterAll(run[..k + 1]) ==
      var (before, last) := (AfterAll(run[..k]), run[k]);
      if Possible(before, last) then AfterSave(before, last.id, last.organization, last.parent) else before
  {
    assert run[..k + 1][..k] == run[..k];
  }

  lemma StepConsistent(run: seq<Saving>, k: nat)
    requires k < |run| && Consistent(AfterAll(run[..k]))
    ensures Consistent(AfterAll(run[..k + 1])) <==> Proper(run, k)
  {
    NextTree(run, k);
    var before := AfterAll(run[..k]);
    hide AfterAll, AfterSave, Consistent;
    if Possible(before, run[k]) {
      if OutsideOwnSubtree(before, run[k].id, run[k].parent) {
        SaveKeepsConsistent(before, run[k].id, run[k].organization, run[k].parent);
      } else {
        SaveBelowItselfBreaks(before, run[k].id, run[k].organization, run[k].parent);
      }
    }
  }

  /** The trees reached by a run are all consistent exactly when no saving puts a node below itself. */
  lemma {:induction false} ConsistentIffProper(run: seq<Saving>)
    ensures (forall k :: 0 <= k <= |run| ==> Consistent(AfterAll(run[..k])))
      <==> (forall k :: 0 <= k < |run| ==> Proper(run, k))
  {
    assert Consistent(AfterAll(run[..0]));
    hide AfterAll, Consistent, Proper;
    forall k | 0 <= k < |run| && Consistent(AfterAll(run[..k]))
      ensures Consistent(AfterAll(run[..k + 1])) <==> Proper(run, k)
    {
      StepConsistent(run, k);
    }
    if forall k :: 0 <= k < |run| ==> Proper(run, k) {
      for n := 0 to |run|
        invariant forall k :: 0 <= k <= n ==> Consistent(AfterAll(run[..k]))
      {
        assert Consistent(AfterAll(run[..n])) && Proper(run, n);
      }
    } else {
      var k :| 0 <= k < |run| && !Proper(run, k);
      assert !(Consistent(AfterAll(run[..k])) && Consistent(AfterAll(run[..k + 1])));
    }
  }

  /** So in every tree reached by such a run the prefix test means being the node itself or an ancestor of it. */
  lemma PathsAgreeWithTree(run: seq<Saving>, n: nat, a: nat)
    requires (forall k :: 0 <= k < |run| ==> Proper(run, k)) && n in AfterAll(run) && a in AfterAll(run)
    ensures Consistent(AfterAll(run)) && (IsWithin(AfterAll(run), n, a) <==> IsAncestor(AfterAll(run), a, n))
  {
    hide AfterAll, Consistent, Proper;
    ConsistentIffProper(run);
    assert run[..|run|] == run && Consistent(AfterAll(run[..|run|]));
    WithinIsAncestor(AfterAll(run), n, a);
  }

  // ---- The tree is the one that was saved ----

  predicate Saves(run: seq<Saving>, k: int, n: nat) {
    0 <= k < |run| && run[k].id == n && Possible(AfterAll(run[..k]), run[k])
  }

  /** The last accepted saving of the node. */
  ghost predicate LastSaved(run: seq<Saving>, j: int, n: nat) {
    Saves(run, j, n) && forall k :: j < k < |run| ==> !Saves(run, k, n)
  }

  lemma SavedNow(run: seq<Saving>, s: Saving, k: int, n: nat)
    ensures Saves(run + [s], k, n) <==>
      if k == |run| then s.id == n && Possible(AfterAll(run), s) else Saves(run, k, n)
  {
    hide AfterAll, Possible;
    var more := run + [s];
    if 0 <= k < |run| {
      assert more[..k] == run[..k] && more[k] == run[k];
    } else if k == |run| {
      assert more[..k] == run;
    }
  }

  lemma LastSavedMore(run: seq<Saving>, s: Saving, j: int, n: nat)
    ensures LastSaved(run + [s], j, n) <==>
      if j == |run| then s.id == n && Possible(AfterAll(run), s)
      else LastSaved(run, j, n) && !(s.id == n && Possible(AfterAll(run), s))
  {
    hide Saves, Possible, AfterAll;
    var more := run + [s];
    forall k ensures Saves(more, k, n) <==>
      if k == |run| then s.id == n && Possible(AfterAll(run), s) else Saves(run, k, n)
    {
      SavedNow(run, s, k, n);
    }
    SavesInRun(run, n);
    if LastSaved(more, j, n) && j < |run| {
      assert !Saves(more, |run|, n);
      forall k | j < k < |run| ensures !Saves(run, k, n) {
        assert !Saves(more, k, n);
      }
    }
  }

  lemma SavesInRun(run: seq<Saving>, n: nat)
    ensures forall k :: Saves(run, k, n) ==> 0 <= k < |run|
  {
  }

  /** What a run says of a node: it is there exactly if it was saved, where it was saved last. */
  ghost predicate Told(run: seq<Saving>, nodes: Tree, n: nat) {
    && (n in nodes <==> exists j :: LastSaved(run, j, n))
    && forall j :: LastSaved(run, j, n) ==>
         0 <= j < |run| && n in nodes && nodes[n].parent == run[j].parent
           && nodes[n].organization == run[j].organization
  }

  lemma SaveTold(run: seq<Saving>, s: Saving, n: nat)
    requires Told(run, AfterAll(run), n)
    ensures Told(run + [s], AfterAll(run + [s]), n)
  {
    var (before, more) := (AfterAll(run), run + [s]);
    assert more[..|run|] == run && more[|run|] == s;
    forall j ensures LastSaved(more, j, n) <==>
      if j == |run| then s.id == n && Possible(before, s)
      else LastSaved(run, j, n) && !(s.id == n && Possible(before, s))
    {
      LastSavedMore(run, s, j, n);
    }
    assert forall j :: 0 <= j < |run| ==> more[j] == run[j];
    hide LastSaved, PathUnder, SameOrganization;
    if n in before {
      var j :| LastSaved(run, j, n);
      assert !(s.id == n && Possible(before, s)) ==> LastSaved(more, j, n);
    }
    assert s.id == n && Possible(before, s) ==> LastSaved(more, |run|, n);
  }

  /** The tree after a run is the one that was saved: each node below the parent it was last saved with. */
  lemma {:induction false} TreeIsAsSaved(run: seq<Saving>, n: nat)
    ensures Told(run, AfterAll(run), n)
  {
    if run != [] {
      TreeIsAsSaved(run[..|run| - 1], n);
      hide Told, AfterAll;
      SaveTold(run[..|run| - 1], run[|run| - 1], n);
      assert run[..|run| - 1] + [run[|run| - 1]] == run;
    }
  }

  // ---- Organizations ----

  ghost predicate OneOrganization(nodes: Tree) {
    forall n :: n in nodes && nodes[n].parent.Some? && nodes[n].parent.value in nodes ==>
      nodes[nodes[n].parent.value].organization == nodes[n].organization
  }

  /** An accepted saving takes a node with others directly below it to another organization. */
  ghost predicate Strands(nodes: Tree, s: Saving) {
    && Possible(nodes, s) && s.id in nodes && nodes[s.id].organization != s.organization
    && exists n :: n in nodes && n != s.id && nodes[n].parent == Some(s.id)
  }

  ghost predicate Closed(nodes: Tree) {
    forall n :: n in nodes && nodes[n].parent.Some? ==> nodes[n].parent.value in nodes
  }

  lemma SaveKeepsOrganization(nodes: Tree, s: Saving)
    requires Closed(nodes) && OneOrganization(nodes) && Possible(nodes, s)
    ensures var after := AfterSave(nodes, s.id, s.organization, s.parent);
      Closed(after) && (OneOrganization(after) <==> !Strands(nodes, s))
  {
    hide PathUnder;
    var after := AfterSave(nodes, s.id, s.organization, s.parent);
    assert forall n :: n in nodes && n != s.id ==>
      after[n].parent == nodes[n].parent && after[n].organization == nodes[n].organization;
    if Strands(nodes, s) {
      var n :| n in nodes && n != s.id && nodes[n].parent == Some(s.id);
      assert after[n].parent == Some(s.id) && after[n].organization == nodes[s.id].organization != s.organization;
    } else {
      forall n | n in after && after[n].parent.Some?
        ensures after[after[n].parent.value].organization == after[n].organization
      {
        if n != s.id && after[n].parent.value == s.id {
          assert nodes[n].parent == Some(s.id);
        }
      }
    }
  }

  /**
   Nodes belong to the organization of their parent throughout a run exactly if no saving takes one away from
   below.
   */
  lemma {:induction false} OrganizationsAgree(run: seq<Saving>)
    ensures (forall k :: 0 <= k <= |run| ==> OneOrganization(AfterAll(run[..k])))
      <==> (forall k :: 0 <= k < |run| ==> !Strands(AfterAll(run[..k]), run[k]))
  {
    assert OneOrganization(AfterAll(run[..0]));
    forall k | 0 <= k < |run| && OneOrganization(AfterAll(run[..k]))
      ensures OneOrganization(AfterAll(run[..k + 1])) <==> !Strands(AfterAll(run[..k]), run[k])
    {
      NextTree(run, k);
      RunIsClosed(run[..k]);
      hide AfterAll, OneOrganization;
      if Possible(AfterAll(run[..k]), run[k]) {
        SaveKeepsOrganization(AfterAll(run[..k]), run[k]);
      }
    }
    hide AfterAll, OneOrganization, Strands;
    if forall k :: 0 <= k < |run| ==> !Strands(AfterAll(run[..k]), run[k]) {
      for n := 0 to |run|
        invariant forall k :: 0 <= k <= n ==> OneOrganization(AfterAll(run[..k]))
      {
        assert OneOrganization(AfterAll(run[..n])) && !Strands(AfterAll(run[..n]), run[n]);
      }
    } else {
      var k :| 0 <= k < |run| && Strands(AfterAll(run[..k]), run[k]);
      assert !(OneOrganization(AfterAll(run[..k])) && OneOrganization(AfterAll(run[..k + 1])));
    }
  }

  lemma {:induction false} RunIsClosed(run: seq<Saving>)
    ensures Closed(AfterAll(run))
  {
    if run != [] {
      RunIsClosed(run[..|run| - 1]);
    }
  }

  lemma SavedFields(nodes: Tree, s: Saving)
    requires Possible(nodes, s)
    ensures var after := AfterSave(nodes, s.id, s.organization, s.parent);
      && after.Keys == nodes.Keys + {s.id}
      && after[s.id].parent == s.parent && after[s.id].organization == s.organization
      && forall n :: n in nodes && n != s.id ==>
           after[n].parent == nodes[n].parent && after[n].organization == nodes[n].organization
  {
    hide PathUnder;
  }

  /** It can: a node is saved with another below it, and then for another organization. */
  lemma LeftBehind()
    ensures !OneOrganization(AfterAll([Saving(1, 0, None), Saving(2, 0, Some(1)), Saving(1, 9, None)]))
  {
    var run := [Saving(1, 0, None), Saving(2, 0, Some(1)), Saving(1, 9, None)];
    assert run[..0] == [] && run[..3] == run && AfterAll([]) == map[];
    NextTree(run, 0);
    NextTree(run, 1);
    NextTree(run, 2);
    hide AfterAll, AfterSave;
    SavedFields(AfterAll(run[..0]), run[0]);
    SavedFields(AfterAll(run[..1]), run[1]);
    SavedFields(AfterAll(run[..2]), run[2]);
    var tree := AfterAll(run);
    assert tree[2].parent == Some(1) && tree[2].organization == 0 && tree[1].organization == 9;
  }
}
