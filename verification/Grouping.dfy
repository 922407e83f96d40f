/**
 Same-server grouping: sources that share an identity, directly or through a chain of others, form one group.
 The implementation is a union-find over the sorted source list with path compression; parents never exceed their index.
 */
module Grouping {

  /** The identities of the active sources, in the order of their sorted ids. */
  type Sets = seq<set<string>>

  ghost predicate Shares(sets: Sets, i: nat, j: nat) {
    i < |sets| && j < |sets| && sets[i] * sets[j] != {}
  }

  /** A chain of sources from `i` to `j`, each sharing an identity with the next. */
  ghost predicate IsChain(sets: Sets, i: nat, j: nat, path: seq<nat>) {
    && path != [] && path[0] == i && path[|path| - 1] == j
    && (forall k :: 0 <= k < |path| ==> path[k] < |sets|)
    && forall k :: 0 <= k < |path| - 1 ==> Shares(sets, path[k], path[k + 1])
  }

  ghost predicate Linked(sets: Sets, i: nat, j: nat) {
    exists path :: IsChain(sets, i, j, path)
  }

  lemma LinkedSelf(sets: Sets, i: nat)
    requires i < |sets|
    ensures Linked(sets, i, i)
  {
    assert IsChain(sets, i, i, [i]);
  }

  lemma LinkedStep(sets: Sets, i: nat, j: nat)
    requires Shares(sets, i, j)
    ensures Linked(sets, i, j)
  {
    assert IsChain(sets, i, j, [i, j]);
  }

  lemma LinkedTransitive(sets: Sets, i: nat, j: nat, k: nat)
    requires Linked(sets, i, j) && Linked(sets, j, k)
    ensures Linked(sets, i, k)
  {
    var p :| IsChain(sets, i, j, p);
    var q :| IsChain(sets, j, k, q);
    var r := p + q[1..];
    assert |q| == 1 ==> r == p;
    forall m | 0 <= m < |r| - 1
      ensures Shares(sets, r[m], r[m + 1])
    {
      if m >= |p| - 1 {
        assert r[m] == q[m - |p| + 1] && r[m + 1] == q[m - |p| + 2];
      }
    }
    assert IsChain(sets, i, k, r);
  }

  lemma LinkedSymmetric(sets: Sets, i: nat, j: nat)
    requires Linked(sets, i, j)
    ensures Linked(sets, j, i)
  {
    var p :| IsChain(sets, i, j, p);
    var r := seq(|p|, k requires 0 <= k < |p| => p[|p| - 1 - k]);
    forall m | 0 <= m < |r| - 1
      ensures Shares(sets, r[m], r[m + 1])
    {
      assert Shares(sets, p[|p| - 2 - m], p[|p| - 2 - m + 1]);
    }
    assert IsChain(sets, j, i, r);
  }

  // ---------------------------------------------------------------- the forest

  ghost predicate IsForest(p: seq<nat>) {
    forall i :: 0 <= i < |p| ==> p[i] <= i
  }

  /** The root above `i`; it terminates because parents never exceed their index. */
  ghost function Root(p: seq<nat>, i: nat): (r: nat)
    requires IsForest(p) && i < |p|
    ensures r <= i && p[r] == r
    decreases i
  {
    if p[i] == i then i else Root(p, p[i])
  }

  lemma {:induction false} RootOfRoot(p: seq<nat>, i: nat)
    requires IsForest(p) && i < |p|
    ensures Root(p, Root(p, i)) == Root(p, i)
    decreases i
  {
  }

  /** Pointing an index straight at its root moves nobody. */
  lemma {:induction false} CompressKeepsRoots(p: seq<nat>, i: nat, j: nat)
    requires IsForest(p) && i < |p| && j < |p|
    ensures IsForest(p[i := Root(p, i)])
    ensures Root(p[i := Root(p, i)], j) == Root(p, j)
    decreases j
  {
    var q := p[i := Root(p, i)];
    assert IsForest(q);
    if p[j] != j {
      CompressKeepsRoots(p, i, p[j]);
      if j == i {
        RootOfRoot(p, i);
        CompressKeepsRoots(p, i, Root(p, i));
      }
    }
  }

  /** Hanging a root below a smaller root merges exactly their two trees. */
  lemma {:induction false} HangMergesTrees(p: seq<nat>, low: nat, high: nat, j: nat)
    requires IsForest(p) && low < high < |p| && p[low] == low && p[high] == high && j < |p|
    ensures IsForest(p[high := low])
    ensures Root(p[high := low], j) == if Root(p, j) == high then low else Root(p, j)
    decreases j
  {
    var q := p[high := low];
    assert IsForest(q);
    if p[j] != j {
      HangMergesTrees(p, low, high, p[j]);
    } else if j == high {
      assert q[low] == low;
    }
  }

  /** The two forests send every index to the same root. */
  ghost predicate SameRoots(p: seq<nat>, q: seq<nat>) {
    && IsForest(p) && IsForest(q) && |p| == |q|
    && forall j :: 0 <= j < |p| ==> Root(p, j) == Root(q, j)
  }

  /** `q` is `p` with the trees of `a` and `b` joined under the smaller of their roots. */
  ghost predicate Joined(p: seq<nat>, q: seq<nat>, a: nat, b: nat)
    requires a < |p| && b < |p| && IsForest(p)
  {
    && IsForest(q) && |q| == |p|
    && forall j :: 0 <= j < |p| ==>
         Root(q, j) == if Root(p, j) == Root(p, a) || Root(p, j) == Root(p, b) then Min(Root(p, a), Root(p, b))
                       else Root(p, j)
  }

  function Min(a: nat, b: nat): (r: nat) {
    if a < b then a else b
  }

  lemma CompressAll(p: seq<nat>, i: nat)
    requires IsForest(p) && i < |p|
    ensures SameRoots(p, p[i := Root(p, i)])
  {
    CompressKeepsRoots(p, i, i);
    forall j | 0 <= j < |p|
      ensures Root(p[i := Root(p, i)], j) == Root(p, j)
    {
      CompressKeepsRoots(p, i, j);
    }
  }

  lemma HangAll(p: seq<nat>, a: nat, b: nat)
    requires IsForest(p) && a < |p| && b < |p| && Root(p, a) < Root(p, b)
    ensures Joined(p, p[Root(p, b) := Root(p, a)], a, b)
    ensures Joined(p, p[Root(p, b) := Root(p, a)], b, a)
  {
    var low, high := Root(p, a), Root(p, b);
    forall j | 0 <= j < |p|
      ensures IsForest(p[high := low])
      ensures Root(p[high := low], j) == if Root(p, j) == high then low else Root(p, j)
    {
      HangMergesTrees(p, low, high, j);
    }
  }

  lemma SameRootsJoined(p: seq<nat>, q: seq<nat>, r: seq<nat>, a: nat, b: nat)
    requires SameRoots(p, q) && a < |p| && b < |p| && Joined(q, r, a, b)
    ensures Joined(p, r, a, b)
  {
  }

  /** Finds the root of `index` and compresses the path to it. No root changes. */
  method FindGroup(parents: array<nat>, index: nat) returns (root: nat)
    requires IsForest(parents[..]) && index < parents.Length
    modifies parents
    ensures SameRoots(old(parents[..]), parents[..])
    ensures root == Root(old(parents[..]), index) && parents[index] == root
    decreases index
  {
    if parents[index] != index {
      var up := FindGroup(parents, parents[index]);
      ghost var p := parents[..];
      assert up == Root(p, index);
      CompressAll(p, index);
      parents[index] := up;
      assert parents[..] == p[index := up];
    }
    root := parents[index];
  }

  /** Joins the trees of two indices under the smaller root. */
  method UnionGroups(parents: array<nat>, left: nat, right: nat)
    requires IsForest(parents[..]) && left < parents.Length && right < parents.Length
    modifies parents
    ensures Joined(old(parents[..]), parents[..], left, right)
  {
    ghost var before := parents[..];
    var leftRoot := FindGroup(parents, left);
    var rightRoot := FindGroup(parents, right);
    if leftRoot == rightRoot {
      return;
    }
    ghost var p := parents[..];
    assert SameRoots(before, p);
    if leftRoot < rightRoot {
      HangAll(p, left, right);
      parents[rightRoot] := leftRoot;
      assert parents[..] == p[rightRoot := leftRoot];
    } else {
      HangAll(p, right, left);
      parents[leftRoot] := rightRoot;
      assert parents[..] == p[leftRoot := rightRoot];
    }
    SameRootsJoined(before, p, parents[..], left, right);
  }

  // ---------------------------------------------------------------- groups

  /** Nobody is rooted at a source it is not linked to. */
  ghost predicate RootsLinked(sets: Sets, p: seq<nat>) {
    && IsForest(p) && |p| == |sets|
    && forall j :: 0 <= j < |p| ==> Linked(sets, Root(p, j), j)
  }

  /** All sharing pairs before (left, right), in the order of the double loop, have a common root. */
  ghost predicate PairsJoined(sets: Sets, p: seq<nat>, left: nat, right: nat)
    requires IsForest(p) && |p| == |sets|
  {
    forall i, j :: 0 <= i < j < |p| && (i < left || (i == left && j < right)) && Shares(sets, i, j) ==>
      Root(p, i) == Root(p, j)
  }

  lemma JoinKeepsLinked(sets: Sets, p: seq<nat>, q: seq<nat>, a: nat, b: nat)
    requires RootsLinked(sets, p) && a < |p| && b < |p| && Joined(p, q, a, b) && Shares(sets, a, b)
    ensures RootsLinked(sets, q)
  {
    LinkedStep(sets, a, b);
    LinkedSymmetric(sets, a, b);
    forall j | 0 <= j < |q|
      ensures Linked(sets, Root(q, j), j)
    {
      if Root(q, j) != Root(p, j) {
        var from, to := if Root(p, j) == Root(p, a) then b else a, if Root(p, j) == Root(p, a) then a else b;
        assert Root(q, j) == Root(p, from) && Root(p, j) == Root(p, to);
        LinkedTransitive(sets, Root(p, from), from, to);
        LinkedSymmetric(sets, Root(p, to), to);
        LinkedTransitive(sets, Root(p, from), to, Root(p, to));
        LinkedTransitive(sets, Root(p, from), Root(p, to), j);
      }
    }
  }

  lemma JoinKeepsPairs(sets: Sets, p: seq<nat>, q: seq<nat>, a: nat, b: nat)
    requires IsForest(p) && |p| == |sets| && a < b < |p| && Joined(p, q, a, b)
    requires PairsJoined(sets, p, a, b)
    ensures PairsJoined(sets, q, a, b + 1)
  {
  }

  /** Once every sharing pair is joined, two sources have one root exactly when a chain links them. */
  lemma RootsAreComponents(sets: Sets, p: seq<nat>, i: nat, j: nat)
    requires RootsLinked(sets, p) && PairsJoined(sets, p, |p|, 0) && i < |p| && j < |p|
    ensures Root(p, i) == Root(p, j) <==> Linked(sets, i, j)
  {
    if Root(p, i) == Root(p, j) {
      LinkedSymmetric(sets, Root(p, i), i);
      LinkedTransitive(sets, i, Root(p, i), j);
    }
    if Linked(sets, i, j) {
      var path :| IsChain(sets, i, j, path);
      ChainHasOneRoot(sets, p, path, |path| - 1);
    }
  }

  lemma {:induction false} ChainHasOneRoot(sets: Sets, p: seq<nat>, path: seq<nat>, n: nat)
    requires IsForest(p) && |p| == |sets| && PairsJoined(sets, p, |p|, 0)
    requires n < |path| && IsChain(sets, path[0], path[|path| - 1], path)
    ensures Root(p, path[n]) == Root(p, path[0])
  {
    if n > 0 {
      ChainHasOneRoot(sets, p, path, n - 1);
      var a, b := path[n - 1], path[n];
      assert Shares(sets, path[n - 1], path[n - 1 + 1]);
      assert sets[a] * sets[b] == sets[b] * sets[a];
      assert a < b ==> Shares(sets, a, b);
      assert b < a ==> Shares(sets, b, a);
    }
  }

  /** Representatives: equal exactly for linked sources, and the least index of the component. */
  ghost predicate AreRepresentatives(sets: Sets, roots: seq<nat>) {
    && |roots| == |sets|
    && (forall i, j :: 0 <= i < |roots| && 0 <= j < |roots| ==> (roots[i] == roots[j] <==> Linked(sets, i, j)))
    && (forall i :: 0 <= i < |roots| ==> roots[i] <= i && roots[roots[i]] == roots[i])
  }

  /** A representative is the least index linked to its source. */
  lemma RepresentativeIsLeast(sets: Sets, roots: seq<nat>, i: nat, j: nat)
    requires AreRepresentatives(sets, roots) && i < |roots| && j < |roots| && Linked(sets, i, j)
    ensures roots[i] <= j && Linked(sets, i, roots[i])
  {
  }

  /** The double loop over all pairs, then one lookup per source. */
  method Representatives(sets: Sets) returns (roots: seq<nat>)
    ensures AreRepresentatives(sets, roots)
  {
    hide Linked, Shares;
    var n := |sets|;
    var parents := new nat[n](i => i);
    StartingForest(sets, parents[..]);
    for left := 0 to n
      invariant RootsLinked(sets, parents[..]) && PairsJoined(sets, parents[..], left, left + 1)
    {
      for right := left + 1 to n
        invariant RootsLinked(sets, parents[..]) && PairsJoined(sets, parents[..], left, right)
      {
        ghost var before := parents[..];
        if sets[left] * sets[right] == {} {
          NothingShared(sets, before, left, right);
        } else {
          Sharing(sets, left, right);
          UnionGroups(parents, left, right);
          JoinKeepsLinked(sets, before, parents[..], left, right);
          JoinKeepsPairs(sets, before, parents[..], left, right);
        }
      }
    }
    roots := [];
    ghost var final := parents[..];
    for i := 0 to n
      invariant SameRoots(final, parents[..])
      invariant |roots| == i && forall j :: 0 <= j < i ==> roots[j] == Root(final, j)
    {
      var root := FindGroup(parents, i);
      roots := roots + [root];
    }
    RootsRepresent(sets, final, roots);
  }

  lemma StartingForest(sets: Sets, p: seq<nat>)
    requires |p| == |sets| && forall i :: 0 <= i < |p| ==> p[i] == i
    ensures RootsLinked(sets, p) && PairsJoined(sets, p, 0, 1)
  {
    forall j | 0 <= j < |p|
      ensures Linked(sets, Root(p, j), j)
    {
      LinkedSelf(sets, j);
    }
  }

  lemma NothingShared(sets: Sets, p: seq<nat>, left: nat, right: nat)
    requires IsForest(p) && |p| == |sets| && left < right < |p| && sets[left] * sets[right] == {}
    requires PairsJoined(sets, p, left, right)
    ensures PairsJoined(sets, p, left, right + 1)
  {
  }

  lemma Sharing(sets: Sets, left: nat, right: nat)
    requires left < |sets| && right < |sets| && sets[left] * sets[right] != {}
    ensures Shares(sets, left, right)
  {
  }

  lemma RootsRepresent(sets: Sets, p: seq<nat>, roots: seq<nat>)
    requires RootsLinked(sets, p) && PairsJoined(sets, p, |p|, |p| + 1)
    requires |roots| == |p| && forall j :: 0 <= j < |p| ==> roots[j] == Root(p, j)
    ensures AreRepresentatives(sets, roots)
  {
    forall i, j | 0 <= i < |roots| && 0 <= j < |roots|
      ensures roots[i] == roots[j] <==> Linked(sets, i, j)
    {
      RootsAreComponents(sets, p, i, j);
    }
    forall i | 0 <= i < |roots|
      ensures roots[i] <= i && roots[roots[i]] == roots[i]
    {
      RootOfRoot(p, i);
    }
  }

  // ---------------------------------------------------------------- member lists

  /** Everything linked to its first member, in ascending order. */
  ghost predicate IsGroup(sets: Sets, group: seq<nat>) {
    && group != [] && Ascending(group)
    && forall j: nat :: j in group <==> j < |sets| && Linked(sets, group[0], j)
  }

  /** Linked groups, ordered by their least member, that cover all sources. */
  ghost predicate IsGrouping(sets: Sets, groups: seq<seq<nat>>) {
    && (forall g :: 0 <= g < |groups| ==> IsGroup(sets, groups[g]))
    && OrderedByFirst(groups)
    && forall i: nat :: i < |sets| ==> Covered(groups, i)
  }

  ghost predicate Covered(groups: seq<seq<nat>>, i: nat) {
    exists g :: 0 <= g < |groups| && i in groups[g]
  }

  ghost predicate OrderedByFirst(groups: seq<seq<nat>>) {
    && (forall g :: 0 <= g < |groups| ==> groups[g] != [])
    && forall g, h :: 0 <= g < h < |groups| ==> groups[g][0] < groups[h][0]
  }

  ghost predicate Ascending(s: seq<nat>) {
    forall i, j :: 0 <= i < j < |s| ==> s[i] < s[j]
  }

  /** Two members of a grouping are in one group exactly when they are linked; no source is in two groups. */
  lemma GroupsPartition(sets: Sets, groups: seq<seq<nat>>, g: nat, h: nat, i: nat, j: nat)
    requires IsGrouping(sets, groups) && g < |groups| && h < |groups| && i in groups[g] && j in groups[h]
    ensures g == h <==> Linked(sets, i, j)
  {
    var a, b := groups[g][0], groups[h][0];
    assert IsGroup(sets, groups[g]) && IsGroup(sets, groups[h]);
    if g == h {
      LinkedSymmetric(sets, a, i);
      LinkedTransitive(sets, i, a, j);
    }
    if Linked(sets, i, j) {
      LinkedSymmetric(sets, b, j);
      LinkedTransitive(sets, a, i, j);
      LinkedTransitive(sets, a, j, b);
      assert b in groups[g];
      LinkedSymmetric(sets, a, b);
      assert a in groups[h] by {
        assert groups[g][0] in groups[g];
      }
      FirstIsLeast(groups[g], b);
      FirstIsLeast(groups[h], a);
    }
  }

  lemma FirstIsLeast(s: seq<nat>, x: nat)
    requires Ascending(s) && x in s
    ensures s[0] <= x
  {
  }

  /** The indices below `n` represented by `root`, in order. */
  function Members(roots: seq<nat>, root: nat, n: nat): (r: seq<nat>)
    requires n <= |roots|
  {
    if n == 0 then [] else Members(roots, root, n - 1) + if roots[n - 1] == root then [n - 1] else []
  }

  lemma {:induction false} MembersMeaning(roots: seq<nat>, root: nat, n: nat)
    requires n <= |roots|
    ensures forall i: nat :: i in Members(roots, root, n) <==> i < n && roots[i] == root
    ensures Ascending(Members(roots, root, n))
  {
    if n > 0 {
      MembersMeaning(roots, root, n - 1);
      var r := Members(roots, root, n - 1);
      assert forall i :: 0 <= i < |r| ==> r[i] in r;
    }
  }

  /** The groups of the representatives below `n`. */
  function GroupsUpTo(roots: seq<nat>, n: nat): (r: seq<seq<nat>>)
    requires n <= |roots|
  {
    if n == 0 then []
    else GroupsUpTo(roots, n - 1) + if roots[n - 1] == n - 1 then [Members(roots, n - 1, |roots|)] else []
  }

  lemma LeaderLeads(sets: Sets, roots: seq<nat>, r: nat)
    requires AreRepresentatives(sets, roots) && r < |roots| && roots[r] == r
    ensures var m := Members(roots, r, |roots|); m != [] && m[0] == r && IsGroup(sets, m)
  {
    var m := Members(roots, r, |roots|);
    MembersMeaning(roots, r, |roots|);
    assert r in m;
    assert m[0] in m;
    FirstIsLeast(m, r);
    assert roots[m[0]] <= m[0];
    forall j: nat
      ensures j in m <==> j < |sets| && Linked(sets, r, j)
    {
      assert j < |roots| ==> (roots[r] == roots[j] <==> Linked(sets, r, j));
    }
  }

  lemma {:induction false} GroupsAreGroups(sets: Sets, roots: seq<nat>, n: nat)
    requires AreRepresentatives(sets, roots) && n <= |roots|
    ensures forall g :: 0 <= g < |GroupsUpTo(roots, n)| ==>
              IsGroup(sets, GroupsUpTo(roots, n)[g]) && GroupsUpTo(roots, n)[g][0] < n
    ensures OrderedByFirst(GroupsUpTo(roots, n))
  {
    hide AreRepresentatives, IsGroup, Members;
    if n > 0 {
      GroupsAreGroups(sets, roots, n - 1);
      SizeOfRepresentatives(sets, roots);
      if roots[n - 1] == n - 1 {
        LeaderLeads(sets, roots, n - 1);
      }
    }
  }

  lemma {:induction false} LeaderListed(roots: seq<nat>, n: nat, r: nat)
    requires r < n <= |roots| && roots[r] == r
    ensures exists g :: 0 <= g < |GroupsUpTo(roots, n)| && GroupsUpTo(roots, n)[g] == Members(roots, r, |roots|)
    decreases n
  {
    hide Members;
    var all := GroupsUpTo(roots, n);
    if r < n - 1 {
      LeaderListed(roots, n - 1, r);
      var g :| 0 <= g < |GroupsUpTo(roots, n - 1)| && GroupsUpTo(roots, n - 1)[g] == Members(roots, r, |roots|);
      assert all[g] == Members(roots, r, |roots|);
    } else {
      assert all[|all| - 1] == Members(roots, r, |roots|);
    }
  }

  lemma GroupsArePartition(sets: Sets, roots: seq<nat>)
    requires AreRepresentatives(sets, roots)
    ensures |roots| == |sets| && IsGrouping(sets, GroupsUpTo(roots, |sets|))
  {
    hide Members, IsGroup, OrderedByFirst, GroupsUpTo, Linked, Ascending;
    var groups := GroupsUpTo(roots, |sets|);
    GroupsAreGroups(sets, roots, |sets|);
    forall i: nat | i < |sets|
      ensures Covered(groups, i)
    {
      var m := Members(roots, roots[i], |roots|);
      MembersMeaning(roots, roots[i], |roots|);
      assert roots[roots[i]] == roots[i];
      LeaderListed(roots, |roots|, roots[i]);
      var g :| 0 <= g < |groups| && groups[g] == m;
      assert i in groups[g];
    }
  }

  function MembersOf(m: map<nat, seq<nat>>, r: nat): (s: seq<nat>) {
    if r in m then m[r] else []
  }

  lemma NoMembers(roots: seq<nat>, root: nat)
    ensures Members(roots, root, 0) == []
  {
  }

  lemma MembersSnoc(roots: seq<nat>, root: nat, n: nat)
    requires n < |roots|
    ensures Members(roots, root, n + 1)
            == Members(roots, root, n) + if roots[n] == root then [n] else []
  {
  }

  /** Files every source under its root. */
  method CollectMembers(roots: seq<nat>) returns (membersByRoot: map<nat, seq<nat>>)
    ensures forall r: nat :: MembersOf(membersByRoot, r) == Members(roots, r, |roots|)
  {
    hide Members;
    membersByRoot := map[];
    forall r: nat
      ensures Members(roots, r, 0) == []
    {
      NoMembers(roots, r);
    }
    for i := 0 to |roots|
      invariant forall r: nat :: MembersOf(membersByRoot, r) == Members(roots, r, i)
    {
      ghost var before := membersByRoot;
      membersByRoot := membersByRoot[roots[i] := MembersOf(membersByRoot, roots[i]) + [i]];
      forall r: nat
        ensures MembersOf(membersByRoot, r) == Members(roots, r, i + 1)
      {
        assert MembersOf(before, r) == Members(roots, r, i);
        MembersSnoc(roots, r, i);
      }
    }
  }

  /** Collects the members of every root and lists the groups by ascending root. */
  method SameServerGrouping(sets: Sets) returns (groups: seq<seq<nat>>)
    ensures IsGrouping(sets, groups)
  {
    hide AreRepresentatives, IsGrouping, Members;
    var roots := Representatives(sets);
    SizeOfRepresentatives(sets, roots);
    var membersByRoot := CollectMembers(roots);
    groups := [];
    for r: nat := 0 to |sets|
      invariant groups == GroupsUpTo(roots, r)
    {
      RootOrEmpty(sets, roots, r);
      if MembersOf(membersByRoot, r) != [] {
        groups := groups + [MembersOf(membersByRoot, r)];
      }
    }
    GroupsArePartition(sets, roots);
  }

  lemma SizeOfRepresentatives(sets: Sets, roots: seq<nat>)
    requires AreRepresentatives(sets, roots)
    ensures |roots| == |sets|
  {
  }

  /** An index has members exactly when it represents itself. */
  lemma RootOrEmpty(sets: Sets, roots: seq<nat>, r: nat)
    requires AreRepresentatives(sets, roots) && r < |roots|
    ensures roots[r] == r <==> Members(roots, r, |roots|) != []
  {
    hide Ascending;
    var m := Members(roots, r, |roots|);
    MembersMeaning(roots, r, |roots|);
    if m != [] {
      assert m[0] in m;
      assert roots[m[0]] == r && roots[roots[m[0]]] == roots[m[0]];
    }
    if roots[r] == r {
      assert r in m;
    }
  }
}
