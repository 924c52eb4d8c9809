/**
 The parent relation between containers.

 A container's parent is the pallet or tote it stands on. `Parents` is the
 parent_id column, indexed by container id. The relation ought to be a forest;
 the database enforces only that a parent exists.
*/
module Forest {
  import opened Basics

  type Parents = seq<Option<nat>>

  /** The k-th ancestor of x, x itself being the 0-th. */
  function Up(p: Parents, x: nat, k: nat): Option<nat>
    decreases k
  {
    if k == 0 then Some(x)
    else if x < |p| && p[x].Some? then Up(p, p[x].value, k - 1)
    else None
  }

  /** x is root, or stands on it directly or indirectly. */
  ghost predicate Below(p: Parents, x: nat, root: nat) {
    exists k: nat :: Up(p, x, k) == Some(root)
  }

  /** Every parent exists and is ranked strictly lower than its child. */
  ghost predicate Ranked(p: Parents, rank: seq<nat>) {
    |rank| == |p| &&
    forall i :: 0 <= i < |p| && p[i].Some? ==> p[i].value < |p| && rank[p[i].value] < rank[i]
  }

  ghost predicate IsForest(p: Parents) {
    exists rank :: Ranked(p, rank)
  }

  ghost predicate OnCycle(p: Parents, x: nat) {
    exists k: nat :: k > 0 && Up(p, x, k) == Some(x)
  }

  /** The containers exactly k steps below root. */
  ghost function Level(p: Parents, root: nat, k: nat): (r: set<nat>) {
    set x: nat | x < |p| && Up(p, x, k) == Some(root)
  }

  /** rows lists root and everything on it, each once, in any order. */
  ghost predicate Enumerates(p: Parents, root: nat, rows: seq<nat>) {
    NoDuplicates(rows) && forall x: nat :: x in rows <==> x < |p| && Below(p, x, root)
  }

  // ----- climbing -----

  lemma {:induction false} UpTwice(p: Parents, x: nat, j: nat, k: nat)
    requires Up(p, x, j).Some?
    ensures Up(p, x, j + k) == Up(p, Up(p, x, j).value, k)
    decreases j
  {
    if j > 0 {
      UpTwice(p, p[x].value, j - 1, k);
    }
  }

  lemma {:induction false} UpDescendsRank(p: Parents, rank: seq<nat>, x: nat, k: nat)
    requires Ranked(p, rank) && x < |p| && Up(p, x, k).Some?
    ensures Up(p, x, k).value < |p|
    ensures rank[Up(p, x, k).value] + k <= rank[x]
    decreases k
  {
    if k > 0 {
      UpDescendsRank(p, rank, p[x].value, k - 1);
    }
  }

  /** A forest has no cycle: nothing stands, however indirectly, on itself. */
  lemma NoCycleInForest(p: Parents, x: nat)
    requires IsForest(p) && x < |p|
    ensures !OnCycle(p, x)
  {
    var rank :| Ranked(p, rank);
    forall k: nat | k > 0 && Up(p, x, k) == Some(x)
      ensures false
    {
      UpDescendsRank(p, rank, x, k);
    }
  }

  /** One step down: x is on root iff it is root, or its parent is on root. */
  lemma BelowByParent(p: Parents, x: nat, root: nat)
    ensures Below(p, x, root) <==>
      x == root || (x < |p| && p[x].Some? && Below(p, p[x].value, root))
  {
    if x == root {
      assert Up(p, x, 0) == Some(root);
    } else {
      if Below(p, x, root) {
        var k: nat :| Up(p, x, k) == Some(root);
        assert Up(p, p[x].value, k - 1) == Some(root);
      }
      if x < |p| && p[x].Some? && Below(p, p[x].value, root) {
        var k: nat :| Up(p, p[x].value, k) == Some(root);
        assert Up(p, x, k + 1) == Some(root);
      }
    }
  }

  // ----- the walk of the tree, level by level -----

  lemma NextLevel(p: Parents, root: nat, k: nat, x: nat)
    ensures x in Level(p, root, k + 1) <==>
      x < |p| && p[x].Some? && Up(p, p[x].value, k) == Some(root)
  {
  }

  lemma LevelsDisjoint(p: Parents, root: nat, j: nat, k: nat)
    requires !OnCycle(p, root) && j < k
    ensures Level(p, root, j) !! Level(p, root, k)
  {
    forall x | x in Level(p, root, j) && x in Level(p, root, k)
      ensures false
    {
      UpTwice(p, x, j, k - j);
      assert Up(p, root, k - j) == Some(root);
    }
  }

  /** The containers fewer than n steps below root. */
  ghost function Levels(p: Parents, root: nat, n: nat): set<nat> {
    if n == 0 then {} else Levels(p, root, n - 1) + Level(p, root, n - 1)
  }

  lemma {:induction false} InLevels(p: Parents, root: nat, n: nat, x: nat)
    ensures x in Levels(p, root, n) <==> exists j: nat :: j < n && x in Level(p, root, j)
  {
    if n > 0 {
      InLevels(p, root, n - 1, x);
      if x in Levels(p, root, n) && x in Levels(p, root, n - 1) {
        var j: nat :| j < n - 1 && x in Level(p, root, j);
        assert j < n;
      }
    }
  }

  lemma {:induction false} LevelsGrow(p: Parents, root: nat, n: nat)
    requires !OnCycle(p, root)
    requires forall k: nat :: k < n ==> Level(p, root, k) != {}
    ensures |Levels(p, root, n)| >= n
  {
    if n > 0 {
      LevelsGrow(p, root, n - 1);
      var before, here := Levels(p, root, n - 1), Level(p, root, n - 1);
      forall x | x in before && x in here
        ensures false
      {
        InLevels(p, root, n - 1, x);
        var j: nat :| j < n - 1 && x in Level(p, root, j);
        LevelsDisjoint(p, root, j, n - 1);
      }
      assert before !! here;
      assert |before + here| == |before| + |here|;
      var x :| x in here;
      assert |here| >= 1;
    }
  }

  lemma {:induction false} AroundAgain(p: Parents, root: nat, k: nat, m: nat)
    requires k > 0 && Up(p, root, k) == Some(root)
    ensures Up(p, root, m * k) == Some(root)
  {
    if m > 0 {
      AroundAgain(p, root, k, m - 1);
      UpTwice(p, root, k, (m - 1) * k);
      assert k + (m - 1) * k == m * k;
    }
  }

  lemma {:induction false} UpPrefix(p: Parents, x: nat, j: nat, k: nat)
    requires j <= k && Up(p, x, k).Some?
    ensures Up(p, x, j).Some?
    decreases j
  {
    if j > 0 {
      UpPrefix(p, p[x].value, j - 1, k - 1);
    }
  }

  /** Round a cycle there is a container at every distance below root. */
  lemma CycleFillsLevels(p: Parents, root: nat, n: nat)
    requires root < |p| && OnCycle(p, root)
    ensures Level(p, root, n) != {}
  {
    var k: nat :| k > 0 && Up(p, root, k) == Some(root);
    AroundAgain(p, root, k, n + 1);
    var total := (n + 1) * k;
    assert total >= n + 1 by {
      assert (n + 1) * k >= (n + 1) * 1;
    }
    UpPrefix(p, root, total - n, total);
    var x := Up(p, root, total - n).value;
    UpTwice(p, root, total - n, n);
    assert Up(p, x, n) == Some(root);
    if n == 0 {
      assert x == root;
    }
    assert x < |p|;
    assert x in Level(p, root, n);
  }

  /**
   The recursive query of the tree stops (reaches a level with nobody on it)
   exactly when root does not stand on itself.
  */
  lemma WalkStopsIffNoCycle(p: Parents, root: nat)
    requires root < |p|
    ensures (exists n: nat :: Level(p, root, n) == {}) <==> !OnCycle(p, root)
  {
    if OnCycle(p, root) {
      forall n: nat
        ensures Level(p, root, n) != {}
      {
        CycleFillsLevels(p, root, n);
      }
    } else if forall n: nat :: Level(p, root, n) != {} {
      var n := |p| + 1;
      LevelsGrow(p, root, n);
      LevelsInside(p, root, n);
      SubsetSize(Levels(p, root, n), Range(|p|));
    }
  }

  lemma LevelInhabited(p: Parents, root: nat, x: nat, n: nat)
    requires root < |p| && Up(p, x, n) == Some(root)
    ensures Level(p, root, n) != {}
  {
    assert x in Level(p, root, n);
  }

  /** Past a level with nobody on it there is nobody at all. */
  lemma EmptyLevelIsLast(p: Parents, root: nat, n: nat)
    requires root < |p| && Level(p, root, n) == {}
    ensures forall x: nat :: x < |p| && Below(p, x, root) ==> exists k: nat :: k < n && x in Level(p, root, k)
  {
    forall x: nat | x < |p| && Below(p, x, root)
      ensures exists k: nat :: k < n && x in Level(p, root, k)
    {
      var k: nat :| Up(p, x, k) == Some(root);
      if k >= n {
        UpPrefix(p, x, k - n, k);
        UpTwice(p, x, k - n, n);
        LevelInhabited(p, root, Up(p, x, k - n).value, n);
        assert false;
      }
      assert x in Level(p, root, k);
    }
  }

  /** What stands on root can be listed, though round a cycle no query would list it. */
  lemma {:induction false} ListTree(p: Parents, root: nat, n: nat) returns (rows: seq<nat>)
    requires n <= |p|
    ensures NoDuplicates(rows) && forall x: nat :: x in rows <==> x < n && Below(p, x, root)
  {
    rows := [];
    if n > 0 {
      rows := ListTree(p, root, n - 1);
      if Below(p, n - 1, root) {
        ConcatKeepsDistinct(rows, [n - 1]);
        rows := rows + [n - 1];
      }
    }
  }

  lemma {:induction false} LevelsInside(p: Parents, root: nat, n: nat)
    ensures Levels(p, root, n) <= Range(|p|)
  {
    if n > 0 {
      LevelsInside(p, root, n - 1);
    }
  }

  // ----- growing the forest -----

  lemma NothingIsAForest()
    ensures IsForest([])
  {
    assert Ranked([], []);
  }

  /** A new container, on an existing one or on nothing. */
  lemma AppendKeepsForest(p: Parents, parent: Option<nat>)
    requires IsForest(p)
    requires parent.Some? ==> parent.value < |p|
    ensures IsForest(p + [parent])
  {
    var rank :| Ranked(p, rank);
    var r := rank + [if parent.Some? then rank[parent.value] + 1 else 0];
    assert Ranked(p + [parent], r);
  }

  /** Containers taken off their parents: q agrees with p or says nothing. */
  lemma DetachKeepsForest(p: Parents, q: Parents)
    requires IsForest(p) && |q| == |p|
    requires forall i :: 0 <= i < |p| ==> q[i] == p[i] || q[i] == None
    ensures IsForest(q)
  {
    var rank :| Ranked(p, rank);
    assert Ranked(q, rank);
  }

  /** Puts every child in `kids` onto `parent`. */
  function Attached(p: Parents, parent: nat, kids: set<nat>): (q: Parents)
    ensures |q| == |p|
    ensures forall i :: 0 <= i < |p| ==> q[i] == if i in kids then Some(parent) else p[i]
  {
    seq(|p|, (i: nat) requires i < |p| => if i in kids then Some(parent) else p[i])
  }

  /** x stands on one of the kids, or is one. */
  ghost predicate OnAny(p: Parents, x: nat, kids: set<nat>) {
    exists c :: c in kids && Below(p, x, c)
  }

  lemma AttachRank(p: Parents, parent: nat, kids: set<nat>)
    requires IsForest(p) && parent < |p| && !OnAny(p, parent, kids)
    requires forall c :: c in kids ==> c < |p|
    ensures IsForest(Attached(p, parent, kids))
  {
    var rank :| Ranked(p, rank);
    var lift := rank[parent] + 1;
    var r := seq(|p|, (i: nat) requires i < |p| => if OnAny(p, i, kids) then rank[i] + lift else rank[i]);
    var q := Attached(p, parent, kids);
    forall i | 0 <= i < |q| && q[i].Some?
      ensures q[i].value < |q| && r[q[i].value] < r[i]
    {
      if i in kids {
        BelowByParent(p, i, i);
        assert OnAny(p, i, kids);
      } else if OnAny(p, q[i].value, kids) {
        var c :| c in kids && Below(p, q[i].value, c);
        BelowByParent(p, i, c);
        assert OnAny(p, i, kids);
      }
    }
    assert Ranked(q, r);
  }

  /** Climbing is unaffected by the change as long as no kid is left behind. */
  lemma {:induction false} UpUnchanged(p: Parents, parent: nat, kids: set<nat>, x: nat, k: nat)
    requires forall j: nat :: j < k && Up(p, x, j).Some? ==> Up(p, x, j).value !in kids
    ensures Up(Attached(p, parent, kids), x, k) == Up(p, x, k)
    decreases k
  {
    if k > 0 && x < |p| && p[x].Some? {
      assert Up(p, x, 0) == Some(x);
      forall j: nat | j < k - 1 && Up(p, p[x].value, j).Some?
        ensures Up(p, p[x].value, j).value !in kids
      {
        assert Up(p, x, j + 1) == Up(p, p[x].value, j);
      }
      UpUnchanged(p, parent, kids, p[x].value, k - 1);
    } else if k > 0 {
      assert Up(p, x, 0) == Some(x);
    }
  }

  /** The first kid met on the way up from x. */
  lemma {:induction false} FirstKid(p: Parents, x: nat, kids: set<nat>, k: nat) returns (j: nat)
    requires Up(p, x, k).Some? && Up(p, x, k).value in kids
    ensures j <= k && Up(p, x, j).Some? && Up(p, x, j).value in kids
    ensures forall i: nat :: i < j && Up(p, x, i).Some? ==> Up(p, x, i).value !in kids
  {
    j := 0;
    while Up(p, x, j).None? || Up(p, x, j).value !in kids
      invariant j <= k
      invariant forall i: nat :: i < j && Up(p, x, i).Some? ==> Up(p, x, i).value !in kids
      decreases k - j
    {
      j := j + 1;
    }
  }

  lemma AttachCycle(p: Parents, parent: nat, kids: set<nat>)
    requires parent < |p| && OnAny(p, parent, kids)
    requires forall c :: c in kids ==> c < |p|
    ensures OnCycle(Attached(p, parent, kids), parent)
  {
    var c :| c in kids && Below(p, parent, c);
    var k: nat :| Up(p, parent, k) == Some(c);
    var j := FirstKid(p, parent, kids, k);
    var kid := Up(p, parent, j).value;
    var q := Attached(p, parent, kids);
    UpUnchanged(p, parent, kids, parent, j);
    UpTwice(q, parent, j, 1);
    assert Up(q, kid, 1) == Up(q, q[kid].value, 0) == Some(parent);
    assert Up(q, parent, j + 1) == Some(parent);
  }

  /**
   Putting containers on a parent keeps the forest exactly when the parent does
   not stand on one of them.
  */
  lemma AttachKeepsForestIff(p: Parents, parent: nat, kids: set<nat>)
    requires IsForest(p) && parent < |p|
    requires forall c :: c in kids ==> c < |p|
    ensures IsForest(Attached(p, parent, kids)) <==> !OnAny(p, parent, kids)
  {
    if OnAny(p, parent, kids) {
      AttachCycle(p, parent, kids);
      if IsForest(Attached(p, parent, kids)) {
        NoCycleInForest(Attached(p, parent, kids), parent);
      }
    } else {
      AttachRank(p, parent, kids);
    }
  }

  /** Two containers, the second standing on the first: swapping them makes a cycle. */
  lemma AttachUnderOwnChild()
    ensures IsForest([None, Some(0)])
    ensures !IsForest(Attached([None, Some(0)], 1, {0}))
  {
    var p: Parents := [None, Some(0)];
    assert Ranked(p, [0, 1]);
    assert Up(p, 1, 1) == Up(p, 0, 0) == Some(0);
    assert Below(p, 1, 0);
    AttachKeepsForestIff(p, 1, {0});
  }
}
