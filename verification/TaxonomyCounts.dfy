/**
 Descendant card counts by in-place accumulation, and the five places that decide whether
 a taxonomy node is a card scope.
 */
module TaxonomyCounts {
  import opened Common
  import opened Sorting
  import opened Sums
  import opened TaxonomyTree

  datatype AssignmentCount = AssignmentCount(taxonomyNodeId: int, cardCount: int)

  /** `list_assignment_counts`: one row per taxonomy node with cards, grouped by that node. */
  ghost predicate GroupsAssignments(counts: seq<AssignmentCount>, assignment: map<int, int>) {
    && (forall i :: 0 <= i < |counts| ==>
          counts[i].cardCount == |CardsOf(assignment, counts[i].taxonomyNodeId)|)
    && (forall i, j :: 0 <= i < j < |counts| ==> counts[i].taxonomyNodeId != counts[j].taxonomyNodeId)
    && (forall c :: c in assignment ==>
          exists i :: 0 <= i < |counts| && counts[i].taxonomyNodeId == assignment[c])
  }

  /** `_load_direct_card_counts` */
  method LoadDirectCardCounts(counts: seq<AssignmentCount>, nodeById: Table, ghost assignment: map<int, int>)
    returns (direct: map<int, int>)
    requires GroupsAssignments(counts, assignment)
    ensures direct.Keys == nodeById.Keys
    ensures forall n :: n in nodeById ==> direct[n] == |CardsOf(assignment, n)|
  {
    direct := map n | n in nodeById :: 0;
    for k := 0 to |counts|
      invariant direct.Keys == nodeById.Keys
      invariant forall n :: n in nodeById ==>
                  direct[n] == if exists i :: 0 <= i < k && counts[i].taxonomyNodeId == n
                               then |CardsOf(assignment, n)| else 0
    {
      var count := counts[k];
      if count.taxonomyNodeId in direct {
        direct := direct[count.taxonomyNodeId := direct[count.taxonomyNodeId] + count.cardCount];
      }
    }
    forall n | n in nodeById ensures direct[n] == |CardsOf(assignment, n)| {
      GroupOf(counts, assignment, n);
    }
  }

  /** A node without a group has no cards. */
  lemma GroupOf(counts: seq<AssignmentCount>, assignment: map<int, int>, n: int)
    requires GroupsAssignments(counts, assignment)
    ensures (exists i :: 0 <= i < |counts| && counts[i].taxonomyNodeId == n) || |CardsOf(assignment, n)| == 0
  {
    if CardsOf(assignment, n) != {} {
      var c := Pick(CardsOf(assignment, n));
      assert exists i :: 0 <= i < |counts| && counts[i].taxonomyNodeId == assignment[c];
    }
  }

  /** `_node_has_real_children` */
  predicate HasRealChildren(n: int, byParent: ChildIndex) {
    Kids(byParent, Some(n)) != []
  }

  /** `_visible_direct_card_counts`: only leaves below the root show their cards. */
  function VisibleDirect(nodeById: Table, byParent: ChildIndex, direct: map<int, int>): map<int, int>
    requires nodeById.Keys <= direct.Keys
  {
    map n | n in nodeById ::
      if n !in Kids(byParent, None) && !HasRealChildren(n, byParent) then direct[n] else 0
  }

  /** `n` is `m` or an ancestor of `m`. */
  ghost predicate Above(t: Table, root: int, n: int, m: int)
    requires TreeShape(t, root) && n in t && m in t
  {
    n in Chain(t, root, m)
  }

  ghost function Subtree(t: Table, root: int, n: int): set<int>
    requires TreeShape(t, root) && n in t
  {
    set m | m in t && Above(t, root, n, m)
  }

  /** Ancestors sit in a breadcrumb at their own depth. */
  lemma {:induction false} AboveAtDepth(t: Table, root: int, n: int, m: int)
    requires TreeShape(t, root) && n in t && m in t
    ensures Above(t, root, n, m) <==> t[n].depth <= t[m].depth && Chain(t, root, m)[t[n].depth] == n
    decreases t[m].depth
  {
    if m != root {
      AboveAtDepth(t, root, n, t[m].parent.value);
    }
  }

  /** The nodes counted at `n` once the nodes in `done` have been added to their parents. */
  ghost function Counted(t: Table, root: int, n: int, done: set<int>): set<int>
    requires TreeShape(t, root) && n in t
  {
    set m | m in t && Above(t, root, n, m) && (m == n || exists c :: c in done && c in Children(t, n) && Above(t, root, c, m))
  }

  lemma ChildOnTheWay(t: Table, root: int, n: int, m: int) returns (c: int)
    requires TreeShape(t, root) && n in t && m in t && Above(t, root, n, m) && m != n
    ensures c in t && t[c].parent == Some(n) && Above(t, root, c, m)
  {
    AboveAtDepth(t, root, n, m);
    ChainStep(t, root, m, t[n].depth);
    c := Chain(t, root, m)[t[n].depth + 1];
  }

  lemma CountedAll(t: Table, root: int, n: int, done: set<int>)
    requires TreeShape(t, root) && n in t && Children(t, n) <= done
    ensures Counted(t, root, n, done) == Subtree(t, root, n)
  {
    forall m | m in Subtree(t, root, n) ensures m in Counted(t, root, n, done) {
      if m != n {
        var c := ChildOnTheWay(t, root, n, m);
        assert c in done;
      }
    }
  }

  lemma CountedNone(t: Table, root: int, n: int)
    requires TreeShape(t, root) && n in t
    ensures Counted(t, root, n, {}) == {n}
  {
    AboveAtDepth(t, root, n, n);
  }

  lemma {:induction false} AboveTransitive(t: Table, root: int, a: int, b: int, m: int)
    requires TreeShape(t, root) && a in t && b in t && m in t
    requires t[b].parent == Some(a) && Above(t, root, b, m)
    ensures Above(t, root, a, m) && m != a
  {
    AboveAtDepth(t, root, b, m);
    ChainStep(t, root, m, t[a].depth);
    AboveAtDepth(t, root, a, m);
  }

  lemma SiblingsApart(t: Table, root: int, x: int, c: int, m: int)
    requires TreeShape(t, root) && x in t && c in t && m in t && x != c && t[x].depth == t[c].depth
    requires Above(t, root, x, m)
    ensures !Above(t, root, c, m)
  {
    AboveAtDepth(t, root, c, m);
    AboveAtDepth(t, root, x, m);
  }

  /** Adding a finished child to its parent counts the child's subtree there, nothing twice. */
  lemma CountedAtParent(t: Table, root: int, x: int, done: set<int>)
    requires TreeShape(t, root) && x in t && x != root && x !in done && done <= t.Keys
    ensures var p := t[x].parent.value;
            && Counted(t, root, p, done + {x}) == Counted(t, root, p, done) + Subtree(t, root, x)
            && Counted(t, root, p, done) !! Subtree(t, root, x)
  {
    var p := t[x].parent.value;
    var before, after, below := Counted(t, root, p, done), Counted(t, root, p, done + {x}), Subtree(t, root, x);
    forall m | m in below ensures m in after && m !in before {
      AboveTransitive(t, root, p, x, m);
      forall c | c in done && c in Children(t, p) ensures !Above(t, root, c, m) {
        SiblingsApart(t, root, x, c, m);
      }
    }
    forall m | m in after ensures m in before || m in below {
    }
  }

  lemma CountedElsewhere(t: Table, root: int, x: int, done: set<int>, n: int)
    requires TreeShape(t, root) && x in t && n in t && t[x].parent != Some(n)
    ensures Counted(t, root, n, done + {x}) == Counted(t, root, n, done)
  {
  }

  /** The sort key `(depth, id)`, reversed. */
  predicate DeeperFirst(a: Node, b: Node) {
    a.depth > b.depth || (a.depth == b.depth && a.id >= b.id)
  }

  /** The rounds of the accumulation loop: each node in order adds its count to its parent's. */
  ghost function AddUp(order: seq<Node>, k: nat, visible: map<int, int>): (counts: map<int, int>)
    requires k <= |order| && InTable(order, visible)
    ensures counts.Keys == visible.Keys
  {
    if k == 0 then visible
    else
      var counts := AddUp(order, k - 1, visible);
      match order[k - 1].parent
      case None => counts
      case Some(p) => counts[p := counts[p] + counts[order[k - 1].id]]
  }

  ghost predicate InTable(order: seq<Node>, visible: map<int, int>) {
    forall i {:trigger order[i]} :: 0 <= i < |order| ==>
      order[i].id in visible && (order[i].parent.Some? ==> order[i].parent.value in visible)
  }

  method AddUpInPlace(order: seq<Node>, visible: map<int, int>) returns (counts: map<int, int>)
    requires InTable(order, visible)
    ensures counts == AddUp(order, |order|, visible)
  {
    counts := visible;
    for k := 0 to |order|
      invariant counts == AddUp(order, k, visible)
    {
      var node := order[k];
      if node.parent == None {
        continue;
      }
      counts := counts[node.parent.value := counts[node.parent.value] + counts[node.id]];
    }
  }

  /**
   `_load_descendant_card_counts` without its cache: each node ends with the sum of the visible
   direct counts over its whole subtree.
   */
  method DescendantCardCounts(rows: seq<Node>, nodeById: Table, byParent: ChildIndex, direct: map<int, int>,
                              ghost root: int)
    returns (counts: map<int, int>)
    requires TreeShape(nodeById, root) && Lists(rows, nodeById) && DistinctIds(rows)
    requires nodeById.Keys <= direct.Keys
    ensures counts.Keys == nodeById.Keys
    ensures forall n :: n in nodeById ==>
              counts[n] == Sum(Subtree(nodeById, root, n), VisibleDirect(nodeById, byParent, direct))
  {
    var order := SortBy(rows, DeeperFirst);
    var visible := VisibleDirect(nodeById, byParent, direct);
    SortBySorts(rows, DeeperFirst);
    AddUpIsSubtreeSum(rows, order, nodeById, root, visible);
    counts := AddUpInPlace(order, visible);
  }

  lemma AddUpIsSubtreeSum(rows: seq<Node>, order: seq<Node>, t: Table, root: int, visible: map<int, int>)
    requires TreeShape(t, root) && Lists(rows, t) && DistinctIds(rows) && visible.Keys == t.Keys
    requires multiset(order) == multiset(rows) && Sorted(order, DeeperFirst)
    ensures InTable(order, visible)
    ensures forall n :: n in t ==> AddUp(order, |order|, visible)[n] == Sum(Subtree(t, root, n), visible)
  {
    OrderListsTable(rows, order, t);
    ListedInTable(order, t, root, visible);
    forall n | n in t ensures AddUp(order, |order|, visible)[n] == Sum(Subtree(t, root, n), visible) {
      AddUpCounted(order, |order|, t, root, visible, n);
      AllAdded(order, t, root, n);
      CountedAll(t, root, n, Added(order, |order|, root));
    }
  }

  lemma AllAdded(order: seq<Node>, t: Table, root: int, n: int)
    requires TreeShape(t, root) && Lists(order, t)
    ensures Children(t, n) <= Added(order, |order|, root)
  {
    forall c | c in Children(t, n) ensures c in Added(order, |order|, root) {
      var i :| 0 <= i < |order| && order[i] == t[c];
    }
  }

  lemma ListedInTable(order: seq<Node>, t: Table, root: int, visible: map<int, int>)
    requires TreeShape(t, root) && Lists(order, t) && visible.Keys == t.Keys
    ensures InTable(order, visible)
  {
    forall i | 0 <= i < |order|
      ensures order[i].id in visible && (order[i].parent.Some? ==> order[i].parent.value in visible)
    {
      assert t[order[i].id] == order[i];
    }
  }

  /** The ids the loop has added to their parents after `k` rounds. */
  ghost function Added(order: seq<Node>, k: nat, root: int): set<int>
    requires k <= |order|
  {
    set i | 0 <= i < k && order[i].id != root :: order[i].id
  }

  lemma AddedNext(order: seq<Node>, i: nat, k: nat, root: int)
    requires k == i + 1 <= |order|
    ensures Added(order, k, root) == if order[i].id == root then Added(order, i, root) else Added(order, i, root) + {order[i].id}
  {
  }

  lemma AddChildAt(t: Table, root: int, x: int, done: set<int>, visible: map<int, int>, n: int)
    requires TreeShape(t, root) && n in t && x in t && x != root && x !in done && done <= t.Keys
    requires visible.Keys == t.Keys && Children(t, x) <= done
    ensures Sum(Counted(t, root, n, done + {x}), visible) ==
            Sum(Counted(t, root, n, done), visible)
            + if t[x].parent == Some(n) then Sum(Counted(t, root, x, done), visible) else 0
  {
    if t[x].parent == Some(n) {
      CountedAtParent(t, root, x, done);
      CountedAll(t, root, x, done);
      SumDisjoint(Counted(t, root, n, done), Subtree(t, root, x), visible);
    } else {
      CountedElsewhere(t, root, x, done, n);
    }
  }

  /** The sum over the nodes added below `n` in the first `k` rounds, and `n` itself. */
  ghost function Tally(order: seq<Node>, k: int, t: Table, root: int, visible: map<int, int>, n: int): int
    requires TreeShape(t, root) && visible.Keys == t.Keys
  {
    if 0 <= k <= |order| && n in t then Sum(Counted(t, root, n, Added(order, k, root)), visible) else 0
  }

  /** The round from `i` to `k` moves what is counted below its row to what is counted below the row's parent. */
  ghost predicate TallyMoves(order: seq<Node>, i: nat, k: nat, tally: (int, int) -> int, n: int)
    requires i < |order|
  {
    k == i + 1 ==> tally(k, n) == tally(i, n) + if order[i].parent == Some(n) then tally(i, order[i].id) else 0
  }

  lemma TallyNext(order: seq<Node>, i: nat, k: nat, t: Table, root: int, visible: map<int, int>, n: int)
    requires TreeShape(t, root) && visible.Keys == t.Keys && k == i + 1 <= |order| && n in t
    requires Lists(order, t) && DistinctIds(order) && Sorted(order, DeeperFirst)
    ensures Tally(order, k, t, root, visible, n) ==
            Tally(order, i, t, root, visible, n)
            + if order[i].parent == Some(n) then Tally(order, i, t, root, visible, order[i].id) else 0
  {
    var x := order[i].id;
    assert t[x] == order[i];
    ChildrenComeFirst(order, t, root, i);
    AddedNext(order, i, k, root);
    CountMovesUp(order, i, k, t, root, visible, n);
  }

  lemma MovesBy(order: seq<Node>, i: nat, k: nat, tally: (int, int) -> int, n: int, after: int, before: int, own: int)
    requires i < |order| && tally(k, n) == after && tally(i, n) == before && tally(i, order[i].id) == own
    requires after == before + if order[i].parent == Some(n) then own else 0
    ensures TallyMoves(order, i, k, tally, n)
  {
  }

  lemma CountMovesUp(order: seq<Node>, i: nat, k: nat, t: Table, root: int, visible: map<int, int>, n: int)
    requires TreeShape(t, root) && visible.Keys == t.Keys && k == i + 1 <= |order| && n in t
    requires var x, done := order[i].id, Added(order, i, root);
             && x in t && t[x] == order[i] && Children(t, x) <= done && x !in done && done <= t.Keys
             && Added(order, k, root) == if x == root then done else done + {x}
    ensures Tally(order, k, t, root, visible, n) ==
            Tally(order, i, t, root, visible, n)
            + if order[i].parent == Some(n) then Tally(order, i, t, root, visible, order[i].id) else 0
  {
    if order[i].id != root {
      AddChildAt(t, root, order[i].id, Added(order, i, root), visible, n);
    }
  }

  /** The loop computes any tally that starts at the visible counts and moves as its rounds do. */
  lemma {:induction false} AddUpFollows(order: seq<Node>, k: nat, visible: map<int, int>, tally: (int, int) -> int, n: int)
    requires InTable(order, visible) && k <= |order| && n in visible
    requires forall m :: m in visible ==> tally(0, m) == visible[m]
    requires forall i, j, m {:trigger TallyMoves(order, i, j, tally, m)} ::
               0 <= i < j <= |order| && m in visible ==> TallyMoves(order, i, j, tally, m)
    ensures AddUp(order, k, visible)[n] == tally(k, n)
  {
    if k > 0 {
      AddUpFollows(order, k - 1, visible, tally, n);
      AddUpFollows(order, k - 1, visible, tally, order[k - 1].id);
      assert TallyMoves(order, k - 1, k, tally, n);
    }
  }

  /** After `k` rounds a node's count is the sum over the nodes added below it so far. */
  lemma AddUpCounted(order: seq<Node>, k: nat, t: Table, root: int, visible: map<int, int>, n: int)
    requires TreeShape(t, root) && visible.Keys == t.Keys && k <= |order| && n in t
    requires Lists(order, t) && DistinctIds(order) && Sorted(order, DeeperFirst) && InTable(order, visible)
    ensures AddUp(order, k, visible)[n] == Tally(order, k, t, root, visible, n)
  {
    var tally := (j, m) => Tally(order, j, t, root, visible, m);
    forall m | m in visible ensures tally(0, m) == visible[m] {
      assert Added(order, 0, root) == {};
      CountedNone(t, root, m);
      SumSingle(m, visible);
    }
    forall i, j, m | 0 <= i < j <= |order| && m in visible ensures TallyMoves(order, i, j, tally, m) {
      if j == i + 1 {
        TallyNext(order, i, j, t, root, visible, m);
        MovesBy(order, i, j, tally, m, Tally(order, j, t, root, visible, m), Tally(order, i, t, root, visible, m),
                Tally(order, i, t, root, visible, order[i].id));
      }
    }
    AddUpFollows(order, k, visible, tally, n);
  }

  lemma OrderListsTable(rows: seq<Node>, order: seq<Node>, t: Table)
    requires Lists(rows, t) && DistinctIds(rows) && multiset(order) == multiset(rows)
    ensures Lists(order, t) && DistinctIds(order)
  {
    SameElements(rows, order);
    forall i | 0 <= i < |order| ensures order[i].id in t && t[order[i].id] == order[i] {
      assert order[i] in order;
    }
    forall i, j | 0 <= i < j < |order| ensures order[i].id != order[j].id {
      if order[i] == order[j] {
        TwiceInMultiset(order, i, j);
        OnceInMultiset(rows, order[i]);
      }
    }
  }

  lemma TwiceInMultiset<T>(s: seq<T>, i: nat, j: nat)
    requires i < j < |s| && s[i] == s[j]
    ensures multiset(s)[s[i]] >= 2
  {
    assert s == s[..j] + s[j..];
    assert s[i] == s[..j][i] && s[j] == s[j..][0];
    assert s[i] in multiset(s[..j]) && s[j] in multiset(s[j..]);
    assert multiset(s) == multiset(s[..j]) + multiset(s[j..]);
  }

  lemma {:induction false} OnceInMultiset(rows: seq<Node>, x: Node)
    requires DistinctIds(rows)
    ensures multiset(rows)[x] <= 1
  {
    if rows != [] {
      var front, last := rows[..|rows| - 1], rows[|rows| - 1];
      assert rows == front + [last];
      OnceInMultiset(front, x);
      if x == last {
        assert x !in front;
        assert x !in multiset(front);
      }
    }
  }

  lemma ChildrenComeFirst(order: seq<Node>, t: Table, root: int, k: nat)
    requires TreeShape(t, root) && k < |order| && Sorted(order, DeeperFirst)
    requires Lists(order, t) && DistinctIds(order)
    ensures Children(t, order[k].id) <= Added(order, k, root) && order[k].id !in Added(order, k, root)
  {
    forall c | c in Children(t, order[k].id) ensures c in Added(order, k, root) {
      var i :| 0 <= i < |order| && order[i] == t[c];
      assert order[i].depth == order[k].depth + 1;
    }
  }
}
