/**
 The separately written tests for "this taxonomy node is browsed as a card scope", and the one
 definition they all agree with.
 */
module TaxonomyScopes {
  import opened Common
  import opened Sorting
  import opened Sums
  import opened TaxonomyCounts
  import opened TaxonomyTree

  /** What one request has loaded: the indexed tree and both count dictionaries. */
  datatype View = View(nodeById: Table, byParent: ChildIndex, root: int, direct: map<int, int>, counts: map<int, int>)

  /** The dictionaries were computed from the current rows, not read from a cache. */
  ghost predicate Fresh(v: View, assignment: map<int, int>) {
    && TreeShape(v.nodeById, v.root) && Indexes(v.byParent, v.nodeById)
    && v.direct.Keys == v.counts.Keys == v.nodeById.Keys
    && (forall n {:trigger v.direct[n]} :: n in v.nodeById ==> v.direct[n] == |CardsOf(assignment, n)|)
    && (forall n {:trigger v.counts[n]} :: n in v.nodeById ==>
          v.counts[n] == Sum(Subtree(v.nodeById, v.root, n), VisibleDirect(v.nodeById, v.byParent, v.direct)))
  }

  /** Reference definition: a leaf below the root with at least one card of its own. */
  ghost predicate IsCardScope(t: Table, assignment: map<int, int>, n: int) {
    Scope(t, n) && CardsOf(assignment, n) != {}
  }

  /** The cards on visible leaves at or below a node. */
  ghost function CardsUnder(t: Table, assignment: map<int, int>, nodes: set<int>): set<int> {
    set c | c in assignment && assignment[c] in nodes && Scope(t, assignment[c])
  }

  lemma VisibleDirectAt(v: View, assignment: map<int, int>, n: int)
    requires Fresh(v, assignment) && n in v.nodeById
    ensures VisibleDirect(v.nodeById, v.byParent, v.direct)[n] ==
            if Scope(v.nodeById, n) then |CardsOf(assignment, n)| else 0
  {
    ScopeByIndex(v.nodeById, v.byParent, n);
    assert v.nodeById[n].parent in v.byParent;
    assert n == v.root <==> n in Kids(v.byParent, None);
  }

  lemma {:induction false} SumCountsCards(t: Table, visible: map<int, int>, assignment: map<int, int>, nodes: set<int>)
    requires nodes <= visible.Keys
    requires forall n {:trigger visible[n]} :: n in nodes ==>
               visible[n] == if Scope(t, n) then |CardsOf(assignment, n)| else 0
    ensures Sum(nodes, visible) == |CardsUnder(t, assignment, nodes)|
    decreases |nodes|
  {
    if nodes == {} {
      assert CardsUnder(t, assignment, nodes) == {};
    } else {
      var n := Pick(nodes);
      SumRemove(nodes, n, visible);
      SumCountsCards(t, visible, assignment, nodes - {n});
      CardsSplit(t, assignment, nodes, n);
    }
  }

  lemma CardsSplit(t: Table, assignment: map<int, int>, nodes: set<int>, n: int)
    requires n in nodes
    ensures |CardsUnder(t, assignment, nodes)| ==
            |CardsUnder(t, assignment, nodes - {n})| + if Scope(t, n) then |CardsOf(assignment, n)| else 0
  {
    var here := if Scope(t, n) then CardsOf(assignment, n) else {};
    var rest := CardsUnder(t, assignment, nodes - {n});
    assert CardsUnder(t, assignment, nodes) == here + rest && here !! rest;
  }

  /** Every count is a number of cards: those on visible leaves of the node's own subtree. */
  lemma CountsAreCards(v: View, assignment: map<int, int>, n: int)
    requires Fresh(v, assignment) && n in v.nodeById
    ensures v.counts[n] == |CardsUnder(v.nodeById, assignment, Subtree(v.nodeById, v.root, n))|
  {
    var visible := VisibleDirect(v.nodeById, v.byParent, v.direct);
    forall m | m in v.nodeById
      ensures visible[m] == if Scope(v.nodeById, m) then |CardsOf(assignment, m)| else 0
    {
      VisibleDirectAt(v, assignment, m);
    }
    SumCountsCards(v.nodeById, visible, assignment, Subtree(v.nodeById, v.root, n));
  }

  /** The root counts every card on every visible leaf. */
  lemma RootCountsAllShownCards(v: View, assignment: map<int, int>)
    requires Fresh(v, assignment)
    ensures v.counts[v.root] == |CardsUnder(v.nodeById, assignment, v.nodeById.Keys)|
  {
    forall n | n in v.nodeById ensures n in Subtree(v.nodeById, v.root, v.root) {
      assert Chain(v.nodeById, v.root, n)[0] == v.root;
    }
    assert Subtree(v.nodeById, v.root, v.root) == v.nodeById.Keys;
    CountsAreCards(v, assignment, v.root);
  }

  predicate AllCounted(ids: seq<int>, v: View) {
    forall i :: 0 <= i < |ids| ==> ids[i] in v.counts
  }

  /** `_visible_child_ids` */
  function VisibleChildIds(n: int, v: View): seq<int>
    requires AllCounted(Kids(v.byParent, Some(n)), v)
  {
    var kids := SortBy(Kids(v.byParent, Some(n)), Ascending);
    Positive(kids, v.counts)
  }

  function Positive(ids: seq<int>, counts: map<int, int>): (shown: seq<int>)
    ensures forall c :: c in shown <==> c in ids && c in counts && counts[c] > 0
  {
    if ids == [] then []
    else
      (if ids[0] in counts && counts[ids[0]] > 0 then [ids[0]] else []) + Positive(ids[1..], counts)
  }

  ghost predicate Rising(ids: seq<int>) {
    forall i, j :: 0 <= i < j < |ids| ==> ids[i] < ids[j]
  }

  lemma {:induction false} PositiveRises(ids: seq<int>, counts: map<int, int>)
    requires Rising(ids)
    ensures Rising(Positive(ids, counts))
  {
    if ids != [] {
      PositiveRises(ids[1..], counts);
      var rest := Positive(ids[1..], counts);
      forall i | 0 <= i < |rest| ensures ids[0] < rest[i] {
        assert rest[i] in ids[1..];
      }
    }
  }

  lemma KidsRise(byParent: ChildIndex, t: Table, n: int)
    requires Indexes(byParent, t)
    ensures Rising(SortBy(Kids(byParent, Some(n)), Ascending))
  {
    var kids := Kids(byParent, Some(n));
    SortBySorts(kids, Ascending);
    AllDifferentByElements(kids, SortBy(kids, Ascending));
  }

  /** The visible children: those with a card somewhere below, each once, by ascending id. */
  lemma VisibleChildrenAre(n: int, v: View, assignment: map<int, int>)
    requires Fresh(v, assignment)
    ensures AllCounted(Kids(v.byParent, Some(n)), v)
    ensures forall i :: 0 <= i < |VisibleChildIds(n, v)| ==>
              var c := VisibleChildIds(n, v)[i]; c in Children(v.nodeById, n) && v.counts[c] > 0
    ensures forall c :: c in Children(v.nodeById, n) && v.counts[c] > 0 ==> c in VisibleChildIds(n, v)
    ensures Rising(VisibleChildIds(n, v))
  {
    KidsRise(v.byParent, v.nodeById, n);
    PositiveRises(SortBy(Kids(v.byParent, Some(n)), Ascending), v.counts);
    KidsAreChildren(v.byParent, v.nodeById, n);
    var kids := Kids(v.byParent, Some(n));
    SortBySorts(kids, Ascending);
    SameElements(kids, SortBy(kids, Ascending));
    forall i | 0 <= i < |VisibleChildIds(n, v)|
      ensures var c := VisibleChildIds(n, v)[i]; c in Children(v.nodeById, n) && v.counts[c] > 0
    {
      assert VisibleChildIds(n, v)[i] in VisibleChildIds(n, v);
    }
  }

  datatype NodeKind = BranchNode | CardScopeNode

  /** `node_kind` of the node's own view. */
  function ViewKind(n: int, v: View): NodeKind
    requires n in v.direct
  {
    if HasRealChildren(n, v.byParent) then BranchNode
    else if v.direct[n] <= 0 || n == v.root then BranchNode
    else CardScopeNode
  }

  /** Whether `_resolve_card_scope_visibility` lets a layout or detail request through. */
  predicate RouteAdmitted(n: int, v: View)
    requires n in v.direct && AllCounted(Kids(v.byParent, Some(n)), v)
  {
    !(n == v.root || v.direct[n] <= 0 || HasRealChildren(n, v.byParent) || VisibleChildIds(n, v) != [])
  }

  datatype ChildEntry = ChildEntry(id: int, kind: NodeKind, descendantCards: int)

  /** `_view_children_from_node_ids` */
  function ViewChildren(ids: seq<int>, v: View): (entries: seq<ChildEntry>)
    requires AllCounted(ids, v)
    ensures forall e :: e in entries <==>
              && e.id in ids && e.id in v.counts && v.counts[e.id] > 0 && e.descendantCards == v.counts[e.id]
              && e.kind == if HasRealChildren(e.id, v.byParent) then BranchNode else CardScopeNode
  {
    if ids == [] then []
    else
      (if v.counts[ids[0]] > 0
       then [ChildEntry(ids[0], if HasRealChildren(ids[0], v.byParent) then BranchNode else CardScopeNode, v.counts[ids[0]])]
       else [])
      + ViewChildren(ids[1..], v)
  }

  /** Whether the parent's listing shows the node as a card scope. */
  predicate ListedAsCardScope(n: int, v: View)
    requires n in v.nodeById && n in v.counts
    requires AllCounted(Kids(v.byParent, v.nodeById[n].parent), v)
  {
    && v.nodeById[n].parent.Some?
    && ChildEntry(n, CardScopeNode, v.counts[n]) in ViewChildren(Kids(v.byParent, v.nodeById[n].parent), v)
  }

  /** The loop test of `list_card_scope_precompute_targets`. */
  predicate IsPrecomputeTarget(n: int, v: View)
    requires n in v.counts && AllCounted(Kids(v.byParent, Some(n)), v)
  {
    v.counts[n] > 0 && VisibleChildIds(n, v) == []
  }

  lemma PositiveSomewhere(v: View, assignment: map<int, int>, n: int) returns (c: int)
    requires Fresh(v, assignment) && n in v.nodeById && v.counts[n] > 0
    ensures c in assignment && assignment[c] in v.nodeById && Scope(v.nodeById, assignment[c])
    ensures Above(v.nodeById, v.root, n, assignment[c])
  {
    CountsAreCards(v, assignment, n);
    var cards := CardsUnder(v.nodeById, assignment, Subtree(v.nodeById, v.root, n));
    assert cards != {};
    c := Pick(cards);
  }

  lemma PositiveFrom(v: View, assignment: map<int, int>, n: int, c: int)
    requires Fresh(v, assignment) && n in v.nodeById
    requires c in assignment && assignment[c] in v.nodeById && Scope(v.nodeById, assignment[c])
    requires Above(v.nodeById, v.root, n, assignment[c])
    ensures v.counts[n] > 0
  {
    CountsAreCards(v, assignment, n);
    var cards := CardsUnder(v.nodeById, assignment, Subtree(v.nodeById, v.root, n));
    assert c in cards;
    assert |cards| > 0;
  }

  /** A positive count with no visible child sits on a card scope, and only there. */
  lemma PrecomputeTargetIsCardScope(v: View, assignment: map<int, int>, n: int)
    requires Fresh(v, assignment) && n in v.nodeById
    ensures (v.counts[n] > 0 && forall c :: c in Children(v.nodeById, n) ==> v.counts[c] <= 0)
            <==> IsCardScope(v.nodeById, assignment, n)
  {
    var t := v.nodeById;
    if IsCardScope(t, assignment, n) {
      AboveAtDepth(t, v.root, n, n);
      PositiveFrom(v, assignment, n, Pick(CardsOf(assignment, n)));
    } else if v.counts[n] > 0 {
      var card := PositiveSomewhere(v, assignment, n);
      assert card in CardsOf(assignment, assignment[card]);
      assert assignment[card] != n;
      var child := ChildOnTheWay(t, v.root, n, assignment[card]);
      PositiveFrom(v, assignment, child, card);
      assert child in Children(t, n);
    }
  }

  /** The test of `_active_scope_identities`. */
  predicate IsActiveScope(node: Node, byParent: ChildIndex, direct: map<int, int>)
    requires node.id in direct
  {
    !(direct[node.id] <= 0 || node.parent == None || HasRealChildren(node.id, byParent))
  }

  lemma FreshAt(v: View, assignment: map<int, int>, n: int)
    requires Fresh(v, assignment) && n in v.nodeById
    ensures v.direct[n] > 0 <==> CardsOf(assignment, n) != {}
    ensures v.nodeById[n].id == n && (n == v.root <==> v.nodeById[n].parent == None)
    ensures HasRealChildren(n, v.byParent) <==> Children(v.nodeById, n) != {}
    ensures n in Kids(v.byParent, v.nodeById[n].parent)
    ensures AllCounted(Kids(v.byParent, Some(n)), v) && AllCounted(Kids(v.byParent, v.nodeById[n].parent), v)
  {
    KidsAreChildren(v.byParent, v.nodeById, n);
    assert v.nodeById[n].parent in v.byParent;
    assert v.direct[n] == |CardsOf(assignment, n)|;
  }

  /** A node with a positive count and no children is listed; with children it is listed as a branch. */
  lemma ListingShowsLeaves(v: View, assignment: map<int, int>, n: int)
    requires Fresh(v, assignment) && n in v.nodeById
    ensures AllCounted(Kids(v.byParent, v.nodeById[n].parent), v)
    ensures ListedAsCardScope(n, v) <==> n != v.root && v.counts[n] > 0 && Children(v.nodeById, n) == {}
  {
    FreshAt(v, assignment, n);
  }

  lemma TargetTest(v: View, assignment: map<int, int>, n: int)
    requires Fresh(v, assignment) && n in v.nodeById
    ensures AllCounted(Kids(v.byParent, Some(n)), v)
    ensures VisibleChildIds(n, v) == [] <==> forall c :: c in Children(v.nodeById, n) ==> v.counts[c] <= 0
  {
    VisibleChildrenAre(n, v, assignment);
    var shown := VisibleChildIds(n, v);
    if shown == [] {
      forall c | c in Children(v.nodeById, n) ensures v.counts[c] <= 0 {
        assert c !in shown;
      }
    } else {
      assert shown[0] in Children(v.nodeById, n) && v.counts[shown[0]] > 0;
    }
  }

  lemma LeafIsScopeIffCounted(v: View, assignment: map<int, int>, n: int)
    requires Fresh(v, assignment) && n in v.nodeById && Children(v.nodeById, n) == {} && n != v.root
    ensures v.counts[n] > 0 <==> IsCardScope(v.nodeById, assignment, n)
  {
    PrecomputeTargetIsCardScope(v, assignment, n);
  }

  /** On fresh counts all five tests name the same nodes: leaves below the root with cards. */
  lemma ClassifiersAgree(v: View, assignment: map<int, int>, n: int)
    requires Fresh(v, assignment) && n in v.nodeById
    ensures AllCounted(Kids(v.byParent, Some(n)), v) && AllCounted(Kids(v.byParent, v.nodeById[n].parent), v)
    ensures v.nodeById[n].id == n
    ensures IsPrecomputeTarget(n, v) <==> IsCardScope(v.nodeById, assignment, n)
    ensures ViewKind(n, v) == CardScopeNode <==> IsCardScope(v.nodeById, assignment, n)
    ensures RouteAdmitted(n, v) <==> IsCardScope(v.nodeById, assignment, n)
    ensures ListedAsCardScope(n, v) <==> IsCardScope(v.nodeById, assignment, n)
    ensures IsActiveScope(v.nodeById[n], v.byParent, v.direct) <==> IsCardScope(v.nodeById, assignment, n)
  {
    FreshAt(v, assignment, n);
    PrecomputeTargetIsCardScope(v, assignment, n);
    TargetTest(v, assignment, n);
    ListingShowsLeaves(v, assignment, n);
    if Children(v.nodeById, n) == {} && n != v.root {
      LeafIsScopeIffCounted(v, assignment, n);
    }
  }

  /** Load the tree and both counts as a request with no cached counts does; without a root there is nothing to browse. */
  method LoadView(rows: seq<Node>, counts: seq<AssignmentCount>, ghost assignment: map<int, int>, ghost t: Table)
    returns (found: Option<View>)
    requires Lists(rows, t) && DistinctIds(rows) && GroupsAssignments(counts, assignment)
    requires t == map[] || exists root :: TreeShape(t, root)
    ensures found == None <==> t == map[]
    ensures found.Some? ==> found.value.nodeById == t && Fresh(found.value, assignment)
  {
    var nodeById, byParent := IndexTree(rows);
    SameTable(rows, nodeById, t);
    var only := RequireSingleRoot(nodeById, byParent);
    OneRootUnlessEmpty(t);
    if only == None {
      return None;
    }
    ghost var root :| TreeShape(t, root);
    OneRoot(t, root);
    var direct := LoadDirectCardCounts(counts, nodeById, assignment);
    var descendants := DescendantCardCounts(rows, nodeById, byParent, direct, root);
    return Some(View(nodeById, byParent, only.value, direct, descendants));
  }

  lemma SameTable(rows: seq<Node>, a: Table, b: Table)
    requires Lists(rows, a) && Lists(rows, b)
    ensures a == b
  {
    forall n | n in a ensures n in b && a[n] == b[n] {
      var i :| 0 <= i < |rows| && rows[i] == a[n];
    }
    forall n | n in b ensures n in a {
      var i :| 0 <= i < |rows| && rows[i] == b[n];
    }
  }

  lemma OneRoot(t: Table, root: int)
    requires TreeShape(t, root)
    ensures forall n :: n in t && t[n].parent == None ==> n == root
  {
  }

  lemma OneRootUnlessEmpty(t: Table)
    requires t == map[] || exists root :: TreeShape(t, root)
    ensures t != map[] <==> exists r :: r in t && t[r].parent == None && forall n :: n in t && t[n].parent == None ==> n == r
  {
    if t != map[] {
      var root :| TreeShape(t, root);
      OneRoot(t, root);
    }
  }

  /** `list_card_scope_precompute_targets`: exactly the card scopes, each once. */
  method ListPrecomputeTargets(rows: seq<Node>, v: View, ghost assignment: map<int, int>) returns (targets: seq<int>)
    requires Fresh(v, assignment) && Lists(rows, v.nodeById) && DistinctIds(rows)
    ensures forall n :: n in targets <==> IsCardScope(v.nodeById, assignment, n)
    ensures forall i, j :: 0 <= i < j < |targets| ==> targets[i] != targets[j]
  {
    targets := [];
    for k := 0 to |rows|
      invariant Selected(rows, k, targets, v.nodeById, assignment)
    {
      var node := rows[k];
      ClassifiersAgree(v, assignment, node.id);
      SelectNext(rows, k, targets, v.nodeById, assignment);
      if v.counts[node.id] <= 0 {
        continue;
      }
      if VisibleChildIds(node.id, v) != [] {
        continue;
      }
      targets := targets + [node.id];
    }
    AllSelected(rows, targets, v.nodeById, assignment);
  }

  /** The card scopes among the first `k` rows have been selected, each once. */
  ghost predicate Selected(rows: seq<Node>, k: nat, chosen: seq<int>, t: Table, assignment: map<int, int>)
    requires k <= |rows|
  {
    && (forall i :: 0 <= i < |chosen| ==>
          IsCardScope(t, assignment, chosen[i]) && exists r :: 0 <= r < k && rows[r].id == chosen[i])
    && (forall r :: 0 <= r < k && IsCardScope(t, assignment, rows[r].id) ==> rows[r].id in chosen)
    && (forall i, j :: 0 <= i < j < |chosen| ==> chosen[i] != chosen[j])
  }

  lemma SelectNext(rows: seq<Node>, k: nat, chosen: seq<int>, t: Table, assignment: map<int, int>)
    requires k < |rows| && DistinctIds(rows) && Selected(rows, k, chosen, t, assignment)
    ensures Selected(rows, k + 1, if IsCardScope(t, assignment, rows[k].id) then chosen + [rows[k].id] else chosen,
                     t, assignment)
  {
    assert rows[k].id !in chosen;
  }

  lemma AllSelected(rows: seq<Node>, chosen: seq<int>, t: Table, assignment: map<int, int>)
    requires Lists(rows, t) && Selected(rows, |rows|, chosen, t, assignment)
    ensures forall n :: n in chosen <==> IsCardScope(t, assignment, n)
  {
    forall n | IsCardScope(t, assignment, n) ensures n in chosen {
      var r :| 0 <= r < |rows| && rows[r] == t[n];
    }
  }

  /** The rebuild's own copy of the direct counts: each group's count is assigned, not added. */
  method AssignDirectCardCounts(counts: seq<AssignmentCount>, nodeById: Table, ghost assignment: map<int, int>)
    returns (direct: map<int, int>)
    requires GroupsAssignments(counts, assignment)
    ensures direct.Keys == nodeById.Keys
    ensures forall n :: n in nodeById ==> direct[n] == |CardsOf(assignment, n)|
  {
    direct := map n | n in nodeById :: 0;
    for k := 0 to |counts|
      invariant direct.Keys == nodeById.Keys
      invariant forall n :: n in nodeById ==>
                  direct[n] == if exists i :: 0 <= i < k && counts[i].taxonomyNodeId == n
                               then |CardsOf(assignment, n)| else 0
    {
      if counts[k].taxonomyNodeId in direct {
        direct := direct[counts[k].taxonomyNodeId := counts[k].cardCount];
      }
    }
    forall n | n in nodeById ensures direct[n] == |CardsOf(assignment, n)| {
      GroupOf(counts, assignment, n);
    }
  }

  lemma ActiveScopeIsCardScope(t: Table, byParent: ChildIndex, direct: map<int, int>, assignment: map<int, int>, n: int)
    requires Indexes(byParent, t) && n in t && t[n].id == n && n in direct
    requires direct[n] == |CardsOf(assignment, n)|
    ensures IsActiveScope(t[n], byParent, direct) <==> IsCardScope(t, assignment, n)
  {
    ScopeByIndex(t, byParent, n);
  }

  /** `_active_scope_identities`: the scopes a full projection rebuild fills are the card scopes. */
  method ActiveScopeIdentities(rows: seq<Node>, counts: seq<AssignmentCount>, ghost assignment: map<int, int>, ghost t: Table)
    returns (identities: seq<int>)
    requires Lists(rows, t) && DistinctIds(rows) && GroupsAssignments(counts, assignment)
    ensures forall n :: n in identities <==> IsCardScope(t, assignment, n)
    ensures forall i, j :: 0 <= i < j < |identities| ==> identities[i] != identities[j]
  {
    var nodeById, byParent := IndexTree(rows);
    SameTable(rows, nodeById, t);
    var direct := AssignDirectCardCounts(counts, nodeById, assignment);
    identities := [];
    for k := 0 to |rows|
      invariant Selected(rows, k, identities, t, assignment)
    {
      var node := rows[k];
      ActiveScopeIsCardScope(t, byParent, direct, assignment, node.id);
      SelectNext(rows, k, identities, t, assignment);
      if direct[node.id] <= 0 || node.parent == None || HasRealChildren(node.id, byParent) {
        continue;
      }
      identities := identities + [node.id];
    }
    AllSelected(rows, identities, t, assignment);
  }
}
