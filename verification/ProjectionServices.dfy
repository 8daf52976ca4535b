/**
 The service and repository calls that keep the projection index, as they run on a session.
 Each one's effect is the corresponding table function of `ScopeProjection`.
 */
module ProjectionServices {
  import opened Common
  import opened ScopeProjection
  import opened Sorting
  import opened Store
  import opened TaxonomyCounts
  import opened TaxonomyScopes
  import opened TaxonomyTree

  const PROJECTION_EDGE_INSERT_BATCH_SIZE := 10_000

  /** The rows of a query over a set of ids, in ascending order. */
  method Listed(s: set<int>) returns (q: seq<int>)
    ensures forall i :: 0 <= i < |q| ==> q[i] in s
    ensures forall x :: x in s ==> x in q
    ensures forall i, j :: 0 <= i < j < |q| ==> q[i] != q[j]
  {
    q := [];
    var rest := s;
    while rest != {}
      invariant rest <= s && forall x :: x in s ==> x in q || x in rest
      invariant forall i :: 0 <= i < |q| ==> q[i] in s && q[i] !in rest
      invariant forall i, j :: 0 <= i < j < |q| ==> q[i] != q[j]
      decreases rest
    {
      assert exists x :: x in rest by {
        ghost var w := Pick(rest);
      }
      var x :| x in rest;
      q := q + [x];
      rest := rest - {x};
    }
  }

  /** `list_tree_nodes` */
  method ListTreeNodes(t: Table) returns (rows: seq<Node>)
    requires forall n :: n in t ==> t[n].id == n
    ensures Lists(rows, t) && DistinctIds(rows)
  {
    var ids := Listed(t.Keys);
    rows := [];
    for k := 0 to |ids|
      invariant |rows| == k && forall i :: 0 <= i < k ==> ids[i] in t && rows[i] == t[ids[i]]
    {
      rows := rows + [t[ids[k]]];
    }
    forall n | n in t ensures t[n] in rows {
      assert n in ids;
      var i :| 0 <= i < |ids| && ids[i] == n;
      assert rows[i] == t[n];
    }
  }

  /** `list_assignment_counts` */
  method ListAssignmentCounts(assignment: map<int, int>) returns (counts: seq<AssignmentCount>)
    ensures GroupsAssignments(counts, assignment)
  {
    var ids := Listed(assignment.Values);
    counts := [];
    for k := 0 to |ids|
      invariant |counts| == k
      invariant forall i :: 0 <= i < k ==> counts[i] == AssignmentCount(ids[i], |CardsOf(assignment, ids[i])|)
    {
      counts := counts + [AssignmentCount(ids[k], |CardsOf(assignment, ids[k])|)];
    }
    forall c | c in assignment ensures exists i :: 0 <= i < |counts| && counts[i].taxonomyNodeId == assignment[c] {
      assert assignment[c] in assignment.Values;
      var i :| 0 <= i < |ids| && ids[i] == assignment[c];
      assert counts[i].taxonomyNodeId == assignment[c];
    }
  }

  /** `list_card_scope_precompute_targets`, from the tables on; it raises only while there is no root. */
  method ListCardScopePrecomputeTargets(session: Session) returns (targets: Option<seq<int>>)
    requires Sound(session.Snapshot())
    ensures targets == None <==> session.taxonomy == map[]
    ensures targets.Some? ==>
              && (forall n :: n in targets.value <==> IsCardScope(session.taxonomy, session.assignment, n))
              && forall i, j :: 0 <= i < j < |targets.value| ==> targets.value[i] != targets.value[j]
  {
    TreeIds(session.taxonomy);
    var treeNodes := ListTreeNodes(session.taxonomy);
    var counts := ListAssignmentCounts(session.assignment);
    var view := LoadView(treeNodes, counts, session.assignment, session.taxonomy);
    if view == None {
      return None;
    }
    var listed := ListPrecomputeTargets(treeNodes, view.value, session.assignment);
    return Some(listed);
  }

  /** `list_scope_identities_for_node_ids` */
  method ListScopeIdentities(session: Session, cardIds: seq<int>) returns (scopes: map<int, int>)
    requires Sound(session.Snapshot())
    ensures forall c :: c in scopes <==> c in cardIds && ScopeOfCard(session.Snapshot(), c).Some?
    ensures forall c :: c in scopes ==> ScopeOfCard(session.Snapshot(), c) == Some(scopes[c])
  {
    scopes := map[];
    TreeIds(session.taxonomy);
    var treeNodes := ListTreeNodes(session.taxonomy);
    var nodeById, byParent := IndexTree(treeNodes);
    SameTable(treeNodes, nodeById, session.taxonomy);
    for k := 0 to |cardIds|
      invariant forall c :: c in scopes <==> c in cardIds[..k] && ScopeOfCard(session.Snapshot(), c).Some?
      invariant forall c :: c in scopes ==> ScopeOfCard(session.Snapshot(), c) == Some(scopes[c])
    {
      var card := cardIds[k];
      assert cardIds[..k + 1] == cardIds[..k] + [card];
      if card !in session.assignment {
        continue;
      }
      var taxonomyNodeId := session.assignment[card];
      ScopeByIndex(nodeById, byParent, taxonomyNodeId);
      if taxonomyNodeId !in nodeById || nodeById[taxonomyNodeId].parent == None || Kids(byParent, Some(taxonomyNodeId)) != [] {
        continue;
      }
      scopes := scopes[card := taxonomyNodeId];
    }
    assert cardIds[..|cardIds|] == cardIds;
  }

  lemma TreeIds(t: Table)
    requires TreeValid(t)
    ensures forall n :: n in t ==> t[n].id == n
  {
  }

  /** `add_projected_edge_ids_for_scope`: deduplicated, sorted, inserted batch by batch. */
  method AddProjectedEdgeIds(session: Session, node: int, edgeIds: seq<int>)
    modifies session
    ensures session.Snapshot() == AddProjected(old(session.Snapshot()), node, set e | e in edgeIds)
  {
    var deduped := SortedDistinct(edgeIds);
    SortedDistinctKeepsElements(edgeIds);
    var start := 0;
    ghost var before := session.Snapshot();
    AddNothing(before, node);
    assert deduped[..0] == [];
    while start < |deduped|
      invariant 0 <= start <= |deduped|
      invariant session.Snapshot() == AddProjected(before, node, set e | e in deduped[..start])
    {
      var stop := if start + PROJECTION_EDGE_INSERT_BATCH_SIZE < |deduped|
                  then start + PROJECTION_EDGE_INSERT_BATCH_SIZE else |deduped|;
      var batch := deduped[start..stop];
      AddTwice(before, node, deduped[..start], batch);
      assert deduped[..stop] == deduped[..start] + batch;
      session.projected := session.projected + set e | e in batch :: (node, e);
      start := stop;
    }
    assert deduped[..|deduped|] == deduped;
    SameIds(deduped, edgeIds);
  }

  lemma SameIds(a: seq<int>, b: seq<int>)
    requires forall x :: x in a <==> x in b
    ensures (set e | e in a) == set e | e in b
  {
    var left, right := set x | x in a, set x | x in b;
    forall e ensures e in left <==> e in right {
    }
  }

  lemma AddNothing(r: Rows, node: int)
    ensures AddProjected(r, node, set e | e in []) == r
  {
    assert (set e: int | e in [] :: (node, e)) == {};
  }

  lemma AddTwice(r: Rows, node: int, first: seq<int>, second: seq<int>)
    ensures AddProjected(AddProjected(r, node, set e | e in first), node, set e | e in second)
            == AddProjected(r, node, set e | e in first + second)
  {
    var a := set e | e in first :: (node, e);
    var b := set e | e in second :: (node, e);
    assert (set e | e in first + second :: (node, e)) == a + b;
    assert (set e | e in (set x | x in first) :: (node, e)) == a;
    assert (set e | e in (set x | x in second) :: (node, e)) == b;
    assert (set e | e in (set x | x in first + second) :: (node, e)) == a + b;
  }

  /** `list_adjacent_edge_ids_for_node_ids` */
  method ListAdjacentEdgeIds(session: Session, cards: set<int>) returns (edgeIds: seq<int>)
    ensures forall e :: e in edgeIds <==> e in AdjacentEdges(session.Snapshot(), cards)
  {
    var ids := Listed(AdjacentEdges(session.Snapshot(), cards));
    edgeIds := SortBy(ids, Ascending);
    SortBySorts(ids, Ascending);
    SameElements(ids, edgeIds);
    forall e ensures e in edgeIds <==> e in AdjacentEdges(session.Snapshot(), cards) {
      if e in ids {
        var i :| 0 <= i < |ids| && ids[i] == e;
      }
    }
  }

  /** `_refresh_card_scope_projection` */
  method RefreshCardScopeProjection(session: Session, node: int)
    modifies session
    ensures session.Snapshot() == Refreshed(old(session.Snapshot()), node)
  {
    var innerCards := CardsOf(session.assignment, node);
    ghost var adjacent := AdjacentEdges(session.Snapshot(), innerCards);
    var edgeIds := ListAdjacentEdgeIds(session, innerCards);
    session.ClearProjectedEdgeIds(node);
    AddProjectedEdgeIds(session, node, edgeIds);
    ElementsAre(edgeIds, adjacent);
  }

  lemma ElementsAre(q: seq<int>, s: set<int>)
    requires forall x :: x in q <==> x in s
    ensures (set x | x in q) == s
  {
    var all := set x | x in q;
    forall e ensures e in all <==> e in s {
    }
  }

  /** `_refresh_card_scope_projections`: deduplicated, in ascending order. */
  method RefreshCardScopeProjections(session: Session, scopes: seq<int>)
    modifies session
    ensures session.Snapshot() == RefreshedAll(old(session.Snapshot()), SortedDistinct(scopes))
  {
    var order := SortedDistinct(scopes);
    ghost var start := session.Snapshot();
    assert order[0..] == order;
    for k := 0 to |order|
      invariant RefreshedAll(start, order) == RefreshedAll(session.Snapshot(), order[k..])
    {
      assert order[k..][0] == order[k] && order[k..][1..] == order[k + 1..];
      RefreshCardScopeProjection(session, order[k]);
    }
  }

  /** The scope identities found for one card: none or one. */
  method ScopeIdentityOf(session: Session, card: int) returns (scope: Option<int>)
    requires Sound(session.Snapshot())
    ensures scope == ScopeOfCard(session.Snapshot(), card)
  {
    var found := ListScopeIdentities(session, [card]);
    scope := Get(found, card);
    assert card in [card];
  }

  /** `set_current_assignment` of the service: one transaction, rolled back when it raises. */
  method SetCurrentAssignment(session: Session, card: int, node: int) returns (failed: Option<StoreError>)
    requires Sound(session.Snapshot())
    modifies session
    ensures match Reassigned(old(session.Snapshot()), card, node)
            case Ok(rows) => failed == None && session.Snapshot() == rows
            case Raised(e) => failed == Some(e) && session.Snapshot() == old(session.Snapshot())
    ensures Sound(session.Snapshot())
  {
    var saved := session.Snapshot();
    if Reassigned(saved, card, node).Ok? {
      ReassignSound(saved, card, node);
    }
    var previous := ScopeIdentityOf(session, card);
    failed := session.SetAssignment(card, node);
    if failed != None {
      session.Restore(saved);
      return;
    }
    MovedSound(saved, card, node);
    var current := ScopeIdentityOf(session, card);
    RefreshCardScopeProjections(session, Present(previous, current));
  }

  lemma MovedSound(r: Rows, card: int, node: int)
    requires Sound(r) && Assign(r, card, node).Ok?
    ensures Sound(Assign(r, card, node).value)
  {
    var moved := Assign(r, card, node).value;
    forall c, e ensures (c, e) in moved.adjacency <==> e in moved.edges && IsEndpoint(moved.edges[e], c) {
    }
  }

  /** `ensure_root` */
  method EnsureRoot(session: Session) returns (root: int)
    requires TreeValid(session.taxonomy)
    modifies session
    ensures session.Snapshot() == WithRoot(old(session.Snapshot()))
    ensures RootOf(session.taxonomy) == Some(root)
  {
    ghost var before := session.Snapshot();
    WithRootHasTree(before);
    if exists n :: n in session.taxonomy && session.taxonomy[n].parent == None {
      root :| root in session.taxonomy && session.taxonomy[root].parent == None;
      OnlyRoot(session.taxonomy, root);
      return;
    }
    var created := session.CreateTaxonomyNode(None, "Root", 0);
    root := created.value;
    assert session.Snapshot() == WithRoot(before);
    assert root in session.taxonomy.Keys;
    OnlyRoot(session.taxonomy, root);
  }

  lemma OnlyRoot(t: Table, n: int)
    requires TreeValid(t) && n in t && t[n].parent == None
    ensures RootOf(t) == Some(n)
  {
    var root :| ValidTree(t, root);
    RootOfTree(t, root);
    OneRoot(t, root);
  }

  /** A new card through ingestion or an accepted proposal: `create_node`, then the root assignment. */
  method CreateCardAtRoot(session: Session) returns (card: int)
    requires Sound(session.Snapshot())
    modifies session
    ensures card == old(session.nextCardId) && CardCreated(old(session.Snapshot())) == Ok(session.Snapshot())
    ensures Sound(session.Snapshot())
  {
    ghost var before := session.Snapshot();
    CardCreatedKeeps(before);
    InsertCardSound(before);
    card := session.CreateCard();
    WithRootHasTree(InsertCard(before));
    var root := EnsureRoot(session);
    var failed := session.SetAssignment(card, root);
  }

  /** `assign_node_to_root` of the service. */
  method AssignNodeToRoot(session: Session, card: int) returns (failed: Option<StoreError>)
    requires Sound(session.Snapshot())
    modifies session
    ensures match RootAssigned(old(session.Snapshot()), card)
            case Ok(rows) => failed == None && session.Snapshot() == rows
            case Raised(e) => failed == Some(e) && session.Snapshot() == old(session.Snapshot())
    ensures Sound(session.Snapshot())
  {
    var saved := session.Snapshot();
    WithRootHasTree(saved);
    WithRootSound(saved);
    if RootAssigned(saved, card).Ok? {
      RootAssignedKeeps(saved, card);
    }
    var previous := ScopeIdentityOf(session, card);
    var root := EnsureRoot(session);
    failed := session.SetAssignment(card, root);
    if failed != None {
      session.Restore(saved);
      return;
    }
    MovedSound(WithRoot(saved), card, root);
    var current := ScopeIdentityOf(session, card);
    RefreshCardScopeProjections(session, Present(previous, current));
  }

  /** `_create_edge_with_projection`: the edge, then one row per distinct endpoint scope. */
  method CreateEdgeWithProjection(session: Session, source: int, related: int, strength: real)
    returns (failed: Option<StoreError>)
    requires Sound(session.Snapshot())
    modifies session
    ensures match EdgeCreated(old(session.Snapshot()), source, related, strength)
            case Ok(rows) => failed == None && session.Snapshot() == rows
            case Raised(e) => failed == Some(e) && session.Snapshot() == old(session.Snapshot())
    ensures Sound(session.Snapshot())
  {
    ghost var before := session.Snapshot();
    var edge := session.CreateEdgeWithAdjacency(source, related, strength);
    if edge.Raised? {
      return Some(edge.error);
    }
    EdgeCreatedFrom(before, source, related, strength, session.Snapshot());
    var scopes := ScopeIdentitiesOf(session, source, related);
    AddEdgeToScopes(session, SortedDistinct(scopes), edge.value);
    return None;
  }

  /** The scope identities of the two endpoints. */
  method ScopeIdentitiesOf(session: Session, source: int, related: int) returns (scopes: seq<int>)
    requires Sound(session.Snapshot())
    ensures scopes == EdgeScopes(session.Snapshot(), source, related)
  {
    var found := ListScopeIdentities(session, [source, related]);
    assert source in [source, related] && related in [source, related];
    scopes := Present(Get(found, source), Get(found, related));
  }

  method AddEdgeToScopes(session: Session, order: seq<int>, edge: int)
    modifies session
    ensures session.Snapshot() == AddedToAll(old(session.Snapshot()), order, edge)
  {
    ghost var linked := session.Snapshot();
    assert order[0..] == order;
    SingleId(edge);
    for k := 0 to |order|
      invariant AddedToAll(linked, order, edge) == AddedToAll(session.Snapshot(), order[k..], edge)
    {
      assert order[k..][0] == order[k] && order[k..][1..] == order[k + 1..];
      AddProjectedEdgeIds(session, order[k], [edge]);
    }
  }

  lemma SingleId(edge: int)
    ensures (set e | e in [edge]) == {edge}
  {
    var all := set x | x in [edge];
    forall e ensures e in all <==> e == edge {
    }
  }

  /** `create_regular_child` */
  method CreateRegularChild(session: Session, parent: int, name: string) returns (r: Outcome<int, StoreError>)
    requires Sound(session.Snapshot())
    modifies session
    ensures match ChildCreated(old(session.Snapshot()), parent, name)
            case Ok(rows) => r == Ok(old(session.nextTaxonomyId)) && session.Snapshot() == rows
            case Raised(e) => r == Raised(e) && session.Snapshot() == old(session.Snapshot())
    ensures Sound(session.Snapshot())
  {
    if ChildCreated(session.Snapshot(), parent, name).Ok? {
      ChildCreatedKeeps(session.Snapshot(), parent, name);
    }
    if parent !in session.taxonomy {
      return Raised(MissingRow);
    }
    if name == "Unclassified" {
      return Raised(StoreError.ReservedName);
    }
    r := session.CreateTaxonomyNode(Some(parent), name, session.taxonomy[parent].depth + 1);
  }

  /** The rebuild loop, scope by scope. */
  ghost function Filled(r: Rows, scopes: seq<int>): Rows {
    if scopes == [] then r
    else
      var before, n := Filled(r, scopes[..|scopes| - 1]), scopes[|scopes| - 1];
      AddProjected(before, n, AdjacentEdges(r, CardsOf(r.assignment, n)))
  }

  lemma {:induction false} FilledAt(r: Rows, scopes: seq<int>, n: int, e: int)
    ensures var after := Filled(r, scopes);
            && after == r.(projected := after.projected)
            && ((n, e) in after.projected <==>
                (n, e) in r.projected || (n in scopes && e in AdjacentEdges(r, CardsOf(r.assignment, n))))
  {
    if scopes != [] {
      FilledAt(r, scopes[..|scopes| - 1], n, e);
      assert scopes == scopes[..|scopes| - 1] + [scopes[|scopes| - 1]];
    }
  }

  lemma FilledIsRebuilt(r: Rows, scopes: seq<int>)
    requires Sound(r) && forall n :: n in scopes <==> IsCardScope(r.taxonomy, r.assignment, n)
    ensures Filled(r.(projected := {}), scopes) == ProjectionRebuilt(r)
  {
    var cleared := r.(projected := {});
    var filled, rebuilt := Filled(cleared, scopes), ProjectionRebuilt(r);
    FilledAt(cleared, scopes, 0, 0);
    forall p: (int, int) ensures p in filled.projected <==> p in rebuilt.projected {
      var (n, e) := p;
      FilledAt(cleared, scopes, n, e);
      RebuiltAt(r, n, e);
      AdjacentHas(r, n, e);
      assert AdjacentEdges(cleared, CardsOf(cleared.assignment, n)) == AdjacentEdges(r, CardsOf(r.assignment, n));
      if e in r.edges && Touches(r, n, e) {
        assert r.edges[e].a in CardsOf(r.assignment, n) || r.edges[e].b in CardsOf(r.assignment, n);
      }
    }
    assert filled.projected == rebuilt.projected;
  }

  /** `rebuild_taxonomy_scope_projection_edges` */
  method RebuildScopeProjectionEdges(session: Session)
    requires Sound(session.Snapshot())
    modifies session
    ensures session.Snapshot() == ProjectionRebuilt(old(session.Snapshot()))
  {
    ghost var before := session.Snapshot();
    TreeIds(session.taxonomy);
    var treeNodes := ListTreeNodes(session.taxonomy);
    var counts := ListAssignmentCounts(session.assignment);
    var identities := ActiveScopeIdentities(treeNodes, counts, session.assignment, session.taxonomy);
    session.projected := {};
    ghost var cleared := session.Snapshot();
    assert identities[..0] == [];
    for k := 0 to |identities|
      invariant session.Snapshot() == Filled(cleared, identities[..k])
    {
      ghost var sofar := identities[..k];
      assert identities[..k + 1] == sofar + [identities[k]] && (sofar + [identities[k]])[..k] == sofar;
      FilledAt(cleared, sofar, 0, 0);
      AddScope(session, identities[k]);
    }
    assert identities[..|identities|] == identities;
    FilledIsRebuilt(before, identities);
  }

  method AddScope(session: Session, node: int)
    modifies session
    ensures var before := old(session.Snapshot());
            session.Snapshot() == AddProjected(before, node, AdjacentEdges(before, CardsOf(before.assignment, node)))
  {
    var innerCards := CardsOf(session.assignment, node);
    ghost var adjacent := AdjacentEdges(session.Snapshot(), innerCards);
    var edgeIds := ListAdjacentEdgeIds(session, innerCards);
    AddProjectedEdgeIds(session, node, edgeIds);
    ElementsAre(edgeIds, adjacent);
  }

  /** One inserted row of a bulk replace, as the insert returns it. */
  datatype InsertedEdge = InsertedEdge(id: int, a: int, b: int)

  ghost function AdjacencyOf(inserted: seq<InsertedEdge>): set<(int, int)> {
    if inserted == [] then {}
    else
      var last := inserted[|inserted| - 1];
      AdjacencyOf(inserted[..|inserted| - 1]) + {(last.a, last.id), (last.b, last.id)}
  }

  ghost function InsertedBy(plans: seq<PlannedEdge>, first: int): seq<InsertedEdge> {
    seq(|plans|, i requires 0 <= i < |plans| => InsertedEdge(first + i, plans[i].related, plans[i].source))
  }

  /** What inserting a plan leaves besides its edges. */
  lemma {:induction false} InsertAllPlannedShape(r: Rows, plans: seq<PlannedEdge>)
    requires InsertAllPlanned(r, plans).Ok? && r.adjacency == {}
    ensures var after := InsertAllPlanned(r, plans).value;
            && after == r.(edges := after.edges, nextEdgeId := r.nextEdgeId + |plans|, adjacency := after.adjacency)
            && after.adjacency == AdjacencyOf(InsertedBy(plans, r.nextEdgeId))
  {
    if plans != [] {
      var front := plans[..|plans| - 1];
      InsertAllPlannedShape(r, front);
      assert InsertedBy(plans, r.nextEdgeId)[..|plans| - 1] == InsertedBy(front, r.nextEdgeId);
    }
  }

  lemma {:induction false} InsertAllPlannedPrefix(r: Rows, plans: seq<PlannedEdge>, k: nat)
    requires k <= |plans| && InsertAllPlanned(r, plans[..k]).Raised?
    ensures InsertAllPlanned(r, plans) == InsertAllPlanned(r, plans[..k])
    decreases |plans|
  {
    if k == |plans| {
      assert plans[..k] == plans;
    } else {
      assert plans[..|plans| - 1][..k] == plans[..k];
      InsertAllPlannedPrefix(r, plans[..|plans| - 1], k);
    }
  }

  /** One row of the bulk insert into the edge table; its adjacency rows come later. */
  method InsertEdgeRow(session: Session, plan: PlannedEdge) returns (r: Outcome<InsertedEdge, StoreError>)
    modifies session
    ensures match InsertPlanned(old(session.Snapshot()), plan)
            case Ok(rows) => r == Ok(InsertedEdge(old(session.nextEdgeId), plan.related, plan.source))
                             && session.Snapshot() == rows.(adjacency := old(session.adjacency))
            case Raised(e) => r == Raised(e) && session.Snapshot() == old(session.Snapshot())
  {
    var a, b := plan.related, plan.source;
    if a >= b {
      return Raised(BadPair);
    }
    if a !in session.cards || b !in session.cards {
      return Raised(MissingRow);
    }
    if !(0.0 <= plan.strength <= 1.0) {
      return Raised(BadStrength);
    }
    if PairTaken(session.edges, a, b) {
      return Raised(DuplicateRow);
    }
    var id := session.nextEdgeId;
    session.edges := session.edges[id := Edge(a, b, plan.strength)];
    session.nextEdgeId := id + 1;
    return Ok(InsertedEdge(id, a, b));
  }

  lemma AdjacencyIrrelevant(r: Rows, plan: PlannedEdge, adjacency: set<(int, int)>)
    ensures match InsertPlanned(r, plan)
            case Ok(rows) => InsertPlanned(r.(adjacency := adjacency), plan).Ok?
                             && InsertPlanned(r.(adjacency := adjacency), plan).value.(adjacency := {}) == rows.(adjacency := {})
            case Raised(e) => InsertPlanned(r.(adjacency := adjacency), plan) == Raised(e)
  {
  }

  lemma InsertedByNext(plans: seq<PlannedEdge>, k: nat, next: nat, first: int)
    requires next == k + 1 <= |plans|
    ensures InsertedBy(plans[..next], first) ==
            InsertedBy(plans[..k], first) + [InsertedEdge(first + k, plans[k].related, plans[k].source)]
  {
  }

  lemma AllPlannedNext(base: Rows, plans: seq<PlannedEdge>, k: nat, next: nat)
    requires next == k + 1 <= |plans| && InsertAllPlanned(base, plans[..k]).Ok?
    ensures InsertAllPlanned(base, plans[..next]) == InsertPlanned(InsertAllPlanned(base, plans[..k]).value, plans[k])
  {
    assert plans[..next][..k] == plans[..k];
  }

  /** One more planned edge, inserted without its adjacency. */
  lemma PlannedNext(base: Rows, plans: seq<PlannedEdge>, k: nat, next: nat)
    requires next == k + 1 <= |plans| && base.adjacency == {} && InsertAllPlanned(base, plans[..k]).Ok?
    ensures var bare := InsertAllPlanned(base, plans[..k]).value.(adjacency := {});
            && bare.nextEdgeId == base.nextEdgeId + k
            && match InsertPlanned(bare, plans[k])
               case Ok(rows) => InsertAllPlanned(base, plans[..next]).Ok?
                                && InsertAllPlanned(base, plans[..next]).value.(adjacency := {}) == rows.(adjacency := {})
               case Raised(e) => InsertAllPlanned(base, plans[..next]) == Raised(e)
  {
    AllPlannedNext(base, plans, k, next);
    InsertAllPlannedShape(base, plans[..k]);
    AdjacencyIrrelevant(InsertAllPlanned(base, plans[..k]).value, plans[k], {});
  }

  /**
   `replace_edges_with_adjacency`: first all edges, then the adjacency of every inserted edge.
   When it raises, the caller rolls back.
   */
  method ReplaceEdgesWithAdjacency(session: Session, plans: seq<PlannedEdge>) returns (r: Outcome<nat, StoreError>)
    modifies session
    ensures match InsertAllPlanned(ClearEdges(old(session.Snapshot())), plans)
            case Ok(rows) => r == Ok(|plans|) && session.Snapshot() == rows
            case Raised(e) => r == Raised(e)
  {
    session.ClearEdgesWithAdjacency();
    ghost var base := session.Snapshot();
    if plans == [] {
      return Ok(0);
    }
    var inserted := InsertEdgeRows(session, plans);
    if inserted.Raised? {
      return Raised(inserted.error);
    }
    InsertAllPlannedShape(base, plans);
    AddAdjacencyRows(session, inserted.value);
    return Ok(|inserted.value|);
  }

  /** The edge rows alone, in plan order, up to the first refusal. */
  method InsertEdgeRows(session: Session, plans: seq<PlannedEdge>) returns (r: Outcome<seq<InsertedEdge>, StoreError>)
    requires session.adjacency == {}
    modifies session
    ensures match InsertAllPlanned(old(session.Snapshot()), plans)
            case Ok(rows) => r == Ok(InsertedBy(plans, old(session.nextEdgeId))) && session.Snapshot() == rows.(adjacency := {})
            case Raised(e) => r == Raised(e)
  {
    ghost var base := session.Snapshot();
    var insertedEdges: seq<InsertedEdge> := [];
    assert plans[..0] == [];
    for k := 0 to |plans|
      invariant InsertAllPlanned(base, plans[..k]).Ok?
      invariant session.Snapshot() == InsertAllPlanned(base, plans[..k]).value.(adjacency := {})
      invariant insertedEdges == InsertedBy(plans[..k], base.nextEdgeId)
    {
      PlannedNext(base, plans, k, k + 1);
      InsertedByNext(plans, k, k + 1, base.nextEdgeId);
      var row := InsertEdgeRow(session, plans[k]);
      if row.Raised? {
        InsertAllPlannedPrefix(base, plans, k + 1);
        return Raised(row.error);
      }
      insertedEdges := insertedEdges + [row.value];
    }
    assert plans[..|plans|] == plans;
    return Ok(insertedEdges);
  }

  method AddAdjacencyRows(session: Session, insertedEdges: seq<InsertedEdge>)
    requires session.adjacency == {}
    modifies session
    ensures session.Snapshot() == old(session.Snapshot()).(adjacency := AdjacencyOf(insertedEdges))
  {
    ghost var before := session.Snapshot();
    assert insertedEdges[..0] == [];
    for k := 0 to |insertedEdges|
      invariant session.Snapshot() == before.(adjacency := AdjacencyOf(insertedEdges[..k]))
    {
      var edge := insertedEdges[k];
      ghost var sofar := insertedEdges[..k];
      assert insertedEdges[..k + 1] == sofar + [edge] && (sofar + [edge])[..k] == sofar;
      session.adjacency := session.adjacency + {(edge.a, edge.id), (edge.b, edge.id)};
    }
    assert insertedEdges[..|insertedEdges|] == insertedEdges;
  }

  /** The operator's edge rebuild with `--apply`: edges and index together, or nothing. */
  method RebuildGraphEdges(session: Session, plans: seq<PlannedEdge>) returns (r: Outcome<nat, StoreError>)
    requires Sound(session.Snapshot())
    modifies session
    ensures match EdgesRebuilt(old(session.Snapshot()), plans)
            case Ok(rows) => r == Ok(|plans|) && session.Snapshot() == rows
            case Raised(e) => r == Raised(e) && session.Snapshot() == old(session.Snapshot())
    ensures Sound(session.Snapshot())
  {
    var saved := session.Snapshot();
    ClearEdgesSound(saved);
    r := ReplaceEdgesWithAdjacency(session, plans);
    if r.Raised? {
      session.Restore(saved);
      return;
    }
    InsertAllPlannedSound(ClearEdges(saved), plans);
    EdgesRebuiltKeeps(saved, plans);
    RebuildScopeProjectionEdges(session);
  }

  /** The root assignment backfill with `--apply`. */
  method BackfillRootAssignments(session: Session) returns (insertedAssignments: nat)
    requires Sound(session.Snapshot())
    modifies session
    ensures Backfilled(old(session.Snapshot())) == Ok(session.Snapshot()) && Sound(session.Snapshot())
    ensures insertedAssignments == |old(session.cards) - old(session.assignment.Keys)|
  {
    ghost var before := session.Snapshot();
    BackfilledKeeps(before);
    WithRootHasTree(before);
    WithRootSound(before);
    var root := EnsureRoot(session);
    insertedAssignments := AssignUnassignedCards(session, root);
    BackfillStepSound(WithRoot(before), root);
    RebuildScopeProjectionEdges(session);
  }

  /** `assign_unassigned_nodes_to_taxonomy_node`, run only when some card is missing an assignment. */
  method AssignUnassignedCards(session: Session, root: int) returns (insertedAssignments: nat)
    modifies session
    ensures var before := old(session.Snapshot());
            session.Snapshot() == before.(assignment := (map c | c in before.cards :: root) + before.assignment)
    ensures insertedAssignments == |old(session.cards) - old(session.assignment.Keys)|
  {
    var missingBefore := |session.cards - session.assignment.Keys|;
    AllAssigned(session.cards, session.assignment, root);
    if missingBefore > 0 {
      session.assignment := (map c | c in session.cards :: root) + session.assignment;
    } else {
      NothingMissing(session.cards, session.assignment, root);
    }
    var missingAfter := |session.cards - session.assignment.Keys|;
    insertedAssignments := if missingBefore > missingAfter then missingBefore - missingAfter else 0;
  }

  lemma NothingMissing(cards: set<int>, assignment: map<int, int>, root: int)
    requires |cards - assignment.Keys| == 0
    ensures (map c | c in cards :: root) + assignment == assignment
  {
    var missing := cards - assignment.Keys;
    assert missing == {};
    forall c | c in cards ensures c in assignment {
      assert c !in missing;
    }
  }

  lemma AllAssigned(cards: set<int>, assignment: map<int, int>, root: int)
    ensures cards - ((map c | c in cards :: root) + assignment).Keys == {}
  {
  }

  lemma BackfillStepSound(r: Rows, root: int)
    requires Sound(r) && root in r.taxonomy && forall c :: c in r.assignment ==> c in r.cards
    ensures Sound(r.(assignment := (map c | c in r.cards :: root) + r.assignment))
  {
    var filled := r.(assignment := (map c | c in r.cards :: root) + r.assignment);
    forall c, e ensures (c, e) in filled.adjacency <==> e in filled.edges && IsEndpoint(filled.edges[e], c) {
    }
  }
}
