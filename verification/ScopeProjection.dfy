/**
 The scope projection index: for every card scope, the edges touching its cards. It is kept up
 to date by card creation, edge creation and reassignment, and rebuilt from scratch by operators.
 */
module ScopeProjection {
  import opened Common
  import opened RoutePath
  import opened Sorting
  import opened Store
  import TaxonomyImport
  import opened TaxonomyTree

  // ----- what the tables always satisfy -----

  ghost predicate IsEndpoint(edge: Edge, card: int) {
    card == edge.a || card == edge.b
  }

  /** Adjacency holds exactly the endpoints of the edges. */
  ghost predicate AdjacencyMirrors(r: Rows) {
    forall c, e {:trigger (c, e) in r.adjacency} ::
      (c, e) in r.adjacency <==> e in r.edges && IsEndpoint(r.edges[e], c)
  }

  ghost predicate EdgesValid(r: Rows) {
    && (forall e {:trigger r.edges[e]} :: e in r.edges ==>
          && r.edges[e].a < r.edges[e].b && r.edges[e].a in r.cards && r.edges[e].b in r.cards
          && 0.0 <= r.edges[e].strength <= 1.0 && e < r.nextEdgeId)
    && (forall e, f {:trigger r.edges[e].a, r.edges[f].a} ::
          (e in r.edges && f in r.edges && r.edges[e].a == r.edges[f].a && r.edges[e].b == r.edges[f].b) ==> e == f)
  }

  ghost predicate KeysValid(r: Rows) {
    && (forall n, e {:trigger (n, e) in r.projected} :: (n, e) in r.projected ==> n in r.taxonomy && e in r.edges)
    && (forall c {:trigger r.assignment[c]} :: c in r.assignment ==> c in r.cards && r.assignment[c] in r.taxonomy)
    && (forall n {:trigger n in r.taxonomy} :: n in r.taxonomy ==> n < r.nextTaxonomyId)
    && (forall c {:trigger c in r.cards} :: c in r.cards ==> c < r.nextCardId)
  }

  ghost predicate TreeValid(t: Table) {
    t == map[] || exists root :: ValidTree(t, root)
  }

  ghost predicate Sound(r: Rows) {
    AdjacencyMirrors(r) && EdgesValid(r) && KeysValid(r) && TreeValid(r.taxonomy)
  }

  // ----- the index and its definition -----

  ghost predicate AssignedTo(r: Rows, card: int, n: int) {
    card in r.assignment && r.assignment[card] == n
  }

  /** Some card of the taxonomy node is an endpoint of the edge. */
  ghost predicate Touches(r: Rows, n: int, e: int)
    requires e in r.edges
  {
    AssignedTo(r, r.edges[e].a, n) || AssignedTo(r, r.edges[e].b, n)
  }

  ghost predicate IndexAt(r: Rows, n: int, e: int) {
    (n, e) in r.projected <==> e in r.edges && Touches(r, n, e)
  }

  /** Every scope's stored edges are exactly the edges touching its cards. */
  ghost predicate IndexAgrees(r: Rows) {
    forall n, e {:trigger IndexAt(r, n, e)} :: Scope(r.taxonomy, n) ==> IndexAt(r, n, e)
  }

  function ProjectedEdges(r: Rows, n: int): set<int> {
    set p | p in r.projected && p.0 == n :: p.1
  }

  ghost function EdgesTouching(r: Rows, n: int): set<int> {
    set e | e in r.edges && Touches(r, n, e)
  }

  lemma ProjectedHas(r: Rows, n: int, e: int)
    ensures e in ProjectedEdges(r, n) <==> (n, e) in r.projected
  {
    if (n, e) in r.projected {
      assert (n, e).0 == n && (n, e).1 == e;
    }
  }

  /** The agreement, said of the stored sets. */
  lemma IndexIsDefinition(r: Rows, n: int)
    requires IndexAgrees(r) && Scope(r.taxonomy, n)
    ensures ProjectedEdges(r, n) == EdgesTouching(r, n)
  {
    forall e ensures e in ProjectedEdges(r, n) <==> e in EdgesTouching(r, n) {
      assert IndexAt(r, n, e);
      ProjectedHas(r, n, e);
    }
  }

  // ----- the service calls, on table values -----

  /** `list_scope_identities_for_node_ids` for one card. */
  ghost function ScopeOfCard(r: Rows, card: int): Option<int> {
    if card in r.assignment && Scope(r.taxonomy, r.assignment[card]) then Some(r.assignment[card]) else None
  }

  /** `fetch_adjacent_edge_ids_for_node_ids` */
  function AdjacentEdges(r: Rows, cards: set<int>): set<int> {
    set p | p in r.adjacency && p.0 in cards :: p.1
  }

  lemma AdjacentHas(r: Rows, n: int, e: int)
    requires AdjacencyMirrors(r)
    ensures e in AdjacentEdges(r, CardsOf(r.assignment, n)) <==> e in r.edges && Touches(r, n, e)
  {
    if e in r.edges && Touches(r, n, e) {
      var c := if AssignedTo(r, r.edges[e].a, n) then r.edges[e].a else r.edges[e].b;
      var p := (c, e);
      assert p in r.adjacency && p.0 in CardsOf(r.assignment, n) && p.1 == e;
    }
    if e in AdjacentEdges(r, CardsOf(r.assignment, n)) {
      var p :| p in r.adjacency && p.0 in CardsOf(r.assignment, n) && p.1 == e;
      var c := p.0;
      assert p == (c, e);
      assert e in r.edges && IsEndpoint(r.edges[e], c);
      assert AssignedTo(r, c, n);
    }
  }

  /** `_refresh_card_scope_projection`: clear the scope, then add its adjacent edges. */
  ghost function Refreshed(r: Rows, n: int): Rows {
    AddProjected(ClearProjected(r, n), n, AdjacentEdges(r, CardsOf(r.assignment, n)))
  }

  ghost function RefreshedAll(r: Rows, scopes: seq<int>): Rows
    decreases scopes
  {
    if scopes == [] then r else RefreshedAll(Refreshed(r, scopes[0]), scopes[1..])
  }

  ghost function AddedToAll(r: Rows, scopes: seq<int>, edge: int): Rows
    decreases scopes
  {
    if scopes == [] then r else AddedToAll(AddProjected(r, scopes[0], {edge}), scopes[1..], edge)
  }

  function Present(first: Option<int>, second: Option<int>): seq<int> {
    (if first.Some? then [first.value] else []) + (if second.Some? then [second.value] else [])
  }

  /** Refreshing scopes writes the definition into those scopes and leaves all others alone. */
  lemma {:induction false} RefreshedAllAt(r: Rows, scopes: seq<int>, n: int, e: int)
    ensures var after := RefreshedAll(r, scopes);
            && after == r.(projected := after.projected)
            && ((n, e) in after.projected <==>
                if n in scopes then e in AdjacentEdges(r, CardsOf(r.assignment, n)) else (n, e) in r.projected)
    decreases scopes
  {
    if scopes != [] {
      var once := Refreshed(r, scopes[0]);
      RefreshedAllAt(once, scopes[1..], n, e);
      assert scopes == [scopes[0]] + scopes[1..];
      assert AdjacentEdges(once, CardsOf(once.assignment, n)) == AdjacentEdges(r, CardsOf(r.assignment, n));
      assert (n, e).0 == n && (n, e).1 == e;
    }
  }

  lemma {:induction false} AddedToAllAt(r: Rows, scopes: seq<int>, edge: int, n: int, e: int)
    ensures var after := AddedToAll(r, scopes, edge);
            && after == r.(projected := after.projected)
            && ((n, e) in after.projected <==> (n, e) in r.projected || (n in scopes && e == edge))
    decreases scopes
  {
    if scopes != [] {
      AddedToAllAt(AddProjected(r, scopes[0], {edge}), scopes[1..], edge, n, e);
      assert scopes == [scopes[0]] + scopes[1..];
    }
  }

  // ----- reassignment -----

  /** `set_current_assignment` of the service, with its projection port present. */
  ghost function Reassigned(r: Rows, card: int, n: int): Outcome<Rows, StoreError> {
    match Assign(r, card, n)
    case Raised(e) => Raised(e)
    case Ok(moved) =>
      Ok(RefreshedAll(moved, SortedDistinct(Present(ScopeOfCard(r, card), ScopeOfCard(moved, card)))))
  }

  /** `after` is `moved` with the given scopes refreshed. */
  ghost predicate Refreshes(moved: Rows, after: Rows, scopes: seq<int>) {
    && after == moved.(projected := after.projected)
    && forall m, e {:trigger (m, e) in after.projected} ::
         (m, e) in after.projected <==>
         if m in scopes then e in AdjacentEdges(moved, CardsOf(moved.assignment, m)) else (m, e) in moved.projected
  }

  /** The scopes a move leaves and enters. */
  ghost function MoveScopes(r: Rows, moved: Rows, card: int): seq<int> {
    Present(ScopeOfCard(r, card), ScopeOfCard(moved, card))
  }

  lemma ReassignRefreshes(r: Rows, card: int, n: int)
    requires Assign(r, card, n).Ok?
    ensures Reassigned(r, card, n).Ok?
    ensures var moved := Assign(r, card, n).value; Refreshes(moved, Reassigned(r, card, n).value, MoveScopes(r, moved, card))
  {
    var moved := Assign(r, card, n).value;
    var both := MoveScopes(r, moved, card);
    SortedDistinctKeepsElements(both);
    RefreshedAllAt(moved, SortedDistinct(both), 0, 0);
    var after := Reassigned(r, card, n).value;
    forall m, e ensures (m, e) in after.projected <==>
                        if m in both then e in AdjacentEdges(moved, CardsOf(moved.assignment, m)) else (m, e) in moved.projected
    {
      RefreshedAllAt(moved, SortedDistinct(both), m, e);
    }
  }

  lemma RefreshSound(moved: Rows, after: Rows, scopes: seq<int>)
    requires Sound(moved) && Refreshes(moved, after, scopes)
    requires forall m :: m in scopes ==> m in moved.taxonomy
    ensures Sound(after)
  {
    forall m, e | (m, e) in after.projected ensures m in after.taxonomy && e in after.edges {
      if m in scopes {
        AdjacentHas(moved, m, e);
      } else {
        assert (m, e) in moved.projected;
      }
    }
  }

  lemma MoveSound(r: Rows, card: int, n: int)
    requires Sound(r) && Assign(r, card, n).Ok?
    ensures Sound(Assign(r, card, n).value)
    ensures forall m :: m in MoveScopes(r, Assign(r, card, n).value, card) ==> m in r.taxonomy
  {
  }

  lemma ReassignSound(r: Rows, card: int, n: int)
    requires Sound(r) && Reassigned(r, card, n).Ok?
    ensures Sound(Reassigned(r, card, n).value)
  {
    var moved := Assign(r, card, n).value;
    MoveSound(r, card, n);
    ReassignRefreshes(r, card, n);
    RefreshSound(moved, Reassigned(r, card, n).value, MoveScopes(r, moved, card));
  }

  lemma RefreshIndexAt(r: Rows, moved: Rows, after: Rows, card: int, m: int, e: int)
    requires AdjacencyMirrors(moved) && IndexAgrees(r) && Refreshes(moved, after, MoveScopes(r, moved, card))
    requires moved == r.(assignment := moved.assignment) && Scope(r.taxonomy, m)
    requires card in moved.assignment && moved.assignment == r.assignment[card := moved.assignment[card]]
    ensures IndexAt(after, m, e)
  {
    if m in MoveScopes(r, moved, card) {
      AdjacentHas(moved, m, e);
    } else {
      UnmovedIndexAt(r, moved, card, m, e);
    }
  }

  /** A scope the card neither left nor entered. */
  lemma UnmovedIndexAt(r: Rows, moved: Rows, card: int, m: int, e: int)
    requires IndexAgrees(r) && Scope(r.taxonomy, m)
    requires moved == r.(assignment := moved.assignment)
    requires card in moved.assignment && moved.assignment == r.assignment[card := moved.assignment[card]]
    requires m !in MoveScopes(r, moved, card)
    ensures IndexAt(moved, m, e)
  {
    assert IndexAt(r, m, e);
    assert !AssignedTo(r, card, m) && !AssignedTo(moved, card, m);
  }

  lemma ReassignKeepsIndex(r: Rows, card: int, n: int)
    requires Sound(r) && IndexAgrees(r) && Reassigned(r, card, n).Ok?
    ensures IndexAgrees(Reassigned(r, card, n).value)
  {
    var moved := Assign(r, card, n).value;
    var after := Reassigned(r, card, n).value;
    MoveSound(r, card, n);
    ReassignRefreshes(r, card, n);
    forall m, e | Scope(after.taxonomy, m) ensures IndexAt(after, m, e) {
      RefreshIndexAt(r, moved, after, card, m, e);
    }
  }

  // ----- edge creation -----

  /** `_create_edge_with_projection` */
  ghost function EdgeCreated(r: Rows, source: int, related: int, strength: real): Outcome<Rows, StoreError> {
    match InsertEdge(r, source, related, strength)
    case Raised(e) => Raised(e)
    case Ok(linked) =>
      Ok(AddedToAll(linked, SortedDistinct(Present(ScopeOfCard(r, source), ScopeOfCard(r, related))), r.nextEdgeId))
  }

  lemma InsertEdgeSound(r: Rows, source: int, related: int, strength: real)
    requires Sound(r) && InsertEdge(r, source, related, strength).Ok?
    ensures Sound(InsertEdge(r, source, related, strength).value)
  {
    var after := InsertEdge(r, source, related, strength).value;
    var id := r.nextEdgeId;
    assert id !in r.edges;
    forall c, e ensures (c, e) in after.adjacency <==> e in after.edges && IsEndpoint(after.edges[e], c) {
      assert (c, e) in r.adjacency <==> e in r.edges && IsEndpoint(r.edges[e], c);
    }
  }

  /** `after` is `linked` with the edge added to the given scopes. */
  ghost predicate AddsRows(linked: Rows, after: Rows, scopes: seq<int>, edge: int) {
    && after == linked.(projected := after.projected)
    && forall m, e {:trigger (m, e) in after.projected} ::
         (m, e) in after.projected <==> (m, e) in linked.projected || (m in scopes && e == edge)
  }

  /** The scopes of the two endpoints. */
  ghost function EdgeScopes(r: Rows, source: int, related: int): seq<int> {
    Present(ScopeOfCard(r, source), ScopeOfCard(r, related))
  }

  lemma EdgeCreatedAdds(r: Rows, source: int, related: int, strength: real)
    requires InsertEdge(r, source, related, strength).Ok?
    ensures EdgeCreated(r, source, related, strength).Ok?
    ensures AddsRows(InsertEdge(r, source, related, strength).value, EdgeCreated(r, source, related, strength).value,
                     EdgeScopes(r, source, related), r.nextEdgeId)
  {
    var linked := InsertEdge(r, source, related, strength).value;
    var both := EdgeScopes(r, source, related);
    var after := AddedToAll(linked, SortedDistinct(both), r.nextEdgeId);
    SortedDistinctKeepsElements(both);
    AddedToAllAt(linked, SortedDistinct(both), r.nextEdgeId, 0, 0);
    forall m, e ensures (m, e) in after.projected <==> (m, e) in linked.projected || (m in both && e == r.nextEdgeId) {
      AddedToAllAt(linked, SortedDistinct(both), r.nextEdgeId, m, e);
    }
  }

  lemma AddRowsSound(linked: Rows, after: Rows, scopes: seq<int>, edge: int)
    requires Sound(linked) && AddsRows(linked, after, scopes, edge)
    requires edge in linked.edges && forall m :: m in scopes ==> m in linked.taxonomy
    ensures Sound(after)
  {
    forall m, e | (m, e) in after.projected ensures m in after.taxonomy && e in after.edges {
      assert (m, e) in linked.projected || (m in scopes && e == edge);
    }
  }

  lemma EdgeCreatedSound(r: Rows, source: int, related: int, strength: real)
    requires Sound(r) && EdgeCreated(r, source, related, strength).Ok?
    ensures Sound(EdgeCreated(r, source, related, strength).value)
  {
    var linked := InsertEdge(r, source, related, strength).value;
    InsertEdgeSound(r, source, related, strength);
    InsertedEdge(r, source, related, strength, linked);
    EdgeCreatedAdds(r, source, related, strength);
    AddRowsSound(linked, EdgeCreated(r, source, related, strength).value, EdgeScopes(r, source, related), r.nextEdgeId);
  }

  /** What a successful insert leaves besides adjacency. */
  lemma InsertedEdge(r: Rows, source: int, related: int, strength: real, linked: Rows)
    requires InsertEdge(r, source, related, strength) == Ok(linked)
    ensures linked.taxonomy == r.taxonomy && linked.assignment == r.assignment && linked.projected == r.projected
    ensures r.nextEdgeId in linked.edges && linked.edges == r.edges[r.nextEdgeId := linked.edges[r.nextEdgeId]]
    ensures forall c :: IsEndpoint(linked.edges[r.nextEdgeId], c) <==> c == source || c == related
    ensures forall m :: m in EdgeScopes(r, source, related) ==> m in r.taxonomy
  {
  }

  /** The call, seen from the tables after its insert. */
  lemma EdgeCreatedFrom(r: Rows, source: int, related: int, strength: real, linked: Rows)
    requires Sound(r) && InsertEdge(r, source, related, strength) == Ok(linked)
    ensures EdgeCreated(r, source, related, strength)
         == Ok(AddedToAll(linked, SortedDistinct(EdgeScopes(linked, source, related)), r.nextEdgeId))
    ensures Sound(linked) && Sound(EdgeCreated(r, source, related, strength).value)
  {
    InsertEdgeSound(r, source, related, strength);
    InsertedEdge(r, source, related, strength, linked);
    SameScopes(r, linked, source, related);
    EdgeCreatedAdds(r, source, related, strength);
    EdgeCreatedSound(r, source, related, strength);
  }

  lemma SameScopes(r: Rows, linked: Rows, source: int, related: int)
    requires linked.taxonomy == r.taxonomy && linked.assignment == r.assignment
    ensures EdgeScopes(linked, source, related) == EdgeScopes(r, source, related)
  {
  }

  lemma EdgeCreatedKeepsIndex(r: Rows, source: int, related: int, strength: real)
    requires Sound(r) && IndexAgrees(r) && EdgeCreated(r, source, related, strength).Ok?
    ensures IndexAgrees(EdgeCreated(r, source, related, strength).value)
  {
    var linked := InsertEdge(r, source, related, strength).value;
    var after := EdgeCreated(r, source, related, strength).value;
    InsertedEdge(r, source, related, strength, linked);
    EdgeCreatedAdds(r, source, related, strength);
    FreshEdge(r);
    forall m, e | Scope(after.taxonomy, m) ensures IndexAt(after, m, e) {
      AddRowsIndexAt(r, linked, after, source, related, m, e);
    }
  }

  lemma FreshEdge(r: Rows)
    requires EdgesValid(r)
    ensures r.nextEdgeId !in r.edges
  {
  }

  lemma AddRowsIndexAt(r: Rows, linked: Rows, after: Rows, source: int, related: int, m: int, e: int)
    requires IndexAgrees(r) && Scope(r.taxonomy, m) && r.nextEdgeId !in r.edges
    requires linked.assignment == r.assignment && linked.projected == r.projected
    requires r.nextEdgeId in linked.edges && linked.edges == r.edges[r.nextEdgeId := linked.edges[r.nextEdgeId]]
    requires forall c :: IsEndpoint(linked.edges[r.nextEdgeId], c) <==> c == source || c == related
    requires AddsRows(linked, after, EdgeScopes(r, source, related), r.nextEdgeId)
    ensures IndexAt(after, m, e)
  {
    assert IndexAt(r, m, e);
    if e == r.nextEdgeId {
      var edge := linked.edges[e];
      assert IsEndpoint(edge, edge.a) && IsEndpoint(edge, edge.b);
      assert IsEndpoint(edge, source) && IsEndpoint(edge, related);
      assert m in EdgeScopes(r, source, related) <==> AssignedTo(r, source, m) || AssignedTo(r, related, m);
    }
  }

  // ----- the root, and cards that start there -----

  ghost function RootOf(t: Table): Option<int> {
    if exists n :: n in t && t[n].parent == None then var n :| n in t && t[n].parent == None; Some(n) else None
  }

  lemma RootOfTree(t: Table, root: int)
    requires TreeShape(t, root)
    ensures RootOf(t) == Some(root)
  {
    assert t[root].parent == None;
  }

  /** `ensure_root` */
  ghost function WithRoot(r: Rows): Rows {
    if RootOf(r.taxonomy).Some? then r
    else match InsertTaxonomyNode(r, None, "Root", 0)
         case Ok(rooted) => rooted
         case Raised(_) => r
  }

  lemma WithRootHasTree(r: Rows)
    requires TreeValid(r.taxonomy)
    ensures var after := WithRoot(r);
            && RootOf(after.taxonomy).Some? && ValidTree(after.taxonomy, RootOf(after.taxonomy).value)
            && after == r.(taxonomy := after.taxonomy, nextTaxonomyId := after.nextTaxonomyId)
    ensures r.taxonomy == map[] || WithRoot(r) == r
    ensures r.taxonomy == map[] ==> WithRoot(r).taxonomy.Keys == {r.nextTaxonomyId} && WithRoot(r).nextTaxonomyId == r.nextTaxonomyId + 1
  {
    if r.taxonomy == map[] {
      RootHasSlug();
      SlugIsSegment("Root");
      RootOfTree(WithRoot(r).taxonomy, r.nextTaxonomyId);
    } else {
      var root :| ValidTree(r.taxonomy, root);
      RootOfTree(r.taxonomy, root);
    }
  }

  lemma RootHasSlug()
    ensures Slugify("Root").Some?
  {
    assert StripLeft("Root", IsSpace) == "Root" == StripRight("Root", IsSpace);
    assert Lower("Root") == "root";
    assert NextWord("root", 0) == 0;
    SlugIsWordsJoined("Root");
  }

  lemma WithRootSound(r: Rows)
    requires Sound(r)
    ensures Sound(WithRoot(r))
    ensures forall n :: Scope(WithRoot(r).taxonomy, n) <==> Scope(r.taxonomy, n)
  {
    WithRootHasTree(r);
    var after := WithRoot(r);
    var root := RootOf(after.taxonomy).value;
    assert after.taxonomy[root].parent == None;
    if r.taxonomy == map[] {
      assert root in after.taxonomy.Keys;
    }
  }

  lemma WithRootKeepsIndex(r: Rows)
    requires Sound(r) && IndexAgrees(r)
    ensures IndexAgrees(WithRoot(r))
  {
    WithRootHasTree(r);
    WithRootSound(r);
    var after := WithRoot(r);
    forall n, e | Scope(after.taxonomy, n) ensures IndexAt(after, n, e) {
      assert IndexAt(r, n, e);
    }
  }

  /** A new card goes to the root: `create_node`, then `assign_node_to_root` of the repository. */
  ghost function CardCreated(r: Rows): Outcome<Rows, StoreError> {
    var rooted := WithRoot(InsertCard(r));
    match RootOf(rooted.taxonomy)
    case None => Raised(MissingRow)
    case Some(root) => Assign(rooted, r.nextCardId, root)
  }

  lemma InsertCardSound(r: Rows)
    requires Sound(r)
    ensures Sound(InsertCard(r)) && r.nextCardId !in r.cards && r.nextCardId !in r.assignment
  {
  }

  lemma InsertCardKeepsIndex(r: Rows)
    requires Sound(r) && IndexAgrees(r)
    ensures IndexAgrees(InsertCard(r))
  {
    forall n, e | Scope(r.taxonomy, n) ensures IndexAt(InsertCard(r), n, e) {
      assert IndexAt(r, n, e);
    }
  }

  /** Assigning an unassigned card without edges to a node that is no scope disturbs nothing. */
  lemma AssignOffScope(r: Rows, card: int, n: int)
    requires Sound(r) && card in r.cards && n in r.taxonomy && card !in r.assignment
    requires forall e :: e in r.edges ==> !IsEndpoint(r.edges[e], card)
    ensures Sound(Assign(r, card, n).value)
    ensures IndexAgrees(r) ==> IndexAgrees(Assign(r, card, n).value)
  {
    var after := Assign(r, card, n).value;
    forall c, e ensures (c, e) in after.adjacency <==> e in after.edges && IsEndpoint(after.edges[e], c) {
    }
    if IndexAgrees(r) {
      forall m, e | Scope(after.taxonomy, m) ensures IndexAt(after, m, e) {
        assert IndexAt(r, m, e);
      }
    }
  }

  lemma CardCreatedKeeps(r: Rows)
    requires Sound(r)
    ensures CardCreated(r).Ok? && Sound(CardCreated(r).value)
    ensures IndexAgrees(r) ==> IndexAgrees(CardCreated(r).value)
  {
    var added := InsertCard(r);
    InsertCardSound(r);
    WithRootHasTree(added);
    WithRootSound(added);
    var rooted := WithRoot(added);
    var root := RootOf(rooted.taxonomy).value;
    forall e | e in rooted.edges ensures !IsEndpoint(rooted.edges[e], r.nextCardId) {
      assert r.edges[e].a in r.cards;
    }
    AssignOffScope(rooted, r.nextCardId, root);
    if IndexAgrees(r) {
      InsertCardKeepsIndex(r);
      WithRootKeepsIndex(added);
    }
  }

  /** `assign_node_to_root` of the service, with its projection port present. */
  ghost function RootAssigned(r: Rows, card: int): Outcome<Rows, StoreError> {
    var rooted := WithRoot(r);
    match RootOf(rooted.taxonomy)
    case None => Raised(MissingRow)
    case Some(root) =>
      match Assign(rooted, card, root)
      case Raised(e) => Raised(e)
      case Ok(moved) =>
        Ok(RefreshedAll(moved, SortedDistinct(Present(ScopeOfCard(r, card), ScopeOfCard(moved, card)))))
  }

  lemma RootAssignedKeeps(r: Rows, card: int)
    requires Sound(r) && RootAssigned(r, card).Ok?
    ensures Sound(RootAssigned(r, card).value)
    ensures IndexAgrees(r) ==> IndexAgrees(RootAssigned(r, card).value)
  {
    var rooted := WithRoot(r);
    WithRootHasTree(r);
    WithRootSound(r);
    var root := RootOf(rooted.taxonomy).value;
    assert ScopeOfCard(r, card) == ScopeOfCard(rooted, card);
    assert RootAssigned(r, card) == Reassigned(rooted, card, root);
    ReassignSound(rooted, card, root);
    if IndexAgrees(r) {
      WithRootKeepsIndex(r);
      ReassignKeepsIndex(rooted, card, root);
    }
  }

  // ----- growing the tree -----

  /** `create_regular_child` */
  function ChildCreated(r: Rows, parent: int, name: string): Outcome<Rows, StoreError> {
    if parent !in r.taxonomy then Raised(MissingRow)
    else if name == "Unclassified" then Raised(StoreError.ReservedName)
    else InsertTaxonomyNode(r, Some(parent), name, r.taxonomy[parent].depth + 1)
  }

  lemma ChildKeepsTree(t: Table, root: int, id: int, child: Node)
    requires ValidTree(t, root) && id !in t && child.id == id && IsSlug(child.slug)
    requires child.parent.Some? && child.parent.value in t && child.depth == t[child.parent.value].depth + 1
    requires !SiblingTaken(t, child.parent, child.slug)
    ensures ValidTree(t[id := child], root)
  {
    var t' := t[id := child];
    forall n | n in t' && n != root
      ensures t'[n].parent.Some? && t'[n].parent.value in t' && t'[n].depth == t'[t'[n].parent.value].depth + 1
    {
      if n != id {
        assert t[n].parent.Some?;
      }
    }
    forall a, b | a in t' && b in t' && a != b && t'[a].parent == t'[b].parent ensures t'[a].slug != t'[b].slug {
      if a == id {
        assert t[b].parent == child.parent;
      } else if b == id {
        assert t[a].parent == child.parent;
      }
    }
  }

  lemma ChildCreatedKeeps(r: Rows, parent: int, name: string)
    requires Sound(r) && ChildCreated(r, parent, name).Ok?
    ensures Sound(ChildCreated(r, parent, name).value)
    ensures IndexAgrees(r) ==> IndexAgrees(ChildCreated(r, parent, name).value)
  {
    var after := ChildCreated(r, parent, name).value;
    var id := r.nextTaxonomyId;
    var root :| ValidTree(r.taxonomy, root);
    assert id !in r.taxonomy;
    SlugIsSegment(name);
    ChildKeepsTree(r.taxonomy, root, id, after.taxonomy[id]);
    forall c, e ensures (c, e) in after.adjacency <==> e in after.edges && IsEndpoint(after.edges[e], c) {
    }
    if IndexAgrees(r) {
      forall n, e | Scope(after.taxonomy, n) ensures IndexAt(after, n, e) {
        ChildIndexAt(r, parent, name, n, e);
      }
    }
  }

  /** A new leaf has no cards and no rows; an old node is a scope only if it already was. */
  lemma ChildIndexAt(r: Rows, parent: int, name: string, n: int, e: int)
    requires Sound(r) && IndexAgrees(r) && ChildCreated(r, parent, name).Ok?
    requires Scope(ChildCreated(r, parent, name).value.taxonomy, n)
    ensures IndexAt(ChildCreated(r, parent, name).value, n, e)
  {
    var after := ChildCreated(r, parent, name).value;
    var id := r.nextTaxonomyId;
    if n == id {
      assert (n, e) !in r.projected;
      assert forall c :: c in r.assignment ==> r.assignment[c] != id;
    } else {
      forall c | c in r.taxonomy ensures r.taxonomy[c].parent != Some(n) {
        assert after.taxonomy[c].parent == r.taxonomy[c].parent;
      }
      assert IndexAt(r, n, e);
    }
  }

  // ----- rebuilding -----

  /** `rebuild_taxonomy_scope_projection_edges`: the definition, written out for every scope. */
  ghost function ProjectionRebuilt(r: Rows): Rows {
    r.(projected := set n, e | n in r.taxonomy && e in r.edges && Scope(r.taxonomy, n) && Touches(r, n, e) :: (n, e))
  }

  lemma RebuiltAt(r: Rows, n: int, e: int)
    ensures (n, e) in ProjectionRebuilt(r).projected <==>
            n in r.taxonomy && e in r.edges && Scope(r.taxonomy, n) && Touches(r, n, e)
  {
  }

  lemma ProjectionRebuiltKeeps(r: Rows)
    requires Sound(r)
    ensures Sound(ProjectionRebuilt(r)) && IndexAgrees(ProjectionRebuilt(r))
  {
    var after := ProjectionRebuilt(r);
    forall n, e ensures (n, e) in after.projected ==> n in after.taxonomy && e in after.edges
      ensures Scope(after.taxonomy, n) ==> IndexAt(after, n, e)
    {
      RebuiltAt(r, n, e);
    }
    forall c, e ensures (c, e) in after.adjacency <==> e in after.edges && IsEndpoint(after.edges[e], c) {
    }
  }

  /** The operator's edge rebuild: replace all edges, then rebuild the index, in one transaction. */
  ghost function EdgesRebuilt(r: Rows, plans: seq<PlannedEdge>): Outcome<Rows, StoreError> {
    match InsertAllPlanned(ClearEdges(r), plans)
    case Raised(e) => Raised(e)
    case Ok(replaced) => Ok(ProjectionRebuilt(replaced))
  }

  lemma ClearEdgesSound(r: Rows)
    requires Sound(r)
    ensures Sound(ClearEdges(r))
  {
  }

  lemma InsertPlannedSound(r: Rows, plan: PlannedEdge)
    requires Sound(r) && InsertPlanned(r, plan).Ok?
    ensures Sound(InsertPlanned(r, plan).value)
  {
    var after := InsertPlanned(r, plan).value;
    assert r.nextEdgeId !in r.edges;
    forall c, e ensures (c, e) in after.adjacency <==> e in after.edges && IsEndpoint(after.edges[e], c) {
      assert (c, e) in r.adjacency <==> e in r.edges && IsEndpoint(r.edges[e], c);
    }
  }

  lemma {:induction false} InsertAllPlannedSound(r: Rows, plans: seq<PlannedEdge>)
    requires Sound(r) && InsertAllPlanned(r, plans).Ok?
    ensures Sound(InsertAllPlanned(r, plans).value)
  {
    if plans != [] {
      InsertAllPlannedSound(r, plans[..|plans| - 1]);
      InsertPlannedSound(InsertAllPlanned(r, plans[..|plans| - 1]).value, plans[|plans| - 1]);
    }
  }

  lemma EdgesRebuiltKeeps(r: Rows, plans: seq<PlannedEdge>)
    requires Sound(r) && EdgesRebuilt(r, plans).Ok?
    ensures Sound(EdgesRebuilt(r, plans).value) && IndexAgrees(EdgesRebuilt(r, plans).value)
  {
    ClearEdgesSound(r);
    InsertAllPlannedSound(ClearEdges(r), plans);
    ProjectionRebuiltKeeps(InsertAllPlanned(ClearEdges(r), plans).value);
  }

  /** The root backfill: unassigned cards go to the root, then the index is rebuilt. */
  ghost function Backfilled(r: Rows): Outcome<Rows, StoreError> {
    var rooted := WithRoot(r);
    match RootOf(rooted.taxonomy)
    case None => Raised(MissingRow)
    case Some(root) =>
      Ok(ProjectionRebuilt(rooted.(assignment := (map c | c in rooted.cards :: root) + rooted.assignment)))
  }

  lemma BackfilledKeeps(r: Rows)
    requires Sound(r)
    ensures Backfilled(r).Ok? && Sound(Backfilled(r).value) && IndexAgrees(Backfilled(r).value)
  {
    WithRootHasTree(r);
    WithRootSound(r);
    var rooted := WithRoot(r);
    var root := RootOf(rooted.taxonomy).value;
    var filled := rooted.(assignment := (map c | c in rooted.cards :: root) + rooted.assignment);
    forall c, e ensures (c, e) in filled.adjacency <==> e in filled.edges && IsEndpoint(filled.edges[e], c) {
    }
    assert Sound(filled);
    ProjectionRebuiltKeeps(filled);
  }

  /**
   Why the agreement is stated for scopes only: a node that has gained a child, or is the root,
   receives no row for a new edge, even when the edge touches one of its cards.
   */
  lemma NonScopeMissesNewEdge(r: Rows, source: int, related: int, strength: real, n: int)
    requires Sound(r) && EdgeCreated(r, source, related, strength).Ok?
    requires !Scope(r.taxonomy, n) && AssignedTo(r, source, n)
    ensures !IndexAt(EdgeCreated(r, source, related, strength).value, n, r.nextEdgeId)
  {
    var linked := InsertEdge(r, source, related, strength).value;
    InsertedEdge(r, source, related, strength, linked);
    EdgeCreatedAdds(r, source, related, strength);
    FreshEdge(r);
    MissedRow(r, linked, EdgeCreated(r, source, related, strength).value, source, related, n);
  }

  lemma MissedRow(r: Rows, linked: Rows, after: Rows, source: int, related: int, n: int)
    requires KeysValid(r) && r.nextEdgeId !in r.edges && !Scope(r.taxonomy, n) && AssignedTo(r, source, n)
    requires linked.assignment == r.assignment && linked.projected == r.projected && r.nextEdgeId in linked.edges
    requires IsEndpoint(linked.edges[r.nextEdgeId], source)
    requires AddsRows(linked, after, EdgeScopes(r, source, related), r.nextEdgeId)
    ensures !IndexAt(after, n, r.nextEdgeId)
  {
    assert n !in EdgeScopes(r, source, related);
    assert (n, r.nextEdgeId) !in r.projected;
  }

  /** Importing a taxonomy document leaves the index alone: it goes into an empty tree, so no card is assigned yet. */
  lemma DocumentImportedKeeps(r: Rows, document: TaxonomyImport.Yaml)
    requires Sound(r) && IndexAgrees(r)
    ensures var after := TaxonomyImport.DocumentImported(r, document); Sound(after) && IndexAgrees(after)
  {
    if TaxonomyImport.Importable(r, document) {
      TaxonomyImport.DocumentSpells(r, document);
      TreeReplaced(r, TaxonomyImport.DocumentImported(r, document));
    }
  }

  lemma RowsNameNodes(r: Rows)
    requires KeysValid(r)
    ensures forall p :: p in r.projected ==> p.0 in r.taxonomy
    ensures forall c {:trigger c in r.assignment} :: c in r.assignment ==> r.assignment[c] in r.taxonomy
  {
    forall p | p in r.projected ensures p.0 in r.taxonomy {
      var n, e := p.0, p.1;
      assert (n, e) == p && (n, e) in r.projected;
    }
  }

  lemma TreeReplaced(r: Rows, after: Rows)
    requires Sound(r) && r.taxonomy == map[]
    requires TreeValid(after.taxonomy) && forall n :: n in after.taxonomy ==> n < after.nextTaxonomyId
    requires TaxonomyImport.OnlyTaxonomyChanged(r, after)
    ensures Sound(after) && IndexAgrees(after)
  {
    RowsNameNodes(r);
    assert forall c :: c !in r.assignment;
    assert forall n, e :: (n, e) !in r.projected;
    forall c, e ensures (c, e) in after.adjacency <==> e in after.edges && IsEndpoint(after.edges[e], c) {
      assert (c, e) in r.adjacency <==> e in r.edges && IsEndpoint(r.edges[e], c);
    }
  }

  // ----- every run -----

  datatype Call =
    | ImportDocument(document: TaxonomyImport.Yaml)
    | CreateCard
    | CreateEdge(source: int, related: int, strength: real)
    | Reassign(card: int, node: int)
    | AssignToRoot(card: int)
    | CreateChild(parent: int, name: string)
    | RebuildProjection
    | RebuildEdges(plans: seq<PlannedEdge>)
    | BackfillRoot

  /** What a call does to the tables; a call that raises is rolled back. */
  ghost function Apply(r: Rows, call: Call): Rows {
    var outcome :=
      match call
      case ImportDocument(document) => Ok(TaxonomyImport.DocumentImported(r, document))
      case CreateCard => CardCreated(r)
      case CreateEdge(source, related, strength) => EdgeCreated(r, source, related, strength)
      case Reassign(card, node) => Reassigned(r, card, node)
      case AssignToRoot(card) => RootAssigned(r, card)
      case CreateChild(parent, name) => ChildCreated(r, parent, name)
      case RebuildProjection => Ok(ProjectionRebuilt(r))
      case RebuildEdges(plans) => EdgesRebuilt(r, plans)
      case BackfillRoot => Backfilled(r);
    if outcome.Ok? then outcome.value else r
  }

  ghost function Run(r: Rows, calls: seq<Call>): Rows {
    if calls == [] then r else Apply(Run(r, calls[..|calls| - 1]), calls[|calls| - 1])
  }

  lemma ApplyKeeps(r: Rows, call: Call)
    requires Sound(r) && IndexAgrees(r)
    ensures Sound(Apply(r, call)) && IndexAgrees(Apply(r, call))
  {
    match call
    case ImportDocument(document) => DocumentImportedKeeps(r, document);
    case CreateCard => CardCreatedKeeps(r);
    case CreateEdge(source, related, strength) =>
      if EdgeCreated(r, source, related, strength).Ok? {
        EdgeCreatedSound(r, source, related, strength);
        EdgeCreatedKeepsIndex(r, source, related, strength);
      }
    case Reassign(card, node) =>
      if Reassigned(r, card, node).Ok? {
        ReassignSound(r, card, node);
        ReassignKeepsIndex(r, card, node);
      }
    case AssignToRoot(card) =>
      if RootAssigned(r, card).Ok? {
        RootAssignedKeeps(r, card);
      }
    case CreateChild(parent, name) =>
      if ChildCreated(r, parent, name).Ok? {
        ChildCreatedKeeps(r, parent, name);
      }
    case RebuildProjection => ProjectionRebuiltKeeps(r);
    case RebuildEdges(plans) =>
      if EdgesRebuilt(r, plans).Ok? {
        EdgesRebuiltKeeps(r, plans);
      }
    case BackfillRoot => BackfilledKeeps(r);
  }

  /** From any sound state whose index agrees, every run of calls keeps both. */
  lemma {:induction false} RunKeeps(r: Rows, calls: seq<Call>)
    requires Sound(r) && IndexAgrees(r)
    ensures Sound(Run(r, calls)) && IndexAgrees(Run(r, calls))
  {
    if calls != [] {
      RunKeeps(r, calls[..|calls| - 1]);
      ApplyKeeps(Run(r, calls[..|calls| - 1]), calls[|calls| - 1]);
    }
  }

  /**
   In every run from empty tables, each scope's stored edges are exactly the edges touching its
   cards, and a rebuild from scratch would store the same.
   */
  lemma IncrementalEqualsRebuild(calls: seq<Call>, n: int)
    requires Scope(Run(EmptyRows, calls).taxonomy, n)
    ensures var r := Run(EmptyRows, calls);
            ProjectedEdges(r, n) == EdgesTouching(r, n) == ProjectedEdges(ProjectionRebuilt(r), n)
  {
    assert Sound(EmptyRows) && IndexAgrees(EmptyRows);
    RunKeeps(EmptyRows, calls);
    var r := Run(EmptyRows, calls);
    IndexIsDefinition(r, n);
    ProjectionRebuiltKeeps(r);
    IndexIsDefinition(ProjectionRebuilt(r), n);
    forall e ensures e in EdgesTouching(ProjectionRebuilt(r), n) <==> e in EdgesTouching(r, n) {
    }
  }
}
