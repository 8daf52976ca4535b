/**
 Where cards are: what a reassignment moves and what it leaves, the place of every card after every
 run, and how a moved card's edges follow it from one scope's index to the other's.
 */
module Placement {
  import opened Common
  import opened RoutePath
  import opened ScopeProjection
  import opened Sorting
  import opened Store
  import TaxonomyImport
  import opened TaxonomyTree

  /** The card is on the node, every other card is where it was, and no other table but the index differs. */
  ghost predicate Moves(r: Rows, after: Rows, card: int, n: int) {
    && after == r.(assignment := after.assignment, projected := after.projected)
    && Get(after.assignment, card) == Some(n)
    && forall c :: c != card ==> Get(after.assignment, c) == Get(r.assignment, c)
  }

  lemma RefreshLeavesTables(r: Rows, scopes: seq<int>)
    ensures RefreshedAll(r, scopes) == r.(projected := RefreshedAll(r, scopes).projected)
  {
    RefreshedAllAt(r, scopes, 0, 0);
  }

  /** A reassignment succeeds exactly for a card and a node that exist, and then moves that card there. */
  lemma ReassignMoves(r: Rows, card: int, n: int)
    ensures Reassigned(r, card, n).Ok? <==> card in r.cards && n in r.taxonomy
    ensures Reassigned(r, card, n).Ok? ==> Moves(r, Reassigned(r, card, n).value, card, n)
  {
    if Assign(r, card, n).Ok? {
      var moved := Assign(r, card, n).value;
      RefreshLeavesTables(moved, SortedDistinct(Present(ScopeOfCard(r, card), ScopeOfCard(moved, card))));
    }
  }

  /** The parentless row, or the id it will have. */
  ghost function RootNode(r: Rows): int {
    if RootOf(r.taxonomy).Some? then RootOf(r.taxonomy).value else r.nextTaxonomyId
  }

  /** The tables with a root: as they were, or with one first row. */
  ghost predicate Rooted(r: Rows, rooted: Rows) {
    if RootOf(r.taxonomy).Some? then rooted == r
    else rooted == r.(taxonomy := map[RootNode(r) := Node(RootNode(r), None, "Root", "root", 0)], nextTaxonomyId := r.nextTaxonomyId + 1)
  }

  lemma RootIsMade(r: Rows)
    requires TreeValid(r.taxonomy)
    ensures Rooted(r, WithRoot(r)) && RootOf(WithRoot(r).taxonomy) == Some(RootNode(r))
    ensures RootNode(r) in WithRoot(r).taxonomy && WithRoot(r).taxonomy[RootNode(r)].parent == None
  {
    TaxonomyImport.RootSlug();
    if r.taxonomy != map[] {
      var root :| ValidTree(r.taxonomy, root);
      RootOfTree(r.taxonomy, root);
    } else {
      WithRootHasTree(r);
      assert WithRoot(r).taxonomy == map[r.nextTaxonomyId := Node(r.nextTaxonomyId, None, "Root", "root", 0)];
      RootOfTree(WithRoot(r).taxonomy, r.nextTaxonomyId);
    }
  }

  /** Assigning to the root succeeds exactly for a card that exists, makes a missing root, and moves the card there. */
  lemma RootAssignedMoves(r: Rows, card: int)
    requires Sound(r)
    ensures RootAssigned(r, card).Ok? <==> card in r.cards
    ensures RootAssigned(r, card).Ok? ==>
              Rooted(r, WithRoot(r)) && Moves(WithRoot(r), RootAssigned(r, card).value, card, RootNode(r))
  {
    RootIsMade(r);
    var rooted := WithRoot(r);
    if card in r.cards {
      var moved := Assign(rooted, card, RootNode(r)).value;
      RefreshLeavesTables(moved, SortedDistinct(Present(ScopeOfCard(r, card), ScopeOfCard(moved, card))));
    }
  }

  /** The backfill puts every card without a place on the root, and leaves every other card where it is. */
  lemma BackfillFills(r: Rows, card: int)
    requires Sound(r)
    ensures Backfilled(r).Ok?
    ensures var after := Backfilled(r).value;
            && Rooted(r, WithRoot(r)) && after == WithRoot(r).(assignment := after.assignment, projected := after.projected)
            && (card in r.cards && card !in r.assignment ==> Get(after.assignment, card) == Some(RootNode(r)))
            && (card !in r.cards || card in r.assignment ==> Get(after.assignment, card) == Get(r.assignment, card))
  {
    RootIsMade(r);
  }

  /** A child is created exactly for a parent that exists, a name with a slug that is not the reserved one, and no sibling of that slug. */
  lemma ChildIsCreated(r: Rows, parent: int, name: string)
    ensures ChildCreated(r, parent, name).Ok? <==>
            && parent in r.taxonomy && name != "Unclassified" && Slugify(name).Some?
            && forall n :: n in r.taxonomy && r.taxonomy[n].parent == Some(parent) ==> Some(r.taxonomy[n].slug) != Slugify(name)
    ensures ChildCreated(r, parent, name).Ok? ==>
            var after := ChildCreated(r, parent, name).value;
            && after == r.(taxonomy := after.taxonomy, nextTaxonomyId := r.nextTaxonomyId + 1)
            && after.taxonomy == r.taxonomy[r.nextTaxonomyId :=
                 Node(r.nextTaxonomyId, Some(parent), name, Slugify(name).value, r.taxonomy[parent].depth + 1)]
  {
  }

  /** A new card is stored with the next id and put on the root; no other card moves, and no edge or index row is touched. */
  lemma NewCardIsPlaced(r: Rows, other: int)
    requires Sound(r)
    ensures CardCreated(r).Ok?
    ensures var after := CardCreated(r).value;
            && Rooted(r, WithRoot(r)) && r.nextCardId !in r.cards
            && after == WithRoot(r).(cards := r.cards + {r.nextCardId}, nextCardId := r.nextCardId + 1, assignment := after.assignment)
            && Get(after.assignment, r.nextCardId) == Some(RootNode(r))
            && (other != r.nextCardId ==> Get(after.assignment, other) == Get(r.assignment, other))
  {
    InsertCardSound(r);
    RootIsMade(InsertCard(r));
    RootIsMade(r);
  }

  // ----- the place of every card after every run -----

  /** The node a call puts the card on, if it succeeds and concerns the card. */
  ghost function PlacedBy(r: Rows, call: Call, card: int): Option<int> {
    match call
    case CreateCard => if card == r.nextCardId then Some(RootNode(r)) else None
    case Reassign(c, n) => if c == card && card in r.cards && n in r.taxonomy then Some(n) else None
    case AssignToRoot(c) => if c == card && card in r.cards then Some(RootNode(r)) else None
    case BackfillRoot => if card in r.cards && card !in r.assignment then Some(RootNode(r)) else None
    case _ => None
  }

  /** The last of the calls that placed the card, and where. */
  ghost function LastPlace(calls: seq<Call>, card: int): Option<int> {
    if calls == [] then None
    else
      var front := calls[..|calls| - 1];
      var placed := PlacedBy(Run(EmptyRows, front), calls[|calls| - 1], card);
      if placed.Some? then placed else LastPlace(front, card)
  }

  ghost predicate PlaceNext(r: Rows, after: Rows, placed: Option<int>, card: int) {
    Get(after.assignment, card) == if placed.Some? then placed else Get(r.assignment, card)
  }

  lemma CreatePlaces(r: Rows, card: int)
    requires Sound(r)
    ensures PlaceNext(r, Apply(r, CreateCard), PlacedBy(r, CreateCard, card), card)
  {
    InsertCardSound(r);
    RootIsMade(InsertCard(r));
    assert RootNode(InsertCard(r)) == RootNode(r);
  }

  lemma BackfillPlaces(r: Rows, card: int)
    requires Sound(r)
    ensures PlaceNext(r, Apply(r, BackfillRoot), PlacedBy(r, BackfillRoot, card), card)
  {
    RootIsMade(r);
  }

  lemma EdgeLeavesPlaces(r: Rows, source: int, related: int, strength: real)
    ensures Apply(r, CreateEdge(source, related, strength)).assignment == r.assignment
  {
    if EdgeCreated(r, source, related, strength).Ok? {
      var linked := InsertEdge(r, source, related, strength).value;
      AddedToAllAt(linked, SortedDistinct(EdgeScopes(r, source, related)), r.nextEdgeId, 0, 0);
    }
  }

  lemma {:induction false} PlansLeavePlaces(r: Rows, plans: seq<PlannedEdge>)
    requires InsertAllPlanned(r, plans).Ok?
    ensures InsertAllPlanned(r, plans).value.assignment == r.assignment
  {
    if plans != [] {
      PlansLeavePlaces(r, plans[..|plans| - 1]);
    }
  }

  lemma ImportLeavesPlaces(r: Rows, document: TaxonomyImport.Yaml)
    ensures TaxonomyImport.DocumentImported(r, document).assignment == r.assignment
  {
    if TaxonomyImport.Importable(r, document) {
      TaxonomyImport.DocumentSpells(r, document);
    }
  }

  lemma ApplyPlaces(r: Rows, call: Call, card: int)
    requires Sound(r)
    ensures PlaceNext(r, Apply(r, call), PlacedBy(r, call, card), card)
  {
    match call
    case CreateCard => CreatePlaces(r, card);
    case Reassign(c, n) => ReassignMoves(r, c, n);
    case AssignToRoot(c) => RootAssignedMoves(r, c);
    case BackfillRoot => BackfillPlaces(r, card);
    case ImportDocument(document) => ImportLeavesPlaces(r, document);
    case CreateEdge(source, related, strength) => EdgeLeavesPlaces(r, source, related, strength);
    case RebuildEdges(plans) =>
      if EdgesRebuilt(r, plans).Ok? {
        PlansLeavePlaces(ClearEdges(r), plans);
      }
    case CreateChild(_, _) =>
    case RebuildProjection =>
  }

  /** In every run a card is on the node the last call that placed it put it on, and on none if no call did. */
  lemma {:induction false} CardsAreWherePlaced(calls: seq<Call>, card: int)
    ensures Get(Run(EmptyRows, calls).assignment, card) == LastPlace(calls, card)
  {
    if calls != [] {
      var front := calls[..|calls| - 1];
      CardsAreWherePlaced(front, card);
      assert Sound(EmptyRows) && IndexAgrees(EmptyRows);
      RunKeeps(EmptyRows, front);
      ApplyPlaces(Run(EmptyRows, front), calls[|calls| - 1], card);
    }
  }

  // ----- edges follow their cards -----

  /** The other end of an edge. */
  function OtherEnd(edge: Edge, card: int): int {
    if edge.a == card then edge.b else edge.a
  }

  lemma StoredIsTouching(r: Rows, m: int, e: int)
    requires IndexAgrees(r) && Scope(r.taxonomy, m)
    ensures e in ProjectedEdges(r, m) <==> e in r.edges && Touches(r, m, e)
  {
    assert IndexAt(r, m, e);
    ProjectedHas(r, m, e);
  }

  lemma TouchesAfterMove(r: Rows, after: Rows, card: int, n: int, m: int, e: int)
    requires Moves(r, after, card, n) && e in r.edges && r.edges[e].a != r.edges[e].b
    ensures IsEndpoint(r.edges[e], card) ==>
              (Touches(after, m, e) <==> m == n || AssignedTo(r, OtherEnd(r.edges[e], card), m))
    ensures !IsEndpoint(r.edges[e], card) ==> (Touches(after, m, e) <==> Touches(r, m, e))
  {
    var a, b := r.edges[e].a, r.edges[e].b;
    forall c | c == a || c == b
      ensures AssignedTo(after, c, m) <==> if c == card then m == n else AssignedTo(r, c, m)
    {
      assert c != card ==> Get(after.assignment, c) == Get(r.assignment, c);
    }
  }

  /**
   After a move each edge of the card is stored for the scope entered, and is stored for any other
   scope, the one left included, exactly when its other end is there; edges of other cards stay as
   they were.
   */
  lemma EdgesFollowTheCard(r: Rows, card: int, n: int, m: int, e: int)
    requires Sound(r) && IndexAgrees(r) && card in r.cards && n in r.taxonomy
    requires Scope(r.taxonomy, m) && e in r.edges
    ensures var after := Reassigned(r, card, n).value;
            if !IsEndpoint(r.edges[e], card) then e in ProjectedEdges(after, m) <==> e in ProjectedEdges(r, m)
            else e in ProjectedEdges(after, m) <==> m == n || AssignedTo(r, OtherEnd(r.edges[e], card), m)
  {
    var after := Reassigned(r, card, n).value;
    ReassignMoves(r, card, n);
    ReassignKeepsIndex(r, card, n);
    StoredIsTouching(after, m, e);
    StoredIsTouching(r, m, e);
    TouchesAfterMove(r, after, card, n, m, e);
  }
}
