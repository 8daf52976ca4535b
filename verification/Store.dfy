/**
 The tables the services share, as one database session sees them. Every insert either adds its
 rows or raises what the table constraints raise; identifiers come from increasing sequences.
 */
module Store {
  import opened Common
  import opened RoutePath
  import opened TaxonomyTree

  datatype Edge = Edge(a: int, b: int, strength: real)

  datatype StoreError = SelfLoop | MissingRow | DuplicateRow | BadStrength | BadPair | BadSlug | ReservedName

  /** One edge of a rebuild plan. */
  datatype PlannedEdge = PlannedEdge(source: int, related: int, strength: real)

  /** All tables at one moment: what commit keeps and rollback restores. */
  datatype Rows = Rows(
    taxonomy: Table,             // taxonomy_nodes
    nextTaxonomyId: int,
    cards: set<int>,             // nodes
    nextCardId: int,
    assignment: map<int, int>,   // node_taxonomy_assignments: card to taxonomy node
    edges: map<int, Edge>,       // edges
    nextEdgeId: int,
    adjacency: set<(int, int)>,  // adjacency: (card, edge)
    projected: set<(int, int)>)  // taxonomy_scope_projection_edges: (taxonomy node, edge)

  const EmptyRows := Rows(map[], 1, {}, 1, map[], map[], 1, {}, {})

  /** `create_taxonomy_node`, with the foreign key and the two uniqueness rules of its table. */
  function InsertTaxonomyNode(rows: Rows, parent: Option<int>, name: string, depth: nat): Outcome<Rows, StoreError> {
    match Slugify(name)
    case None => Raised(BadSlug)
    case Some(slug) =>
      if parent.Some? && parent.value !in rows.taxonomy then Raised(MissingRow)
      else if SiblingTaken(rows.taxonomy, parent, slug) then Raised(DuplicateRow)
      else
        var id := rows.nextTaxonomyId;
        Ok(rows.(taxonomy := rows.taxonomy[id := Node(id, parent, name, slug, depth)], nextTaxonomyId := id + 1))
  }

  /** A second root, or a sibling with the same slug; equal names have equal slugs. */
  predicate SiblingTaken(t: Table, parent: Option<int>, slug: string) {
    exists n :: n in t && t[n].parent == parent && (parent == None || t[n].slug == slug)
  }

  /** `create_node`, as far as the graph tables see it. */
  function InsertCard(rows: Rows): Rows {
    rows.(cards := rows.cards + {rows.nextCardId}, nextCardId := rows.nextCardId + 1)
  }

  /** `set_current_assignment` of the repository: insert or move the one row of the card. */
  function Assign(rows: Rows, card: int, node: int): Outcome<Rows, StoreError> {
    if card !in rows.cards || node !in rows.taxonomy then Raised(MissingRow)
    else Ok(rows.(assignment := rows.assignment[card := node]))
  }

  /** `_canonical_edge_pair` */
  function CanonicalPair(x: int, y: int): Outcome<(int, int), StoreError> {
    if x == y then Raised(SelfLoop) else if x < y then Ok((x, y)) else Ok((y, x))
  }

  /** `create_edge_with_adjacency` */
  function InsertEdge(rows: Rows, source: int, related: int, strength: real): Outcome<Rows, StoreError> {
    match CanonicalPair(source, related)
    case Raised(e) => Raised(e)
    case Ok((a, b)) =>
      if a !in rows.cards || b !in rows.cards then Raised(MissingRow)
      else if !(0.0 <= strength <= 1.0) then Raised(BadStrength)
      else if PairTaken(rows.edges, a, b) then Raised(DuplicateRow)
      else
        var id := rows.nextEdgeId;
        Ok(rows.(edges := rows.edges[id := Edge(a, b, strength)], nextEdgeId := id + 1,
                 adjacency := rows.adjacency + {(source, id), (related, id)}))
  }

  predicate PairTaken(edges: map<int, Edge>, a: int, b: int) {
    exists e :: e in edges && edges[e].a == a && edges[e].b == b
  }

  /** One row of a bulk insert: the endpoints go in as given, and the table checks their order. */
  function InsertPlanned(rows: Rows, plan: PlannedEdge): Outcome<Rows, StoreError> {
    var (a, b) := (plan.related, plan.source);
    if a >= b then Raised(BadPair)
    else if a !in rows.cards || b !in rows.cards then Raised(MissingRow)
    else if !(0.0 <= plan.strength <= 1.0) then Raised(BadStrength)
    else if PairTaken(rows.edges, a, b) then Raised(DuplicateRow)
    else
      var id := rows.nextEdgeId;
      Ok(rows.(edges := rows.edges[id := Edge(a, b, plan.strength)], nextEdgeId := id + 1,
               adjacency := rows.adjacency + {(a, id), (b, id)}))
  }

  function InsertAllPlanned(rows: Rows, plans: seq<PlannedEdge>): Outcome<Rows, StoreError> {
    if plans == [] then Ok(rows)
    else
      match InsertAllPlanned(rows, plans[..|plans| - 1])
      case Raised(e) => Raised(e)
      case Ok(before) => InsertPlanned(before, plans[|plans| - 1])
  }

  /** `clear_edges_with_adjacency`: projection rows go with their edges. */
  function ClearEdges(rows: Rows): Rows {
    rows.(edges := map[], adjacency := {}, projected := {})
  }

  /** `clear_projected_edge_ids_for_scope` */
  function ClearProjected(rows: Rows, node: int): Rows {
    rows.(projected := set r | r in rows.projected && r.0 != node)
  }

  /** `add_projected_edge_ids_for_scope`: rows already there stay as they are. */
  function AddProjected(rows: Rows, node: int, edgeIds: set<int>): Rows {
    rows.(projected := rows.projected + set e | e in edgeIds :: (node, e))
  }

  /** One session on the tables. */
  class Session {
    var taxonomy: Table
    var nextTaxonomyId: int
    var cards: set<int>
    var nextCardId: int
    var assignment: map<int, int>
    var edges: map<int, Edge>
    var nextEdgeId: int
    var adjacency: set<(int, int)>
    var projected: set<(int, int)>

    function Snapshot(): Rows
      reads this
    {
      Rows(taxonomy, nextTaxonomyId, cards, nextCardId, assignment, edges, nextEdgeId, adjacency, projected)
    }

    constructor ()
      ensures Snapshot() == EmptyRows
    {
      taxonomy, nextTaxonomyId := map[], 1;
      cards, nextCardId := {}, 1;
      assignment := map[];
      edges, nextEdgeId := map[], 1;
      adjacency, projected := {}, {};
    }

    /** Rollback to the rows seen when the transaction began. */
    method Restore(rows: Rows)
      modifies this
      ensures Snapshot() == rows
    {
      taxonomy, nextTaxonomyId := rows.taxonomy, rows.nextTaxonomyId;
      cards, nextCardId := rows.cards, rows.nextCardId;
      assignment := rows.assignment;
      edges, nextEdgeId := rows.edges, rows.nextEdgeId;
      adjacency, projected := rows.adjacency, rows.projected;
    }

    method CreateTaxonomyNode(parent: Option<int>, name: string, depth: nat) returns (r: Outcome<int, StoreError>)
      modifies this
      ensures match InsertTaxonomyNode(old(Snapshot()), parent, name, depth)
              case Ok(rows) => r == Ok(old(nextTaxonomyId)) && Snapshot() == rows
              case Raised(e) => r == Raised(e) && Snapshot() == old(Snapshot())
    {
      var slug := Slugify(name);
      if slug == None {
        return Raised(BadSlug);
      }
      if parent.Some? && parent.value !in taxonomy {
        return Raised(MissingRow);
      }
      if SiblingTaken(taxonomy, parent, slug.value) {
        return Raised(DuplicateRow);
      }
      var id := nextTaxonomyId;
      taxonomy := taxonomy[id := Node(id, parent, name, slug.value, depth)];
      nextTaxonomyId := id + 1;
      return Ok(id);
    }

    method CreateCard() returns (id: int)
      modifies this
      ensures id == old(nextCardId) && Snapshot() == InsertCard(old(Snapshot()))
    {
      id := nextCardId;
      cards := cards + {id};
      nextCardId := id + 1;
    }

    method SetAssignment(card: int, node: int) returns (failed: Option<StoreError>)
      modifies this
      ensures match Assign(old(Snapshot()), card, node)
              case Ok(rows) => failed == None && Snapshot() == rows
              case Raised(e) => failed == Some(e) && Snapshot() == old(Snapshot())
    {
      if card !in cards || node !in taxonomy {
        return Some(MissingRow);
      }
      assignment := assignment[card := node];
      return None;
    }

    method CreateEdgeWithAdjacency(source: int, related: int, strength: real) returns (r: Outcome<int, StoreError>)
      modifies this
      ensures match InsertEdge(old(Snapshot()), source, related, strength)
              case Ok(rows) => r == Ok(old(nextEdgeId)) && Snapshot() == rows
              case Raised(e) => r == Raised(e) && Snapshot() == old(Snapshot())
    {
      var pair := CanonicalPair(source, related);
      if pair.Raised? {
        return Raised(pair.error);
      }
      var (a, b) := pair.value;
      if a !in cards || b !in cards {
        return Raised(MissingRow);
      }
      if !(0.0 <= strength <= 1.0) {
        return Raised(BadStrength);
      }
      if PairTaken(edges, a, b) {
        return Raised(DuplicateRow);
      }
      var id := nextEdgeId;
      edges := edges[id := Edge(a, b, strength)];
      nextEdgeId := id + 1;
      adjacency := adjacency + {(source, id), (related, id)};
      return Ok(id);
    }

    method ClearEdgesWithAdjacency()
      modifies this
      ensures Snapshot() == ClearEdges(old(Snapshot()))
    {
      adjacency := {};
      edges := map[];
      projected := {};
    }

    method ClearProjectedEdgeIds(node: int)
      modifies this
      ensures Snapshot() == ClearProjected(old(Snapshot()), node)
    {
      projected := set r | r in projected && r.0 != node;
    }
  }
}
