/**
 Reading a card scope from the tables: its projected edges, fetched in chunks of ids, and the
 cards of the scope together with the outside cards those edges reach.
 */
module CardScopeGraph {
  import opened Common
  import opened Sorting
  import opened Store
  import opened TaxonomyTree
  import opened ScopeProjection
  import opened CardScopeLayout
  import ProjectionServices

  const EDGE_ID_QUERY_CHUNK_SIZE := 50_000

  datatype ChunkError = ChunkSizeTooSmall

  function Concat(chunks: seq<seq<int>>): seq<int> {
    if chunks == [] then [] else Concat(chunks[..|chunks| - 1]) + chunks[|chunks| - 1]
  }

  lemma ConcatSnoc(chunks: seq<seq<int>>, chunk: seq<int>)
    ensures Concat(chunks + [chunk]) == Concat(chunks) + chunk
  {
    assert (chunks + [chunk])[..|chunks|] == chunks;
  }

  predicate AllOfSize(chunks: seq<seq<int>>, size: int) {
    forall k :: 0 <= k < |chunks| ==> |chunks[k]| == size
  }

  lemma LastChunk(chunks: seq<seq<int>>, chunk: seq<int>, size: int)
    requires AllOfSize(chunks, size) && 1 <= |chunk| < size
    ensures var all := chunks + [chunk];
            (forall k :: 0 <= k < |all| ==> 1 <= |all[k]| <= size) && forall k :: 0 <= k < |all| - 1 ==> |all[k]| == size
  {
  }

  function Elements(s: seq<int>): set<int> {
    set x | x in s
  }

  lemma ElementsNext(s: seq<int>, x: int)
    ensures Elements(s + [x]) == Elements(s) + {x}
  {
  }

  /** `_chunk_unique_ids`: first occurrences, cut into full chunks and one last shorter chunk. */
  method ChunkUniqueIds(values: seq<int>, chunkSize: int) returns (r: Outcome<seq<seq<int>>, ChunkError>)
    ensures chunkSize < 1 ==> r == Raised(ChunkSizeTooSmall)
    ensures chunkSize >= 1 ==> r.Ok?
    ensures r.Ok? ==> Concat(r.value) == Distinct(values)
    ensures r.Ok? ==> forall k :: 0 <= k < |r.value| ==> 1 <= |r.value[k]| <= chunkSize
    ensures r.Ok? ==> forall k :: 0 <= k < |r.value| - 1 ==> |r.value[k]| == chunkSize
  {
    if chunkSize < 1 {
      return Raised(ChunkSizeTooSmall);
    }
    var seen: set<int> := {};
    var chunk: seq<int> := [];
    var chunks: seq<seq<int>> := [];
    for k := 0 to |values|
      invariant Concat(chunks) + chunk == Distinct(values[..k])
      invariant seen == Elements(Distinct(values[..k]))
      invariant |chunk| < chunkSize && AllOfSize(chunks, chunkSize)
    {
      DistinctNext(values, k);
      var value := values[k];
      ghost var before := Distinct(values[..k]);
      if value !in seen {
        seen := seen + {value};
        chunks, chunk := AddToChunk(chunks, chunk, value, chunkSize);
        ElementsNext(before, value);
      }
    }
    assert values[..|values|] == values;
    if chunk != [] {
      ConcatSnoc(chunks, chunk);
      LastChunk(chunks, chunk, chunkSize);
      chunks := chunks + [chunk];
    }
    return Ok(chunks);
  }

  method AddToChunk(chunks: seq<seq<int>>, chunk: seq<int>, value: int, chunkSize: int)
    returns (chunks': seq<seq<int>>, chunk': seq<int>)
    requires |chunk| < chunkSize && AllOfSize(chunks, chunkSize)
    ensures Concat(chunks') + chunk' == Concat(chunks) + chunk + [value]
    ensures |chunk'| < chunkSize && AllOfSize(chunks', chunkSize)
  {
    chunks', chunk' := chunks, chunk + [value];
    if |chunk'| == chunkSize {
      ConcatSnoc(chunks, chunk');
      chunks', chunk' := chunks + [chunk'], [];
    }
  }

  /** The edge rows with the given ids. */
  function RowsFor(edges: map<int, Edge>, ids: seq<int>): seq<Edge> {
    if ids == [] then []
    else
      var n := |ids| - 1;
      RowsFor(edges, ids[..n]) + if ids[n] in edges then [edges[ids[n]]] else []
  }

  lemma {:induction false} RowsForConcat(edges: map<int, Edge>, a: seq<int>, b: seq<int>)
    ensures RowsFor(edges, a + b) == RowsFor(edges, a) + RowsFor(edges, b)
  {
    if b == [] {
      assert a + b == a;
    } else {
      var n := |b| - 1;
      RowsForConcat(edges, a, b[..n]);
      assert (a + b)[..|a| + n] == a + b[..n];
    }
  }

  ghost predicate PairsUnique(edges: map<int, Edge>) {
    forall e, f {:trigger edges[e].a, edges[f].a} ::
      e in edges && f in edges && edges[e].a == edges[f].a && edges[e].b == edges[f].b ==> e == f
  }

  lemma {:induction false} RowIsAnEdge(edges: map<int, Edge>, ids: seq<int>, row: Edge)
    ensures row in RowsFor(edges, ids) <==> exists i :: 0 <= i < |ids| && ids[i] in edges && edges[ids[i]] == row
  {
    if ids != [] {
      var n := |ids| - 1;
      RowIsAnEdge(edges, ids[..n], row);
      if i :| 0 <= i < n && ids[i] in edges && edges[ids[i]] == row {
        assert ids[..n][i] in edges && edges[ids[..n][i]] == row;
      }
    }
  }

  lemma {:induction false} RowsOnePerPair(edges: map<int, Edge>, ids: seq<int>)
    requires PairsUnique(edges) && AllDifferent(ids)
    ensures OnePerPair(RowsFor(edges, ids))
  {
    if ids != [] {
      var n := |ids| - 1;
      RowsOnePerPair(edges, ids[..n]);
      if ids[n] in edges {
        var front, last := RowsFor(edges, ids[..n]), edges[ids[n]];
        forall k | 0 <= k < |front| ensures front[k].a != last.a || front[k].b != last.b {
          assert front[k] in front;
          RowIsAnEdge(edges, ids[..n], front[k]);
        }
      }
    }
  }

  /** The rows with the given ids, each once, in order of their endpoints. */
  function Fetched(edges: map<int, Edge>, ids: seq<int>): seq<Edge> {
    SortBy(RowsFor(edges, Distinct(ids)), ByPair)
  }

  /** `fetch_projection_edges_for_edge_ids`: the result does not depend on the chunk size. */
  method FetchProjectionEdges(edges: map<int, Edge>, ids: seq<int>, chunkSize: int) returns (r: Outcome<seq<Edge>, ChunkError>)
    requires PairsUnique(edges)
    ensures r == if ids == [] || chunkSize >= 1 then Ok(Fetched(edges, ids)) else Raised(ChunkSizeTooSmall)
  {
    if ids == [] {
      assert Distinct(ids) == [] && Fetched(edges, ids) == [];
      return Ok([]);
    }
    var chunking := ChunkUniqueIds(ids, chunkSize);
    if chunking.Raised? {
      return Raised(chunking.error);
    }
    var chunks := chunking.value;
    var found: seq<Edge> := [];
    for k := 0 to |chunks|
      invariant multiset(found) == multiset(RowsFor(edges, Concat(chunks[..k])))
    {
      assert chunks[..k + 1] == chunks[..k] + [chunks[k]];
      ConcatSnoc(chunks[..k], chunks[k]);
      RowsForConcat(edges, Concat(chunks[..k]), chunks[k]);
      SortBySorts(RowsFor(edges, chunks[k]), ByPair);
      found := found + SortBy(RowsFor(edges, chunks[k]), ByPair);
    }
    assert chunks[..|chunks|] == chunks;
    DistinctKeepsElements(ids);
    RowsOnePerPair(edges, Distinct(ids));
    PairsSortOneWay(RowsFor(edges, Distinct(ids)), found);
    return Ok(SortBy(found, ByPair));
  }

  // ----- the graph of a scope -----

  ghost predicate Stored(rows: Rows, node: int, e: Edge) {
    exists id :: (node, id) in rows.projected && id in rows.edges && rows.edges[id] == e
  }

  ghost predicate Reached(edges: seq<Edge>, card: int) {
    exists k :: 0 <= k < |edges| && IsEndpoint(edges[k], card)
  }

  /** What the tables say the graph of a scope is, up to the order of its rows. */
  ghost predicate IsGraphOf(g: Graph, rows: Rows, node: int) {
    && (forall e :: e in g.edges <==> Stored(rows, node, e))
    && OnePerPair(g.edges) && Canonical(g.edges)
    && DistinctCards(g.cards)
    && (forall id :: id in Ids(g.cards) <==> AssignedTo(rows, id, node) || Reached(g.edges, id))
    && (forall c :: c in g.cards ==> (c.kind == Inner <==> AssignedTo(rows, c.id, node)))
  }

  function KindOf(inner: set<int>, id: int): ScopeKind {
    if id in inner then Inner else Outer
  }

  /** Every id of a set once, in ascending order. */
  method ListedInOrder(ids: set<int>) returns (q: seq<int>)
    ensures forall id :: id in q <==> id in ids
    ensures AllDifferent(q)
  {
    var listed := ProjectionServices.Listed(ids);
    q := SortBy(listed, Ascending);
    SortBySorts(listed, Ascending);
    SameElements(listed, q);
    AllDifferentByElements(listed, q);
  }

  method AddEndpoints(inner: set<int>, edges: seq<Edge>) returns (all: set<int>)
    ensures forall id :: id in all <==> id in inner || Reached(edges, id)
  {
    all := inner;
    for k := 0 to |edges|
      invariant forall id :: id in all <==> id in inner || Reached(edges[..k], id)
    {
      ReachedNext(edges, k);
      all := all + {edges[k].a, edges[k].b};
    }
    assert edges[..|edges|] == edges;
  }

  function CardsFor(ids: seq<int>, inner: set<int>): seq<Card> {
    seq(|ids|, i requires 0 <= i < |ids| => Card(ids[i], KindOf(inner, ids[i])))
  }

  lemma CardsForAre(ids: seq<int>, inner: set<int>)
    requires AllDifferent(ids)
    ensures var cards := CardsFor(ids, inner);
            && DistinctCards(cards)
            && (forall id :: id in Ids(cards) <==> id in ids)
            && (forall c :: c in cards ==> (c.kind == Inner <==> c.id in inner))
  {
    var cards := CardsFor(ids, inner);
    forall id ensures id in Ids(cards) <==> id in ids {
      if id in ids {
        var i :| 0 <= i < |ids| && ids[i] == id;
        assert cards[i] in cards;
      }
    }
  }

  /** `_build_card_scope_graph_projection` */
  method LoadGraph(session: Session, node: int) returns (g: Graph)
    requires Sound(session.Snapshot())
    ensures IsGraphOf(g, session.Snapshot(), node)
  {
    ghost var rows := session.Snapshot();
    var inner := CardsOf(session.assignment, node);
    var edgeIds := ListedInOrder(ProjectedEdges(session.Snapshot(), node));
    var fetched := FetchProjectionEdges(session.edges, edgeIds, EDGE_ID_QUERY_CHUNK_SIZE);
    var edges := fetched.value;
    forall id ensures id in edgeIds <==> (node, id) in rows.projected {
      ProjectedHas(rows, node, id);
    }
    FetchedAre(rows, node, edgeIds, edges);
    var all := AddEndpoints(inner, edges);
    var ids := ListedInOrder(all);
    CardsForAre(ids, inner);
    g := Graph(edges, CardsFor(ids, inner));
  }

  lemma ReachedNext(edges: seq<Edge>, k: nat)
    requires k < |edges|
    ensures forall id :: Reached(edges[..k + 1], id) <==> Reached(edges[..k], id) || IsEndpoint(edges[k], id)
  {
    var longer, shorter := edges[..k + 1], edges[..k];
    forall id ensures Reached(longer, id) <==> Reached(shorter, id) || IsEndpoint(edges[k], id) {
      if Reached(shorter, id) {
        var i :| 0 <= i < k && IsEndpoint(shorter[i], id);
        assert IsEndpoint(longer[i], id);
      }
      if IsEndpoint(edges[k], id) {
        assert IsEndpoint(longer[k], id);
      }
      if Reached(longer, id) && !IsEndpoint(edges[k], id) {
        var i :| 0 <= i <= k && IsEndpoint(longer[i], id);
        assert IsEndpoint(shorter[i], id);
      }
    }
  }

  lemma FetchedAre(rows: Rows, node: int, ids: seq<int>, edges: seq<Edge>)
    requires Sound(rows) && edges == Fetched(rows.edges, ids)
    requires forall id :: id in ids <==> (node, id) in rows.projected
    ensures forall e :: e in edges <==> Stored(rows, node, e)
    ensures OnePerPair(edges) && Canonical(edges)
  {
    var found := RowsFor(rows.edges, Distinct(ids));
    DistinctKeepsElements(ids);
    RowsOnePerPair(rows.edges, Distinct(ids));
    SortBySorts(found, ByPair);
    SameElements(found, edges);
    forall e ensures e in edges <==> Stored(rows, node, e) {
      RowIsAnEdge(rows.edges, Distinct(ids), e);
      if Stored(rows, node, e) {
        var id :| (node, id) in rows.projected && id in rows.edges && rows.edges[id] == e;
        assert id in Distinct(ids);
      }
    }
    forall k | 0 <= k < |edges| ensures edges[k].a < edges[k].b {
      assert Stored(rows, node, edges[k]);
    }
    SortOnePerPair(found);
  }

  lemma SortOnePerPair(found: seq<Edge>)
    requires OnePerPair(found)
    ensures OnePerPair(SortBy(found, ByPair))
  {
    var r := SortBy(found, ByPair);
    SortBySorts(found, ByPair);
    AllDifferentByElements(found, r);
    SameElements(found, r);
    forall i, j | 0 <= i < j < |r| ensures r[i].a != r[j].a || r[i].b != r[j].b {
      assert r[i] in found && r[j] in found && r[i] != r[j];
      DifferentPairs(found, r[i], r[j]);
    }
  }

  lemma DifferentPairs(edges: seq<Edge>, x: Edge, y: Edge)
    requires OnePerPair(edges) && x in edges && y in edges && x != y
    ensures x.a != y.a || x.b != y.b
  {
  }

  /** While the index agrees, the graph of a scope shows exactly the edges touching its cards. */
  lemma GraphShowsTouchingEdges(g: Graph, rows: Rows, node: int, e: Edge)
    requires IsGraphOf(g, rows, node) && IndexAgrees(rows) && Scope(rows.taxonomy, node)
    ensures e in g.edges <==> exists id :: id in rows.edges && Touches(rows, node, id) && rows.edges[id] == e
  {
    if id :| (node, id) in rows.projected && id in rows.edges && rows.edges[id] == e {
      assert IndexAt(rows, node, id);
    }
    if id :| id in rows.edges && Touches(rows, node, id) && rows.edges[id] == e {
      assert IndexAt(rows, node, id);
      assert Stored(rows, node, e);
    }
  }

  lemma SameCard(g: Graph, h: Graph, rows: Rows, node: int, c: Card)
    requires IsGraphOf(g, rows, node) && IsGraphOf(h, rows, node) && c in g.cards
    requires forall e :: e in g.edges <==> e in h.edges
    ensures c in h.cards
  {
    assert c.id in Ids(g.cards);
    if k :| 0 <= k < |g.edges| && IsEndpoint(g.edges[k], c.id) {
      assert g.edges[k] in h.edges;
    }
    assert c.id in Ids(h.cards);
    var d :| d in h.cards && d.id == c.id;
    assert d == c;
  }

  /** However the rows come back, one state of the tables has one fingerprint. */
  lemma OneFingerprint(g: Graph, h: Graph, rows: Rows, node: int)
    requires IsGraphOf(g, rows, node) && IsGraphOf(h, rows, node)
    ensures Fingerprint(g) == Fingerprint(h)
  {
    forall e ensures e in g.edges <==> e in h.edges {
      assert e in g.edges <==> Stored(rows, node, e);
    }
    forall c ensures c in g.cards <==> c in h.cards {
      if c in g.cards {
        SameCard(g, h, rows, node, c);
      }
      if c in h.cards {
        SameCard(h, g, rows, node, c);
      }
    }
    SameDistinctElements(g.edges, h.edges);
    SameDistinctElements(g.cards, h.cards);
    FingerprintIgnoresOrder(g, h);
  }
}
