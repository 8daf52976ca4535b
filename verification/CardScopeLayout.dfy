/**
 A card-scope graph, its fingerprint, the layout built from it, and rectangular slices of that
 layout. A fingerprint is kept as the canonical payload itself instead of its digest.
 */
module CardScopeLayout {
  import opened Common
  import opened Sorting
  import opened Store
  import opened ForceSimulation

  datatype ScopeKind = Inner | Outer

  datatype Card = Card(id: int, kind: ScopeKind)

  /** Edges as the tables return them, and the cards of the scope in the order of the dictionary. */
  datatype Graph = Graph(edges: seq<Edge>, cards: seq<Card>)

  datatype Payload = Payload(edges: seq<Edge>, cards: seq<Card>)

  datatype Placed = Placed(id: int, kind: ScopeKind, x: real, y: real)

  datatype Bounds = Bounds(minX: real, minY: real, maxX: real, maxY: real)

  datatype Layout = Layout(bounds: Bounds, cards: seq<Placed>, edges: seq<Edge>)

  /** Everything numeric that is not exact: square root, seeding spiral, rounding to six places. */
  datatype Numerics = Numerics(maths: Maths, spiral: nat -> Vec, rounded: real -> real)

  predicate ByPair(x: Edge, y: Edge) {
    x.a < y.a || (x.a == y.a && x.b <= y.b)
  }

  predicate ById(x: Card, y: Card) {
    x.id <= y.id
  }

  /** `_card_scope_layout_input_fingerprint` */
  function Fingerprint(g: Graph): Payload {
    Payload(SortBy(g.edges, ByPair), SortBy(g.cards, ById))
  }

  function Ids(cards: seq<Card>): set<int> {
    set c | c in cards :: c.id
  }

  /** The edge with its smaller endpoint first. */
  function Oriented(e: Edge): Edge {
    if e.a <= e.b then e else Edge(e.b, e.a, e.strength)
  }

  predicate HasPair(edges: seq<Edge>, a: int, b: int) {
    exists k :: 0 <= k < |edges| && edges[k].a == a && edges[k].b == b
  }

  predicate Within(e: Edge, ids: set<int>) {
    e.a in ids && e.b in ids
  }

  ghost predicate InScope(edges: seq<Edge>, ids: set<int>) {
    forall e :: e in edges ==> Within(e, ids)
  }

  /** The dictionary of first occurrences, in insertion order. */
  function Firsts(edges: seq<Edge>, ids: set<int>): (r: seq<Edge>)
    ensures InScope(r, ids)
  {
    if edges == [] then []
    else
      var n := |edges| - 1;
      var kept := Firsts(edges[..n], ids);
      var e := Oriented(edges[n]);
      if !Within(e, ids) || HasPair(kept, e.a, e.b) then kept else kept + [e]
  }

  /** `_canonical_edges` */
  function CanonicalEdges(edges: seq<Edge>, ids: set<int>): (r: seq<Edge>)
    ensures InScope(r, ids)
  {
    SortKeepsWithin(Firsts(edges, ids), ids);
    SortBy(Firsts(edges, ids), ByPair)
  }

  lemma SortKeepsWithin(edges: seq<Edge>, ids: set<int>)
    requires InScope(edges, ids)
    ensures InScope(SortBy(edges, ByPair), ids)
  {
    SortBySorts(edges, ByPair);
    SameElements(edges, SortBy(edges, ByPair));
  }

  /** Where each card stands in the list. */
  function PlaceById(cards: seq<Card>): (m: map<int, nat>)
    ensures m.Keys == Ids(cards)
    ensures forall id :: id in m ==> m[id] < |cards|
  {
    if cards == [] then map[]
    else
      var n := |cards| - 1;
      assert cards == cards[..n] + [cards[n]];
      PlaceById(cards[..n])[cards[n].id := n]
  }

  function Springs(cards: seq<Card>, edges: seq<Edge>): (r: seq<Spring>)
    requires InScope(edges, Ids(cards))
    ensures |r| == |edges| && Linked(r, |cards|)
  {
    var place := PlaceById(cards);
    assert forall k :: 0 <= k < |edges| ==> Within(edges[k], Ids(cards)) by {
      assert forall k :: 0 <= k < |edges| ==> edges[k] in edges;
    }
    seq(|edges|, k requires 0 <= k < |edges| =>
      Spring(place[edges[k].a], place[edges[k].b], edges[k].strength))
  }

  lemma {:induction false} PlaceIsOf(cards: seq<Card>, id: int)
    requires id in Ids(cards)
    ensures cards[PlaceById(cards)[id]].id == id
  {
    var n := |cards| - 1;
    if cards[n].id != id {
      assert cards == cards[..n] + [cards[n]];
      PlaceIsOf(cards[..n], id);
    }
  }

  /** Each spring joins the bodies of its edge's two cards, at the edge's strength. */
  lemma SpringsJoinTheirCards(cards: seq<Card>, edges: seq<Edge>, k: nat)
    requires InScope(edges, Ids(cards)) && k < |edges|
    ensures var s := Springs(cards, edges)[k];
            cards[s.source].id == edges[k].a && cards[s.target].id == edges[k].b && s.strength == edges[k].strength
  {
    assert edges[k] in edges;
    PlaceIsOf(cards, edges[k].a);
    PlaceIsOf(cards, edges[k].b);
  }

  function Seeds(cards: seq<Card>, num: Numerics): seq<Body> {
    seq(|cards|, i requires 0 <= i < |cards| => Body(cards[i].id, num.spiral(i), ZERO))
  }

  function PlaceCard(card: Card, body: Body, num: Numerics): Placed {
    Placed(card.id, card.kind, num.rounded(body.pos.x), num.rounded(body.pos.y))
  }

  function PlaceAll(cards: seq<Card>, bodies: seq<Body>, num: Numerics): seq<Placed>
    requires |bodies| == |cards|
  {
    seq(|cards|, i requires 0 <= i < |cards| => PlaceCard(cards[i], bodies[i], num))
  }

  function Lower(a: real, b: real): real { if b < a then b else a }
  function Upper(a: real, b: real): real { if b > a then b else a }

  predicate Inside(card: Placed, box: Bounds) {
    box.minX <= card.x <= box.maxX && box.minY <= card.y <= box.maxY
  }

  function BoundsOf(cards: seq<Placed>): (r: Bounds)
    requires cards != []
    ensures forall k :: 0 <= k < |cards| ==> Inside(cards[k], r)
  {
    var last := cards[|cards| - 1];
    if |cards| == 1 then Bounds(last.x, last.y, last.x, last.y)
    else
      var r := BoundsOf(cards[..|cards| - 1]);
      assert forall k :: 0 <= k < |cards| - 1 ==> cards[k] == cards[..|cards| - 1][k];
      Bounds(Lower(r.minX, last.x), Lower(r.minY, last.y), Upper(r.maxX, last.x), Upper(r.maxY, last.y))
  }

  /** `_world_bounds` */
  function WorldBounds(cards: seq<Placed>): Bounds {
    if cards == [] then Bounds(0.0, 0.0, 0.0, 0.0) else BoundsOf(cards)
  }

  /** `build_card_scope_layout` */
  function Build(cards: seq<Card>, edges: seq<Edge>, p: Params, num: Numerics): Layout {
    var ordered := SortBy(cards, ById);
    var kept := CanonicalEdges(edges, Ids(ordered));
    var placed := Place(ordered, kept, p, num);
    Layout(WorldBounds(placed), placed, kept)
  }

  function Place(ordered: seq<Card>, kept: seq<Edge>, p: Params, num: Numerics): (r: seq<Placed>)
    requires InScope(kept, Ids(ordered))
    ensures |r| == |ordered|
  {
    PlaceAll(ordered, Simulated(Seeds(ordered, num), Springs(ordered, kept), p, num.maths), num)
  }

  /** `_build_card_scope_layout_from_graph` */
  function BuildFromGraph(g: Graph, p: Params, num: Numerics): Layout {
    Build(SortBy(g.cards, ById), g.edges, p, num)
  }

  // ----- the build depends on nothing but the fingerprint -----

  /** What the edge table's check constraint says of every edge: smaller endpoint first. */
  ghost predicate Canonical(edges: seq<Edge>) {
    forall k :: 0 <= k < |edges| ==> edges[k].a < edges[k].b
  }

  ghost predicate DistinctCards(cards: seq<Card>) {
    forall i, j :: 0 <= i < j < |cards| ==> cards[i].id != cards[j].id
  }

  /** The first edge between two cards, in either direction. */
  function FirstBetween(edges: seq<Edge>, a: int, b: int): Option<Edge> {
    if edges == [] then None
    else
      var n := |edges| - 1;
      var earlier := FirstBetween(edges[..n], a, b);
      var e := Oriented(edges[n]);
      if earlier.Some? || e.a != a || e.b != b then earlier else Some(e)
  }

  lemma {:induction false} FirstAfterInsert(x: Edge, edges: seq<Edge>, a: int, b: int)
    requires Canonical(edges) && x.a < x.b
    ensures FirstBetween(Insert(x, edges, ByPair), a, b) == FirstBetween(edges + [x], a, b)
  {
    var r := Insert(x, edges, ByPair);
    assert (edges + [x])[..|edges|] == edges;
    if edges == [] || ByPair(edges[|edges| - 1], x) {
    } else {
      var front, last := edges[..|edges| - 1], edges[|edges| - 1];
      FirstAfterInsert(x, front, a, b);
      assert (front + [x])[..|front|] == front;
      assert r[..|r| - 1] == Insert(x, front, ByPair);
    }
  }

  lemma {:induction false} InsertCanonical(x: Edge, edges: seq<Edge>)
    requires Canonical(edges) && x.a < x.b
    ensures Canonical(Insert(x, edges, ByPair))
  {
    if edges != [] && !ByPair(edges[|edges| - 1], x) {
      InsertCanonical(x, edges[..|edges| - 1]);
    }
  }

  /** Sorting is stable, so it leaves alone which of several equal pairs comes first. */
  lemma {:induction false} FirstAfterSort(edges: seq<Edge>, a: int, b: int)
    requires Canonical(edges)
    ensures Canonical(SortBy(edges, ByPair))
    ensures FirstBetween(SortBy(edges, ByPair), a, b) == FirstBetween(edges, a, b)
  {
    if edges != [] {
      var n := |edges| - 1;
      var front := SortBy(edges[..n], ByPair);
      FirstAfterSort(edges[..n], a, b);
      FirstAfterInsert(edges[n], front, a, b);
      InsertCanonical(edges[n], front);
      assert (front + [edges[n]])[..|front|] == front;
    }
  }

  lemma {:induction false} FirstIsPair(edges: seq<Edge>, a: int, b: int)
    ensures FirstBetween(edges, a, b).Some? ==>
              var e := FirstBetween(edges, a, b).value; e.a == a && e.b == b && a <= b
  {
    if edges != [] {
      FirstIsPair(edges[..|edges| - 1], a, b);
    }
  }

  /** The dictionary holds, for every pair within the scope, its first edge and nothing else. */
  lemma {:induction false} FirstsHold(edges: seq<Edge>, ids: set<int>, e: Edge)
    ensures e in Firsts(edges, ids) <==> Within(e, ids) && FirstBetween(edges, e.a, e.b) == Some(e)
    ensures HasPair(Firsts(edges, ids), e.a, e.b) <==> Within(e, ids) && FirstBetween(edges, e.a, e.b).Some?
  {
    if edges != [] {
      var n := |edges| - 1;
      var last := Oriented(edges[n]);
      var kept := Firsts(edges[..n], ids);
      FirstsHold(edges[..n], ids, e);
      FirstsHold(edges[..n], ids, last);
      FirstIsPair(edges[..n], e.a, e.b);
      if Within(last, ids) && !HasPair(kept, last.a, last.b) {
        var r := kept + [last];
        assert r[|kept|] == last;
        assert forall k :: 0 <= k < |kept| ==> r[k] == kept[k];
      }
    }
  }

  ghost predicate OnePerPair(edges: seq<Edge>) {
    forall i, j :: 0 <= i < j < |edges| ==> edges[i].a != edges[j].a || edges[i].b != edges[j].b
  }

  lemma {:induction false} FirstsOnePerPair(edges: seq<Edge>, ids: set<int>)
    ensures OnePerPair(Firsts(edges, ids))
  {
    if edges != [] {
      FirstsOnePerPair(edges[..|edges| - 1], ids);
    }
  }

  lemma PairDecides(edges: seq<Edge>, x: Edge, y: Edge)
    requires OnePerPair(edges) && x in edges && y in edges && ByPair(x, y) && ByPair(y, x)
    ensures x == y
  {
  }

  /** Edge lists with the same first edge between any two cards have the same canonical list. */
  lemma CanonicalByFirsts(edges: seq<Edge>, others: seq<Edge>, ids: set<int>)
    requires forall a, b {:trigger FirstBetween(edges, a, b)} :: FirstBetween(edges, a, b) == FirstBetween(others, a, b)
    ensures CanonicalEdges(edges, ids) == CanonicalEdges(others, ids)
  {
    var s, t := Firsts(edges, ids), Firsts(others, ids);
    forall e ensures e in s <==> e in t {
      FirstsHold(edges, ids, e);
      FirstsHold(others, ids, e);
    }
    FirstsOnePerPair(edges, ids);
    FirstsOnePerPair(others, ids);
    forall x, y | x in s && y in s && ByPair(x, y) && ByPair(y, x) ensures x == y {
      PairDecides(s, x, y);
    }
    SortDistinct(s, t, ByPair);
  }

  lemma CanonicalIgnoresSorting(edges: seq<Edge>, ids: set<int>)
    requires Canonical(edges)
    ensures CanonicalEdges(SortBy(edges, ByPair), ids) == CanonicalEdges(edges, ids)
  {
    var t := SortBy(edges, ByPair);
    forall a, b ensures FirstBetween(t, a, b) == FirstBetween(edges, a, b) {
      FirstAfterSort(edges, a, b);
    }
    CanonicalByFirsts(t, edges, ids);
  }

  /**
   Two graphs whose edges satisfy the table constraint and whose fingerprints agree are laid out
   alike: the same positions, bounds and edges.
   */
  lemma FingerprintDeterminesLayout(g: Graph, h: Graph, p: Params, num: Numerics)
    requires Canonical(g.edges) && Canonical(h.edges)
    requires Fingerprint(g) == Fingerprint(h)
    ensures BuildFromGraph(g, p, num) == BuildFromGraph(h, p, num)
  {
    var ordered := SortBy(g.cards, ById);
    SortBySorts(g.cards, ById);
    SortedIsFixed(ordered, ById);
    CanonicalIgnoresSorting(g.edges, Ids(ordered));
    CanonicalIgnoresSorting(h.edges, Ids(ordered));
  }

  lemma PairsSortOneWay(s: seq<Edge>, t: seq<Edge>)
    requires OnePerPair(s) && multiset(s) == multiset(t)
    ensures SortBy(s, ByPair) == SortBy(t, ByPair)
  {
    SortBySorts(s, ByPair);
    SortBySorts(t, ByPair);
    SameElements(s, SortBy(s, ByPair));
    forall x, y | x in multiset(SortBy(s, ByPair)) && y in multiset(SortBy(s, ByPair)) && ByPair(x, y) && ByPair(y, x)
      ensures x == y
    {
      PairDecides(s, x, y);
    }
    SortedUnique(SortBy(s, ByPair), SortBy(t, ByPair), ByPair);
  }

  lemma CardsSortOneWay(s: seq<Card>, t: seq<Card>)
    requires DistinctCards(s) && multiset(s) == multiset(t)
    ensures SortBy(s, ById) == SortBy(t, ById)
  {
    SortBySorts(s, ById);
    SortBySorts(t, ById);
    SameElements(s, SortBy(s, ById));
    SortedUnique(SortBy(s, ById), SortBy(t, ById), ById);
  }

  /** Rows in any order have one fingerprint when, as in the tables, no pair and no card repeats. */
  lemma FingerprintIgnoresOrder(g: Graph, h: Graph)
    requires OnePerPair(g.edges) && DistinctCards(g.cards)
    requires multiset(g.edges) == multiset(h.edges) && multiset(g.cards) == multiset(h.cards)
    ensures Fingerprint(g) == Fingerprint(h)
  {
    PairsSortOneWay(g.edges, h.edges);
    CardsSortOneWay(g.cards, h.cards);
  }

  lemma SortTwo(first: Edge, second: Edge)
    requires ByPair(first, second) && !ByPair(second, first)
    ensures SortBy([first, second], ByPair) == [first, second] && SortBy([second, first], ByPair) == [first, second]
  {
    SortedIsFixed([first, second], ByPair);
    assert [second, first][..1] == [second];
    assert [second][..0] == [];
    assert SortBy([second], ByPair) == [second];
  }

  lemma KeepsFirstOfTwo(x: Edge, y: Edge, ids: set<int>)
    requires Oriented(x).a == Oriented(y).a && Oriented(x).b == Oriented(y).b && Within(x, ids)
    ensures CanonicalEdges([x, y], ids) == [Oriented(x)]
  {
    assert [x, y][..1] == [x];
    assert [x][..0] == [];
    assert Firsts([x], ids) == [Oriented(x)];
    assert HasPair([Oriented(x)], Oriented(y).a, Oriented(y).b) by {
      assert [Oriented(x)][0] == Oriented(x);
    }
    SortedIsFixed([Oriented(x)], ByPair);
  }

  /** The table constraint is needed: both directions of one pair share a fingerprint in either order. */
  lemma BothDirectionsConfuse(p: Params, num: Numerics)
    ensures var cards := [Card(1, Inner), Card(2, Outer)];
            var g := Graph([Edge(1, 2, 0.0), Edge(2, 1, 1.0)], cards);
            var h := Graph([Edge(2, 1, 1.0), Edge(1, 2, 0.0)], cards);
            Fingerprint(g) == Fingerprint(h) && BuildFromGraph(g, p, num) != BuildFromGraph(h, p, num)
  {
    var cards := [Card(1, Inner), Card(2, Outer)];
    var up, down := Edge(1, 2, 0.0), Edge(2, 1, 1.0);
    SortTwo(up, down);
    SortedIsFixed(cards, ById);
    assert cards[0] in cards && cards[1] in cards;
    KeepsFirstOfTwo(up, down, Ids(cards));
    KeepsFirstOfTwo(down, up, Ids(cards));
    assert BuildFromGraph(Graph([up, down], cards), p, num).edges == [up];
    assert BuildFromGraph(Graph([down, up], cards), p, num).edges == [Edge(1, 2, 1.0)];
  }

  lemma {:induction false} FirstBetweenOnly(edges: seq<Edge>, e: Edge)
    requires OnePerPair(edges) && Canonical(edges)
    ensures FirstBetween(edges, e.a, e.b) == Some(e) <==> e in edges
    ensures FirstBetween(edges, e.a, e.b).Some? <==> exists k :: 0 <= k < |edges| && edges[k].a == e.a && edges[k].b == e.b
  {
    if edges != [] {
      var n := |edges| - 1;
      FirstBetweenOnly(edges[..n], e);
      assert edges == edges[..n] + [edges[n]];
    }
  }

  lemma CanonicalEdgesAre(edges: seq<Edge>, ids: set<int>, e: Edge)
    requires OnePerPair(edges) && Canonical(edges)
    ensures e in CanonicalEdges(edges, ids) <==> e in edges && Within(e, ids)
  {
    var kept := Firsts(edges, ids);
    FirstsHold(edges, ids, e);
    FirstBetweenOnly(edges, e);
    SortBySorts(kept, ByPair);
    SameElements(kept, SortBy(kept, ByPair));
  }

  lemma SortingKeepsIds(cards: seq<Card>)
    ensures Ids(SortBy(cards, ById)) == Ids(cards)
  {
    SortBySorts(cards, ById);
    SameElements(cards, SortBy(cards, ById));
    var ids, same := Ids(cards), Ids(SortBy(cards, ById));
    forall id ensures id in ids <==> id in same {
    }
  }

  /** With no pair stored twice, a layout shows exactly the graph's edges within its cards. */
  lemma LaidOutEdges(g: Graph, p: Params, num: Numerics, e: Edge)
    requires OnePerPair(g.edges) && Canonical(g.edges)
    ensures e in BuildFromGraph(g, p, num).edges <==> e in g.edges && Within(e, Ids(g.cards))
  {
    SortingKeepsIds(g.cards);
    SortingKeepsIds(SortBy(g.cards, ById));
    CanonicalEdgesAre(g.edges, Ids(g.cards), e);
  }

  // ----- slices -----

  function CardsInside(cards: seq<Placed>, box: Bounds): seq<Placed> {
    if cards == [] then []
    else
      var n := |cards| - 1;
      CardsInside(cards[..n], box) + if Inside(cards[n], box) then [cards[n]] else []
  }

  function EdgesWithin(edges: seq<Edge>, ids: set<int>): seq<Edge> {
    if edges == [] then []
    else
      var n := |edges| - 1;
      EdgesWithin(edges[..n], ids) + if Within(edges[n], ids) then [edges[n]] else []
  }

  function PlacedIds(cards: seq<Placed>): set<int> {
    set c | c in cards :: c.id
  }

  /** `slice_card_scope_layout`: cards in the box, and the edges between two of them. */
  function Slice(layout: Layout, box: Bounds): (seq<Placed>, seq<Edge>) {
    var cards := CardsInside(layout.cards, box);
    (cards, EdgesWithin(layout.edges, PlacedIds(cards)))
  }

  lemma {:induction false} InsideAre(cards: seq<Placed>, box: Bounds, c: Placed)
    ensures c in CardsInside(cards, box) <==> c in cards && Inside(c, box)
  {
    if cards != [] {
      var n := |cards| - 1;
      InsideAre(cards[..n], box, c);
      assert cards == cards[..n] + [cards[n]];
    }
  }

  lemma {:induction false} AllInside(cards: seq<Placed>, box: Bounds)
    requires forall k :: 0 <= k < |cards| ==> Inside(cards[k], box)
    ensures CardsInside(cards, box) == cards
  {
    if cards != [] {
      AllInside(cards[..|cards| - 1], box);
    }
  }

  lemma {:induction false} AllWithin(edges: seq<Edge>, ids: set<int>)
    requires InScope(edges, ids)
    ensures EdgesWithin(edges, ids) == edges
  {
    if edges != [] {
      var n := |edges| - 1;
      assert edges[n] in edges && forall e :: e in edges[..n] ==> e in edges;
      AllWithin(edges[..n], ids);
      assert edges == edges[..n] + [edges[n]];
    }
  }

  /** Asking for the world bounds of a built layout returns all of it. */
  lemma WorldSliceIsWhole(cards: seq<Card>, edges: seq<Edge>, p: Params, num: Numerics)
    ensures var layout := Build(cards, edges, p, num); Slice(layout, layout.bounds) == (layout.cards, layout.edges)
  {
    var layout := Build(cards, edges, p, num);
    var ordered := SortBy(cards, ById);
    AllInside(layout.cards, layout.bounds);
    forall e | e in layout.edges ensures Within(e, PlacedIds(layout.cards)) {
      IdStays(ordered, layout.cards, e.a);
      IdStays(ordered, layout.cards, e.b);
    }
    AllWithin(layout.edges, PlacedIds(layout.cards));
  }

  lemma IdStays(ordered: seq<Card>, placed: seq<Placed>, id: int)
    requires |ordered| == |placed| && forall k :: 0 <= k < |placed| ==> placed[k].id == ordered[k].id
    requires id in Ids(ordered)
    ensures id in PlacedIds(placed)
  {
    var k :| 0 <= k < |ordered| && ordered[k].id == id;
    assert placed[k] in placed;
  }

  /** A slice of a slice is the slice of the overlap of the two boxes. */
  lemma SliceOfSlice(layout: Layout, outer: Bounds, inner: Bounds, overlap: Bounds)
    requires overlap == Bounds(Upper(outer.minX, inner.minX), Upper(outer.minY, inner.minY),
                               Lower(outer.maxX, inner.maxX), Lower(outer.maxY, inner.maxY))
    ensures var (cards, edges) := Slice(layout, outer);
            Slice(Layout(outer, cards, edges), inner) == Slice(layout, overlap)
  {
    var (cards, edges) := Slice(layout, outer);
    InsideTwice(layout.cards, outer, inner, overlap);
    var few := CardsInside(cards, inner);
    forall c | c in few ensures c in cards {
      InsideAre(cards, inner, c);
    }
    WithinTwice(layout.edges, PlacedIds(cards), PlacedIds(few));
  }

  lemma {:induction false} InsideTwice(cards: seq<Placed>, outer: Bounds, inner: Bounds, overlap: Bounds)
    requires overlap == Bounds(Upper(outer.minX, inner.minX), Upper(outer.minY, inner.minY),
                               Lower(outer.maxX, inner.maxX), Lower(outer.maxY, inner.maxY))
    ensures CardsInside(CardsInside(cards, outer), inner) == CardsInside(cards, overlap)
  {
    if cards != [] {
      var n := |cards| - 1;
      InsideTwice(cards[..n], outer, inner, overlap);
      var front := CardsInside(cards[..n], outer);
      assert front + [] == front;
      assert (front + [cards[n]])[..|front|] == front;
    }
  }

  lemma {:induction false} WithinTwice(edges: seq<Edge>, many: set<int>, few: set<int>)
    requires few <= many
    ensures EdgesWithin(EdgesWithin(edges, many), few) == EdgesWithin(edges, few)
  {
    if edges != [] {
      var n := |edges| - 1;
      WithinTwice(edges[..n], many, few);
      var front := EdgesWithin(edges[..n], many);
      assert front + [] == front;
      assert (front + [edges[n]])[..|front|] == front;
    }
  }

  // ----- as the code runs it -----

  method CollectCanonicalEdges(edges: seq<Edge>, ids: set<int>) returns (r: seq<Edge>)
    ensures r == CanonicalEdges(edges, ids)
  {
    var kept: seq<Edge> := [];
    for n := 0 to |edges|
      invariant kept == Firsts(edges[..n], ids)
    {
      assert edges[..n + 1][..n] == edges[..n];
      var e := Oriented(edges[n]);
      if Within(e, ids) && !HasPair(kept, e.a, e.b) {
        kept := kept + [e];
      }
    }
    assert edges[..|edges|] == edges;
    r := SortBy(kept, ByPair);
  }

  /** `build_card_scope_layout`: seed, simulate in place, round and bound. */
  method BuildCardScopeLayout(cards: seq<Card>, edges: seq<Edge>, p: Params, num: Numerics) returns (layout: Layout)
    ensures layout == Build(cards, edges, p, num)
  {
    var ordered := SortBy(cards, ById);
    var seeds := Seeds(ordered, num);
    var bodies := new Body[|seeds|](i requires 0 <= i < |seeds| => seeds[i]);
    assert bodies[..] == seeds;
    var kept := CollectCanonicalEdges(edges, Ids(ordered));
    RunForceSimulation(bodies, Springs(ordered, kept), p, num.maths);
    var placed := PlaceAll(ordered, bodies[..], num);
    layout := Layout(WorldBounds(placed), placed, kept);
  }
}
