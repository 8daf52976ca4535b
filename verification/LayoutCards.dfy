/**
 What a built layout shows: each card of the graph once with its kind, in ascending order, within
 bounds that fit, at coordinates whose sums follow from the number of cards alone.
 */
module LayoutCards {
  import opened CardScopeLayout
  import opened ForceSimulation
  import opened Sorting
  import opened Store

  lemma IdsOrder()
    ensures Preorder(ById)
  {
  }

  lemma SortedTwice(cards: seq<Card>)
    ensures SortBy(SortBy(cards, ById), ById) == SortBy(cards, ById)
    ensures Sorted(SortBy(cards, ById), ById) && |SortBy(cards, ById)| == |cards|
    ensures forall c :: c in SortBy(cards, ById) <==> c in cards
  {
    IdsOrder();
    SortBySorts(cards, ById);
    SortedIsFixed(SortBy(cards, ById), ById);
    SameElements(cards, SortBy(cards, ById));
  }

  ghost predicate SameCard(card: Card, placed: Placed) {
    placed.id == card.id && placed.kind == card.kind
  }

  lemma OrderedRise(cards: seq<Card>)
    requires DistinctCards(cards)
    ensures var ordered := SortBy(cards, ById); forall i, j :: 0 <= i < j < |ordered| ==> ordered[i].id < ordered[j].id
  {
    var ordered := SortBy(cards, ById);
    SortedTwice(cards);
    SortBySorts(cards, ById);
    AllDifferentByElements(cards, ordered);
    forall i, j | 0 <= i < j < |ordered| ensures ordered[i].id < ordered[j].id {
      assert ordered[i] in cards && ordered[j] in cards && ById(ordered[i], ordered[j]) && ordered[i] != ordered[j];
    }
  }

  lemma BuiltCards(g: Graph, p: Params, num: Numerics)
    ensures var shown, ordered := BuildFromGraph(g, p, num).cards, SortBy(g.cards, ById);
            |shown| == |ordered| && forall i :: 0 <= i < |shown| ==> SameCard(ordered[i], shown[i])
  {
    SortedTwice(g.cards);
  }

  /** A layout shows the graph's cards, each once, in ascending order of id. */
  lemma LaidOutCards(g: Graph, p: Params, num: Numerics)
    requires DistinctCards(g.cards)
    ensures var shown := BuildFromGraph(g, p, num).cards; AreShown(g.cards, shown)
  {
    BuiltCards(g, p, num);
    OrderedRise(g.cards);
    SortedTwice(g.cards);
    ShownInOrder(g.cards, SortBy(g.cards, ById), BuildFromGraph(g, p, num).cards);
  }

  ghost predicate AreShown(cards: seq<Card>, shown: seq<Placed>) {
    && |shown| == |cards|
    && (forall i, j :: 0 <= i < j < |shown| ==> shown[i].id < shown[j].id)
    && (forall i :: 0 <= i < |shown| ==> FromCards(cards, shown[i]))
    && (forall card :: card in cards ==> InShown(shown, card))
  }

  ghost predicate FromCards(cards: seq<Card>, placed: Placed) {
    exists card :: card in cards && SameCard(card, placed)
  }

  ghost predicate InShown(shown: seq<Placed>, card: Card) {
    exists i :: 0 <= i < |shown| && SameCard(card, shown[i])
  }

  lemma ShownInOrder(cards: seq<Card>, ordered: seq<Card>, shown: seq<Placed>)
    requires |shown| == |ordered| == |cards| && forall i :: 0 <= i < |shown| ==> SameCard(ordered[i], shown[i])
    requires forall i, j :: 0 <= i < j < |ordered| ==> ordered[i].id < ordered[j].id
    requires forall c :: c in ordered <==> c in cards
    ensures AreShown(cards, shown)
  {
    forall i, j | 0 <= i < j < |shown| ensures shown[i].id < shown[j].id {
      assert SameCard(ordered[i], shown[i]) && SameCard(ordered[j], shown[j]);
    }
    forall i | 0 <= i < |shown| ensures FromCards(cards, shown[i]) {
      assert ordered[i] in cards && SameCard(ordered[i], shown[i]);
    }
    forall card | card in cards ensures InShown(shown, card) {
      assert card in ordered;
      var i :| 0 <= i < |ordered| && ordered[i] == card;
      assert SameCard(card, shown[i]);
    }
  }

  // ----- bounds -----

  /** Every side of the bounds is touched by a card. */
  ghost predicate Fits(cards: seq<Placed>, box: Bounds) {
    && (exists k :: 0 <= k < |cards| && cards[k].x == box.minX)
    && (exists k :: 0 <= k < |cards| && cards[k].x == box.maxX)
    && (exists k :: 0 <= k < |cards| && cards[k].y == box.minY)
    && (exists k :: 0 <= k < |cards| && cards[k].y == box.maxY)
  }

  lemma {:induction false} BoundsFit(cards: seq<Placed>)
    requires cards != []
    ensures Fits(cards, BoundsOf(cards))
  {
    var n := |cards| - 1;
    if n == 0 {
      assert cards[0].x == BoundsOf(cards).minX;
    } else {
      BoundsFit(cards[..n]);
      var r := BoundsOf(cards[..n]);
      var a :| 0 <= a < n && cards[..n][a].x == r.minX;
      var b :| 0 <= b < n && cards[..n][b].x == r.maxX;
      var c :| 0 <= c < n && cards[..n][c].y == r.minY;
      var d :| 0 <= d < n && cards[..n][d].y == r.maxY;
      assert cards[if cards[n].x < r.minX then n else a].x == BoundsOf(cards).minX;
      assert cards[if cards[n].x > r.maxX then n else b].x == BoundsOf(cards).maxX;
      assert cards[if cards[n].y < r.minY then n else c].y == BoundsOf(cards).minY;
      assert cards[if cards[n].y > r.maxY then n else d].y == BoundsOf(cards).maxY;
    }
  }

  // ----- coordinates -----

  /** The sum of the first seeds of the spiral. */
  function SpiralSum(spiral: nat -> Vec, n: nat): Vec {
    if n == 0 then ZERO else Plus(SpiralSum(spiral, n - 1), spiral(n - 1))
  }

  function CoordinateSum(cards: seq<Placed>): Vec {
    if cards == [] then ZERO
    else
      var last := cards[|cards| - 1];
      Plus(CoordinateSum(cards[..|cards| - 1]), Vec(last.x, last.y))
  }

  lemma {:induction false} SeedsSum(bodies: seq<Body>, spiral: nat -> Vec)
    requires Seeded(bodies, spiral)
    ensures PositionSum(bodies) == SpiralSum(spiral, |bodies|) && Momentum(bodies) == ZERO
  {
    if bodies != [] {
      SeedsSum(bodies[..|bodies| - 1], spiral);
    }
  }

  lemma {:induction false} PlacedSum(cards: seq<Card>, bodies: seq<Body>, num: Numerics)
    requires |bodies| == |cards| && forall x :: num.rounded(x) == x
    ensures CoordinateSum(PlaceAll(cards, bodies, num)) == PositionSum(bodies)
  {
    if cards != [] {
      var n := |cards| - 1;
      PlacedSum(cards[..n], bodies[..n], num);
      assert PlaceAll(cards, bodies, num)[..n] == PlaceAll(cards[..n], bodies[..n], num);
    }
  }

  /**
   With exact coordinates and no boundary, the coordinates of a layout add up to what the recurrence
   of the sums gives from the seeds: nothing else about the graph matters.
   */
  lemma CoordinatesSum(g: Graph, p: Params, num: Numerics)
    requires RadialOff(p) && forall x :: num.rounded(x) == x
    ensures var n := |g.cards|;
            CoordinateSum(BuildFromGraph(g, p, num).cards) ==
            if n <= 1 then SpiralSum(num.spiral, n) else SumsAfter(ZERO, SpiralSum(num.spiral, n), 1.0, p.ticks, p).1
  {
    var ordered := SortBy(g.cards, ById);
    SortedTwice(g.cards);
    var kept := CanonicalEdges(g.edges, Ids(ordered));
    var seeds, springs := Seeds(ordered, num), Springs(ordered, kept);
    SeedsSum(seeds, num.spiral);
    if |seeds| > 1 {
      TicksSums(seeds, springs, 1.0, p.ticks, p, num.maths);
    }
    PlacedSum(ordered, Simulated(seeds, springs, p, num.maths), num);
  }

  /** Every coordinate shown is a rounded one. */
  lemma CoordinatesAreRounded(g: Graph, p: Params, num: Numerics, k: nat)
    requires k < |BuildFromGraph(g, p, num).cards| && forall x :: num.rounded(num.rounded(x)) == num.rounded(x)
    ensures var card := BuildFromGraph(g, p, num).cards[k]; num.rounded(card.x) == card.x && num.rounded(card.y) == card.y
  {
  }

  // ----- slices -----

  lemma {:induction false} EdgesWithinAre(edges: seq<Edge>, ids: set<int>, e: Edge)
    ensures e in EdgesWithin(edges, ids) <==> e in edges && Within(e, ids)
  {
    if edges != [] {
      var n := |edges| - 1;
      EdgesWithinAre(edges[..n], ids, e);
      assert edges == edges[..n] + [edges[n]];
    }
  }

  /** A slice shows exactly the cards inside its box, and exactly the edges both of whose ends it shows. */
  lemma SliceShows(layout: Layout, box: Bounds, card: Placed, edge: Edge)
    ensures var (cards, edges) := Slice(layout, box);
            && (card in cards <==> card in layout.cards && box.minX <= card.x <= box.maxX && box.minY <= card.y <= box.maxY)
            && (edge in edges <==> edge in layout.edges && Shown(cards, edge.a) && Shown(cards, edge.b))
  {
    var cards := CardsInside(layout.cards, box);
    InsideAre(layout.cards, box, card);
    EdgesWithinAre(layout.edges, PlacedIds(cards), edge);
    ShownIds(cards, edge.a);
    ShownIds(cards, edge.b);
  }

  ghost predicate Shown(cards: seq<Placed>, id: int) {
    exists k :: 0 <= k < |cards| && cards[k].id == id
  }

  lemma ShownIds(cards: seq<Placed>, id: int)
    ensures id in PlacedIds(cards) <==> Shown(cards, id)
  {
    if k :| 0 <= k < |cards| && cards[k].id == id {
      assert cards[k] in cards;
    }
  }
}
