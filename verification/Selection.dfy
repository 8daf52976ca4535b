/**
 Which cards an ingested card is linked to, read off the edge table: the first cards its text
 mentions, then the first sufficiently similar ones, each at the similarity it is first listed with.
 */
module Selection {
  import opened Common
  import opened Materialize
  import opened Store
  import ScopeProjection

  // ----- the first eligible candidates of a list -----

  /** The candidate may be linked, and no earlier one of its card may. */
  ghost predicate FirstEligible(candidates: seq<Similar>, p: int, taken: set<int>, atLeast: Option<real>) {
    && 0 <= p < |candidates| && candidates[p].id !in taken && StrongEnough(candidates[p], atLeast)
    && forall q :: 0 <= q < p && candidates[q].id == candidates[p].id ==> !StrongEnough(candidates[q], atLeast)
  }

  ghost predicate Rising(ps: seq<int>, n: nat) {
    && (forall i :: 0 <= i < |ps| ==> 0 <= ps[i] < n)
    && forall i, j :: 0 <= i < j < |ps| ==> ps[i] < ps[j]
  }

  /** The picked ones stand at these positions of the list, in list order, and each is the first eligible one of its card. */
  ghost predicate PickedAt(candidates: seq<Similar>, n: nat, taken: set<int>, atLeast: Option<real>, picked: seq<Similar>, ps: seq<int>)
    requires n <= |candidates|
  {
    && |ps| == |picked| && Rising(ps, n)
    && forall i :: 0 <= i < |ps| ==> picked[i] == candidates[ps[i]] && FirstEligible(candidates, ps[i], taken, atLeast)
  }

  /** Whatever first eligible candidate is not picked comes after `k` picked ones. */
  ghost predicate NoneSkipped(candidates: seq<Similar>, n: nat, taken: set<int>, k: int, atLeast: Option<real>, ps: seq<int>) {
    forall p {:trigger FirstEligible(candidates, p, taken, atLeast)} ::
      0 <= p < n && FirstEligible(candidates, p, taken, atLeast) && p !in ps ==> |ps| >= k && forall i :: 0 <= i < |ps| ==> ps[i] < p
  }

  ghost predicate PicksFirst(candidates: seq<Similar>, n: nat, taken: set<int>, k: int, atLeast: Option<real>, picked: seq<Similar>, ps: seq<int>)
    requires n <= |candidates|
  {
    && |picked| <= (if k > 0 then k else 0)
    && PickedAt(candidates, n, taken, atLeast, picked, ps) && NoneSkipped(candidates, n, taken, k, atLeast, ps)
  }

  /** The picked are the first eligible candidates of the list, `k` of them or all. */
  ghost predicate Picks(candidates: seq<Similar>, taken: set<int>, k: int, atLeast: Option<real>, picked: seq<Similar>) {
    exists ps :: PicksFirst(candidates, |candidates|, taken, k, atLeast, picked, ps)
  }

  // ----- the selection loop picks them -----

  lemma {:induction false} EarliestEligible(candidates: seq<Similar>, q: nat, taken: set<int>, atLeast: Option<real>) returns (p: nat)
    requires q < |candidates| && candidates[q].id !in taken && StrongEnough(candidates[q], atLeast)
    ensures p <= q && candidates[p].id == candidates[q].id && FirstEligible(candidates, p, taken, atLeast)
  {
    if FirstEligible(candidates, q, taken, atLeast) {
      p := q;
    } else {
      var r :| 0 <= r < q && candidates[r].id == candidates[q].id && StrongEnough(candidates[r], atLeast);
      p := EarliestEligible(candidates, r, taken, atLeast);
    }
  }

  lemma PickedIds(candidates: seq<Similar>, n: nat, taken: set<int>, atLeast: Option<real>, picked: seq<Similar>, ps: seq<int>, id: int)
    requires n <= |candidates| && PickedAt(candidates, n, taken, atLeast, picked, ps)
    ensures id in IdsOf(picked) <==> exists i :: 0 <= i < |ps| && candidates[ps[i]].id == id
  {
    IdsHave(picked);
    if id in IdsOf(picked) {
      var i :| 0 <= i < |picked| && picked[i].id == id;
      assert candidates[ps[i]].id == id;
    }
    if i :| 0 <= i < |ps| && candidates[ps[i]].id == id {
      assert picked[i].id == id;
    }
  }

  /** With room left, a candidate may be added exactly when it is the first eligible one of its card. */
  lemma AddsFirst(candidates: seq<Similar>, n: nat, taken: set<int>, k: int, atLeast: Option<real>, picked: seq<Similar>, ps: seq<int>)
    requires n < |candidates| && PicksFirst(candidates, n, taken, k, atLeast, picked, ps) && |picked| < k
    ensures candidates[n].id !in taken && candidates[n].id !in IdsOf(picked) && StrongEnough(candidates[n], atLeast)
       <==> FirstEligible(candidates, n, taken, atLeast)
  {
    var id := candidates[n].id;
    PickedIds(candidates, n, taken, atLeast, picked, ps, id);
    if id !in taken && StrongEnough(candidates[n], atLeast) {
      if !FirstEligible(candidates, n, taken, atLeast) {
        var p := EarliestEligible(candidates, n, taken, atLeast);
        assert p in ps;
      }
      if i :| 0 <= i < |ps| && candidates[ps[i]].id == id {
        assert FirstEligible(candidates, ps[i], taken, atLeast);
      }
    }
  }

  lemma SkipNext(candidates: seq<Similar>, n: nat, next: nat, taken: set<int>, k: int, atLeast: Option<real>, picked: seq<Similar>, ps: seq<int>)
    requires next == n + 1 <= |candidates| && PicksFirst(candidates, n, taken, k, atLeast, picked, ps)
    requires |picked| >= k || !FirstEligible(candidates, n, taken, atLeast)
    ensures PicksFirst(candidates, next, taken, k, atLeast, picked, ps)
  {
    forall p | 0 <= p < next && FirstEligible(candidates, p, taken, atLeast) && p !in ps
      ensures |ps| >= k && forall i :: 0 <= i < |ps| ==> ps[i] < p
    {
    }
  }

  lemma TakeNext(candidates: seq<Similar>, n: nat, next: nat, taken: set<int>, k: int, atLeast: Option<real>, picked: seq<Similar>, ps: seq<int>)
    requires next == n + 1 <= |candidates| && PicksFirst(candidates, n, taken, k, atLeast, picked, ps)
    requires |picked| < k && FirstEligible(candidates, n, taken, atLeast)
    ensures PicksFirst(candidates, next, taken, k, atLeast, picked + [candidates[n]], ps + [n])
  {
    var more := ps + [n];
    assert forall p :: p in more <==> p in ps || p == n;
  }

  lemma {:induction false} SelectedPicks(candidates: seq<Similar>, n: nat, taken: set<int>, k: int, atLeast: Option<real>) returns (ps: seq<int>)
    requires n <= |candidates|
    ensures PicksFirst(candidates, n, taken, k, atLeast, Selected(candidates, n, taken, k, atLeast), ps)
  {
    if n == 0 {
      ps := [];
    } else {
      var last := n - 1;
      var sofar := Selected(candidates, last, taken, k, atLeast);
      ps := SelectedPicks(candidates, last, taken, k, atLeast);
      if |sofar| < k {
        AddsFirst(candidates, last, taken, k, atLeast, sofar, ps);
      }
      if |sofar| < k && FirstEligible(candidates, last, taken, atLeast) {
        TakeNext(candidates, last, n, taken, k, atLeast, sofar, ps);
        ps := ps + [last];
      } else {
        SkipNext(candidates, last, n, taken, k, atLeast, sofar, ps);
      }
    }
  }

  /** With fewer than `k` picked, every sufficiently similar candidate's card is picked or was taken before. */
  lemma PicksUntilFull(candidates: seq<Similar>, taken: set<int>, k: int, atLeast: Option<real>, picked: seq<Similar>, q: nat)
    requires Picks(candidates, taken, k, atLeast, picked) && |picked| < k && q < |candidates| && StrongEnough(candidates[q], atLeast)
    ensures candidates[q].id in taken || candidates[q].id in IdsOf(picked)
  {
    var ps :| PicksFirst(candidates, |candidates|, taken, k, atLeast, picked, ps);
    if candidates[q].id !in taken {
      var p := EarliestEligible(candidates, q, taken, atLeast);
      assert p in ps;
      var i :| 0 <= i < |ps| && ps[i] == p;
      PickedIds(candidates, |candidates|, taken, atLeast, picked, ps, candidates[q].id);
    }
  }

  // ----- the edges of the new card -----

  /** The edge joins the two cards at this strength. */
  ghost predicate JoinsAt(edge: Edge, x: int, y: int, strength: real) {
    edge.a < edge.b && {edge.a, edge.b} == {x, y} && edge.strength == strength
  }

  /** The edges there were, and after them one for each of the picked, in order. */
  ghost predicate LinksAdded(rows: Rows, after: Rows, card: int, picked: seq<Similar>) {
    && after.nextEdgeId == rows.nextEdgeId + |picked|
    && (forall e :: e in after.edges <==> e in rows.edges || rows.nextEdgeId <= e < after.nextEdgeId)
    && (forall e :: e in rows.edges ==> after.edges[e] == rows.edges[e])
    && (forall i :: 0 <= i < |picked| ==>
          rows.nextEdgeId + i in after.edges
          && JoinsAt(after.edges[rows.nextEdgeId + i], card, picked[i].id, picked[i].similarity))
  }

  /** The card has an edge to the other one. */
  ghost predicate HasEdge(rows: Rows, card: int, other: int) {
    exists e :: e in rows.edges && {rows.edges[e].a, rows.edges[e].b} == {card, other}
  }

  lemma AddedLinks(rows: Rows, after: Rows, card: int, picked: seq<Similar>)
    requires ScopeProjection.Sound(rows) && after.edges == AddLinks(rows.edges, rows.nextEdgeId, card, picked)
    requires after.nextEdgeId == rows.nextEdgeId + |picked| && forall i :: 0 <= i < |picked| ==> picked[i].id != card
    ensures LinksAdded(rows, after, card, picked)
  {
    forall e
      ensures e in after.edges <==> e in rows.edges || rows.nextEdgeId <= e < after.nextEdgeId
      ensures e in rows.edges ==> after.edges[e] == rows.edges[e]
    {
      LinksAre(rows, card, picked, e);
      assert e in rows.edges ==> rows.edges[e].a < rows.edges[e].b && e < rows.nextEdgeId;
    }
    forall i | 0 <= i < |picked|
      ensures rows.nextEdgeId + i in after.edges
              && JoinsAt(after.edges[rows.nextEdgeId + i], card, picked[i].id, picked[i].similarity)
    {
      LinksAre(rows, card, picked, rows.nextEdgeId + i);
      assert after.edges[rows.nextEdgeId + i] == EdgeFor(card, picked[i]);
      assert picked[i].id != card;
    }
  }

  /**
   Materialisation links the new card to the first cards mentioned, up to their bound, and then to
   the first other cards listed as near enough, up to theirs; it succeeds exactly when all of them
   exist and have valid similarities, and its new edges are those links, in that order.
   */
  lemma MaterializedLinks(rows: Rows, mentions: seq<Similar>, nearest: seq<Similar>, limits: Limits)
    returns (first: seq<Similar>, second: seq<Similar>)
    requires ScopeProjection.Sound(rows) && ScopeProjection.IndexAgrees(rows)
    ensures Picks(mentions, {}, limits.titleK, None, first)
    ensures Picks(nearest, IdsOf(first), limits.semanticK, Some(limits.semanticMinStrength), second)
    ensures var r := Materialized(rows, mentions, nearest, limits);
            && (r.Ok? <==> forall c :: c in first + second ==> c.id in rows.cards && 0.0 <= c.similarity <= 1.0)
            && (r.Ok? ==> LinksAdded(rows, r.value, rows.nextCardId, first + second))
  {
    first := Selected(mentions, |mentions|, {}, limits.titleK, None);
    second := Selected(nearest, |nearest|, IdsOf(first), limits.semanticK, Some(limits.semanticMinStrength));
    var ps := SelectedPicks(mentions, |mentions|, {}, limits.titleK, None);
    var qs := SelectedPicks(nearest, |nearest|, IdsOf(first), limits.semanticK, Some(limits.semanticMinStrength));
    assert Picks(mentions, {}, limits.titleK, None, first);
    assert Picks(nearest, IdsOf(first), limits.semanticK, Some(limits.semanticMinStrength), second);
    MaterializedCard(rows, mentions, nearest, limits);
    assert Chosen(mentions, nearest, limits) == first + second;
    var r := Materialized(rows, mentions, nearest, limits);
    if r.Ok? {
      CreatedCardIsNew(rows, first + second);
      AddedLinks(rows, r.value, rows.nextCardId, first + second);
    }
  }

  lemma CreatedCardIsNew(rows: Rows, picked: seq<Similar>)
    requires ScopeProjection.Sound(rows) && forall i :: 0 <= i < |picked| ==> picked[i].id in rows.cards
    ensures forall i :: 0 <= i < |picked| ==> picked[i].id != rows.nextCardId
  {
    ScopeProjection.InsertCardSound(rows);
  }

  lemma LinkedOnes(rows: Rows, after: Rows, card: int, picked: seq<Similar>, id: int)
    requires LinksAdded(rows, after, card, picked) && id in IdsOf(picked)
    ensures HasEdge(after, card, id)
  {
    IdsHave(picked);
    var i :| 0 <= i < |picked| && picked[i].id == id;
    assert JoinsAt(after.edges[rows.nextEdgeId + i], card, picked[i].id, picked[i].similarity);
  }

  lemma {:induction false} IdsOfBoth(a: seq<Similar>, b: seq<Similar>)
    ensures IdsOf(a + b) == IdsOf(a) + IdsOf(b)
  {
    if b == [] {
      assert a + b == a;
    } else {
      var n := |b| - 1;
      IdsOfBoth(a, b[..n]);
      assert (a + b)[..|a| + n] == a + b[..n];
    }
  }

  /**
   With fewer links to mentioned cards than their bound, every mentioned card has an edge; with
   fewer further links than theirs, every card listed as near enough has one.
   */
  lemma NothingEligibleIsLeftOut(rows: Rows, mentions: seq<Similar>, nearest: seq<Similar>, limits: Limits)
    returns (first: seq<Similar>, second: seq<Similar>)
    requires ScopeProjection.Sound(rows) && ScopeProjection.IndexAgrees(rows) && Materialized(rows, mentions, nearest, limits).Ok?
    ensures Picks(mentions, {}, limits.titleK, None, first)
    ensures Picks(nearest, IdsOf(first), limits.semanticK, Some(limits.semanticMinStrength), second)
    ensures var after := Materialized(rows, mentions, nearest, limits).value;
            && LinksAdded(rows, after, rows.nextCardId, first + second)
            && (|first| < limits.titleK ==> forall q :: 0 <= q < |mentions| ==> HasEdge(after, rows.nextCardId, mentions[q].id))
            && (|second| < limits.semanticK ==>
                  forall q :: 0 <= q < |nearest| && nearest[q].similarity >= limits.semanticMinStrength ==>
                    HasEdge(after, rows.nextCardId, nearest[q].id))
  {
    first, second := MaterializedLinks(rows, mentions, nearest, limits);
    var after := Materialized(rows, mentions, nearest, limits).value;
    IdsOfBoth(first, second);
    forall q | |first| < limits.titleK && 0 <= q < |mentions| ensures HasEdge(after, rows.nextCardId, mentions[q].id) {
      PicksUntilFull(mentions, {}, limits.titleK, None, first, q);
      LinkedOnes(rows, after, rows.nextCardId, first + second, mentions[q].id);
    }
    forall q | |second| < limits.semanticK && 0 <= q < |nearest| && nearest[q].similarity >= limits.semanticMinStrength
      ensures HasEdge(after, rows.nextCardId, nearest[q].id)
    {
      PicksUntilFull(nearest, IdsOf(first), limits.semanticK, Some(limits.semanticMinStrength), second, q);
      LinkedOnes(rows, after, rows.nextCardId, first + second, nearest[q].id);
    }
  }
}
