/**
 Turning an ingested card into rows: the card at the taxonomy root, edges to the cards its text
 mentions, then edges to its nearest cards, all or nothing.
 */
module Materialize {
  import opened Common
  import opened Store
  import ProjectionServices
  import ScopeProjection
  import Sorting

  /** A row of a candidate search. */
  datatype Similar = Similar(id: int, similarity: real)

  datatype Limits = Limits(titleK: int, semanticK: int, semanticMinStrength: real)

  function IdsOf(chosen: seq<Similar>): set<int> {
    if chosen == [] then {} else IdsOf(chosen[..|chosen| - 1]) + {chosen[|chosen| - 1].id}
  }

  lemma {:induction false} IdsHave(chosen: seq<Similar>)
    ensures forall i :: 0 <= i < |chosen| ==> chosen[i].id in IdsOf(chosen)
    ensures forall id :: id in IdsOf(chosen) ==> exists i :: 0 <= i < |chosen| && chosen[i].id == id
  {
    if chosen != [] {
      var n := |chosen| - 1;
      IdsHave(chosen[..n]);
      forall id | id in IdsOf(chosen) ensures exists i :: 0 <= i < |chosen| && chosen[i].id == id {
        if id in IdsOf(chosen[..n]) {
          var i :| 0 <= i < n && chosen[..n][i].id == id;
          assert chosen[i].id == id;
        } else {
          assert chosen[n].id == id;
        }
      }
    }
  }

  /** What a selection loop keeps of the first `n` candidates; no threshold applies to mentions. */
  function Selected(candidates: seq<Similar>, n: nat, taken: set<int>, k: int, atLeast: Option<real>): seq<Similar>
    requires n <= |candidates|
  {
    if n == 0 then []
    else
      var sofar := Selected(candidates, n - 1, taken, k, atLeast);
      var c := candidates[n - 1];
      if |sofar| >= k || c.id in taken || c.id in IdsOf(sofar) || !StrongEnough(c, atLeast) then sofar else sofar + [c]
  }

  predicate StrongEnough(c: Similar, atLeast: Option<real>) {
    atLeast == None || c.similarity >= atLeast.value
  }

  function MentionsChosen(mentions: seq<Similar>, limits: Limits): seq<Similar> {
    Selected(mentions, |mentions|, {}, limits.titleK, None)
  }

  function NearestChosen(mentions: seq<Similar>, nearest: seq<Similar>, limits: Limits): seq<Similar> {
    Selected(nearest, |nearest|, IdsOf(MentionsChosen(mentions, limits)), limits.semanticK, Some(limits.semanticMinStrength))
  }

  // ----- what is chosen -----

  ghost predicate OncePerCard(chosen: seq<Similar>) {
    forall i, j :: 0 <= i < j < |chosen| ==> chosen[i].id != chosen[j].id
  }

  /** A selection takes distinct, untaken, strong enough candidates, and at most `k` of them. */
  lemma {:induction false} SelectedAreEligible(candidates: seq<Similar>, n: nat, taken: set<int>, k: int, atLeast: Option<real>)
    requires n <= |candidates|
    ensures var chosen := Selected(candidates, n, taken, k, atLeast);
            && OncePerCard(chosen)
            && |chosen| <= (if k > 0 then k else 0)
            && forall c :: c in chosen ==> c in candidates[..n] && c.id !in taken && StrongEnough(c, atLeast)
  {
    if n > 0 {
      var sofar, c := Selected(candidates, n - 1, taken, k, atLeast), candidates[n - 1];
      SelectedAreEligible(candidates, n - 1, taken, k, atLeast);
      assert candidates[..n] == candidates[..n - 1] + [c];
      assert forall x :: x in sofar + [c] <==> x in sofar || x == c;
      if c.id !in IdsOf(sofar) {
        OnceMore(sofar, c);
      }
    }
  }

  lemma OnceMore(sofar: seq<Similar>, c: Similar)
    requires OncePerCard(sofar) && c.id !in IdsOf(sofar)
    ensures OncePerCard(sofar + [c])
  {
    IdsHave(sofar);
  }

  /** It stops short of `k` only when every eligible candidate's card has been taken. */
  lemma {:induction false} SelectedUntilFull(candidates: seq<Similar>, n: nat, taken: set<int>, k: int, atLeast: Option<real>)
    requires n <= |candidates|
    ensures var chosen := Selected(candidates, n, taken, k, atLeast);
            |chosen| < k ==>
              forall i :: 0 <= i < n && candidates[i].id !in taken && StrongEnough(candidates[i], atLeast) ==>
                candidates[i].id in IdsOf(chosen)
  {
    if n > 0 {
      SelectedUntilFull(candidates, n - 1, taken, k, atLeast);
      var sofar := Selected(candidates, n - 1, taken, k, atLeast);
      var c := candidates[n - 1];
      assert c in sofar + [c];
      assert forall x :: x in sofar ==> x in sofar + [c];
    }
  }

  /** What is chosen for a card is its first eligible candidate. */
  lemma {:induction false} SelectedAreFirst(candidates: seq<Similar>, n: nat, taken: set<int>, k: int, atLeast: Option<real>, c: Similar)
    requires n <= |candidates| && c in Selected(candidates, n, taken, k, atLeast)
    ensures exists p {:trigger candidates[p]} :: 0 <= p < n && candidates[p] == c &&
              forall q :: 0 <= q < p && candidates[q].id == c.id ==> !StrongEnough(candidates[q], atLeast)
  {
    var sofar := Selected(candidates, n - 1, taken, k, atLeast);
    if c in sofar {
      SelectedAreFirst(candidates, n - 1, taken, k, atLeast, c);
    } else {
      SelectedUntilFull(candidates, n - 1, taken, k, atLeast);
      assert candidates[n - 1] == c;
    }
  }

  // ----- what is stored -----

  /** Edges from the card to each chosen card, one call after the other. */
  ghost function Linked(rows: Rows, card: int, chosen: seq<Similar>): Outcome<Rows, StoreError>
    decreases |chosen|, 1
  {
    if chosen == [] then Ok(rows) else LinkedLast(rows, card, chosen)
  }

  ghost function LinkedLast(rows: Rows, card: int, chosen: seq<Similar>): Outcome<Rows, StoreError>
    requires chosen != []
    decreases |chosen|, 0
  {
    var n := |chosen| - 1;
    match Linked(rows, card, chosen[..n])
    case Raised(e) => Raised(e)
    case Ok(before) => ScopeProjection.EdgeCreated(before, card, chosen[n].id, chosen[n].similarity)
  }

  /** Linking one more card. */
  lemma LinkedSnoc(rows: Rows, card: int, chosen: seq<Similar>, c: Similar)
    ensures Linked(rows, card, chosen + [c]) ==
            match Linked(rows, card, chosen)
            case Raised(e) => Raised(e)
            case Ok(before) => ScopeProjection.EdgeCreated(before, card, c.id, c.similarity)
  {
    assert (chosen + [c])[..|chosen|] == chosen;
    assert Linked(rows, card, chosen + [c]) == LinkedLast(rows, card, chosen + [c]);
  }

  lemma {:induction false} LinkedConcat(rows: Rows, card: int, a: seq<Similar>, b: seq<Similar>)
    ensures Linked(rows, card, a + b) ==
            match Linked(rows, card, a) case Raised(e) => Raised(e) case Ok(mid) => Linked(mid, card, b)
  {
    if b == [] {
      assert a + b == a;
    } else {
      var n := |b| - 1;
      var front, last := b[..n], b[n];
      assert b == front + [last] && a + b == (a + front) + [last];
      LinkedConcat(rows, card, a, front);
      LinkedSnoc(rows, card, a + front, last);
      if Linked(rows, card, a).Ok? {
        LinkedSnoc(Linked(rows, card, a).value, card, front, last);
      }
    }
  }

  /** `materialize_card_from_ingestion` on the tables. */
  ghost function Materialized(rows: Rows, mentions: seq<Similar>, nearest: seq<Similar>, limits: Limits): Outcome<Rows, StoreError> {
    match ScopeProjection.CardCreated(rows)
    case Raised(e) => Raised(e)
    case Ok(created) =>
      Linked(created, rows.nextCardId, Chosen(mentions, nearest, limits))
  }

  /** The new card has no edge yet, so an edge to an existing other card always goes in. */
  ghost predicate Linkable(rows: Rows, card: int, c: Similar) {
    c.id in rows.cards && c.id != card && 0.0 <= c.similarity <= 1.0
  }

  function EdgeFor(card: int, c: Similar): Edge {
    if card < c.id then Edge(card, c.id, c.similarity) else Edge(c.id, card, c.similarity)
  }

  /** The edge table with one new edge per chosen card, in order. */
  function AddLinks(edges: map<int, Edge>, first: int, card: int, chosen: seq<Similar>): map<int, Edge> {
    if chosen == [] then edges
    else
      var n := |chosen| - 1;
      AddLinks(edges, first, card, chosen[..n])[first + n := EdgeFor(card, chosen[n])]
  }

  ghost predicate Unlinked(rows: Rows, card: int) {
    forall e {:trigger rows.edges[e]} :: e in rows.edges ==> e < rows.nextEdgeId && !ScopeProjection.IsEndpoint(rows.edges[e], card)
  }

  lemma {:induction false} LinksAre(rows: Rows, card: int, chosen: seq<Similar>, e: int)
    ensures var edges := AddLinks(rows.edges, rows.nextEdgeId, card, chosen);
            && (e in edges <==> e in rows.edges || rows.nextEdgeId <= e < rows.nextEdgeId + |chosen|)
            && (rows.nextEdgeId <= e < rows.nextEdgeId + |chosen| ==> edges[e] == EdgeFor(card, chosen[e - rows.nextEdgeId]))
            && (e in rows.edges && e < rows.nextEdgeId ==> edges[e] == rows.edges[e])
  {
    if chosen != [] {
      LinksAre(rows, card, chosen[..|chosen| - 1], e);
    }
  }

  lemma LinkIsFree(rows: Rows, card: int, chosen: seq<Similar>, c: Similar)
    requires Unlinked(rows, card) && c.id != card
    requires forall i :: 0 <= i < |chosen| ==> chosen[i].id != c.id
    ensures !PairTaken(AddLinks(rows.edges, rows.nextEdgeId, card, chosen), EdgeFor(card, c).a, EdgeFor(card, c).b)
  {
    var edges := AddLinks(rows.edges, rows.nextEdgeId, card, chosen);
    forall e | e in edges ensures edges[e].a != EdgeFor(card, c).a || edges[e].b != EdgeFor(card, c).b {
      LinksAre(rows, card, chosen, e);
      if e in rows.edges {
        assert !ScopeProjection.IsEndpoint(rows.edges[e], card);
      } else {
        assert edges[e] == EdgeFor(card, chosen[e - rows.nextEdgeId]);
      }
    }
  }

  /** When an edge can be created, and what that does to the edge table. */
  ghost predicate LinkOutcome(rows: Rows, card: int, c: Similar, r: Outcome<Rows, StoreError>) {
    && (r.Ok? <==> card in rows.cards && Linkable(rows, card, c) && !PairTaken(rows.edges, EdgeFor(card, c).a, EdgeFor(card, c).b))
    && (r.Ok? ==> r.value.edges == rows.edges[rows.nextEdgeId := EdgeFor(card, c)]
                  && r.value.cards == rows.cards && r.value.nextEdgeId == rows.nextEdgeId + 1)
  }

  lemma InsertedRows(rows: Rows, card: int, c: Similar)
    ensures LinkOutcome(rows, card, c, InsertEdge(rows, card, c.id, c.similarity))
  {
  }

  lemma EdgeCreatedRows(rows: Rows, card: int, c: Similar)
    ensures LinkOutcome(rows, card, c, ScopeProjection.EdgeCreated(rows, card, c.id, c.similarity))
  {
    InsertedRows(rows, card, c);
    var linking := InsertEdge(rows, card, c.id, c.similarity);
    if linking.Ok? {
      var both := ScopeProjection.Present(ScopeProjection.ScopeOfCard(rows, card), ScopeProjection.ScopeOfCard(rows, c.id));
      ScopeProjection.AddedToAllAt(linking.value, Sorting.SortedDistinct(both), rows.nextEdgeId, 0, 0);
    }
  }

  lemma LinkedNext(rows: Rows, before: Rows, card: int, front: seq<Similar>, c: Similar, r: Outcome<Rows, StoreError>)
    requires card in rows.cards && Unlinked(rows, card) && OncePerCard(front + [c])
    requires before.edges == AddLinks(rows.edges, rows.nextEdgeId, card, front)
    requires before.nextEdgeId == rows.nextEdgeId + |front| && before.cards == rows.cards
    requires LinkOutcome(before, card, c, r)
    ensures r.Ok? <==> Linkable(rows, card, c)
    ensures r.Ok? ==>
              && r.value.edges == AddLinks(rows.edges, rows.nextEdgeId, card, front + [c])
              && r.value.nextEdgeId == rows.nextEdgeId + |front| + 1 && r.value.cards == rows.cards
  {
    AddLinksNext(rows.edges, rows.nextEdgeId, card, front, c);
    if c.id != card {
      forall i | 0 <= i < |front| ensures front[i].id != c.id {
        assert (front + [c])[i] == front[i] && (front + [c])[|front|] == c;
      }
      LinkIsFree(rows, card, front, c);
    }
  }

  lemma AddLinksNext(edges: map<int, Edge>, first: int, card: int, front: seq<Similar>, c: Similar)
    ensures AddLinks(edges, first, card, front + [c]) == AddLinks(edges, first, card, front)[first + |front| := EdgeFor(card, c)]
  {
    assert (front + [c])[..|front|] == front;
  }

  /**
   Linking a card without edges to distinct candidates succeeds exactly when each candidate is an
   existing other card at a strength from zero to one; it adds one edge to each and nothing else.
   */
  lemma {:induction false} LinkedEdges(rows: Rows, card: int, chosen: seq<Similar>)
    requires card in rows.cards && Unlinked(rows, card) && OncePerCard(chosen)
    ensures Linked(rows, card, chosen).Ok? <==> forall i :: 0 <= i < |chosen| ==> Linkable(rows, card, chosen[i])
    ensures Linked(rows, card, chosen).Ok? ==>
              var after := Linked(rows, card, chosen).value;
              && after.edges == AddLinks(rows.edges, rows.nextEdgeId, card, chosen)
              && after.nextEdgeId == rows.nextEdgeId + |chosen| && after.cards == rows.cards
  {
    if chosen != [] {
      var n := |chosen| - 1;
      var front, c := chosen[..n], chosen[n];
      assert chosen == front + [c];
      LinkedEdges(rows, card, front);
      LinkedSnoc(rows, card, front, c);
      if Linked(rows, card, front).Ok? {
        var before := Linked(rows, card, front).value;
        EdgeCreatedRows(before, card, c);
        LinkedNext(rows, before, card, front, c, Linked(rows, card, chosen));
      }
    }
  }

  lemma {:induction false} LinkedKeeps(rows: Rows, card: int, chosen: seq<Similar>)
    requires ScopeProjection.Sound(rows) && ScopeProjection.IndexAgrees(rows) && Linked(rows, card, chosen).Ok?
    ensures ScopeProjection.Sound(Linked(rows, card, chosen).value)
    ensures ScopeProjection.IndexAgrees(Linked(rows, card, chosen).value)
  {
    if chosen != [] {
      var n := |chosen| - 1;
      assert chosen == chosen[..n] + [chosen[n]];
      LinkedSnoc(rows, card, chosen[..n], chosen[n]);
      LinkedKeeps(rows, card, chosen[..n]);
      var before := Linked(rows, card, chosen[..n]).value;
      ScopeProjection.EdgeCreatedSound(before, card, chosen[n].id, chosen[n].similarity);
      ScopeProjection.EdgeCreatedKeepsIndex(before, card, chosen[n].id, chosen[n].similarity);
    }
  }

  lemma {:induction false} LinkedSound(rows: Rows, card: int, chosen: seq<Similar>)
    requires ScopeProjection.Sound(rows) && Linked(rows, card, chosen).Ok?
    ensures ScopeProjection.Sound(Linked(rows, card, chosen).value)
  {
    if chosen != [] {
      var n := |chosen| - 1;
      assert chosen == chosen[..n] + [chosen[n]];
      LinkedSnoc(rows, card, chosen[..n], chosen[n]);
      LinkedSound(rows, card, chosen[..n]);
      ScopeProjection.EdgeCreatedSound(Linked(rows, card, chosen[..n]).value, card, chosen[n].id, chosen[n].similarity);
    }
  }

  /** The two selections name no card twice, and each keeps to its bound. */
  lemma ChosenOnce(mentions: seq<Similar>, nearest: seq<Similar>, limits: Limits)
    ensures OncePerCard(MentionsChosen(mentions, limits) + NearestChosen(mentions, nearest, limits))
    ensures |MentionsChosen(mentions, limits)| <= (if limits.titleK > 0 then limits.titleK else 0)
    ensures |NearestChosen(mentions, nearest, limits)| <= (if limits.semanticK > 0 then limits.semanticK else 0)
    ensures forall c :: c in MentionsChosen(mentions, limits) ==> c in mentions
    ensures forall c :: c in NearestChosen(mentions, nearest, limits) ==> c in nearest && c.similarity >= limits.semanticMinStrength
  {
    var first, second := MentionsChosen(mentions, limits), NearestChosen(mentions, nearest, limits);
    SelectedAreEligible(mentions, |mentions|, {}, limits.titleK, None);
    SelectedAreEligible(nearest, |nearest|, IdsOf(first), limits.semanticK, Some(limits.semanticMinStrength));
    assert mentions[..|mentions|] == mentions && nearest[..|nearest|] == nearest;
    var all := first + second;
    forall i, j | 0 <= i < j < |all| ensures all[i].id != all[j].id {
      if i < |first| <= j {
        IdsHave(first);
        assert second[j - |first|] in second;
      }
    }
  }

  ghost function Chosen(mentions: seq<Similar>, nearest: seq<Similar>, limits: Limits): seq<Similar> {
    MentionsChosen(mentions, limits) + NearestChosen(mentions, nearest, limits)
  }

  /**
   For any candidate lists, materialisation succeeds exactly when every chosen candidate is an
   existing card of valid similarity. It then leaves the old edges as they were, adds one edge from
   the new card to each chosen card, and keeps adjacency, tree and projection index right.
   */
  lemma MaterializedCard(rows: Rows, mentions: seq<Similar>, nearest: seq<Similar>, limits: Limits)
    requires ScopeProjection.Sound(rows) && ScopeProjection.IndexAgrees(rows)
    ensures var chosen := Chosen(mentions, nearest, limits);
            var r := Materialized(rows, mentions, nearest, limits);
            && (r.Ok? <==> forall i :: 0 <= i < |chosen| ==> chosen[i].id in rows.cards && 0.0 <= chosen[i].similarity <= 1.0)
            && (r.Ok? ==>
                  && r.value.cards == rows.cards + {rows.nextCardId}
                  && r.value.edges == AddLinks(rows.edges, rows.nextEdgeId, rows.nextCardId, chosen)
                  && r.value.nextEdgeId == rows.nextEdgeId + |chosen|
                  && ScopeProjection.Sound(r.value) && ScopeProjection.IndexAgrees(r.value))
  {
    var chosen := Chosen(mentions, nearest, limits);
    var card := rows.nextCardId;
    ScopeProjection.CardCreatedKeeps(rows);
    ScopeProjection.InsertCardSound(rows);
    var created := ScopeProjection.CardCreated(rows).value;
    CreatedRows(rows);
    ChosenOnce(mentions, nearest, limits);
    LinkedEdges(created, card, chosen);
    forall i | 0 <= i < |chosen| && Linkable(created, card, chosen[i]) ensures chosen[i].id in rows.cards {
    }
    if Linked(created, card, chosen).Ok? {
      LinkedKeeps(created, card, chosen);
    }
  }

  lemma CreatedRows(rows: Rows)
    requires ScopeProjection.Sound(rows) && ScopeProjection.CardCreated(rows).Ok?
    ensures var created := ScopeProjection.CardCreated(rows).value;
            && created.cards == rows.cards + {rows.nextCardId} && rows.nextCardId !in rows.cards
            && created.edges == rows.edges && created.nextEdgeId == rows.nextEdgeId
            && Unlinked(created, rows.nextCardId)
  {
    ScopeProjection.InsertCardSound(rows);
  }

  // ----- as the service runs it -----

  lemma {:induction false} FullSelection(candidates: seq<Similar>, n: nat, m: nat, taken: set<int>, k: int, atLeast: Option<real>)
    requires n <= m <= |candidates| && |Selected(candidates, n, taken, k, atLeast)| >= k
    ensures Selected(candidates, m, taken, k, atLeast) == Selected(candidates, n, taken, k, atLeast)
  {
    if n < m {
      FullSelection(candidates, n, m - 1, taken, k, atLeast);
    }
  }

  lemma IdsSnoc(chosen: seq<Similar>, c: Similar)
    ensures IdsOf(chosen + [c]) == IdsOf(chosen) + {c.id}
  {
    assert (chosen + [c])[..|chosen|] == chosen;
  }

  lemma SelectNext(candidates: seq<Similar>, n: nat, next: nat, taken: set<int>, k: int, atLeast: Option<real>)
    requires next == n + 1 <= |candidates| && |Selected(candidates, n, taken, k, atLeast)| < k
    ensures var sofar := Selected(candidates, n, taken, k, atLeast);
            var c := candidates[n];
            Selected(candidates, next, taken, k, atLeast) ==
            if c.id !in taken + IdsOf(sofar) && StrongEnough(c, atLeast) then sofar + [c] else sofar
  {
  }

  method LinkCandidate(session: Session, card: int, c: Similar, ghost start: Rows, ghost chosen: seq<Similar>)
    returns (failed: Option<StoreError>)
    requires ScopeProjection.Sound(start) && Linked(start, card, chosen) == Ok(session.Snapshot())
    modifies session
    ensures match Linked(start, card, chosen + [c])
            case Ok(rows) => failed == None && session.Snapshot() == rows
            case Raised(e) => failed == Some(e)
  {
    LinkedSnoc(start, card, chosen, c);
    LinkedSound(start, card, chosen);
    failed := ProjectionServices.CreateEdgeWithProjection(session, card, c.id, c.similarity);
  }

  /** The loop's body: skip a candidate, or link it and count it. */
  method Consider(session: Session, card: int, candidates: seq<Similar>, n: nat, ghost next: nat, taken: set<int>, k: int, atLeast: Option<real>,
                  chosen: seq<Similar>, selected: set<int>, ghost start: Rows)
    returns (failed: Option<StoreError>, chosen': seq<Similar>, selected': set<int>)
    requires ScopeProjection.Sound(start) && Linked(start, card, chosen) == Ok(session.Snapshot())
    requires next == n + 1 <= |candidates| && chosen == Selected(candidates, n, taken, k, atLeast) && |chosen| < k
    requires selected == taken + IdsOf(chosen)
    modifies session
    ensures failed == None ==>
              && chosen' == Selected(candidates, next, taken, k, atLeast) && selected' == taken + IdsOf(chosen')
              && Linked(start, card, chosen') == Ok(session.Snapshot())
    ensures failed.Some? ==> Linked(start, card, Selected(candidates, next, taken, k, atLeast)) == Raised(failed.value)
  {
    var c := candidates[n];
    failed, chosen', selected' := None, chosen, selected;
    SelectNext(candidates, n, next, taken, k, atLeast);
    if c.id !in selected && StrongEnough(c, atLeast) {
      IdsSnoc(chosen, c);
      failed := LinkCandidate(session, card, c, start, chosen);
      chosen', selected' := chosen + [c], selected + {c.id};
    }
  }

  /** One selection loop: it stops at its bound, or when the candidates run out, or a link fails. */
  method LinkSelected(session: Session, card: int, candidates: seq<Similar>, taken: set<int>, k: int, atLeast: Option<real>)
    returns (failed: Option<StoreError>, chosen: seq<Similar>)
    requires ScopeProjection.Sound(session.Snapshot()) && k > 0
    modifies session
    ensures failed == None ==>
              && chosen == Selected(candidates, |candidates|, taken, k, atLeast)
              && Linked(old(session.Snapshot()), card, chosen) == Ok(session.Snapshot())
    ensures failed.Some? ==>
              Linked(old(session.Snapshot()), card, Selected(candidates, |candidates|, taken, k, atLeast)) == Raised(failed.value)
  {
    ghost var start := session.Snapshot();
    chosen := [];
    failed := None;
    var selected := taken;
    var n := 0;
    while n < |candidates| && failed == None && |chosen| < k
      invariant n <= |candidates|
      invariant failed == None ==>
                  && chosen == Selected(candidates, n, taken, k, atLeast) && selected == taken + IdsOf(chosen)
                  && Linked(start, card, chosen) == Ok(session.Snapshot())
      invariant failed.Some? ==> Linked(start, card, Selected(candidates, n, taken, k, atLeast)) == Raised(failed.value)
      decreases |candidates| - n
    {
      ghost var next := n + 1;
      failed, chosen, selected := Consider(session, card, candidates, n, next, taken, k, atLeast, chosen, selected, start);
      n := n + 1;
    }
    if failed.Some? {
      FailsOnce(start, card, candidates, n, taken, k, atLeast);
    } else if n < |candidates| {
      FullSelection(candidates, n, |candidates|, taken, k, atLeast);
    }
  }

  lemma {:induction false} SelectedGrows(candidates: seq<Similar>, n: nat, m: nat, taken: set<int>, k: int, atLeast: Option<real>)
    requires n <= m <= |candidates|
    ensures Selected(candidates, n, taken, k, atLeast) <= Selected(candidates, m, taken, k, atLeast)
  {
    if n < m {
      SelectedGrows(candidates, n, m - 1, taken, k, atLeast);
    }
  }

  lemma FailsOnce(rows: Rows, card: int, candidates: seq<Similar>, n: nat, taken: set<int>, k: int, atLeast: Option<real>)
    requires n <= |candidates| && Linked(rows, card, Selected(candidates, n, taken, k, atLeast)).Raised?
    ensures Linked(rows, card, Selected(candidates, |candidates|, taken, k, atLeast))
         == Linked(rows, card, Selected(candidates, n, taken, k, atLeast))
  {
    SelectedGrows(candidates, n, |candidates|, taken, k, atLeast);
    var part, whole := Selected(candidates, n, taken, k, atLeast), Selected(candidates, |candidates|, taken, k, atLeast);
    LinkedConcat(rows, card, part, whole[|part|..]);
    assert part + whole[|part|..] == whole;
  }

  /** `materialize_card_from_ingestion`: a bound of zero or less skips its search altogether. */
  method MaterializeCard(session: Session, mentions: seq<Similar>, nearest: seq<Similar>, limits: Limits)
    returns (r: Outcome<int, StoreError>)
    requires ScopeProjection.Sound(session.Snapshot())
    modifies session
    ensures match Materialized(old(session.Snapshot()), mentions, nearest, limits)
            case Ok(rows) => r == Ok(old(session.nextCardId)) && session.Snapshot() == rows
            case Raised(e) => r == Raised(e) && session.Snapshot() == old(session.Snapshot())
  {
    var saved := session.Snapshot();
    var card := ProjectionServices.CreateCardAtRoot(session);
    ghost var created := session.Snapshot();
    LinkedConcat(created, card, MentionsChosen(mentions, limits), NearestChosen(mentions, nearest, limits));
    var failed: Option<StoreError> := None;
    var chosen: seq<Similar> := [];
    if limits.titleK > 0 {
      failed, chosen := LinkSelected(session, card, mentions, {}, limits.titleK, None);
    } else {
      NothingSelected(mentions, |mentions|, {}, limits.titleK, None);
    }
    assert failed == None ==> Linked(created, card, MentionsChosen(mentions, limits)) == Ok(session.Snapshot());
    if failed == None && limits.semanticK > 0 {
      LinkedSound(created, card, MentionsChosen(mentions, limits));
      var more;
      failed, more := LinkSelected(session, card, nearest, IdsOf(chosen), limits.semanticK, Some(limits.semanticMinStrength));
    } else {
      NothingSelected(nearest, |nearest|, IdsOf(MentionsChosen(mentions, limits)), limits.semanticK, Some(limits.semanticMinStrength));
    }
    if failed.Some? {
      session.Restore(saved);
      return Raised(failed.value);
    }
    return Ok(card);
  }

  lemma {:induction false} NothingSelected(candidates: seq<Similar>, n: nat, taken: set<int>, k: int, atLeast: Option<real>)
    requires n <= |candidates|
    ensures k <= 0 ==> Selected(candidates, n, taken, k, atLeast) == []
  {
    if n > 0 {
      NothingSelected(candidates, n - 1, taken, k, atLeast);
    }
  }
}
