/**
 Planning similarity edges: for every card, its most similar earlier cards. The bulk planner works
 through the dot products in chunks; the older planner asks the database card by card.
 */
module EdgePlanning {
  import opened Common
  import opened Sorting
  import opened Store

  datatype Candidate = Candidate(id: int, dot: real)

  datatype PolicyError = TopKTooSmall | MinStrengthOutOfRange | ChunkSizeTooSmall

  /** How many edges a card may get, and how strong they must be. */
  datatype Policy = Policy(topK: int, minStrength: real)

  /** Dot products of the embeddings of two cards, source first. */
  type Dots = (int, int) -> real

  /** `_dot_product_to_similarity`, and the clipping of the bulk planner. */
  function Similarity(dot: real): (strength: real)
    ensures 0.0 <= strength <= 1.0
    ensures -1.0 <= dot <= 1.0 ==> strength == (dot + 1.0) / 2.0
    ensures (dot > 1.0 ==> strength == 1.0) && (dot < -1.0 ==> strength == 0.0)
  {
    var scaled := (dot + 1.0) / 2.0;
    if scaled < 0.0 then 0.0 else if scaled > 1.0 then 1.0 else scaled
  }

  /** `_validate_rebuild_policy` */
  function PolicyProblem(policy: Policy): Option<PolicyError> {
    if policy.topK < 1 then Some(TopKTooSmall)
    else if policy.minStrength < 0.0 || policy.minStrength > 1.0 then Some(MinStrengthOutOfRange)
    else None
  }

  /** Strongest first, then lowest id. */
  predicate ByStrength(x: Candidate, y: Candidate) {
    Similarity(x.dot) > Similarity(y.dot) || (Similarity(x.dot) == Similarity(y.dot) && x.id <= y.id)
  }

  /** Largest dot product first, then lowest id, as the database orders it. */
  predicate ByDot(x: Candidate, y: Candidate) {
    x.dot > y.dot || (x.dot == y.dot && x.id <= y.id)
  }

  function AtLeast(candidates: seq<Candidate>, minStrength: real): seq<Candidate> {
    if candidates == [] then []
    else
      var n := |candidates| - 1;
      AtLeast(candidates[..n], minStrength)
      + if Similarity(candidates[n].dot) >= minStrength then [candidates[n]] else []
  }

  /** The cards before position `j`, as candidates for the card there. */
  function Earlier(ids: seq<int>, j: nat, dots: Dots): seq<Candidate>
    requires j < |ids|
  {
    seq(j, r requires 0 <= r < j => Candidate(ids[r], dots(ids[j], ids[r])))
  }

  function Planned(source: int, chosen: seq<Candidate>): seq<PlannedEdge> {
    seq(|chosen|, i requires 0 <= i < |chosen| => PlannedEdge(source, chosen[i].id, Similarity(chosen[i].dot)))
  }

  /** The bulk planner's choice: filter, then rank by strength, then cut. */
  function Chosen(candidates: seq<Candidate>, policy: Policy): seq<Candidate>
    requires policy.topK >= 1
  {
    First(SortBy(AtLeast(candidates, policy.minStrength), ByStrength), policy.topK)
  }

  /** The per-card planner's choice: rank by dot product, then filter, then cut. */
  function ChosenByDot(candidates: seq<Candidate>, policy: Policy): seq<Candidate>
    requires policy.topK >= 1
  {
    First(AtLeast(SortBy(candidates, ByDot), policy.minStrength), policy.topK)
  }

  /** The bulk plan for the first `n` cards in id order. */
  function Plan(ids: seq<int>, n: nat, policy: Policy, dots: Dots): seq<PlannedEdge>
    requires n <= |ids| && policy.topK >= 1
  {
    if n == 0 then []
    else Plan(ids, n - 1, policy, dots) + Planned(ids[n - 1], Chosen(Earlier(ids, n - 1, dots), policy))
  }

  function PlanByDot(ids: seq<int>, n: nat, policy: Policy, dots: Dots): seq<PlannedEdge>
    requires n <= |ids| && policy.topK >= 1
  {
    if n == 0 then []
    else PlanByDot(ids, n - 1, policy, dots) + Planned(ids[n - 1], ChosenByDot(Earlier(ids, n - 1, dots), policy))
  }

  // ----- the planners as they run -----

  /** `plan_knowledge_graph_edges_from_embeddings`: the plan is the same for every chunk size. */
  method PlanFromEmbeddings(nodes: seq<int>, policy: Policy, chunkSize: int, dots: Dots)
    returns (r: Outcome<seq<PlannedEdge>, PolicyError>)
    ensures r == if PolicyProblem(policy).Some? then Raised(PolicyProblem(policy).value)
                 else if chunkSize < 1 then Raised(ChunkSizeTooSmall)
                 else Ok(Plan(SortBy(nodes, Ascending), |SortBy(nodes, Ascending)|, policy, dots))
    ensures r.Ok? <==> policy.topK >= 1 && 0.0 <= policy.minStrength <= 1.0 && chunkSize >= 1
  {
    var problem := PolicyProblem(policy);
    if problem.Some? {
      return Raised(problem.value);
    }
    if chunkSize < 1 {
      return Raised(ChunkSizeTooSmall);
    }
    var ids := SortBy(nodes, Ascending);
    var planned: seq<PlannedEdge> := [];
    var start := 0;
    while start < |ids|
      invariant 0 <= start <= |ids| && planned == Plan(ids, start, policy, dots)
      decreases |ids| - start
    {
      var end := if start + chunkSize < |ids| then start + chunkSize else |ids|;
      for source := start to end
        invariant planned == Plan(ids, source, policy, dots)
      {
        var eligible := AtLeast(Earlier(ids, source, dots), policy.minStrength);
        if eligible == [] {
          assert Plan(ids, source + 1, policy, dots) == planned + [];
          continue;
        }
        var ordered := SortBy(eligible, ByStrength);
        planned := planned + Planned(ids[source], First(ordered, policy.topK));
      }
      start := end;
    }
    return Ok(planned);
  }

  /** `plan_knowledge_graph_edges`, over the ids in ascending order. */
  method PlanCardByCard(ids: seq<int>, policy: Policy, dots: Dots) returns (r: Outcome<seq<PlannedEdge>, PolicyError>)
    ensures r == if PolicyProblem(policy).Some? then Raised(PolicyProblem(policy).value)
                 else Ok(PlanByDot(ids, |ids|, policy, dots))
    ensures r.Ok? <==> policy.topK >= 1 && 0.0 <= policy.minStrength <= 1.0
  {
    var problem := PolicyProblem(policy);
    if problem.Some? {
      return Raised(problem.value);
    }
    var planned: seq<PlannedEdge> := [];
    for source := 0 to |ids|
      invariant planned == PlanByDot(ids, source, policy, dots)
    {
      var candidates := SortBy(Earlier(ids, source, dots), ByDot);
      var aboveThreshold := AtLeast(candidates, policy.minStrength);
      planned := planned + Planned(ids[source], First(aboveThreshold, policy.topK));
    }
    return Ok(planned);
  }

  // ----- ranking -----

  ghost predicate DistinctIds(s: seq<Candidate>) {
    forall i, j :: 0 <= i < j < |s| ==> s[i].id != s[j].id
  }

  lemma IdDecides(s: seq<Candidate>, x: Candidate, y: Candidate)
    requires DistinctIds(s) && x in s && y in s && x.id == y.id
    ensures x == y
  {
  }

  lemma DifferentIds(s: seq<Candidate>, x: Candidate, y: Candidate)
    requires DistinctIds(s) && x in s && y in s && x != y
    ensures x.id != y.id
  {
  }

  lemma {:induction false} AtLeastHas(s: seq<Candidate>, min: real, x: Candidate)
    ensures x in AtLeast(s, min) <==> x in s && Similarity(x.dot) >= min
  {
    if s != [] {
      AtLeastHas(s[..|s| - 1], min, x);
      assert s == s[..|s| - 1] + [s[|s| - 1]];
    }
  }

  lemma {:induction false} AtLeastKeeps(s: seq<Candidate>, min: real, le: (Candidate, Candidate) -> bool)
    ensures Sorted(s, le) ==> Sorted(AtLeast(s, min), le)
    ensures DistinctIds(s) ==> DistinctIds(AtLeast(s, min))
  {
    if s != [] {
      var n := |s| - 1;
      AtLeastKeeps(s[..n], min, le);
      var front := AtLeast(s[..n], min);
      forall i | 0 <= i < |front| ensures Sorted(s, le) ==> le(front[i], s[n])
                                  ensures DistinctIds(s) ==> front[i].id != s[n].id
      {
        AtLeastHas(s[..n], min, front[i]);
      }
    }
  }

  lemma DistinctIdsDiffer(s: seq<Candidate>)
    requires DistinctIds(s)
    ensures AllDifferent(s)
  {
  }

  lemma SortKeepsIds(s: seq<Candidate>, le: (Candidate, Candidate) -> bool)
    requires DistinctIds(s) && Preorder(le)
    ensures DistinctIds(SortBy(s, le))
  {
    var r := SortBy(s, le);
    SortBySorts(s, le);
    DistinctIdsDiffer(s);
    AllDifferentByElements(s, r);
    SameElements(s, r);
    forall i, j | 0 <= i < j < |r| ensures r[i].id != r[j].id {
      assert r[i] in s && r[j] in s && r[i] != r[j];
      DifferentIds(s, r[i], r[j]);
    }
  }

  lemma SameAtLeast(s: seq<Candidate>, t: seq<Candidate>, min: real)
    requires multiset(s) == multiset(t)
    ensures forall x :: x in AtLeast(s, min) <==> x in AtLeast(t, min)
  {
    SameElements(s, t);
    forall x ensures x in AtLeast(s, min) <==> x in AtLeast(t, min) {
      AtLeastHas(s, min, x);
      AtLeastHas(t, min, x);
    }
  }

  /** Filtering before or after ranking is the same. */
  lemma FilterThenRank(s: seq<Candidate>, min: real)
    requires DistinctIds(s)
    ensures SortBy(AtLeast(s, min), ByStrength) == AtLeast(SortBy(s, ByStrength), min)
  {
    var ranked := SortBy(s, ByStrength);
    var early, late := AtLeast(s, min), AtLeast(ranked, min);
    SortBySorts(s, ByStrength);
    SortKeepsIds(s, ByStrength);
    AtLeastKeeps(s, min, ByStrength);
    AtLeastKeeps(ranked, min, ByStrength);
    SameAtLeast(s, ranked, min);
    RankDistinct(early, late);
    SortedIsFixed(late, ByStrength);
  }

  lemma RankDistinct(s: seq<Candidate>, t: seq<Candidate>)
    requires DistinctIds(s) && DistinctIds(t) && forall x :: x in s <==> x in t
    ensures SortBy(s, ByStrength) == SortBy(t, ByStrength)
  {
    DistinctIdsDiffer(s);
    DistinctIdsDiffer(t);
    forall x, y | x in s && y in s && ByStrength(x, y) && ByStrength(y, x) ensures x == y {
      IdDecides(s, x, y);
    }
    SortDistinct(s, t, ByStrength);
  }

  /** Two cards of equal clipped strength whose dot products and ids order them differently. */
  ghost predicate Inverted(x: Candidate, y: Candidate) {
    x.id < y.id && Similarity(x.dot) == Similarity(y.dot) && x.dot < y.dot
  }

  ghost predicate NoInversion(s: seq<Candidate>) {
    forall x, y :: x in s && y in s ==> !Inverted(x, y)
  }

  lemma SimilarityGrows(a: real, b: real)
    requires a <= b
    ensures Similarity(a) <= Similarity(b)
    ensures a < b && -1.0 <= a && b <= 1.0 ==> Similarity(a) < Similarity(b)
  {
  }

  lemma RankedByDot(s: seq<Candidate>)
    requires NoInversion(s) && Sorted(s, ByDot)
    ensures Sorted(s, ByStrength)
  {
    forall i, j | 0 <= i < j < |s| ensures ByStrength(s[i], s[j]) {
      SimilarityGrows(s[j].dot, s[i].dot);
      assert ByDot(s[i], s[j]);
      assert !Inverted(s[j], s[i]);
    }
  }

  lemma RankedBothWays(s: seq<Candidate>)
    requires Sorted(s, ByStrength) && Sorted(s, ByDot)
    ensures NoInversion(s)
  {
    forall x, y | x in s && y in s ensures !Inverted(x, y) {
      var i :| 0 <= i < |s| && s[i] == x;
      var j :| 0 <= j < |s| && s[j] == y;
    }
  }

  /** Ranking by strength and ranking by dot product agree exactly when nothing is inverted. */
  lemma RanksAgree(s: seq<Candidate>)
    requires DistinctIds(s)
    ensures SortBy(s, ByStrength) == SortBy(s, ByDot) <==> NoInversion(s)
  {
    var byDot := SortBy(s, ByDot);
    SortBySorts(s, ByDot);
    SameElements(s, byDot);
    if NoInversion(s) {
      RankedByDot(byDot);
      RanksUnique(s, byDot);
    } else if SortBy(s, ByStrength) == byDot {
      SortBySorts(s, ByStrength);
      RankedBothWays(byDot);
    }
  }

  lemma RanksUnique(s: seq<Candidate>, t: seq<Candidate>)
    requires DistinctIds(s) && multiset(t) == multiset(s) && Sorted(t, ByStrength)
    ensures SortBy(s, ByStrength) == t
  {
    SortBySorts(s, ByStrength);
    SameElements(s, SortBy(s, ByStrength));
    forall x, y | x in multiset(SortBy(s, ByStrength)) && y in multiset(SortBy(s, ByStrength))
                  && ByStrength(x, y) && ByStrength(y, x)
      ensures x == y
    {
      IdDecides(s, x, y);
    }
    SortedUnique(SortBy(s, ByStrength), t, ByStrength);
  }

  // ----- the two planners compared -----

  ghost predicate Increasing(ids: seq<int>) {
    forall i, j :: 0 <= i < j < |ids| ==> ids[i] < ids[j]
  }

  ghost predicate Acceptable(policy: Policy) {
    PolicyProblem(policy) == None
  }

  lemma EarlierDistinct(ids: seq<int>, j: nat, dots: Dots)
    requires Increasing(ids) && j < |ids|
    ensures DistinctIds(Earlier(ids, j, dots))
  {
  }

  lemma ChoicesAgree(s: seq<Candidate>, policy: Policy)
    requires DistinctIds(s) && NoInversion(s) && policy.topK >= 1
    ensures Chosen(s, policy) == ChosenByDot(s, policy)
  {
    RanksAgree(s);
    FilterThenRank(s, policy.minStrength);
  }

  ghost predicate PlansAgree(ids: seq<int>, n: nat, policy: Policy, dots: Dots)
    requires n <= |ids| && policy.topK >= 1
  {
    Plan(ids, n, policy, dots) == PlanByDot(ids, n, policy, dots)
  }

  lemma {:induction false} AgreeingPlans(ids: seq<int>, n: nat, policy: Policy, dots: Dots)
    requires Increasing(ids) && n <= |ids| && policy.topK >= 1
    requires forall j :: 0 <= j < n ==> NoInversion(Earlier(ids, j, dots))
    ensures PlansAgree(ids, n, policy, dots)
  {
    if n > 0 {
      AgreeingPlans(ids, n - 1, policy, dots);
      EarlierDistinct(ids, n - 1, dots);
      ChoicesAgree(Earlier(ids, n - 1, dots), policy);
    }
  }

  lemma {:induction false} NothingFiltered(s: seq<Candidate>)
    ensures AtLeast(s, 0.0) == s
  {
    if s != [] {
      NothingFiltered(s[..|s| - 1]);
    }
  }

  /** With no threshold and no cut, a card's choice is its whole ranking. */
  lemma WholeRanking(s: seq<Candidate>, policy: Policy)
    requires policy.minStrength == 0.0 && policy.topK >= 1 && |s| <= policy.topK
    ensures Chosen(s, policy) == SortBy(s, ByStrength) && ChosenByDot(s, policy) == SortBy(s, ByDot)
    ensures |SortBy(s, ByStrength)| == |s| && |SortBy(s, ByDot)| == |s|
  {
    NothingFiltered(s);
    NothingFiltered(SortBy(s, ByDot));
    SortBySorts(s, ByStrength);
    SortBySorts(s, ByDot);
  }

  lemma SamePlanned(source: int, a: seq<Candidate>, b: seq<Candidate>, s: seq<Candidate>)
    requires DistinctIds(s) && multiset(a) == multiset(s) == multiset(b) && |a| == |b|
    requires Planned(source, a) == Planned(source, b)
    ensures a == b
  {
    SameElements(a, s);
    SameElements(b, s);
    forall i | 0 <= i < |a| ensures a[i] == b[i] {
      assert Planned(source, a)[i].related == a[i].id && Planned(source, b)[i].related == b[i].id;
      IdDecides(s, a[i], b[i]);
    }
  }

  lemma SameSegments<T>(a: seq<T>, x: seq<T>, b: seq<T>, y: seq<T>)
    requires a + x == b + y && |x| == |y|
    ensures a == b && x == y
  {
    assert |a| == |b|;
    assert a == (a + x)[..|a|] && b == (b + y)[..|b|];
    assert x == (a + x)[|a|..] && y == (b + y)[|b|..];
  }

  lemma SameRankings(source: int, s: seq<Candidate>)
    requires DistinctIds(s) && Planned(source, SortBy(s, ByStrength)) == Planned(source, SortBy(s, ByDot))
    ensures NoInversion(s)
  {
    SortBySorts(s, ByStrength);
    SortBySorts(s, ByDot);
    SamePlanned(source, SortBy(s, ByStrength), SortBy(s, ByDot), s);
    RanksAgree(s);
  }

  lemma LastCardAgrees(ids: seq<int>, n: nat, policy: Policy, dots: Dots)
    requires Increasing(ids) && 0 < n <= |ids| <= policy.topK && policy.minStrength == 0.0
    requires PlansAgree(ids, n, policy, dots)
    ensures PlansAgree(ids, n - 1, policy, dots) && NoInversion(Earlier(ids, n - 1, dots))
  {
    var s := Earlier(ids, n - 1, dots);
    EarlierDistinct(ids, n - 1, dots);
    WholeRanking(s, policy);
    SameSegments(Plan(ids, n - 1, policy, dots), Planned(ids[n - 1], SortBy(s, ByStrength)),
                 PlanByDot(ids, n - 1, policy, dots), Planned(ids[n - 1], SortBy(s, ByDot)));
    SameRankings(ids[n - 1], s);
  }

  /** If whole rankings planned up to `n` agree, no earlier card's candidates are inverted. */
  lemma {:induction false} AgreementMeansNoInversion(ids: seq<int>, n: nat, policy: Policy, dots: Dots)
    requires Increasing(ids) && n <= |ids| <= policy.topK && policy.topK >= 1 && policy.minStrength == 0.0
    requires PlansAgree(ids, n, policy, dots)
    ensures forall j :: 0 <= j < n ==> NoInversion(Earlier(ids, j, dots))
  {
    if n > 0 {
      LastCardAgrees(ids, n, policy, dots);
      AgreementMeansNoInversion(ids, n - 1, policy, dots);
    }
  }

  /**
   The two planners give the same plan for every accepted policy if and only if no card has two
   earlier cards whose similarities clip to the same strength while the one with the higher id has
   the larger dot product.
   */
  lemma PlannersAgree(ids: seq<int>, dots: Dots)
    requires Increasing(ids)
    ensures (forall policy {:trigger PlansAgree(ids, |ids|, policy, dots)} ::
               Acceptable(policy) ==> PlansAgree(ids, |ids|, policy, dots))
       <==> (forall j :: 0 <= j < |ids| ==> NoInversion(Earlier(ids, j, dots)))
  {
    if forall j :: 0 <= j < |ids| ==> NoInversion(Earlier(ids, j, dots)) {
      forall policy | Acceptable(policy) ensures PlansAgree(ids, |ids|, policy, dots) {
        AgreeingPlans(ids, |ids|, policy, dots);
      }
    }
    var everything := Policy(|ids| + 1, 0.0);
    assert Acceptable(everything);
    if PlansAgree(ids, |ids|, everything, dots) {
      AgreementMeansNoInversion(ids, |ids|, everything, dots);
    }
  }

  /** Dot products of unit vectors are never inverted. */
  lemma UnitDotsAgree(ids: seq<int>, dots: Dots, policy: Policy)
    requires Increasing(ids) && Acceptable(policy)
    requires forall a, b :: -1.0 <= dots(a, b) <= 1.0
    ensures Plan(ids, |ids|, policy, dots) == PlanByDot(ids, |ids|, policy, dots)
  {
    forall j | 0 <= j < |ids| ensures NoInversion(Earlier(ids, j, dots)) {
      var s := Earlier(ids, j, dots);
      forall x, y | x in s && y in s ensures !Inverted(x, y) {
        if x.dot < y.dot {
          SimilarityGrows(x.dot, y.dot);
        }
      }
    }
    AgreeingPlans(ids, |ids|, policy, dots);
  }

  /** Unnormalised embeddings can tell the planners apart: both similarities clip to one. */
  lemma PlannersDiffer()
    ensures exists policy {:trigger Acceptable(policy)} ::
              Acceptable(policy) && !PlansAgree([1, 2, 3], 3, policy, (source: int, related: int) => related as real)
  {
    var ids := [1, 2, 3];
    var dots: Dots := (source: int, related: int) => related as real;
    var s := Earlier(ids, 2, dots);
    assert s[0] == Candidate(1, 1.0) && s[1] == Candidate(2, 2.0);
    assert Inverted(s[0], s[1]);
    PlannersAgree(ids, dots);
  }

  // ----- what a plan is -----

  /** A plan for the first cards is the beginning of the plan for all. */
  lemma {:induction false} PlanPrefix(ids: seq<int>, i: nat, n: nat, policy: Policy, dots: Dots)
    requires i <= n <= |ids| && policy.topK >= 1
    ensures Plan(ids[..i], i, policy, dots) <= Plan(ids, n, policy, dots)
  {
    PlanLooksBack(ids, ids[..i], i, policy, dots);
    PlanGrows(ids, i, n, policy, dots);
  }

  lemma {:induction false} PlanGrows(ids: seq<int>, i: nat, n: nat, policy: Policy, dots: Dots)
    requires i <= n <= |ids| && policy.topK >= 1
    ensures Plan(ids, i, policy, dots) <= Plan(ids, n, policy, dots)
  {
    if i < n {
      PlanGrows(ids, i, n - 1, policy, dots);
    }
  }

  /** A plan for the first cards does not look at later ones. */
  lemma {:induction false} PlanLooksBack(ids: seq<int>, others: seq<int>, n: nat, policy: Policy, dots: Dots)
    requires n <= |ids| && n <= |others| && ids[..n] == others[..n] && policy.topK >= 1
    ensures Plan(ids, n, policy, dots) == Plan(others, n, policy, dots)
  {
    if n > 0 {
      assert forall r :: 0 <= r < n ==> ids[r] == ids[..n][r] && others[r] == others[..n][r];
      PlanLooksBack(ids, others, n - 1, policy, dots);
      assert Earlier(ids, n - 1, dots) == Earlier(others, n - 1, dots);
    }
  }

  /** The choice: as many eligible cards as the policy allows, each once. */
  lemma ChosenCount(s: seq<Candidate>, policy: Policy)
    requires DistinctIds(s) && policy.topK >= 1
    ensures var eligible := |AtLeast(s, policy.minStrength)|;
            |Chosen(s, policy)| == (if eligible < policy.topK then eligible else policy.topK)
    ensures DistinctIds(Chosen(s, policy))
  {
    AtLeastKeeps(s, policy.minStrength, ByStrength);
    SortBySorts(AtLeast(s, policy.minStrength), ByStrength);
    SortKeepsIds(AtLeast(s, policy.minStrength), ByStrength);
  }

  /** Chosen cards are eligible, and none of them is beaten by an eligible card left out. */
  lemma ChosenAreBest(s: seq<Candidate>, policy: Policy, x: Candidate, y: Candidate)
    requires policy.topK >= 1
    ensures var chosen := Chosen(s, policy);
            && (x in chosen ==> x in s && Similarity(x.dot) >= policy.minStrength)
            && (x in chosen && y in s && y !in chosen && Similarity(y.dot) >= policy.minStrength ==> ByStrength(x, y))
  {
    var eligible := AtLeast(s, policy.minStrength);
    var ranked := SortBy(eligible, ByStrength);
    AtLeastHas(s, policy.minStrength, x);
    AtLeastHas(s, policy.minStrength, y);
    SortBySorts(eligible, ByStrength);
    SameElements(eligible, ranked);
    CutRanks(ranked, First(ranked, policy.topK), x, y);
  }

  lemma CutRanks(ranked: seq<Candidate>, chosen: seq<Candidate>, x: Candidate, y: Candidate)
    requires Sorted(ranked, ByStrength) && chosen <= ranked
    ensures x in chosen ==> x in ranked
    ensures x in chosen && y in ranked && y !in chosen ==> ByStrength(x, y)
  {
    if x in chosen && y in ranked {
      var i :| 0 <= i < |chosen| && chosen[i] == x;
      var j :| 0 <= j < |ranked| && ranked[j] == y;
      assert ranked[i] == x;
      if j < |chosen| {
        assert chosen[j] == y;
      } else {
        assert ByStrength(ranked[i], ranked[j]);
      }
    }
  }

  ghost predicate PlannedRight(e: PlannedEdge, ids: seq<int>, n: nat, policy: Policy, dots: Dots) {
    && e.source in ids && e.related in ids && e.related < e.source
    && e.strength == Similarity(dots(e.source, e.related)) && policy.minStrength <= e.strength
    && exists j :: 0 <= j < n <= |ids| && ids[j] == e.source
  }

  ghost predicate PairsOnce(plan: seq<PlannedEdge>) {
    forall i, j :: 0 <= i < j < |plan| ==> plan[i].source != plan[j].source || plan[i].related != plan[j].related
  }

  lemma NextPlanned(ids: seq<int>, j: nat, policy: Policy, dots: Dots)
    requires Increasing(ids) && j < |ids| && policy.topK >= 1
    ensures var next := Planned(ids[j], Chosen(Earlier(ids, j, dots), policy));
            && PairsOnce(next)
            && forall i :: 0 <= i < |next| ==> next[i].source == ids[j] && PlannedRight(next[i], ids, j + 1, policy, dots)
  {
    var s := Earlier(ids, j, dots);
    var chosen := Chosen(s, policy);
    var next := Planned(ids[j], chosen);
    EarlierDistinct(ids, j, dots);
    forall i | 0 <= i < |next| ensures next[i].source == ids[j] && PlannedRight(next[i], ids, j + 1, policy, dots) {
      ChosenAreBest(s, policy, chosen[i], chosen[i]);
      assert chosen[i] in s;
    }
    ChosenCount(s, policy);
  }

  /** Every planned edge joins a card to an earlier one at its similarity, and no pair is planned twice. */
  lemma {:induction false} PlanIsRight(ids: seq<int>, n: nat, policy: Policy, dots: Dots)
    requires Increasing(ids) && n <= |ids| && policy.topK >= 1
    ensures PairsOnce(Plan(ids, n, policy, dots))
    ensures forall i :: 0 <= i < |Plan(ids, n, policy, dots)| ==> PlannedRight(Plan(ids, n, policy, dots)[i], ids, n, policy, dots)
  {
    if n > 0 {
      PlanIsRight(ids, n - 1, policy, dots);
      NextPlanned(ids, n - 1, policy, dots);
      var plan := Plan(ids, n - 1, policy, dots);
      forall i | 0 <= i < |plan| ensures plan[i].source != ids[n - 1] && PlannedRight(plan[i], ids, n, policy, dots) {
        assert PlannedRight(plan[i], ids, n - 1, policy, dots);
      }
    }
  }

  // ----- and nothing is left out of it -----

  /** The planned edges of one card. */
  function Outgoing(plan: seq<PlannedEdge>, source: int): seq<PlannedEdge> {
    if plan == [] then []
    else
      var last := plan[|plan| - 1];
      Outgoing(plan[..|plan| - 1], source) + if last.source == source then [last] else []
  }

  lemma {:induction false} OutgoingConcat(a: seq<PlannedEdge>, b: seq<PlannedEdge>, source: int)
    ensures Outgoing(a + b, source) == Outgoing(a, source) + Outgoing(b, source)
  {
    if b == [] {
      assert a + b == a;
    } else {
      var n := |b| - 1;
      OutgoingConcat(a, b[..n], source);
      assert (a + b)[..|a| + n] == a + b[..n];
      var last := if b[n].source == source then [b[n]] else [];
      assert Outgoing(a, source) + (Outgoing(b[..n], source) + last) == Outgoing(a, source) + Outgoing(b[..n], source) + last;
    }
  }

  lemma {:induction false} OneSource(next: seq<PlannedEdge>, of: int, source: int)
    requires forall i :: 0 <= i < |next| ==> next[i].source == of
    ensures Outgoing(next, source) == if of == source then next else []
  {
    if next != [] {
      OneSource(next[..|next| - 1], of, source);
      assert next == next[..|next| - 1] + [next[|next| - 1]];
    }
  }

  /** What planning one more card adds to the edges of a card. */
  lemma OutgoingNext(plan: seq<PlannedEdge>, of: int, chosen: seq<Candidate>, source: int)
    ensures Outgoing(plan + Planned(of, chosen), source) ==
            if of == source then Outgoing(plan, source) + Planned(of, chosen) else Outgoing(plan, source)
  {
    OutgoingConcat(plan, Planned(of, chosen), source);
    OneSource(Planned(of, chosen), of, source);
  }

  lemma {:induction false} NoneBefore(ids: seq<int>, n: nat, j: nat, policy: Policy, dots: Dots)
    requires Increasing(ids) && n <= j < |ids| && policy.topK >= 1
    ensures Outgoing(Plan(ids, n, policy, dots), ids[j]) == []
  {
    if n > 0 {
      var last := n - 1;
      NoneBefore(ids, last, j, policy, dots);
      OutgoingNext(Plan(ids, last, policy, dots), ids[last], Chosen(Earlier(ids, last, dots), policy), ids[j]);
    }
  }

  lemma {:induction false} OutgoingIsOwn(ids: seq<int>, n: nat, j: nat, policy: Policy, dots: Dots)
    requires Increasing(ids) && j < n <= |ids| && policy.topK >= 1
    ensures Outgoing(Plan(ids, n, policy, dots), ids[j]) == Planned(ids[j], Chosen(Earlier(ids, j, dots), policy))
  {
    var last := n - 1;
    OutgoingNext(Plan(ids, last, policy, dots), ids[last], Chosen(Earlier(ids, last, dots), policy), ids[j]);
    if j < last {
      OutgoingIsOwn(ids, last, j, policy, dots);
    } else {
      NoneBefore(ids, last, j, policy, dots);
    }
  }

  /** The edge comes before one of this strength to this card. */
  predicate EdgeFirst(e: PlannedEdge, strength: real, related: int) {
    e.strength > strength || (e.strength == strength && e.related <= related)
  }

  /**
   In the plan of all cards every card has at most the policy's number of edges; and for any two cards
   near enough, the later one has an edge to the earlier one, or its full number of edges, all of
   them stronger, or as strong and to lower ids.
   */
  lemma PlanIsComplete(ids: seq<int>, j: nat, r: nat, policy: Policy, dots: Dots)
    requires Increasing(ids) && r < j < |ids| && policy.topK >= 1
    ensures var own := Outgoing(Plan(ids, |ids|, policy, dots), ids[j]);
            var strength := Similarity(dots(ids[j], ids[r]));
            && |own| <= policy.topK
            && (strength >= policy.minStrength ==>
                  PlannedEdge(ids[j], ids[r], strength) in own
                  || (|own| == policy.topK && forall e :: e in own ==> EdgeFirst(e, strength, ids[r])))
  {
    var s := Earlier(ids, j, dots);
    var chosen, y := Chosen(s, policy), s[r];
    OutgoingIsOwn(ids, |ids|, j, policy, dots);
    EarlierDistinct(ids, j, dots);
    ChosenCount(s, policy);
    var own := Planned(ids[j], chosen);
    assert y in s && y == Candidate(ids[r], dots(ids[j], ids[r]));
    if y in chosen {
      var i :| 0 <= i < |chosen| && chosen[i] == y;
      assert own[i] == PlannedEdge(ids[j], ids[r], Similarity(y.dot));
    } else if Similarity(y.dot) >= policy.minStrength {
      LeftOutMeansFull(s, policy, y);
      forall e | e in own ensures EdgeFirst(e, Similarity(y.dot), ids[r]) {
        var i :| 0 <= i < |own| && own[i] == e;
        ChosenAreBest(s, policy, chosen[i], y);
      }
    }
  }

  lemma LeftOutMeansFull(s: seq<Candidate>, policy: Policy, y: Candidate)
    requires policy.topK >= 1 && y in s && Similarity(y.dot) >= policy.minStrength && y !in Chosen(s, policy)
    ensures |Chosen(s, policy)| == policy.topK
  {
    var eligible := AtLeast(s, policy.minStrength);
    AtLeastHas(s, policy.minStrength, y);
    SortBySorts(eligible, ByStrength);
    SameElements(eligible, SortBy(eligible, ByStrength));
  }
}
