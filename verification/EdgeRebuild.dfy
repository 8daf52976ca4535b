/**
 Replacing all edges by a plan, in bulk or one edge at a time: a plan for existing cards always
 goes in, and both ways leave the same tables.
 */
module EdgeRebuild {
  import opened Common
  import opened Sorting
  import opened Store
  import opened EdgePlanning
  import ProjectionServices

  datatype RebuildResult = RebuildResult(nodeCount: nat, planned: nat, insertedEdges: nat, applied: bool)

  datatype RebuildError = BadPolicy(policyError: PolicyError) | BadEdge(storeError: StoreError)

  /** The cards of a plan exist, its pairs are in order and distinct, its strengths within bounds. */
  ghost predicate Insertable(plan: seq<PlannedEdge>, cards: set<int>) {
    && (forall i :: 0 <= i < |plan| ==>
          plan[i].related < plan[i].source && plan[i].related in cards && plan[i].source in cards
          && 0.0 <= plan[i].strength <= 1.0)
    && PairsOnce(plan)
  }

  ghost predicate FromPlan(edge: Edge, plan: seq<PlannedEdge>) {
    exists i :: 0 <= i < |plan| && edge == Edge(plan[i].related, plan[i].source, plan[i].strength)
  }

  lemma FromLonger(edge: Edge, plan: seq<PlannedEdge>, next: PlannedEdge)
    requires FromPlan(edge, plan)
    ensures FromPlan(edge, plan + [next])
  {
    var i :| 0 <= i < |plan| && edge == Edge(plan[i].related, plan[i].source, plan[i].strength);
    assert (plan + [next])[i] == plan[i];
  }

  lemma PairIsFree(rows: Rows, plan: seq<PlannedEdge>, next: PlannedEdge)
    requires PairsOnce(plan + [next])
    requires forall e {:trigger rows.edges[e]} :: e in rows.edges ==> FromPlan(rows.edges[e], plan)
    ensures !PairTaken(rows.edges, next.related, next.source)
  {
    var all := plan + [next];
    forall e | e in rows.edges ensures rows.edges[e].a != next.related || rows.edges[e].b != next.source {
      var i :| 0 <= i < |plan| && rows.edges[e] == Edge(plan[i].related, plan[i].source, plan[i].strength);
      assert all[i] == plan[i] && all[|plan|] == next;
    }
  }

  /** Into empty edge tables the whole plan goes in, and its edges are all there is. */
  lemma {:induction false} PlanGoesIn(rows: Rows, plan: seq<PlannedEdge>)
    requires rows.edges == map[] && Insertable(plan, rows.cards)
    ensures InsertAllPlanned(rows, plan).Ok?
    ensures var after := InsertAllPlanned(rows, plan).value;
            after.cards == rows.cards && after.nextEdgeId == rows.nextEdgeId + |plan|
    ensures var after := InsertAllPlanned(rows, plan).value;
            forall e {:trigger after.edges[e]} :: e in after.edges ==> FromPlan(after.edges[e], plan)
  {
    if plan != [] {
      var n := |plan| - 1;
      var front, next := plan[..n], plan[n];
      assert plan == front + [next];
      assert Insertable(front, rows.cards);
      PlanGoesIn(rows, front);
      var before := InsertAllPlanned(rows, front).value;
      PairIsFree(before, front, next);
      var after := InsertPlanned(before, next).value;
      forall e | e in after.edges ensures FromPlan(after.edges[e], plan) {
        if e in before.edges && e != before.nextEdgeId {
          FromLonger(before.edges[e], front, next);
        } else {
          assert plan[n] == next;
        }
      }
    }
  }

  /** One call of `create_edge_with_adjacency` after the other. */
  function InsertEdges(rows: Rows, plan: seq<PlannedEdge>): Outcome<Rows, StoreError> {
    if plan == [] then Ok(rows)
    else
      match InsertEdges(rows, plan[..|plan| - 1])
      case Raised(e) => Raised(e)
      case Ok(before) => InsertEdge(before, plan[|plan| - 1].source, plan[|plan| - 1].related, plan[|plan| - 1].strength)
  }

  /** One edge at a time or in bulk, ordered pairs leave the same rows or raise the same error. */
  lemma {:induction false} OneByOneIsBulk(rows: Rows, plan: seq<PlannedEdge>)
    requires forall i :: 0 <= i < |plan| ==> plan[i].related < plan[i].source
    ensures InsertEdges(rows, plan) == InsertAllPlanned(rows, plan)
  {
    if plan != [] {
      var n := |plan| - 1;
      OneByOneIsBulk(rows, plan[..n]);
      if InsertAllPlanned(rows, plan[..n]).Ok? {
        var before := InsertAllPlanned(rows, plan[..n]).value;
        var id := before.nextEdgeId;
        assert {(plan[n].source, id), (plan[n].related, id)} == {(plan[n].related, id), (plan[n].source, id)};
      }
    }
  }

  lemma PlanIsInsertable(ids: seq<int>, policy: Policy, dots: Dots, cards: set<int>)
    requires Increasing(ids) && policy.topK >= 1 && forall i :: 0 <= i < |ids| ==> ids[i] in cards
    ensures Insertable(Plan(ids, |ids|, policy, dots), cards)
  {
    PlanIsRight(ids, |ids|, policy, dots);
    var plan := Plan(ids, |ids|, policy, dots);
    forall i | 0 <= i < |plan| ensures plan[i].related in cards && plan[i].source in cards {
      assert PlannedRight(plan[i], ids, |ids|, policy, dots);
    }
  }

  /** `fetch_node_ids_in_rebuild_order` */
  method ListCardIds(session: Session) returns (ids: seq<int>)
    ensures Increasing(ids) && forall c :: c in ids <==> c in session.cards
  {
    var listed := ProjectionServices.Listed(session.cards);
    ids := SortBy(listed, Ascending);
    SortBySorts(listed, Ascending);
    SameElements(listed, ids);
    AllDifferentByElements(listed, ids);
  }

  /** What a rebuild leaves, given its plan. */
  function Rebuilt(rows: Rows, plan: seq<PlannedEdge>, apply: bool): Rows {
    if !apply then rows else match InsertAllPlanned(ClearEdges(rows), plan) case Ok(after) => after case Raised(_) => rows
  }

  /** `rebuild_knowledge_graph_edges_bulk`: it fails on a bad policy only. */
  method RebuildBulk(session: Session, policy: Policy, dots: Dots, apply: bool)
    returns (r: Outcome<RebuildResult, RebuildError>, ghost ids: seq<int>)
    modifies session
    ensures Increasing(ids) && forall c :: c in ids <==> c in old(session.cards)
    ensures PolicyProblem(policy).Some? ==>
              r == Raised(BadPolicy(PolicyProblem(policy).value)) && session.Snapshot() == old(session.Snapshot())
    ensures PolicyProblem(policy) == None ==>
              var plan := Plan(ids, |ids|, policy, dots);
              && r == Ok(RebuildResult(|ids|, |plan|, if apply then |plan| else 0, apply))
              && session.Snapshot() == Rebuilt(old(session.Snapshot()), plan, apply)
  {
    var nodes := ListCardIds(session);
    ids := nodes;
    assert Sorted(nodes, Ascending);
    SortedIsFixed(nodes, Ascending);
    var planning := PlanFromEmbeddings(nodes, policy, 256, dots);
    if planning.Raised? {
      return Raised(BadPolicy(planning.error)), ids;
    }
    var plan := planning.value;
    if !apply {
      return Ok(RebuildResult(|nodes|, |plan|, 0, false)), ids;
    }
    PlanIsInsertable(ids, policy, dots, session.cards);
    PlanGoesIn(ClearEdges(session.Snapshot()), plan);
    var replaced := ProjectionServices.ReplaceEdgesWithAdjacency(session, plan);
    return Ok(RebuildResult(|nodes|, |plan|, replaced.value, true)), ids;
  }

  /** `rebuild_knowledge_graph_edges`; a failing insert leaves the rollback to the caller. */
  method RebuildCardByCard(session: Session, policy: Policy, dots: Dots, apply: bool)
    returns (r: Outcome<RebuildResult, RebuildError>, ghost ids: seq<int>)
    modifies session
    ensures Increasing(ids) && forall c :: c in ids <==> c in old(session.cards)
    ensures PolicyProblem(policy).Some? ==>
              r == Raised(BadPolicy(PolicyProblem(policy).value)) && session.Snapshot() == old(session.Snapshot())
    ensures PolicyProblem(policy) == None ==>
              var plan := PlanByDot(ids, |ids|, policy, dots);
              if !apply then r == Ok(RebuildResult(|ids|, |plan|, 0, false)) && session.Snapshot() == old(session.Snapshot())
              else match InsertEdges(ClearEdges(old(session.Snapshot())), plan)
                   case Ok(after) => r == Ok(RebuildResult(|ids|, |plan|, |plan|, true)) && session.Snapshot() == after
                   case Raised(e) => r == Raised(BadEdge(e))
  {
    var nodes := ListCardIds(session);
    ids := nodes;
    var planning := PlanCardByCard(nodes, policy, dots);
    if planning.Raised? {
      return Raised(BadPolicy(planning.error)), ids;
    }
    var plan := planning.value;
    if !apply {
      return Ok(RebuildResult(|nodes|, |plan|, 0, false)), ids;
    }
    session.ClearEdgesWithAdjacency();
    var inserted, failed := InsertPlan(session, plan);
    if failed.Some? {
      return Raised(BadEdge(failed.value)), ids;
    }
    return Ok(RebuildResult(|nodes|, |plan|, inserted, true)), ids;
  }

  /** The loop over the plan, one edge with its adjacency at a time. */
  method InsertPlan(session: Session, plan: seq<PlannedEdge>) returns (inserted: nat, failed: Option<StoreError>)
    modifies session
    ensures match InsertEdges(old(session.Snapshot()), plan)
            case Ok(after) => failed == None && inserted == |plan| && session.Snapshot() == after
            case Raised(e) => failed == Some(e)
  {
    ghost var base := session.Snapshot();
    inserted := 0;
    while inserted < |plan|
      invariant inserted <= |plan| && InsertEdges(base, plan[..inserted]) == Ok(session.Snapshot())
    {
      assert plan[..inserted + 1][..inserted] == plan[..inserted];
      var edge := session.CreateEdgeWithAdjacency(plan[inserted].source, plan[inserted].related, plan[inserted].strength);
      if edge.Raised? {
        FailsFrom(base, plan, inserted + 1);
        return inserted, Some(edge.error);
      }
      inserted := inserted + 1;
    }
    assert plan[..inserted] == plan;
    failed := None;
  }

  lemma {:induction false} FailsFrom(rows: Rows, plan: seq<PlannedEdge>, k: nat)
    requires k <= |plan| && InsertEdges(rows, plan[..k]).Raised?
    ensures InsertEdges(rows, plan) == InsertEdges(rows, plan[..k])
    decreases |plan|
  {
    if k == |plan| {
      assert plan[..k] == plan;
    } else {
      assert plan[..|plan| - 1][..k] == plan[..k];
      FailsFrom(rows, plan[..|plan| - 1], k);
    }
  }

  /** With unit embeddings both rebuilds succeed and leave the same tables. */
  lemma RebuildsAgree(rows: Rows, ids: seq<int>, policy: Policy, dots: Dots)
    requires Increasing(ids) && (forall c :: c in ids <==> c in rows.cards) && PolicyProblem(policy) == None
    requires forall a, b :: -1.0 <= dots(a, b) <= 1.0
    ensures InsertEdges(ClearEdges(rows), PlanByDot(ids, |ids|, policy, dots)).Ok?
    ensures InsertEdges(ClearEdges(rows), PlanByDot(ids, |ids|, policy, dots)).value
         == Rebuilt(rows, Plan(ids, |ids|, policy, dots), true)
  {
    UnitDotsAgree(ids, dots, policy);
    PlanIsInsertable(ids, policy, dots, rows.cards);
    PlanGoesIn(ClearEdges(rows), Plan(ids, |ids|, policy, dots));
    OneByOneIsBulk(ClearEdges(rows), Plan(ids, |ids|, policy, dots));
  }
}
