/**
 The knowledge tables and the graph tables of one database: cards that come in with a text or by
 an accepted proposal are put below the taxonomy root in the same transaction.
 */
module CardWorkspace {
  import opened CardProposals
  import opened CardProposalService
  import opened Common
  import Graph = ScopeProjection
  import ProjectionServices
  import opened Sorting
  import opened Store
  import TaxonomyImport
  import opened TaxonomyTree

  datatype Workspace = Workspace(desk: Desk, rows: Rows)

  const EmptyWorkspace := Workspace(EmptyDesk, EmptyRows)

  /** A graph call that makes no card; cards come in through the knowledge calls alone. */
  type GraphCall = g: Graph.Call | !g.CreateCard? witness Graph.RebuildProjection

  datatype Transaction = OnKnowledge(call: CardProposals.Call) | OnGraph(graphCall: GraphCall)

  /** What the graph tables see of a knowledge call: the new card, if there is one, goes to the root. */
  ghost function Placed(rows: Rows, before: Desk, after: Desk): Outcome<Rows, StoreError> {
    if after.nextCard == before.nextCard then Ok(rows) else Graph.CardCreated(rows)
  }

  /** A transaction that raises on either side is rolled back on both. */
  ghost function Committed(w: Workspace, t: Transaction): Workspace {
    match t
    case OnGraph(call) => w.(rows := Graph.Apply(w.rows, call))
    case OnKnowledge(call) =>
      var after := CardProposals.Apply(w.desk, call);
      match Placed(w.rows, w.desk, after)
      case Ok(rows) => Workspace(after, rows)
      case Raised(_) => w
  }

  ghost function History(ts: seq<Transaction>): Workspace {
    if ts == [] then EmptyWorkspace else Committed(History(ts[..|ts| - 1]), ts[|ts| - 1])
  }

  /** Both sides hold the same cards, and every card has its place in the taxonomy. */
  ghost predicate SameCards(desk: Desk, rows: Rows) {
    && desk.cards.Keys == rows.cards == rows.assignment.Keys
    && desk.nextCard == rows.nextCardId
  }

  ghost predicate Joined(w: Workspace) {
    Right(w.desk) && Graph.Sound(w.rows) && Graph.IndexAgrees(w.rows) && SameCards(w.desk, w.rows)
  }

  // ----- one transaction -----

  ghost predicate AddsOneCard(before: Desk, after: Desk) {
    after.cards.Keys == before.cards.Keys + {before.nextCard} && after.nextCard == before.nextCard + 1
  }

  ghost predicate AddsNoCard(before: Desk, after: Desk) {
    after.cards.Keys == before.cards.Keys && after.nextCard == before.nextCard
  }

  lemma AppliedAdds(d: Desk, payload: Payload, embeds: bool)
    requires Applied(d, payload, embeds).Ok?
    ensures var after := Applied(d, payload, embeds).value.desk;
            if payload.Create? then AddsOneCard(d, after) else AddsNoCard(d, after)
  {
  }

  /** A knowledge call adds at most the next card. */
  lemma KnowledgeAdds(d: Desk, call: CardProposals.Call)
    ensures var after := CardProposals.Apply(d, call); AddsOneCard(d, after) || AddsNoCard(d, after)
  {
    if call.Accept? && Outcomes(d, call).Ok? {
      AppliedAdds(d, d.proposals[call.id].payload, call.embeds);
    }
  }

  /** The same cards, all of them placed as far as they were. */
  ghost predicate KeepsCards(r: Rows, after: Rows) {
    after.cards == r.cards && after.nextCardId == r.nextCardId && after.assignment.Keys >= r.assignment.Keys
  }

  lemma RefreshKeepsCards(r: Rows, scopes: seq<int>)
    ensures KeepsCards(r, Graph.RefreshedAll(r, scopes))
  {
    Graph.RefreshedAllAt(r, scopes, 0, 0);
  }

  lemma EdgeKeepsCards(r: Rows, source: int, related: int, strength: real)
    requires Graph.EdgeCreated(r, source, related, strength).Ok?
    ensures KeepsCards(r, Graph.EdgeCreated(r, source, related, strength).value)
  {
    var linked := InsertEdge(r, source, related, strength).value;
    Graph.AddedToAllAt(linked, SortedDistinct(Graph.EdgeScopes(r, source, related)), r.nextEdgeId, 0, 0);
  }

  lemma ReassignKeepsCards(r: Rows, card: int, n: int)
    requires Graph.Reassigned(r, card, n).Ok?
    ensures KeepsCards(r, Graph.Reassigned(r, card, n).value)
  {
    var moved := Assign(r, card, n).value;
    RefreshKeepsCards(moved, SortedDistinct(Graph.Present(Graph.ScopeOfCard(r, card), Graph.ScopeOfCard(moved, card))));
  }

  lemma RootKeepsCards(r: Rows, card: int)
    requires Graph.Sound(r) && Graph.RootAssigned(r, card).Ok?
    ensures KeepsCards(r, Graph.RootAssigned(r, card).value)
  {
    Graph.WithRootHasTree(r);
    var rooted := Graph.WithRoot(r);
    var moved := Assign(rooted, card, Graph.RootOf(rooted.taxonomy).value).value;
    RefreshKeepsCards(moved, SortedDistinct(Graph.Present(Graph.ScopeOfCard(r, card), Graph.ScopeOfCard(moved, card))));
  }

  lemma {:induction false} PlansKeepCards(r: Rows, plans: seq<PlannedEdge>)
    requires InsertAllPlanned(r, plans).Ok?
    ensures KeepsCards(r, InsertAllPlanned(r, plans).value)
  {
    if plans != [] {
      PlansKeepCards(r, plans[..|plans| - 1]);
    }
  }

  lemma BackfillKeepsCards(r: Rows)
    requires Graph.Sound(r)
    ensures Graph.Backfilled(r).Ok? && KeepsCards(r, Graph.Backfilled(r).value)
  {
    Graph.WithRootHasTree(r);
  }

  lemma ImportKeepsCards(r: Rows, document: TaxonomyImport.Yaml)
    ensures KeepsCards(r, TaxonomyImport.DocumentImported(r, document))
  {
    if TaxonomyImport.Importable(r, document) {
      TaxonomyImport.DocumentSpells(r, document);
    }
  }

  /** No graph call makes, removes or unassigns a card. */
  lemma GraphKeepsCards(r: Rows, call: GraphCall)
    requires Graph.Sound(r)
    ensures KeepsCards(r, Graph.Apply(r, call))
  {
    if Graph.Apply(r, call) != r {
      match call
      case ImportDocument(document) => ImportKeepsCards(r, document);
      case CreateEdge(source, related, strength) => EdgeKeepsCards(r, source, related, strength);
      case Reassign(card, node) => ReassignKeepsCards(r, card, node);
      case AssignToRoot(card) => RootKeepsCards(r, card);
      case RebuildEdges(plans) => PlansKeepCards(ClearEdges(r), plans);
      case BackfillRoot => BackfillKeepsCards(r);
      case _ =>
    }
  }

  /** The new card is placed below the root, and that is all. */
  lemma CardPlaced(r: Rows)
    requires Graph.Sound(r)
    ensures Graph.CardCreated(r).Ok?
    ensures var after := Graph.CardCreated(r).value;
            && after.cards == r.cards + {r.nextCardId} && after.nextCardId == r.nextCardId + 1
            && after.assignment.Keys == r.assignment.Keys + {r.nextCardId}
            && after.assignment[r.nextCardId] in after.taxonomy && after.taxonomy[after.assignment[r.nextCardId]].parent == None
            && (forall c :: c in r.assignment && c != r.nextCardId ==> after.assignment[c] == r.assignment[c])
            && after.edges == r.edges && after.projected == r.projected
  {
    Graph.WithRootHasTree(InsertCard(r));
  }

  lemma CommittedKeepsJoined(w: Workspace, t: Transaction)
    requires Joined(w)
    ensures Joined(Committed(w, t))
  {
    match t
    case OnGraph(call) =>
      Graph.ApplyKeeps(w.rows, call);
      GraphKeepsCards(w.rows, call);
      AssignedAreCards(Graph.Apply(w.rows, call));
    case OnKnowledge(call) =>
      CardProposals.ApplyKeeps(w.desk, call);
      KnowledgeAdds(w.desk, call);
      Graph.CardCreatedKeeps(w.rows);
      CardPlaced(w.rows);
  }

  lemma AssignedAreCards(r: Rows)
    requires Graph.KeysValid(r)
    ensures r.assignment.Keys <= r.cards
  {
    forall c | c in r.assignment.Keys ensures c in r.cards {
      assert r.assignment[c] in r.taxonomy;
    }
  }

  // ----- every history -----

  /** In every history of both kinds of transaction, the two sides and the index stay right and in step. */
  lemma {:induction false} HistoryJoins(ts: seq<Transaction>)
    ensures Joined(History(ts))
  {
    if ts == [] {
      assert Graph.Sound(EmptyRows) && Graph.IndexAgrees(EmptyRows);
    } else {
      HistoryJoins(ts[..|ts| - 1]);
      CommittedKeepsJoined(History(ts[..|ts| - 1]), ts[|ts| - 1]);
    }
  }

  /** The card has its place in the taxonomy and a stored text, its current version. */
  ghost predicate HasText(w: Workspace, card: int) {
    && card in w.rows.assignment && w.rows.assignment[card] in w.rows.taxonomy
    && card in w.desk.cards && (card, w.desk.cards[card].currentVersion) in w.desk.versions
    && w.desk.versions[(card, w.desk.cards[card].currentVersion)] == w.desk.cards[card].text
  }

  lemma CardsHaveText(w: Workspace, card: int)
    requires Joined(w) && card in w.rows.cards
    ensures HasText(w, card)
  {
    assert card in w.desk.cards.Keys && card in w.rows.assignment.Keys;
    assert w.rows.assignment[card] in w.rows.taxonomy;
    assert (card, w.desk.cards[card].currentVersion) in w.desk.versions;
  }

  /** In every history both ends of every edge are cards with a text and a place. */
  lemma EdgesJoinTexts(ts: seq<Transaction>, e: int)
    requires e in History(ts).rows.edges
    ensures var w := History(ts); HasText(w, w.rows.edges[e].a) && HasText(w, w.rows.edges[e].b)
  {
    var w := History(ts);
    HistoryJoins(ts);
    CardsHaveText(w, w.rows.edges[e].a);
    CardsHaveText(w, w.rows.edges[e].b);
  }

  /** In every history so is every card an audit names. */
  lemma AuditsNamePlacedCards(ts: seq<Transaction>, k: nat)
    requires k < |History(ts).desk.audits|
    ensures var w := History(ts); HasText(w, w.desk.audits[k].card)
  {
    var w := History(ts);
    HistoryJoins(ts);
    var audit := w.desk.audits[k];
    assert AuditTruthful(w.desk, audit);
    assert audit.card in w.desk.cards.Keys;
    CardsHaveText(w, audit.card);
  }

  /**
   From a joined workspace, as every history leaves it, a reviewer's acceptance of a pending create
   proposal with usable text goes through on both sides: one new card with that text, below the
   root, and every stored edge and index row as before.
   */
  lemma AcceptedCardIsPlaced(w: Workspace, id: int, reviewer: string, note: Option<string>)
    requires Joined(w) && id in w.desk.proposals && w.desk.proposals[id].status == PendingReview
    requires var payload := w.desk.proposals[id].payload; payload.Create? && !Blank(payload.text.title) && !Blank(payload.text.content)
    ensures var after := Committed(w, OnKnowledge(Accept(id, reviewer, true, note, true)));
            var card := w.desk.nextCard;
            && Joined(after) && after.desk.proposals[id].status == AcceptedApplied
            && card !in w.rows.cards && after.rows.cards == w.rows.cards + {card}
            && HasText(after, card) && after.desk.cards[card] == Card(w.desk.proposals[id].payload.text, 1, false)
            && after.rows.taxonomy[after.rows.assignment[card]].parent == None
            && after.rows.edges == w.rows.edges && after.rows.projected == w.rows.projected
  {
    var t := OnKnowledge(Accept(id, reviewer, true, note, true));
    CommittedKeepsJoined(w, t);
    CardPlaced(w.rows);
    AcceptCreates(w.desk, id, reviewer, note);
    var after := Workspace(CardProposals.Apply(w.desk, t.call), Graph.CardCreated(w.rows).value);
    assert Committed(w, t) == after;
    CardsHaveText(after, w.desk.nextCard);
  }

  /** On the knowledge side such an acceptance writes the card and marks the proposal. */
  lemma AcceptCreates(d: Desk, id: int, reviewer: string, note: Option<string>)
    requires Right(d) && id in d.proposals && d.proposals[id].status == PendingReview
    requires var payload := d.proposals[id].payload; payload.Create? && !Blank(payload.text.title) && !Blank(payload.text.content)
    ensures var after := CardProposals.Apply(d, Accept(id, reviewer, true, note, true));
            && after.nextCard == d.nextCard + 1 && d.nextCard !in d.cards
            && after.cards == d.cards[d.nextCard := Card(d.proposals[id].payload.text, 1, false)]
            && id in after.proposals && after.proposals[id].status == AcceptedApplied
  {
    AddedVersions(d, d.proposals[id].payload.text);
  }

  // ----- as the service runs it -----

  /** `accept_card_proposal` with its taxonomy port: both sides change together or not at all. */
  method AcceptCardProposal(knowledge: ProposalSession, graph: Session, id: int, reviewer: string, hasRole: bool,
                            note: Option<string>, embeds: bool)
    returns (failed: Option<Fault>)
    requires Joined(Workspace(knowledge.Snapshot(), graph.Snapshot()))
    modifies knowledge, graph
    ensures Workspace(knowledge.Snapshot(), graph.Snapshot())
         == Committed(old(Workspace(knowledge.Snapshot(), graph.Snapshot())), OnKnowledge(Accept(id, reviewer, hasRole, note, embeds)))
    ensures failed == None <==> Accepted(old(knowledge.Snapshot()), id, reviewer, hasRole, note, embeds).Ok?
  {
    Graph.CardCreatedKeeps(graph.Snapshot());
    AcceptCommits(Workspace(knowledge.Snapshot(), graph.Snapshot()), id, reviewer, hasRole, note, embeds);
    var creates := id in knowledge.proposals && knowledge.proposals[id].payload.Create?;
    failed := knowledge.AcceptCardProposal(id, reviewer, hasRole, note, embeds);
    if failed == None && creates {
      var card := ProjectionServices.CreateCardAtRoot(graph);
    }
  }

  /** What the transaction of an acceptance commits: nothing if it is refused, and a placed card for a create proposal. */
  lemma AcceptCommits(w: Workspace, id: int, reviewer: string, hasRole: bool, note: Option<string>, embeds: bool)
    requires Graph.CardCreated(w.rows).Ok?
    ensures var after := Committed(w, OnKnowledge(Accept(id, reviewer, hasRole, note, embeds)));
            match Accepted(w.desk, id, reviewer, hasRole, note, embeds)
            case Raised(_) => after == w
            case Ok(desk) =>
              && id in w.desk.proposals && after.desk == desk
              && (if w.desk.proposals[id].payload.Create? then Graph.CardCreated(w.rows) == Ok(after.rows) else after.rows == w.rows)
  {
    if Accepted(w.desk, id, reviewer, hasRole, note, embeds).Ok? {
      AppliedAdds(w.desk, w.desk.proposals[id].payload, embeds);
    }
  }
}
