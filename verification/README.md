# Knowledge-graph service, modelled in Dafny

The repository stores cards, similarity edges between them and a taxonomy the cards are assigned to. Around these it
keeps several derived structures and protocols. This project models them and proves what they are for:

- **Taxonomy tree** (`TaxonomyTree`, `TaxonomyImport`, `DocumentPaths`, `RoutePath`, `TaxonomyRoutes`, `ScopeNames`): an
  imported document becomes one valid tree of exactly the paths it names; route paths and path resolution are inverse to each other.
- **Counts and card scopes** (`TaxonomyCounts`, `TaxonomyScopes`): in-place accumulation is a subtree sum, and five
  separately written tests select the same nodes.
- **Scope projection index** (`Store`, `ScopeProjection`, `Placement`, `ProjectionServices`): cards are where the last call
  put them, and the index, kept incrementally, always equals its definition and a rebuild from scratch.
- **Card-scope layouts** (`CardScopeGraph`, `ForceSimulation`, `ForceLaws`, `CardScopeLayout`, `LayoutCards`,
  `LayoutServing`, `LayoutService`, `LoadRequests`, `LayoutSteps`, `ComputeQueue`, `PrecomputeSteps`, `PrecomputeRounds`,
  `LayoutPrecompute`): what each force does to the bodies; a layout served as ready is the
  layout of the tables just read, under any interleaving; the compute queue excludes two workers exactly as long as they are
  timely; the precompute run ends.
- **Solve cache** (`SolveCache`): single flight and least-recently-used eviction under threads.
- **Edges** (`EdgePlanning`, `EdgeRebuild`, `Materialize`, `Selection`): two planners compared exactly; ingestion links a
  card to the first eligible ones, all or nothing.
- **Proposals** (`CardProposals`, `CardProposalService`, `StaleEdits`, `CardWorkspace`): card versions, proposals and audits
  over whole histories, in step with the graph tables.
- **Smaller protocols** (`QuotaCounter`, `QuotaPolicy`, `QuotaMiddleware`, `Ingestion`, `Webhook`, `Search`).

Code that changes state is modelled by classes and methods on arrays, maps and sequences; each method's contract ties the
new state to a function of the old one, and the theorems are lemmas about those functions and about all runs. Protocols
with concurrency are lists of events, one event per database, cache or Redis access. Python dictionaries that only find
entries are maps; where insertion order matters they are sequences. `Common`, `Sorting`, `Sums` and `Text` are helpers.

Conventions: coordinates, strengths, dot products and scores are exact reals; the square root, the seeding spiral, the
direction for coinciding points, rounding and case folding are parameters. A fingerprint and a payload hash are the
canonical payload itself. A call that raises is rolled back. Clocks are integers passed in. The clock of the compute queue
counts microseconds, as its timestamps do.

Findings worth knowing, each proved below:

- The recovery window of the compute queue is exact: with the clock at rest two live workers can meet on a scope if and
  only if one of them has reached it (`ComputeQueue.WindowIsExact`).
- The two edge planners differ when clipping hides a difference between dot products; the condition is exact
  (`EdgePlanning.PlannersAgree`).
- A round of the precompute run need not lower the pending rows: a cache that answers once and fails later makes a target
  be asked for again (`LayoutPrecompute.PendingNeedNotFall`). Call a target uncovered if neither its stored layout or row
  settles it nor a cache that can be relied on has it. Every round is sure to lower the pending rows if and only if the
  uncovered targets not pending, and the uncovered ones among the rows about to be claimed, are fewer than the rows to be
  claimed (`PrecomputeRounds.RoundsFallIff`).
- Marking a processed webhook event as failed loses it (`Webhook.LateFailureLosesEvent`).
- A solve cache key stays blocked if its builder ends by something that is not an `Exception` (`SolveCache.AbortStrands`);
  a waiter can go on in some continuation if and only if it can already or its builder is still building (`SolveCache.WakesIff`).
- Layout requests with different timestamps are served first in, first out; at one and the same timestamp an older row
  asked for anew goes first, any number of times (`ComputeQueue.ServedRowOvertakesAgain`).
- Accepting an edit does not look at the version it was filed on: edits accepted in between are replaced unseen, and exactly
  then (`StaleEdits.AcceptedEditReplaces`).
- A node may not be found by its own breadcrumb when case folding merges names of different slugs, as it does for a sharp s
  (`ScopeNames.BreadcrumbsResolveIff`).
- A layout fingerprint determines the layout only because the edge table orders the endpoints of an edge
  (`CardScopeLayout.BothDirectionsConfuse`).

Run `dafny verify dfyconfig.toml` in this directory to check everything.

## Model

| member | source | states |
|---|---|---|
| `RoutePath.SlugIsWordsJoined` | apps/api/src/modules/taxonomy/route_path.py:14-18 | A slug is the lower-cased words of the name joined by single dashes, whatever stands between and around them; a name without a word has none. |
| `RoutePath.SlugIsSegment` | apps/api/src/modules/taxonomy/route_path.py:14-22 | Every slug is a non-empty text without a slash, so it is one segment of a route path. |
| `TaxonomyTree.PathOfChild` | apps/api/src/modules/taxonomy/route_path.py:21-22 | The route path of a child is its parent's path joined with its slug, the root's empty path dropping out. |
| `TaxonomyTree.PathsInjective` | apps/api/src/modules/taxonomy/service.py:1412-1428 | In a tree whose siblings have distinct slugs, different nodes have different route paths. |
| `TaxonomyTree.ChainWalksParents` | apps/api/src/modules/taxonomy/service.py:1582-1595 | A breadcrumb walks parent links from the root, and its slugs are those of the route path. |
| `TaxonomyTree.IndexTree` | apps/api/src/modules/taxonomy/service.py:1272-1279 | The two dictionaries hold every row once, under its id and under its parent. |
| `TaxonomyTree.RequireSingleRoot` | apps/api/src/modules/taxonomy/service.py:1567-1579 | A node is returned exactly when there is one row without a parent, and it is that row. |
| `TaxonomyTree.PopKeepsFrontier` | apps/api/src/modules/taxonomy/service.py:1412-1428 | Popping a node of the walk's stack and pushing its children keeps seen nodes, waiting nodes and their subtrees apart and complete. |
| `TaxonomyRoutes.BuildRoutePaths` | apps/api/src/modules/taxonomy/service.py:1412-1428 | The stack walk gives every node of the tree its route path and names nothing else. |
| `TaxonomyRoutes.ResolveRoutePath` | apps/api/src/modules/taxonomy/service.py:538-560 | Resolution returns a node exactly when the string is that node's route path; so it is the inverse of path building, and refuses every other string. |
| `TaxonomyRoutes.MalformedIsNoPath` | apps/api/src/modules/taxonomy/service.py:544-545 | A string with a leading, trailing or doubled slash is no node's path, so refusing it early loses nothing. |
| `TaxonomyRoutes.MatchingChildren` | apps/api/src/modules/taxonomy/service.py:551-555 | Exactly the children carrying the segment as their slug, each once. |
| `TaxonomyRoutes.BuildBreadcrumb` | apps/api/src/modules/taxonomy/service.py:1582-1595 | Walking up and reversing gives the chain of nodes from the root. |
| `TaxonomyCounts.LoadDirectCardCounts` | apps/api/src/modules/taxonomy/service.py:968-978 | Every node of the tree is given the number of cards assigned to it, zero included. |
| `TaxonomyCounts.AddUpInPlace` | apps/api/src/modules/taxonomy/service.py:935-966 | The in-place loop is the round-by-round accumulation the next rows speak of. |
| `TaxonomyCounts.AddUpFollows` | apps/api/src/modules/taxonomy/service.py:935-966 | The accumulation is the only tally that starts at the visible counts and moves each row's tally to its parent in listing order. |
| `TaxonomyCounts.AddUpIsSubtreeSum` | apps/api/src/modules/taxonomy/service.py:935-966 | With rows ordered deepest first, accumulating parent by parent ends with every node holding the sum over its whole subtree. |
| `TaxonomyCounts.DescendantCardCounts` | apps/api/src/modules/taxonomy/service.py:935-966 | Each node's count is the sum of the visible direct counts of its subtree. |
| `TaxonomyScopes.CountsAreCards` | apps/api/src/modules/taxonomy/service.py:935-978 | A node's count is the number of cards assigned to non-root leaves of its subtree. |
| `TaxonomyScopes.RootCountsAllShownCards` | apps/api/src/modules/taxonomy/service.py:935-978 | The root's count is the number of cards on non-root leaves of the whole tree. |
| `TaxonomyScopes.VisibleChildrenAre` | apps/api/src/modules/taxonomy/service.py:1370-1380 | The visible children are exactly the children with a card somewhere below them, each once, in ascending order. |
| `TaxonomyScopes.PrecomputeTargetIsCardScope` | apps/api/src/modules/taxonomy/service.py:413-447 | A positive count and no visible child hold together exactly for non-root leaves with cards. |
| `TaxonomyScopes.ClassifiersAgree` | apps/api/src/modules/taxonomy/service.py:657-712 | The view branch, the route check, the kind shown on listings, the precompute selection and the projection's active scopes pick the same nodes, on every tree and assignment. |
| `TaxonomyScopes.ListPrecomputeTargets` | apps/api/src/modules/taxonomy/service.py:413-447 | The targets are exactly the card scopes, each once. |
| `ProjectionServices.ListCardScopePrecomputeTargets` | apps/api/src/modules/taxonomy/service.py:413-447 | From any sound tables: nothing to select only while the tree is empty, otherwise exactly the card scopes, each once. |
| `TaxonomyScopes.ActiveScopeIdentities` | apps/api/src/modules/taxonomy/projection_rebuild.py:63-92 | The scopes rebuilt from scratch are exactly the non-root leaves with cards, each once. |
| `TaxonomyScopes.AssignDirectCardCounts` | apps/api/src/modules/taxonomy/projection_rebuild.py:68-80 | Every node of the tree is given its number of cards, zero included; groups of other nodes are dropped. |
| `TaxonomyImport.ExtendMappingNodes` | apps/api/src/modules/taxonomy/importer.py:78-101 | The recursive walk appends to the shared list exactly the flattened mapping, up to the first problem. |
| `TaxonomyImport.ExtendChildNodes` | apps/api/src/modules/taxonomy/importer.py:104-153 | Same for child specifications: mappings, lists, texts and nothing. |
| `TaxonomyImport.FlattenNests` | apps/api/src/modules/taxonomy/importer.py:63-153 | In every flattened list a node is at top level or follows its parent, one level deeper, on the parent's path extended by its own name. |
| `TaxonomyImport.ValidateRouteSlugs` | apps/api/src/modules/taxonomy/importer.py:156-176 | Validation passes exactly when no name is the reserved one, every name has a slug and no node repeats the slug of a sibling; otherwise the first node at fault is reported. |
| `TaxonomyImport.ValidNext` | apps/api/src/modules/taxonomy/importer.py:156-176 | One more node is fine exactly when its own slug is, given the nodes before it are. |
| `TaxonomyImport.StepImports` | apps/api/src/modules/taxonomy/importer.py:27-57 | One import step adds the node's row under the row of its parent path, and remembers its own path. |
| `TaxonomyImport.NamesSpellPath` | apps/api/src/modules/taxonomy/importer.py:27-57 | Reading the names from the root down to an imported row spells the node's path in the document. |
| `TaxonomyImport.ImportSpells` | apps/api/src/modules/taxonomy/importer.py:27-57 | After a successful import the rows are one valid tree spelling exactly the document's paths. |
| `TaxonomyImport.ImportDocument` | apps/api/src/modules/taxonomy/importer.py:27-57 | A document is imported whole, as a valid single-root tree of depth one more than the parent with unique sibling slugs, or refused leaving every table as it was. |
| `TaxonomyImport.DocumentSpells` | apps/api/src/modules/taxonomy/importer.py:27-57 | From the tables alone: an import adds one valid tree spelling the document, with consecutive row ids, and touches no other table. |
| `DocumentPaths.AcceptedIff` | apps/api/src/modules/taxonomy/importer.py:63-176 | Read off the document: it is accepted exactly when the taxonomy is empty, it is a mapping without a malformed part, every name in it is usable, and no two names share their parent's path and their slug. |
| `DocumentPaths.DocumentLocated` | apps/api/src/modules/taxonomy/importer.py:63-153 | The flattened nodes are the names of the document, each at its own address, in document order, with none left out. |
| `DocumentPaths.RowsSpellTheDocument` | apps/api/src/modules/taxonomy/importer.py:27-153 | An accepted document's rows spell exactly the paths it names: keys, texts in lists and texts standing alone, one row for each address, numbered in document order. |
| `Store.Session.CreateTaxonomyNode` | apps/api/src/modules/taxonomy/repo.py:134-149 | A row with the next id, or the constraint that refused it and no change. |
| `Store.Session.SetAssignment` | apps/api/src/modules/taxonomy/repo.py:615-638 | The card's one assignment row is inserted or moved; unknown cards and nodes change nothing. |
| `Store.Session.CreateEdgeWithAdjacency` | apps/api/src/modules/knowledge_graph/repo.py:831-850 | One edge row with ordered endpoints and its two adjacency rows, or the constraint that refused it and no change. |
| `Store.Session.ClearEdgesWithAdjacency` | apps/api/src/modules/knowledge_graph/repo.py:852-855 | Edges, adjacency and, by their foreign key, projection rows are gone; the rest stays. |
| `Store.Session.ClearProjectedEdgeIds` | apps/api/src/modules/taxonomy/repo.py:603-613 | Exactly the rows of the scope are gone. |
| `ScopeProjection.AdjacentHas` | apps/api/src/modules/knowledge_graph/repo.py:404-420 | With adjacency mirroring edges, the edges adjacent to a scope's cards are exactly the edges touching them. |
| `ScopeProjection.ReassignKeepsIndex` | apps/api/src/modules/taxonomy/service.py:872-900 | After a reassignment every scope's stored edges are again the edges touching its cards. |
| `ScopeProjection.EdgeCreatedKeepsIndex` | apps/api/src/modules/knowledge_graph/service.py:826-852 | A new edge enters the index of exactly the scopes it touches. |
| `ScopeProjection.DocumentImportedKeeps` | apps/api/src/modules/taxonomy/importer.py:27-57 | Importing a document keeps tables sound and the index right, as it goes into an empty tree only. |
| `ScopeProjection.CardCreatedKeeps` | apps/api/src/modules/knowledge_graph/service.py:754-774 | A new card at the root leaves tables sound and the index right. |
| `ScopeProjection.RootAssignedKeeps` | apps/api/src/modules/taxonomy/service.py:913-933 | Assigning a card to the root keeps tables sound and the index right. |
| `ScopeProjection.ChildCreatedKeeps` | apps/api/src/modules/taxonomy/repo.py:165-185 | A new child keeps the tree valid and the index right, also though its parent stops being a scope. |
| `ScopeProjection.ProjectionRebuiltKeeps` | apps/api/src/modules/taxonomy/projection_rebuild.py:40-60 | A rebuild from sound tables makes the index right, whatever it was before. |
| `ScopeProjection.EdgesRebuiltKeeps` | apps/api/src/entrypoints/ops/rebuild_knowledge_graph_edges.py:23-70 | Replacing all edges and rebuilding leaves tables sound and the index right. |
| `ScopeProjection.BackfilledKeeps` | apps/api/src/modules/taxonomy/root_assignment_backfill.py:98-131 | Backfilling root assignments succeeds and leaves tables sound and the index right. |
| `ScopeProjection.InsertAllPlannedSound` | apps/api/src/modules/knowledge_graph/repo.py:857-886 | After a bulk replace adjacency holds exactly the endpoints of the edges and all constraints hold. |
| `ScopeProjection.RunKeeps` | apps/api/src/modules/taxonomy/repo.py:523-613 | Every run of service calls keeps tables sound and the index right on all non-root leaves. |
| `ScopeProjection.IncrementalEqualsRebuild` | apps/api/src/modules/taxonomy/projection_rebuild.py:40-92 | In every run from empty tables each scope's stored edge set equals the edges touching its cards, and equals what a rebuild from scratch stores. |
| `ScopeProjection.NonScopeMissesNewEdge` | apps/api/src/modules/knowledge_graph/service.py:826-852 | Why the agreement is for non-root leaves: any other node misses the row of a new edge on its card. |
| `Placement.ReassignMoves` | apps/api/src/modules/taxonomy/service.py:872-900 | A reassignment succeeds exactly for a card and a node that exist; the card is on that node afterwards, every other card is where it was, and no table but assignments and index differs. |
| `Placement.RootAssignedMoves` | apps/api/src/modules/taxonomy/service.py:913-933 | Assigning to the root succeeds exactly for an existing card, makes a missing root, and moves that card alone there. |
| `Placement.BackfillFills` | apps/api/src/modules/taxonomy/root_assignment_backfill.py:98-131 | The backfill puts every card without a place on the root and leaves every other card where it is. |
| `Placement.ChildIsCreated` | apps/api/src/modules/taxonomy/repo.py:165-185 | A child is created exactly for an existing parent, a usable name and a slug no sibling has; its row is added and no other changes. |
| `Placement.NewCardIsPlaced` | apps/api/src/modules/knowledge_graph/service.py:754-774 | A new card gets a fresh id and the root as its place; no other card, edge or index row changes. |
| `Placement.CardsAreWherePlaced` | apps/api/src/modules/taxonomy/repo.py:615-661 | In every run from empty tables each card is on the node the last call that placed it put it on, and on none if no call did. |
| `Placement.EdgesFollowTheCard` | apps/api/src/modules/taxonomy/service.py:884-900 | After a move the card's edges are stored for the scope entered, and for any other scope, the one left included, exactly when their other end is there; edges of other cards stay as they were. |
| `ProjectionServices.ListScopeIdentities` | apps/api/src/modules/taxonomy/repo.py:567-597 | The scope of each listed card: its node when that is a leaf below the root, otherwise none. |
| `ProjectionServices.AddProjectedEdgeIds` | apps/api/src/modules/taxonomy/repo.py:523-549 | Inserting in batches of ten thousand adds exactly the given ids, whatever their number. |
| `ProjectionServices.RefreshCardScopeProjection` | apps/api/src/modules/taxonomy/service.py:1238-1257 | The scope's rows are cleared and refilled from adjacency; no other scope changes. |
| `ProjectionServices.RefreshCardScopeProjections` | apps/api/src/modules/taxonomy/service.py:1259-1270 | Each listed scope is refreshed once, in order. |
| `ProjectionServices.SetCurrentAssignment` | apps/api/src/modules/taxonomy/service.py:872-900 | The card moves and both the left and the entered scope are refreshed, or nothing changes. |
| `ProjectionServices.AssignNodeToRoot` | apps/api/src/modules/taxonomy/service.py:913-933 | The card moves to the root, which is created if missing, and the left scope is refreshed, or nothing changes. |
| `ProjectionServices.CreateCardAtRoot` | apps/api/src/modules/knowledge_graph/service.py:710-721 | A card with a fresh id, assigned to the root. |
| `ProjectionServices.CreateEdgeWithProjection` | apps/api/src/modules/knowledge_graph/service.py:826-852 | The edge, its adjacency and one index row for each distinct scope of its endpoints, or nothing. |
| `ProjectionServices.CreateRegularChild` | apps/api/src/modules/taxonomy/repo.py:165-185 | A child one level deeper under an existing parent, or the reason and no change. |
| `ProjectionServices.RebuildScopeProjectionEdges` | apps/api/src/modules/taxonomy/projection_rebuild.py:40-60 | Clearing and refilling every active scope stores exactly the touching edges of non-root leaves. |
| `ProjectionServices.ReplaceEdgesWithAdjacency` | apps/api/src/modules/knowledge_graph/repo.py:857-886 | All edges, then the adjacency of all inserted edges: the same rows as adding each with its adjacency. |
| `ProjectionServices.RebuildGraphEdges` | apps/api/src/entrypoints/ops/rebuild_knowledge_graph_edges.py:23-70 | Edges and index together, or everything as it was. |
| `ProjectionServices.BackfillRootAssignments` | apps/api/src/modules/taxonomy/root_assignment_backfill.py:98-131 | Every card is assigned afterwards, earlier assignments are kept, and the index is rebuilt. |
| `CardScopeGraph.ChunkUniqueIds` | apps/api/src/modules/knowledge_graph/repo.py:59-74 | The chunks concatenate to the first occurrences; all are full but a last shorter one; a size below one is refused. |
| `CardScopeGraph.FetchProjectionEdges` | apps/api/src/modules/knowledge_graph/repo.py:374-402 | The fetched rows, in endpoint order, are the same for every chunk size. |
| `CardScopeGraph.LoadGraph` | apps/api/src/modules/taxonomy/service.py:1005-1038 | The stored edges of the scope, its cards as inner, and the other endpoints as outer cards, each once. |
| `CardScopeGraph.GraphShowsTouchingEdges` | apps/api/src/modules/taxonomy/service.py:1005-1038 | While the index agrees, the graph of a scope has an edge exactly when the edge touches one of its cards. |
| `CardScopeGraph.OneFingerprint` | apps/api/src/modules/taxonomy/service.py:1282-1294 | One state of the tables gives one fingerprint, in whatever order rows come back. |
| `CardScopeLayout.FirstsHold` | apps/api/src/modules/taxonomy/layout.py:371-391 | The dictionary holds, for each pair within the scope, its first edge in either direction and nothing else. |
| `CardScopeLayout.FirstAfterSort` | apps/api/src/modules/taxonomy/service.py:1282-1287 | Stable sorting leaves alone which edge of a pair comes first. |
| `CardScopeLayout.FingerprintDeterminesLayout` | apps/api/src/modules/taxonomy/service.py:1282-1320 | Graphs with ordered edge endpoints and equal fingerprints are laid out alike: positions, bounds and edges. |
| `CardScopeLayout.FingerprintIgnoresOrder` | apps/api/src/modules/taxonomy/service.py:1282-1294 | Any order of the same rows has the same fingerprint. |
| `CardScopeLayout.BothDirectionsConfuse` | apps/api/src/modules/knowledge_graph/model.py:268-270 | Without the ordered-endpoints constraint the claim fails: two lists with one fingerprint and different layouts. |
| `CardScopeLayout.LaidOutEdges` | apps/api/src/modules/taxonomy/layout.py:371-391 | A layout shows exactly the graph's edges between its cards. |
| `CardScopeLayout.SpringsJoinTheirCards` | apps/api/src/modules/taxonomy/layout.py:202-211 | Each link acts on the bodies of its edge's two cards, at the edge's strength. |
| `CardScopeLayout.CollectCanonicalEdges` | apps/api/src/modules/taxonomy/layout.py:371-391 | The loop over a dictionary with defaults computes the canonical edges. |
| `CardScopeLayout.BuildCardScopeLayout` | apps/api/src/modules/taxonomy/layout.py:93-125 | Seeding, simulating in place, rounding and bounding computes the layout function the other rows speak of. |
| `CardScopeLayout.BoundsOf` | apps/api/src/modules/taxonomy/layout.py:394-402 | Every card of a layout lies within its world bounds. |
| `CardScopeLayout.WorldSliceIsWhole` | apps/api/src/modules/taxonomy/layout.py:128-154 | Slicing a built layout by its own world bounds returns all cards and all edges. |
| `CardScopeLayout.SliceOfSlice` | apps/api/src/modules/taxonomy/layout.py:128-154 | Slicing a slice is slicing by the overlap of the two boxes. |
| `LayoutCards.LaidOutCards` | apps/api/src/modules/taxonomy/layout.py:93-125 | A layout shows the cards of its graph, each once with its kind, in ascending order of id. |
| `LayoutCards.BoundsFit` | apps/api/src/modules/taxonomy/layout.py:394-402 | Every side of the world bounds is touched by a card. |
| `LayoutCards.CoordinatesSum` | apps/api/src/modules/taxonomy/layout.py:93-199 | With exact coordinates and no boundary, a layout's coordinates add up to what the recurrence of the sums gives from the spiral's seeds. |
| `LayoutCards.SliceShows` | apps/api/src/modules/taxonomy/layout.py:128-152 | A slice shows exactly the cards inside its box and exactly the edges both of whose ends it shows. |
| `ForceSimulation.SpringSeeksRestLength` | apps/api/src/modules/taxonomy/layout.py:202-231 | A link acts along the gap and pulls, rests or pushes as the gap is longer than, equal to or shorter than its strength's rest length. |
| `ForceSimulation.ChargeIsBounded` | apps/api/src/modules/taxonomy/layout.py:234-258 | A charge acts along the gap with its own sign and never more strongly than the charge itself. |
| `ForceSimulation.CollisionsSeparate` | apps/api/src/modules/taxonomy/layout.py:261-288 | The collision vector is a multiple of the gap, positive exactly for bodies closer than two radii and else zero; its effect on velocities is `ForceLaws.CollisionGains`. |
| `ForceSimulation.ExchangeConserves` | apps/api/src/modules/taxonomy/layout.py:228-231 | What one body gains the other loses. |
| `ForceSimulation.LinkConserves` | apps/api/src/modules/taxonomy/layout.py:202-231 | A pass over all links leaves total velocity and positions unchanged. |
| `ForceSimulation.PairsConserve` | apps/api/src/modules/taxonomy/layout.py:234-288 | So do the charge and collision passes over all pairs. |
| `ForceSimulation.TickSums` | apps/api/src/modules/taxonomy/layout.py:175-199 | With the radial boundary off, a tick maps the summed velocities V and positions X to V' = r(V - g alpha X) and X' = X + V'. |
| `ForceSimulation.CentroidIgnoresEdges` | apps/api/src/modules/taxonomy/layout.py:175-199 | The final centroid and total velocity depend only on the number of nodes, not on ids, edges or strengths. |
| `ForceLaws.SpringGains` | apps/api/src/modules/taxonomy/layout.py:202-231 | One link step: the relative velocity of its two bodies grows along their gap by the stiffness times the missing part of the rest length; no other body and no position changes. |
| `ForceLaws.SpringSeeksRest` | apps/api/src/modules/taxonomy/layout.py:202-231 | That gain shrinks, keeps or widens the gap as it is longer than, equal to or shorter than the rest length. |
| `ForceLaws.FullSpringReachesRest` | apps/api/src/modules/taxonomy/layout.py:202-231 | A link of stiffness one puts its bodies' next positions exactly the rest length apart along the gap. |
| `ForceLaws.CollisionGains` | apps/api/src/modules/taxonomy/layout.py:261-288 | One collision step: bodies at least two radii apart are left alone, closer ones gain relative velocity along their gap by the strength times what is missing to two radii. |
| `ForceLaws.CollisionParts` | apps/api/src/modules/taxonomy/layout.py:261-288 | That gain is apart exactly for bodies closer than two radii. |
| `ForceLaws.RestingPairParts` | apps/api/src/modules/taxonomy/layout.py:261-288 | Two bodies at rest leave the collision pass moving apart if they overlap, and unchanged if they do not. |
| `ForceLaws.ChargeGains` | apps/api/src/modules/taxonomy/layout.py:234-258 | One charge step: the relative velocity changes along the gap of the positions by twice the charge over its square, against the charge's sign. |
| `ForceLaws.ChargeParts` | apps/api/src/modules/taxonomy/layout.py:234-258 | Negative charges part two bodies and positive ones bring them together. |
| `ForceLaws.PassKicksEveryPair` | apps/api/src/modules/taxonomy/layout.py:234-288 | A charge or collision pass does this to every pair of bodies exactly once, row by row, each pair as the ones before have left it. |
| `ForceLaws.CenterGains` | apps/api/src/modules/taxonomy/layout.py:291-302 | Each velocity changes towards the centre in proportion to the distance. |
| `ForceLaws.BoundaryGains` | apps/api/src/modules/taxonomy/layout.py:305-328 | The boundary changes a velocity exactly beyond its radius, towards the centre. |
| `ForceLaws.TickOfTwo` | apps/api/src/modules/taxonomy/layout.py:175-328 | The two-body problem: a tick moves gap and relative velocity by the spring, the charge, the collision, gravity and the step, in this order, whatever else the bodies are doing. |
| `ForceLaws.HeatFalls` | apps/api/src/modules/taxonomy/layout.py:175-199 | Each tick runs at what the decay leaves of the heat before it: less, and never none. |
| `ForceSimulation.ApplyLinkForce` | apps/api/src/modules/taxonomy/layout.py:202-231 | The in-place loop over edges is the link pass. |
| `ForceSimulation.ApplyPairForce` | apps/api/src/modules/taxonomy/layout.py:234-288 | The in-place double loop visits each pair once, in list order. |
| `ForceSimulation.ApplyCenterForce` | apps/api/src/modules/taxonomy/layout.py:291-302 | The in-place pull to the centre, skipped when the strength is zero. |
| `ForceSimulation.ApplyRadialBoundaryForce` | apps/api/src/modules/taxonomy/layout.py:305-328 | The in-place boundary pass, skipped when radius or strength is zero. |
| `ForceSimulation.RunForceSimulation` | apps/api/src/modules/taxonomy/layout.py:175-199 | All passes in place, tick by tick with falling heat, compute the simulation; zero or one node stays. |
| `ComputeQueue.NextIsFirst` | apps/api/src/modules/taxonomy/repo.py:412-424 | There is a next row exactly while rows are pending, and it is the one asked for first. |
| `ComputeQueue.RequestTable.RequestCompute` | apps/api/src/modules/taxonomy/repo.py:358-410 | A row is inserted or reset exactly under the upsert's condition, and the answer says whether it was. |
| `ComputeQueue.RequestTable.ClaimNext` | apps/api/src/modules/taxonomy/repo.py:412-443 | The first pending row becomes running with a claim time; without one nothing changes. |
| `ComputeQueue.RequestTable.Complete` | apps/api/src/modules/taxonomy/repo.py:464-483 | The row succeeds whatever its status was; a missing row is ignored. |
| `ComputeQueue.RequestTable.Fail` | apps/api/src/modules/taxonomy/repo.py:485-504 | The row fails with the first 4096 characters of the error, whatever its status was. |
| `ComputeQueue.RequestIsHonoured` | apps/api/src/modules/taxonomy/repo.py:358-410 | After a request the scope is queued under the requested fingerprint or a worker claimed it within the window; a row already queued for that fingerprint keeps its place, any other change starts afresh now. |
| `ComputeQueue.RowsKeepShape` | apps/api/src/modules/taxonomy/repo.py:358-504 | In every run pending rows have no attempt and no claim time, running rows one attempt and a claim time, and row ids stay distinct. |
| `ComputeQueue.TimelyRunsAreExclusive` | apps/api/src/modules/taxonomy/repo.py:358-443 | If no live worker reaches the 30-minute window, no two live workers ever hold the same scope, however calls interleave. |
| `ComputeQueue.WindowIsExact` | apps/api/src/modules/taxonomy/repo.py:380-398 | With the clock at rest, exclusion survives every sequence of queue calls if and only if no live worker has reached the window. |
| `ComputeQueue.OvertakenIff` | apps/api/src/modules/taxonomy/repo.py:358-424 | While a row waits, a call puts another row ahead of it exactly when it resets a row of smaller id at the timestamp the waiting row was asked for; each claim takes one row from ahead of it. |
| `ComputeQueue.NothingOvertakesLater` | apps/api/src/modules/taxonomy/repo.py:358-424 | Once the clock has moved past its timestamp nothing overtakes a waiting row in any run. |
| `ComputeQueue.WaitIsBounded` | apps/api/src/modules/taxonomy/repo.py:412-424 | A waiting row sees at most as many claims go by as rows were ahead of it or have overtaken it. |
| `ComputeQueue.EveryWaitIsBounded` | apps/api/src/modules/taxonomy/repo.py:412-424 | So does every row pending after any history of an empty queue; at most the rows ahead of it once its timestamp has passed. |
| `ComputeQueue.ServedRowOvertakesAgain` | apps/api/src/modules/taxonomy/repo.py:358-424 | At one timestamp, for every n, a row waits through n claims of an older row that is finished and asked for anew each time. |
| `LayoutServing.MatchIsRight` | apps/api/src/modules/taxonomy/service.py:1073-1096 | A matching fingerprint makes an old build right for the tables just read. |
| `LayoutServing.RunKeepsHonest` | apps/api/src/modules/taxonomy/service.py:1040-1113 | In every interleaving each stored, cached or carried layout is the build of its scope at some moment of the run. |
| `LayoutServing.ServedLayoutsAreBuilds` | apps/api/src/modules/taxonomy/service.py:1073-1113 | A layout served as ready is the build from the tables as this load read them; one served while refreshing is the build of an earlier moment. |
| `LayoutServing.ReadyShowsTouchingEdges` | apps/api/src/modules/taxonomy/service.py:1073-1113 | A layout served as ready for a non-root leaf shows an edge exactly when the edge touches a card of that leaf. |
| `LayoutService.LayoutService.LoadCardScopeLayout` | apps/api/src/modules/taxonomy/service.py:1073-1113 | Cache, then store, then a request: the branch taken, what is served and what is written, under every failure of cache and request. |
| `LoadRequests.LoadQueuesTheBuild` | apps/api/src/modules/taxonomy/service.py:1073-1113 | A load not answered ready leaves its scope's row pending under its fingerprint, or running and claimed within the window; one answered ready, or whose request fails, leaves the queue as it was; no other row changes. |
| `LoadRequests.LoadAfterBuildIsReady` | apps/api/src/modules/taxonomy/service.py:1040-1113 | A load not answered ready, its row claimed and built, and a load again: the answer is ready, except exactly when the build could not reach the cache and an outdated entry is read there. |
| `LayoutService.LayoutService.PrepareTarget` | apps/api/src/modules/taxonomy/service.py:449-519 | The status reported and what is written, for every state of cache, store and request row. |
| `LayoutService.LayoutService.BuildAndCache` | apps/api/src/modules/taxonomy/service.py:1040-1071 | A returned build is stored and offered to the cache; a failed commit may leave the cache filled, an earlier failure changes nothing. |
| `LayoutSteps.LoadIsItsSteps` | apps/api/src/modules/taxonomy/service.py:1073-1113 | Run without interruption, the steps of a load end as the load returns, and leave the cache as it does. |
| `LayoutSteps.BuildIsItsSteps` | apps/api/src/modules/taxonomy/service.py:1040-1071 | Likewise the steps of a build, with and without a failing commit. |
| `LayoutService.LayoutService.Advance` | apps/api/src/entrypoints/taxonomy_view_layout_runtime.py:110-133 | One transaction of a worker: claim, build, or complete or fail according to the build. |
| `PrecomputeSteps.WorkerMoves` | apps/api/src/entrypoints/taxonomy_view_layout_runtime.py:110-133 | Each worker move lowers the claims to come by what it claims, keeps running rows with their one holder, and loses no stored layout. |
| `PrecomputeSteps.PrepareKeeps` | apps/api/src/modules/taxonomy/service.py:449-519 | Preparing never adds work; a target reported queued or refreshing is pending, one reported ready is available under its own fingerprint. |
| `PrecomputeRounds.BatchTakesFirst` | apps/api/src/entrypoints/ops/taxonomy_layout_precompute.py:152-161 | Whatever the order of the workers' transactions and their failures, a batch claims and ends the first rows of the queue, as many as there are workers or all of them; it opens no target and loses no layout. |
| `LayoutPrecompute.ProcessNextBatch` | apps/api/src/entrypoints/ops/taxonomy_layout_precompute.py:152-161 | The concurrent workers run such a batch. |
| `PrecomputeRounds.PassAsks` | apps/api/src/entrypoints/ops/taxonomy_layout_precompute.py:182-191 | A pass makes exactly those targets pending that the state before it, with the failures to come, says it asks for, repeated targets included. |
| `PrecomputeRounds.PassStaysBelowIff` | apps/api/src/entrypoints/ops/taxonomy_layout_precompute.py:182-191 | Every pass that may happen leaves fewer than a given number of rows pending if and only if the pending scopes and the uncovered targets before it are fewer. |
| `PrecomputeSteps.PrepareAddsIff` | apps/api/src/modules/taxonomy/service.py:449-519 | One prepare adds its target to the pending rows exactly when it asks for it: neither settled nor readable in the cache, and the request goes through. |
| `LayoutPrecompute.PrepareTargets` | apps/api/src/entrypoints/ops/taxonomy_layout_precompute.py:182-191 | One result per target, each true of the state afterwards; the pending rows grow by exactly the targets asked for, read off the state before the pass. |
| `PrecomputeRounds.RoundCounts` | apps/api/src/entrypoints/ops/taxonomy_layout_precompute.py:93-101 | A round lowers the pending rows exactly when the targets asked for and not waiting in the drained queue are fewer than the rows claimed. |
| `PrecomputeRounds.RoundsFallIff` | apps/api/src/entrypoints/ops/taxonomy_layout_precompute.py:93-101 | Every round that may happen from a state lowers the pending rows if and only if, in that state, the uncovered targets not pending and the uncovered ones among the rows to be claimed number fewer than the lesser of workers and pending rows. |
| `LayoutPrecompute.WaitRound` | apps/api/src/entrypoints/ops/taxonomy_layout_precompute.py:93-101 | The method runs a batch and a pass that may happen; its round falls exactly as stated, and surely if the condition held before it. |
| `LayoutPrecompute.PendingNeedNotFall` | apps/api/src/entrypoints/ops/taxonomy_layout_precompute.py:93-101 | A state and a failing cache read for which a round claims a row and leaves as many pending as before. |
| `LayoutPrecompute.Summarize` | apps/api/src/entrypoints/ops/taxonomy_layout_precompute.py:194-207 | The counting loop gives the count of each status. |
| `LayoutPrecompute.SummaryAddsUp` | apps/api/src/entrypoints/ops/taxonomy_layout_precompute.py:194-207 | The four counts add up to the total; ready equals total exactly when all are ready, failed is zero exactly when none failed. |
| `LayoutPrecompute.RunPrecompute` | apps/api/src/entrypoints/ops/taxonomy_layout_precompute.py:71-107 | The wait loop ends without its timeout, within the work there was, as a chain of such rounds. When no cache read fails or all cached targets are stored, every round lowers the pending rows, and there are at most as many rounds as rows first pending. Exit code zero after waiting means every target is available. |
| `PrecomputeSteps.WorkIsBounded` | apps/api/src/entrypoints/ops/taxonomy_layout_precompute.py:71-101 | That work is at most the rows pending at the start and twice the targets. |
| `SolveCache.SolveResultCache.EnterLocked` | apps/api/src/entrypoints/ops/taxonomy_layout_lab_server.py:175-185 | Hit and move to the end, join the build in flight, or begin one. |
| `SolveCache.SolveResultCache.PublishLocked` | apps/api/src/entrypoints/ops/taxonomy_layout_lab_server.py:203-210 | Store at the end, drop from the front down to the maximum, take the key out of flight, signal. |
| `SolveCache.SolveResultCache.WithdrawLocked` | apps/api/src/entrypoints/ops/taxonomy_layout_lab_server.py:195-201 | Keep the error, take the key out of flight, signal. |
| `SolveCache.RunKeepsValid` | apps/api/src/entrypoints/ops/taxonomy_layout_lab_server.py:169-213 | In every interleaving records, in-flight keys and calls agree with one another. |
| `SolveCache.SingleFlight` | apps/api/src/entrypoints/ops/taxonomy_layout_lab_server.py:169-213 | One builder per key, never both cached and in flight, a signalled record holds a result or an error but not both, and every returned or raised outcome is one of a build of that key. |
| `SolveCache.NeverWithoutResult` | apps/api/src/entrypoints/ops/taxonomy_layout_lab_server.py:187-192 | No call ever raises for finding its record without a result. |
| `SolveCache.WaitersAreServed` | apps/api/src/entrypoints/ops/taxonomy_layout_lab_server.py:187-192 | A waiting call can go on, or waits for a call whose return or exception lets it go on. |
| `SolveCache.WakesIff` | apps/api/src/entrypoints/ops/taxonomy_layout_lab_server.py:187-201 | Some continuation lets a waiting call go on if and only if it can already or its builder is still building. |
| `SolveCache.AbortStrands` | apps/api/src/entrypoints/ops/taxonomy_layout_lab_server.py:187-201 | A run of three events that leaves a key uncached and its waiter waiting in every continuation. |
| `SolveCache.AbortedKeyIsStuck` | apps/api/src/entrypoints/ops/taxonomy_layout_lab_server.py:194-201 | A build that ends in neither way leaves its key in flight and its waiters waiting in every continuation. |
| `SolveCache.KeepsMostRecent` | apps/api/src/entrypoints/ops/taxonomy_layout_lab_server.py:203-210 | At every lock release the cached keys are the most recently used ones, in order of use, at most the maximum. |
| `EdgePlanning.Similarity` | apps/api/src/modules/knowledge_graph/repo.py:77-78 | Similarity lies between zero and one, and is the plain scaling for dot products from minus one to one. |
| `EdgePlanning.PlanFromEmbeddings` | apps/api/src/modules/knowledge_graph/edge_rebuild.py:86-136 | The chunked planner refuses bad policies and chunk sizes, and otherwise gives one and the same plan for every chunk size. |
| `EdgePlanning.PlanCardByCard` | apps/api/src/modules/knowledge_graph/edge_rebuild.py:139-171 | The per-card planner refuses bad policies and otherwise plans by ranking, filtering and cutting the database's order. |
| `EdgePlanning.FilterThenRank` | apps/api/src/modules/knowledge_graph/edge_rebuild.py:114-127 | Filtering before or after ranking is the same. |
| `EdgePlanning.RanksAgree` | apps/api/src/modules/knowledge_graph/repo.py:800-829 | Ranking by clipped strength and by dot product agree exactly when no two candidates of equal clipped strength are ordered the other way by id. |
| `EdgePlanning.PlannersAgree` | apps/api/src/modules/knowledge_graph/edge_rebuild.py:86-171 | The two planners agree for every accepted policy if and only if no card has such an inverted pair of earlier cards. |
| `EdgePlanning.UnitDotsAgree` | apps/api/src/modules/knowledge_graph/edge_rebuild.py:86-171 | With dot products from minus one to one both planners give the same plan. |
| `EdgePlanning.PlannersDiffer` | apps/api/src/modules/knowledge_graph/edge_rebuild.py:116-116 | Unnormalised embeddings for which some accepted policy tells the planners apart. |
| `EdgePlanning.PlanPrefix` | apps/api/src/modules/knowledge_graph/edge_rebuild.py:107-136 | The plan of the first cards is the beginning of the plan of all. |
| `EdgePlanning.ChosenCount` | apps/api/src/modules/knowledge_graph/edge_rebuild.py:117-127 | A card gets as many edges as it has eligible earlier cards, up to the policy's bound, each to another card. |
| `EdgePlanning.ChosenAreBest` | apps/api/src/modules/knowledge_graph/edge_rebuild.py:117-127 | Chosen cards meet the threshold and none is beaten by an eligible card left out. |
| `EdgePlanning.PlanIsComplete` | apps/api/src/modules/knowledge_graph/edge_rebuild.py:107-136 | In the plan of all cards each has at most the policy's number of edges, and of two cards near enough the later has an edge to the earlier, or its full number of edges, all stronger, or as strong and to lower ids. |
| `EdgePlanning.PlanIsRight` | apps/api/src/modules/knowledge_graph/edge_rebuild.py:128-134 | Every planned edge joins a card to an earlier one at its similarity, at or above the threshold, and no pair is planned twice. |
| `EdgeRebuild.PlanGoesIn` | apps/api/src/modules/knowledge_graph/repo.py:857-886 | Into cleared tables such a plan always goes in, and its edges are all there is. |
| `EdgeRebuild.OneByOneIsBulk` | apps/api/src/modules/knowledge_graph/repo.py:831-886 | Inserting edge by edge or in bulk leaves the same rows or raises the same error. |
| `EdgeRebuild.RebuildBulk` | apps/api/src/modules/knowledge_graph/edge_rebuild.py:217-255 | A bulk rebuild fails on a bad policy only; otherwise it reports the plan and applies it exactly when asked to. |
| `EdgeRebuild.RebuildCardByCard` | apps/api/src/modules/knowledge_graph/edge_rebuild.py:174-214 | The edge-by-edge rebuild inserts its plan after clearing, or passes on the first refusal. |
| `EdgeRebuild.RebuildsAgree` | apps/api/src/modules/knowledge_graph/edge_rebuild.py:174-255 | With unit embeddings both rebuilds succeed and leave the same tables. |
| `Materialize.SelectedAreEligible` | apps/api/src/modules/knowledge_graph/service.py:782-822 | A selection loop takes distinct, untaken candidates at or above its threshold, at most its bound. |
| `Materialize.SelectedUntilFull` | apps/api/src/modules/knowledge_graph/service.py:782-822 | It takes fewer only when every eligible candidate's card is taken. |
| `Materialize.SelectedAreFirst` | apps/api/src/modules/knowledge_graph/service.py:782-822 | What it takes for a card is the card's first eligible candidate. |
| `Materialize.ChosenOnce` | apps/api/src/modules/knowledge_graph/service.py:774-822 | Mentions and nearest cards together name no card twice and keep to their two bounds and the threshold; that none is left out is `Selection.MaterializedLinks`. |
| `Materialize.LinkedEdges` | apps/api/src/modules/knowledge_graph/service.py:826-835 | Linking a card without edges succeeds exactly when each candidate is an existing other card of valid strength, and adds one edge to each. |
| `Materialize.MaterializedCard` | apps/api/src/modules/knowledge_graph/service.py:754-824 | For any candidate lists: success exactly when all chosen candidates are valid; then the old edges stay, one edge per chosen card is added, and adjacency, tree and index stay right. |
| `Materialize.LinkSelected` | apps/api/src/modules/knowledge_graph/service.py:782-822 | The loop, with its skips, counter and break, links exactly the selection or stops at the first refusal. |
| `Materialize.MaterializeCard` | apps/api/src/modules/knowledge_graph/service.py:754-824 | Card, root assignment and both selections, all or nothing. |
| `Selection.SelectedPicks` | apps/api/src/modules/knowledge_graph/service.py:774-822 | A selection loop picks the first eligible candidates of its list, each at its card's first eligible place, in list order, up to its bound or all. |
| `Selection.MaterializedLinks` | apps/api/src/modules/knowledge_graph/service.py:754-824 | Read off the edge table: success exactly when the first mentioned cards and the first other near cards all exist at valid strengths; then the new edges join the new card to exactly these, in order, each at the strength it is first listed with. |
| `Selection.NothingEligibleIsLeftOut` | apps/api/src/modules/knowledge_graph/service.py:774-822 | With fewer links to mentioned cards than their bound every mentioned card has an edge; with fewer further links than theirs every card near enough has one. |
| `CardProposals.HistoryIsRight` | apps/api/src/modules/knowledge_graph/service.py:561-747 | In every run stored versions are exactly 1 to the current one, the last is live, the current version is one more than the accepted edits, accepted proposals have exactly one audit and others none, and audited texts are stored. |
| `CardProposals.HistoryOnlyGrows` | apps/api/src/modules/knowledge_graph/repo.py:591-719 | From any moment on stored versions, archived cards and resolved proposals never change, and audits are only added. |
| `CardProposals.AcceptKeeps` | apps/api/src/modules/knowledge_graph/service.py:600-635 | Accepting keeps all of that: the write, the mark and the one audit fit together. |
| `CardProposals.AppliedWrites` | apps/api/src/modules/knowledge_graph/service.py:696-747 | What each kind of proposal writes: a new card at version 1, the next version of an active card, or the archive mark, and nothing else. |
| `CardProposals.ResolveKeeps` | apps/api/src/modules/knowledge_graph/repo.py:676-695 | Rejecting or withdrawing touches the proposal only. |
| `CardProposals.ResolvedAtMostOnce` | apps/api/src/modules/knowledge_graph/service.py:561-635 | In every run a proposal is resolved at most once: once if it is no longer pending, else never. |
| `CardProposals.EndsByItsCall` | apps/api/src/modules/knowledge_graph/service.py:561-635 | In every run a proposal is in the status, and with the reviewer, of the call that resolved it: rejected by a rejection, withdrawn by its submitter's withdrawal, accepted by an acceptance; it is pending if no call did. |
| `CardProposals.AskedTextIsShown` | apps/api/src/modules/knowledge_graph/service.py:512-747 | Submitted and then accepted, a proposal leaves the very card it asks for: new, rewritten or archived. |
| `StaleEdits.HistoryWrote` | apps/api/src/modules/knowledge_graph/service.py:478-635 | In every run the accepted edits after any stored version number the card's versions after it, and every proposal names a stored version, an edit one whose text it changes. |
| `StaleEdits.AcceptedEditReplaces` | apps/api/src/modules/knowledge_graph/service.py:600-635 | An accepted edit replaces, unseen, exactly the edits accepted after the version it was filed on: some if and only if that version was no longer current; otherwise it replaces the text it was filed on by another. |
| `StaleEdits.SecondEditReplacesFirst` | apps/api/src/modules/knowledge_graph/service.py:478-635 | Two edits filed on version 1 and both accepted: the second replaces the first one's text. |
| `CardProposalService.ProposalSession.CreateNextCardVersion` | apps/api/src/modules/knowledge_graph/repo.py:591-619 | The next version of an active card, live and stored; a missing or archived card is refused. |
| `CardProposalService.ProposalSession.SubmitCardProposal` | apps/api/src/modules/knowledge_graph/service.py:512-547 | A proposal is filed with the payload its kind requires, or the first problem is raised and nothing changes. |
| `CardProposalService.ProposalSession.SubmitCardSuggestedEdit` | apps/api/src/modules/knowledge_graph/service.py:478-510 | An edit is filed on an existing version it changes, or refused. |
| `CardProposalService.ProposalSession.RejectCardProposal` | apps/api/src/modules/knowledge_graph/service.py:561-581 | Pending first, then the role; otherwise nothing changes. |
| `CardProposalService.ProposalSession.WithdrawCardProposal` | apps/api/src/modules/knowledge_graph/service.py:583-598 | Pending first, then the submitter; otherwise nothing changes. |
| `CardProposalService.ProposalSession.AcceptCardProposal` | apps/api/src/modules/knowledge_graph/service.py:600-635 | Role first, then pending, then the effect, the mark and the audit together; otherwise nothing changes. |
| `CardWorkspace.HistoryJoins` | apps/api/src/modules/knowledge_graph/service.py:600-720 | In every history of knowledge and graph transactions both sides hold the same cards, every card has its place in the tree, and the proposal ledger, the tables and the index stay right. |
| `CardWorkspace.AcceptedCardIsPlaced` | apps/api/src/modules/knowledge_graph/service.py:706-721 | Accepting a create proposal with usable text always goes through and adds one card with that text below the root; edges and index rows stay. |
| `CardWorkspace.EdgesJoinTexts` | apps/api/src/modules/knowledge_graph/service.py:600-720 | In every history both ends of every edge are cards with a place and a stored current text. |
| `CardWorkspace.AuditsNamePlacedCards` | apps/api/src/modules/knowledge_graph/service.py:600-635 | So is every card an audit names. |
| `CardWorkspace.AcceptCardProposal` | apps/api/src/modules/knowledge_graph/service.py:600-635 | The acceptance changes both sides together or neither. |
| `QuotaCounter.RedisKey.Consume` | apps/web/server/access/quotaStore.ts:46-63 | Increment, expiry after the first increment, and the answer read back. |
| `QuotaCounter.WindowIsBounded` | apps/web/server/access/quotaStore.ts:46-63 | Whatever the interleaving, and even if an expiry is never set, a window of a key admits at most the limit. |
| `QuotaCounter.TwiceTheLimit` | apps/web/server/access/quotaStore.ts:46-63 | Any stretch as long as the window admits at most twice the limit. |
| `QuotaCounter.UnitWindowIsExact` | apps/web/server/access/quotaStore.ts:46-63 | With unit costs a window admits exactly as many requests as came, up to the limit. |
| `QuotaCounter.WindowLastsItsLength` | apps/web/server/access/quotaStore.ts:46-63 | Once its expiry is set a window keeps its count for exactly its length. |
| `QuotaPolicy.KeyNamesItsCounter` | apps/web/server/access/quotaPolicy.ts:57-89 | Owners ending in a hash without a colon, equal keys mean equal scope, route group, window and owner, whatever colons the route groups hold. |
| `QuotaPolicy.SharedCountersAgree` | apps/web/server/access/quotaPolicy.ts:82-110 | Under one configuration two requests that share a counter agree on its limit and its length, overrides included. |
| `QuotaPolicy.OverridesAreLocal` | apps/web/server/access/quotaPolicy.ts:14-55 | An override of one route group leaves the four consumptions of every other alone; within a route group, overrides alike for a kind of caller, or for addresses, give that caller, or the address, the same consumptions. |
| `QuotaPolicy.ConfiguredLimits` | apps/web/server/access/quotaPolicy.ts:14-110 | For a route group without override the four consumptions ask for the quotas configured for the caller's own kind and for addresses. |
| `QuotaPolicy.OverriddenLimits` | apps/web/server/access/quotaPolicy.ts:14-110 | With an override each field it gives holds, and each field it leaves out is as without it. |
| `QuotaMiddleware.PassedIsAdmitted` | apps/web/server/access/quotaMiddleware.ts:48-74 | In every interleaving a request let through was admitted by each of its counters at its cost. |
| `QuotaMiddleware.RefusedIsOver` | apps/web/server/access/quotaMiddleware.ts:48-74 | And a refused request took the counter that refused it over its limit. |
| `QuotaMiddleware.CountersAreBounded` | apps/web/server/access/quotaMiddleware.ts:48-74 | What a counter admits costs at most its limit per window, and twice that per window length. |
| `QuotaMiddleware.PassedCostPerWindow` | apps/web/server/access/quotaMiddleware.ts:48-74 | Requests built by the policy and let through cost together at most the limit of a counter they share, if it admitted them in one window. |
| `QuotaMiddleware.PassedCostPerStretch` | apps/web/server/access/quotaMiddleware.ts:48-74 | And at most twice the limit if it admitted them in a stretch as long as its window. |
| `QuotaMiddleware.PassedIsBounded` | apps/web/server/access/quotaMiddleware.ts:48-74 | Each request let through has four counters and falls under both bounds for every one of them. |
| `QuotaMiddleware.RequestsPerWindow` | apps/web/server/access/quotaMiddleware.ts:48-74 | The requests of one cost a counter admits in one window cost at most the limit together. |
| `QuotaMiddleware.EnforceQuota` | apps/web/server/access/quotaMiddleware.ts:60-74 | Counters are consumed in order up to the first refusal, whose retry time is the answer; later ones keep their state. |
| `Ingestion.OneRowPerKey` | apps/api/src/modules/ingestion/service.py:66-133 | With publish and commit failing anywhere: one committed row per key, every committed row's task published, one id and payload for all calls accepted under a key. |
| `Ingestion.AnsweredForItsOwn` | apps/api/src/modules/ingestion/service.py:66-133 | In every run a call is accepted with its own key and payload only, and of the calls answered under a key exactly those get a conflict whose payload differs from the committed row's. |
| `Ingestion.CommittedKeyIsQuiet` | apps/api/src/modules/ingestion/service.py:86-95 | Once a key has committed nothing more is published for it and its row stays. |
| `Ingestion.PublishedLedger` | apps/api/src/modules/ingestion/service.py:96-131 | In every run a key's published tasks number its lost published transactions, and one more while it is committed or has a published transaction open. |
| `Ingestion.PublishedOnceIff` | apps/api/src/modules/ingestion/service.py:96-131 | A key's task went out at most once exactly when no published transaction of it was lost, or one was and it has not been published since. |
| `Ingestion.FailedCommitLeavesTask` | apps/api/src/modules/ingestion/service.py:124-131 | Before that a task may go out twice: a failed commit does not recall it. |
| `Ingestion.IngestionService.GetOrCreate` | apps/api/src/modules/ingestion/repo.py:60-100 | Insert, or answer from the committed row of the key. |
| `Ingestion.IngestionService.Accept` | apps/api/src/modules/ingestion/service.py:66-133 | One call is insert, publish and commit, stopping at the first that answers it. |
| `Webhook.WebhookRepository.RecordEvent` | apps/api/src/modules/taxonomy_classification/webhook.py:48-84 | The first delivery stores event and wakeup, later ones find it and change nothing. |
| `Webhook.WebhookRepository.ListPendingEvents` | apps/api/src/modules/taxonomy_classification/webhook.py:86-108 | Unprocessed events with a wakeup, oldest wakeup first, up to the limit. |
| `Webhook.WebhookRepository.MarkProcessed` | apps/api/src/modules/taxonomy_classification/webhook.py:110-120 | The event is processed and its wakeups are gone; an unknown id is refused. |
| `Webhook.WebhookRepository.MarkFailed` | apps/api/src/modules/taxonomy_classification/webhook.py:122-133 | The event is unprocessed with an error; wakeups stay as they are. |
| `Webhook.FailKeepsIff` | apps/api/src/modules/taxonomy_classification/webhook.py:122-133 | Marking a failure keeps events and wakeups in step exactly when the event was unprocessed. |
| `Webhook.RunKeeps` | apps/api/src/modules/taxonomy_classification/webhook.py:48-133 | In every run failing only unprocessed events, an event is unprocessed exactly when it has its one wakeup. |
| `Webhook.RedeliveriesLeaveNoTrace` | apps/api/src/modules/taxonomy_classification/webhook.py:48-84 | Every run ends as the run in which each id is delivered once, wherever the redeliveries fall and whatever they carry. |
| `Webhook.FirstPayloadStays` | apps/api/src/modules/taxonomy_classification/webhook.py:48-133 | In every run the stored events are those delivered, each with the payload of its first delivery. |
| `Webhook.ProcessedStays` | apps/api/src/modules/taxonomy_classification/webhook.py:110-133 | In such runs processed events stay processed. |
| `Webhook.PendingAreListed` | apps/api/src/modules/taxonomy_classification/webhook.py:86-108 | Unless the limit cuts it off, the listing holds exactly the unprocessed events, failed ones included. |
| `Webhook.NewestIsListedLast` | apps/api/src/modules/taxonomy_classification/webhook.py:86-108 | A first delivery is listed after everything already listed. |
| `Webhook.FailedTooLateIsLost` | apps/api/src/modules/taxonomy_classification/webhook.py:122-133 | An event failed after it was processed is never listed again, in any continuation. |
| `Webhook.LateFailureLosesEvent` | apps/api/src/modules/taxonomy_classification/webhook.py:122-133 | Delivered, processed and then failed, an event stays unprocessed and unlisted. |
| `Search.RankingIsOrder` | apps/api/src/modules/knowledge_graph/service.py:362-385 | The sort key is a total order in which different cards never tie. |
| `Search.TitlesBeforeScores` | apps/api/src/modules/knowledge_graph/service.py:362-385 | Exact titles come first, then phrase titles, then titles with all words; among cards alike in these the higher fused score comes first. |
| `Search.TiesAreBroken` | apps/api/src/modules/knowledge_graph/service.py:362-385 | Cards alike in titles and fused score are ordered by lexical score, lexical rank, vector rank and id, in this order. |
| `Search.VectorRankIsLast` | apps/api/src/modules/knowledge_graph/service.py:335-360 | A card's vector rank is that of the last vector candidate of it. |
| `Search.BetterRankScoresHigher` | apps/api/src/modules/knowledge_graph/service.py:34-37 | A better rank scores higher, and any rank higher than none. |
| `Search.MergedAre` | apps/api/src/modules/knowledge_graph/service.py:335-360 | Each card found by either search is merged once. |
| `Search.LexicalWins` | apps/api/src/modules/knowledge_graph/service.py:351-360 | A card found lexically is shown as its last lexical candidate describes it. |
| `Search.SearchShowsTheFirst` | apps/api/src/modules/knowledge_graph/service.py:387-390 | No card twice, as many as the limit allows, and no candidate left out ranks before one shown. |
| `Search.SearchCards` | apps/api/src/modules/knowledge_graph/service.py:315-390 | Empty for a limit below one, refused for too small a vector limit, otherwise the first of the ranking. |
| `Search.KeptAreNew` | apps/api/src/modules/knowledge_graph/service.py:406-421 | Connected titles are of different cards, different, not excluded, and at most the limit. |
| `Search.KeptUntilFull` | apps/api/src/modules/knowledge_graph/service.py:406-421 | With room left, every other candidate is excluded or repeats a card or title already kept. |
| `Search.GetConnectedTitles` | apps/api/src/modules/knowledge_graph/service.py:392-423 | The loop with its two sets keeps exactly those titles, in order of first occurrence. |
| `ScopeNames.ResolvesIff` | apps/api/src/modules/taxonomy_classification/scope_resolution.py:100-132 | A path resolves to a node if and only if it spells the node's breadcrumb up to case and no node on the way has a sibling whose name folds alike. |
| `ScopeNames.BreadcrumbResolvesIff` | apps/api/src/modules/taxonomy_classification/scope_resolution.py:100-132 | Resolving a node's own breadcrumb gives it back exactly when no node on the way has such a twin. |
| `ScopeNames.BreadcrumbsResolveIff` | apps/api/src/modules/taxonomy_classification/scope_resolution.py:189-190 | No tree that service calls grow from empty tables has twins if and only if usable names that fold alike have one slug. |
| `ScopeNames.GrownTreeResolves` | apps/api/src/modules/taxonomy_classification/scope_resolution.py:100-132 | With lower-casing as the fold, every node of every tree that service calls grow from empty tables is found by its own breadcrumb. |
| `ScopeNames.SharpSConfuses` | apps/api/src/modules/taxonomy_classification/scope_resolution.py:189-190 | Folding a sharp s to two letters merges two names of different slugs: one card and two new children grow a tree with twins. |
| `ScopeNames.ResolveScopePath` | apps/api/src/modules/taxonomy_classification/scope_resolution.py:100-132 | The loop over segments computes that resolution. |
| `ScopeNames.ResolveScopeName` | apps/api/src/modules/taxonomy_classification/scope_resolution.py:81-98 | A name finds a node exactly when that node alone bears it, up to case. |
| `ScopeNames.Breadcrumb` | apps/api/src/modules/taxonomy_classification/scope_resolution.py:172-179 | The upward walk, reversed, names the way from the root. |

## Left out

- Queues for old layout versions: claiming does not look at the version while completing does; one version is modelled.
- Concurrent review of one proposal: proposals are read without locks, so calls are serial here.
- Reassignment without the projection port (`scripts/taxonomy-classification-session-tool.py`), and the seed script's direct
  row writes: the index goes stale there by design.
- Cached views and cached descendant counts, which may be stale until they expire: the uncached computation is modelled.
- Rounding, trigonometry and single-precision arithmetic: exact reals and parameters stand in.
- Parameter checks of the layout (`finite`, ranges): the theorems hold for all parameter values.
- SHA-256: equal digests are taken to mean equal payloads.
- Full-text and vector search, embeddings, YAML parsing, sign-in: their results are inputs.
- White space and letters outside ASCII in taxonomy names: only ASCII spaces, word characters and lower-casing are modelled.
- Sibling and listing orders by name or route path, and the texts of error messages.
- HTTP routes, generated contracts, settings, migrations, logging, `generated_at` and timings.
- Gaps that rolled-back inserts leave in id sequences of the shared tables.
- Concurrent reads inside one load of a card-scope graph: the three queries of one load see one state of the tables.
- A failing claim, completion or listing query: it ends the worker or the run with its exception.
- The knowledge service without a taxonomy port: cards and edges are then created without assignment and index rows.
- LayoutPrecompute.RunPrecompute: assumes unchanging tables, no other client of the queue, no row running at the start and at least one worker, which the command line enforces; entries do not leave the cache during the run, but every read of it may fail.
- QuotaMiddleware.EnforceQuota: takes distinct counters; that the four keys of a request are distinct follows from `QuotaPolicy.SharedCountersAgree`, as identity and address hashes have no colon.
- QuotaCounter.WindowIsBounded: assumes positive costs and one limit and length per key, and that Redis neither evicts nor loses keys.
- Ingestion.OneRowPerKey: a failing commit is always rolled back; a commit that took effect and still reported failure is no event of the model.
- Ingestion.IngestionService.Accept: is for a call while no other is open; overlapping calls are the events of `Ingestion.Run`.
- ScopeNames.ResolveScopePath: returns the node or the kind of failure, without the candidates listed in the message.
