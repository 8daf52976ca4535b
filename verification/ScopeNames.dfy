/**
 Finding a taxonomy node by the names of its breadcrumb, compared after case folding, and by a
 single name. Case folding is a parameter.
 */
module ScopeNames {
  import opened Common
  import opened RoutePath
  import ScopeProjection
  import opened Sorting
  import opened Store
  import TaxonomyImport
  import opened TaxonomyTree
  import TaxonomyRoutes

  datatype ScopeError = MissingSegment | AmbiguousSegment | NoSuchName | AmbiguousName

  type Fold = string -> string

  ghost predicate AllIn(ids: seq<int>, t: Table) {
    forall i :: 0 <= i < |ids| ==> ids[i] in t
  }

  /** `_children_by_name`, over a listing of ids. */
  function Named(ids: seq<int>, t: Table, name: string, fold: Fold): seq<int>
    requires AllIn(ids, t)
  {
    if ids == [] then []
    else
      var last := ids[|ids| - 1];
      Named(ids[..|ids| - 1], t, name, fold) + if fold(t[last].name) == fold(name) then [last] else []
  }

  function Only(candidates: seq<int>): Outcome<int, ScopeError> {
    if candidates == [] then Raised(MissingSegment)
    else if |candidates| > 1 then Raised(AmbiguousSegment)
    else Ok(candidates[0])
  }

  lemma KidsIn(byParent: ChildIndex, t: Table, parent: Option<int>)
    requires Indexes(byParent, t)
    ensures AllIn(Kids(byParent, parent), t)
  {
  }

  /** `resolve_scope_path` for the first `k` segments. */
  ghost function Resolved(path: seq<string>, k: nat, t: Table, byParent: ChildIndex, fold: Fold): Outcome<int, ScopeError>
    requires Indexes(byParent, t) && 1 <= k <= |path|
  {
    if k == 1 then
      KidsIn(byParent, t, None);
      Only(Named(Kids(byParent, None), t, path[0], fold))
    else
      match Resolved(path, k - 1, t, byParent, fold)
      case Raised(e) => Raised(e)
      case Ok(current) =>
        KidsIn(byParent, t, Some(current));
        Only(Named(Kids(byParent, Some(current)), t, path[k - 1], fold))
  }

  /** Another node under the same parent whose name folds alike. */
  ghost predicate Twin(t: Table, a: int, b: int, fold: Fold) {
    a in t && b in t && a != b && t[a].parent == t[b].parent && fold(t[a].name) == fold(t[b].name)
  }

  /** No node on the way from the root has a twin. */
  ghost predicate TwinFree(t: Table, root: int, n: int, fold: Fold)
    requires TreeShape(t, root) && n in t
  {
    forall i, b {:trigger Twin(t, Chain(t, root, n)[i], b, fold)} :: 0 <= i <= t[n].depth ==> !Twin(t, Chain(t, root, n)[i], b, fold)
  }

  /** The path spells the breadcrumb of the node, up to case. */
  ghost predicate Spelled(path: seq<string>, k: nat, t: Table, root: int, n: int, fold: Fold)
    requires TreeShape(t, root) && n in t && k <= |path|
  {
    && k == t[n].depth + 1
    && forall i :: 0 <= i < k ==> fold(t[Chain(t, root, n)[i]].name) == fold(path[i])
  }

  lemma {:induction false} NamedHas(ids: seq<int>, t: Table, name: string, fold: Fold, x: int)
    requires AllIn(ids, t) && AllDifferent(ids)
    ensures x in Named(ids, t, name, fold) <==> x in ids && fold(t[x].name) == fold(name)
    ensures AllDifferent(Named(ids, t, name, fold))
  {
    if ids != [] {
      var n := |ids| - 1;
      NamedHas(ids[..n], t, name, fold, x);
      NamedHas(ids[..n], t, name, fold, ids[n]);
      assert ids == ids[..n] + [ids[n]];
      assert ids[n] !in ids[..n];
    }
  }

  /** One candidate is left exactly when it alone folds to the name. */
  lemma OnlyNamed(ids: seq<int>, t: Table, name: string, fold: Fold, x: int)
    requires AllIn(ids, t) && AllDifferent(ids)
    ensures Only(Named(ids, t, name, fold)) == Ok(x) <==>
            x in ids && fold(t[x].name) == fold(name) && forall y :: y in ids && fold(t[y].name) == fold(name) ==> y == x
  {
    var named := Named(ids, t, name, fold);
    forall y ensures y in named <==> y in ids && fold(t[y].name) == fold(name) {
      NamedHas(ids, t, name, fold, y);
    }
    NamedHas(ids, t, name, fold, x);
    if |named| > 1 {
      assert named[0] in named && named[1] in named && named[0] != named[1];
    } else if |named| == 1 {
      assert forall y :: y in named ==> y == named[0];
    }
  }

  lemma KidsAre(byParent: ChildIndex, t: Table, parent: Option<int>, x: int)
    requires Indexes(byParent, t)
    ensures AllDifferent(Kids(byParent, parent))
    ensures x in Kids(byParent, parent) <==> x in t && t[x].parent == parent
  {
    if x in t && t[x].parent == parent {
      assert t[x].parent in byParent;
    }
  }

  /** One step down: the child named so, if no twin of it is there. */
  lemma StepFinds(byParent: ChildIndex, t: Table, parent: Option<int>, name: string, fold: Fold, x: int)
    requires Indexes(byParent, t) && AllIn(Kids(byParent, parent), t)
    ensures Only(Named(Kids(byParent, parent), t, name, fold)) == Ok(x) <==>
            x in t && t[x].parent == parent && fold(t[x].name) == fold(name) && forall b :: !Twin(t, x, b, fold)
  {
    var kids := Kids(byParent, parent);
    KidsAre(byParent, t, parent, x);
    OnlyNamed(kids, t, name, fold, x);
    if x in t && t[x].parent == parent && fold(t[x].name) == fold(name) {
      forall y | y in kids && fold(t[y].name) == fold(name) && y != x ensures Twin(t, x, y, fold) {
        KidsAre(byParent, t, parent, y);
      }
      forall b | Twin(t, x, b, fold) ensures b in kids {
        KidsAre(byParent, t, parent, b);
      }
    }
  }

  lemma TwinFreeStep(t: Table, root: int, n: int, fold: Fold)
    requires TreeShape(t, root) && n in t && n != root
    ensures TwinFree(t, root, n, fold) <==> TwinFree(t, root, t[n].parent.value, fold) && forall b :: !Twin(t, n, b, fold)
  {
    var up := t[n].parent.value;
    var c, d := Chain(t, root, n), Chain(t, root, up);
    assert c == d + [n];
    if TwinFree(t, root, n, fold) {
      forall i, b | 0 <= i <= t[up].depth ensures !Twin(t, d[i], b, fold) {
        assert !Twin(t, c[i], b, fold);
      }
      forall b ensures !Twin(t, n, b, fold) {
        assert !Twin(t, c[t[n].depth], b, fold);
      }
    }
    if TwinFree(t, root, up, fold) && forall b :: !Twin(t, n, b, fold) {
      forall i, b | 0 <= i <= t[n].depth ensures !Twin(t, c[i], b, fold) {
        assert i <= t[up].depth ==> c[i] == d[i];
      }
    }
  }

  lemma SpelledStep(path: seq<string>, k: nat, t: Table, root: int, n: int, fold: Fold)
    requires TreeShape(t, root) && n in t && n != root && 1 < k <= |path|
    ensures Spelled(path, k, t, root, n, fold) <==>
            Spelled(path, k - 1, t, root, t[n].parent.value, fold) && fold(t[n].name) == fold(path[k - 1])
  {
    var c, d := Chain(t, root, n), Chain(t, root, t[n].parent.value);
    assert c == d + [n];
    assert forall i :: 0 <= i < |d| ==> c[i] == d[i];
  }

  /** The node bears the name and has no twin. */
  ghost predicate Fits(t: Table, n: int, name: string, fold: Fold)
    requires n in t
  {
    fold(t[n].name) == fold(name) && forall b :: !Twin(t, n, b, fold)
  }

  /** Walking up from the node, each segment fits. */
  ghost predicate Climbs(path: seq<string>, k: nat, t: Table, fold: Fold, n: int)
    requires 1 <= k <= |path|
  {
    && n in t && Fits(t, n, path[k - 1], fold)
    && if k == 1 then t[n].parent == None else t[n].parent.Some? && Climbs(path, k - 1, t, fold, t[n].parent.value)
  }

  lemma {:induction false} ResolvesAsClimbed(path: seq<string>, k: nat, t: Table, byParent: ChildIndex, fold: Fold, n: int)
    requires Indexes(byParent, t) && 1 <= k <= |path|
    ensures Resolved(path, k, t, byParent, fold) == Ok(n) <==> Climbs(path, k, t, fold, n)
  {
    if k == 1 {
      ResolvesFirst(path, t, byParent, fold, n);
    } else {
      var prev := k - 1;
      ResolvesNext(path, prev, k, t, byParent, fold, n);
      ClimbsNext(path, prev, k, t, fold, n);
      if n in t && t[n].parent.Some? {
        ResolvesAsClimbed(path, prev, t, byParent, fold, t[n].parent.value);
      }
    }
  }

  lemma ResolvesFirst(path: seq<string>, t: Table, byParent: ChildIndex, fold: Fold, n: int)
    requires Indexes(byParent, t) && 1 <= |path|
    ensures Resolved(path, 1, t, byParent, fold) == Ok(n) <==> Climbs(path, 1, t, fold, n)
  {
    KidsIn(byParent, t, None);
    StepFinds(byParent, t, None, path[0], fold, n);
  }

  lemma ResolvesNext(path: seq<string>, prev: nat, k: nat, t: Table, byParent: ChildIndex, fold: Fold, n: int)
    requires Indexes(byParent, t) && 1 <= prev && k == prev + 1 <= |path|
    ensures Resolved(path, k, t, byParent, fold) == Ok(n) <==>
            n in t && t[n].parent.Some? && Resolved(path, prev, t, byParent, fold) == Ok(t[n].parent.value)
            && Fits(t, n, path[prev], fold)
  {
    var before := Resolved(path, prev, t, byParent, fold);
    if before.Ok? {
      KidsIn(byParent, t, Some(before.value));
      StepFinds(byParent, t, Some(before.value), path[prev], fold, n);
    }
  }

  lemma ClimbsNext(path: seq<string>, prev: nat, k: nat, t: Table, fold: Fold, n: int)
    requires 1 <= prev && k == prev + 1 <= |path|
    ensures Climbs(path, k, t, fold, n) <==>
            n in t && t[n].parent.Some? && Climbs(path, prev, t, fold, t[n].parent.value) && Fits(t, n, path[prev], fold)
  {
  }

  lemma {:induction false} ClimbsAsSpelled(path: seq<string>, k: nat, t: Table, root: int, fold: Fold, n: int)
    requires TreeShape(t, root) && 1 <= k <= |path| && n in t
    ensures Climbs(path, k, t, fold, n) <==> Spelled(path, k, t, root, n, fold) && TwinFree(t, root, n, fold)
  {
    if k == 1 {
      RootIsFirst(path, t, root, fold, n);
    } else if n != root {
      ClimbsAsSpelled(path, k - 1, t, root, fold, t[n].parent.value);
      TwinFreeStep(t, root, n, fold);
      SpelledStep(path, k, t, root, n, fold);
    }
  }

  /**
   A path resolves to a node if and only if it spells the node's breadcrumb up to case and no node
   on the way down has a sibling whose name folds alike.
   */
  lemma ResolvesIff(path: seq<string>, t: Table, root: int, byParent: ChildIndex, fold: Fold, n: int)
    requires TreeShape(t, root) && Indexes(byParent, t) && 1 <= |path|
    ensures Resolved(path, |path|, t, byParent, fold) == Ok(n) <==>
            n in t && Spelled(path, |path|, t, root, n, fold) && TwinFree(t, root, n, fold)
  {
    ResolvesAsClimbed(path, |path|, t, byParent, fold, n);
    if n in t {
      ClimbsAsSpelled(path, |path|, t, root, fold, n);
    }
  }

  lemma RootIsFirst(path: seq<string>, t: Table, root: int, fold: Fold, n: int)
    requires TreeShape(t, root) && n in t && |path| >= 1
    ensures Spelled(path, 1, t, root, n, fold) <==> t[n].parent == None && fold(t[n].name) == fold(path[0])
    ensures n == root ==> (TwinFree(t, root, n, fold) <==> forall b :: !Twin(t, n, b, fold))
    ensures t[n].parent == None ==> n == root
  {
    if n == root {
      assert Chain(t, root, n) == [root];
      if TwinFree(t, root, n, fold) {
        forall b ensures !Twin(t, n, b, fold) {
          assert !Twin(t, Chain(t, root, n)[0], b, fold);
        }
      }
    }
  }

  // ----- as the index runs it -----

  /** The names on the way from the root. */
  ghost function Crumbs(t: Table, root: int, n: int): (names: seq<string>)
    requires TreeShape(t, root) && n in t
    ensures |names| == t[n].depth + 1
  {
    seq(t[n].depth + 1, i requires 0 <= i <= t[n].depth => t[Chain(t, root, n)[i]].name)
  }

  /** Resolving a node's own breadcrumb gives it back exactly when no node on the way has a twin. */
  lemma BreadcrumbResolvesIff(t: Table, root: int, byParent: ChildIndex, fold: Fold, n: int)
    requires TreeShape(t, root) && Indexes(byParent, t) && n in t
    ensures var path := Crumbs(t, root, n);
            Resolved(path, |path|, t, byParent, fold) == Ok(n) <==> TwinFree(t, root, n, fold)
  {
    var path := Crumbs(t, root, n);
    ResolvesIff(path, t, root, byParent, fold, n);
    assert Spelled(path, |path|, t, root, n, fold);
  }

  // ----- when every breadcrumb resolves -----

  const RESERVED := TaxonomyImport.UNCLASSIFIED_NODE_NAME

  /** Each node carries the slug of its name, which is not the reserved one. */
  ghost predicate Slugged(t: Table) {
    forall n :: n in t ==> Slugify(t[n].name) == Some(t[n].slug) && t[n].name != RESERVED
  }

  predicate Usable(name: string) {
    Slugify(name).Some? && name != RESERVED
  }

  /** Names that fold alike have the same slug. */
  ghost predicate FoldKeepsSlugs(fold: Fold) {
    forall a, b :: Usable(a) && Usable(b) && fold(a) == fold(b) ==> Slugify(a) == Slugify(b)
  }

  lemma SluggedHasNoTwin(t: Table, root: int, fold: Fold, a: int, b: int)
    requires ValidTree(t, root) && Slugged(t) && FoldKeepsSlugs(fold)
    ensures !Twin(t, a, b, fold)
  {
    if a in t && b in t && a != b && t[a].parent == t[b].parent {
      assert Slugify(t[a].name) != Slugify(t[b].name);
      assert Usable(t[a].name) && Usable(t[b].name);
    }
  }

  lemma SluggedIsTwinFree(t: Table, root: int, fold: Fold, n: int)
    requires ValidTree(t, root) && Slugged(t) && FoldKeepsSlugs(fold) && n in t
    ensures TwinFree(t, root, n, fold)
  {
    forall i, b | 0 <= i <= t[n].depth ensures !Twin(t, Chain(t, root, n)[i], b, fold) {
      SluggedHasNoTwin(t, root, fold, Chain(t, root, n)[i], b);
    }
  }

  // Every call leaves a slugged tree.

  lemma InsertSlugged(rows: Rows, parent: Option<int>, name: string, depth: nat)
    requires Slugged(rows.taxonomy) && InsertTaxonomyNode(rows, parent, name, depth).Ok? && name != RESERVED
    ensures Slugged(InsertTaxonomyNode(rows, parent, name, depth).value.taxonomy)
  {
  }

  lemma {:induction false} StepsSlugged(start: TaxonomyImport.Progress, nodes: seq<TaxonomyImport.ImportNode>, k: nat, root: int)
    requires Slugged(start.rows.taxonomy) && k <= |nodes| && TaxonomyImport.SlugsValid(nodes)
    ensures Slugged(TaxonomyImport.ImportSteps(start, nodes, k, root).rows.taxonomy)
  {
    if k > 0 {
      StepsSlugged(start, nodes, k - 1, root);
      NextSlugged(start, nodes, k - 1, k, root);
    }
  }

  lemma NextSlugged(start: TaxonomyImport.Progress, nodes: seq<TaxonomyImport.ImportNode>, k: nat, next: nat, root: int)
    requires next == k + 1 <= |nodes| && TaxonomyImport.SlugsValid(nodes) && Slugged(TaxonomyImport.ImportSteps(start, nodes, k, root).rows.taxonomy)
    ensures Slugged(TaxonomyImport.ImportSteps(start, nodes, next, root).rows.taxonomy)
  {
    assert Slugify(nodes[k].name).Some?;
    StepSlugged(TaxonomyImport.ImportSteps(start, nodes, k, root), nodes[k], root);
  }

  lemma StepSlugged(at: TaxonomyImport.Progress, node: TaxonomyImport.ImportNode, root: int)
    requires Slugged(at.rows.taxonomy) && node.name != RESERVED
    ensures Slugged(TaxonomyImport.ImportStep(at, node, root).rows.taxonomy)
  {
    var parent := TaxonomyImport.ParentId(node, root, at.pathToId);
    if InsertTaxonomyNode(at.rows, parent, node.name, node.depth + 1).Ok? {
      InsertSlugged(at.rows, parent, node.name, node.depth + 1);
    }
  }

  lemma ImportSlugged(r: Rows, document: TaxonomyImport.Yaml)
    requires Slugged(r.taxonomy)
    ensures Slugged(TaxonomyImport.DocumentImported(r, document).taxonomy)
  {
    if TaxonomyImport.Importable(r, document) {
      var nodes := TaxonomyImport.Flatten(document).value;
      var rooted := InsertTaxonomyNode(r, None, TaxonomyImport.ROOT_NODE_NAME, 0);
      if rooted.Ok? {
        InsertSlugged(r, None, TaxonomyImport.ROOT_NODE_NAME, 0);
        StepsSlugged(TaxonomyImport.Progress(rooted.value, map[]), nodes, |nodes|, r.nextTaxonomyId);
      }
    }
  }

  lemma RefreshedAllTree(r: Rows, scopes: seq<int>)
    ensures ScopeProjection.RefreshedAll(r, scopes).taxonomy == r.taxonomy
  {
    ScopeProjection.RefreshedAllAt(r, scopes, 0, 0);
  }

  lemma {:induction false} InsertAllPlannedTree(r: Rows, plans: seq<PlannedEdge>)
    requires InsertAllPlanned(r, plans).Ok?
    ensures InsertAllPlanned(r, plans).value.taxonomy == r.taxonomy
  {
    if plans != [] {
      InsertAllPlannedTree(r, plans[..|plans| - 1]);
    }
  }

  lemma EdgeCreatedTree(r: Rows, source: int, related: int, strength: real)
    requires ScopeProjection.EdgeCreated(r, source, related, strength).Ok?
    ensures ScopeProjection.EdgeCreated(r, source, related, strength).value.taxonomy == r.taxonomy
  {
    var linked := InsertEdge(r, source, related, strength).value;
    ScopeProjection.AddedToAllAt(linked, SortedDistinct(ScopeProjection.EdgeScopes(r, source, related)), r.nextEdgeId, 0, 0);
  }

  lemma ReassignedTree(r: Rows, card: int, n: int)
    requires ScopeProjection.Reassigned(r, card, n).Ok?
    ensures ScopeProjection.Reassigned(r, card, n).value.taxonomy == r.taxonomy
  {
    var moved := Assign(r, card, n).value;
    RefreshedAllTree(moved, SortedDistinct(ScopeProjection.Present(ScopeProjection.ScopeOfCard(r, card), ScopeProjection.ScopeOfCard(moved, card))));
  }

  lemma EdgesRebuiltTree(r: Rows, plans: seq<PlannedEdge>)
    requires ScopeProjection.EdgesRebuilt(r, plans).Ok?
    ensures ScopeProjection.EdgesRebuilt(r, plans).value.taxonomy == r.taxonomy
  {
    InsertAllPlannedTree(ClearEdges(r), plans);
  }

  lemma WithRootSlugged(r: Rows)
    requires Slugged(r.taxonomy)
    ensures Slugged(ScopeProjection.WithRoot(r).taxonomy)
  {
    if InsertTaxonomyNode(r, None, "Root", 0).Ok? {
      InsertSlugged(r, None, "Root", 0);
    }
  }

  lemma ChildCreatedSlugged(r: Rows, parent: int, name: string)
    requires Slugged(r.taxonomy) && ScopeProjection.ChildCreated(r, parent, name).Ok?
    ensures Slugged(ScopeProjection.ChildCreated(r, parent, name).value.taxonomy)
  {
    InsertSlugged(r, Some(parent), name, r.taxonomy[parent].depth + 1);
  }

  /** No call but an import, a missing root, and a new child writes the tree, and each of these slugs its names. */
  lemma ApplySlugged(r: Rows, call: ScopeProjection.Call)
    requires Slugged(r.taxonomy)
    ensures Slugged(ScopeProjection.Apply(r, call).taxonomy)
  {
    if ScopeProjection.Apply(r, call) != r {
      match call
      case ImportDocument(document) => ImportSlugged(r, document);
      case CreateEdge(source, related, strength) => EdgeCreatedTree(r, source, related, strength);
      case Reassign(card, node) => ReassignedTree(r, card, node);
      case AssignToRoot(card) => RootAssignedSlugged(r, card);
      case RebuildEdges(plans) => EdgesRebuiltTree(r, plans);
      case CreateChild(parent, name) => ChildCreatedSlugged(r, parent, name);
      case CreateCard => WithRootSlugged(InsertCard(r));
      case BackfillRoot => WithRootSlugged(r);
      case RebuildProjection =>
    }
  }

  lemma RootAssignedSlugged(r: Rows, card: int)
    requires Slugged(r.taxonomy) && ScopeProjection.RootAssigned(r, card).Ok?
    ensures Slugged(ScopeProjection.RootAssigned(r, card).value.taxonomy)
  {
    WithRootSlugged(r);
    var rooted := ScopeProjection.WithRoot(r);
    var root := ScopeProjection.RootOf(rooted.taxonomy).value;
    var moved := Assign(rooted, card, root).value;
    RefreshedAllTree(moved, SortedDistinct(ScopeProjection.Present(ScopeProjection.ScopeOfCard(r, card), ScopeProjection.ScopeOfCard(moved, card))));
  }

  lemma {:induction false} RunSlugged(calls: seq<ScopeProjection.Call>)
    ensures Slugged(ScopeProjection.Run(EmptyRows, calls).taxonomy)
  {
    if calls != [] {
      RunSlugged(calls[..|calls| - 1]);
      ApplySlugged(ScopeProjection.Run(EmptyRows, calls[..|calls| - 1]), calls[|calls| - 1]);
    }
  }

  /** The taxonomy tree some run leaves behind. */
  ghost predicate Grown(t: Table) {
    exists calls :: ScopeProjection.Run(EmptyRows, calls).taxonomy == t
  }

  lemma GrownIsSlugged(t: Table)
    requires Grown(t)
    ensures ScopeProjection.TreeValid(t) && Slugged(t)
  {
    var calls :| ScopeProjection.Run(EmptyRows, calls).taxonomy == t;
    assert ScopeProjection.Sound(EmptyRows) && ScopeProjection.IndexAgrees(EmptyRows);
    ScopeProjection.RunKeeps(EmptyRows, calls);
    RunSlugged(calls);
  }

  lemma ParentlessIsRoot(t: Table, root: int)
    requires ScopeProjection.TreeValid(t) && root in t && t[root].parent == None
    ensures ValidTree(t, root)
  {
    var r :| ValidTree(t, r);
    assert t[root].parent.Some? || root == r;
  }

  // Two names with one fold and two slugs may become siblings.

  /** The root and two children below it. */
  function Siblings(a: string, slugA: string, b: string, slugB: string): Table {
    map[1 := Node(1, None, "Root", "root", 0), 2 := Node(2, Some(1), a, slugA, 1), 3 := Node(3, Some(1), b, slugB, 1)]
  }

  lemma SiblingsAreTree(a: string, slugA: string, b: string, slugB: string)
    requires IsSlug(slugA) && IsSlug(slugB) && slugA != slugB
    ensures ValidTree(Siblings(a, slugA, b, slugB), 1)
  {
  }

  lemma SiblingsTwin(t: Table, fold: Fold, a: string, slugA: string, b: string, slugB: string)
    requires t == Siblings(a, slugA, b, slugB) && ValidTree(t, 1) && fold(a) == fold(b)
    ensures 2 in t && !TwinFree(t, 1, 2, fold)
  {
    assert Chain(t, 1, 2) == Chain(t, 1, 1) + [2];
    assert Twin(t, Chain(t, 1, 2)[1], 3, fold);
  }

  lemma FirstCardMakesRoot()
    ensures var r := ScopeProjection.Apply(EmptyRows, ScopeProjection.CreateCard);
            r.taxonomy == map[1 := Node(1, None, "Root", "root", 0)] && r.nextTaxonomyId == 2
  {
    TaxonomyImport.RootSlug();
    var rooted := ScopeProjection.WithRoot(InsertCard(EmptyRows));
    assert rooted.taxonomy == map[1 := Node(1, None, "Root", "root", 0)];
    assert rooted.taxonomy[1].parent == None;
  }

  lemma ChildMade(r: Rows, parent: int, name: string)
    requires Usable(name) && parent in r.taxonomy && !SiblingTaken(r.taxonomy, Some(parent), Slugify(name).value)
    ensures var after := ScopeProjection.Apply(r, ScopeProjection.CreateChild(parent, name));
            && after.taxonomy == r.taxonomy[r.nextTaxonomyId :=
                 Node(r.nextTaxonomyId, Some(parent), name, Slugify(name).value, r.taxonomy[parent].depth + 1)]
            && after.nextTaxonomyId == r.nextTaxonomyId + 1
  {
  }

  /** One card, which makes the root, and two children below it. */
  lemma SiblingsGrow(a: string, b: string)
    requires Usable(a) && Usable(b) && Slugify(a) != Slugify(b)
    ensures Grown(Siblings(a, Slugify(a).value, b, Slugify(b).value))
  {
    var none: seq<ScopeProjection.Call> := [];
    var slugA, slugB := Slugify(a).value, Slugify(b).value;
    FirstCardMakesRoot();
    RunOneMore(none, ScopeProjection.CreateCard);
    var one := none + [ScopeProjection.CreateCard];
    ChildMade(ScopeProjection.Run(EmptyRows, one), 1, a);
    RunOneMore(one, ScopeProjection.CreateChild(1, a));
    var two := one + [ScopeProjection.CreateChild(1, a)];
    ChildMade(ScopeProjection.Run(EmptyRows, two), 1, b);
    RunOneMore(two, ScopeProjection.CreateChild(1, b));
    assert ScopeProjection.Run(EmptyRows, two + [ScopeProjection.CreateChild(1, b)]).taxonomy == Siblings(a, slugA, b, slugB);
  }

  lemma RunOneMore(calls: seq<ScopeProjection.Call>, call: ScopeProjection.Call)
    ensures ScopeProjection.Run(EmptyRows, calls + [call]) == ScopeProjection.Apply(ScopeProjection.Run(EmptyRows, calls), call)
  {
    assert (calls + [call])[..|calls|] == calls;
  }

  /** Two names with one fold and two slugs: the first is then not found by its breadcrumb. */
  lemma CoarseFoldConfuses(fold: Fold, a: string, b: string)
    requires Usable(a) && Usable(b) && Slugify(a) != Slugify(b) && fold(a) == fold(b)
    ensures var t := Siblings(a, Slugify(a).value, b, Slugify(b).value);
            Grown(t) && ValidTree(t, 1) && 2 in t && !TwinFree(t, 1, 2, fold)
  {
    SlugIsSegment(a);
    SlugIsSegment(b);
    SiblingsGrow(a, b);
    SiblingsAreTree(a, Slugify(a).value, b, Slugify(b).value);
    SiblingsTwin(Siblings(a, Slugify(a).value, b, Slugify(b).value), fold, a, Slugify(a).value, b, Slugify(b).value);
  }

  ghost predicate AlwaysTwinFree(fold: Fold) {
    forall t, root, n :: Grown(t) && ValidTree(t, root) && n in t ==> TwinFree(t, root, n, fold)
  }

  /**
   Every node of every tree that grows from empty tables is without twins on its way, and so found
   by its own breadcrumb, if and only if names that fold alike have one slug.
   */
  lemma BreadcrumbsResolveIff(fold: Fold)
    ensures AlwaysTwinFree(fold) <==> FoldKeepsSlugs(fold)
  {
    if FoldKeepsSlugs(fold) {
      forall t: Table, root: int, n: int | Grown(t) && ValidTree(t, root) && n in t ensures TwinFree(t, root, n, fold) {
        GrownIsSlugged(t);
        SluggedIsTwinFree(t, root, fold, n);
      }
    } else {
      var a, b :| Usable(a) && Usable(b) && fold(a) == fold(b) && Slugify(a) != Slugify(b);
      CoarseFoldConfuses(fold, a, b);
    }
  }

  /** With names compared after lower-casing, every node of every such tree is found by its own breadcrumb. */
  lemma GrownTreeResolves(t: Table, root: int, byParent: ChildIndex, n: int)
    requires Grown(t) && Indexes(byParent, t) && n in t && root in t && t[root].parent == None
    ensures ValidTree(t, root) && Resolved(Crumbs(t, root, n), t[n].depth + 1, t, byParent, Lower) == Ok(n)
  {
    GrownIsSlugged(t);
    ParentlessIsRoot(t, root);
    LowerKeepsSlugs();
    SluggedIsTwinFree(t, root, Lower, n);
    BreadcrumbResolvesIff(t, root, byParent, Lower, n);
  }

  lemma LowerKeepsSlugs()
    ensures FoldKeepsSlugs(Lower)
  {
    forall a, b | Usable(a) && Usable(b) && Lower(a) == Lower(b) ensures Slugify(a) == Slugify(b) {
      SlugIgnoresCase(a, b);
    }
  }

  /** Full case folding writes a sharp s as two letters, which lower-casing, and so the slug, does not. */
  lemma SharpSConfuses(fold: Fold)
    requires fold("a\U{00DF}") == fold("ass")
    ensures var t := Siblings("a\U{00DF}", "a", "ass", "ass"); Grown(t) && ValidTree(t, 1) && 2 in t && !TwinFree(t, 1, 2, fold)
  {
    var a, b := "a\U{00DF}", "ass";
    assert Lower(Strip(a, IsSpace)) == a && Lower(Strip(b, IsSpace)) == b;
    assert Collapse(a, 2) == "" && NextWord(a, 1) == NextWord(a, 2) == 2;
    assert Collapse(a, 1) == "-" && Collapse(a, 0) == "a-";
    assert StripRight("a-"[..1], IsDash) == "a" && StripLeft("a-", IsDash) == "a-";
    assert Collapse(b, 3) == "" && Collapse(b, 2) == "s" && Collapse(b, 1) == "ss" && Collapse(b, 0) == "ass";
    assert StripLeft("ass", IsDash) == "ass" && StripRight("ass", IsDash) == "ass";
    assert Slugify(a) == Some("a") && Slugify(b) == Some("ass");
    CoarseFoldConfuses(fold, a, b);
  }

  method ChildrenByName(parent: Option<int>, name: string, t: Table, byParent: ChildIndex, fold: Fold) returns (found: seq<int>)
    requires Indexes(byParent, t) && AllIn(Kids(byParent, parent), t)
    ensures found == Named(Kids(byParent, parent), t, name, fold)
  {
    var kids := Kids(byParent, parent);
    found := [];
    for k := 0 to |kids|
      invariant AllIn(kids[..k], t) && found == Named(kids[..k], t, name, fold)
    {
      assert kids[..k + 1][..k] == kids[..k];
      if fold(t[kids[k]].name) == fold(name) {
        found := found + [kids[k]];
      }
    }
    assert kids[..|kids|] == kids;
  }

  /** `resolve_scope_path` */
  method ResolveScopePath(path: seq<string>, t: Table, byParent: ChildIndex, fold: Fold) returns (r: Outcome<int, ScopeError>)
    requires Indexes(byParent, t) && |path| >= 1
    ensures r == Resolved(path, |path|, t, byParent, fold)
  {
    KidsIn(byParent, t, None);
    var candidates := ChildrenByName(None, path[0], t, byParent, fold);
    r := Only(candidates);
    for k := 1 to |path|
      invariant r == Resolved(path, k, t, byParent, fold)
    {
      if r.Ok? {
        KidsIn(byParent, t, Some(r.value));
        candidates := ChildrenByName(Some(r.value), path[k], t, byParent, fold);
        r := Only(candidates);
      }
    }
  }

  /** `_breadcrumb` */
  method Breadcrumb(n: int, t: Table, ghost root: int) returns (names: seq<string>)
    requires ValidTree(t, root) && n in t
    ensures names == Crumbs(t, root, n)
  {
    var chain := TaxonomyRoutes.BuildBreadcrumb(n, t, root);
    names := seq(|chain|, i requires 0 <= i < |chain| => t[chain[i]].name);
  }

  ghost predicate Bears(t: Table, n: int, name: string, fold: Fold) {
    n in t && fold(t[n].name) == fold(name)
  }

  /** The node alone bears the name. */
  ghost predicate BearsAlone(t: Table, n: int, name: string, fold: Fold) {
    Bears(t, n, name, fold) && forall m :: Bears(t, m, name, fold) ==> m == n
  }

  lemma NamedBear(ids: seq<int>, t: Table, name: string, fold: Fold)
    requires AllIn(ids, t) && AllDifferent(ids) && forall n :: n in t ==> n in ids
    ensures AllDifferent(Named(ids, t, name, fold))
    ensures forall m :: m in Named(ids, t, name, fold) <==> Bears(t, m, name, fold)
  {
    NamedHas(ids, t, name, fold, 0);
    forall m ensures m in Named(ids, t, name, fold) <==> Bears(t, m, name, fold) {
      NamedHas(ids, t, name, fold, m);
    }
  }

  lemma AloneIff(candidates: seq<int>, t: Table, name: string, fold: Fold, n: int)
    requires AllDifferent(candidates) && forall m :: m in candidates <==> Bears(t, m, name, fold)
    ensures BearsAlone(t, n, name, fold) <==> candidates == [n]
  {
    assert |candidates| > 1 ==> candidates[0] != candidates[1];
    if BearsAlone(t, n, name, fold) {
      assert n in candidates;
      forall j | 0 <= j < |candidates| ensures candidates[j] == n {
        assert candidates[j] in candidates;
      }
    }
    if candidates == [n] {
      assert n in candidates;
      forall m | Bears(t, m, name, fold) ensures m == n {
        assert m in candidates;
      }
    }
  }

  /** `resolve_scope_name`: a node is found exactly when it alone bears the name, up to case. */
  method ResolveScopeName(name: string, ids: seq<int>, t: Table, fold: Fold) returns (r: Outcome<int, ScopeError>)
    requires AllIn(ids, t) && AllDifferent(ids) && forall n :: n in t ==> n in ids
    ensures forall n :: r == Ok(n) <==> BearsAlone(t, n, name, fold)
    ensures r == Raised(NoSuchName) <==> forall m :: !Bears(t, m, name, fold)
  {
    var candidates := Named(ids, t, name, fold);
    NamedBear(ids, t, name, fold);
    forall n ensures BearsAlone(t, n, name, fold) <==> candidates == [n] {
      AloneIff(candidates, t, name, fold, n);
    }
    if candidates == [] {
      return Raised(NoSuchName);
    }
    assert Bears(t, candidates[0], name, fold);
    if |candidates| > 1 {
      return Raised(AmbiguousName);
    }
    return Ok(candidates[0]);
  }
}
