/**
 The taxonomy tree: its row invariant, its indexes, and the route paths that name its nodes.
 */
module TaxonomyTree {
  import opened Common
  import opened RoutePath
  import opened Sorting
  import opened Text

  datatype Node = Node(id: int, parent: Option<int>, name: string, slug: string, depth: nat)

  type Table = map<int, Node>
  type ChildIndex = map<Option<int>, seq<int>>

  /** One root, and every other node one level below its parent. */
  ghost predicate TreeShape(t: Table, root: int) {
    && root in t && t[root].parent == None && t[root].depth == 0
    && (forall n {:trigger t[n]} :: n in t ==> t[n].id == n && IsSlug(t[n].slug))
    && (forall n {:trigger t[n].parent} :: n in t && n != root ==>
          && t[n].parent.Some? && t[n].parent.value in t
          && t[n].depth == t[t[n].parent.value].depth + 1)
  }

  /** A tree whose siblings have distinct slugs. */
  ghost predicate ValidTree(t: Table, root: int) {
    && TreeShape(t, root)
    && (forall a, b :: a in t && b in t && a != b && t[a].parent == t[b].parent ==> t[a].slug != t[b].slug)
  }

  /** The breadcrumb of a node by recursion: the ids from the root down to it. */
  ghost function Chain(t: Table, root: int, n: int): (c: seq<int>)
    requires TreeShape(t, root) && n in t
    ensures |c| == t[n].depth + 1 && c[0] == root && c[|c| - 1] == n
    ensures forall i :: 0 <= i < |c| ==> c[i] in t
    decreases t[n].depth
  {
    if n == root then [n] else Chain(t, root, t[n].parent.value) + [n]
  }

  ghost function Slugs(t: Table, root: int, n: int): (s: seq<string>)
    requires TreeShape(t, root) && n in t
    ensures |s| == t[n].depth
    ensures forall i :: 0 <= i < |s| ==> IsSlug(s[i])
    decreases t[n].depth
  {
    if n == root then [] else Slugs(t, root, t[n].parent.value) + [t[n].slug]
  }

  /** The route path of a node: the slugs below the root, joined by slashes. */
  ghost function Path(t: Table, root: int, n: int): string
    requires TreeShape(t, root) && n in t
  {
    Join(Slugs(t, root, n), '/')
  }

  /** A breadcrumb walks parent links, and carries the slugs of the route path. */
  lemma {:induction false} ChainWalksParents(t: Table, root: int, n: int)
    requires TreeShape(t, root) && n in t
    ensures forall i :: 0 <= i < t[n].depth ==>
              var c := Chain(t, root, n);
              && t[c[i + 1]].parent == Some(c[i])
              && Slugs(t, root, n)[i] == t[c[i + 1]].slug
    ensures forall i :: 0 <= i <= t[n].depth ==> Slugs(t, root, Chain(t, root, n)[i]) == Slugs(t, root, n)[..i]
    decreases t[n].depth
  {
    if n != root {
      var up := t[n].parent.value;
      var c, d := Chain(t, root, n), Chain(t, root, up);
      var s, u := Slugs(t, root, n), Slugs(t, root, up);
      ChainWalksParents(t, root, up);
      assert c == d + [n] && s == u + [t[n].slug];
      forall i | 0 <= i < t[n].depth ensures t[c[i + 1]].parent == Some(c[i]) && s[i] == t[c[i + 1]].slug {
        assert i < t[up].depth ==> c[i] == d[i] && c[i + 1] == d[i + 1] && s[i] == u[i];
      }
      forall i | 0 <= i <= t[n].depth ensures Slugs(t, root, c[i]) == s[..i] {
        if i <= t[up].depth {
          assert c[i] == d[i] && s[..i] == u[..i];
        }
      }
    }
  }

  lemma {:induction false} ChainStep(t: Table, root: int, n: int, i: nat)
    requires TreeShape(t, root) && n in t && i < t[n].depth
    ensures t[Chain(t, root, n)[i + 1]].parent == Some(Chain(t, root, n)[i])
    decreases t[n].depth
  {
    var up := t[n].parent.value;
    if i < t[up].depth {
      ChainStep(t, root, up, i);
    }
  }

  lemma PathNonEmpty(t: Table, root: int, n: int)
    requires TreeShape(t, root) && n in t
    ensures Path(t, root, n) == "" <==> n == root
  {
    if n != root {
      var parent := t[n].parent.value;
      if parent != root {
        JoinSnoc(Slugs(t, root, parent), t[n].slug, '/');
      }
    }
  }

  /** The path of a child, as the stack walk joins it from its parent's. */
  lemma PathOfChild(t: Table, root: int, n: int)
    requires TreeShape(t, root) && n in t && n != root
    ensures Path(t, root, n) == JoinRoute([Path(t, root, t[n].parent.value), t[n].slug])
  {
    var parent := t[n].parent.value;
    PathNonEmpty(t, root, parent);
    var up := Path(t, root, parent);
    assert [up, t[n].slug][1..] == [t[n].slug];
    assert [t[n].slug][1..] == [];
    assert NonEmpty([t[n].slug]) == [t[n].slug];
    assert NonEmpty([up, t[n].slug]) == (if up == "" then [] else [up]) + [t[n].slug];
    if parent == root {
      assert Slugs(t, root, n) == [t[n].slug];
    } else {
      JoinSnoc(Slugs(t, root, parent), t[n].slug, '/');
      assert Join([up, t[n].slug], '/') == up + "/" + t[n].slug;
    }
  }

  lemma SplitPath(t: Table, root: int, n: int)
    requires TreeShape(t, root) && n in t && n != root
    ensures Split(Path(t, root, n), '/') == Slugs(t, root, n)
  {
    SplitJoin(Slugs(t, root, n), '/');
  }

  /** Two nodes with the same slugs are the same node. */
  lemma {:induction false} SlugsInjective(t: Table, root: int, a: int, b: int)
    requires ValidTree(t, root) && a in t && b in t && Slugs(t, root, a) == Slugs(t, root, b)
    ensures a == b
    decreases t[a].depth
  {
    assert t[a].depth == |Slugs(t, root, a)| == |Slugs(t, root, b)| == t[b].depth;
    if a != root && b != root {
      var sa, sb := Slugs(t, root, a), Slugs(t, root, b);
      assert Slugs(t, root, t[a].parent.value) == sa[..|sa| - 1] == sb[..|sb| - 1] == Slugs(t, root, t[b].parent.value);
      assert t[a].slug == sa[|sa| - 1] == t[b].slug;
      SlugsInjective(t, root, t[a].parent.value, t[b].parent.value);
    }
  }

  /** No two nodes share a route path. */
  lemma PathsInjective(t: Table, root: int, a: int, b: int)
    requires ValidTree(t, root) && a in t && b in t && Path(t, root, a) == Path(t, root, b)
    ensures a == b
  {
    PathNonEmpty(t, root, a);
    PathNonEmpty(t, root, b);
    if a != root && b != root {
      SplitPath(t, root, a);
      SplitPath(t, root, b);
      SlugsInjective(t, root, a, b);
    }
  }

  /** `child_ids_by_parent`: every node once, under its own parent. */
  ghost predicate Indexes(byParent: ChildIndex, t: Table) {
    && (forall p, i :: p in byParent && 0 <= i < |byParent[p]| ==>
          byParent[p][i] in t && t[byParent[p][i]].parent == p)
    && (forall n :: n in t ==> t[n].parent in byParent && n in byParent[t[n].parent])
    && (forall p, i, j :: p in byParent && 0 <= i < j < |byParent[p]| ==> byParent[p][i] != byParent[p][j])
  }

  /** `child_ids_by_parent.get(parent, [])` */
  function Kids(byParent: ChildIndex, parent: Option<int>): seq<int> {
    if parent in byParent then byParent[parent] else []
  }

  ghost function Children(t: Table, n: int): set<int> {
    set c | c in t && t[c].parent == Some(n)
  }

  lemma KidsAreChildren(byParent: ChildIndex, t: Table, n: int)
    requires Indexes(byParent, t)
    ensures forall c :: c in Kids(byParent, Some(n)) <==> c in Children(t, n)
    ensures Kids(byParent, Some(n)) == [] <==> Children(t, n) == {}
  {
    var kids := Kids(byParent, Some(n));
    if kids != [] {
      assert kids[0] in Children(t, n);
    }
    forall c | c in Children(t, n) ensures c in kids {
      assert t[c].parent in byParent;
    }
  }

  /** The cards assigned to one taxonomy node. */
  function CardsOf(assignment: map<int, int>, n: int): set<int> {
    set c | c in assignment && assignment[c] == n
  }

  /** A leaf below the root: only such nodes are browsed as card scopes. */
  ghost predicate Scope(t: Table, n: int) {
    n in t && t[n].parent.Some? && forall c {:trigger t[c].parent} :: c in t ==> t[c].parent != Some(n)
  }

  lemma ScopeByIndex(t: Table, byParent: ChildIndex, n: int)
    requires Indexes(byParent, t)
    ensures Scope(t, n) <==> n in t && t[n].parent.Some? && Kids(byParent, Some(n)) == []
  {
    KidsAreChildren(byParent, t, n);
    if n in t && Children(t, n) == {} {
      forall c | c in t ensures t[c].parent != Some(n) {
        assert c !in Children(t, n);
      }
    }
    if Scope(t, n) {
      forall c ensures c !in Children(t, n) {
      }
      assert Children(t, n) == {};
    }
  }

  ghost predicate DistinctIds(rows: seq<Node>) {
    forall i, j :: 0 <= i < j < |rows| ==> rows[i].id != rows[j].id
  }

  /** The rows of a listing, keyed by id. */
  ghost predicate Lists(rows: seq<Node>, t: Table) {
    && (forall i :: 0 <= i < |rows| ==> rows[i].id in t && t[rows[i].id] == rows[i])
    && (forall n :: n in t ==> t[n].id == n && t[n] in rows)
  }

  /** `_index_tree`: the two dictionaries every tree algorithm works on. */
  method IndexTree(rows: seq<Node>) returns (nodeById: Table, byParent: ChildIndex)
    requires DistinctIds(rows)
    ensures Lists(rows, nodeById)
    ensures Indexes(byParent, nodeById)
  {
    nodeById, byParent := map[], map[];
    for k := 0 to |rows|
      invariant Lists(rows[..k], nodeById)
      invariant Indexes(byParent, nodeById)
    {
      var node := rows[k];
      assert node.id !in nodeById;
      assert rows[..k + 1] == rows[..k] + [node];
      nodeById := nodeById[node.id := node];
      byParent := byParent[node.parent := Kids(byParent, node.parent) + [node.id]];
    }
    assert rows[..|rows|] == rows;
  }

  /** `_require_single_root` */
  method RequireSingleRoot(nodeById: Table, byParent: ChildIndex) returns (root: Option<int>)
    requires Indexes(byParent, nodeById)
    ensures root.Some? ==> root.value in nodeById && nodeById[root.value].parent == None
    ensures root.Some? <==> exists r :: r in nodeById && nodeById[r].parent == None
                                     && forall n :: n in nodeById && nodeById[n].parent == None ==> n == r
  {
    var rootIds := Kids(byParent, None);
    if |rootIds| != 1 {
      if |rootIds| > 1 {
        assert rootIds[0] in nodeById && rootIds[1] in nodeById && rootIds[0] != rootIds[1];
      }
      return None;
    }
    assert forall n :: n in nodeById && nodeById[n].parent == None ==> n in rootIds;
    return Some(rootIds[0]);
  }

  /** Every node has an ancestor in a set that holds the root and is closed under children. */
  lemma {:induction false} ClosedSetIsWhole(t: Table, root: int, seen: set<int>, n: int)
    requires TreeShape(t, root) && n in t
    requires root in seen
    requires forall c :: c in t && c != root && t[c].parent.value in seen ==> c in seen
    ensures n in seen
    decreases t[n].depth
  {
    if n != root {
      ClosedSetIsWhole(t, root, seen, t[n].parent.value);
    }
  }

  /** Seen nodes hang together below the root. */
  ghost predicate Rooted(t: Table, root: int, seen: set<int>) {
    root in seen && forall c {:trigger c in seen} :: c in seen && c != root ==> c in t && t[c].parent.Some? && t[c].parent.value in seen
  }

  /** The stack holds unseen nodes whose parents have been seen. */
  ghost predicate Waiting(t: Table, root: int, seen: set<int>, stack: seq<int>) {
    forall c {:trigger c in stack} :: c in stack ==>
      c in t && c != root && c !in seen && t[c].parent.Some? && t[c].parent.value in seen
  }

  /** No child of a seen node is forgotten. */
  ghost predicate Covers(t: Table, root: int, seen: set<int>, stack: seq<int>) {
    forall c {:trigger t[c].parent} :: c in t && t[c].parent.Some? && t[c].parent.value in seen ==> c in seen || c in stack
  }

  ghost predicate Frontier(t: Table, root: int, seen: set<int>, stack: seq<int>) {
    && Rooted(t, root, seen) && Waiting(t, root, seen, stack) && Covers(t, root, seen, stack) && AllDifferent(stack)
  }

  lemma KidsWait(t: Table, root: int, byParent: ChildIndex, seen: set<int>, n: int, c: int)
    requires TreeShape(t, root) && Indexes(byParent, t) && Rooted(t, root, seen)
    requires n in t && n !in seen && c in Kids(byParent, Some(n))
    ensures c in t && t[c].parent == Some(n) && c != root && c != n && c !in seen
  {
    assert t[c].parent == Some(n);
    assert t[c].depth == t[n].depth + 1;
  }

  lemma PopKeepsNoRepeats(t: Table, root: int, byParent: ChildIndex, seen: set<int>, stack: seq<int>)
    requires TreeShape(t, root) && Indexes(byParent, t) && Rooted(t, root, seen) && Waiting(t, root, seen, stack)
    requires AllDifferent(stack) && stack != []
    ensures AllDifferent(stack[..|stack| - 1] + Kids(byParent, Some(stack[|stack| - 1])))
  {
    var n := stack[|stack| - 1];
    var kids := Kids(byParent, Some(n));
    assert n in stack;
    forall i | 0 <= i < |kids| ensures kids[i] !in stack[..|stack| - 1] {
      KidsWait(t, root, byParent, seen, n, kids[i]);
      forall j | 0 <= j < |stack| - 1 ensures stack[j] != kids[i] {
        assert stack[j] in stack;
      }
    }
  }

  lemma PopKeepsWaiting(t: Table, root: int, byParent: ChildIndex, seen: set<int>, stack: seq<int>)
    requires TreeShape(t, root) && Indexes(byParent, t) && Rooted(t, root, seen) && Waiting(t, root, seen, stack)
    requires AllDifferent(stack) && stack != []
    ensures var n := stack[|stack| - 1];
            Waiting(t, root, seen + {n}, stack[..|stack| - 1] + Kids(byParent, Some(n)))
  {
    var n := stack[|stack| - 1];
    assert n in stack;
    var front, kids := stack[..|stack| - 1], Kids(byParent, Some(n));
    forall c | c in front + kids
      ensures c in t && c != root && c !in seen + {n} && t[c].parent.Some? && t[c].parent.value in seen + {n}
    {
      if c in kids {
        KidsWait(t, root, byParent, seen, n, c);
      } else {
        assert c in stack;
      }
    }
  }

  lemma PopKeepsCovers(t: Table, root: int, byParent: ChildIndex, seen: set<int>, stack: seq<int>)
    requires Indexes(byParent, t) && Covers(t, root, seen, stack) && stack != []
    ensures var n := stack[|stack| - 1];
            Covers(t, root, seen + {n}, stack[..|stack| - 1] + Kids(byParent, Some(n)))
  {
    var n := stack[|stack| - 1];
    var front := stack[..|stack| - 1];
    assert stack == front + [n];
    forall c | c in t && t[c].parent.Some? && t[c].parent.value in seen + {n}
      ensures c in seen + {n} || c in front + Kids(byParent, Some(n))
    {
      if t[c].parent.value == n {
        KidsAreChildren(byParent, t, n);
        assert c in Children(t, n);
      }
    }
  }

  /** One round of the stack walk. */
  lemma PopKeepsFrontier(t: Table, root: int, byParent: ChildIndex, seen: set<int>, stack: seq<int>)
    requires TreeShape(t, root) && Indexes(byParent, t) && Frontier(t, root, seen, stack) && stack != []
    ensures var n := stack[|stack| - 1];
            Frontier(t, root, seen + {n}, stack[..|stack| - 1] + Kids(byParent, Some(n)))
  {
    assert stack[|stack| - 1] in stack;
    PopKeepsNoRepeats(t, root, byParent, seen, stack);
    PopKeepsWaiting(t, root, byParent, seen, stack);
    PopKeepsCovers(t, root, byParent, seen, stack);
  }
}
