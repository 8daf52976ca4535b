/**
 Route paths of a whole tree by an explicit stack, their resolution back to nodes, and breadcrumbs.
 */
module TaxonomyRoutes {
  import opened Common
  import opened RoutePath
  import opened TaxonomyTree
  import opened Text

  /** `_build_route_paths_by_id`: every node gets exactly its own route path. */
  method BuildRoutePaths(root: int, byParent: ChildIndex, nodeById: Table) returns (paths: map<int, string>)
    requires ValidTree(nodeById, root) && Indexes(byParent, nodeById)
    ensures paths.Keys == nodeById.Keys
    ensures forall n :: n in nodeById ==> paths[n] == Path(nodeById, root, n)
  {
    PathNonEmpty(nodeById, root, root);
    paths := map[root := ""];
    var stack := Kids(byParent, Some(root));
    KidsAreChildren(byParent, nodeById, root);
    while stack != []
      invariant paths.Keys <= nodeById.Keys && Frontier(nodeById, root, paths.Keys, stack)
      invariant forall n :: n in paths ==> paths[n] == Path(nodeById, root, n)
      decreases nodeById.Keys - paths.Keys
    {
      var nodeId := stack[|stack| - 1];
      assert nodeId in stack;
      var node := nodeById[nodeId];
      PopKeepsFrontier(nodeById, root, byParent, paths.Keys, stack);
      PathOfChild(nodeById, root, nodeId);
      PathNext(nodeById, root, paths, nodeId);
      paths := paths[node.id := JoinRoute([paths[node.parent.value], node.slug])];
      stack := stack[..|stack| - 1] + Kids(byParent, Some(node.id));
    }
    forall n | n in nodeById ensures n in paths {
      ClosedSetIsWhole(nodeById, root, paths.Keys, n);
    }
  }

  lemma PathNext(t: Table, root: int, paths: map<int, string>, n: int)
    requires TreeShape(t, root) && n in t && (forall m :: m in paths ==> m in t && paths[m] == Path(t, root, m))
    ensures var more := paths[n := Path(t, root, n)];
            more.Keys == paths.Keys + {n} && forall m :: m in more ==> m in t && more[m] == Path(t, root, m)
  {
  }

  /** `"//" in s` */
  predicate HasDoubleSlash(s: string) {
    exists i :: 0 <= i < |s| - 1 && s[i] == '/' && s[i + 1] == '/'
  }

  predicate Malformed(s: string) {
    (s != "" && (s[0] == '/' || s[|s| - 1] == '/')) || HasDoubleSlash(s)
  }

  lemma {:induction false} EmptyLaterSegment(s: string)
    requires s != "" && (s[|s| - 1] == '/' || HasDoubleSlash(s))
    ensures "" in Split(s, '/')[1..]
  {
    var rest := Split(s[1..], '/');
    if s[0] == '/' {
      assert Split(s, '/')[1..] == rest;
    } else {
      assert Split(s, '/')[1..] == rest[1..];
    }
    if s == "/" {
      assert rest[0] == "";
    } else if s[0] == '/' && s[1] == '/' {
      assert rest[0] == "";
    } else {
      if HasDoubleSlash(s) {
        var i :| 0 <= i < |s| - 1 && s[i] == '/' && s[i + 1] == '/';
        assert s[1..][i - 1] == '/' && s[1..][i] == '/';
      } else {
        assert s[1..][|s| - 2] == '/';
      }
      EmptyLaterSegment(s[1..]);
    }
  }

  /** A malformed path has an empty segment, so no node below the root has it. */
  lemma MalformedIsNoPath(t: Table, root: int, n: int)
    requires ValidTree(t, root) && n in t
    ensures !Malformed(Path(t, root, n))
  {
    var s := Path(t, root, n);
    PathNonEmpty(t, root, n);
    if Malformed(s) {
      SplitPath(t, root, n);
      if s[0] != '/' {
        EmptyLaterSegment(s);
      }
      assert false;
    }
  }

  /** The children of a node that carry a slug, in listing order. */
  method MatchingChildren(cursor: int, segment: string, byParent: ChildIndex, nodeById: Table)
    returns (matches: seq<int>)
    requires Indexes(byParent, nodeById)
    ensures forall i :: 0 <= i < |matches| ==> matches[i] in Children(nodeById, cursor) && nodeById[matches[i]].slug == segment
    ensures forall c :: c in Children(nodeById, cursor) && nodeById[c].slug == segment ==> c in matches
    ensures forall i, j :: 0 <= i < j < |matches| ==> matches[i] != matches[j]
  {
    var kids := Kids(byParent, Some(cursor));
    KidsAreChildren(byParent, nodeById, cursor);
    matches := [];
    for k := 0 to |kids|
      invariant forall i :: 0 <= i < |matches| ==>
                  matches[i] in kids[..k] && nodeById[matches[i]].slug == segment
      invariant forall i :: 0 <= i < k && nodeById[kids[i]].slug == segment ==> kids[i] in matches
      invariant forall i, j :: 0 <= i < j < |matches| ==> matches[i] != matches[j]
    {
      assert kids[k] !in kids[..k];
      assert kids[..k + 1] == kids[..k] + [kids[k]];
      if nodeById[kids[k]].slug == segment {
        matches := matches + [kids[k]];
      }
    }
    assert kids[..|kids|] == kids;
  }

  /**
   `_resolve_scope_by_route_path`: resolution finds a node exactly when the string is its route
   path, so resolving and building paths are inverse to each other; every other string is refused.
   */
  method ResolveRoutePath(routePath: string, root: int, byParent: ChildIndex, nodeById: Table)
    returns (found: Option<int>)
    requires ValidTree(nodeById, root) && Indexes(byParent, nodeById)
    ensures found.Some? ==> found.value in nodeById && Path(nodeById, root, found.value) == routePath
    ensures forall n :: n in nodeById && Path(nodeById, root, n) == routePath ==> found == Some(n)
  {
    PathNonEmpty(nodeById, root, root);
    if Malformed(routePath) {
      forall n | n in nodeById ensures Path(nodeById, root, n) != routePath {
        MalformedIsNoPath(nodeById, root, n);
      }
      return None;
    }
    if routePath == "" {
      forall n | n in nodeById && Path(nodeById, root, n) == routePath ensures n == root {
        PathNonEmpty(nodeById, root, n);
      }
      return Some(root);
    }

    var segments := Split(routePath, '/');
    var cursor := root;
    for k := 0 to |segments|
      invariant cursor in nodeById && Slugs(nodeById, root, cursor) == segments[..k]
    {
      var matches := MatchingChildren(cursor, segments[k], byParent, nodeById);
      SiblingsWithOneSlug(nodeById, root, cursor, segments[k], matches);
      if |matches| != 1 {
        assert matches == [];
        forall n | n in nodeById ensures Path(nodeById, root, n) != routePath {
          if Path(nodeById, root, n) == routePath {
            OnTheWay(nodeById, root, n, routePath, cursor, k);
            assert false;
          }
        }
        return None;
      }
      cursor := matches[0];
      assert segments[..k + 1] == segments[..k] + [segments[k]];
    }
    assert segments[..|segments|] == segments;
    JoinSplit(routePath, '/');
    forall n | n in nodeById && Path(nodeById, root, n) == routePath ensures n == cursor {
      PathsInjective(nodeById, root, n, cursor);
    }
    return Some(cursor);
  }

  lemma SiblingsWithOneSlug(t: Table, root: int, cursor: int, segment: string, matches: seq<int>)
    requires ValidTree(t, root)
    requires forall i :: 0 <= i < |matches| ==> matches[i] in Children(t, cursor) && t[matches[i]].slug == segment
    ensures |matches| > 1 ==> matches[0] == matches[1]
  {
  }

  /** A node whose path starts with the segments walked so far lies below the cursor. */
  lemma OnTheWay(t: Table, root: int, n: int, routePath: string, cursor: int, k: nat)
    requires ValidTree(t, root) && n in t && cursor in t
    requires routePath != "" && Path(t, root, n) == routePath
    requires k < |Split(routePath, '/')| && Slugs(t, root, cursor) == Split(routePath, '/')[..k]
    ensures k < t[n].depth
    ensures var next := Chain(t, root, n)[k + 1];
            next in Children(t, cursor) && t[next].slug == Split(routePath, '/')[k]
  {
    PathNonEmpty(t, root, n);
    SplitPath(t, root, n);
    StepBelow(t, root, n, k, k + 1);
    SlugsInjective(t, root, Chain(t, root, n)[k], cursor);
  }

  /** One step down the chain: the node reached so far carries the slugs so far, and the next one is its child. */
  lemma {:induction false} StepBelow(t: Table, root: int, n: int, k: nat, next: nat)
    requires TreeShape(t, root) && n in t && next == k + 1 <= t[n].depth
    ensures var c := Chain(t, root, n);
            && Slugs(t, root, c[k]) == Slugs(t, root, n)[..k]
            && c[next] in Children(t, c[k]) && t[c[next]].slug == Slugs(t, root, n)[k]
    decreases t[n].depth
  {
    var up := t[n].parent.value;
    var s, u := Slugs(t, root, n), Slugs(t, root, up);
    assert s == u + [t[n].slug] && Chain(t, root, n) == Chain(t, root, up) + [n];
    if next <= t[up].depth {
      StepBelow(t, root, up, k, next);
      assert s[..k] == u[..k];
    } else {
      assert s[..k] == u;
    }
  }

  /** `_build_breadcrumb`: walk up to the root, then reverse. */
  method BuildBreadcrumb(currentNodeId: int, nodeById: Table, ghost root: int) returns (chain: seq<int>)
    requires ValidTree(nodeById, root) && currentNodeId in nodeById
    ensures chain == Chain(nodeById, root, currentNodeId)
  {
    var upward := [];
    var cursor := nodeById[currentNodeId];
    while true
      invariant cursor.id in nodeById && cursor == nodeById[cursor.id]
      invariant Chain(nodeById, root, cursor.id) + Reversed(upward) == Chain(nodeById, root, currentNodeId)
      decreases cursor.depth
    {
      upward := upward + [cursor.id];
      if cursor.parent == None {
        break;
      }
      assert Chain(nodeById, root, cursor.id) == Chain(nodeById, root, cursor.parent.value) + [cursor.id];
      cursor := nodeById[cursor.parent.value];
    }
    chain := Reversed(upward);
  }

  function Reversed<T>(s: seq<T>): (r: seq<T>)
    ensures |r| == |s|
    ensures forall i :: 0 <= i < |s| ==> r[i] == s[|s| - 1 - i]
  {
    seq(|s|, i requires 0 <= i < |s| => s[|s| - 1 - i])
  }
}
