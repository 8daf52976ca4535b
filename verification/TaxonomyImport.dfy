/**
 Bootstrap import of a taxonomy document: flattening in document order, sibling-slug validation,
 and the row-by-row insertion that turns paths into parent links.
 */
module TaxonomyImport {
  import opened Common
  import opened RoutePath
  import opened Store
  import opened TaxonomyTree

  /** A parsed document; a key that is not text is `None`. */
  datatype Yaml = YNull | YText(text: string) | YMap(entries: seq<Entry>) | YList(items: seq<Yaml>) | YOther
  datatype Entry = Entry(key: Option<string>, value: Yaml)

  datatype ImportNode = ImportNode(path: seq<string>, parentPath: Option<seq<string>>, name: string, depth: nat)

  datatype ImportError =
    | StoreNotEmpty | RootNotMapping | NameNotText | NameEmpty | ListItemInvalid | ChildrenInvalid
    | FieldInvalid | ReservedName | SlugInvalid | SlugDuplicate

  type Flat = Outcome<seq<ImportNode>, ImportError>

  function Append(front: seq<ImportNode>, rest: Flat): Flat {
    if rest.Ok? then Ok(front + rest.value) else rest
  }

  function Then(first: Flat, rest: Flat): Flat {
    if first.Ok? then Append(first.value, rest) else first
  }

  lemma AppendTwice(a: seq<ImportNode>, b: seq<ImportNode>, rest: Flat)
    ensures Append(a, Append(b, rest)) == Append(a + b, rest)
  {
    if rest.Ok? {
      assert a + (b + rest.value) == (a + b) + rest.value;
    }
  }

  lemma AppendNothing(rest: Flat)
    ensures Append([], rest) == rest
  {
    if rest.Ok? {
      assert [] + rest.value == rest.value;
    }
  }

  function PathUnder(parent: Option<seq<string>>, name: string): seq<string> {
    (if parent.Some? then parent.value else []) + [name]
  }

  /** A list or scalar child is one node; the field validation strips it and refuses an empty name. */
  function TextNode(text: string, parent: seq<string>, depth: nat): Flat {
    var name := Strip(text, IsSpace);
    if name == "" then Raised(FieldInvalid) else Ok([ImportNode(parent + [name], Some(parent), name, depth)])
  }

  predicate KeysAreText(entries: seq<Entry>) {
    forall i :: 0 <= i < |entries| ==> entries[i].key.Some?
  }

  /** `_extend_mapping_nodes`: each node, then everything below it, then its next sibling. */
  function FlattenMapping(entries: seq<Entry>, parent: Option<seq<string>>, depth: nat): Flat
    decreases entries, 1
  {
    if KeysAreText(entries) then FlattenEntries(entries, parent, depth) else Raised(NameNotText)
  }

  function FlattenEntries(entries: seq<Entry>, parent: Option<seq<string>>, depth: nat): Flat
    requires KeysAreText(entries)
    decreases entries, 0
  {
    if entries == [] then Ok([])
    else Then(FlattenEntry(entries[0], parent, depth), FlattenEntries(entries[1..], parent, depth))
  }

  function FlattenEntry(entry: Entry, parent: Option<seq<string>>, depth: nat): Flat
    requires entry.key.Some?
    decreases entry, 0
  {
    var name := Strip(entry.key.value, IsSpace);
    if name == "" then Raised(NameEmpty)
    else
      var path := PathUnder(parent, name);
      Append([ImportNode(path, parent, name, depth)], FlattenChildren(entry.value, path, depth + 1))
  }

  /** `_extend_child_nodes` */
  function FlattenChildren(spec: Yaml, parent: seq<string>, depth: nat): Flat
    decreases spec, 0
  {
    match spec
    case YNull => Ok([])
    case YText(text) => TextNode(text, parent, depth)
    case YMap(entries) => FlattenMapping(entries, Some(parent), depth)
    case YList(items) => FlattenItems(items, parent, depth)
    case YOther => Raised(ChildrenInvalid)
  }

  function FlattenItems(items: seq<Yaml>, parent: seq<string>, depth: nat): Flat
    decreases items, 0
  {
    if items == [] then Ok([])
    else Then(FlattenItem(items[0], parent, depth), FlattenItems(items[1..], parent, depth))
  }

  function FlattenItem(item: Yaml, parent: seq<string>, depth: nat): Flat
    decreases item, 0
  {
    match item
    case YText(text) => TextNode(text, parent, depth)
    case YMap(entries) => FlattenMapping(entries, Some(parent), depth)
    case _ => Raised(ListItemInvalid)
  }

  /** `parse_taxonomy_yaml`, from the parsed document on. */
  function Flatten(document: Yaml): Flat {
    if document.YMap? then FlattenMapping(document.entries, None, 0) else Raised(RootNotMapping)
  }

  /** The list the recursion appends to. */
  class NodeList {
    var nodes: seq<ImportNode>
    constructor ()
      ensures nodes == []
    {
      nodes := [];
    }
  }

  method ExtendMappingNodes(entries: seq<Entry>, parent: Option<seq<string>>, depth: nat, out: NodeList)
    returns (failed: Option<ImportError>)
    modifies out
    ensures match FlattenMapping(entries, parent, depth)
            case Ok(added) => failed == None && out.nodes == old(out.nodes) + added
            case Raised(e) => failed == Some(e)
    decreases entries, 1
  {
    if !KeysAreText(entries) {
      return Some(NameNotText);
    }
    ghost var start, added := out.nodes, [];
    assert entries[0..] == entries;
    AppendNothing(FlattenEntries(entries, parent, depth));
    for k := 0 to |entries|
      invariant out.nodes == start + added && KeysAreText(entries[k..])
      invariant FlattenEntries(entries, parent, depth) == Append(added, FlattenEntries(entries[k..], parent, depth))
    {
      var entry := entries[k];
      assert entry.value < entry;
      assert entries[k..][0] == entry && entries[k..][1..] == entries[k + 1..];
      var name := Strip(entry.key.value, IsSpace);
      if name == "" {
        return Some(NameEmpty);
      }
      var path := PathUnder(parent, name);
      out.nodes := out.nodes + [ImportNode(path, parent, name, depth)];
      failed := ExtendChildNodes(entry.value, path, depth + 1, out);
      if failed != None {
        return;
      }
      ghost var below := FlattenChildren(entry.value, path, depth + 1).value;
      AppendTwice(added, [ImportNode(path, parent, name, depth)] + below, FlattenEntries(entries[k + 1..], parent, depth));
      added := added + ([ImportNode(path, parent, name, depth)] + below);
    }
    return None;
  }

  method ExtendChildNodes(spec: Yaml, parent: seq<string>, depth: nat, out: NodeList)
    returns (failed: Option<ImportError>)
    modifies out
    ensures match FlattenChildren(spec, parent, depth)
            case Ok(added) => failed == None && out.nodes == old(out.nodes) + added
            case Raised(e) => failed == Some(e)
    decreases spec, 0
  {
    match spec
    case YNull =>
      return None;
    case YText(text) =>
      failed := AppendText(text, parent, depth, out);
    case YMap(entries) =>
      failed := ExtendMappingNodes(entries, Some(parent), depth, out);
    case YList(items) =>
      ghost var start, added := out.nodes, [];
      assert items[0..] == items;
      AppendNothing(FlattenItems(items, parent, depth));
      for k := 0 to |items|
        invariant out.nodes == start + added
        invariant FlattenItems(items, parent, depth) == Append(added, FlattenItems(items[k..], parent, depth))
      {
        assert items[k..][0] == items[k] && items[k..][1..] == items[k + 1..];
        match items[k] {
          case YText(text) =>
            failed := AppendText(text, parent, depth, out);
          case YMap(entries) =>
            failed := ExtendMappingNodes(entries, Some(parent), depth, out);
          case _ =>
            failed := Some(ListItemInvalid);
        }
        if failed != None {
          return;
        }
        AppendTwice(added, FlattenItem(items[k], parent, depth).value, FlattenItems(items[k + 1..], parent, depth));
        added := added + FlattenItem(items[k], parent, depth).value;
      }
      return None;
    case YOther =>
      return Some(ChildrenInvalid);
  }

  method AppendText(text: string, parent: seq<string>, depth: nat, out: NodeList) returns (failed: Option<ImportError>)
    modifies out
    ensures match TextNode(text, parent, depth)
            case Ok(added) => failed == None && out.nodes == old(out.nodes) + added
            case Raised(e) => failed == Some(e)
  {
    var name := Strip(text, IsSpace);
    if name == "" {
      return Some(FieldInvalid);
    }
    out.nodes := out.nodes + [ImportNode(parent + [name], Some(parent), name, depth)];
    return None;
  }

  predicate PathMatches(n: ImportNode) {
    n.path == PathUnder(n.parentPath, n.name) && n.depth == |n.path| - 1
  }

  predicate ParentBefore(nodes: seq<ImportNode>, k: nat)
    requires k < |nodes|
  {
    nodes[k].parentPath.Some? && exists j :: 0 <= j < k && nodes[j].path == nodes[k].parentPath.value
  }

  /** Every node lies directly under `parent`, or under a node listed before it. */
  ghost predicate Nested(nodes: seq<ImportNode>, parent: Option<seq<string>>) {
    forall k {:trigger PathMatches(nodes[k])} :: 0 <= k < |nodes| ==>
      PathMatches(nodes[k]) && (nodes[k].parentPath == parent || ParentBefore(nodes, k))
  }

  lemma NestedConcat(a: seq<ImportNode>, b: seq<ImportNode>, parent: Option<seq<string>>)
    requires Nested(a, parent) && Nested(b, parent)
    ensures Nested(a + b, parent)
  {
    var all := a + b;
    forall k | 0 <= k < |all| ensures PathMatches(all[k]) && (all[k].parentPath == parent || ParentBefore(all, k)) {
      if k < |a| {
        assert all[k] == a[k] && PathMatches(a[k]);
        if ParentBefore(a, k) {
          var j :| 0 <= j < k && a[j].path == a[k].parentPath.value;
          assert all[j] == a[j];
        }
      } else {
        var i := k - |a|;
        assert all[k] == b[i] && PathMatches(b[i]);
        if ParentBefore(b, i) {
          var j :| 0 <= j < i && b[j].path == b[i].parentPath.value;
          assert all[|a| + j] == b[j];
        }
      }
    }
  }

  lemma NestedBelow(node: ImportNode, kids: seq<ImportNode>)
    requires PathMatches(node) && Nested(kids, Some(node.path))
    ensures Nested([node] + kids, node.parentPath)
  {
    var all := [node] + kids;
    forall k | 0 <= k < |all| ensures PathMatches(all[k]) && (all[k].parentPath == node.parentPath || ParentBefore(all, k)) {
      if k > 0 {
        assert all[k] == kids[k - 1] && PathMatches(kids[k - 1]);
        if kids[k - 1].parentPath == Some(node.path) {
          assert all[0].path == all[k].parentPath.value;
        } else {
          var j :| 0 <= j < k - 1 && kids[j].path == kids[k - 1].parentPath.value;
          assert all[j + 1] == kids[j];
        }
      }
    }
  }

  function DepthUnder(parent: Option<seq<string>>): nat {
    if parent.Some? then |parent.value| else 0
  }

  lemma {:induction false} MappingNests(entries: seq<Entry>, parent: Option<seq<string>>)
    ensures FlattenMapping(entries, parent, DepthUnder(parent)).Ok? ==>
              Nested(FlattenMapping(entries, parent, DepthUnder(parent)).value, parent)
    decreases entries, 1
  {
    if KeysAreText(entries) {
      EntriesNest(entries, parent);
    }
  }

  lemma {:induction false} EntriesNest(entries: seq<Entry>, parent: Option<seq<string>>)
    requires KeysAreText(entries)
    ensures FlattenEntries(entries, parent, DepthUnder(parent)).Ok? ==>
              Nested(FlattenEntries(entries, parent, DepthUnder(parent)).value, parent)
    decreases entries, 0
  {
    if entries != [] {
      var depth := DepthUnder(parent);
      EntryNests(entries[0], parent);
      EntriesNest(entries[1..], parent);
      var first, rest := FlattenEntry(entries[0], parent, depth), FlattenEntries(entries[1..], parent, depth);
      if first.Ok? && rest.Ok? {
        NestedConcat(first.value, rest.value, parent);
      }
    }
  }

  lemma {:induction false} EntryNests(entry: Entry, parent: Option<seq<string>>)
    requires entry.key.Some?
    ensures FlattenEntry(entry, parent, DepthUnder(parent)).Ok? ==>
              Nested(FlattenEntry(entry, parent, DepthUnder(parent)).value, parent)
    decreases entry, 0
  {
    var name := Strip(entry.key.value, IsSpace);
    if name != "" {
      var path := PathUnder(parent, name);
      ChildrenNest(entry.value, path);
      var kids := FlattenChildren(entry.value, path, |path|);
      if kids.Ok? {
        NestedBelow(ImportNode(path, parent, name, DepthUnder(parent)), kids.value);
      }
    }
  }

  lemma {:induction false} ChildrenNest(spec: Yaml, parent: seq<string>)
    ensures FlattenChildren(spec, parent, |parent|).Ok? ==>
              Nested(FlattenChildren(spec, parent, |parent|).value, Some(parent))
    decreases spec, 0
  {
    match spec
    case YMap(entries) => MappingNests(entries, Some(parent));
    case YList(items) => ItemsNest(items, parent);
    case _ =>
  }

  lemma {:induction false} ItemsNest(items: seq<Yaml>, parent: seq<string>)
    ensures FlattenItems(items, parent, |parent|).Ok? ==>
              Nested(FlattenItems(items, parent, |parent|).value, Some(parent))
    decreases items, 0
  {
    if items != [] {
      if items[0].YMap? {
        MappingNests(items[0].entries, Some(parent));
      }
      ItemsNest(items[1..], parent);
      var first, rest := FlattenItem(items[0], parent, |parent|), FlattenItems(items[1..], parent, |parent|);
      if first.Ok? && rest.Ok? {
        NestedConcat(first.value, rest.value, Some(parent));
      }
    }
  }

  /** A flattened document lists every node after the node it hangs under. */
  lemma FlattenNests(document: Yaml)
    ensures Flatten(document).Ok? ==> Nested(Flatten(document).value, None)
  {
    if document.YMap? {
      MappingNests(document.entries, None);
    }
  }

  const UNCLASSIFIED_NODE_NAME := "Unclassified"
  const ROOT_NODE_NAME := "Root"

  predicate SameSegment(a: ImportNode, b: ImportNode) {
    a.parentPath == b.parentPath && Slugify(a.name) == Slugify(b.name)
  }

  /** What validation accepts: usable names, and no two siblings with one slug. */
  ghost predicate SlugsValid(nodes: seq<ImportNode>) {
    && (forall k {:trigger Slugify(nodes[k].name)} :: 0 <= k < |nodes| ==>
          nodes[k].name != UNCLASSIFIED_NODE_NAME && Slugify(nodes[k].name).Some?)
    && (forall j, k {:trigger SameSegment(nodes[j], nodes[k])} ::
          0 <= j < |nodes| && 0 <= k < |nodes| && SameSegment(nodes[j], nodes[k]) ==> j == k)
  }

  /** What is wrong with a node after acceptable ones. */
  function Problem(node: ImportNode): ImportError {
    if node.name == UNCLASSIFIED_NODE_NAME then ImportError.ReservedName
    else if Slugify(node.name) == None then SlugInvalid
    else SlugDuplicate
  }

  /** Some of the first `k` nodes has this parent and slug. */
  predicate SegmentUsed(nodes: seq<ImportNode>, k: nat, parent: Option<seq<string>>, slug: string)
    requires k <= |nodes|
  {
    exists j :: 0 <= j < k && nodes[j].parentPath == parent && Slugify(nodes[j].name) == Some(slug)
  }

  lemma ValidNext(nodes: seq<ImportNode>, k: nat)
    requires k < |nodes| && SlugsValid(nodes[..k])
    ensures SlugsValid(nodes[..k + 1]) <==>
            && nodes[k].name != UNCLASSIFIED_NODE_NAME && Slugify(nodes[k].name).Some?
            && !SegmentUsed(nodes, k, nodes[k].parentPath, Slugify(nodes[k].name).value)
  {
    var all := nodes[..k + 1];
    assert forall j :: 0 <= j < k ==> all[j] == nodes[..k][j];
    assert all[k] == nodes[k];
    forall j | 0 <= j < k ensures nodes[j].name != UNCLASSIFIED_NODE_NAME && Slugify(nodes[j].name).Some? {
      assert Slugify(nodes[..k][j].name).Some?;
    }
    if SlugsValid(all) {
      assert Slugify(all[k].name).Some?;
      forall j | 0 <= j < k ensures !SameSegment(nodes[j], nodes[k]) {
        assert !SameSegment(all[j], all[k]);
      }
    }
  }

  lemma ValidPrefix(nodes: seq<ImportNode>, k: nat)
    requires k <= |nodes|
    ensures SlugsValid(nodes) ==> SlugsValid(nodes[..k])
  {
    if SlugsValid(nodes) {
      forall j | 0 <= j < k
        ensures nodes[..k][j].name != UNCLASSIFIED_NODE_NAME && Slugify(nodes[..k][j].name).Some?
      {
        assert Slugify(nodes[j].name).Some?;
      }
      forall i, j | 0 <= i < k && 0 <= j < k && SameSegment(nodes[..k][i], nodes[..k][j]) ensures i == j {
        assert SameSegment(nodes[i], nodes[j]);
      }
    }
  }

  type SlugsByParent = map<Option<seq<string>>, map<string, string>>

  predicate Taken(m: SlugsByParent, parent: Option<seq<string>>, slug: string) {
    parent in m && slug in m[parent]
  }

  /** `siblings = slugs_by_parent.setdefault(parent_path, {})`, then `siblings[route_slug] = name` */
  function AddSlug(m: SlugsByParent, parent: Option<seq<string>>, slug: string, name: string): (m': SlugsByParent)
    ensures forall p, s :: Taken(m', p, s) <==> Taken(m, p, s) || (p == parent && s == slug)
  {
    m[parent := (if parent in m then m[parent] else map[])[slug := name]]
  }

  lemma SegmentNext(nodes: seq<ImportNode>, k: nat, slug: string)
    requires k < |nodes| && Slugify(nodes[k].name) == Some(slug)
    ensures forall p, s :: SegmentUsed(nodes, k + 1, p, s) <==>
                           SegmentUsed(nodes, k, p, s) || (p == nodes[k].parentPath && s == slug)
  {
    forall p, s ensures SegmentUsed(nodes, k + 1, p, s) <==> SegmentUsed(nodes, k, p, s) || (p == nodes[k].parentPath && s == slug) {
      if SegmentUsed(nodes, k + 1, p, s) {
        var j :| 0 <= j < k + 1 && nodes[j].parentPath == p && Slugify(nodes[j].name) == Some(s);
        assert j == k || SegmentUsed(nodes, k, p, s);
      }
      if p == nodes[k].parentPath && s == slug {
        assert nodes[k].parentPath == p && Slugify(nodes[k].name) == Some(s);
      }
    }
  }

  /** `_validate_route_slugs`: accepts exactly the lists above, and reports the first offender. */
  method ValidateRouteSlugs(nodes: seq<ImportNode>) returns (failed: Option<ImportError>)
    ensures failed == None <==> SlugsValid(nodes)
    ensures failed.Some? ==> exists k :: 0 <= k < |nodes| && SlugsValid(nodes[..k]) && !SlugsValid(nodes[..k + 1])
                                           && failed == Some(Problem(nodes[k]))
  {
    var slugsByParent: SlugsByParent := map[];
    for k := 0 to |nodes|
      invariant SlugsValid(nodes[..k])
      invariant forall p, s :: Taken(slugsByParent, p, s) <==> SegmentUsed(nodes, k, p, s)
    {
      failed := AddNodeSlug(nodes[k], slugsByParent);
      ValidNext(nodes, k);
      if failed != None {
        ValidPrefix(nodes, k + 1);
        return;
      }
      SegmentNext(nodes, k, Slugify(nodes[k].name).value);
      slugsByParent := AddSlug(slugsByParent, nodes[k].parentPath, Slugify(nodes[k].name).value, nodes[k].name);
    }
    assert nodes[..|nodes|] == nodes;
    return None;
  }

  /** The checks made on one node before its slug is recorded. */
  method AddNodeSlug(node: ImportNode, slugsByParent: SlugsByParent) returns (failed: Option<ImportError>)
    ensures failed == None <==> node.name != UNCLASSIFIED_NODE_NAME && Slugify(node.name).Some?
                                && !Taken(slugsByParent, node.parentPath, Slugify(node.name).value)
    ensures failed.Some? ==> failed == Some(Problem(node))
  {
    if node.name == UNCLASSIFIED_NODE_NAME {
      return Some(ImportError.ReservedName);
    }
    var slug := Slugify(node.name);
    if slug == None {
      return Some(SlugInvalid);
    }
    if Taken(slugsByParent, node.parentPath, slug.value) {
      return Some(SlugDuplicate);
    }
    return None;
  }

  /** The row an import node becomes: row ids follow the list, starting right after the root. */
  ghost predicate RowFits(nodes: seq<ImportNode>, k: nat, root: int, t: Table)
    requires k < |nodes| && root + 1 + k in t
  {
    var row := t[root + 1 + k];
    && row.id == root + 1 + k && row.name == nodes[k].name && Some(row.slug) == Slugify(nodes[k].name)
    && row.depth == nodes[k].depth + 1 && row.parent.Some?
    && match nodes[k].parentPath
       case None => row.parent.value == root
       case Some(path) => exists j :: 0 <= j < k && nodes[j].path == path && row.parent.value == root + 1 + j
  }

  lemma DistinctPaths(nodes: seq<ImportNode>, j: nat, k: nat)
    requires Nested(nodes, None) && SlugsValid(nodes) && j < |nodes| && k < |nodes| && nodes[j].path == nodes[k].path
    ensures j == k
  {
    var a, b := nodes[j], nodes[k];
    assert PathMatches(nodes[j]) && PathMatches(nodes[k]);
    assert a.path[..|a.path| - 1] == b.path[..|b.path| - 1];
    assert a.name == a.path[|a.path| - 1] == b.name;
    SameParentPath(nodes, j, k);
    assert SameSegment(nodes[j], nodes[k]);
  }

  /** No parent path is empty, so a path determines its parent path. */
  lemma SameParentPath(nodes: seq<ImportNode>, j: nat, k: nat)
    requires Nested(nodes, None) && j < |nodes| && k < |nodes| && nodes[j].path == nodes[k].path
    ensures nodes[j].parentPath == nodes[k].parentPath
  {
    forall i | 0 <= i < |nodes| ensures nodes[i].parentPath.Some? ==> nodes[i].parentPath.value != [] {
      if nodes[i].parentPath.Some? {
        assert PathMatches(nodes[i]);
        var p :| 0 <= p < i && nodes[p].path == nodes[i].parentPath.value;
        assert PathMatches(nodes[p]);
      }
    }
    var a, b := nodes[j], nodes[k];
    assert PathMatches(a) && PathMatches(b);
    assert a.path[..|a.path| - 1] == if a.parentPath.Some? then a.parentPath.value else [];
    assert b.path[..|b.path| - 1] == if b.parentPath.Some? then b.parentPath.value else [];
  }

  /** The first `k` nodes are in the table, each as its row; nothing else is but the root. */
  ghost predicate Imported(nodes: seq<ImportNode>, k: nat, root: int, t: Table)
    requires k <= |nodes|
  {
    && (forall n :: n in t <==> root <= n <= root + k)
    && t[root] == Node(root, None, ROOT_NODE_NAME, "root", 0)
    && (forall i {:trigger RowFits(nodes, i, root, t)} :: 0 <= i < k ==> RowFits(nodes, i, root, t))
  }

  /** The names below the root along a breadcrumb. */
  ghost function Names(t: Table, root: int, n: int): seq<string>
    requires TreeShape(t, root) && n in t
    decreases t[n].depth
  {
    if n == root then [] else Names(t, root, t[n].parent.value) + [t[n].name]
  }

  lemma ImportedRow(nodes: seq<ImportNode>, k: nat, root: int, t: Table, n: int)
    requires Nested(nodes, None) && k <= |nodes| && Imported(nodes, k, root, t) && n in t && n != root
    ensures t[n].id == n && IsSlug(t[n].slug) && t[n].parent.Some? && t[n].parent.value in t
    ensures t[n].depth == t[t[n].parent.value].depth + 1
  {
    var i := n - root - 1;
    var node := nodes[i];
    assert RowFits(nodes, i, root, t) && PathMatches(node);
    SlugIsSegment(node.name);
    if node.parentPath.Some? {
      var j :| 0 <= j < i && nodes[j].path == node.parentPath.value && t[n].parent.value == root + 1 + j;
      assert RowFits(nodes, j, root, t) && PathMatches(nodes[j]);
    }
  }

  lemma ImportedShape(nodes: seq<ImportNode>, k: nat, root: int, t: Table)
    requires Nested(nodes, None) && k <= |nodes| && Imported(nodes, k, root, t)
    ensures TreeShape(t, root)
  {
    forall n | n in t && n != root
      ensures t[n].id == n && IsSlug(t[n].slug) && t[n].parent.Some? && t[n].parent.value in t
      ensures t[n].depth == t[t[n].parent.value].depth + 1
    {
      ImportedRow(nodes, k, root, t, n);
    }
  }

  lemma RootSlug()
    ensures Slugify(ROOT_NODE_NAME) == Some("root")
  {
    assert StripLeft("Root", IsSpace) == "Root" == StripRight("Root", IsSpace);
    assert Lower("Root") == "root";
    assert WordEnd("root", 4) == 4 && WordEnd("root", 3) == 4 && WordEnd("root", 2) == 4;
    assert WordEnd("root", 1) == 4 && WordEnd("root", 0) == 4 && NextWord("root", 0) == 0;
    assert Words("root", 4) == [];
    assert Words("root", 0) == ["root"[0..4]] + Words("root", 4);
    assert "root"[0..4] == "root";
    SlugIsWordsJoined(ROOT_NODE_NAME);
  }

  /** Each node's names below the root spell its path in the document. */
  lemma {:induction false} NamesSpellPath(nodes: seq<ImportNode>, k: nat, root: int, t: Table, i: nat)
    requires Nested(nodes, None) && k <= |nodes| && Imported(nodes, k, root, t) && TreeShape(t, root) && i < k
    ensures Names(t, root, root + 1 + i) == nodes[i].path
  {
    var n := root + 1 + i;
    assert RowFits(nodes, i, root, t) && PathMatches(nodes[i]);
    if nodes[i].parentPath.Some? {
      var j :| 0 <= j < i && nodes[j].path == nodes[i].parentPath.value && t[n].parent.value == root + 1 + j;
      NamesSpellPath(nodes, k, root, t, j);
    }
  }

  /** Siblings come from nodes with one parent path, so validation kept their slugs apart. */
  lemma ImportedSiblings(nodes: seq<ImportNode>, root: int, t: Table, a: int, b: int)
    requires Nested(nodes, None) && SlugsValid(nodes) && Imported(nodes, |nodes|, root, t)
    requires a in t && b in t && a != root && b != root && t[a].parent == t[b].parent && t[a].slug == t[b].slug
    ensures a == b
  {
    var i, j := a - root - 1, b - root - 1;
    assert RowFits(nodes, i, root, t) && RowFits(nodes, j, root, t);
    assert SameSegment(nodes[i], nodes[j]);
  }

  /** A valid tree with one row for the root and one for each node, standing at the node's own path. */
  ghost predicate Spells(t: Table, root: int, nodes: seq<ImportNode>) {
    && ValidTree(t, root) && |t| == |nodes| + 1
    && forall i :: 0 <= i < |nodes| ==> root + 1 + i in t && Names(t, root, root + 1 + i) == nodes[i].path
  }

  lemma ImportSpells(nodes: seq<ImportNode>, root: int, t: Table)
    requires Nested(nodes, None) && SlugsValid(nodes) && Imported(nodes, |nodes|, root, t)
    ensures Spells(t, root, nodes)
  {
    ImportedShape(nodes, |nodes|, root, t);
    forall a, b | a in t && b in t && t[a].parent == t[b].parent && t[a].slug == t[b].slug ensures a == b {
      if t[a].parent.Some? {
        ImportedSiblings(nodes, root, t, a, b);
      }
    }
    forall i | 0 <= i < |nodes| ensures Names(t, root, root + 1 + i) == nodes[i].path {
      NamesSpellPath(nodes, |nodes|, root, t, i);
    }
    IntervalSize(t.Keys, root, |nodes|);
  }

  lemma {:induction false} IntervalSize(s: set<int>, lo: int, width: nat)
    requires forall n :: n in s <==> lo <= n <= lo + width
    ensures |s| == width + 1
  {
    if width == 0 {
      assert s == {lo} by {
        forall n ensures n in s <==> n in {lo} {
        }
      }
    } else {
      IntervalSize(s - {lo + width}, lo, width - 1);
    }
  }

  lemma FirstRow(nodes: seq<ImportNode>, rows: Rows)
    requires rows.taxonomy == map[]
    ensures var root := rows.nextTaxonomyId;
            match InsertTaxonomyNode(rows, None, ROOT_NODE_NAME, 0)
            case Raised(_) => false
            case Ok(rows') => Imported(nodes, 0, root, rows'.taxonomy) && rows'.nextTaxonomyId == root + 1
                              && rows' == rows.(taxonomy := rows'.taxonomy, nextTaxonomyId := root + 1)
  {
    RootSlug();
  }

  /** The dictionary of paths imported so far. */
  ghost function PathIds(nodes: seq<ImportNode>, k: nat, root: int): map<seq<string>, int>
    requires k <= |nodes|
  {
    if k == 0 then map[] else PathIds(nodes, k - 1, root)[nodes[k - 1].path := root + k]
  }

  lemma {:induction false} PathIdsFind(nodes: seq<ImportNode>, k: nat, root: int, j: nat)
    requires Nested(nodes, None) && SlugsValid(nodes) && j < k <= |nodes|
    ensures Get(PathIds(nodes, k, root), nodes[j].path) == Some(root + 1 + j)
  {
    if j < k - 1 {
      PathIdsFind(nodes, k - 1, root, j);
      if nodes[j].path == nodes[k - 1].path {
        DistinctPaths(nodes, j, k - 1);
      }
    }
  }

  /** A node's parent has been imported, and the dictionary finds its row. */
  lemma ParentKnown(nodes: seq<ImportNode>, k: nat, root: int) returns (parent: int)
    requires Nested(nodes, None) && SlugsValid(nodes) && k < |nodes|
    ensures ParentId(nodes[k], root, PathIds(nodes, k, root)) == Some(parent)
    ensures ParentRow(nodes, k, root, parent)
  {
    assert PathMatches(nodes[k]);
    if nodes[k].parentPath.Some? {
      var j :| 0 <= j < k && nodes[j].path == nodes[k].parentPath.value;
      PathIdsFind(nodes, k, root, j);
      parent := root + 1 + j;
    } else {
      parent := root;
    }
  }

  ghost predicate ParentRow(nodes: seq<ImportNode>, k: nat, root: int, parent: int)
    requires k < |nodes|
  {
    match nodes[k].parentPath
    case None => parent == root
    case Some(path) => root < parent <= root + k && nodes[parent - root - 1].path == path
  }

  /** Inserting the next node never violates a constraint, and gives it its row. */
  lemma NextRow(nodes: seq<ImportNode>, k: nat, root: int, rows: Rows, parent: int)
    requires Nested(nodes, None) && SlugsValid(nodes) && k < |nodes|
    requires Imported(nodes, k, root, rows.taxonomy) && rows.nextTaxonomyId == root + 1 + k
    requires ParentRow(nodes, k, root, parent)
    ensures match InsertTaxonomyNode(rows, Some(parent), nodes[k].name, nodes[k].depth + 1)
            case Raised(_) => false
            case Ok(rows') => Imported(nodes, k + 1, root, rows'.taxonomy) && rows'.nextTaxonomyId == root + k + 2
                              && rows' == rows.(taxonomy := rows'.taxonomy, nextTaxonomyId := root + k + 2)
  {
    var t, name := rows.taxonomy, nodes[k].name;
    var slug := Slugify(name).value;
    forall n | n in t && t[n].parent == Some(parent) && t[n].slug == slug ensures false {
      var i := n - root - 1;
      assert n != root;
      assert RowFits(nodes, i, root, t);
      SameParentRow(nodes, k, root, t, i, parent);
      assert SameSegment(nodes[i], nodes[k]);
    }
    var id := root + 1 + k;
    var t' := t[id := Node(id, Some(parent), name, slug, nodes[k].depth + 1)];
    forall i | 0 <= i < k + 1 ensures RowFits(nodes, i, root, t') {
      if i < k {
        assert RowFits(nodes, i, root, t);
      } else if nodes[k].parentPath.Some? {
        assert nodes[parent - root - 1].path == nodes[k].parentPath.value;
      }
    }
  }

  lemma SameParentRow(nodes: seq<ImportNode>, k: nat, root: int, t: Table, i: nat, parent: int)
    requires Nested(nodes, None) && SlugsValid(nodes) && i < k < |nodes| && Imported(nodes, k, root, t)
    requires t[root + 1 + i].parent == Some(parent)
    requires ParentRow(nodes, k, root, parent)
    ensures nodes[i].parentPath == nodes[k].parentPath
  {
    assert RowFits(nodes, i, root, t);
  }

  /**
   `import_yaml_text`, from the parsed document on. A document is imported exactly when it
   flattens and validates, into an empty table only; the table is then a valid tree that spells
   the document. Otherwise nothing changes.
   */
  method ImportDocument(session: Session, document: Yaml) returns (r: Outcome<nat, ImportError>)
    modifies session
    ensures r.Ok? <==> old(session.taxonomy) == map[] && Flatten(document).Ok? && SlugsValid(Flatten(document).value)
    ensures r.Raised? ==> session.Snapshot() == old(session.Snapshot())
    ensures r.Raised? && old(session.taxonomy) == map[] && Flatten(document).Raised? ==> r.error == Flatten(document).error
    ensures r.Ok? ==>
              var nodes, root := Flatten(document).value, old(session.nextTaxonomyId);
              r.value == |nodes| + 1 && Spells(session.taxonomy, root, nodes)
    ensures session.Snapshot() == DocumentImported(old(session.Snapshot()), document)
  {
    if session.taxonomy != map[] {
      return Raised(StoreNotEmpty);
    }
    var out := new NodeList();
    FlattenNests(document);
    if !document.YMap? {
      return Raised(RootNotMapping);
    }
    var failed := ExtendMappingNodes(document.entries, None, 0, out);
    if failed != None {
      return Raised(failed.value);
    }
    var nodes := out.nodes;
    assert [] + Flatten(document).value == Flatten(document).value;
    failed := ValidateRouteSlugs(nodes);
    if failed != None {
      return Raised(failed.value);
    }
    var importedCount := ImportRows(session, nodes);
    return Ok(importedCount);
  }

  datatype Progress = Progress(rows: Rows, pathToId: map<seq<string>, int>)

  /** The id the loop looks up for a node's parent. */
  function ParentId(node: ImportNode, root: int, pathToId: map<seq<string>, int>): Option<int> {
    if node.parentPath == None then Some(root) else Get(pathToId, node.parentPath.value)
  }

  /** The body of the import loop. */
  ghost function ImportStep(at: Progress, node: ImportNode, root: int): Progress {
    match InsertTaxonomyNode(at.rows, ParentId(node, root, at.pathToId), node.name, node.depth + 1)
    case Ok(rows) => Progress(rows, at.pathToId[node.path := at.rows.nextTaxonomyId])
    case Raised(_) => at
  }

  /** The rows and the path dictionary after the root and the first `k` nodes. */
  ghost function ImportSteps(start: Progress, nodes: seq<ImportNode>, k: nat, root: int): Progress
    requires k <= |nodes|
  {
    if k == 0 then start else ImportStep(ImportSteps(start, nodes, k - 1, root), nodes[k - 1], root)
  }

  /** The tables after the import of flattened nodes: the root first, then the loop. */
  ghost function NodesImported(rows: Rows, nodes: seq<ImportNode>): Rows {
    match InsertTaxonomyNode(rows, None, ROOT_NODE_NAME, 0)
    case Ok(rooted) => ImportSteps(Progress(rooted, map[]), nodes, |nodes|, rows.nextTaxonomyId).rows
    case Raised(_) => rows
  }

  /** An empty taxonomy, and a document that flattens and validates. */
  ghost predicate Importable(rows: Rows, document: Yaml) {
    rows.taxonomy == map[] && Flatten(document).Ok? && SlugsValid(Flatten(document).value)
  }

  /** The tables after `import_yaml_text`. */
  ghost function DocumentImported(rows: Rows, document: Yaml): Rows {
    if Importable(rows, document) then NodesImported(rows, Flatten(document).value) else rows
  }

  /** An import adds a valid tree that spells the document, numbers its rows in turn, and touches no other table. */
  lemma DocumentSpells(rows: Rows, document: Yaml)
    requires Importable(rows, document)
    ensures var nodes, root, after := Flatten(document).value, rows.nextTaxonomyId, DocumentImported(rows, document);
            && Spells(after.taxonomy, root, nodes)
            && after.nextTaxonomyId == root + 1 + |nodes|
            && (forall n :: n in after.taxonomy <==> root <= n < after.nextTaxonomyId)
            && OnlyTaxonomyChanged(rows, after)
  {
    var nodes, root := Flatten(document).value, rows.nextTaxonomyId;
    FlattenNests(document);
    FirstRow(nodes, rows);
    var start := Progress(InsertTaxonomyNode(rows, None, ROOT_NODE_NAME, 0).value, map[]);
    StepsImport(nodes, |nodes|, root, start);
    ImportSpells(nodes, root, DocumentImported(rows, document).taxonomy);
  }

  ghost predicate OnlyTaxonomyChanged(before: Rows, after: Rows) {
    after == before.(taxonomy := after.taxonomy, nextTaxonomyId := after.nextTaxonomyId)
  }

  ghost predicate OnTrack(nodes: seq<ImportNode>, k: nat, root: int, at: Progress)
    requires k <= |nodes|
  {
    && Imported(nodes, k, root, at.rows.taxonomy) && at.pathToId == PathIds(nodes, k, root)
    && at.rows.nextTaxonomyId == root + 1 + k
  }

  /** No step of a validated import raises, and each leaves exactly its row behind. */
  lemma StepImports(nodes: seq<ImportNode>, k: nat, root: int, at: Progress)
    requires Nested(nodes, None) && SlugsValid(nodes) && k < |nodes| && OnTrack(nodes, k, root, at)
    ensures var parent := ParentId(nodes[k], root, at.pathToId);
            parent.Some? && InsertTaxonomyNode(at.rows, parent, nodes[k].name, nodes[k].depth + 1).Ok?
    ensures OnTrack(nodes, k + 1, root, ImportStep(at, nodes[k], root))
    ensures OnlyTaxonomyChanged(at.rows, ImportStep(at, nodes[k], root).rows)
  {
    var parent := ParentKnown(nodes, k, root);
    NextRow(nodes, k, root, at.rows, parent);
  }

  lemma {:induction false} StepsImport(nodes: seq<ImportNode>, k: nat, root: int, start: Progress)
    requires Nested(nodes, None) && SlugsValid(nodes) && k <= |nodes| && OnTrack(nodes, 0, root, start)
    ensures OnTrack(nodes, k, root, ImportSteps(start, nodes, k, root))
    ensures OnlyTaxonomyChanged(start.rows, ImportSteps(start, nodes, k, root).rows)
  {
    if k > 0 {
      StepsImport(nodes, k - 1, root, start);
      StepImports(nodes, k - 1, root, ImportSteps(start, nodes, k - 1, root));
    }
  }

  lemma NextImports(nodes: seq<ImportNode>, k: nat, next: nat, root: int, start: Progress)
    requires Nested(nodes, None) && SlugsValid(nodes) && next == k + 1 <= |nodes| && OnTrack(nodes, 0, root, start)
    ensures var at := ImportSteps(start, nodes, k, root);
            var parent := ParentId(nodes[k], root, at.pathToId);
            && parent.Some?
            && InsertTaxonomyNode(at.rows, parent, nodes[k].name, nodes[k].depth + 1) == Ok(ImportSteps(start, nodes, next, root).rows)
            && ImportSteps(start, nodes, next, root).pathToId == at.pathToId[nodes[k].path := at.rows.nextTaxonomyId]
  {
    StepsImport(nodes, k, root, start);
    StepImports(nodes, k, root, ImportSteps(start, nodes, k, root));
  }

  /** The import loop. No insertion raises, so the rollback around it has nothing to undo. */
  method InsertNodes(session: Session, nodes: seq<ImportNode>, root: int, ghost start: Progress) returns (importedCount: nat)
    requires Nested(nodes, None) && SlugsValid(nodes) && OnTrack(nodes, 0, root, start)
    requires start == Progress(session.Snapshot(), map[])
    modifies session
    ensures importedCount == 1 + |nodes|
    ensures session.Snapshot() == ImportSteps(start, nodes, |nodes|, root).rows
  {
    importedCount := 1;
    var pathToId: map<seq<string>, int> := map[];
    for k := 0 to |nodes|
      invariant importedCount == 1 + k
      invariant Progress(session.Snapshot(), pathToId) == ImportSteps(start, nodes, k, root)
    {
      var node := nodes[k];
      NextImports(nodes, k, k + 1, root, start);
      var parentId := if node.parentPath == None then root else pathToId[node.parentPath.value];
      assert ParentId(node, root, pathToId) == Some(parentId);
      var created := session.CreateTaxonomyNode(Some(parentId), node.name, node.depth + 1);
      importedCount := importedCount + 1;
      pathToId := pathToId[node.path := created.value];
    }
  }

  method ImportRows(session: Session, nodes: seq<ImportNode>) returns (importedCount: nat)
    requires session.taxonomy == map[] && Nested(nodes, None) && SlugsValid(nodes)
    modifies session
    ensures importedCount == |nodes| + 1 && Spells(session.taxonomy, old(session.nextTaxonomyId), nodes)
    ensures session.Snapshot() == NodesImported(old(session.Snapshot()), nodes)
  {
    FirstRow(nodes, session.Snapshot());
    var created := session.CreateTaxonomyNode(None, ROOT_NODE_NAME, 0);
    var root := created.value;
    ghost var start := Progress(session.Snapshot(), map[]);
    importedCount := InsertNodes(session, nodes, root, start);
    StepsImport(nodes, |nodes|, root, start);
    ImportSpells(nodes, root, session.taxonomy);
  }
}
