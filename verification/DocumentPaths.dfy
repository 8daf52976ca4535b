/**
 What a taxonomy document names, read off the document itself: a path for every address at which a
 name stands. An import stores exactly these paths, one row for each address, in document order.
 */
module DocumentPaths {
  import opened Common
  import opened RoutePath
  import opened Store
  import opened TaxonomyImport
  import opened TaxonomyTree

  /** An address says which entry or item to go into, level by level. */
  type Address = seq<nat>

  function Trimmed(text: string): string {
    Strip(text, IsSpace)
  }

  function Below(name: string, path: Option<seq<string>>): Option<seq<string>> {
    if path.Some? then Some([name] + path.value) else None
  }

  /**
   The names from the top down to the name at an address: the keys of mappings, the texts in lists,
   and the text that stands alone below a key. A mapping in a list adds no level of its own.
   */
  function PathAt(spec: Yaml, at: Address): Option<seq<string>>
    decreases spec, 0
  {
    if at == [] then None
    else
      match spec
      case YText(text) => if at == [0] then Some([Trimmed(text)]) else None
      case YMap(entries) =>
        if at[0] >= |entries| || entries[at[0]].key == None then None
        else EntryPathAt(entries[at[0]], at[1..])
      case YList(items) => if at[0] >= |items| then None else ItemPathAt(items[at[0]], at[1..])
      case _ => None
  }

  function EntryPathAt(entry: Entry, rest: Address): Option<seq<string>>
    requires entry.key.Some?
    decreases entry, 0
  {
    var name := Trimmed(entry.key.value);
    if rest == [] then Some([name]) else Below(name, PathAt(entry.value, rest))
  }

  function ItemPathAt(item: Yaml, rest: Address): Option<seq<string>>
    decreases item, 1
  {
    match item
    case YText(text) => if rest == [] then Some([Trimmed(text)]) else None
    case YMap(_) => PathAt(item, rest)
    case _ => None
  }

  /** Document order: what contains a name comes before it, and otherwise the first difference decides. */
  predicate Precedes(a: Address, b: Address) {
    b != [] && (a == [] || a[0] < b[0] || (a[0] == b[0] && Precedes(a[1..], b[1..])))
  }

  /** The parts of a document no import accepts: keys that are no text or blank, blank texts, and anything else but nothing, mappings and lists of these. */
  predicate Malformed(spec: Yaml)
    decreases spec, 0
  {
    match spec
    case YNull => false
    case YText(text) => Trimmed(text) == ""
    case YMap(entries) => exists i :: 0 <= i < |entries| && BadEntry(entries[i])
    case YList(items) => exists i :: 0 <= i < |items| && BadItem(items[i])
    case YOther => true
  }

  predicate BadEntry(entry: Entry)
    decreases entry, 0
  {
    entry.key == None || Trimmed(entry.key.value) == "" || Malformed(entry.value)
  }

  predicate BadItem(item: Yaml)
    decreases item, 1
  {
    !(item.YText? || item.YMap?) || Malformed(item)
  }

  // ----- flattening lists the addresses -----

  ghost predicate InOrder(ats: seq<Address>) {
    forall j, k :: 0 <= j < k < |ats| ==> Precedes(ats[j], ats[k])
  }

  function Prefix(parent: Option<seq<string>>): seq<string> {
    if parent.Some? then parent.value else []
  }

  /** The nodes are the names at these addresses, below a prefix. */
  ghost predicate NamesAt(spec: Yaml, nodes: seq<ImportNode>, prefix: seq<string>, ats: seq<Address>) {
    && |ats| == |nodes|
    && forall k :: 0 <= k < |nodes| ==> ats[k] != [] && PathAt(spec, ats[k]).Some? && nodes[k].path == prefix + PathAt(spec, ats[k]).value
  }

  /** They are all names from the given part on, in order. */
  ghost predicate LocatedFrom(spec: Yaml, from: nat, nodes: seq<ImportNode>, prefix: seq<string>, ats: seq<Address>) {
    && NamesAt(spec, nodes, prefix, ats) && InOrder(ats)
    && (forall k :: 0 <= k < |ats| ==> ats[k] != [] && ats[k][0] >= from)
    && forall at :: at != [] && at[0] >= from && PathAt(spec, at).Some? ==> at in ats
  }

  function Under(i: nat, ats: seq<Address>): seq<Address> {
    seq(|ats|, k requires 0 <= k < |ats| => [i] + ats[k])
  }

  lemma UnderOrder(i: nat, ats: seq<Address>)
    requires InOrder(ats)
    ensures InOrder(Under(i, ats))
  {
    forall j, k | 0 <= j < k < |ats| ensures Precedes(Under(i, ats)[j], Under(i, ats)[k]) {
      assert ([i] + ats[j])[1..] == ats[j] && ([i] + ats[k])[1..] == ats[k];
      assert Precedes(ats[j], ats[k]);
    }
  }

  lemma OwnFirst(i: nat, ats: seq<Address>)
    requires InOrder(ats) && forall k :: 0 <= k < |ats| ==> ats[k] != []
    ensures InOrder([[i]] + Under(i, ats))
  {
    UnderOrder(i, ats);
    var all := [[i]] + Under(i, ats);
    forall j, k | 0 <= j < k < |all| ensures Precedes(all[j], all[k]) {
      if j == 0 {
        assert all[k] == [i] + ats[k - 1] && all[k][1..] == ats[k - 1] && all[0][1..] == [];
      } else {
        assert all[j] == Under(i, ats)[j - 1] && all[k] == Under(i, ats)[k - 1];
      }
    }
  }

  lemma ThenLater(i: nat, next: nat, a: seq<Address>, b: seq<Address>)
    requires next == i + 1 && InOrder(a) && InOrder(b)
    requires forall k :: 0 <= k < |a| ==> a[k] != [] && a[k][0] == i
    requires forall k :: 0 <= k < |b| ==> b[k] != [] && b[k][0] >= next
    ensures InOrder(a + b)
  {
  }

  /** All names below one part, and then all names from the next part on. */
  lemma PartThenRest(spec: Yaml, i: nat, next: nat, prefix: seq<string>, first: seq<ImportNode>, a: seq<Address>,
                     rest: seq<ImportNode>, b: seq<Address>)
    requires next == i + 1 && NamesAt(spec, first, prefix, a) && InOrder(a)
    requires forall k :: 0 <= k < |a| ==> a[k] != [] && a[k][0] == i
    requires forall at :: at != [] && at[0] == i && PathAt(spec, at).Some? ==> at in a
    requires LocatedFrom(spec, next, rest, prefix, b)
    ensures LocatedFrom(spec, i, first + rest, prefix, a + b)
  {
    ThenLater(i, next, a, b);
    NamesThenNames(spec, first, a, rest, b, prefix);
    var all := a + b;
    forall at | at != [] && at[0] >= i && PathAt(spec, at).Some? ensures at in all {
      assert at[0] == i ==> at in a;
      assert at[0] >= next ==> at in b;
    }
    forall k | 0 <= k < |all| ensures all[k] != [] && all[k][0] >= i {
      assert all[k] == if k < |a| then a[k] else b[k - |a|];
    }
  }

  lemma NamesThenNames(spec: Yaml, first: seq<ImportNode>, a: seq<Address>, rest: seq<ImportNode>, b: seq<Address>, prefix: seq<string>)
    requires NamesAt(spec, first, prefix, a) && NamesAt(spec, rest, prefix, b)
    ensures NamesAt(spec, first + rest, prefix, a + b)
  {
  }

  // One level of an address.

  lemma EntryPath(entries: seq<Entry>, i: nat, rest: Address)
    requires i < |entries| && entries[i].key.Some?
    ensures PathAt(YMap(entries), [i] + rest) == EntryPathAt(entries[i], rest)
  {
    assert ([i] + rest)[1..] == rest;
  }

  lemma ItemPath(items: seq<Yaml>, i: nat, rest: Address)
    requires i < |items|
    ensures PathAt(YList(items), [i] + rest) == ItemPathAt(items[i], rest)
  {
    assert ([i] + rest)[1..] == rest;
  }

  lemma FirstStep(at: Address)
    requires at != []
    ensures at == [at[0]] + at[1..]
  {
  }

  /** The names of an entry: its key, and then those below it. */
  lemma EntryLocated(entries: seq<Entry>, i: nat, prefix: seq<string>, own: ImportNode, kids: seq<ImportNode>, ats: seq<Address>)
    requires i < |entries| && entries[i].key.Some?
    requires var name := Trimmed(entries[i].key.value);
             own.path == prefix + [name] && LocatedFrom(entries[i].value, 0, kids, prefix + [name], ats)
    ensures var all := [[i]] + Under(i, ats);
            && NamesAt(YMap(entries), [own] + kids, prefix, all) && InOrder(all)
            && (forall k :: 0 <= k < |all| ==> all[k] != [] && all[k][0] == i)
            && forall at :: at != [] && at[0] == i && PathAt(YMap(entries), at).Some? ==> at in all
  {
    var spec, name, all := YMap(entries), Trimmed(entries[i].key.value), [[i]] + Under(i, ats);
    var nodes := [own] + kids;
    OwnFirst(i, ats);
    forall k | 0 <= k < |nodes|
      ensures PathAt(spec, all[k]).Some? && nodes[k].path == prefix + PathAt(spec, all[k]).value
    {
      if k == 0 {
        EntryPath(entries, i, []);
        assert [i] + [] == [i];
      } else {
        var at := ats[k - 1];
        EntryPath(entries, i, at);
        assert all[k] == [i] + at;
        assert PathAt(spec, all[k]) == Below(name, PathAt(entries[i].value, at));
        assert prefix + [name] + PathAt(entries[i].value, at).value == prefix + ([name] + PathAt(entries[i].value, at).value);
      }
    }
    forall at | at != [] && at[0] == i && PathAt(spec, at).Some? ensures at in all {
      FirstStep(at);
      EntryPath(entries, i, at[1..]);
      if at[1..] == [] {
        assert all[0] == at;
      } else {
        assert at[1..] in ats;
        var k :| 0 <= k < |ats| && ats[k] == at[1..];
        assert all[k + 1] == at;
      }
    }
  }

  lemma ItemTextLocated(items: seq<Yaml>, i: nat, prefix: seq<string>, own: ImportNode)
    requires i < |items| && items[i].YText? && own.path == prefix + [Trimmed(items[i].text)]
    ensures NamesAt(YList(items), [own], prefix, [[i]]) && InOrder([[i]])
    ensures forall at :: at != [] && at[0] == i && PathAt(YList(items), at).Some? ==> at in [[i]]
  {
    ItemPath(items, i, []);
    assert [i] + [] == [i];
    forall at | at != [] && at[0] == i && PathAt(YList(items), at).Some? ensures at == [i] {
      FirstStep(at);
      ItemPath(items, i, at[1..]);
    }
  }

  lemma ItemMapLocated(items: seq<Yaml>, i: nat, prefix: seq<string>, nodes: seq<ImportNode>, ats: seq<Address>)
    requires i < |items| && items[i].YMap? && LocatedFrom(items[i], 0, nodes, prefix, ats)
    ensures NamesAt(YList(items), nodes, prefix, Under(i, ats)) && InOrder(Under(i, ats))
    ensures forall k :: 0 <= k < |ats| ==> Under(i, ats)[k][0] == i
    ensures forall at :: at != [] && at[0] == i && PathAt(YList(items), at).Some? ==> at in Under(i, ats)
  {
    var spec := YList(items);
    UnderOrder(i, ats);
    forall k | 0 <= k < |nodes|
      ensures PathAt(spec, Under(i, ats)[k]).Some? && nodes[k].path == prefix + PathAt(spec, Under(i, ats)[k]).value
    {
      ItemPath(items, i, ats[k]);
    }
    forall at | at != [] && at[0] == i && PathAt(spec, at).Some? ensures at in Under(i, ats) {
      FirstStep(at);
      ItemPath(items, i, at[1..]);
      assert PathAt(items[i], at[1..]).Some?;
      var k :| 0 <= k < |ats| && ats[k] == at[1..];
      assert Under(i, ats)[k] == at;
    }
  }

  lemma {:induction false} ChildrenLocated(spec: Yaml, parent: seq<string>, depth: nat) returns (ats: seq<Address>)
    requires FlattenChildren(spec, parent, depth).Ok?
    ensures LocatedFrom(spec, 0, FlattenChildren(spec, parent, depth).value, parent, ats)
    decreases spec, 1, 0
  {
    match spec
    case YNull => ats := [];
    case YText(_) => ats := [[0]];
    case YMap(entries) =>
      assert entries[0..] == entries;
      ats := EntriesLocated(spec, 0, Some(parent), depth);
    case YList(items) =>
      assert items[0..] == items;
      ats := ItemsLocated(spec, 0, parent, depth);
  }

  lemma {:induction false} EntriesLocated(spec: Yaml, i: nat, parent: Option<seq<string>>, depth: nat) returns (ats: seq<Address>)
    requires spec.YMap? && i <= |spec.entries| && KeysAreText(spec.entries[i..])
    requires FlattenEntries(spec.entries[i..], parent, depth).Ok?
    ensures LocatedFrom(spec, i, FlattenEntries(spec.entries[i..], parent, depth).value, Prefix(parent), ats)
    decreases spec, 0, |spec.entries| - i
  {
    if i == |spec.entries| {
      ats := [];
    } else {
      var entry, next := spec.entries[i], i + 1;
      assert spec.entries[i..][0] == entry && spec.entries[i..][1..] == spec.entries[next..];
      var path := PathUnder(parent, Trimmed(entry.key.value));
      var own := ImportNode(path, parent, Trimmed(entry.key.value), depth);
      var kids := FlattenChildren(entry.value, path, depth + 1).value;
      var below := ChildrenLocated(entry.value, path, depth + 1);
      var rest := EntriesLocated(spec, next, parent, depth);
      EntryLocated(spec.entries, i, Prefix(parent), own, kids, below);
      PartThenRest(spec, i, next, Prefix(parent), [own] + kids, [[i]] + Under(i, below),
                   FlattenEntries(spec.entries[next..], parent, depth).value, rest);
      ats := [[i]] + Under(i, below) + rest;
    }
  }

  lemma {:induction false} ItemsLocated(spec: Yaml, i: nat, parent: seq<string>, depth: nat) returns (ats: seq<Address>)
    requires spec.YList? && i <= |spec.items| && FlattenItems(spec.items[i..], parent, depth).Ok?
    ensures LocatedFrom(spec, i, FlattenItems(spec.items[i..], parent, depth).value, parent, ats)
    decreases spec, 0, |spec.items| - i
  {
    if i == |spec.items| {
      ats := [];
    } else {
      var item, next := spec.items[i], i + 1;
      assert spec.items[i..][0] == item && spec.items[i..][1..] == spec.items[next..];
      var first, here := FlattenItem(item, parent, depth).value, [];
      if item.YText? {
        here := [[i]];
        ItemTextLocated(spec.items, i, parent, first[0]);
      } else {
        assert FlattenItem(item, parent, depth) == FlattenMapping(item.entries, Some(parent), depth);
        assert item.entries[0..] == item.entries;
        var below := EntriesLocated(item, 0, Some(parent), depth);
        here := Under(i, below);
        ItemMapLocated(spec.items, i, parent, first, below);
      }
      var rest := ItemsLocated(spec, next, parent, depth);
      PartThenRest(spec, i, next, parent, first, here, FlattenItems(spec.items[next..], parent, depth).value, rest);
      ats := here + rest;
    }
  }

  // ----- which documents flatten -----

  lemma {:induction false} ChildrenFlatten(spec: Yaml, parent: seq<string>, depth: nat)
    ensures FlattenChildren(spec, parent, depth).Ok? <==> !Malformed(spec)
    decreases spec, 1, 0
  {
    match spec
    case YMap(_) => MappingFlattens(spec, Some(parent), depth);
    case YList(items) =>
      ItemsFlatten(spec, 0, parent, depth);
      assert items[0..] == items;
    case _ =>
  }

  lemma {:induction false} MappingFlattens(spec: Yaml, parent: Option<seq<string>>, depth: nat)
    requires spec.YMap?
    ensures FlattenMapping(spec.entries, parent, depth).Ok? <==> !Malformed(spec)
    decreases spec, 0, |spec.entries| + 1
  {
    assert spec.entries[0..] == spec.entries;
    if KeysAreText(spec.entries) {
      EntriesFlatten(spec, 0, parent, depth);
    } else {
      var i :| 0 <= i < |spec.entries| && spec.entries[i].key == None;
      assert BadEntry(spec.entries[i]);
    }
  }

  lemma {:induction false} EntriesFlatten(spec: Yaml, i: nat, parent: Option<seq<string>>, depth: nat)
    requires spec.YMap? && i <= |spec.entries| && KeysAreText(spec.entries[i..])
    ensures FlattenEntries(spec.entries[i..], parent, depth).Ok? <==> forall k :: i <= k < |spec.entries| ==> !BadEntry(spec.entries[k])
    decreases spec, 0, |spec.entries| - i
  {
    if i < |spec.entries| {
      var entry, next := spec.entries[i], i + 1;
      assert spec.entries[i..][0] == entry && spec.entries[i..][1..] == spec.entries[next..];
      ChildrenFlatten(entry.value, PathUnder(parent, Trimmed(entry.key.value)), depth + 1);
      EntriesFlatten(spec, next, parent, depth);
    }
  }

  lemma {:induction false} ItemsFlatten(spec: Yaml, i: nat, parent: seq<string>, depth: nat)
    requires spec.YList? && i <= |spec.items|
    ensures FlattenItems(spec.items[i..], parent, depth).Ok? <==> forall k :: i <= k < |spec.items| ==> !BadItem(spec.items[k])
    decreases spec, 0, |spec.items| - i
  {
    if i < |spec.items| {
      var item, next := spec.items[i], i + 1;
      assert spec.items[i..][0] == item && spec.items[i..][1..] == spec.items[next..];
      if item.YMap? {
        MappingFlattens(item, Some(parent), depth);
      }
      ItemsFlatten(spec, next, parent, depth);
    }
  }

  // ----- which documents are accepted, and what they become -----

  predicate UsableName(name: string) {
    name != UNCLASSIFIED_NODE_NAME && Slugify(name).Some?
  }

  /** Two paths with one parent path and one slug. */
  predicate SameSlot(p: seq<string>, q: seq<string>) {
    p != [] && q != [] && p[..|p| - 1] == q[..|q| - 1] && Slugify(p[|p| - 1]) == Slugify(q[|q| - 1])
  }

  ghost predicate NamesFit(document: Yaml) {
    forall at {:trigger PathAt(document, at)} :: PathAt(document, at).Some? ==>
      PathAt(document, at).value != [] && UsableName(PathAt(document, at).value[|PathAt(document, at).value| - 1])
  }

  ghost predicate SlotsDiffer(document: Yaml) {
    forall a, b {:trigger PathAt(document, a), PathAt(document, b)} ::
      PathAt(document, a).Some? && PathAt(document, b).Some? && a != b ==> !SameSlot(PathAt(document, a).value, PathAt(document, b).value)
  }

  lemma {:induction false} NotBeforeItself(at: Address)
    ensures !Precedes(at, at)
  {
    if at != [] {
      NotBeforeItself(at[1..]);
    }
  }

  /** Where the flattened nodes stand in the document. */
  lemma DocumentLocated(document: Yaml) returns (ats: seq<Address>)
    requires Flatten(document).Ok?
    ensures LocatedFrom(document, 0, Flatten(document).value, [], ats)
    ensures forall j, k :: 0 <= j < k < |ats| ==> ats[j] != ats[k]
  {
    assert document.entries[0..] == document.entries;
    ats := EntriesLocated(document, 0, None, 0);
    forall j, k | 0 <= j < k < |ats| ensures ats[j] != ats[k] {
      NotBeforeItself(ats[j]);
      assert Precedes(ats[j], ats[k]);
    }
  }

  lemma SlotIsSegment(nodes: seq<ImportNode>, j: nat, k: nat)
    requires Nested(nodes, None) && j < |nodes| && k < |nodes|
    ensures nodes[j].path != [] && nodes[j].path[|nodes[j].path| - 1] == nodes[j].name
    ensures SameSegment(nodes[j], nodes[k]) <==> SameSlot(nodes[j].path, nodes[k].path)
  {
    NodeParts(nodes, j);
    NodeParts(nodes, k);
    assert nodes[j].parentPath == nodes[k].parentPath <==> Prefix(nodes[j].parentPath) == Prefix(nodes[k].parentPath);
  }

  lemma NodeParts(nodes: seq<ImportNode>, k: nat)
    requires Nested(nodes, None) && k < |nodes|
    ensures var p := nodes[k].path;
            && p != [] && p[|p| - 1] == nodes[k].name && p[..|p| - 1] == Prefix(nodes[k].parentPath)
            && (nodes[k].parentPath.Some? <==> Prefix(nodes[k].parentPath) != [])
  {
    ParentsAreNamed(nodes, k);
    assert PathMatches(nodes[k]);
    var p := nodes[k].path;
    assert p == Prefix(nodes[k].parentPath) + [nodes[k].name];
  }

  lemma ParentsAreNamed(nodes: seq<ImportNode>, k: nat)
    requires Nested(nodes, None) && k < |nodes|
    ensures nodes[k].parentPath.Some? ==> nodes[k].parentPath.value != []
  {
    assert PathMatches(nodes[k]);
    if nodes[k].parentPath.Some? {
      var j :| 0 <= j < k && nodes[j].path == nodes[k].parentPath.value;
      assert PathMatches(nodes[j]);
    }
  }

  lemma SlugsFitNodes(document: Yaml, nodes: seq<ImportNode>, ats: seq<Address>)
    requires LocatedFrom(document, 0, nodes, [], ats) && Nested(nodes, None)
    requires forall j, k :: 0 <= j < k < |ats| ==> ats[j] != ats[k]
    requires NamesFit(document) && SlotsDiffer(document)
    ensures SlugsValid(nodes)
  {
    forall k | 0 <= k < |nodes| ensures nodes[k].name != UNCLASSIFIED_NODE_NAME && Slugify(nodes[k].name).Some? {
      SlotIsSegment(nodes, k, k);
      assert PathAt(document, ats[k]).Some? && nodes[k].path == [] + PathAt(document, ats[k]).value == PathAt(document, ats[k]).value;
    }
    forall j, k | 0 <= j < |nodes| && 0 <= k < |nodes| && SameSegment(nodes[j], nodes[k]) ensures j == k {
      SlotIsSegment(nodes, j, k);
      assert nodes[j].path == PathAt(document, ats[j]).value && nodes[k].path == PathAt(document, ats[k]).value;
    }
  }

  lemma NodesFitSlugs(document: Yaml, nodes: seq<ImportNode>, ats: seq<Address>)
    requires LocatedFrom(document, 0, nodes, [], ats) && Nested(nodes, None) && SlugsValid(nodes)
    ensures NamesFit(document) && SlotsDiffer(document)
  {
    forall at | PathAt(document, at).Some?
      ensures var p := PathAt(document, at).value; p != [] && UsableName(p[|p| - 1])
    {
      var k := PlaceOf(document, nodes, ats, at);
      SlotIsSegment(nodes, k, k);
      assert Slugify(nodes[k].name).Some?;
    }
    forall a, b | PathAt(document, a).Some? && PathAt(document, b).Some? && a != b
      ensures !SameSlot(PathAt(document, a).value, PathAt(document, b).value)
    {
      var j := PlaceOf(document, nodes, ats, a);
      var k := PlaceOf(document, nodes, ats, b);
      SlotIsSegment(nodes, j, k);
      assert !SameSegment(nodes[j], nodes[k]);
    }
  }

  lemma PlaceOf(document: Yaml, nodes: seq<ImportNode>, ats: seq<Address>, at: Address) returns (k: nat)
    requires LocatedFrom(document, 0, nodes, [], ats) && PathAt(document, at).Some?
    ensures k < |nodes| && ats[k] == at && nodes[k].path == PathAt(document, at).value
  {
    assert at != [] && at in ats;
    k :| 0 <= k < |ats| && ats[k] == at;
    assert nodes[k].path == [] + PathAt(document, at).value;
  }

  /**
   A document is accepted exactly when the taxonomy is empty, it is a mapping without a malformed
   part, every name in it has a slug and is not the reserved one, and no two names share their
   parent's path and their slug.
   */
  lemma AcceptedIff(rows: Rows, document: Yaml)
    ensures Importable(rows, document) <==>
            rows.taxonomy == map[] && document.YMap? && !Malformed(document) && NamesFit(document) && SlotsDiffer(document)
  {
    if document.YMap? {
      MappingFlattens(document, None, 0);
    }
    if Flatten(document).Ok? {
      var nodes := Flatten(document).value;
      var ats := DocumentLocated(document);
      FlattenNests(document);
      if NamesFit(document) && SlotsDiffer(document) {
        SlugsFitNodes(document, nodes, ats);
      }
      if SlugsValid(nodes) {
        NodesFitSlugs(document, nodes, ats);
      }
    }
  }

  /** The names from the root down to the `k`-th row below it are the path at the `k`-th address. */
  ghost predicate RowSpells(t: Table, root: int, document: Yaml, ats: seq<Address>, k: nat)
    requires TreeShape(t, root) && k < |ats|
  {
    root + 1 + k in t && PathAt(document, ats[k]) == Some(Names(t, root, root + 1 + k))
  }

  /**
   An accepted document's rows spell exactly the paths it names: one row below the root for each
   address at which a name stands, numbered in document order.
   */
  lemma RowsSpellTheDocument(rows: Rows, document: Yaml) returns (ats: seq<Address>)
    requires Importable(rows, document)
    ensures InOrder(ats) && forall at :: at in ats <==> PathAt(document, at).Some?
    ensures var t, root := DocumentImported(rows, document).taxonomy, rows.nextTaxonomyId;
            && ValidTree(t, root) && |t| == |ats| + 1
            && forall k :: 0 <= k < |ats| ==> RowSpells(t, root, document, ats, k)
  {
    ats := DocumentLocated(document);
    DocumentSpells(rows, document);
    LocatedAll(document, Flatten(document).value, ats);
    SpelledAt(document, Flatten(document).value, ats, DocumentImported(rows, document).taxonomy, rows.nextTaxonomyId);
  }

  lemma LocatedAll(document: Yaml, nodes: seq<ImportNode>, ats: seq<Address>)
    requires LocatedFrom(document, 0, nodes, [], ats)
    ensures forall at :: at in ats <==> PathAt(document, at).Some?
  {
    forall at ensures at in ats <==> PathAt(document, at).Some? {
      if at in ats {
        var k :| 0 <= k < |ats| && ats[k] == at;
        assert PathAt(document, ats[k]).Some?;
      }
    }
  }

  lemma SpelledAt(document: Yaml, nodes: seq<ImportNode>, ats: seq<Address>, t: Table, root: int)
    requires NamesAt(document, nodes, [], ats) && Spells(t, root, nodes)
    ensures forall k :: 0 <= k < |ats| ==> RowSpells(t, root, document, ats, k)
  {
    forall k | 0 <= k < |ats| ensures RowSpells(t, root, document, ats, k) {
      assert nodes[k].path == [] + PathAt(document, ats[k]).value == PathAt(document, ats[k]).value;
    }
  }
}
