/**
 Serving card-scope layouts while everything else keeps moving: tables change, workers build from
 what they read earlier, the cache loses entries or fails, commits fail. Each step below is one
 database or cache access, so that any interleaving of calls is a list of steps.
 */
module LayoutServing {
  import opened Common
  import opened Store
  import opened ForceSimulation
  import opened CardScopeLayout
  import opened CardScopeGraph
  import ScopeProjection
  import TaxonomyTree

  /** A stored or cached layout with the fingerprint of the graph it was built from. */
  datatype ReadModel = ReadModel(fingerprint: Payload, layout: Layout)

  /** The fixed layout parameters. */
  datatype Setup = Setup(p: Params, num: Numerics)

  function ModelOf(g: Graph, setup: Setup): ReadModel {
    ReadModel(Fingerprint(g), BuildFromGraph(g, setup.p, setup.num))
  }

  datatype LayoutStatus = Ready | Refreshing

  /** A load in progress; `readAt` is the moment at which it read the tables. */
  datatype Reader =
    | InCache(scope: int, readAt: nat, fingerprint: Payload)
    | InStore(scope: int, readAt: nat, fingerprint: Payload)
    | Warming(scope: int, readAt: nat, fingerprint: Payload, model: ReadModel)
    | Asking(scope: int, readAt: nat, fingerprint: Payload, stale: Option<ReadModel>)
    | Served(scope: int, readAt: nat, layout: Layout, status: LayoutStatus)
    | NotReady(scope: int, readAt: nat)

  /** A build in progress, before and after its attempt to fill the cache. */
  datatype Builder =
    | Built(scope: int, model: ReadModel)
    | Cached(scope: int, model: ReadModel)

  /** `past` holds every state the tables have been in; the last one is current. */
  datatype System = System(
    past: seq<Rows>, models: map<int, ReadModel>, cache: map<int, ReadModel>,
    builders: map<int, Builder>, readers: map<int, Reader>)

  datatype Event =
    | ChangeTables(call: ScopeProjection.Call)
    | LoseCache(scope: int)
    | StartBuild(id: int, scope: int, graph: Graph)
    | FillCache(id: int, works: bool)
    | CommitBuild(id: int, works: bool)
    | Crash(id: int)
    | StartLoad(id: int, scope: int, graph: Graph)
    | ReadCache(id: int, works: bool)
    | ReadStore(id: int)
    | WarmCache(id: int, works: bool)
    | AskForBuild(id: int)

  function Now(s: System): Rows
    requires s.past != []
  {
    s.past[|s.past| - 1]
  }

  /** After the fingerprint is known: serve, or ask for a build and serve what there is. */
  function Match(reader: Reader, model: ReadModel): Reader
    requires reader.InCache?
  {
    if model.fingerprint == reader.fingerprint then Served(reader.scope, reader.readAt, model.layout, Ready)
    else Asking(reader.scope, reader.readAt, reader.fingerprint, Some(model))
  }

  /** Where one access takes a load in progress. */
  function Advance(r: Reader, e: Event, s: System): Reader {
    match e
    case ReadCache(_, works) =>
      if !r.InCache? then r
      else if works && r.scope in s.cache then Match(r, s.cache[r.scope])
      else InStore(r.scope, r.readAt, r.fingerprint)
    case ReadStore(_) =>
      if !r.InStore? then r
      else if r.scope !in s.models then Asking(r.scope, r.readAt, r.fingerprint, None)
      else if s.models[r.scope].fingerprint == r.fingerprint then Warming(r.scope, r.readAt, r.fingerprint, s.models[r.scope])
      else Asking(r.scope, r.readAt, r.fingerprint, Some(s.models[r.scope]))
    case WarmCache(_, _) =>
      if !r.Warming? then r else Served(r.scope, r.readAt, r.model.layout, Ready)
    case AskForBuild(_) =>
      if !r.Asking? then r
      else if r.stale.Some? then Served(r.scope, r.readAt, r.stale.value.layout, Refreshing)
      else NotReady(r.scope, r.readAt)
    case _ => r
  }

  ghost function LoadStep(s: System, e: Event): System
    requires s.past != []
  {
    match e
    case StartLoad(id, scope, graph) =>
      if !IsGraphOf(graph, Now(s), scope) then s
      else s.(readers := s.readers[id := InCache(scope, |s.past| - 1, Fingerprint(graph))])
    case ReadCache(id, _) => Moved(s, id, e)
    case ReadStore(id) => Moved(s, id, e)
    case WarmCache(id, works) =>
      var warmed :=
        if works && id in s.readers && s.readers[id].Warming? then s.cache[s.readers[id].scope := s.readers[id].model]
        else s.cache;
      Moved(s, id, e).(cache := warmed)
    case AskForBuild(id) => Moved(s, id, e)
    case _ => s
  }

  function Moved(s: System, id: int, e: Event): System {
    if id !in s.readers then s else s.(readers := s.readers[id := Advance(s.readers[id], e, s)])
  }

  ghost function BuildStep(s: System, e: Event, setup: Setup): System
    requires s.past != []
  {
    match e
    case StartBuild(id, scope, graph) =>
      if !IsGraphOf(graph, Now(s), scope) then s
      else s.(builders := s.builders[id := Built(scope, ModelOf(graph, setup))])
    case FillCache(id, works) =>
      if !(id in s.builders && s.builders[id].Built?) then s
      else
        var b := s.builders[id];
        s.(cache := if works then s.cache[b.scope := b.model] else s.cache,
           builders := s.builders[id := Cached(b.scope, b.model)])
    case CommitBuild(id, works) =>
      if !(id in s.builders && s.builders[id].Cached?) then s
      else
        var b := s.builders[id];
        s.(models := if works then s.models[b.scope := b.model] else s.models, builders := s.builders - {id})
    case Crash(id) => s.(builders := s.builders - {id})
    case LoseCache(scope) => s.(cache := s.cache - {scope})
    case _ => s
  }

  ghost function Apply(s: System, e: Event, setup: Setup): System
    requires s.past != []
    ensures Apply(s, e, setup).past != []
  {
    match e
    case ChangeTables(call) => s.(past := s.past + [ScopeProjection.Apply(Now(s), call)])
    case LoseCache(_) => BuildStep(s, e, setup)
    case StartBuild(_, _, _) => BuildStep(s, e, setup)
    case FillCache(_, _) => BuildStep(s, e, setup)
    case CommitBuild(_, _) => BuildStep(s, e, setup)
    case Crash(_) => BuildStep(s, e, setup)
    case _ => LoadStep(s, e)
  }

  ghost function Run(s: System, events: seq<Event>, setup: Setup): (after: System)
    requires s.past != []
    ensures after.past != []
  {
    if events == [] then s else Apply(Run(s, events[..|events| - 1], setup), events[|events| - 1], setup)
  }

  const Start := System([EmptyRows], map[], map[], map[], map[])

  // ----- every read model, wherever it is, was right at some moment -----

  /** The build of a scope as the tables were at moment `k`. */
  ghost predicate BuiltAt(m: ReadModel, past: seq<Rows>, k: nat, scope: int, setup: Setup)
    requires k < |past|
  {
    exists g :: IsGraphOf(g, past[k], scope) && m == ModelOf(g, setup)
  }

  ghost predicate Honest(m: ReadModel, past: seq<Rows>, scope: int, setup: Setup) {
    exists k :: 0 <= k < |past| && BuiltAt(m, past, k, scope, setup)
  }

  ghost predicate FingerprintAt(f: Payload, past: seq<Rows>, k: nat, scope: int) {
    k < |past| && exists g :: IsGraphOf(g, past[k], scope) && f == Fingerprint(g)
  }

  /** A ready layout is the build of the scope as the tables were when this load read them. */
  ghost predicate HonestReader(r: Reader, past: seq<Rows>, setup: Setup) {
    match r
    case InCache(scope, k, f) => FingerprintAt(f, past, k, scope)
    case InStore(scope, k, f) => FingerprintAt(f, past, k, scope)
    case Warming(scope, k, f, model) => FingerprintAt(f, past, k, scope) && model.fingerprint == f && Honest(model, past, scope, setup)
    case Asking(scope, k, f, stale) => FingerprintAt(f, past, k, scope) && (stale.Some? ==> Honest(stale.value, past, scope, setup))
    case Served(scope, k, layout, status) =>
      if status == Ready then RightAt(layout, past, k, scope, setup)
      else exists m: ReadModel :: m.layout == layout && Honest(m, past, scope, setup)
    case NotReady(_, _) => true
  }

  ghost predicate RightAt(layout: Layout, past: seq<Rows>, k: nat, scope: int, setup: Setup) {
    && k < |past|
    && (exists g :: IsGraphOf(g, past[k], scope))
    && forall g :: IsGraphOf(g, past[k], scope) ==> layout == BuildFromGraph(g, setup.p, setup.num)
  }

  ghost predicate AllHonest(s: System, setup: Setup) {
    && s.past != []
    && (forall scope {:trigger s.models[scope]} :: scope in s.models ==> Honest(s.models[scope], s.past, scope, setup))
    && (forall scope {:trigger s.cache[scope]} :: scope in s.cache ==> Honest(s.cache[scope], s.past, scope, setup))
    && (forall id {:trigger s.builders[id]} :: id in s.builders ==> Honest(s.builders[id].model, s.past, s.builders[id].scope, setup))
    && (forall id {:trigger s.readers[id]} :: id in s.readers ==> HonestReader(s.readers[id], s.past, setup))
  }

  /** The heart of it: a matching fingerprint makes an old build right for the tables just read. */
  lemma MatchIsRight(m: ReadModel, past: seq<Rows>, k: nat, scope: int, setup: Setup)
    requires Honest(m, past, scope, setup) && FingerprintAt(m.fingerprint, past, k, scope)
    ensures RightAt(m.layout, past, k, scope, setup)
  {
    var j :| 0 <= j < |past| && BuiltAt(m, past, j, scope, setup);
    var builtFrom :| IsGraphOf(builtFrom, past[j], scope) && m == ModelOf(builtFrom, setup);
    var read :| IsGraphOf(read, past[k], scope) && m.fingerprint == Fingerprint(read);
    forall g | IsGraphOf(g, past[k], scope) ensures m.layout == BuildFromGraph(g, setup.p, setup.num) {
      OneFingerprint(g, read, past[k], scope);
      FingerprintDeterminesLayout(g, builtFrom, setup.p, setup.num);
    }
  }

  lemma HonestLater(m: ReadModel, past: seq<Rows>, next: Rows, scope: int, setup: Setup)
    requires Honest(m, past, scope, setup)
    ensures Honest(m, past + [next], scope, setup)
  {
    var k :| 0 <= k < |past| && BuiltAt(m, past, k, scope, setup);
    assert BuiltAt(m, past + [next], k, scope, setup);
  }

  lemma ReaderLater(r: Reader, past: seq<Rows>, next: Rows, setup: Setup)
    requires HonestReader(r, past, setup)
    ensures HonestReader(r, past + [next], setup)
  {
    match r
    case Warming(scope, _, _, model) => HonestLater(model, past, next, scope, setup);
    case Asking(scope, _, _, stale) =>
      if stale.Some? {
        HonestLater(stale.value, past, next, scope, setup);
      }
    case Served(scope, _, layout, status) =>
      if status == Refreshing {
        var m: ReadModel :| m.layout == layout && Honest(m, past, scope, setup);
        HonestLater(m, past, next, scope, setup);
      }
    case _ =>
  }

  lemma ChangeKeepsHonest(s: System, next: Rows, setup: Setup)
    requires AllHonest(s, setup)
    ensures AllHonest(s.(past := s.past + [next]), setup)
  {
    forall scope | scope in s.models ensures Honest(s.models[scope], s.past + [next], scope, setup) {
      HonestLater(s.models[scope], s.past, next, scope, setup);
    }
    forall scope | scope in s.cache ensures Honest(s.cache[scope], s.past + [next], scope, setup) {
      HonestLater(s.cache[scope], s.past, next, scope, setup);
    }
    forall id | id in s.builders ensures Honest(s.builders[id].model, s.past + [next], s.builders[id].scope, setup) {
      HonestLater(s.builders[id].model, s.past, next, s.builders[id].scope, setup);
    }
    forall id | id in s.readers ensures HonestReader(s.readers[id], s.past + [next], setup) {
      ReaderLater(s.readers[id], s.past, next, setup);
    }
  }

  lemma BuiltNow(s: System, scope: int, g: Graph, setup: Setup)
    requires s.past != [] && IsGraphOf(g, Now(s), scope)
    ensures Honest(ModelOf(g, setup), s.past, scope, setup)
  {
    BuiltThen(s.past, |s.past| - 1, scope, g, setup);
  }

  lemma BuiltThen(past: seq<Rows>, k: nat, scope: int, g: Graph, setup: Setup)
    requires k < |past| && IsGraphOf(g, past[k], scope)
    ensures BuiltAt(ModelOf(g, setup), past, k, scope, setup)
  {
  }

  lemma BuilderKeepsHonest(s: System, id: int, b: Builder, setup: Setup)
    requires AllHonest(s, setup) && Honest(b.model, s.past, b.scope, setup)
    ensures AllHonest(s.(builders := s.builders[id := b]), setup)
  {
  }

  lemma FilledKeepsHonest(s: System, scope: int, m: ReadModel, setup: Setup)
    requires AllHonest(s, setup) && Honest(m, s.past, scope, setup)
    ensures AllHonest(s.(cache := s.cache[scope := m]), setup)
  {
  }

  ghost function WithStored(s: System, b: Builder, works: bool): System {
    if works then s.(models := s.models[b.scope := b.model]) else s
  }

  lemma StoredKeepsHonest(s: System, b: Builder, works: bool, setup: Setup)
    requires AllHonest(s, setup) && Honest(b.model, s.past, b.scope, setup)
    ensures AllHonest(WithStored(s, b, works), setup)
  {
  }

  lemma DroppedKeepsHonest(s: System, id: int, setup: Setup)
    requires AllHonest(s, setup)
    ensures AllHonest(s.(builders := s.builders - {id}), setup)
  {
  }

  lemma LostKeepsHonest(s: System, scope: int, setup: Setup)
    requires AllHonest(s, setup)
    ensures AllHonest(s.(cache := s.cache - {scope}), setup)
  {
  }

  lemma FillKeepsHonest(s: System, id: int, works: bool, setup: Setup)
    requires AllHonest(s, setup) && id in s.builders && s.builders[id].Built?
    ensures AllHonest(BuildStep(s, FillCache(id, works), setup), setup)
  {
    var b := s.builders[id];
    BuilderKeepsHonest(s, id, Cached(b.scope, b.model), setup);
    FilledKeepsHonest(s.(builders := s.builders[id := Cached(b.scope, b.model)]), b.scope, b.model, setup);
  }

  lemma CommitIs(s: System, id: int, works: bool, setup: Setup)
    requires s.past != [] && id in s.builders && s.builders[id].Cached?
    ensures var stored := WithStored(s, s.builders[id], works);
            BuildStep(s, CommitBuild(id, works), setup) == stored.(builders := stored.builders - {id})
  {
  }

  lemma CommitKeepsHonest(s: System, id: int, works: bool, setup: Setup)
    requires AllHonest(s, setup) && id in s.builders && s.builders[id].Cached?
    ensures AllHonest(BuildStep(s, CommitBuild(id, works), setup), setup)
  {
    var b := s.builders[id];
    StoredKeepsHonest(s, b, works, setup);
    DroppedKeepsHonest(WithStored(s, b, works), id, setup);
    CommitIs(s, id, works, setup);
  }

  lemma StartKeepsHonest(s: System, id: int, scope: int, g: Graph, setup: Setup)
    requires AllHonest(s, setup)
    ensures AllHonest(BuildStep(s, StartBuild(id, scope, g), setup), setup)
  {
    if IsGraphOf(g, Now(s), scope) {
      BuiltNow(s, scope, g, setup);
      BuilderKeepsHonest(s, id, Built(scope, ModelOf(g, setup)), setup);
    }
  }

  lemma DropKeepsHonest(s: System, e: Event, setup: Setup)
    requires AllHonest(s, setup) && (e.Crash? || e.LoseCache?)
    ensures AllHonest(BuildStep(s, e, setup), setup)
  {
    if e.Crash? {
      DroppedKeepsHonest(s, e.id, setup);
    } else {
      LostKeepsHonest(s, e.scope, setup);
    }
  }

  /** The build steps that change nothing: those of other events, and those out of turn. */
  predicate BuildIdle(s: System, e: Event) {
    match e
    case StartBuild(_, _, _) => false
    case FillCache(id, _) => !(id in s.builders && s.builders[id].Built?)
    case CommitBuild(id, _) => !(id in s.builders && s.builders[id].Cached?)
    case Crash(_) => false
    case LoseCache(_) => false
    case _ => true
  }

  lemma IdleBuildsNothing(s: System, e: Event, setup: Setup)
    requires s.past != [] && BuildIdle(s, e)
    ensures BuildStep(s, e, setup) == s
  {
  }

  lemma BuildKeepsHonest(s: System, e: Event, setup: Setup)
    requires AllHonest(s, setup)
    ensures AllHonest(BuildStep(s, e, setup), setup)
  {
    if BuildIdle(s, e) {
      IdleBuildsNothing(s, e, setup);
    } else {
      match e
      case StartBuild(id, scope, graph) => StartKeepsHonest(s, id, scope, graph, setup);
      case FillCache(id, works) => FillKeepsHonest(s, id, works, setup);
      case CommitBuild(id, works) => CommitKeepsHonest(s, id, works, setup);
      case Crash(_) => DropKeepsHonest(s, e, setup);
      case LoseCache(_) => DropKeepsHonest(s, e, setup);
    }
  }

  lemma CacheReadKeepsHonest(r: Reader, id: int, works: bool, s: System, setup: Setup)
    requires AllHonest(s, setup) && HonestReader(r, s.past, setup)
    ensures HonestReader(Advance(r, ReadCache(id, works), s), s.past, setup)
  {
    if r.InCache? && works && r.scope in s.cache && s.cache[r.scope].fingerprint == r.fingerprint {
      MatchIsRight(s.cache[r.scope], s.past, r.readAt, r.scope, setup);
    }
  }

  lemma StoreReadKeepsHonest(r: Reader, id: int, s: System, setup: Setup)
    requires AllHonest(s, setup) && HonestReader(r, s.past, setup)
    ensures HonestReader(Advance(r, ReadStore(id), s), s.past, setup)
  {
  }

  // What a reader knows before a step, and what it shows after it.

  lemma WarmingKnows(r: Reader, past: seq<Rows>, setup: Setup)
    requires r.Warming? && HonestReader(r, past, setup)
    ensures FingerprintAt(r.model.fingerprint, past, r.readAt, r.scope) && Honest(r.model, past, r.scope, setup)
  {
  }

  lemma AskingKnows(r: Reader, past: seq<Rows>, setup: Setup)
    requires r.Asking? && r.stale.Some? && HonestReader(r, past, setup)
    ensures Honest(r.stale.value, past, r.scope, setup)
  {
  }

  lemma ReadyIsHonest(scope: int, k: nat, layout: Layout, past: seq<Rows>, setup: Setup)
    requires RightAt(layout, past, k, scope, setup)
    ensures HonestReader(Served(scope, k, layout, Ready), past, setup)
  {
  }

  lemma RefreshingIsHonest(scope: int, k: nat, m: ReadModel, past: seq<Rows>, setup: Setup)
    requires Honest(m, past, scope, setup)
    ensures HonestReader(Served(scope, k, m.layout, Refreshing), past, setup)
  {
  }

  lemma WarmIs(r: Reader, id: int, works: bool, s: System)
    ensures Advance(r, WarmCache(id, works), s) == if r.Warming? then Served(r.scope, r.readAt, r.model.layout, Ready) else r
  {
  }

  lemma AskIs(r: Reader, id: int, s: System)
    ensures Advance(r, AskForBuild(id), s) ==
            if !r.Asking? then r
            else if r.stale.Some? then Served(r.scope, r.readAt, r.stale.value.layout, Refreshing)
            else NotReady(r.scope, r.readAt)
  {
  }

  lemma WarmKeepsHonest(r: Reader, id: int, works: bool, s: System, setup: Setup)
    requires HonestReader(r, s.past, setup)
    ensures HonestReader(Advance(r, WarmCache(id, works), s), s.past, setup)
  {
    WarmIs(r, id, works, s);
    if r.Warming? {
      WarmingKnows(r, s.past, setup);
      MatchIsRight(r.model, s.past, r.readAt, r.scope, setup);
      ReadyIsHonest(r.scope, r.readAt, r.model.layout, s.past, setup);
    }
  }

  lemma AskKeepsHonest(r: Reader, id: int, s: System, setup: Setup)
    requires HonestReader(r, s.past, setup)
    ensures HonestReader(Advance(r, AskForBuild(id), s), s.past, setup)
  {
    AskIs(r, id, s);
    if r.Asking? && r.stale.Some? {
      AskingKnows(r, s.past, setup);
      RefreshingIsHonest(r.scope, r.readAt, r.stale.value, s.past, setup);
    }
  }

  lemma AdvanceKeepsHonest(r: Reader, e: Event, s: System, setup: Setup)
    requires AllHonest(s, setup) && HonestReader(r, s.past, setup)
    ensures HonestReader(Advance(r, e, s), s.past, setup)
  {
    match e
    case ReadCache(id, works) => CacheReadKeepsHonest(r, id, works, s, setup);
    case ReadStore(id) => StoreReadKeepsHonest(r, id, s, setup);
    case WarmCache(id, works) => WarmKeepsHonest(r, id, works, s, setup);
    case AskForBuild(id) => AskKeepsHonest(r, id, s, setup);
    case _ =>
  }

  lemma NewReaderKeepsHonest(s: System, id: int, r: Reader, setup: Setup)
    requires AllHonest(s, setup) && HonestReader(r, s.past, setup)
    ensures AllHonest(s.(readers := s.readers[id := r]), setup)
  {
  }

  lemma MovedKeepsHonest(s: System, id: int, e: Event, setup: Setup)
    requires AllHonest(s, setup)
    ensures AllHonest(Moved(s, id, e), setup)
  {
    if id in s.readers {
      AdvanceKeepsHonest(s.readers[id], e, s, setup);
      NewReaderKeepsHonest(s, id, Advance(s.readers[id], e, s), setup);
    }
  }

  lemma LoadKeepsHonest(s: System, e: Event, setup: Setup)
    requires AllHonest(s, setup)
    ensures AllHonest(LoadStep(s, e), setup)
  {
    match e
    case StartLoad(id, scope, graph) =>
      if IsGraphOf(graph, Now(s), scope) {
        NewReaderKeepsHonest(s, id, InCache(scope, |s.past| - 1, Fingerprint(graph)), setup);
      }
    case ReadCache(id, _) => MovedKeepsHonest(s, id, e, setup);
    case ReadStore(id) => MovedKeepsHonest(s, id, e, setup);
    case WarmCache(id, works) =>
      MovedKeepsHonest(s, id, e, setup);
      if works && id in s.readers && s.readers[id].Warming? {
        FilledKeepsHonest(Moved(s, id, e), s.readers[id].scope, s.readers[id].model, setup);
      }
    case AskForBuild(id) => MovedKeepsHonest(s, id, e, setup);
    case _ =>
  }

  lemma {:induction false} RunKeepsHonest(s: System, events: seq<Event>, setup: Setup)
    requires AllHonest(s, setup)
    ensures AllHonest(Run(s, events, setup), setup)
  {
    if events != [] {
      var e := events[|events| - 1];
      RunKeepsHonest(s, events[..|events| - 1], setup);
      var before := Run(s, events[..|events| - 1], setup);
      if e.ChangeTables? {
        ChangeKeepsHonest(before, ScopeProjection.Apply(Now(before), e.call), setup);
      } else {
        BuildKeepsHonest(before, e, setup);
        LoadKeepsHonest(before, e, setup);
      }
    }
  }

  /**
   Whatever happened before, a layout served as ready has the cards, positions, bounds and edges
   of a build from the tables as they were when that very load read them; a layout served while
   refreshing is a build of that scope as it was at some earlier moment.
   */
  lemma ServedLayoutsAreBuilds(events: seq<Event>, setup: Setup, id: int)
    requires var s := Run(Start, events, setup); id in s.readers && s.readers[id].Served?
    ensures var s := Run(Start, events, setup);
            var r := s.readers[id];
            match r.status
            case Ready => RightAt(r.layout, s.past, r.readAt, r.scope, setup)
            case Refreshing => exists m: ReadModel :: m.layout == r.layout && Honest(m, s.past, r.scope, setup)
  {
    RunKeepsHonest(Start, events, setup);
  }

  ghost predicate TablesSound(past: seq<Rows>) {
    forall k :: 0 <= k < |past| ==> ScopeProjection.Sound(past[k]) && ScopeProjection.IndexAgrees(past[k])
  }

  lemma {:induction false} TablesStaySound(events: seq<Event>, setup: Setup)
    ensures TablesSound(Run(Start, events, setup).past)
  {
    if events == [] {
      assert ScopeProjection.Sound(EmptyRows) && ScopeProjection.IndexAgrees(EmptyRows);
    } else {
      TablesStaySound(events[..|events| - 1], setup);
      StepKeepsTables(Run(Start, events[..|events| - 1], setup), events[|events| - 1], setup);
    }
  }

  lemma StepKeepsTables(s: System, e: Event, setup: Setup)
    requires s.past != [] && TablesSound(s.past)
    ensures TablesSound(Apply(s, e, setup).past)
  {
    if e.ChangeTables? {
      ScopeProjection.ApplyKeeps(Now(s), e.call);
    }
  }

  /** So a ready layout shows an edge exactly when it joins a card of the scope to another card. */
  lemma ReadyShowsTouchingEdges(events: seq<Event>, setup: Setup, id: int, e: Edge)
    requires var s := Run(Start, events, setup);
             && id in s.readers && s.readers[id].Served? && s.readers[id].status == Ready
             && s.readers[id].readAt < |s.past|
             && TaxonomyTree.Scope(s.past[s.readers[id].readAt].taxonomy, s.readers[id].scope)
    ensures var s := Run(Start, events, setup);
            var r := s.readers[id];
            var rows := s.past[r.readAt];
            e in r.layout.edges <==>
            exists k :: k in rows.edges && ScopeProjection.Touches(rows, r.scope, k) && rows.edges[k] == e
  {
    var s := Run(Start, events, setup);
    var r := s.readers[id];
    var rows := s.past[r.readAt];
    ServedLayoutsAreBuilds(events, setup, id);
    TablesStaySound(events, setup);
    var g :| IsGraphOf(g, rows, r.scope);
    GraphShowsTouchingEdges(g, rows, r.scope, e);
    GraphEdgesAreLaidOut(g, rows, r.scope, setup, e);
  }

  /** A graph read from the tables loses no edge to canonicalisation. */
  lemma GraphEdgesAreLaidOut(g: Graph, rows: Rows, scope: int, setup: Setup, e: Edge)
    requires IsGraphOf(g, rows, scope)
    ensures e in BuildFromGraph(g, setup.p, setup.num).edges <==> e in g.edges
  {
    LaidOutEdges(g, setup.p, setup.num, e);
    if e in g.edges {
      var k :| 0 <= k < |g.edges| && g.edges[k] == e;
      assert ScopeProjection.IsEndpoint(g.edges[k], e.a) && ScopeProjection.IsEndpoint(g.edges[k], e.b);
      assert e.a in Ids(g.cards) && e.b in Ids(g.cards);
    }
  }
}
