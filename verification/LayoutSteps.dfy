/**
 The sequential layout calls and the interleaved ones are the same calls: run without interruption,
 the steps of a load or a build come to what the service method returns and leaves behind.
 */
module LayoutSteps {
  import opened Common
  import opened CardScopeLayout
  import opened CardScopeGraph
  import opened LayoutServing
  import LayoutService
  import ComputeQueue

  function LoadEvents(id: int, scope: int, g: Graph, faults: LayoutService.Faults): seq<Event> {
    [StartLoad(id, scope, g), ReadCache(id, !faults.cacheRead), ReadStore(id), WarmCache(id, !faults.cacheWrite), AskForBuild(id)]
  }

  function BuildEvents(id: int, scope: int, g: Graph, faults: LayoutService.Faults): seq<Event> {
    [StartBuild(id, scope, g), FillCache(id, !faults.cacheWrite), CommitBuild(id, !faults.commit)]
  }

  lemma RunNext(s: System, events: seq<Event>, k: nat, next: nat, setup: Setup) returns (after: System)
    requires s.past != [] && next == k + 1 <= |events|
    ensures after == Run(s, events[..next], setup) == Apply(Run(s, events[..k], setup), events[k], setup)
  {
    assert events[..next][..k] == events[..k];
    after := Run(s, events[..next], setup);
  }

  /** How a load ends, as the reader's last state. */
  function Ending(scope: int, readAt: nat, r: Outcome<(Layout, LayoutStatus), LayoutService.LoadError>): Reader {
    match r
    case Ok((layout, status)) => Served(scope, readAt, layout, status)
    case Raised(_) => NotReady(scope, readAt)
  }

  /** The system with one reader replaced. */
  function With(s: System, id: int, r: Reader): System {
    s.(readers := s.readers[id := r])
  }

  lemma ReadStep(s: System, id: int, r: Reader, e: Event, setup: Setup)
    requires s.past != [] && (e == AskForBuild(id) || e == ReadStore(id) || e == ReadCache(id, true) || e == ReadCache(id, false))
    ensures Apply(With(s, id, r), e, setup) == With(s, id, Advance(r, e, s))
  {
    assert Advance(r, e, With(s, id, r)) == Advance(r, e, s);
  }

  lemma WarmStep(s: System, id: int, r: Reader, works: bool, setup: Setup)
    requires s.past != []
    ensures Apply(With(s, id, r), WarmCache(id, works), setup) ==
            With(s.(cache := if works && r.Warming? then s.cache[r.scope := r.model] else s.cache), id,
                 Advance(r, WarmCache(id, works), s))
  {
    assert Advance(r, WarmCache(id, works), With(s, id, r)) == Advance(r, WarmCache(id, works), s);
  }

  /** The reader after looking into cache and store. */
  function Looked(s: System, id: int, start: Reader, faults: LayoutService.Faults): Reader {
    Advance(Advance(start, ReadCache(id, !faults.cacheRead), s), ReadStore(id), s)
  }

  /** The system after the reader's attempt to warm the cache. */
  function Warmed(s: System, id: int, start: Reader, faults: LayoutService.Faults): System {
    var r := Looked(s, id, start, faults);
    s.(cache := if !faults.cacheWrite && r.Warming? then s.cache[r.scope := r.model] else s.cache)
  }

  /** The reader at the end of its way. */
  function Last(s: System, id: int, start: Reader, faults: LayoutService.Faults): Reader {
    Advance(Advance(Looked(s, id, start, faults), WarmCache(id, !faults.cacheWrite), s), AskForBuild(id), s)
  }

  lemma ReaderEnds(s: System, id: int, start: Reader, faults: LayoutService.Faults, requests: ComputeQueue.Requests, nextId: int, now: int)
    requires start.InCache?
    ensures var (after, r) :=
              LayoutService.Loaded(LayoutService.State(s.models, s.cache, requests, nextId), start.scope, start.fingerprint, faults, now);
            && Last(s, id, start, faults) == Ending(start.scope, start.readAt, r)
            && after.cache == Warmed(s, id, start, faults).cache
  {
  }

  lemma RunRead(s: System, events: seq<Event>, k: nat, next: nat, base: System, id: int, r: Reader, setup: Setup)
    requires s.past != [] && base.past != [] && next == k + 1 <= |events|
    requires events[k] in {AskForBuild(id), ReadStore(id), ReadCache(id, true), ReadCache(id, false)}
    requires Run(s, events[..k], setup) == With(base, id, r)
    ensures Run(s, events[..next], setup) == With(base, id, Advance(r, events[k], base))
  {
    var after := RunNext(s, events, k, next, setup);
    ReadStep(base, id, r, events[k], setup);
  }

  lemma RunWarm(s: System, events: seq<Event>, k: nat, next: nat, base: System, id: int, r: Reader, works: bool, setup: Setup)
    requires s.past != [] && base.past != [] && next == k + 1 <= |events| && events[k] == WarmCache(id, works)
    requires Run(s, events[..k], setup) == With(base, id, r)
    ensures Run(s, events[..next], setup) ==
            With(base.(cache := if works && r.Warming? then base.cache[r.scope := r.model] else base.cache), id,
                 Advance(r, WarmCache(id, works), base))
  {
    var after := RunNext(s, events, k, next, setup);
    WarmStep(base, id, r, works, setup);
  }

  lemma RunStart(s: System, events: seq<Event>, id: int, scope: int, g: Graph, setup: Setup)
    requires s.past != [] && IsGraphOf(g, Now(s), scope) && events != [] && events[0] == StartLoad(id, scope, g)
    ensures Run(s, events[..1], setup) == With(s, id, InCache(scope, |s.past| - 1, Fingerprint(g)))
  {
    assert events[..0] == [];
    var after := RunNext(s, events, 0, 1, setup);
  }

  lemma RunsToLooked(s: System, id: int, scope: int, g: Graph, faults: LayoutService.Faults, setup: Setup)
    requires s.past != [] && IsGraphOf(g, Now(s), scope)
    ensures Run(s, LoadEvents(id, scope, g, faults)[..3], setup) ==
            With(s, id, Looked(s, id, InCache(scope, |s.past| - 1, Fingerprint(g)), faults))
  {
    var e := LoadEvents(id, scope, g, faults);
    var start := InCache(scope, |s.past| - 1, Fingerprint(g));
    RunStart(s, e, id, scope, g, setup);
    RunRead(s, e, 1, 2, s, id, start, setup);
    RunRead(s, e, 2, 3, s, id, Advance(start, e[1], s), setup);
  }

  lemma RunsToWarmed(s: System, id: int, scope: int, g: Graph, faults: LayoutService.Faults, setup: Setup)
    requires s.past != [] && IsGraphOf(g, Now(s), scope)
    ensures var start := InCache(scope, |s.past| - 1, Fingerprint(g));
            Run(s, LoadEvents(id, scope, g, faults)[..4], setup) ==
            With(Warmed(s, id, start, faults), id, Advance(Looked(s, id, start, faults), WarmCache(id, !faults.cacheWrite), s))
  {
    var e := LoadEvents(id, scope, g, faults);
    RunsToLooked(s, id, scope, g, faults, setup);
    RunWarm(s, e, 3, 4, s, id, Looked(s, id, InCache(scope, |s.past| - 1, Fingerprint(g)), faults), !faults.cacheWrite, setup);
  }

  lemma RunsToLast(s: System, id: int, scope: int, g: Graph, faults: LayoutService.Faults, setup: Setup)
    requires s.past != [] && IsGraphOf(g, Now(s), scope)
    ensures var start := InCache(scope, |s.past| - 1, Fingerprint(g));
            Run(s, LoadEvents(id, scope, g, faults), setup) == With(Warmed(s, id, start, faults), id, Last(s, id, start, faults))
  {
    var e := LoadEvents(id, scope, g, faults);
    var start := InCache(scope, |s.past| - 1, Fingerprint(g));
    var warmed := Warmed(s, id, start, faults);
    var reader := Advance(Looked(s, id, start, faults), WarmCache(id, !faults.cacheWrite), s);
    RunsToWarmed(s, id, scope, g, faults, setup);
    RunRead(s, e, 4, 5, warmed, id, reader, setup);
    AskLooksAtReader(reader, id, s, warmed);
    assert e[..5] == e;
  }

  /** What a load returns and leaves in the cache is what its steps come to. */
  lemma LoadIsItsSteps(s: System, id: int, scope: int, g: Graph, faults: LayoutService.Faults, requests: ComputeQueue.Requests,
                       nextId: int, now: int, setup: Setup)
    requires s.past != [] && IsGraphOf(g, Now(s), scope)
    ensures var (after, r) :=
              LayoutService.Loaded(LayoutService.State(s.models, s.cache, requests, nextId), scope, Fingerprint(g), faults, now);
            Run(s, LoadEvents(id, scope, g, faults), setup) == With(s.(cache := after.cache), id, Ending(scope, |s.past| - 1, r))
  {
    RunsToLast(s, id, scope, g, faults, setup);
    ReaderEnds(s, id, InCache(scope, |s.past| - 1, Fingerprint(g)), faults, requests, nextId, now);
  }

  lemma AskLooksAtReader(r: Reader, id: int, s: System, t: System)
    ensures Advance(r, AskForBuild(id), s) == Advance(r, AskForBuild(id), t)
  {
  }

  lemma FillStep(s: System, id: int, scope: int, m: ReadModel, works: bool, setup: Setup)
    requires s.past != []
    ensures Apply(s.(builders := s.builders[id := Built(scope, m)]), FillCache(id, works), setup) ==
            s.(builders := s.builders[id := Cached(scope, m)], cache := if works then s.cache[scope := m] else s.cache)
  {
  }

  lemma CommitStep(s: System, id: int, scope: int, m: ReadModel, works: bool, setup: Setup)
    requires s.past != []
    ensures Apply(s.(builders := s.builders[id := Cached(scope, m)]), CommitBuild(id, works), setup) ==
            s.(builders := s.builders - {id}, models := if works then s.models[scope := m] else s.models)
  {
  }

  /** What a build stores and leaves in the cache is what its steps come to. */
  lemma BuildIsItsSteps(s: System, id: int, scope: int, g: Graph, faults: LayoutService.Faults, requests: ComputeQueue.Requests,
                        nextId: int, setup: Setup)
    requires s.past != [] && IsGraphOf(g, Now(s), scope) && !faults.build && !faults.write
    ensures var (after, r) :=
              LayoutService.BuiltAndCached(LayoutService.State(s.models, s.cache, requests, nextId), scope, true,
                                           ModelOf(g, setup), faults);
            && Run(s, BuildEvents(id, scope, g, faults), setup) ==
               s.(builders := s.builders - {id}, models := after.models, cache := after.cache)
            && (r.Ok? <==> !faults.commit)
  {
    var e := BuildEvents(id, scope, g, faults);
    var m := ModelOf(g, setup);
    assert e[..0] == [] && e[..3] == e;
    var s1 := RunNext(s, e, 0, 1, setup);
    assert s1 == s.(builders := s.builders[id := Built(scope, m)]);
    var s2 := RunNext(s, e, 1, 2, setup);
    FillStep(s, id, scope, m, !faults.cacheWrite, setup);
    var filled := s.(cache := if !faults.cacheWrite then s.cache[scope := m] else s.cache);
    var s3 := RunNext(s, e, 2, 3, setup);
    CommitStep(filled, id, scope, m, !faults.commit, setup);
  }
}
