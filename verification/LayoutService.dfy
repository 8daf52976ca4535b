/**
 The layout calls of the taxonomy service, one at a time: load, build and cache, prepare for
 precomputation, and a worker's claim, build, and complete or fail. Cache and commit failures are
 inputs of each call.
 */
module LayoutService {
  import opened Common
  import opened Store
  import opened CardScopeLayout
  import opened CardScopeGraph
  import opened ComputeQueue
  import opened LayoutServing
  import opened Sorting
  import ScopeProjection

  /** Which of a call's accesses fail; a cache that is not configured fails both its accesses. */
  datatype Faults = Faults(cacheRead: bool, cacheWrite: bool, request: bool, build: bool, write: bool, commit: bool)

  /** The layout tables and the cache. */
  datatype State = State(models: map<int, ReadModel>, cache: map<int, ReadModel>, requests: Requests, nextId: int)

  datatype LoadError = LayoutNotReady

  function CachedModel(s: State, scope: int, faults: Faults): Option<ReadModel> {
    if faults.cacheRead then None else Get(s.cache, scope)
  }

  function CacheSet(s: State, scope: int, model: ReadModel, faults: Faults): State {
    if faults.cacheWrite then s else s.(cache := s.cache[scope := model])
  }

  function Asked(s: State, scope: int, fingerprint: Payload, faults: Faults, now: int): State {
    if faults.request then s
    else s.(requests := Requested(s.requests, s.nextId, scope, fingerprint, now), nextId := s.nextId + 1)
  }

  /** `_load_card_scope_layout` for a graph with the given fingerprint. */
  function Loaded(s: State, scope: int, fingerprint: Payload, faults: Faults, now: int)
    : (State, Outcome<(Layout, LayoutStatus), LoadError>)
  {
    match CachedModel(s, scope, faults)
    case Some(cached) =>
      if cached.fingerprint == fingerprint then (s, Ok((cached.layout, Ready)))
      else (Asked(s, scope, fingerprint, faults, now), Ok((cached.layout, Refreshing)))
    case None =>
      if scope !in s.models then (Asked(s, scope, fingerprint, faults, now), Raised(LayoutNotReady))
      else
        var stored := s.models[scope];
        if stored.fingerprint == fingerprint then (CacheSet(s, scope, stored, faults), Ok((stored.layout, Ready)))
        else (Asked(s, scope, fingerprint, faults, now), Ok((stored.layout, Refreshing)))
  }

  datatype Prepared = Prepared | Queued | BeingRefreshed | Unprepared(error: Option<string>)

  /** `prepare_card_scope_layout_precompute_target` */
  function PreparedTarget(s: State, scope: int, fingerprint: Payload, faults: Faults, error: string, now: int)
    : (State, Prepared)
  {
    var cached := CachedModel(s, scope, faults);
    var stored := Get(s.models, scope);
    if cached.Some? && cached.value.fingerprint == fingerprint then (s, Prepared)
    else if stored.Some? && stored.value.fingerprint == fingerprint then (CacheSet(s, scope, stored.value, faults), Prepared)
    else
      var waiting := if cached.Some? || stored.Some? then BeingRefreshed else Queued;
      if scope in s.requests && s.requests[scope].fingerprint == fingerprint && s.requests[scope].status == Failed then
        (s, Unprepared(s.requests[scope].lastError))
      else if scope in s.requests && s.requests[scope].fingerprint == fingerprint
              && s.requests[scope].status in {Pending, Running} then
        (s, waiting)
      else if faults.request then (s, Unprepared(Some(error)))
      else (Asked(s, scope, fingerprint, faults, now), waiting)
  }

  datatype BuildError = NodeMissing | BuildFailed

  /** `build_and_cache_card_scope_layout`: the cache is filled before the commit that may fail. */
  function BuiltAndCached(s: State, scope: int, known: bool, model: ReadModel, faults: Faults): (State, Outcome<Layout, BuildError>) {
    if !known then (s, Raised(NodeMissing))
    else if faults.build || faults.write then (s, Raised(BuildFailed))
    else
      var filled := CacheSet(s, scope, model, faults);
      if faults.commit then (filled, Raised(BuildFailed))
      else (filled.(models := filled.models[scope := model]), Ok(model.layout))
  }

  /** Where a worker is in `process_next_card_scope_layout`; each move is one transaction. */
  datatype Worker =
    | Idle
    | Claimed(scope: int)
    | HasBuilt(scope: int, error: Option<string>)
    | Done(processed: bool)

  class LayoutService {
    const session: Session
    const queue: RequestTable
    const setup: Setup
    var models: map<int, ReadModel>
    var cache: map<int, ReadModel>

    constructor (session: Session, queue: RequestTable, setup: Setup)
      ensures this.session == session && this.queue == queue && this.setup == setup
      ensures models == map[] && cache == map[]
    {
      this.session, this.queue, this.setup := session, queue, setup;
      models, cache := map[], map[];
    }

    function Snapshot(): State
      reads this, queue
    {
      State(models, cache, queue.rows, queue.nextId)
    }

    method GetCached(scope: int, faults: Faults) returns (model: Option<ReadModel>)
      ensures model == CachedModel(Snapshot(), scope, faults)
    {
      if faults.cacheRead {
        return None;
      }
      return Get(cache, scope);
    }

    method SetCached(scope: int, model: ReadModel, faults: Faults)
      modifies this
      ensures Snapshot() == CacheSet(old(Snapshot()), scope, model, faults)
    {
      if !faults.cacheWrite {
        cache := cache[scope := model];
      }
    }

    /** `_request_card_scope_layout_compute`; a failure is rolled back, and only the strict form reports it. */
    method AskForBuild(scope: int, fingerprint: Payload, faults: Faults, now: int)
      modifies queue
      ensures Snapshot() == Asked(old(Snapshot()), scope, fingerprint, faults, now)
    {
      if !faults.request {
        var _ := queue.RequestCompute(scope, fingerprint, now);
      }
    }

    method LoadCardScopeLayout(scope: int, faults: Faults, now: int)
      returns (r: Outcome<(Layout, LayoutStatus), LoadError>, ghost g: Graph)
      requires ScopeProjection.Sound(session.Snapshot())
      modifies this, queue
      ensures IsGraphOf(g, session.Snapshot(), scope)
      ensures (Snapshot(), r) == Loaded(old(Snapshot()), scope, Fingerprint(g), faults, now)
    {
      var graph := LoadGraph(session, scope);
      g := graph;
      var fingerprint := Fingerprint(graph);
      var cached := GetCached(scope, faults);
      if cached.Some? {
        if cached.value.fingerprint == fingerprint {
          return Ok((cached.value.layout, Ready)), g;
        }
        AskForBuild(scope, fingerprint, faults, now);
        return Ok((cached.value.layout, Refreshing)), g;
      }
      var stored := Get(models, scope);
      if stored.Some? {
        if stored.value.fingerprint == fingerprint {
          SetCached(scope, stored.value, faults);
          return Ok((stored.value.layout, Ready)), g;
        }
        AskForBuild(scope, fingerprint, faults, now);
        return Ok((stored.value.layout, Refreshing)), g;
      }
      AskForBuild(scope, fingerprint, faults, now);
      return Raised(LayoutNotReady), g;
    }

    method PrepareTarget(scope: int, faults: Faults, error: string, now: int) returns (r: Prepared, ghost g: Graph)
      requires ScopeProjection.Sound(session.Snapshot())
      modifies this, queue
      ensures IsGraphOf(g, session.Snapshot(), scope)
      ensures (Snapshot(), r) == PreparedTarget(old(Snapshot()), scope, Fingerprint(g), faults, error, now)
    {
      var graph := LoadGraph(session, scope);
      g := graph;
      var fingerprint := Fingerprint(graph);
      var cached := GetCached(scope, faults);
      if cached.Some? && cached.value.fingerprint == fingerprint {
        return Prepared, g;
      }
      var stored := Get(models, scope);
      if stored.Some? && stored.value.fingerprint == fingerprint {
        SetCached(scope, stored.value, faults);
        return Prepared, g;
      }
      var stale := cached.Some? || stored.Some?;
      var existing := Get(queue.rows, scope);
      if existing.Some? && existing.value.fingerprint == fingerprint {
        if existing.value.status == Failed {
          return Unprepared(existing.value.lastError), g;
        }
        if existing.value.status in {Pending, Running} {
          return (if stale then BeingRefreshed else Queued), g;
        }
      }
      AskForBuild(scope, fingerprint, faults, now);
      if faults.request {
        return Unprepared(Some(error)), g;
      }
      return (if stale then BeingRefreshed else Queued), g;
    }

    method BuildAndCache(scope: int, faults: Faults) returns (r: Outcome<Layout, BuildError>, ghost g: Graph)
      requires ScopeProjection.Sound(session.Snapshot())
      modifies this
      ensures IsGraphOf(g, session.Snapshot(), scope)
      ensures (Snapshot(), r) ==
              BuiltAndCached(old(Snapshot()), scope, scope in session.taxonomy, ModelOf(g, setup), faults)
    {
      var graph := LoadGraph(session, scope);
      g := graph;
      if scope !in session.taxonomy {
        return Raised(NodeMissing), g;
      }
      if faults.build {
        return Raised(BuildFailed), g;
      }
      var layout := BuildCardScopeLayout(SortBy(graph.cards, ById), graph.edges, setup.p, setup.num);
      if faults.write {
        return Raised(BuildFailed), g;
      }
      var model := ReadModel(Fingerprint(graph), layout);
      SetCached(scope, model, faults);
      if faults.commit {
        return Raised(BuildFailed), g;
      }
      models := models[scope := model];
      return Ok(layout), g;
    }

    /** One transaction of a worker: claim, build, or complete or fail. */
    method Advance(worker: Worker, faults: Faults, error: string, now: int) returns (next: Worker, ghost g: Graph)
      requires ScopeProjection.Sound(session.Snapshot()) && DistinctRequests(queue.rows)
      modifies this, queue
      ensures worker.Claimed? ==> IsGraphOf(g, session.Snapshot(), worker.scope)
      ensures (Snapshot(), next) ==
              WorkerStep(old(Snapshot()), worker, worker.Claimed? && worker.scope in session.taxonomy,
                         ModelOf(g, setup), faults, error, now)
    {
      g := Graph([], []);
      match worker {
        case Idle =>
          NextIsFirst(queue.rows);
          var claim := queue.ClaimNext(now);
          next := if claim == None then Done(false) else Claimed(claim.value.scope);
        case Claimed(scope) =>
          var built;
          built, g := BuildAndCache(scope, faults);
          next := HasBuilt(scope, if built.Ok? then None else Some(error));
        case HasBuilt(scope, failed) =>
          if failed == None {
            queue.Complete(scope, now);
          } else {
            queue.Fail(scope, failed.value, now);
          }
          next := Done(true);
        case Done(_) =>
          next := worker;
      }
    }
  }

  ghost function WorkerStep(s: State, worker: Worker, known: bool, model: ReadModel, faults: Faults, error: string, now: int)
    : (State, Worker)
  {
    match worker
    case Idle =>
      NextIsFirst(s.requests);
      (match Next(s.requests)
       case None => (s, Done(false))
       case Some(scope) =>
         (s.(requests := s.requests[scope := StartedRow(s.requests[scope], now)]), Claimed(scope)))
    case Claimed(scope) =>
      var (after, r) := BuiltAndCached(s, scope, known, model, faults);
      (after, HasBuilt(scope, if r.Ok? then None else Some(error)))
    case HasBuilt(scope, failed) =>
      (s.(requests := if failed == None then Completed(s.requests, scope, now)
                      else FailedWith(s.requests, scope, failed.value, now)), Done(true))
    case Done(_) => (s, worker)
  }
}
