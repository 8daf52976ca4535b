/**
 What a load of a layout leaves in the queue: a load that is not answered ready has its build
 asked for, and once a worker has built it the same load is answered ready.
 */
module LoadRequests {
  import opened CardScopeLayout
  import opened Common
  import opened ComputeQueue
  import opened LayoutServing
  import opened LayoutService

  /** The read model a load looks at: the cached one if the cache can be read and has one, else the stored one. */
  function Seen(s: State, scope: int, cacheReadFails: bool): Option<ReadModel> {
    if !cacheReadFails && scope in s.cache then Some(s.cache[scope]) else Get(s.models, scope)
  }

  predicate IsReady(r: Outcome<(Layout, LayoutStatus), LoadError>) {
    r.Ok? && r.value.1 == Ready
  }

  /** The row will be built under the fingerprint, or a worker took it less than the recovery window ago. */
  predicate InHand(row: Request, fingerprint: Payload, now: int) {
    if row.status == Running then row.claimedAt.Some? && now - row.claimedAt.value < RECOVERY_AFTER
    else row.status == Pending && row.fingerprint == fingerprint
  }

  /** The answer: the layout of the model the load looks at, ready exactly when its fingerprint matches. */
  lemma LoadShowsWhatItSees(s: State, scope: int, fingerprint: Payload, faults: Faults, now: int)
    ensures var r := Loaded(s, scope, fingerprint, faults, now).1;
            match Seen(s, scope, faults.cacheRead)
            case None => r == Raised(LayoutNotReady)
            case Some(model) => r == Ok((model.layout, if model.fingerprint == fingerprint then Ready else Refreshing))
  {
  }

  /**
   With requests working, a load that is not answered ready leaves its scope's row in hand; one
   answered ready leaves the queue as it was, and so does one whose request fails. No other scope's
   row changes, and nothing stored does.
   */
  lemma LoadQueuesTheBuild(s: State, scope: int, fingerprint: Payload, faults: Faults, now: int)
    ensures var (after, r) := Loaded(s, scope, fingerprint, faults, now);
            && (!IsReady(r) && !faults.request ==> scope in after.requests && InHand(after.requests[scope], fingerprint, now))
            && (IsReady(r) || faults.request ==> after.requests == s.requests && after.nextId == s.nextId)
            && (forall other :: other != scope ==> Get(after.requests, other) == Get(s.requests, other))
            && after.models == s.models
            && (after.cache == s.cache || (IsReady(r) && scope in s.models && after.cache == s.cache[scope := s.models[scope]]))
  {
    RequestIsHonoured(s.requests, s.nextId, scope, fingerprint, now);
  }

  /** The three transactions of a worker that claims and builds, with these build failures. */
  ghost function Worked(s: State, model: ReadModel, faults: Faults, now: int): (State, Worker) {
    var (claimed, w1) := WorkerStep(s, Idle, true, model, faults, "", now);
    var (built, w2) := WorkerStep(claimed, w1, true, model, faults, "", now);
    WorkerStep(built, w2, true, model, faults, "", now)
  }

  predicate BuildWorks(faults: Faults) {
    !faults.build && !faults.write && !faults.commit
  }

  /** Claiming and building the first row stores its model, offers it to the cache, and ends the row. */
  lemma FirstRowIsBuilt(s: State, scope: int, model: ReadModel, faults: Faults, now: int)
    requires Next(s.requests) == Some(scope) && scope in s.requests && BuildWorks(faults)
    ensures var (after, worker) := Worked(s, model, faults, now);
            && worker == Done(true) && after.models == s.models[scope := model]
            && after.cache == (if faults.cacheWrite then s.cache else s.cache[scope := model])
            && scope in after.requests && after.requests == s.requests[scope := after.requests[scope]]
            && after.requests[scope].status == Succeeded
  {
  }

  /**
   A load that was not ready, its row claimed and built from the same tables, and then a load again:
   the answer is ready, unless the build could not reach the cache and the second load reads an
   outdated entry there.
   */
  lemma LoadAfterBuildIsReady(s: State, scope: int, fingerprint: Payload, first: Faults, now: int, model: ReadModel,
                              building: Faults, midway: int, second: Faults, later: int)
    requires var (asked, r) := Loaded(s, scope, fingerprint, first, now);
             !IsReady(r) && !first.request && Next(asked.requests) == Some(scope) && scope in asked.requests
    requires model.fingerprint == fingerprint && BuildWorks(building)
    ensures var asked := Loaded(s, scope, fingerprint, first, now).0;
            var built := Worked(asked, model, building, midway).0;
            var (after, r) := Loaded(built, scope, fingerprint, second, later);
            && (IsReady(r) <==> !(building.cacheWrite && !second.cacheRead && scope in s.cache && s.cache[scope].fingerprint != fingerprint))
            && (IsReady(r) ==> after.requests == built.requests)
  {
    var asked := Loaded(s, scope, fingerprint, first, now).0;
    LoadQueuesTheBuild(s, scope, fingerprint, first, now);
    FirstRowIsBuilt(asked, scope, model, building, midway);
    var built := Worked(asked, model, building, midway).0;
    LoadShowsWhatItSees(built, scope, fingerprint, second, later);
    LoadQueuesTheBuild(built, scope, fingerprint, second, later);
  }

  // ----- what a prepared target is told -----

  /** The target's row, if it carries the target's own fingerprint. */
  function OwnRow(s: State, scope: int, fingerprint: Payload): Option<Request> {
    if scope in s.requests && s.requests[scope].fingerprint == fingerprint then Some(s.requests[scope]) else None
  }

  /** Its layout is in the cache as it can be read, or stored. */
  predicate HasLayout(s: State, scope: int, fingerprint: Payload, cacheReadFails: bool) {
    (!cacheReadFails && scope in s.cache && s.cache[scope].fingerprint == fingerprint)
    || (scope in s.models && s.models[scope].fingerprint == fingerprint)
  }

  predicate HasAnyLayout(s: State, scope: int, cacheReadFails: bool) {
    (!cacheReadFails && scope in s.cache) || scope in s.models
  }

  /**
   A target is ready exactly when its layout can be had; otherwise it is failed exactly when its own
   row failed, with that row's error, or a request is needed and fails; otherwise it is being
   refreshed when an outdated layout is there, and queued when none is.
   */
  lemma PreparedIsTold(s: State, scope: int, fingerprint: Payload, faults: Faults, error: string, now: int)
    ensures var (after, r) := PreparedTarget(s, scope, fingerprint, faults, error, now);
            var own := OwnRow(s, scope, fingerprint);
            if HasLayout(s, scope, fingerprint, faults.cacheRead) then r == Prepared && after.requests == s.requests
            else if own.Some? && own.value.status == Failed then r == Unprepared(own.value.lastError) && after == s
            else if !(own.Some? && own.value.status in {Pending, Running}) && faults.request then r == Unprepared(Some(error)) && after == s
            else r == (if HasAnyLayout(s, scope, faults.cacheRead) then BeingRefreshed else Queued)
  {
  }
}
