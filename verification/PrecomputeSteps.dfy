/**
 The single moves of a precompute run: preparing one target, and one transaction of one worker.
 The measures that bound the run, and the rows each move claims, finishes or asks for.
 */
module PrecomputeSteps {
  import opened Common
  import opened Store
  import opened CardScopeLayout
  import opened CardScopeGraph
  import opened ComputeQueue
  import opened LayoutServing
  import opened LayoutService

  /** What each target's graph hashes to throughout the run. */
  ghost predicate AreInputs(inputs: map<int, Payload>, rows: Rows) {
    forall t, g :: t in inputs && IsGraphOf(g, rows, t) ==> Fingerprint(g) == inputs[t]
  }

  ghost predicate Stored(s: State, t: int, inputs: map<int, Payload>)
    requires t in inputs
  {
    t in s.models && s.models[t].fingerprint == inputs[t]
  }

  ghost predicate Available(s: State, t: int, inputs: map<int, Payload>)
    requires t in inputs
  {
    Stored(s, t, inputs) || (t in s.cache && s.cache[t].fingerprint == inputs[t])
  }

  /** Nothing more will be requested for the target: it is stored, or its row carries its input. */
  ghost predicate Settled(s: State, t: int, inputs: map<int, Payload>)
    requires t in inputs
  {
    || Stored(s, t, inputs)
    || (t in s.requests && s.requests[t].fingerprint == inputs[t] && s.requests[t].status != Succeeded)
  }

  ghost function Open(s: State, inputs: map<int, Payload>): set<int> {
    set t | t in inputs && !Settled(s, t, inputs)
  }

  /** An upper bound on the claims still to come. */
  ghost function Work(s: State, inputs: map<int, Payload>): nat {
    |PendingScopes(s.requests)| + 2 * |Open(s, inputs)|
  }

  function RunningScopes(rows: Requests): set<int> {
    set scope | scope in rows && rows[scope].status == Running
  }

  ghost predicate QueueValid(s: State) {
    && DistinctRequests(s.requests)
    && forall scope {:trigger s.requests[scope]} :: scope in s.requests ==> s.requests[scope].id < s.nextId
  }

  ghost predicate Quiet(s: State) {
    QueueValid(s) && RunningScopes(s.requests) == {}
  }

  // ----- preparing -----

  lemma PendingRows(rows: Requests, t: int, row: Request)
    requires t !in RunningScopes(rows) && row.status == Pending
    ensures PendingScopes(rows[t := row]) == PendingScopes(rows) + {t}
    ensures RunningScopes(rows[t := row]) == RunningScopes(rows)
  {
  }

  lemma NewRowKeepsQueue(s: State, t: int, row: Request)
    requires QueueValid(s) && row.id == if t in s.requests then s.requests[t].id else s.nextId
    ensures QueueValid(s.(requests := s.requests[t := row], nextId := s.nextId + 1))
  {
  }

  lemma OneLessOpen(s: State, t: int, inputs: map<int, Payload>, after: State)
    requires t in Open(s, inputs) && after.models == s.models
    requires t in after.requests && after.requests == s.requests[t := after.requests[t]] && Settled(after, t, inputs)
    ensures Open(after, inputs) == Open(s, inputs) - {t}
  {
    forall other | other in inputs && other != t ensures Settled(after, other, inputs) <==> Settled(s, other, inputs) {
    }
  }

  /** A row that was not running becomes pending under the target's own fingerprint. */
  lemma PendingIsWork(s: State, t: int, inputs: map<int, Payload>, after: State, row: Request)
    requires Quiet(s) && t in inputs && t in Open(s, inputs)
    requires row.status == Pending && row.fingerprint == inputs[t]
    requires row.id == if t in s.requests then s.requests[t].id else s.nextId
    requires after == s.(requests := s.requests[t := row], nextId := s.nextId + 1)
    ensures Quiet(after) && t in PendingScopes(after.requests)
    ensures Work(after, inputs) < Work(s, inputs)
  {
    PendingRows(s.requests, t, row);
    NewRowKeepsQueue(s, t, row);
    OneLessOpen(s, t, inputs, after);
  }

  lemma AskIsWork(s: State, t: int, inputs: map<int, Payload>, faults: Faults, now: int)
    requires Quiet(s) && t in inputs && t in Open(s, inputs) && !faults.request
    ensures var after := Asked(s, t, inputs[t], faults, now);
            && Quiet(after) && t in PendingScopes(after.requests)
            && Work(after, inputs) < Work(s, inputs)
  {
    var after := Asked(s, t, inputs[t], faults, now);
    assert t !in RunningScopes(s.requests);
    PendingIsWork(s, t, inputs, after, after.requests[t]);
  }

  lemma PrepareKeeps(s: State, t: int, inputs: map<int, Payload>, faults: Faults, error: string, now: int)
    requires Quiet(s) && t in inputs
    ensures var (after, r) := PreparedTarget(s, t, inputs[t], faults, error, now);
            && Quiet(after) && Work(after, inputs) <= Work(s, inputs)
            && (r == Prepared ==> Available(after, t, inputs))
            && (r == Queued || r == BeingRefreshed ==> t in PendingScopes(after.requests) && Settled(after, t, inputs))
            && PendingScopes(s.requests) <= PendingScopes(after.requests)
            && Open(after, inputs) <= Open(s, inputs)
            && (forall other :: other in inputs && Available(s, other, inputs) ==> Available(after, other, inputs))
  {
    var (after, r) := PreparedTarget(s, t, inputs[t], faults, error, now);
    assert t !in RunningScopes(s.requests);
    if after.requests == s.requests {
      assert Open(after, inputs) == Open(s, inputs);
    } else {
      AskIsWork(s, t, inputs, faults, now);
    }
  }

  /** Preparing the target asks for it: nothing settles it, the cache as read does not answer, the request goes through. */
  ghost predicate Asks(s: State, t: int, inputs: map<int, Payload>, faults: Faults)
    requires t in inputs
  {
    && !Settled(s, t, inputs) && !faults.request
    && (faults.cacheRead || t !in s.cache || s.cache[t].fingerprint != inputs[t])
  }

  /** The pending rows after one prepare: the target's row joins them exactly when the prepare asks for it. */
  lemma PrepareAddsIff(s: State, t: int, inputs: map<int, Payload>, faults: Faults, error: string, now: int)
    requires Quiet(s) && t in inputs
    ensures var (after, r) := PreparedTarget(s, t, inputs[t], faults, error, now);
            PendingScopes(after.requests) == PendingScopes(s.requests) + if Asks(s, t, inputs, faults) then {t} else {}
  {
    var (after, r) := PreparedTarget(s, t, inputs[t], faults, error, now);
    assert t !in RunningScopes(s.requests);
    if Asks(s, t, inputs, faults) {
      assert after == Asked(s, t, inputs[t], faults, now);
      PendingRows(s.requests, t, after.requests[t]);
    } else {
      assert after.requests == s.requests;
    }
  }

  /** No prepare will ask for the target: it is settled, or the cache has it and can be relied on. */
  ghost predicate Covered(s: State, t: int, inputs: map<int, Payload>, cacheReadsFail: bool)
    requires t in inputs
  {
    Settled(s, t, inputs) || (!cacheReadsFail && Available(s, t, inputs))
  }

  /** Cache reads never fail, or the cache holds nothing that is not settled anyway. */
  ghost predicate Steady(s: State, inputs: map<int, Payload>, cacheReadsFail: bool) {
    cacheReadsFail ==> forall t :: t in inputs && Available(s, t, inputs) ==> Settled(s, t, inputs)
  }

  // ----- one worker move -----

  function Scope(w: Worker): Option<int> {
    match w
    case Claimed(scope) => Some(scope)
    case HasBuilt(scope, _) => Some(scope)
    case _ => None
  }

  function HeldScopes(workers: seq<Worker>): set<int> {
    set k | 0 <= k < |workers| && Scope(workers[k]).Some? :: Scope(workers[k]).value
  }

  ghost predicate OneHolder(workers: seq<Worker>) {
    forall j, k {:trigger Scope(workers[j]), Scope(workers[k])} ::
      0 <= j < k < |workers| && Scope(workers[j]).Some? ==> Scope(workers[j]) != Scope(workers[k])
  }

  /** A worker that built a target has stored a layout of the target's input. */
  ghost predicate BuiltRight(s: State, w: Worker, inputs: map<int, Payload>) {
    w.HasBuilt? && w.error == None && w.scope in inputs ==> Stored(s, w.scope, inputs)
  }

  ghost predicate InBatch(s: State, workers: seq<Worker>, inputs: map<int, Payload>) {
    && QueueValid(s)
    && RunningScopes(s.requests) == HeldScopes(workers)
    && OneHolder(workers)
    && forall k :: 0 <= k < |workers| ==> BuiltRight(s, workers[k], inputs)
  }

  function One(w: Worker): nat {
    if w == Idle || w == Done(false) then 0 else 1
  }

  function OnePassed(w: Worker): nat {
    if w == Done(false) then 1 else 0
  }

  function MovesLeft(w: Worker): nat {
    match w
    case Idle => 3
    case Claimed(_) => 2
    case HasBuilt(_, _) => 1
    case Done(_) => 0
  }

  function Total(workers: seq<Worker>, count: Worker -> nat): nat {
    if workers == [] then 0 else Total(workers[..|workers| - 1], count) + count(workers[|workers| - 1])
  }

  lemma {:induction false} TotalUpdate(workers: seq<Worker>, k: nat, w: Worker, count: Worker -> nat)
    requires k < |workers|
    ensures Total(workers[k := w], count) == Total(workers, count) - count(workers[k]) + count(w)
  {
    var n := |workers| - 1;
    if k == n {
      assert workers[k := w][..n] == workers[..n];
    } else {
      TotalUpdate(workers[..n], k, w, count);
      assert workers[k := w][..n] == workers[..n][k := w];
    }
  }

  // What one move of one worker does: to the claims still to come, to the running rows, to the models.

  ghost predicate MeasuresMove(s: State, w: Worker, after: State, next: Worker, inputs: map<int, Payload>) {
    && |PendingScopes(after.requests)| + One(next) == |PendingScopes(s.requests)| + One(w)
    && (OnePassed(next) > OnePassed(w) ==> PendingScopes(after.requests) == {})
    && Work(after, inputs) + One(next) <= Work(s, inputs) + One(w)
    && MovesLeft(next) < MovesLeft(w)
  }

  ghost predicate RunningMoves(s: State, w: Worker, after: State, next: Worker) {
    && QueueValid(after)
    && RunningScopes(after.requests) ==
       (RunningScopes(s.requests) - (if Scope(w).Some? then {Scope(w).value} else {}))
       + (if Scope(next).Some? then {Scope(next).value} else {})
    && (Scope(next).Some? ==> Scope(next) == Scope(w) || Scope(next).value !in RunningScopes(s.requests))
  }

  ghost predicate ModelsMove(s: State, after: State, next: Worker, inputs: map<int, Payload>) {
    && BuiltRight(after, next, inputs)
    && Open(after, inputs) <= Open(s, inputs)
    && (forall t :: t in inputs && Stored(s, t, inputs) ==> Stored(after, t, inputs))
    && (forall t :: t in inputs && Available(s, t, inputs) ==> Available(after, t, inputs))
  }

  ghost predicate MoveOk(s: State, w: Worker, after: State, next: Worker, inputs: map<int, Payload>) {
    MeasuresMove(s, w, after, next, inputs) && RunningMoves(s, w, after, next) && ModelsMove(s, after, next, inputs)
  }

  /** The rows of the queue differ in one row, whose fingerprint stays, and whether it succeeded. */
  lemma OpenUnchanged(s: State, after: State, scope: int, inputs: map<int, Payload>)
    requires after.models == s.models
    requires scope in s.requests && scope in after.requests && after.requests == s.requests[scope := after.requests[scope]]
    requires after.requests[scope].fingerprint == s.requests[scope].fingerprint
    requires after.requests[scope].status == Succeeded ==> scope in inputs ==> Stored(s, scope, inputs)
    requires s.requests[scope].status != Succeeded
    ensures Open(after, inputs) == Open(s, inputs)
  {
    forall t | t in inputs ensures Settled(after, t, inputs) <==> Settled(s, t, inputs) {
      assert t != scope ==> (t in after.requests <==> t in s.requests);
    }
  }

  /** One row is replaced by another with the same id. */
  lemma UpdateKeepsQueue(s: State, scope: int, row: Request)
    requires QueueValid(s) && scope in s.requests && row.id == s.requests[scope].id
    ensures QueueValid(s.(requests := s.requests[scope := row]))
  {
  }

  lemma StartedRows(rows: Requests, scope: int, now: int)
    requires scope in PendingScopes(rows)
    ensures var after := rows[scope := StartedRow(rows[scope], now)];
            PendingScopes(after) == PendingScopes(rows) - {scope} && RunningScopes(after) == RunningScopes(rows) + {scope}
  {
  }

  lemma EndedRows(rows: Requests, scope: int, row: Request)
    requires scope in RunningScopes(rows) && row.status != Running && row.status != Pending
    ensures PendingScopes(rows[scope := row]) == PendingScopes(rows)
    ensures RunningScopes(rows[scope := row]) == RunningScopes(rows) - {scope}
  {
  }

  lemma ClaimRow(s: State, scope: int, now: int, inputs: map<int, Payload>)
    requires QueueValid(s) && scope in PendingScopes(s.requests)
    ensures MoveOk(s, Idle, s.(requests := s.requests[scope := StartedRow(s.requests[scope], now)]), Claimed(scope), inputs)
  {
    var after := s.(requests := s.requests[scope := StartedRow(s.requests[scope], now)]);
    StartedRows(s.requests, scope, now);
    UpdateKeepsQueue(s, scope, StartedRow(s.requests[scope], now));
    OpenUnchanged(s, after, scope, inputs);
    assert scope !in RunningScopes(s.requests);
    assert MeasuresMove(s, Idle, after, Claimed(scope), inputs);
    assert RunningMoves(s, Idle, after, Claimed(scope));
    assert ModelsMove(s, after, Claimed(scope), inputs);
  }

  lemma ClaimNothing(s: State, inputs: map<int, Payload>)
    requires QueueValid(s) && PendingScopes(s.requests) == {}
    ensures MoveOk(s, Idle, s, Done(false), inputs)
  {
  }

  lemma WorkerMoves(s: State, w: Worker, known: bool, model: ReadModel, faults: Faults, error: string, now: int,
                    inputs: map<int, Payload>)
    requires QueueValid(s) && !w.Done? && BuiltRight(s, w, inputs)
    requires Scope(w).Some? ==> Scope(w).value in RunningScopes(s.requests)
    requires w.Claimed? && w.scope in inputs ==> model.fingerprint == inputs[w.scope]
    ensures var (after, next) := WorkerStep(s, w, known, model, faults, error, now); MoveOk(s, w, after, next, inputs)
  {
    match w
    case Idle =>
      NextIsFirst(s.requests);
      if Next(s.requests).Some? {
        ClaimRow(s, Next(s.requests).value, now, inputs);
      } else {
        ClaimNothing(s, inputs);
      }
    case Claimed(scope) =>
      var (after, r) := BuiltAndCached(s, scope, known, model, faults);
      BuildMove(s, scope, if r.Ok? then None else Some(error), inputs, model, after);
    case HasBuilt(scope, failed) => FinishMove(s, scope, failed, now, inputs);
  }

  /** A build touches models and cache of its scope only, and stores the model when it returns. */
  ghost predicate BuildOutcome(s: State, scope: int, model: ReadModel, after: State, ok: bool) {
    && after == s.(models := after.models, cache := after.cache)
    && after.models == (if ok then s.models[scope := model] else s.models)
    && (after.cache == s.cache || after.cache == s.cache[scope := model])
  }

  lemma FewerOpen(s: State, after: State, inputs: map<int, Payload>)
    requires after.requests == s.requests && forall t :: t in inputs && Stored(s, t, inputs) ==> Stored(after, t, inputs)
    ensures Open(after, inputs) <= Open(s, inputs) && |Open(after, inputs)| <= |Open(s, inputs)|
  {
    var less, more := Open(after, inputs), Open(s, inputs);
    forall t | t in less ensures t in more {
    }
    SubsetSize(less, more);
  }

  lemma BuildMove(s: State, scope: int, error: Option<string>, inputs: map<int, Payload>, model: ReadModel, after: State)
    requires QueueValid(s) && scope in RunningScopes(s.requests)
    requires scope in inputs ==> model.fingerprint == inputs[scope]
    requires BuildOutcome(s, scope, model, after, error == None)
    ensures MoveOk(s, Claimed(scope), after, HasBuilt(scope, error), inputs)
  {
    FewerOpen(s, after, inputs);
    assert ModelsMove(s, after, HasBuilt(scope, error), inputs);
    assert RunningScopes(s.requests) == RunningScopes(s.requests) - {scope} + {scope};
  }

  lemma FinishMove(s: State, scope: int, failed: Option<string>, now: int, inputs: map<int, Payload>)
    requires QueueValid(s) && scope in RunningScopes(s.requests) && BuiltRight(s, HasBuilt(scope, failed), inputs)
    ensures var after := s.(requests := if failed == None then Completed(s.requests, scope, now)
                                        else FailedWith(s.requests, scope, failed.value, now));
            MoveOk(s, HasBuilt(scope, failed), after, Done(true), inputs)
  {
    var after := s.(requests := if failed == None then Completed(s.requests, scope, now)
                                else FailedWith(s.requests, scope, failed.value, now));
    EndedRows(s.requests, scope, after.requests[scope]);
    UpdateKeepsQueue(s, scope, after.requests[scope]);
    OpenUnchanged(s, after, scope, inputs);
    assert MeasuresMove(s, HasBuilt(scope, failed), after, Done(true), inputs);
    assert RunningMoves(s, HasBuilt(scope, failed), after, Done(true));
  }

  // ----- a batch -----

  lemma {:induction false} HeldAfter(workers: seq<Worker>, k: nat, next: Worker)
    requires k < |workers| && OneHolder(workers)
    requires Scope(next).Some? ==> Scope(next) == Scope(workers[k]) || Scope(next).value !in HeldScopes(workers)
    ensures OneHolder(workers[k := next])
    ensures HeldScopes(workers[k := next]) ==
            (HeldScopes(workers) - (if Scope(workers[k]).Some? then {Scope(workers[k]).value} else {}))
            + (if Scope(next).Some? then {Scope(next).value} else {})
  {
    var moved := workers[k := next];
    var before, after := HeldScopes(workers), HeldScopes(moved);
    var left := if Scope(workers[k]).Some? then {Scope(workers[k]).value} else {};
    var joined := if Scope(next).Some? then {Scope(next).value} else {};
    var expected := before - left + joined;
    forall x ensures x in after <==> x in expected {
      if x in after {
        var i :| 0 <= i < |moved| && Scope(moved[i]).Some? && Scope(moved[i]).value == x;
        assert i != k ==> Scope(workers[i]).Some?;
      }
      if x in before - left {
        var i :| 0 <= i < |workers| && Scope(workers[i]).Some? && Scope(workers[i]).value == x;
        assert i != k && Scope(moved[i]) == Some(x);
      }
      if x in joined {
        assert Scope(moved[k]) == Some(x);
      }
    }
  }

  lemma BatchMove(s: State, workers: seq<Worker>, k: nat, after: State, next: Worker, inputs: map<int, Payload>)
    requires k < |workers| && InBatch(s, workers, inputs) && MoveOk(s, workers[k], after, next, inputs)
    ensures InBatch(after, workers[k := next], inputs)
  {
    if Scope(workers[k]).Some? {
      assert Scope(workers[k]).value in HeldScopes(workers);
    }
    HeldAfter(workers, k, next);
    var moved := workers[k := next];
    forall i | 0 <= i < |moved| ensures BuiltRight(after, moved[i], inputs) {
      assert BuiltRight(s, workers[i], inputs);
    }
  }

  lemma {:induction false} NothingLeft(workers: seq<Worker>)
    requires forall k :: 0 <= k < |workers| ==> workers[k].Done?
    ensures HeldScopes(workers) == {}
    ensures Total(workers, One) + Total(workers, OnePassed) == |workers|
    ensures Total(workers, One) > 0 <==> Done(true) in workers
  {
    if workers != [] {
      var n := |workers| - 1;
      NothingLeft(workers[..n]);
      assert workers == workers[..n] + [workers[n]];
    }
  }

  lemma {:induction false} AllIdle(workers: seq<Worker>)
    requires forall k :: 0 <= k < |workers| ==> workers[k] == Idle
    ensures HeldScopes(workers) == {} && OneHolder(workers)
    ensures Total(workers, One) == 0 && Total(workers, OnePassed) == 0
  {
    if workers != [] {
      AllIdle(workers[..|workers| - 1]);
    }
  }

  /** The counts of a batch in progress, against the state it started from. */
  ghost predicate Counted(s: State, workers: seq<Worker>, inputs: map<int, Payload>, start: State) {
    && |PendingScopes(s.requests)| + Total(workers, One) == |PendingScopes(start.requests)|
    && Work(s, inputs) + Total(workers, One) <= Work(start, inputs)
    && (Total(workers, OnePassed) > 0 ==> PendingScopes(s.requests) == {})
    && Open(s, inputs) <= Open(start, inputs)
    && (forall t :: t in inputs && Available(start, t, inputs) ==> Available(s, t, inputs))
  }

  lemma CountMove(s: State, workers: seq<Worker>, k: nat, after: State, next: Worker, inputs: map<int, Payload>, start: State)
    requires k < |workers| && Counted(s, workers, inputs, start) && MoveOk(s, workers[k], after, next, inputs)
    requires One(workers[k]) <= One(next) && OnePassed(workers[k]) <= OnePassed(next)
    ensures Counted(after, workers[k := next], inputs, start)
    ensures Total(workers[k := next], MovesLeft) < Total(workers, MovesLeft)
  {
    TotalUpdate(workers, k, next, One);
    TotalUpdate(workers, k, next, OnePassed);
    TotalUpdate(workers, k, next, MovesLeft);
    if Total(workers, OnePassed) > 0 {
      assert PendingScopes(s.requests) == {};
      assert |PendingScopes(after.requests)| == 0;
    }
  }

  /** The work is at most the rows already pending and twice the targets. */
  lemma WorkIsBounded(s: State, inputs: map<int, Payload>)
    ensures Work(s, inputs) <= |PendingScopes(s.requests)| + 2 * |inputs|
  {
    assert |inputs| == |inputs.Keys|;
    SubsetSize(Open(s, inputs), inputs.Keys);
  }
}
