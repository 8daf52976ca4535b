/**
 The layout compute queue: one request row per scope, claimed first in first out, requeued when
 the input changed, and taken back from a worker that has been silent for half an hour.
 */
module ComputeQueue {
  import opened Common
  import opened CardScopeLayout
  import ProjectionServices

  /** `_LAYOUT_COMPUTE_RUNNING_RECOVERY_AFTER`: half an hour in microseconds, the steps of the clock and of stored timestamps. */
  const RECOVERY_AFTER := 1_800_000_000

  const MAX_ERROR_LENGTH := 4096

  datatype Status = Pending | Running | Succeeded | Failed

  datatype Request = Request(
    id: int, fingerprint: Payload, status: Status, attempts: nat, requestedAt: int, claimedAt: Option<int>,
    completedAt: Option<int>, failedAt: Option<int>, lastError: Option<string>)

  /** Rows by scope. */
  type Requests = map<int, Request>

  function NewRequest(id: int, fingerprint: Payload, now: int): Request {
    Request(id, fingerprint, Pending, 0, now, None, None, None, None)
  }

  /** The condition under which a repeated request resets the row. */
  predicate Resets(r: Request, fingerprint: Payload, now: int) {
    && (r.status != Running || r.claimedAt == None || r.claimedAt.value <= now - RECOVERY_AFTER)
    && (r.status != Pending || r.fingerprint != fingerprint)
  }

  /** `request_card_scope_layout_compute` */
  function Requested(rows: Requests, id: int, scope: int, fingerprint: Payload, now: int): Requests {
    if scope !in rows then rows[scope := NewRequest(id, fingerprint, now)]
    else if Resets(rows[scope], fingerprint, now) then rows[scope := NewRequest(rows[scope].id, fingerprint, now)]
    else rows
  }

  predicate Before(a: Request, b: Request) {
    a.requestedAt < b.requestedAt || (a.requestedAt == b.requestedAt && a.id <= b.id)
  }

  function PendingScopes(rows: Requests): set<int> {
    set scope | scope in rows && rows[scope].status == Pending
  }

  ghost predicate IsNext(rows: Requests, scope: int) {
    && scope in PendingScopes(rows)
    && forall other {:trigger rows[other]} :: other in PendingScopes(rows) ==> Before(rows[scope], rows[other])
  }

  /** The pending row that was asked for first. */
  ghost function Next(rows: Requests): Option<int> {
    if Firsts(rows) == {} then None else Some(Pick(Firsts(rows)))
  }

  ghost function Firsts(rows: Requests): set<int> {
    set scope | scope in rows && IsNext(rows, scope)
  }

  function StartedRow(r: Request, now: int): Request {
    r.(status := Running, claimedAt := Some(now), completedAt := None, failedAt := None, lastError := None,
       attempts := r.attempts + 1)
  }

  /** `complete_card_scope_layout_compute`: whatever the row's status or fingerprint by now. */
  function Completed(rows: Requests, scope: int, now: int): Requests {
    if scope !in rows then rows
    else rows[scope := rows[scope].(status := Succeeded, completedAt := Some(now), failedAt := None, lastError := None)]
  }

  /** `fail_card_scope_layout_compute` */
  function FailedWith(rows: Requests, scope: int, error: string, now: int): Requests {
    if scope !in rows then rows
    else rows[scope := rows[scope].(status := Failed, failedAt := Some(now), lastError := Some(First(error, MAX_ERROR_LENGTH)))]
  }

  /**
   After a request its scope is queued under the requested fingerprint, or a worker claimed it less
   than the recovery window ago; a row already queued for that fingerprint keeps its place.
   */
  lemma RequestIsHonoured(rows: Requests, id: int, scope: int, fingerprint: Payload, now: int)
    ensures var after := Requested(rows, id, scope, fingerprint, now);
            && scope in after
            && after == rows[scope := after[scope]]
            && (if after[scope].status == Running
                then scope in rows && after[scope] == rows[scope]
                     && rows[scope].claimedAt.Some? && now - rows[scope].claimedAt.value < RECOVERY_AFTER
                else after[scope].status == Pending && after[scope].fingerprint == fingerprint)
            && (scope in rows && rows[scope].status == Pending && rows[scope].fingerprint == fingerprint ==> after == rows)
            && (after != rows ==> after[scope].requestedAt == now && after[scope].attempts == 0 && after[scope].lastError == None)
  {
  }

  /** What the end of a build leaves to read: its time, and for a failure the error up to its bound; other rows stay. */
  lemma EndIsRecorded(rows: Requests, scope: int, error: string, now: int)
    requires scope in rows
    ensures var done := Completed(rows, scope, now);
            && done.Keys == rows.Keys && done[scope].status == Succeeded && done[scope].completedAt == Some(now) && done[scope].lastError == None
            && done[scope].id == rows[scope].id && done[scope].fingerprint == rows[scope].fingerprint
            && forall other :: other in rows && other != scope ==> done[other] == rows[other]
    ensures var failed := FailedWith(rows, scope, error, now);
            && failed.Keys == rows.Keys && failed[scope].status == Failed && failed[scope].failedAt == Some(now)
            && failed[scope].lastError.Some? && failed[scope].lastError.value <= error
            && |failed[scope].lastError.value| == Least(|error|, MAX_ERROR_LENGTH)
            && failed[scope].id == rows[scope].id && failed[scope].fingerprint == rows[scope].fingerprint
            && forall other :: other in rows && other != scope ==> failed[other] == rows[other]
  {
  }

  ghost predicate DistinctRequests(rows: Requests) {
    forall a, b {:trigger rows[a].id, rows[b].id} :: a in rows && b in rows && rows[a].id == rows[b].id ==> a == b
  }

  lemma {:induction false} SomeFirst(rows: Requests, scopes: set<int>) returns (first: int)
    requires scopes != {} && scopes <= rows.Keys
    ensures first in scopes
    ensures forall other {:trigger rows[other]} :: other in scopes ==> Before(rows[first], rows[other])
  {
    var x := Pick(scopes);
    if scopes == {x} {
      first := x;
    } else {
      var least := SomeFirst(rows, scopes - {x});
      first := if Before(rows[least], rows[x]) then least else x;
      forall other | other in scopes ensures Before(rows[first], rows[other]) {
        assert other == x || other in scopes - {x};
      }
    }
  }

  /** While rows are pending there is a next one, and with distinct row ids only one. */
  lemma NextIsFirst(rows: Requests)
    ensures Next(rows).Some? <==> PendingScopes(rows) != {}
    ensures Next(rows).Some? ==> IsNext(rows, Next(rows).value)
    ensures DistinctRequests(rows) ==> forall scope :: IsNext(rows, scope) ==> Next(rows) == Some(scope)
  {
    if PendingScopes(rows) != {} {
      var first := SomeFirst(rows, PendingScopes(rows));
      assert first in Firsts(rows);
    }
    if DistinctRequests(rows) {
      forall scope | IsNext(rows, scope) ensures Next(rows) == Some(scope) {
        assert scope in Firsts(rows);
        assert rows[scope].id == rows[Next(rows).value].id;
      }
    }
  }

  // ----- the table as the repository writes it -----

  datatype Claim = Claim(scope: int, fingerprint: Payload)

  class RequestTable {
    var rows: Requests
    var nextId: int

    constructor ()
      ensures rows == map[] && nextId == 1
    {
      rows, nextId := map[], 1;
    }

    /** Whether a row was inserted or reset; the id sequence moves on either way. */
    method RequestCompute(scope: int, fingerprint: Payload, now: int) returns (requested: bool)
      modifies this
      ensures rows == Requested(old(rows), old(nextId), scope, fingerprint, now) && nextId == old(nextId) + 1
      ensures requested <==> scope !in old(rows) || Resets(old(rows)[scope], fingerprint, now)
    {
      var id := nextId;
      nextId := nextId + 1;
      if scope !in rows {
        rows := rows[scope := NewRequest(id, fingerprint, now)];
        return true;
      }
      if !Resets(rows[scope], fingerprint, now) {
        return false;
      }
      rows := rows[scope := NewRequest(rows[scope].id, fingerprint, now)];
      return true;
    }

    method ClaimNext(now: int) returns (claim: Option<Claim>)
      requires DistinctRequests(rows)
      modifies this
      ensures nextId == old(nextId)
      ensures match Next(old(rows))
              case None => claim == None && rows == old(rows)
              case Some(scope) =>
                && scope in old(rows)
                && claim == Some(Claim(scope, old(rows)[scope].fingerprint))
                && rows == old(rows)[scope := StartedRow(old(rows)[scope], now)]
    {
      NextIsFirst(rows);
      var waiting := ProjectionServices.Listed(PendingScopes(rows));
      if waiting == [] {
        return None;
      }
      var first := waiting[0];
      for k := 1 to |waiting|
        invariant first in PendingScopes(rows)
        invariant forall i :: 0 <= i < k ==> Before(rows[first], rows[waiting[i]])
      {
        if !Before(rows[first], rows[waiting[k]]) {
          first := waiting[k];
        }
      }
      assert IsNext(rows, first);
      claim := Some(Claim(first, rows[first].fingerprint));
      rows := rows[first := StartedRow(rows[first], now)];
    }

    method Complete(scope: int, now: int)
      modifies this
      ensures rows == Completed(old(rows), scope, now) && nextId == old(nextId)
    {
      if scope in rows {
        rows := rows[scope := rows[scope].(status := Succeeded, completedAt := Some(now), failedAt := None, lastError := None)];
      }
    }

    method Fail(scope: int, error: string, now: int)
      modifies this
      ensures rows == FailedWith(old(rows), scope, error, now) && nextId == old(nextId)
    {
      if scope in rows {
        rows := rows[scope := rows[scope].(status := Failed, failedAt := Some(now), lastError := Some(First(error, MAX_ERROR_LENGTH)))];
      }
    }
  }

  // ----- every run -----

  /** A worker that has claimed a scope and neither finished nor died. */
  datatype Hold = Hold(scope: int, since: int)

  datatype System = System(now: int, rows: Requests, nextId: int, live: map<int, Hold>, nextWorker: int)

  datatype Event =
    | Pass(ticks: nat)
    | Ask(scope: int, fingerprint: Payload)
    | Take
    | Finish(worker: int)
    | GiveUp(worker: int, error: string)
    | Die(worker: int)

  ghost function Apply(s: System, e: Event): System {
    match e
    case Pass(ticks) => s.(now := s.now + ticks)
    case Ask(scope, fingerprint) => s.(rows := Requested(s.rows, s.nextId, scope, fingerprint, s.now), nextId := s.nextId + 1)
    case Take =>
      NextIsFirst(s.rows);
      (match Next(s.rows)
       case None => s
       case Some(scope) =>
         s.(rows := s.rows[scope := StartedRow(s.rows[scope], s.now)],
            live := s.live[s.nextWorker := Hold(scope, s.now)], nextWorker := s.nextWorker + 1))
    case Finish(w) =>
      if w !in s.live then s else s.(rows := Completed(s.rows, s.live[w].scope, s.now), live := s.live - {w})
    case GiveUp(w, error) =>
      if w !in s.live then s else s.(rows := FailedWith(s.rows, s.live[w].scope, error, s.now), live := s.live - {w})
    case Die(w) => s.(live := s.live - {w})
  }

  ghost function Run(s: System, events: seq<Event>): System {
    if events == [] then s else Apply(Run(s, events[..|events| - 1]), events[|events| - 1])
  }

  /** A pending row was never attempted; a running one exactly once, and says since when. */
  predicate Shaped(r: Request) {
    match r.status
    case Pending => r.attempts == 0 && r.claimedAt == None && r.completedAt == None && r.failedAt == None && r.lastError == None
    case Running => r.attempts == 1 && r.claimedAt.Some? && r.completedAt == None && r.failedAt == None && r.lastError == None
    case Succeeded => r.attempts <= 1 && r.completedAt.Some? && r.failedAt == None && r.lastError == None
    case Failed => r.attempts <= 1 && r.failedAt.Some? && r.lastError.Some? && |r.lastError.value| <= MAX_ERROR_LENGTH
  }

  ghost predicate WellFormed(s: System) {
    && (forall scope {:trigger s.rows[scope]} :: scope in s.rows ==> Shaped(s.rows[scope]) && s.rows[scope].id < s.nextId)
    && DistinctRequests(s.rows)
    && (forall w {:trigger s.live[w]} :: w in s.live ==> w < s.nextWorker && s.live[w].scope in s.rows)
  }

  lemma ApplyKeepsWellFormed(s: System, e: Event)
    requires WellFormed(s)
    ensures WellFormed(Apply(s, e))
  {
    match e
    case Ask(scope, fingerprint) => AskKeepsRows(s, scope, fingerprint);
    case Take => TakeKeepsRows(s);
    case _ =>
  }

  lemma AskKeepsRows(s: System, scope: int, fingerprint: Payload)
    requires WellFormed(s)
    ensures WellFormed(Apply(s, Ask(scope, fingerprint)))
  {
  }

  lemma TakeKeepsRows(s: System)
    requires WellFormed(s)
    ensures WellFormed(Apply(s, Take))
  {
    NextIsFirst(s.rows);
  }

  /** In every run, whatever workers do, all rows keep their shape. */
  lemma {:induction false} RowsKeepShape(s: System, events: seq<Event>)
    requires WellFormed(s)
    ensures WellFormed(Run(s, events))
  {
    if events != [] {
      var front := events[..|events| - 1];
      RowsKeepShape(s, front);
      ApplyKeepsWellFormed(Run(s, front), events[|events| - 1]);
    }
  }

  /** Every live worker still owns its row, and no other live worker does. */
  ghost predicate Exclusive(s: System) {
    && (forall w {:trigger s.live[w]} :: w in s.live ==>
          var hold := s.live[w];
          && hold.scope in s.rows && s.rows[hold.scope].status == Running
          && s.rows[hold.scope].claimedAt == Some(hold.since))
    && (forall v, w {:trigger s.live[v], s.live[w]} ::
          v in s.live && w in s.live && s.live[v].scope == s.live[w].scope ==> v == w)
  }

  ghost predicate Overdue(s: System, w: int) {
    w in s.live && s.now - s.live[w].since >= RECOVERY_AFTER
  }

  ghost predicate Timely(s: System) {
    forall w :: !Overdue(s, w)
  }

  /** No live worker is overdue at any moment of the run. */
  ghost predicate TimelyRun(s: System, events: seq<Event>) {
    Timely(Run(s, events)) && (events == [] || TimelyRun(s, events[..|events| - 1]))
  }

  lemma ApplyKeepsExclusive(s: System, e: Event)
    requires WellFormed(s) && Exclusive(s) && Timely(s)
    ensures Exclusive(Apply(s, e))
  {
    match e
    case Ask(scope, fingerprint) => AskKeepsExclusive(s, scope, fingerprint);
    case Take => TakeKeepsExclusive(s);
    case _ =>
  }

  lemma AskKeepsExclusive(s: System, scope: int, fingerprint: Payload)
    requires WellFormed(s) && Exclusive(s) && Timely(s)
    ensures Exclusive(Apply(s, Ask(scope, fingerprint)))
  {
    forall w | w in s.live && s.live[w].scope == scope
      ensures Requested(s.rows, s.nextId, scope, fingerprint, s.now) == s.rows
    {
      assert !Overdue(s, w);
    }
  }

  lemma TakeKeepsExclusive(s: System)
    requires WellFormed(s) && Exclusive(s)
    ensures Exclusive(Apply(s, Take))
  {
    NextIsFirst(s.rows);
  }

  /** If every worker finishes or dies within the recovery window, no scope ever has two of them. */
  lemma {:induction false} TimelyRunsAreExclusive(s: System, events: seq<Event>)
    requires WellFormed(s) && Exclusive(s) && TimelyRun(s, events)
    ensures Exclusive(Run(s, events))
  {
    if events != [] {
      var front := events[..|events| - 1];
      TimelyRunsAreExclusive(s, front);
      RowsKeepShape(s, front);
      TimelyAtEnd(s, front);
      ApplyKeepsExclusive(Run(s, front), events[|events| - 1]);
    }
  }

  lemma TimelyAtEnd(s: System, events: seq<Event>)
    requires TimelyRun(s, events)
    ensures Timely(Run(s, events))
  {
  }

  // ----- the window is exactly what exclusion needs -----

  lemma {:induction false} RunConcat(s: System, first: seq<Event>, second: seq<Event>)
    ensures Run(s, first + second) == Run(Run(s, first), second)
  {
    if second == [] {
      assert first + second == first;
    } else {
      var n := |second| - 1;
      RunConcat(s, first, second[..n]);
      assert (first + second)[..|first| + n] == first + second[..n];
    }
  }

  lemma RunOne(s: System, e: Event)
    ensures Run(s, [e]) == Apply(s, e)
  {
    assert [e][..0] == [];
    assert Run(s, []) == s;
  }

  ghost predicate Still(events: seq<Event>) {
    forall k :: 0 <= k < |events| ==> !events[k].Pass?
  }

  /** Claims go on until the scope is claimed again, beside the worker that already holds it. */
  lemma {:induction false} TakenAgain(s: System, scope: int, w: int) returns (events: seq<Event>)
    requires WellFormed(s) && scope in PendingScopes(s.rows)
    requires w in s.live && s.live[w].scope == scope
    ensures Still(events) && !Exclusive(Run(s, events))
    decreases PendingScopes(s.rows)
  {
    NextIsFirst(s.rows);
    var next := Apply(s, Take);
    ApplyKeepsWellFormed(s, Take);
    RunOne(s, Take);
    if Next(s.rows) == Some(scope) {
      events := [Take];
      assert next.live[s.nextWorker].scope == next.live[w].scope;
    } else {
      OneLessPending(s.rows, Next(s.rows).value, s.now);
      var rest := TakenAgain(next, scope, w);
      RunConcat(s, [Take], rest);
      events := [Take] + rest;
    }
  }

  lemma OneLessPending(rows: Requests, scope: int, now: int)
    requires scope in PendingScopes(rows)
    ensures PendingScopes(rows[scope := StartedRow(rows[scope], now)]) == PendingScopes(rows) - {scope}
  {
  }

  lemma OverdueBreaks(s: System, w: int) returns (events: seq<Event>)
    requires WellFormed(s) && Exclusive(s) && Overdue(s, w)
    ensures Still(events) && !Exclusive(Run(s, events))
  {
    var ask := Ask(s.live[w].scope, Payload([], []));
    ApplyKeepsWellFormed(s, ask);
    RunOne(s, ask);
    var rest := TakenAgain(Apply(s, ask), s.live[w].scope, w);
    RunConcat(s, [ask], rest);
    events := [ask] + rest;
  }

  lemma {:induction false} StillStaysTimely(s: System, events: seq<Event>)
    requires WellFormed(s) && Timely(s) && Still(events)
    ensures TimelyRun(s, events) && Run(s, events).now == s.now
  {
    if events != [] {
      var front := events[..|events| - 1];
      StillStaysTimely(s, front);
      RowsKeepShape(s, front);
      var before := Run(s, front);
      NextIsFirst(before.rows);
      TimelyAtEnd(s, front);
      var after := Apply(before, events[|events| - 1]);
      forall w ensures !Overdue(after, w) {
        assert !Overdue(before, w);
      }
    }
  }

  /**
   With the clock at rest, exclusion survives every sequence of queue calls if and only if no
   live worker has reached the end of the recovery window.
   */
  lemma WindowIsExact(s: System)
    requires WellFormed(s) && Exclusive(s)
    ensures Timely(s) <==> forall events {:trigger Run(s, events)} :: Still(events) ==> Exclusive(Run(s, events))
  {
    if Timely(s) {
      forall events | Still(events) ensures Exclusive(Run(s, events)) {
        StillStaysTimely(s, events);
        TimelyRunsAreExclusive(s, events);
      }
    } else {
      var w :| w in s.live && Overdue(s, w);
      var events := OverdueBreaks(s, w);
    }
  }

  // ----- first in, first out -----

  /** The pending rows that will be claimed before this one. */
  ghost function Ahead(rows: Requests, scope: int): set<int>
    requires scope in rows
  {
    set other | other in PendingScopes(rows) && other != scope && Before(rows[other], rows[scope])
  }

  /** A row with a smaller id is reset at the very timestamp at which the row was asked for; it was not ahead already. */
  ghost predicate Overtakes(s: System, e: Event, scope: int)
    requires scope in s.rows
  {
    && e.Ask? && e.scope in s.rows && e.scope !in Ahead(s.rows, scope)
    && Resets(s.rows[e.scope], e.fingerprint, s.now)
    && s.rows[e.scope].id < s.rows[scope].id && s.rows[scope].requestedAt == s.now
  }

  /**
   While a row waits, a call puts another row ahead of it exactly when the call overtakes it, and
   then that row alone; every claim takes one row from ahead of it.
   */
  lemma OvertakenIff(s: System, e: Event, scope: int)
    requires WellFormed(s) && scope in PendingScopes(s.rows) && s.rows[scope].requestedAt <= s.now
    requires var after := Apply(s, e).rows; scope in after && after[scope] == s.rows[scope]
    ensures Ahead(Apply(s, e).rows, scope) <= Ahead(s.rows, scope) <==> !Overtakes(s, e, scope)
    ensures Overtakes(s, e, scope) ==> Ahead(Apply(s, e).rows, scope) == Ahead(s.rows, scope) + {e.scope}
    ensures e.Take? ==> |Ahead(Apply(s, e).rows, scope)| == |Ahead(s.rows, scope)| - 1
  {
    NextIsFirst(s.rows);
    if e.Take? {
      var taken := Next(s.rows).value;
      var ahead := Ahead(s.rows, scope);
      assert taken != scope && taken in ahead;
      assert Ahead(Apply(s, e).rows, scope) == ahead - {taken};
    }
    if e.Ask? {
      AskMoves(s, e.scope, e.fingerprint, scope);
    }
  }

  lemma AskMoves(s: System, asked: int, fingerprint: Payload, scope: int)
    requires WellFormed(s) && scope in PendingScopes(s.rows) && s.rows[scope].requestedAt <= s.now
    requires Requested(s.rows, s.nextId, asked, fingerprint, s.now)[scope] == s.rows[scope]
    ensures var after := Requested(s.rows, s.nextId, asked, fingerprint, s.now);
            && (forall other {:trigger other in Ahead(after, scope)} :: other != asked ==> (other in Ahead(after, scope) <==> other in Ahead(s.rows, scope)))
            && (asked !in Ahead(s.rows, scope) ==>
                  (asked in Ahead(after, scope) <==> Overtakes(s, Ask(asked, fingerprint), scope)))
  {
  }

  ghost function Claims(events: seq<Event>): nat {
    if events == [] then 0 else Claims(events[..|events| - 1]) + if events[|events| - 1].Take? then 1 else 0
  }

  /** The row is left as it is throughout the run. */
  ghost predicate Waits(s: System, events: seq<Event>, scope: int) {
    && scope in Run(s, events).rows && scope in s.rows && Run(s, events).rows[scope] == s.rows[scope]
    && (events == [] || Waits(s, events[..|events| - 1], scope))
  }

  lemma {:induction false} ClockRuns(s: System, events: seq<Event>)
    ensures Run(s, events).now >= s.now
  {
    if events != [] {
      ClockRuns(s, events[..|events| - 1]);
    }
  }

  ghost function Overtakings(s: System, events: seq<Event>, scope: int): nat
    requires Waits(s, events, scope)
  {
    if events == [] then 0
    else
      var front := events[..|events| - 1];
      Overtakings(s, front, scope) + if Overtakes(Run(s, front), events[|events| - 1], scope) then 1 else 0
  }

  /** While a row waits, at most as many claims go by as rows were ahead of it or have overtaken it. */
  lemma {:induction false} WaitIsBounded(s: System, events: seq<Event>, scope: int)
    requires WellFormed(s) && scope in PendingScopes(s.rows) && s.rows[scope].requestedAt <= s.now
    requires Waits(s, events, scope)
    ensures Claims(events) + |Ahead(Run(s, events).rows, scope)| <= |Ahead(s.rows, scope)| + Overtakings(s, events, scope)
  {
    if events != [] {
      var front, e := events[..|events| - 1], events[|events| - 1];
      WaitIsBounded(s, front, scope);
      RowsKeepShape(s, front);
      ClockRuns(s, front);
      OvertakenIff(Run(s, front), e, scope);
      if !Overtakes(Run(s, front), e, scope) {
        SubsetSize(Ahead(Run(s, events).rows, scope), Ahead(Run(s, front).rows, scope));
      }
    }
  }

  /** Once the clock has moved on, nothing overtakes a waiting row: the rows then ahead of it bound the claims. */
  lemma {:induction false} NothingOvertakesLater(s: System, events: seq<Event>, scope: int)
    requires Waits(s, events, scope) && s.rows[scope].requestedAt < s.now
    ensures Overtakings(s, events, scope) == 0
  {
    if events != [] {
      NothingOvertakesLater(s, events[..|events| - 1], scope);
      ClockRuns(s, events[..|events| - 1]);
    }
  }

  // ----- in runs from an empty queue -----

  /** No row is asked for in the future. */
  ghost predicate AskedByNow(s: System) {
    forall scope {:trigger s.rows[scope]} :: scope in s.rows ==> s.rows[scope].requestedAt <= s.now
  }

  lemma {:induction false} RunAsksByNow(s: System, events: seq<Event>)
    requires AskedByNow(s)
    ensures AskedByNow(Run(s, events))
  {
    if events != [] {
      RunAsksByNow(s, events[..|events| - 1]);
      NextIsFirst(Run(s, events[..|events| - 1]).rows);
    }
  }

  function EmptySystem(now: int): System {
    System(now, map[], 1, map[], 1)
  }

  /**
   Whatever happened since the queue was empty, a row pending now sees at most as many claims go by
   as rows are ahead of it or overtake it, and nothing overtakes it unless it was asked for at this
   very timestamp.
   */
  lemma EveryWaitIsBounded(start: int, history: seq<Event>, events: seq<Event>, scope: int)
    requires var s := Run(EmptySystem(start), history); scope in PendingScopes(s.rows) && Waits(s, events, scope)
    ensures var s := Run(EmptySystem(start), history);
            && Claims(events) + |Ahead(Run(s, events).rows, scope)| <= |Ahead(s.rows, scope)| + Overtakings(s, events, scope)
            && s.rows[scope].requestedAt <= s.now
            && (s.rows[scope].requestedAt < s.now ==> Claims(events) <= |Ahead(s.rows, scope)|)
  {
    var s := Run(EmptySystem(start), history);
    RowsKeepShape(EmptySystem(start), history);
    RunAsksByNow(EmptySystem(start), history);
    WaitIsBounded(s, events, scope);
    if s.rows[scope].requestedAt < s.now {
      NothingOvertakesLater(s, events, scope);
    }
  }

  // ----- within one timestamp -----

  /** Two rows asked for at one timestamp; `laps` workers and requests have come and gone since. */
  function TwoRows(now: int, payload: Payload, laps: nat): System {
    System(now, map[1 := NewRequest(1, payload, now), 2 := NewRequest(2, payload, now)], 3 + laps, map[], 1 + laps)
  }

  /** The older row is claimed, finished, and asked for anew. */
  function Lap(worker: int, payload: Payload): seq<Event> {
    [Take, Finish(worker), Ask(1, payload)]
  }

  function Laps(n: nat, payload: Payload): seq<Event> {
    if n == 0 then [] else Laps(n - 1, payload) + Lap(n, payload)
  }

  lemma OneLap(now: int, payload: Payload, laps: nat, next: nat)
    requires next == laps + 1
    ensures var s := TwoRows(now, payload, laps);
            Run(s, Lap(next, payload)) == TwoRows(now, payload, next) && Waits(s, Lap(next, payload), 2) && Claims(Lap(next, payload)) == 1
  {
    var s, lap := TwoRows(now, payload, laps), Lap(next, payload);
    NextIsFirst(s.rows);
    assert IsNext(s.rows, 1);
    assert lap[..2][..1] == [Take] && lap[..2][..1][..0] == [];
    assert Waits(s, [], 2);
    var taken := Run(s, lap[..2][..1]);
    assert taken == Apply(s, Take);
    assert taken.rows == s.rows[1 := StartedRow(s.rows[1], now)] && taken.live == map[next := Hold(1, now)];
    assert Waits(s, lap[..2][..1], 2) && Claims(lap[..2][..1]) == 1;
    assert Run(s, lap[..2]) == Apply(taken, Finish(next));
    assert Waits(s, lap[..2], 2) && Claims(lap[..2]) == 1;
  }

  lemma {:induction false} WaitsConcat(s: System, first: seq<Event>, second: seq<Event>, scope: int)
    requires Waits(s, first, scope) && Waits(Run(s, first), second, scope)
    ensures Waits(s, first + second, scope) && Claims(first + second) == Claims(first) + Claims(second)
  {
    RunConcat(s, first, second);
    if second == [] {
      assert first + second == first;
    } else {
      var n := |second| - 1;
      WaitsConcat(s, first, second[..n], scope);
      assert (first + second)[..|first| + n] == first + second[..n];
    }
  }

  /**
   Within one timestamp the bound grows with the overtakings: the younger row waits through any
   number of claims while the older one, served and asked for anew, is ahead again each time.
   */
  lemma {:induction false} ServedRowOvertakesAgain(now: int, payload: Payload, n: nat)
    ensures var s, laps := Run(EmptySystem(now), [Ask(1, payload), Ask(2, payload)]), Laps(n, payload);
            && s == TwoRows(now, payload, 0) && 2 in PendingScopes(s.rows)
            && Waits(s, laps, 2) && Claims(laps) == n && Run(s, laps) == TwoRows(now, payload, n)
            && Ahead(Run(s, laps).rows, 2) == {1}
  {
    var asks := [Ask(1, payload), Ask(2, payload)];
    assert asks[..1] == [Ask(1, payload)] && asks[..1][..0] == [];
    assert Run(EmptySystem(now), asks[..1]).rows == map[1 := NewRequest(1, payload, now)];
    if n > 0 {
      ServedRowOvertakesAgain(now, payload, n - 1);
      OneLap(now, payload, n - 1, n);
      WaitsConcat(TwoRows(now, payload, 0), Laps(n - 1, payload), Lap(n, payload), 2);
      RunConcat(TwoRows(now, payload, 0), Laps(n - 1, payload), Lap(n, payload));
    }
  }
}
