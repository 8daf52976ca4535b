/**
 Batches of workers, prepare passes and whole rounds of the precompute run as functions of what
 happens in them, and the exact condition for a round to lower the number of pending rows.
 */
module PrecomputeRounds {
  import opened Common
  import opened CardScopeLayout
  import opened ComputeQueue
  import opened LayoutServing
  import opened LayoutService
  import opened PrecomputeSteps

  // ----- the rows first in the queue -----

  /** The rows the next claims take. */
  ghost function FirstRows(rows: Requests, n: nat): set<int> {
    if n == 0 || Next(rows) == None then {}
    else var first := Next(rows).value; {first} + FirstRows(rows - {first}, n - 1)
  }

  /** Every other pending row was asked for before these. */
  ghost predicate Leads(rows: Requests, rest: set<int>) {
    && rest <= PendingScopes(rows)
    && forall c, p {:trigger rows[c], rows[p]} :: c in PendingScopes(rows) - rest && p in rest ==> Before(rows[c], rows[p])
  }

  /** The same, said of the rows in front. */
  ghost predicate Front(rows: Requests, lead: set<int>) {
    && lead <= PendingScopes(rows)
    && forall c, p {:trigger rows[c], rows[p]} :: c in lead && p in PendingScopes(rows) && p !in lead ==> Before(rows[c], rows[p])
  }

  lemma LeadsFront(rows: Requests, rest: set<int>, lead: set<int>)
    requires Leads(rows, rest) && lead == PendingScopes(rows) - rest
    ensures Front(rows, lead)
  {
  }

  lemma {:induction false} FrontIsFirst(rows: Requests, lead: set<int>, n: nat)
    requires DistinctRequests(rows) && Front(rows, lead) && |lead| == n
    ensures lead == FirstRows(rows, n)
  {
    if n > 0 {
      var first := FrontHasNext(rows, lead);
      FrontWithout(rows, lead, first);
      SplitOff(lead, {first});
      FrontIsFirst(rows - {first}, lead - {first}, n - 1);
      FirstRowsNext(rows, first, n - 1, n);
      PutBack(lead, first);
    }
  }

  lemma FrontTie(rows: Requests, lead: set<int>, first: int, some: int)
    requires Front(rows, lead) && some in lead && first in PendingScopes(rows) && Before(rows[first], rows[some])
    ensures first in lead || rows[first].id == rows[some].id
  {
    BothBefore(rows[first], rows[some]);
    if first !in lead {
      assert Before(rows[some], rows[first]);
    }
  }

  lemma FrontHasNext(rows: Requests, lead: set<int>) returns (first: int)
    requires DistinctRequests(rows) && Front(rows, lead) && lead != {}
    ensures Next(rows) == Some(first) && first in lead && first in rows
  {
    var some := Pick(lead);
    NextIsFirst(rows);
    assert some in PendingScopes(rows);
    first := Next(rows).value;
    assert IsNext(rows, first);
    FrontTie(rows, lead, first, some);
  }

  lemma FrontWithout(rows: Requests, lead: set<int>, first: int)
    requires DistinctRequests(rows) && Front(rows, lead) && first in lead
    ensures DistinctRequests(rows - {first}) && Front(rows - {first}, lead - {first})
  {
    var less := rows - {first};
    assert PendingScopes(less) == PendingScopes(rows) - {first};
    forall c, p | c in lead - {first} && p in PendingScopes(less) && p !in lead - {first} ensures Before(less[c], less[p]) {
      assert Before(rows[c], rows[p]);
    }
  }

  lemma BothBefore(a: Request, b: Request)
    requires Before(a, b)
    ensures Before(b, a) ==> a.id == b.id
  {
  }

  lemma FirstRowsNext(rows: Requests, first: int, n: nat, next: nat)
    requires Next(rows) == Some(first) && next == n + 1
    ensures FirstRows(rows, next) == {first} + FirstRows(rows - {first}, n)
  {
  }

  lemma PutBack(s: set<int>, x: int)
    requires x in s
    ensures s == {x} + (s - {x})
  {
  }

  // ----- a batch -----

  /** One transaction of one worker, and what goes wrong in it. */
  datatype Turn = Turn(worker: nat, known: bool, model: ReadModel, faults: Faults, error: string, now: int)

  datatype Crew = Crew(state: State, workers: seq<Worker>)

  function IdleCrew(s: State, workers: nat): Crew {
    Crew(s, seq(workers, i => Idle))
  }

  /** A worker takes a turn until it is done, and builds from the tables as they are. */
  ghost predicate MayTurn(c: Crew, turn: Turn, inputs: map<int, Payload>) {
    && turn.worker < |c.workers| && !c.workers[turn.worker].Done?
    && (c.workers[turn.worker].Claimed? && c.workers[turn.worker].scope in inputs ==>
          turn.model.fingerprint == inputs[c.workers[turn.worker].scope])
  }

  ghost function Turned(c: Crew, turn: Turn): Crew
    requires turn.worker < |c.workers|
  {
    var (after, next) := WorkerStep(c.state, c.workers[turn.worker], turn.known, turn.model, turn.faults, turn.error, turn.now);
    Crew(after, c.workers[turn.worker := next])
  }

  /** The workers' transactions, in the order they happen to run. */
  ghost function Batch(c: Crew, turns: seq<Turn>): Crew {
    if turns == [] then c
    else
      var before := Batch(c, turns[..|turns| - 1]);
      var last := turns[|turns| - 1];
      if last.worker < |before.workers| then Turned(before, last) else before
  }

  ghost predicate BatchRuns(c: Crew, turns: seq<Turn>, inputs: map<int, Payload>) {
    turns == [] || (BatchRuns(c, turns[..|turns| - 1], inputs) && MayTurn(Batch(c, turns[..|turns| - 1]), turns[|turns| - 1], inputs))
  }

  lemma OneTurnMore(c: Crew, turns: seq<Turn>, turn: Turn, inputs: map<int, Payload>)
    requires BatchRuns(c, turns, inputs) && MayTurn(Batch(c, turns), turn, inputs)
    ensures BatchRuns(c, turns + [turn], inputs) && Batch(c, turns + [turn]) == Turned(Batch(c, turns), turn)
  {
    assert (turns + [turn])[..|turns|] == turns;
  }

  predicate AllDone(workers: seq<Worker>) {
    forall k :: 0 <= k < |workers| ==> workers[k].Done?
  }

  /** Between the two states rows were claimed from the head of the queue only. */
  ghost predicate Takes(start: State, s: State) {
    && Leads(start.requests, PendingScopes(s.requests))
    && forall t {:trigger s.requests[t]} :: t in PendingScopes(s.requests) ==> s.requests[t] == start.requests[t]
  }

  lemma TurnTakes(start: State, s: State, w: Worker, turn: Turn)
    requires Takes(start, s) && !w.Done?
    requires Scope(w).Some? ==> Scope(w).value in RunningScopes(s.requests)
    ensures Takes(start, WorkerStep(s, w, turn.known, turn.model, turn.faults, turn.error, turn.now).0)
  {
    match w
    case Idle =>
      NextIsFirst(s.requests);
      if Next(s.requests).Some? {
        ClaimTakes(start, s, Next(s.requests).value, turn.now);
      }
    case Claimed(scope) =>
    case HasBuilt(scope, failed) =>
      var after := WorkerStep(s, w, turn.known, turn.model, turn.faults, turn.error, turn.now).0;
      EndedRows(s.requests, scope, after.requests[scope]);
      assert forall t :: t in PendingScopes(after.requests) ==> t != scope;
  }

  lemma ClaimTakes(start: State, s: State, first: int, now: int)
    requires Takes(start, s) && IsNext(s.requests, first)
    ensures Takes(start, s.(requests := s.requests[first := StartedRow(s.requests[first], now)]))
  {
    var after := s.(requests := s.requests[first := StartedRow(s.requests[first], now)]);
    StartedRows(s.requests, first, now);
    var rest := PendingScopes(after.requests);
    forall c, p | c in PendingScopes(start.requests) - rest && p in rest ensures Before(start.requests[c], start.requests[p]) {
      assert s.requests[p] == start.requests[p];
      if c == first {
        assert s.requests[c] == start.requests[c] && Before(s.requests[first], s.requests[p]);
      }
    }
  }

  ghost predicate CrewRight(c: Crew, start: State, inputs: map<int, Payload>) {
    QueueValid(start) && InBatch(c.state, c.workers, inputs) && Counted(c.state, c.workers, inputs, start) && Takes(start, c.state)
  }

  lemma TurnKeeps(c: Crew, turn: Turn, start: State, inputs: map<int, Payload>)
    requires CrewRight(c, start, inputs) && MayTurn(c, turn, inputs)
    ensures CrewRight(Turned(c, turn), start, inputs)
    ensures |Turned(c, turn).workers| == |c.workers| && Total(Turned(c, turn).workers, MovesLeft) < Total(c.workers, MovesLeft)
  {
    var k, w := turn.worker, c.workers[turn.worker];
    var (after, next) := WorkerStep(c.state, w, turn.known, turn.model, turn.faults, turn.error, turn.now);
    assert BuiltRight(c.state, w, inputs);
    assert Scope(w).Some? ==> Scope(w).value in HeldScopes(c.workers);
    WorkerMoves(c.state, w, turn.known, turn.model, turn.faults, turn.error, turn.now, inputs);
    BatchMove(c.state, c.workers, k, after, next, inputs);
    CountMove(c.state, c.workers, k, after, next, inputs, start);
    TurnTakes(start, c.state, w, turn);
  }

  lemma CrewStarts(start: State, workers: nat, inputs: map<int, Payload>)
    requires Quiet(start)
    ensures CrewRight(IdleCrew(start, workers), start, inputs)
  {
    AllIdle(IdleCrew(start, workers).workers);
  }

  lemma {:induction false} BatchKeeps(start: State, workers: nat, turns: seq<Turn>, inputs: map<int, Payload>)
    requires Quiet(start) && BatchRuns(IdleCrew(start, workers), turns, inputs)
    ensures var c := Batch(IdleCrew(start, workers), turns); |c.workers| == workers && CrewRight(c, start, inputs)
  {
    if turns == [] {
      CrewStarts(start, workers, inputs);
    } else {
      var front := turns[..|turns| - 1];
      BatchKeeps(start, workers, front, inputs);
      TurnKeeps(Batch(IdleCrew(start, workers), front), turns[|turns| - 1], start, inputs);
    }
  }

  /** A batch whose workers are all done. */
  ghost predicate BatchEnds(start: State, workers: nat, turns: seq<Turn>, inputs: map<int, Payload>) {
    BatchRuns(IdleCrew(start, workers), turns, inputs) && AllDone(Batch(IdleCrew(start, workers), turns).workers)
  }

  ghost function Drained(start: State, workers: nat, turns: seq<Turn>): State {
    Batch(IdleCrew(start, workers), turns).state
  }

  /** How many rows a batch claims. */
  function BatchSize(start: State, workers: nat): nat {
    Least(workers, |PendingScopes(start.requests)|)
  }

  /**
   Whatever the order and the failures, a batch claims and ends the first rows of the queue, as many
   as there are workers or all of them; it opens no target and loses no layout.
   */
  lemma BatchTakesFirst(start: State, workers: nat, turns: seq<Turn>, inputs: map<int, Payload>)
    requires Quiet(start) && BatchEnds(start, workers, turns, inputs)
    ensures BatchLeaves(start, Drained(start, workers, turns), BatchSize(start, workers), inputs)
    ensures Done(true) in Batch(IdleCrew(start, workers), turns).workers <==> BatchSize(start, workers) > 0
  {
    BatchKeeps(start, workers, turns, inputs);
    DoneCrew(start, workers, Batch(IdleCrew(start, workers), turns), inputs);
  }

  lemma DoneCrew(start: State, workers: nat, c: Crew, inputs: map<int, Payload>)
    requires CrewRight(c, start, inputs) && AllDone(c.workers) && |c.workers| == workers
    ensures BatchLeaves(start, c.state, BatchSize(start, workers), inputs)
    ensures Done(true) in c.workers <==> BatchSize(start, workers) > 0
  {
    NothingLeft(c.workers);
    var waiting, left := PendingScopes(start.requests), PendingScopes(c.state.requests);
    SplitOff(waiting, left);
    assert |waiting - left| == BatchSize(start, workers);
    FirstTaken(start, c.state);
  }

  lemma FirstTaken(start: State, s: State)
    requires QueueValid(start) && Takes(start, s)
    ensures var taken := PendingScopes(start.requests) - PendingScopes(s.requests); taken == FirstRows(start.requests, |taken|)
  {
    var taken := PendingScopes(start.requests) - PendingScopes(s.requests);
    LeadsFront(start.requests, PendingScopes(s.requests), taken);
    FrontIsFirst(start.requests, taken, |taken|);
  }

  ghost predicate BatchLeaves(start: State, s: State, claims: nat, inputs: map<int, Payload>) {
    var first := FirstRows(start.requests, claims);
    && Quiet(s)
    && |first| == claims && first <= PendingScopes(start.requests)
    && PendingScopes(s.requests) == PendingScopes(start.requests) - first
    && Work(s, inputs) + claims <= Work(start, inputs)
    && Open(s, inputs) <= Open(start, inputs)
    && (forall t :: t in inputs && Available(start, t, inputs) ==> Available(s, t, inputs))
  }

  lemma SplitOff(all: set<int>, part: set<int>)
    requires part <= all
    ensures |all - part| == |all| - |part| && part == all - (all - part)
  {
    assert all == (all - part) + part;
  }

  // ----- a prepare pass -----

  /** What goes wrong, and when it happens, as one target is prepared. */
  datatype Moment = Moment(faults: Faults, error: string, now: int)

  ghost predicate AreTargets(targets: seq<int>, inputs: map<int, Payload>) {
    forall k :: 0 <= k < |targets| ==> targets[k] in inputs
  }

  ghost predicate Allowed(moments: seq<Moment>, cacheReadsFail: bool) {
    forall k :: 0 <= k < |moments| ==> moments[k].faults.cacheRead ==> cacheReadsFail
  }

  function PreparedAt(s: State, t: int, inputs: map<int, Payload>, m: Moment): (State, Prepared)
    requires t in inputs
  {
    PreparedTarget(s, t, inputs[t], m.faults, m.error, m.now)
  }

  /** The pass over as many targets as there are moments. */
  ghost function Passed(s: State, targets: seq<int>, inputs: map<int, Payload>, moments: seq<Moment>): State
    requires |moments| <= |targets| && AreTargets(targets, inputs)
  {
    if moments == [] then s
    else
      var k := |moments| - 1;
      PreparedAt(Passed(s, targets, inputs, moments[..k]), targets[k], inputs, moments[k]).0
  }

  function If(asks: bool, t: int): set<int> {
    if asks then {t} else {}
  }

  /** The targets a pass asks for, read off the state it starts from. */
  ghost function AskedFor(s: State, targets: seq<int>, inputs: map<int, Payload>, moments: seq<Moment>): set<int>
    requires |moments| <= |targets| && AreTargets(targets, inputs)
  {
    if moments == [] then {}
    else
      var k := |moments| - 1;
      AskedFor(s, targets, inputs, moments[..k]) + If(Asks(s, targets[k], inputs, moments[k].faults), targets[k])
  }

  /** Whether the target will be asked for has not changed. */
  ghost predicate SameAt(s: State, after: State, t: int, inputs: map<int, Payload>)
    requires t in inputs
  {
    (Settled(after, t, inputs) <==> Settled(s, t, inputs)) && (Settled(s, t, inputs) || Get(after.cache, t) == Get(s.cache, t))
  }

  lemma PrepareLeaves(s: State, t: int, inputs: map<int, Payload>, m: Moment, other: int)
    requires t in inputs && other in inputs && (other != t || !Asks(s, t, inputs, m.faults))
    ensures SameAt(s, PreparedAt(s, t, inputs, m).0, other, inputs)
  {
  }

  /** After some prepares that asked for these targets: they are pending, and every other target stays as it was. */
  ghost predicate HasAsked(s: State, after: State, asked: set<int>, inputs: map<int, Payload>) {
    && Quiet(after) && Work(after, inputs) <= Work(s, inputs) && Open(after, inputs) <= Open(s, inputs)
    && PendingScopes(after.requests) == PendingScopes(s.requests) + asked
    && (forall t :: t in asked ==> t in inputs && Settled(after, t, inputs))
    && (forall t :: t in inputs && Available(s, t, inputs) ==> Available(after, t, inputs))
    && (forall t {:trigger SameAt(s, after, t, inputs)} :: t in inputs && t !in asked ==> SameAt(s, after, t, inputs))
  }

  lemma PrepareAsks(s: State, t: int, inputs: map<int, Payload>, m: Moment)
    requires Quiet(s) && t in inputs
    ensures HasAsked(s, PreparedAt(s, t, inputs, m).0, If(Asks(s, t, inputs, m.faults), t), inputs)
  {
    PrepareKeeps(s, t, inputs, m.faults, m.error, m.now);
    PrepareAddsIff(s, t, inputs, m.faults, m.error, m.now);
    forall other | other in inputs && (other != t || !Asks(s, t, inputs, m.faults))
      ensures SameAt(s, PreparedAt(s, t, inputs, m).0, other, inputs)
    {
      PrepareLeaves(s, t, inputs, m, other);
    }
  }

  lemma SameTwice(a: State, b: State, c: State, t: int, inputs: map<int, Payload>)
    requires t in inputs && SameAt(a, b, t, inputs) && SameAt(b, c, t, inputs)
    ensures SameAt(a, c, t, inputs)
  {
  }

  lemma StaysSettled(b: State, c: State, t: int, inputs: map<int, Payload>)
    requires t in inputs && Settled(b, t, inputs) && Open(c, inputs) <= Open(b, inputs)
    ensures Settled(c, t, inputs)
  {
    assert t !in Open(b, inputs);
    assert t !in Open(c, inputs);
  }

  lemma AskedTwice(a: State, b: State, c: State, x: set<int>, y: set<int>, inputs: map<int, Payload>)
    requires HasAsked(a, b, x, inputs) && HasAsked(b, c, y, inputs)
    ensures HasAsked(a, c, x + y, inputs)
  {
    forall t | t in inputs && t !in x + y ensures SameAt(a, c, t, inputs) {
      assert SameAt(a, b, t, inputs) && SameAt(b, c, t, inputs);
      SameTwice(a, b, c, t, inputs);
    }
    forall t | t in x + y ensures t in inputs && Settled(c, t, inputs) {
      if t in x {
        StaysSettled(b, c, t, inputs);
      }
    }
  }

  /** A target not asked for yet is asked for later exactly when it would have been at the start. */
  lemma AskedLater(s: State, before: State, asked: set<int>, t: int, inputs: map<int, Payload>, faults: Faults)
    requires HasAsked(s, before, asked, inputs) && t in inputs
    ensures t in asked || (Asks(before, t, inputs, faults) <==> Asks(s, t, inputs, faults))
  {
    if t !in asked {
      assert SameAt(s, before, t, inputs);
    }
  }

  lemma SameUnion(asked: set<int>, t: int, x: bool, y: bool)
    requires t in asked || (x <==> y)
    ensures asked + If(x, t) == asked + If(y, t)
  {
  }

  lemma AskedNext(s: State, before: State, after: State, asked: set<int>, t: int, inputs: map<int, Payload>, faults: Faults)
    requires t in inputs && HasAsked(s, before, asked, inputs)
    requires HasAsked(before, after, If(Asks(before, t, inputs, faults), t), inputs)
    ensures HasAsked(s, after, asked + If(Asks(s, t, inputs, faults), t), inputs)
  {
    AskedTwice(s, before, after, asked, If(Asks(before, t, inputs, faults), t), inputs);
    AskedLater(s, before, asked, t, inputs, faults);
    SameUnion(asked, t, Asks(before, t, inputs, faults), Asks(s, t, inputs, faults));
  }

  /** A pass makes exactly the targets pending that it asks for. */
  lemma {:induction false} PassAsks(s: State, targets: seq<int>, inputs: map<int, Payload>, moments: seq<Moment>)
    requires Quiet(s) && |moments| <= |targets| && AreTargets(targets, inputs)
    ensures HasAsked(s, Passed(s, targets, inputs, moments), AskedFor(s, targets, inputs, moments), inputs)
  {
    if moments == [] {
      NothingAsked(s, inputs);
    } else {
      var k := |moments| - 1;
      var before, t, m := Passed(s, targets, inputs, moments[..k]), targets[k], moments[k];
      PassAsks(s, targets, inputs, moments[..k]);
      PrepareAsks(before, t, inputs, m);
      AskedNext(s, before, Passed(s, targets, inputs, moments), AskedFor(s, targets, inputs, moments[..k]), t, inputs, m.faults);
    }
  }

  lemma NothingAsked(s: State, inputs: map<int, Payload>)
    requires Quiet(s)
    ensures HasAsked(s, s, {}, inputs)
  {
  }

  lemma {:induction false} AskedHas(s: State, targets: seq<int>, inputs: map<int, Payload>, moments: seq<Moment>, t: int)
    requires |moments| <= |targets| && AreTargets(targets, inputs)
    ensures t in AskedFor(s, targets, inputs, moments) <==>
            exists i :: 0 <= i < |moments| && targets[i] == t && Asks(s, targets[i], inputs, moments[i].faults)
  {
    if moments != [] {
      var k := |moments| - 1;
      AskedHas(s, targets, inputs, moments[..k], t);
      assert forall i :: 0 <= i < k ==> moments[..k][i] == moments[i];
    }
  }

  /** The targets a pass may ask for: neither settled nor in a cache that can be relied on. */
  ghost function Uncovered(s: State, targets: seq<int>, inputs: map<int, Payload>, cacheReadsFail: bool): set<int>
    requires AreTargets(targets, inputs)
  {
    set i | 0 <= i < |targets| && !Covered(s, targets[i], inputs, cacheReadsFail) :: targets[i]
  }

  lemma UncoveredHas(s: State, targets: seq<int>, inputs: map<int, Payload>, cacheReadsFail: bool, t: int)
    requires AreTargets(targets, inputs)
    ensures t in Uncovered(s, targets, inputs, cacheReadsFail) <==>
            t in targets && t in inputs && !Covered(s, t, inputs, cacheReadsFail)
  {
    if t in targets {
      var i :| 0 <= i < |targets| && targets[i] == t;
    }
  }

  lemma UncoveredShrinks(s: State, after: State, targets: seq<int>, inputs: map<int, Payload>, cacheReadsFail: bool)
    requires AreTargets(targets, inputs) && Open(after, inputs) <= Open(s, inputs)
    requires forall t :: t in inputs && Available(s, t, inputs) ==> Available(after, t, inputs)
    ensures Uncovered(after, targets, inputs, cacheReadsFail) <= Uncovered(s, targets, inputs, cacheReadsFail)
  {
    forall t | t in Uncovered(after, targets, inputs, cacheReadsFail) ensures t in Uncovered(s, targets, inputs, cacheReadsFail) {
      UncoveredHas(after, targets, inputs, cacheReadsFail, t);
      UncoveredHas(s, targets, inputs, cacheReadsFail, t);
      assert t in Open(after, inputs);
      assert t in Open(s, inputs);
    }
  }

  lemma AskedAreUncovered(s: State, targets: seq<int>, inputs: map<int, Payload>, moments: seq<Moment>, cacheReadsFail: bool)
    requires AreTargets(targets, inputs) && |moments| == |targets| && Allowed(moments, cacheReadsFail)
    ensures AskedFor(s, targets, inputs, moments) <= Uncovered(s, targets, inputs, cacheReadsFail)
  {
    forall t | t in AskedFor(s, targets, inputs, moments) ensures t in Uncovered(s, targets, inputs, cacheReadsFail) {
      AskedHas(s, targets, inputs, moments, t);
      var i :| 0 <= i < |targets| && targets[i] == t && Asks(s, targets[i], inputs, moments[i].faults);
      assert !Covered(s, targets[i], inputs, cacheReadsFail);
    }
  }

  const NoFaults := Faults(false, false, false, false, false, false)

  /** The pass in which every cache read that may fail does, and every request goes through. */
  function WorstPass(n: nat, cacheReadsFail: bool): seq<Moment> {
    seq(n, i => Moment(NoFaults.(cacheRead := cacheReadsFail), "", 0))
  }

  lemma WorstAsksAll(s: State, targets: seq<int>, inputs: map<int, Payload>, cacheReadsFail: bool)
    requires AreTargets(targets, inputs)
    ensures var moments := WorstPass(|targets|, cacheReadsFail);
            && Allowed(moments, cacheReadsFail)
            && AskedFor(s, targets, inputs, moments) == Uncovered(s, targets, inputs, cacheReadsFail)
  {
    var moments := WorstPass(|targets|, cacheReadsFail);
    AskedAreUncovered(s, targets, inputs, moments, cacheReadsFail);
    forall t | t in Uncovered(s, targets, inputs, cacheReadsFail) ensures t in AskedFor(s, targets, inputs, moments) {
      var i :| 0 <= i < |targets| && !Covered(s, targets[i], inputs, cacheReadsFail) && targets[i] == t;
      assert Asks(s, targets[i], inputs, moments[i].faults);
      AskedHas(s, targets, inputs, moments, t);
    }
  }

  ghost function PendingAfterPass(s: State, targets: seq<int>, inputs: map<int, Payload>, moments: seq<Moment>): nat
    requires AreTargets(targets, inputs) && |moments| == |targets|
  {
    |PendingScopes(Passed(s, targets, inputs, moments).requests)|
  }

  /** Every allowed pass leaves fewer than `bound` rows pending if and only if the pending and the uncovered are fewer. */
  lemma PassStaysBelowIff(s: State, targets: seq<int>, inputs: map<int, Payload>, cacheReadsFail: bool, bound: nat)
    requires Quiet(s) && AreTargets(targets, inputs)
    ensures (forall moments {:trigger PendingAfterPass(s, targets, inputs, moments)} ::
               |moments| == |targets| && Allowed(moments, cacheReadsFail) ==> PendingAfterPass(s, targets, inputs, moments) < bound)
       <==> |PendingScopes(s.requests) + Uncovered(s, targets, inputs, cacheReadsFail)| < bound
  {
    var most := PendingScopes(s.requests) + Uncovered(s, targets, inputs, cacheReadsFail);
    forall moments | |moments| == |targets| && Allowed(moments, cacheReadsFail)
      ensures PendingAfterPass(s, targets, inputs, moments) <= |most|
    {
      PassAsks(s, targets, inputs, moments);
      AskedAreUncovered(s, targets, inputs, moments, cacheReadsFail);
      SubsetSize(PendingScopes(Passed(s, targets, inputs, moments).requests), most);
    }
    var worst := WorstPass(|targets|, cacheReadsFail);
    WorstAsksAll(s, targets, inputs, cacheReadsFail);
    PassAsks(s, targets, inputs, worst);
    assert PendingAfterPass(s, targets, inputs, worst) == |most|;
  }

  // ----- a round: a batch, then a pass -----

  datatype Round = Round(before: State, turns: seq<Turn>, moments: seq<Moment>)

  /** The round may happen, with these workers and targets, and with cache reads failing or not. */
  ghost predicate MayHappen(r: Round, workers: nat, targets: seq<int>, inputs: map<int, Payload>, cacheReadsFail: bool)
    requires AreTargets(targets, inputs)
  {
    && Quiet(r.before) && BatchEnds(r.before, workers, r.turns, inputs)
    && |r.moments| == |targets| && Allowed(r.moments, cacheReadsFail)
  }

  ghost function RoundEnd(r: Round, workers: nat, targets: seq<int>, inputs: map<int, Payload>): State
    requires AreTargets(targets, inputs) && |r.moments| == |targets|
  {
    Passed(Drained(r.before, workers, r.turns), targets, inputs, r.moments)
  }

  /** The round leaves fewer rows pending than there were. */
  ghost predicate Falls(r: Round, workers: nat, targets: seq<int>, inputs: map<int, Payload>)
    requires AreTargets(targets, inputs) && |r.moments| == |targets|
  {
    |PendingScopes(RoundEnd(r, workers, targets, inputs).requests)| < |PendingScopes(r.before.requests)|
  }

  /** The rows a round's pass makes pending anew: what it asks for, seen from the drained queue, that is not waiting there. */
  ghost function NewRows(r: Round, workers: nat, targets: seq<int>, inputs: map<int, Payload>): set<int>
    requires AreTargets(targets, inputs) && |r.moments| == |targets|
  {
    var drained := Drained(r.before, workers, r.turns);
    AskedFor(drained, targets, inputs, r.moments) - PendingScopes(drained.requests)
  }

  /** What a round does to the pending rows, whatever happens in it. */
  lemma RoundCounts(r: Round, workers: nat, targets: seq<int>, inputs: map<int, Payload>, cacheReadsFail: bool)
    requires AreTargets(targets, inputs) && MayHappen(r, workers, targets, inputs, cacheReadsFail)
    ensures var after := RoundEnd(r, workers, targets, inputs);
            && Quiet(after) && Work(after, inputs) + BatchSize(r.before, workers) <= Work(r.before, inputs)
            && |PendingScopes(after.requests)| ==
               |PendingScopes(r.before.requests)| - BatchSize(r.before, workers) + |NewRows(r, workers, targets, inputs)|
    ensures Falls(r, workers, targets, inputs) <==> |NewRows(r, workers, targets, inputs)| < BatchSize(r.before, workers)
  {
    var drained := Drained(r.before, workers, r.turns);
    BatchTakesFirst(r.before, workers, r.turns, inputs);
    PassAsks(drained, targets, inputs, r.moments);
    SizesAdd(PendingScopes(r.before.requests), FirstRows(r.before.requests, BatchSize(r.before, workers)),
             AskedFor(drained, targets, inputs, r.moments));
  }

  lemma SizesAdd(waiting: set<int>, first: set<int>, asked: set<int>)
    requires first <= waiting
    ensures |(waiting - first) + asked| == |waiting| - |first| + |asked - (waiting - first)|
  {
    var left := waiting - first;
    SplitOff(waiting, first);
    assert left + asked == left + (asked - left);
  }

  /**
   The most rows a round from this state can make pending anew: the uncovered targets that are not
   pending, and the uncovered ones among the rows its workers claim.
   */
  ghost function MostNew(s: State, workers: nat, targets: seq<int>, inputs: map<int, Payload>, cacheReadsFail: bool): nat
    requires AreTargets(targets, inputs)
  {
    var open := Uncovered(s, targets, inputs, cacheReadsFail);
    |open - PendingScopes(s.requests)| + |open * FirstRows(s.requests, BatchSize(s, workers))|
  }

  lemma OutsideOrFirst(open: set<int>, waiting: set<int>, first: set<int>)
    requires first <= waiting
    ensures |open - (waiting - first)| == |open - waiting| + |open * first|
  {
    assert open - (waiting - first) == (open - waiting) + open * first;
    assert (open - waiting) !! (open * first);
  }

  lemma NewRowsAtMost(r: Round, workers: nat, targets: seq<int>, inputs: map<int, Payload>, cacheReadsFail: bool)
    requires AreTargets(targets, inputs) && MayHappen(r, workers, targets, inputs, cacheReadsFail)
    ensures |NewRows(r, workers, targets, inputs)| <= MostNew(r.before, workers, targets, inputs, cacheReadsFail)
  {
    var drained := Drained(r.before, workers, r.turns);
    var open := Uncovered(r.before, targets, inputs, cacheReadsFail);
    BatchTakesFirst(r.before, workers, r.turns, inputs);
    UncoveredShrinks(r.before, drained, targets, inputs, cacheReadsFail);
    AskedAreUncovered(drained, targets, inputs, r.moments, cacheReadsFail);
    SubsetSize(NewRows(r, workers, targets, inputs), open - PendingScopes(drained.requests));
    OutsideOrFirst(open, PendingScopes(r.before.requests), FirstRows(r.before.requests, BatchSize(r.before, workers)));
  }

  // The worst round: every build fails, every cache read that may fail does, every request goes through.

  const AnyLayout := Layout(Bounds(0.0, 0.0, 0.0, 0.0), [], [])

  ghost function FailingTurn(k: nat, scope: int, inputs: map<int, Payload>): Turn {
    Turn(k, true, ReadModel(if scope in inputs then inputs[scope] else Payload([], []), AnyLayout), NoFaults.(build := true), "", 0)
  }

  /** Nothing was built or settled otherwise. */
  ghost predicate NothingBuilt(s: State, after: State, inputs: map<int, Payload>) {
    Quiet(after) && after.models == s.models && after.cache == s.cache && Open(after, inputs) == Open(s, inputs)
  }

  ghost function FailedState(s: State, scope: int): State
    requires scope in s.requests
  {
    s.(requests := FailedWith(s.requests[scope := StartedRow(s.requests[scope], 0)], scope, "", 0))
  }

  /** One worker claims the first row and fails to build it. */
  lemma ThreeTurnsFail(c: Crew, k: nat, scope: int, inputs: map<int, Payload>)
    requires k < |c.workers| && c.workers[k] == Idle && Next(c.state.requests) == Some(scope) && scope in c.state.requests
    ensures var turn := FailingTurn(k, scope, inputs);
            && MayTurn(c, turn, inputs) && MayTurn(Turned(c, turn), turn, inputs) && MayTurn(Turned(Turned(c, turn), turn), turn, inputs)
            && Turned(Turned(Turned(c, turn), turn), turn) == Crew(FailedState(c.state, scope), c.workers[k := Done(true)])
  {
    var turn := FailingTurn(k, scope, inputs);
    var claimed := c.state.(requests := c.state.requests[scope := StartedRow(c.state.requests[scope], 0)]);
    assert Turned(c, turn) == Crew(claimed, c.workers[k := Claimed(scope)]);
    assert Turned(Turned(c, turn), turn) == Crew(claimed, c.workers[k := HasBuilt(scope, Some(""))]);
  }

  /** One worker claims a row, if there is one, and fails to build it. */
  lemma OneFails(start: Crew, turns: seq<Turn>, k: nat, inputs: map<int, Payload>) returns (more: seq<Turn>, done: Worker)
    requires BatchRuns(start, turns, inputs)
    requires var c := Batch(start, turns); k < |c.workers| && c.workers[k] == Idle && Quiet(c.state)
    ensures BatchRuns(start, more, inputs) && done.Done?
    ensures var c, after := Batch(start, turns), Batch(start, more);
            after.workers == c.workers[k := done] && NothingBuilt(c.state, after.state, inputs)
  {
    var c := Batch(start, turns);
    NextIsFirst(c.state.requests);
    var first := Next(c.state.requests);
    var turn := FailingTurn(k, if first.Some? then first.value else 0, inputs);
    if first == None {
      OneTurnMore(start, turns, turn, inputs);
      more, done := turns + [turn], Done(false);
    } else {
      ThreeTurnsFail(c, k, first.value, inputs);
      OneTurnMore(start, turns, turn, inputs);
      OneTurnMore(start, turns + [turn], turn, inputs);
      OneTurnMore(start, turns + [turn] + [turn], turn, inputs);
      more, done := turns + [turn] + [turn] + [turn], Done(true);
      FailedRow(c.state, first.value, inputs);
    }
  }

  lemma FailedRow(s: State, scope: int, inputs: map<int, Payload>)
    requires Quiet(s) && scope in PendingScopes(s.requests)
    ensures NothingBuilt(s, FailedState(s, scope), inputs)
  {
    var claimed := s.(requests := s.requests[scope := StartedRow(s.requests[scope], 0)]);
    var after := FailedState(s, scope);
    StartedRows(s.requests, scope, 0);
    EndedRows(claimed.requests, scope, after.requests[scope]);
    UpdateKeepsQueue(s, scope, after.requests[scope]);
    assert after.requests == s.requests[scope := after.requests[scope]];
    OpenUnchanged(s, after, scope, inputs);
    assert RunningScopes(after.requests) == {};
  }

  lemma {:induction false} AllFail(s: State, workers: nat, k: nat, inputs: map<int, Payload>) returns (turns: seq<Turn>)
    requires Quiet(s) && k <= workers
    ensures var start := IdleCrew(s, workers); var c := Batch(start, turns);
            && BatchRuns(start, turns, inputs) && NothingBuilt(s, c.state, inputs) && |c.workers| == workers
            && (forall i :: 0 <= i < k ==> c.workers[i].Done?) && (forall i :: k <= i < workers ==> c.workers[i] == Idle)
  {
    if k == 0 {
      turns := [];
    } else {
      var fewer := AllFail(s, workers, k - 1, inputs);
      var done;
      turns, done := OneFails(IdleCrew(s, workers), fewer, k - 1, inputs);
    }
  }

  lemma UncoveredSame(s: State, after: State, targets: seq<int>, inputs: map<int, Payload>, cacheReadsFail: bool)
    requires AreTargets(targets, inputs) && NothingBuilt(s, after, inputs)
    ensures Uncovered(after, targets, inputs, cacheReadsFail) == Uncovered(s, targets, inputs, cacheReadsFail)
  {
    UncoveredShrinks(s, after, targets, inputs, cacheReadsFail);
    UncoveredShrinks(after, s, targets, inputs, cacheReadsFail);
  }

  lemma WorstBatch(s: State, workers: nat, inputs: map<int, Payload>) returns (turns: seq<Turn>)
    requires Quiet(s)
    ensures BatchEnds(s, workers, turns, inputs) && NothingBuilt(s, Drained(s, workers, turns), inputs)
  {
    turns := AllFail(s, workers, workers, inputs);
  }

  lemma WorstRound(s: State, workers: nat, targets: seq<int>, inputs: map<int, Payload>, cacheReadsFail: bool) returns (r: Round)
    requires Quiet(s) && AreTargets(targets, inputs)
    ensures r.before == s && MayHappen(r, workers, targets, inputs, cacheReadsFail)
    ensures |NewRows(r, workers, targets, inputs)| == MostNew(s, workers, targets, inputs, cacheReadsFail)
  {
    var turns := WorstBatch(s, workers, inputs);
    r := Round(s, turns, WorstPass(|targets|, cacheReadsFail));
    WorstAsksAll(s, targets, inputs, cacheReadsFail);
    BatchTakesFirst(s, workers, turns, inputs);
    WorstNewRows(s, Drained(s, workers, turns), BatchSize(s, workers), targets, inputs, cacheReadsFail);
  }

  lemma WorstNewRows(s: State, drained: State, claims: nat, targets: seq<int>, inputs: map<int, Payload>, cacheReadsFail: bool)
    requires AreTargets(targets, inputs) && NothingBuilt(s, drained, inputs) && BatchLeaves(s, drained, claims, inputs)
    ensures var open := Uncovered(s, targets, inputs, cacheReadsFail);
            var asked := AskedFor(drained, targets, inputs, WorstPass(|targets|, cacheReadsFail));
            |asked - PendingScopes(drained.requests)|
            == |open - PendingScopes(s.requests)| + |open * FirstRows(s.requests, claims)|
  {
    WorstAsksAll(drained, targets, inputs, cacheReadsFail);
    UncoveredSame(s, drained, targets, inputs, cacheReadsFail);
    OutsideOrFirst(Uncovered(s, targets, inputs, cacheReadsFail), PendingScopes(s.requests), FirstRows(s.requests, claims));
  }

  /**
   Every round that may happen from a state lowers the pending rows if and only if the uncovered
   targets not pending and the uncovered ones among the rows to be claimed are together fewer than
   the rows to be claimed.
   */
  lemma RoundsFallIff(s: State, workers: nat, targets: seq<int>, inputs: map<int, Payload>, cacheReadsFail: bool)
    requires Quiet(s) && AreTargets(targets, inputs)
    ensures (forall r: Round {:trigger MayHappen(r, workers, targets, inputs, cacheReadsFail)} ::
               r.before == s && MayHappen(r, workers, targets, inputs, cacheReadsFail) ==> Falls(r, workers, targets, inputs))
       <==> MostNew(s, workers, targets, inputs, cacheReadsFail) < BatchSize(s, workers)
  {
    forall r: Round | r.before == s && MayHappen(r, workers, targets, inputs, cacheReadsFail)
      ensures MostNew(s, workers, targets, inputs, cacheReadsFail) < BatchSize(s, workers) ==> Falls(r, workers, targets, inputs)
    {
      RoundCounts(r, workers, targets, inputs, cacheReadsFail);
      NewRowsAtMost(r, workers, targets, inputs, cacheReadsFail);
    }
    var worst := WorstRound(s, workers, targets, inputs, cacheReadsFail);
    RoundCounts(worst, workers, targets, inputs, cacheReadsFail);
  }
}
