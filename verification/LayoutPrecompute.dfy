/**
 The operator's precompute run: prepare every target, let a batch of workers drain the queue,
 prepare again, until all targets are ready or one has failed. The tables do not change during
 the run and nobody else uses the queue; cache, build and commit failures may strike any call.
 */
module LayoutPrecompute {
  import opened Common
  import opened CardScopeLayout
  import opened CardScopeGraph
  import opened ComputeQueue
  import opened LayoutServing
  import opened LayoutService
  import opened PrecomputeRounds
  import opened PrecomputeSteps
  import ScopeProjection

  // ----- a batch -----

  /** The worker whose turn it is makes its next move. */
  method MoveOne(service: LayoutService, workers: seq<Worker>, k: nat, ghost inputs: map<int, Payload>)
    returns (moved: seq<Worker>, ghost turn: Turn)
    requires ScopeProjection.Sound(service.session.Snapshot()) && AreInputs(inputs, service.session.Snapshot())
    requires k < |workers| && !workers[k].Done? && QueueValid(service.Snapshot())
    modifies service, service.queue
    ensures MayTurn(Crew(old(service.Snapshot()), workers), turn, inputs)
    ensures Crew(service.Snapshot(), moved) == Turned(Crew(old(service.Snapshot()), workers), turn)
  {
    var faults: Faults := *;
    var error: string := *;
    var now: int := *;
    var next, g := service.Advance(workers[k], faults, error, now);
    turn := Turn(k, workers[k].Claimed? && workers[k].scope in service.session.taxonomy, ModelOf(g, service.setup), faults, error, now);
    moved := workers[k := next];
  }

  /**
   `_process_next_batch`: the workers run concurrently, their transactions in any order. Together
   they claim and finish the first rows of the queue, as many as there are workers, or all of them.
   */
  method ProcessNextBatch(service: LayoutService, workers: nat, ghost inputs: map<int, Payload>)
    returns (processed: bool, ghost turns: seq<Turn>)
    requires ScopeProjection.Sound(service.session.Snapshot()) && AreInputs(inputs, service.session.Snapshot())
    requires Quiet(service.Snapshot())
    modifies service, service.queue
    ensures BatchEnds(old(service.Snapshot()), workers, turns, inputs)
    ensures service.Snapshot() == Drained(old(service.Snapshot()), workers, turns)
    ensures BatchLeaves(old(service.Snapshot()), service.Snapshot(), BatchSize(old(service.Snapshot()), workers), inputs)
    ensures processed <==> BatchSize(old(service.Snapshot()), workers) > 0
  {
    ghost var start := service.Snapshot();
    var jobs := seq(workers, i => Idle);
    turns := [];
    BatchKeeps(start, workers, turns, inputs);
    while exists k :: 0 <= k < |jobs| && !jobs[k].Done?
      invariant BatchRuns(IdleCrew(start, workers), turns, inputs)
      invariant Crew(service.Snapshot(), jobs) == Batch(IdleCrew(start, workers), turns)
      invariant CrewRight(Crew(service.Snapshot(), jobs), start, inputs)
      decreases Total(jobs, MovesLeft)
    {
      var k :| 0 <= k < |jobs| && !jobs[k].Done?;
      ghost var before := Crew(service.Snapshot(), jobs);
      ghost var turn;
      jobs, turn := MoveOne(service, jobs, k, inputs);
      OneTurnMore(IdleCrew(start, workers), turns, turn, inputs);
      TurnKeeps(before, turn, start, inputs);
      turns := turns + [turn];
    }
    BatchTakesFirst(start, workers, turns, inputs);
    processed := Done(true) in jobs;
  }

  // ----- results -----

  datatype Summary = Summary(total: nat, ready: nat, queued: nat, refreshing: nat, failed: nat)

  function CountOf(results: seq<Prepared>, want: Prepared -> bool): nat {
    if results == [] then 0
    else CountOf(results[..|results| - 1], want) + if want(results[|results| - 1]) then 1 else 0
  }

  function SummaryOf(results: seq<Prepared>): Summary {
    Summary(|results|, CountOf(results, (r: Prepared) => r == Prepared), CountOf(results, (r: Prepared) => r == Queued),
            CountOf(results, (r: Prepared) => r == BeingRefreshed), CountOf(results, (r: Prepared) => r.Unprepared?))
  }

  /** `_summary_from_results` */
  method Summarize(results: seq<Prepared>) returns (summary: Summary)
    ensures summary == SummaryOf(results)
  {
    var ready, queued, refreshing, failed: nat := 0, 0, 0, 0;
    for k := 0 to |results|
      invariant SummaryOf(results[..k]) == Summary(k, ready, queued, refreshing, failed)
    {
      assert results[..k + 1][..k] == results[..k];
      match results[k] {
        case Prepared => ready := ready + 1;
        case Queued => queued := queued + 1;
        case BeingRefreshed => refreshing := refreshing + 1;
        case Unprepared(_) => failed := failed + 1;
      }
    }
    assert results[..|results|] == results;
    summary := Summary(|results|, ready, queued, refreshing, failed);
  }

  /** The four counts add up, and say all there is to say when one of them is total or zero. */
  lemma {:induction false} SummaryAddsUp(results: seq<Prepared>)
    ensures var s := SummaryOf(results);
            && s.ready + s.queued + s.refreshing + s.failed == s.total
            && (s.ready == s.total <==> forall k :: 0 <= k < |results| ==> results[k] == Prepared)
            && (s.failed == 0 <==> forall k :: 0 <= k < |results| ==> !results[k].Unprepared?)
  {
    if results != [] {
      var n := |results| - 1;
      SummaryAddsUp(results[..n]);
      var s := SummaryOf(results[..n]);
      assert forall k :: 0 <= k < n ==> results[..n][k] == results[k];
    }
  }

  ghost predicate ResultHolds(s: State, t: int, r: Prepared, inputs: map<int, Payload>) {
    && t in inputs
    && (r == Prepared ==> Available(s, t, inputs))
    && (r == Queued || r == BeingRefreshed ==> t in PendingScopes(s.requests) && Settled(s, t, inputs))
  }

  ghost predicate ResultsHold(s: State, targets: seq<int>, results: seq<Prepared>, inputs: map<int, Payload>) {
    |results| <= |targets| && forall k :: 0 <= k < |results| ==> ResultHolds(s, targets[k], results[k], inputs)
  }

  // ----- a prepare pass -----

  /** `_prepare_targets`: every result is true of the state afterwards, and the pass is one that may happen. */
  method PrepareTargets(service: LayoutService, targets: seq<int>, cacheReadsFail: bool, ghost inputs: map<int, Payload>)
    returns (results: seq<Prepared>, ghost moments: seq<Moment>)
    requires ScopeProjection.Sound(service.session.Snapshot()) && AreInputs(inputs, service.session.Snapshot())
    requires Quiet(service.Snapshot()) && AreTargets(targets, inputs)
    modifies service, service.queue
    ensures |results| == |targets| && ResultsHold(service.Snapshot(), targets, results, inputs)
    ensures |moments| == |targets| && Allowed(moments, cacheReadsFail)
    ensures service.Snapshot() == Passed(old(service.Snapshot()), targets, inputs, moments)
    ensures HasAsked(old(service.Snapshot()), service.Snapshot(),
                     AskedFor(old(service.Snapshot()), targets, inputs, moments), inputs)
  {
    results, moments := [], [];
    ghost var start := service.Snapshot();
    for n := 0 to |targets|
      invariant Quiet(service.Snapshot())
      invariant |results| == n && ResultsHold(service.Snapshot(), targets, results, inputs)
      invariant |moments| == n && Allowed(moments, cacheReadsFail)
      invariant service.Snapshot() == Passed(start, targets, inputs, moments)
    {
      var faults: Faults := *;
      if !cacheReadsFail {
        faults := faults.(cacheRead := false);
      }
      var error: string := *;
      var now: int := *;
      ghost var before, moment := service.Snapshot(), Moment(faults, error, now);
      var result, g := service.PrepareTarget(targets[n], faults, error, now);
      OneMoreResult(before, targets, n, results, inputs, faults, error, now);
      PrepareKeeps(before, targets[n], inputs, faults, error, now);
      assert (moments + [moment])[..n] == moments;
      results, moments := results + [result], moments + [moment];
    }
    PassAsks(start, targets, inputs, moments);
  }

  lemma OneMoreResult(s: State, targets: seq<int>, n: nat, sofar: seq<Prepared>, inputs: map<int, Payload>, faults: Faults,
                      error: string, now: int)
    requires Quiet(s) && |sofar| == n < |targets| && targets[n] in inputs && ResultsHold(s, targets, sofar, inputs)
    ensures var (after, r) := PreparedTarget(s, targets[n], inputs[targets[n]], faults, error, now);
            ResultsHold(after, targets, sofar + [r], inputs)
  {
    var after := PreparedTarget(s, targets[n], inputs[targets[n]], faults, error, now).0;
    PrepareKeeps(s, targets[n], inputs, faults, error, now);
    ResultsStay(s, after, targets, sofar, inputs);
  }

  lemma ResultsStay(s: State, after: State, targets: seq<int>, results: seq<Prepared>, inputs: map<int, Payload>)
    requires ResultsHold(s, targets, results, inputs)
    requires PendingScopes(s.requests) <= PendingScopes(after.requests) && Open(after, inputs) <= Open(s, inputs)
    requires forall t :: t in inputs && Available(s, t, inputs) ==> Available(after, t, inputs)
    ensures ResultsHold(after, targets, results, inputs)
  {
    forall k | 0 <= k < |results| ensures ResultHolds(after, targets[k], results[k], inputs) {
      assert ResultHolds(s, targets[k], results[k], inputs);
      assert Settled(s, targets[k], inputs) ==> targets[k] !in Open(after, inputs);
    }
  }

  datatype PrecomputeRun = PrecomputeRun(summary: Summary, timedOut: bool)

  /** `exit_code_for_run` */
  function ExitCode(run: PrecomputeRun): int {
    if run.timedOut || run.summary.failed > 0 then 1 else 0
  }

  lemma SomePending(s: State, targets: seq<int>, results: seq<Prepared>, inputs: map<int, Payload>)
    requires |results| == |targets| && ResultsHold(s, targets, results, inputs)
    requires var sum := SummaryOf(results); sum.ready < sum.total && sum.failed == 0
    ensures |PendingScopes(s.requests)| > 0
  {
    SummaryAddsUp(results);
    var k :| 0 <= k < |results| && results[k] != Prepared;
    assert !results[k].Unprepared?;
    assert targets[k] in PendingScopes(s.requests);
  }

  // ----- the run -----

  /** Pending rows fall over a round exactly when it makes fewer rows pending anew than it claims, which is sure beforehand if it can make no more. */
  ghost predicate RoundRight(r: Round, workers: nat, targets: seq<int>, inputs: map<int, Payload>, cacheReadsFail: bool)
    requires AreTargets(targets, inputs)
  {
    && |r.moments| == |targets|
    && (Falls(r, workers, targets, inputs) <==> |NewRows(r, workers, targets, inputs)| < BatchSize(r.before, workers))
    && (MostNew(r.before, workers, targets, inputs, cacheReadsFail) < BatchSize(r.before, workers) ==> Falls(r, workers, targets, inputs))
  }

  /** The rounds of a run so far: each may happen, claims rows, and starts where the one before it ended. */
  ghost predicate RoundsRun(rounds: seq<Round>, first: State, last: State, workers: nat, targets: seq<int>, inputs: map<int, Payload>,
                            cacheReadsFail: bool)
    requires AreTargets(targets, inputs)
  {
    if rounds == [] then first == last
    else
      var r := rounds[|rounds| - 1];
      && RoundsRun(rounds[..|rounds| - 1], first, r.before, workers, targets, inputs, cacheReadsFail)
      && MayHappen(r, workers, targets, inputs, cacheReadsFail) && BatchSize(r.before, workers) > 0
      && RoundEnd(r, workers, targets, inputs) == last
      && RoundRight(r, workers, targets, inputs, cacheReadsFail)
  }

  ghost predicate AllFall(rounds: seq<Round>, workers: nat, targets: seq<int>, inputs: map<int, Payload>)
    requires AreTargets(targets, inputs)
  {
    rounds == [] || (AllFall(rounds[..|rounds| - 1], workers, targets, inputs) && |rounds[|rounds| - 1].moments| == |targets|
                     && Falls(rounds[|rounds| - 1], workers, targets, inputs))
  }

  /** One round of the wait loop: a batch, then a prepare pass. */
  method WaitRound(service: LayoutService, targets: seq<int>, workers: nat, cacheReadsFail: bool, ghost inputs: map<int, Payload>)
    returns (results: seq<Prepared>, ghost round: Round)
    requires ScopeProjection.Sound(service.session.Snapshot()) && AreInputs(inputs, service.session.Snapshot())
    requires Quiet(service.Snapshot()) && AreTargets(targets, inputs)
    modifies service, service.queue
    ensures |results| == |targets| && ResultsHold(service.Snapshot(), targets, results, inputs)
    ensures round.before == old(service.Snapshot()) && MayHappen(round, workers, targets, inputs, cacheReadsFail)
    ensures service.Snapshot() == RoundEnd(round, workers, targets, inputs)
    ensures Quiet(service.Snapshot()) && Work(service.Snapshot(), inputs) + BatchSize(round.before, workers) <= Work(round.before, inputs)
    ensures RoundRight(round, workers, targets, inputs, cacheReadsFail)
  {
    ghost var before := service.Snapshot();
    var processed;
    ghost var turns, moments;
    processed, turns := ProcessNextBatch(service, workers, inputs);
    results, moments := PrepareTargets(service, targets, cacheReadsFail, inputs);
    round := Round(before, turns, moments);
    RoundCounts(round, workers, targets, inputs, cacheReadsFail);
    NewRowsAtMost(round, workers, targets, inputs, cacheReadsFail);
  }

  /** In every run of rounds each lowers the work by at least what it claims. */
  lemma {:induction false} RoundsWork(rounds: seq<Round>, first: State, last: State, workers: nat, targets: seq<int>,
                                      inputs: map<int, Payload>, cacheReadsFail: bool)
    requires AreTargets(targets, inputs) && RoundsRun(rounds, first, last, workers, targets, inputs, cacheReadsFail)
    ensures |rounds| + Work(last, inputs) <= Work(first, inputs)
  {
    if rounds != [] {
      var front, r := rounds[..|rounds| - 1], rounds[|rounds| - 1];
      RoundsWork(front, first, r.before, workers, targets, inputs, cacheReadsFail);
      RoundCounts(r, workers, targets, inputs, cacheReadsFail);
    }
  }

  /** Once no target is uncovered, every round lowers the pending rows by all it claims, and leaves none uncovered. */
  lemma CoveredRound(r: Round, workers: nat, targets: seq<int>, inputs: map<int, Payload>, cacheReadsFail: bool)
    requires AreTargets(targets, inputs) && MayHappen(r, workers, targets, inputs, cacheReadsFail)
    requires Uncovered(r.before, targets, inputs, cacheReadsFail) == {}
    ensures var after := RoundEnd(r, workers, targets, inputs);
            && Uncovered(after, targets, inputs, cacheReadsFail) == {}
            && |PendingScopes(after.requests)| == |PendingScopes(r.before.requests)| - BatchSize(r.before, workers)
            && (BatchSize(r.before, workers) > 0 ==> Falls(r, workers, targets, inputs))
  {
    var drained := Drained(r.before, workers, r.turns);
    NewRowsAtMost(r, workers, targets, inputs, cacheReadsFail);
    RoundCounts(r, workers, targets, inputs, cacheReadsFail);
    BatchTakesFirst(r.before, workers, r.turns, inputs);
    UncoveredShrinks(r.before, drained, targets, inputs, cacheReadsFail);
    PassAsks(drained, targets, inputs, r.moments);
    UncoveredShrinks(drained, RoundEnd(r, workers, targets, inputs), targets, inputs, cacheReadsFail);
  }

  lemma {:induction false} CoveredRounds(rounds: seq<Round>, first: State, last: State, workers: nat, targets: seq<int>,
                                         inputs: map<int, Payload>, cacheReadsFail: bool)
    requires AreTargets(targets, inputs) && RoundsRun(rounds, first, last, workers, targets, inputs, cacheReadsFail)
    requires Uncovered(first, targets, inputs, cacheReadsFail) == {}
    ensures Uncovered(last, targets, inputs, cacheReadsFail) == {}
    ensures |rounds| + |PendingScopes(last.requests)| <= |PendingScopes(first.requests)|
    ensures AllFall(rounds, workers, targets, inputs)
  {
    if rounds != [] {
      var front, r := rounds[..|rounds| - 1], rounds[|rounds| - 1];
      CoveredRounds(front, first, r.before, workers, targets, inputs, cacheReadsFail);
      CoveredRound(r, workers, targets, inputs, cacheReadsFail);
    }
  }

  ghost predicate InRun(rounds: seq<Round>, start: State, prepared: State, now: State, workers: nat, targets: seq<int>,
                        inputs: map<int, Payload>, cacheReadsFail: bool)
    requires AreTargets(targets, inputs)
  {
    && Quiet(now) && Work(prepared, inputs) <= Work(start, inputs)
    && RoundsRun(rounds, prepared, now, workers, targets, inputs, cacheReadsFail)
  }

  lemma OneRoundMore(rounds: seq<Round>, r: Round, start: State, prepared: State, after: State, workers: nat, targets: seq<int>,
                     inputs: map<int, Payload>, cacheReadsFail: bool)
    requires AreTargets(targets, inputs) && InRun(rounds, start, prepared, r.before, workers, targets, inputs, cacheReadsFail)
    requires MayHappen(r, workers, targets, inputs, cacheReadsFail) && after == RoundEnd(r, workers, targets, inputs) && Quiet(after)
    requires BatchSize(r.before, workers) > 0 && RoundRight(r, workers, targets, inputs, cacheReadsFail)
    ensures InRun(rounds + [r], start, prepared, after, workers, targets, inputs, cacheReadsFail)
  {
    assert (rounds + [r])[..|rounds|] == rounds;
  }

  lemma ResultsCover(s: State, targets: seq<int>, results: seq<Prepared>, inputs: map<int, Payload>, cacheReadsFail: bool)
    requires AreTargets(targets, inputs) && |results| == |targets| && ResultsHold(s, targets, results, inputs)
    requires SummaryOf(results).failed == 0 && Steady(s, inputs, cacheReadsFail)
    ensures Uncovered(s, targets, inputs, cacheReadsFail) == {}
  {
    SummaryAddsUp(results);
    forall k | 0 <= k < |targets| ensures Covered(s, targets[k], inputs, cacheReadsFail) {
      assert ResultHolds(s, targets[k], results[k], inputs) && !results[k].Unprepared?;
    }
  }

  lemma PassKeepsSteady(s: State, after: State, asked: set<int>, inputs: map<int, Payload>, cacheReadsFail: bool)
    requires HasAsked(s, after, asked, inputs) && Steady(s, inputs, cacheReadsFail)
    ensures Steady(after, inputs, cacheReadsFail)
  {
    if cacheReadsFail {
      forall t | t in inputs && Available(after, t, inputs) ensures Settled(after, t, inputs) {
        if t !in asked {
          assert SameAt(s, after, t, inputs);
          assert Available(s, t, inputs) ==> Settled(s, t, inputs);
        }
      }
    }
  }

  /**
   `run_precompute` after the targets are listed. The wait loop ends whether or not the deadline
   ever passes, within as many rounds as there is work; without a timeout it ends with every
   target available under its own fingerprint, or with a failed target. Each round lowers the
   pending rows exactly when it makes fewer pending anew than it claims; when no cache read fails,
   or the cache starts with nothing but settled targets, every round does.
   */
  method RunPrecompute(service: LayoutService, targets: seq<int>, wait: bool, workers: nat, cacheReadsFail: bool,
                       ghost inputs: map<int, Payload>)
    returns (run: PrecomputeRun, ghost prepared: State, ghost rounds: seq<Round>)
    requires ScopeProjection.Sound(service.session.Snapshot()) && AreInputs(inputs, service.session.Snapshot())
    requires Quiet(service.Snapshot()) && AreTargets(targets, inputs)
    requires workers >= 1
    modifies service, service.queue
    ensures run.summary.total == |targets|
    ensures RoundsRun(rounds, prepared, service.Snapshot(), workers, targets, inputs, cacheReadsFail)
    ensures |rounds| <= Work(old(service.Snapshot()), inputs)
    ensures Steady(old(service.Snapshot()), inputs, cacheReadsFail) ==>
              |rounds| <= |PendingScopes(prepared.requests)| && AllFall(rounds, workers, targets, inputs)
    ensures !wait ==> rounds == [] && !run.timedOut
    ensures run.timedOut ==> run.summary.ready < |targets| && run.summary.failed == 0
    ensures wait && !run.timedOut ==> run.summary.ready == |targets| || run.summary.failed > 0
    ensures wait && ExitCode(run) == 0 ==> forall k :: 0 <= k < |targets| ==> Available(service.Snapshot(), targets[k], inputs)
  {
    ghost var start := service.Snapshot();
    var results, summary;
    ghost var moments;
    results, moments := PrepareTargets(service, targets, cacheReadsFail, inputs);
    summary := Summarize(results);
    SummaryAddsUp(results);
    prepared, rounds := service.Snapshot(), [];
    FirstPass(start, prepared, AskedFor(start, targets, inputs, moments), targets, results, inputs, cacheReadsFail);
    if !wait {
      return PrecomputeRun(summary, false), prepared, rounds;
    }
    var timedOut;
    results, timedOut, rounds := WaitUntilReady(service, targets, results, workers, cacheReadsFail, start, inputs);
    RunEnds(rounds, start, prepared, service.Snapshot(), workers, targets, inputs, cacheReadsFail);
    NoneFailed(service.Snapshot(), targets, results, inputs);
    summary := Summarize(results);
    run := PrecomputeRun(summary, timedOut);
  }

  /** The wait loop. */
  method WaitUntilReady(service: LayoutService, targets: seq<int>, first: seq<Prepared>, workers: nat, cacheReadsFail: bool,
                        ghost start: State, ghost inputs: map<int, Payload>)
    returns (results: seq<Prepared>, timedOut: bool, ghost rounds: seq<Round>)
    requires ScopeProjection.Sound(service.session.Snapshot()) && AreInputs(inputs, service.session.Snapshot())
    requires Quiet(service.Snapshot()) && AreTargets(targets, inputs) && workers >= 1
    requires |first| == |targets| && ResultsHold(service.Snapshot(), targets, first, inputs)
    requires Work(service.Snapshot(), inputs) <= Work(start, inputs)
    modifies service, service.queue
    ensures |results| == |targets| && ResultsHold(service.Snapshot(), targets, results, inputs)
    ensures InRun(rounds, start, old(service.Snapshot()), service.Snapshot(), workers, targets, inputs, cacheReadsFail)
    ensures rounds != [] ==> SummaryOf(first).failed == 0
    ensures var summary := SummaryOf(results); timedOut <==> summary.ready < summary.total && summary.failed == 0
  {
    results, rounds := first, [];
    ghost var prepared := service.Snapshot();
    var summary := Summarize(results);
    while summary.ready < summary.total && summary.failed == 0
      invariant |results| == |targets| && ResultsHold(service.Snapshot(), targets, results, inputs)
      invariant summary == SummaryOf(results)
      invariant InRun(rounds, start, prepared, service.Snapshot(), workers, targets, inputs, cacheReadsFail)
      invariant rounds == [] ==> results == first
      invariant rounds != [] ==> SummaryOf(first).failed == 0
      decreases Work(service.Snapshot(), inputs)
    {
      var expired: bool := *;
      if expired {
        return results, true, rounds;
      }
      SomePending(service.Snapshot(), targets, results, inputs);
      ghost var round;
      results, round := WaitRound(service, targets, workers, cacheReadsFail, inputs);
      OneRoundMore(rounds, round, start, prepared, service.Snapshot(), workers, targets, inputs, cacheReadsFail);
      rounds := rounds + [round];
      summary := Summarize(results);
    }
    timedOut := false;
  }

  lemma NoneFailed(s: State, targets: seq<int>, results: seq<Prepared>, inputs: map<int, Payload>)
    requires AreTargets(targets, inputs) && |results| == |targets| && ResultsHold(s, targets, results, inputs)
    ensures SummaryOf(results).ready <= SummaryOf(results).total
    ensures SummaryOf(results).ready == SummaryOf(results).total ==> forall k :: 0 <= k < |targets| ==> Available(s, targets[k], inputs)
  {
    SummaryAddsUp(results);
    if SummaryOf(results).ready == SummaryOf(results).total {
      forall k | 0 <= k < |targets| ensures Available(s, targets[k], inputs) {
        assert ResultHolds(s, targets[k], results[k], inputs);
      }
    }
  }

  lemma FirstPass(start: State, prepared: State, asked: set<int>, targets: seq<int>, results: seq<Prepared>, inputs: map<int, Payload>,
                  cacheReadsFail: bool)
    requires AreTargets(targets, inputs) && |results| == |targets| && ResultsHold(prepared, targets, results, inputs)
    requires HasAsked(start, prepared, asked, inputs)
    ensures Steady(start, inputs, cacheReadsFail) && SummaryOf(results).failed == 0 ==>
              Uncovered(prepared, targets, inputs, cacheReadsFail) == {}
  {
    if Steady(start, inputs, cacheReadsFail) && SummaryOf(results).failed == 0 {
      PassKeepsSteady(start, prepared, asked, inputs, cacheReadsFail);
      ResultsCover(prepared, targets, results, inputs, cacheReadsFail);
    }
  }

  lemma RunEnds(rounds: seq<Round>, start: State, prepared: State, last: State, workers: nat, targets: seq<int>,
                inputs: map<int, Payload>, cacheReadsFail: bool)
    requires AreTargets(targets, inputs) && InRun(rounds, start, prepared, last, workers, targets, inputs, cacheReadsFail)
    requires rounds != [] && Steady(start, inputs, cacheReadsFail) ==> Uncovered(prepared, targets, inputs, cacheReadsFail) == {}
    ensures |rounds| <= Work(start, inputs)
    ensures Steady(start, inputs, cacheReadsFail) ==>
              |rounds| <= |PendingScopes(prepared.requests)| && AllFall(rounds, workers, targets, inputs)
  {
    RoundsWork(rounds, prepared, last, workers, targets, inputs, cacheReadsFail);
    if rounds != [] && Steady(start, inputs, cacheReadsFail) {
      CoveredRounds(rounds, prepared, last, workers, targets, inputs, cacheReadsFail);
    }
  }

  // ----- a round that does not lower the pending rows -----

  function PreparedWith(s: State, t: int, fingerprint: Payload, faults: Faults): (State, Prepared) {
    PreparedTarget(s, t, fingerprint, faults, "", 0)
  }

  /** Claim, build and complete the one pending row, with no fault. */
  ghost predicate OneWorkerDrains(s: State, after: State, model: ReadModel) {
    var (claimed, w1) := WorkerStep(s, Idle, false, model, NoFaults, "", 0);
    var (built, w2) := WorkerStep(claimed, w1, true, model, NoFaults, "", 0);
    var (done, w3) := WorkerStep(built, w2, false, model, NoFaults, "", 0);
    after == done && w3 == Done(true)
  }

  function Cards(id: int): Payload {
    Payload([], [Card(id, Inner)])
  }

  /** Target 1 is cached under its input but stored under an older one; target 2 is pending. */
  function StaleStore(layout: Layout): State {
    var older := Payload([], []);
    State(map[1 := ReadModel(older, layout)], map[1 := ReadModel(Cards(1), layout)],
          map[1 := Request(1, older, Succeeded, 1, 0, Some(0), Some(0), None, None), 2 := NewRequest(2, Cards(2), 0)], 3)
  }

  lemma StaleDrains(layout: Layout) returns (drained: State)
    ensures var s, model := StaleStore(layout), ReadModel(Cards(2), layout);
            && OneWorkerDrains(s, drained, model) && PendingScopes(s.requests) == {2} && PendingScopes(drained.requests) == {}
            && drained.models == s.models[2 := model] && drained.cache == s.cache[2 := model]
            && 2 in drained.requests && drained.requests == s.requests[2 := drained.requests[2]]
            && drained.requests[2].status == Succeeded
  {
    var s, model := StaleStore(layout), ReadModel(Cards(2), layout);
    assert PendingScopes(s.requests) == {2};
    NextIsFirst(s.requests);
    var claimed := s.(requests := s.requests[2 := StartedRow(s.requests[2], 0)]);
    var built := claimed.(models := claimed.models[2 := model], cache := claimed.cache[2 := model]);
    drained := built.(requests := Completed(built.requests, 2, 0));
    assert PendingScopes(drained.requests) == {};
  }

  lemma StaleFirstPass(layout: Layout)
    ensures var s := StaleStore(layout);
            && PreparedWith(s, 1, Cards(1), NoFaults) == (s, Prepared) && PreparedWith(s, 2, Cards(2), NoFaults) == (s, Queued)
            && Quiet(s) && Cards(1) != Payload([], [])
  {
    assert |Cards(1).cards| != 0;
  }

  lemma StaleSecondPass(layout: Layout, drained: State)
    requires var s := StaleStore(layout);
             && drained.models == s.models[2 := ReadModel(Cards(2), layout)] && drained.cache == s.cache[2 := ReadModel(Cards(2), layout)]
             && 2 in drained.requests && drained.requests == s.requests[2 := drained.requests[2]]
             && drained.requests[2].status == Succeeded
    ensures var (second, r3) := PreparedWith(drained, 1, Cards(1), NoFaults.(cacheRead := true));
            var (after, r4) := PreparedWith(second, 2, Cards(2), NoFaults);
            r3 == BeingRefreshed && r4 == Prepared && PendingScopes(after.requests) == {1}
  {
    assert |Cards(1).cards| != 0;
    var asked := Asked(drained, 1, Cards(1), NoFaults, 0);
    assert PreparedWith(drained, 1, Cards(1), NoFaults.(cacheRead := true)) == (asked, BeingRefreshed);
    assert PendingScopes(asked.requests) == {1};
  }

  /**
   A round that does not lower the pending rows. Target 1 is cached under its input but stored under
   an older one; target 2 is pending. The first pass finds the cache, one worker finishes target 2,
   and the next pass, whose cache read of target 1 fails, asks for it: one pending row before the
   round and one after it.
   */
  lemma PendingNeedNotFall(layout: Layout) returns (s: State, drained: State)
    ensures var inputs := map[1 := Cards(1), 2 := Cards(2)];
            var (first, r1) := PreparedWith(s, 1, inputs[1], NoFaults);
            var (before, r2) := PreparedWith(first, 2, inputs[2], NoFaults);
            var (second, r3) := PreparedWith(drained, 1, inputs[1], NoFaults.(cacheRead := true));
            var (after, r4) := PreparedWith(second, 2, inputs[2], NoFaults);
            && Quiet(s) && Available(s, 1, inputs) && !Settled(s, 1, inputs)
            && [r1, r2] == [Prepared, Queued] && |PendingScopes(before.requests)| == 1
            && OneWorkerDrains(before, drained, ReadModel(Cards(2), layout)) && PendingScopes(drained.requests) == {}
            && [r3, r4] == [BeingRefreshed, Prepared] && |PendingScopes(after.requests)| == 1
  {
    s := StaleStore(layout);
    StaleFirstPass(layout);
    drained := StaleDrains(layout);
    StaleSecondPass(layout, drained);
  }
}
