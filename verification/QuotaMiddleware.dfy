/**
 The quota middleware: each request consumes its counters in order and stops at the first refusal.
 Requests interleave at every Redis call, time passes between calls, and a request may crash anywhere.
 */
module QuotaMiddleware {
  import opened Common
  import opened QuotaPolicy
  import QuotaCounter
  import Sums

  /** What one Redis key has been through, in order; every key shares the clock. */
  datatype LogEntry = Elapsed(seconds: nat) | On(key: string, event: QuotaCounter.Event)

  function EventsFor(log: seq<LogEntry>, key: string): seq<QuotaCounter.Event> {
    if log == [] then []
    else
      var last := log[|log| - 1];
      EventsFor(log[..|log| - 1], key)
      + match last
        case Elapsed(seconds) => [QuotaCounter.Pass(seconds)]
        case On(k, event) => if k == key then [event] else []
  }

  /** The counter of a consumption after everything in the log. */
  function CounterOf(log: seq<LogEntry>, c: Consumption): QuotaCounter.Key {
    QuotaCounter.Run(QuotaCounter.Fresh, EventsFor(log, c.key), c.limit, c.windowSeconds)
  }

  datatype Phase =
    | Counting(at: nat)
    | SettingExpiry(at: nat, allowed: bool)
    | Passed
    | Refused(at: nat)

  datatype Job = Job(list: seq<Consumption>, phase: Phase)

  datatype System = System(log: seq<LogEntry>, jobs: map<int, Job>)

  datatype Event = Tick(seconds: nat) | Arrive(request: int, list: seq<Consumption>) | Advance(request: int) | Crash(request: int)

  function Decided(list: seq<Consumption>, at: nat, allowed: bool): Phase {
    if !allowed then Refused(at) else if at + 1 < |list| then Counting(at + 1) else Passed
  }

  /** One Redis call of one request. */
  function Advanced(s: System, request: int, job: Job): System {
    match job.phase
    case Counting(at) =>
      if at >= |job.list| then s
      else
        var c := job.list[at];
        var count := QuotaCounter.Incremented(CounterOf(s.log, c), c.cost).1;
        var phase := if count == c.cost then SettingExpiry(at, count <= c.limit) else Decided(job.list, at, count <= c.limit);
        System(s.log + [On(c.key, QuotaCounter.Increment(request, c.cost))], s.jobs[request := job.(phase := phase)])
    case SettingExpiry(at, allowed) =>
      if at >= |job.list| then s
      else System(s.log + [On(job.list[at].key, QuotaCounter.Expire)], s.jobs[request := job.(phase := Decided(job.list, at, allowed))])
    case _ => s
  }

  function Apply(s: System, e: Event): System {
    match e
    case Tick(seconds) => s.(log := s.log + [Elapsed(seconds)])
    case Arrive(request, list) =>
      if request in s.jobs then s
      else s.(jobs := s.jobs[request := Job(list, if list == [] then Passed else Counting(0))])
    case Advance(request) => if request in s.jobs then Advanced(s, request, s.jobs[request]) else s
    case Crash(request) => s.(jobs := s.jobs - {request})
  }

  function Run(s: System, events: seq<Event>): System {
    if events == [] then s else Apply(Run(s, events[..|events| - 1]), events[|events| - 1])
  }

  const Start := System([], map[])

  // ----- a request that passes was admitted by every counter it consumed -----

  /** The counter of `c` has admitted the request at its cost. */
  ghost predicate AdmittedBy(log: seq<LogEntry>, c: Consumption, request: int) {
    exists i :: 0 <= i < |CounterOf(log, c).admitted| && CounterOf(log, c).admitted[i].request == request
                && CounterOf(log, c).admitted[i].cost == c.cost
  }

  /** How many of its counters have admitted a request in a given phase. */
  function Done(job: Job): int {
    match job.phase
    case Counting(at) => at
    case SettingExpiry(at, allowed) => if allowed then at + 1 else at
    case Passed => |job.list|
    case Refused(at) => at
  }

  ghost predicate JobRight(log: seq<LogEntry>, request: int, job: Job) {
    && (job.phase.Counting? || job.phase.SettingExpiry? ==> job.phase.at < |job.list|)
    && Done(job) <= |job.list|
    && forall i :: 0 <= i < Done(job) ==> AdmittedBy(log, job.list[i], request)
  }

  ghost predicate AllRight(s: System) {
    forall r {:trigger s.jobs[r]} :: r in s.jobs ==> JobRight(s.log, r, s.jobs[r])
  }

  lemma EventsSnoc(log: seq<LogEntry>, e: LogEntry, key: string)
    ensures EventsFor(log + [e], key) ==
            EventsFor(log, key) + match e
                                  case Elapsed(seconds) => [QuotaCounter.Pass(seconds)]
                                  case On(k, event) => if k == key then [event] else []
  {
    assert (log + [e])[..|log|] == log;
  }

  lemma CounterSnoc(log: seq<LogEntry>, e: LogEntry, c: Consumption)
    ensures CounterOf(log + [e], c) ==
            match e
            case Elapsed(seconds) => QuotaCounter.Apply(CounterOf(log, c), QuotaCounter.Pass(seconds), c.limit, c.windowSeconds)
            case On(k, event) =>
              if k == c.key then QuotaCounter.Apply(CounterOf(log, c), event, c.limit, c.windowSeconds) else CounterOf(log, c)
  {
    EventsSnoc(log, e, c.key);
    var before, after := EventsFor(log, c.key), EventsFor(log + [e], c.key);
    if after != before + [] {
      assert after[..|after| - 1] == before;
    } else {
      assert after == before;
    }
  }

  lemma AdmittedStays(log: seq<LogEntry>, e: LogEntry, c: Consumption, request: int)
    requires AdmittedBy(log, c, request)
    ensures AdmittedBy(log + [e], c, request)
  {
    CounterSnoc(log, e, c);
    var before, after := CounterOf(log, c), CounterOf(log + [e], c);
    var i :| 0 <= i < |before.admitted| && before.admitted[i].request == request && before.admitted[i].cost == c.cost;
    assert after.admitted[i] == before.admitted[i];
  }

  lemma JobStays(log: seq<LogEntry>, e: LogEntry, request: int, job: Job)
    requires JobRight(log, request, job)
    ensures JobRight(log + [e], request, job)
  {
    forall i | 0 <= i < Done(job) ensures AdmittedBy(log + [e], job.list[i], request) {
      AdmittedStays(log, e, job.list[i], request);
    }
  }

  lemma IncrementAdmits(log: seq<LogEntry>, c: Consumption, request: int)
    requires QuotaCounter.Incremented(CounterOf(log, c), c.cost).1 <= c.limit
    ensures AdmittedBy(log + [On(c.key, QuotaCounter.Increment(request, c.cost))], c, request)
  {
    var e := On(c.key, QuotaCounter.Increment(request, c.cost));
    CounterSnoc(log, e, c);
    var before, after := CounterOf(log, c), CounterOf(log + [e], c);
    assert after.admitted[|before.admitted|].request == request;
  }

  lemma AdvanceKeeps(s: System, request: int)
    requires AllRight(s) && request in s.jobs
    ensures AllRight(Advanced(s, request, s.jobs[request]))
  {
    var job := s.jobs[request];
    var after := Advanced(s, request, job);
    if after.log != s.log {
      var e := after.log[|s.log|];
      assert after.log == s.log + [e];
      forall r | r in after.jobs ensures JobRight(after.log, r, after.jobs[r]) {
        JobStays(s.log, e, r, s.jobs[r]);
        if r == request && job.phase.Counting? {
          var c := job.list[job.phase.at];
          if QuotaCounter.Incremented(CounterOf(s.log, c), c.cost).1 <= c.limit {
            IncrementAdmits(s.log, c, request);
          }
        }
      }
    }
  }

  lemma ApplyKeeps(s: System, e: Event)
    requires AllRight(s)
    ensures AllRight(Apply(s, e))
  {
    match e
    case Tick(seconds) =>
      forall r | r in s.jobs ensures JobRight(s.log + [Elapsed(seconds)], r, s.jobs[r]) {
        JobStays(s.log, Elapsed(seconds), r, s.jobs[r]);
      }
    case Arrive(request, list) =>
    case Advance(request) =>
      if request in s.jobs {
        AdvanceKeeps(s, request);
      }
    case Crash(request) =>
  }

  lemma {:induction false} RunKeeps(events: seq<Event>)
    ensures AllRight(Run(Start, events))
  {
    if events != [] {
      RunKeeps(events[..|events| - 1]);
      ApplyKeeps(Run(Start, events[..|events| - 1]), events[|events| - 1]);
    }
  }

  /** In every interleaving, a request that was let through has been admitted by all its counters. */
  lemma PassedIsAdmitted(events: seq<Event>, request: int, i: nat)
    requires var s := Run(Start, events);
             request in s.jobs && s.jobs[request].phase == Passed && i < |s.jobs[request].list|
    ensures var s := Run(Start, events); AdmittedBy(s.log, s.jobs[request].list[i], request)
  {
    RunKeeps(events);
  }

  // ----- a request that is refused was over a limit -----

  /** Counting the request took what its window was asked for over the limit. */
  ghost predicate Over(log: seq<LogEntry>, c: Consumption, request: int, i: nat) {
    var asked := CounterOf(log, c).asked;
    && i < |asked| && asked[i].request == request && asked[i].cost == c.cost
    && QuotaCounter.CostIn(asked[..i + 1], asked[i].window) > c.limit
  }

  ghost predicate OverLimit(log: seq<LogEntry>, c: Consumption, request: int) {
    exists i: nat :: Over(log, c, request, i)
  }

  lemma OverStays(log: seq<LogEntry>, e: LogEntry, c: Consumption, request: int)
    requires OverLimit(log, c, request)
    ensures OverLimit(log + [e], c, request)
  {
    CounterSnoc(log, e, c);
    var before, after := CounterOf(log, c), CounterOf(log + [e], c);
    var i: nat :| Over(log, c, request, i);
    assert |after.asked| >= |before.asked| && after.asked[..|before.asked|] == before.asked;
    assert after.asked[..i + 1] == before.asked[..i + 1] && after.asked[i] == before.asked[i];
    assert Over(log + [e], c, request, i);
  }

  lemma CountedOver(log: seq<LogEntry>, c: Consumption, request: int)
    requires QuotaCounter.Incremented(CounterOf(log, c), c.cost).1 > c.limit
    ensures OverLimit(log + [On(c.key, QuotaCounter.Increment(request, c.cost))], c, request)
  {
    var e := On(c.key, QuotaCounter.Increment(request, c.cost));
    var before := CounterOf(log, c);
    CounterSnoc(log, e, c);
    QuotaCounter.RunHoldsAsked(EventsFor(log, c.key), c.limit, c.windowSeconds);
    QuotaCounter.IncrementHoldsAsked(before, request, c.cost, c.limit, c.windowSeconds);
    var after := CounterOf(log + [e], c);
    assert after.asked[..|before.asked| + 1] == after.asked;
    assert Over(log + [e], c, request, |before.asked|);
  }

  /** A job that is refused, or waits to be once the expiry is set, was over the limit at that counter. */
  ghost predicate RefusalRight(log: seq<LogEntry>, request: int, job: Job) {
    && (job.phase.Refused? ==> job.phase.at < |job.list| && OverLimit(log, job.list[job.phase.at], request))
    && (job.phase.SettingExpiry? && !job.phase.allowed ==>
          job.phase.at < |job.list| && OverLimit(log, job.list[job.phase.at], request))
  }

  lemma RefusalStays(log: seq<LogEntry>, e: LogEntry, request: int, job: Job)
    requires RefusalRight(log, request, job)
    ensures RefusalRight(log + [e], request, job)
  {
    if job.phase.Refused? || (job.phase.SettingExpiry? && !job.phase.allowed) {
      OverStays(log, e, job.list[job.phase.at], request);
    }
  }

  lemma AdvanceRefuses(s: System, request: int)
    requires request in s.jobs && RefusalRight(s.log, request, s.jobs[request])
    ensures RefusalRight(Advanced(s, request, s.jobs[request]).log, request, Advanced(s, request, s.jobs[request]).jobs[request])
  {
    var job := s.jobs[request];
    match job.phase
    case Counting(at) =>
      if at < |job.list| && QuotaCounter.Incremented(CounterOf(s.log, job.list[at]), job.list[at].cost).1 > job.list[at].limit {
        CountedOver(s.log, job.list[at], request);
      }
    case SettingExpiry(at, allowed) =>
      if at < |job.list| && !allowed {
        OverStays(s.log, On(job.list[at].key, QuotaCounter.Expire), job.list[at], request);
      }
    case _ =>
  }

  lemma OthersRefusals(s: System, e: Event, r: int)
    requires r in s.jobs && RefusalRight(s.log, r, s.jobs[r]) && !(e.Advance? && e.request == r)
    ensures r in Apply(s, e).jobs ==> RefusalRight(Apply(s, e).log, r, Apply(s, e).jobs[r])
  {
    var after := Apply(s, e);
    if after.log != s.log {
      var entry := after.log[|s.log|];
      assert after.log == s.log + [entry];
      RefusalStays(s.log, entry, r, s.jobs[r]);
    }
  }

  /** In every interleaving a refused request took the counter that refused it over its limit: no request is refused without cause. */
  lemma {:induction false} RefusedIsOver(events: seq<Event>, request: int)
    ensures var s := Run(Start, events); request in s.jobs ==> RefusalRight(s.log, request, s.jobs[request])
  {
    if events != [] {
      var front, e := events[..|events| - 1], events[|events| - 1];
      RefusedIsOver(front, request);
      var s := Run(Start, front);
      if request in s.jobs {
        if e.Advance? && e.request == request {
          AdvanceRefuses(s, request);
        } else {
          OthersRefusals(s, e, request);
        }
      }
    }
  }

  // ----- and every counter is bounded -----

  ghost predicate CostsPositive(list: seq<Consumption>) {
    forall i :: 0 <= i < |list| ==> list[i].cost > 0
  }

  ghost predicate PositiveArrivals(events: seq<Event>) {
    forall i :: 0 <= i < |events| && events[i].Arrive? ==> CostsPositive(events[i].list)
  }

  ghost predicate PositiveLog(log: seq<LogEntry>) {
    forall i :: 0 <= i < |log| && log[i].On? && log[i].event.Increment? ==> log[i].event.cost > 0
  }

  lemma {:induction false} PositiveEvents(log: seq<LogEntry>, key: string)
    requires PositiveLog(log)
    ensures QuotaCounter.PositiveCosts(EventsFor(log, key))
  {
    if log != [] {
      PositiveEvents(log[..|log| - 1], key);
    }
  }

  ghost predicate PositiveJobs(s: System) {
    forall r {:trigger s.jobs[r]} :: r in s.jobs ==> CostsPositive(s.jobs[r].list)
  }

  lemma {:induction false} RunPositive(events: seq<Event>)
    requires PositiveArrivals(events)
    ensures PositiveLog(Run(Start, events).log) && PositiveJobs(Run(Start, events))
  {
    if events != [] {
      RunPositive(events[..|events| - 1]);
    }
  }

  /** Each counter a request consumes admits at most its limit per window, and twice that per window length. */
  lemma CountersAreBounded(events: seq<Event>, c: Consumption, window: int, from: int)
    requires PositiveArrivals(events) && c.limit >= 0 && c.windowSeconds >= 0
    ensures var admitted := CounterOf(Run(Start, events).log, c).admitted;
            && QuotaCounter.CostIn(admitted, window) <= c.limit
            && QuotaCounter.CostBetween(admitted, from, from + c.windowSeconds) <= 2 * c.limit
  {
    RunPositive(events);
    PositiveEvents(Run(Start, events).log, c.key);
    QuotaCounter.WindowIsBounded(EventsFor(Run(Start, events).log, c.key), c.limit, c.windowSeconds, window);
    QuotaCounter.TwiceTheLimit(EventsFor(Run(Start, events).log, c.key), c.limit, c.windowSeconds, from);
  }

  ghost predicate AdmittedIn(entries: seq<QuotaCounter.Admission>, request: int, cost: int, window: int) {
    exists i :: 0 <= i < |entries| && entries[i].request == request && entries[i].cost == cost && entries[i].window == window
  }

  lemma NoEntries(request: int, cost: int, window: int)
    ensures !AdmittedIn([], request, cost, window)
  {
  }

  lemma {:induction false} RequestsCost(entries: seq<QuotaCounter.Admission>, requests: set<int>, cost: int, window: int)
    requires forall i :: 0 <= i < |entries| ==> entries[i].cost > 0
    requires forall r :: r in requests ==> AdmittedIn(entries, r, cost, window)
    ensures |requests| * cost <= QuotaCounter.CostIn(entries, window)
  {
    if entries == [] {
      if requests != {} {
        NoEntries(Pick(requests), cost, window);
      }
    } else {
      var n := |entries| - 1;
      var last := entries[n];
      var counts := last.window == window && last.cost == cost && last.request in requests;
      var rest := if counts then requests - {last.request} else requests;
      forall r | r in rest ensures AdmittedIn(entries[..n], r, cost, window) {
        var i :| 0 <= i < |entries| && entries[i].request == r && entries[i].cost == cost && entries[i].window == window;
        assert entries[..n][i] == entries[i];
      }
      RequestsCost(entries[..n], rest, cost, window);
    }
  }

  /** Of the requests at one cost that a counter admits in one of its windows, the limit covers all. */
  lemma RequestsPerWindow(events: seq<Event>, c: Consumption, requests: set<int>, window: int)
    requires PositiveArrivals(events) && c.limit >= 0 && c.windowSeconds >= 0
    requires forall r :: r in requests ==> AdmittedIn(CounterOf(Run(Start, events).log, c).admitted, r, c.cost, window)
    ensures |requests| * c.cost <= c.limit
  {
    var log := Run(Start, events).log;
    CountersAreBounded(events, c, window, 0);
    RunPositive(events);
    PositiveEvents(log, c.key);
    QuotaCounter.RunKeeps(QuotaCounter.Fresh, EventsFor(log, c.key), c.limit, c.windowSeconds);
    var k := CounterOf(log, c);
    forall i | 0 <= i < |k.admitted| ensures k.admitted[i].cost > 0 {
      assert QuotaCounter.InItsWindow(k.admitted[i], k);
    }
    RequestsCost(k.admitted, requests, c.cost, window);
  }

  // ----- so the requests let through are bounded, by each of their four counters -----

  /** The consumptions the policy gives some caller of some route group. */
  ghost predicate FromPolicy(list: seq<Consumption>, config: Config) {
    exists cost, p, route {:trigger BuildQuotaConsumptions(config, cost, p, route)} ::
      cost > 0 && Hashed(p) && list == BuildQuotaConsumptions(config, cost, p, route)
  }

  ghost predicate PolicyArrivals(events: seq<Event>, config: Config) {
    forall i :: 0 <= i < |events| && events[i].Arrive? ==> FromPolicy(events[i].list, config)
  }

  ghost predicate PolicyJobs(s: System, config: Config) {
    forall r {:trigger s.jobs[r]} :: r in s.jobs ==> FromPolicy(s.jobs[r].list, config)
  }

  lemma {:induction false} RunPolicy(events: seq<Event>, config: Config)
    requires PolicyArrivals(events, config)
    ensures PolicyJobs(Run(Start, events), config)
  {
    if events != [] {
      RunPolicy(events[..|events| - 1], config);
    }
  }

  lemma PolicyIsPositive(events: seq<Event>, config: Config)
    requires PolicyArrivals(events, config)
    ensures PositiveArrivals(events)
  {
    forall i | 0 <= i < |events| && events[i].Arrive? ensures CostsPositive(events[i].list) {
      assert FromPolicy(events[i].list, config);
    }
  }

  /** One of the four counters of some caller. */
  ghost predicate IsCounter(c: Consumption, config: Config) {
    exists list, i: nat {:trigger FromPolicy(list, config), list[i]} :: FromPolicy(list, config) && i < |list| && list[i] == c
  }

  /** All consumptions with one key are the same counter. */
  lemma OneCounter(log: seq<LogEntry>, config: Config, c: Consumption, d: Consumption)
    requires IsCounter(c, config) && IsCounter(d, config) && c.key == d.key
    ensures CounterOf(log, c) == CounterOf(log, d) && c.limit == d.limit && c.windowSeconds == d.windowSeconds
  {
    var l1, i: nat :| FromPolicy(l1, config) && i < |l1| && l1[i] == c;
    var l2, j: nat :| FromPolicy(l2, config) && j < |l2| && l2[j] == d;
    var c1, p1, r1 :| c1 > 0 && Hashed(p1) && l1 == BuildQuotaConsumptions(config, c1, p1, r1);
    var c2, p2, r2 :| c2 > 0 && Hashed(p2) && l2 == BuildQuotaConsumptions(config, c2, p2, r2);
    SharedCountersAgree(config, c1, p1, r1, c2, p2, r2, i, j);
  }

  function JobCost(job: Job): int {
    if job.list == [] then 0 else job.list[0].cost
  }

  function Costs(s: System): map<int, int> {
    map r | r in s.jobs :: JobCost(s.jobs[r])
  }

  ghost predicate Consumes(job: Job, c: Consumption) {
    exists i :: 0 <= i < |job.list| && job.list[i].key == c.key
  }

  ghost predicate AdmittedBetween(entries: seq<QuotaCounter.Admission>, request: int, cost: int, from: int, till: int) {
    exists i :: 0 <= i < |entries| && entries[i].request == request && entries[i].cost == cost && from <= entries[i].time < till
  }

  /** The requests let through that share a counter, whose admission by it lies in one of its windows. */
  ghost function PassedIn(s: System, c: Consumption, window: int): set<int> {
    set r | r in s.jobs && s.jobs[r].phase == Passed && Consumes(s.jobs[r], c)
            && AdmittedIn(CounterOf(s.log, c).admitted, r, JobCost(s.jobs[r]), window)
  }

  /** Those whose admission by it lies in a stretch of time. */
  ghost function PassedBetween(s: System, c: Consumption, from: int, till: int): set<int> {
    set r | r in s.jobs && s.jobs[r].phase == Passed && Consumes(s.jobs[r], c)
            && AdmittedBetween(CounterOf(s.log, c).admitted, r, JobCost(s.jobs[r]), from, till)
  }

  function CostWhere(entries: seq<QuotaCounter.Admission>, inside: QuotaCounter.Admission -> bool): int {
    if entries == [] then 0
    else
      var last := entries[|entries| - 1];
      CostWhere(entries[..|entries| - 1], inside) + if inside(last) then last.cost else 0
  }

  lemma {:induction false} WindowCost(entries: seq<QuotaCounter.Admission>, window: int, inside: QuotaCounter.Admission -> bool)
    requires forall a :: inside(a) <==> a.window == window
    ensures CostWhere(entries, inside) == QuotaCounter.CostIn(entries, window)
  {
    if entries != [] {
      WindowCost(entries[..|entries| - 1], window, inside);
    }
  }

  lemma {:induction false} StretchCost(entries: seq<QuotaCounter.Admission>, from: int, till: int, inside: QuotaCounter.Admission -> bool)
    requires forall a :: inside(a) <==> from <= a.time < till
    ensures CostWhere(entries, inside) == QuotaCounter.CostBetween(entries, from, till)
  {
    if entries != [] {
      StretchCost(entries[..|entries| - 1], from, till, inside);
    }
  }

  ghost predicate AdmittedWhere(entries: seq<QuotaCounter.Admission>, request: int, cost: int, inside: QuotaCounter.Admission -> bool) {
    exists i :: 0 <= i < |entries| && entries[i].request == request && entries[i].cost == cost && inside(entries[i])
  }

  lemma InIsWhere(entries: seq<QuotaCounter.Admission>, request: int, cost: int, window: int, inside: QuotaCounter.Admission -> bool)
    requires AdmittedIn(entries, request, cost, window) && forall a :: inside(a) <==> a.window == window
    ensures AdmittedWhere(entries, request, cost, inside)
  {
  }

  lemma BetweenIsWhere(entries: seq<QuotaCounter.Admission>, request: int, cost: int, from: int, till: int,
                       inside: QuotaCounter.Admission -> bool)
    requires AdmittedBetween(entries, request, cost, from, till) && forall a :: inside(a) <==> from <= a.time < till
    ensures AdmittedWhere(entries, request, cost, inside)
  {
  }

  lemma NoneWhere(request: int, cost: int, inside: QuotaCounter.Admission -> bool)
    ensures !AdmittedWhere([], request, cost, inside)
  {
  }

  /** Requests admitted within some entries cost no more than those entries, each request counted once. */
  lemma {:induction false} AdmittedCost(entries: seq<QuotaCounter.Admission>, requests: set<int>, costs: map<int, int>,
                                        inside: QuotaCounter.Admission -> bool)
    requires forall i :: 0 <= i < |entries| ==> entries[i].cost > 0
    requires requests <= costs.Keys && forall r :: r in requests ==> AdmittedWhere(entries, r, costs[r], inside)
    ensures Sums.Sum(requests, costs) <= CostWhere(entries, inside)
  {
    if entries == [] {
      if requests != {} {
        NoneWhere(Pick(requests), costs[Pick(requests)], inside);
      }
    } else {
      var n := |entries| - 1;
      var last := entries[n];
      var counts := last.request in requests && costs[last.request] == last.cost && inside(last);
      var rest := if counts then requests - {last.request} else requests;
      forall r | r in rest ensures AdmittedWhere(entries[..n], r, costs[r], inside) {
        var i :| 0 <= i < |entries| && entries[i].request == r && entries[i].cost == costs[r] && inside(entries[i]);
        assert entries[..n][i] == entries[i];
      }
      AdmittedCost(entries[..n], rest, costs, inside);
      if counts {
        Sums.SumRemove(requests, last.request, costs);
      }
    }
  }

  lemma EntriesPositive(events: seq<Event>, c: Consumption)
    requires PositiveArrivals(events) && c.windowSeconds >= 0
    ensures forall i :: 0 <= i < |CounterOf(Run(Start, events).log, c).admitted| ==>
              CounterOf(Run(Start, events).log, c).admitted[i].cost > 0
  {
    RunPositive(events);
    PositiveEvents(Run(Start, events).log, c.key);
    QuotaCounter.RunKeeps(QuotaCounter.Fresh, EventsFor(Run(Start, events).log, c.key), c.limit, c.windowSeconds);
    var k := CounterOf(Run(Start, events).log, c);
    forall i | 0 <= i < |k.admitted| ensures k.admitted[i].cost > 0 {
      assert QuotaCounter.InItsWindow(k.admitted[i], k);
    }
  }

  lemma CostInWindow(entries: seq<QuotaCounter.Admission>, requests: set<int>, costs: map<int, int>, window: int)
    requires forall i :: 0 <= i < |entries| ==> entries[i].cost > 0
    requires requests <= costs.Keys && forall r :: r in requests ==> AdmittedIn(entries, r, costs[r], window)
    ensures Sums.Sum(requests, costs) <= QuotaCounter.CostIn(entries, window)
  {
    var inside := (a: QuotaCounter.Admission) => a.window == window;
    forall r | r in requests ensures AdmittedWhere(entries, r, costs[r], inside) {
      InIsWhere(entries, r, costs[r], window, inside);
    }
    AdmittedCost(entries, requests, costs, inside);
    WindowCost(entries, window, inside);
  }

  lemma CostInStretch(entries: seq<QuotaCounter.Admission>, requests: set<int>, costs: map<int, int>, from: int, till: int)
    requires forall i :: 0 <= i < |entries| ==> entries[i].cost > 0
    requires requests <= costs.Keys && forall r :: r in requests ==> AdmittedBetween(entries, r, costs[r], from, till)
    ensures Sums.Sum(requests, costs) <= QuotaCounter.CostBetween(entries, from, till)
  {
    var inside := (a: QuotaCounter.Admission) => from <= a.time < till;
    forall r | r in requests ensures AdmittedWhere(entries, r, costs[r], inside) {
      BetweenIsWhere(entries, r, costs[r], from, till, inside);
    }
    AdmittedCost(entries, requests, costs, inside);
    StretchCost(entries, from, till, inside);
  }

  /**
   The requests let through that share a counter cost at most its limit together when the counter
   admitted them in one of its windows.
   */
  lemma PassedCostPerWindow(events: seq<Event>, config: Config, c: Consumption, window: int)
    requires PolicyArrivals(events, config) && c.limit >= 0 && c.windowSeconds >= 0
    ensures var s := Run(Start, events);
            PassedIn(s, c, window) <= Costs(s).Keys && Sums.Sum(PassedIn(s, c, window), Costs(s)) <= c.limit
  {
    var s := Run(Start, events);
    PolicyIsPositive(events, config);
    EntriesPositive(events, c);
    CostInWindow(CounterOf(s.log, c).admitted, PassedIn(s, c, window), Costs(s), window);
    CountersAreBounded(events, c, window, 0);
  }

  /** And at most twice the limit when it admitted them in a stretch as long as its window. */
  lemma PassedCostPerStretch(events: seq<Event>, config: Config, c: Consumption, from: int, till: int)
    requires PolicyArrivals(events, config) && c.limit >= 0 && c.windowSeconds >= 0 && till == from + c.windowSeconds
    ensures var s := Run(Start, events);
            PassedBetween(s, c, from, till) <= Costs(s).Keys && Sums.Sum(PassedBetween(s, c, from, till), Costs(s)) <= 2 * c.limit
  {
    var s := StretchBounded(events, config, c, from, till);
    StretchHolds(s, c, from, till);
  }

  lemma StretchBounded(events: seq<Event>, config: Config, c: Consumption, from: int, till: int) returns (s: System)
    requires PolicyArrivals(events, config) && c.limit >= 0 && c.windowSeconds >= 0 && till == from + c.windowSeconds
    ensures s == Run(Start, events)
    ensures forall i :: 0 <= i < |CounterOf(s.log, c).admitted| ==> CounterOf(s.log, c).admitted[i].cost > 0
    ensures QuotaCounter.CostBetween(CounterOf(s.log, c).admitted, from, till) <= 2 * c.limit
  {
    s := Run(Start, events);
    PolicyIsPositive(events, config);
    EntriesPositive(events, c);
    CountersAreBounded(events, c, 0, from);
  }

  lemma StretchHolds(s: System, c: Consumption, from: int, till: int)
    requires forall i :: 0 <= i < |CounterOf(s.log, c).admitted| ==> CounterOf(s.log, c).admitted[i].cost > 0
    ensures PassedBetween(s, c, from, till) <= Costs(s).Keys
    ensures Sums.Sum(PassedBetween(s, c, from, till), Costs(s)) <= QuotaCounter.CostBetween(CounterOf(s.log, c).admitted, from, till)
  {
    CostInStretch(CounterOf(s.log, c).admitted, PassedBetween(s, c, from, till), Costs(s), from, till);
  }

  /**
   Every request let through has four counters and is among the bounded ones of each: whichever
   consumption `c` of the policy has the key of its `i`-th counter, `c` admitted it in some window, at
   some time.
   */
  lemma PassedIsBounded(events: seq<Event>, config: Config, request: int, i: nat, c: Consumption) returns (window: int, time: int)
    requires PolicyArrivals(events, config) && IsCounter(c, config)
    requires var s := Run(Start, events);
             request in s.jobs && s.jobs[request].phase == Passed && i < 4
             && i < |s.jobs[request].list| && s.jobs[request].list[i].key == c.key
    ensures var s := Run(Start, events);
            && |s.jobs[request].list| == 4
            && request in PassedIn(s, c, window)
            && forall from, till :: from <= time < till ==> request in PassedBetween(s, c, from, till)
  {
    var s := Run(Start, events);
    var job := s.jobs[request];
    RunPolicy(events, config);
    PassedIsAdmitted(events, request, i);
    assert FromPolicy(job.list, config);
    assert IsCounter(job.list[i], config);
    OneCounter(s.log, config, job.list[i], c);
    var entries := CounterOf(s.log, c).admitted;
    var k :| 0 <= k < |entries| && entries[k].request == request && entries[k].cost == job.list[i].cost;
    window, time := entries[k].window, entries[k].time;
    assert Consumes(job, c);
  }

  // ----- one request, nothing in between -----

  datatype Verdict = Next | TooMany(retryAfterSeconds: int)

  function Consumed(k: QuotaCounter.Key, request: int, c: Consumption): QuotaCounter.Key {
    var counted := QuotaCounter.Apply(k, QuotaCounter.Increment(request, c.cost), c.limit, c.windowSeconds);
    if QuotaCounter.Incremented(k, c.cost).1 == c.cost
    then QuotaCounter.Apply(counted, QuotaCounter.Expire, c.limit, c.windowSeconds) else counted
  }

  /** The seconds until the counter starts afresh, or a whole window when it has no expiry. */
  function RetryAfter(k: QuotaCounter.Key, c: Consumption): int {
    if QuotaCounter.TimeLeft(k) > 0 then QuotaCounter.TimeLeft(k) else c.windowSeconds
  }

  predicate Allows(k: QuotaCounter.Key, c: Consumption) {
    QuotaCounter.Incremented(k, c.cost).1 <= c.limit
  }

  /**
   Consume one counter after the other: `admitted` of them let the request through, the next one
   refused it, and those after that keep their state.
   */
  method EnforceQuota(keys: seq<QuotaCounter.RedisKey>, request: int, list: seq<Consumption>)
    returns (v: Verdict, ghost admitted: nat)
    requires |keys| == |list| && forall i, j :: 0 <= i < j < |keys| ==> keys[i] != keys[j]
    modifies set k | k in keys
    ensures admitted <= |list| && (v == Next <==> admitted == |list|)
    ensures forall i :: 0 <= i < admitted ==> Allows(old(keys[i].state), list[i])
    ensures admitted < |list| ==> !Allows(old(keys[admitted].state), list[admitted])
                                  && v == TooMany(RetryAfter(keys[admitted].state, list[admitted]))
    ensures forall i :: 0 <= i < |list| ==>
              keys[i].state == if i <= admitted then Consumed(old(keys[i].state), request, list[i]) else old(keys[i].state)
  {
    admitted := 0;
    for n := 0 to |list|
      invariant admitted == n
      invariant forall i :: 0 <= i < n ==> Allows(old(keys[i].state), list[i])
      invariant forall i :: 0 <= i < |list| ==>
                  keys[i].state == if i < n then Consumed(old(keys[i].state), request, list[i]) else old(keys[i].state)
    {
      var r := keys[n].Consume(request, list[n].cost, list[n].limit, list[n].windowSeconds);
      if !r.allowed {
        return TooMany(r.retryAfterSeconds), n;
      }
      admitted := admitted + 1;
    }
    v := Next;
  }
}
