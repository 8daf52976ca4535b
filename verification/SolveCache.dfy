/**
 The layout lab's result cache: many threads ask for keys, one of them builds a missing key while
 the others wait for it, and the least recently used results are dropped. Each section run under
 the lock is one step; threads interleave between steps in any order.
 */
module SolveCache {
  import opened Common
  import opened Sorting

  datatype SolveError = BuildRaised(code: int) | CompletedWithoutResult

  /** `_InFlightSolve`, with the key it is for and the thread that builds it. */
  datatype InFlight = InFlight(key: int, builder: int, signalled: bool, result: Option<int>, error: Option<SolveError>)

  /** A cached result; the list of them runs from least to most recently used. */
  datatype Entry = Entry(key: int, value: int)

  function KeysOf(results: seq<Entry>): seq<int> {
    seq(|results|, i requires 0 <= i < |results| => results[i].key)
  }

  function Find(results: seq<Entry>, key: int): Option<int> {
    if results == [] then None
    else if results[|results| - 1].key == key then Some(results[|results| - 1].value)
    else Find(results[..|results| - 1], key)
  }

  /** All entries but those of one key. */
  function Without(results: seq<Entry>, key: int): seq<Entry> {
    if results == [] then []
    else
      var n := |results| - 1;
      Without(results[..n], key) + if results[n].key == key then [] else [results[n]]
  }

  function DropTo(results: seq<Entry>, max: nat): seq<Entry> {
    if |results| <= max then results else results[|results| - max..]
  }

  lemma DropOne(results: seq<Entry>, max: nat)
    requires |results| > max
    ensures DropTo(results[1..], max) == DropTo(results, max)
  {
  }

  /** The shared state guarded by the lock. */
  datatype Cache = Cache(results: seq<Entry>, inFlight: map<int, int>, records: map<int, InFlight>, nextRecord: int)

  datatype Entered = Hit(value: int) | Build(record: int) | Wait(record: int)

  /** The first locked section of `get_or_build`. */
  function Enter(c: Cache, key: int, thread: int): (Cache, Entered) {
    var found := Find(c.results, key);
    if found.Some? then (c.(results := Without(c.results, key) + [Entry(key, found.value)]), Hit(found.value))
    else if key in c.inFlight then (c, Wait(c.inFlight[key]))
    else
      var id := c.nextRecord;
      (c.(inFlight := c.inFlight[key := id],
          records := c.records[id := InFlight(key, thread, false, None, None)], nextRecord := id + 1), Build(id))
  }

  /** The locked section after a build that returned. */
  function Publish(c: Cache, key: int, record: int, value: int, max: nat): Cache
    requires record in c.records
  {
    c.(results := DropTo(Without(c.results, key) + [Entry(key, value)], max), inFlight := c.inFlight - {key},
       records := c.records[record := c.records[record].(signalled := true, result := Some(value))])
  }

  /** The locked section after a build that raised. */
  function Withdraw(c: Cache, key: int, record: int, error: SolveError): Cache
    requires record in c.records
  {
    c.(inFlight := c.inFlight - {key},
       records := c.records[record := c.records[record].(signalled := true, error := Some(error))])
  }

  // ----- the class -----

  class SolveResultCache {
    const maxEntries: nat
    var results: seq<Entry>
    var inFlight: map<int, int>
    var records: map<int, InFlight>
    var nextRecord: int

    constructor (maxEntries: nat)
      ensures this.maxEntries == maxEntries && Snapshot() == Cache([], map[], map[], 1)
    {
      this.maxEntries := maxEntries;
      results, inFlight, records, nextRecord := [], map[], map[], 1;
    }

    function Snapshot(): Cache
      reads this
    {
      Cache(results, inFlight, records, nextRecord)
    }

    method EnterLocked(key: int, thread: int) returns (r: Entered)
      modifies this
      ensures (Snapshot(), r) == Enter(old(Snapshot()), key, thread)
    {
      var cached := Find(results, key);
      if cached.Some? {
        results := Without(results, key) + [Entry(key, cached.value)];
        return Hit(cached.value);
      }
      if key in inFlight {
        return Wait(inFlight[key]);
      }
      var id := nextRecord;
      nextRecord := id + 1;
      records := records[id := InFlight(key, thread, false, None, None)];
      inFlight := inFlight[key := id];
      return Build(id);
    }

    method PublishLocked(key: int, record: int, value: int)
      requires record in records
      modifies this
      ensures Snapshot() == Publish(old(Snapshot()), key, record, value, maxEntries)
    {
      records := records[record := records[record].(result := Some(value))];
      results := Without(results, key) + [Entry(key, value)];
      ghost var before := Snapshot();
      while |results| > maxEntries
        invariant Snapshot() == before.(results := results)
        invariant DropTo(results, maxEntries) == DropTo(before.results, maxEntries)
        decreases |results|
      {
        DropOne(results, maxEntries);
        results := results[1..];
      }
      inFlight := inFlight - {key};
      records := records[record := records[record].(signalled := true)];
    }

    method WithdrawLocked(key: int, record: int, error: SolveError)
      requires record in records
      modifies this
      ensures Snapshot() == Withdraw(old(Snapshot()), key, record, error)
    {
      records := records[record := records[record].(error := Some(error))];
      inFlight := inFlight - {key};
      records := records[record := records[record].(signalled := true)];
    }
  }

  // ----- every interleaving -----

  /** Where a call to `get_or_build` stands. `Gone` is a build ended by neither return nor exception. */
  datatype Call =
    | Building(key: int, record: int)
    | Waiting(key: int, record: int)
    | Returned(key: int, value: int)
    | Threw(key: int, error: SolveError)
    | Gone(key: int, record: int)

  /** `built` and `failures` are what builds have produced; `used` is every key stored or hit, in order. */
  datatype System = System(
    cache: Cache, calls: map<int, Call>, built: set<(int, int)>, failures: set<(int, SolveError)>, used: seq<int>)

  datatype Event =
    | Ask(call: int, key: int)
    | BuildReturns(call: int, value: int)
    | BuildRaises(call: int, code: int)
    | BuildAborts(call: int)
    | Wake(call: int)

  const Start := System(Cache([], map[], map[], 1), map[], {}, {}, [])

  ghost function Apply(s: System, e: Event, max: nat): System {
    match e
    case Ask(t, key) =>
      if t in s.calls then s
      else
        var (cache, r) := Enter(s.cache, key, t);
        (match r
         case Hit(value) => s.(cache := cache, calls := s.calls[t := Returned(key, value)], used := s.used + [key])
         case Build(record) => s.(cache := cache, calls := s.calls[t := Building(key, record)])
         case Wait(record) => s.(calls := s.calls[t := Waiting(key, record)]))
    case BuildReturns(t, value) =>
      if !(t in s.calls && s.calls[t].Building? && s.calls[t].record in s.cache.records) then s
      else
        var key := s.calls[t].key;
        s.(cache := Publish(s.cache, key, s.calls[t].record, value, max), calls := s.calls[t := Returned(key, value)],
           built := s.built + {(key, value)}, used := s.used + [key])
    case BuildRaises(t, code) =>
      if !(t in s.calls && s.calls[t].Building? && s.calls[t].record in s.cache.records) then s
      else
        var key := s.calls[t].key;
        s.(cache := Withdraw(s.cache, key, s.calls[t].record, BuildRaised(code)),
           calls := s.calls[t := Threw(key, BuildRaised(code))], failures := s.failures + {(key, BuildRaised(code))})
    case BuildAborts(t) =>
      if !(t in s.calls && s.calls[t].Building?) then s
      else s.(calls := s.calls[t := Gone(s.calls[t].key, s.calls[t].record)])
    case Wake(t) =>
      if !(t in s.calls && s.calls[t].Waiting? && s.calls[t].record in s.cache.records
           && s.cache.records[s.calls[t].record].signalled) then s
      else
        var key, r := s.calls[t].key, s.cache.records[s.calls[t].record];
        s.(calls := s.calls[t :=
          if r.error.Some? then Threw(key, r.error.value)
          else if r.result == None then Threw(key, CompletedWithoutResult)
          else Returned(key, r.result.value)])
  }

  ghost function Run(s: System, events: seq<Event>, max: nat): System {
    if events == [] then s else Apply(Run(s, events[..|events| - 1], max), events[|events| - 1], max)
  }

  // ----- what holds at every lock release -----

  ghost predicate InCache(c: Cache, key: int) {
    Find(c.results, key).Some?
  }

  /** Unsignalled records are the ones in flight and empty; signalled ones hold a result or an error, not both. */
  ghost predicate RecordsValid(c: Cache) {
    && (forall r {:trigger c.records[r]} :: r in c.records ==>
          && r < c.nextRecord
          && (c.records[r].signalled <==> (c.records[r].result.Some? || c.records[r].error.Some?))
          && !(c.records[r].result.Some? && c.records[r].error.Some?)
          && (!c.records[r].signalled <==> Get(c.inFlight, c.records[r].key) == Some(r)))
    && (forall k {:trigger c.inFlight[k]} :: k in c.inFlight ==>
          c.inFlight[k] in c.records && c.records[c.inFlight[k]].key == k && !InCache(c, k))
  }

  /** Every key in flight is being built by the one call its record names, unless that call is gone. */
  ghost predicate CallsValid(s: System) {
    && (forall t {:trigger s.calls[t]} :: t in s.calls ==>
          match s.calls[t]
          case Building(k, r) => Get(s.cache.inFlight, k) == Some(r) && r in s.cache.records && s.cache.records[r].builder == t
          case Gone(k, r) => Get(s.cache.inFlight, k) == Some(r) && r in s.cache.records && s.cache.records[r].builder == t
          case Waiting(k, r) => r in s.cache.records && s.cache.records[r].key == k
          case Returned(k, v) => (k, v) in s.built
          case Threw(k, e) => (k, e) in s.failures)
    && (forall k {:trigger s.cache.inFlight[k]} :: k in s.cache.inFlight ==>
          var r := s.cache.inFlight[k];
          r in s.cache.records &&
          var t := s.cache.records[r].builder;
          t in s.calls && (s.calls[t] == Building(k, r) || s.calls[t] == Gone(k, r)))
  }

  ghost predicate ValuesBuilt(s: System) {
    && (forall k {:trigger Find(s.cache.results, k)} ::
          Find(s.cache.results, k).Some? ==> (k, Find(s.cache.results, k).value) in s.built)
    && (forall r {:trigger s.cache.records[r]} :: r in s.cache.records ==>
          && (s.cache.records[r].result.Some? ==> (s.cache.records[r].key, s.cache.records[r].result.value) in s.built)
          && (s.cache.records[r].error.Some? ==> (s.cache.records[r].key, s.cache.records[r].error.value) in s.failures))
  }

  ghost predicate Valid(s: System) {
    RecordsValid(s.cache) && CallsValid(s) && ValuesBuilt(s)
  }

  lemma {:induction false} FindWithout(results: seq<Entry>, key: int, k: int)
    ensures Find(Without(results, key), k) == if k == key then None else Find(results, k)
  {
    if results != [] {
      var n := |results| - 1;
      FindWithout(results[..n], key, k);
      var front := Without(results[..n], key);
      assert front + [] == front;
      assert (front + [results[n]])[..|front|] == front;
    }
  }

  lemma FindSnoc(results: seq<Entry>, e: Entry, k: int)
    ensures Find(results + [e], k) == if k == e.key then Some(e.value) else Find(results, k)
  {
    assert (results + [e])[..|results|] == results;
  }

  lemma {:induction false} FindSuffix(results: seq<Entry>, from: nat, k: int)
    requires from <= |results|
    ensures Find(results[from..], k).Some? ==> Find(results[from..], k) == Find(results, k)
  {
    if from < |results| {
      var n := |results| - 1;
      FindSuffix(results[..n], from, k);
      assert results[from..][..n - from] == results[..n][from..];
    }
  }

  /** What moving a key to the end does to the other keys: nothing. */
  lemma FindMoved(results: seq<Entry>, key: int, value: int, k: int)
    ensures Find(Without(results, key) + [Entry(key, value)], k) == if k == key then Some(value) else Find(results, k)
  {
    FindWithout(results, key, k);
    FindSnoc(Without(results, key), Entry(key, value), k);
  }

  lemma FindPublished(results: seq<Entry>, key: int, value: int, max: nat, k: int)
    ensures var after := DropTo(Without(results, key) + [Entry(key, value)], max);
            Find(after, k).Some? ==> Find(after, k) == if k == key then Some(value) else Find(results, k)
  {
    var all := Without(results, key) + [Entry(key, value)];
    FindMoved(results, key, value, k);
    if |all| > max {
      FindSuffix(all, |all| - max, k);
    }
  }

  lemma HitKeeps(s: System, t: int, key: int, max: nat)
    requires Valid(s) && InCache(s.cache, key)
    ensures Valid(Apply(s, Ask(t, key), max))
  {
    var value := Find(s.cache.results, key).value;
    forall k ensures Find(Without(s.cache.results, key) + [Entry(key, value)], k) == Find(s.cache.results, k) {
      FindMoved(s.cache.results, key, value, k);
    }
  }

  lemma JoinKeeps(s: System, t: int, key: int, max: nat)
    requires Valid(s) && !InCache(s.cache, key) && key in s.cache.inFlight
    ensures Valid(Apply(s, Ask(t, key), max))
  {
  }

  lemma BeginKeeps(s: System, t: int, key: int, max: nat)
    requires Valid(s) && !InCache(s.cache, key) && key !in s.cache.inFlight
    ensures Valid(Apply(s, Ask(t, key), max))
  {
  }

  lemma AskKeeps(s: System, t: int, key: int, max: nat)
    requires Valid(s)
    ensures Valid(Apply(s, Ask(t, key), max))
  {
    if InCache(s.cache, key) {
      HitKeeps(s, t, key, max);
    } else if key in s.cache.inFlight {
      JoinKeeps(s, t, key, max);
    } else {
      BeginKeeps(s, t, key, max);
    }
  }

  lemma ReturnKeeps(s: System, t: int, value: int, max: nat)
    requires Valid(s)
    ensures Valid(Apply(s, BuildReturns(t, value), max))
  {
    if t in s.calls && s.calls[t].Building? {
      var key := s.calls[t].key;
      forall k ensures var after := DropTo(Without(s.cache.results, key) + [Entry(key, value)], max);
                       Find(after, k).Some? ==> Find(after, k) == if k == key then Some(value) else Find(s.cache.results, k)
      {
        FindPublished(s.cache.results, key, value, max, k);
      }
    }
  }

  lemma RaiseKeeps(s: System, t: int, code: int, max: nat)
    requires Valid(s)
    ensures Valid(Apply(s, BuildRaises(t, code), max))
  {
  }

  lemma WakeKeeps(s: System, t: int, max: nat)
    requires Valid(s)
    ensures Valid(Apply(s, Wake(t), max))
  {
  }

  lemma {:induction false} RunKeepsValid(s: System, events: seq<Event>, max: nat)
    requires Valid(s)
    ensures Valid(Run(s, events, max))
  {
    if events != [] {
      RunKeepsValid(s, events[..|events| - 1], max);
      var before := Run(s, events[..|events| - 1], max);
      match events[|events| - 1]
      case Ask(t, key) => AskKeeps(before, t, key, max);
      case BuildReturns(t, value) => ReturnKeeps(before, t, value, max);
      case BuildRaises(t, code) => RaiseKeeps(before, t, code, max);
      case BuildAborts(_) =>
      case Wake(t) => WakeKeeps(before, t, max);
    }
  }

  /**
   At every lock release, in every interleaving: a key has at most one call building it, is never
   both cached and in flight, a signalled record holds exactly one of a result and an error, and
   what a call returned, or raised, is what a build of its key returned, or raised.
   */
  lemma SingleFlight(events: seq<Event>, max: nat)
    ensures var s := Run(Start, events, max);
            && (forall t, u {:trigger s.calls[t], s.calls[u]} ::
                  (t in s.calls && u in s.calls && s.calls[t].Building? && s.calls[u].Building?
                   && s.calls[t].key == s.calls[u].key) ==> t == u)
            && (forall k :: k in s.cache.inFlight ==> !InCache(s.cache, k))
            && (forall r :: r in s.cache.records && s.cache.records[r].signalled ==>
                  s.cache.records[r].result.Some? != s.cache.records[r].error.Some?)
            && (forall t :: t in s.calls && s.calls[t].Returned? ==> (s.calls[t].key, s.calls[t].value) in s.built)
            && (forall t :: t in s.calls && s.calls[t].Threw? ==> (s.calls[t].key, s.calls[t].error) in s.failures)
            && (forall k :: InCache(s.cache, k) ==> (k, Find(s.cache.results, k).value) in s.built)
  {
    RunKeepsValid(Start, events, max);
  }

  lemma {:induction false} FailuresComeFromBuilds(s: System, events: seq<Event>, max: nat, k: int, e: SolveError)
    requires (k, e) in Run(s, events, max).failures && (k, e) !in s.failures
    ensures e.BuildRaised?
  {
    if events != [] && (k, e) in Run(s, events[..|events| - 1], max).failures {
      FailuresComeFromBuilds(s, events[..|events| - 1], max, k, e);
    }
  }

  /** So no call ever raises for having found its record without a result. */
  lemma NeverWithoutResult(events: seq<Event>, max: nat, t: int)
    requires var s := Run(Start, events, max); t in s.calls && s.calls[t].Threw?
    ensures Run(Start, events, max).calls[t].error.BuildRaised?
  {
    var s := Run(Start, events, max);
    RunKeepsValid(Start, events, max);
    FailuresComeFromBuilds(Start, events, max, s.calls[t].key, s.calls[t].error);
  }

  // ----- waiting -----

  /** The call a waiting call waits for, while its record is not signalled. */
  ghost predicate WaitsFor(s: System, t: int, u: int) {
    && t in s.calls && s.calls[t].Waiting?
    && u in s.calls && (s.calls[u].Building? || s.calls[u].Gone?)
    && s.calls[u].record == s.calls[t].record && s.calls[u].key == s.calls[t].key
  }

  ghost predicate CanWake(s: System, t: int) {
    && t in s.calls && s.calls[t].Waiting? && s.calls[t].record in s.cache.records
    && s.cache.records[s.calls[t].record].signalled
  }

  /** A waiting call can go on, or waits for exactly one call, whose end by return or exception lets it. */
  lemma WaitersAreServed(s: System, t: int, value: int, code: int, max: nat)
    requires Valid(s) && t in s.calls && s.calls[t].Waiting?
    ensures CanWake(s, t) || exists u :: WaitsFor(s, t, u)
    ensures forall u :: (WaitsFor(s, t, u) && s.calls[u].Building?) ==>
              (CanWake(Apply(s, BuildReturns(u, value), max), t) && CanWake(Apply(s, BuildRaises(u, code), max), t))
  {
    var r := s.calls[t].record;
    if !s.cache.records[r].signalled {
      assert Get(s.cache.inFlight, s.calls[t].key) == Some(r);
      assert WaitsFor(s, t, s.cache.records[r].builder);
    }
  }

  /** A builder that ends otherwise leaves its key in flight, and those waiting for it waiting, for good. */
  lemma {:induction false} AbortedKeyIsStuck(s: System, u: int, t: int, events: seq<Event>, max: nat)
    requires Valid(s) && WaitsFor(s, t, u) && s.calls[u].Gone?
    ensures var after := Run(s, events, max);
            && WaitsFor(after, t, u) && after.calls[u] == s.calls[u] && after.calls[t] == s.calls[t]
            && !CanWake(after, t) && !InCache(after.cache, s.calls[u].key)
  {
    if events != [] {
      var front := events[..|events| - 1];
      AbortedKeyIsStuck(s, u, t, front, max);
      RunKeepsValid(s, front, max);
      StuckStep(Run(s, front, max), u, t, events[|events| - 1], max);
    }
    RunKeepsValid(s, events, max);
    StuckNow(Run(s, events, max), u, t);
  }

  lemma StuckStep(s: System, u: int, t: int, e: Event, max: nat)
    requires Valid(s) && WaitsFor(s, t, u) && s.calls[u].Gone?
    ensures var after := Apply(s, e, max); WaitsFor(after, t, u) && after.calls[u] == s.calls[u] && after.calls[t] == s.calls[t]
  {
  }

  lemma StuckNow(s: System, u: int, t: int)
    requires Valid(s) && WaitsFor(s, t, u) && s.calls[u].Gone?
    ensures !CanWake(s, t) && !InCache(s.cache, s.calls[u].key)
  {
  }

  /** The call whose build a waiting call waits for. */
  function BuilderOf(s: System, t: int): Option<int> {
    if t in s.calls && s.calls[t].Waiting? && s.calls[t].record in s.cache.records
    then Some(s.cache.records[s.calls[t].record].builder) else None
  }

  ghost predicate StillBuilding(s: System, t: int) {
    BuilderOf(s, t).Some? && BuilderOf(s, t).value in s.calls && s.calls[BuilderOf(s, t).value].Building?
    && s.calls[BuilderOf(s, t).value].record == s.calls[t].record
  }

  /** Some continuation wakes a waiting call if and only if it can wake already or its builder is still building. */
  lemma WakesIff(s: System, t: int, max: nat)
    requires Valid(s) && t in s.calls && s.calls[t].Waiting?
    ensures (exists events :: CanWake(Run(s, events, max), t)) <==> CanWake(s, t) || StillBuilding(s, t)
  {
    var r := s.calls[t].record;
    if CanWake(s, t) {
      assert Run(s, [], max) == s;
      assert CanWake(Run(s, [], max), t);
    } else {
      assert Get(s.cache.inFlight, s.calls[t].key) == Some(r);
      var u := s.cache.records[r].builder;
      assert WaitsFor(s, t, u);
      if s.calls[u].Building? {
        var events := [BuildReturns(u, 0)];
        var after := RunNext(s, events, 0, 1, max);
        assert events[..1] == events && events[..0] == [];
        WaitersAreServed(s, t, 0, 0, max);
        assert CanWake(Run(s, events, max), t);
      } else {
        forall events ensures !CanWake(Run(s, events, max), t) {
          AbortedKeyIsStuck(s, u, t, events, max);
        }
        assert !StillBuilding(s, t);
      }
    }
  }

  lemma RunNext(s: System, events: seq<Event>, k: nat, next: nat, max: nat) returns (after: System)
    requires next == k + 1 <= |events|
    ensures after == Run(s, events[..next], max) == Apply(Run(s, events[..k], max), events[k], max)
  {
    assert events[..next][..k] == events[..k];
    after := Run(s, events[..next], max);
  }

  /** One call begins to build a key, another waits for it, and the build ends by neither return nor exception. */
  lemma AbortStrands(key: int, max: nat, events: seq<Event>)
    ensures var s := Run(Start, [Ask(1, key), Ask(2, key), BuildAborts(1)], max);
            && s.calls == map[1 := Gone(key, 1), 2 := Waiting(key, 1)]
            && !CanWake(Run(s, events, max), 2) && !InCache(Run(s, events, max).cache, key)
  {
    var path := [Ask(1, key), Ask(2, key), BuildAborts(1)];
    assert path[..0] == [] && path[..3] == path;
    var s1 := RunNext(Start, path, 0, 1, max);
    var s2 := RunNext(Start, path, 1, 2, max);
    var s := RunNext(Start, path, 2, 3, max);
    assert s1.calls == map[1 := Building(key, 1)];
    assert s2.calls == map[1 := Building(key, 1), 2 := Waiting(key, 1)];
    RunKeepsValid(Start, path, max);
    assert WaitsFor(s, 2, 1);
    AbortedKeyIsStuck(s, 1, 2, events, max);
  }

  // ----- recency -----

  function Removed(keys: seq<int>, key: int): seq<int> {
    if keys == [] then []
    else
      var n := |keys| - 1;
      Removed(keys[..n], key) + if keys[n] == key then [] else [keys[n]]
  }

  /** The keys of a use history, each once, from least to most recently used. */
  function Recent(used: seq<int>): seq<int> {
    if used == [] then []
    else
      var n := |used| - 1;
      Removed(Recent(used[..n]), used[n]) + [used[n]]
  }

  function Latest(keys: seq<int>, max: nat): seq<int> {
    if |keys| <= max then keys else keys[|keys| - max..]
  }

  lemma {:induction false} RemovedConcat(a: seq<int>, b: seq<int>, key: int)
    ensures Removed(a + b, key) == Removed(a, key) + Removed(b, key)
  {
    if b == [] {
      assert a + b == a;
    } else {
      var n := |b| - 1;
      RemovedConcat(a, b[..n], key);
      assert (a + b)[..|a| + n] == a + b[..n];
    }
  }

  lemma {:induction false} RemovedAbsent(a: seq<int>, key: int)
    requires key !in a
    ensures Removed(a, key) == a
  {
    if a != [] {
      RemovedAbsent(a[..|a| - 1], key);
    }
  }

  lemma {:induction false} RemovedHas(a: seq<int>, key: int, x: int)
    ensures x in Removed(a, key) <==> x in a && x != key
  {
    if a != [] {
      RemovedHas(a[..|a| - 1], key, x);
      assert a == a[..|a| - 1] + [a[|a| - 1]];
    }
  }

  lemma {:induction false} RemovedOnce(a: seq<int>, key: int)
    requires AllDifferent(a)
    ensures AllDifferent(Removed(a, key))
  {
    if a != [] {
      var n := |a| - 1;
      RemovedOnce(a[..n], key);
      RemovedHas(a[..n], key, a[n]);
      assert a[n] !in a[..n];
    }
  }

  lemma {:induction false} RemovedShorter(a: seq<int>, key: int)
    requires AllDifferent(a) && key in a
    ensures |Removed(a, key)| == |a| - 1
  {
    var n := |a| - 1;
    if a[n] == key {
      assert key !in a[..n];
      RemovedAbsent(a[..n], key);
    } else {
      assert a == a[..n] + [a[n]];
      RemovedShorter(a[..n], key);
    }
  }

  lemma {:induction false} RecentOnce(used: seq<int>)
    ensures AllDifferent(Recent(used))
  {
    if used != [] {
      var n := |used| - 1;
      RecentOnce(used[..n]);
      RemovedOnce(Recent(used[..n]), used[n]);
      RemovedHas(Recent(used[..n]), used[n], used[n]);
    }
  }

  lemma LatestIsEnd(keys: seq<int>, max: nat) returns (dropped: seq<int>)
    ensures keys == dropped + Latest(keys, max)
    ensures |Latest(keys, max)| <= max && (dropped != [] ==> |Latest(keys, max)| == max)
  {
    dropped := keys[..|keys| - |Latest(keys, max)|];
  }

  /** Using a cached key moves it to the end of what is cached. */
  lemma TouchLatest(keys: seq<int>, max: nat, key: int)
    requires AllDifferent(keys) && key in Latest(keys, max)
    ensures Removed(Latest(keys, max), key) + [key] == Latest(Removed(keys, key) + [key], max)
  {
    var a := LatestIsEnd(keys, max);
    TouchParts(a, Latest(keys, max), max, key);
  }

  lemma TouchParts(a: seq<int>, b: seq<int>, max: nat, key: int)
    requires AllDifferent(a + b) && key in b && |b| <= max && (a != [] ==> |b| == max)
    ensures Removed(b, key) + [key] == Latest(Removed(a + b, key) + [key], max)
  {
    EndHasIt(a, b, key);
    TouchEnd(a, b, key);
    LatestOf(a, Removed(b, key) + [key], max);
  }

  lemma TouchEnd(a: seq<int>, b: seq<int>, key: int)
    requires key !in a && key in b && AllDifferent(b)
    ensures Removed(a + b, key) + [key] == a + (Removed(b, key) + [key])
    ensures |Removed(b, key) + [key]| == |b|
  {
    RemovedConcat(a, b, key);
    RemovedAbsent(a, key);
    RemovedShorter(b, key);
  }

  lemma LatestOf(a: seq<int>, b: seq<int>, max: nat)
    requires |b| <= max && (a != [] ==> |b| == max)
    ensures Latest(a + b, max) == b
  {
  }

  lemma EndHasIt(a: seq<int>, b: seq<int>, key: int)
    requires AllDifferent(a + b) && key in b
    ensures key !in a && AllDifferent(b)
  {
    var j :| 0 <= j < |b| && b[j] == key;
    assert (a + b)[|a| + j] == key;
    forall i | 0 <= i < |a| ensures a[i] != key {
      assert (a + b)[i] == a[i];
    }
    forall i, k | 0 <= i < k < |b| ensures b[i] != b[k] {
      assert (a + b)[|a| + i] == b[i] && (a + b)[|a| + k] == b[k];
    }
  }

  lemma LatestIgnores(x: seq<int>, c: seq<int>, max: nat)
    requires |c| >= max || x == []
    ensures Latest(x + c, max) == Latest(c, max)
  {
    if x == [] {
      assert x + c == c;
    } else {
      assert (x + c)[|x + c| - max..] == c[|c| - max..];
    }
  }

  lemma StoreEnd(a: seq<int>, b: seq<int>, key: int)
    requires key !in b
    ensures Removed(a + b, key) + [key] == Removed(a, key) + (b + [key])
  {
    RemovedConcat(a, b, key);
    RemovedAbsent(b, key);
  }

  /** Storing a key that is not cached drops the least recently used one when there is no room. */
  lemma StoreLatest(keys: seq<int>, max: nat, key: int)
    requires key !in Latest(keys, max)
    ensures Latest(Latest(keys, max) + [key], max) == Latest(Removed(keys, key) + [key], max)
  {
    var b := Latest(keys, max);
    var a := LatestIsEnd(keys, max);
    StoreEnd(a, b, key);
    LatestIgnores(Removed(a, key), b + [key], max);
  }

  lemma {:induction false} KeysWithout(results: seq<Entry>, key: int)
    ensures KeysOf(Without(results, key)) == Removed(KeysOf(results), key)
  {
    if results != [] {
      var n := |results| - 1;
      KeysWithout(results[..n], key);
      assert KeysOf(results)[..n] == KeysOf(results[..n]);
    }
  }

  lemma {:induction false} FindIsKey(results: seq<Entry>, key: int)
    ensures Find(results, key).Some? <==> key in KeysOf(results)
  {
    if results != [] {
      var n := |results| - 1;
      FindIsKey(results[..n], key);
      assert KeysOf(results) == KeysOf(results[..n]) + [results[n].key];
    }
  }

  ghost predicate MostRecent(s: System, max: nat) {
    KeysOf(s.cache.results) == Latest(Recent(s.used), max)
  }

  lemma RecentNext(used: seq<int>, key: int)
    ensures Recent(used + [key]) == Removed(Recent(used), key) + [key]
  {
    assert (used + [key])[..|used|] == used;
  }

  lemma KeysTouched(results: seq<Entry>, key: int, value: int)
    ensures KeysOf(Without(results, key) + [Entry(key, value)]) == Removed(KeysOf(results), key) + [key]
  {
    KeysWithout(results, key);
    var kept := Without(results, key);
    assert KeysOf(kept + [Entry(key, value)]) == KeysOf(kept) + [key];
  }

  lemma KeysDropped(results: seq<Entry>, max: nat)
    ensures KeysOf(DropTo(results, max)) == Latest(KeysOf(results), max)
  {
  }

  lemma TouchKeepsRecent(s: System, key: int, value: int, max: nat)
    requires MostRecent(s, max) && InCache(s.cache, key)
    ensures KeysOf(Without(s.cache.results, key) + [Entry(key, value)]) == Latest(Recent(s.used + [key]), max)
  {
    FindIsKey(s.cache.results, key);
    KeysTouched(s.cache.results, key, value);
    RecentOnce(s.used);
    TouchLatest(Recent(s.used), max, key);
    RecentNext(s.used, key);
  }

  lemma StoreKeepsRecent(s: System, key: int, value: int, max: nat)
    requires MostRecent(s, max) && !InCache(s.cache, key)
    ensures KeysOf(DropTo(Without(s.cache.results, key) + [Entry(key, value)], max)) == Latest(Recent(s.used + [key]), max)
  {
    FindIsKey(s.cache.results, key);
    KeysTouched(s.cache.results, key, value);
    RemovedAbsent(KeysOf(s.cache.results), key);
    KeysDropped(Without(s.cache.results, key) + [Entry(key, value)], max);
    StoreLatest(Recent(s.used), max, key);
    RecentNext(s.used, key);
  }

  lemma ApplyKeepsRecent(s: System, e: Event, max: nat)
    requires Valid(s) && MostRecent(s, max)
    ensures MostRecent(Apply(s, e, max), max)
  {
    match e
    case Ask(t, key) =>
      if t !in s.calls && InCache(s.cache, key) {
        TouchKeepsRecent(s, key, Find(s.cache.results, key).value, max);
      }
    case BuildReturns(t, value) =>
      if t in s.calls && s.calls[t].Building? {
        NotCached(s, t);
        StoreKeepsRecent(s, s.calls[t].key, value, max);
      }
    case _ =>
  }

  lemma NotCached(s: System, t: int)
    requires Valid(s) && t in s.calls && s.calls[t].Building?
    ensures !InCache(s.cache, s.calls[t].key)
  {
    assert s.calls[t].key in s.cache.inFlight;
  }

  /** At every lock release the cached keys are the most recently used ones, in order, and at most `max`. */
  lemma {:induction false} KeepsMostRecent(events: seq<Event>, max: nat)
    ensures var s := Run(Start, events, max); MostRecent(s, max) && |s.cache.results| <= max
  {
    if events != [] {
      KeepsMostRecent(events[..|events| - 1], max);
      RunKeepsValid(Start, events[..|events| - 1], max);
      ApplyKeepsRecent(Run(Start, events[..|events| - 1], max), events[|events| - 1], max);
    }
    assert |KeysOf(Run(Start, events, max).cache.results)| == |Run(Start, events, max).cache.results|;
  }
}
