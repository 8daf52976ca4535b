/**
 One fixed-window quota counter in Redis: increment, set the expiry after the first increment,
 read back. Requests interleave between increment and expiry, and time passes between any two steps.
 */
module QuotaCounter {
  import opened Common

  /** A stored counter; without an expiry it stays until one is set. */
  datatype Counter = Counter(value: int, expiresAt: Option<int>)

  /** One admitted request: when, at what cost, in which window of the key. */
  datatype Admission = Admission(request: int, time: int, cost: int, window: int)

  /** `starts` holds the time at which each window of the key began; the last one is open. */
  datatype Key = Key(now: int, counter: Option<Counter>, starts: seq<int>, admitted: seq<Admission>, asked: seq<Admission>)

  const Fresh := Key(0, None, [], [], [])

  /** What Redis finds under the key at this moment. */
  function Stored(k: Key): Option<Counter> {
    if k.counter.Some? && k.counter.value.expiresAt.Some? && k.counter.value.expiresAt.value <= k.now then None
    else k.counter
  }

  /** `incrBy`: an absent key starts at zero, and without an expiry. */
  function Incremented(k: Key, cost: int): (Key, int) {
    match Stored(k)
    case None => (k.(counter := Some(Counter(cost, None)), starts := k.starts + [k.now]), cost)
    case Some(c) => (k.(counter := Some(c.(value := c.value + cost))), c.value + cost)
  }

  /** `expire` on a key that is there; nothing happens to one that is not. */
  function Expiring(k: Key, windowSeconds: int): Key {
    match Stored(k)
    case None => k
    case Some(c) => k.(counter := Some(c.(expiresAt := Some(k.now + windowSeconds))))
  }

  /** `ttl` in seconds, negative when there is none. */
  function TimeLeft(k: Key): int {
    match Stored(k)
    case None => -2
    case Some(c) => if c.expiresAt == None then -1 else c.expiresAt.value - k.now
  }

  datatype Event =
    | Pass(seconds: nat)
    | Increment(request: int, cost: int)
    | Expire

  /** An increment admits its request when the count it returns is within the limit. */
  function Apply(k: Key, e: Event, limit: int, windowSeconds: int): Key {
    match e
    case Pass(seconds) => k.(now := k.now + seconds)
    case Increment(request, cost) =>
      var (after, count) := Incremented(k, cost);
      var entry := Admission(request, k.now, cost, |after.starts| - 1);
      after.(admitted := if count <= limit then k.admitted + [entry] else k.admitted, asked := k.asked + [entry])
    case Expire => Expiring(k, windowSeconds)
  }

  function Run(k: Key, events: seq<Event>, limit: int, windowSeconds: int): Key {
    if events == [] then k
    else Apply(Run(k, events[..|events| - 1], limit, windowSeconds), events[|events| - 1], limit, windowSeconds)
  }

  ghost predicate PositiveCosts(events: seq<Event>) {
    forall i :: 0 <= i < |events| && events[i].Increment? ==> events[i].cost > 0
  }

  /** Total cost of the entries of one window. */
  function CostIn(entries: seq<Admission>, window: int): int {
    if entries == [] then 0
    else CostIn(entries[..|entries| - 1], window) + if entries[|entries| - 1].window == window then entries[|entries| - 1].cost else 0
  }

  /** Total cost of the entries from `from` up to, but not including, `till`. */
  function CostBetween(entries: seq<Admission>, from: int, till: int): int {
    if entries == [] then 0
    else
      var last := entries[|entries| - 1];
      CostBetween(entries[..|entries| - 1], from, till) + if from <= last.time < till then last.cost else 0
  }

  ghost predicate WindowsApart(starts: seq<int>, windowSeconds: int) {
    forall i, j :: 0 <= i < j < |starts| ==> starts[i] + windowSeconds <= starts[j]
  }

  /** An entry lies in its window: after its start, and before the next one's. */
  ghost predicate InItsWindow(a: Admission, k: Key) {
    && 0 <= a.window < |k.starts| && a.cost > 0
    && k.starts[a.window] <= a.time <= k.now
    && (a.window + 1 < |k.starts| ==> a.time <= k.starts[a.window + 1])
  }

  /** Windows begin at least their length apart, and every admission lies in its window. */
  ghost predicate Timed(k: Key, windowSeconds: int) {
    && WindowsApart(k.starts, windowSeconds)
    && (forall i :: 0 <= i < |k.starts| ==> k.starts[i] <= k.now)
    && (k.counter == None <==> k.starts == [])
    && (k.counter.Some? && k.counter.value.expiresAt.Some? ==>
          k.starts[|k.starts| - 1] + windowSeconds <= k.counter.value.expiresAt.value)
    && (forall i :: 0 <= i < |k.admitted| ==> InItsWindow(k.admitted[i], k))
  }

  /** The counter covers what its window admitted, and no window admitted more than the limit. */
  ghost predicate Budgeted(k: Key, limit: int) {
    && (k.counter.Some? ==> k.counter.value.value > 0 && CostIn(k.admitted, |k.starts| - 1) <= k.counter.value.value)
    && (forall w {:trigger CostIn(k.admitted, w)} :: CostIn(k.admitted, w) <= if limit > 0 then limit else 0)
  }

  ghost predicate Valid(k: Key, limit: int, windowSeconds: int) {
    Timed(k, windowSeconds) && Budgeted(k, limit)
  }

  lemma {:induction false} NoneYet(entries: seq<Admission>, window: int)
    requires forall i :: 0 <= i < |entries| ==> entries[i].window < window
    ensures CostIn(entries, window) == 0
  {
    if entries != [] {
      NoneYet(entries[..|entries| - 1], window);
    }
  }

  lemma CostSnoc(entries: seq<Admission>, a: Admission, window: int)
    ensures CostIn(entries + [a], window) == CostIn(entries, window) + if a.window == window then a.cost else 0
  {
    assert (entries + [a])[..|entries|] == entries;
  }

  lemma PassKeeps(k: Key, seconds: nat, windowSeconds: int)
    requires Timed(k, windowSeconds)
    ensures Timed(k.(now := k.now + seconds), windowSeconds)
  {
    var after := k.(now := k.now + seconds);
    forall i | 0 <= i < |after.admitted| ensures InItsWindow(after.admitted[i], after) {
      assert InItsWindow(k.admitted[i], k);
    }
  }

  lemma ExpireKeeps(k: Key, windowSeconds: int)
    requires Timed(k, windowSeconds)
    ensures Timed(Expiring(k, windowSeconds), windowSeconds)
  {
    StayInWindow(k, Expiring(k, windowSeconds), k.admitted);
  }

  lemma NextWindowApart(starts: seq<int>, now: int, windowSeconds: int)
    requires WindowsApart(starts, windowSeconds) && windowSeconds >= 0
    requires starts != [] ==> starts[|starts| - 1] + windowSeconds <= now
    ensures WindowsApart(starts + [now], windowSeconds)
  {
    var n := |starts|;
    forall i | 0 <= i < n ensures starts[i] + windowSeconds <= now {
      if i < n - 1 {
        assert starts[i] + windowSeconds <= starts[n - 1];
      }
    }
  }

  /** Recording one more entry keeps every window within the limit, if its own window has room. */
  lemma RecordKeeps(entries: seq<Admission>, a: Admission, limit: int, count: int)
    requires forall w {:trigger CostIn(entries, w)} :: CostIn(entries, w) <= if limit > 0 then limit else 0
    requires CostIn(entries, a.window) + a.cost <= count <= limit && a.cost > 0
    ensures forall w {:trigger CostIn(entries + [a], w)} :: CostIn(entries + [a], w) <= if limit > 0 then limit else 0
    ensures CostIn(entries + [a], a.window) <= count
  {
    forall w ensures CostIn(entries + [a], w) == CostIn(entries, w) + if a.window == w then a.cost else 0 {
      CostSnoc(entries, a, w);
    }
  }

  lemma StayInWindow(k: Key, after: Key, entries: seq<Admission>)
    requires forall i :: 0 <= i < |entries| ==> InItsWindow(entries[i], k)
    requires after.now == k.now && (after.starts == k.starts || after.starts == k.starts + [k.now])
    ensures forall i :: 0 <= i < |entries| ==> InItsWindow(entries[i], after)
  {
    forall i | 0 <= i < |entries| ensures InItsWindow(entries[i], after) {
      assert InItsWindow(entries[i], k);
    }
  }

  /** The increment that opens a window does so no earlier than the last window's length after its start. */
  lemma OpenTimed(k: Key, request: int, cost: int, limit: int, windowSeconds: int)
    requires Timed(k, windowSeconds) && cost > 0 && windowSeconds >= 0 && Stored(k) == None
    ensures Timed(Apply(k, Increment(request, cost), limit, windowSeconds), windowSeconds)
  {
    var after := Apply(k, Increment(request, cost), limit, windowSeconds);
    NextWindowApart(k.starts, k.now, windowSeconds);
    StayInWindow(k, after, k.admitted);
  }

  lemma OpenBudgeted(k: Key, request: int, cost: int, limit: int, windowSeconds: int)
    requires Timed(k, windowSeconds) && Budgeted(k, limit) && cost > 0 && Stored(k) == None
    ensures Budgeted(Apply(k, Increment(request, cost), limit, windowSeconds), limit)
  {
    forall i | 0 <= i < |k.admitted| ensures k.admitted[i].window < |k.starts| {
      assert InItsWindow(k.admitted[i], k);
    }
    NoneYet(k.admitted, |k.starts|);
    if cost <= limit {
      RecordKeeps(k.admitted, Admission(request, k.now, cost, |k.starts|), limit, cost);
    }
  }

  lemma CountTimed(k: Key, request: int, cost: int, limit: int, windowSeconds: int)
    requires Timed(k, windowSeconds) && cost > 0 && Stored(k).Some?
    ensures Timed(Apply(k, Increment(request, cost), limit, windowSeconds), windowSeconds)
  {
    StayInWindow(k, Apply(k, Increment(request, cost), limit, windowSeconds), k.admitted);
  }

  lemma CountBudgeted(k: Key, request: int, cost: int, limit: int, windowSeconds: int)
    requires Budgeted(k, limit) && cost > 0 && Stored(k).Some?
    ensures Budgeted(Apply(k, Increment(request, cost), limit, windowSeconds), limit)
  {
    var count := k.counter.value.value + cost;
    if count <= limit {
      RecordKeeps(k.admitted, Admission(request, k.now, cost, |k.starts| - 1), limit, count);
    }
  }

  lemma IncrementKeeps(k: Key, request: int, cost: int, limit: int, windowSeconds: int)
    requires Valid(k, limit, windowSeconds) && cost > 0 && windowSeconds >= 0
    ensures Valid(Apply(k, Increment(request, cost), limit, windowSeconds), limit, windowSeconds)
  {
    if Stored(k) == None {
      OpenTimed(k, request, cost, limit, windowSeconds);
      OpenBudgeted(k, request, cost, limit, windowSeconds);
    } else {
      CountTimed(k, request, cost, limit, windowSeconds);
      CountBudgeted(k, request, cost, limit, windowSeconds);
    }
  }

  lemma {:induction false} RunKeeps(k: Key, events: seq<Event>, limit: int, windowSeconds: int)
    requires Valid(k, limit, windowSeconds) && PositiveCosts(events) && windowSeconds >= 0
    ensures Valid(Run(k, events, limit, windowSeconds), limit, windowSeconds)
  {
    if events != [] {
      var before := Run(k, events[..|events| - 1], limit, windowSeconds);
      RunKeeps(k, events[..|events| - 1], limit, windowSeconds);
      match events[|events| - 1]
      case Pass(seconds) => PassKeeps(before, seconds, windowSeconds);
      case Expire => ExpireKeeps(before, windowSeconds);
      case Increment(request, cost) => IncrementKeeps(before, request, cost, limit, windowSeconds);
    }
  }

  /**
   Whatever the order of increments and expiries, and even when an expiry is never set, each window
   of a key admits at most the limit.
   */
  lemma WindowIsBounded(events: seq<Event>, limit: int, windowSeconds: int, window: int)
    requires PositiveCosts(events) && limit >= 0 && windowSeconds >= 0
    ensures CostIn(Run(Fresh, events, limit, windowSeconds).admitted, window) <= limit
  {
    RunKeeps(Fresh, events, limit, windowSeconds);
  }

  /** Admissions less than a window apart fall into one window or two successive ones. */
  lemma TwoWindows(k: Key, limit: int, windowSeconds: int, a: Admission, b: Admission)
    requires Valid(k, limit, windowSeconds) && a in k.admitted && b in k.admitted
    requires a.time < b.time + windowSeconds && b.time < a.time + windowSeconds
    ensures b.window <= a.window + 1
  {
    assert InItsWindow(a, k) && InItsWindow(b, k);
  }

  lemma {:induction false} BetweenIsWithin(entries: seq<Admission>, from: int, till: int, w: int)
    requires forall i :: 0 <= i < |entries| ==> entries[i].cost > 0
    requires forall i :: 0 <= i < |entries| && from <= entries[i].time < till ==> w <= entries[i].window <= w + 1
    ensures CostBetween(entries, from, till) <= CostIn(entries, w) + CostIn(entries, w + 1)
  {
    if entries != [] {
      BetweenIsWithin(entries[..|entries| - 1], from, till, w);
    }
  }

  lemma {:induction false} LeastWindow(entries: seq<Admission>, from: int, till: int) returns (w: int, found: bool)
    ensures found ==> exists i :: 0 <= i < |entries| && from <= entries[i].time < till && entries[i].window == w
    ensures found ==> forall i :: 0 <= i < |entries| && from <= entries[i].time < till ==> w <= entries[i].window
    ensures !found ==> forall i :: 0 <= i < |entries| ==> !(from <= entries[i].time < till)
  {
    w, found := 0, false;
    if entries != [] {
      var n := |entries| - 1;
      w, found := LeastWindow(entries[..n], from, till);
      ghost var was := found;
      if was {
        var i :| 0 <= i < n && from <= entries[..n][i].time < till && entries[..n][i].window == w;
        assert entries[i].window == w;
      }
      if from <= entries[n].time < till && (!found || entries[n].window < w) {
        w, found := entries[n].window, true;
      }
    }
  }

  lemma StretchIsBounded(k: Key, limit: int, windowSeconds: int, from: int)
    requires Valid(k, limit, windowSeconds) && limit >= 0
    ensures CostBetween(k.admitted, from, from + windowSeconds) <= 2 * limit
  {
    var till := from + windowSeconds;
    var w, found := LeastWindow(k.admitted, from, till);
    forall i | 0 <= i < |k.admitted| && from <= k.admitted[i].time < till ensures w <= k.admitted[i].window <= w + 1 {
      var j :| 0 <= j < |k.admitted| && from <= k.admitted[j].time < till && k.admitted[j].window == w;
      TwoWindows(k, limit, windowSeconds, k.admitted[j], k.admitted[i]);
    }
    forall i | 0 <= i < |k.admitted| ensures k.admitted[i].cost > 0 {
      assert InItsWindow(k.admitted[i], k);
    }
    BetweenIsWithin(k.admitted, from, till, w);
    assert CostIn(k.admitted, w) <= limit && CostIn(k.admitted, w + 1) <= limit;
  }

  /** Any stretch of time as long as the window admits at most twice the limit. */
  lemma TwiceTheLimit(events: seq<Event>, limit: int, windowSeconds: int, from: int)
    requires PositiveCosts(events) && limit >= 0 && windowSeconds >= 0
    ensures CostBetween(Run(Fresh, events, limit, windowSeconds).admitted, from, from + windowSeconds) <= 2 * limit
  {
    RunKeeps(Fresh, events, limit, windowSeconds);
    StretchIsBounded(Run(Fresh, events, limit, windowSeconds), limit, windowSeconds, from);
  }

  // ----- nothing is refused without need when every request costs one -----

  ghost predicate UnitCosts(events: seq<Event>) {
    forall i :: 0 <= i < |events| && events[i].Increment? ==> events[i].cost == 1
  }

  ghost predicate Counts(k: Key, limit: int) {
    && (forall i :: 0 <= i < |k.asked| ==> k.asked[i].window < |k.starts|)
    && (forall i :: 0 <= i < |k.admitted| ==> k.admitted[i].window < |k.starts|)
    && (k.counter == None ==> k.starts == [])
    && (k.counter.Some? ==> k.starts != [] && k.counter.value.value == CostIn(k.asked, |k.starts| - 1))
    && (forall w {:trigger CostIn(k.admitted, w)} :: CostIn(k.admitted, w) == Least(limit, CostIn(k.asked, w)))
  }

  lemma AskOne(k: Key, request: int, limit: int, windowSeconds: int)
    requires Counts(k, limit) && limit >= 0
    ensures Counts(Apply(k, Increment(request, 1), limit, windowSeconds), limit)
  {
    var (after, count) := Incremented(k, 1);
    var entry := Admission(request, k.now, 1, |after.starts| - 1);
    CountIsAsked(k);
    CountsNext(k.admitted, k.asked, entry, count, limit);
    CostSnoc(k.asked, entry, entry.window);
    SnocInRange(k.admitted, entry, |k.starts|, |after.starts|);
    SnocInRange(k.asked, entry, |k.starts|, |after.starts|);
  }

  lemma SnocInRange(entries: seq<Admission>, a: Admission, n: nat, m: nat)
    requires (forall i :: 0 <= i < |entries| ==> entries[i].window < n) && n <= m && a.window < m
    ensures forall i :: 0 <= i < |entries| ==> entries[i].window < m
    ensures forall i :: 0 <= i < |entries + [a]| ==> (entries + [a])[i].window < m
  {
  }

  /** The next increment returns one more than what was asked of its window. */
  lemma CountIsAsked(k: Key)
    requires k.counter == None ==> k.starts == []
    requires k.counter.Some? ==> k.starts != [] && k.counter.value.value == CostIn(k.asked, |k.starts| - 1)
    requires forall i :: 0 <= i < |k.asked| ==> k.asked[i].window < |k.starts|
    ensures var (after, count) := Incremented(k, 1); after.starts != [] && count == CostIn(k.asked, |after.starts| - 1) + 1
  {
    if Stored(k) == None {
      NoneYet(k.asked, |k.starts|);
    }
  }

  lemma CountsNext(admitted: seq<Admission>, asked: seq<Admission>, entry: Admission, count: int, limit: int)
    requires forall w {:trigger CostIn(admitted, w)} :: CostIn(admitted, w) == Least(limit, CostIn(asked, w))
    requires entry.cost == 1 && count == CostIn(asked, entry.window) + 1
    ensures var more := if count <= limit then admitted + [entry] else admitted;
            forall w {:trigger CostIn(more, w)} :: CostIn(more, w) == Least(limit, CostIn(asked + [entry], w))
  {
    forall w
      ensures CostIn(if count <= limit then admitted + [entry] else admitted, w) == Least(limit, CostIn(asked + [entry], w))
    {
      assert CostIn(admitted, w) == Least(limit, CostIn(asked, w));
      CostSnoc(admitted, entry, w);
      CostSnoc(asked, entry, w);
    }
  }

  lemma {:induction false} RunCounts(events: seq<Event>, limit: int, windowSeconds: int)
    requires UnitCosts(events) && limit >= 0
    ensures Counts(Run(Fresh, events, limit, windowSeconds), limit)
  {
    if events != [] {
      RunCounts(events[..|events| - 1], limit, windowSeconds);
      var e := events[|events| - 1];
      if e.Increment? {
        AskOne(Run(Fresh, events[..|events| - 1], limit, windowSeconds), e.request, limit, windowSeconds);
      }
    }
  }

  /** With unit costs a window admits exactly as many requests as came, up to the limit. */
  lemma UnitWindowIsExact(events: seq<Event>, limit: int, windowSeconds: int, window: int)
    requires UnitCosts(events) && limit >= 0
    ensures var k := Run(Fresh, events, limit, windowSeconds);
            CostIn(k.admitted, window) == Least(limit, CostIn(k.asked, window))
  {
    RunCounts(events, limit, windowSeconds);
  }

  // ----- when a window ends -----

  function Later(k: Key, seconds: nat): Key {
    k.(now := k.now + seconds)
  }

  /** Once its expiry is set, a window lasts exactly its length: the count stays until then and is gone from then on. */
  lemma WindowLastsItsLength(k: Key, windowSeconds: int, seconds: nat)
    requires Stored(k).Some?
    ensures var stored := Stored(Later(Expiring(k, windowSeconds), seconds));
            && (stored == None <==> seconds >= windowSeconds)
            && (stored.Some? ==> stored.value.value == Stored(k).value.value && TimeLeft(Later(Expiring(k, windowSeconds), seconds)) == windowSeconds - seconds)
  {
  }

  /** The counter holds what its window was asked for, whatever the costs. */
  ghost predicate HoldsAsked(k: Key) {
    && (k.counter == None ==> k.starts == [])
    && (k.counter.Some? ==> k.starts != [] && k.counter.value.value == CostIn(k.asked, |k.starts| - 1))
    && (forall i :: 0 <= i < |k.asked| ==> k.asked[i].window < |k.starts|)
  }

  lemma IncrementHoldsAsked(k: Key, request: int, cost: int, limit: int, windowSeconds: int)
    requires HoldsAsked(k)
    ensures var after := Apply(k, Increment(request, cost), limit, windowSeconds);
            && HoldsAsked(after) && |after.asked| == |k.asked| + 1 && after.asked[..|k.asked|] == k.asked
            && after.asked[|k.asked|].request == request && after.asked[|k.asked|].cost == cost
            && Incremented(k, cost).1 == CostIn(after.asked, after.asked[|k.asked|].window)
  {
    var after := Apply(k, Increment(request, cost), limit, windowSeconds);
    var entry := Admission(request, k.now, cost, |after.starts| - 1);
    if Stored(k) == None {
      NoneYet(k.asked, |k.starts|);
    }
    CostSnoc(k.asked, entry, entry.window);
    SnocInRange(k.asked, entry, |k.starts|, |after.starts|);
  }

  lemma {:induction false} RunHoldsAsked(events: seq<Event>, limit: int, windowSeconds: int)
    ensures HoldsAsked(Run(Fresh, events, limit, windowSeconds))
  {
    if events != [] {
      var front, e := events[..|events| - 1], events[|events| - 1];
      RunHoldsAsked(front, limit, windowSeconds);
      if e.Increment? {
        IncrementHoldsAsked(Run(Fresh, front, limit, windowSeconds), e.request, e.cost, limit, windowSeconds);
      }
    }
  }

  // ----- the store -----

  datatype Result = Result(allowed: bool, remaining: int, retryAfterSeconds: int)

  /** A Redis key and the requests it has seen. */
  class RedisKey {
    var state: Key

    constructor ()
      ensures state == Fresh
    {
      state := Fresh;
    }

    /** `RedisQuotaStore.consume` with nothing between its calls. */
    method Consume(request: int, cost: int, limit: int, windowSeconds: int) returns (r: Result)
      modifies this
      ensures var counted := Apply(old(state), Increment(request, cost), limit, windowSeconds);
              var count := Incremented(old(state), cost).1;
              && state == (if count == cost then Apply(counted, Expire, limit, windowSeconds) else counted)
              && (r.allowed <==> count <= limit)
              && r.remaining == (if limit > count then limit - count else 0)
              && r.retryAfterSeconds == (if TimeLeft(state) > 0 then TimeLeft(state) else windowSeconds)
    {
      var (after, count) := Incremented(state, cost);
      var entry := Admission(request, state.now, cost, |after.starts| - 1);
      state := after.(admitted := if count <= limit then after.admitted + [entry] else after.admitted,
                      asked := after.asked + [entry]);
      if count == cost {
        state := Expiring(state, windowSeconds);
      }
      var ttl := TimeLeft(state);
      r := Result(count <= limit, if limit > count then limit - count else 0, if ttl > 0 then ttl else windowSeconds);
    }
  }
}
