/**
 Webhook events and their wakeup rows: an event is recorded once with a wakeup, listed while it
 waits, and marked processed or failed.
 */
module Webhook {
  import opened Common

  datatype Event = Event(payload: string, processedAt: Option<int>, lastError: Option<string>, updatedAt: Option<int>)

  /** `wakeups` lists the event ids of the wakeup rows in the order of their row ids. */
  datatype Inbox = Inbox(events: map<string, Event>, wakeups: seq<string>)

  const Empty := Inbox(map[], [])

  datatype Missing = NoSuchEvent

  function CountOf(wakeups: seq<string>, id: string): nat {
    if wakeups == [] then 0 else CountOf(wakeups[..|wakeups| - 1], id) + if wakeups[|wakeups| - 1] == id then 1 else 0
  }

  function Without(wakeups: seq<string>, id: string): seq<string> {
    if wakeups == [] then []
    else Without(wakeups[..|wakeups| - 1], id) + if wakeups[|wakeups| - 1] == id then [] else [wakeups[|wakeups| - 1]]
  }

  /** `record_event`: a second delivery of an id finds the first one's row and changes nothing. */
  function Recorded(s: Inbox, id: string, payload: string): Inbox {
    if id in s.events then s
    else Inbox(s.events[id := Event(payload, None, None, None)], if id in s.wakeups then s.wakeups else s.wakeups + [id])
  }

  /** `mark_processed` */
  function MarkedProcessed(s: Inbox, id: string, at: int): Outcome<Inbox, Missing> {
    if id !in s.events then Raised(NoSuchEvent)
    else Ok(Inbox(s.events[id := s.events[id].(processedAt := Some(at), lastError := None, updatedAt := Some(at))],
                  Without(s.wakeups, id)))
  }

  /** `mark_failed`: it looks at neither the processing mark nor the wakeup. */
  function MarkedFailed(s: Inbox, id: string, error: string, at: int): Outcome<Inbox, Missing> {
    if id !in s.events then Raised(NoSuchEvent)
    else Ok(s.(events := s.events[id := s.events[id].(processedAt := None, lastError := Some(error), updatedAt := Some(at))]))
  }

  predicate IsPending(s: Inbox, id: string) {
    id in s.events && s.events[id].processedAt == None
  }

  /** The wakeups of unprocessed events, oldest wakeup first. */
  function Listed(s: Inbox, wakeups: seq<string>): seq<string> {
    if wakeups == [] then []
    else
      var last := wakeups[|wakeups| - 1];
      Listed(s, wakeups[..|wakeups| - 1]) + if IsPending(s, last) then [last] else []
  }

  /** `list_pending_events` */
  function ListPending(s: Inbox, limit: nat): seq<string> {
    First(Listed(s, s.wakeups), limit)
  }

  // ----- the repository -----

  class WebhookRepository {
    var events: map<string, Event>
    var wakeups: seq<string>

    constructor ()
      ensures Snapshot() == Empty
    {
      events, wakeups := map[], [];
    }

    function Snapshot(): Inbox
      reads this
    {
      Inbox(events, wakeups)
    }

    method RecordEvent(id: string, payload: string) returns (record: Event)
      modifies this
      ensures Snapshot() == Recorded(old(Snapshot()), id, payload)
      ensures id in events && record == events[id]
    {
      if id in events {
        return events[id];
      }
      record := Event(payload, None, None, None);
      events := events[id := record];
      if id !in wakeups {
        wakeups := wakeups + [id];
      }
    }

    method ListPendingEvents(limit: nat) returns (ids: seq<string>)
      ensures ids == ListPending(Snapshot(), limit)
    {
      ids := [];
      for k := 0 to |wakeups|
        invariant ids == Listed(Snapshot(), wakeups[..k])
      {
        assert wakeups[..k + 1][..k] == wakeups[..k];
        if IsPending(Snapshot(), wakeups[k]) {
          ids := ids + [wakeups[k]];
        }
      }
      assert wakeups[..|wakeups|] == wakeups;
      if |ids| > limit {
        ids := ids[..limit];
      }
    }

    method MarkProcessed(id: string, at: int) returns (failed: Option<Missing>)
      modifies this
      ensures match MarkedProcessed(old(Snapshot()), id, at)
              case Ok(after) => failed == None && Snapshot() == after
              case Raised(e) => failed == Some(e) && Snapshot() == old(Snapshot())
    {
      if id !in events {
        return Some(NoSuchEvent);
      }
      events := events[id := events[id].(processedAt := Some(at), lastError := None, updatedAt := Some(at))];
      wakeups := Without(wakeups, id);
      return None;
    }

    method MarkFailed(id: string, error: string, at: int) returns (failed: Option<Missing>)
      modifies this
      ensures match MarkedFailed(old(Snapshot()), id, error, at)
              case Ok(after) => failed == None && Snapshot() == after
              case Raised(e) => failed == Some(e) && Snapshot() == old(Snapshot())
    {
      if id !in events {
        return Some(NoSuchEvent);
      }
      events := events[id := events[id].(processedAt := None, lastError := Some(error), updatedAt := Some(at))];
      return None;
    }
  }

  // ----- every run -----

  datatype Call =
    | Deliver(id: string, payload: string)
    | Process(id: string, at: int)
    | Fail(id: string, error: string, at: int)

  function Apply(s: Inbox, call: Call): Inbox {
    var r := match call
             case Deliver(id, payload) => Ok(Recorded(s, id, payload))
             case Process(id, at) => MarkedProcessed(s, id, at)
             case Fail(id, error, at) => MarkedFailed(s, id, error, at);
    if r.Ok? then r.value else s
  }

  function Run(s: Inbox, calls: seq<Call>): Inbox {
    if calls == [] then s else Apply(Run(s, calls[..|calls| - 1]), calls[|calls| - 1])
  }

  /** Unprocessed events have exactly one wakeup row; processed events, and unknown ids, have none. */
  ghost predicate WakeupsMatch(s: Inbox) {
    forall id :: CountOf(s.wakeups, id) == if IsPending(s, id) then 1 else 0
  }

  /** Failures are marked on events not yet processed. */
  ghost predicate FailsPending(s: Inbox, call: Call) {
    call.Fail? && call.id in s.events ==> IsPending(s, call.id)
  }

  ghost predicate Disciplined(s: Inbox, calls: seq<Call>) {
    calls == [] || (Disciplined(s, calls[..|calls| - 1]) && FailsPending(Run(s, calls[..|calls| - 1]), calls[|calls| - 1]))
  }

  lemma {:induction false} CountWithout(wakeups: seq<string>, id: string, other: string)
    ensures CountOf(Without(wakeups, id), other) == if other == id then 0 else CountOf(wakeups, other)
  {
    if wakeups != [] {
      var n := |wakeups| - 1;
      CountWithout(wakeups[..n], id, other);
      var front := Without(wakeups[..n], id);
      assert front + [] == front && (front + [wakeups[n]])[..|front|] == front;
    }
  }

  lemma {:induction false} CountIsIn(wakeups: seq<string>, id: string)
    ensures id in wakeups <==> CountOf(wakeups, id) > 0
  {
    if wakeups != [] {
      CountIsIn(wakeups[..|wakeups| - 1], id);
      assert wakeups == wakeups[..|wakeups| - 1] + [wakeups[|wakeups| - 1]];
    }
  }

  lemma DeliverKeeps(s: Inbox, id: string, payload: string)
    requires WakeupsMatch(s)
    ensures WakeupsMatch(Recorded(s, id, payload))
  {
    CountIsIn(s.wakeups, id);
    var after := Recorded(s, id, payload);
    forall other ensures CountOf(after.wakeups, other) == if IsPending(after, other) then 1 else 0 {
      assert CountOf(s.wakeups, other) == if IsPending(s, other) then 1 else 0;
      assert (s.wakeups + [id])[..|s.wakeups|] == s.wakeups;
    }
  }

  lemma ProcessKeeps(s: Inbox, id: string, at: int)
    requires WakeupsMatch(s) && id in s.events
    ensures WakeupsMatch(MarkedProcessed(s, id, at).value)
  {
    var after := MarkedProcessed(s, id, at).value;
    forall other ensures CountOf(after.wakeups, other) == if IsPending(after, other) then 1 else 0 {
      assert CountOf(s.wakeups, other) == if IsPending(s, other) then 1 else 0;
      CountWithout(s.wakeups, id, other);
    }
  }

  /** Marking a failure keeps wakeups and events in step exactly when the event was not yet processed. */
  lemma FailKeepsIff(s: Inbox, id: string, error: string, at: int)
    requires WakeupsMatch(s) && id in s.events
    ensures WakeupsMatch(MarkedFailed(s, id, error, at).value) <==> IsPending(s, id)
  {
    var after := MarkedFailed(s, id, error, at).value;
    assert CountOf(s.wakeups, id) == if IsPending(s, id) then 1 else 0;
    if IsPending(s, id) {
      forall other ensures CountOf(after.wakeups, other) == if IsPending(after, other) then 1 else 0 {
        assert CountOf(s.wakeups, other) == if IsPending(s, other) then 1 else 0;
      }
    } else {
      assert IsPending(after, id) && CountOf(after.wakeups, id) == 0;
    }
  }

  /** What a mark leaves to read on its event, and that it leaves every other event alone. */
  lemma MarksAreRecorded(s: Inbox, id: string, error: string, at: int, other: string)
    requires id in s.events
    ensures var done := MarkedProcessed(s, id, at).value;
            && done.events[id] == Event(s.events[id].payload, Some(at), None, Some(at))
            && (other != id ==> Get(done.events, other) == Get(s.events, other))
    ensures var failed := MarkedFailed(s, id, error, at).value;
            && failed.events[id] == Event(s.events[id].payload, None, Some(error), Some(at)) && failed.wakeups == s.wakeups
            && (other != id ==> Get(failed.events, other) == Get(s.events, other))
  {
  }

  lemma ApplyKeeps(s: Inbox, call: Call)
    requires WakeupsMatch(s) && FailsPending(s, call)
    ensures WakeupsMatch(Apply(s, call))
  {
    match call
    case Deliver(id, payload) => DeliverKeeps(s, id, payload);
    case Process(id, at) =>
      if id in s.events {
        ProcessKeeps(s, id, at);
      }
    case Fail(id, error, at) =>
      if id in s.events {
        FailKeepsIff(s, id, error, at);
      }
  }

  /** In every run that fails only unprocessed events, an event is unprocessed exactly when it has its one wakeup. */
  lemma {:induction false} RunKeeps(s: Inbox, calls: seq<Call>)
    requires WakeupsMatch(s) && Disciplined(s, calls)
    ensures WakeupsMatch(Run(s, calls))
  {
    if calls != [] {
      RunKeeps(s, calls[..|calls| - 1]);
      ApplyKeeps(Run(s, calls[..|calls| - 1]), calls[|calls| - 1]);
    }
  }

  // ----- repeated deliveries -----

  /** The payload of the first delivery of an id, if it was delivered. */
  function FirstPayload(calls: seq<Call>, id: string): Option<string> {
    if calls == [] then None
    else
      var before := FirstPayload(calls[..|calls| - 1], id);
      var last := calls[|calls| - 1];
      if before.Some? then before
      else if last.Deliver? && last.id == id then Some(last.payload)
      else None
  }

  /** The calls without the repeated deliveries. */
  function WithoutRedeliveries(calls: seq<Call>): seq<Call> {
    if calls == [] then []
    else
      var before := calls[..|calls| - 1];
      var last := calls[|calls| - 1];
      WithoutRedeliveries(before) + if last.Deliver? && FirstPayload(before, last.id).Some? then [] else [last]
  }

  /** In every run the ids delivered are the events there, each with the payload of its first delivery. */
  lemma {:induction false} FirstPayloadStays(calls: seq<Call>, id: string)
    ensures var s := Run(Empty, calls);
            FirstPayload(calls, id) == if id in s.events then Some(s.events[id].payload) else None
  {
    if calls != [] {
      FirstPayloadStays(calls[..|calls| - 1], id);
    }
  }

  /** Every run ends as the run in which each id is delivered once: redeliveries leave no trace, wherever they fall. */
  lemma {:induction false} RedeliveriesLeaveNoTrace(calls: seq<Call>)
    ensures Run(Empty, calls) == Run(Empty, WithoutRedeliveries(calls))
  {
    if calls != [] {
      var before, last := calls[..|calls| - 1], calls[|calls| - 1];
      RedeliveriesLeaveNoTrace(before);
      var kept := WithoutRedeliveries(before);
      if last.Deliver? && FirstPayload(before, last.id).Some? {
        FirstPayloadStays(before, last.id);
        assert kept + [] == kept;
      } else {
        assert (kept + [last])[..|kept|] == kept;
      }
    }
  }

  /** In such runs a processed event stays processed, as it was. */
  lemma {:induction false} ProcessedStays(s: Inbox, calls: seq<Call>, id: string)
    requires id in s.events && !IsPending(s, id) && Disciplined(s, calls)
    ensures id in Run(s, calls).events && !IsPending(Run(s, calls), id)
  {
    if calls != [] {
      ProcessedStays(s, calls[..|calls| - 1], id);
    }
  }

  lemma {:induction false} ListedAre(s: Inbox, wakeups: seq<string>, id: string)
    ensures id in Listed(s, wakeups) <==> id in wakeups && IsPending(s, id)
  {
    if wakeups != [] {
      ListedAre(s, wakeups[..|wakeups| - 1], id);
      assert wakeups == wakeups[..|wakeups| - 1] + [wakeups[|wakeups| - 1]];
    }
  }

  lemma {:induction false} ListingLooksAtItsEvents(s: Inbox, t: Inbox, wakeups: seq<string>)
    requires forall i :: 0 <= i < |wakeups| ==> (IsPending(s, wakeups[i]) <==> IsPending(t, wakeups[i]))
    ensures Listed(s, wakeups) == Listed(t, wakeups)
  {
    if wakeups != [] {
      ListingLooksAtItsEvents(s, t, wakeups[..|wakeups| - 1]);
    }
  }

  /** A first delivery is listed after everything already listed. */
  lemma NewestIsListedLast(s: Inbox, id: string, payload: string)
    requires WakeupsMatch(s) && id !in s.events
    ensures var after := Recorded(s, id, payload); Listed(after, after.wakeups) == Listed(s, s.wakeups) + [id]
  {
    var after := Recorded(s, id, payload);
    assert CountOf(s.wakeups, id) == if IsPending(s, id) then 1 else 0;
    CountIsIn(s.wakeups, id);
    assert after.wakeups[..|s.wakeups|] == s.wakeups;
    ListingLooksAtItsEvents(s, after, s.wakeups);
  }

  /** So, unless the limit cuts it off, the listing holds exactly the unprocessed events, failed ones included. */
  lemma PendingAreListed(calls: seq<Call>, limit: nat, id: string)
    requires Disciplined(Empty, calls) && |Listed(Run(Empty, calls), Run(Empty, calls).wakeups)| <= limit
    ensures id in ListPending(Run(Empty, calls), limit) <==> IsPending(Run(Empty, calls), id)
  {
    var s := Run(Empty, calls);
    assert WakeupsMatch(Empty);
    RunKeeps(Empty, calls);
    assert CountOf(s.wakeups, id) == if IsPending(s, id) then 1 else 0;
    CountIsIn(s.wakeups, id);
    ListedAre(s, s.wakeups, id);
  }

  /** Failing a processed event loses it: no delivery or failure ever lists it again. */
  lemma {:induction false} FailedTooLateIsLost(s: Inbox, id: string, error: string, at: int, calls: seq<Call>, limit: nat)
    requires WakeupsMatch(s) && id in s.events && !IsPending(s, id)
    ensures var later := Run(MarkedFailed(s, id, error, at).value, calls);
            id in later.events && CountOf(later.wakeups, id) == 0 && id !in ListPending(later, limit)
  {
    var lost := MarkedFailed(s, id, error, at).value;
    var later := Run(lost, calls);
    if calls == [] {
      assert CountOf(s.wakeups, id) == 0;
    } else {
      FailedTooLateIsLost(s, id, error, at, calls[..|calls| - 1], limit);
      StaysUnwoken(Run(lost, calls[..|calls| - 1]), calls[|calls| - 1], id);
    }
    CountIsIn(later.wakeups, id);
    ListedAre(later, later.wakeups, id);
  }

  /** The shortest run that loses an event: it stays unprocessed, and no later call ever has it listed. */
  lemma LateFailureLosesEvent(calls: seq<Call>, limit: nat)
    ensures var s := Run(Empty, [Deliver("e", "p"), Process("e", 1), Fail("e", "late", 2)]);
            IsPending(s, "e") && "e" !in ListPending(Run(s, calls), limit)
  {
    var run := [Deliver("e", "p"), Process("e", 1), Fail("e", "late", 2)];
    assert run[..2][..1] == [Deliver("e", "p")] && run[..2][..1][..0] == [];
    assert Run(Empty, run[..2][..1]) == Recorded(Empty, "e", "p");
    var done := Run(Empty, run[..2]);
    assert done == MarkedProcessed(Recorded(Empty, "e", "p"), "e", 1).value;
    DeliverKeeps(Empty, "e", "p");
    ProcessKeeps(Recorded(Empty, "e", "p"), "e", 1);
    FailedTooLateIsLost(done, "e", "late", 2, calls, limit);
  }

  lemma StaysUnwoken(s: Inbox, call: Call, id: string)
    requires id in s.events && CountOf(s.wakeups, id) == 0
    ensures id in Apply(s, call).events && CountOf(Apply(s, call).wakeups, id) == 0
  {
    match call
    case Deliver(other, _) => assert (s.wakeups + [other])[..|s.wakeups|] == s.wakeups;
    case Process(other, _) => CountWithout(s.wakeups, other, id);
    case Fail(_, _, _) =>
  }
}
