/**
 Accepting ingestion requests under an idempotency key: insert, publish, commit, where each step can
 fail, calls overlap, and the unique index makes an insert wait for one in progress on its key.
 The payload stands for its hash.
 */
module Ingestion {
  import opened Common
  import opened RoutePath

  datatype Payload = Payload(title: string, content: string)

  datatype Row = Row(key: Option<string>, payload: Payload)

  datatype Task = Task(id: int, key: Option<string>, payload: Payload)

  /** An open transaction, before and after its task was published. */
  datatype Transaction = Transaction(id: int, row: Row, published: bool)

  datatype Answer = Accepted(id: int, row: Row) | Conflict(key: string) | QueueUnavailable | Failed

  /** `rows` and the index `byKey` are committed; `answers` holds how each finished call ended. */
  datatype System = System(
    rows: map<int, Row>, byKey: map<string, int>, nextId: int, open: map<int, Transaction>, published: seq<Task>,
    answers: map<int, Answer>)

  const Start := System(map[], map[], 1, map[], [], map[])

  datatype Event =
    | Begin(call: int, key: Option<string>, payload: Payload, works: bool)
    | Publish(call: int, works: bool)
    | Commit(call: int, works: bool)
    | Crash(call: int)

  /** A key of spaces is no key. */
  function Normalized(key: Option<string>): Option<string> {
    if key == None || Strip(key.value, IsSpace) == "" then None else Some(Strip(key.value, IsSpace))
  }

  /** Some open transaction has inserted the key, and the index makes others wait for its end. */
  predicate Waits(s: System, key: string) {
    exists call :: call in s.open && s.open[call].row.key == Some(key)
  }

  function Ended(s: System, call: int, answer: Answer): System {
    s.(answers := s.answers[call := answer], open := s.open - {call})
  }

  function Inserted(s: System, call: int, row: Row): System {
    s.(open := s.open[call := Transaction(s.nextId, row, false)], nextId := s.nextId + 1)
  }

  /** `get_or_create_request`, then the answer when the row was there already. */
  function Begun(s: System, call: int, key: Option<string>, payload: Payload, works: bool): System {
    if !works then Ended(s, call, Failed)
    else if key == None then Inserted(s, call, Row(None, payload))
    else if Waits(s, key.value) then s
    else if key.value in s.byKey && s.byKey[key.value] in s.rows then
      var id := s.byKey[key.value];
      if s.rows[id].payload != payload then Ended(s, call, Conflict(key.value)) else Ended(s, call, Accepted(id, s.rows[id]))
    else Inserted(s, call, Row(key, payload))
  }

  /** The task goes out before the commit; when it cannot, the insert is rolled back. */
  function PublishStep(s: System, call: int, works: bool): System
    requires call in s.open
  {
    var t := s.open[call];
    if !works then Ended(s, call, QueueUnavailable)
    else s.(open := s.open[call := t.(published := true)], published := s.published + [Task(t.id, t.row.key, t.row.payload)])
  }

  /** A commit that fails is rolled back, though the task is out. */
  function CommitStep(s: System, call: int, works: bool): System
    requires call in s.open
  {
    var t := s.open[call];
    if !works then Ended(s, call, Failed)
    else
      Ended(s, call, Accepted(t.id, t.row)).(
        rows := s.rows[t.id := t.row],
        byKey := if t.row.key == None then s.byKey else s.byKey[t.row.key.value := t.id])
  }

  function Apply(s: System, e: Event): System {
    match e
    case Begin(call, key, payload, works) =>
      if call in s.open || call in s.answers then s else Begun(s, call, Normalized(key), payload, works)
    case Publish(call, works) => if call in s.open && !s.open[call].published then PublishStep(s, call, works) else s
    case Commit(call, works) => if call in s.open && s.open[call].published then CommitStep(s, call, works) else s
    case Crash(call) => s.(open := s.open - {call})
  }

  function Run(s: System, events: seq<Event>): System {
    if events == [] then s else Apply(Run(s, events[..|events| - 1]), events[|events| - 1])
  }

  // ----- what holds in every run -----

  ghost predicate IsPublished(s: System, id: int, row: Row) {
    exists i :: 0 <= i < |s.published| && s.published[i] == Task(id, row.key, row.payload)
  }

  /** The index finds the one committed row of each key. */
  ghost predicate IndexRight(s: System) {
    && (forall id {:trigger s.rows[id]} :: id in s.rows ==>
          id < s.nextId && (s.rows[id].key.Some? ==> s.rows[id].key.value in s.byKey && s.byKey[s.rows[id].key.value] == id))
    && (forall k {:trigger s.byKey[k]} :: k in s.byKey ==> s.byKey[k] in s.rows && s.rows[s.byKey[k]].key == Some(k))
  }

  /** An open insert is the only one on its key, and its key is not committed. */
  ghost predicate OpenRight(s: System) {
    && (forall c {:trigger s.open[c]} :: c in s.open ==>
          && s.open[c].id < s.nextId && s.open[c].id !in s.rows
          && (s.open[c].row.key.Some? ==> s.open[c].row.key.value !in s.byKey)
          && (s.open[c].published ==> IsPublished(s, s.open[c].id, s.open[c].row)))
    && (forall c, d {:trigger s.open[c], s.open[d]} ::
          c in s.open && d in s.open && (s.open[c].id == s.open[d].id || (s.open[c].row.key.Some? && s.open[c].row.key == s.open[d].row.key))
          ==> c == d)
  }

  ghost predicate CommittedPublished(s: System) {
    forall id {:trigger s.rows[id]} :: id in s.rows ==> IsPublished(s, id, s.rows[id])
  }

  ghost predicate AnswersRight(s: System) {
    forall c {:trigger s.answers[c]} :: c in s.answers && s.answers[c].Accepted? ==>
      s.answers[c].id in s.rows && s.rows[s.answers[c].id] == s.answers[c].row
  }

  ghost predicate Valid(s: System) {
    IndexRight(s) && OpenRight(s) && CommittedPublished(s) && AnswersRight(s)
  }

  lemma EndKeeps(s: System, call: int, answer: Answer)
    requires Valid(s) && (answer.Accepted? ==> answer.id in s.rows && s.rows[answer.id] == answer.row)
    ensures Valid(Ended(s, call, answer))
  {
  }

  lemma InsertKeeps(s: System, call: int, row: Row)
    requires Valid(s) && call !in s.open && (row.key.Some? ==> !Waits(s, row.key.value) && row.key.value !in s.byKey)
    ensures Valid(Inserted(s, call, row))
  {
    forall c | c in s.open && row.key.Some? ensures s.open[c].row.key != row.key {
    }
  }

  lemma PublishedStays(s: System, task: Task, id: int, row: Row)
    requires IsPublished(s, id, row)
    ensures IsPublished(s.(published := s.published + [task]), id, row)
  {
    var i :| 0 <= i < |s.published| && s.published[i] == Task(id, row.key, row.payload);
    assert (s.published + [task])[i] == s.published[i];
  }

  lemma PublishKeeps(s: System, call: int)
    requires Valid(s) && call in s.open && !s.open[call].published
    ensures Valid(PublishStep(s, call, true))
  {
    var t := s.open[call];
    var task := Task(t.id, t.row.key, t.row.payload);
    var after := PublishStep(s, call, true);
    assert after.published[|s.published|] == task;
    forall c | c in after.open && after.open[c].published ensures IsPublished(after, after.open[c].id, after.open[c].row) {
      if c != call {
        PublishedStays(s, task, s.open[c].id, s.open[c].row);
      }
    }
    forall id | id in s.rows ensures IsPublished(after, id, s.rows[id]) {
      PublishedStays(s, task, id, s.rows[id]);
    }
  }

  lemma CommitKeeps(s: System, call: int)
    requires Valid(s) && call in s.open && s.open[call].published
    ensures Valid(CommitStep(s, call, true))
  {
  }

  lemma ApplyKeeps(s: System, e: Event)
    requires Valid(s)
    ensures Valid(Apply(s, e))
  {
    match e
    case Begin(call, key, payload, works) =>
      if !(call in s.open || call in s.answers) {
        var k := Normalized(key);
        var r := Begun(s, call, k, payload, works);
        if r.open != s.open && works {
          InsertKeeps(s, call, Row(k, payload));
        } else if r != s {
          EndKeeps(s, call, r.answers[call]);
        }
      }
    case Publish(call, works) =>
      if call in s.open && !s.open[call].published {
        if works {
          PublishKeeps(s, call);
        } else {
          EndKeeps(s, call, QueueUnavailable);
        }
      }
    case Commit(call, works) =>
      if call in s.open && s.open[call].published {
        if works {
          CommitKeeps(s, call);
        } else {
          EndKeeps(s, call, Failed);
        }
      }
    case Crash(call) =>
  }

  lemma {:induction false} RunKeeps(s: System, events: seq<Event>)
    requires Valid(s)
    ensures Valid(Run(s, events))
  {
    if events != [] {
      RunKeeps(s, events[..|events| - 1]);
      ApplyKeeps(Run(s, events[..|events| - 1]), events[|events| - 1]);
    }
  }

  /**
   In every run with failures anywhere: a key has at most one committed row, every committed row's
   task was published, and all calls accepted under a key got the same id and payload.
   */
  lemma OneRowPerKey(events: seq<Event>, a: int, b: int)
    ensures var s := Run(Start, events);
            && (a in s.rows && b in s.rows && s.rows[a].key.Some? && s.rows[a].key == s.rows[b].key ==> a == b)
            && (a in s.rows ==> IsPublished(s, a, s.rows[a]))
            && (a in s.answers && b in s.answers && s.answers[a].Accepted? && s.answers[b].Accepted?
                && s.answers[a].row.key.Some? && s.answers[a].row.key == s.answers[b].row.key
                ==> s.answers[a] == s.answers[b])
  {
    RunKeeps(Start, events);
  }

  // ----- every call is answered for its own payload -----

  /** What a call carries from its first step on, once that step has begun or answered it. */
  function CarriedBy(s: System, e: Event, call: int): Option<Row> {
    var after := Apply(s, e);
    if e.Begin? && e.call == call && !(call in s.open || call in s.answers) && (call in after.open || call in after.answers)
    then Some(Row(Normalized(e.key), e.payload)) else None
  }

  function Carried(events: seq<Event>, call: int): Option<Row> {
    if events == [] then None
    else
      var front := events[..|events| - 1];
      var own := CarriedBy(Run(Start, front), events[|events| - 1], call);
      if own.Some? then own else Carried(front, call)
  }

  /** The committed row of a key carries another payload. */
  predicate OtherPayload(s: System, key: string, payload: Payload) {
    key in s.byKey && s.byKey[key] in s.rows && s.rows[s.byKey[key]].payload != payload
  }

  /** A call inserts and is accepted with what it carries, and conflicts with a committed row that differs. */
  predicate Own(s: System, call: int, carried: Option<Row>) {
    && (call in s.open ==> carried == Some(s.open[call].row))
    && (call in s.answers && s.answers[call].Accepted? ==> carried == Some(s.answers[call].row))
    && (call in s.answers && s.answers[call].Conflict? ==>
          carried.Some? && carried.value.key == Some(s.answers[call].key) && OtherPayload(s, s.answers[call].key, carried.value.payload))
  }

  lemma OtherPayloadStays(s: System, e: Event, key: string, payload: Payload)
    requires Valid(s) && OtherPayload(s, key, payload)
    ensures OtherPayload(Apply(s, e), key, payload)
  {
  }

  lemma OwnStays(s: System, e: Event, call: int, carried: Option<Row>)
    requires Valid(s) && Own(s, call, carried)
    ensures Own(Apply(s, e), call, if CarriedBy(s, e, call).Some? then CarriedBy(s, e, call) else carried)
  {
    if call in s.answers && s.answers[call].Conflict? {
      OtherPayloadStays(s, e, s.answers[call].key, carried.value.payload);
    }
    if e.Begin? {
      OwnBegins(s, e.call, e.key, e.payload, e.works, call, carried);
    }
  }

  lemma OwnBegins(s: System, began: int, key: Option<string>, payload: Payload, works: bool, call: int, carried: Option<Row>)
    requires Valid(s) && Own(s, call, carried)
    ensures var e := Begin(began, key, payload, works);
            var after := Apply(s, e);
            && after.rows == s.rows && after.byKey == s.byKey
            && Own(after, call, if CarriedBy(s, e, call).Some? then CarriedBy(s, e, call) else carried)
  {
    if call != began {
      BeginsAlone(s, began, key, payload, works, call);
    }
  }

  lemma BeginsAlone(s: System, began: int, key: Option<string>, payload: Payload, works: bool, call: int)
    requires call != began
    ensures var after := Apply(s, Begin(began, key, payload, works));
            && after.rows == s.rows && after.byKey == s.byKey
            && Get(after.open, call) == Get(s.open, call) && Get(after.answers, call) == Get(s.answers, call)
  {
  }

  lemma {:induction false} RunIsOwn(events: seq<Event>, call: int)
    ensures Own(Run(Start, events), call, Carried(events, call))
  {
    if events != [] {
      var front := events[..|events| - 1];
      RunIsOwn(front, call);
      RunKeeps(Start, front);
      OwnStays(Run(Start, front), events[|events| - 1], call, Carried(front, call));
    }
  }

  /**
   In every run a call is accepted with its own key and payload only; and one that is accepted or
   refused under a key is refused exactly when the committed row of its key carries another payload.
   */
  lemma AnsweredForItsOwn(events: seq<Event>, call: int)
    requires var s := Run(Start, events); call in s.answers && (s.answers[call].Accepted? || s.answers[call].Conflict?)
    ensures var s, carried := Run(Start, events), Carried(events, call);
            && carried.Some?
            && (s.answers[call].Accepted? ==>
                  s.answers[call].row == carried.value && Get(s.rows, s.answers[call].id) == Some(carried.value))
            && (carried.value.key.Some? ==>
                  (s.answers[call].Conflict? <==> OtherPayload(s, carried.value.key.value, carried.value.payload)))
            && (carried.value.key == None ==> s.answers[call].Accepted?)
  {
    RunIsOwn(events, call);
    RunKeeps(Start, events);
  }

  function PublishedUnder(published: seq<Task>, key: string): seq<Task> {
    if published == [] then []
    else
      var n := |published| - 1;
      PublishedUnder(published[..n], key) + if published[n].key == Some(key) then [published[n]] else []
  }

  lemma UnderSnoc(published: seq<Task>, task: Task, key: string)
    requires task.key != Some(key)
    ensures PublishedUnder(published + [task], key) == PublishedUnder(published, key)
  {
    assert (published + [task])[..|published|] == published;
    assert PublishedUnder(published, key) + [] == PublishedUnder(published, key);
  }

  lemma StepPublishesNothing(s: System, e: Event, key: string)
    requires OpenRight(s) && key in s.byKey
    ensures key in Apply(s, e).byKey && Apply(s, e).byKey[key] == s.byKey[key]
    ensures PublishedUnder(Apply(s, e).published, key) == PublishedUnder(s.published, key)
  {
    match e
    case Begin(call, k, payload, works) =>
    case Publish(call, works) =>
      if call in s.open && !s.open[call].published && works {
        var t := s.open[call];
        UnderSnoc(s.published, Task(t.id, t.row.key, t.row.payload), key);
      }
    case Commit(call, works) =>
    case Crash(call) =>
  }

  /** Once a key has committed, nothing more is ever published for it, and its row stays. */
  lemma {:induction false} CommittedKeyIsQuiet(before: seq<Event>, events: seq<Event>, key: string)
    requires key in Run(Start, before).byKey
    ensures var s := Run(Start, before);
            var after := Run(s, events);
            && Valid(after)
            && PublishedUnder(after.published, key) == PublishedUnder(s.published, key)
            && key in after.byKey && after.byKey[key] == s.byKey[key]
  {
    var s := Run(Start, before);
    RunKeeps(Start, before);
    if events != [] {
      CommittedKeyIsQuiet(before, events[..|events| - 1], key);
      StepPublishesNothing(Run(s, events[..|events| - 1]), events[|events| - 1], key);
      ApplyKeeps(Run(s, events[..|events| - 1]), events[|events| - 1]);
    }
  }

  // ----- the ledger of a key's tasks -----

  /** The key is committed, or an open transaction of it has published its task. */
  predicate Held(s: System, key: string) {
    key in s.byKey || exists c :: c in s.open && PublishedOpen(s, c, key)
  }

  predicate PublishedOpen(s: System, call: int, key: string) {
    call in s.open && s.open[call].published && s.open[call].row.key == Some(key)
  }

  /** The step rolls a published transaction of the key back: its commit fails, or its process crashes. */
  predicate Loses(s: System, e: Event, key: string) {
    match e
    case Commit(call, works) => !works && PublishedOpen(s, call, key)
    case Crash(call) => PublishedOpen(s, call, key)
    case _ => false
  }

  /** How often a run lost a published transaction of the key. */
  function Losses(s: System, events: seq<Event>, key: string): nat {
    if events == [] then 0
    else
      var front := events[..|events| - 1];
      Losses(s, front, key) + if Loses(Run(s, front), events[|events| - 1], key) then 1 else 0
  }

  lemma UnderAppend(published: seq<Task>, task: Task, key: string)
    ensures |PublishedUnder(published + [task], key)| == |PublishedUnder(published, key)| + if task.key == Some(key) then 1 else 0
  {
    assert (published + [task])[..|published|] == published;
  }

  lemma PublishHolds(s: System, call: int, key: string)
    requires OpenRight(s) && call in s.open && !s.open[call].published
    ensures var task := Task(s.open[call].id, s.open[call].row.key, s.open[call].row.payload);
            if task.key == Some(key) then !Held(s, key) && Held(PublishStep(s, call, true), key)
            else Held(PublishStep(s, call, true), key) == Held(s, key)
  {
    var after := PublishStep(s, call, true);
    if s.open[call].row.key == Some(key) {
      assert PublishedOpen(after, call, key);
    } else {
      forall c ensures PublishedOpen(after, c, key) <==> PublishedOpen(s, c, key) {
      }
      if c :| c in s.open && PublishedOpen(s, c, key) {
        assert PublishedOpen(after, c, key);
      }
      if c :| c in after.open && PublishedOpen(after, c, key) {
        assert PublishedOpen(s, c, key);
      }
    }
  }

  /** A transaction of another key, or one not published, ends without a trace. */
  lemma EndHolds(s: System, call: int, answer: Answer, key: string)
    requires !PublishedOpen(s, call, key)
    ensures Held(Ended(s, call, answer), key) == Held(s, key)
    ensures Held(s.(open := s.open - {call}), key) == Held(s, key)
  {
    var after := s.(open := s.open - {call});
    if c :| c in s.open && PublishedOpen(s, c, key) {
      assert c in after.open && PublishedOpen(after, c, key) && PublishedOpen(Ended(s, call, answer), c, key);
    }
    if c :| c in after.open && PublishedOpen(after, c, key) {
      assert PublishedOpen(s, c, key);
    }
    if c :| c in Ended(s, call, answer).open && PublishedOpen(Ended(s, call, answer), c, key) {
      assert PublishedOpen(s, c, key);
    }
  }

  /** A published transaction of the key is the only thing that holds it. */
  lemma LossFrees(s: System, call: int, answer: Answer, key: string)
    requires OpenRight(s) && PublishedOpen(s, call, key)
    ensures Held(s, key) && key !in s.byKey
    ensures !Held(Ended(s, call, answer), key) && !Held(s.(open := s.open - {call}), key)
  {
    assert call in s.open;
    forall c | c in s.open && c != call ensures !PublishedOpen(s, c, key) {
    }
  }

  lemma InsertHolds(s: System, call: int, row: Row, key: string)
    requires call !in s.open
    ensures Held(Inserted(s, call, row), key) == Held(s, key)
  {
    var after := Inserted(s, call, row);
    if c :| c in s.open && PublishedOpen(s, c, key) {
      assert c in after.open && PublishedOpen(after, c, key);
    }
    if c :| c in after.open && PublishedOpen(after, c, key) {
      assert PublishedOpen(s, c, key);
    }
  }

  lemma CommitHolds(s: System, call: int, key: string)
    requires OpenRight(s) && call in s.open && s.open[call].published
    ensures Held(CommitStep(s, call, true), key) == Held(s, key)
  {
    var after := CommitStep(s, call, true);
    if s.open[call].row.key == Some(key) {
      assert PublishedOpen(s, call, key) && key in after.byKey;
    } else {
      EndHolds(s, call, Accepted(s.open[call].id, s.open[call].row), key);
      var ended := Ended(s, call, Accepted(s.open[call].id, s.open[call].row));
      assert after.open == ended.open && (key in after.byKey <==> key in ended.byKey);
      if c :| c in ended.open && PublishedOpen(ended, c, key) {
        assert PublishedOpen(after, c, key);
      }
      if c :| c in after.open && PublishedOpen(after, c, key) {
        assert PublishedOpen(ended, c, key);
      }
    }
  }

  function One(b: bool): nat {
    if b then 1 else 0
  }

  /** Each step moves the three counts of the ledger together. */
  lemma LedgerStep(s: System, e: Event, key: string)
    requires Valid(s)
    ensures |PublishedUnder(Apply(s, e).published, key)| + One(Held(s, key))
         == |PublishedUnder(s.published, key)| + One(Loses(s, e, key)) + One(Held(Apply(s, e), key))
  {
    match e
    case Begin(call, k, payload, works) =>
      if !(call in s.open || call in s.answers) {
        BeginHolds(s, call, Normalized(k), payload, works, key);
      }
    case Publish(call, works) =>
      if call in s.open && !s.open[call].published {
        if works {
          PublishHolds(s, call, key);
          UnderAppend(s.published, Task(s.open[call].id, s.open[call].row.key, s.open[call].row.payload), key);
        } else {
          EndHolds(s, call, QueueUnavailable, key);
        }
      }
    case Commit(call, works) =>
      if call in s.open && s.open[call].published {
        if works {
          CommitHolds(s, call, key);
        } else if s.open[call].row.key == Some(key) {
          LossFrees(s, call, Failed, key);
        } else {
          EndHolds(s, call, Failed, key);
        }
      }
    case Crash(call) =>
      if PublishedOpen(s, call, key) {
        LossFrees(s, call, Failed, key);
      } else {
        EndHolds(s, call, Failed, key);
      }
  }

  lemma BeginHolds(s: System, call: int, k: Option<string>, payload: Payload, works: bool, key: string)
    requires call !in s.open
    ensures Held(Begun(s, call, k, payload, works), key) == Held(s, key)
    ensures Begun(s, call, k, payload, works).published == s.published
  {
    EndHolds(s, call, Failed, key);
    InsertHolds(s, call, Row(k, payload), key);
    var after := Begun(s, call, k, payload, works);
    if after.answers != s.answers {
      EndHolds(s, call, after.answers[call], key);
    }
  }

  /**
   In every run the tasks published under a key are the published transactions of it that were lost,
   and one more while the key is committed or a published transaction of it is open.
   */
  lemma {:induction false} PublishedLedger(events: seq<Event>, key: string)
    ensures var s := Run(Start, events); |PublishedUnder(s.published, key)| == Losses(Start, events, key) + One(Held(s, key))
  {
    if events != [] {
      var front := events[..|events| - 1];
      PublishedLedger(front, key);
      RunKeeps(Start, front);
      LedgerStep(Run(Start, front), events[|events| - 1], key);
    }
  }

  /**
   So a key's task has gone out at most once exactly when no published transaction of the key was
   lost, or one was and the key has not been published anew since.
   */
  lemma PublishedOnceIff(events: seq<Event>, key: string)
    ensures |PublishedUnder(Run(Start, events).published, key)| <= 1
       <==> Losses(Start, events, key) == 0 || (Losses(Start, events, key) == 1 && !Held(Run(Start, events), key))
  {
    PublishedLedger(events, key);
  }

  /** Before its first commit a key may be published again: a task whose commit failed stays out. */
  lemma FailedCommitLeavesTask(key: string, payload: Payload)
    requires Strip(key, IsSpace) == key != ""
    ensures var s := Run(Start, [Begin(1, Some(key), payload, true), Publish(1, true), Commit(1, false),
                                 Begin(2, Some(key), payload, true), Publish(2, true), Commit(2, true)]);
            && s.published == [Task(1, Some(key), payload), Task(2, Some(key), payload)]
            && s.rows == map[2 := Row(Some(key), payload)]
  {
    var events := [Begin(1, Some(key), payload, true), Publish(1, true), Commit(1, false),
                   Begin(2, Some(key), payload, true), Publish(2, true), Commit(2, true)];
    var s0 := Run(Start, events[..0]);
    var s1 := RunNext(Start, events, 0);
    var s2 := RunNext(Start, events, 1);
    var s3 := RunNext(Start, events, 2);
    var s4 := RunNext(Start, events, 3);
    var s5 := RunNext(Start, events, 4);
    var s6 := RunNext(Start, events, 5);
    assert events[..6] == events;
  }

  lemma RunNext(s: System, events: seq<Event>, k: nat) returns (after: System)
    requires k < |events|
    ensures after == Run(s, events[..k + 1]) == Apply(Run(s, events[..k]), events[k])
  {
    assert events[..k + 1][..k] == events[..k];
    after := Run(s, events[..k + 1]);
  }

  // ----- one call at a time -----

  class IngestionService {
    var rows: map<int, Row>
    var byKey: map<string, int>
    var nextId: int
    var open: map<int, Transaction>
    var published: seq<Task>
    var answers: map<int, Answer>

    function Snapshot(): System
      reads this
    {
      System(rows, byKey, nextId, open, published, answers)
    }

    constructor ()
      ensures Snapshot() == Start
    {
      rows, byKey, nextId := map[], map[], 1;
      open, published, answers := map[], [], map[];
    }

    method Finish(call: int, answer: Answer)
      modifies this
      ensures Snapshot() == Ended(old(Snapshot()), call, answer)
    {
      answers := answers[call := answer];
      open := open - {call};
    }

    /** `get_or_create_request`; a call that is answered here has no open transaction. */
    method GetOrCreate(call: int, key: Option<string>, payload: Payload, works: bool)
      requires open == map[] && call !in answers && Valid(Snapshot())
      modifies this
      ensures Snapshot() == Begun(old(Snapshot()), call, key, payload, works)
      ensures call in open <==> call !in answers
      ensures open.Keys <= {call} && (call in open ==> !open[call].published)
    {
      if !works {
        Finish(call, Failed);
      } else if key.Some? && key.value in byKey {
        var id := byKey[key.value];
        Finish(call, if rows[id].payload != payload then Conflict(key.value) else Accepted(id, rows[id]));
      } else {
        open := open[call := Transaction(nextId, Row(key, payload), false)];
        nextId := nextId + 1;
      }
    }

    method PublishTask(call: int, works: bool)
      requires call in open && !open[call].published
      modifies this
      ensures Snapshot() == PublishStep(old(Snapshot()), call, works)
    {
      var t := open[call];
      if !works {
        Finish(call, QueueUnavailable);
      } else {
        published := published + [Task(t.id, t.row.key, t.row.payload)];
        open := open[call := t.(published := true)];
      }
    }

    method CommitRow(call: int, works: bool)
      requires call in open && open[call].published
      modifies this
      ensures Snapshot() == CommitStep(old(Snapshot()), call, works)
    {
      var t := open[call];
      if !works {
        Finish(call, Failed);
      } else {
        rows := rows[t.id := t.row];
        byKey := if t.row.key == None then byKey else byKey[t.row.key.value := t.id];
        Finish(call, Accepted(t.id, t.row));
      }
    }

    /** `accept` of one call while no other is open: begin, publish, commit, stopping once it is answered. */
    method Accept(call: int, key: Option<string>, payload: Payload, inserts: bool, publishes: bool, commits: bool)
      returns (answer: Answer)
      requires open == map[] && call !in answers && Valid(Snapshot())
      modifies this
      ensures Snapshot() == Apply(Apply(Apply(old(Snapshot()), Begin(call, key, payload, inserts)), Publish(call, publishes)),
                                  Commit(call, commits))
      ensures call in answers && answers[call] == answer && call !in open
    {
      GetOrCreate(call, Normalized(key), payload, inserts);
      if call in open {
        PublishTask(call, publishes);
      }
      if call in open {
        CommitRow(call, commits);
      }
      answer := answers[call];
    }
  }
}
