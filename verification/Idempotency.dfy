/** Enqueue is a first-writer-wins map from event ids to immutable content. */
module Idempotency {
  import opened Types
  import opened Claim
  import opened Transactions
  import opened Dispatch
  import opened Ledger
  import opened Framing
  import opened Protocol
  import opened Fencing

  /** The abstract map: the content stored for an event, if any. */
  ghost function Writer(db: Db, eventId: Bytes): Option<Content> {
    if EventKnown(db, eventId) then Some(db.deliveries[RowOfEvent(db, eventId)].content) else None
  }

  lemma WriterIs(db: Db, id: DeliveryId)
    requires SchemaValid(db) && id in db.deliveries
    ensures Writer(db, db.deliveries[id].content.eventId) == Some(db.deliveries[id].content)
  {
    assert IsRowOfEvent(db, db.deliveries[id].content.eventId, id);
  }

  /** Rows are named by what they were enqueued with. */
  ghost predicate NamedByContent(sha256: Sha256, db: Db) {
    forall id | id in db.deliveries ::
      var c := db.deliveries[id].content;
      ValidEventName(c.eventId) && id == StableDeliveryId(sha256, c.endpointUrl, c.eventId)
  }

  /** Which answer an acceptable request gets, in terms of the abstract map alone, up to an id that is taken. */
  lemma EnqueueAnswers(sha256: Sha256, db: Db, c: Config, r: EnqueueRequest, appNow: Micros, now: Micros)
    requires LedgerInv(db) && ValidConfig(c) && AcceptableRequest(c, r)
    ensures var wanted := NewRow(sha256, c, r, appNow);
      var (after, answer) := EnqueueOutcome(sha256, db, c, r, appNow, now);
      var stored := Writer(db, r.eventId);
      && (answer.Ok? && answer.value.created <==> stored == None && wanted.id !in db.deliveries)
      && (answer.Ok? && !answer.value.created <==> stored == Some(wanted.content))
      && (answer == Err(IdempotencyConflict) <==> stored.Some? && stored.value != wanted.content)
      && (answer == Err(EnqueueStoreFailure(IdentityCollision)) <==> stored == None && wanted.id in db.deliveries)
      && (answer.Ok? || answer == Err(IdempotencyConflict) || answer == Err(EnqueueStoreFailure(IdentityCollision)))
      && (!(answer.Ok? && answer.value.created) ==> after == db)
  {
  }

  /** The map after an enqueue: only a created event is added, and only under its own id. */
  lemma EnqueueUpdatesMap(sha256: Sha256, db: Db, c: Config, r: EnqueueRequest, appNow: Micros, now: Micros,
    eventId: Bytes)
    requires LedgerInv(db)
    ensures var (after, answer) := EnqueueOutcome(sha256, db, c, r, appNow, now);
      Writer(after, eventId) ==
        if answer.Ok? && answer.value.created && eventId == r.eventId
        then Some(NewRow(sha256, c, r, appNow).content) else Writer(db, eventId)
  {
    var (after, answer) := EnqueueOutcome(sha256, db, c, r, appNow, now);
    EnqueueKeepsLedger(sha256, db, c, r, appNow, now);
    if answer.Ok? && answer.value.created {
      var id := NewRow(sha256, c, r, appNow).id;
      assert after.deliveries == db.deliveries[id := after.deliveries[id]];
      AddedRowUpdatesMap(db, after, id, eventId);
    }
  }

  lemma AddedRowUpdatesMap(db: Db, after: Db, id: DeliveryId, eventId: Bytes)
    requires SchemaValid(db) && SchemaValid(after) && id !in db.deliveries && id in after.deliveries
    requires after.deliveries == db.deliveries[id := after.deliveries[id]]
    ensures Writer(after, eventId) ==
      if eventId == after.deliveries[id].content.eventId then Some(after.deliveries[id].content) else Writer(db, eventId)
  {
    WriterIs(after, id);
    if eventId != after.deliveries[id].content.eventId {
      if EventKnown(db, eventId) {
        var j := RowOfEvent(db, eventId);
        WriterIs(after, j);
      } else {
        forall j ensures !IsRowOfEvent(after, eventId, j) {
          assert !IsRowOfEvent(db, eventId, j);
        }
      }
    }
  }

  /** Rows that keep their keys and contents keep the map. */
  lemma SameContentsSameMap(a: Db, b: Db, eventId: Bytes)
    requires SchemaValid(a) && SchemaValid(b) && DbMoves(a, b) && b.deliveries.Keys == a.deliveries.Keys
    ensures Writer(b, eventId) == Writer(a, eventId)
  {
    if EventKnown(a, eventId) {
      WriterIs(b, RowOfEvent(a, eventId));
    } else {
      forall j ensures !IsRowOfEvent(b, eventId, j) {
        assert !IsRowOfEvent(a, eventId, j);
        if j in a.deliveries { assert RowMoves(a.deliveries[j], b.deliveries[j]); }
      }
    }
  }

  lemma OtherStepsKeepKeys(sha256: Sha256, s: Sys, step: Step)
    requires Enabled(s, step) && !step.EnqueueStep?
    ensures Do(sha256, s, step).db.deliveries.Keys == s.db.deliveries.Keys
    ensures var t := Do(sha256, s, step);
      s.log <= t.log && forall i | |s.log| <= i < |t.log| :: !t.log[i].Enqueued?
  {
  }

  // ---- The map and the history over runs ----

  /** Each stored content was logged once, and everything logged is stored. */
  ghost predicate WritersInv(sha256: Sha256, s: Sys) {
    && NamedByContent(sha256, s.db)
    && (forall i | 0 <= i < |s.log| :: s.log[i].Enqueued? ==>
          s.log[i].id in s.db.deliveries && s.db.deliveries[s.log[i].id].content == s.log[i].content)
    && (forall i, j | 0 <= i < j < |s.log| :: s.log[i].Enqueued? && s.log[j].Enqueued? ==> s.log[i].id != s.log[j].id)
    && (forall id | id in s.db.deliveries :: WasEnqueued(s.log, id, s.db.deliveries[id].content))
  }

  ghost predicate WasEnqueued(log: seq<Event>, id: DeliveryId, content: Content) {
    Enqueued(id, content) in log
  }

  lemma UnchangedKeysKeepWriters(sha256: Sha256, s: Sys, t: Sys)
    requires WritersInv(sha256, s) && DbMoves(s.db, t.db) && t.db.deliveries.Keys == s.db.deliveries.Keys
    requires s.log <= t.log && forall i | |s.log| <= i < |t.log| :: !t.log[i].Enqueued?
    ensures WritersInv(sha256, t)
  {
    forall id | id in t.db.deliveries
      ensures t.db.deliveries[id].content == s.db.deliveries[id].content
      ensures WasEnqueued(t.log, id, t.db.deliveries[id].content)
    {
      assert RowMoves(s.db.deliveries[id], t.db.deliveries[id]);
      assert WasEnqueued(s.log, id, s.db.deliveries[id].content);
    }
    assert forall i | 0 <= i < |s.log| :: t.log[i] == s.log[i];
  }

  lemma CreatedRow(sha256: Sha256, db: Db, c: Config, r: EnqueueRequest, appNow: Micros, now: Micros)
    ensures var (after, answer) := EnqueueOutcome(sha256, db, c, r, appNow, now);
      var wanted := NewRow(sha256, c, r, appNow);
      && (!(answer.Ok? && answer.value.created) ==> after == db)
      && (answer.Ok? && answer.value.created ==>
            && answer.value.id == wanted.id && wanted.id !in db.deliveries && ValidEventName(r.eventId)
            && after == db.(deliveries := db.deliveries[wanted.id := QueuedRow(wanted, now)]))
  {
  }

  lemma EnqueueKeepsWriters(sha256: Sha256, s: Sys, c: Config, r: EnqueueRequest, appNow: Micros, now: Micros)
    requires WritersInv(sha256, s)
    ensures WritersInv(sha256, DoEnqueue(sha256, s, c, r, appNow, now))
  {
    CreatedRow(sha256, s.db, c, r, appNow, now);
    var t := DoEnqueue(sha256, s, c, r, appNow, now);
    var answer := EnqueueOutcome(sha256, s.db, c, r, appNow, now).1;
    if answer.Ok? && answer.value.created {
      var e := t.log[|s.log|];
      assert t.log == s.log + [e];
      forall id | id in t.db.deliveries ensures WasEnqueued(t.log, id, t.db.deliveries[id].content) {
        if id != e.id { assert WasEnqueued(s.log, id, s.db.deliveries[id].content); }
      }
    }
  }

  lemma WritersInvStep(sha256: Sha256, s: Sys, step: Step)
    requires SysInv(s) && WritersInv(sha256, s) && Enabled(s, step)
    ensures WritersInv(sha256, Do(sha256, s, step))
  {
    if step.EnqueueStep? {
      EnqueueKeepsWriters(sha256, s, step.producer, step.request, step.createdAt, step.now);
    } else {
      StepMovesDb(sha256, s, step);
      OtherStepsKeepKeys(sha256, s, step);
      UnchangedKeysKeepWriters(sha256, s, Do(sha256, s, step));
    }
  }

  lemma {:induction false} WritersInvHolds(sha256: Sha256, clocks: Clocks, steps: seq<Step>)
    requires IsRun(sha256, clocks, steps)
    ensures WritersInv(sha256, EndOf(sha256, clocks, steps))
    decreases |steps|
  {
    if steps != [] {
      var before := steps[..|steps| - 1];
      WritersInvHolds(sha256, clocks, before);
      SysInvHolds(sha256, clocks, before);
      WritersInvStep(sha256, EndOf(sha256, clocks, before), steps[|steps| - 1]);
    }
  }

  // ---- Main results ----

  /** The stored columns are those of the request and of the producer's configuration. */
  predicate Stores(sha256: Sha256, content: Content, c: Config, r: EnqueueRequest) {
    && content.payload == r.snapshot && content.payloadSha256 == HexOf(sha256(r.snapshot))
    && content.eventId == r.eventId && content.eventType == r.eventType
    && content.endpointUrl == c.endpointUrl && content.endpointOrigin == c.endpointOrigin && content.queue == c.queue
  }

  /** A created answer names a row that holds the request, to be delivered from the application's time on. */
  lemma CreatedRowHoldsRequest(sha256: Sha256, db: Db, c: Config, r: EnqueueRequest, appNow: Micros, now: Micros)
    requires var answer := EnqueueOutcome(sha256, db, c, r, appNow, now).1; answer.Ok? && answer.value.created
    ensures var (after, answer) := EnqueueOutcome(sha256, db, c, r, appNow, now);
      && answer.value.id !in db.deliveries && answer.value.id in after.deliveries && answer.value.status == Queued
      && answer.value.id == StableDeliveryId(sha256, c.endpointUrl, r.eventId)
      && (forall j | j in db.deliveries :: j in after.deliveries && after.deliveries[j] == db.deliveries[j])
      && after.receipts == db.receipts
      && var d := after.deliveries[answer.value.id];
      && Stores(sha256, d.content, c, r) && d.maxAttempts == c.maxAttempts && d.availableAt == appNow
      && d.status == Queued && d.attempts == 0 && d.replayCount == 0 && d.lease == None && d.createdAt == now
  {
    CreatedRow(sha256, db, c, r, appNow, now);
  }

  /** Step m requested what a row holds. */
  predicate IsRequestOf(sha256: Sha256, steps: seq<Step>, m: int, id: DeliveryId, content: Content) {
    && 0 <= m < |steps| && steps[m].EnqueueStep?
    && Stores(sha256, content, steps[m].producer, steps[m].request)
    && id == StableDeliveryId(sha256, steps[m].producer.endpointUrl, steps[m].request.eventId)
  }

  lemma {:induction false} RowsAreRequested(sha256: Sha256, clocks: Clocks, steps: seq<Step>, id: DeliveryId)
    requires IsRun(sha256, clocks, steps) && id in EndOf(sha256, clocks, steps).db.deliveries
    ensures exists m :: IsRequestOf(sha256, steps, m, id, EndOf(sha256, clocks, steps).db.deliveries[id].content)
    decreases |steps|
  {
    var before, step := steps[..|steps| - 1], steps[|steps| - 1];
    var s, t := EndOf(sha256, clocks, before), EndOf(sha256, clocks, steps);
    if id in s.db.deliveries {
      RowsAreRequested(sha256, clocks, before, id);
      SysInvHolds(sha256, clocks, before);
      StepMovesDb(sha256, s, step);
      assert RowMoves(s.db.deliveries[id], t.db.deliveries[id]);
      var m :| IsRequestOf(sha256, before, m, id, s.db.deliveries[id].content);
      assert IsRequestOf(sha256, steps, m, id, t.db.deliveries[id].content);
    } else {
      NewRowIsRequested(sha256, s, step, id);
      assert IsRequestOf(sha256, steps, |steps| - 1, id, t.db.deliveries[id].content);
    }
  }

  lemma NewRowIsRequested(sha256: Sha256, s: Sys, step: Step, id: DeliveryId)
    requires Enabled(s, step) && id !in s.db.deliveries && id in Do(sha256, s, step).db.deliveries
    ensures step.EnqueueStep?
    ensures Stores(sha256, Do(sha256, s, step).db.deliveries[id].content, step.producer, step.request)
    ensures id == StableDeliveryId(sha256, step.producer.endpointUrl, step.request.eventId)
  {
    if step.EnqueueStep? {
      CreatedRow(sha256, s.db, step.producer, step.request, step.createdAt, step.now);
    } else {
      OtherStepsKeepKeys(sha256, s, step);
    }
  }

  /** A later request for a known event is answered from its own columns: with the existing delivery and the status
      it is in, exactly when everything but the event id agrees too, and with a conflict otherwise. */
  lemma RepeatedRequest(sha256: Sha256, clocks: Clocks, steps: seq<Step>, c: Config, r: EnqueueRequest,
    appNow: Micros, now: Micros, id: DeliveryId)
    requires IsRun(sha256, clocks, steps) && ValidConfig(c) && AcceptableRequest(c, r)
    requires var db := EndOf(sha256, clocks, steps).db;
      id in db.deliveries && db.deliveries[id].content.eventId == r.eventId
    ensures var db := EndOf(sha256, clocks, steps).db;
      var d := db.deliveries[id];
      var same := && d.content.payload == r.snapshot && d.content.eventType == r.eventType
                  && d.content.endpointUrl == c.endpointUrl && d.content.endpointOrigin == c.endpointOrigin
                  && d.content.queue == c.queue;
      EnqueueOutcome(sha256, db, c, r, appNow, now)
        == (db, if same then Ok(EnqueueResponse(id, false, d.status)) else Err(IdempotencyConflict))
  {
    SysInvHolds(sha256, clocks, steps);
    RowsAreRequested(sha256, clocks, steps, id);
    var db := EndOf(sha256, clocks, steps).db;
    var d := db.deliveries[id];
    var m :| IsRequestOf(sha256, steps, m, id, d.content);
    EnqueueAnswers(sha256, db, c, r, appNow, now);
    WriterIs(db, id);
    if EnqueueOutcome(sha256, db, c, r, appNow, now).1.Ok? {
      KnownEventAnswer(sha256, db, c, r, appNow, now, id);
    }
  }

  lemma KnownEventAnswer(sha256: Sha256, db: Db, c: Config, r: EnqueueRequest, appNow: Micros, now: Micros,
    id: DeliveryId)
    requires SchemaValid(db) && id in db.deliveries && db.deliveries[id].content.eventId == r.eventId
    requires var answer := EnqueueOutcome(sha256, db, c, r, appNow, now).1; answer.Ok? && !answer.value.created
    ensures var answer := EnqueueOutcome(sha256, db, c, r, appNow, now).1;
      && answer.value.id == StableDeliveryId(sha256, c.endpointUrl, r.eventId)
      && answer.value.status == db.deliveries[id].status
  {
    assert IsRowOfEvent(db, r.eventId, id);
  }

  /** Over any run an event is created at most once, and the map holds exactly what was created. */
  lemma CreatedOncePerEvent(sha256: Sha256, clocks: Clocks, steps: seq<Step>, i: nat, j: nat)
    requires IsRun(sha256, clocks, steps)
    requires var log := EndOf(sha256, clocks, steps).log;
      i < |log| && j < |log| && log[i].Enqueued? && log[j].Enqueued? && log[i].content.eventId == log[j].content.eventId
    ensures i == j
    ensures var s := EndOf(sha256, clocks, steps); Writer(s.db, s.log[i].content.eventId) == Some(s.log[i].content)
  {
    WritersInvHolds(sha256, clocks, steps);
    SysInvHolds(sha256, clocks, steps);
    var s := EndOf(sha256, clocks, steps);
    assert s.db.deliveries[s.log[i].id].content == s.log[i].content;
    assert s.db.deliveries[s.log[j].id].content == s.log[j].content;
    WriterIs(s.db, s.log[i].id);
  }

  /** No step changes or removes an entry; only an enqueue of that very event adds one. */
  lemma StepRefinesMap(sha256: Sha256, clocks: Clocks, steps: seq<Step>, step: Step, eventId: Bytes)
    requires IsRun(sha256, clocks, steps) && Enabled(EndOf(sha256, clocks, steps), step)
    ensures var s := EndOf(sha256, clocks, steps);
      var before, after := Writer(s.db, eventId), Writer(Do(sha256, s, step).db, eventId);
      && (before.Some? ==> after == before)
      && (after != before ==>
            && step.EnqueueStep? && step.request.eventId == eventId
            && after == Some(NewRow(sha256, step.producer, step.request, step.createdAt).content))
  {
    SysInvHolds(sha256, clocks, steps);
    var s := EndOf(sha256, clocks, steps);
    if step.EnqueueStep? {
      EnqueueUpdatesMap(sha256, s.db, step.producer, step.request, step.createdAt, step.now, eventId);
      if AcceptableRequest(step.producer, step.request) {
        EnqueueAnswers(sha256, s.db, step.producer, step.request, step.createdAt, step.now);
      }
    } else {
      StepMovesDb(sha256, s, step);
      StepKeepsLedger(sha256, s, step);
      OtherStepsKeepKeys(sha256, s, step);
      SameContentsSameMap(s.db, Do(sha256, s, step).db, eventId);
    }
  }

  /** The id an accepted enqueue returns names the row of the requested event, created or not. */
  lemma ReturnedIdNamesEvent(sha256: Sha256, clocks: Clocks, steps: seq<Step>, c: Config, r: EnqueueRequest,
    appNow: Micros, now: Micros)
    requires IsRun(sha256, clocks, steps) && ValidConfig(c)
    requires EnqueueOutcome(sha256, EndOf(sha256, clocks, steps).db, c, r, appNow, now).1.Ok?
    ensures var (after, answer) := EnqueueOutcome(sha256, EndOf(sha256, clocks, steps).db, c, r, appNow, now);
      IsRowOfEvent(after, r.eventId, answer.value.id)
  {
    WritersInvHolds(sha256, clocks, steps);
    SysInvHolds(sha256, clocks, steps);
    var db := EndOf(sha256, clocks, steps).db;
    var answer := EnqueueOutcome(sha256, db, c, r, appNow, now).1;
    EnqueueAnswers(sha256, db, c, r, appNow, now);
    CreatedRow(sha256, db, c, r, appNow, now);
    if !answer.value.created {
      var id := RowOfEvent(db, r.eventId);
      assert id == StableDeliveryId(sha256, c.endpointUrl, r.eventId);
    }
  }

  /** The identity-collision error means that the row of another event was enqueued under a different identity
      with the same truncated digest. */
  lemma CollisionErrorIsDigestCollision(sha256: Sha256, clocks: Clocks, steps: seq<Step>, c: Config,
    r: EnqueueRequest, appNow: Micros, now: Micros)
    requires IsRun(sha256, clocks, steps) && ValidConfig(c)
    requires EnqueueOutcome(sha256, EndOf(sha256, clocks, steps).db, c, r, appNow, now).1
      == Err(EnqueueStoreFailure(IdentityCollision))
    ensures var s := EndOf(sha256, clocks, steps);
      var id := StableDeliveryId(sha256, c.endpointUrl, r.eventId);
      && id in s.db.deliveries
      && var taken := s.db.deliveries[id].content;
      && taken.eventId != r.eventId && Enqueued(id, taken) in s.log
      && IdentityBytes(taken.endpointUrl, taken.eventId) != IdentityBytes(c.endpointUrl, r.eventId)
      && Truncated(sha256(IdentityBytes(taken.endpointUrl, taken.eventId)))
           == Truncated(sha256(IdentityBytes(c.endpointUrl, r.eventId)))
  {
    WritersInvHolds(sha256, clocks, steps);
    SysInvHolds(sha256, clocks, steps);
    var s := EndOf(sha256, clocks, steps);
    EnqueueAnswers(sha256, s.db, c, r, appNow, now);
    var id := StableDeliveryId(sha256, c.endpointUrl, r.eventId);
    var taken := s.db.deliveries[id].content;
    assert taken.eventId != r.eventId by { WriterIs(s.db, id); }
    assert WasEnqueued(s.log, id, taken);
    SameIdentityOrCollision(sha256, taken.endpointUrl, taken.eventId, c.endpointUrl, r.eventId);
  }
}
