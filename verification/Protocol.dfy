/** Any number of workers, producers and operators over the two tables, one transaction at a time. */
module Protocol {
  import opened Types
  import opened Order
  import opened Claim
  import opened Transactions
  import opened Dispatch
  import opened Framing

  /** EXPIRED_DELIVERY_MAINTENANCE_BATCH_LIMIT */
  const BATCH_LIMIT: nat := 64

  type Sha256 = Bytes -> Digest

  datatype EnqueueRequest = EnqueueRequest(eventId: Bytes, eventType: Bytes, snapshot: Bytes)

  datatype EnqueueResponse = EnqueueResponse(id: DeliveryId, created: bool, status: Status)

  datatype EnqueueFailure = InvalidEvent | IdempotencyConflict | EnqueueStoreFailure(error: StoreError)

  predicate AcceptableRequest(c: Config, r: EnqueueRequest) {
    ValidEventName(r.eventId) && ValidEventName(r.eventType) && |r.snapshot| <= c.maxPayloadBytes
  }

  function NewRow(sha256: Sha256, c: Config, r: EnqueueRequest, appNow: Micros): NewDelivery {
    NewDelivery(
      StableDeliveryId(sha256, c.endpointUrl, r.eventId),
      Content(r.eventId, r.eventType, c.endpointUrl, c.endpointOrigin, r.snapshot, HexOf(sha256(r.snapshot)), c.queue),
      c.maxAttempts, appNow)
  }

  ghost function EnqueueOutcome(sha256: Sha256, db: Db, c: Config, r: EnqueueRequest, appNow: Micros, now: Micros)
    : (Db, Result<EnqueueResponse, EnqueueFailure>)
  {
    if !AcceptableRequest(c, r) then (db, Err(InvalidEvent))
    else
      var delivery := NewRow(sha256, c, r, appNow);
      match Inserted(db, delivery, now)
      case Err(e) => (db, Err(EnqueueStoreFailure(e)))
      case Ok((after, Created(record))) => (after, Ok(EnqueueResponse(delivery.id, true, record.status)))
      case Ok((after, Existing(record))) => (after, Ok(EnqueueResponse(delivery.id, false, record.status)))
      case Ok((after, Conflict)) => (after, Err(IdempotencyConflict))
  }

  datatype Phase = Holding | Sent | Answered(result: HttpResult)

  /** One dispatch call in flight, with the configuration of the process it runs in. */
  datatype Worker = Worker(record: DeliveryRecord, config: Config, claimedAt: Micros, phase: Phase)

  type WorkerId = nat

  datatype Event =
    | Enqueued(id: DeliveryId, content: Content)
    | Granted(key: AttemptKey, at: Micros)
    | Posted(key: AttemptKey, config: Config, url: Bytes, body: Bytes)
    | Recorded(key: AttemptKey, cause: Cause, config: Config, decision: Decision,
               leaseUntil: Micros, appNow: Micros, at: Micros)
    | Replayed(id: DeliveryId, count: int)

  /** The tables, the calls in flight, the time of the last commit and everything that happened. */
  datatype Sys = Sys(db: Db, workers: map<WorkerId, Worker>, clock: Micros, log: seq<Event>)

  datatype Step =
    | EnqueueStep(producer: Config, request: EnqueueRequest, createdAt: Micros, now: Micros)
    | ClaimStep(w: WorkerId, config: Config, skip: set<DeliveryId>, now: Micros)
    | SendStep(w: WorkerId)
    | AnswerStep(w: WorkerId, result: HttpResult)
    | RecordStep(w: WorkerId, appNow: Micros, now: Micros)
    | CrashStep(w: WorkerId)
    | ReplayStep(id: DeliveryId, now: Micros)

  function Init(): Sys {
    Sys(Db(map[], map[]), map[], 0, [])
  }

  /** A worker records once its endpoint check failed or its POST was answered. */
  function CauseOf(w: Worker): Option<Cause> {
    match w.phase
    case Holding => if EndpointMatches(w.record, w.config) then None else Some(EndpointChanged)
    case Sent => None
    case Answered(result) => Some(Answer(result))
  }

  predicate Enabled(s: Sys, step: Step) {
    match step
    case EnqueueStep(c, _, _, _) => ValidConfig(c)
    case ClaimStep(w, c, _, _) => w !in s.workers && ValidConfig(c)
    case SendStep(w) =>
      w in s.workers && s.workers[w].phase == Holding && EndpointMatches(s.workers[w].record, s.workers[w].config)
    case AnswerStep(w, _) => w in s.workers && s.workers[w].phase == Sent
    case RecordStep(w, _, _) => w in s.workers && CauseOf(s.workers[w]).Some?
    case CrashStep(w) => w in s.workers
    case ReplayStep(_, _) => true
  }

  function ParamsOf(c: Config, skip: set<DeliveryId>, now: Micros): ClaimParams {
    ClaimParams(c.queue, c.leaseSeconds, BATCH_LIMIT, now, skip)
  }

  ghost function DoEnqueue(sha256: Sha256, s: Sys, c: Config, r: EnqueueRequest, appNow: Micros, now: Micros): Sys {
    var (after, response) := EnqueueOutcome(sha256, s.db, c, r, appNow, now);
    s.(db := after, clock := now,
       log := if response.Ok? && response.value.created
              then s.log + [Enqueued(response.value.id, NewRow(sha256, c, r, appNow).content)] else s.log)
  }

  ghost function DoClaim(s: Sys, w: WorkerId, c: Config, p: ClaimParams): Sys {
    var claimed := ClaimRecord(s.db, p);
    if claimed.None? then s.(db := ClaimDb(s.db, p), clock := p.now)
    else Sys(ClaimDb(s.db, p), s.workers[w := Worker(claimed.value, c, p.now, Holding)], p.now,
             s.log + [Granted(RecordKey(claimed.value), p.now)])
  }

  function DecisionOf(w: Worker, appNow: Micros): Decision
    requires CauseOf(w).Some?
  {
    Decide(w.record, w.config, CauseOf(w).value, appNow)
  }

  function RecordAttempt(db: Db, w: Worker, appNow: Micros, now: Micros): Result<Db, StoreError>
    requires CauseOf(w).Some?
  {
    var d := DecisionOf(w, appNow);
    RecordedDb(db, RecordKey(w.record), d.receipt, d.status, d.next, now)
  }

  /** The call ends either way; only a transaction that passes the fence leaves a trace. */
  function DoRecord(s: Sys, w: WorkerId, appNow: Micros, now: Micros): Sys
    requires w in s.workers && CauseOf(s.workers[w]).Some?
  {
    var worker := s.workers[w];
    var key := RecordKey(worker.record);
    match RecordAttempt(s.db, worker, appNow, now)
    case Err(_) => s.(workers := s.workers - {w}, clock := now)
    case Ok(after) =>
      Sys(after, s.workers - {w}, now,
          s.log + [Recorded(key, CauseOf(worker).value, worker.config, DecisionOf(worker, appNow),
                            s.db.deliveries[key.id].lease.value, appNow, now)])
  }

  ghost function Do(sha256: Sha256, s: Sys, step: Step): Sys
    requires Enabled(s, step)
  {
    match step
    case EnqueueStep(c, r, createdAt, now) => DoEnqueue(sha256, s, c, r, createdAt, now)
    case ClaimStep(w, c, skip, now) => DoClaim(s, w, c, ParamsOf(c, skip, now))
    case SendStep(w) =>
      var worker := s.workers[w];
      s.(workers := s.workers[w := worker.(phase := Sent)],
         log := s.log + [Posted(RecordKey(worker.record), worker.config, worker.config.endpointUrl,
                              worker.record.content.payload)])
    case AnswerStep(w, result) => s.(workers := s.workers[w := s.workers[w].(phase := Answered(result))])
    case RecordStep(w, appNow, now) => DoRecord(s, w, appNow, now)
    case CrashStep(w) => s.(workers := s.workers - {w})
    case ReplayStep(id, now) =>
      s.(db := ReplayedDb(s.db, id, now), clock := now,
         log := if CanReplay(s.db, id) then s.log + [Replayed(id, s.db.deliveries[id].replayCount + 1)] else s.log)
  }

  /** What is assumed of transaction timestamps: nothing, or that they never decrease in commit order. */
  datatype Clocks = Arbitrary | Monotone

  predicate Timely(s: Sys, step: Step) {
    match step
    case EnqueueStep(_, _, _, now) => s.clock <= now
    case ClaimStep(_, _, _, now) => s.clock <= now
    case RecordStep(w, appNow, now) =>
      s.clock <= now && (w in s.workers ==> s.workers[w].claimedAt <= appNow <= now)
    case ReplayStep(_, now) => s.clock <= now
    case SendStep(_) => true
    case AnswerStep(_, _) => true
    case CrashStep(_) => true
  }

  ghost predicate Allowed(clocks: Clocks, s: Sys, step: Step) {
    Enabled(s, step) && (clocks == Monotone ==> Timely(s, step))
  }

  ghost predicate Legal(sha256: Sha256, clocks: Clocks, from: Sys, steps: seq<Step>)
    decreases |steps|, 0
  {
    steps == [] || (
      var before := steps[..|steps| - 1];
      Legal(sha256, clocks, from, before) && Allowed(clocks, After(sha256, clocks, from, before), steps[|steps| - 1]))
  }

  /** The state a legal run ends in. */
  ghost function After(sha256: Sha256, clocks: Clocks, from: Sys, steps: seq<Step>): Sys
    requires Legal(sha256, clocks, from, steps)
    decreases |steps|, 1
  {
    if steps == [] then from
    else Do(sha256, After(sha256, clocks, from, steps[..|steps| - 1]), steps[|steps| - 1])
  }

  /** A run of the system from empty tables. */
  ghost predicate IsRun(sha256: Sha256, clocks: Clocks, steps: seq<Step>) {
    Legal(sha256, clocks, Init(), steps)
  }

  ghost function EndOf(sha256: Sha256, clocks: Clocks, steps: seq<Step>): Sys
    requires IsRun(sha256, clocks, steps)
  {
    After(sha256, clocks, Init(), steps)
  }

  lemma {:induction false} PrefixIsLegal(sha256: Sha256, clocks: Clocks, from: Sys, steps: seq<Step>, n: nat)
    requires Legal(sha256, clocks, from, steps) && n <= |steps|
    ensures Legal(sha256, clocks, from, steps[..n])
    decreases |steps|
  {
    if n < |steps| {
      PrefixIsLegal(sha256, clocks, from, steps[..|steps| - 1], n);
      assert steps[..|steps| - 1][..n] == steps[..n];
    } else {
      assert steps[..n] == steps;
    }
  }
}
