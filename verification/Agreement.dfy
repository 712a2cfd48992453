/** Receipts and delivery states tell the same story. */
module Agreement {
  import opened Types
  import opened Order
  import opened Claim
  import opened Transactions
  import opened Dispatch
  import opened Ledger
  import opened Protocol
  import opened Fencing

  /** What a logged outcome says about its row for as long as the row keeps its token. */
  predicate RecordFits(db: Db, e: Event)
    requires e.Recorded?
  {
    var status := e.decision.status;
    && e.key.id in db.deliveries
    && var d := db.deliveries[e.key.id];
    && TokenAtMost(e.key, CurrentKey(e.key.id, d))
    && e.at < e.leaseUntil
    && ReceiptShows(e.decision.receipt, e.cause, e.appNow)
    && (status == Delivered <==> e.cause.Answer? && IsSuccess(e.cause.result))
    && (status == Delivered <==> e.decision.receipt.outcome == DeliveredOutcome)
    && (status == Delivering <==> e.cause == Answer(RuntimeFailure))
    && (status == DeadLetter ==> IsPermanent(e.decision.receipt.outcome) || e.key.attempt >= d.maxAttempts)
    && (status == RetryScheduled <==> e.decision.next.Some?)
    && (e.key == CurrentKey(e.key.id, d) && status != Delivering ==>
          d.status == status && (status == RetryScheduled ==> d.availableAt == e.decision.next.value))
  }

  ghost predicate WasRecorded(log: seq<Event>, k: AttemptKey, status: Status) {
    exists i :: 0 <= i < |log| && log[i].Recorded? && log[i].key == k && log[i].decision.status == status
  }

  /** A settled row was settled by a logged outcome for its own token, or by running out of attempts. */
  ghost predicate RowExplained(log: seq<Event>, id: DeliveryId, d: Delivery) {
    match d.status
    case Queued => true
    case Delivering => true
    case RetryScheduled => WasRecorded(log, CurrentKey(id, d), RetryScheduled)
    case Delivered => WasRecorded(log, CurrentKey(id, d), Delivered)
    case DeadLetter => d.attempts >= d.maxAttempts || WasRecorded(log, CurrentKey(id, d), DeadLetter)
  }

  ghost predicate RecordsInv(s: Sys) {
    && (forall i | 0 <= i < |s.log| :: s.log[i].Recorded? ==> RecordFits(s.db, s.log[i]))
    && (forall id | id in s.db.deliveries :: RowExplained(s.log, id, s.db.deliveries[id]))
  }

  lemma RecordFitsMoves(a: Db, b: Db, e: Event)
    requires e.Recorded? && RecordFits(a, e) && DbMoves(a, b)
    ensures RecordFits(b, e)
  {
    assert RowMoves(a.deliveries[e.key.id], b.deliveries[e.key.id]);
  }

  lemma WasRecordedStays(log: seq<Event>, longer: seq<Event>, k: AttemptKey, status: Status)
    requires WasRecorded(log, k, status) && log <= longer
    ensures WasRecorded(longer, k, status)
  {
    var i :| 0 <= i < |log| && log[i].Recorded? && log[i].key == k && log[i].decision.status == status;
    assert longer[i] == log[i];
  }

  /** A move that settles nothing: what remains settled was already explained. */
  predicate Unsettling(d: Delivery, e: Delivery) {
    e == d || e.status in {Queued, Delivering} || (e.status == DeadLetter && e.attempts >= e.maxAttempts)
  }

  ghost predicate UnsettlingDb(a: Db, b: Db) {
    forall id | id in b.deliveries ::
      (if id in a.deliveries then Unsettling(a.deliveries[id], b.deliveries[id]) else b.deliveries[id].status == Queued)
  }

  lemma UnsettlingKeepsRecords(s: Sys, t: Sys)
    requires RecordsInv(s) && DbMoves(s.db, t.db) && UnsettlingDb(s.db, t.db)
    requires s.log <= t.log && forall i | |s.log| <= i < |t.log| :: !t.log[i].Recorded?
    ensures RecordsInv(t)
  {
    forall i | 0 <= i < |t.log| && t.log[i].Recorded? ensures RecordFits(t.db, t.log[i]) {
      assert t.log[i] == s.log[i];
      RecordFitsMoves(s.db, t.db, s.log[i]);
    }
    forall id | id in t.db.deliveries ensures RowExplained(t.log, id, t.db.deliveries[id]) {
      if id in s.db.deliveries {
        var d, e := s.db.deliveries[id], t.db.deliveries[id];
        assert RowExplained(s.log, id, d) && Unsettling(d, e);
        if d == e && d.status !in {Queued, Delivering} && WasRecorded(s.log, CurrentKey(id, d), d.status) {
          WasRecordedStays(s.log, t.log, CurrentKey(id, d), d.status);
        }
      }
    }
  }

  lemma ApplyIsUnsettling(db: Db, p: ClaimParams, batch: set<DeliveryId>, c: Option<DeliveryId>)
    requires Selected(db, p, batch, c)
    ensures UnsettlingDb(db, ApplyClaim(db, p, batch, c))
  {
  }

  lemma EnqueueIsUnsettling(sha256: Sha256, db: Db, c: Config, r: EnqueueRequest, appNow: Micros, now: Micros)
    ensures UnsettlingDb(db, EnqueueOutcome(sha256, db, c, r, appNow, now).0)
  {
  }

  lemma OtherStepsAreUnsettling(sha256: Sha256, s: Sys, step: Step)
    requires Enabled(s, step) && !step.RecordStep?
    ensures var t := Do(sha256, s, step);
      && UnsettlingDb(s.db, t.db)
      && s.log <= t.log && forall i | |s.log| <= i < |t.log| :: !t.log[i].Recorded?
  {
    match step
    case EnqueueStep(c, r, createdAt, now) => EnqueueIsUnsettling(sha256, s.db, c, r, createdAt, now);
    case ClaimStep(w, c, skip, now) =>
      var p := ParamsOf(c, skip, now);
      ClaimIsSelected(s.db, p);
      ApplyIsUnsettling(s.db, p, Batch(s.db, p), Candidate(s.db, p));
    case SendStep(_) =>
    case AnswerStep(_, _) =>
    case RecordStep(w, appNow, now) =>
    case CrashStep(_) =>
    case ReplayStep(id, now) =>
  }

  lemma LogGrows(sha256: Sha256, s: Sys, step: Step)
    requires Enabled(s, step)
    ensures var t := Do(sha256, s, step);
      && s.log <= t.log && |t.log| <= |s.log| + 1
      && (|t.log| > |s.log| && t.log[|s.log|].Recorded? ==>
            step.RecordStep? && RecordAttempt(s.db, s.workers[step.w], step.appNow, step.now).Ok?)
  {
  }

  /** The event a worker logs fits the row it leaves behind. */
  lemma NewRecordFits(s: Sys, w: WorkerId, appNow: Micros, now: Micros)
    requires SysInv(s) && w in s.workers && CauseOf(s.workers[w]).Some?
    requires RecordAttempt(s.db, s.workers[w], appNow, now).Ok?
    ensures var t := DoRecord(s, w, appNow, now);
      var k := RecordKey(s.workers[w].record);
      && t.log == s.log + [t.log[|s.log|]] && t.log[|s.log|].Recorded? && t.log[|s.log|].key == k
      && RecordFits(t.db, t.log[|s.log|])
      && t.log[|s.log|].decision == DecisionOf(s.workers[w], appNow)
      && t.db.deliveries.Keys == s.db.deliveries.Keys
      && k == CurrentKey(k.id, t.db.deliveries[k.id])
      && t.db.deliveries[k.id].status == DecisionOf(s.workers[w], appNow).status
      && (forall id | id in s.db.deliveries && id != k.id :: t.db.deliveries[id] == s.db.deliveries[id])
  {
    DecisionIsRecordable(s, w, appNow, now);
    DecisionMeaning(s.workers[w].record, s.workers[w].config, CauseOf(s.workers[w]).value, appNow);
    DecisionReceipt(s.workers[w].record, s.workers[w].config, CauseOf(s.workers[w]).value, appNow);
  }

  lemma RecordKeepsRecords(s: Sys, w: WorkerId, appNow: Micros, now: Micros)
    requires SysInv(s) && RecordsInv(s) && w in s.workers && CauseOf(s.workers[w]).Some?
    ensures RecordsInv(DoRecord(s, w, appNow, now))
  {
    var t := DoRecord(s, w, appNow, now);
    if RecordAttempt(s.db, s.workers[w], appNow, now).Ok? {
      RecordMoves(s, w, appNow, now);
      NewRecordFits(s, w, appNow, now);
      AppendedRecordKeepsRecords(s, t, RecordKey(s.workers[w].record));
    }
  }

  lemma AppendedRecordKeepsRecords(s: Sys, t: Sys, k: AttemptKey)
    requires RecordsInv(s) && DbMoves(s.db, t.db)
    requires |t.log| == |s.log| + 1 && t.log == s.log + [t.log[|s.log|]]
    requires t.log[|s.log|].Recorded? && t.log[|s.log|].key == k && RecordFits(t.db, t.log[|s.log|])
    requires t.db.deliveries.Keys == s.db.deliveries.Keys && k == CurrentKey(k.id, t.db.deliveries[k.id])
    requires t.db.deliveries[k.id].status == t.log[|s.log|].decision.status
    requires forall id | id in s.db.deliveries && id != k.id :: t.db.deliveries[id] == s.db.deliveries[id]
    ensures RecordsInv(t)
  {
    forall i | 0 <= i < |s.log| && s.log[i].Recorded? ensures RecordFits(t.db, s.log[i]) {
      RecordFitsMoves(s.db, t.db, s.log[i]);
    }
    forall id | id in t.db.deliveries ensures RowExplained(t.log, id, t.db.deliveries[id]) {
      var e := t.db.deliveries[id];
      if id == k.id {
        assert t.log[|s.log|].Recorded? && WasRecorded(t.log, k, e.status);
      } else {
        assert RowExplained(s.log, id, e);
        if e.status !in {Queued, Delivering} && WasRecorded(s.log, CurrentKey(id, e), e.status) {
          WasRecordedStays(s.log, t.log, CurrentKey(id, e), e.status);
        }
      }
    }
  }

  lemma RecordsInvStep(sha256: Sha256, s: Sys, step: Step)
    requires SysInv(s) && RecordsInv(s) && Enabled(s, step)
    ensures RecordsInv(Do(sha256, s, step))
  {
    if step.RecordStep? {
      RecordKeepsRecords(s, step.w, step.appNow, step.now);
    } else {
      StepMovesDb(sha256, s, step);
      OtherStepsAreUnsettling(sha256, s, step);
      UnsettlingKeepsRecords(s, Do(sha256, s, step));
    }
  }

  lemma {:induction false} RecordsInvHolds(sha256: Sha256, clocks: Clocks, steps: seq<Step>)
    requires IsRun(sha256, clocks, steps)
    ensures RecordsInv(EndOf(sha256, clocks, steps))
    decreases |steps|
  {
    if steps != [] {
      var before := steps[..|steps| - 1];
      RecordsInvHolds(sha256, clocks, before);
      SysInvHolds(sha256, clocks, before);
      RecordsInvStep(sha256, EndOf(sha256, clocks, before), steps[|steps| - 1]);
    }
  }

  // ---- Receipts when transactions commit in the order of their timestamps ----

  /** A worker still holding its row's token under a live lease has no receipt yet. */
  predicate Unreceipted(db: Db, r: DeliveryRecord, clock: Micros) {
    r.id in db.deliveries
    && (var d := db.deliveries[r.id];
        RecordKey(r) == CurrentKey(r.id, d) && d.status == Delivering && d.lease.Some? && d.lease.value > clock
        ==> RecordKey(r) !in db.receipts)
  }

  ghost predicate ReceiptsInv(s: Sys) {
    && (forall w | w in s.workers :: Unreceipted(s.db, s.workers[w].record, s.clock))
    && (forall i | 0 <= i < |s.log| :: s.log[i].Recorded? ==> OwnReceipt(s.db, s.log[i]))
  }

  /** The receipt stored for the token of a logged outcome is the one that outcome wrote. */
  predicate OwnReceipt(db: Db, e: Event)
    requires e.Recorded?
  {
    e.key in db.receipts && db.receipts[e.key] == e.decision.receipt
  }

  lemma ApplyKeepsUnreceipted(db: Db, p: ClaimParams, batch: set<DeliveryId>, c: Option<DeliveryId>,
    r: DeliveryRecord, clock: Micros)
    requires Selected(db, p, batch, c) && Unreceipted(db, r, clock) && clock <= p.now && c != Some(r.id)
    ensures Unreceipted(ApplyClaim(db, p, batch, c), r, p.now)
  {
    if r.id in batch { assert IsExpired(db.deliveries[r.id], p.queue, p.now); }
  }

  lemma ClaimKeepsUnreceipted(db: Db, p: ClaimParams, r: DeliveryRecord, clock: Micros)
    requires LedgerInv(db) && Unreceipted(db, r, clock) && clock <= p.now
    ensures Unreceipted(ClaimDb(db, p), r, p.now)
  {
    if Candidate(db, p) == Some(r.id) {
      FreshTokenHasNoReceipt(db, p);
    } else {
      ClaimIsSelected(db, p);
      ApplyKeepsUnreceipted(db, p, Batch(db, p), Candidate(db, p), r, clock);
    }
  }

  lemma NextTokenHasNoReceipt(db: Db, p: ClaimParams, batch: set<DeliveryId>, id: DeliveryId)
    requires id in db.deliveries && RowLedger(db, id)
    ensures var d := db.deliveries[id];
      AttemptKey(id, d.replayCount, d.attempts + 1) !in ApplyClaim(db, p, batch, Some(id)).receipts
  {
  }

  lemma FreshTokenHasNoReceipt(db: Db, p: ClaimParams)
    requires LedgerInv(db) && Candidate(db, p).Some?
    ensures var id := Candidate(db, p).value;
      id in ClaimDb(db, p).deliveries && CurrentKey(id, ClaimDb(db, p).deliveries[id]) !in ClaimDb(db, p).receipts
  {
    CandidateFacts(db, p);
    NextTokenHasNoReceipt(db, p, Batch(db, p), Candidate(db, p).value);
  }

  lemma RecordKeepsUnreceipted(s: Sys, w: WorkerId, v: WorkerId, appNow: Micros, now: Micros)
    requires SysInv(s) && w in s.workers && v in s.workers && v != w && CauseOf(s.workers[w]).Some?
    requires Unreceipted(s.db, s.workers[v].record, s.clock) && s.clock <= now
    ensures Unreceipted(DoRecord(s, w, appNow, now).db, s.workers[v].record, now)
  {
  }

  /** A live worker's successful record stores its own receipt. */
  lemma LiveRecordOwnsReceipt(s: Sys, w: WorkerId, appNow: Micros, now: Micros)
    requires SysInv(s) && w in s.workers && CauseOf(s.workers[w]).Some?
    requires Unreceipted(s.db, s.workers[w].record, s.clock) && s.clock <= now
    requires RecordAttempt(s.db, s.workers[w], appNow, now).Ok?
    ensures var t := DoRecord(s, w, appNow, now); t.log[|s.log|].Recorded? && OwnReceipt(t.db, t.log[|s.log|])
  {
    DecisionIsRecordable(s, w, appNow, now);
  }

  lemma UnreceiptedStays(a: Db, b: Db, r: DeliveryRecord, c: Micros, d: Micros)
    requires Unreceipted(a, r, c) && c <= d
    requires b.receipts == a.receipts && r.id in b.deliveries
    requires b.deliveries[r.id] == a.deliveries[r.id] || b.deliveries[r.id].status == Queued
    ensures Unreceipted(b, r, d)
  {
  }

  lemma EnqueueKeepsUnreceipted(sha256: Sha256, db: Db, c: Config, q: EnqueueRequest, appNow: Micros,
    now: Micros, r: DeliveryRecord, clock: Micros)
    requires Unreceipted(db, r, clock) && clock <= now
    ensures Unreceipted(EnqueueOutcome(sha256, db, c, q, appNow, now).0, r, now)
  {
  }

  lemma DoClaimKeepsUnreceipted(s: Sys, w: WorkerId, c: Config, p: ClaimParams, v: WorkerId)
    requires LedgerInv(s.db) && w !in s.workers && v in DoClaim(s, w, c, p).workers
    requires v in s.workers ==> Unreceipted(s.db, s.workers[v].record, s.clock)
    requires s.clock <= p.now
    ensures Unreceipted(DoClaim(s, w, c, p).db, DoClaim(s, w, c, p).workers[v].record, p.now)
  {
    if v in s.workers {
      ClaimKeepsUnreceipted(s.db, p, s.workers[v].record, s.clock);
    } else {
      FreshTokenHasNoReceipt(s.db, p);
    }
  }

  lemma WorkersComeFromBefore(sha256: Sha256, s: Sys, step: Step, v: WorkerId)
    requires Enabled(s, step) && !step.ClaimStep? && v in Do(sha256, s, step).workers
    ensures v in s.workers && Do(sha256, s, step).workers[v].record == s.workers[v].record
    ensures step.RecordStep? ==> v != step.w
  {
  }

  lemma ReplayKeepsUnreceipted(db: Db, id: DeliveryId, now: Micros, r: DeliveryRecord, clock: Micros)
    requires Unreceipted(db, r, clock) && clock <= now
    ensures Unreceipted(ReplayedDb(db, id, now), r, now)
  {
    UnreceiptedStays(db, ReplayedDb(db, id, now), r, clock, now);
  }

  /** Steps that are neither claims nor records leave the current tokens and their receipts alone. */
  lemma OtherStepsKeepUnreceipted(sha256: Sha256, s: Sys, step: Step, r: DeliveryRecord)
    requires Allowed(Monotone, s, step) && !step.ClaimStep? && !step.RecordStep?
    requires Unreceipted(s.db, r, s.clock)
    ensures Unreceipted(Do(sha256, s, step).db, r, Do(sha256, s, step).clock)
  {
    if step.EnqueueStep? {
      EnqueueKeepsUnreceipted(sha256, s.db, step.producer, step.request, step.createdAt, step.now, r, s.clock);
    } else if step.ReplayStep? {
      ReplayKeepsUnreceipted(s.db, step.id, step.now, r, s.clock);
    }
  }

  lemma StepKeepsUnreceipted(sha256: Sha256, s: Sys, step: Step, v: WorkerId)
    requires SysInv(s) && Allowed(Monotone, s, step)
    requires v in s.workers ==> Unreceipted(s.db, s.workers[v].record, s.clock)
    requires v in Do(sha256, s, step).workers
    ensures var t := Do(sha256, s, step); Unreceipted(t.db, t.workers[v].record, t.clock)
  {
    if step.ClaimStep? {
      DoClaimKeepsUnreceipted(s, step.w, step.config, ParamsOf(step.config, step.skip, step.now), v);
    } else {
      WorkersComeFromBefore(sha256, s, step, v);
      if step.RecordStep? {
        RecordKeepsUnreceipted(s, step.w, v, step.appNow, step.now);
      } else {
        OtherStepsKeepUnreceipted(sha256, s, step, s.workers[v].record);
      }
    }
  }

  lemma OwnReceiptStays(a: Db, b: Db, e: Event)
    requires e.Recorded? && OwnReceipt(a, e) && DbMoves(a, b)
    ensures OwnReceipt(b, e)
  {
  }

  lemma OwnReceiptsStay(s: Sys, t: Sys)
    requires DbMoves(s.db, t.db) && s.log <= t.log
    requires forall i | 0 <= i < |s.log| :: s.log[i].Recorded? ==> OwnReceipt(s.db, s.log[i])
    requires forall i | |s.log| <= i < |t.log| :: t.log[i].Recorded? ==> OwnReceipt(t.db, t.log[i])
    ensures forall i | 0 <= i < |t.log| :: t.log[i].Recorded? ==> OwnReceipt(t.db, t.log[i])
  {
    forall i | 0 <= i < |s.log| && t.log[i].Recorded? ensures OwnReceipt(t.db, t.log[i]) {
      assert t.log[i] == s.log[i];
      OwnReceiptStays(s.db, t.db, s.log[i]);
    }
  }

  lemma RecordKeepsOwnReceipts(s: Sys, w: WorkerId, appNow: Micros, now: Micros)
    requires SysInv(s) && ReceiptsInv(s) && w in s.workers && CauseOf(s.workers[w]).Some? && s.clock <= now
    ensures var t := DoRecord(s, w, appNow, now);
      forall i | 0 <= i < |t.log| :: t.log[i].Recorded? ==> OwnReceipt(t.db, t.log[i])
  {
    if RecordAttempt(s.db, s.workers[w], appNow, now).Ok? {
      RecordMoves(s, w, appNow, now);
      LiveRecordOwnsReceipt(s, w, appNow, now);
      OwnReceiptsStay(s, DoRecord(s, w, appNow, now));
    }
  }

  lemma StepKeepsOwnReceipts(sha256: Sha256, s: Sys, step: Step)
    requires SysInv(s) && ReceiptsInv(s) && Allowed(Monotone, s, step)
    ensures var t := Do(sha256, s, step);
      forall i | 0 <= i < |t.log| :: t.log[i].Recorded? ==> OwnReceipt(t.db, t.log[i])
  {
    if step.RecordStep? {
      RecordKeepsOwnReceipts(s, step.w, step.appNow, step.now);
    } else {
      StepMovesDb(sha256, s, step);
      OtherStepsAreUnsettling(sha256, s, step);
      OwnReceiptsStay(s, Do(sha256, s, step));
    }
  }

  lemma {:induction false} ReceiptsInvHolds(sha256: Sha256, steps: seq<Step>)
    requires IsRun(sha256, Monotone, steps)
    ensures ReceiptsInv(EndOf(sha256, Monotone, steps))
    decreases |steps|
  {
    if steps != [] {
      var before := steps[..|steps| - 1];
      var s := EndOf(sha256, Monotone, before);
      var step := steps[|steps| - 1];
      ReceiptsInvHolds(sha256, before);
      SysInvHolds(sha256, Monotone, before);
      StepKeepsOwnReceipts(sha256, s, step);
      forall v | v in Do(sha256, s, step).workers {
        StepKeepsUnreceipted(sha256, s, step, v);
      }
    }
  }

  // ---- Main results ----

  /** Event i is a 2xx answer recorded for token k by its holder while its lease was live. */
  predicate IsDeliveryOf(log: seq<Event>, i: int, k: AttemptKey) {
    && 0 <= i < |log| && log[i].Recorded? && log[i].key == k
    && log[i].cause.Answer? && IsSuccess(log[i].cause.result) && log[i].at < log[i].leaseUntil
  }

  /** A row is delivered exactly when its token's holder recorded a 2xx answer under a live lease. */
  lemma DeliveredIffRecorded(sha256: Sha256, clocks: Clocks, steps: seq<Step>, id: DeliveryId)
    requires IsRun(sha256, clocks, steps) && id in EndOf(sha256, clocks, steps).db.deliveries
    ensures var s := EndOf(sha256, clocks, steps);
      var d := s.db.deliveries[id];
      d.status == Delivered <==> exists i :: IsDeliveryOf(s.log, i, CurrentKey(id, d))
  {
    RecordsInvHolds(sha256, clocks, steps);
    var s := EndOf(sha256, clocks, steps);
    var d := s.db.deliveries[id];
    var k := CurrentKey(id, d);
    assert RowExplained(s.log, id, d);
    if d.status == Delivered {
      var i :| 0 <= i < |s.log| && s.log[i].Recorded? && s.log[i].key == k && s.log[i].decision.status == Delivered;
      assert RecordFits(s.db, s.log[i]);
      assert IsDeliveryOf(s.log, i, k);
    }
    forall i | IsDeliveryOf(s.log, i, k) ensures d.status == Delivered {
      assert RecordFits(s.db, s.log[i]);
    }
  }

  /** With commits in timestamp order, the receipt an inspection shows for a delivered row is that worker's own:
      the status and the body digest it was answered with. */
  lemma DeliveredShowsOwnReceipt(sha256: Sha256, steps: seq<Step>, id: DeliveryId, i: int)
    requires IsRun(sha256, Monotone, steps) && id in EndOf(sha256, Monotone, steps).db.deliveries
    requires var s := EndOf(sha256, Monotone, steps); IsDeliveryOf(s.log, i, CurrentKey(id, s.db.deliveries[id]))
    ensures var s := EndOf(sha256, Monotone, steps);
      var k := CurrentKey(id, s.db.deliveries[id]);
      && (forall last :: IsLastReceipt(s.db, id, last) <==> last == k)
      && k in s.db.receipts && s.db.receipts[k] == s.log[i].decision.receipt
      && var receipt, answer := s.db.receipts[k], s.log[i].cause.result;
      && receipt.outcome == DeliveredOutcome && receipt.occurredAt == s.log[i].appNow
      && receipt.httpStatus == Some(answer.status) && receipt.responseSha256 == Some(answer.bodySha256)
  {
    ReceiptsInvHolds(sha256, steps);
    SysInvHolds(sha256, Monotone, steps);
    RecordsInvHolds(sha256, Monotone, steps);
    var s := EndOf(sha256, Monotone, steps);
    assert OwnReceipt(s.db, s.log[i]) && RecordFits(s.db, s.log[i]);
    LastReceiptIsNewest(s.db, id);
  }

  /** A dead letter with attempts left shows a receipt after which trying again is pointless. */
  lemma NoEarlyGiveUp(sha256: Sha256, steps: seq<Step>, id: DeliveryId)
    requires IsRun(sha256, Monotone, steps) && id in EndOf(sha256, Monotone, steps).db.deliveries
    requires var d := EndOf(sha256, Monotone, steps).db.deliveries[id];
      d.status == DeadLetter && d.attempts < d.maxAttempts
    ensures var db := EndOf(sha256, Monotone, steps).db;
      exists last :: IsLastReceipt(db, id, last) && IsPermanent(db.receipts[last].outcome)
  {
    ReceiptsInvHolds(sha256, steps);
    SysInvHolds(sha256, Monotone, steps);
    RecordsInvHolds(sha256, Monotone, steps);
    var s := EndOf(sha256, Monotone, steps);
    var d := s.db.deliveries[id];
    var k := CurrentKey(id, d);
    assert RowExplained(s.log, id, d);
    var i :| 0 <= i < |s.log| && s.log[i].Recorded? && s.log[i].key == k && s.log[i].decision.status == DeadLetter;
    assert RecordFits(s.db, s.log[i]) && OwnReceipt(s.db, s.log[i]);
    LastReceiptIsNewest(s.db, id);
    assert IsLastReceipt(s.db, id, k);
  }
}
