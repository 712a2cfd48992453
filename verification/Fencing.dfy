/** Fence tokens over whole runs, with no assumption on clocks or on skipped rows. */
module Fencing {
  import opened Types
  import opened Claim
  import opened Transactions
  import opened Dispatch
  import opened Ledger
  import opened Protocol

  /** Everything one transaction can do to a row. */
  predicate RowMoves(d: Delivery, e: Delivery) {
    && e.content == d.content && e.maxAttempts == d.maxAttempts && e.createdAt == d.createdAt
    && (|| e == d
        || (e.replayCount == d.replayCount && e.attempts == d.attempts + 1 && e.status == Delivering
            && d.attempts < d.maxAttempts && d.status in {Queued, RetryScheduled, Delivering})
        || (e.replayCount == d.replayCount && e.attempts == d.attempts && d.status == Delivering && e.status != Queued)
        || (d.status == DeadLetter && e.status == Queued && e.replayCount == d.replayCount + 1 && e.attempts == 0))
  }

  /** Rows are never deleted and move as above; receipts are never changed or deleted. */
  ghost predicate DbMoves(a: Db, b: Db) {
    && (forall id :: id in a.deliveries ==> id in b.deliveries && RowMoves(a.deliveries[id], b.deliveries[id]))
    && (forall k :: k in a.receipts ==> k in b.receipts && b.receipts[k] == a.receipts[k])
  }

  predicate WorkerFits(db: Db, r: DeliveryRecord) {
    && r.id in db.deliveries
    && r.content == db.deliveries[r.id].content && r.maxAttempts == db.deliveries[r.id].maxAttempts
    && 1 <= r.attempts <= r.maxAttempts && 0 <= r.replayCount
    && TokenAtMost(RecordKey(r), CurrentKey(r.id, db.deliveries[r.id]))
  }

  /** Workers hold tokens the tables know, and no two hold the same. */
  ghost predicate WorkersInv(s: Sys) {
    && (forall w :: w in s.workers ==> WorkerFits(s.db, s.workers[w].record))
    && (forall v, w | v in s.workers && w in s.workers ::
          RecordKey(s.workers[v].record) == RecordKey(s.workers[w].record) ==> v == w)
  }

  ghost predicate SysInv(s: Sys) {
    LedgerInv(s.db) && WorkersInv(s)
  }

  lemma ApplyMoves(db: Db, p: ClaimParams, batch: set<DeliveryId>, c: Option<DeliveryId>)
    requires LedgerInv(db) && Selected(db, p, batch, c)
    ensures DbMoves(db, ApplyClaim(db, p, batch, c))
  {
    var after := ApplyClaim(db, p, batch, c);
    forall id | id in db.deliveries ensures RowMoves(db.deliveries[id], after.deliveries[id]) {
      if id in batch { assert IsExpired(db.deliveries[id], p.queue, p.now); }
    }
  }

  /** A worker's decision is one the ledger can absorb. */
  lemma DecisionIsRecordable(s: Sys, w: WorkerId, appNow: Micros, now: Micros)
    requires SysInv(s) && w in s.workers && CauseOf(s.workers[w]).Some?
    requires RecordAttempt(s.db, s.workers[w], appNow, now).Ok?
    ensures var worker := s.workers[w];
      && RecordableStatus(s.db.deliveries[worker.record.id], DecisionOf(worker, appNow).status)
      && Fence(s.db.deliveries[worker.record.id], RecordKey(worker.record), now)
      && RecordKey(worker.record) == CurrentKey(worker.record.id, s.db.deliveries[worker.record.id])
  {
    var worker := s.workers[w];
    DecisionMeaning(worker.record, worker.config, CauseOf(worker).value, appNow);
  }

  lemma ClaimMoves(db: Db, p: ClaimParams)
    requires LedgerInv(db)
    ensures DbMoves(db, ClaimDb(db, p))
  {
    ClaimIsSelected(db, p);
    ApplyMoves(db, p, Batch(db, p), Candidate(db, p));
  }

  lemma InsertMoves(db: Db, delivery: NewDelivery, now: Micros)
    requires Inserted(db, delivery, now).Ok?
    ensures DbMoves(db, Inserted(db, delivery, now).value.0)
  {
  }

  lemma EnqueueMoves(sha256: Sha256, db: Db, c: Config, r: EnqueueRequest, appNow: Micros, now: Micros)
    ensures DbMoves(db, EnqueueOutcome(sha256, db, c, r, appNow, now).0)
  {
    var delivery := NewRow(sha256, c, r, appNow);
    if Inserted(db, delivery, now).Ok? { InsertMoves(db, delivery, now); }
  }

  lemma RecordedMoves(db: Db, key: AttemptKey, receipt: Receipt, status: Status, next: Option<Micros>, now: Micros)
    requires RecordedDb(db, key, receipt, status, next, now).Ok? && status != Queued
    ensures DbMoves(db, RecordedDb(db, key, receipt, status, next, now).value)
  {
  }

  lemma RecordMoves(s: Sys, w: WorkerId, appNow: Micros, now: Micros)
    requires w in s.workers && CauseOf(s.workers[w]).Some?
    ensures DbMoves(s.db, DoRecord(s, w, appNow, now).db)
  {
    var worker := s.workers[w];
    var d := DecisionOf(worker, appNow);
    if RecordAttempt(s.db, worker, appNow, now).Ok? {
      DecisionMeaning(worker.record, worker.config, CauseOf(worker).value, appNow);
      RecordedMoves(s.db, RecordKey(worker.record), d.receipt, d.status, d.next, now);
    }
  }

  lemma ReplayMoves(db: Db, id: DeliveryId, now: Micros)
    ensures DbMoves(db, ReplayedDb(db, id, now))
  {
  }

  /** No step deletes a row, moves it in any other way, or touches a receipt. */
  lemma StepMovesDb(sha256: Sha256, s: Sys, step: Step)
    requires SysInv(s) && Enabled(s, step)
    ensures DbMoves(s.db, Do(sha256, s, step).db)
  {
    match step
    case EnqueueStep(c, r, createdAt, now) => EnqueueMoves(sha256, s.db, c, r, createdAt, now);
    case ClaimStep(w, c, skip, now) => ClaimMoves(s.db, ParamsOf(c, skip, now));
    case SendStep(_) =>
    case AnswerStep(_, _) =>
    case RecordStep(w, appNow, now) => RecordMoves(s, w, appNow, now);
    case CrashStep(_) =>
    case ReplayStep(id, now) => ReplayMoves(s.db, id, now);
  }

  lemma EnqueueKeepsLedger(sha256: Sha256, db: Db, c: Config, r: EnqueueRequest, appNow: Micros, now: Micros)
    requires LedgerInv(db)
    ensures LedgerInv(EnqueueOutcome(sha256, db, c, r, appNow, now).0)
  {
    var delivery := NewRow(sha256, c, r, appNow);
    if Inserted(db, delivery, now).Ok? { InsertKeepsLedger(db, delivery, now); }
  }

  lemma DoRecordKeepsLedger(s: Sys, w: WorkerId, appNow: Micros, now: Micros)
    requires SysInv(s) && w in s.workers && CauseOf(s.workers[w]).Some?
    ensures LedgerInv(DoRecord(s, w, appNow, now).db)
  {
    if RecordAttempt(s.db, s.workers[w], appNow, now).Ok? {
      DecisionIsRecordable(s, w, appNow, now);
      var d := DecisionOf(s.workers[w], appNow);
      RecordKeepsLedger(s.db, RecordKey(s.workers[w].record), d.receipt, d.status, d.next, now);
    }
  }

  lemma StepKeepsLedger(sha256: Sha256, s: Sys, step: Step)
    requires SysInv(s) && Enabled(s, step)
    ensures LedgerInv(Do(sha256, s, step).db)
  {
    match step
    case EnqueueStep(c, r, createdAt, now) => EnqueueKeepsLedger(sha256, s.db, c, r, createdAt, now);
    case ClaimStep(w, c, skip, now) => ClaimKeepsLedger(s.db, ParamsOf(c, skip, now));
    case SendStep(_) =>
    case AnswerStep(_, _) =>
    case RecordStep(w, appNow, now) => DoRecordKeepsLedger(s, w, appNow, now);
    case CrashStep(_) =>
    case ReplayStep(id, now) => ReplayKeepsLedger(s.db, id, now);
  }

  /** A step that grants no token: records in flight stay or leave, and at most one other event is logged. */
  ghost predicate Quiet(s: Sys, t: Sys) {
    DbMoves(s.db, t.db) && QuietLog(s, t)
  }

  ghost predicate QuietLog(s: Sys, t: Sys) {
    && (forall w :: w in t.workers ==> w in s.workers && t.workers[w].record == s.workers[w].record)
    && (t.log == s.log || (|t.log| == |s.log| + 1 && t.log[..|s.log|] == s.log && !t.log[|s.log|].Granted?))
  }

  lemma OtherLogsAreQuiet(sha256: Sha256, s: Sys, step: Step)
    requires Enabled(s, step) && !step.ClaimStep?
    ensures QuietLog(s, Do(sha256, s, step))
  {
  }

  lemma OtherStepsAreQuiet(sha256: Sha256, s: Sys, step: Step)
    requires SysInv(s) && Enabled(s, step) && !step.ClaimStep?
    ensures Quiet(s, Do(sha256, s, step))
  {
    StepMovesDb(sha256, s, step);
    OtherLogsAreQuiet(sha256, s, step);
  }

  lemma IdleClaimIsQuiet(s: Sys, w: WorkerId, c: Config, p: ClaimParams)
    requires SysInv(s) && ClaimRecord(s.db, p).None?
    ensures Quiet(s, DoClaim(s, w, c, p))
  {
    ClaimMoves(s.db, p);
  }

  lemma QuietKeepsWorkers(s: Sys, t: Sys)
    requires WorkersInv(s) && Quiet(s, t)
    ensures WorkersInv(t)
  {
    forall w | w in t.workers ensures WorkerFits(t.db, t.workers[w].record) {
      WorkerFitsMoves(s.db, t.db, s.workers[w].record);
    }
  }

  lemma WorkerFitsMoves(a: Db, b: Db, r: DeliveryRecord)
    requires WorkerFits(a, r) && DbMoves(a, b)
    ensures WorkerFits(b, r)
  {
    assert RowMoves(a.deliveries[r.id], b.deliveries[r.id]);
  }

  /** The token a claim grants is the row's new one, above every token the row has had. */
  lemma GrantedToken(db: Db, p: ClaimParams)
    requires LedgerInv(db) && ClaimRecord(db, p).Some?
    ensures var r := ClaimRecord(db, p).value;
      && r.id in db.deliveries && r.id in ClaimDb(db, p).deliveries
      && RecordKey(r) == CurrentKey(r.id, ClaimDb(db, p).deliveries[r.id])
      && TokenLess(CurrentKey(r.id, db.deliveries[r.id]), RecordKey(r))
      && WorkerFits(ClaimDb(db, p), r)
  {
    CandidateFacts(db, p);
    assert DeliveryCheck(db.deliveries[Candidate(db, p).value]);
  }

  /** `t` is `s` with one more worker, whose token is above every token of its row in `s`. */
  predicate Joined(s: Sys, t: Sys, w: WorkerId, worker: Worker, at: Micros) {
    var r := worker.record;
    && w !in s.workers && t.workers == s.workers[w := worker]
    && t.log == s.log + [Granted(RecordKey(r), at)]
    && r.id in s.db.deliveries && TokenLess(CurrentKey(r.id, s.db.deliveries[r.id]), RecordKey(r))
    && WorkerFits(t.db, r)
  }

  lemma ClaimJoins(s: Sys, w: WorkerId, c: Config, p: ClaimParams)
    requires SysInv(s) && w !in s.workers && ClaimRecord(s.db, p).Some?
    ensures Joined(s, DoClaim(s, w, c, p), w, Worker(ClaimRecord(s.db, p).value, c, p.now, Holding), p.now)
  {
    GrantedToken(s.db, p);
  }

  lemma JoinKeepsWorkers(s: Sys, t: Sys, w: WorkerId, worker: Worker, at: Micros)
    requires WorkersInv(s) && DbMoves(s.db, t.db) && Joined(s, t, w, worker, at)
    ensures WorkersInv(t)
  {
    forall v | v in s.workers ensures WorkerFits(t.db, s.workers[v].record) {
      WorkerFitsMoves(s.db, t.db, s.workers[v].record);
    }
  }

  lemma SysInvStep(sha256: Sha256, s: Sys, step: Step)
    requires SysInv(s) && Enabled(s, step)
    ensures SysInv(Do(sha256, s, step))
  {
    StepKeepsLedger(sha256, s, step);
    if step.ClaimStep? {
      var p := ParamsOf(step.config, step.skip, step.now);
      if ClaimRecord(s.db, p).Some? {
        ClaimMoves(s.db, p);
        ClaimJoins(s, step.w, step.config, p);
        JoinKeepsWorkers(s, DoClaim(s, step.w, step.config, p), step.w,
          Worker(ClaimRecord(s.db, p).value, step.config, p.now, Holding), p.now);
      } else {
        IdleClaimIsQuiet(s, step.w, step.config, p);
        QuietKeepsWorkers(s, DoClaim(s, step.w, step.config, p));
      }
    } else {
      OtherStepsAreQuiet(sha256, s, step);
      QuietKeepsWorkers(s, Do(sha256, s, step));
    }
  }

  lemma {:induction false} SysInvHolds(sha256: Sha256, clocks: Clocks, steps: seq<Step>)
    requires IsRun(sha256, clocks, steps)
    ensures SysInv(EndOf(sha256, clocks, steps))
    decreases |steps|
  {
    if steps != [] {
      var before := steps[..|steps| - 1];
      SysInvHolds(sha256, clocks, before);
      SysInvStep(sha256, EndOf(sha256, clocks, before), steps[|steps| - 1]);
    }
  }

  // ---- Tokens granted ----

  /** Every grant is known to the tables, grants of one delivery increase, and every worker holds one. */
  ghost predicate GrantsInv(s: Sys) {
    && (forall i | 0 <= i < |s.log| :: s.log[i].Granted? ==> GrantFits(s.db, s.log[i].key))
    && GrantsIncrease(s.log)
    && (forall w | w in s.workers :: WasGranted(s.log, RecordKey(s.workers[w].record)))
  }

  predicate GrantFits(db: Db, k: AttemptKey) {
    && k.id in db.deliveries && 1 <= k.attempt <= db.deliveries[k.id].maxAttempts && 0 <= k.replayCount
    && TokenAtMost(k, CurrentKey(k.id, db.deliveries[k.id]))
  }

  ghost predicate GrantsIncrease(log: seq<Event>) {
    forall i, j | 0 <= i < j < |log| ::
      log[i].Granted? && log[j].Granted? && log[i].key.id == log[j].key.id ==> TokenLess(log[i].key, log[j].key)
  }

  ghost predicate WasGranted(log: seq<Event>, k: AttemptKey) {
    exists i :: 0 <= i < |log| && log[i].Granted? && log[i].key == k
  }

  lemma WasGrantedStays(log: seq<Event>, e: Event, k: AttemptKey)
    requires WasGranted(log, k)
    ensures WasGranted(log + [e], k)
  {
    var i :| 0 <= i < |log| && log[i].Granted? && log[i].key == k;
    assert (log + [e])[i] == log[i];
  }

  lemma GrantFitsMoves(a: Db, b: Db, k: AttemptKey)
    requires GrantFits(a, k) && DbMoves(a, b)
    ensures GrantFits(b, k)
  {
    assert RowMoves(a.deliveries[k.id], b.deliveries[k.id]);
  }

  lemma QuietLogExtends(s: Sys, t: Sys)
    requires QuietLog(s, t)
    ensures s.log <= t.log && forall i | |s.log| <= i < |t.log| :: !t.log[i].Granted?
  {
  }

  lemma WasGrantedExtends(log: seq<Event>, longer: seq<Event>, k: AttemptKey)
    requires WasGranted(log, k) && log <= longer
    ensures WasGranted(longer, k)
  {
    var i :| 0 <= i < |log| && log[i].Granted? && log[i].key == k;
    assert longer[i] == log[i];
  }

  lemma QuietKeepsGrants(s: Sys, t: Sys)
    requires GrantsInv(s) && Quiet(s, t)
    ensures GrantsInv(t)
  {
    QuietLogExtends(s, t);
    forall i | 0 <= i < |t.log| && t.log[i].Granted?
      ensures i < |s.log| && t.log[i] == s.log[i] && GrantFits(t.db, t.log[i].key)
    {
      GrantFitsMoves(s.db, t.db, s.log[i].key);
    }
    forall w | w in t.workers ensures WasGranted(t.log, RecordKey(t.workers[w].record)) {
      WasGrantedExtends(s.log, t.log, RecordKey(s.workers[w].record));
    }
  }

  lemma JoinKeepsGrants(s: Sys, t: Sys, w: WorkerId, worker: Worker, at: Micros)
    requires GrantsInv(s) && DbMoves(s.db, t.db) && Joined(s, t, w, worker, at)
    ensures GrantsInv(t)
  {
    var e := Granted(RecordKey(worker.record), at);
    forall i | 0 <= i < |s.log| && s.log[i].Granted?
      ensures GrantFits(t.db, s.log[i].key)
      ensures s.log[i].key.id == e.key.id ==> TokenLess(s.log[i].key, e.key)
    {
      assert GrantFits(s.db, s.log[i].key);
      GrantFitsMoves(s.db, t.db, s.log[i].key);
    }
    forall v | v in t.workers ensures WasGranted(t.log, RecordKey(t.workers[v].record)) {
      if v == w {
        assert t.log[|s.log|] == e;
      } else {
        WasGrantedStays(s.log, e, RecordKey(s.workers[v].record));
      }
    }
  }

  lemma GrantsInvStep(sha256: Sha256, s: Sys, step: Step)
    requires SysInv(s) && GrantsInv(s) && Enabled(s, step)
    ensures GrantsInv(Do(sha256, s, step))
  {
    if step.ClaimStep? {
      var p := ParamsOf(step.config, step.skip, step.now);
      if ClaimRecord(s.db, p).Some? {
        ClaimMoves(s.db, p);
        ClaimJoins(s, step.w, step.config, p);
        JoinKeepsGrants(s, DoClaim(s, step.w, step.config, p), step.w,
          Worker(ClaimRecord(s.db, p).value, step.config, p.now, Holding), p.now);
      } else {
        IdleClaimIsQuiet(s, step.w, step.config, p);
        QuietKeepsGrants(s, DoClaim(s, step.w, step.config, p));
      }
    } else {
      OtherStepsAreQuiet(sha256, s, step);
      QuietKeepsGrants(s, Do(sha256, s, step));
    }
  }

  lemma {:induction false} GrantsInvHolds(sha256: Sha256, clocks: Clocks, steps: seq<Step>)
    requires IsRun(sha256, clocks, steps)
    ensures GrantsInv(EndOf(sha256, clocks, steps))
    decreases |steps|
  {
    if steps != [] {
      var before := steps[..|steps| - 1];
      GrantsInvHolds(sha256, clocks, before);
      SysInvHolds(sha256, clocks, before);
      GrantsInvStep(sha256, EndOf(sha256, clocks, before), steps[|steps| - 1]);
    }
  }

  // ---- Main results ----

  /** Over any run, the tokens granted for one delivery strictly increase, so none is granted twice. */
  lemma TokensStrictlyIncrease(sha256: Sha256, clocks: Clocks, steps: seq<Step>, i: nat, j: nat)
    requires IsRun(sha256, clocks, steps)
    requires var log := EndOf(sha256, clocks, steps).log;
      i < j < |log| && log[i].Granted? && log[j].Granted? && log[i].key.id == log[j].key.id
    ensures var log := EndOf(sha256, clocks, steps).log;
      TokenLess(log[i].key, log[j].key) && log[i].key != log[j].key
  {
    GrantsInvHolds(sha256, clocks, steps);
  }

  /** In every reachable state at most one call in flight per delivery can pass the fence, at any time. */
  lemma OneWorkerPasses(sha256: Sha256, clocks: Clocks, steps: seq<Step>, v: WorkerId, w: WorkerId, tv: Micros,
    tw: Micros)
    requires IsRun(sha256, clocks, steps)
    requires var s := EndOf(sha256, clocks, steps);
      && v in s.workers && w in s.workers && s.workers[v].record.id == s.workers[w].record.id
      && s.workers[v].record.id in s.db.deliveries
      && Fence(s.db.deliveries[s.workers[v].record.id], RecordKey(s.workers[v].record), tv)
      && Fence(s.db.deliveries[s.workers[w].record.id], RecordKey(s.workers[w].record), tw)
    ensures v == w
  {
    SysInvHolds(sha256, clocks, steps);
  }

  /** A worker that lost its token is rejected at every time and changes neither table. */
  lemma StaleWorkerChangesNothing(sha256: Sha256, clocks: Clocks, steps: seq<Step>, w: WorkerId,
    appNow: Micros, now: Micros)
    requires IsRun(sha256, clocks, steps)
    requires var s := EndOf(sha256, clocks, steps); w in s.workers && CauseOf(s.workers[w]).Some?
    ensures var s := EndOf(sha256, clocks, steps);
      var r := s.workers[w].record;
      && r.id in s.db.deliveries
      && (RecordKey(r) != CurrentKey(r.id, s.db.deliveries[r.id])
          || s.db.deliveries[r.id].status != Delivering
          || (s.db.deliveries[r.id].lease.Some? && s.db.deliveries[r.id].lease.value <= now)
          ==> DoRecord(s, w, appNow, now).db == s.db && DoRecord(s, w, appNow, now).log == s.log)
  {
    SysInvHolds(sha256, clocks, steps);
    var s := EndOf(sha256, clocks, steps);
    assert DeliveryCheck(s.db.deliveries[s.workers[w].record.id]);
  }

  /** Receipts for exactly 1..n in each finished cycle, and 1..attempts (or one fewer while leased) in the current one. */
  lemma LedgerIsGapless(sha256: Sha256, clocks: Clocks, steps: seq<Step>, id: DeliveryId)
    requires IsRun(sha256, clocks, steps) && id in EndOf(sha256, clocks, steps).db.deliveries
    ensures var db := EndOf(sha256, clocks, steps).db;
      var d := db.deliveries[id];
      && (forall replay :: 0 <= replay < d.replayCount ==> FinishedCycle(db, id, replay, d.maxAttempts))
      && (ExactlyUpTo(db, id, d.replayCount, d.attempts)
          || (d.status == Delivering && ExactlyUpTo(db, id, d.replayCount, d.attempts - 1)))
      && (forall k :: k in db.receipts && k.id == id ==> TokenAtMost(k, CurrentKey(id, d)))
  {
    SysInvHolds(sha256, clocks, steps);
    var db := EndOf(sha256, clocks, steps).db;
    var d := db.deliveries[id];
    assert RowLedger(db, id);
    forall k | k in db.receipts && k.id == id ensures TokenAtMost(k, CurrentKey(id, d)) {
      assert k == AttemptKey(id, k.replayCount, k.attempt);
    }
  }

  /** From `since` on, a claim of the row's queue sees the row as due or expired. */
  ghost predicate ActionableFrom(d: Delivery, since: Micros) {
    forall now: Micros :: since <= now ==> IsDue(d, d.content.queue, now) || IsExpired(d, d.content.queue, now)
  }

  /** A row has such a time exactly when it is not terminal: nothing is stranded. */
  lemma NoStrandedRow(sha256: Sha256, clocks: Clocks, steps: seq<Step>, id: DeliveryId)
    requires IsRun(sha256, clocks, steps) && id in EndOf(sha256, clocks, steps).db.deliveries
    ensures var d := EndOf(sha256, clocks, steps).db.deliveries[id];
      (exists since :: ActionableFrom(d, since)) <==> d.status !in {Delivered, DeadLetter}
  {
    SysInvHolds(sha256, clocks, steps);
    var d := EndOf(sha256, clocks, steps).db.deliveries[id];
    assert Shaped(d) && DeliveryCheck(d);
    if d.status !in {Delivered, DeadLetter} {
      assert ActionableFrom(d, if d.status == Delivering then d.lease.value else d.availableAt);
    } else {
      forall since ensures !ActionableFrom(d, since) {
        assert !IsDue(d, d.content.queue, since);
      }
    }
  }

  lemma CheckFailsIffUnstorable(db: Db, w: Worker, appNow: Micros, now: Micros)
    requires CauseOf(w).Some? && 1 <= w.record.attempts <= 100
    ensures RecordAttempt(db, w, appNow, now) == Err(CheckViolation) <==>
      w.phase.Answered? && w.phase.result.Response? && !(100 <= w.phase.result.status <= 599)
  {
  }

  lemma FittingAttemptNumber(s: Sys, w: WorkerId)
    requires SysInv(s) && w in s.workers
    ensures 1 <= s.workers[w].record.attempts <= 100
  {
    assert WorkerFits(s.db, s.workers[w].record);
    assert DeliveryCheck(s.db.deliveries[s.workers[w].record.id]);
  }

  /** A record fails a CHECK exactly for an HTTP status the ledger cannot hold; the row then stays leased. */
  lemma UnstorableStatusRollsBack(sha256: Sha256, clocks: Clocks, steps: seq<Step>, w: WorkerId,
    appNow: Micros, now: Micros)
    requires IsRun(sha256, clocks, steps)
    requires var s := EndOf(sha256, clocks, steps); w in s.workers && CauseOf(s.workers[w]).Some?
    ensures var s := EndOf(sha256, clocks, steps);
      var phase := s.workers[w].phase;
      && (RecordAttempt(s.db, s.workers[w], appNow, now) == Err(CheckViolation) <==>
            phase.Answered? && phase.result.Response? && !(100 <= phase.result.status <= 599))
      && (RecordAttempt(s.db, s.workers[w], appNow, now).Err? ==> DoRecord(s, w, appNow, now).db == s.db)
  {
    SysInvHolds(sha256, clocks, steps);
    var s := EndOf(sha256, clocks, steps);
    FittingAttemptNumber(s, w);
    CheckFailsIffUnstorable(s.db, s.workers[w], appNow, now);
  }
}
