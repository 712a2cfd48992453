/** Receipts when transactions commit in another order than they begin. A transaction's timestamp is the time it
    begins, so this needs no faulty clock: a record may begin before its lease expires, wait, and commit after a
    claim that began later has receipted the attempt as expired. */
module LateCommits {
  import opened Types
  import opened Order
  import opened Claim
  import opened Transactions
  import opened Dispatch
  import opened Ledger
  import opened Protocol
  import opened Fencing
  import opened Agreement

  // ---- Exactly when one record loses its receipt ----

  /** The only receipt that can precede a token's holder is one for its expired lease, stamped at or after the expiry. */
  predicate OnlyLateExpiry(db: Db, r: DeliveryRecord) {
    r.id in db.deliveries
    && (var d := db.deliveries[r.id];
        RecordKey(r) == CurrentKey(r.id, d) && d.status == Delivering && d.lease.Some? && RecordKey(r) in db.receipts ==>
          var receipt := db.receipts[RecordKey(r)];
          receipt.outcome == LeaseExpired && receipt.occurredAt >= d.lease.value)
  }

  ghost predicate ExpiryInv(s: Sys) {
    forall w | w in s.workers :: OnlyLateExpiry(s.db, s.workers[w].record)
  }

  lemma ApplyKeepsOnlyLateExpiry(db: Db, p: ClaimParams, batch: set<DeliveryId>, c: Option<DeliveryId>,
    r: DeliveryRecord)
    requires Selected(db, p, batch, c) && OnlyLateExpiry(db, r) && c != Some(r.id)
    ensures OnlyLateExpiry(ApplyClaim(db, p, batch, c), r)
  {
    if r.id in batch { assert IsExpired(db.deliveries[r.id], p.queue, p.now); }
  }

  lemma DoClaimKeepsOnlyLateExpiry(s: Sys, w: WorkerId, c: Config, p: ClaimParams, v: WorkerId)
    requires LedgerInv(s.db) && w !in s.workers && v in DoClaim(s, w, c, p).workers
    requires v in s.workers ==> OnlyLateExpiry(s.db, s.workers[v].record)
    ensures OnlyLateExpiry(DoClaim(s, w, c, p).db, DoClaim(s, w, c, p).workers[v].record)
  {
    if Candidate(s.db, p) == Some(DoClaim(s, w, c, p).workers[v].record.id) {
      FreshTokenHasNoReceipt(s.db, p);
    } else {
      ClaimIsSelected(s.db, p);
      ApplyKeepsOnlyLateExpiry(s.db, p, Batch(s.db, p), Candidate(s.db, p), s.workers[v].record);
    }
  }

  lemma RecordedKeepsOnlyLateExpiry(db: Db, key: AttemptKey, receipt: Receipt, status: Status, next: Option<Micros>,
    now: Micros, r: DeliveryRecord)
    requires RecordedDb(db, key, receipt, status, next, now).Ok? && RecordKey(r) != key && OnlyLateExpiry(db, r)
    ensures OnlyLateExpiry(RecordedDb(db, key, receipt, status, next, now).value, r)
  {
  }

  lemma RecordKeepsOnlyLateExpiry(s: Sys, w: WorkerId, v: WorkerId, appNow: Micros, now: Micros)
    requires WorkersInv(s) && w in s.workers && v in s.workers && v != w && CauseOf(s.workers[w]).Some?
    requires OnlyLateExpiry(s.db, s.workers[v].record)
    ensures OnlyLateExpiry(DoRecord(s, w, appNow, now).db, s.workers[v].record)
  {
    var d := DecisionOf(s.workers[w], appNow);
    var key := RecordKey(s.workers[w].record);
    if RecordAttempt(s.db, s.workers[w], appNow, now).Ok? {
      RecordedKeepsOnlyLateExpiry(s.db, key, d.receipt, d.status, d.next, now, s.workers[v].record);
    }
  }

  lemma OthersKeepOnlyLateExpiry(sha256: Sha256, s: Sys, step: Step, r: DeliveryRecord)
    requires Enabled(s, step) && !step.ClaimStep? && !step.RecordStep? && OnlyLateExpiry(s.db, r)
    ensures OnlyLateExpiry(Do(sha256, s, step).db, r)
  {
  }

  lemma {:induction false} ExpiryInvHolds(sha256: Sha256, clocks: Clocks, steps: seq<Step>)
    requires IsRun(sha256, clocks, steps)
    ensures ExpiryInv(EndOf(sha256, clocks, steps))
    decreases |steps|
  {
    if steps != [] {
      var before := steps[..|steps| - 1];
      var s, step := EndOf(sha256, clocks, before), steps[|steps| - 1];
      ExpiryInvHolds(sha256, clocks, before);
      SysInvHolds(sha256, clocks, before);
      var t := Do(sha256, s, step);
      forall v | v in t.workers ensures OnlyLateExpiry(t.db, t.workers[v].record) {
        StepKeepsOnlyLateExpiry(sha256, s, step, v);
      }
    }
  }

  lemma StepKeepsOnlyLateExpiry(sha256: Sha256, s: Sys, step: Step, v: WorkerId)
    requires SysInv(s) && Enabled(s, step) && v in Do(sha256, s, step).workers
    requires v in s.workers ==> OnlyLateExpiry(s.db, s.workers[v].record)
    ensures OnlyLateExpiry(Do(sha256, s, step).db, Do(sha256, s, step).workers[v].record)
  {
    if step.ClaimStep? {
      DoClaimKeepsOnlyLateExpiry(s, step.w, step.config, ParamsOf(step.config, step.skip, step.now), v);
    } else {
      WorkersComeFromBefore(sha256, s, step, v);
      if step.RecordStep? {
        RecordKeepsOnlyLateExpiry(s, step.w, v, step.appNow, step.now);
      } else {
        OthersKeepOnlyLateExpiry(sha256, s, step, s.workers[v].record);
      }
    }
  }

  /** The token's receipt is that of a claim stamped later than `now`. */
  predicate LaterExpiry(db: Db, k: AttemptKey, now: Micros) {
    k in db.receipts && db.receipts[k].outcome == LeaseExpired && db.receipts[k].occurredAt > now
  }

  /** In whatever order the stamps commit, a worker whose record is accepted stores its own receipt exactly when no
      claim stamped later than the record has receipted the token; no other receipt can be there before it. */
  lemma ReceiptLostIffClaimStampedLater(sha256: Sha256, clocks: Clocks, steps: seq<Step>, w: WorkerId,
    appNow: Micros, now: Micros)
    requires IsRun(sha256, clocks, steps)
    requires var s := EndOf(sha256, clocks, steps);
      && w in s.workers && CauseOf(s.workers[w]).Some? && RecordAttempt(s.db, s.workers[w], appNow, now).Ok?
    ensures var s := EndOf(sha256, clocks, steps);
      var k := RecordKey(s.workers[w].record);
      var after := DoRecord(s, w, appNow, now).db;
      && k in after.receipts
      && (after.receipts[k] == DecisionOf(s.workers[w], appNow).receipt <==> !LaterExpiry(s.db, k, now))
      && (LaterExpiry(s.db, k, now) <==> k in s.db.receipts)
  {
    ExpiryInvHolds(sha256, clocks, steps);
    SysInvHolds(sha256, clocks, steps);
    var s := EndOf(sha256, clocks, steps);
    var worker := s.workers[w];
    DecisionIsRecordable(s, w, appNow, now);
    DecisionMeaning(worker.record, worker.config, CauseOf(worker).value, appNow);
    assert OnlyLateExpiry(s.db, worker.record);
  }

  // ---- Exactly which outcomes of a run lost their receipt ----

  /** Some claim of the run, stamped later than `at`, had token k in its expired batch. */
  ghost predicate FoundExpired(sha256: Sha256, clocks: Clocks, steps: seq<Step>, k: AttemptKey, at: Micros)
    requires IsRun(sha256, clocks, steps)
    decreases |steps|
  {
    steps != [] && (
      var before, step := steps[..|steps| - 1], steps[|steps| - 1];
      || FoundExpired(sha256, clocks, before, k, at)
      || (step.ClaimStep? && step.now > at
          && FindsExpired(EndOf(sha256, clocks, before).db, ParamsOf(step.config, step.skip, step.now), k)))
  }

  ghost predicate FindsExpired(db: Db, p: ClaimParams, k: AttemptKey) {
    IsBatchKey(db, Batch(db, p), k)
  }

  /** A claim turns exactly the tokens it finds expired, and that have no receipt, into expiry receipts. */
  lemma ClaimReceipts(db: Db, p: ClaimParams, k: AttemptKey)
    ensures var after := ClaimDb(db, p);
      && (k in after.receipts <==> k in db.receipts || FindsExpired(db, p, k))
      && (k in after.receipts ==>
            after.receipts[k] == if k in db.receipts then db.receipts[k] else ExpiryReceipt(p.now))
  {
  }

  lemma FoundExpiredIsReceipted(sha256: Sha256, s: Sys, step: Step, k: AttemptKey)
    requires SysInv(s) && Enabled(s, step)
    ensures k in s.db.receipts ==> k in Do(sha256, s, step).db.receipts
    ensures step.ClaimStep? && FindsExpired(s.db, ParamsOf(step.config, step.skip, step.now), k) ==>
      k in Do(sha256, s, step).db.receipts
  {
    StepMovesDb(sha256, s, step);
    if step.ClaimStep? { ClaimReceipts(s.db, ParamsOf(step.config, step.skip, step.now), k); }
  }

  lemma RecordAddsNoExpiry(s: Sys, w: WorkerId, appNow: Micros, now: Micros, k: AttemptKey, at: Micros)
    requires w in s.workers && CauseOf(s.workers[w]).Some?
    ensures LaterExpiry(DoRecord(s, w, appNow, now).db, k, at) ==> LaterExpiry(s.db, k, at)
  {
    DecisionMeaning(s.workers[w].record, s.workers[w].config, CauseOf(s.workers[w]).value, appNow);
  }

  lemma OthersKeepReceipts(sha256: Sha256, s: Sys, step: Step)
    requires Enabled(s, step) && !step.ClaimStep? && !step.RecordStep?
    ensures Do(sha256, s, step).db.receipts == s.db.receipts
  {
  }

  /** Only a claim that finds the token expired brings in an expiry receipt. */
  lemma NewExpiryIsFound(sha256: Sha256, s: Sys, step: Step, k: AttemptKey, at: Micros)
    requires Enabled(s, step)
    requires LaterExpiry(Do(sha256, s, step).db, k, at) && !LaterExpiry(s.db, k, at)
    ensures step.ClaimStep? && step.now > at && FindsExpired(s.db, ParamsOf(step.config, step.skip, step.now), k)
  {
    if step.ClaimStep? {
      ClaimReceipts(s.db, ParamsOf(step.config, step.skip, step.now), k);
    } else if step.RecordStep? {
      RecordAddsNoExpiry(s, step.w, step.appNow, step.now, k, at);
    } else {
      OthersKeepReceipts(sha256, s, step);
    }
  }

  lemma {:induction false} ExpiryReceiptsAreFound(sha256: Sha256, clocks: Clocks, steps: seq<Step>, k: AttemptKey,
    at: Micros)
    requires IsRun(sha256, clocks, steps)
    ensures LaterExpiry(EndOf(sha256, clocks, steps).db, k, at) ==> FoundExpired(sha256, clocks, steps, k, at)
    ensures FoundExpired(sha256, clocks, steps, k, at) ==> k in EndOf(sha256, clocks, steps).db.receipts
    decreases |steps|
  {
    if steps != [] {
      var before, step := steps[..|steps| - 1], steps[|steps| - 1];
      var s := EndOf(sha256, clocks, before);
      ExpiryReceiptsAreFound(sha256, clocks, before, k, at);
      SysInvHolds(sha256, clocks, before);
      FoundExpiredIsReceipted(sha256, s, step, k);
      if LaterExpiry(Do(sha256, s, step).db, k, at) && !LaterExpiry(s.db, k, at) {
        NewExpiryIsFound(sha256, s, step, k, at);
      }
    }
  }

  /** The stored receipt is the event's own, or that of a claim stamped later. */
  predicate OwnOrLater(db: Db, e: Event)
    requires e.Recorded?
  {
    && e.key in db.receipts && e.decision.receipt.outcome != LeaseExpired
    && (OwnReceipt(db, e) <==> !LaterExpiry(db, e.key, e.at))
  }

  /** Every logged outcome that took its row out of the lease has its own receipt unless a claim stamped later found
      its token expired. */
  ghost predicate FatesInv(sha256: Sha256, clocks: Clocks, steps: seq<Step>)
    requires IsRun(sha256, clocks, steps)
  {
    var s := EndOf(sha256, clocks, steps);
    forall i | 0 <= i < |s.log| :: s.log[i].Recorded? ==> FateOf(sha256, clocks, steps, s.db, s.log[i])
  }

  ghost predicate FateOf(sha256: Sha256, clocks: Clocks, steps: seq<Step>, db: Db, e: Event)
    requires IsRun(sha256, clocks, steps) && e.Recorded?
  {
    && OwnOrLater(db, e)
    && (e.decision.status != Delivering && FoundExpired(sha256, clocks, steps, e.key, e.at) ==>
          LaterExpiry(db, e.key, e.at))
  }

  lemma OwnOrLaterStays(a: Db, b: Db, e: Event)
    requires e.Recorded? && OwnOrLater(a, e) && DbMoves(a, b)
    ensures OwnOrLater(b, e) && (LaterExpiry(a, e.key, e.at) ==> LaterExpiry(b, e.key, e.at))
  {
  }

  /** A token whose outcome took its row out of the lease is never found expired afterwards. */
  lemma SettledTokenIsNotFound(s: Sys, p: ClaimParams, e: Event)
    requires e.Recorded? && RecordFits(s.db, e) && e.decision.status != Delivering
    ensures !FindsExpired(s.db, p, e.key)
  {
    ClaimIsSelected(s.db, p);
    assert forall id | id in Batch(s.db, p) :: s.db.deliveries[id].status == Delivering;
  }

  /** An outcome in the log keeps its fate through one more step. */
  lemma FateStays(sha256: Sha256, clocks: Clocks, before: seq<Step>, steps: seq<Step>, e: Event)
    requires IsRun(sha256, clocks, steps) && steps != [] && before == steps[..|steps| - 1]
    requires e.Recorded? && RecordFits(EndOf(sha256, clocks, before).db, e)
    requires FateOf(sha256, clocks, before, EndOf(sha256, clocks, before).db, e)
    ensures FateOf(sha256, clocks, steps, EndOf(sha256, clocks, steps).db, e)
  {
    var s, step := EndOf(sha256, clocks, before), steps[|steps| - 1];
    SysInvHolds(sha256, clocks, before);
    StepMovesDb(sha256, s, step);
    OwnOrLaterStays(s.db, EndOf(sha256, clocks, steps).db, e);
    if step.ClaimStep? && e.decision.status != Delivering {
      SettledTokenIsNotFound(s, ParamsOf(step.config, step.skip, step.now), e);
    }
  }

  /** The outcome that a record logs, and the receipt it finds or leaves. */
  lemma FateOfNewRecord(sha256: Sha256, clocks: Clocks, before: seq<Step>, steps: seq<Step>)
    requires IsRun(sha256, clocks, steps) && steps != [] && before == steps[..|steps| - 1]
    requires var s := EndOf(sha256, clocks, before);
      var step := steps[|steps| - 1];
      step.RecordStep? && RecordAttempt(s.db, s.workers[step.w], step.appNow, step.now).Ok?
    ensures var t := EndOf(sha256, clocks, steps);
      && t.log != [] && t.log[|t.log| - 1].Recorded?
      && FateOf(sha256, clocks, steps, t.db, t.log[|t.log| - 1])
  {
    var s, step := EndOf(sha256, clocks, before), steps[|steps| - 1];
    var k := RecordKey(s.workers[step.w].record);
    ReceiptLostIffClaimStampedLater(sha256, clocks, before, step.w, step.appNow, step.now);
    ExpiryReceiptsAreFound(sha256, clocks, before, k, step.now);
    NewRecordFate(s, step.w, step.appNow, step.now);
  }

  lemma NewRecordFate(s: Sys, w: WorkerId, appNow: Micros, now: Micros)
    requires w in s.workers && CauseOf(s.workers[w]).Some? && RecordAttempt(s.db, s.workers[w], appNow, now).Ok?
    requires var k := RecordKey(s.workers[w].record); LaterExpiry(s.db, k, now) <==> k in s.db.receipts
    ensures var t := DoRecord(s, w, appNow, now);
      var e := t.log[|t.log| - 1];
      && e.Recorded? && e.key == RecordKey(s.workers[w].record) && e.at == now
      && OwnOrLater(t.db, e) && (e.key in s.db.receipts ==> LaterExpiry(t.db, e.key, now))
  {
    var worker := s.workers[w];
    DecisionMeaning(worker.record, worker.config, CauseOf(worker).value, appNow);
  }

  lemma {:induction false} FatesInvHolds(sha256: Sha256, clocks: Clocks, steps: seq<Step>)
    requires IsRun(sha256, clocks, steps)
    ensures FatesInv(sha256, clocks, steps)
    decreases |steps|
  {
    if steps != [] {
      var before, step := steps[..|steps| - 1], steps[|steps| - 1];
      var s, t := EndOf(sha256, clocks, before), EndOf(sha256, clocks, steps);
      FatesInvHolds(sha256, clocks, before);
      RecordsInvHolds(sha256, clocks, before);
      LogGrows(sha256, s, step);
      forall i | 0 <= i < |t.log| && t.log[i].Recorded? ensures FateOf(sha256, clocks, steps, t.db, t.log[i]) {
        if i < |s.log| {
          assert t.log[i] == s.log[i];
          FateStays(sha256, clocks, before, steps, s.log[i]);
        } else {
          FateOfNewRecord(sha256, clocks, before, steps);
        }
      }
    }
  }

  /** In whatever order the stamps commit: an accepted outcome that took its row out of the lease has its own receipt
      in the end exactly when no claim stamped later than it found its token expired. */
  lemma OwnReceiptIffNotFoundExpired(sha256: Sha256, clocks: Clocks, steps: seq<Step>, i: nat)
    requires IsRun(sha256, clocks, steps) && i < |EndOf(sha256, clocks, steps).log|
    requires var e := EndOf(sha256, clocks, steps).log[i]; e.Recorded? && e.decision.status != Delivering
    ensures var db, e := EndOf(sha256, clocks, steps).db, EndOf(sha256, clocks, steps).log[i];
      && e.key in db.receipts
      && (db.receipts[e.key] == e.decision.receipt <==> !FoundExpired(sha256, clocks, steps, e.key, e.at))
      && (db.receipts[e.key].outcome == LeaseExpired <==> FoundExpired(sha256, clocks, steps, e.key, e.at))
  {
    FatesInvHolds(sha256, clocks, steps);
    RecordsInvHolds(sha256, clocks, steps);
    var s := EndOf(sha256, clocks, steps);
    var e := s.log[i];
    assert FateOf(sha256, clocks, steps, s.db, e) && RecordFits(s.db, e);
    ExpiryReceiptsAreFound(sha256, clocks, steps, e.key, e.at);
  }

  /** An inspection of a delivered row shows the 2xx receipt exactly when no claim stamped later than its record found
      the row expired; otherwise it shows that claim's expiry. */
  lemma DeliveredShowsSuccessIffNotFound(sha256: Sha256, clocks: Clocks, steps: seq<Step>, id: DeliveryId, i: nat)
    requires IsRun(sha256, clocks, steps) && id in EndOf(sha256, clocks, steps).db.deliveries
    requires var s := EndOf(sha256, clocks, steps); IsDeliveryOf(s.log, i, CurrentKey(id, s.db.deliveries[id]))
    ensures var s := EndOf(sha256, clocks, steps);
      var k := CurrentKey(id, s.db.deliveries[id]);
      && ShowsOnly(s.db, id, k) && k in s.db.receipts
      && (s.db.receipts[k].outcome == DeliveredOutcome <==> !FoundExpired(sha256, clocks, steps, k, s.log[i].at))
      && (s.db.receipts[k].outcome == LeaseExpired <==> FoundExpired(sha256, clocks, steps, k, s.log[i].at))
      && (!FoundExpired(sha256, clocks, steps, k, s.log[i].at) ==>
            && s.db.receipts[k].httpStatus == Some(s.log[i].cause.result.status)
            && s.db.receipts[k].responseSha256 == Some(s.log[i].cause.result.bodySha256))
  {
    RecordsInvHolds(sha256, clocks, steps);
    SysInvHolds(sha256, clocks, steps);
    var s := EndOf(sha256, clocks, steps);
    assert RecordFits(s.db, s.log[i]);
    OwnReceiptIffNotFoundExpired(sha256, clocks, steps, i);
    LastReceiptIsNewest(s.db, id);
  }

  /** Event i is the outcome that dead-lettered token k. */
  predicate IsGiveUpOf(log: seq<Event>, i: int, k: AttemptKey) {
    0 <= i < |log| && log[i].Recorded? && log[i].key == k && log[i].decision.status == DeadLetter
  }

  lemma GiveUpReceipt(sha256: Sha256, clocks: Clocks, steps: seq<Step>, id: DeliveryId, i: nat)
    requires IsRun(sha256, clocks, steps) && id in EndOf(sha256, clocks, steps).db.deliveries
    requires var s := EndOf(sha256, clocks, steps);
      var d := s.db.deliveries[id];
      IsGiveUpOf(s.log, i, CurrentKey(id, d)) && d.attempts < d.maxAttempts
    ensures var s := EndOf(sha256, clocks, steps);
      var k := CurrentKey(id, s.db.deliveries[id]);
      && k in s.db.receipts
      && (IsPermanent(s.db.receipts[k].outcome) <==> !FoundExpired(sha256, clocks, steps, k, s.log[i].at))
  {
    var s := EndOf(sha256, clocks, steps);
    assert RecordFits(s.db, s.log[i]) by { RecordsInvHolds(sha256, clocks, steps); }
    GiveUpIsPermanent(s.db, s.log[i]);
    OwnReceiptIffNotFoundExpired(sha256, clocks, steps, i);
  }

  lemma GiveUpIsPermanent(db: Db, e: Event)
    requires e.Recorded? && RecordFits(db, e) && e.decision.status == DeadLetter
    requires e.key.attempt < db.deliveries[e.key.id].maxAttempts
    ensures IsPermanent(e.decision.receipt.outcome)
  {
  }

  lemma GiveUpIsLogged(s: Sys, id: DeliveryId)
    requires RecordsInv(s) && id in s.db.deliveries
    requires var d := s.db.deliveries[id]; d.status == DeadLetter && d.attempts < d.maxAttempts
    ensures exists i :: IsGiveUpOf(s.log, i, CurrentKey(id, s.db.deliveries[id]))
  {
    var k := CurrentKey(id, s.db.deliveries[id]);
    assert RowExplained(s.log, id, s.db.deliveries[id]);
    var i :| 0 <= i < |s.log| && s.log[i].Recorded? && s.log[i].key == k && s.log[i].decision.status == DeadLetter;
    assert IsGiveUpOf(s.log, i, k);
  }

  /** A dead letter with attempts left was given up by a recorded outcome, and shows a permanent failure exactly when
      no claim stamped later than that record found the row expired. */
  lemma GiveUpShowsPermanentIffNotFound(sha256: Sha256, clocks: Clocks, steps: seq<Step>, id: DeliveryId)
    requires IsRun(sha256, clocks, steps) && id in EndOf(sha256, clocks, steps).db.deliveries
    requires var d := EndOf(sha256, clocks, steps).db.deliveries[id];
      d.status == DeadLetter && d.attempts < d.maxAttempts
    ensures var s := EndOf(sha256, clocks, steps);
      var k := CurrentKey(id, s.db.deliveries[id]);
      && ShowsOnly(s.db, id, k) && k in s.db.receipts
      && (exists i :: IsGiveUpOf(s.log, i, k))
      && (forall i :: IsGiveUpOf(s.log, i, k) ==>
            (IsPermanent(s.db.receipts[k].outcome) <==> !FoundExpired(sha256, clocks, steps, k, s.log[i].at)))
  {
    RecordsInvHolds(sha256, clocks, steps);
    SysInvHolds(sha256, clocks, steps);
    var s := EndOf(sha256, clocks, steps);
    LastReceiptIsNewest(s.db, id);
    GiveUpIsLogged(s, id);
    forall i | IsGiveUpOf(s.log, i, CurrentKey(id, s.db.deliveries[id])) {
      GiveUpReceipt(sha256, clocks, steps, id, i);
    }
  }

  // ---- Such a run ----

  lemma Extend(sha256: Sha256, clocks: Clocks, steps: seq<Step>, step: Step)
    requires IsRun(sha256, clocks, steps) && Allowed(clocks, EndOf(sha256, clocks, steps), step)
    ensures IsRun(sha256, clocks, steps + [step])
    ensures EndOf(sha256, clocks, steps + [step]) == Do(sha256, EndOf(sha256, clocks, steps), step)
  {
    assert (steps + [step])[..|steps + [step]| - 1] == steps;
  }

  /** A run in stamp order is one of the runs in any order. */
  lemma {:induction false} MonotoneRunIsRun(sha256: Sha256, steps: seq<Step>)
    requires IsRun(sha256, Monotone, steps)
    ensures IsRun(sha256, Arbitrary, steps) && EndOf(sha256, Arbitrary, steps) == EndOf(sha256, Monotone, steps)
    decreases |steps|
  {
    if steps != [] { MonotoneRunIsRun(sha256, steps[..|steps| - 1]); }
  }

  lemma EnqueueCreates(sha256: Sha256, s: Sys, c: Config, r: EnqueueRequest, appNow: Micros, now: Micros)
    requires ValidConfig(c) && AcceptableRequest(c, r)
    requires NewRow(sha256, c, r, appNow).id !in s.db.deliveries
    requires forall id | id in s.db.deliveries :: s.db.deliveries[id].content.eventId != r.eventId
    ensures var row := NewRow(sha256, c, r, appNow);
      var t := DoEnqueue(sha256, s, c, r, appNow, now);
      && t.db == s.db.(deliveries := s.db.deliveries[row.id := QueuedRow(row, now)])
      && t.workers == s.workers && t.clock == now
  {
    assert !EventKnown(s.db, r.eventId);
  }

  /** y enqueued at time 0 and x at time 1; nothing else has happened. */
  ghost predicate TwoQueued(s: Sys, x: NewDelivery, y: NewDelivery) {
    && s.db.deliveries == map[y.id := QueuedRow(y, 0)][x.id := QueuedRow(x, 1)]
    && s.db.receipts == map[] && s.workers == map[] && s.clock == 1
  }

  lemma EnqueueTwo(sha256: Sha256, c: Config, a: EnqueueRequest, b: EnqueueRequest) returns (steps: seq<Step>)
    requires ValidConfig(c) && AcceptableRequest(c, a) && AcceptableRequest(c, b)
    requires a.eventId != b.eventId && NewRow(sha256, c, a, 1).id != NewRow(sha256, c, b, 0).id
    ensures IsRun(sha256, Monotone, steps)
    ensures TwoQueued(EndOf(sha256, Monotone, steps), NewRow(sha256, c, a, 1), NewRow(sha256, c, b, 0))
  {
    var x, y := NewRow(sha256, c, a, 1), NewRow(sha256, c, b, 0);
    var first, second := EnqueueStep(c, b, 0, 0), EnqueueStep(c, a, 1, 1);
    Extend(sha256, Monotone, [], first);
    EnqueueCreates(sha256, Init(), c, b, 0, 0);
    steps := [] + [first];
    var s := EndOf(sha256, Monotone, steps);
    assert s.db == Db(map[y.id := QueuedRow(y, 0)], map[]);
    Extend(sha256, Monotone, steps, second);
    EnqueueCreates(sha256, s, c, a, 1, 1);
    steps := steps + [second];
  }

  /** A claim that finds y locked leases x. */
  lemma ClaimsTheOther(db: Db, p: ClaimParams, x: DeliveryId, y: DeliveryId)
    requires x != y && db.deliveries.Keys == {x, y} && db.receipts == map[] && p.skip == {y}
    requires IsDue(db.deliveries[x], p.queue, p.now)
    ensures ClaimDb(db, p) == Db(db.deliveries[x := Take(db.deliveries[x], p)], map[])
    ensures ClaimRecord(db, p) == Some(ToRecord(x, Take(db.deliveries[x], p)))
  {
    assert ExpiredIds(db, p) == {};
    assert EligibleIds(db, p, {}) == {x};
    ClaimIsDetermined(db, p, {}, Some(x));
    assert ApplyClaim(db, p, {}, Some(x)).deliveries == db.deliveries[x := Take(db.deliveries[x], p)];
    assert ApplyClaim(db, p, {}, Some(x)).receipts == map[];
  }

  /** x leased to worker 0 in the given phase until `lease`, y due before x was. */
  ghost predicate LeasedAndDue(s: Sys, c: Config, x: DeliveryId, y: DeliveryId, lease: Micros, phase: Phase) {
    && x != y && s.db.deliveries.Keys == {x, y} && s.db.receipts == map[] && s.clock == 1
    && var d, e := s.db.deliveries[x], s.db.deliveries[y];
    && d.content.queue == c.queue && d.status == Delivering && d.lease == Some(lease)
    && d.attempts == 1 && d.maxAttempts >= 2 && d.replayCount == 0 && d.availableAt == 1
    && IsDue(e, c.queue, 0) && e.availableAt == 0
    && s.workers == map[0 := Worker(ToRecord(x, d), c, 1, phase)] && EndpointMatches(ToRecord(x, d), c)
  }

  lemma LeaseFirst(sha256: Sha256, s: Sys, c: Config, x: NewDelivery, y: NewDelivery)
    requires TwoQueued(s, x, y) && x.id != y.id && ValidConfig(c) && c.maxAttempts >= 2
    requires x.content.queue == c.queue == y.content.queue && x.availableAt == 1 && y.availableAt == 0
    requires x.maxAttempts == c.maxAttempts == y.maxAttempts
    requires x.content.endpointUrl == c.endpointUrl && x.content.endpointOrigin == c.endpointOrigin
    ensures var step := ClaimStep(0, c, {y.id}, 1);
      && Allowed(Monotone, s, step)
      && LeasedAndDue(Do(sha256, s, step), c, x.id, y.id, 1 + c.leaseSeconds * SECOND, Holding)
  {
    assert s.db.deliveries.Keys == {x.id, y.id};
    ClaimsTheOther(s.db, ParamsOf(c, {y.id}, 1), x.id, y.id);
  }

  /** Worker 0 posts and is answered; the tables do not notice. */
  lemma PostFirst(sha256: Sha256, steps: seq<Step>, c: Config, x: DeliveryId, y: DeliveryId, lease: Micros)
    returns (longer: seq<Step>)
    requires IsRun(sha256, Monotone, steps)
    requires LeasedAndDue(EndOf(sha256, Monotone, steps), c, x, y, lease, Holding)
    ensures IsRun(sha256, Monotone, longer)
    ensures LeasedAndDue(EndOf(sha256, Monotone, longer), c, x, y, lease, Answered(Response(200, [])))
  {
    Extend(sha256, Monotone, steps, SendStep(0));
    longer := steps + [SendStep(0)];
    Extend(sha256, Monotone, longer, AnswerStep(0, Response(200, [])));
    longer := longer + [AnswerStep(0, Response(200, []))];
  }

  /** A claim that finds an expired lease and an earlier due row receipts the one and leases the other. */
  lemma ReceiptsOneLeasesOther(db: Db, p: ClaimParams, x: DeliveryId, y: DeliveryId)
    requires x != y && db.deliveries.Keys == {x, y} && db.receipts == map[] && p.skip == {} && p.limit >= 1
    requires IsExpired(db.deliveries[x], p.queue, p.now) && !IsExhausted(db.deliveries[x])
    requires IsDue(db.deliveries[y], p.queue, p.now)
    requires db.deliveries[y].availableAt < db.deliveries[x].availableAt
    ensures ClaimDb(db, p).deliveries[x] == db.deliveries[x]
    ensures ClaimDb(db, p).receipts[CurrentKey(x, db.deliveries[x])] == ExpiryReceipt(p.now)
    ensures ClaimRecord(db, p) == Some(ToRecord(y, Take(db.deliveries[y], p)))
  {
    assert ExpiredIds(db, p) == {x};
    assert EligibleIds(db, p, {x}) == {x, y};
    assert IsBatch(db, p, {x});
    ClaimIsDetermined(db, p, {x}, Some(y));
    assert IsBatchKey(db, {x}, CurrentKey(x, db.deliveries[x]));
  }

  /** Row x still leased to worker 0, who has its answer, when a claim has already receipted its attempt. */
  ghost predicate ReceiptedButLeased(s: Sys, x: DeliveryId, lease: Micros) {
    && x in s.db.deliveries
    && var d := s.db.deliveries[x];
    && d.status == Delivering && d.lease == Some(lease) && 1 <= d.attempts <= 100
    && CurrentKey(x, d) in s.db.receipts && s.db.receipts[CurrentKey(x, d)].outcome == LeaseExpired
    && 0 in s.workers && RecordKey(s.workers[0].record) == CurrentKey(x, d)
    && s.workers[0].phase == Answered(Response(200, []))
  }

  lemma LateClaimReceipts(sha256: Sha256, s: Sys, c: Config, x: DeliveryId, y: DeliveryId, lease: Micros)
    requires LeasedAndDue(s, c, x, y, lease, Answered(Response(200, []))) && ValidConfig(c) && 1 < lease
    ensures var step := ClaimStep(1, c, {}, lease);
      Allowed(Monotone, s, step) && ReceiptedButLeased(Do(sha256, s, step), x, lease)
  {
    ReceiptsOneLeasesOther(s.db, ParamsOf(c, {}, lease), x, y);
  }

  /** The worker's record began at time 1, within its lease: it is accepted without its receipt. */
  lemma LateRecordLosesReceipt(s: Sys, x: DeliveryId, lease: Micros)
    requires ReceiptedButLeased(s, x, lease) && 1 < lease
    ensures var t := DoRecord(s, 0, 1, 1);
      && t.db.receipts == s.db.receipts && x in t.db.deliveries && t.db.deliveries[x].status == Delivered
      && CurrentKey(x, t.db.deliveries[x]) == CurrentKey(x, s.db.deliveries[x])
  {
    assert RecordAttempt(s.db, s.workers[0], 1, 1).Ok?;
  }

  /** Up to the late record everything commits in the order of its stamps. */
  lemma RunUpToTheClaim(sha256: Sha256, c: Config, a: EnqueueRequest, b: EnqueueRequest) returns (steps: seq<Step>)
    requires ValidConfig(c) && c.maxAttempts >= 2 && AcceptableRequest(c, a) && AcceptableRequest(c, b)
    requires a.eventId != b.eventId && NewRow(sha256, c, a, 1).id != NewRow(sha256, c, b, 0).id
    ensures IsRun(sha256, Monotone, steps)
    ensures ReceiptedButLeased(EndOf(sha256, Monotone, steps), NewRow(sha256, c, a, 1).id, 1 + c.leaseSeconds * SECOND)
  {
    var x, y, lease := NewRow(sha256, c, a, 1), NewRow(sha256, c, b, 0), 1 + c.leaseSeconds * SECOND;
    steps := EnqueueTwo(sha256, c, a, b);
    LeaseFirst(sha256, EndOf(sha256, Monotone, steps), c, x, y);
    Extend(sha256, Monotone, steps, ClaimStep(0, c, {y.id}, 1));
    steps := steps + [ClaimStep(0, c, {y.id}, 1)];
    steps := PostFirst(sha256, steps, c, x.id, y.id, lease);
    LateClaimReceipts(sha256, EndOf(sha256, Monotone, steps), c, x.id, y.id, lease);
    Extend(sha256, Monotone, steps, ClaimStep(1, c, {}, lease));
    steps := steps + [ClaimStep(1, c, {}, lease)];
  }

  /** A run in stamp order but for its last commit, a record that began within its lease: the delivered row shows the
      receipt of an expired lease. */
  lemma LateCommitHidesDelivery(sha256: Sha256, c: Config, a: EnqueueRequest, b: EnqueueRequest)
    returns (steps: seq<Step>, late: Step)
    requires ValidConfig(c) && c.maxAttempts >= 2 && AcceptableRequest(c, a) && AcceptableRequest(c, b)
    requires a.eventId != b.eventId && NewRow(sha256, c, a, 1).id != NewRow(sha256, c, b, 0).id
    ensures late.RecordStep? && IsRun(sha256, Monotone, steps) && IsRun(sha256, Arbitrary, steps + [late])
    ensures var db := EndOf(sha256, Arbitrary, steps + [late]).db;
      var id := NewRow(sha256, c, a, 1).id;
      && id in db.deliveries && db.deliveries[id].status == Delivered
      && exists last :: IsLastReceipt(db, id, last) && db.receipts[last].outcome == LeaseExpired
  {
    var x := NewRow(sha256, c, a, 1).id;
    steps := RunUpToTheClaim(sha256, c, a, b);
    late := RecordStep(0, 1, 1);
    MonotoneRunIsRun(sha256, steps);
    LateRecordLosesReceipt(EndOf(sha256, Arbitrary, steps), x, 1 + c.leaseSeconds * SECOND);
    Extend(sha256, Arbitrary, steps, late);
    var db := EndOf(sha256, Arbitrary, steps + [late]).db;
    SysInvHolds(sha256, Arbitrary, steps + [late]);
    LastReceiptIsNewest(db, x);
    assert IsLastReceipt(db, x, CurrentKey(x, db.deliveries[x]));
  }
}
