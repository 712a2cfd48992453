/** Leases over runs: how long one lasts, what ends it, and that a token has at most one outcome. */
module Leases {
  import opened Types
  import Order
  import opened Claim
  import opened Columns
  import opened Transactions
  import opened Dispatch
  import opened Ledger
  import opened Protocol
  import opened Fencing
  import opened Agreement

  /** Event j granted token k at this time. */
  predicate IsGrantOf(log: seq<Event>, j: int, k: AttemptKey, at: Micros) {
    0 <= j < |log| && log[j] == Granted(k, at)
  }

  function LeaseEnd(at: Micros, c: Config): Micros {
    at + c.leaseSeconds * 1_000_000
  }

  /** While the row keeps token k, one it has had, and is leased, it is leased until then. */
  predicate LeasedUntil(db: Db, k: AttemptKey, until: Micros) {
    k.id in db.deliveries && TokenAtMost(k, CurrentKey(k.id, db.deliveries[k.id]))
    && (var d := db.deliveries[k.id]; k == CurrentKey(k.id, d) && d.status == Delivering ==> d.lease == Some(until))
  }

  ghost predicate WorkerLease(s: Sys, w: WorkerId)
    requires w in s.workers
  {
    var worker := s.workers[w];
    && (exists j :: IsGrantOf(s.log, j, RecordKey(worker.record), worker.claimedAt))
    && LeasedUntil(s.db, RecordKey(worker.record), LeaseEnd(worker.claimedAt, worker.config))
  }

  ghost predicate RecordLease(s: Sys, e: Event)
    requires e.Recorded?
  {
    && (exists j, at :: IsGrantOf(s.log, j, e.key, at) && e.leaseUntil == LeaseEnd(at, e.config))
    && LeasedUntil(s.db, e.key, e.leaseUntil)
  }

  ghost predicate LeasesInv(s: Sys) {
    && (forall w | w in s.workers :: WorkerLease(s, w))
    && (forall i | 0 <= i < |s.log| :: s.log[i].Recorded? ==> RecordLease(s, s.log[i]))
  }

  /** Tokens do not fall, and a row that is leased under the same token before and after keeps its lease. */
  predicate LeaseKept(d: Delivery, e: Delivery) {
    && (d.replayCount < e.replayCount || (d.replayCount == e.replayCount && d.attempts <= e.attempts))
    && (e.status == Delivering && e.replayCount == d.replayCount && e.attempts == d.attempts ==>
          d.status == Delivering && e.lease == d.lease)
  }

  ghost predicate LeasesKept(a: Db, b: Db) {
    forall id | id in a.deliveries :: id in b.deliveries && LeaseKept(a.deliveries[id], b.deliveries[id])
  }

  lemma ClaimKeepsLeases(db: Db, p: ClaimParams)
    ensures LeasesKept(db, ClaimDb(db, p))
  {
    forall id | id in db.deliveries ensures LeaseKept(db.deliveries[id], ClaimDb(db, p).deliveries[id]) {
      if ClaimRecord(db, p).Some? && ClaimRecord(db, p).value.id == id {
        LeasedRow(db, p);
      } else {
        UnclaimedRow(db, p, id);
      }
    }
  }

  lemma RecordKeepsLeases(s: Sys, w: WorkerId, appNow: Micros, now: Micros)
    requires SysInv(s) && w in s.workers && CauseOf(s.workers[w]).Some?
    ensures LeasesKept(s.db, DoRecord(s, w, appNow, now).db)
  {
    if RecordAttempt(s.db, s.workers[w], appNow, now).Ok? {
      var d := DecisionOf(s.workers[w], appNow);
      FittingAttemptNumber(s, w);
      AcceptedRecord(s.db, RecordKey(s.workers[w].record), d.receipt, d.status, d.next, now);
    }
  }

  lemma StepKeepsLeases(sha256: Sha256, s: Sys, step: Step)
    requires SysInv(s) && Enabled(s, step)
    ensures LeasesKept(s.db, Do(sha256, s, step).db)
  {
    if step.ClaimStep? {
      ClaimKeepsLeases(s.db, ParamsOf(step.config, step.skip, step.now));
    } else if step.RecordStep? {
      RecordKeepsLeases(s, step.w, step.appNow, step.now);
    } else {
      StepMovesDb(sha256, s, step);
      OthersKeepLeases(sha256, s, step);
    }
  }

  lemma OthersKeepLeases(sha256: Sha256, s: Sys, step: Step)
    requires Enabled(s, step) && !step.ClaimStep? && !step.RecordStep?
    requires DbMoves(s.db, Do(sha256, s, step).db)
    ensures LeasesKept(s.db, Do(sha256, s, step).db)
  {
  }

  lemma LeasedUntilStays(a: Db, b: Db, k: AttemptKey, until: Micros)
    requires LeasedUntil(a, k, until) && LeasesKept(a, b)
    ensures LeasedUntil(b, k, until)
  {
    assert LeaseKept(a.deliveries[k.id], b.deliveries[k.id]);
  }

  lemma RecordLeaseStays(s: Sys, t: Sys, e: Event)
    requires e.Recorded? && RecordLease(s, e) && LeasesKept(s.db, t.db) && s.log <= t.log
    ensures RecordLease(t, e)
  {
    LeasedUntilStays(s.db, t.db, e.key, e.leaseUntil);
    var j, at :| IsGrantOf(s.log, j, e.key, at) && e.leaseUntil == LeaseEnd(at, e.config);
    assert IsGrantOf(t.log, j, e.key, at);
  }

  lemma WorkerLeaseStays(s: Sys, t: Sys, w: WorkerId)
    requires w in s.workers && w in t.workers && WorkerLease(s, w) && LeasesKept(s.db, t.db) && s.log <= t.log
    requires t.workers[w].record == s.workers[w].record && t.workers[w].config == s.workers[w].config
    requires t.workers[w].claimedAt == s.workers[w].claimedAt
    ensures WorkerLease(t, w)
  {
    var worker := s.workers[w];
    LeasedUntilStays(s.db, t.db, RecordKey(worker.record), LeaseEnd(worker.claimedAt, worker.config));
    var j :| IsGrantOf(s.log, j, RecordKey(worker.record), worker.claimedAt);
    assert IsGrantOf(t.log, j, RecordKey(worker.record), worker.claimedAt);
  }

  lemma RowLeasedUntil(db: Db, r: DeliveryRecord, until: Micros)
    requires r.id in db.deliveries && db.deliveries[r.id].lease == Some(until)
    requires r.replayCount == db.deliveries[r.id].replayCount && r.attempts == db.deliveries[r.id].attempts
    ensures LeasedUntil(db, RecordKey(r), until)
  {
  }

  lemma NewLease(db: Db, p: ClaimParams)
    requires ClaimRecord(db, p).Some?
    ensures LeasedUntil(ClaimDb(db, p), RecordKey(ClaimRecord(db, p).value), p.now + p.leaseSeconds * 1_000_000)
  {
    LeasedRow(db, p);
    RowLeasedUntil(ClaimDb(db, p), ClaimRecord(db, p).value, p.now + p.leaseSeconds * 1_000_000);
  }

  lemma NewWorkerLease(s: Sys, w: WorkerId, c: Config, skip: set<DeliveryId>, now: Micros)
    requires w !in s.workers && ClaimRecord(s.db, ParamsOf(c, skip, now)).Some?
    ensures var t := DoClaim(s, w, c, ParamsOf(c, skip, now)); w in t.workers && WorkerLease(t, w)
  {
    var p := ParamsOf(c, skip, now);
    var t := DoClaim(s, w, c, p);
    NewLease(s.db, p);
    assert t.log[|s.log|] == Granted(RecordKey(t.workers[w].record), now);
    assert IsGrantOf(t.log, |s.log|, RecordKey(t.workers[w].record), now);
  }

  /** The lease a worker records under is the one it was granted. */
  lemma NewRecordLease(s: Sys, w: WorkerId, appNow: Micros, now: Micros)
    requires SysInv(s) && w in s.workers && WorkerLease(s, w) && CauseOf(s.workers[w]).Some?
    requires RecordAttempt(s.db, s.workers[w], appNow, now).Ok?
    requires LeasesKept(s.db, DoRecord(s, w, appNow, now).db)
    ensures var t := DoRecord(s, w, appNow, now);
      && |t.log| == |s.log| + 1 && s.log <= t.log && t.log[|s.log|].Recorded? && RecordLease(t, t.log[|s.log|])
  {
    var worker, t := s.workers[w], DoRecord(s, w, appNow, now);
    var k, e := RecordKey(worker.record), t.log[|s.log|];
    DecisionIsRecordable(s, w, appNow, now);
    var j :| IsGrantOf(s.log, j, k, worker.claimedAt);
    assert IsGrantOf(t.log, j, k, worker.claimedAt);
    assert e.key == k && e.config == worker.config && e.leaseUntil == LeaseEnd(worker.claimedAt, worker.config);
    LeasedUntilStays(s.db, t.db, k, e.leaseUntil);
  }

  /** Calls in flight keep their token, configuration and claim time; only a claim starts one. */
  lemma CallsKeepTheirLease(sha256: Sha256, s: Sys, step: Step, w: WorkerId)
    requires Enabled(s, step) && w in Do(sha256, s, step).workers && (w in s.workers || !step.ClaimStep?)
    ensures var t := Do(sha256, s, step);
      && w in s.workers && t.workers[w].record == s.workers[w].record && t.workers[w].config == s.workers[w].config
      && t.workers[w].claimedAt == s.workers[w].claimedAt
  {
  }

  lemma StepKeepsWorkerLease(sha256: Sha256, s: Sys, step: Step, w: WorkerId)
    requires Enabled(s, step) && w in Do(sha256, s, step).workers && (w in s.workers ==> WorkerLease(s, w))
    requires LeasesKept(s.db, Do(sha256, s, step).db) && s.log <= Do(sha256, s, step).log
    ensures WorkerLease(Do(sha256, s, step), w)
  {
    if w in s.workers || !step.ClaimStep? {
      CallsKeepTheirLease(sha256, s, step, w);
      WorkerLeaseStays(s, Do(sha256, s, step), w);
    } else {
      NewWorkerLease(s, step.w, step.config, step.skip, step.now);
    }
  }

  lemma StepKeepsRecordLease(sha256: Sha256, s: Sys, step: Step, i: nat)
    requires SysInv(s) && LeasesInv(s) && Enabled(s, step) && LeasesKept(s.db, Do(sha256, s, step).db)
    requires i < |Do(sha256, s, step).log| && Do(sha256, s, step).log[i].Recorded?
    ensures RecordLease(Do(sha256, s, step), Do(sha256, s, step).log[i])
  {
    LogGrows(sha256, s, step);
    if i < |s.log| {
      assert Do(sha256, s, step).log[i] == s.log[i];
      RecordLeaseStays(s, Do(sha256, s, step), s.log[i]);
    } else {
      NewRecordLease(s, step.w, step.appNow, step.now);
    }
  }

  lemma LeasesInvStep(sha256: Sha256, s: Sys, step: Step)
    requires SysInv(s) && LeasesInv(s) && Enabled(s, step)
    ensures LeasesInv(Do(sha256, s, step))
  {
    var t := Do(sha256, s, step);
    StepKeepsLeases(sha256, s, step);
    LogGrows(sha256, s, step);
    forall w | w in t.workers { StepKeepsWorkerLease(sha256, s, step, w); }
    forall i | 0 <= i < |t.log| && t.log[i].Recorded? { StepKeepsRecordLease(sha256, s, step, i); }
  }

  lemma {:induction false} LeasesInvHolds(sha256: Sha256, clocks: Clocks, steps: seq<Step>)
    requires IsRun(sha256, clocks, steps)
    ensures LeasesInv(EndOf(sha256, clocks, steps))
    decreases |steps|
  {
    if steps != [] {
      var before := steps[..|steps| - 1];
      LeasesInvHolds(sha256, clocks, before);
      SysInvHolds(sha256, clocks, before);
      LeasesInvStep(sha256, EndOf(sha256, clocks, before), steps[|steps| - 1]);
    }
  }

  // ---- One outcome per token ----

  /** No token has two outcomes, and none that is still in flight has one. */
  ghost predicate OutcomesInv(s: Sys) {
    && (forall i, j | 0 <= i < j < |s.log| :: s.log[i].Recorded? && s.log[j].Recorded? ==> s.log[i].key != s.log[j].key)
    && (forall w | w in s.workers :: Unrecorded(s.log, RecordKey(s.workers[w].record)))
  }

  ghost predicate Unrecorded(log: seq<Event>, k: AttemptKey) {
    forall i | 0 <= i < |log| :: log[i].Recorded? ==> log[i].key != k
  }

  lemma RecordedTokenIsOld(db: Db, e: Event, k: AttemptKey)
    requires e.Recorded? && RecordFits(db, e) && k.id in db.deliveries && TokenLess(CurrentKey(k.id, db.deliveries[k.id]), k)
    ensures e.key != k
  {
  }

  lemma NewTokenIsUnrecorded(s: Sys, p: ClaimParams)
    requires SysInv(s) && RecordsInv(s) && ClaimRecord(s.db, p).Some?
    ensures Unrecorded(s.log, RecordKey(ClaimRecord(s.db, p).value))
  {
    GrantedToken(s.db, p);
    var k := RecordKey(ClaimRecord(s.db, p).value);
    forall i | 0 <= i < |s.log| && s.log[i].Recorded? ensures s.log[i].key != k {
      assert RecordFits(s.db, s.log[i]);
      RecordedTokenIsOld(s.db, s.log[i], k);
    }
  }

  /** A step that records nothing and starts no call under a recorded token. */
  lemma UnrecordingKeepsOutcomes(s: Sys, t: Sys)
    requires OutcomesInv(s) && s.log <= t.log && forall i | |s.log| <= i < |t.log| :: !t.log[i].Recorded?
    requires forall w | w in t.workers :: Unrecorded(s.log, RecordKey(t.workers[w].record))
    ensures OutcomesInv(t)
  {
    assert forall i | 0 <= i < |s.log| :: t.log[i] == s.log[i];
  }

  lemma RecordKeepsOutcomes(s: Sys, w: WorkerId, appNow: Micros, now: Micros)
    requires SysInv(s) && OutcomesInv(s) && w in s.workers && CauseOf(s.workers[w]).Some?
    ensures OutcomesInv(DoRecord(s, w, appNow, now))
  {
    RecordEndsCall(s, w, appNow, now);
    EndedCallKeepsOutcomes(s, DoRecord(s, w, appNow, now), w);
  }

  /** Call w has ended, with at most an outcome for its token. */
  ghost predicate Ended(s: Sys, t: Sys, w: WorkerId) {
    && w in s.workers && t.workers == s.workers - {w} && s.log <= t.log && |t.log| <= |s.log| + 1
    && (|t.log| > |s.log| ==> t.log[|s.log|].Recorded? && t.log[|s.log|].key == RecordKey(s.workers[w].record))
  }

  lemma RecordEndsCall(s: Sys, w: WorkerId, appNow: Micros, now: Micros)
    requires w in s.workers && CauseOf(s.workers[w]).Some?
    ensures Ended(s, DoRecord(s, w, appNow, now), w)
  {
  }

  /** The call that ends was the only one under its token. */
  lemma EndedCallKeepsOutcomes(s: Sys, t: Sys, w: WorkerId)
    requires WorkersInv(s) && OutcomesInv(s) && Ended(s, t, w)
    ensures OutcomesInv(t)
  {
    assert Unrecorded(s.log, RecordKey(s.workers[w].record));
    assert forall i | 0 <= i < |s.log| :: t.log[i] == s.log[i];
    forall v | v in t.workers ensures Unrecorded(t.log, RecordKey(t.workers[v].record)) {
      assert v != w && Unrecorded(s.log, RecordKey(s.workers[v].record));
    }
  }

  lemma {:induction false} OutcomesInvHolds(sha256: Sha256, clocks: Clocks, steps: seq<Step>)
    requires IsRun(sha256, clocks, steps)
    ensures OutcomesInv(EndOf(sha256, clocks, steps))
    decreases |steps|
  {
    if steps != [] {
      var before, step := steps[..|steps| - 1], steps[|steps| - 1];
      var s := EndOf(sha256, clocks, before);
      OutcomesInvHolds(sha256, clocks, before);
      SysInvHolds(sha256, clocks, before);
      RecordsInvHolds(sha256, clocks, before);
      if step.RecordStep? {
        RecordKeepsOutcomes(s, step.w, step.appNow, step.now);
      } else {
        OtherStepsKeepOutcomes(sha256, s, step);
      }
    }
  }

  lemma OtherStepsKeepOutcomes(sha256: Sha256, s: Sys, step: Step)
    requires SysInv(s) && RecordsInv(s) && OutcomesInv(s) && Enabled(s, step) && !step.RecordStep?
    ensures OutcomesInv(Do(sha256, s, step))
  {
    var t := Do(sha256, s, step);
    OtherStepsAreUnsettling(sha256, s, step);
    forall w | w in t.workers ensures Unrecorded(s.log, RecordKey(t.workers[w].record)) {
      if w in s.workers || !step.ClaimStep? {
        CallsKeepTheirLease(sha256, s, step, w);
      } else {
        NewTokenIsUnrecorded(s, ParamsOf(step.config, step.skip, step.now));
      }
    }
    UnrecordingKeepsOutcomes(s, t);
  }

  // ---- Main results ----

  /** Over any run a token has at most one accepted outcome. */
  lemma OneOutcomePerToken(sha256: Sha256, clocks: Clocks, steps: seq<Step>, i: nat, j: nat)
    requires IsRun(sha256, clocks, steps)
    requires var log := EndOf(sha256, clocks, steps).log;
      i < |log| && j < |log| && log[i].Recorded? && log[j].Recorded? && log[i].key == log[j].key
    ensures i == j
  {
    OutcomesInvHolds(sha256, clocks, steps);
  }

  /** An outcome is accepted only within the sender's lease seconds of the grant of its token. */
  lemma OutcomeWithinLease(sha256: Sha256, clocks: Clocks, steps: seq<Step>, i: nat)
    requires IsRun(sha256, clocks, steps)
    requires i < |EndOf(sha256, clocks, steps).log| && EndOf(sha256, clocks, steps).log[i].Recorded?
    ensures var log := EndOf(sha256, clocks, steps).log;
      exists j, at :: IsGrantOf(log, j, log[i].key, at) && log[i].at < at + log[i].config.leaseSeconds * 1_000_000
  {
    LeasesInvHolds(sha256, clocks, steps);
    RecordsInvHolds(sha256, clocks, steps);
    var s := EndOf(sha256, clocks, steps);
    assert RecordLease(s, s.log[i]) && RecordFits(s.db, s.log[i]);
    var j, at :| IsGrantOf(s.log, j, s.log[i].key, at) && s.log[i].leaseUntil == LeaseEnd(at, s.log[i].config);
    assert IsGrantOf(s.log, j, s.log[i].key, at) && s.log[i].at < at + s.log[i].config.leaseSeconds * 1_000_000;
  }

  /** Claims leave the row as it is before that time; from then on it is in the batch of each one that has room for
      all rows, and is neither locked nor of another queue. */
  ghost predicate SeenFrom(db: Db, id: DeliveryId, until: Micros)
    requires id in db.deliveries
  {
    forall p: ClaimParams ::
      && (p.now < until ==> id in ClaimDb(db, p).deliveries && ClaimDb(db, p).deliveries[id] == db.deliveries[id])
      && (p.queue == db.deliveries[id].content.queue && id !in p.skip && p.limit >= |db.deliveries| ==>
            (id in Batch(db, p) <==> until <= p.now))
  }

  lemma LeasedRowIsSeen(db: Db, id: DeliveryId, until: Micros)
    requires id in db.deliveries && db.deliveries[id].status == Delivering && db.deliveries[id].lease == Some(until)
    ensures SeenFrom(db, id, until)
  {
    forall p: ClaimParams
      ensures p.now < until ==> id in ClaimDb(db, p).deliveries && ClaimDb(db, p).deliveries[id] == db.deliveries[id]
      ensures p.queue == db.deliveries[id].content.queue && id !in p.skip && p.limit >= |db.deliveries| ==>
                (id in Batch(db, p) <==> until <= p.now)
    {
      BatchIsFirstEnded(db, p, id);
      FewerThanAll(db, p, id);
      if p.now < until { LiveRowIsUntouched(db, p, id, until); }
    }
  }

  lemma LiveRowIsUntouched(db: Db, p: ClaimParams, id: DeliveryId, until: Micros)
    requires id in db.deliveries && db.deliveries[id].status == Delivering && db.deliveries[id].lease == Some(until)
    requires p.now < until
    ensures id in ClaimDb(db, p).deliveries && ClaimDb(db, p).deliveries[id] == db.deliveries[id]
  {
    BatchIsFirstEnded(db, p, id);
    if ClaimRecord(db, p).Some? { ClaimedRow(db, p); }
    UnclaimedRow(db, p, id);
  }

  lemma FewerThanAll(db: Db, p: ClaimParams, id: DeliveryId)
    requires id in db.deliveries && db.deliveries[id].lease.Some?
    ensures |EndedBefore(db, p, id)| < |db.deliveries|
  {
    Order.BytesIrreflexive(id);
    Order.SubsetSize(EndedBefore(db, p, id) + {id}, db.deliveries.Keys);
  }

  /** A recorded runtime failure leaves the row leased until the end of the lease it was granted, which is when claims
      see it again: its token is given up before that by nobody, and later only for a dead letter out of attempts. */
  lemma RuntimeFailureKeepsLease(sha256: Sha256, clocks: Clocks, steps: seq<Step>, i: nat)
    requires IsRun(sha256, clocks, steps) && i < |EndOf(sha256, clocks, steps).log|
    requires var e := EndOf(sha256, clocks, steps).log[i]; e.Recorded? && e.cause == Answer(RuntimeFailure)
    requires var s := EndOf(sha256, clocks, steps);
      var id := s.log[i].key.id;
      id in s.db.deliveries && s.log[i].key == CurrentKey(id, s.db.deliveries[id])
    ensures var s := EndOf(sha256, clocks, steps);
      var e := s.log[i];
      var d := s.db.deliveries[e.key.id];
      && (d.status == Delivering || (d.status == DeadLetter && d.attempts >= d.maxAttempts))
      && (d.status == Delivering ==>
            exists j, at :: IsGrantOf(s.log, j, e.key, at)
              && SeenFrom(s.db, e.key.id, at + e.config.leaseSeconds * 1_000_000))
  {
    LeasesInvHolds(sha256, clocks, steps);
    var s := EndOf(sha256, clocks, steps);
    var e := s.log[i];
    var id := e.key.id;
    RuntimeFailureStatus(sha256, clocks, steps, i);
    if s.db.deliveries[id].status == Delivering {
      assert RecordLease(s, e);
      var j, at :| IsGrantOf(s.log, j, e.key, at) && e.leaseUntil == LeaseEnd(at, e.config);
      LeasedRowIsSeen(s.db, id, e.leaseUntil);
      assert IsGrantOf(s.log, j, e.key, at) && SeenFrom(s.db, id, at + e.config.leaseSeconds * 1_000_000);
    }
  }

  lemma RuntimeFailureStatus(sha256: Sha256, clocks: Clocks, steps: seq<Step>, i: nat)
    requires IsRun(sha256, clocks, steps) && i < |EndOf(sha256, clocks, steps).log|
    requires var e := EndOf(sha256, clocks, steps).log[i]; e.Recorded? && e.cause == Answer(RuntimeFailure)
    requires var s := EndOf(sha256, clocks, steps);
      var id := s.log[i].key.id;
      id in s.db.deliveries && s.log[i].key == CurrentKey(id, s.db.deliveries[id])
    ensures var s := EndOf(sha256, clocks, steps);
      var d := s.db.deliveries[s.log[i].key.id];
      d.status == Delivering || (d.status == DeadLetter && d.attempts >= d.maxAttempts)
  {
    OutcomesInvHolds(sha256, clocks, steps);
    RecordsInvHolds(sha256, clocks, steps);
    SysInvHolds(sha256, clocks, steps);
    GrantsInvHolds(sha256, clocks, steps);
    LeasesInvHolds(sha256, clocks, steps);
    RuntimeFailureIn(EndOf(sha256, clocks, steps), i);
  }

  lemma RuntimeFailureIn(s: Sys, i: nat)
    requires SysInv(s) && GrantsInv(s) && RecordsInv(s) && LeasesInv(s) && OutcomesInv(s)
    requires i < |s.log| && s.log[i].Recorded? && s.log[i].cause == Answer(RuntimeFailure)
    requires var k := s.log[i].key; k.id in s.db.deliveries && k == CurrentKey(k.id, s.db.deliveries[k.id])
    ensures var d := s.db.deliveries[s.log[i].key.id];
      d.status == Delivering || (d.status == DeadLetter && d.attempts >= d.maxAttempts)
  {
    var e := s.log[i];
    assert e.decision.status == Delivering by { assert RecordFits(s.db, e); }
    RecordedAttempt(s, e);
    forall status | WasRecorded(s.log, e.key, status) ensures status == e.decision.status {
      TheOnlyOutcome(s, i, status);
    }
    assert Shaped(s.db.deliveries[e.key.id]) && RowExplained(s.log, e.key.id, s.db.deliveries[e.key.id]);
    UnsettledRow(s.log, e.key.id, s.db.deliveries[e.key.id]);
  }

  lemma RecordedAttempt(s: Sys, e: Event)
    requires GrantsInv(s) && LeasesInv(s) && e.Recorded? && e in s.log
    ensures 1 <= e.key.attempt
  {
    assert RecordLease(s, e);
    var j, at :| IsGrantOf(s.log, j, e.key, at) && e.leaseUntil == LeaseEnd(at, e.config);
    assert GrantFits(s.db, s.log[j].key);
  }

  lemma TheOnlyOutcome(s: Sys, i: nat, status: Status)
    requires OutcomesInv(s) && i < |s.log| && s.log[i].Recorded? && WasRecorded(s.log, s.log[i].key, status)
    ensures s.log[i].decision.status == status
  {
    var g :| 0 <= g < |s.log| && s.log[g].Recorded? && s.log[g].key == s.log[i].key && s.log[g].decision.status == status;
  }

  /** A row whose token has no settling outcome is leased, or was retired. */
  lemma UnsettledRow(log: seq<Event>, id: DeliveryId, d: Delivery)
    requires RowExplained(log, id, d) && Shaped(d) && 1 <= d.attempts
    requires forall status :: WasRecorded(log, CurrentKey(id, d), status) ==> status == Delivering
    ensures d.status == Delivering || (d.status == DeadLetter && d.attempts >= d.maxAttempts)
  {
  }
}
