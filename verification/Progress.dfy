/** Claims terminate: the measure, and the state that repeated bounded claims settle in. */
module Progress {
  import opened Types
  import opened Order
  import opened Claim
  import opened Transactions
  import opened Dispatch
  import opened Ledger
  import opened Protocol
  import opened Fencing

  /** Claims and the final retirement that a row can still cost. */
  function Effort(d: Delivery): nat {
    if d.status in {Delivered, DeadLetter} || d.attempts > d.maxAttempts then 0 else d.maxAttempts - d.attempts + 1
  }

  type Rows = map<DeliveryId, Delivery>

  ghost function Work(rows: Rows, ids: set<DeliveryId>): nat
    requires ids <= rows.Keys
  {
    if ids == {} then 0
    else
      var id :| id in ids;
      Effort(rows[id]) + Work(rows, ids - {id})
  }

  lemma {:induction false} WorkWithout(rows: Rows, ids: set<DeliveryId>, x: DeliveryId)
    requires ids <= rows.Keys && x in ids
    ensures Work(rows, ids) == Effort(rows[x]) + Work(rows, ids - {x})
    decreases ids
  {
    var id :| id in ids && Work(rows, ids) == Effort(rows[id]) + Work(rows, ids - {id});
    if id != x {
      WorkWithout(rows, ids - {id}, x);
      WorkWithout(rows, ids - {x}, id);
      assert ids - {id} - {x} == ids - {x} - {id};
    }
  }

  lemma {:induction false} WorkNeverRises(a: Rows, b: Rows, ids: set<DeliveryId>)
    requires ids <= a.Keys && ids <= b.Keys
    requires forall id | id in ids :: Effort(b[id]) <= Effort(a[id])
    ensures Work(b, ids) <= Work(a, ids)
    decreases ids
  {
    if ids != {} {
      var x :| x in ids;
      WorkWithout(a, ids, x);
      WorkWithout(b, ids, x);
      WorkNeverRises(a, b, ids - {x});
    }
  }

  lemma WorkFalls(a: Rows, b: Rows, ids: set<DeliveryId>, x: DeliveryId)
    requires ids <= a.Keys && ids <= b.Keys && x in ids
    requires forall id | id in ids :: Effort(b[id]) <= Effort(a[id])
    requires Effort(b[x]) < Effort(a[x])
    ensures Work(b, ids) < Work(a, ids)
  {
    WorkWithout(a, ids, x);
    WorkWithout(b, ids, x);
    WorkNeverRises(a, b, ids - {x});
  }

  function QueueIds(db: Db, queue: Bytes): set<DeliveryId> {
    set id | id in db.deliveries && db.deliveries[id].content.queue == queue
  }

  ghost function QueueWork(db: Db, queue: Bytes): nat {
    Work(db.deliveries, QueueIds(db, queue))
  }

  ghost function TotalWork(db: Db): nat {
    Work(db.deliveries, db.deliveries.Keys)
  }

  // ---- The measure over steps and runs ----

  lemma ApplyEffort(db: Db, p: ClaimParams, batch: set<DeliveryId>, c: Option<DeliveryId>, id: DeliveryId)
    requires StoreValid(db) && Selected(db, p, batch, c) && id in db.deliveries
    ensures var d, e := db.deliveries[id], ApplyClaim(db, p, batch, c).deliveries[id];
      && Effort(e) <= Effort(d)
      && (c == Some(id) || (id in batch && IsExhausted(d)) ==> Effort(e) < Effort(d))
  {
    assert DeliveryCheck(db.deliveries[id]);
  }

  lemma ApplyNeverRaisesEffort(db: Db, p: ClaimParams, batch: set<DeliveryId>, c: Option<DeliveryId>)
    requires StoreValid(db) && Selected(db, p, batch, c)
    ensures forall id | id in db.deliveries ::
              Effort(ApplyClaim(db, p, batch, c).deliveries[id]) <= Effort(db.deliveries[id])
  {
    forall id | id in db.deliveries
      ensures Effort(ApplyClaim(db, p, batch, c).deliveries[id]) <= Effort(db.deliveries[id])
    {
      ApplyEffort(db, p, batch, c, id);
    }
  }

  lemma ApplyUsesWork(db: Db, p: ClaimParams, batch: set<DeliveryId>, c: Option<DeliveryId>)
    requires StoreValid(db) && Selected(db, p, batch, c)
    ensures TotalWork(ApplyClaim(db, p, batch, c)) + (if c.Some? then 1 else 0) <= TotalWork(db)
  {
    var after := ApplyClaim(db, p, batch, c);
    assert after.deliveries.Keys == db.deliveries.Keys;
    ApplyNeverRaisesEffort(db, p, batch, c);
    if c.Some? {
      ApplyEffort(db, p, batch, c, c.value);
      WorkFalls(db.deliveries, after.deliveries, db.deliveries.Keys, c.value);
    } else {
      WorkNeverRises(db.deliveries, after.deliveries, db.deliveries.Keys);
    }
  }

  /** Work never rises without an enqueue or a replay; a productive claim uses some up. */
  lemma ClaimUsesWork(db: Db, p: ClaimParams)
    requires StoreValid(db)
    ensures TotalWork(ClaimDb(db, p)) + (if Candidate(db, p).Some? then 1 else 0) <= TotalWork(db)
  {
    ClaimIsSelected(db, p);
    ApplyUsesWork(db, p, Batch(db, p), Candidate(db, p));
  }

  lemma RecordUsesNoNewWork(s: Sys, w: WorkerId, appNow: Micros, now: Micros)
    requires SysInv(s) && w in s.workers && CauseOf(s.workers[w]).Some?
    ensures TotalWork(DoRecord(s, w, appNow, now).db) <= TotalWork(s.db)
  {
    var t := DoRecord(s, w, appNow, now);
    if RecordAttempt(s.db, s.workers[w], appNow, now).Ok? {
      DecisionIsRecordable(s, w, appNow, now);
      assert t.db.deliveries.Keys == s.db.deliveries.Keys;
      WorkNeverRises(s.db.deliveries, t.db.deliveries, s.db.deliveries.Keys);
    }
  }

  function GrantCount(log: seq<Event>): nat {
    if log == [] then 0 else GrantCount(log[..|log| - 1]) + if log[|log| - 1].Granted? then 1 else 0
  }

  predicate AddsWork(step: Step) {
    step.EnqueueStep? || step.ReplayStep?
  }

  lemma AppendedGrantCount(log: seq<Event>, e: Event)
    ensures GrantCount(log + [e]) == GrantCount(log) + if e.Granted? then 1 else 0
  {
    assert (log + [e])[..|log|] == log;
  }

  lemma DoClaimUsesWork(s: Sys, w: WorkerId, c: Config, p: ClaimParams)
    requires SysInv(s)
    ensures var t := DoClaim(s, w, c, p);
      GrantCount(t.log) - GrantCount(s.log) + TotalWork(t.db) <= TotalWork(s.db)
  {
    ClaimUsesWork(s.db, p);
    if ClaimRecord(s.db, p).Some? {
      AppendedGrantCount(s.log, Granted(RecordKey(ClaimRecord(s.db, p).value), p.now));
    }
  }

  lemma QuietLogGrantsNothing(s: Sys, t: Sys)
    requires QuietLog(s, t)
    ensures GrantCount(t.log) == GrantCount(s.log)
  {
    if t.log != s.log {
      AppendedGrantCount(s.log, t.log[|s.log|]);
      assert t.log == s.log + [t.log[|s.log|]];
    }
  }

  lemma StepUsesWork(sha256: Sha256, s: Sys, step: Step)
    requires SysInv(s) && Enabled(s, step) && !AddsWork(step)
    ensures var t := Do(sha256, s, step);
      GrantCount(t.log) - GrantCount(s.log) + TotalWork(t.db) <= TotalWork(s.db)
  {
    if step.ClaimStep? {
      DoClaimUsesWork(s, step.w, step.config, ParamsOf(step.config, step.skip, step.now));
    } else {
      OtherLogsAreQuiet(sha256, s, step);
      QuietLogGrantsNothing(s, Do(sha256, s, step));
      if step.RecordStep? { RecordUsesNoNewWork(s, step.w, step.appNow, step.now); }
    }
  }

  /** From any reachable state, claims without enqueues and replays grant at most the work there is. */
  lemma {:induction false} ProductiveClaimsAreBounded(sha256: Sha256, clocks: Clocks, s: Sys, steps: seq<Step>)
    requires SysInv(s) && Legal(sha256, clocks, s, steps)
    requires forall i | 0 <= i < |steps| :: !AddsWork(steps[i])
    ensures var t := After(sha256, clocks, s, steps);
      SysInv(t) && GrantCount(t.log) - GrantCount(s.log) + TotalWork(t.db) <= TotalWork(s.db)
    decreases |steps|
  {
    if steps != [] {
      var before := steps[..|steps| - 1];
      var step := steps[|steps| - 1];
      ProductiveClaimsAreBounded(sha256, clocks, s, before);
      var t := After(sha256, clocks, s, before);
      StepUsesWork(sha256, t, step);
      SysInvStep(sha256, t, step);
    }
  }

  // ---- Unskipped claims ----

  predicate Actionable(d: Delivery, p: ClaimParams) {
    IsDue(d, p.queue, p.now) || IsExpired(d, p.queue, p.now)
  }

  ghost predicate NothingToDo(db: Db, p: ClaimParams) {
    forall id | id in db.deliveries :: !Actionable(db.deliveries[id], p)
  }

  /** An unskipped claim that finds work leases a row or retires one. */
  lemma UnskippedClaimActs(db: Db, p: ClaimParams) returns (x: DeliveryId)
    requires p.skip == {} && p.limit >= 1 && !NothingToDo(db, p)
    ensures x in db.deliveries && db.deliveries[x].content.queue == p.queue
    ensures Candidate(db, p) == Some(x) || (x in Batch(db, p) && IsExhausted(db.deliveries[x]))
  {
    var batch := Batch(db, p);
    var id :| id in db.deliveries && Actionable(db.deliveries[id], p);
    if Candidate(db, p).Some? {
      x := Candidate(db, p).value;
    } else {
      assert id !in EligibleIds(db, p, batch);
      assert id in ExpiredIds(db, p);
      assert |batch| >= 1;
      x :| x in batch;
      assert x in ExpiredIds(db, p) && x !in EligibleIds(db, p, batch);
    }
  }

  lemma ApplyKeepsQueue(db: Db, p: ClaimParams, batch: set<DeliveryId>, c: Option<DeliveryId>, queue: Bytes)
    ensures QueueIds(ApplyClaim(db, p, batch, c), queue) == QueueIds(db, queue)
  {
  }

  lemma ApplyProgresses(db: Db, p: ClaimParams, batch: set<DeliveryId>, c: Option<DeliveryId>, x: DeliveryId)
    requires StoreValid(db) && Selected(db, p, batch, c)
    requires x in db.deliveries && db.deliveries[x].content.queue == p.queue
    requires c == Some(x) || (x in batch && IsExhausted(db.deliveries[x]))
    ensures QueueWork(ApplyClaim(db, p, batch, c), p.queue) < QueueWork(db, p.queue)
  {
    ApplyKeepsQueue(db, p, batch, c, p.queue);
    ApplyNeverRaisesEffort(db, p, batch, c);
    ApplyEffort(db, p, batch, c, x);
    RowsProgress(db.deliveries, ApplyClaim(db, p, batch, c).deliveries, QueueIds(db, p.queue), x);
  }

  lemma RowsProgress(a: Rows, b: Rows, ids: set<DeliveryId>, x: DeliveryId)
    requires a.Keys == b.Keys && ids <= a.Keys && x in ids
    requires forall id | id in a :: Effort(b[id]) <= Effort(a[id])
    requires Effort(b[x]) < Effort(a[x])
    ensures Work(b, ids) < Work(a, ids)
  {
    WorkFalls(a, b, ids, x);
  }

  /** Even a claim that returns nothing makes progress whenever the queue has a due or expired row. */
  lemma UnskippedClaimProgresses(db: Db, p: ClaimParams)
    requires StoreValid(db) && p.skip == {} && p.limit >= 1 && !NothingToDo(db, p)
    ensures QueueWork(ClaimDb(db, p), p.queue) < QueueWork(db, p.queue)
  {
    ClaimIsSelected(db, p);
    var x := UnskippedClaimActs(db, p);
    ApplyProgresses(db, p, Batch(db, p), Candidate(db, p), x);
  }

  lemma NothingToDoChangesNothing(db: Db, p: ClaimParams)
    requires NothingToDo(db, p)
    ensures ClaimDb(db, p) == db && Candidate(db, p).None?
  {
    assert ExpiredIds(db, p) == {};
    assert EligibleIds(db, p, Batch(db, p)) == {};
    assert ClaimDb(db, p).deliveries == db.deliveries;
    assert ClaimDb(db, p).receipts == db.receipts;
  }

  // ---- The settled state ----

  function SettleRow(d: Delivery, p: ClaimParams): Delivery {
    if IsExpired(d, p.queue, p.now) && IsExhausted(d) then Retire(d, p.now)
    else if Actionable(d, p) then Take(d, p)
    else d
  }

  function AllExpired(db: Db, p: ClaimParams): set<DeliveryId> {
    set id | id in db.deliveries && IsExpired(db.deliveries[id], p.queue, p.now)
  }

  /** Unlimited maintenance, in closed form: what every schedule of bounded claims must reach. */
  ghost function Settled(db: Db, p: ClaimParams): Db {
    Db(map id | id in db.deliveries :: SettleRow(db.deliveries[id], p),
       ExpiryReceipts(db, AllExpired(db, p), p.now) + db.receipts)
  }

  lemma ApplyKeepsSettledRow(db: Db, p: ClaimParams, batch: set<DeliveryId>, c: Option<DeliveryId>, id: DeliveryId)
    requires Selected(db, p, batch, c) && id in db.deliveries && p.leaseSeconds >= 1
    ensures SettleRow(ApplyClaim(db, p, batch, c).deliveries[id], p) == SettleRow(db.deliveries[id], p)
  {
  }

  /** The settled tables hold a receipt for k. */
  ghost predicate SettledReceipt(db: Db, p: ClaimParams, k: AttemptKey) {
    k in db.receipts || IsBatchKey(db, AllExpired(db, p), k)
  }

  lemma ApplyKeepsSettledReceipt(db: Db, p: ClaimParams, batch: set<DeliveryId>, c: Option<DeliveryId>, k: AttemptKey)
    requires Selected(db, p, batch, c) && p.leaseSeconds >= 1
    ensures SettledReceipt(ApplyClaim(db, p, batch, c), p, k) <==> SettledReceipt(db, p, k)
  {
    var after := ApplyClaim(db, p, batch, c);
    assert k in after.receipts <==> k in db.receipts || IsBatchKey(db, batch, k);
    if k.id in db.deliveries && k.id in batch {
      assert IsExpired(db.deliveries[k.id], p.queue, p.now);
    }
  }

  lemma SettledReceiptMeaning(db: Db, p: ClaimParams, k: AttemptKey)
    ensures k in Settled(db, p).receipts <==> SettledReceipt(db, p, k)
    ensures SettledReceipt(db, p, k) ==>
      Settled(db, p).receipts[k] == if k in db.receipts then db.receipts[k] else ExpiryReceipt(p.now)
  {
  }

  lemma ApplyKeepsSettledValue(db: Db, p: ClaimParams, batch: set<DeliveryId>, c: Option<DeliveryId>, k: AttemptKey)
    requires Selected(db, p, batch, c) && p.leaseSeconds >= 1
    ensures SameReceipt(Settled(ApplyClaim(db, p, batch, c), p), Settled(db, p), k)
  {
    var after := ApplyClaim(db, p, batch, c);
    ApplyKeepsSettledReceipt(db, p, batch, c, k);
    SettledReceiptMeaning(db, p, k);
    SettledReceiptMeaning(after, p, k);
    assert k in db.receipts ==> k in after.receipts && after.receipts[k] == db.receipts[k];
    assert k in after.receipts && k !in db.receipts ==> after.receipts[k] == ExpiryReceipt(p.now);
  }

  lemma ApplyKeepsSettledReceipts(db: Db, p: ClaimParams, batch: set<DeliveryId>, c: Option<DeliveryId>)
    requires Selected(db, p, batch, c) && p.leaseSeconds >= 1
    ensures Settled(ApplyClaim(db, p, batch, c), p).receipts == Settled(db, p).receipts
  {
    var a, b := Settled(db, p), Settled(ApplyClaim(db, p, batch, c), p);
    forall k ensures SameReceipt(b, a, k) {
      ApplyKeepsSettledValue(db, p, batch, c, k);
    }
    SameReceiptsEqual(b, a);
  }

  lemma ApplyKeepsSettledRows(db: Db, p: ClaimParams, batch: set<DeliveryId>, c: Option<DeliveryId>)
    requires Selected(db, p, batch, c) && p.leaseSeconds >= 1
    ensures Settled(ApplyClaim(db, p, batch, c), p).deliveries == Settled(db, p).deliveries
  {
    forall id | id in db.deliveries
      ensures SettleRow(ApplyClaim(db, p, batch, c).deliveries[id], p) == SettleRow(db.deliveries[id], p)
    {
      ApplyKeepsSettledRow(db, p, batch, c, id);
    }
  }

  /** One claim, whatever its limit and whatever it skips, loses nothing of what is to be done. */
  lemma ClaimKeepsSettled(db: Db, p: ClaimParams)
    requires p.leaseSeconds >= 1
    ensures Settled(ClaimDb(db, p), p) == Settled(db, p)
  {
    ClaimIsSelected(db, p);
    ApplyKeepsSettledRows(db, p, Batch(db, p), Candidate(db, p));
    ApplyKeepsSettledReceipts(db, p, Batch(db, p), Candidate(db, p));
  }

  lemma NothingToDoIsSettled(db: Db, p: ClaimParams)
    requires NothingToDo(db, p)
    ensures Settled(db, p) == db
  {
    assert AllExpired(db, p) == {};
    assert Settled(db, p).deliveries == db.deliveries;
    assert Settled(db, p).receipts == db.receipts;
  }

  lemma SettledIgnoresLimit(db: Db, p: ClaimParams, limit: nat)
    ensures Settled(db, p.(limit := limit)) == Settled(db, p)
  {
    assert AllExpired(db, p.(limit := limit)) == AllExpired(db, p);
    assert Settled(db, p.(limit := limit)).deliveries == Settled(db, p).deliveries;
  }

  /** Successive claims at one time, each with its own batch limit. */
  ghost function Drain(db: Db, p: ClaimParams, limits: seq<nat>): Db
    decreases |limits|
  {
    if limits == [] then db else Drain(ClaimDb(db, p.(limit := limits[0])), p, limits[1..])
  }

  /** The rows those claims return, in order. */
  ghost function DrainedIds(db: Db, p: ClaimParams, limits: seq<nat>): seq<DeliveryId>
    decreases |limits|
  {
    if limits == [] then []
    else
      var q := p.(limit := limits[0]);
      var c := Candidate(db, q);
      (if c.Some? then [c.value] else []) + DrainedIds(ClaimDb(db, q), p, limits[1..])
  }

  function ToClaim(db: Db, p: ClaimParams): set<DeliveryId> {
    set id | id in db.deliveries && Actionable(db.deliveries[id], p) && !IsExhausted(db.deliveries[id])
  }

  /** Enough unskipped claims at one time reach the settled state, whatever the batch limits. */
  lemma {:induction false} BoundedMaintenanceSettles(db: Db, p: ClaimParams, limits: seq<nat>)
    requires StoreValid(db) && p.skip == {} && p.leaseSeconds >= 1
    requires forall i | 0 <= i < |limits| :: limits[i] >= 1
    requires QueueWork(db, p.queue) <= |limits|
    ensures Drain(db, p, limits) == Settled(db, p)
    decreases |limits|
  {
    if NothingToDo(db, p) {
      IdleDrain(db, p, limits);
      NothingToDoIsSettled(db, p);
    } else if limits == [] {
      UnskippedClaimProgresses(db, p.(limit := 1));
    } else {
      var q := p.(limit := limits[0]);
      UnskippedClaimProgresses(db, q);
      ClaimKeepsStoreValid(db, q);
      BoundedMaintenanceSettles(ClaimDb(db, q), p, limits[1..]);
      ClaimKeepsSettled(db, q);
      SettledIgnoresLimit(db, p, limits[0]);
      SettledIgnoresLimit(ClaimDb(db, q), p, limits[0]);
    }
  }

  lemma {:induction false} IdleDrain(db: Db, p: ClaimParams, limits: seq<nat>)
    requires NothingToDo(db, p)
    ensures Drain(db, p, limits) == db && DrainedIds(db, p, limits) == []
    decreases |limits|
  {
    if limits != [] {
      var q := p.(limit := limits[0]);
      assert NothingToDo(db, q);
      NothingToDoChangesNothing(db, q);
      IdleDrain(db, p, limits[1..]);
    }
  }

  lemma ClaimTakesOne(db: Db, p: ClaimParams, limit: nat)
    requires p.leaseSeconds >= 1
    ensures var q := p.(limit := limit);
      var c := Candidate(db, q);
      && (c.None? ==> ToClaim(ClaimDb(db, q), p) == ToClaim(db, p))
      && (c.Some? ==> c.value in ToClaim(db, p) && ToClaim(ClaimDb(db, q), p) == ToClaim(db, p) - {c.value})
  {
    var q := p.(limit := limit);
    ClaimIsSelected(db, q);
    ApplyTakesOne(db, q, Batch(db, q), Candidate(db, q));
    ToClaimIgnoresLimit(db, p, limit);
    ToClaimIgnoresLimit(ClaimDb(db, q), p, limit);
  }

  lemma ToClaimIgnoresLimit(db: Db, p: ClaimParams, limit: nat)
    ensures ToClaim(db, p.(limit := limit)) == ToClaim(db, p)
  {
  }

  lemma ApplyTakesOne(db: Db, p: ClaimParams, batch: set<DeliveryId>, c: Option<DeliveryId>)
    requires Selected(db, p, batch, c) && p.leaseSeconds >= 1
    ensures c.None? ==> ToClaim(ApplyClaim(db, p, batch, c), p) == ToClaim(db, p)
    ensures c.Some? ==>
      c.value in ToClaim(db, p) && ToClaim(ApplyClaim(db, p, batch, c), p) == ToClaim(db, p) - {c.value}
  {
  }

  /** Those claims return every due or retryable expired row exactly once, and nothing else. */
  lemma {:induction false} EveryRowClaimedOnce(db: Db, p: ClaimParams, limits: seq<nat>)
    requires StoreValid(db) && p.skip == {} && p.leaseSeconds >= 1
    requires forall i | 0 <= i < |limits| :: limits[i] >= 1
    requires QueueWork(db, p.queue) <= |limits|
    ensures forall id :: id in DrainedIds(db, p, limits) <==> id in ToClaim(db, p)
    ensures |DrainedIds(db, p, limits)| == |ToClaim(db, p)|
    decreases |limits|
  {
    if NothingToDo(db, p) {
      IdleDrain(db, p, limits);
      assert ToClaim(db, p) == {};
    } else if limits == [] {
      UnskippedClaimProgresses(db, p.(limit := 1));
    } else {
      var q := p.(limit := limits[0]);
      UnskippedClaimProgresses(db, q);
      ClaimKeepsStoreValid(db, q);
      EveryRowClaimedOnce(ClaimDb(db, q), p, limits[1..]);
      ClaimTakesOne(db, p, limits[0]);
      if Candidate(db, q).Some? {
        OneMore(Candidate(db, q).value, DrainedIds(ClaimDb(db, q), p, limits[1..]), ToClaim(db, p));
      }
    }
  }

  lemma OneMore(x: DeliveryId, rest: seq<DeliveryId>, ids: set<DeliveryId>)
    requires x in ids && |rest| == |ids - {x}|
    requires forall id :: id in rest <==> id in ids - {x}
    ensures |[x] + rest| == |ids|
    ensures forall id :: id in [x] + rest <==> id in ids
  {
  }

  lemma ActionableRowSettles(d: Delivery, p: ClaimParams)
    requires Actionable(d, p)
    ensures var e := SettleRow(d, p);
      && (d.attempts < d.maxAttempts ==>
            e.status == Delivering && e.attempts == d.attempts + 1 && e.lease == Some(p.now + p.leaseSeconds * SECOND))
      && (d.attempts >= d.maxAttempts ==> e.status == DeadLetter && e.attempts == d.attempts)
  {
  }

  /** An exhausted row past its time has a receipt for its last attempt in the settled tables. */
  lemma ExhaustedRowIsReceipted(db: Db, id: DeliveryId, p: ClaimParams)
    requires id in db.deliveries && Actionable(db.deliveries[id], p) && IsExhausted(db.deliveries[id])
    ensures CurrentKey(id, db.deliveries[id]) in Settled(db, p).receipts
  {
    assert IsBatchKey(db, AllExpired(db, p), CurrentKey(id, db.deliveries[id]));
    SettledReceiptMeaning(db, p, CurrentKey(id, db.deliveries[id]));
  }

  /** In any reachable state, a row past its time is leased again,
      or dead-lettered if its attempts are used up, by enough unskipped claims. */
  lemma ActionableRowIsHandled(sha256: Sha256, clocks: Clocks, steps: seq<Step>, id: DeliveryId, since: Micros,
    p: ClaimParams, limits: seq<nat>)
    requires IsRun(sha256, clocks, steps) && id in EndOf(sha256, clocks, steps).db.deliveries
    requires var db := EndOf(sha256, clocks, steps).db;
      && ActionableFrom(db.deliveries[id], since) && since <= p.now && p.queue == db.deliveries[id].content.queue
      && QueueWork(db, p.queue) <= |limits|
    requires p.skip == {} && p.leaseSeconds >= 1 && forall i | 0 <= i < |limits| :: limits[i] >= 1
    ensures var db := EndOf(sha256, clocks, steps).db;
      var d := db.deliveries[id];
      var after := Drain(db, p, limits);
      && id in after.deliveries
      && var e := after.deliveries[id];
      && (d.attempts < d.maxAttempts ==>
            e.status == Delivering && e.attempts == d.attempts + 1 && e.lease == Some(p.now + p.leaseSeconds * SECOND)
            && id in DrainedIds(db, p, limits))
      && (d.attempts >= d.maxAttempts ==>
            e.status == DeadLetter && e.attempts == d.attempts && CurrentKey(id, d) in after.receipts)
  {
    SysInvHolds(sha256, clocks, steps);
    var db := EndOf(sha256, clocks, steps).db;
    var d := db.deliveries[id];
    assert IsDue(d, d.content.queue, p.now) || IsExpired(d, d.content.queue, p.now);
    BoundedMaintenanceSettles(db, p, limits);
    EveryRowClaimedOnce(db, p, limits);
    ActionableRowSettles(d, p);
    if IsExhausted(d) { ExhaustedRowIsReceipted(db, id, p); }
  }
}
