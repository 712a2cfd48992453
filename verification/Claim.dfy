/** What the one-statement claim means: a function of the snapshot it reads. */
module Claim {
  import opened Types
  import opened Order

  /** The statement's bind values, its transaction timestamp, and the rows other sessions hold locked. */
  datatype ClaimParams = ClaimParams(
    queue: Bytes,
    leaseSeconds: int,
    limit: nat,
    now: Micros,
    skip: set<DeliveryId>)

  predicate IsExpired(d: Delivery, queue: Bytes, now: Micros) {
    d.content.queue == queue && d.status == Delivering && d.lease.Some? && d.lease.value <= now
  }

  predicate IsDue(d: Delivery, queue: Bytes, now: Micros) {
    d.content.queue == queue && d.attempts < d.maxAttempts
    && (d.status == Queued || d.status == RetryScheduled) && d.availableAt <= now
  }

  predicate IsExhausted(d: Delivery) {
    d.attempts >= d.maxAttempts
  }

  function ExpiredIds(db: Db, p: ClaimParams): set<DeliveryId> {
    set id | id in db.deliveries && id !in p.skip && IsExpired(db.deliveries[id], p.queue, p.now)
  }

  function LeaseRanks(db: Db): Ranks {
    map id | id in db.deliveries ::
      SortKey(if db.deliveries[id].lease.Some? then db.deliveries[id].lease.value else 0, 0, id)
  }

  function DueRanks(db: Db): Ranks {
    map id | id in db.deliveries :: SortKey(db.deliveries[id].availableAt, db.deliveries[id].createdAt, id)
  }

  /** The candidate's WHERE clause, given the ids of the expired batch. */
  function EligibleIds(db: Db, p: ClaimParams, batch: set<DeliveryId>): set<DeliveryId> {
    set id | id in db.deliveries && id !in p.skip
          && (IsDue(db.deliveries[id], p.queue, p.now)
              || (id in batch && IsExpired(db.deliveries[id], p.queue, p.now) && !IsExhausted(db.deliveries[id])))
  }

  /** The expired batch, stated by its ordering. */
  ghost predicate IsBatch(db: Db, p: ClaimParams, batch: set<DeliveryId>) {
    IsFirst(ExpiredIds(db, p), LeaseRanks(db), p.limit, batch)
  }

  /** The claimed row, stated by its ordering. */
  ghost predicate IsCandidate(db: Db, p: ClaimParams, batch: set<DeliveryId>, c: Option<DeliveryId>) {
    var ids := EligibleIds(db, p, batch);
    if c.None? then ids == {} else IsLeast(ids, DueRanks(db), c.value)
  }

  ghost function Batch(db: Db, p: ClaimParams): (batch: set<DeliveryId>)
    ensures IsBatch(db, p, batch)
  {
    First(ExpiredIds(db, p), LeaseRanks(db), p.limit)
  }

  ghost function Candidate(db: Db, p: ClaimParams): (c: Option<DeliveryId>)
    ensures IsCandidate(db, p, Batch(db, p), c)
  {
    var ids := EligibleIds(db, p, Batch(db, p));
    if ids == {} then None else Some(Least(ids, DueRanks(db)))
  }

  function Retire(d: Delivery, now: Micros): Delivery {
    d.(status := DeadLetter, lease := None, updatedAt := now)
  }

  function Take(d: Delivery, p: ClaimParams): Delivery {
    d.(status := Delivering, attempts := d.attempts + 1,
       lease := Some(p.now + p.leaseSeconds * SECOND), updatedAt := p.now)
  }

  function ExpiryReceipt(now: Micros): Receipt {
    Receipt(LeaseExpired, None, None, now)
  }

  /** Keys of the receipts that a batch inserts. */
  ghost predicate IsBatchKey(db: Db, batch: set<DeliveryId>, k: AttemptKey) {
    k.id in batch && k.id in db.deliveries && k == CurrentKey(k.id, db.deliveries[k.id])
  }

  ghost function ExpiryReceipts(db: Db, batch: set<DeliveryId>, now: Micros): (m: map<AttemptKey, Receipt>)
    ensures forall k :: k in m <==> IsBatchKey(db, batch, k)
    ensures forall k :: k in m ==> m[k] == ExpiryReceipt(now)
  {
    var keys := set id | id in batch && id in db.deliveries :: CurrentKey(id, db.deliveries[id]);
    map k | k in keys :: ExpiryReceipt(now)
  }

  function Retired(d: Delivery, inBatch: bool, now: Micros): Delivery {
    if inBatch && IsExhausted(d) then Retire(d, now) else d
  }

  ghost function RowAfterClaim(id: DeliveryId, d: Delivery, p: ClaimParams, batch: set<DeliveryId>,
    c: Option<DeliveryId>): Delivery {
    if c == Some(id) then Take(d, p) else Retired(d, id in batch, p.now)
  }

  ghost function ApplyClaim(db: Db, p: ClaimParams, batch: set<DeliveryId>, c: Option<DeliveryId>): Db {
    Db(map id | id in db.deliveries :: RowAfterClaim(id, db.deliveries[id], p, batch, c),
       ExpiryReceipts(db, batch, p.now) + db.receipts)
  }

  ghost function ClaimDb(db: Db, p: ClaimParams): Db {
    ApplyClaim(db, p, Batch(db, p), Candidate(db, p))
  }

  /** The row returned to the worker. */
  ghost function ClaimRecord(db: Db, p: ClaimParams): Option<DeliveryRecord> {
    var c := Candidate(db, p);
    if c.None? then None else Some(ToRecord(c.value, Take(db.deliveries[c.value], p)))
  }

  /** The declarative conditions admit exactly one batch and one candidate. */
  lemma ClaimIsDetermined(db: Db, p: ClaimParams, batch: set<DeliveryId>, c: Option<DeliveryId>)
    requires IsBatch(db, p, batch) && IsCandidate(db, p, batch, c)
    ensures batch == Batch(db, p) && c == Candidate(db, p)
    ensures ClaimDb(db, p) == ApplyClaim(db, p, batch, c)
    ensures batch <= ExpiredIds(db, p) && (c.Some? ==> c.value in EligibleIds(db, p, batch))
  {
    FirstUnique(ExpiredIds(db, p), LeaseRanks(db), p.limit, batch, Batch(db, p));
    if c.Some? && Candidate(db, p).Some? {
      LeastUnique(EligibleIds(db, p, batch), DueRanks(db), c.value, Candidate(db, p).value);
    }
  }

  /** No row is both retired and claimed, so one snapshot serves both updates. */
  lemma RetiredAndClaimedDisjoint(db: Db, p: ClaimParams, id: DeliveryId)
    requires id in db.deliveries && id in Batch(db, p) && IsExhausted(db.deliveries[id])
    ensures Candidate(db, p) != Some(id)
  {
    assert id in ExpiredIds(db, p);
  }

  /** Running the retirement first does not change what the candidate query selects. */
  lemma RetirementDoesNotMoveCandidate(db: Db, p: ClaimParams, batch: set<DeliveryId>, c: Option<DeliveryId>)
    requires batch <= ExpiredIds(db, p)
    ensures IsCandidate(ApplyClaim(db, p, batch, None), p, batch, c) <==> IsCandidate(db, p, batch, c)
  {
    var mid := ApplyClaim(db, p, batch, None);
    assert EligibleIds(mid, p, batch) == EligibleIds(db, p, batch);
    assert DueRanks(mid) == DueRanks(db);
  }

  /** The receipted and retired tables are the claim without its candidate. */
  lemma MaintenanceIsApply(db: Db, p: ClaimParams, batch: set<DeliveryId>, after: Db)
    requires after.receipts == ExpiryReceipts(db, batch, p.now) + db.receipts
    requires after.deliveries.Keys == db.deliveries.Keys
    requires forall id | id in after.deliveries :: after.deliveries[id] == Retired(db.deliveries[id], id in batch, p.now)
    ensures after == ApplyClaim(db, p, batch, None)
  {
    assert after.deliveries == ApplyClaim(db, p, batch, None).deliveries;
  }

  /** Leasing the candidate in the retired table is leasing it in the snapshot. */
  lemma LeaseAfterRetirement(db: Db, p: ClaimParams, batch: set<DeliveryId>, id: DeliveryId)
    requires id in EligibleIds(db, p, batch) && batch <= ExpiredIds(db, p)
    ensures var mid := ApplyClaim(db, p, batch, None);
      && mid.deliveries[id] == db.deliveries[id]
      && ApplyClaim(db, p, batch, Some(id)) == mid.(deliveries := mid.deliveries[id := Take(mid.deliveries[id], p)])
  {
    var mid := ApplyClaim(db, p, batch, None);
    assert ApplyClaim(db, p, batch, Some(id)).deliveries == mid.deliveries[id := Take(mid.deliveries[id], p)];
  }

  /** At most the batch limit of rows is receipted or retired; one more may be claimed. */
  lemma ClaimIsBounded(db: Db, p: ClaimParams)
    ensures |Batch(db, p)| <= p.limit
    ensures forall id :: id in db.deliveries && ClaimDb(db, p).deliveries[id] != db.deliveries[id]
              ==> id in Batch(db, p) || Candidate(db, p) == Some(id)
    ensures forall k :: k in ClaimDb(db, p).receipts && k !in db.receipts ==> k.id in Batch(db, p)
  {
  }

  /** A claimed row is due, or expired and receipted by the same statement; both have attempts left. */
  lemma CandidateFacts(db: Db, p: ClaimParams)
    requires Candidate(db, p).Some?
    ensures var id := Candidate(db, p).value;
      && id in db.deliveries && id !in p.skip && db.deliveries[id].attempts < db.deliveries[id].maxAttempts
      && (IsDue(db.deliveries[id], p.queue, p.now)
          || (IsExpired(db.deliveries[id], p.queue, p.now) && CurrentKey(id, db.deliveries[id]) in ClaimDb(db, p).receipts))
  {
    var id := Candidate(db, p).value;
    assert id in EligibleIds(db, p, Batch(db, p));
    if !IsDue(db.deliveries[id], p.queue, p.now) {
      assert IsBatchKey(db, Batch(db, p), CurrentKey(id, db.deliveries[id]));
    }
  }

  /** Receipts are insert-or-ignore: an attempt that has one keeps it. */
  lemma ClaimKeepsReceipts(db: Db, p: ClaimParams, k: AttemptKey)
    requires k in db.receipts
    ensures k in ClaimDb(db, p).receipts && ClaimDb(db, p).receipts[k] == db.receipts[k]
  {
  }

  predicate SameReceipt(a: Db, b: Db, k: AttemptKey) {
    (k in a.receipts <==> k in b.receipts) && (k in a.receipts ==> a.receipts[k] == b.receipts[k])
  }

  lemma SameReceiptsEqual(a: Db, b: Db)
    requires forall k :: SameReceipt(a, b, k)
    ensures a.receipts == b.receipts
  {
    assert forall k :: k in a.receipts ==> SameReceipt(a, b, k);
    assert forall k :: k in b.receipts ==> SameReceipt(a, b, k);
  }

  /** What the proofs about rows need of a batch and a candidate. */
  ghost predicate Selected(db: Db, p: ClaimParams, batch: set<DeliveryId>, c: Option<DeliveryId>) {
    batch <= ExpiredIds(db, p) && (c.Some? ==> c.value in EligibleIds(db, p, batch))
  }

  lemma ClaimIsSelected(db: Db, p: ClaimParams)
    ensures Selected(db, p, Batch(db, p), Candidate(db, p))
  {
  }

  lemma ApplyKeepsRow(db: Db, p: ClaimParams, batch: set<DeliveryId>, c: Option<DeliveryId>, id: DeliveryId)
    requires StoreValid(db) && Selected(db, p, batch, c) && id in db.deliveries
    ensures var d, e := db.deliveries[id], ApplyClaim(db, p, batch, c).deliveries[id];
      DeliveryCheck(e) && e.content == d.content && (e.status == Delivering ==> 1 <= e.attempts)
  {
    assert DeliveryCheck(db.deliveries[id]);
  }

  lemma ApplyKeepsRows(db: Db, p: ClaimParams, batch: set<DeliveryId>, c: Option<DeliveryId>)
    requires StoreValid(db) && Selected(db, p, batch, c)
    ensures forall id :: id in db.deliveries ==>
              DeliveryCheck(ApplyClaim(db, p, batch, c).deliveries[id])
              && ApplyClaim(db, p, batch, c).deliveries[id].content == db.deliveries[id].content
    ensures LeasedRowsStarted(ApplyClaim(db, p, batch, c))
  {
    forall id | id in db.deliveries { ApplyKeepsRow(db, p, batch, c, id); }
  }

  lemma ApplyKeepsReceiptChecks(db: Db, p: ClaimParams, batch: set<DeliveryId>, c: Option<DeliveryId>)
    requires StoreValid(db) && Selected(db, p, batch, c)
    ensures forall k :: k in ApplyClaim(db, p, batch, c).receipts ==>
              ReceiptCheck(k, ApplyClaim(db, p, batch, c).receipts[k]) && k.id in db.deliveries
  {
    var after := ApplyClaim(db, p, batch, c);
    forall k | k in after.receipts ensures ReceiptCheck(k, after.receipts[k]) && k.id in db.deliveries {
      if k !in db.receipts {
        assert IsBatchKey(db, batch, k) && k.id in ExpiredIds(db, p);
        assert DeliveryCheck(db.deliveries[k.id]);
      }
    }
  }

  /** The claim respects every constraint of the schema. */
  lemma ClaimKeepsStoreValid(db: Db, p: ClaimParams)
    requires StoreValid(db)
    ensures StoreValid(ClaimDb(db, p))
  {
    ClaimIsSelected(db, p);
    ApplyKeepsRows(db, p, Batch(db, p), Candidate(db, p));
    ApplyKeepsReceiptChecks(db, p, Batch(db, p), Candidate(db, p));
  }
}
