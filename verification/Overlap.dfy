/** Claims that run at the same time and lock different rows. */
module Overlap {
  import opened Types
  import opened Order
  import opened Claim

  /** The rows a claim holds locked until it commits. */
  ghost function Locks(db: Db, p: ClaimParams): set<DeliveryId> {
    Batch(db, p) + Only(Candidate(db, p))
  }

  function Only(c: Option<DeliveryId>): set<DeliveryId> {
    if c.Some? then {c.value} else {}
  }

  /** The other claim sees the same rows, except rows it skips and receipts of rows it skips. */
  ghost predicate DiffersOnlyOn(a: Db, b: Db, ids: set<DeliveryId>) {
    && a.deliveries.Keys == b.deliveries.Keys
    && (forall id | id in a.deliveries && id !in ids :: b.deliveries[id] == a.deliveries[id])
  }

  lemma ClaimChangesOnlyLocks(db: Db, p: ClaimParams)
    ensures DiffersOnlyOn(db, ClaimDb(db, p), Locks(db, p))
    ensures forall k: AttemptKey | k.id !in Locks(db, p) :: k in ClaimDb(db, p).receipts <==> k in db.receipts
  {
  }

  lemma SameRanksSameFirst(ids: set<DeliveryId>, r: Ranks, t: Ranks, n: nat, chosen: set<DeliveryId>)
    requires Ranked(ids, r) && Ranked(ids, t) && forall id | id in ids :: r[id] == t[id]
    requires IsFirst(ids, r, n, chosen)
    ensures IsFirst(ids, t, n, chosen)
  {
  }

  lemma SkippedRowsDoNotMatter(a: Db, b: Db, p: ClaimParams)
    requires DiffersOnlyOn(a, b, p.skip)
    ensures ExpiredIds(a, p) == ExpiredIds(b, p)
    ensures forall batch :: EligibleIds(a, p, batch) == EligibleIds(b, p, batch)
  {
  }

  /** A claim chooses the same rows in both tables. */
  lemma SameChoice(a: Db, b: Db, p: ClaimParams)
    requires DiffersOnlyOn(a, b, p.skip)
    ensures Batch(b, p) == Batch(a, p) && Candidate(b, p) == Candidate(a, p)
    ensures forall id | id in Locks(a, p) :: id in a.deliveries && id !in p.skip
  {
    var batch := Batch(a, p);
    SkippedRowsDoNotMatter(a, b, p);
    SameRanksSameFirst(ExpiredIds(a, p), LeaseRanks(a), LeaseRanks(b), p.limit, batch);
    SameCandidate(a, b, p, batch, Candidate(a, p));
    ClaimIsDetermined(b, p, batch, Candidate(a, p));
    ClaimIsSelected(a, p);
  }

  lemma SameCandidate(a: Db, b: Db, p: ClaimParams, batch: set<DeliveryId>, c: Option<DeliveryId>)
    requires DiffersOnlyOn(a, b, p.skip) && IsCandidate(a, p, batch, c)
    ensures IsCandidate(b, p, batch, c)
  {
    SkippedRowsDoNotMatter(a, b, p);
    assert EligibleIds(a, p, batch) == EligibleIds(b, p, batch);
  }

  lemma SameChoiceSameRecord(a: Db, b: Db, p: ClaimParams)
    requires DiffersOnlyOn(a, b, p.skip)
    ensures ClaimRecord(b, p) == ClaimRecord(a, p)
  {
    SameChoice(a, b, p);
    ClaimIsSelected(a, p);
  }

  lemma ClaimChangesOnlySkipped(db: Db, p: ClaimParams, ids: set<DeliveryId>)
    requires Locks(db, p) <= ids
    ensures DiffersOnlyOn(db, ClaimDb(db, p), ids)
  {
    ClaimChangesOnlyLocks(db, p);
  }

  /** A claim decides alike whether it runs beside the other or after it. */
  lemma ClaimAfterIsClaimBeside(db: Db, p: ClaimParams, q: ClaimParams)
    requires Locks(db, p) <= q.skip
    ensures var mid := ClaimDb(db, p);
      && Batch(mid, q) == Batch(db, q) && Candidate(mid, q) == Candidate(db, q)
      && Locks(mid, q) == Locks(db, q)
      && ClaimRecord(mid, q) == ClaimRecord(db, q)
  {
    var mid := ClaimDb(db, p);
    ClaimChangesOnlySkipped(db, p, q.skip);
    assert Batch(mid, q) == Batch(db, q) && Candidate(mid, q) == Candidate(db, q) by { SameChoice(db, mid, q); }
    SameChoiceSameRecord(db, mid, q);
  }

  lemma DisjointAppliesCommute(db: Db, p: ClaimParams, bp: set<DeliveryId>, cp: Option<DeliveryId>,
    q: ClaimParams, bq: set<DeliveryId>, cq: Option<DeliveryId>)
    requires (bp + Only(cp)) !! (bq + Only(cq))
    ensures ApplyClaim(ApplyClaim(db, p, bp, cp), q, bq, cq) == ApplyClaim(ApplyClaim(db, q, bq, cq), p, bp, cp)
  {
    DisjointRowsCommute(db, p, bp, cp, q, bq, cq);
    DisjointLedgersCommute(db, p, bp, cp, q, bq, cq);
  }

  lemma DisjointLedgersCommute(db: Db, p: ClaimParams, bp: set<DeliveryId>, cp: Option<DeliveryId>,
    q: ClaimParams, bq: set<DeliveryId>, cq: Option<DeliveryId>)
    requires (bp + Only(cp)) !! (bq + Only(cq))
    ensures ApplyClaim(ApplyClaim(db, p, bp, cp), q, bq, cq).receipts
      == ApplyClaim(ApplyClaim(db, q, bq, cq), p, bp, cp).receipts
  {
    var x, y := ApplyClaim(ApplyClaim(db, p, bp, cp), q, bq, cq), ApplyClaim(ApplyClaim(db, q, bq, cq), p, bp, cp);
    forall k ensures SameReceipt(x, y, k) {
      DisjointReceiptsCommute(db, p, bp, cp, q, bq, cq, k);
    }
    SameReceiptsEqual(x, y);
  }

  lemma DisjointRowsCommute(db: Db, p: ClaimParams, bp: set<DeliveryId>, cp: Option<DeliveryId>,
    q: ClaimParams, bq: set<DeliveryId>, cq: Option<DeliveryId>)
    requires (bp + Only(cp)) !! (bq + Only(cq))
    ensures ApplyClaim(ApplyClaim(db, p, bp, cp), q, bq, cq).deliveries
      == ApplyClaim(ApplyClaim(db, q, bq, cq), p, bp, cp).deliveries
  {
    forall id | id in db.deliveries
      ensures var d := db.deliveries[id];
        RowAfterClaim(id, RowAfterClaim(id, d, p, bp, cp), q, bq, cq)
          == RowAfterClaim(id, RowAfterClaim(id, d, q, bq, cq), p, bp, cp)
    {
      assert id in bp || cp == Some(id) ==> RowAfterClaim(id, db.deliveries[id], q, bq, cq) == db.deliveries[id];
      assert id in bq || cq == Some(id) ==> RowAfterClaim(id, db.deliveries[id], p, bp, cp) == db.deliveries[id];
    }
  }

  lemma ReceiptAfterApply(db: Db, p: ClaimParams, batch: set<DeliveryId>, c: Option<DeliveryId>, k: AttemptKey)
    ensures var after := ApplyClaim(db, p, batch, c);
      && (k in after.receipts <==> k in db.receipts || IsBatchKey(db, batch, k))
      && (k in after.receipts ==>
            after.receipts[k] == if k in db.receipts then db.receipts[k] else ExpiryReceipt(p.now))
  {
  }

  lemma BatchKeyElsewhere(db: Db, p: ClaimParams, bp: set<DeliveryId>, cp: Option<DeliveryId>,
    bq: set<DeliveryId>, k: AttemptKey)
    requires (bp + Only(cp)) !! bq
    ensures IsBatchKey(ApplyClaim(db, p, bp, cp), bq, k) <==> IsBatchKey(db, bq, k)
  {
  }

  lemma DisjointReceiptsCommute(db: Db, p: ClaimParams, bp: set<DeliveryId>, cp: Option<DeliveryId>,
    q: ClaimParams, bq: set<DeliveryId>, cq: Option<DeliveryId>, k: AttemptKey)
    requires (bp + Only(cp)) !! (bq + Only(cq))
    ensures SameReceipt(
      ApplyClaim(ApplyClaim(db, p, bp, cp), q, bq, cq), ApplyClaim(ApplyClaim(db, q, bq, cq), p, bp, cp), k)
  {
    ReceiptAfterApply(db, p, bp, cp, k);
    ReceiptAfterApply(db, q, bq, cq, k);
    ReceiptAfterApply(ApplyClaim(db, p, bp, cp), q, bq, cq, k);
    ReceiptAfterApply(ApplyClaim(db, q, bq, cq), p, bp, cp, k);
    BatchKeyElsewhere(db, p, bp, cp, bq, k);
    BatchKeyElsewhere(db, q, bq, cq, bp, k);
  }

  // ---- Skipping rows that are not wanted ----

  /** The claim as it runs when other sessions hold more rows locked. */
  function Skipping(p: ClaimParams, extra: set<DeliveryId>): ClaimParams {
    p.(skip := p.skip + extra)
  }

  lemma FirstOfFewer(ids: set<DeliveryId>, fewer: set<DeliveryId>, ranks: Ranks, n: nat, chosen: set<DeliveryId>)
    requires Ranked(ids, ranks) && IsFirst(ids, ranks, n, chosen) && chosen <= fewer <= ids
    ensures IsFirst(fewer, ranks, n, chosen)
  {
    SubsetSize(fewer, ids);
    SubsetSize(chosen, fewer);
    SubsetSize(chosen, ids);
  }

  lemma ApplyIgnoresSkip(db: Db, p: ClaimParams, extra: set<DeliveryId>, batch: set<DeliveryId>, c: Option<DeliveryId>)
    ensures ApplyClaim(db, Skipping(p, extra), batch, c) == ApplyClaim(db, p, batch, c)
  {
    assert ApplyClaim(db, Skipping(p, extra), batch, c).deliveries == ApplyClaim(db, p, batch, c).deliveries;
  }

  lemma SkippingMoreSameBatch(db: Db, p: ClaimParams, extra: set<DeliveryId>, batch: set<DeliveryId>)
    requires IsBatch(db, p, batch) && extra !! batch
    ensures IsBatch(db, Skipping(p, extra), batch)
  {
    var fewer := ExpiredIds(db, Skipping(p, extra));
    assert fewer == ExpiredIds(db, p) - extra;
    FirstOfFewer(ExpiredIds(db, p), fewer, LeaseRanks(db), p.limit, batch);
  }

  lemma SkippingMoreSameCandidate(db: Db, p: ClaimParams, extra: set<DeliveryId>, batch: set<DeliveryId>,
    c: Option<DeliveryId>)
    requires IsCandidate(db, p, batch, c) && extra !! Only(c)
    ensures IsCandidate(db, Skipping(p, extra), batch, c)
  {
    assert EligibleIds(db, Skipping(p, extra), batch) == EligibleIds(db, p, batch) - extra;
  }

  lemma SkippingMoreSameChoice(db: Db, p: ClaimParams, extra: set<DeliveryId>)
    requires extra !! Locks(db, p)
    ensures Batch(db, Skipping(p, extra)) == Batch(db, p) && Candidate(db, Skipping(p, extra)) == Candidate(db, p)
  {
    SkippingMoreSameBatch(db, p, extra, Batch(db, p));
    SkippingMoreSameCandidate(db, p, extra, Batch(db, p), Candidate(db, p));
    ClaimIsDetermined(db, Skipping(p, extra), Batch(db, p), Candidate(db, p));
  }

  /** Skipping rows that a claim would not have touched changes nothing about it. */
  lemma SkippingMoreIsFree(db: Db, p: ClaimParams, extra: set<DeliveryId>)
    requires extra !! Locks(db, p)
    ensures var q := Skipping(p, extra);
      && Locks(db, q) == Locks(db, p)
      && ClaimDb(db, q) == ClaimDb(db, p) && ClaimRecord(db, q) == ClaimRecord(db, p)
  {
    SkippingMoreSameChoice(db, p, extra);
    ApplyIgnoresSkip(db, p, extra, Batch(db, p), Candidate(db, p));
  }

  // ---- Two sessions ----

  /** A claim that skips what an earlier one locks shares no row with it. */
  lemma SkippedIsDisjoint(db: Db, p: ClaimParams, q: ClaimParams)
    requires Locks(db, p) <= q.skip
    ensures Locks(db, p) !! Locks(db, q)
  {
    SameChoice(db, db, q);
  }

  /** After p's commit, q decides as beside it, once it skips what p held locked. */
  lemma DisjointClaimAfter(db: Db, p: ClaimParams, q: ClaimParams)
    requires Locks(db, p) !! Locks(db, q)
    ensures var mid, late := ClaimDb(db, p), Skipping(q, Locks(db, p));
      && Batch(mid, late) == Batch(db, q) && Candidate(mid, late) == Candidate(db, q)
      && ClaimRecord(mid, late) == ClaimRecord(db, q)
      && ClaimDb(mid, late) == ApplyClaim(mid, q, Batch(db, q), Candidate(db, q))
  {
    var late := Skipping(q, Locks(db, p));
    SkippingMoreSameChoice(db, q, Locks(db, p));
    SkippingMoreIsFree(db, q, Locks(db, p));
    ClaimAfterIsClaimBeside(db, p, late);
    ApplyIgnoresSkip(ClaimDb(db, p), q, Locks(db, p), Batch(db, q), Candidate(db, q));
  }

  lemma DisjointResults(db: Db, p: ClaimParams, q: ClaimParams)
    requires Locks(db, p) !! Locks(db, q)
    ensures ClaimRecord(db, p).Some? && ClaimRecord(db, q).Some? ==>
      ClaimRecord(db, p).value.id != ClaimRecord(db, q).value.id
    ensures forall k: AttemptKey :: !(IsBatchKey(db, Batch(db, p), k) && IsBatchKey(db, Batch(db, q), k))
  {
  }

  /** Claims over one snapshot that lock different rows never return the same delivery or write the same receipt;
      either may commit first, with the other skipping its locks, and both orders give the same tables. */
  lemma OverlappingClaimsSerialise(db: Db, p: ClaimParams, q: ClaimParams)
    requires Locks(db, p) !! Locks(db, q)
    ensures ClaimRecord(db, p).Some? && ClaimRecord(db, q).Some? ==>
      ClaimRecord(db, p).value.id != ClaimRecord(db, q).value.id
    ensures forall k: AttemptKey :: !(IsBatchKey(db, Batch(db, p), k) && IsBatchKey(db, Batch(db, q), k))
    ensures ClaimRecord(ClaimDb(db, p), Skipping(q, Locks(db, p))) == ClaimRecord(db, q)
    ensures ClaimRecord(ClaimDb(db, q), Skipping(p, Locks(db, q))) == ClaimRecord(db, p)
    ensures ClaimDb(ClaimDb(db, p), Skipping(q, Locks(db, p))) == ClaimDb(ClaimDb(db, q), Skipping(p, Locks(db, q)))
  {
    DisjointResults(db, p, q);
    DisjointClaimAfter(db, p, q);
    DisjointClaimAfter(db, q, p);
    DisjointAppliesCommute(db, p, Batch(db, p), Candidate(db, p), q, Batch(db, q), Candidate(db, q));
  }

  // ---- Any number of sessions ----

  /** Claims as atomic transactions, in sequence order. */
  ghost function ClaimAll(db: Db, ps: seq<ClaimParams>): Db
    decreases |ps|
  {
    if ps == [] then db else ClaimAll(ClaimDb(db, ps[0]), ps[1..])
  }

  ghost function Returned(db: Db, ps: seq<ClaimParams>): seq<Option<DeliveryRecord>>
    decreases |ps|
  {
    if ps == [] then [] else [ClaimRecord(db, ps[0])] + Returned(ClaimDb(db, ps[0]), ps[1..])
  }

  /** What a claim chose over the common snapshot, written to the tables as they are now. */
  ghost function Effect(cur: Db, snap: Db, p: ClaimParams): Db {
    ApplyClaim(cur, p, Batch(snap, p), Candidate(snap, p))
  }

  /** What all sessions chose over the common snapshot, written in sequence order. */
  ghost function Effects(cur: Db, snap: Db, ps: seq<ClaimParams>): Db
    decreases |ps|
  {
    if ps == [] then cur else Effects(Effect(cur, snap, ps[0]), snap, ps[1..])
  }

  /** Each session finds the rows of the earlier ones locked; the first may find none. */
  ghost predicate LaterSkipEarlier(db: Db, ps: seq<ClaimParams>) {
    forall i, j | 0 <= i < j < |ps| :: Locks(db, ps[i]) <= ps[j].skip
  }

  /** So far only rows that every remaining session skips have changed. */
  ghost predicate UnseenChanges(snap: Db, cur: Db, ps: seq<ClaimParams>) {
    forall i | 0 <= i < |ps| :: DiffersOnlyOn(snap, cur, ps[i].skip)
  }

  /** The first session commits what it chose over the snapshot, unseen by the others. */
  lemma FirstCommits(cur: Db, snap: Db, ps: seq<ClaimParams>)
    requires ps != [] && LaterSkipEarlier(snap, ps) && UnseenChanges(snap, cur, ps)
    ensures ClaimDb(cur, ps[0]) == Effect(cur, snap, ps[0]) && ClaimRecord(cur, ps[0]) == ClaimRecord(snap, ps[0])
    ensures LaterSkipEarlier(snap, ps[1..]) && UnseenChanges(snap, ClaimDb(cur, ps[0]), ps[1..])
  {
    assert Batch(cur, ps[0]) == Batch(snap, ps[0]) && Candidate(cur, ps[0]) == Candidate(snap, ps[0]) by {
      SameChoice(snap, cur, ps[0]);
    }
    SameChoiceSameRecord(snap, cur, ps[0]);
    var rest := ps[1..];
    forall i | 0 <= i < |rest| ensures DiffersOnlyOn(snap, ClaimDb(cur, ps[0]), rest[i].skip) {
      assert rest[i] == ps[i + 1];
      ClaimChangesOnlySkipped(cur, ps[0], rest[i].skip);
    }
  }

  lemma {:induction false} CommitsAreEffects(cur: Db, snap: Db, ps: seq<ClaimParams>)
    requires LaterSkipEarlier(snap, ps) && UnseenChanges(snap, cur, ps)
    ensures ClaimAll(cur, ps) == Effects(cur, snap, ps)
    decreases |ps|
  {
    if ps != [] {
      FirstCommits(cur, snap, ps);
      CommitsAreEffects(ClaimDb(cur, ps[0]), snap, ps[1..]);
    }
  }

  lemma {:induction false} CommitsReturn(cur: Db, snap: Db, ps: seq<ClaimParams>, i: nat)
    requires LaterSkipEarlier(snap, ps) && UnseenChanges(snap, cur, ps) && i < |ps|
    ensures |Returned(cur, ps)| == |ps| && Returned(cur, ps)[i] == ClaimRecord(snap, ps[i])
    decreases |ps|
  {
    FirstCommits(cur, snap, ps);
    var rest := Returned(ClaimDb(cur, ps[0]), ps[1..]);
    if |ps| > 1 {
      CommitsReturn(ClaimDb(cur, ps[0]), snap, ps[1..], if i > 0 then i - 1 else 0);
    }
    assert Returned(cur, ps) == [ClaimRecord(cur, ps[0])] + rest;
  }

  /** Sessions that each skip the rows of the earlier ones get, one after the other, what each gets over the
      common snapshot, and leave what they chose there. */
  lemma InterleavingIsSequential(db: Db, ps: seq<ClaimParams>)
    requires LaterSkipEarlier(db, ps)
    ensures |Returned(db, ps)| == |ps| && forall i | 0 <= i < |ps| :: Returned(db, ps)[i] == ClaimRecord(db, ps[i])
    ensures ClaimAll(db, ps) == Effects(db, db, ps)
    ensures AllDisjoint(db, ps)
  {
    CommitsAreEffects(db, db, ps);
    forall i | 0 <= i < |ps| { CommitsReturn(db, db, ps, i); }
    forall i, j | 0 <= i < j < |ps| ensures Locks(db, ps[i]) !! Locks(db, ps[j]) {
      SkippedIsDisjoint(db, ps[i], ps[j]);
    }
  }

  /** Over one snapshot, no two sessions lock a common row. */
  ghost predicate AllDisjoint(db: Db, ps: seq<ClaimParams>) {
    forall i, j | 0 <= i < j < |ps| :: Locks(db, ps[i]) !! Locks(db, ps[j])
  }

  ghost function HeldBefore(db: Db, ps: seq<ClaimParams>, n: nat): set<DeliveryId>
    requires n <= |ps|
  {
    set i, id | 0 <= i < n && id in Locks(db, ps[i]) :: id
  }

  /** The sessions in this commit order, each skipping what the earlier ones held locked. */
  ghost function Ordered(db: Db, ps: seq<ClaimParams>): (r: seq<ClaimParams>)
    ensures |r| == |ps|
  {
    seq(|ps|, i requires 0 <= i < |ps| => Skipping(ps[i], HeldBefore(db, ps, i)))
  }

  lemma OrderedSameClaim(db: Db, ps: seq<ClaimParams>, i: nat)
    requires AllDisjoint(db, ps) && i < |ps|
    ensures HeldBefore(db, ps, i) !! Locks(db, ps[i])
    ensures var r := Ordered(db, ps); Locks(db, r[i]) == Locks(db, ps[i]) && ClaimRecord(db, r[i]) == ClaimRecord(db, ps[i])
    ensures forall cur :: Effect(cur, db, Ordered(db, ps)[i]) == Effect(cur, db, ps[i])
  {
    var held := HeldBefore(db, ps, i);
    SkippingMoreIsFree(db, ps[i], held);
    SkippingMoreSameChoice(db, ps[i], held);
    forall cur { ApplyIgnoresSkip(cur, ps[i], held, Batch(db, ps[i]), Candidate(db, ps[i])); }
  }

  lemma {:induction false} SameEffects(cur: Db, snap: Db, ps: seq<ClaimParams>, qs: seq<ClaimParams>)
    requires |ps| == |qs|
    requires forall i, any | 0 <= i < |ps| :: Effect(any, snap, qs[i]) == Effect(any, snap, ps[i])
    ensures Effects(cur, snap, qs) == Effects(cur, snap, ps)
    decreases |ps|
  {
    if ps != [] {
      assert Effect(cur, snap, qs[0]) == Effect(cur, snap, ps[0]);
      SameEffects(Effect(cur, snap, ps[0]), snap, ps[1..], qs[1..]);
    }
  }

  /** Sessions that share no row may commit in any order: with each skipping what the earlier ones held locked, all
      get what they get over the common snapshot and leave what they chose there. */
  lemma DisjointSessionsSerialise(db: Db, ps: seq<ClaimParams>)
    requires AllDisjoint(db, ps)
    ensures var r := Ordered(db, ps);
      && |Returned(db, r)| == |ps| && (forall i | 0 <= i < |ps| :: Returned(db, r)[i] == ClaimRecord(db, ps[i]))
      && ClaimAll(db, r) == Effects(db, db, ps)
  {
    var r := Ordered(db, ps);
    forall i | 0 <= i < |ps|
      ensures Locks(db, r[i]) == Locks(db, ps[i]) && ClaimRecord(db, r[i]) == ClaimRecord(db, ps[i])
      ensures forall any :: Effect(any, db, r[i]) == Effect(any, db, ps[i])
    {
      OrderedSameClaim(db, ps, i);
    }
    InterleavingIsSequential(db, r);
    SameEffects(db, db, ps, r);
  }

  // ---- Any commit order ----

  function Without(ps: seq<ClaimParams>, k: nat): seq<ClaimParams>
    requires k < |ps|
  {
    ps[..k] + ps[k + 1..]
  }

  lemma EffectsCommute(cur: Db, snap: Db, p: ClaimParams, q: ClaimParams)
    requires Locks(snap, p) !! Locks(snap, q)
    ensures Effect(Effect(cur, snap, p), snap, q) == Effect(Effect(cur, snap, q), snap, p)
  {
    DisjointAppliesCommute(cur, p, Batch(snap, p), Candidate(snap, p), q, Batch(snap, q), Candidate(snap, q));
  }

  /** The k-th session may commit first. */
  lemma {:induction false} CommitEarlier(cur: Db, snap: Db, ps: seq<ClaimParams>, k: nat)
    requires AllDisjoint(snap, ps) && k < |ps|
    ensures Effects(cur, snap, ps) == Effects(Effect(cur, snap, ps[k]), snap, Without(ps, k))
    decreases k
  {
    if k == 0 {
      assert Without(ps, 0) == ps[1..];
    } else {
      var p, q := ps[0], ps[k];
      CommitEarlier(Effect(cur, snap, p), snap, ps[1..], k - 1);
      EffectsCommute(cur, snap, p, q);
      assert Without(ps, k)[0] == p && Without(ps, k)[1..] == Without(ps[1..], k - 1);
    }
  }

  lemma WithoutMultiset(ps: seq<ClaimParams>, k: nat)
    requires k < |ps|
    ensures multiset(Without(ps, k)) == multiset(ps) - multiset{ps[k]}
  {
    assert ps == ps[..k] + [ps[k]] + ps[k + 1..];
  }

  /** A position of the first of qs in ps, and what is left of both. */
  lemma MatchFirst(ps: seq<ClaimParams>, qs: seq<ClaimParams>) returns (k: nat)
    requires multiset(ps) == multiset(qs) && qs != []
    ensures k < |ps| && ps[k] == qs[0] && multiset(Without(ps, k)) == multiset(qs[1..])
  {
    assert qs[0] in multiset(ps);
    k :| 0 <= k < |ps| && ps[k] == qs[0];
    WithoutMultiset(ps, k);
    WithoutMultiset(qs, 0);
    assert Without(qs, 0) == qs[1..];
  }

  lemma WithoutStaysDisjoint(db: Db, ps: seq<ClaimParams>, k: nat)
    requires AllDisjoint(db, ps) && k < |ps|
    ensures AllDisjoint(db, Without(ps, k))
  {
    var rest := Without(ps, k);
    forall i, j | 0 <= i < j < |rest| ensures Locks(db, rest[i]) !! Locks(db, rest[j]) {
      var a, b := if i < k then i else i + 1, if j < k then j else j + 1;
      assert rest[i] == ps[a] && rest[j] == ps[b];
    }
  }

  lemma {:induction false} EffectsInAnyOrder(cur: Db, snap: Db, ps: seq<ClaimParams>, qs: seq<ClaimParams>)
    requires AllDisjoint(snap, ps) && multiset(ps) == multiset(qs)
    ensures Effects(cur, snap, qs) == Effects(cur, snap, ps)
    decreases |qs|
  {
    if qs == [] {
      assert |multiset(ps)| == 0;
    } else {
      var k := MatchFirst(ps, qs);
      CommitEarlier(cur, snap, ps, k);
      WithoutStaysDisjoint(snap, ps, k);
      EffectsInAnyOrder(Effect(cur, snap, qs[0]), snap, Without(ps, k), qs[1..]);
    }
  }

  ghost predicate Pairwise(r: (ClaimParams, ClaimParams) -> bool, ps: seq<ClaimParams>) {
    forall i, j | 0 <= i < |ps| && 0 <= j < |ps| && i != j :: r(ps[i], ps[j])
  }

  lemma {:induction false} PairwiseInAnyOrder(r: (ClaimParams, ClaimParams) -> bool, ps: seq<ClaimParams>,
    qs: seq<ClaimParams>)
    requires Pairwise(r, ps) && multiset(ps) == multiset(qs)
    ensures Pairwise(r, qs)
    decreases |qs|
  {
    if qs != [] {
      var k := MatchFirst(ps, qs);
      PairwiseInAnyOrder(r, Without(ps, k), qs[1..]);
      forall j | 0 < j < |qs| ensures r(qs[0], qs[j]) && r(qs[j], qs[0]) {
        assert qs[1..][j - 1] in multiset(Without(ps, k));
        var m :| 0 <= m < |ps| && m != k && ps[m] == qs[j];
      }
    }
  }

  lemma DisjointInAnyOrder(db: Db, ps: seq<ClaimParams>, qs: seq<ClaimParams>)
    requires AllDisjoint(db, ps) && multiset(ps) == multiset(qs)
    ensures AllDisjoint(db, qs)
  {
    PairwiseInAnyOrder((p, q) => Locks(db, p) !! Locks(db, q), ps, qs);
  }

  /** Whatever the commit order of sessions that share no row, the same tables are left. */
  lemma AnyCommitOrder(db: Db, ps: seq<ClaimParams>, qs: seq<ClaimParams>)
    requires AllDisjoint(db, ps) && multiset(ps) == multiset(qs)
    ensures ClaimAll(db, Ordered(db, qs)) == ClaimAll(db, Ordered(db, ps))
  {
    DisjointInAnyOrder(db, ps, qs);
    DisjointSessionsSerialise(db, ps);
    DisjointSessionsSerialise(db, qs);
    EffectsInAnyOrder(db, db, ps, qs);
  }

  /** Every session skips what every other one locks. */
  ghost predicate AllOverlapping(db: Db, ps: seq<ClaimParams>) {
    forall i, j | 0 <= i < |ps| && 0 <= j < |ps| && i != j :: Locks(db, ps[i]) <= ps[j].skip
  }

  /** Such sessions need no other skip sets to trade places. */
  lemma AnyOrderSameTables(db: Db, ps: seq<ClaimParams>, qs: seq<ClaimParams>)
    requires AllOverlapping(db, ps) && multiset(ps) == multiset(qs)
    ensures ClaimAll(db, qs) == ClaimAll(db, ps)
  {
    PairwiseInAnyOrder((p: ClaimParams, q: ClaimParams) => Locks(db, p) <= q.skip, ps, qs);
    InterleavingIsSequential(db, ps);
    InterleavingIsSequential(db, qs);
    EffectsInAnyOrder(db, db, ps, qs);
  }
}
