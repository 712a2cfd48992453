/** What a run never undoes, and how replays are numbered. */
module History {
  import opened Types
  import opened Claim
  import opened Transactions
  import opened Dispatch
  import opened Ledger
  import opened Protocol
  import opened Fencing

  /** `e` is a later state of row `d`. */
  predicate Later(d: Delivery, e: Delivery) {
    && e.content == d.content && e.maxAttempts == d.maxAttempts && e.createdAt == d.createdAt
    && (d.replayCount < e.replayCount || (d.replayCount == e.replayCount && d.attempts <= e.attempts))
    && (d.status == Delivered ==> e == d)
    && (d.status == DeadLetter && e != d ==> d.replayCount < e.replayCount)
  }

  ghost predicate LaterDb(a: Db, b: Db) {
    && (forall id | id in a.deliveries :: id in b.deliveries && Later(a.deliveries[id], b.deliveries[id]))
    && (forall k | k in a.receipts :: k in b.receipts && b.receipts[k] == a.receipts[k])
  }

  lemma MovesAreLater(a: Db, b: Db)
    requires DbMoves(a, b)
    ensures LaterDb(a, b)
  {
    forall id | id in a.deliveries ensures Later(a.deliveries[id], b.deliveries[id]) {
      assert RowMoves(a.deliveries[id], b.deliveries[id]);
    }
  }

  lemma LaterTransitive(a: Db, b: Db, c: Db)
    requires LaterDb(a, b) && LaterDb(b, c)
    ensures LaterDb(a, c)
  {
    forall id | id in a.deliveries ensures id in c.deliveries && Later(a.deliveries[id], c.deliveries[id]) {
      assert Later(a.deliveries[id], b.deliveries[id]) && Later(b.deliveries[id], c.deliveries[id]);
    }
  }

  /** Between any two moments of a run: delivered rows stay as they are, dead letters leave only into a later
      replay cycle, and every receipt survives unchanged. */
  lemma {:induction false} HistoryIsKept(sha256: Sha256, clocks: Clocks, steps: seq<Step>, n: nat)
    requires IsRun(sha256, clocks, steps) && n <= |steps|
    ensures IsRun(sha256, clocks, steps[..n])
    ensures LaterDb(EndOf(sha256, clocks, steps[..n]).db, EndOf(sha256, clocks, steps).db)
    decreases |steps|
  {
    PrefixIsLegal(sha256, clocks, Init(), steps, n);
    if n < |steps| {
      var before := steps[..|steps| - 1];
      assert before[..n] == steps[..n];
      HistoryIsKept(sha256, clocks, before, n);
      SysInvHolds(sha256, clocks, before);
      var s := EndOf(sha256, clocks, before);
      StepMovesDb(sha256, s, steps[|steps| - 1]);
      MovesAreLater(s.db, EndOf(sha256, clocks, steps).db);
      LaterTransitive(EndOf(sha256, clocks, steps[..n]).db, s.db, EndOf(sha256, clocks, steps).db);
    } else {
      assert steps[..n] == steps;
    }
  }

  // ---- Replay numbers ----

  /** The counts returned by the successful replays of one delivery, in order. */
  function ReplayCounts(log: seq<Event>, id: DeliveryId): seq<int> {
    if log == [] then []
    else
      var e := log[|log| - 1];
      ReplayCounts(log[..|log| - 1], id) + if e.Replayed? && e.id == id then [e.count] else []
  }

  predicate CountsUp(counts: seq<int>) {
    forall i | 0 <= i < |counts| :: counts[i] == i + 1
  }

  predicate ReplaysFit(s: Sys, id: DeliveryId) {
    && CountsUp(ReplayCounts(s.log, id))
    && |ReplayCounts(s.log, id)| == if id in s.db.deliveries then s.db.deliveries[id].replayCount else 0
  }

  lemma AppendedReplayCounts(log: seq<Event>, e: Event, id: DeliveryId)
    ensures ReplayCounts(log + [e], id) == ReplayCounts(log, id) + if e.Replayed? && e.id == id then [e.count] else []
  {
    assert (log + [e])[..|log|] == log;
  }

  lemma ApplyKeepsReplayCount(db: Db, p: ClaimParams, batch: set<DeliveryId>, c: Option<DeliveryId>, id: DeliveryId)
    ensures id in ApplyClaim(db, p, batch, c).deliveries <==> id in db.deliveries
    ensures id in db.deliveries ==> ApplyClaim(db, p, batch, c).deliveries[id].replayCount == db.deliveries[id].replayCount
  {
  }

  /** Every step but a replay leaves replay counts alone; new rows start at zero. */
  lemma OtherStepsKeepReplayCounts(sha256: Sha256, s: Sys, step: Step, id: DeliveryId)
    requires Enabled(s, step) && !step.ReplayStep?
    ensures var t := Do(sha256, s, step);
      && (id in s.db.deliveries ==>
            id in t.db.deliveries && t.db.deliveries[id].replayCount == s.db.deliveries[id].replayCount)
      && (id !in s.db.deliveries && id in t.db.deliveries ==> t.db.deliveries[id].replayCount == 0)
      && (t.log == s.log || (|t.log| == |s.log| + 1 && t.log == s.log + [t.log[|s.log|]] && !t.log[|s.log|].Replayed?))
  {
    if step.ClaimStep? {
      var p := ParamsOf(step.config, step.skip, step.now);
      ApplyKeepsReplayCount(s.db, p, Batch(s.db, p), Candidate(s.db, p), id);
    }
  }

  lemma ReplaysFitStep(sha256: Sha256, s: Sys, step: Step, id: DeliveryId)
    requires ReplaysFit(s, id) && Enabled(s, step)
    ensures ReplaysFit(Do(sha256, s, step), id)
  {
    var t := Do(sha256, s, step);
    if step.ReplayStep? {
      if CanReplay(s.db, step.id) {
        AppendedReplayCounts(s.log, Replayed(step.id, s.db.deliveries[step.id].replayCount + 1), id);
      }
    } else {
      OtherStepsKeepReplayCounts(sha256, s, step, id);
      if t.log != s.log { AppendedReplayCounts(s.log, t.log[|s.log|], id); }
    }
  }

  /** The successful replays of a delivery return 1, 2, 3, ... whoever calls them, and the row counts them. */
  lemma {:induction false} ReplaysAreNumbered(sha256: Sha256, clocks: Clocks, steps: seq<Step>, id: DeliveryId)
    requires IsRun(sha256, clocks, steps)
    ensures var s := EndOf(sha256, clocks, steps);
      var counts := ReplayCounts(s.log, id);
      && (forall i | 0 <= i < |counts| :: counts[i] == i + 1)
      && |counts| <= MAX_REPLAYS
      && |counts| == (if id in s.db.deliveries then s.db.deliveries[id].replayCount else 0)
    decreases |steps|
  {
    ReplaysFitHolds(sha256, clocks, steps, id);
    SysInvHolds(sha256, clocks, steps);
    var s := EndOf(sha256, clocks, steps);
    if id in s.db.deliveries { assert DeliveryCheck(s.db.deliveries[id]); }
  }

  lemma {:induction false} ReplaysFitHolds(sha256: Sha256, clocks: Clocks, steps: seq<Step>, id: DeliveryId)
    requires IsRun(sha256, clocks, steps)
    ensures ReplaysFit(EndOf(sha256, clocks, steps), id)
    decreases |steps|
  {
    if steps != [] {
      var before := steps[..|steps| - 1];
      ReplaysFitHolds(sha256, clocks, before, id);
      ReplaysFitStep(sha256, EndOf(sha256, clocks, before), steps[|steps| - 1], id);
    }
  }

  lemma {:induction false} CountedIffLogged(log: seq<Event>, id: DeliveryId, count: int)
    ensures count in ReplayCounts(log, id) <==> Replayed(id, count) in log
    decreases |log|
  {
    if log != [] {
      var before, e := log[..|log| - 1], log[|log| - 1];
      CountedIffLogged(before, id, count);
      assert log == before + [e];
    }
  }

  /** A replay past the row's count is not in the log; every one up to it is. */
  lemma LoggedUpToCount(s: Sys, id: DeliveryId, count: int)
    requires ReplaysFit(s, id) && id in s.db.deliveries
    ensures Replayed(id, count) in s.log <==> 1 <= count <= s.db.deliveries[id].replayCount
  {
    var counts := ReplayCounts(s.log, id);
    CountedIffLogged(s.log, id, count);
    if 1 <= count <= |counts| { assert counts[count - 1] == count; }
  }

  /** A caller that found a dead letter commits its replay later: the row is as it was exactly when nobody replayed
      it since, and only then does the commit return the count the caller expects. Of several callers that found the
      same dead letter, at most one gets it. */
  lemma RacedReplay(sha256: Sha256, clocks: Clocks, steps: seq<Step>, n: nat, id: DeliveryId)
    requires IsRun(sha256, clocks, steps) && n <= |steps| && IsRun(sha256, clocks, steps[..n])
    requires var found := EndOf(sha256, clocks, steps[..n]).db;
      id in found.deliveries && found.deliveries[id].status == DeadLetter
    ensures var found, s := EndOf(sha256, clocks, steps[..n]).db.deliveries[id], EndOf(sha256, clocks, steps);
      var unraced := Replayed(id, found.replayCount + 1) !in s.log;
      var commits := CanReplay(s.db, id) && s.db.deliveries[id].replayCount == found.replayCount;
      && id in s.db.deliveries
      && (s.db.deliveries[id] == found <==> unraced)
      && (commits <==> unraced && found.replayCount < MAX_REPLAYS)
  {
    HistoryIsKept(sha256, clocks, steps, n);
    ReplaysFitHolds(sha256, clocks, steps, id);
    SysInvHolds(sha256, clocks, steps[..n]);
    var found, s := EndOf(sha256, clocks, steps[..n]).db.deliveries[id], EndOf(sha256, clocks, steps);
    assert DeliveryCheck(found);
    assert Later(found, s.db.deliveries[id]);
    LoggedUpToCount(s, id, found.replayCount + 1);
  }

  /** A replay requeues exactly a dead letter: due at once, all attempts ahead of it, content and receipts untouched. */
  lemma ReplayRestartsDelivery(db: Db, id: DeliveryId, now: Micros, later: Micros)
    requires LedgerInv(db) && CanReplay(db, id) && now <= later
    ensures var after := ReplayedDb(db, id, now);
      var d, e := db.deliveries[id], after.deliveries[id];
      && IsDue(e, d.content.queue, later) && e.content == d.content && e.maxAttempts == d.maxAttempts
      && (forall t: Micros | t < now :: !IsDue(e, d.content.queue, t))
      && (forall a :: AttemptKey(id, e.replayCount, a) !in after.receipts)
      && after.receipts == db.receipts
      && (forall other | other in db.deliveries && other != id :: after.deliveries[other] == db.deliveries[other])
  {
    assert DeliveryCheck(db.deliveries[id]);
    assert RowLedger(db, id);
  }
}
