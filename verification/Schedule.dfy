/** Backoff over runs: attempts of a failing cycle are spaced by the summed delays. */
module Schedule {
  import opened Types
  import opened Claim
  import opened Transactions
  import opened Backoff
  import opened Dispatch
  import opened Ledger
  import opened Protocol
  import opened Fencing
  import opened Agreement

  predicate IsRetry(e: Event) {
    e.Recorded? && e.decision.status == RetryScheduled
  }

  /** The delay an event schedules. */
  function DelayOf(e: Event): Micros
    requires e.Recorded?
  {
    RetryDelaySeconds(e.key.attempt, e.config.retryBaseSeconds, e.config.retryMaxSeconds) * SECOND
  }

  predicate NextAttempt(k: AttemptKey, n: AttemptKey) {
    n == AttemptKey(k.id, k.replayCount, k.attempt + 1)
  }

  ghost predicate GrantedBy(log: seq<Event>, k: AttemptKey, t: Micros) {
    exists j :: 0 <= j < |log| && log[j].Granted? && log[j].key == k && log[j].at <= t
  }

  /** No attempt is granted before the time its predecessor's retry was scheduled for. */
  ghost predicate GrantsWait(log: seq<Event>) {
    forall i, j | 0 <= i < |log| && 0 <= j < |log| ::
      IsRetry(log[i]) && log[j].Granted? && NextAttempt(log[i].key, log[j].key) ==>
        log[i].decision.next.Some? && log[i].decision.next.value <= log[j].at
  }

  predicate RetryFits(e: Event) {
    IsRetry(e) ==> ValidConfig(e.config) && e.decision.next == Some(e.appNow + DelayOf(e))
  }

  /** Workers run a validated configuration and remember when they were granted their token. */
  ghost predicate WorkersScheduled(s: Sys) {
    forall w | w in s.workers ::
      ValidConfig(s.workers[w].config) && GrantedBy(s.log, RecordKey(s.workers[w].record), s.workers[w].claimedAt)
  }

  ghost predicate RecordsScheduled(log: seq<Event>) {
    forall i | 0 <= i < |log| ::
      RetryFits(log[i]) && (log[i].Recorded? ==> GrantedBy(log, log[i].key, log[i].appNow))
  }

  ghost predicate ScheduleInv(s: Sys) {
    GrantsWait(s.log) && WorkersScheduled(s) && RecordsScheduled(s.log)
  }

  lemma GrantedByStays(log: seq<Event>, longer: seq<Event>, k: AttemptKey, t: Micros, u: Micros)
    requires GrantedBy(log, k, t) && t <= u && log <= longer
    ensures GrantedBy(longer, k, u)
  {
    var j :| 0 <= j < |log| && log[j].Granted? && log[j].key == k && log[j].at <= t;
    assert longer[j] == log[j];
  }

  lemma WorkersStayScheduled(s: Sys, t: Sys)
    requires WorkersScheduled(s) && s.log <= t.log
    requires forall w | w in t.workers :: w in s.workers && t.workers[w].record == s.workers[w].record
               && t.workers[w].config == s.workers[w].config && t.workers[w].claimedAt == s.workers[w].claimedAt
    ensures WorkersScheduled(t)
  {
    forall w | w in t.workers ensures GrantedBy(t.log, RecordKey(t.workers[w].record), t.workers[w].claimedAt) {
      GrantedByStays(s.log, t.log, RecordKey(s.workers[w].record), s.workers[w].claimedAt, s.workers[w].claimedAt);
    }
  }

  lemma AppendedRecordsScheduled(log: seq<Event>, e: Event)
    requires RecordsScheduled(log) && RetryFits(e) && (e.Recorded? ==> GrantedBy(log, e.key, e.appNow))
    ensures RecordsScheduled(log + [e])
  {
    forall i | 0 <= i < |log + [e]|
      ensures RetryFits((log + [e])[i])
      ensures (log + [e])[i].Recorded? ==> GrantedBy(log + [e], (log + [e])[i].key, (log + [e])[i].appNow)
    {
      var f := (log + [e])[i];
      if f.Recorded? { GrantedByStays(log, log + [e], f.key, f.appNow, f.appNow); }
    }
  }

  /** A new grant waits for the retry its row recorded. */
  lemma NewGrantWaits(s: Sys, p: ClaimParams, i: nat)
    requires SysInv(s) && RecordsInv(s) && ClaimRecord(s.db, p).Some? && i < |s.log| && IsRetry(s.log[i])
    requires NextAttempt(s.log[i].key, RecordKey(ClaimRecord(s.db, p).value))
    ensures s.log[i].decision.next.Some? && s.log[i].decision.next.value <= p.now
  {
    CandidateFacts(s.db, p);
    assert RecordFits(s.db, s.log[i]);
  }

  /** A worker records before its row's next attempt is granted. */
  lemma RecordPrecedesNextGrant(s: Sys, w: WorkerId, appNow: Micros, now: Micros, j: nat)
    requires SysInv(s) && GrantsInv(s) && w in s.workers && CauseOf(s.workers[w]).Some?
    requires RecordAttempt(s.db, s.workers[w], appNow, now).Ok?
    requires j < |s.log| && s.log[j].Granted?
    ensures !NextAttempt(RecordKey(s.workers[w].record), s.log[j].key)
  {
    DecisionIsRecordable(s, w, appNow, now);
    assert GrantFits(s.db, s.log[j].key);
  }

  lemma AppendedGrantWaits(log: seq<Event>, e: Event)
    requires GrantsWait(log) && e.Granted?
    requires forall i | 0 <= i < |log| :: IsRetry(log[i]) && NextAttempt(log[i].key, e.key) ==>
      log[i].decision.next.Some? && log[i].decision.next.value <= e.at
    ensures GrantsWait(log + [e])
  {
  }

  lemma JoinedWorkersScheduled(s: Sys, t: Sys, w: WorkerId, worker: Worker)
    requires WorkersScheduled(s) && t.workers == s.workers[w := worker] && ValidConfig(worker.config)
    requires t.log == s.log + [Granted(RecordKey(worker.record), worker.claimedAt)]
    ensures WorkersScheduled(t)
  {
    assert t.log[|s.log|].Granted?;
    forall v | v in t.workers ensures GrantedBy(t.log, RecordKey(t.workers[v].record), t.workers[v].claimedAt) {
      if v != w {
        GrantedByStays(s.log, t.log, RecordKey(s.workers[v].record), s.workers[v].claimedAt, s.workers[v].claimedAt);
      }
    }
  }

  lemma ClaimKeepsSchedule(s: Sys, w: WorkerId, c: Config, p: ClaimParams)
    requires SysInv(s) && RecordsInv(s) && ScheduleInv(s) && w !in s.workers && ValidConfig(c)
    ensures ScheduleInv(DoClaim(s, w, c, p))
  {
    if ClaimRecord(s.db, p).Some? {
      var e := Granted(RecordKey(ClaimRecord(s.db, p).value), p.now);
      forall i | 0 <= i < |s.log| && IsRetry(s.log[i]) && NextAttempt(s.log[i].key, e.key)
        ensures s.log[i].decision.next.Some? && s.log[i].decision.next.value <= p.now
      {
        NewGrantWaits(s, p, i);
      }
      AppendedGrantWaits(s.log, e);
      AppendedRecordsScheduled(s.log, e);
      JoinedWorkersScheduled(s, DoClaim(s, w, c, p), w, Worker(ClaimRecord(s.db, p).value, c, p.now, Holding));
    }
  }

  lemma DecisionFollowsBackoff(r: DeliveryRecord, c: Config, cause: Cause, appNow: Micros)
    ensures var d := Decide(r, c, cause, appNow);
      d.status == RetryScheduled ==>
        d.next == Some(appNow + RetryDelaySeconds(r.attempts, c.retryBaseSeconds, c.retryMaxSeconds) * SECOND)
  {
  }

  lemma RecordedEvent(s: Sys, w: WorkerId, appNow: Micros, now: Micros)
    requires w in s.workers && CauseOf(s.workers[w]).Some? && RecordAttempt(s.db, s.workers[w], appNow, now).Ok?
    ensures var log := DoRecord(s, w, appNow, now).log;
      && |log| == |s.log| + 1 && log == s.log + [log[|s.log|]] && log[|s.log|].Recorded?
      && log[|s.log|].key == RecordKey(s.workers[w].record) && log[|s.log|].config == s.workers[w].config
      && log[|s.log|].decision == DecisionOf(s.workers[w], appNow) && log[|s.log|].appNow == appNow
  {
  }

  /** The event a worker logs follows the configured backoff and its own grant. */
  lemma NewRetryFits(s: Sys, w: WorkerId, appNow: Micros, now: Micros)
    requires WorkersScheduled(s) && w in s.workers && CauseOf(s.workers[w]).Some?
    requires s.workers[w].claimedAt <= appNow
    requires RecordAttempt(s.db, s.workers[w], appNow, now).Ok?
    ensures var e := DoRecord(s, w, appNow, now).log[|s.log|];
      e.Recorded? && e.key == RecordKey(s.workers[w].record) && RetryFits(e) && GrantedBy(s.log, e.key, e.appNow)
  {
    var worker := s.workers[w];
    RecordedEvent(s, w, appNow, now);
    DecisionFollowsBackoff(worker.record, worker.config, CauseOf(worker).value, appNow);
    GrantedByStays(s.log, s.log, RecordKey(worker.record), worker.claimedAt, appNow);
  }

  lemma AppendedGrantsWait(log: seq<Event>, e: Event)
    requires GrantsWait(log) && !e.Granted?
    requires e.Recorded? ==> forall j | 0 <= j < |log| :: log[j].Granted? ==> !NextAttempt(e.key, log[j].key)
    ensures GrantsWait(log + [e])
  {
  }

  lemma RecordKeepsSchedule(s: Sys, w: WorkerId, appNow: Micros, now: Micros)
    requires SysInv(s) && GrantsInv(s) && ScheduleInv(s) && w in s.workers && CauseOf(s.workers[w]).Some?
    requires s.workers[w].claimedAt <= appNow
    ensures ScheduleInv(DoRecord(s, w, appNow, now))
  {
    var t := DoRecord(s, w, appNow, now);
    WorkersStayScheduled(s, t);
    if RecordAttempt(s.db, s.workers[w], appNow, now).Ok? {
      RecordedEvent(s, w, appNow, now);
      NewRetryFits(s, w, appNow, now);
      var e := t.log[|s.log|];
      forall j | 0 <= j < |s.log| && s.log[j].Granted? ensures !NextAttempt(e.key, s.log[j].key) {
        RecordPrecedesNextGrant(s, w, appNow, now, j);
      }
      AppendedGrantsWait(s.log, e);
      AppendedRecordsScheduled(s.log, e);
    }
  }

  lemma OthersLogNothingScheduled(sha256: Sha256, s: Sys, step: Step)
    requires Enabled(s, step) && !step.ClaimStep? && !step.RecordStep?
    ensures var t := Do(sha256, s, step);
      && (t.log == s.log || (|t.log| == |s.log| + 1 && t.log == s.log + [t.log[|s.log|]]
            && !t.log[|s.log|].Recorded? && !t.log[|s.log|].Granted?))
      && (forall w | w in t.workers :: w in s.workers && t.workers[w].record == s.workers[w].record
            && t.workers[w].config == s.workers[w].config && t.workers[w].claimedAt == s.workers[w].claimedAt)
  {
  }

  lemma OthersKeepSchedule(sha256: Sha256, s: Sys, step: Step)
    requires ScheduleInv(s) && Enabled(s, step) && !step.ClaimStep? && !step.RecordStep?
    ensures ScheduleInv(Do(sha256, s, step))
  {
    var t := Do(sha256, s, step);
    OthersLogNothingScheduled(sha256, s, step);
    WorkersStayScheduled(s, t);
    if t.log != s.log {
      AppendedRecordsScheduled(s.log, t.log[|s.log|]);
      AppendedGrantsWait(s.log, t.log[|s.log|]);
    }
  }

  lemma {:induction false} ScheduleInvHolds(sha256: Sha256, steps: seq<Step>)
    requires IsRun(sha256, Monotone, steps)
    ensures ScheduleInv(EndOf(sha256, Monotone, steps))
    decreases |steps|
  {
    if steps != [] {
      var before := steps[..|steps| - 1];
      var s := EndOf(sha256, Monotone, before);
      var step := steps[|steps| - 1];
      ScheduleInvHolds(sha256, before);
      SysInvHolds(sha256, Monotone, before);
      GrantsInvHolds(sha256, Monotone, before);
      RecordsInvHolds(sha256, Monotone, before);
      if step.ClaimStep? {
        ClaimKeepsSchedule(s, step.w, step.config, ParamsOf(step.config, step.skip, step.now));
      } else if step.RecordStep? {
        RecordKeepsSchedule(s, step.w, step.appNow, step.now);
      } else {
        OthersKeepSchedule(sha256, s, step);
      }
    }
  }

  // ---- Main result ----

  /** Events recs[0], recs[1], ... scheduled retries after attempts 1, 2, ... of one cycle. */
  ghost predicate RetryChain(log: seq<Event>, id: DeliveryId, replay: int, recs: seq<nat>) {
    forall i | 0 <= i < |recs| :: recs[i] < |log| && IsRetry(log[recs[i]]) && log[recs[i]].key == AttemptKey(id, replay, i + 1)
  }

  ghost function DelaySum(log: seq<Event>, recs: seq<nat>): Micros
    requires forall i | 0 <= i < |recs| :: recs[i] < |log| && log[recs[i]].Recorded?
    decreases |recs|
  {
    if recs == [] then 0
    else DelaySum(log, recs[..|recs| - 1]) + DelayOf(log[recs[|recs| - 1]])
  }

  /** Attempt n + 1 is never granted before the delays after attempts 1..n have all passed since the first scheduling. */
  lemma {:induction false} ChainWaitsInLog(log: seq<Event>, id: DeliveryId, replay: int, recs: seq<nat>, g: nat)
    requires GrantsWait(log) && RecordsScheduled(log)
    requires recs != [] && RetryChain(log, id, replay, recs)
    requires g < |log| && log[g].Granted? && log[g].key == AttemptKey(id, replay, |recs| + 1)
    ensures log[g].at >= log[recs[0]].appNow + DelaySum(log, recs)
    decreases |recs|
  {
    var n := |recs|;
    var last := log[recs[n - 1]];
    assert NextAttempt(last.key, log[g].key);
    assert RetryFits(last);
    if n == 1 {
      assert DelaySum(log, recs[..0]) == 0;
    } else {
      assert GrantedBy(log, last.key, last.appNow);
      var j :| 0 <= j < |log| && log[j].Granted? && log[j].key == last.key && log[j].at <= last.appNow;
      ChainWaitsInLog(log, id, replay, recs[..n - 1], j);
    }
  }

  lemma RetriesAreSpaced(sha256: Sha256, steps: seq<Step>, id: DeliveryId, replay: int, recs: seq<nat>, g: nat)
    requires IsRun(sha256, Monotone, steps)
    requires var log := EndOf(sha256, Monotone, steps).log;
      && recs != [] && RetryChain(log, id, replay, recs)
      && g < |log| && log[g].Granted? && log[g].key == AttemptKey(id, replay, |recs| + 1)
    ensures var log := EndOf(sha256, Monotone, steps).log;
      log[g].at >= log[recs[0]].appNow + DelaySum(log, recs)
  {
    ScheduleInvHolds(sha256, steps);
    ChainWaitsInLog(EndOf(sha256, Monotone, steps).log, id, replay, recs, g);
  }

  /** Σ min(base * 2^(i-1), max) for i = 1..n, in seconds. */
  function BoundedExponentialSum(baseSeconds: int, maxSeconds: int, n: nat): int {
    if n == 0 then 0
    else BoundedExponentialSum(baseSeconds, maxSeconds, n - 1) + Order.Min(baseSeconds * Pow2(n - 1), maxSeconds)
  }

  lemma {:induction false} DelaySumIsBoundedExponential(log: seq<Event>, id: DeliveryId, replay: int,
    recs: seq<nat>, baseSeconds: int, maxSeconds: int)
    requires RetryChain(log, id, replay, recs) && ValidRetry(baseSeconds, maxSeconds) && |recs| < I64_MAX
    requires forall i | 0 <= i < |recs| ::
      log[recs[i]].config.retryBaseSeconds == baseSeconds && log[recs[i]].config.retryMaxSeconds == maxSeconds
    ensures DelaySum(log, recs) == BoundedExponentialSum(baseSeconds, maxSeconds, |recs|) * SECOND
    decreases |recs|
  {
    if recs != [] {
      DelaySumIsBoundedExponential(log, id, replay, recs[..|recs| - 1], baseSeconds, maxSeconds);
      RetryDelayIsExact(|recs|, baseSeconds, maxSeconds);
    }
  }
}
