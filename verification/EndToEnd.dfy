/** From the enqueue to the receipt: what happened before an event of the log. */
module EndToEnd {
  import opened Types
  import opened Claim
  import opened Transactions
  import opened Dispatch
  import opened Ledger
  import opened Protocol
  import opened Fencing
  import opened Agreement
  import opened Idempotency
  import opened Sends

  /** Event i enqueued what event j posts: the same delivery, bytes and endpoint. */
  predicate IsSourceOf(log: seq<Event>, i: int, j: int) {
    && 0 <= i < j < |log| && log[i].Enqueued? && log[j].Posted?
    && log[i].id == log[j].key.id
    && log[j].body == log[i].content.payload && log[j].url == log[i].content.endpointUrl
  }

  /** Event i posted what event j records an answer for. */
  predicate IsPostOf(log: seq<Event>, i: int, j: int) {
    && 0 <= i < j < |log| && log[i].Posted? && log[j].Recorded? && log[j].cause.Answer?
    && log[i].key == log[j].key
  }

  ghost predicate Caused(log: seq<Event>, j: nat)
    requires j < |log|
  {
    && (log[j].Posted? ==> exists i :: IsSourceOf(log, i, j))
    && (log[j].Recorded? && log[j].cause.Answer? ==> exists i :: IsPostOf(log, i, j))
  }

  /** Nothing is posted that was not enqueued, and no answer is recorded, or held, without a POST. */
  ghost predicate CausesInv(s: Sys) {
    && (forall j | 0 <= j < |s.log| :: Caused(s.log, j))
    && (forall w | w in s.workers :: s.workers[w].phase != Holding ==> WasPosted(s.log, RecordKey(s.workers[w].record)))
  }

  lemma CausedStays(log: seq<Event>, longer: seq<Event>, j: nat)
    requires j < |log| && log <= longer && Caused(log, j)
    ensures Caused(longer, j)
  {
    if i :| IsSourceOf(log, i, j) { assert IsSourceOf(longer, i, j); }
    if i :| IsPostOf(log, i, j) { assert IsPostOf(longer, i, j); }
  }

  lemma WasPostedStays(log: seq<Event>, longer: seq<Event>, k: AttemptKey)
    requires WasPosted(log, k) && log <= longer
    ensures WasPosted(longer, k)
  {
    var i :| 0 <= i < |log| && log[i].Posted? && log[i].key == k;
    assert longer[i] == log[i];
  }

  /** A step that neither posts nor records an answer, and sends or answers no call. */
  ghost predicate Uneventful(s: Sys, t: Sys) {
    && s.log <= t.log
    && (forall j | |s.log| <= j < |t.log| :: !t.log[j].Posted? && !t.log[j].Recorded?)
    && (forall w | w in t.workers :: t.workers[w].phase != Holding ==>
          w in s.workers && s.workers[w].phase != Holding && s.workers[w].record == t.workers[w].record)
  }

  lemma OthersAreUneventful(sha256: Sha256, s: Sys, step: Step)
    requires Enabled(s, step) && !step.SendStep? && !step.RecordStep?
    ensures Uneventful(s, Do(sha256, s, step))
  {
  }

  lemma UneventfulKeepsCauses(s: Sys, t: Sys)
    requires CausesInv(s) && Uneventful(s, t)
    ensures CausesInv(t)
  {
    forall j | 0 <= j < |t.log| ensures Caused(t.log, j) {
      if j < |s.log| { CausedStays(s.log, t.log, j); }
    }
    forall w | w in t.workers && t.workers[w].phase != Holding ensures WasPosted(t.log, RecordKey(t.workers[w].record)) {
      WasPostedStays(s.log, t.log, RecordKey(s.workers[w].record));
    }
  }

  /** What a worker posts was enqueued: its row's content is in the log. */
  lemma PostHasSource(sha256: Sha256, s: Sys, t: Sys, w: WorkerId, e: Event)
    requires WritersInv(sha256, s) && Posts(s, t, w, e)
    ensures Caused(t.log, |s.log|)
  {
    assert WasEnqueued(s.log, e.key.id, s.db.deliveries[e.key.id].content);
    var i :| 0 <= i < |s.log| && s.log[i] == Enqueued(e.key.id, s.db.deliveries[e.key.id].content);
    assert IsSourceOf(t.log, i, |s.log|);
  }

  lemma PostKeepsCauses(sha256: Sha256, s: Sys, t: Sys, w: WorkerId, e: Event)
    requires CausesInv(s) && WritersInv(sha256, s) && Posts(s, t, w, e)
    ensures CausesInv(t)
  {
    PostHasSource(sha256, s, t, w, e);
    forall j | 0 <= j < |s.log| ensures Caused(t.log, j) {
      CausedStays(s.log, t.log, j);
    }
    PostedCallsStay(s, t, w, e);
  }

  lemma PostedCallsStay(s: Sys, t: Sys, w: WorkerId, e: Event)
    requires CausesInv(s) && Posts(s, t, w, e)
    ensures forall v | v in t.workers ::
              t.workers[v].phase != Holding ==> WasPosted(t.log, RecordKey(t.workers[v].record))
  {
    forall v | v in t.workers && t.workers[v].phase != Holding ensures WasPosted(t.log, RecordKey(t.workers[v].record)) {
      if v == w {
        assert t.log[|s.log|] == e;
      } else {
        WasPostedStays(s.log, t.log, RecordKey(s.workers[v].record));
      }
    }
  }

  /** `t` is `s` after worker w has ended its call, with or without a recorded outcome. */
  ghost predicate Ends(s: Sys, t: Sys, w: WorkerId) {
    && w in s.workers && t.workers == s.workers - {w} && s.log <= t.log && |t.log| <= |s.log| + 1
    && (|t.log| > |s.log| ==>
          var e := t.log[|s.log|];
          && e.Recorded? && e.key == RecordKey(s.workers[w].record)
          && (e.cause.Answer? ==> s.workers[w].phase != Holding))
  }

  lemma RecordEnds(sha256: Sha256, s: Sys, w: WorkerId, appNow: Micros, now: Micros)
    requires Enabled(s, RecordStep(w, appNow, now))
    ensures Ends(s, Do(sha256, s, RecordStep(w, appNow, now)), w)
  {
  }

  lemma EndKeepsCauses(s: Sys, t: Sys, w: WorkerId)
    requires CausesInv(s) && Ends(s, t, w)
    ensures CausesInv(t)
  {
    forall j | 0 <= j < |t.log| ensures Caused(t.log, j) {
      if j < |s.log| {
        CausedStays(s.log, t.log, j);
      } else if t.log[j].cause.Answer? {
        var i :| 0 <= i < |s.log| && s.log[i].Posted? && s.log[i].key == t.log[j].key;
        assert IsPostOf(t.log, i, j);
      }
    }
    forall v | v in t.workers && t.workers[v].phase != Holding ensures WasPosted(t.log, RecordKey(t.workers[v].record)) {
      WasPostedStays(s.log, t.log, RecordKey(s.workers[v].record));
    }
  }

  lemma CausesInvStep(sha256: Sha256, s: Sys, step: Step)
    requires SysInv(s) && WritersInv(sha256, s) && CausesInv(s) && Enabled(s, step)
    ensures CausesInv(Do(sha256, s, step))
  {
    var t := Do(sha256, s, step);
    if step.SendStep? {
      SendPosts(sha256, s, step.w);
      PostKeepsCauses(sha256, s, t, step.w, t.log[|s.log|]);
    } else if step.RecordStep? {
      RecordEnds(sha256, s, step.w, step.appNow, step.now);
      EndKeepsCauses(s, t, step.w);
    } else {
      OthersAreUneventful(sha256, s, step);
      UneventfulKeepsCauses(s, t);
    }
  }

  lemma {:induction false} CausesInvHolds(sha256: Sha256, clocks: Clocks, steps: seq<Step>)
    requires IsRun(sha256, clocks, steps)
    ensures CausesInv(EndOf(sha256, clocks, steps))
    decreases |steps|
  {
    if steps != [] {
      var before := steps[..|steps| - 1];
      CausesInvHolds(sha256, clocks, before);
      SysInvHolds(sha256, clocks, before);
      WritersInvHolds(sha256, clocks, before);
      CausesInvStep(sha256, EndOf(sha256, clocks, before), steps[|steps| - 1]);
    }
  }

  // ---- Main results ----

  lemma EnqueuedIsRequested(sha256: Sha256, clocks: Clocks, steps: seq<Step>, i: nat)
    requires IsRun(sha256, clocks, steps)
    requires i < |EndOf(sha256, clocks, steps).log| && EndOf(sha256, clocks, steps).log[i].Enqueued?
    ensures var e := EndOf(sha256, clocks, steps).log[i]; exists m :: IsRequestOf(sha256, steps, m, e.id, e.content)
  {
    WritersInvHolds(sha256, clocks, steps);
    RowsAreRequested(sha256, clocks, steps, EndOf(sha256, clocks, steps).log[i].id);
  }

  /** Step m requested what event i enqueued, and event j posts the snapshot of that request. */
  predicate CarriesRequest(sha256: Sha256, steps: seq<Step>, log: seq<Event>, m: int, i: int, j: int) {
    && IsSourceOf(log, i, j) && IsRequestOf(sha256, steps, m, log[i].id, log[i].content)
    && log[j].body == steps[m].request.snapshot && log[j].url == steps[m].producer.endpointUrl
  }

  /** Each POST has a token of its own and carries the snapshot of a request, as an earlier event enqueued it, to the
      endpoint it was enqueued for, which is the one its sender is configured with. */
  lemma PostsCarryTheSnapshot(sha256: Sha256, clocks: Clocks, steps: seq<Step>, j: nat)
    requires IsRun(sha256, clocks, steps)
    requires j < |EndOf(sha256, clocks, steps).log| && EndOf(sha256, clocks, steps).log[j].Posted?
    ensures var s := EndOf(sha256, clocks, steps);
      var e := s.log[j];
      && (exists m, i :: CarriesRequest(sha256, steps, s.log, m, i, j)
            && e.config.endpointOrigin == steps[m].producer.endpointOrigin)
      && e.url == e.config.endpointUrl
      && (forall i | 0 <= i < |s.log| && i != j :: s.log[i].Posted? ==> s.log[i].key != e.key)
      && WasGranted(s.log, e.key)
  {
    CausesInvHolds(sha256, clocks, steps);
    PostsInvHolds(sha256, clocks, steps);
    WritersInvHolds(sha256, clocks, steps);
    var s := EndOf(sha256, clocks, steps);
    assert Caused(s.log, j) && PostFits(s.db, s.log[j]);
    var i :| IsSourceOf(s.log, i, j);
    assert s.db.deliveries[s.log[i].id].content == s.log[i].content;
    EnqueuedIsRequested(sha256, clocks, steps, i);
    var m :| IsRequestOf(sha256, steps, m, s.log[i].id, s.log[i].content);
    assert CarriesRequest(sha256, steps, s.log, m, i, j);
  }

  /** Requested by step m, enqueued at a, posted under token k with the requested bytes at b, answered with a recorded
      2xx at c. */
  predicate IsDelivery(sha256: Sha256, steps: seq<Step>, log: seq<Event>, m: int, a: int, b: int, c: int, k: AttemptKey) {
    CarriesRequest(sha256, steps, log, m, a, b) && IsPostOf(log, b, c) && IsDeliveryOf(log, c, k)
  }

  /** A row is delivered exactly when the snapshot of a request was enqueued and posted under the row's current token,
      and the answer to that POST was a 2xx, recorded by the sender while its lease was live. */
  lemma DeliveredIffPosted(sha256: Sha256, clocks: Clocks, steps: seq<Step>, id: DeliveryId)
    requires IsRun(sha256, clocks, steps) && id in EndOf(sha256, clocks, steps).db.deliveries
    ensures var s := EndOf(sha256, clocks, steps);
      var d := s.db.deliveries[id];
      d.status == Delivered <==> exists m, a, b, c :: IsDelivery(sha256, steps, s.log, m, a, b, c, CurrentKey(id, d))
  {
    var s := EndOf(sha256, clocks, steps);
    var d := s.db.deliveries[id];
    DeliveredIffRecorded(sha256, clocks, steps, id);
    if d.status == Delivered {
      CausesInvHolds(sha256, clocks, steps);
      var c :| IsDeliveryOf(s.log, c, CurrentKey(id, d));
      assert Caused(s.log, c);
      var b :| IsPostOf(s.log, b, c);
      PostsCarryTheSnapshot(sha256, clocks, steps, b);
      var m, a :| CarriesRequest(sha256, steps, s.log, m, a, b);
      assert IsDelivery(sha256, steps, s.log, m, a, b, c, CurrentKey(id, d));
    }
  }
}
