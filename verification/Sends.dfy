/** What leaves the system: how often, with which bytes and to which endpoint. */
module Sends {
  import opened Types
  import opened Claim
  import opened Transactions
  import opened Dispatch
  import opened Ledger
  import opened Protocol
  import opened Fencing

  predicate PostFits(db: Db, e: Event)
    requires e.Posted?
  {
    && e.key.id in db.deliveries
    && var c := db.deliveries[e.key.id].content;
    && e.body == c.payload
    && e.url == e.config.endpointUrl == c.endpointUrl && e.config.endpointOrigin == c.endpointOrigin
  }

  ghost predicate WasPosted(log: seq<Event>, k: AttemptKey) {
    exists i :: 0 <= i < |log| && log[i].Posted? && log[i].key == k
  }

  ghost predicate PostsInv(s: Sys) {
    && (forall i | 0 <= i < |s.log| :: s.log[i].Posted? ==> PostFits(s.db, s.log[i]) && WasGranted(s.log, s.log[i].key))
    && (forall i, j | 0 <= i < j < |s.log| :: s.log[i].Posted? && s.log[j].Posted? ==> s.log[i].key != s.log[j].key)
    && (forall w | w in s.workers :: s.workers[w].phase == Holding ==> !WasPosted(s.log, RecordKey(s.workers[w].record)))
  }

  lemma PostFitsMoves(a: Db, b: Db, e: Event)
    requires e.Posted? && PostFits(a, e) && DbMoves(a, b)
    ensures PostFits(b, e)
  {
    assert RowMoves(a.deliveries[e.key.id], b.deliveries[e.key.id]);
  }

  /** A step that posts nothing and puts no posted token back into a worker's hands. */
  ghost predicate Silent(s: Sys, t: Sys) {
    && DbMoves(s.db, t.db)
    && (t.log == s.log || (|t.log| == |s.log| + 1 && t.log == s.log + [t.log[|s.log|]] && !t.log[|s.log|].Posted?))
    && (forall w | w in t.workers :: t.workers[w].phase == Holding ==>
          || !WasPosted(s.log, RecordKey(t.workers[w].record))
          || (w in s.workers && s.workers[w].phase == Holding && s.workers[w].record == t.workers[w].record))
  }

  lemma SilentKeepsPosts(s: Sys, t: Sys)
    requires PostsInv(s) && Silent(s, t)
    ensures PostsInv(t)
  {
    forall i | 0 <= i < |t.log| && t.log[i].Posted? ensures PostFits(t.db, t.log[i]) && WasGranted(t.log, t.log[i].key) {
      assert t.log[i] == s.log[i];
      PostFitsMoves(s.db, t.db, s.log[i]);
      if t.log != s.log { WasGrantedStays(s.log, t.log[|s.log|], s.log[i].key); }
    }
    forall w | w in t.workers && t.workers[w].phase == Holding ensures !WasPosted(t.log, RecordKey(t.workers[w].record)) {
      assert !WasPosted(s.log, RecordKey(t.workers[w].record));
      forall i | 0 <= i < |t.log| && t.log[i].Posted? ensures t.log[i].key != RecordKey(t.workers[w].record) {
        assert t.log[i] == s.log[i];
      }
    }
  }

  /** Posted tokens were granted, so they are at most their row's current one. */
  lemma PostedIsOld(s: Sys, k: AttemptKey)
    requires PostsInv(s) && GrantsInv(s) && WasPosted(s.log, k)
    ensures k.id in s.db.deliveries && TokenAtMost(k, CurrentKey(k.id, s.db.deliveries[k.id]))
  {
    var i :| 0 <= i < |s.log| && s.log[i].Posted? && s.log[i].key == k;
    var j :| 0 <= j < |s.log| && s.log[j].Granted? && s.log[j].key == k;
    assert GrantFits(s.db, s.log[j].key);
  }

  lemma JoinIsSilent(s: Sys, t: Sys, w: WorkerId, worker: Worker, at: Micros)
    requires DbMoves(s.db, t.db) && Joined(s, t, w, worker, at) && !WasPosted(s.log, RecordKey(worker.record))
    ensures Silent(s, t)
  {
  }

  lemma NewTokenIsUnposted(s: Sys, p: ClaimParams)
    requires SysInv(s) && GrantsInv(s) && PostsInv(s) && ClaimRecord(s.db, p).Some?
    ensures !WasPosted(s.log, RecordKey(ClaimRecord(s.db, p).value))
  {
    var k := RecordKey(ClaimRecord(s.db, p).value);
    GrantedToken(s.db, p);
    if WasPosted(s.log, k) { PostedIsOld(s, k); }
  }

  lemma ClaimIsSilent(s: Sys, w: WorkerId, c: Config, p: ClaimParams)
    requires SysInv(s) && GrantsInv(s) && PostsInv(s) && w !in s.workers
    ensures Silent(s, DoClaim(s, w, c, p))
  {
    ClaimMoves(s.db, p);
    if ClaimRecord(s.db, p).Some? {
      NewTokenIsUnposted(s, p);
      ClaimJoins(s, w, c, p);
      JoinIsSilent(s, DoClaim(s, w, c, p), w, Worker(ClaimRecord(s.db, p).value, c, p.now, Holding), p.now);
    }
  }

  lemma OthersAreSilent(sha256: Sha256, s: Sys, step: Step)
    requires SysInv(s) && Enabled(s, step) && !step.ClaimStep? && !step.SendStep?
    ensures Silent(s, Do(sha256, s, step))
  {
    StepMovesDb(sha256, s, step);
    OtherLogsAreQuiet(sha256, s, step);
    OthersPostNothing(sha256, s, step);
  }

  lemma OthersPostNothing(sha256: Sha256, s: Sys, step: Step)
    requires Enabled(s, step) && !step.ClaimStep? && !step.SendStep?
    ensures var t := Do(sha256, s, step);
      && (t.log == s.log || (|t.log| == |s.log| + 1 && t.log == s.log + [t.log[|s.log|]] && !t.log[|s.log|].Posted?))
      && (forall w | w in t.workers :: t.workers[w].phase == Holding ==>
            w in s.workers && s.workers[w].phase == Holding && s.workers[w].record == t.workers[w].record)
  {
  }

  /** `t` is `s` after worker w, still holding, has posted e for its token. */
  ghost predicate Posts(s: Sys, t: Sys, w: WorkerId, e: Event) {
    && e.Posted? && w in s.workers && s.workers[w].phase == Holding && e.key == RecordKey(s.workers[w].record)
    && PostFits(s.db, e) && t.db == s.db && t.log == s.log + [e]
    && t.workers == s.workers[w := s.workers[w].(phase := Sent)]
  }

  lemma SendPosts(sha256: Sha256, s: Sys, w: WorkerId)
    requires SysInv(s) && Enabled(s, SendStep(w))
    ensures var t := Do(sha256, s, SendStep(w)); |t.log| > |s.log| && Posts(s, t, w, t.log[|s.log|])
  {
    assert WorkerFits(s.db, s.workers[w].record);
  }

  lemma PostKeepsLog(s: Sys, t: Sys, w: WorkerId, e: Event)
    requires WorkersInv(s) && GrantsInv(s) && PostsInv(s) && Posts(s, t, w, e)
    ensures forall i | 0 <= i < |t.log| :: t.log[i].Posted? ==> PostFits(t.db, t.log[i]) && WasGranted(t.log, t.log[i].key)
    ensures forall i, j | 0 <= i < j < |t.log| :: t.log[i].Posted? && t.log[j].Posted? ==> t.log[i].key != t.log[j].key
  {
    forall i | 0 <= i < |t.log| && t.log[i].Posted? ensures PostFits(t.db, t.log[i]) && WasGranted(t.log, t.log[i].key) {
      WasGrantedStays(s.log, e, t.log[i].key);
    }
    forall i | 0 <= i < |s.log| && s.log[i].Posted? ensures s.log[i].key != e.key {
      assert !WasPosted(s.log, e.key);
    }
  }

  lemma PostKeepsHolders(s: Sys, t: Sys, w: WorkerId, e: Event)
    requires WorkersInv(s) && PostsInv(s) && Posts(s, t, w, e)
    ensures forall v | v in t.workers :: t.workers[v].phase == Holding ==> !WasPosted(t.log, RecordKey(t.workers[v].record))
  {
    forall v | v in t.workers && t.workers[v].phase == Holding ensures !WasPosted(t.log, RecordKey(t.workers[v].record)) {
      assert v != w && !WasPosted(s.log, RecordKey(s.workers[v].record));
      forall i | 0 <= i < |t.log| && t.log[i].Posted? ensures t.log[i].key != RecordKey(t.workers[v].record) {
        if i < |s.log| { assert t.log[i] == s.log[i]; }
      }
    }
  }

  lemma SendKeepsPosts(sha256: Sha256, s: Sys, w: WorkerId)
    requires SysInv(s) && GrantsInv(s) && PostsInv(s) && Enabled(s, SendStep(w))
    ensures PostsInv(Do(sha256, s, SendStep(w)))
  {
    var t := Do(sha256, s, SendStep(w));
    SendPosts(sha256, s, w);
    PostKeepsLog(s, t, w, t.log[|s.log|]);
    PostKeepsHolders(s, t, w, t.log[|s.log|]);
  }

  lemma {:induction false} PostsInvHolds(sha256: Sha256, clocks: Clocks, steps: seq<Step>)
    requires IsRun(sha256, clocks, steps)
    ensures PostsInv(EndOf(sha256, clocks, steps))
    decreases |steps|
  {
    if steps != [] {
      var before := steps[..|steps| - 1];
      var s := EndOf(sha256, clocks, before);
      var step := steps[|steps| - 1];
      PostsInvHolds(sha256, clocks, before);
      SysInvHolds(sha256, clocks, before);
      GrantsInvHolds(sha256, clocks, before);
      if step.SendStep? {
        SendKeepsPosts(sha256, s, step.w);
      } else {
        if step.ClaimStep? {
          ClaimIsSilent(s, step.w, step.config, ParamsOf(step.config, step.skip, step.now));
        } else {
          OthersAreSilent(sha256, s, step);
        }
        SilentKeepsPosts(s, Do(sha256, s, step));
      }
    }
  }

  // ---- The bound ----

  function PostCount(log: seq<Event>, id: DeliveryId): nat {
    if log == [] then 0
    else PostCount(log[..|log| - 1], id) + if log[|log| - 1].Posted? && log[|log| - 1].key.id == id then 1 else 0
  }

  /** The tokens of one replay cycle. */
  function CycleTokens(id: DeliveryId, replay: int, attempts: nat): set<AttemptKey> {
    if attempts == 0 then {} else CycleTokens(id, replay, attempts - 1) + {AttemptKey(id, replay, attempts)}
  }

  /** The tokens of the first replay cycles of one delivery, with as many attempts in each. */
  function Tokens(id: DeliveryId, replays: nat, attempts: nat): set<AttemptKey> {
    if replays == 0 then {} else Tokens(id, replays - 1, attempts) + CycleTokens(id, replays - 1, attempts)
  }

  lemma {:induction false} CycleTokenIn(id: DeliveryId, replay: int, attempts: nat, k: AttemptKey)
    ensures k in CycleTokens(id, replay, attempts) <==>
              k.id == id && k.replayCount == replay && 1 <= k.attempt <= attempts
  {
    if attempts > 0 { CycleTokenIn(id, replay, attempts - 1, k); }
  }

  lemma {:induction false} CycleSize(id: DeliveryId, replay: int, attempts: nat)
    ensures |CycleTokens(id, replay, attempts)| <= attempts
  {
    if attempts > 0 { CycleSize(id, replay, attempts - 1); }
  }

  lemma {:induction false} TokenIn(id: DeliveryId, replays: nat, attempts: nat, k: AttemptKey)
    ensures k in Tokens(id, replays, attempts) <==>
              k.id == id && 0 <= k.replayCount < replays && 1 <= k.attempt <= attempts
  {
    if replays > 0 {
      TokenIn(id, replays - 1, attempts, k);
      CycleTokenIn(id, replays - 1, attempts, k);
    }
  }

  function Times(a: nat, b: nat): nat {
    if b == 0 then 0 else Times(a, b - 1) + a
  }

  lemma {:induction false} TimesIsProduct(a: nat, b: nat)
    ensures Times(a, b) == a * b
  {
    if b > 0 {
      TimesIsProduct(a, b - 1);
      assert a * b == a * (b - 1) + a;
    }
  }

  lemma UnionSize(s: set<AttemptKey>, t: set<AttemptKey>)
    ensures |s + t| <= |s| + |t|
  {
  }

  lemma {:induction false} TokensSize(id: DeliveryId, replays: nat, attempts: nat)
    ensures |Tokens(id, replays, attempts)| <= Times(attempts, replays)
    decreases replays
  {
    if replays > 0 {
      TokensSize(id, replays - 1, attempts);
      CycleSize(id, replays - 1, attempts);
      UnionSize(Tokens(id, replays - 1, attempts), CycleTokens(id, replays - 1, attempts));
    }
  }

  ghost predicate DistinctPosts(log: seq<Event>) {
    forall i, j | 0 <= i < j < |log| :: log[i].Posted? && log[j].Posted? ==> log[i].key != log[j].key
  }

  /** Distinct posts whose tokens lie in a set are at most as many as the set has tokens. */
  lemma {:induction false} PostsInSet(log: seq<Event>, id: DeliveryId, tokens: set<AttemptKey>)
    requires DistinctPosts(log)
    requires forall i | 0 <= i < |log| :: log[i].Posted? && log[i].key.id == id ==> log[i].key in tokens
    ensures PostCount(log, id) <= |tokens|
    decreases |log|
  {
    if log != [] {
      var before, e := log[..|log| - 1], log[|log| - 1];
      if e.Posted? && e.key.id == id {
        PostsInSet(before, id, tokens - {e.key});
      } else {
        PostsInSet(before, id, tokens);
      }
    }
  }

  lemma PostedTokensInRange(s: Sys, id: DeliveryId, i: nat)
    requires PostsInv(s) && GrantsInv(s) && i < |s.log| && s.log[i].Posted? && s.log[i].key.id == id
    ensures var k := s.log[i].key;
      && id in s.db.deliveries
      && 0 <= k.replayCount <= s.db.deliveries[id].replayCount && 1 <= k.attempt <= s.db.deliveries[id].maxAttempts
  {
    var k := s.log[i].key;
    assert WasGranted(s.log, k);
    var j :| 0 <= j < |s.log| && s.log[j].Granted? && s.log[j].key == k;
    assert GrantFits(s.db, s.log[j].key);
  }

  /** Over any run a delivery is posted at most max_attempts times in each replay cycle so far. */
  lemma PostsAreBounded(sha256: Sha256, clocks: Clocks, steps: seq<Step>, id: DeliveryId)
    requires IsRun(sha256, clocks, steps) && id in EndOf(sha256, clocks, steps).db.deliveries
    ensures var s := EndOf(sha256, clocks, steps);
      PostCount(s.log, id) <= s.db.deliveries[id].maxAttempts * (s.db.deliveries[id].replayCount + 1)
  {
    PostsInvHolds(sha256, clocks, steps);
    GrantsInvHolds(sha256, clocks, steps);
    SysInvHolds(sha256, clocks, steps);
    PostCountBound(EndOf(sha256, clocks, steps), id);
  }

  lemma PostCountBound(s: Sys, id: DeliveryId)
    requires PostsInv(s) && GrantsInv(s) && StoreValid(s.db) && id in s.db.deliveries
    ensures PostCount(s.log, id) <= s.db.deliveries[id].maxAttempts * (s.db.deliveries[id].replayCount + 1)
  {
    var d := s.db.deliveries[id];
    assert DeliveryCheck(d);
    var replays: nat, attempts: nat := d.replayCount + 1, d.maxAttempts;
    var tokens := Tokens(id, replays, attempts);
    forall i | 0 <= i < |s.log| && s.log[i].Posted? && s.log[i].key.id == id ensures s.log[i].key in tokens {
      PostedTokensInRange(s, id, i);
      TokenIn(id, replays, attempts, s.log[i].key);
    }
    PostsInSet(s.log, id, tokens);
    TokensSize(id, replays, attempts);
    TimesIsProduct(attempts, replays);
  }
}
