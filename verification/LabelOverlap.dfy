/**
  Overlapping label requests for one key. After a key is created, all later replies for it agree if
  and only if every request in flight for it with the same digest holds the same batch. Otherwise 128
  further requests, of the same selection under other keys, push the batch out of the cache while the
  key stays remembered, and the rival request stores its own.
 */
module LabelOverlap {
  import opened Text
  import opened Sequences
  import Runs
  import opened LabelRequests
  import opened LabelTables
  import opened LabelRuns
  import opened LabelGuarantees

  // ----- Names that are free ----------------------------------------------------------------

  lemma {:induction false} FreeId(used: set<int>, n: nat) returns (id: int)
    requires |used| < n
    ensures 0 <= id < n && id !in used
    decreases n
  {
    if n - 1 !in used {
      id := n - 1;
    } else {
      id := FreeId(used - {n - 1}, n - 1);
    }
  }

  function NumberKey(n: nat): Key {
    Key(Decimal(n))
  }

  lemma {:induction false} FreeNumber(used: set<Key>, n: nat) returns (i: nat)
    requires |used| < n
    ensures i < n && NumberKey(i) !in used
    decreases n
  {
    if NumberKey(n - 1) !in used {
      i := n - 1;
    } else {
      i := FreeNumber(used - {NumberKey(n - 1)}, n - 1);
      if NumberKey(i) == NumberKey(n - 1) {
        DecimalInjective(i, n - 1);
      }
    }
  }

  lemma NumberKeyStable(n: nat)
    requires n < 10_000
    ensures StableId(NumberKey(n).text)
  {
    DecimalWidth(n, 4);
    assert Power10(4) == 10 * (10 * (10 * (10 * Power10(0))));
    var s := Decimal(n);
    assert forall i :: 0 <= i < |s| ==> IsDigit(s[i]);
  }

  /** Some stable key is neither remembered nor cached. */
  lemma FreeKey(t: Tables) returns (key: Key)
    requires Consistent(t)
    ensures StableId(key.text) && key !in t.requests.remembered.entries && key !in t.batches.entries
  {
    var used := t.requests.remembered.entries.Keys + t.batches.entries.Keys;
    assert |used| <= |t.requests.remembered.entries.Keys| + |t.batches.entries.Keys|;
    var i := FreeNumber(used, 10_000);
    NumberKeyStable(i);
    key := NumberKey(i);
  }

  // ----- One request more -------------------------------------------------------------------

  /** The request that asks for p's labels, with p's data, under another key. */
  function SameLabels(p: Pending, key: Key): Request {
    Request(key, p.selection, p.replay.template, Some(p.replay.records), p.replay.createdAt)
  }

  lemma SameLabelsRender(env: Environment, t: Tables, p: Pending, key: Key)
    requires PendingOk(env, p) && key !in t.requests.remembered.entries && key !in t.batches.entries
    ensures ValidRequest(env, SameLabels(p, key))
    ensures Begin(env, t, SameLabels(p, key)) == Rendering(Pending(key, p.selection, p.replay, p.batch))
  {
  }

  /** A request in flight for a key that another request has created with the same digest. */
  datatype Rival = Rival(env: Environment, key: Key, digest: Digest, id: int, pending: Pending)

  /** n requests were remembered after the key, at least n batches cached after it, and the rival is in flight. */
  ghost predicate Waiting(v: Rival, s: System, n: nat) {
    && SystemOk(v.env, s)
    && AgeIs(RequestOrder(s), v.key, n)
    && Remembered(s, v.key) && s.tables.requests.remembered.entries[v.key] == v.digest
    && v.id in s.inflight && s.inflight[v.id] == v.pending
    && Behind(s.tables.batches.order, v.key, n)
  }

  ghost predicate Behind(order: seq<Key>, k: Key, n: nat) {
    forall c: nat :: AgeIs(order, k, c) ==> c >= n
  }

  lemma BehindAppended(order: seq<Key>, k: Key, n: nat, key: Key, m: nat)
    requires Behind(order, k, n) && key != k && m <= |order| + 1
    ensures Behind((order + [key])[m..], k, n + 1)
  {
    var after := (order + [key])[m..];
    forall c: nat | AgeIs(after, k, c) ensures c >= n + 1 {
      assert FromEnd(order + [key], c) == k;
      if c > 0 {
        assert AgeIs(order, k, c - 1);
      }
    }
  }

  lemma BatchesBehind(b: Batches, key: Key, entry: CacheEntry, k: Key, n: nat)
    requires BatchesConsistent(b) && key !in b.entries && FitsArtifact(entry.batch) && key != k && Behind(b.order, k, n)
    ensures Behind(Evict(Insert(b, key, entry)).order, k, n + 1)
  {
    InsertConsistent(b, key, entry);
    var m := EvictKeepsLongestSuffix(Insert(b, key, entry));
    BehindAppended(b.order, k, n, key, m);
  }

  lemma AgedIsRemembered(env: Environment, s: System, k: Key, a: nat)
    requires SystemOk(env, s) && AgeIs(RequestOrder(s), k, a)
    ensures Remembered(s, k)
  {
    assert k in Elements(RequestOrder(s));
  }

  lemma RequestsWait(r: Requests, key: Key, replay: ReplayEntry, k: Key, n: nat)
    requires RequestsConsistent(r) && AgeIs(r.remembered.order, k, n) && n + 1 < MAXIMUM_REMEMBERED
    requires key !in r.remembered.entries
    ensures AgeIs(Remember(r, key, replay).remembered.order, k, n + 1)
  {
    OlderByOne(r.remembered.order, key, n);
  }

  /** Storing a new key leaves a waiting rival waiting, one batch further on. */
  lemma CommitWaits(v: Rival, s: System, id: int, p: Pending, t: System, n: nat)
    requires Waiting(v, s, n) && n + 1 < MAXIMUM_REMEMBERED
    requires id in s.inflight && id != v.id && p == s.inflight[id] && t == Next(v.env, s, Finish(id))
    requires p.key !in s.tables.requests.remembered.entries && p.key !in s.tables.batches.entries
    ensures Waiting(v, t, n + 1)
  {
    FinishOk(v.env, s, id);
    RequestsWait(s.tables.requests, p.key, p.replay, v.key, n);
    assert t.tables.requests == Remember(s.tables.requests, p.key, p.replay);
    AgedIsRemembered(v.env, t, v.key, n + 1);
    CommitKeepsOthers(s.tables, p.key, p.replay, p.batch, v.key);
    BatchesBehind(s.tables.batches, p.key, CacheEntry(p.replay.digest, p.batch), v.key, n);
  }

  lemma StartWaits(v: Rival, s: System, id: int, r: Request, n: nat)
    requires Waiting(v, s, n) && ValidRequest(v.env, r) && id !in s.inflight
    ensures Waiting(v, Next(v.env, s, Start(id, r)), n)
  {
    StartOk(v.env, s, id, r);
  }

  /** The steps a service may take: valid requests under stable keys. */
  predicate ServiceStep(env: Environment, step: Step) {
    ValidStep(env, step) && (step.Start? ==> StableId(step.request.key.text))
  }

  predicate ServiceSteps(env: Environment, steps: seq<Step>) {
    forall i :: 0 <= i < |steps| ==> ServiceStep(env, steps[i])
  }

  /** Allowed steps, as a test. */
  ghost function Allowed(env: Environment): (ok: Step -> bool)
    ensures forall step :: ok(step) <==> ServiceStep(env, step)
  {
    (step: Step) => ServiceStep(env, step)
  }

  /** The stages of a waiting rival, as a test of states. */
  ghost function Stages(v: Rival): (stage: (System, nat) -> bool)
    ensures forall s, n {:trigger stage(s, n)} :: stage(s, n) <==> Waiting(v, s, n)
  {
    (s: System, n: nat) => Waiting(v, s, n)
  }

  /** One request for p's labels under a free key, from start to finish. */
  lemma OneMore(v: Rival, s: System, p: Pending, n: nat) returns (id: int, r: Request)
    requires Waiting(v, s, n) && PendingOk(v.env, p) && n + 1 < MAXIMUM_REMEMBERED
    ensures ServiceStep(v.env, Start(id, r))
    ensures Waiting(v, Next(v.env, s, Start(id, r)), n)
    ensures Waiting(v, Next(v.env, Next(v.env, s, Start(id, r)), Finish(id)), n + 1)
  {
    id := FreeId(s.inflight.Keys, |s.inflight.Keys| + 1);
    var key := FreeKey(s.tables);
    r := SameLabels(p, key);
    SameLabelsRender(v.env, s.tables, p, key);
    StartWaits(v, s, id, r, n);
    var t := Next(v.env, s, Start(id, r));
    FinishWaits(v, s, t, id, Pending(key, p.selection, p.replay, p.batch), n);
  }

  lemma FinishWaits(v: Rival, s: System, t: System, id: int, p: Pending, n: nat)
    requires Waiting(v, t, n) && n + 1 < MAXIMUM_REMEMBERED && v.id in s.inflight && id !in s.inflight
    requires t == System(s.tables, s.inflight[id := p])
    requires p.key !in s.tables.requests.remembered.entries && p.key !in s.tables.batches.entries
    ensures Waiting(v, Next(v.env, t, Finish(id)), n + 1)
  {
    CommitWaits(v, t, id, p, Next(v.env, t, Finish(id)), n);
  }

  // ----- The flood --------------------------------------------------------------------------

  lemma AdvancesThrough(
      env: Environment, k: Key, stage: (System, nat) -> bool, s: System, n: nat, a: Step, b: Step, t: System)
    requires ServiceStep(env, a) && ServiceStep(env, b) && t == Next(env, s, a) && Remembered(t, k)
    requires stage(Next(env, t, b), n + 1)
    ensures Runs.Advances(Stepper(env), Allowed(env), Remembering(k), stage, s, n)
  {
    assert Runs.AdvancesBy(Stepper(env), Allowed(env), Remembering(k), stage, s, n, a, b);
  }

  lemma StageAdvances(v: Rival, s: System, p: Pending, n: nat)
    requires Waiting(v, s, n) && PendingOk(v.env, p) && n + 1 < MAXIMUM_REMEMBERED
    ensures Runs.Advances(Stepper(v.env), Allowed(v.env), Remembering(v.key), Stages(v), s, n)
  {
    var id, r := OneMore(v, s, p, n);
    AdvancesThrough(
      v.env, v.key, Stages(v), s, n, Start(id, r), Finish(id), Next(v.env, s, Start(id, r)));
  }

  lemma StagesAdvance(v: Rival, p: Pending)
    requires PendingOk(v.env, p)
    ensures Runs.AllAdvance(Stepper(v.env), Allowed(v.env), Remembering(v.key), Stages(v), MAXIMUM_CACHED_BATCHES)
  {
    forall t, m: nat | Waiting(v, t, m) && m < MAXIMUM_CACHED_BATCHES
      ensures Runs.Advances(Stepper(v.env), Allowed(v.env), Remembering(v.key), Stages(v), t, m)
    {
      StageAdvances(v, t, p, m);
    }
  }

  lemma Flood(v: Rival, s: System, p: Pending) returns (steps: seq<Step>)
    requires Waiting(v, s, 0) && PendingOk(v.env, p)
    ensures ServiceSteps(v.env, steps) && RememberedThroughout(v.env, s, steps, v.key)
    ensures Waiting(v, Run(v.env, s, steps), MAXIMUM_CACHED_BATCHES)
  {
    StagesAdvance(v, p);
    steps := Runs.Reaches(
      Stepper(v.env), Allowed(v.env), Remembering(v.key), Stages(v), s, 0, MAXIMUM_CACHED_BATCHES);
  }

  /** Once 128 batches were cached after it, the batch of k is gone. */
  lemma Evicted(env: Environment, s: System, k: Key)
    requires SystemOk(env, s) && Behind(s.tables.batches.order, k, MAXIMUM_CACHED_BATCHES)
    ensures k !in s.tables.batches.entries
  {
    var order := s.tables.batches.order;
    forall i | 0 <= i < |order| ensures order[i] != k {
      assert AgeIs(order, order[i], |order| - 1 - i);
    }
  }

  /** Then the rival stores its own batch and is answered with it. */
  lemma RivalStores(v: Rival, s: System)
    requires Waiting(v, s, MAXIMUM_CACHED_BATCHES)
    requires v.pending.key == v.key && v.pending.replay.digest == v.digest
    ensures ReplyTo(v.env, s, Finish(v.id)) == Some((v.key, Success(v.pending.batch, false)))
    ensures Remembered(Next(v.env, s, Finish(v.id)), v.key)
  {
    Evicted(v.env, s, v.key);
  }

  // ----- When replies agree -----------------------------------------------------------------

  /** Whatever the service does, while k is remembered its replies for k are refusals or b. */
  ghost predicate AllAgree(env: Environment, s: System, k: Key, b: LabelBatch) {
    forall steps: seq<Step> ::
      ServiceSteps(env, steps) && RememberedThroughout(env, s, steps, k) ==> AgreeOver(env, s, steps, k, b)
  }

  lemma CreatedWaits(v: Rival, s: System, id: int, p: Pending, t: System)
    requires SystemOk(v.env, s) && id in s.inflight && p == s.inflight[id] && Creates(v.env, s, Finish(id))
    requires t == Next(v.env, s, Finish(id)) && v.id in s.inflight && v.id != id
    requires v.key == p.key && v.digest == p.replay.digest && v.pending == s.inflight[v.id]
    ensures Waiting(v, t, 0)
  {
    FinishOk(v.env, s, id);
    CreatedIsNewest(v.env, s, id);
    CreatedIsRemembered(v.env, s, id, p);
    assert t.inflight == s.inflight - {id};
  }

  lemma CreatedIsRemembered(env: Environment, s: System, id: int, p: Pending)
    requires SystemOk(env, s) && id in s.inflight && p == s.inflight[id] && Creates(env, s, Finish(id))
    ensures var t := Next(env, s, Finish(id)).tables.requests.remembered.entries;
            p.key in t && t[p.key] == p.replay.digest
  {
    CommitStores(s.tables, p.key, p.replay, p.batch);
  }

  /** Some allowed continuation from t, in which the key is always remembered, answers the rival with its own batch. */
  ghost predicate Disagrees(v: Rival, t: System, steps: seq<Step>) {
    && ServiceSteps(v.env, steps + [Finish(v.id)])
    && RememberedThroughout(v.env, t, steps + [Finish(v.id)], v.key)
    && ReplyTo(v.env, Run(v.env, t, steps), Finish(v.id)) == Some((v.key, Success(v.pending.batch, false)))
  }

  lemma WaitingDisagrees(v: Rival, t: System, p: Pending) returns (steps: seq<Step>)
    requires Waiting(v, t, 0) && PendingOk(v.env, p)
    requires v.pending.key == v.key && v.pending.replay.digest == v.digest
    ensures Disagrees(v, t, steps)
  {
    steps := Flood(v, t, p);
    var u := Run(v.env, t, steps);
    RivalStores(v, u);
    LastStepAlways(v.env, t, steps, Finish(v.id), v.key);
  }

  lemma LastStepAlways(env: Environment, s: System, steps: seq<Step>, last: Step, k: Key)
    requires RememberedThroughout(env, s, steps, k) && Remembered(Next(env, Run(env, s, steps), last), k)
    ensures RememberedThroughout(env, s, steps + [last], k)
  {
    var next, u := Stepper(env), Run(env, s, steps);
    assert steps[..|steps|] == steps;
    assert Remembering(k)(u);
    forall i | 0 <= i <= 1 ensures Remembering(k)(Runs.Run(next, u, [last][..i])) {
      if i == 1 {
        assert [last][..1] == [last] && [last][1..] == [];
      } else {
        assert [last][..0] == [];
      }
    }
    Runs.AlwaysConcat(next, s, steps, [last], Remembering(k));
  }

  /**
    The exact condition: after p creates its key, all replies agree with p's batch, over every
    continuation, if and only if every request in flight for the key with p's digest holds p's batch.
   */
  lemma AgreeExactly(env: Environment, s: System, id: int, p: Pending, t: System)
    requires SystemOk(env, s) && id in s.inflight && p == s.inflight[id] && Creates(env, s, Finish(id))
    requires t == Next(env, s, Finish(id))
    ensures AllAgree(env, t, p.key, p.batch) <==> RivalsAgree(t, p.key, p.replay.digest, p.batch)
  {
    if RivalsAgree(t, p.key, p.replay.digest, p.batch) {
      CreatedFaithful(env, s, id, p);
      FaithfulAgree(env, t, p.key, p.selection, p.batch);
    } else {
      var rival :| rival in t.inflight && t.inflight[rival].key == p.key
                   && t.inflight[rival].replay.digest == p.replay.digest && t.inflight[rival].batch != p.batch;
      var v := Rival(env, p.key, p.replay.digest, rival, t.inflight[rival]);
      var steps := RivalDisagrees(v, s, id, p, t);
      DisagreementSeen(v, t, p.batch, steps);
    }
  }

  lemma FaithfulAgree(env: Environment, t: System, k: Key, sel: Selection, b: LabelBatch)
    requires SystemOk(env, t) && SystemFaithful(env, t, k, sel, b)
    ensures AllAgree(env, t, k, b)
  {
    forall steps: seq<Step> | ServiceSteps(env, steps) && RememberedThroughout(env, t, steps, k)
      ensures AgreeOver(env, t, steps, k, b)
    {
      assert ValidSteps(env, steps);
      FaithfulReplies(env, t, steps, k, sel, b);
    }
  }

  lemma RivalDisagrees(v: Rival, s: System, id: int, p: Pending, t: System) returns (steps: seq<Step>)
    requires SystemOk(v.env, s) && id in s.inflight && p == s.inflight[id] && Creates(v.env, s, Finish(id))
    requires t == Next(v.env, s, Finish(id)) && v.id in s.inflight && v.id != id && v.pending == s.inflight[v.id]
    requires v.key == p.key == v.pending.key && v.digest == p.replay.digest == v.pending.replay.digest
    ensures Disagrees(v, t, steps)
  {
    CreatedWaits(v, s, id, p, t);
    assert PendingOk(v.env, p);
    steps := WaitingDisagrees(v, t, p);
  }

  lemma DisagreementSeen(v: Rival, t: System, b: LabelBatch, steps: seq<Step>)
    requires Disagrees(v, t, steps) && v.pending.batch != b
    ensures !AllAgree(v.env, t, v.key, b)
  {
    var all := steps + [Finish(v.id)];
    assert all[..|steps|] == steps && all[|steps|] == Finish(v.id);
    assert !OnlyAnswers(ReplyTo(v.env, Run(v.env, t, all[..|steps|]), all[|steps|]), v.key, b);
  }

  // ----- A run from the start ---------------------------------------------------------------

  /** Two requests for one key that start at different times render to different batches. */
  lemma OverlappingStartsDiffer(env: Environment, r: Request, now: int)
    requires ValidRequest(env, r) && now != 0 && now != r.now
    requires Begin(env, EMPTY, r).Rendering?
    ensures Begin(env, EMPTY, r.(now := now)).Rendering?
    ensures var p, q := Begin(env, EMPTY, r).pending, Begin(env, EMPTY, r.(now := now)).pending;
            && p.key == q.key == r.key && p.replay.digest == q.replay.digest
            && p.batch.contents == q.batch.contents && p.batch != q.batch
  {
    var p, q := Begin(env, EMPTY, r).pending, Begin(env, EMPTY, r.(now := now)).pending;
    assert p.batch.createdAt == r.now && q.batch.createdAt == now;
  }

  /** The system once both have started. */
  function BothStarted(env: Environment, r: Request, now: int): System {
    Next(env, Next(env, INITIAL, Start(1, r)), Start(2, r.(now := now)))
  }

  lemma BothStartedRun(env: Environment, r: Request, now: int)
    ensures Run(env, INITIAL, [Start(1, r), Start(2, r.(now := now))]) == BothStarted(env, r, now)
  {
    var always := (s: System) => true;
    Runs.TwoSteps(Stepper(env), INITIAL, Start(1, r), Start(2, r.(now := now)), [], always);
    assert [Start(1, r), Start(2, r.(now := now))] + [] == [Start(1, r), Start(2, r.(now := now))];
  }

  /** A second request starts on the empty tables too, as the first has only been rendered. */
  lemma StartedBoth(env: Environment, r: Request, other: Request)
    requires Begin(env, EMPTY, r).Rendering? && Begin(env, EMPTY, other).Rendering?
    ensures Next(env, Next(env, INITIAL, Start(1, r)), Start(2, other))
         == System(EMPTY, map[1 := Begin(env, EMPTY, r).pending, 2 := Begin(env, EMPTY, other).pending])
  {
    var p := Begin(env, EMPTY, r).pending;
    assert Next(env, INITIAL, Start(1, r)) == System(EMPTY, map[1 := p]);
  }

  lemma CreatesFirst(env: Environment, p: Pending, q: Pending)
    ensures Creates(env, System(EMPTY, map[1 := p, 2 := q]), Finish(1))
  {
  }

  lemma BothInFlight(env: Environment, r: Request, now: int)
    requires ValidRequest(env, r) && now != 0 && now != r.now && Begin(env, EMPTY, r).Rendering?
    ensures var s := BothStarted(env, r, now);
            && SystemOk(env, s) && 1 in s.inflight && 2 in s.inflight && Creates(env, s, Finish(1))
            && s.inflight[1].key == s.inflight[2].key == r.key
            && s.inflight[1].replay.digest == s.inflight[2].replay.digest
            && s.inflight[1].batch != s.inflight[2].batch
  {
    OverlappingStartsDiffer(env, r, now);
    StartedBoth(env, r, r.(now := now));
    CreatesFirst(env, Begin(env, EMPTY, r).pending, Begin(env, EMPTY, r.(now := now)).pending);
    BothStartedOk(env, r, now);
    PairInFlight(BothStarted(env, r, now), Begin(env, EMPTY, r).pending, Begin(env, EMPTY, r.(now := now)).pending);
  }

  lemma PairInFlight(s: System, p: Pending, q: Pending)
    requires s == System(EMPTY, map[1 := p, 2 := q])
    ensures 1 in s.inflight && 2 in s.inflight && s.inflight[1] == p && s.inflight[2] == q
  {
  }

  lemma BothStartedOk(env: Environment, r: Request, now: int)
    requires ValidRequest(env, r) && now != 0
    ensures SystemOk(env, BothStarted(env, r, now))
  {
    InitialOk(env);
    StartOk(env, INITIAL, 1, r);
    StartOk(env, Next(env, INITIAL, Start(1, r)), 2, r.(now := now));
  }

  /**
    From the empty service, for every environment and every request that renders: the request starts
    twice at different instants, the first finishes and creates the key, and after further steps in
    which the key is always remembered the second is answered with another batch.
   */
  lemma OverlappingRequestsCanDisagree(env: Environment, r: Request, now: int) returns (steps: seq<Step>)
    requires ValidRequest(env, r) && StableId(r.key.text) && now != 0 && now != r.now && Begin(env, EMPTY, r).Rendering?
    ensures ServiceSteps(env, [Start(1, r), Start(2, r.(now := now)), Finish(1)] + steps + [Finish(2)])
    ensures var s := Run(env, INITIAL, [Start(1, r), Start(2, r.(now := now))]);
            && 1 in s.inflight && 2 in s.inflight && s.inflight[1].batch != s.inflight[2].batch
            && ReplyTo(env, s, Finish(1)) == Some((r.key, Success(s.inflight[1].batch, true)))
            && Disagrees(Rival(env, r.key, s.inflight[1].replay.digest, 2, s.inflight[2]),
                         Next(env, s, Finish(1)), steps)
  {
    BothStartedRun(env, r, now);
    BothInFlight(env, r, now);
    var s := BothStarted(env, r, now);
    CreatesOwn(env, s, 1);
    var p := s.inflight[1];
    steps := RivalDisagrees(Rival(env, r.key, p.replay.digest, 2, s.inflight[2]), s, 1, p, Next(env, s, Finish(1)));
    ServiceConcat(env, r, now, steps);
  }

  lemma CreatesOwn(env: Environment, s: System, id: int)
    requires id in s.inflight && Creates(env, s, Finish(id))
    ensures ReplyTo(env, s, Finish(id)) == Some((s.inflight[id].key, Success(s.inflight[id].batch, true)))
  {
  }

  lemma ServiceConcat(env: Environment, r: Request, now: int, steps: seq<Step>)
    requires ValidRequest(env, r) && StableId(r.key.text) && now != 0 && ServiceSteps(env, steps + [Finish(2)])
    ensures ServiceSteps(env, [Start(1, r), Start(2, r.(now := now)), Finish(1)] + steps + [Finish(2)])
  {
    var tail := steps + [Finish(2)];
    var all := [Start(1, r), Start(2, r.(now := now)), Finish(1)] + steps + [Finish(2)];
    forall i | 0 <= i < |all| ensures ServiceStep(env, all[i]) {
      if i >= 3 {
        assert all[i] == tail[i - 3];
      }
    }
  }
}
