/**
  What a caller who repeats a label request gets. A repeated request is answered with the same batch: at
  once while the batch is cached, and by rendering it again from the replay record while fewer than 128
  other keys were created since.
 */
module LabelRetries {
  import opened Text
  import opened Sequences
  import Runs
  import opened LabelRequests
  import opened LabelTables
  import opened LabelRuns
  import opened LabelGuarantees

  // ----- At once ----------------------------------------------------------------------------

  /** The batch is cached for the key under the digest. */
  predicate Cached(t: Tables, k: Key, digest: Digest, b: LabelBatch) {
    k in t.batches.entries && t.batches.entries[k] == CacheEntry(digest, b)
  }

  lemma CachedServes(env: Environment, t: Tables, r: Request, b: LabelBatch)
    requires Consistent(t) && Cached(t, r.key, env.digests.of(r.selection), b)
    ensures Begin(env, t, r) == Answered(Success(b, false))
  {
  }

  lemma FinishCaches(t: Tables, p: Pending)
    requires Consistent(t) && FitsArtifact(p.batch) && FinishReply(t, p).Success?
    ensures Cached(Finished(t, p), p.key, p.replay.digest, FinishReply(t, p).batch)
  {
    if Decide(t, p.key, p.replay.digest, p.batch).Stored? {
      CommitStores(t, p.key, p.replay, p.batch);
    }
  }

  lemma AnsweredCaches(env: Environment, t: Tables, r: Request)
    requires Begin(env, t, r).Answered? && Begin(env, t, r).reply.Success?
    ensures Cached(t, r.key, env.digests.of(r.selection), Begin(env, t, r).reply.batch)
  {
  }

  lemma SuccessCaches(env: Environment, t: Tables, r: Request)
    requires Consistent(t) && ValidRequest(env, r) && Serve(env, t, r).1.Success?
    ensures Cached(Serve(env, t, r).0, r.key, env.digests.of(r.selection), Serve(env, t, r).1.batch)
    ensures Consistent(Serve(env, t, r).0)
  {
    match Begin(env, t, r)
    case Answered(_) => AnsweredCaches(env, t, r);
    case Rendering(p) =>
      BeginPending(env, t, r);
      CommitConsistent(t, p.key, p.replay, p.batch);
      FinishCaches(t, p);
  }

  /** From any consistent tables: once served, the same request is answered with the same batch, and nothing changes. */
  lemma RetryAtOnce(env: Environment, t: Tables, r: Request, again: Request)
    requires Consistent(t) && ValidRequest(env, r) && Serve(env, t, r).1.Success?
    requires again.key == r.key && again.selection == r.selection
    ensures Serve(env, Serve(env, t, r).0, again) == (Serve(env, t, r).0, Success(Serve(env, t, r).1.batch, false))
  {
    SuccessCaches(env, t, r);
    CachedServes(env, Serve(env, t, r).0, again, Serve(env, t, r).1.batch);
  }

  // ----- While the batch is cached ----------------------------------------------------------

  /** The key has a cached batch, as a test of states. */
  ghost function CachedFor(k: Key): (holds: System -> bool)
    ensures forall s :: holds(s) <==> k in s.tables.batches.entries
  {
    (s: System) => k in s.tables.batches.entries
  }

  /** A new request for the key with this selection is answered at once with b. */
  predicate AnswersRetry(env: Environment, s: System, step: Step, k: Key, sel: Selection, b: LabelBatch) {
    step.Start? && step.id !in s.inflight && step.request.key == k && step.request.selection == sel ==>
      ReplyTo(env, s, step) == Some((k, Success(b, false)))
  }

  /** A commit leaves a batch that stays cached as it is, whosever commit it is. */
  lemma CommitLeavesCached(t: Tables, p: Pending, k: Key)
    requires Consistent(t) && FitsArtifact(p.batch) && k in t.batches.entries && k in Finished(t, p).batches.entries
    ensures Finished(t, p).batches.entries[k] == t.batches.entries[k]
  {
    if p.key != k {
      CommitKeepsOthers(t, p.key, p.replay, p.batch, k);
    }
  }

  lemma NextCached(env: Environment, s: System, step: Step, k: Key, digest: Digest, b: LabelBatch)
    requires SystemOk(env, s) && Cached(s.tables, k, digest, b)
    requires k in Next(env, s, step).tables.batches.entries
    ensures Cached(Next(env, s, step).tables, k, digest, b)
  {
    if step.Finish? && step.id in s.inflight {
      CommitLeavesCached(s.tables, s.inflight[step.id], k);
    }
  }

  lemma StartCached(env: Environment, s: System, step: Step, k: Key, sel: Selection, b: LabelBatch)
    requires Consistent(s.tables) && Cached(s.tables, k, env.digests.of(sel), b)
    ensures AnswersRetry(env, s, step, k, sel, b)
  {
    if step.Start? && step.request.key == k && step.request.selection == sel {
      CachedServes(env, s.tables, step.request, b);
    }
  }

  /**
    Over every interleaving: once a request has been answered with b by its second section, every new request
    for its key with its selection is answered with b at once, as long as the key's batch is cached.
   */
  lemma CachedRetries(env: Environment, s: System, id: int, p: Pending, t: System, steps: seq<Step>)
    requires SystemOk(env, s) && id in s.inflight && p == s.inflight[id] && FinishReply(s.tables, p).Success?
    requires t == Next(env, s, Finish(id)) && ValidSteps(env, steps)
    requires Runs.Always(Stepper(env), t, steps, CachedFor(p.key))
    ensures forall i :: 0 <= i < |steps| ==>
              AnswersRetry(env, Run(env, t, steps[..i]), steps[i], p.key, p.selection, FinishReply(s.tables, p).batch)
  {
    FinishOk(env, s, id);
    FinishCaches(s.tables, p);
    CachedRun(env, t, steps, p.key, p.selection, FinishReply(s.tables, p).batch);
  }

  lemma CachedRun(env: Environment, t: System, steps: seq<Step>, k: Key, sel: Selection, b: LabelBatch)
    requires SystemOk(env, t) && Cached(t.tables, k, env.digests.of(sel), b) && ValidSteps(env, steps)
    requires Runs.Always(Stepper(env), t, steps, CachedFor(k))
    ensures forall i :: 0 <= i < |steps| ==> AnswersRetry(env, Run(env, t, steps[..i]), steps[i], k, sel, b)
  {
    var next, ok := Stepper(env), (step: Step) => ValidStep(env, step);
    var good := (u: System) => SystemOk(env, u) && Cached(u.tables, k, env.digests.of(sel), b);
    var fine := (u: System, step: Step) => AnswersRetry(env, u, step, k, sel, b);
    forall u, step | good(u) && ok(step) && CachedFor(k)(next(u, step)) ensures good(next(u, step)) && fine(u, step) {
      NextOk(env, u, step);
      NextCached(env, u, step, k, env.digests.of(sel), b);
      StartCached(env, u, step, k, sel, b);
    }
    Runs.RunKeeps(next, ok, CachedFor(k), good, fine, t, steps);
    forall i | 0 <= i < |steps| ensures AnswersRetry(env, Run(env, t, steps[..i]), steps[i], k, sel, b) {
      assert fine(Runs.Run(next, t, steps[..i]), steps[i]);
    }
  }

  // ----- While the replay record is kept ----------------------------------------------------

  /** What can be rendered again to b: it fits, and an SVG is of one record. */
  predicate Renderable(sel: Selection, b: LabelBatch) {
    FitsArtifact(b) && (sel.output == Svg ==> b.itemCount == 1)
  }

  /** The request is answered with b, or is on its way with b. */
  ghost predicate LeadsToBatch(env: Environment, s: System, id: int, r: Request, b: LabelBatch) {
    || ReplyTo(env, s, Start(id, r)) == Some((r.key, Success(b, false)))
    || (var t := Next(env, s, Start(id, r));
        && id in t.inflight && t.inflight[id].key == r.key && t.inflight[id].selection == r.selection
        && t.inflight[id].replay.digest == env.digests.of(r.selection) && t.inflight[id].batch == b)
  }

  lemma RenderAgain(env: Environment, r: Request, replay: ReplayEntry, b: LabelBatch)
    requires replay.createdAt != 0 && Renders(env, r.selection, replay, b) && Renderable(r.selection, b)
    ensures Render(env, r, replay) == Rendering(Pending(r.key, r.selection, replay, b))
  {
  }

  /** With its batch or its replay record there, a repeated request is not refused. */
  lemma BeginAgain(env: Environment, t: Tables, r: Request, b: LabelBatch)
    requires Consistent(t) && Faithful(env, t, r.key, r.selection, b) && Renderable(r.selection, b)
    requires r.key in t.batches.entries || r.key in t.requests.replays.entries
    ensures Begin(env, t, r) == if r.key in t.batches.entries then Answered(Success(b, false))
                                else Rendering(Pending(r.key, r.selection, t.requests.replays.entries[r.key], b))
  {
    if r.key !in t.batches.entries {
      RenderAgain(env, r, t.requests.replays.entries[r.key], b);
    }
  }

  lemma StartAgain(env: Environment, s: System, id: int, r: Request, b: LabelBatch)
    requires Consistent(s.tables) && Faithful(env, s.tables, r.key, r.selection, b) && Renderable(r.selection, b)
    requires r.key in s.tables.batches.entries || r.key in s.tables.requests.replays.entries
    requires id !in s.inflight
    ensures LeadsToBatch(env, s, id, r, b)
  {
    BeginAgain(env, s.tables, r, b);
  }

  /** Nobody else is needed: a request on its way with b is answered with b while the key is remembered. */
  lemma FinishAgain(env: Environment, s: System, id: int, k: Key, sel: Selection, b: LabelBatch)
    requires Faithful(env, s.tables, k, sel, b) && id in s.inflight
    requires s.inflight[id].key == k && s.inflight[id].replay.digest == env.digests.of(sel) && s.inflight[id].batch == b
    requires Consistent(s.tables)
    ensures ReplyTo(env, s, Finish(id)) == Some((k, Success(b, false)))
  {
  }

  /** Fewer than 128 others since: the key is among the last 128 remembered, so its replay record is kept. */
  lemma RecentKept(order: seq<Key>, keys: set<Key>, k: Key, created: set<Key>)
    requires Lists(order, keys) && Since(order, k, created) && |created - {k}| < MAXIMUM_CACHED_BATCHES
    ensures k in KeepLast(order, MAXIMUM_CACHED_BATCHES) && k in keys
  {
    var a: nat :| AgeIs(order, k, a) && forall b: nat :: b < a ==> FromEnd(order, b) in created;
    ListsDistinct(order, keys);
    LaterCreated(order, k, created, a);
    var w := KeepLast(order, MAXIMUM_CACHED_BATCHES);
    assert w[|w| - 1 - a] == k;
    assert order[|order| - 1 - a] in Elements(order);
  }

  lemma LaterCreated(order: seq<Key>, k: Key, created: set<Key>, a: nat)
    requires Distinct(order) && AgeIs(order, k, a) && forall b: nat :: b < a ==> FromEnd(order, b) in created
    ensures a <= |created - {k}|
  {
    var n := |order| - a;
    var last := order[n..];
    forall x | x in Elements(last) ensures x in created - {k} {
      var i :| 0 <= i < |last| && last[i] == x;
      var j, m := n + i, n - 1;
      assert FromEnd(order, a - 1 - i) == order[j] == x && order[m] == k;
    }
    DistinctSize(last);
    SubsetSize(Elements(last), created - {k});
  }

  lemma RecentReplay(t: Tables, k: Key, created: set<Key>)
    requires Consistent(t) && Since(t.requests.remembered.order, k, created)
    requires |created - {k}| < MAXIMUM_CACHED_BATCHES
    ensures k in t.requests.replays.entries && k in t.requests.remembered.entries
  {
    RecentKept(t.requests.remembered.order, t.requests.remembered.entries.Keys, k, created);
    assert k in Elements(t.requests.replays.order);
  }

  /** Enough other keys were created, or the key's only answer is still b. */
  ghost predicate RecordedFaithful(env: Environment, k: Key, sel: Selection, b: LabelBatch, r: Recorded) {
    && RecordedSince(env, k, r)
    && (|r.created - {k}| < MAXIMUM_CACHED_BATCHES ==> SystemFaithful(env, r.system, k, sel, b))
  }

  lemma RecordFaithfulNext(
      env: Environment, k: Key, sel: Selection, b: LabelBatch, r: Recorded, step: Step)
    requires RecordedFaithful(env, k, sel, b, r) && ValidStep(env, step)
    ensures RecordedFaithful(env, k, sel, b, Recorder(env)(r, step))
  {
    RecordNext(env, r, step, k);
    var u := Recorder(env)(r, step);
    if |u.created - {k}| < MAXIMUM_CACHED_BATCHES {
      SubsetSize(r.created - {k}, u.created - {k});
      RecentReplay(u.system.tables, k, u.created);
      NextFaithful(env, r.system, step, k, sel, b);
    }
  }

  lemma FaithfulRun(env: Environment, t: System, steps: seq<Step>, k: Key, sel: Selection, b: LabelBatch)
    requires SystemOk(env, t) && ValidSteps(env, steps)
    requires AgeIs(RequestOrder(t), k, 0) && SystemFaithful(env, t, k, sel, b)
    requires |CreatedKeys(env, t, steps) - {k}| < MAXIMUM_CACHED_BATCHES
    ensures SystemOk(env, Run(env, t, steps)) && SystemFaithful(env, Run(env, t, steps), k, sel, b)
    ensures k in Run(env, t, steps).tables.requests.replays.entries
  {
    var next, ok := Recorder(env), (step: Step) => ValidStep(env, step);
    var always, fine := (r: Recorded) => true, (r: Recorded, step: Step) => true;
    var good := (r: Recorded) => RecordedFaithful(env, k, sel, b, r);
    forall r, step | good(r) && ok(step) ensures good(next(r, step)) {
      RecordFaithfulNext(env, k, sel, b, r, step);
    }
    assert good(Recorded(t, {}));
    Runs.RunKeeps(next, ok, always, good, fine, Recorded(t, {}), steps);
    RecordedSystem(env, t, steps);
    RecentReplay(Run(env, t, steps).tables, k, CreatedKeys(env, t, steps));
  }

  /**
    Over every interleaving: after a request has created its key with batch b, while the others in flight for it
    agree, and fewer than 128 other keys were created since, a repeated request is not refused, cached or not:
    it is answered with b, or is on its way with b, and then is answered with b if it finishes at once.
   */
  lemma RecentRetries(env: Environment, s: System, id: int, p: Pending, t: System, steps: seq<Step>, j: int, r: Request)
    requires SystemOk(env, s) && id in s.inflight && p == s.inflight[id] && Creates(env, s, Finish(id))
    requires t == Next(env, s, Finish(id)) && RivalsAgree(t, p.key, p.replay.digest, p.batch)
    requires ValidSteps(env, steps) && |CreatedKeys(env, t, steps) - {p.key}| < 128
    requires r.key == p.key && r.selection == p.selection && j !in Run(env, t, steps).inflight
    ensures var u := Run(env, t, steps);
            && LeadsToBatch(env, u, j, r, p.batch)
            && (j in Next(env, u, Start(j, r)).inflight ==>
                  ReplyTo(env, Next(env, u, Start(j, r)), Finish(j)) == Some((r.key, Success(p.batch, false))))
  {
    CreatedFaithful(env, s, id, p);
    CreatedIsNewest(env, s, id);
    FaithfulRun(env, t, steps, p.key, p.selection, p.batch);
    RetryFrom(env, Run(env, t, steps), j, r, p.batch);
  }

  lemma RetryFrom(env: Environment, u: System, j: int, r: Request, b: LabelBatch)
    requires Consistent(u.tables) && Faithful(env, u.tables, r.key, r.selection, b) && Renderable(r.selection, b)
    requires r.key in u.tables.requests.replays.entries && j !in u.inflight
    ensures LeadsToBatch(env, u, j, r, b)
    ensures j in Next(env, u, Start(j, r)).inflight ==>
              ReplyTo(env, Next(env, u, Start(j, r)), Finish(j)) == Some((r.key, Success(b, false)))
  {
    StartAgain(env, u, j, r, b);
    if j in Next(env, u, Start(j, r)).inflight {
      FinishAgain(env, Next(env, u, Start(j, r)), j, r.key, r.selection, b);
    }
  }

  // ----- One request at a time --------------------------------------------------------------

  /** The requests as steps, each started and finished before the next. */
  function StepsOf(rs: seq<Request>): seq<Step> {
    if rs == [] then [] else [Start(0, rs[0]), Finish(0)] + StepsOf(rs[1..])
  }

  function CreatedServing(env: Environment, t: Tables, r: Request): set<Key> {
    if Serve(env, t, r).1.Success? && Serve(env, t, r).1.created then {r.key} else {}
  }

  /** The keys that serving the requests creates. */
  function ServedKeys(env: Environment, t: Tables, rs: seq<Request>): set<Key>
    decreases rs
  {
    if rs == [] then {} else CreatedServing(env, t, rs[0]) + ServedKeys(env, Serve(env, t, rs[0]).0, rs[1..])
  }

  lemma ServedSteps(env: Environment, t: Tables, r: Request, created: set<Key>)
    ensures Recorder(env)(Recorder(env)(Recorded(System(t, map[]), created), Start(0, r)), Finish(0))
         == Recorded(System(Serve(env, t, r).0, map[]), created + CreatedServing(env, t, r))
  {
    ServeIsStartThenFinish(env, t, r, 0);
    var s := System(t, map[]);
    var u := Next(env, s, Start(0, r));
    assert CreatedBy(env, s, Start(0, r)) == {};
    assert CreatedBy(env, u, Finish(0)) == CreatedServing(env, t, r);
  }

  lemma RunPair<S, A>(next: (S, A) -> S, s: S, a: A, b: A, rest: seq<A>)
    ensures Runs.Run(next, s, [a, b] + rest) == Runs.Run(next, next(next(s, a), b), rest)
  {
    Runs.RunConcat(next, s, [a, b], rest);
    assert [a, b][1..] == [b] && [b][1..] == [];
  }

  lemma {:induction false} SerialRun(env: Environment, t: Tables, rs: seq<Request>, created: set<Key>)
    ensures Runs.Run(Recorder(env), Recorded(System(t, map[]), created), StepsOf(rs))
         == Recorded(System(ServeAll(env, t, rs), map[]), created + ServedKeys(env, t, rs))
    decreases rs
  {
    if rs != [] {
      RunPair(Recorder(env), Recorded(System(t, map[]), created), Start(0, rs[0]), Finish(0), StepsOf(rs[1..]));
      ServedSteps(env, t, rs[0], created);
      SerialRun(env, Serve(env, t, rs[0]).0, rs[1..], created + CreatedServing(env, t, rs[0]));
    }
  }

  lemma {:induction false} StepsValid(env: Environment, rs: seq<Request>)
    requires ValidRequests(env, rs)
    ensures ValidSteps(env, StepsOf(rs))
  {
    if rs != [] {
      StepsValid(env, rs[1..]);
    }
  }

  lemma SerialFaithfulRun(env: Environment, t: Tables, rs: seq<Request>, k: Key, sel: Selection, b: LabelBatch)
    requires Consistent(t) && ValidRequests(env, rs) && AgeIs(t.requests.remembered.order, k, 0)
    requires Faithful(env, t, k, sel, b) && |ServedKeys(env, t, rs) - {k}| < MAXIMUM_CACHED_BATCHES
    ensures var u := ServeAll(env, t, rs);
            Consistent(u) && Faithful(env, u, k, sel, b) && k in u.requests.replays.entries
  {
    var s := System(t, map[]);
    StepsValid(env, rs);
    SerialRun(env, t, rs, {});
    assert {} + ServedKeys(env, t, rs) == ServedKeys(env, t, rs);
    RecordedSystem(env, s, StepsOf(rs));
    FaithfulRun(env, s, StepsOf(rs), k, sel, b);
  }

  /** Served while its replay record is there, a repeated request gets b. */
  lemma ServeAgain(env: Environment, t: Tables, r: Request, b: LabelBatch)
    requires Consistent(t) && Faithful(env, t, r.key, r.selection, b) && Renderable(r.selection, b)
    requires r.key in t.requests.replays.entries
    ensures Serve(env, t, r).1 == Success(b, false)
  {
    BeginAgain(env, t, r, b);
  }

  /**
    Served one at a time: after a request has created its key with batch b, a repeated request still gets b,
    whatever was evicted, as long as fewer than 128 other keys were created since.
   */
  lemma SerialRetries(env: Environment, t: Tables, r: Request, rs: seq<Request>, again: Request)
    requires Consistent(t) && ValidRequest(env, r) && ValidRequests(env, rs)
    requires Serve(env, t, r).1.Success? && Serve(env, t, r).1.created
    requires |ServedKeys(env, Serve(env, t, r).0, rs) - {r.key}| < 128
    requires again.key == r.key && again.selection == r.selection
    ensures Serve(env, ServeAll(env, Serve(env, t, r).0, rs), again).1 == Success(Serve(env, t, r).1.batch, false)
  {
    var p := CreatedRenders(env, t, r);
    BeginPending(env, t, r);
    CreatedLeaves(env, t, p);
    RetriesFrom(env, Finished(t, p), rs, again, p.batch);
  }

  lemma RetriesFrom(env: Environment, u: Tables, rs: seq<Request>, again: Request, b: LabelBatch)
    requires Consistent(u) && ValidRequests(env, rs) && AgeIs(u.requests.remembered.order, again.key, 0)
    requires Faithful(env, u, again.key, again.selection, b) && Renderable(again.selection, b)
    requires |ServedKeys(env, u, rs) - {again.key}| < MAXIMUM_CACHED_BATCHES
    ensures Serve(env, ServeAll(env, u, rs), again).1 == Success(b, false)
  {
    SerialFaithfulRun(env, u, rs, again.key, again.selection, b);
    ServeAgain(env, ServeAll(env, u, rs), again, b);
  }

  /** Only a request under a new key that rendered is reported created. */
  lemma CreatedRenders(env: Environment, t: Tables, r: Request) returns (p: Pending)
    requires Serve(env, t, r).1.Success? && Serve(env, t, r).1.created
    ensures Begin(env, t, r) == Rendering(p) && Serve(env, t, r) == (Finished(t, p), FinishReply(t, p))
    ensures p.key == r.key && p.key !in t.requests.remembered.entries && p.key !in t.batches.entries
    ensures FinishReply(t, p) == Success(p.batch, true)
  {
    p := Begin(env, t, r).pending;
  }

  lemma CreatedLeaves(env: Environment, t: Tables, p: Pending)
    requires Consistent(t) && PendingOk(env, p) && FinishReply(t, p) == Success(p.batch, true)
    ensures Consistent(Finished(t, p)) && Faithful(env, Finished(t, p), p.key, p.selection, p.batch)
    ensures AgeIs(Finished(t, p).requests.remembered.order, p.key, 0) && Renderable(p.selection, p.batch)
  {
    CommitConsistent(t, p.key, p.replay, p.batch);
    FinishCreates(env, t, p);
    NewestPushed(t, p);
  }

  lemma NewestPushed(t: Tables, p: Pending)
    requires FinishReply(t, p) == Success(p.batch, true) && p.key !in t.requests.remembered.entries
    ensures AgeIs(Finished(t, p).requests.remembered.order, p.key, 0)
  {
  }

  // ----- What is in a batch -----------------------------------------------------------------

  /** A batch made for a request from the records given to it. */
  predicate MadeFor(env: Environment, r: Request, b: LabelBatch) {
    && r.records.Some?
    && env.render(r.selection.output, r.template, r.records.value, r.selection.testPrint) == Some(b.contents)
    && b.template == r.template && b.output == r.selection.output && b.testPrint == r.selection.testPrint
    && b.itemCount == |r.records.value| && b.mediaType == env.mediaType(r.selection.output)
    && b.id == env.batchId(env.digests.of(r.selection))
    && b.fileName == b.id + "." + env.extension(r.selection.output)
    && b.sha256 == env.checksum(b.contents) && b.createdAt == r.now
    && 1 <= |b.contents| <= 0x40_0000 && (r.selection.output == Svg ==> b.itemCount == 1)
  }

  /** A request that goes on under a new key renders what it asks for, from its own records, dated now. */
  lemma FreshBatch(env: Environment, t: Tables, r: Request)
    requires r.key !in t.requests.remembered.entries && Begin(env, t, r).Rendering?
    ensures MadeFor(env, r, Begin(env, t, r).pending.batch)
  {
  }

  /** It goes on exactly when its records fit, it renders, and the result is within four mebibytes. */
  lemma FreshExactly(env: Environment, t: Tables, r: Request)
    requires r.key !in t.requests.remembered.entries && r.key !in t.batches.entries
    ensures Begin(env, t, r).Rendering? <==>
              && r.records.Some? && (r.selection.output == Svg ==> |r.records.value| == 1)
              && var out := env.render(r.selection.output, r.template, r.records.value, r.selection.testPrint);
                 out.Some? && 1 <= |out.value| <= 0x40_0000
  {
  }

  /** Under a new key such a request is reported created. */
  lemma FreshCreated(env: Environment, t: Tables, r: Request)
    requires r.key !in t.requests.remembered.entries && r.key !in t.batches.entries && Begin(env, t, r).Rendering?
    ensures Serve(env, t, r).1 == Success(Begin(env, t, r).pending.batch, true)
  {
  }

  /** Every reply that reports a key created carries the batch made for that very request. */
  lemma CreatedBatch(env: Environment, t: Tables, r: Request)
    requires Consistent(t) && ValidRequest(env, r) && Serve(env, t, r).1.Success? && Serve(env, t, r).1.created
    ensures MadeFor(env, r, Serve(env, t, r).1.batch)
  {
    var p := CreatedRenders(env, t, r);
    FreshBatch(env, t, r);
  }
}
