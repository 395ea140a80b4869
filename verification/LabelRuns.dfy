/**
  Runs of the label batch service.

  A request is two atomic steps over the shared tables, with rendering between them; a system
  run interleaves the steps of any number of requests. A serial run serves one request at a time.
 */
module LabelRuns {
  import opened Text
  import Runs
  import opened LabelRequests
  import opened LabelTables

  // ----- One request ------------------------------------------------------------------------

  /**
    The valid selections and their digests, the renderers, and what a batch is given besides its contents: its
    identifier from the digest, its file extension and media type from the output, and a checksum.
   */
  datatype Environment = Environment(
    digests: Digester,
    render: (Output, LabelTemplate, seq<LabelRecord>, bool) -> Option<seq<bv8>>,
    batchId: Digest -> string,
    extension: Output -> string,
    mediaType: Output -> string,
    checksum: seq<bv8> -> string)

  /** records is what the current assets give for a fresh label, or None when they do not fit it. */
  datatype Request = Request(
    key: Key, selection: Selection, template: LabelTemplate, records: Option<seq<LabelRecord>>, now: int)

  datatype Failure = BadInput | RenderError | IdempotencyConflict | IdempotencyExpired

  datatype Reply = Failed(failure: Failure) | Success(batch: LabelBatch, created: bool)

  /** A rendered request on its way to the second critical section. */
  datatype Pending = Pending(key: Key, selection: Selection, replay: ReplayEntry, batch: LabelBatch)

  datatype Progress = Answered(reply: Reply) | Rendering(pending: Pending)

  function MakeBatch(env: Environment, sel: Selection, replay: ReplayEntry, contents: seq<bv8>): LabelBatch {
    LabelBatch(env.batchId(replay.digest), replay.template, sel.output, sel.testPrint, |replay.records|,
               env.mediaType(sel.output), env.batchId(replay.digest) + "." + env.extension(sel.output), contents,
               env.checksum(contents),
               replay.createdAt)
  }

  function Render(env: Environment, r: Request, replay: ReplayEntry): Progress {
    var dated := if replay.createdAt == 0 then replay.(createdAt := r.now) else replay;
    if r.selection.output == Svg && |dated.records| != 1 then Answered(Failed(BadInput))
    else
      match env.render(r.selection.output, dated.template, dated.records, r.selection.testPrint)
      case None => Answered(Failed(RenderError))
      case Some(contents) =>
        if |contents| == 0 || |contents| > MAXIMUM_ARTIFACT_BYTES then Answered(Failed(BadInput))
        else Rendering(Pending(r.key, r.selection, dated, MakeBatch(env, r.selection, dated, contents)))
  }

  /** The first critical section and the rendering after it. */
  function Begin(env: Environment, t: Tables, r: Request): Progress {
    var digest := env.digests.of(r.selection);
    match Look(t, r.key, digest)
    case Conflict => Answered(Failed(IdempotencyConflict))
    case Expired => Answered(Failed(IdempotencyExpired))
    case Hit(batch) => Answered(Success(batch, false))
    case Resume(replay) => Render(env, r, replay)
    case Fresh =>
      if r.records.None? then Answered(Failed(BadInput))
      else Render(env, r, ReplayEntry(digest, r.template, r.records.value, 0))
  }

  /** The second critical section. */
  function Finished(t: Tables, p: Pending): Tables {
    Committed(t, p.key, p.replay, p.batch)
  }

  function FinishReply(t: Tables, p: Pending): Reply {
    match Decide(t, p.key, p.replay.digest, p.batch)
    case Refused => Failed(IdempotencyConflict)
    case Existing(batch) => Success(batch, false)
    case Stored(batch, created) => Success(batch, created)
  }

  predicate ValidRequest(env: Environment, r: Request) {
    env.digests.valid(r.selection) && r.now != 0
  }

  /** The batch is what this replay record renders to. */
  ghost predicate Renders(env: Environment, sel: Selection, replay: ReplayEntry, batch: LabelBatch) {
    var out := env.render(sel.output, replay.template, replay.records, sel.testPrint);
    out.Some? && batch == MakeBatch(env, sel, replay, out.value)
  }

  ghost predicate PendingOk(env: Environment, p: Pending) {
    && env.digests.valid(p.selection)
    && p.replay.digest == env.digests.of(p.selection)
    && p.replay.createdAt != 0
    && (p.selection.output == Svg ==> |p.replay.records| == 1)
    && Renders(env, p.selection, p.replay, p.batch)
    && FitsArtifact(p.batch)
  }

  lemma BeginPending(env: Environment, t: Tables, r: Request)
    requires ValidRequest(env, r)
    requires Begin(env, t, r).Rendering?
    ensures PendingOk(env, Begin(env, t, r).pending)
    ensures Begin(env, t, r).pending.key == r.key && Begin(env, t, r).pending.selection == r.selection
  {
  }

  // ----- Interleaved runs -------------------------------------------------------------------

  datatype System = System(tables: Tables, inflight: map<int, Pending>)

  datatype Step = Start(id: int, request: Request) | Finish(id: int) | Abort(id: int)

  const INITIAL := System(EMPTY, map[])

  function Next(env: Environment, s: System, step: Step): System {
    match step
    case Start(id, r) =>
      var progress := Begin(env, s.tables, r);
      if id !in s.inflight && progress.Rendering? then s.(inflight := s.inflight[id := progress.pending]) else s
    case Finish(id) =>
      if id in s.inflight then System(Finished(s.tables, s.inflight[id]), s.inflight - {id}) else s
    case Abort(id) => s.(inflight := s.inflight - {id})
  }

  /** The key and the reply of a step that answers a request. */
  function ReplyTo(env: Environment, s: System, step: Step): Option<(Key, Reply)> {
    match step
    case Start(id, r) =>
      var progress := Begin(env, s.tables, r);
      if id !in s.inflight && progress.Answered? then Some((r.key, progress.reply)) else None
    case Finish(id) =>
      if id in s.inflight then Some((s.inflight[id].key, FinishReply(s.tables, s.inflight[id]))) else None
    case Abort(id) => None
  }

  /** The step function of an environment, as a value. */
  function Stepper(env: Environment): (next: (System, Step) -> System)
    ensures forall s, step {:trigger next(s, step)} :: next(s, step) == Next(env, s, step)
  {
    (s: System, step: Step) => Next(env, s, step)
  }

  function Run(env: Environment, s: System, steps: seq<Step>): System {
    Runs.Run(Stepper(env), s, steps)
  }

  predicate ValidStep(env: Environment, step: Step) {
    step.Start? ==> ValidRequest(env, step.request)
  }

  predicate ValidSteps(env: Environment, steps: seq<Step>) {
    forall i :: 0 <= i < |steps| ==> ValidStep(env, steps[i])
  }

  ghost predicate SystemOk(env: Environment, s: System) {
    Consistent(s.tables) && forall id :: id in s.inflight ==> PendingOk(env, s.inflight[id])
  }

  lemma StartOk(env: Environment, s: System, id: int, r: Request)
    requires SystemOk(env, s) && ValidRequest(env, r)
    ensures SystemOk(env, Next(env, s, Start(id, r)))
  {
    var progress := Begin(env, s.tables, r);
    if progress.Rendering? && id !in s.inflight {
      BeginPending(env, s.tables, r);
      AddPendingOk(env, s, id, progress.pending);
    }
  }

  lemma AddPendingOk(env: Environment, s: System, id: int, p: Pending)
    requires SystemOk(env, s) && PendingOk(env, p)
    ensures SystemOk(env, s.(inflight := s.inflight[id := p]))
  {
  }

  lemma FinishOk(env: Environment, s: System, id: int)
    requires SystemOk(env, s)
    ensures SystemOk(env, Next(env, s, Finish(id)))
  {
    if id in s.inflight {
      CommitConsistent(s.tables, s.inflight[id].key, s.inflight[id].replay, s.inflight[id].batch);
    }
  }

  lemma NextOk(env: Environment, s: System, step: Step)
    requires SystemOk(env, s) && ValidStep(env, step)
    ensures SystemOk(env, Next(env, s, step))
  {
    match step
    case Start(id, r) => StartOk(env, s, id, r);
    case Finish(id) => FinishOk(env, s, id);
    case Abort(id) =>
  }

  /**
    Over every interleaving: the order lists are duplicate-free and hold exactly their tables'
    keys, replays cover the most recent requests, digests agree wherever a key is in two tables,
    the byte counter is exact and every bound holds.
   */
  lemma EveryRunConsistent(env: Environment, s: System, steps: seq<Step>)
    requires SystemOk(env, s) && ValidSteps(env, steps)
    ensures SystemOk(env, Run(env, s, steps))
  {
    var next, ok := Stepper(env), (step: Step) => ValidStep(env, step);
    var always, good, fine := (t: System) => true, (t: System) => SystemOk(env, t), (t: System, step: Step) => true;
    forall t, step | good(t) && ok(step) ensures good(next(t, step)) {
      NextOk(env, t, step);
    }
    Runs.RunKeeps(next, ok, always, good, fine, s, steps);
  }

  lemma InitialOk(env: Environment)
    ensures SystemOk(env, INITIAL)
  {
    EmptyConsistent();
  }

  /** In particular for every run of the service from its start. */
  lemma ReachableConsistent(env: Environment, steps: seq<Step>)
    requires ValidSteps(env, steps)
    ensures SystemOk(env, Run(env, INITIAL, steps))
  {
    InitialOk(env);
    EveryRunConsistent(env, INITIAL, steps);
  }

  /** The bounds as written: 4096 requests remembered, 128 replay records, 128 batches, 8 MiB, 4 MiB for each. */
  lemma ReachableWithin(env: Environment, steps: seq<Step>)
    requires ValidSteps(env, steps)
    ensures var t := Run(env, INITIAL, steps).tables;
            && |t.requests.remembered.entries| <= 4096 && |t.requests.replays.entries| <= 128
            && |t.batches.entries| <= 128 && TotalBytes(t.batches.order, t.batches.entries) <= 8 * 1024 * 1024
            && forall k :: k in t.batches.entries ==> |t.batches.entries[k].batch.contents| <= 4 * 1024 * 1024
  {
    ReachableConsistent(env, steps);
  }

  ghost predicate Remembered(s: System, k: Key) {
    k in s.tables.requests.remembered.entries
  }

  /** A request whose digest differs from the remembered one is refused and changes no table. */
  lemma ConflictChangesNothing(env: Environment, s: System, step: Step, k: Key)
    requires Remembered(s, k)
    requires step.Start? ==> step.request.key == k && step.id !in s.inflight &&
                             env.digests.of(step.request.selection) != s.tables.requests.remembered.entries[k]
    requires step.Finish? ==> step.id in s.inflight && s.inflight[step.id].key == k &&
                              s.inflight[step.id].replay.digest != s.tables.requests.remembered.entries[k]
    ensures !step.Abort? ==> ReplyTo(env, s, step) == Some((k, Failed(IdempotencyConflict)))
    ensures Next(env, s, step).tables == s.tables
  {
  }

  // ----- One key, one answer ----------------------------------------------------------------

  /** What the tables keep for k can only reproduce the batch b. */
  ghost predicate Faithful(env: Environment, t: Tables, k: Key, sel: Selection, b: LabelBatch) {
    && env.digests.valid(sel)
    && k in t.requests.remembered.entries
    && t.requests.remembered.entries[k] == env.digests.of(sel)
    && (k in t.batches.entries ==> t.batches.entries[k].batch == b)
    && (k in t.requests.replays.entries ==>
          t.requests.replays.entries[k].createdAt != 0 && Renders(env, sel, t.requests.replays.entries[k], b))
  }

  lemma BeginFaithful(env: Environment, t: Tables, r: Request, sel: Selection, b: LabelBatch)
    requires Faithful(env, t, r.key, sel, b) && ValidRequest(env, r)
    ensures Begin(env, t, r).Answered? && Begin(env, t, r).reply.Success? ==>
              Begin(env, t, r).reply == Success(b, false)
    ensures Begin(env, t, r).Rendering? ==> Begin(env, t, r).pending.batch == b
  {
    if env.digests.of(r.selection) == env.digests.of(sel) {
      assert r.selection == sel;
    }
  }

  lemma FinishOwn(env: Environment, t: Tables, p: Pending, sel: Selection)
    requires Consistent(t) && PendingOk(env, p)
    requires Faithful(env, t, p.key, sel, p.batch)
    ensures Faithful(env, Finished(t, p), p.key, sel, p.batch)
    ensures FinishReply(t, p).Success? ==> FinishReply(t, p) == Success(p.batch, false)
  {
    if Decide(t, p.key, p.replay.digest, p.batch).Stored? {
      CommitStores(t, p.key, p.replay, p.batch);
    }
  }

  lemma FinishOther(env: Environment, t: Tables, p: Pending, k: Key, sel: Selection, b: LabelBatch)
    requires Consistent(t) && PendingOk(env, p) && p.key != k
    requires Faithful(env, t, k, sel, b)
    requires k in Finished(t, p).requests.remembered.entries
    ensures Faithful(env, Finished(t, p), k, sel, b)
  {
    CommitKeepsOthers(t, p.key, p.replay, p.batch, k);
  }

  lemma FinishCreates(env: Environment, t: Tables, p: Pending)
    requires Consistent(t) && PendingOk(env, p)
    requires FinishReply(t, p).Success? && FinishReply(t, p).created
    ensures FinishReply(t, p).batch == p.batch
    ensures Faithful(env, Finished(t, p), p.key, p.selection, p.batch)
  {
    CommitStores(t, p.key, p.replay, p.batch);
  }

  /** A successful reply for k repeats the batch b. */
  predicate OnlyAnswers(reply: Option<(Key, Reply)>, k: Key, b: LabelBatch) {
    reply.Some? && reply.value.0 == k && reply.value.1.Success? ==> reply.value.1 == Success(b, false)
  }

  /** Every request in flight for k with the given digest holds the batch b. */
  ghost predicate RivalsAgree(s: System, k: Key, digest: Digest, b: LabelBatch) {
    forall id :: id in s.inflight && s.inflight[id].key == k && s.inflight[id].replay.digest == digest ==>
                   s.inflight[id].batch == b
  }

  ghost predicate SystemFaithful(env: Environment, s: System, k: Key, sel: Selection, b: LabelBatch) {
    Faithful(env, s.tables, k, sel, b) && RivalsAgree(s, k, env.digests.of(sel), b)
  }

  lemma StartFaithful(env: Environment, s: System, id: int, r: Request, k: Key, sel: Selection, b: LabelBatch)
    requires ValidRequest(env, r) && SystemFaithful(env, s, k, sel, b)
    ensures SystemFaithful(env, Next(env, s, Start(id, r)), k, sel, b)
    ensures OnlyAnswers(ReplyTo(env, s, Start(id, r)), k, b)
  {
    if r.key == k {
      BeginFaithful(env, s.tables, r, sel, b);
    } else if Begin(env, s.tables, r).Rendering? {
      BeginPending(env, s.tables, r);
    }
  }

  lemma CommitFaithful(env: Environment, t: Tables, p: Pending, k: Key, sel: Selection, b: LabelBatch)
    requires Consistent(t) && PendingOk(env, p) && Faithful(env, t, k, sel, b)
    requires p.key == k && p.replay.digest == env.digests.of(sel) ==> p.batch == b
    requires k in Finished(t, p).requests.remembered.entries
    ensures Faithful(env, Finished(t, p), k, sel, b)
    ensures p.key == k && FinishReply(t, p).Success? ==> FinishReply(t, p) == Success(b, false)
  {
    if p.key != k {
      FinishOther(env, t, p, k, sel, b);
    } else if p.replay.digest == env.digests.of(sel) {
      FinishOwn(env, t, p, sel);
    }
  }

  lemma FinishFaithful(env: Environment, s: System, id: int, k: Key, sel: Selection, b: LabelBatch)
    requires SystemOk(env, s) && SystemFaithful(env, s, k, sel, b) && id in s.inflight
    requires Remembered(Next(env, s, Finish(id)), k)
    ensures SystemFaithful(env, Next(env, s, Finish(id)), k, sel, b)
    ensures OnlyAnswers(ReplyTo(env, s, Finish(id)), k, b)
  {
    CommitFaithful(env, s.tables, s.inflight[id], k, sel, b);
  }

  lemma NextFaithful(env: Environment, s: System, step: Step, k: Key, sel: Selection, b: LabelBatch)
    requires SystemOk(env, s) && ValidStep(env, step) && SystemFaithful(env, s, k, sel, b)
    requires Remembered(Next(env, s, step), k)
    ensures SystemFaithful(env, Next(env, s, step), k, sel, b)
    ensures OnlyAnswers(ReplyTo(env, s, step), k, b)
  {
    match step
    case Start(id, r) => StartFaithful(env, s, id, r, k, sel, b);
    case Finish(id) =>
      if id in s.inflight {
        FinishFaithful(env, s, id, k, sel, b);
      }
    case Abort(id) =>
  }

  /** The key is remembered, as a test of states. */
  ghost function Remembering(k: Key): (holds: System -> bool)
    ensures forall s :: holds(s) <==> Remembered(s, k)
  {
    (s: System) => Remembered(s, k)
  }

  ghost predicate RememberedThroughout(env: Environment, s: System, steps: seq<Step>, k: Key) {
    Runs.Always(Stepper(env), s, steps, Remembering(k))
  }

  /** Every successful reply for k along the steps repeats the batch b. */
  ghost predicate AgreeOver(env: Environment, s: System, steps: seq<Step>, k: Key, b: LabelBatch) {
    forall i :: 0 <= i < |steps| ==> OnlyAnswers(ReplyTo(env, Run(env, s, steps[..i]), steps[i]), k, b)
  }

  lemma FaithfulReplies(env: Environment, s: System, steps: seq<Step>, k: Key, sel: Selection, b: LabelBatch)
    requires SystemOk(env, s) && ValidSteps(env, steps) && SystemFaithful(env, s, k, sel, b)
    requires RememberedThroughout(env, s, steps, k)
    ensures AgreeOver(env, s, steps, k, b)
  {
    var next, ok := Stepper(env), (step: Step) => ValidStep(env, step);
    var good := (t: System) => SystemOk(env, t) && SystemFaithful(env, t, k, sel, b);
    var fine := (t: System, step: Step) => OnlyAnswers(ReplyTo(env, t, step), k, b);
    forall t, step | good(t) && ok(step) && Remembering(k)(next(t, step)) ensures good(next(t, step)) && fine(t, step) {
      NextOk(env, t, step);
      NextFaithful(env, t, step, k, sel, b);
    }
    Runs.RunKeeps(next, ok, Remembering(k), good, fine, s, steps);
    forall i | 0 <= i < |steps| ensures OnlyAnswers(ReplyTo(env, Run(env, s, steps[..i]), steps[i]), k, b) {
      assert fine(Runs.Run(next, s, steps[..i]), steps[i]);
    }
  }

  /**
    Over every interleaving: once a key is created while every other request in flight for it with the
    same digest holds the same batch, every later successful reply for the key is that batch in every
    field, as long as the key is remembered, whatever the assets have become and whatever has been evicted.
   */
  lemma RepliesAgree(env: Environment, s: System, id: int, steps: seq<Step>)
    requires SystemOk(env, s) && ValidSteps(env, steps)
    requires id in s.inflight
    requires FinishReply(s.tables, s.inflight[id]).Success? && FinishReply(s.tables, s.inflight[id]).created
    requires RivalsAgree(
               Next(env, s, Finish(id)), s.inflight[id].key, s.inflight[id].replay.digest, s.inflight[id].batch)
    requires RememberedThroughout(env, Next(env, s, Finish(id)), steps, s.inflight[id].key)
    ensures AgreeOver(env, Next(env, s, Finish(id)), steps, s.inflight[id].key, s.inflight[id].batch)
  {
    var p := s.inflight[id];
    CreatedFaithful(env, s, id, p);
    FaithfulReplies(env, Next(env, s, Finish(id)), steps, p.key, p.selection, p.batch);
  }

  lemma CreatedFaithful(env: Environment, s: System, id: int, p: Pending)
    requires SystemOk(env, s) && id in s.inflight && p == s.inflight[id]
    requires FinishReply(s.tables, p).Success? && FinishReply(s.tables, p).created
    requires RivalsAgree(Next(env, s, Finish(id)), p.key, p.replay.digest, p.batch)
    ensures SystemOk(env, Next(env, s, Finish(id)))
    ensures SystemFaithful(env, Next(env, s, Finish(id)), p.key, p.selection, p.batch)
  {
    FinishCreates(env, s.tables, p);
    FinishOk(env, s, id);
  }
}
