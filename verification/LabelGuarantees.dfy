/**
  What callers of the label batch service may rely on: how long a key is remembered, that an
  expired key stays expired, and, when requests are served one at a time, that a cached batch is
  always of a remembered key and that repeated requests get one answer.
 */
module LabelGuarantees {
  import opened Text
  import opened Sequences
  import Runs
  import opened LabelRequests
  import opened LabelTables
  import opened LabelRuns

  // ----- How long a key is remembered -------------------------------------------------------

  /** The element that only the last a elements follow. */
  function FromEnd(order: seq<Key>, a: nat): Key
    requires a < |order|
  {
    order[|order| - 1 - a]
  }

  /** k was appended just before the last a elements of order. */
  predicate AgeIs(order: seq<Key>, k: Key, a: nat) {
    a < |order| && FromEnd(order, a) == k
  }

  predicate Creates(env: Environment, s: System, step: Step) {
    var reply := ReplyTo(env, s, step);
    reply.Some? && reply.value.1.Success? && reply.value.1.created
  }

  function RequestOrder(s: System): seq<Key> {
    s.tables.requests.remembered.order
  }

  /** The key a step creates, if it creates one. */
  function CreatedBy(env: Environment, s: System, step: Step): set<Key> {
    if Creates(env, s, step) then {ReplyTo(env, s, step).value.0} else {}
  }

  /** A system with the keys created so far. */
  datatype Recorded = Recorded(system: System, created: set<Key>)

  function Recorder(env: Environment): (next: (Recorded, Step) -> Recorded)
    ensures forall r, step {:trigger next(r, step)} ::
              next(r, step) == Recorded(Next(env, r.system, step), r.created + CreatedBy(env, r.system, step))
  {
    (r: Recorded, step: Step) => Recorded(Next(env, r.system, step), r.created + CreatedBy(env, r.system, step))
  }

  /** The keys a run creates. */
  function CreatedKeys(env: Environment, s: System, steps: seq<Step>): set<Key> {
    Runs.Run(Recorder(env), Recorded(s, {}), steps).created
  }

  lemma RecordedSystem(env: Environment, s: System, steps: seq<Step>)
    ensures Runs.Run(Recorder(env), Recorded(s, {}), steps).system == Run(env, s, steps)
  {
    Runs.RunProjected(Recorder(env), (r: Recorded) => r.system, Stepper(env), Recorded(s, {}), steps);
  }

  /** A creation appends its key to the remembered requests, within the window; it was not there. */
  lemma CreationAppends(env: Environment, s: System, step: Step)
    requires Creates(env, s, step)
    ensures step.Finish? && step.id in s.inflight && CreatedBy(env, s, step) == {s.inflight[step.id].key}
    ensures !Remembered(s, s.inflight[step.id].key)
    ensures RequestOrder(Next(env, s, step))
         == KeepLast(RequestOrder(s) + [s.inflight[step.id].key], MAXIMUM_REMEMBERED)
  {
  }

  lemma OrderUnchanged(env: Environment, s: System, step: Step)
    requires !Creates(env, s, step)
    ensures RequestOrder(Next(env, s, step)) == RequestOrder(s)
  {
  }

  /** Only created keys are remembered after k; or enough others were created for k to be forgotten. */
  ghost predicate Since(order: seq<Key>, k: Key, created: set<Key>) {
    || (exists a: nat :: AgeIs(order, k, a) && forall b: nat :: b < a ==> FromEnd(order, b) in created)
    || |created - {k}| >= MAXIMUM_REMEMBERED
  }

  /** A push moves every key that stays one place further from the end. */
  lemma OlderByOne(order: seq<Key>, key: Key, a: nat)
    requires a < |order| && a + 1 < MAXIMUM_REMEMBERED
    ensures var after := KeepLast(order + [key], MAXIMUM_REMEMBERED);
            a + 1 < |after| && FromEnd(after, a + 1) == FromEnd(order, a) && FromEnd(after, 0) == key
  {
  }

  lemma SincePushed(order: seq<Key>, keys: set<Key>, k: Key, created: set<Key>, q: Key)
    requires Lists(order, keys) && |order| <= MAXIMUM_REMEMBERED && q !in keys && q != k
    requires Since(order, k, created)
    ensures Since(KeepLast(order + [q], MAXIMUM_REMEMBERED), k, created + {q})
  {
    if |created - {k}| >= MAXIMUM_REMEMBERED {
      SubsetSize(created - {k}, (created + {q}) - {k});
    } else {
      var a: nat :| AgeIs(order, k, a) && forall b: nat :: b < a ==> FromEnd(order, b) in created;
      var after := KeepLast(order + [q], MAXIMUM_REMEMBERED);
      if a + 1 < MAXIMUM_REMEMBERED {
        OlderByOne(order, q, a);
        assert AgeIs(after, k, a + 1);
        forall b: nat | b < a + 1 ensures FromEnd(after, b) in created + {q} {
          if b > 0 {
            OlderByOne(order, q, b - 1);
            assert FromEnd(after, b) == FromEnd(order, b - 1);
          }
        }
      } else {
        WindowCreated(order, keys, k, created, q);
      }
    }
  }

  lemma WindowCreated(order: seq<Key>, keys: set<Key>, k: Key, created: set<Key>, q: Key)
    requires Lists(order, keys) && |order| == MAXIMUM_REMEMBERED && q !in keys && q != k && order[0] == k
    requires forall b: nat :: b < MAXIMUM_REMEMBERED - 1 ==> FromEnd(order, b) in created
    ensures |(created + {q}) - {k}| >= MAXIMUM_REMEMBERED
  {
    ListsTail(order, keys);
    var others := Elements(order[1..]);
    forall x | x in others ensures x in created {
      var i :| 0 <= i < |order| - 1 && order[1..][i] == x;
      assert FromEnd(order, MAXIMUM_REMEMBERED - 2 - i) == x;
    }
    assert |others + {q}| == MAXIMUM_REMEMBERED;
    SubsetSize(others + {q}, (created + {q}) - {k});
  }

  lemma SinceNext(env: Environment, s: System, step: Step, k: Key, created: set<Key>)
    requires SystemOk(env, s) && Since(RequestOrder(s), k, created)
    requires !(Creates(env, s, step) && k in CreatedBy(env, s, step))
    ensures Since(RequestOrder(Next(env, s, step)), k, created + CreatedBy(env, s, step))
  {
    if Creates(env, s, step) {
      CreationAppends(env, s, step);
      SincePushed(RequestOrder(s), s.tables.requests.remembered.entries.Keys, k, created, s.inflight[step.id].key);
    } else {
      OrderUnchanged(env, s, step);
      assert created + {} == created;
    }
  }

  lemma NotAged(order: seq<Key>, keys: set<Key>, k: Key)
    requires Lists(order, keys) && k !in keys
    ensures forall a: nat :: !AgeIs(order, k, a)
  {
    forall a: nat | a < |order| ensures FromEnd(order, a) != k {
      assert FromEnd(order, a) in Elements(order);
    }
  }

  lemma CreatedIsForgotten(env: Environment, s: System, step: Step, k: Key, created: set<Key>)
    requires SystemOk(env, s) && Since(RequestOrder(s), k, created)
    requires Creates(env, s, step) && k in CreatedBy(env, s, step)
    ensures !Remembered(s, k) && |created - {k}| >= MAXIMUM_REMEMBERED
  {
    CreationAppends(env, s, step);
    NotAged(RequestOrder(s), s.tables.requests.remembered.entries.Keys, k);
  }

  ghost predicate RecordedSince(env: Environment, k: Key, r: Recorded) {
    SystemOk(env, r.system) && Since(RequestOrder(r.system), k, r.created)
  }

  lemma RecordNext(env: Environment, r: Recorded, step: Step, k: Key)
    requires RecordedSince(env, k, r) && ValidStep(env, step)
    ensures RecordedSince(env, k, Recorder(env)(r, step))
  {
    NextOk(env, r.system, step);
    if Creates(env, r.system, step) && k in CreatedBy(env, r.system, step) {
      CreatedIsForgotten(env, r.system, step, k, r.created);
      SubsetSize(r.created - {k}, (r.created + CreatedBy(env, r.system, step)) - {k});
    } else {
      SinceNext(env, r.system, step, k, r.created);
    }
  }

  lemma SinceRun(env: Environment, s: System, steps: seq<Step>, k: Key)
    requires SystemOk(env, s) && ValidSteps(env, steps) && AgeIs(RequestOrder(s), k, 0)
    ensures SystemOk(env, Run(env, s, steps)) && Since(RequestOrder(Run(env, s, steps)), k, CreatedKeys(env, s, steps))
  {
    var next, ok := Recorder(env), (step: Step) => ValidStep(env, step);
    var always, fine := (r: Recorded) => true, (r: Recorded, step: Step) => true;
    var good := (r: Recorded) => RecordedSince(env, k, r);
    forall r, step | good(r) && ok(step) ensures good(next(r, step)) {
      RecordNext(env, r, step, k);
    }
    assert good(Recorded(s, {}));
    Runs.RunKeeps(next, ok, always, good, fine, Recorded(s, {}), steps);
    RecordedSystem(env, s, steps);
  }

  lemma CreatedIsNewest(env: Environment, s: System, id: int)
    requires id in s.inflight && Creates(env, s, Finish(id))
    ensures AgeIs(RequestOrder(Next(env, s, Finish(id))), s.inflight[id].key, 0)
  {
    CreationAppends(env, s, Finish(id));
  }

  /**
    Over every interleaving, a key is not reported created twice until it has been forgotten, and
    between the two at least 4096 different other keys were created.
   */
  lemma CreatedAgainOnlyAfterFullWindow(
      env: Environment, s: System, first: int, k: Key, t: System, steps: seq<Step>, second: Step)
    requires SystemOk(env, s) && ValidSteps(env, steps)
    requires first in s.inflight && Creates(env, s, Finish(first)) && k == s.inflight[first].key
    requires t == Next(env, s, Finish(first))
    requires Creates(env, Run(env, t, steps), second) && k in CreatedBy(env, Run(env, t, steps), second)
    ensures !Remembered(Run(env, t, steps), k)
    ensures |CreatedKeys(env, t, steps) - {k}| >= 4096
  {
    NextOk(env, s, Finish(first));
    CreatedIsNewest(env, s, first);
    SinceRun(env, t, steps, k);
    CreatedIsForgotten(env, Run(env, t, steps), second, k, CreatedKeys(env, t, steps));
  }

  // ----- An expired key ---------------------------------------------------------------------

  /** Remembered, but with nothing left in the tables to answer from. */
  ghost predicate Gone(s: System, k: Key) {
    Remembered(s, k) && k !in s.tables.batches.entries && k !in s.tables.requests.replays.entries
  }

  /** A request for such a key is refused at once, as expired or, with another digest, as a conflict. */
  lemma ExpiredAtOnce(env: Environment, s: System, id: int, r: Request)
    requires Gone(s, r.key) && id !in s.inflight
    ensures Next(env, s, Start(id, r)) == s
    ensures ReplyTo(env, s, Start(id, r))
         == Some((r.key, Failed(if env.digests.of(r.selection) == s.tables.requests.remembered.entries[r.key]
                                then IdempotencyExpired else IdempotencyConflict)))
  {
  }

  /** The batches already rendered for k and still on their way. */
  function HeldBatches(s: System, k: Key): (held: set<LabelBatch>)
    ensures forall id :: id in s.inflight && s.inflight[id].key == k ==> s.inflight[id].batch in held
  {
    set id | id in s.inflight && s.inflight[id].key == k :: s.inflight[id].batch
  }

  /** Nothing is left of k but these batches. */
  ghost predicate Spent(s: System, k: Key, held: set<LabelBatch>) {
    && Remembered(s, k) && k !in s.tables.requests.replays.entries
    && (k in s.tables.batches.entries ==> s.tables.batches.entries[k].batch in held)
    && forall id :: id in s.inflight && s.inflight[id].key == k ==> s.inflight[id].batch in held
  }

  /** A reply for k is a refusal or one of these batches. */
  ghost predicate OnlyHeld(reply: Option<(Key, Reply)>, k: Key, held: set<LabelBatch>) {
    reply.Some? && reply.value.0 == k ==>
      || reply.value.1 == Failed(IdempotencyExpired) || reply.value.1 == Failed(IdempotencyConflict)
      || (reply.value.1.Success? && !reply.value.1.created && reply.value.1.batch in held)
  }

  lemma StartSpent(env: Environment, s: System, id: int, r: Request, k: Key, held: set<LabelBatch>)
    requires ValidRequest(env, r) && Spent(s, k, held)
    ensures Spent(Next(env, s, Start(id, r)), k, held) && OnlyHeld(ReplyTo(env, s, Start(id, r)), k, held)
  {
    if Begin(env, s.tables, r).Rendering? {
      BeginPending(env, s.tables, r);
    }
  }

  lemma FinishSpent(env: Environment, s: System, id: int, k: Key, held: set<LabelBatch>)
    requires SystemOk(env, s) && Spent(s, k, held) && id in s.inflight && Remembered(Next(env, s, Finish(id)), k)
    ensures Spent(Next(env, s, Finish(id)), k, held) && OnlyHeld(ReplyTo(env, s, Finish(id)), k, held)
  {
    var p := s.inflight[id];
    if p.key != k {
      CommitKeepsOthers(s.tables, p.key, p.replay, p.batch, k);
    } else if Decide(s.tables, k, p.replay.digest, p.batch).Stored? {
      CommitStores(s.tables, k, p.replay, p.batch);
    }
  }

  lemma NextSpent(env: Environment, s: System, step: Step, k: Key, held: set<LabelBatch>)
    requires SystemOk(env, s) && ValidStep(env, step) && Spent(s, k, held) && Remembered(Next(env, s, step), k)
    ensures Spent(Next(env, s, step), k, held) && OnlyHeld(ReplyTo(env, s, step), k, held)
  {
    match step
    case Start(id, r) => StartSpent(env, s, id, r, k, held);
    case Finish(id) =>
      if id in s.inflight {
        FinishSpent(env, s, id, k, held);
      }
    case Abort(id) =>
  }

  /**
    A remembered key whose replay record and batch are gone is never rendered again: until the key is
    forgotten, every reply for it is a refusal or a batch that was already on its way.
   */
  lemma ExpiredStaysExpired(env: Environment, s: System, steps: seq<Step>, k: Key)
    requires SystemOk(env, s) && ValidSteps(env, steps) && Gone(s, k) && RememberedThroughout(env, s, steps, k)
    ensures forall i :: 0 <= i < |steps| ==>
              OnlyHeld(ReplyTo(env, Run(env, s, steps[..i]), steps[i]), k, HeldBatches(s, k))
  {
    var held := HeldBatches(s, k);
    var next, ok := Stepper(env), (step: Step) => ValidStep(env, step);
    var good := (t: System) => SystemOk(env, t) && Spent(t, k, held);
    var fine := (t: System, step: Step) => OnlyHeld(ReplyTo(env, t, step), k, held);
    forall t, step | good(t) && ok(step) && Remembering(k)(next(t, step)) ensures good(next(t, step)) && fine(t, step) {
      NextOk(env, t, step);
      NextSpent(env, t, step, k, held);
    }
    Runs.RunKeeps(next, ok, Remembering(k), good, fine, s, steps);
    forall i | 0 <= i < |steps| ensures OnlyHeld(ReplyTo(env, Run(env, s, steps[..i]), steps[i]), k, held) {
      assert fine(Runs.Run(next, s, steps[..i]), steps[i]);
    }
  }

  // ----- Serial runs ------------------------------------------------------------------------

  function Serve(env: Environment, t: Tables, r: Request): (Tables, Reply) {
    match Begin(env, t, r)
    case Answered(reply) => (t, reply)
    case Rendering(p) => (Finished(t, p), FinishReply(t, p))
  }

  /** Serving one request, as a step of the tables. */
  function Server(env: Environment): (next: (Tables, Request) -> Tables)
    ensures forall t, r {:trigger next(t, r)} :: next(t, r) == Serve(env, t, r).0
  {
    (t: Tables, r: Request) => Serve(env, t, r).0
  }

  function ServeAll(env: Environment, t: Tables, rs: seq<Request>): Tables {
    Runs.Run(Server(env), t, rs)
  }

  /** One request end to end on the mutable tables, undisturbed by others. */
  method CreateBatch(env: Environment, cache: LabelCache, r: Request) returns (reply: Reply)
    requires Consistent(cache.State()) && ValidRequest(env, r)
    modifies cache
    ensures cache.State() == Serve(env, old(cache.State()), r).0 && Consistent(cache.State())
    ensures reply == Serve(env, old(cache.State()), r).1
  {
    var digest := env.digests.of(r.selection);
    var finding := cache.Lookup(r.key, digest);
    var progress;
    match finding {
      case Conflict => return Failed(IdempotencyConflict);
      case Expired => return Failed(IdempotencyExpired);
      case Hit(batch) => return Success(batch, false);
      case Resume(replay) => progress := Render(env, r, replay);
      case Fresh =>
        if r.records.None? {
          return Failed(BadInput);
        }
        progress := Render(env, r, ReplayEntry(digest, r.template, r.records.value, 0));
    }
    if progress.Answered? {
      return progress.reply;
    }
    BeginPending(env, cache.State(), r);
    var p := progress.pending;
    var outcome := cache.Commit(p.key, p.replay, p.batch);
    match outcome {
      case Refused => reply := Failed(IdempotencyConflict);
      case Existing(batch) => reply := Success(batch, false);
      case Stored(batch, created) => reply := Success(batch, created);
    }
  }

  /** Serving is starting and finishing with nothing between. */
  lemma ServeIsStartThenFinish(env: Environment, t: Tables, r: Request, id: int)
    ensures var s := System(t, map[]);
            var u := Next(env, s, Start(id, r));
            && Next(env, u, Finish(id)) == System(Serve(env, t, r).0, map[])
            && (if Begin(env, t, r).Answered? then ReplyTo(env, s, Start(id, r)) else ReplyTo(env, u, Finish(id)))
               == Some((r.key, Serve(env, t, r).1))
  {
    var s := System(t, map[]);
    var u := Next(env, s, Start(id, r));
    if Begin(env, t, r).Rendering? {
      assert u.inflight - {id} == map[];
    }
  }

  ghost predicate ShadowedAt(requests: seq<Key>, k: Key, q: nat) {
    exists a: nat :: AgeIs(requests, k, a) && a <= MAXIMUM_CACHED_BATCHES - 1 + q
  }

  /** At most 127 more requests are remembered after a cached key than batches are cached after it. */
  ghost predicate Shadowed(requests: seq<Key>, batches: seq<Key>) {
    forall q: nat :: q < |batches| ==> ShadowedAt(requests, FromEnd(batches, q), q)
  }

  lemma ShadowedAppendNew(requests: seq<Key>, batches: seq<Key>, key: Key)
    requires Shadowed(requests, batches) && |batches| <= MAXIMUM_CACHED_BATCHES
    ensures Shadowed(KeepLast(requests + [key], MAXIMUM_REMEMBERED), batches + [key])
  {
    var order := KeepLast(requests + [key], MAXIMUM_REMEMBERED);
    forall q: nat | q < |batches| + 1
      ensures ShadowedAt(order, FromEnd(batches + [key], q), q)
    {
      if q == 0 {
        assert AgeIs(order, key, 0);
      } else {
        var k := FromEnd(batches, q - 1);
        assert FromEnd(batches + [key], q) == k;
        assert ShadowedAt(requests, k, q - 1);
        var a: nat :| AgeIs(requests, k, a) && a <= MAXIMUM_CACHED_BATCHES - 1 + (q - 1);
        assert AgeIs(order, k, a + 1);
      }
    }
  }

  lemma ShadowedAppendRecent(requests: seq<Key>, batches: seq<Key>, key: Key)
    requires Shadowed(requests, batches) && key in KeepLast(requests, MAXIMUM_CACHED_BATCHES)
    ensures Shadowed(requests, batches + [key])
  {
    forall q: nat | q < |batches| + 1
      ensures ShadowedAt(requests, FromEnd(batches + [key], q), q)
    {
      if q == 0 {
        var w := KeepLast(requests, MAXIMUM_CACHED_BATCHES);
        var i :| 0 <= i < |w| && w[i] == key;
        assert AgeIs(requests, key, |w| - 1 - i);
      } else {
        var k := FromEnd(batches, q - 1);
        assert FromEnd(batches + [key], q) == k;
        assert ShadowedAt(requests, k, q - 1);
        var a: nat :| AgeIs(requests, k, a) && a <= MAXIMUM_CACHED_BATCHES - 1 + (q - 1);
      }
    }
  }

  lemma ShadowedSuffix(requests: seq<Key>, batches: seq<Key>, n: nat)
    requires Shadowed(requests, batches) && n <= |batches|
    ensures Shadowed(requests, batches[n..])
  {
    forall q: nat | q < |batches[n..]|
      ensures ShadowedAt(requests, FromEnd(batches[n..], q), q)
    {
      assert FromEnd(batches[n..], q) == FromEnd(batches, q);
    }
  }

  ghost predicate TablesShadowed(t: Tables) {
    Shadowed(t.requests.remembered.order, t.batches.order)
  }

  lemma FinishShadowed(t: Tables, p: Pending)
    requires Consistent(t) && TablesShadowed(t) && FitsArtifact(p.batch)
    requires p.key in t.requests.remembered.entries ==> p.key in t.requests.replays.entries
    ensures TablesShadowed(Finished(t, p))
  {
    if Decide(t, p.key, p.replay.digest, p.batch).Stored? {
      var entry := CacheEntry(p.replay.digest, p.batch);
      var requests := RequestsAfter(t.requests, p.key, p.replay).remembered.order;
      if p.key in t.requests.remembered.entries {
        assert p.key in Elements(t.requests.replays.order);
        ShadowedAppendRecent(requests, t.batches.order, p.key);
      } else {
        ShadowedAppendNew(t.requests.remembered.order, t.batches.order, p.key);
      }
      InsertConsistent(t.batches, p.key, entry);
      var n := EvictKeepsLongestSuffix(Insert(t.batches, p.key, entry));
      ShadowedSuffix(requests, t.batches.order + [p.key], n);
    }
  }

  lemma BeginResumesFromReplay(env: Environment, t: Tables, r: Request)
    requires Begin(env, t, r).Rendering? && r.key in t.requests.remembered.entries
    ensures r.key in t.requests.replays.entries
  {
  }

  /** Serving keeps the shadow bound, because what a remembered key resumes from is a recent replay record. */
  lemma ServeShadowed(env: Environment, t: Tables, r: Request)
    requires Consistent(t) && TablesShadowed(t) && ValidRequest(env, r)
    ensures Consistent(Serve(env, t, r).0) && TablesShadowed(Serve(env, t, r).0)
  {
    if Begin(env, t, r).Rendering? {
      var p := Begin(env, t, r).pending;
      BeginPending(env, t, r);
      if r.key in t.requests.remembered.entries {
        BeginResumesFromReplay(env, t, r);
      }
      CommitConsistent(t, p.key, p.replay, p.batch);
      FinishShadowed(t, p);
    }
  }

  /** Served one at a time, every key with a cached batch is still remembered. */
  lemma CachedAreRemembered(t: Tables)
    requires Consistent(t) && TablesShadowed(t)
    ensures t.batches.entries.Keys <= t.requests.remembered.entries.Keys
  {
    forall k | k in t.batches.entries
      ensures k in t.requests.remembered.entries
    {
      CachedIsRemembered(t.requests.remembered.order, t.batches.order, k);
    }
  }

  lemma CachedIsRemembered(requests: seq<Key>, batches: seq<Key>, k: Key)
    requires Shadowed(requests, batches) && k in Elements(batches)
    ensures k in Elements(requests)
  {
    var i :| 0 <= i < |batches| && batches[i] == k;
    var q := |batches| - 1 - i;
    assert FromEnd(batches, q) == k;
    assert ShadowedAt(requests, k, q);
    var a: nat :| AgeIs(requests, k, a);
  }

  /** Some batch is the only answer the tables can give for k. */
  ghost predicate Settled(env: Environment, t: Tables, k: Key) {
    exists sel, b :: Faithful(env, t, k, sel, b)
  }

  ghost predicate SerialOk(env: Environment, t: Tables) {
    && Consistent(t) && TablesShadowed(t)
    && forall k :: k in t.requests.remembered.entries ==> Settled(env, t, k)
  }

  /** Serving any request leaves a key's only answer as it was, and gives no other for it. */
  lemma ServeFaithful(env: Environment, t: Tables, r: Request, k: Key, sel: Selection, b: LabelBatch)
    requires Consistent(t) && ValidRequest(env, r) && Faithful(env, t, k, sel, b)
    requires k in Serve(env, t, r).0.requests.remembered.entries
    ensures Faithful(env, Serve(env, t, r).0, k, sel, b)
    ensures r.key == k && Serve(env, t, r).1.Success? ==> Serve(env, t, r).1 == Success(b, false)
  {
    if r.key == k {
      BeginFaithful(env, t, r, sel, b);
    }
    if Begin(env, t, r).Rendering? {
      var p := Begin(env, t, r).pending;
      BeginPending(env, t, r);
      if r.key == k {
        FinishOwn(env, t, p, sel);
      } else {
        FinishOther(env, t, p, k, sel, b);
      }
    }
  }

  /** After a successful reply, that reply is the key's only answer. */
  lemma ServeSettles(env: Environment, t: Tables, r: Request) returns (sel: Selection)
    requires SerialOk(env, t) && ValidRequest(env, r)
    requires Serve(env, t, r).1.Success?
    ensures Faithful(env, Serve(env, t, r).0, r.key, sel, Serve(env, t, r).1.batch)
  {
    if r.key in t.requests.remembered.entries {
      sel := RememberedSettles(env, t, r);
    } else {
      CachedAreRemembered(t);
      sel := r.selection;
      FreshSettles(env, t, r);
    }
  }

  lemma RememberedSettles(env: Environment, t: Tables, r: Request) returns (sel: Selection)
    requires SerialOk(env, t) && ValidRequest(env, r) && r.key in t.requests.remembered.entries
    requires Serve(env, t, r).1.Success?
    ensures Faithful(env, Serve(env, t, r).0, r.key, sel, Serve(env, t, r).1.batch)
  {
    assert Settled(env, t, r.key);
    var b;
    sel, b :| Faithful(env, t, r.key, sel, b);
    ServeKeepsOwnKey(env, t, r);
    ServeFaithful(env, t, r, r.key, sel, b);
  }

  lemma FreshSettles(env: Environment, t: Tables, r: Request)
    requires Consistent(t) && ValidRequest(env, r)
    requires r.key !in t.requests.remembered.entries && r.key !in t.batches.entries && Serve(env, t, r).1.Success?
    ensures Faithful(env, Serve(env, t, r).0, r.key, r.selection, Serve(env, t, r).1.batch)
  {
    var p := Begin(env, t, r).pending;
    BeginPending(env, t, r);
    FinishCreates(env, t, p);
  }

  lemma ServeKeepsOwnKey(env: Environment, t: Tables, r: Request)
    requires Consistent(t) && ValidRequest(env, r)
    requires r.key in t.requests.remembered.entries
    ensures Serve(env, t, r).0.requests == t.requests
  {
    if Begin(env, t, r).Rendering? {
      BeginPending(env, t, r);
    }
  }

  lemma ServeAddsOnlyOwnKey(env: Environment, t: Tables, r: Request, k: Key)
    requires Consistent(t) && ValidRequest(env, r)
    requires k in Serve(env, t, r).0.requests.remembered.entries && k !in t.requests.remembered.entries
    ensures k == r.key && Serve(env, t, r).1.Success?
  {
    var p := Begin(env, t, r).pending;
    BeginPending(env, t, r);
    if k != r.key {
      CommitKeepsOthers(t, p.key, p.replay, p.batch, k);
    }
  }

  lemma ServeOk(env: Environment, t: Tables, r: Request)
    requires SerialOk(env, t) && ValidRequest(env, r)
    ensures SerialOk(env, Serve(env, t, r).0)
  {
    ServeShadowed(env, t, r);
    var u := Serve(env, t, r).0;
    forall k | k in u.requests.remembered.entries
      ensures Settled(env, u, k)
    {
      if k in t.requests.remembered.entries {
        assert Settled(env, t, k);
        var sel, b :| Faithful(env, t, k, sel, b);
        ServeFaithful(env, t, r, k, sel, b);
      } else {
        ServeAddsOnlyOwnKey(env, t, r, k);
        var sel := ServeSettles(env, t, r);
      }
    }
  }

  predicate ValidRequests(env: Environment, rs: seq<Request>) {
    forall i :: 0 <= i < |rs| ==> ValidRequest(env, rs[i])
  }

  /** Every serial run: cached keys are remembered and each remembered key has one answer. */
  lemma EverySerialRunOk(env: Environment, t: Tables, rs: seq<Request>)
    requires SerialOk(env, t) && ValidRequests(env, rs)
    ensures SerialOk(env, ServeAll(env, t, rs))
    ensures ServeAll(env, t, rs).batches.entries.Keys <= ServeAll(env, t, rs).requests.remembered.entries.Keys
  {
    var next, ok := Server(env), (r: Request) => ValidRequest(env, r);
    var always, good, fine := (u: Tables) => true, (u: Tables) => SerialOk(env, u), (u: Tables, r: Request) => true;
    forall u, r | good(u) && ok(r) ensures good(next(u, r)) {
      ServeOk(env, u, r);
    }
    Runs.RunKeeps(next, ok, always, good, fine, t, rs);
    CachedAreRemembered(ServeAll(env, t, rs));
  }

  lemma EmptySerialOk(env: Environment)
    ensures SerialOk(env, EMPTY)
  {
    EmptyConsistent();
    EmptyFields();
    NoneRememberedOk(env, EMPTY);
  }

  lemma EmptyFields()
    ensures EMPTY.batches.order == [] && EMPTY.requests.remembered.entries == map[]
  {
  }

  lemma NoneRememberedOk(env: Environment, t: Tables)
    requires Consistent(t) && t.batches.order == [] && t.requests.remembered.entries == map[]
    ensures SerialOk(env, t)
  {
  }

  /** In particular every serial run of the service from its start. */
  lemma ReachableSerialOk(env: Environment, rs: seq<Request>)
    requires ValidRequests(env, rs)
    ensures SerialOk(env, ServeAll(env, EMPTY, rs))
    ensures ServeAll(env, EMPTY, rs).batches.entries.Keys <= ServeAll(env, EMPTY, rs).requests.remembered.entries.Keys
  {
    EmptySerialOk(env);
    EverySerialRunOk(env, EMPTY, rs);
  }

  /** The key is remembered, as a test of tables. */
  ghost function Keeping(k: Key): (holds: Tables -> bool)
    ensures forall t :: holds(t) <==> k in t.requests.remembered.entries
  {
    (t: Tables) => k in t.requests.remembered.entries
  }

  ghost predicate KeptThroughout(env: Environment, t: Tables, rs: seq<Request>, k: Key) {
    Runs.Always(Server(env), t, rs, Keeping(k))
  }

  /** A reply to a request for k is a failure or the batch b. */
  predicate AnswersAs(env: Environment, t: Tables, r: Request, k: Key, b: LabelBatch) {
    r.key == k && Serve(env, t, r).1.Success? ==> Serve(env, t, r).1.batch == b
  }

  lemma SerialFaithful(env: Environment, t: Tables, rs: seq<Request>, k: Key, sel: Selection, b: LabelBatch)
    requires Consistent(t) && TablesShadowed(t) && ValidRequests(env, rs) && Faithful(env, t, k, sel, b)
    requires KeptThroughout(env, t, rs, k)
    ensures forall i :: 0 <= i < |rs| ==> AnswersAs(env, ServeAll(env, t, rs[..i]), rs[i], k, b)
  {
    var next, ok := Server(env), (r: Request) => ValidRequest(env, r);
    var good := (u: Tables) => Consistent(u) && TablesShadowed(u) && Faithful(env, u, k, sel, b);
    var fine := (u: Tables, r: Request) => AnswersAs(env, u, r, k, b);
    forall u, r | good(u) && ok(r) && Keeping(k)(next(u, r)) ensures good(next(u, r)) && fine(u, r) {
      ServeShadowed(env, u, r);
      ServeFaithful(env, u, r, k, sel, b);
    }
    Runs.RunKeeps(next, ok, Keeping(k), good, fine, t, rs);
    forall i | 0 <= i < |rs| ensures AnswersAs(env, ServeAll(env, t, rs[..i]), rs[i], k, b) {
      assert fine(Runs.Run(next, t, rs[..i]), rs[i]);
    }
  }

  /**
    Served one at a time, every later successful reply for a key is equal in every field to this one,
    as long as the key stays remembered.
   */
  lemma SerialRepliesAgree(env: Environment, t: Tables, r: Request, rs: seq<Request>)
    requires SerialOk(env, t) && ValidRequest(env, r) && ValidRequests(env, rs)
    requires Serve(env, t, r).1.Success?
    requires KeptThroughout(env, Serve(env, t, r).0, rs, r.key)
    ensures forall i :: 0 <= i < |rs| ==>
              AnswersAs(env, ServeAll(env, Serve(env, t, r).0, rs[..i]), rs[i], r.key, Serve(env, t, r).1.batch)
  {
    var sel := ServeSettles(env, t, r);
    ServeShadowed(env, t, r);
    SerialFaithful(env, Serve(env, t, r).0, rs, r.key, sel, Serve(env, t, r).1.batch);
  }

  /** From the start of the service: after any requests, a successful reply is repeated by all later ones. */
  lemma ReachableRepliesAgree(env: Environment, before: seq<Request>, r: Request, rs: seq<Request>)
    requires ValidRequests(env, before) && ValidRequest(env, r) && ValidRequests(env, rs)
    requires Serve(env, ServeAll(env, EMPTY, before), r).1.Success?
    requires KeptThroughout(env, Serve(env, ServeAll(env, EMPTY, before), r).0, rs, r.key)
    ensures var s := Serve(env, ServeAll(env, EMPTY, before), r);
            forall i :: 0 <= i < |rs| ==> AnswersAs(env, ServeAll(env, s.0, rs[..i]), rs[i], r.key, s.1.batch)
  {
    ReachableSerialOk(env, before);
    SerialRepliesAgree(env, ServeAll(env, EMPTY, before), r, rs);
  }
}
