/**
  What every run of the asset service keeps: every asset passes the exchange validator, every
  event passes the importer's checks against the asset as it is (its actor aside, whose exact
  condition is stated), no update is lost, and replaying the events gives the current status.
 */
module AtlasGuarantees {
  import opened Text
  import opened Ordering
  import opened Clock
  import opened AtlasRecords
  import opened AtlasModels
  import opened AtlasRuns

  // ----- Histories --------------------------------------------------------------------------

  /** An event that fits the asset, with whatever actor. */
  predicate EventSound(svc: Service, a: Asset, e: Event) {
    ValidEventApartFromActor(svc, e) && EventFits(e, a) && e.actor != NONE
  }

  predicate LinkedEvents(previous: Event, next: Event) {
    next.from == previous.to && next.revision > previous.revision && !Earlier(next.occurredAt, previous.occurredAt)
  }

  /** The events lead, each from the status the last one left, from registration to the current status. */
  ghost predicate History(svc: Service, a: Asset, events: seq<Event>) {
    && events != []
    && events[0].from == NONE && events[0].revision == 1 && Same(events[0].occurredAt, a.createdAt)
    && (forall i :: 0 <= i < |events| ==> EventSound(svc, a, events[i]))
    && (forall i :: 0 < i < |events| ==> LinkedEvents(events[i - 1], events[i]))
    && events[|events| - 1].to == a.fields.status
  }

  /** The status reached by replaying events, when each starts where the last one ended. */
  function Replay(events: seq<Event>): Option<Name> {
    if events == [] then Some(NONE)
    else
      var last := events[|events| - 1];
      match Replay(events[..|events| - 1])
      case None => None
      case Some(status) => if status == last.from then Some(last.to) else None
  }

  lemma {:induction false} ReplayReaches(events: seq<Event>, n: nat)
    requires 0 < n <= |events| && events[0].from == NONE
    requires forall i :: 0 < i < |events| ==> LinkedEvents(events[i - 1], events[i])
    ensures Replay(events[..n]) == Some(events[n - 1].to)
  {
    if n > 1 {
      ReplayReaches(events, n - 1);
      assert LinkedEvents(events[n - 2], events[n - 1]);
    }
    assert events[..n][..n - 1] == events[..n - 1];
  }

  // ----- Sound rows -------------------------------------------------------------------------

  /** What the asset importer checks against the models table. */
  ghost predicate ModelKnown(models: map<Name, Model>, a: Asset) {
    a.model != NONE ==>
      a.model in models && a.context.Some? && a.context.value.modelRevision <= models[a.model].revision
  }

  /** The context names the kind as overridden exactly when the asset's kind is not the model's. */
  predicate OverridesTell(a: Asset) {
    a.context.Some? ==> (KIND in a.context.value.overrides <==> a.fields.kind != a.context.value.texts.kind)
  }

  ghost predicate RecordSound(svc: Service, models: map<Name, Model>, r: Record) {
    ValidAsset(svc, r.asset) && OverridesTell(r.asset) && ModelKnown(models, r.asset) && History(svc, r.asset, r.events)
  }

  /** The parts of soundness that depend on one row alone, as values. */
  ghost function RecordTest(svc: Service): (test: Record -> bool)
    ensures forall r :: test(r) <==>
              ValidAsset(svc, r.asset) && OverridesTell(r.asset) && History(svc, r.asset, r.events)
  {
    (r: Record) => ValidAsset(svc, r.asset) && OverridesTell(r.asset) && History(svc, r.asset, r.events)
  }

  /** A model row some request read: valid, and not newer than the table. */
  ghost predicate SeenModel(svc: Service, models: map<Name, Model>, m: Model) {
    ValidModel(svc, m) && NotNewer(models, m)
  }

  /** An asset row some request read: the current row, or an older revision of it. */
  predicate SeenAsset(records: map<Name, Record>, a: Asset) {
    && a.id in records && a.revision <= records[a.id].asset.revision
    && (a.revision == records[a.id].asset.revision ==> records[a.id].asset == a)
  }

  ghost predicate Consistent(recordOk: Record -> bool, modelOk: Model -> bool, s: System) {
    && ModelsOk(modelOk, s.models)
    && (forall k :: k in s.records ==>
          s.records[k].asset.id == k && recordOk(s.records[k]) && ModelKnown(s.models, s.records[k].asset))
    && (forall m :: m in s.seenModels ==> modelOk(m) && NotNewer(s.models, m))
    && (forall a :: a in s.seenAssets ==> SeenAsset(s.records, a))
  }

  ghost predicate Good(svc: Service, s: System) {
    Lawful(svc.rules) && Consistent(RecordTest(svc), ModelTest(svc), s)
  }

  // ----- Contexts ---------------------------------------------------------------------------

  lemma SnapshotValid(svc: Service, m: Model, kind: Name, at: Time)
    requires ValidModel(svc, m) && svc.rules.stable(m.id) && m.id != NONE && Portable(at) && !Earlier(at, m.updatedAt)
    ensures ValidContext(svc.rules, m.id, Some(Snapshot(m, kind, at)))
    ensures Snapshot(m, kind, at).appliedAt == at && Snapshot(m, kind, at).modelRevision == m.revision
  {
  }

  lemma LaterPortable(svc: Service, now: Time, model: Option<Model>)
    requires Portable(now) && (model.Some? ==> ValidModel(svc, model.value))
    ensures Portable(LaterOf(now, model)) && !Earlier(LaterOf(now, model), now)
    ensures model.Some? ==> !Earlier(LaterOf(now, model), model.value.updatedAt)
  {
    if model.Some? {
      MaxPortable(now, model.value.updatedAt);
    }
  }

  lemma ContextValid(svc: Service, name: Name, model: Option<Model>, kind: Name, at: Time)
    requires Lawful(svc.rules) && ModelFits(name, model) && Portable(at)
    requires model.Some? ==> ValidModel(svc, model.value) && !Earlier(at, model.value.updatedAt)
    ensures ValidContext(svc.rules, name, SnapshotOf(model, kind, at))
    ensures model.Some? ==> SnapshotOf(model, kind, at).value.appliedAt == at
  {
    if model.Some? {
      SnapshotValid(svc, model.value, kind, at);
    }
  }

  lemma FieldsFilled(svc: Service, input: Input, n: Input, model: Option<Model>)
    requires Lawful(svc.rules) && NormalizeInput(svc.rules, input) == Some(n) && ModelFits(n.model, model)
    requires model.Some? ==> ValidModel(svc, model.value)
    ensures FieldsFixed(svc.rules, n.id, n.model, n.fields.(kind := KindOf(n.fields.kind, model)))
  {
    NormalizedFixed(svc.rules, input, n);
    if n.fields.kind == NONE && model.Some? {
      KindFilled(svc.rules, n.id, n.model, n.fields, model.value.texts.kind);
    }
  }

  /** A generated name may take the place of an absent one. */
  lemma IdFilled(r: Rules, id: Name, other: Name, model: Name, f: Fields)
    requires Lawful(r) && FieldsFixed(r, id, model, f) && r.stable(other)
    ensures FieldsFixed(r, if id != NONE then id else other, model, f)
  {
  }

  // ----- Registration -----------------------------------------------------------------------

  lemma FirstEventSound(svc: Service, a: Asset, note: Name, scope: Scope)
    requires Lawful(svc.rules) && ValidAsset(svc, a) && a.revision == 1
    requires svc.rules.reference(scope.eventId) && svc.rules.atMost(note, MAXIMUM_NOTE)
    ensures History(svc, a, [MakeEvent(svc, a, NONE, note, scope)])
  {
  }

  lemma NewRecordSound(
      svc: Service, models: map<Name, Model>, input: Input, n: Input, model: Option<Model>, scope: Scope, now: Time,
      note: Name)
    requires Lawful(svc.rules) && NormalizeInput(svc.rules, input) == Some(n) && ModelFits(n.model, model)
    requires model.Some? ==> SeenModel(svc, models, model.value) && !Earlier(now, model.value.updatedAt)
    requires Portable(now) && ScopeWorks(svc.rules, scope) && svc.rules.atMost(note, MAXIMUM_NOTE)
    ensures RecordSound(svc, models, NewRecord(svc, n, model, scope, now, note))
  {
    var r := NewRecord(svc, n, model, scope, now, note);
    FieldsFilled(svc, input, n, model);
    IdFilled(svc.rules, n.id, scope.freshId, n.model, r.asset.fields);
    ContextValid(svc, n.model, model, KindOf(n.fields.kind, model), now);
    assert ValidAsset(svc, r.asset);
    FirstEventSound(svc, r.asset, note, scope);
  }

  lemma CreateSound(svc: Service, models: map<Name, Model>, input: Input, model: Option<Model>, scope: Scope, r: Record)
    requires Lawful(svc.rules) && ScopeWorks(svc.rules, scope) && BuildCreate(svc, input, model, scope) == Some(r)
    requires model.Some? ==> SeenModel(svc, models, model.value)
    ensures RecordSound(svc, models, r)
  {
    var n := NormalizeInput(svc.rules, input).value;
    NormalizePortable(scope.clock);
    LaterPortable(svc, Normalize(scope.clock), model);
    NewRecordSound(svc, models, input, n, model, scope, LaterOf(Normalize(scope.clock), model), REGISTERED);
  }

  lemma ItemSound(svc: Service, models: map<Name, Model>, common: Model, item: BulkItem, now: Time, r: Record)
    requires Lawful(svc.rules) && SeenModel(svc, models, common) && common.status == ACTIVE
    requires Portable(now) && !Earlier(now, common.updatedAt) && ScopeWorks(svc.rules, item.scope)
    requires BuildItem(svc, common, item, now) == Some(r)
    ensures RecordSound(svc, models, r)
  {
    var input := item.input.(model := common.id);
    var n := NormalizeInput(svc.rules, input).value;
    assert n.model == common.id;
    NewRecordSound(svc, models, input, n, Some(common), item.scope, now, REGISTERED_IN_BULK);
  }

  // ----- Updates ----------------------------------------------------------------------------

  /** What an update may do to the event history: nothing, or append a change of status. */
  lemma HistoryGrows(svc: Service, before: Asset, after: Asset, events: seq<Event>, note: Name, scope: Scope)
    requires Lawful(svc.rules) && History(svc, before, events) && ValidAsset(svc, before) && ValidAsset(svc, after)
    requires after.id == before.id && after.revision == before.revision + 1 && after.createdAt == before.createdAt
    requires !Earlier(after.updatedAt, before.updatedAt)
    requires svc.rules.reference(scope.eventId) && svc.rules.atMost(note, MAXIMUM_NOTE)
    ensures History(svc, after, Appended(svc, events, before, after, note, scope))
  {
    EventsStaySound(svc, before, after, events);
    if after.fields.status != before.fields.status {
      NewEventSound(svc, before, after, note, scope);
      HistoryAppend(svc, after, events, MakeEvent(svc, after, before.fields.status, note, scope));
    }
  }

  lemma EventsStaySound(svc: Service, before: Asset, after: Asset, events: seq<Event>)
    requires forall i :: 0 <= i < |events| ==> EventSound(svc, before, events[i])
    requires after.id == before.id && after.revision == before.revision + 1 && after.createdAt == before.createdAt
    requires !Earlier(after.updatedAt, before.updatedAt)
    ensures forall i :: 0 <= i < |events| ==> EventSound(svc, after, events[i]) && events[i].revision < after.revision
  {
    forall i | 0 <= i < |events| ensures EventSound(svc, after, events[i]) && events[i].revision < after.revision {
      assert EventSound(svc, before, events[i]);
    }
  }

  lemma HistoryAppend(svc: Service, a: Asset, events: seq<Event>, e: Event)
    requires events != [] && events[0].from == NONE && events[0].revision == 1
    requires Same(events[0].occurredAt, a.createdAt)
    requires forall i :: 0 <= i < |events| ==> EventSound(svc, a, events[i]) && events[i].revision < a.revision
    requires forall i :: 0 < i < |events| ==> LinkedEvents(events[i - 1], events[i])
    requires EventSound(svc, a, e) && e.from == events[|events| - 1].to && e.revision == a.revision
    ensures History(svc, a, events + [e])
  {
    assert LinkedEvents(events[|events| - 1], e) by {
      assert EventSound(svc, a, events[|events| - 1]);
    }
  }

  lemma NewEventSound(svc: Service, before: Asset, after: Asset, note: Name, scope: Scope)
    requires Lawful(svc.rules) && ValidAsset(svc, before) && ValidAsset(svc, after)
    requires after.revision == before.revision + 1
    requires after.fields.status != before.fields.status
    requires svc.rules.reference(scope.eventId) && svc.rules.atMost(note, MAXIMUM_NOTE)
    ensures EventSound(svc, after, MakeEvent(svc, after, before.fields.status, note, scope))
  {
  }

  lemma KeptValid(svc: Service, input: Input, n: Input, existing: Asset, now: Time)
    requires Lawful(svc.rules) && ValidAsset(svc, existing) && NormalizeInput(svc.rules, input) == Some(n)
    requires n.id == existing.id && Keeps(existing, n) && Portable(now)
    ensures ValidAsset(svc, Kept(existing, n, now))
  {
    var c := existing.context.value;
    NormalizedFixed(svc.rules, input, n);
    if n.fields.kind == NONE {
      KindFilled(svc.rules, n.id, n.model, n.fields, c.texts.kind);
    }
    MaxPortable(now, existing.updatedAt);
  }

  lemma ReassignedValid(svc: Service, input: Input, n: Input, existing: Asset, model: Option<Model>, now: Time)
    requires Lawful(svc.rules) && ValidAsset(svc, existing) && NormalizeInput(svc.rules, input) == Some(n)
    requires n.id == existing.id && ModelFits(n.model, model) && Portable(now)
    requires model.Some? ==> ValidModel(svc, model.value)
    ensures ValidAsset(svc, Reassigned(existing, n, model, now))
  {
    MaxPortable(now, existing.updatedAt);
    var later := Max(now, existing.updatedAt);
    LaterPortable(svc, later, model);
    ContextValid(svc, n.model, model, KindOf(n.fields.kind, model), LaterOf(later, model));
    FieldsFilled(svc, input, n, model);
  }

  /** An update's asset is valid, one revision on, and not earlier. */
  lemma UpdateValid(
      svc: Service, models: map<Name, Model>, input: Input, revision: int, existing: Asset, model: Option<Model>,
      scope: Scope, updated: Asset)
    requires Lawful(svc.rules) && ValidAsset(svc, existing) && ModelKnown(models, existing)
    requires ScopeWorks(svc.rules, scope)
    requires model.Some? ==> SeenModel(svc, models, model.value)
    requires BuildUpdate(svc, input, revision, existing, model, scope) == Some(updated)
    ensures ValidAsset(svc, updated) && OverridesTell(updated) && ModelKnown(models, updated)
    ensures updated.id == existing.id && updated.revision == existing.revision + 1
    ensures updated.createdAt == existing.createdAt && !Earlier(updated.updatedAt, existing.updatedAt)
  {
    var n := NormalizeInput(svc.rules, input).value;
    NormalizePortable(scope.clock);
    var now := Normalize(scope.clock);
    MaxPortable(now, existing.updatedAt);
    if Keeps(existing, n) {
      KeptValid(svc, input, n, existing, now);
    } else {
      ReassignedValid(svc, input, n, existing, model, now);
      LaterPortable(svc, Max(now, existing.updatedAt), model);
    }
  }

  // ----- Every step -------------------------------------------------------------------------

  lemma ModelsKeep(recordOk: Record -> bool, modelOk: Model -> bool, s: System, models: Models)
    requires Consistent(recordOk, modelOk, s) && ModelStep(modelOk, s.models, models)
    ensures Consistent(recordOk, modelOk, s.(models := models))
  {
    StepKeeps(modelOk, s.models, models);
  }

  lemma UpdateModelKeeps(svc: Service, s: System, draft: ModelInput, revision: int, base: Model, clock: Time)
    requires Good(svc, s) && InYears(clock) && base in s.seenModels
    ensures Good(svc, s.(models := ReplaceModel(s.models, base, EditedModel(svc, draft, revision, base, clock))))
  {
    SeenModelSound(svc, s, Some(base));
    ReplaceModelSteps(svc, s.models, draft, revision, base, clock);
    ModelsKeep(
      RecordTest(svc), ModelTest(svc), s, ReplaceModel(s.models, base, EditedModel(svc, draft, revision, base, clock)));
  }

  lemma StatusKeeps(svc: Service, s: System, id: Name, revision: int, base: Model, clock: Time)
    requires Good(svc, s) && InYears(clock) && base in s.seenModels
    ensures Good(svc, s.(models := Retire(svc.rules, s.models, id, revision, base, clock)))
    ensures Good(svc, s.(models := Reactivate(svc.rules, s.models, id, revision, base, clock)))
  {
    SeenModelSound(svc, s, Some(base));
    StatusSteps(svc, s.models, id, revision, base, clock);
    ModelsKeep(RecordTest(svc), ModelTest(svc), s, Retire(svc.rules, s.models, id, revision, base, clock));
    ModelsKeep(RecordTest(svc), ModelTest(svc), s, Reactivate(svc.rules, s.models, id, revision, base, clock));
  }

  lemma CreateModelKeeps(svc: Service, s: System, draft: ModelInput, scope: Scope)
    requires Good(svc, s) && ScopeWorks(svc.rules, scope)
    ensures Good(svc, s.(models := AddModel(s.models, NewModel(svc, draft, scope.freshId, scope.clock))))
  {
    AddModelSteps(svc, s.models, draft, scope.freshId, scope.clock);
    ModelsKeep(
      RecordTest(svc), ModelTest(svc), s, AddModel(s.models, NewModel(svc, draft, scope.freshId, scope.clock)));
  }

  lemma ReadKeeps(recordOk: Record -> bool, modelOk: Model -> bool, s: System, id: Name)
    requires Consistent(recordOk, modelOk, s)
    ensures id in s.models ==> Consistent(recordOk, modelOk, s.(seenModels := s.seenModels + {s.models[id]}))
    ensures id in s.records ==> Consistent(recordOk, modelOk, s.(seenAssets := s.seenAssets + {s.records[id].asset}))
  {
  }

  lemma AddRecordKeeps(recordOk: Record -> bool, modelOk: Model -> bool, s: System, r: Record)
    requires Consistent(recordOk, modelOk, s) && recordOk(r) && ModelKnown(s.models, r.asset)
    ensures Consistent(recordOk, modelOk, AddRecord(s, r)) && AddRecord(s, r).models == s.models
  {
  }

  lemma {:induction false} AddRecordsKeep(recordOk: Record -> bool, modelOk: Model -> bool, s: System, rs: seq<Record>)
    requires Consistent(recordOk, modelOk, s)
    requires forall i :: 0 <= i < |rs| ==> recordOk(rs[i]) && ModelKnown(s.models, rs[i].asset)
    ensures Consistent(recordOk, modelOk, AddRecords(s, rs)) && AddRecords(s, rs).models == s.models
  {
    if rs != [] {
      AddRecordsKeep(recordOk, modelOk, s, rs[..|rs| - 1]);
      AddRecordKeeps(recordOk, modelOk, AddRecords(s, rs[..|rs| - 1]), rs[|rs| - 1]);
    }
  }

  /** A write that goes through was computed from the row that is there. */
  lemma UpdateFromCurrent(recordOk: Record -> bool, modelOk: Model -> bool, s: System, existing: Asset)
    requires Consistent(recordOk, modelOk, s) && existing in s.seenAssets
    ensures existing.id in s.records
    ensures s.records[existing.id].asset.revision == existing.revision ==> s.records[existing.id].asset == existing
  {
    assert SeenAsset(s.records, existing);
  }

  lemma RewriteKeeps(recordOk: Record -> bool, modelOk: Model -> bool, s: System, r: Record)
    requires Consistent(recordOk, modelOk, s) && r.asset.id in s.records && recordOk(r) && ModelKnown(s.models, r.asset)
    requires r.asset.revision == s.records[r.asset.id].asset.revision + 1
    ensures Consistent(recordOk, modelOk, s.(records := s.records[r.asset.id := r]))
  {
  }

  lemma {:induction false} ItemsSound(
      svc: Service, models: map<Name, Model>, common: Model, items: seq<BulkItem>, now: Time, taken: Taken,
      rs: seq<Record>)
    requires Lawful(svc.rules) && SeenModel(svc, models, common) && common.status == ACTIVE
    requires Portable(now) && !Earlier(now, common.updatedAt)
    requires forall i :: 0 <= i < |items| ==> ScopeWorks(svc.rules, items[i].scope)
    requires BuildItems(svc.rules, Builder(svc, common, now), items, taken) == Some(rs)
    ensures AllSound(svc, models, rs)
    decreases |items|
  {
    if items != [] {
      var first := Builder(svc, common, now)(items[0]).value;
      ItemSound(svc, models, common, items[0], now, first);
      var next := Take(svc.rules, taken, first.asset);
      var rest := BuildItems(svc.rules, Builder(svc, common, now), items[1..], next).value;
      ItemsSound(svc, models, common, items[1..], now, Take(svc.rules, taken, first.asset), rest);
      assert rs == [first] + rest;
    }
  }

  lemma BulkKeeps(svc: Service, s: System, common: Model, items: seq<BulkItem>, clock: Time, rows: Option<seq<Record>>)
    requires Good(svc, s) && InYears(clock) && forall i :: 0 <= i < |items| ==> ScopeWorks(svc.rules, items[i].scope)
    requires rows == BulkRows(svc.rules, Builder(svc, common, BulkTime(clock, common)), items)
    ensures Good(svc, ApplyBulk(s, common, rows))
  {
    if rows.Some? && common in s.seenModels && common.status == ACTIVE {
      SeenModelSound(svc, s, Some(common));
      BulkSound(svc, s.models, common, items, clock, rows.value);
      ApplyBulkKeeps(svc, s, common, rows.value);
    }
  }

  lemma ApplyBulkKeeps(svc: Service, s: System, common: Model, rows: seq<Record>)
    requires Good(svc, s) && AllSound(svc, s.models, rows)
    ensures Good(svc, ApplyBulk(s, common, Some(rows)))
  {
    AddSoundRecords(svc, s, rows);
  }

  ghost predicate AllSound(svc: Service, models: Models, rows: seq<Record>) {
    forall i :: 0 <= i < |rows| ==> RecordSound(svc, models, rows[i])
  }

  lemma BulkSound(svc: Service, models: Models, common: Model, items: seq<BulkItem>, clock: Time, rows: seq<Record>)
    requires Lawful(svc.rules) && SeenModel(svc, models, common) && common.status == ACTIVE && InYears(clock)
    requires forall i :: 0 <= i < |items| ==> ScopeWorks(svc.rules, items[i].scope)
    requires Some(rows) == BulkRows(svc.rules, Builder(svc, common, BulkTime(clock, common)), items)
    ensures AllSound(svc, models, rows)
  {
    var now := BulkTime(clock, common);
    NormalizePortable(clock);
    MaxPortable(Normalize(clock), common.updatedAt);
    ItemsSound(svc, models, common, items, now, Taken({}, {}, {}), rows);
  }

  lemma AddSoundRecords(svc: Service, s: System, rs: seq<Record>)
    requires Good(svc, s) && AllSound(svc, s.models, rs)
    ensures Good(svc, AddRecords(s, rs))
  {
    AddRecordsKeep(RecordTest(svc), ModelTest(svc), s, rs);
  }

  lemma NoteFits(r: Rules, note: Name)
    requires Lawful(r) && NoteOf(r, note).Some?
    ensures r.atMost(NoteOf(r, note).value, MAXIMUM_NOTE)
  {
  }

  lemma ApplyUpdateKeeps(
      svc: Service, s: System, existing: Asset, model: Option<Model>, updated: Asset, note: Name, scope: Scope)
    requires Good(svc, s) && existing in s.seenAssets && updated.id == existing.id
    requires existing.id in s.records && s.records[existing.id].asset == existing ==>
               && updated.revision == existing.revision + 1
               && var events := Appended(svc, s.records[existing.id].events, existing, updated, note, scope);
                  RecordSound(svc, s.models, Record(updated, events))
    ensures Good(svc, WriteUpdate(svc, s, existing, updated, note, scope))
  {
    UpdateFromCurrent(RecordTest(svc), ModelTest(svc), s, existing);
    var current := s.records[existing.id];
    if current.asset == existing {
      RewriteKeeps(
        RecordTest(svc), ModelTest(svc), s,
        Record(updated, Appended(svc, current.events, existing, updated, note, scope)));
    }
  }

  lemma UpdateKeeps(
      svc: Service, s: System, input: Input, revision: int, note: Name, existing: Asset, model: Option<Model>,
      scope: Scope, updated: Asset)
    requires Good(svc, s) && existing in s.seenAssets && (model.Some? ==> model.value in s.seenModels)
    requires ScopeWorks(svc.rules, scope) && svc.rules.atMost(note, MAXIMUM_NOTE)
    requires BuildUpdate(svc, input, revision, existing, model, scope) == Some(updated)
    ensures Good(svc, WriteUpdate(svc, s, existing, updated, note, scope))
  {
    UpdateNumbers(svc, input, revision, existing, model, scope, updated);
    if existing.id in s.records && s.records[existing.id].asset == existing {
      assert RecordTest(svc)(s.records[existing.id]);
      UpdatedRecordSound(
        svc, s.models, input, revision, note, existing, s.records[existing.id].events, model, scope, updated);
    }
    ApplyUpdateKeeps(svc, s, existing, model, updated, note, scope);
  }

  lemma UpdatedRecordSound(
      svc: Service, models: map<Name, Model>, input: Input, revision: int, note: Name, existing: Asset,
      events: seq<Event>, model: Option<Model>, scope: Scope, updated: Asset)
    requires Lawful(svc.rules) && RecordSound(svc, models, Record(existing, events))
    requires ScopeWorks(svc.rules, scope) && svc.rules.atMost(note, MAXIMUM_NOTE)
    requires model.Some? ==> SeenModel(svc, models, model.value)
    requires BuildUpdate(svc, input, revision, existing, model, scope) == Some(updated)
    ensures RecordSound(svc, models, Record(updated, Appended(svc, events, existing, updated, note, scope)))
    ensures updated.revision == existing.revision + 1 && updated.id == existing.id
  {
    UpdateValid(svc, models, input, revision, existing, model, scope, updated);
    HistoryGrows(svc, existing, updated, events, note, scope);
  }

  lemma CreateKeeps(svc: Service, s: System, input: Input, model: Option<Model>, scope: Scope, built: Option<Record>)
    requires Good(svc, s) && ScopeWorks(svc.rules, scope) && built == BuildCreate(svc, input, model, scope)
    ensures Good(svc, ApplyCreate(s, model, built))
  {
    if built.Some? && (model.Some? ==> model.value in s.seenModels) {
      SeenModelSound(svc, s, model);
      CreateSound(svc, s.models, input, model, scope, built.value);
      ApplyCreateKeeps(svc, s, model, built.value);
    }
  }

  lemma ApplyCreateKeeps(svc: Service, s: System, model: Option<Model>, r: Record)
    requires Good(svc, s) && RecordSound(svc, s.models, r)
    ensures Good(svc, ApplyCreate(s, model, Some(r)))
  {
    AddSoundRecord(svc, s, r);
  }

  lemma SeenModelSound(svc: Service, s: System, model: Option<Model>)
    requires Good(svc, s) && (model.Some? ==> model.value in s.seenModels)
    ensures model.Some? ==> SeenModel(svc, s.models, model.value)
  {
  }

  lemma AddSoundRecord(svc: Service, s: System, r: Record)
    requires Good(svc, s) && RecordSound(svc, s.models, r)
    ensures Good(svc, AddRecord(s, r))
  {
    AddRecordKeeps(RecordTest(svc), ModelTest(svc), s, r);
  }

  lemma NextKeeps(svc: Service, s: System, a: Action)
    requires Good(svc, s) && Works(svc.rules, a)
    ensures Good(svc, Next(svc, s, a))
  {
    match a
    case CreateModel(draft, scope) => CreateModelKeeps(svc, s, draft, scope);
    case UpdateModel(draft, revision, base, clock) =>
      if base in s.seenModels {
        UpdateModelKeeps(svc, s, draft, revision, base, clock);
      }
    case RetireModel(id, revision, base, clock) =>
      if base in s.seenModels {
        StatusKeeps(svc, s, id, revision, base, clock);
      }
    case ReactivateModel(id, revision, base, clock) =>
      if base in s.seenModels {
        StatusKeeps(svc, s, id, revision, base, clock);
      }
    case ReadModel(id) => ReadKeeps(RecordTest(svc), ModelTest(svc), s, id);
    case ReadAsset(id) => ReadKeeps(RecordTest(svc), ModelTest(svc), s, id);
    case Create(input, model, scope) =>
      CreateKeeps(svc, s, input, model, scope, BuildCreate(svc, input, model, scope));
    case CreateBulk(common, items, clock) =>
      BulkKeeps(
        svc, s, common, items, clock, BulkRows(svc.rules, Builder(svc, common, BulkTime(clock, common)), items));
    case Update(input, revision, note, existing, model, scope) =>
      UpdateActionKeeps(
        svc, s, input, revision, note, existing, model, scope,
        BuildUpdate(svc, input, revision, existing, model, scope));
  }

  lemma UpdateActionKeeps(
      svc: Service, s: System, input: Input, revision: int, note: Name, existing: Asset, model: Option<Model>,
      scope: Scope, built: Option<Asset>)
    requires Good(svc, s) && ScopeWorks(svc.rules, scope)
    requires built == BuildUpdate(svc, input, revision, existing, model, scope)
    ensures Good(svc, ApplyUpdate(svc, s, existing, model, built, NoteOf(svc.rules, note), scope))
  {
    if && existing in s.seenAssets && (model.Some? ==> model.value in s.seenModels)
       && NoteOf(svc.rules, note).Some? && built.Some? {
      NoteFits(svc.rules, note);
      UpdateKeeps(svc, s, input, revision, NoteOf(svc.rules, note).value, existing, model, scope, built.value);
    }
  }

  lemma {:induction false} EveryRunGood(svc: Service, actions: seq<Action>)
    requires Lawful(svc.rules) && forall i :: 0 <= i < |actions| ==> Works(svc.rules, actions[i])
    ensures Good(svc, Run(svc, actions))
  {
    if actions != [] {
      EveryRunGood(svc, actions[..|actions| - 1]);
      NextKeeps(svc, Run(svc, actions[..|actions| - 1]), actions[|actions| - 1]);
    }
  }

  // ----- What a reachable state guarantees --------------------------------------------------

  /** What the importer checks of an event, all of it exactly when the actor is at most 128 runes. */
  predicate EventImportable(svc: Service, a: Asset, e: Event) {
    EventFits(e, a) && (ValidEvent(svc, e) <==> svc.rules.atMost(e.actor, MAXIMUM_ACTOR))
  }

  lemma SoundEventImportable(svc: Service, a: Asset, e: Event)
    requires EventSound(svc, a, e)
    ensures EventImportable(svc, a, e)
  {
  }

  lemma HistoryImportable(svc: Service, a: Asset, events: seq<Event>)
    requires History(svc, a, events)
    ensures forall i :: 0 <= i < |events| ==> EventImportable(svc, a, events[i])
    ensures forall i :: 0 < i < |events| ==> LinkedEvents(events[i - 1], events[i])
    ensures Replay(events) == Some(a.fields.status)
  {
    ReplayReaches(events, |events|);
    assert events[..|events|] == events;
    forall i | 0 <= i < |events| ensures EventImportable(svc, a, events[i]) {
      SoundEventImportable(svc, a, events[i]);
    }
  }

  /**
    Every reachable asset passes the exchange validator and the importer's model check, its events
    pass the importer's checks against it, each exactly when its actor is at most 128 runes, and
    replaying them from registration gives its status.
   */
  lemma ReachableImportable(svc: Service, actions: seq<Action>, s: System, id: Name)
    requires Lawful(svc.rules) && forall i :: 0 <= i < |actions| ==> Works(svc.rules, actions[i])
    requires s == Run(svc, actions) && id in s.records
    ensures ValidAsset(svc, s.records[id].asset) && ModelKnown(s.models, s.records[id].asset)
    ensures OverridesTell(s.records[id].asset)
    ensures forall i :: 0 <= i < |s.records[id].events| ==>
              EventImportable(svc, s.records[id].asset, s.records[id].events[i])
    ensures forall i :: 0 < i < |s.records[id].events| ==>
              LinkedEvents(s.records[id].events[i - 1], s.records[id].events[i])
    ensures Replay(s.records[id].events) == Some(s.records[id].asset.fields.status)
  {
    EveryRunGood(svc, actions);
    assert RecordTest(svc)(s.records[id]);
    HistoryImportable(svc, s.records[id].asset, s.records[id].events);
  }

  /** Every reachable model passes the exchange validator and is held under its name. */
  lemma ReachableModels(svc: Service, actions: seq<Action>, s: System, id: Name)
    requires Lawful(svc.rules) && forall i :: 0 <= i < |actions| ==> Works(svc.rules, actions[i])
    requires s == Run(svc, actions) && id in s.models
    ensures ValidModel(svc, s.models[id]) && s.models[id].id == id
  {
    EveryRunGood(svc, actions);
    assert ModelTest(svc)(s.models[id]);
  }

  /**
    Registering any acceptable asset without a model, by an actor of more than 128 runes, reaches a
    state whose asset passes the validator and whose event does not.
   */
  lemma LongActorRefused(svc: Service, input: Input, scope: Scope) returns (s: System, id: Name)
    requires Lawful(svc.rules) && ScopeWorks(svc.rules, scope)
    requires NormalizeInput(svc.rules, input).Some? && NormalizeInput(svc.rules, input).value.model == NONE
    requires svc.rules.clean(scope.actor) != NONE && !svc.rules.atMost(scope.actor, MAXIMUM_ACTOR)
    ensures Works(svc.rules, Create(input, None, scope)) && s == Run(svc, [Create(input, None, scope)])
    ensures id in s.records && ValidAsset(svc, s.records[id].asset)
    ensures s.records[id].events != [] && !ValidEvent(svc, s.records[id].events[0])
  {
    var a := Create(input, None, scope);
    RunOne(svc, a);
    s := Run(svc, [a]);
    var built := BuildCreate(svc, input, None, scope).value;
    id := built.asset.id;
    assert s.records == map[id := built];
    CreateSound(svc, map[], input, None, scope, built);
  }

  const START := System(map[], map[], {}, {})

  lemma RunOne(svc: Service, a: Action)
    ensures Run(svc, [a]) == Next(svc, START, a)
  {
    assert [a][..0] == [];
    assert Run(svc, []) == START;
  }

  lemma RunMore(svc: Service, actions: seq<Action>, a: Action)
    ensures Run(svc, actions + [a]) == Next(svc, Run(svc, actions), a)
  {
    assert (actions + [a])[..|actions|] == actions;
  }

  // ----- Time in the models table -----------------------------------------------------------

  /** A model is created and read; the request that read it is overtaken by an update with a later clock. */
  function Overtaken(draft: ModelInput, scope: Scope, m: Model, later: Time): seq<Action> {
    [CreateModel(draft, scope)] + [ReadModel(m.id)] + [UpdateModel(draft.(id := m.id), 1, m, later)]
  }

  lemma EditedUnchanged(svc: Service, draft: ModelInput, freshId: Name, clock: Time, m: Model, later: Time)
    requires Lawful(svc.rules) && svc.rules.stable(freshId) && NewModel(svc, draft, freshId, clock) == Some(m)
    ensures EditedModel(svc, draft.(id := m.id), 1, m, later)
         == Some(m.(revision := 2, updatedAt := Max(later, m.updatedAt)))
  {
    var texts, extras := NormalizedTexts(svc.rules, draft.texts), svc.rules.defaults(draft.extras);
    StartedEdited(svc, svc.rules.clean(draft.id), freshId, texts, extras, Normalize(clock), m, Max(later, m.updatedAt));
  }

  lemma StartedEdited(
      svc: Service, id: Name, freshId: Name, texts: Option<ModelTexts>, extras: Option<Extras>, now: Time, m: Model,
      at: Time)
    requires Lawful(svc.rules) && svc.rules.stable(freshId) && Started(svc, id, freshId, texts, extras, now) == Some(m)
    ensures svc.rules.clean(m.id) == m.id
    ensures Edited(svc.rules, m.id, texts, extras, 1, m, at) == Some(m.(revision := 2, updatedAt := at))
  {
    assert |ACTIVE.text| != |RETIRED.text|;
  }

  lemma RunThree(svc: Service, a: Action, b: Action, c: Action)
    ensures Run(svc, [a] + [b] + [c]) == Next(svc, Next(svc, Next(svc, START, a), b), c)
  {
    RunOne(svc, a);
    RunMore(svc, [a], b);
    RunMore(svc, [a] + [b], c);
  }

  lemma OvertakenRun(svc: Service, draft: ModelInput, scope: Scope, m: Model, later: Time)
    requires Lawful(svc.rules) && ScopeWorks(svc.rules, scope)
    requires NewModel(svc, draft, scope.freshId, scope.clock) == Some(m)
    ensures Run(svc, Overtaken(draft, scope, m, later))
         == System(map[m.id := m.(revision := 2, updatedAt := Max(later, m.updatedAt))], map[], {m}, {})
  {
    RunThree(svc, CreateModel(draft, scope), ReadModel(m.id), UpdateModel(draft.(id := m.id), 1, m, later));
    assert Next(svc, START, CreateModel(draft, scope)) == System(map[m.id := m], map[], {}, {});
    EditedUnchanged(svc, draft, scope.freshId, scope.clock, m, later);
    EditedRead(svc, draft.(id := m.id), m, later, m.(revision := 2, updatedAt := Max(later, m.updatedAt)));
  }

  lemma NextUpdatesModel(
      svc: Service, s: System, draft: ModelInput, revision: int, base: Model, clock: Time, built: Option<Model>)
    requires base in s.seenModels && built == EditedModel(svc, draft, revision, base, clock)
    ensures Next(svc, s, UpdateModel(draft, revision, base, clock)) == s.(models := ReplaceModel(s.models, base, built))
  {
  }

  lemma NextReadsModel(svc: Service, m: Model)
    ensures Next(svc, System(map[m.id := m], map[], {}, {}), ReadModel(m.id)) == System(map[m.id := m], map[], {m}, {})
  {
  }

  lemma ReplacesOnly(m: Model, edited: Model)
    requires edited.id == m.id
    ensures ReplaceModel(map[m.id := m], m, Some(edited)) == map[m.id := edited]
  {
  }

  lemma EditedRead(svc: Service, draft: ModelInput, m: Model, later: Time, edited: Model)
    requires EditedModel(svc, draft, 1, m, later) == Some(edited) && edited.id == m.id
    ensures Next(svc, Next(svc, System(map[m.id := m], map[], {}, {}), ReadModel(m.id)),
                 UpdateModel(draft, 1, m, later))
         == System(map[m.id := edited], map[], {m}, {})
  {
    NextReadsModel(svc, m);
    NextUpdatesModel(svc, System(map[m.id := m], map[], {m}, {}), draft, 1, m, later, Some(edited));
    ReplacesOnly(m, edited);
  }

  /** Then the request retires the updated model, under its revision, at the time of the row it read. */
  lemma RetirementCanStepBack(svc: Service, draft: ModelInput, scope: Scope, m: Model, later: Time)
    requires Lawful(svc.rules) && ScopeWorks(svc.rules, scope) && Earlier(Normalize(scope.clock), Normalize(later))
    requires NewModel(svc, draft, scope.freshId, scope.clock) == Some(m)
    ensures var s := Run(svc, Overtaken(draft, scope, m, later));
            var t := Run(svc, Overtaken(draft, scope, m, later) + [RetireModel(m.id, 2, m, scope.clock)]);
            && m.id in s.models && m.id in t.models && t.models[m.id].status == RETIRED
            && Earlier(t.models[m.id].updatedAt, s.models[m.id].updatedAt)
  {
    OvertakenRun(svc, draft, scope, m, later);
    var edited := m.(revision := 2, updatedAt := Max(later, m.updatedAt));
    RunMore(svc, Overtaken(draft, scope, m, later), RetireModel(m.id, 2, m, scope.clock));
    RetiredBack(svc.rules, m, edited, scope.clock);
  }

  lemma RetiredBack(r: Rules, m: Model, edited: Model, clock: Time)
    requires Lawful(r) && r.stable(m.id) && edited.id == m.id && edited.revision == 2 && edited.status != RETIRED
    requires Earlier(Normalize(clock), edited.updatedAt) && Earlier(Normalize(m.updatedAt), edited.updatedAt)
    ensures var models := Retire(r, map[m.id := edited], m.id, 2, m, clock);
            m.id in models && models[m.id].status == RETIRED && Earlier(models[m.id].updatedAt, edited.updatedAt)
  {
  }

  /** While the model stays assigned, its snapshot stays as it was, apart from what is overridden. */
  predicate SnapshotKept(before: Asset, after: Asset) {
    before.model != NONE && after.model == before.model && before.context.Some? ==>
      after.context.Some? && after.context.value == before.context.value.(overrides := after.context.value.overrides)
  }

  /** The row is as it was, or it is the next revision of the row the request read. */
  predicate Follows(before: Record, a: Action, after: Record) {
    after == before ||
    (a.Update? && a.existing == before.asset && after.asset.revision == before.asset.revision + 1
     && SnapshotKept(before.asset, after.asset))
  }

  /** A step leaves an asset alone or replaces the very row its request read by the next revision. */
  lemma StepRevision(recordOk: Record -> bool, modelOk: Model -> bool, svc: Service, s: System, a: Action, id: Name)
    requires Consistent(recordOk, modelOk, s) && id in s.records
    ensures id in Next(svc, s, a).records && Follows(s.records[id], a, Next(svc, s, a).records[id])
  {
    match a
    case Update(input, revision, note, existing, model, scope) =>
      var built := BuildUpdate(svc, input, revision, existing, model, scope);
      if built.Some? {
        UpdateNumbers(svc, input, revision, existing, model, scope, built.value);
      }
      UpdateFollows(recordOk, modelOk, svc, s, a, existing, model, built, NoteOf(svc.rules, note), scope, id);
    case _ => OthersLeave(svc, s, a, id);
  }

  /** Only an update changes an asset that is there. */
  lemma OthersLeave(svc: Service, s: System, a: Action, id: Name)
    requires id in s.records && !a.Update?
    ensures id in Next(svc, s, a).records && Next(svc, s, a).records[id] == s.records[id]
  {
    match a
    case Create(input, model, scope) => CreateLeaves(s, model, BuildCreate(svc, input, model, scope), id);
    case CreateBulk(common, items, clock) =>
      BulkLeaves(s, common, BulkRows(svc.rules, Builder(svc, common, BulkTime(clock, common)), items), id);
    case _ =>
  }

  lemma CreateLeaves(s: System, model: Option<Model>, built: Option<Record>, id: Name)
    requires id in s.records
    ensures id in ApplyCreate(s, model, built).records && ApplyCreate(s, model, built).records[id] == s.records[id]
  {
  }

  lemma BulkLeaves(s: System, common: Model, rows: Option<seq<Record>>, id: Name)
    requires id in s.records
    ensures id in ApplyBulk(s, common, rows).records && ApplyBulk(s, common, rows).records[id] == s.records[id]
  {
    if rows.Some? {
      AddRecordsLeave(s, rows.value, id);
    }
  }

  lemma UpdateFollows(
      recordOk: Record -> bool, modelOk: Model -> bool, svc: Service, s: System, a: Action, existing: Asset,
      model: Option<Model>, built: Option<Asset>, note: Option<Name>, scope: Scope, id: Name)
    requires Consistent(recordOk, modelOk, s) && id in s.records && a.Update? && a.existing == existing
    requires built.Some? ==> built.value.id == existing.id && built.value.revision == existing.revision + 1
    requires built.Some? ==> SnapshotKept(existing, built.value)
    ensures id in ApplyUpdate(svc, s, existing, model, built, note, scope).records
    ensures Follows(s.records[id], a, ApplyUpdate(svc, s, existing, model, built, note, scope).records[id])
  {
    if existing in s.seenAssets {
      UpdateFromCurrent(recordOk, modelOk, s, existing);
    }
  }

  lemma UpdateNumbers(
      svc: Service, input: Input, revision: int, existing: Asset, model: Option<Model>, scope: Scope, updated: Asset)
    requires BuildUpdate(svc, input, revision, existing, model, scope) == Some(updated)
    ensures updated.id == existing.id && updated.revision == existing.revision + 1 && SnapshotKept(existing, updated)
  {
  }

  lemma {:induction false} AddRecordsLeave(s: System, rs: seq<Record>, id: Name)
    requires id in s.records
    ensures id in AddRecords(s, rs).records && AddRecords(s, rs).records[id] == s.records[id]
  {
    if rs != [] {
      AddRecordsLeave(s, rs[..|rs| - 1], id);
    }
  }

  /** How many steps of a run changed an asset that was already there. */
  ghost function Changes(svc: Service, actions: seq<Action>, id: Name): nat {
    if actions == [] then 0
    else
      var before, after := Run(svc, actions[..|actions| - 1]), Run(svc, actions);
      Changes(svc, actions[..|actions| - 1], id)
      + if id in before.records && id in after.records && before.records[id] != after.records[id] then 1 else 0
  }

  /** No update is lost: the revision counts the changes since registration, each made to the one before. */
  lemma {:induction false} RevisionCountsChanges(svc: Service, actions: seq<Action>, id: Name)
    requires Lawful(svc.rules) && forall i :: 0 <= i < |actions| ==> Works(svc.rules, actions[i])
    ensures if id in Run(svc, actions).records
            then Run(svc, actions).records[id].asset.revision == 1 + Changes(svc, actions, id)
            else Changes(svc, actions, id) == 0
  {
    if actions != [] {
      var front, last := actions[..|actions| - 1], actions[|actions| - 1];
      var s := Run(svc, front);
      RevisionCountsChanges(svc, front, id);
      EveryRunGood(svc, front);
      if id in s.records {
        StepRevision(RecordTest(svc), ModelTest(svc), svc, s, last, id);
      } else {
        FirstRevision(svc, s, last, id);
      }
    }
  }

  lemma FirstRevision(svc: Service, s: System, a: Action, id: Name)
    requires id !in s.records
    ensures id in Next(svc, s, a).records ==> Next(svc, s, a).records[id].asset.revision == 1
  {
    match a
    case CreateModel(_, _) =>
    case UpdateModel(_, _, _, _) =>
    case RetireModel(_, _, _, _) =>
    case ReactivateModel(_, _, _, _) =>
    case ReadModel(_) =>
    case ReadAsset(_) =>
    case Create(input, model, scope) =>
    case CreateBulk(common, items, clock) =>
      BulkFirst(
        svc, s, common, items, BulkTime(clock, common),
        BulkRows(svc.rules, Builder(svc, common, BulkTime(clock, common)), items), id);
    case Update(input, revision, note, existing, model, scope) =>
  }

  lemma BulkFirst(
      svc: Service, s: System, common: Model, items: seq<BulkItem>, now: Time, rows: Option<seq<Record>>, id: Name)
    requires id !in s.records && rows == BulkRows(svc.rules, Builder(svc, common, now), items)
    ensures var t := ApplyBulk(s, common, rows); id in t.records ==> t.records[id].asset.revision == 1
  {
    if rows.Some? {
      ItemsNew(svc, common, now, items, Taken({}, {}, {}), rows.value);
      AddRecordsNew(s, rows.value, id);
    }
  }

  lemma {:induction false} AddRecordsNew(s: System, rs: seq<Record>, id: Name)
    requires id !in s.records && forall i :: 0 <= i < |rs| ==> rs[i].asset.revision == 1
    ensures id in AddRecords(s, rs).records ==> AddRecords(s, rs).records[id].asset.revision == 1
  {
    if rs != [] {
      AddRecordsNew(s, rs[..|rs| - 1], id);
    }
  }

  lemma {:induction false} ItemsNew(
      svc: Service, common: Model, now: Time, items: seq<BulkItem>, taken: Taken, rs: seq<Record>)
    requires BuildItems(svc.rules, Builder(svc, common, now), items, taken) == Some(rs)
    ensures forall i :: 0 <= i < |rs| ==> rs[i].asset.revision == 1
    decreases |items|
  {
    if items != [] {
      var first := Builder(svc, common, now)(items[0]).value;
      var next := Take(svc.rules, taken, first.asset);
      var rest := BuildItems(svc.rules, Builder(svc, common, now), items[1..], next).value;
      ItemsNew(svc, common, now, items[1..], Take(svc.rules, taken, first.asset), rest);
      assert first.asset.revision == 1;
      assert rs == [first] + rest;
    }
  }
}
