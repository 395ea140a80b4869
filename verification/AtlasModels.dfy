/**
  The catalogue of asset models: creating, updating, retiring and reactivating a model. A request
  reads a row and later writes on the strength of what it read.
 */
module AtlasModels {
  import opened Text
  import opened Ordering
  import opened Clock
  import opened AtlasRecords

  datatype ModelInput = ModelInput(id: Name, texts: ModelTexts, extras: Extras)

  // ----- Building rows ----------------------------------------------------------------------

  /** A new model, under the name asked for or a generated one. */
  ghost function NewModel(svc: Service, input: ModelInput, freshId: Name, clock: Time): Option<Model> {
    Started(svc, svc.rules.clean(input.id), freshId, NormalizedTexts(svc.rules, input.texts),
            svc.rules.defaults(input.extras), Normalize(clock))
  }

  function Started(
      svc: Service, id: Name, freshId: Name, texts: Option<ModelTexts>, extras: Option<Extras>,
      now: Time): Option<Model>
  {
    if (id != NONE && !svc.rules.stable(id)) || texts.None? || extras.None? then None
    else Some(Model(if id != NONE then id else freshId, svc.organization, texts.value, extras.value, ACTIVE, 1,
                    now, now))
  }

  /** The next revision of the model that the request read. */
  ghost function EditedModel(
      svc: Service, input: ModelInput, revision: int, existing: Model, clock: Time): Option<Model>
  {
    Edited(svc.rules, svc.rules.clean(input.id), NormalizedTexts(svc.rules, input.texts),
           svc.rules.defaults(input.extras), revision, existing, Max(clock, existing.updatedAt))
  }

  function Edited(
      r: Rules, id: Name, texts: Option<ModelTexts>, extras: Option<Extras>, revision: int, existing: Model,
      at: Time): Option<Model>
  {
    if || !r.stable(id) || revision < 1 || existing.id != id
       || existing.revision != revision || existing.status == RETIRED || texts.None? || extras.None? then None
    else Some(existing.(texts := texts.value, extras := extras.value, revision := existing.revision + 1,
                        updatedAt := at))
  }

  // ----- The table --------------------------------------------------------------------------

  type Models = map<Name, Model>

  function AddModel(models: Models, built: Option<Model>): Models {
    if built.None? || built.value.id in models then models else models[built.value.id := built.value]
  }

  function ReplaceModel(models: Models, existing: Model, built: Option<Model>): Models {
    if built.None? || built.value.id !in models || models[built.value.id].revision != existing.revision then models
    else models[built.value.id := built.value]
  }

  /** The row with another status, dated by the request's clock and the row the request read. */
  function WithStatus(current: Model, status: Name, existing: Model, clock: Time): Model {
    current.(status := status, revision := current.revision + 1, updatedAt := Max(clock, existing.updatedAt))
  }

  predicate Addresses(r: Rules, id: Name, revision: int, existing: Model) {
    r.stable(r.clean(id)) && revision >= 1 && existing.id == r.clean(id)
  }

  /** Retires the row that is there if it has the given revision, whichever row the request read. */
  function Retire(r: Rules, models: Models, id: Name, revision: int, existing: Model, clock: Time): Models {
    if !Addresses(r, id, revision, existing) || existing.id !in models then models
    else
      var current := models[existing.id];
      if current.revision != revision || current.status == RETIRED then models
      else models[existing.id := WithStatus(current, RETIRED, existing, clock)]
  }

  function Reactivate(r: Rules, models: Models, id: Name, revision: int, existing: Model, clock: Time): Models {
    if !Addresses(r, id, revision, existing) || existing.status != RETIRED || existing.id !in models then models
    else
      var current := models[existing.id];
      if current.revision != revision || current.status != RETIRED then models
      else models[existing.id := WithStatus(current, ACTIVE, existing, clock)]
  }

  // ----- What the operations keep -----------------------------------------------------------

  /** Every model passes the exchange validator and is held under its name. */
  ghost predicate ModelsOk(ok: Model -> bool, models: Models) {
    forall k :: k in models ==> models[k].id == k && ok(models[k])
  }

  /** A model row some request read: the current row, or an older revision created at the same time. */
  predicate NotNewer(models: Models, m: Model) {
    && m.id in models && m.revision <= models[m.id].revision && m.createdAt == models[m.id].createdAt
    && (m.revision == models[m.id].revision ==> models[m.id] == m)
  }

  /** The table is as it was, or one model is new, or one is at its next revision. */
  ghost predicate ModelStep(ok: Model -> bool, before: Models, after: Models) {
    || after == before
    || exists m :: ok(m) && after == before[m.id := m] && Succeeds(before, m)
  }

  predicate Succeeds(models: Models, m: Model) {
    m.id in models ==> m.revision == models[m.id].revision + 1 && m.createdAt == models[m.id].createdAt
  }

  lemma ModelWritten(ok: Model -> bool, models: Models, m: Model)
    requires ok(m) && Succeeds(models, m)
    ensures ModelStep(ok, models, models[m.id := m])
  {
  }

  ghost function ModelTest(svc: Service): (test: Model -> bool)
    ensures forall m :: test(m) <==> ValidModel(svc, m)
  {
    (m: Model) => ValidModel(svc, m)
  }

  lemma NewModelValid(svc: Service, input: ModelInput, freshId: Name, clock: Time)
    requires Lawful(svc.rules) && InYears(clock) && svc.rules.stable(freshId)
    requires NewModel(svc, input, freshId, clock).Some?
    ensures ValidModel(svc, NewModel(svc, input, freshId, clock).value)
  {
    NormalizedTextsNormal(svc.rules, input.texts);
    NormalizePortable(clock);
  }

  lemma LaterTimes(clock: Time, m: Model)
    requires InYears(clock) && ValidTimes(m.createdAt, m.updatedAt)
    ensures ValidTimes(m.createdAt, Max(clock, m.updatedAt))
  {
    NormalizePortable(clock);
  }

  lemma EditedModelValid(svc: Service, input: ModelInput, revision: int, existing: Model, clock: Time)
    requires Lawful(svc.rules) && InYears(clock) && ValidModel(svc, existing)
    requires EditedModel(svc, input, revision, existing, clock).Some?
    ensures ValidModel(svc, EditedModel(svc, input, revision, existing, clock).value)
  {
    NormalizedTextsNormal(svc.rules, input.texts);
    LaterTimes(clock, existing);
  }

  lemma WithStatusValid(svc: Service, current: Model, status: Name, existing: Model, clock: Time)
    requires ValidModel(svc, current) && ValidModel(svc, existing) && existing.createdAt == current.createdAt
    requires InYears(clock) && (status == ACTIVE || status == RETIRED)
    ensures ValidModel(svc, WithStatus(current, status, existing, clock))
  {
    LaterTimes(clock, existing);
  }

  lemma AddSteps(ok: Model -> bool, models: Models, built: Option<Model>)
    requires built.Some? ==> ok(built.value)
    ensures ModelStep(ok, models, AddModel(models, built))
  {
    if built.Some? && built.value.id !in models {
      ModelWritten(ok, models, built.value);
    }
  }

  lemma AddModelSteps(svc: Service, models: Models, input: ModelInput, freshId: Name, clock: Time)
    requires Lawful(svc.rules) && InYears(clock) && svc.rules.stable(freshId)
    ensures ModelStep(ModelTest(svc), models, AddModel(models, NewModel(svc, input, freshId, clock)))
  {
    var built := NewModel(svc, input, freshId, clock);
    if built.Some? {
      NewModelValid(svc, input, freshId, clock);
    }
    AddSteps(ModelTest(svc), models, built);
  }

  lemma ReplaceSteps(ok: Model -> bool, models: Models, existing: Model, built: Option<Model>)
    requires NotNewer(models, existing)
    requires built.Some? ==> ok(built.value) && built.value.id == existing.id
    requires built.Some? ==>
               built.value.revision == existing.revision + 1 && built.value.createdAt == existing.createdAt
    ensures ModelStep(ok, models, ReplaceModel(models, existing, built))
  {
    if built.Some? && models[existing.id].revision == existing.revision {
      ModelWritten(ok, models, built.value);
    }
  }

  lemma ReplaceModelSteps(svc: Service, models: Models, input: ModelInput, revision: int, existing: Model, clock: Time)
    requires Lawful(svc.rules) && InYears(clock) && ValidModel(svc, existing) && NotNewer(models, existing)
    ensures ModelStep(ModelTest(svc), models,
                      ReplaceModel(models, existing, EditedModel(svc, input, revision, existing, clock)))
  {
    var built := EditedModel(svc, input, revision, existing, clock);
    if built.Some? {
      EditedModelValid(svc, input, revision, existing, clock);
    }
    ReplaceSteps(ModelTest(svc), models, existing, built);
  }

  lemma RetireSteps(ok: Model -> bool, r: Rules, models: Models, id: Name, revision: int, existing: Model, clock: Time)
    requires ModelsOk(ok, models) && existing.id in models
    requires ok(WithStatus(models[existing.id], RETIRED, existing, clock))
    ensures ModelStep(ok, models, Retire(r, models, id, revision, existing, clock))
  {
    ModelWritten(ok, models, WithStatus(models[existing.id], RETIRED, existing, clock));
  }

  lemma ReactivateSteps(
      ok: Model -> bool, r: Rules, models: Models, id: Name, revision: int, existing: Model, clock: Time)
    requires ModelsOk(ok, models) && existing.id in models
    requires ok(WithStatus(models[existing.id], ACTIVE, existing, clock))
    ensures ModelStep(ok, models, Reactivate(r, models, id, revision, existing, clock))
  {
    ModelWritten(ok, models, WithStatus(models[existing.id], ACTIVE, existing, clock));
  }

  lemma StatusSteps(svc: Service, models: Models, id: Name, revision: int, existing: Model, clock: Time)
    requires InYears(clock) && ModelsOk(ModelTest(svc), models) && ValidModel(svc, existing)
    requires NotNewer(models, existing)
    ensures ModelStep(ModelTest(svc), models, Retire(svc.rules, models, id, revision, existing, clock))
    ensures ModelStep(ModelTest(svc), models, Reactivate(svc.rules, models, id, revision, existing, clock))
  {
    WithStatusValid(svc, models[existing.id], RETIRED, existing, clock);
    WithStatusValid(svc, models[existing.id], ACTIVE, existing, clock);
    RetireSteps(ModelTest(svc), svc.rules, models, id, revision, existing, clock);
    ReactivateSteps(ModelTest(svc), svc.rules, models, id, revision, existing, clock);
  }

  /** A step keeps the table in order, and what was read of it stays the current row or an older one. */
  lemma StepKeeps(ok: Model -> bool, before: Models, after: Models)
    requires ModelsOk(ok, before) && ModelStep(ok, before, after)
    ensures ModelsOk(ok, after)
    ensures forall m :: NotNewer(before, m) ==> NotNewer(after, m)
    ensures forall k :: k in before ==> k in after && before[k].revision <= after[k].revision
  {
  }

  // ----- Whether time moves forward ---------------------------------------------------------

  /** An update of a model never moves its time back. */
  lemma EditForward(svc: Service, models: Models, input: ModelInput, revision: int, existing: Model, clock: Time)
    requires NotNewer(models, existing) && Portable(existing.updatedAt)
    ensures var after := ReplaceModel(models, existing, EditedModel(svc, input, revision, existing, clock));
            existing.id in after && !Earlier(after[existing.id].updatedAt, models[existing.id].updatedAt)
  {
  }

  /** The row is there, at the revision the request names and with the status it expects. */
  predicate CanRetire(r: Rules, models: Models, id: Name, revision: int, existing: Model) {
    && Addresses(r, id, revision, existing) && existing.id in models
    && models[existing.id].revision == revision && models[existing.id].status != RETIRED
  }

  /**
    A retirement moves the model's time back if and only if both the clock and the row the request read
    are earlier than the row it retires; then that row is newer than the one read.
   */
  lemma RetireBackExactly(svc: Service, models: Models, id: Name, revision: int, existing: Model, clock: Time)
    requires NotNewer(models, existing) && Portable(existing.updatedAt) && Portable(models[existing.id].updatedAt)
    requires CanRetire(svc.rules, models, id, revision, existing)
    ensures var current := models[existing.id];
            var after := Retire(svc.rules, models, id, revision, existing, clock)[existing.id];
            && (Earlier(after.updatedAt, current.updatedAt) <==>
                  Earlier(clock, current.updatedAt) && Earlier(existing.updatedAt, current.updatedAt))
            && (Earlier(after.updatedAt, current.updatedAt) ==> existing.revision < current.revision)
  {
    CanonicalEarlier(clock, models[existing.id].updatedAt);
  }

  predicate CanReactivate(r: Rules, models: Models, id: Name, revision: int, existing: Model) {
    && Addresses(r, id, revision, existing) && existing.status == RETIRED && existing.id in models
    && models[existing.id].revision == revision && models[existing.id].status == RETIRED
  }

  /** A reactivation does so under the same condition. */
  lemma ReactivateBackExactly(svc: Service, models: Models, id: Name, revision: int, existing: Model, clock: Time)
    requires NotNewer(models, existing) && Portable(existing.updatedAt) && Portable(models[existing.id].updatedAt)
    requires CanReactivate(svc.rules, models, id, revision, existing)
    ensures var current := models[existing.id];
            var after := Reactivate(svc.rules, models, id, revision, existing, clock)[existing.id];
            && (Earlier(after.updatedAt, current.updatedAt) <==>
                  Earlier(clock, current.updatedAt) && Earlier(existing.updatedAt, current.updatedAt))
            && (Earlier(after.updatedAt, current.updatedAt) ==> existing.revision < current.revision)
  {
    CanonicalEarlier(clock, models[existing.id].updatedAt);
  }

  lemma CanonicalEarlier(a: Time, b: Time)
    requires Canonical(b)
    ensures Earlier(Normalize(a), b) <==> Earlier(a, b)
  {
  }
}
