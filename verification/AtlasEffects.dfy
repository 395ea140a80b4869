/**
  What asset and model requests write, in terms of their own fields: when a registration, a bulk
  registration, an update and each model operation go through in a reachable state, and exactly what the
  rows and events are then.
 */
module AtlasEffects {
  import opened Text
  import opened Ordering
  import opened Clock
  import opened AtlasRecords
  import opened AtlasModels
  import opened AtlasRuns
  import opened AtlasGuarantees

  // ----- The fields of a request ------------------------------------------------------------

  /** The row has the request's own fields: texts trimmed, host name and status in lower case, the purchase's day. */
  predicate Carries(r: Rules, f: Fields, input: Fields) {
    && f.name == r.clean(input.name) && f.tag == r.clean(input.tag) && f.serial == r.clean(input.serial)
    && f.hostname == r.lower(input.hostname) && f.notes == r.clean(input.notes)
    && f.references.site == r.clean(input.references.site)
    && f.references.building == r.clean(input.references.building)
    && f.references.room == r.clean(input.references.room)
    && f.references.department == r.clean(input.references.department)
    && f.references.user == r.clean(input.references.user)
    && f.status == RequestedStatus(r, input)
    && f.purchased.Some? == input.purchased.Some?
    && (f.purchased.Some? ==> SameDay(f.purchased.value, input.purchased.value))
  }

  function RequestedStatus(r: Rules, input: Fields): Name {
    if r.lower(input.status) == NONE then Name("draft") else r.lower(input.status)
  }

  /** The day is the midnight, in UTC, at or before the instant. */
  predicate SameDay(day: Time, t: Time) {
    day.utc && day.nanos % 86_400_000_000_000 == 0 && day.nanos <= t.nanos < day.nanos + 86_400_000_000_000
  }

  /** The request's own kind or, when it is blank, the model's. */
  function RequestedKind(r: Rules, input: Fields, fallback: Name): Name {
    if r.lower(input.kind) == NONE then fallback else r.lower(input.kind)
  }

  lemma NormalizedCarries(r: Rules, input: Input, n: Input)
    requires NormalizeInput(r, input) == Some(n)
    ensures Carries(r, n.fields, input.fields) && n.fields.kind == r.lower(input.fields.kind)
    ensures n.id == r.clean(input.id) && n.model == r.clean(input.model) && Some(n.extras) == r.extras(input.extras)
  {
  }

  lemma CarriesKind(r: Rules, f: Fields, input: Fields, kind: Name)
    requires Carries(r, f, input)
    ensures Carries(r, f.(kind := kind), input)
  {
  }

  /** The snapshot of a model taken at an instant. */
  predicate Snapshots(c: Context, m: Model, kind: Name, at: Time) {
    && c.texts == m.texts && c.modelRevision == m.revision && c.defaultsEffectiveAt == Normalize(m.updatedAt)
    && c.appliedAt == Normalize(at) && c.overrides == (if kind == m.texts.kind then [] else [Name("kind")])
  }

  /** One event of the asset as it is, from one status to its own. */
  predicate Records(svc: Service, e: Event, a: Asset, from: Name, note: Name, scope: Scope) {
    && e.id == scope.eventId && e.organization == svc.organization && e.asset == a.id
    && e.from == from && e.to == a.fields.status && e.note == note && e.revision == a.revision
    && e.actor == (if svc.rules.clean(scope.actor) == NONE then Name("system:atlas") else scope.actor)
    && e.occurredAt == a.updatedAt
  }

  // ----- Registration -----------------------------------------------------------------------

  /** A registration's asset and its one event, as the request asks. */
  predicate Registers(
      svc: Service, input: Input, name: Name, model: Option<Model>, scope: Scope, at: Time, note: Name, r: Record)
  {
    var a, rules := r.asset, svc.rules;
    && a.id == (if rules.clean(input.id) == NONE then scope.freshId else rules.clean(input.id))
    && a.organization == svc.organization && a.model == name
    && Carries(rules, a.fields, input.fields)
    && a.fields.kind == RequestedKind(rules, input.fields, if model.Some? then model.value.texts.kind else NONE)
    && a.revision == 1 && a.createdAt == at && a.updatedAt == at
    && a.context.Some? == model.Some?
    && (model.Some? ==> Snapshots(a.context.value, model.value, a.fields.kind, at))
    && rules.extras(input.extras).Some?
    && a.extras == (if model.Some? then rules.inherit(rules.extras(input.extras).value, model.value.extras)
                    else rules.extras(input.extras).value)
    && |r.events| == 1 && Records(svc, r.events[0], a, NONE, note, scope)
  }

  lemma NewRegisters(
      svc: Service, input: Input, n: Input, model: Option<Model>, scope: Scope, at: Time, note: Name)
    requires NormalizeInput(svc.rules, input) == Some(n)
    ensures Registers(svc, input, svc.rules.clean(input.model), model, scope, at, note,
                      NewRecord(svc, n, model, scope, at, note))
  {
    NormalizedCarries(svc.rules, input, n);
    CarriesKind(svc.rules, n.fields, input.fields, KindOf(n.fields.kind, model));
  }

  /** The request names no model, or the active one it read. */
  predicate NamesModel(r: Rules, name: Name, model: Option<Model>) {
    if r.clean(name) == NONE then model.None?
    else model.Some? && model.value.id == r.clean(name) && model.value.status == Name("active")
  }

  lemma NamesModelFits(r: Rules, name: Name, model: Option<Model>)
    ensures NamesModel(r, name, model) <==> ModelFits(r.clean(name), model)
  {
  }

  /** The time of a write: the later of the clock and the model. */
  function WriteTime(clock: Time, model: Option<Model>): Time {
    if model.Some? then Max(clock, model.value.updatedAt) else Normalize(clock)
  }

  lemma WriteTimeIs(clock: Time, model: Option<Model>)
    ensures LaterOf(Normalize(clock), model) == WriteTime(clock, model)
  {
  }

  /** A model may be assigned when it is in the table and active. */
  predicate Assignable(models: map<Name, Model>, name: Name) {
    name == NONE || (name in models && models[name].status == Name("active"))
  }

  predicate CreateAccepted(svc: Service, s: System, input: Input, model: Option<Model>, scope: Scope) {
    var name := svc.rules.clean(input.id);
    && NormalizeInput(svc.rules, input).Some? && NamesModel(svc.rules, input.model, model)
    && (model.Some? ==> model.value in s.seenModels)
    && (if name == NONE then scope.freshId else name) !in s.records
    && Assignable(s.models, svc.rules.clean(input.model))
  }

  /** What the two records agree on apart from one name. */
  ghost predicate OnlyAt(before: System, after: System, id: Name) {
    && after.models == before.models && after.seenModels == before.seenModels && after.seenAssets == before.seenAssets
    && id in after.records && after.records == before.records[id := after.records[id]]
  }

  /** A registration adds exactly the asset and the event it asks for when it is accepted, and else nothing. */
  lemma CreateExactly(svc: Service, s: System, input: Input, model: Option<Model>, scope: Scope, t: System)
    returns (id: Name)
    requires t == Next(svc, s, Create(input, model, scope))
    ensures if CreateAccepted(svc, s, input, model, scope) then
              && id !in s.records && OnlyAt(s, t, id)
              && Registers(svc, input, svc.rules.clean(input.model), model, scope, WriteTime(scope.clock, model),
                           Name("Asset registered"), t.records[id])
            else t == s
  {
    NamesModelFits(svc.rules, input.model, model);
    WriteTimeIs(scope.clock, model);
    id := NONE;
    if BuildCreate(svc, input, model, scope).Some? {
      var n := NormalizeInput(svc.rules, input).value;
      NormalizedCarries(svc.rules, input, n);
      id := BuildCreate(svc, input, model, scope).value.asset.id;
      NewRegisters(svc, input, n, model, scope, WriteTime(scope.clock, model), REGISTERED);
    }
  }

  // ----- Bulk registration ------------------------------------------------------------------

  /** Each item of a bulk registration becomes the asset it asks for, under the common model. */
  lemma ItemRegisters(svc: Service, common: Model, item: BulkItem, at: Time, r: Record)
    requires Lawful(svc.rules) && svc.rules.stable(common.id) && BuildItem(svc, common, item, at) == Some(r)
    ensures Registers(svc, item.input, common.id, Some(common), item.scope, at,
                      Name("Asset registered from model bulk intake"), r)
    ensures svc.rules.clean(item.input.model) == NONE || svc.rules.clean(item.input.model) == common.id
  {
    var input := item.input.(model := common.id);
    NewRegisters(svc, input, NormalizeInput(svc.rules, input).value, Some(common), item.scope, at, REGISTERED_IN_BULK);
  }

  predicate Has(records: map<Name, Record>, r: Record) {
    r.asset.id in records && records[r.asset.id] == r
  }

  ghost predicate Listed(rows: seq<Record>, id: Name) {
    exists i :: 0 <= i < |rows| && rows[i].asset.id == id
  }

  /** Exactly the rows have been added. */
  ghost predicate AddedTo(before: map<Name, Record>, rows: seq<Record>, after: map<Name, Record>) {
    && (forall id :: id in before ==> id in after && after[id] == before[id])
    && (forall i :: 0 <= i < |rows| ==> Has(after, rows[i]) && rows[i].asset.id !in before)
    && (forall id :: id in after ==> id in before || Listed(rows, id))
  }

  lemma AddedMore(before: map<Name, Record>, rows: seq<Record>, middle: map<Name, Record>, last: Record)
    requires AddedTo(before, rows, middle) && last.asset.id !in before && !Listed(rows, last.asset.id)
    ensures AddedTo(before, rows + [last], middle[last.asset.id := last])
  {
    var all, after := rows + [last], middle[last.asset.id := last];
    forall i | 0 <= i < |all| ensures Has(after, all[i]) && all[i].asset.id !in before {
      if i < |rows| {
        assert all[i] == rows[i] && Has(middle, rows[i]) && rows[i].asset.id != last.asset.id;
      }
    }
    forall id | id in after ensures id in before || Listed(all, id) {
      if id == last.asset.id {
        assert all[|rows|].asset.id == id;
      } else if id !in before {
        var i :| 0 <= i < |rows| && rows[i].asset.id == id;
        assert all[i].asset.id == id;
      }
    }
  }

  lemma AddableFront(s: System, rows: seq<Record>)
    requires AllAddable(s, rows) && rows != []
    ensures var last := rows[|rows| - 1];
            && AllAddable(s, rows[..|rows| - 1]) && !Listed(rows[..|rows| - 1], last.asset.id)
            && last.asset.id !in s.records && ModelThere(s.models, last.asset.model, NONE)
  {
  }

  lemma {:induction false} AddRecordsExactly(s: System, rows: seq<Record>)
    requires AllAddable(s, rows)
    ensures AddedTo(s.records, rows, AddRecords(s, rows).records)
    ensures AddRecords(s, rows) == s.(records := AddRecords(s, rows).records)
  {
    if rows != [] {
      var front, last := rows[..|rows| - 1], rows[|rows| - 1];
      AddableFront(s, rows);
      AddRecordsExactly(s, front);
      var u := AddRecords(s, front);
      assert last.asset.id !in u.records;
      AddedMore(s.records, front, u.records, last);
      assert front + [last] == rows;
    }
  }

  /** The rows a bulk registration asks for, item by item. */
  ghost predicate RegistersAll(svc: Service, common: Model, items: seq<BulkItem>, at: Time, rows: seq<Record>) {
    |rows| == |items| &&
    forall i :: 0 <= i < |items| ==> RegistersItem(svc, common, items[i], at, rows[i])
  }

  predicate RegistersItem(svc: Service, common: Model, item: BulkItem, at: Time, r: Record) {
    Registers(svc, item.input, common.id, Some(common), item.scope, at,
              Name("Asset registered from model bulk intake"), r)
  }

  lemma BuiltRegisters(svc: Service, common: Model, items: seq<BulkItem>, at: Time, rows: seq<Record>)
    requires Lawful(svc.rules) && svc.rules.stable(common.id)
    requires BuiltFrom(svc.rules, Builder(svc, common, at), items, rows)
    ensures RegistersAll(svc, common, items, at, rows)
  {
    forall i | 0 <= i < |items| ensures RegistersItem(svc, common, items[i], at, rows[i]) {
      assert Builder(svc, common, at)(items[i]) == Some(rows[i]);
      ItemRegisters(svc, common, items[i], at, rows[i]);
    }
  }

  ghost predicate BulkAccepted(
      svc: Service, s: System, common: Model, items: seq<BulkItem>, at: Time, rows: seq<Record>)
  {
    && common in s.seenModels && common.status == Name("active") && 1 <= |items| <= 100
    && BuiltFrom(svc.rules, Builder(svc, common, at), items, rows) && AllAddable(s, rows)
  }

  lemma BulkTimeIs(clock: Time, common: Model)
    ensures BulkTime(clock, common) == Max(clock, common.updatedAt)
  {
  }

  lemma ApplyBulkExactly(svc: Service, s: System, common: Model, items: seq<BulkItem>, at: Time, rows: seq<Record>)
    requires BulkAccepted(svc, s, common, items, at, rows)
    ensures ApplyBulk(s, common, BulkRows(svc.rules, Builder(svc, common, at), items)) == AddRecords(s, rows)
  {
    AtlasRuns.BulkExactly(svc.rules, Builder(svc, common, at), items, rows);
  }

  lemma ApplyBulkNothing(svc: Service, s: System, common: Model, items: seq<BulkItem>, at: Time)
    requires forall rows :: !BulkAccepted(svc, s, common, items, at, rows)
    ensures ApplyBulk(s, common, BulkRows(svc.rules, Builder(svc, common, at), items)) == s
  {
    var built := BulkRows(svc.rules, Builder(svc, common, at), items);
    if built.Some? {
      AtlasRuns.BulkExactly(svc.rules, Builder(svc, common, at), items, built.value);
      assert !BulkAccepted(svc, s, common, items, at, built.value);
    }
  }

  ghost predicate BulkAdds(svc: Service, s: System, common: Model, items: seq<BulkItem>, at: Time, t: System) {
    exists rows :: RegistersAll(svc, common, items, at, rows) && AddedTo(s.records, rows, t.records)
                   && t == s.(records := t.records)
  }

  /** A bulk registration that is accepted adds, for every item, exactly the asset it asks for; otherwise nothing. */
  lemma BulkRegistersExactly(svc: Service, s: System, common: Model, items: seq<BulkItem>, clock: Time, t: System)
    requires Good(svc, s) && t == Next(svc, s, CreateBulk(common, items, clock))
    ensures var at := Max(clock, common.updatedAt);
            if exists rows :: BulkAccepted(svc, s, common, items, at, rows) then BulkAdds(svc, s, common, items, at, t)
            else t == s
  {
    if common in s.seenModels {
      SeenModelSound(svc, s, Some(common));
    }
    BulkNext(svc, s, common, items, clock, Max(clock, common.updatedAt), t);
  }

  lemma BulkNext(svc: Service, s: System, common: Model, items: seq<BulkItem>, clock: Time, at: Time, t: System)
    requires Lawful(svc.rules) && (common in s.seenModels ==> svc.rules.stable(common.id))
    requires at == Max(clock, common.updatedAt) && t == Next(svc, s, CreateBulk(common, items, clock))
    ensures if exists rows :: BulkAccepted(svc, s, common, items, at, rows) then BulkAdds(svc, s, common, items, at, t)
            else t == s
  {
    BulkTimeIs(clock, common);
    BulkNextIs(svc, s, common, items, clock, at);
    if rows :| BulkAccepted(svc, s, common, items, at, rows) {
      ApplyBulkExactly(svc, s, common, items, at, rows);
      RowsAdded(svc, s, common, items, at, rows);
    } else {
      ApplyBulkNothing(svc, s, common, items, at);
    }
  }

  lemma BulkNextIs(svc: Service, s: System, common: Model, items: seq<BulkItem>, clock: Time, at: Time)
    requires at == BulkTime(clock, common)
    ensures Next(svc, s, CreateBulk(common, items, clock))
         == ApplyBulk(s, common, BulkRows(svc.rules, Builder(svc, common, at), items))
  {
  }

  lemma RowsAdded(svc: Service, s: System, common: Model, items: seq<BulkItem>, at: Time, rows: seq<Record>)
    requires Lawful(svc.rules) && svc.rules.stable(common.id) && BulkAccepted(svc, s, common, items, at, rows)
    ensures BulkAdds(svc, s, common, items, at, AddRecords(s, rows))
  {
    AddRecordsExactly(s, rows);
    BuiltRegisters(svc, common, items, at, rows);
  }

  // ----- Updates ----------------------------------------------------------------------------

  /** The asset keeps the model it has, and what it knows of it. */
  predicate KeepsModel(r: Rules, existing: Asset, input: Input) {
    r.clean(input.model) != NONE && r.clean(input.model) == existing.model && existing.context.Some?
  }

  function KnownKind(r: Rules, existing: Asset, input: Input, model: Option<Model>): Name {
    if KeepsModel(r, existing, input) then existing.context.value.texts.kind
    else if model.Some? then model.value.texts.kind else NONE
  }

  function UpdateTime(r: Rules, existing: Asset, input: Input, model: Option<Model>, clock: Time): Time {
    var now := Max(clock, existing.updatedAt);
    if KeepsModel(r, existing, input) || model.None? then now else Max(now, model.value.updatedAt)
  }

  /** The asset as the request asks: its own fields, the next revision, and the model kept or newly taken. */
  predicate Rewrites(svc: Service, existing: Asset, input: Input, model: Option<Model>, clock: Time, a: Asset) {
    var r := svc.rules;
    && a.id == existing.id && a.organization == existing.organization && a.createdAt == existing.createdAt
    && a.revision == existing.revision + 1 && a.model == r.clean(input.model)
    && Carries(r, a.fields, input.fields)
    && a.fields.kind == RequestedKind(r, input.fields, KnownKind(r, existing, input, model))
    && a.updatedAt == UpdateTime(r, existing, input, model, clock)
    && Some(a.extras) == r.extras(input.extras)
    && if KeepsModel(r, existing, input) then
         && a.context.Some?
         && a.context.value == existing.context.value.(overrides := a.context.value.overrides)
         && a.context.value.overrides ==
            (if a.fields.kind == existing.context.value.texts.kind then [] else [Name("kind")])
       else
         && a.context.Some? == model.Some?
         && (model.Some? ==> Snapshots(a.context.value, model.value, a.fields.kind, a.updatedAt))
  }

  /** The events are as they were or, when the status changes, one more. */
  predicate Extends(
      svc: Service, events: seq<Event>, existing: Asset, note: Name, scope: Scope, a: Asset, more: seq<Event>)
  {
    if a.fields.status == existing.fields.status then more == events
    else
      var text := if svc.rules.clean(note) == NONE then Name("Status changed") else svc.rules.clean(note);
      && |more| == |events| + 1 && more[..|events|] == events
      && Records(svc, more[|events|], a, existing.fields.status, text, scope)
  }

  predicate UpdateAccepted(
      svc: Service, s: System, input: Input, revision: int, note: Name, existing: Asset, model: Option<Model>)
  {
    var r, name := svc.rules, svc.rules.clean(input.model);
    && existing in s.seenAssets && (model.Some? ==> model.value in s.seenModels)
    && r.stable(r.clean(input.id)) && r.clean(input.id) == existing.id && revision == existing.revision
    && NormalizeInput(r, input).Some? && (KeepsModel(r, existing, input) || NamesModel(r, input.model, model))
    && r.atMost(r.clean(note), 1000)
    && existing.id in s.records && s.records[existing.id].asset == existing
    && (Assignable(s.models, name) || (name in s.models && name == existing.model))
  }

  lemma KeptRewrites(svc: Service, existing: Asset, input: Input, n: Input, model: Option<Model>, clock: Time)
    requires NormalizeInput(svc.rules, input) == Some(n) && KeepsModel(svc.rules, existing, input)
    ensures Rewrites(svc, existing, input, model, clock, Kept(existing, n, Normalize(clock)))
  {
    NormalizedCarries(svc.rules, input, n);
    MaxNormalized(clock, existing.updatedAt);
    var a := Kept(existing, n, Normalize(clock));
    CarriesKind(svc.rules, n.fields, input.fields, a.fields.kind);
  }

  lemma MaxNormalized(clock: Time, other: Time)
    ensures Max(Normalize(clock), other) == Max(clock, other)
  {
  }

  lemma ReassignedRewrites(svc: Service, existing: Asset, input: Input, n: Input, model: Option<Model>, clock: Time)
    requires NormalizeInput(svc.rules, input) == Some(n) && !KeepsModel(svc.rules, existing, input)
    requires NamesModel(svc.rules, input.model, model)
    ensures Rewrites(svc, existing, input, model, clock, Reassigned(existing, n, model, Normalize(clock)))
  {
    NormalizedCarries(svc.rules, input, n);
    MaxNormalized(clock, existing.updatedAt);
    CarriesKind(svc.rules, n.fields, input.fields, KindOf(n.fields.kind, model));
  }

  lemma BuildUpdateExactly(
      svc: Service, input: Input, revision: int, existing: Asset, model: Option<Model>, scope: Scope)
    ensures var r, built := svc.rules, BuildUpdate(svc, input, revision, existing, model, scope);
            && (built.Some? <==>
                  && r.stable(r.clean(input.id)) && r.clean(input.id) == existing.id && revision == existing.revision
                  && NormalizeInput(r, input).Some?
                  && (KeepsModel(r, existing, input) || NamesModel(r, input.model, model)))
            && (built.Some? ==> Rewrites(svc, existing, input, model, scope.clock, built.value))
  {
    NamesModelFits(svc.rules, input.model, model);
    if NormalizeInput(svc.rules, input).Some? {
      var n := NormalizeInput(svc.rules, input).value;
      NormalizedCarries(svc.rules, input, n);
      if KeepsModel(svc.rules, existing, input) {
        KeptRewrites(svc, existing, input, n, model, scope.clock);
      } else if NamesModel(svc.rules, input.model, model) {
        ReassignedRewrites(svc, existing, input, n, model, scope.clock);
      }
    }
  }

  lemma NoteExactly(r: Rules, note: Name)
    ensures NoteOf(r, note)
         == if !r.atMost(r.clean(note), 1000) then None
            else Some(if r.clean(note) == NONE then Name("Status changed") else r.clean(note))
  {
  }

  lemma AppendedExtends(svc: Service, events: seq<Event>, existing: Asset, note: Name, scope: Scope, a: Asset)
    requires NoteOf(svc.rules, note).Some?
    ensures Extends(svc, events, existing, note, scope, a,
                    Appended(svc, events, existing, a, NoteOf(svc.rules, note).value, scope))
  {
    NoteExactly(svc.rules, note);
  }

  lemma WriteExactly(svc: Service, s: System, existing: Asset, updated: Asset, note: Name, scope: Scope)
    requires updated.id == existing.id && existing.id in s.records
    requires s.records[existing.id].asset.revision == existing.revision ==> s.records[existing.id].asset == existing
    ensures WriteUpdate(svc, s, existing, updated, note, scope) ==
            if && s.records[existing.id].asset == existing
               && (Assignable(s.models, updated.model) ||
                   (updated.model in s.models && updated.model == existing.model))
            then
              var events := Appended(svc, s.records[existing.id].events, existing, updated, note, scope);
              s.(records := s.records[existing.id := Record(updated, events)])
            else s
  {
  }

  /**
    An update writes what was asked for: if it is accepted, that is, made on the row that is there, the row gets
    the request's own fields, the next revision and, exactly when the status changes, one event from the old
    status to the new one; nothing else changes. Otherwise nothing changes at all.
   */
  lemma UpdateExactly(
      svc: Service, s: System, input: Input, revision: int, note: Name, existing: Asset, model: Option<Model>,
      scope: Scope, t: System)
    requires Good(svc, s) && t == Next(svc, s, Update(input, revision, note, existing, model, scope))
    ensures if UpdateAccepted(svc, s, input, revision, note, existing, model) then
              && OnlyAt(s, t, existing.id)
              && Rewrites(svc, existing, input, model, scope.clock, t.records[existing.id].asset)
              && Extends(svc, s.records[existing.id].events, existing, note, scope, t.records[existing.id].asset,
                         t.records[existing.id].events)
            else t == s
  {
    SeenIsThere(svc, s, existing);
    UpdateThere(svc, s, input, revision, note, existing, model, scope, t);
  }

  lemma UpdateThere(
      svc: Service, s: System, input: Input, revision: int, note: Name, existing: Asset, model: Option<Model>,
      scope: Scope, t: System)
    requires existing in s.seenAssets ==> There(s, existing)
    requires t == Next(svc, s, Update(input, revision, note, existing, model, scope))
    ensures if UpdateAccepted(svc, s, input, revision, note, existing, model) then
              && OnlyAt(s, t, existing.id)
              && Rewrites(svc, existing, input, model, scope.clock, t.records[existing.id].asset)
              && Extends(svc, s.records[existing.id].events, existing, note, scope, t.records[existing.id].asset,
                         t.records[existing.id].events)
            else t == s
  {
    var built := BuildUpdate(svc, input, revision, existing, model, scope);
    BuildUpdateExactly(svc, input, revision, existing, model, scope);
    NoteExactly(svc.rules, note);
    if built.Some? {
      RewritesNamed(svc, existing, input, model, scope.clock, built.value);
    }
    UpdateApplied(svc, s, svc.rules.clean(input.model), note, existing, model, scope, built);
  }

  lemma RewritesNamed(svc: Service, existing: Asset, input: Input, model: Option<Model>, clock: Time, a: Asset)
    requires Rewrites(svc, existing, input, model, clock, a)
    ensures a.id == existing.id && a.model == svc.rules.clean(input.model)
  {
  }

  /** A row that was read is there, unless it has moved on. */
  predicate There(s: System, existing: Asset) {
    && existing.id in s.records
    && (s.records[existing.id].asset.revision == existing.revision ==> s.records[existing.id].asset == existing)
  }

  lemma SeenIsThere(svc: Service, s: System, existing: Asset)
    requires Good(svc, s)
    ensures existing in s.seenAssets ==> There(s, existing)
  {
    if existing in s.seenAssets {
      UpdateFromCurrent(RecordTest(svc), ModelTest(svc), s, existing);
    }
  }

  lemma UpdateApplied(
      svc: Service, s: System, name: Name, note: Name, existing: Asset, model: Option<Model>, scope: Scope,
      built: Option<Asset>)
    requires existing in s.seenAssets ==> There(s, existing)
    requires built.Some? ==> built.value.id == existing.id && built.value.model == name
    ensures var t, id := ApplyUpdate(svc, s, existing, model, built, NoteOf(svc.rules, note), scope), existing.id;
            if && built.Some? && NoteOf(svc.rules, note).Some?
               && existing in s.seenAssets && (model.Some? ==> model.value in s.seenModels)
               && id in s.records && s.records[id].asset == existing
               && (Assignable(s.models, name) || (name in s.models && name == existing.model)) then
              && OnlyAt(s, t, id) && t.records[id].asset == built.value
              && Extends(svc, s.records[id].events, existing, note, scope, built.value, t.records[id].events)
            else t == s
  {
    if && existing in s.seenAssets && (model.Some? ==> model.value in s.seenModels)
       && built.Some? && NoteOf(svc.rules, note).Some? {
      WriteExactly(svc, s, existing, built.value, NoteOf(svc.rules, note).value, scope);
      AppendedExtends(svc, s.records[existing.id].events, existing, note, scope, built.value);
    }
  }

  // ----- What is acceptable -----------------------------------------------------------------

  predicate Blank(n: Name) {
    n == Name("")
  }

  predicate AcceptableReferences(r: Rules, x: References) {
    var site, building, room := r.clean(x.site), r.clean(x.building), r.clean(x.room);
    && (Blank(site) || r.reference(site)) && (Blank(building) || r.reference(building))
    && (Blank(room) || r.reference(room))
    && (Blank(r.clean(x.department)) || r.reference(r.clean(x.department)))
    && (Blank(r.clean(x.user)) || r.reference(r.clean(x.user)))
    && (Blank(site) ==> Blank(building) && Blank(room)) && (Blank(building) ==> Blank(room))
  }

  /** The limits on the fields of a request, as written. */
  predicate Acceptable(r: Rules, input: Input) {
    var f, id, model := input.fields, r.clean(input.id), r.clean(input.model);
    && (Blank(id) || r.stable(id)) && (Blank(model) || r.stable(model))
    && !Blank(r.clean(f.name)) && r.atMost(r.clean(f.name), 200) && r.atMost(r.clean(f.tag), 128)
    && r.atMost(r.clean(f.serial), 255) && r.atMost(r.lower(f.hostname), 253) && r.atMost(r.clean(f.notes), 2000)
    && (if Blank(r.lower(f.kind)) then !Blank(model) else r.kind(r.lower(f.kind)))
    && r.status(RequestedStatus(r, f)) && (Blank(r.lower(f.hostname)) || r.hostname(r.lower(f.hostname)))
    && AcceptableReferences(r, f.references)
    && (f.purchased.Some? ==> 0 <= f.purchased.value.nanos < 253_402_300_800_000_000_000)
    && r.extras(input.extras).Some?
  }

  /** A request is accepted exactly within these limits. */
  lemma AcceptedExactly(r: Rules, input: Input)
    ensures NormalizeInput(r, input).Some? <==> Acceptable(r, input)
  {
    if input.fields.purchased.Some? {
      MidnightInYears(input.fields.purchased.value);
    }
  }

  lemma MidnightInYears(t: Time)
    ensures InYears(Midnight(t)) <==> InYears(t)
  {
  }

  /** An asset's fields come back from the validator's normalization exactly when they are normal and acceptable. */
  lemma FieldsExactly(r: Rules, id: Name, model: Name, f: Fields, extras: Extras)
    requires Lawful(r) && r.extras(extras).Some?
    ensures FieldsFixed(r, id, model, f) <==>
              && Acceptable(r, Input(id, model, f, extras)) && r.clean(id) == id && r.clean(model) == model
              && NormalFields(r, f)
  {
    if f.purchased.Some? {
      MidnightInYears(f.purchased.value);
    }
  }

  /** Trimmed and lower-cased already, and the purchase at a day's midnight. */
  predicate NormalFields(r: Rules, f: Fields) {
    && r.clean(f.name) == f.name && r.lower(f.kind) == f.kind && r.clean(f.tag) == f.tag
    && r.clean(f.serial) == f.serial
    && r.lower(f.hostname) == f.hostname && r.clean(f.notes) == f.notes && r.lower(f.status) == f.status
    && f.status != NONE
    && r.clean(f.references.site) == f.references.site && r.clean(f.references.building) == f.references.building
    && r.clean(f.references.room) == f.references.room
    && r.clean(f.references.department) == f.references.department && r.clean(f.references.user) == f.references.user
    && (f.purchased.Some? ==> f.purchased.value.nanos % 86_400_000_000_000 == 0)
  }

  /** An item of a bulk registration is built exactly when it names no other model and is within the limits. */
  lemma ItemExactly(svc: Service, common: Model, item: BulkItem, at: Time)
    requires Lawful(svc.rules) && svc.rules.stable(common.id)
    ensures BuildItem(svc, common, item, at).Some? <==>
              && svc.rules.clean(item.input.model) in {Name(""), common.id}
              && Acceptable(svc.rules, item.input.(model := common.id))
  {
    AcceptedExactly(svc.rules, item.input.(model := common.id));
  }

  // ----- Models -----------------------------------------------------------------------------

  /** The texts are the request's own, trimmed, the kind in lower case. */
  ghost predicate CarriesTexts(r: Rules, t: ModelTexts, input: ModelTexts) {
    && t.manufacturer == r.clean(input.manufacturer) && t.name == r.clean(input.name)
    && t.number == r.clean(input.number) && t.kind == r.lower(input.kind) && t.vendor == r.clean(input.vendor)
    && t.supportUrl == r.clean(input.supportUrl) && t.sourceSystem == r.clean(input.sourceSystem)
    && t.sourceRecord == r.clean(input.sourceRecord)
    && t.warrantyMonths == input.warrantyMonths && t.usefulLifeMonths == input.usefulLifeMonths
    && IsCleaned(r, input.specifications, t.specifications)
  }

  /** The limits on the texts of a model, as written. */
  predicate AcceptableTextFields(r: Rules, t: ModelTexts) {
    && !Blank(r.clean(t.manufacturer)) && r.atMost(r.clean(t.manufacturer), 120)
    && !Blank(r.clean(t.name)) && r.atMost(r.clean(t.name), 160) && r.atMost(r.clean(t.number), 120)
    && r.kind(r.lower(t.kind)) && r.atMost(r.clean(t.vendor), 160)
    && r.atMost(r.clean(t.sourceSystem), 120) && r.atMost(r.clean(t.sourceRecord), 160)
    && 0 <= t.warrantyMonths <= 1200 && 0 <= t.usefulLifeMonths <= 1200
    && (Blank(r.clean(t.supportUrl)) || (r.atMost(r.clean(t.supportUrl), 500) && r.url(r.clean(t.supportUrl))))
  }

  ghost predicate AcceptableTexts(r: Rules, t: ModelTexts) {
    AcceptableTextFields(r, t) && AcceptableSpecifications(r, t.specifications)
  }

  ghost predicate AcceptableSpecifications(r: Rules, specs: map<Name, Name>) {
    && |specs| <= 25
    && (forall k {:trigger specs[k]} :: k in specs ==>
          !Blank(r.clean(k)) && r.atMost(r.clean(k), 80) && r.atMost(r.clean(specs[k]), 500))
    && (forall j, k {:trigger specs[j], specs[k]} :: j in specs && k in specs && j != k ==> r.clean(j) != r.clean(k))
  }

  lemma SpecificationsExactly(r: Rules, specs: map<Name, Name>)
    ensures AcceptableSpecifications(r, specs) <==> |specs| <= 25 && EntriesFit(r, specs) && KeysDiffer(r, specs)
  {
  }

  lemma TextFieldsExactly(r: Rules, t: ModelTexts, specs: map<Name, Name>)
    ensures TextsFit(r, CleanTexts(r, t, specs)) <==> AcceptableTextFields(r, t)
  {
  }

  lemma CleanCarries(r: Rules, t: ModelTexts, specs: map<Name, Name>)
    requires IsCleaned(r, t.specifications, specs)
    ensures CarriesTexts(r, CleanTexts(r, t, specs), t)
  {
  }

  lemma NormalizedIs(r: Rules, t: ModelTexts, n: ModelTexts)
    requires |t.specifications| <= 25 && EntriesFit(r, t.specifications) && KeysDiffer(r, t.specifications)
    requires n == CleanTexts(r, t, CleanedSpecifications(r, t.specifications))
    ensures NormalizedTexts(r, t) == if TextsFit(r, n) then Some(n) else None
  {
  }

  lemma FittingTexts(r: Rules, t: ModelTexts)
    requires AcceptableSpecifications(r, t.specifications)
    ensures NormalizedTexts(r, t).Some? <==> AcceptableTextFields(r, t)
    ensures NormalizedTexts(r, t).Some? ==> CarriesTexts(r, NormalizedTexts(r, t).value, t)
  {
    SpecificationsExactly(r, t.specifications);
    var n := CleanTexts(r, t, CleanedSpecifications(r, t.specifications));
    NormalizedIs(r, t, n);
    assert TextsFit(r, n) <==> AcceptableTextFields(r, t) by {
      TextFieldsExactly(r, t, CleanedSpecifications(r, t.specifications));
    }
    assert CarriesTexts(r, n, t) by {
      CleanCarries(r, t, CleanedSpecifications(r, t.specifications));
    }
  }

  lemma MisfittingTexts(r: Rules, t: ModelTexts)
    requires !AcceptableSpecifications(r, t.specifications)
    ensures NormalizedTexts(r, t).None?
  {
    SpecificationsExactly(r, t.specifications);
  }

  lemma TextsExactly(r: Rules, t: ModelTexts)
    ensures NormalizedTexts(r, t).Some? <==> AcceptableTexts(r, t)
    ensures NormalizedTexts(r, t).Some? ==> CarriesTexts(r, NormalizedTexts(r, t).value, t)
  {
    if AcceptableSpecifications(r, t.specifications) {
      FittingTexts(r, t);
    } else {
      MisfittingTexts(r, t);
    }
  }

  ghost predicate DraftAccepted(r: Rules, draft: ModelInput) {
    AcceptableTexts(r, draft.texts) && r.defaults(draft.extras).Some?
  }

  function DraftName(r: Rules, draft: ModelInput, scope: Scope): Name {
    if Blank(r.clean(draft.id)) then scope.freshId else r.clean(draft.id)
  }

  /** Only the models differ. */
  predicate OnlyModels(before: System, after: System) {
    after == before.(models := after.models)
  }

  /** A new model has the request's own texts, is active and at its first revision. */
  ghost predicate IsNewModel(svc: Service, m: Model, draft: ModelInput, scope: Scope) {
    && m.id == DraftName(svc.rules, draft, scope) && m.organization == svc.organization
    && CarriesTexts(svc.rules, m.texts, draft.texts) && Some(m.extras) == svc.rules.defaults(draft.extras)
    && m.status == Name("active") && m.revision == 1
    && m.createdAt == Normalize(scope.clock) && m.updatedAt == Normalize(scope.clock)
  }

  lemma StartedExactly(
      svc: Service, id: Name, freshId: Name, texts: Option<ModelTexts>, extras: Option<Extras>, now: Time)
    ensures Started(svc, id, freshId, texts, extras, now).Some? <==>
              (Blank(id) || svc.rules.stable(id)) && texts.Some? && extras.Some?
    ensures Started(svc, id, freshId, texts, extras, now).Some? ==>
              Started(svc, id, freshId, texts, extras, now).value ==
              Model(id := if Blank(id) then freshId else id, organization := svc.organization, texts := texts.value,
                    extras := extras.value, status := Name("active"), revision := 1, createdAt := now, updatedAt := now)
  {
  }

  lemma AddExactly(models: Models, built: Option<Model>)
    ensures AddModel(models, built)
         == if built.Some? && built.value.id !in models then models[built.value.id := built.value] else models
  {
  }

  /** Creating a model adds exactly the model asked for, if it is within the limits and its name is new. */
  lemma CreateModelExactly(svc: Service, s: System, draft: ModelInput, scope: Scope, t: System)
    requires t == Next(svc, s, CreateModel(draft, scope))
    ensures var r, id := svc.rules, DraftName(svc.rules, draft, scope);
            if && (Blank(r.clean(draft.id)) || r.stable(r.clean(draft.id)))
               && DraftAccepted(r, draft) && id !in s.models then
              && OnlyModels(s, t) && id in t.models && t.models == s.models[id := t.models[id]]
              && IsNewModel(svc, t.models[id], draft, scope)
            else t == s
  {
    TextsExactly(svc.rules, draft.texts);
    StartedExactly(svc, svc.rules.clean(draft.id), scope.freshId, NormalizedTexts(svc.rules, draft.texts),
                   svc.rules.defaults(draft.extras), Normalize(scope.clock));
    AddExactly(s.models, NewModel(svc, draft, scope.freshId, scope.clock));
  }

  /** The next revision of a model has the request's own texts; its status and origin stay. */
  ghost predicate IsNextModel(svc: Service, m: Model, base: Model, draft: ModelInput, clock: Time) {
    && CarriesTexts(svc.rules, m.texts, draft.texts) && Some(m.extras) == svc.rules.defaults(draft.extras)
    && m == base.(texts := m.texts, extras := m.extras, revision := base.revision + 1,
                  updatedAt := Max(clock, base.updatedAt))
  }

  lemma EditedExactly(
      r: Rules, id: Name, texts: Option<ModelTexts>, extras: Option<Extras>, revision: int, existing: Model, at: Time)
    ensures Edited(r, id, texts, extras, revision, existing, at) ==
            if && r.stable(id) && revision >= 1 && existing.id == id && existing.revision == revision
               && existing.status != Name("retired") && texts.Some? && extras.Some?
            then Some(existing.(texts := texts.value, extras := extras.value, revision := existing.revision + 1,
                                updatedAt := at))
            else None
  {
  }

  lemma ReplaceExactly(models: Models, existing: Model, built: Option<Model>)
    requires NotNewer(models, existing) && (built.Some? ==> built.value.id == existing.id)
    ensures ReplaceModel(models, existing, built)
         == if built.Some? && models[existing.id] == existing then models[existing.id := built.value] else models
  {
  }

  /** Updating a model writes exactly what was asked, if it is made on the row that is there and within the limits. */
  lemma UpdateModelExactly(
      svc: Service, s: System, draft: ModelInput, revision: int, base: Model, clock: Time, t: System)
    requires Good(svc, s) && base in s.seenModels && t == Next(svc, s, UpdateModel(draft, revision, base, clock))
    ensures if && svc.rules.clean(draft.id) == base.id && revision == base.revision && base.status != Name("retired")
               && DraftAccepted(svc.rules, draft) && base.id in s.models && s.models[base.id] == base then
              && OnlyModels(s, t) && base.id in t.models && t.models == s.models[base.id := t.models[base.id]]
              && IsNextModel(svc, t.models[base.id], base, draft, clock)
            else t == s
  {
    SeenModelSound(svc, s, Some(base));
    TextsExactly(svc.rules, draft.texts);
    var built := EditedModel(svc, draft, revision, base, clock);
    EditedExactly(svc.rules, svc.rules.clean(draft.id), NormalizedTexts(svc.rules, draft.texts),
                  svc.rules.defaults(draft.extras), revision, base, Max(clock, base.updatedAt));
    ReplaceExactly(s.models, base, built);
  }

  /** The row with another status, one revision on. */
  function StatusChanged(current: Model, status: Name, base: Model, clock: Time): Model {
    current.(status := status, revision := current.revision + 1, updatedAt := Max(clock, base.updatedAt))
  }

  lemma RetireIs(r: Rules, models: Models, id: Name, revision: int, base: Model, clock: Time)
    requires base.id in models && r.stable(base.id) && models[base.id].revision >= 1
    ensures var current := models[base.id];
            Retire(r, models, id, revision, base, clock) ==
            if r.clean(id) == base.id && revision == current.revision && current.status != Name("retired")
            then models[base.id := StatusChanged(current, Name("retired"), base, clock)] else models
  {
  }

  lemma ReactivateIs(r: Rules, models: Models, id: Name, revision: int, base: Model, clock: Time)
    requires base.id in models && r.stable(base.id) && models[base.id].revision >= 1
    ensures var current := models[base.id];
            Reactivate(r, models, id, revision, base, clock) ==
            if && r.clean(id) == base.id && revision == current.revision
               && current.status == Name("retired") && base.status == Name("retired")
            then models[base.id := StatusChanged(current, Name("active"), base, clock)] else models
  {
  }

  lemma SeenModelThere(svc: Service, s: System, base: Model)
    requires Good(svc, s) && base in s.seenModels
    ensures base.id in s.models && svc.rules.stable(base.id) && s.models[base.id].revision >= 1
  {
    SeenModelSound(svc, s, Some(base));
    CurrentValid(svc, s, base.id);
  }

  lemma StatusNext(svc: Service, s: System, id: Name, revision: int, base: Model, clock: Time)
    requires base in s.seenModels
    ensures Next(svc, s, RetireModel(id, revision, base, clock))
         == s.(models := Retire(svc.rules, s.models, id, revision, base, clock))
    ensures Next(svc, s, ReactivateModel(id, revision, base, clock))
         == s.(models := Reactivate(svc.rules, s.models, id, revision, base, clock))
  {
  }

  /** A retirement retires exactly a model that is at the named revision and not yet retired. */
  lemma RetireExactly(svc: Service, s: System, id: Name, revision: int, base: Model, clock: Time, t: System)
    requires Good(svc, s) && base in s.seenModels && t == Next(svc, s, RetireModel(id, revision, base, clock))
    ensures base.id in s.models
    ensures var current := s.models[base.id];
            t == if svc.rules.clean(id) == base.id && revision == current.revision && current.status != Name("retired")
                 then s.(models := s.models[base.id := StatusChanged(current, Name("retired"), base, clock)]) else s
  {
    SeenModelThere(svc, s, base);
    StatusNext(svc, s, id, revision, base, clock);
    RetireIs(svc.rules, s.models, id, revision, base, clock);
  }

  /** A reactivation makes active exactly a retired model at the named revision that was read as retired. */
  lemma ReactivateExactly(svc: Service, s: System, id: Name, revision: int, base: Model, clock: Time, t: System)
    requires Good(svc, s) && base in s.seenModels && t == Next(svc, s, ReactivateModel(id, revision, base, clock))
    ensures base.id in s.models
    ensures var current := s.models[base.id];
            t == if && svc.rules.clean(id) == base.id && revision == current.revision
                    && current.status == Name("retired") && base.status == Name("retired")
                 then s.(models := s.models[base.id := StatusChanged(current, Name("active"), base, clock)]) else s
  {
    SeenModelThere(svc, s, base);
    StatusNext(svc, s, id, revision, base, clock);
    ReactivateIs(svc.rules, s.models, id, revision, base, clock);
  }

  lemma CurrentValid(svc: Service, s: System, id: Name)
    requires Good(svc, s) && id in s.models
    ensures s.models[id].revision >= 1 && svc.rules.stable(id)
  {
    assert ModelTest(svc)(s.models[id]);
  }
}
