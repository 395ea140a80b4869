/**
  The asset service over time: registration, bulk registration from a model, and updates under
  optimistic revisions. Requests read rows and later write on the strength of what they read, in
  any interleaving; every state reached this way stays inside what the importer accepts.
 */
module AtlasRuns {
  import opened Text
  import opened Ordering
  import opened Clock
  import opened AtlasRecords
  import opened AtlasModels

  const MAXIMUM_BULK: nat := 100

  // ----- Building rows ----------------------------------------------------------------------

  /** What the request's context supplies: fresh names, who acts, and the clock. */
  datatype Scope = Scope(freshId: Name, eventId: Name, actor: Name, clock: Time)

  /** An asset and its lifecycle events, oldest first. */
  datatype Record = Record(asset: Asset, events: seq<Event>)

  /** The context's actor as it stands, neither trimmed nor shortened; the service itself when blank. */
  function ActorOf(r: Rules, actor: Name): Name {
    if r.clean(actor) != NONE then actor else SYSTEM
  }

  function MakeEvent(svc: Service, a: Asset, from: Name, note: Name, scope: Scope): Event {
    Event(scope.eventId, svc.organization, a.id, from, a.fields.status, note, a.revision,
          ActorOf(svc.rules, scope.actor), a.updatedAt)
  }

  /** The model a request read for a name: none for the empty name, else an active one. */
  predicate ModelFits(name: Name, model: Option<Model>) {
    match model
    case None => name == NONE
    case Some(m) => name != NONE && m.id == name && m.status == ACTIVE
  }

  function LaterOf(now: Time, model: Option<Model>): Time {
    match model case None => now case Some(m) => Max(now, m.updatedAt)
  }

  function KindOf(kind: Name, model: Option<Model>): Name {
    if kind == NONE && model.Some? then model.value.texts.kind else kind
  }

  function Inherited(r: Rules, extras: Extras, model: Option<Model>): Extras {
    match model case None => extras case Some(m) => r.inherit(extras, m.extras)
  }

  /** A newly registered asset, with its first event. */
  function NewRecord(svc: Service, n: Input, model: Option<Model>, scope: Scope, now: Time, note: Name): Record {
    var kind := KindOf(n.fields.kind, model);
    var a := Asset(if n.id != NONE then n.id else scope.freshId, svc.organization, n.model,
                   SnapshotOf(model, kind, now),
                   n.fields.(kind := kind), Inherited(svc.rules, n.extras, model), 1, now, now);
    Record(a, [MakeEvent(svc, a, NONE, note, scope)])
  }

  function BuildCreate(svc: Service, input: Input, model: Option<Model>, scope: Scope): Option<Record> {
    match NormalizeInput(svc.rules, input)
    case None => None
    case Some(n) =>
      if !ModelFits(n.model, model) then None
      else Some(NewRecord(svc, n, model, scope, LaterOf(Normalize(scope.clock), model), REGISTERED))
  }

  datatype BulkItem = BulkItem(input: Input, scope: Scope)

  /** One item of a bulk registration; a blank model name stands for the common model. */
  function BuildItem(svc: Service, model: Model, item: BulkItem, now: Time): Option<Record> {
    if svc.rules.clean(item.input.model) != NONE && svc.rules.clean(item.input.model) != model.id then None
    else
      match NormalizeInput(svc.rules, item.input.(model := model.id))
      case None => None
      case Some(n) => Some(NewRecord(svc, n, Some(model), item.scope, now, REGISTERED_IN_BULK))
  }

  /** The names already taken by earlier items of a bulk registration. */
  datatype Taken = Taken(ids: set<Name>, tags: set<Name>, serials: set<Name>)

  function Mark(r: Rules, names: set<Name>, name: Name): set<Name> {
    if r.lower(name) == NONE then names else names + {r.lower(name)}
  }

  predicate Repeats(r: Rules, taken: Taken, a: Asset) {
    a.id in taken.ids || r.lower(a.fields.tag) in taken.tags || r.lower(a.fields.serial) in taken.serials
  }

  function Take(r: Rules, taken: Taken, a: Asset): Taken {
    Taken(taken.ids + {a.id}, Mark(r, taken.tags, a.fields.tag), Mark(r, taken.serials, a.fields.serial))
  }

  function Builder(svc: Service, model: Model, now: Time): (build: BulkItem -> Option<Record>)
    ensures forall item :: build(item) == BuildItem(svc, model, item, now)
  {
    (item: BulkItem) => BuildItem(svc, model, item, now)
  }

  /** The rows of all items in order, unless one cannot be built or repeats a name. */
  function BuildItems(
      r: Rules, build: BulkItem -> Option<Record>, items: seq<BulkItem>, taken: Taken): Option<seq<Record>>
  {
    if items == [] then Some([])
    else
      match build(items[0])
      case None => None
      case Some(first) =>
        if Repeats(r, taken, first.asset) then None
        else
          match BuildItems(r, build, items[1..], Take(r, taken, first.asset))
          case None => None
          case Some(rest) => Some([first] + rest)
  }

  function PrependRecords(front: seq<Record>, rest: Option<seq<Record>>): Option<seq<Record>> {
    match rest case None => None case Some(records) => Some(front + records)
  }

  function BulkRows(r: Rules, build: BulkItem -> Option<Record>, items: seq<BulkItem>): Option<seq<Record>> {
    if 1 <= |items| <= MAXIMUM_BULK then BuildItems(r, build, items, Taken({}, {}, {})) else None
  }

  /** Builds all rows of a bulk registration or none. */
  method BuildBulk(
      r: Rules, build: BulkItem -> Option<Record>, items: seq<BulkItem>)
    returns (result: Option<seq<Record>>)
    ensures result == BulkRows(r, build, items)
  {
    if |items| < 1 || |items| > MAXIMUM_BULK {
      return None;
    }
    var records: seq<Record> := [];
    var taken := Taken({}, {}, {});
    PrependNoRecords(BulkRows(r, build, items));
    for index := 0 to |items|
      invariant BulkRows(r, build, items) == PrependRecords(records, BuildItems(r, build, items[index..], taken))
    {
      var built := build(items[index]);
      BuildItemsStep(r, build, items[index..], taken, records, built);
      assert items[index..][1..] == items[index + 1..];
      if built.None? || Repeats(r, taken, built.value.asset) {
        return None;
      }
      taken := Take(r, taken, built.value.asset);
      records := records + [built.value];
    }
    assert records + [] == records;
    return Some(records);
  }

  lemma BuildItemsStep(
      r: Rules, build: BulkItem -> Option<Record>, items: seq<BulkItem>, taken: Taken, front: seq<Record>,
      built: Option<Record>)
    requires items != [] && built == build(items[0])
    ensures PrependRecords(front, BuildItems(r, build, items, taken))
         == if built.None? || Repeats(r, taken, built.value.asset) then None
            else PrependRecords(front + [built.value],
                                BuildItems(r, build, items[1..], Take(r, taken, built.value.asset)))
  {
    if built.Some? {
      PrependRecord(front, built.value, BuildItems(r, build, items[1..], Take(r, taken, built.value.asset)));
    }
  }

  lemma PrependNoRecords(rest: Option<seq<Record>>)
    ensures PrependRecords([], rest) == rest
  {
    if rest.Some? {
      assert [] + rest.value == rest.value;
    }
  }

  lemma PrependRecord(front: seq<Record>, first: Record, rest: Option<seq<Record>>)
    ensures rest.Some? ==> PrependRecords(front, Some([first] + rest.value)) == PrependRecords(front + [first], rest)
  {
    if rest.Some? {
      assert front + ([first] + rest.value) == front + [first] + rest.value;
    }
  }

  /** Two assets of one bulk registration that cannot both be registered. */
  predicate Clash(r: Rules, a: Asset, b: Asset) {
    || a.id == b.id
    || (r.lower(a.fields.tag) != NONE && r.lower(a.fields.tag) == r.lower(b.fields.tag))
    || (r.lower(a.fields.serial) != NONE && r.lower(a.fields.serial) == r.lower(b.fields.serial))
  }

  /** One row for each item in order, no two of which clash. */
  ghost predicate BuiltFrom(r: Rules, build: BulkItem -> Option<Record>, items: seq<BulkItem>, rows: seq<Record>) {
    && |rows| == |items|
    && (forall i :: 0 <= i < |rows| ==> build(items[i]) == Some(rows[i]))
    && (forall i, j :: 0 <= i < j < |rows| ==> !Clash(r, rows[i].asset, rows[j].asset))
  }

  ghost predicate NoneRepeats(r: Rules, taken: Taken, rows: seq<Record>) {
    forall i :: 0 <= i < |rows| ==> !Repeats(r, taken, rows[i].asset)
  }

  lemma TakeClashes(r: Rules, taken: Taken, a: Asset, b: Asset)
    requires NONE !in taken.tags && NONE !in taken.serials
    ensures Repeats(r, Take(r, taken, a), b) <==> Repeats(r, taken, b) || Clash(r, a, b)
    ensures NONE !in Take(r, taken, a).tags && NONE !in Take(r, taken, a).serials
  {
  }

  lemma NoneRepeatsAfter(r: Rules, taken: Taken, a: Asset, rows: seq<Record>)
    requires NONE !in taken.tags && NONE !in taken.serials
    ensures NoneRepeats(r, Take(r, taken, a), rows) <==>
              NoneRepeats(r, taken, rows) && forall i :: 0 <= i < |rows| ==> !Clash(r, a, rows[i].asset)
    ensures NONE !in Take(r, taken, a).tags && NONE !in Take(r, taken, a).serials
  {
    forall i | 0 <= i < |rows|
      ensures Repeats(r, Take(r, taken, a), rows[i].asset) <==>
                Repeats(r, taken, rows[i].asset) || Clash(r, a, rows[i].asset)
    {
      TakeClashes(r, taken, a, rows[i].asset);
    }
  }

  lemma BuiltFirst(r: Rules, build: BulkItem -> Option<Record>, items: seq<BulkItem>, rows: seq<Record>)
    requires items != [] && rows != []
    ensures BuiltFrom(r, build, items, rows) <==>
              && build(items[0]) == Some(rows[0]) && BuiltFrom(r, build, items[1..], rows[1..])
              && forall i :: 0 <= i < |rows[1..]| ==> !Clash(r, rows[0].asset, rows[1..][i].asset)
  {
    if && build(items[0]) == Some(rows[0]) && BuiltFrom(r, build, items[1..], rows[1..])
       && forall i :: 0 <= i < |rows[1..]| ==> !Clash(r, rows[0].asset, rows[1..][i].asset)
    {
      forall i | 0 <= i < |rows| ensures build(items[i]) == Some(rows[i]) {
        if i > 0 {
          assert items[1..][i - 1] == items[i] && rows[1..][i - 1] == rows[i];
        }
      }
      forall i, j | 0 <= i < j < |rows| ensures !Clash(r, rows[i].asset, rows[j].asset) {
        assert rows[1..][j - 1] == rows[j];
        if i > 0 {
          assert rows[1..][i - 1] == rows[i];
        }
      }
    }
  }

  lemma {:induction false} BuildItemsExactly(
      r: Rules, build: BulkItem -> Option<Record>, items: seq<BulkItem>, taken: Taken, rows: seq<Record>)
    requires NONE !in taken.tags && NONE !in taken.serials
    ensures BuildItems(r, build, items, taken) == Some(rows) <==>
              BuiltFrom(r, build, items, rows) && NoneRepeats(r, taken, rows)
    decreases items
  {
    if items != [] && rows != [] {
      BuiltFirst(r, build, items, rows);
      NoneRepeatsAfter(r, taken, rows[0].asset, rows[1..]);
      BuildItemsExactly(r, build, items[1..], Take(r, taken, rows[0].asset), rows[1..]);
      BuildItemsSplit(r, build, items, taken, rows);
      assert NoneRepeats(r, taken, rows) <==> !Repeats(r, taken, rows[0].asset) && NoneRepeats(r, taken, rows[1..]) by {
        assert rows == [rows[0]] + rows[1..];
      }
    }
  }

  lemma BuildItemsSplit(
      r: Rules, build: BulkItem -> Option<Record>, items: seq<BulkItem>, taken: Taken, rows: seq<Record>)
    requires items != [] && rows != []
    ensures BuildItems(r, build, items, taken) == Some(rows) <==>
              && build(items[0]) == Some(rows[0]) && !Repeats(r, taken, rows[0].asset)
              && BuildItems(r, build, items[1..], Take(r, taken, rows[0].asset)) == Some(rows[1..])
  {
    assert rows == [rows[0]] + rows[1..];
  }

  /** A bulk registration succeeds exactly when every item can be built and no two of them clash. */
  lemma BulkExactly(r: Rules, build: BulkItem -> Option<Record>, items: seq<BulkItem>, rows: seq<Record>)
    ensures BulkRows(r, build, items) == Some(rows) <==>
              1 <= |items| <= MAXIMUM_BULK && BuiltFrom(r, build, items, rows)
  {
    BuildItemsExactly(r, build, items, Taken({}, {}, {}), rows);
  }

  predicate ModelServes(r: Rules, name: Name, model: Option<Model>) {
    r.stable(r.clean(name)) && model.Some? && model.value.id == r.clean(name) && model.value.status == ACTIVE
  }

  /** A bulk registration of one model's assets: all rows, each built from its item, or none. */
  method CreateAssetsFromModel(svc: Service, name: Name, model: Option<Model>, items: seq<BulkItem>, clock: Time)
    returns (result: Option<seq<Record>>)
    ensures result.Some? ==>
              && ModelServes(svc.rules, name, model) && 1 <= |items| <= MAXIMUM_BULK
              && BuiltFrom(svc.rules, Builder(svc, model.value, BulkTime(clock, model.value)), items, result.value)
    ensures result.None? && ModelServes(svc.rules, name, model) && 1 <= |items| <= MAXIMUM_BULK ==>
              forall rows :: !BuiltFrom(svc.rules, Builder(svc, model.value, BulkTime(clock, model.value)), items, rows)
  {
    var id := svc.rules.clean(name);
    if !svc.rules.stable(id) || |items| < 1 || |items| > MAXIMUM_BULK {
      return None;
    }
    if model.None? || model.value.id != id || model.value.status != ACTIVE {
      return None;
    }
    var build := Builder(svc, model.value, BulkTime(clock, model.value));
    result := BuildBulk(svc.rules, build, items);
    forall rows: seq<Record>
      ensures result == Some(rows) <==> 1 <= |items| <= MAXIMUM_BULK && BuiltFrom(svc.rules, build, items, rows)
    {
      BulkExactly(svc.rules, build, items, rows);
    }
  }

  // ----- Updates ----------------------------------------------------------------------------

  /** The same model stays assigned, so its snapshot stays too. */
  predicate Keeps(existing: Asset, n: Input) {
    n.model != NONE && n.model == existing.model && existing.context.Some?
  }

  function KeptContext(c: Context, kind: Name): Context {
    c.(overrides := Overrides(kind, c.texts))
  }

  function Kept(existing: Asset, n: Input, now: Time): Asset
    requires existing.context.Some?
  {
    var c := existing.context.value;
    var kind := if n.fields.kind == NONE then c.texts.kind else n.fields.kind;
    existing.(context := Some(KeptContext(c, kind)), fields := n.fields.(kind := kind), extras := n.extras,
              revision := existing.revision + 1, updatedAt := Max(now, existing.updatedAt))
  }

  function Reassigned(existing: Asset, n: Input, model: Option<Model>, now: Time): Asset {
    var kind := KindOf(n.fields.kind, model);
    var at := LaterOf(Max(now, existing.updatedAt), model);
    existing.(model := n.model, context := SnapshotOf(model, kind, at), fields := n.fields.(kind := kind),
              extras := n.extras, revision := existing.revision + 1, updatedAt := at)
  }

  /** The updated asset an update request asks the store to write, given the rows it read. */
  function BuildUpdate(
      svc: Service, input: Input, revision: int, existing: Asset, model: Option<Model>, scope: Scope): Option<Asset>
  {
    var id := svc.rules.clean(input.id);
    if !svc.rules.stable(id) || existing.id != id || existing.revision != revision then None
    else
      match NormalizeInput(svc.rules, input)
      case None => None
      case Some(n) =>
        if Keeps(existing, n) then Some(Kept(existing, n, Normalize(scope.clock)))
        else if !ModelFits(n.model, model) then None
        else Some(Reassigned(existing, n, model, Normalize(scope.clock)))
  }

  /** The note of a status change, if it is not too long. */
  function NoteOf(r: Rules, note: Name): Option<Name> {
    if !r.atMost(r.clean(note), MAXIMUM_NOTE) then None
    else Some(if r.clean(note) == NONE then STATUS_CHANGED else r.clean(note))
  }

  /** A status change appends one event; any other update appends none. */
  function Appended(
      svc: Service, events: seq<Event>, existing: Asset, updated: Asset, note: Name, scope: Scope): seq<Event>
  {
    if updated.fields.status == existing.fields.status then events
    else events + [MakeEvent(svc, updated, existing.fields.status, note, scope)]
  }

  // ----- The system -------------------------------------------------------------------------

  /** The tables, and every row any request has read so far, as it was when read. */
  datatype System = System(
    models: map<Name, Model>, records: map<Name, Record>, seenModels: set<Model>, seenAssets: set<Asset>)

  datatype Action =
    | CreateModel(draft: ModelInput, scope: Scope)
    | UpdateModel(draft: ModelInput, revision: int, base: Model, clock: Time)
    | RetireModel(id: Name, revision: int, base: Model, clock: Time)
    | ReactivateModel(id: Name, revision: int, base: Model, clock: Time)
    | ReadModel(id: Name)
    | ReadAsset(id: Name)
    | Create(input: Input, model: Option<Model>, scope: Scope)
    | CreateBulk(common: Model, items: seq<BulkItem>, clock: Time)
    | Update(input: Input, revision: int, note: Name, existing: Asset, model: Option<Model>, scope: Scope)

  /** The store's check that an asset's model is there, and active unless it was assigned before. */
  predicate ModelThere(models: map<Name, Model>, model: Name, before: Name) {
    model == NONE || (model in models && (models[model].status == ACTIVE || model == before))
  }

  function AddRecord(s: System, r: Record): System {
    if r.asset.id in s.records || !ModelThere(s.models, r.asset.model, NONE) then s
    else s.(records := s.records[r.asset.id := r])
  }

  predicate AllAddable(s: System, rs: seq<Record>) {
    && (forall i :: 0 <= i < |rs| ==> rs[i].asset.id !in s.records && ModelThere(s.models, rs[i].asset.model, NONE))
    && (forall i, j :: 0 <= i < j < |rs| ==> rs[i].asset.id != rs[j].asset.id)
  }

  function AddRecords(s: System, rs: seq<Record>): System {
    if rs == [] then s else AddRecord(AddRecords(s, rs[..|rs| - 1]), rs[|rs| - 1])
  }

  function WriteUpdate(svc: Service, s: System, existing: Asset, updated: Asset, note: Name, scope: Scope): System {
    if updated.id !in s.records then s
    else
      var current := s.records[updated.id];
      if current.asset.revision != existing.revision || !ModelThere(s.models, updated.model, current.asset.model) then s
      else
        var events := Appended(svc, current.events, existing, updated, note, scope);
        s.(records := s.records[updated.id := Record(updated, events)])
  }

  function ApplyCreate(s: System, model: Option<Model>, built: Option<Record>): System {
    if built.None? || (model.Some? && model.value !in s.seenModels) then s else AddRecord(s, built.value)
  }

  function ApplyBulk(s: System, common: Model, built: Option<seq<Record>>): System {
    if built.None? || common !in s.seenModels || common.status != ACTIVE || !AllAddable(s, built.value) then s
    else AddRecords(s, built.value)
  }

  function ApplyUpdate(
      svc: Service, s: System, existing: Asset, model: Option<Model>, built: Option<Asset>, note: Option<Name>,
      scope: Scope): System
  {
    if built.None? || note.None? || existing !in s.seenAssets || (model.Some? && model.value !in s.seenModels) then s
    else WriteUpdate(svc, s, existing, built.value, note.value, scope)
  }

  function BulkTime(clock: Time, common: Model): Time {
    Max(Normalize(clock), common.updatedAt)
  }

  /** One atomic step. A write relies on rows that were read at some earlier time. */
  ghost function Next(svc: Service, s: System, a: Action): System {
    match a
    case CreateModel(draft, scope) => s.(models := AddModel(s.models, NewModel(svc, draft, scope.freshId, scope.clock)))
    case UpdateModel(draft, revision, base, clock) =>
      if base !in s.seenModels then s
      else s.(models := ReplaceModel(s.models, base, EditedModel(svc, draft, revision, base, clock)))
    case RetireModel(id, revision, base, clock) =>
      if base !in s.seenModels then s else s.(models := Retire(svc.rules, s.models, id, revision, base, clock))
    case ReactivateModel(id, revision, base, clock) =>
      if base !in s.seenModels then s else s.(models := Reactivate(svc.rules, s.models, id, revision, base, clock))
    case ReadModel(id) => if id in s.models then s.(seenModels := s.seenModels + {s.models[id]}) else s
    case ReadAsset(id) => if id in s.records then s.(seenAssets := s.seenAssets + {s.records[id].asset}) else s
    case Create(input, model, scope) => ApplyCreate(s, model, BuildCreate(svc, input, model, scope))
    case CreateBulk(common, items, clock) =>
      ApplyBulk(s, common, BulkRows(svc.rules, Builder(svc, common, BulkTime(clock, common)), items))
    case Update(input, revision, note, existing, model, scope) =>
      ApplyUpdate(svc, s, existing, model, BuildUpdate(svc, input, revision, existing, model, scope),
                  NoteOf(svc.rules, note), scope)
  }

  ghost function Run(svc: Service, actions: seq<Action>): System {
    if actions == [] then System(map[], map[], {}, {})
    else Next(svc, Run(svc, actions[..|actions| - 1]), actions[|actions| - 1])
  }

  predicate ScopeWorks(r: Rules, scope: Scope) {
    InYears(scope.clock) && r.reference(scope.freshId) && r.reference(scope.eventId)
  }

  /** The clock reads between 1970 and 9999, and generated names are 32 hexadecimal digits. */
  predicate Works(r: Rules, a: Action) {
    match a
    case CreateModel(_, scope) => ScopeWorks(r, scope)
    case UpdateModel(_, _, _, clock) => InYears(clock)
    case RetireModel(_, _, _, clock) => InYears(clock)
    case ReactivateModel(_, _, _, clock) => InYears(clock)
    case ReadModel(_) => true
    case ReadAsset(_) => true
    case Create(_, _, scope) => ScopeWorks(r, scope)
    case CreateBulk(_, items, clock) => InYears(clock) && forall i :: 0 <= i < |items| ==> ScopeWorks(r, items[i].scope)
    case Update(_, _, _, _, _, scope) => ScopeWorks(r, scope)
  }
}
