/**
  Assets, models and lifecycle events of the Atlas inventory: input normalization, the context an
  asset keeps of its model, and the strict validators of the exchange format.
 */
module AtlasRecords {
  import opened Text
  import opened Sequences
  import opened Ordering
  import opened Clock

  const NONE := Name("")
  const DRAFT := Name("draft")
  const ACTIVE := Name("active")
  const RETIRED := Name("retired")
  const KIND := Name("kind")
  const SYSTEM := Name("system:atlas")
  const REGISTERED := Name("Asset registered")
  const REGISTERED_IN_BULK := Name("Asset registered from model bulk intake")
  const STATUS_CHANGED := Name("Status changed")
  const MAXIMUM_ACTOR: nat := 128
  const MAXIMUM_NOTE: nat := 1000
  const DAY: int := 86_400_000_000_000

  // ----- Text rules -------------------------------------------------------------------------

  /** Fields the exchange validator does not look at: attributes, components, costs and the like. */
  datatype Extras = Extras(text: string)

  /** The text operations of the service: trimming, lower case, lengths in runes, and patterns. */
  datatype Rules = Rules(
    clean: Name -> Name,
    lower: Name -> Name,
    atMost: (Name, nat) -> bool,
    stable: Name -> bool,
    reference: Name -> bool,
    hostname: Name -> bool,
    kind: Name -> bool,
    status: Name -> bool,
    url: Name -> bool,
    extras: Extras -> Option<Extras>,
    defaults: Extras -> Option<Extras>,
    inherit: (Extras, Extras) -> Extras)

  ghost predicate NameLaws(r: Rules) {
    && (forall n {:trigger r.clean(n)} :: r.clean(r.clean(n)) == r.clean(n))
    && (forall n {:trigger r.lower(n)} :: r.lower(r.lower(n)) == r.lower(n))
    && (forall n {:trigger r.stable(n)} :: r.stable(n) ==> n != NONE && r.clean(n) == n)
    && (forall n {:trigger r.reference(n)} :: r.reference(n) ==> r.stable(n))
    && (forall n {:trigger r.kind(n)} :: r.kind(n) ==> n != NONE)
    && (forall n {:trigger r.status(n)} :: r.status(n) ==> n != NONE)
  }

  predicate TextLaws(r: Rules) {
    && r.clean(NONE) == NONE && r.lower(DRAFT) == DRAFT && r.status(DRAFT)
    && r.atMost(SYSTEM, MAXIMUM_ACTOR) && r.atMost(REGISTERED, MAXIMUM_NOTE)
    && r.atMost(REGISTERED_IN_BULK, MAXIMUM_NOTE) && r.atMost(STATUS_CHANGED, MAXIMUM_NOTE)
  }

  /** All that the proofs use of the text operations. */
  ghost predicate Lawful(r: Rules) {
    NameLaws(r) && TextLaws(r)
  }

  datatype Service = Service(organization: Name, rules: Rules)

  // ----- Records ----------------------------------------------------------------------------

  datatype References = References(site: Name, building: Name, room: Name, department: Name, user: Name)

  /** The fields of an asset that the exchange validator normalizes again. */
  datatype Fields = Fields(
    name: Name, kind: Name, tag: Name, serial: Name, hostname: Name, notes: Name,
    references: References, status: Name, purchased: Option<Time>)

  datatype ModelTexts = ModelTexts(
    manufacturer: Name, name: Name, number: Name, kind: Name, vendor: Name, specifications: map<Name, Name>,
    supportUrl: Name, warrantyMonths: int, usefulLifeMonths: int, sourceSystem: Name, sourceRecord: Name)

  datatype Model = Model(
    id: Name, organization: Name, texts: ModelTexts, extras: Extras, status: Name, revision: int,
    createdAt: Time, updatedAt: Time)

  /** What an asset keeps of its model from the moment it was assigned. */
  datatype Context = Context(
    texts: ModelTexts, modelRevision: int, defaultsEffectiveAt: Time, appliedAt: Time, overrides: seq<Name>)

  datatype Asset = Asset(
    id: Name, organization: Name, model: Name, context: Option<Context>, fields: Fields, extras: Extras,
    revision: int, createdAt: Time, updatedAt: Time)

  datatype Event = Event(
    id: Name, organization: Name, asset: Name, from: Name, to: Name, note: Name,
    revision: int, actor: Name, occurredAt: Time)

  // ----- Normalizing an asset ---------------------------------------------------------------

  function CleanReferences(r: Rules, x: References): References {
    References(r.clean(x.site), r.clean(x.building), r.clean(x.room), r.clean(x.department), r.clean(x.user))
  }

  predicate ReferenceFits(r: Rules, n: Name) {
    n != NONE ==> r.reference(n)
  }

  predicate ReferencesFit(r: Rules, x: References) {
    && ReferenceFits(r, x.site) && ReferenceFits(r, x.building) && ReferenceFits(r, x.room)
    && ReferenceFits(r, x.department) && ReferenceFits(r, x.user)
    && (x.building != NONE ==> x.site != NONE)
    && (x.room != NONE ==> x.site != NONE && x.building != NONE)
  }

  predicate InYears(t: Time) {
    0 <= t.nanos < END_OF_TIME
  }

  /** Midnight, UTC, of the day. */
  function Midnight(t: Time): Time {
    Time(t.nanos - t.nanos % DAY, true)
  }

  function CleanFields(r: Rules, f: Fields): Fields {
    Fields(r.clean(f.name), r.lower(f.kind), r.clean(f.tag), r.clean(f.serial), r.lower(f.hostname), r.clean(f.notes),
           CleanReferences(r, f.references), if r.lower(f.status) == NONE then DRAFT else r.lower(f.status),
           match f.purchased case None => None case Some(t) => Some(Midnight(t)))
  }

  predicate FieldsFit(r: Rules, f: Fields, model: Name) {
    && f.name != NONE && r.atMost(f.name, 200)
    && r.atMost(f.tag, 128) && r.atMost(f.serial, 255) && r.atMost(f.hostname, 253) && r.atMost(f.notes, 2000)
    && (f.kind == NONE ==> model != NONE) && (f.kind != NONE ==> r.kind(f.kind))
    && r.status(f.status) && (f.hostname != NONE ==> r.hostname(f.hostname))
    && ReferencesFit(r, f.references)
    && (f.purchased.Some? ==> InYears(f.purchased.value))
  }

  predicate NamesFit(r: Rules, id: Name, model: Name) {
    (id != NONE ==> r.stable(id)) && (model != NONE ==> r.stable(model))
  }

  datatype Input = Input(id: Name, model: Name, fields: Fields, extras: Extras)

  function NormalizeInput(r: Rules, input: Input): Option<Input> {
    var id, model, fields := r.clean(input.id), r.clean(input.model), CleanFields(r, input.fields);
    if !NamesFit(r, id, model) || !FieldsFit(r, fields, model) || r.extras(input.extras).None? then None
    else Some(Input(id, model, fields, r.extras(input.extras).value))
  }

  // ----- Normalizing a model's texts --------------------------------------------------------

  predicate EntryFits(r: Rules, key: Name, value: Name) {
    key != NONE && r.atMost(key, 80) && r.atMost(value, 500)
  }

  ghost predicate EntriesFit(r: Rules, specs: map<Name, Name>) {
    forall k {:trigger specs[k]} :: k in specs ==> EntryFits(r, r.clean(k), r.clean(specs[k]))
  }

  /** No two keys become the same by trimming. */
  ghost predicate KeysDiffer(r: Rules, specs: map<Name, Name>) {
    forall j, k {:trigger specs[j], specs[k]} :: j in specs && k in specs && r.clean(j) == r.clean(k) ==> j == k
  }

  ghost predicate FromKey(r: Rules, specs: map<Name, Name>, c: Name) {
    exists k {:trigger specs[k]} :: k in specs && r.clean(k) == c
  }

  /** The entries with trimmed keys and values. */
  ghost predicate IsCleaned(r: Rules, specs: map<Name, Name>, cleaned: map<Name, Name>) {
    && (forall k {:trigger specs[k]} :: k in specs ==>
          r.clean(k) in cleaned && cleaned[r.clean(k)] == r.clean(specs[k]))
    && (forall c {:trigger FromKey(r, specs, c)} :: c in cleaned ==> FromKey(r, specs, c))
  }

  lemma CleanOne(r: Rules, specs: map<Name, Name>, cleaned: map<Name, Name>, key: Name, value: Name)
    requires EntriesFit(r, specs) && KeysDiffer(r, specs) && IsCleaned(r, specs, cleaned) && key !in specs
    requires EntryFits(r, r.clean(key), r.clean(value)) && r.clean(key) !in cleaned
    ensures EntriesFit(r, specs[key := value]) && KeysDiffer(r, specs[key := value])
    ensures IsCleaned(r, specs[key := value], cleaned[r.clean(key) := r.clean(value)])
  {
    var more, grown := specs[key := value], cleaned[r.clean(key) := r.clean(value)];
    assert more[key] == value;
    assert forall k {:trigger more[k]} :: k in specs ==> more[k] == specs[k] && r.clean(k) in cleaned;
    forall c | c in grown ensures FromKey(r, more, c) {
      if c in cleaned {
        assert FromKey(r, specs, c);
        var k :| k in specs && r.clean(k) == c;
        assert more[k] == specs[k];
      }
    }
  }

  /** Trims keys and values in any order of the map; refuses too many, ill-fitting or colliding entries. */
  method NormalizeSpecifications(r: Rules, specs: map<Name, Name>) returns (result: Option<map<Name, Name>>)
    ensures result.Some? <==> |specs| <= 25 && EntriesFit(r, specs) && KeysDiffer(r, specs)
    ensures result.Some? ==> IsCleaned(r, specs, result.value)
  {
    if |specs| > 25 {
      return None;
    }
    var rest := specs.Keys;
    var cleaned: map<Name, Name> := map[];
    ghost var done: map<Name, Name> := map[];
    while rest != {}
      invariant rest <= specs.Keys && done == specs - rest
      invariant EntriesFit(r, done) && KeysDiffer(r, done) && IsCleaned(r, done, cleaned)
    {
      var key :| key in rest;
      var k, v := r.clean(key), r.clean(specs[key]);
      if !EntryFits(r, k, v) {
        Misfit(r, specs, key);
        return None;
      }
      if k in cleaned {
        Collision(r, specs, done, cleaned, key);
        return None;
      }
      CleanOne(r, done, cleaned, key, specs[key]);
      DoneMore(specs, rest, key);
      cleaned := cleaned[k := v];
      rest := rest - {key};
      done := done[key := specs[key]];
    }
    assert done == specs;
    return Some(cleaned);
  }

  lemma Misfit(r: Rules, specs: map<Name, Name>, key: Name)
    requires key in specs && !EntryFits(r, r.clean(key), r.clean(specs[key]))
    ensures !EntriesFit(r, specs)
  {
  }

  lemma DoneMore(specs: map<Name, Name>, rest: set<Name>, key: Name)
    requires key in rest && rest <= specs.Keys
    ensures (specs - rest)[key := specs[key]] == specs - (rest - {key})
  {
  }

  lemma Collision(r: Rules, specs: map<Name, Name>, done: map<Name, Name>, cleaned: map<Name, Name>, key: Name)
    requires key in specs && key !in done && (forall k {:trigger done[k]} :: k in done ==> k in specs)
    requires IsCleaned(r, done, cleaned) && r.clean(key) in cleaned
    ensures !KeysDiffer(r, specs)
  {
    assert FromKey(r, done, r.clean(key));
    var k :| k in done && r.clean(k) == r.clean(key);
    assert done[k] == done[k] && specs[k] == specs[k] && specs[key] == specs[key];
  }

  /** Cleaned specifications are cleaned to themselves. */
  lemma CleanedFixed(r: Rules, specs: map<Name, Name>, cleaned: map<Name, Name>)
    requires Lawful(r) && EntriesFit(r, specs) && IsCleaned(r, specs, cleaned)
    ensures forall c :: c in cleaned ==>
              r.clean(c) == c && r.clean(cleaned[c]) == cleaned[c] && EntryFits(r, c, cleaned[c])
  {
    forall c | c in cleaned
      ensures r.clean(c) == c && r.clean(cleaned[c]) == cleaned[c] && EntryFits(r, c, cleaned[c])
    {
      assert FromKey(r, specs, c);
      var k :| k in specs && r.clean(k) == c;
      assert cleaned[r.clean(k)] == r.clean(specs[k]);
    }
  }

  /** Texts the model normalizer accepts and leaves as they are. */
  ghost predicate NormalTexts(r: Rules, t: ModelTexts) {
    && r.clean(t.manufacturer) == t.manufacturer && t.manufacturer != NONE && r.atMost(t.manufacturer, 120)
    && r.clean(t.name) == t.name && t.name != NONE && r.atMost(t.name, 160)
    && r.clean(t.number) == t.number && r.atMost(t.number, 120)
    && r.lower(t.kind) == t.kind && r.kind(t.kind)
    && r.clean(t.vendor) == t.vendor && r.atMost(t.vendor, 160)
    && r.clean(t.supportUrl) == t.supportUrl
    && (t.supportUrl != NONE ==> r.atMost(t.supportUrl, 500) && r.url(t.supportUrl))
    && r.clean(t.sourceSystem) == t.sourceSystem && r.atMost(t.sourceSystem, 120)
    && r.clean(t.sourceRecord) == t.sourceRecord && r.atMost(t.sourceRecord, 160)
    && 0 <= t.warrantyMonths <= 1200 && 0 <= t.usefulLifeMonths <= 1200
    && |t.specifications| <= 25
    && (forall k :: k in t.specifications ==>
          && r.clean(k) == k && r.clean(t.specifications[k]) == t.specifications[k]
          && EntryFits(r, k, t.specifications[k]))
  }

  /** The cleaned entries are determined. */
  lemma CleanedUnique(r: Rules, specs: map<Name, Name>, a: map<Name, Name>, b: map<Name, Name>)
    requires IsCleaned(r, specs, a) && IsCleaned(r, specs, b)
    ensures a == b
  {
    CleanedWithin(r, specs, a, b);
    CleanedWithin(r, specs, b, a);
  }

  lemma CleanedWithin(r: Rules, specs: map<Name, Name>, a: map<Name, Name>, b: map<Name, Name>)
    requires IsCleaned(r, specs, a) && IsCleaned(r, specs, b)
    ensures forall c :: c in a ==> c in b && b[c] == a[c]
  {
    forall c | c in a ensures c in b && b[c] == a[c] {
      assert FromKey(r, specs, c);
      var k :| k in specs && r.clean(k) == c;
      assert a[r.clean(k)] == r.clean(specs[k]) && b[r.clean(k)] == r.clean(specs[k]);
    }
  }

  ghost function CleanedSpecifications(r: Rules, specs: map<Name, Name>): (cleaned: map<Name, Name>)
    requires KeysDiffer(r, specs)
    ensures IsCleaned(r, specs, cleaned)
  {
    assert forall k {:trigger specs[k]} :: k in specs ==> FromKey(r, specs, r.clean(k));
    map c | c in (set k | k in specs :: r.clean(k)) :: r.clean(specs[KeyOf(r, specs, c)])
  }

  ghost function KeyOf(r: Rules, specs: map<Name, Name>, c: Name): (k: Name)
    requires FromKey(r, specs, c)
    ensures k in specs && r.clean(k) == c
  {
    var k :| k in specs && r.clean(k) == c;
    k
  }

  function CleanTexts(r: Rules, t: ModelTexts, specs: map<Name, Name>): ModelTexts {
    ModelTexts(r.clean(t.manufacturer), r.clean(t.name), r.clean(t.number), r.lower(t.kind), r.clean(t.vendor),
               specs, r.clean(t.supportUrl), t.warrantyMonths, t.usefulLifeMonths,
               r.clean(t.sourceSystem), r.clean(t.sourceRecord))
  }

  predicate TextsFit(r: Rules, n: ModelTexts) {
    && n.manufacturer != NONE && r.atMost(n.manufacturer, 120) && n.name != NONE && r.atMost(n.name, 160)
    && r.atMost(n.number, 120) && r.atMost(n.vendor, 160) && r.atMost(n.sourceSystem, 120)
    && r.atMost(n.sourceRecord, 160) && r.kind(n.kind)
    && 0 <= n.warrantyMonths <= 1200 && 0 <= n.usefulLifeMonths <= 1200
    && (n.supportUrl != NONE ==> r.atMost(n.supportUrl, 500) && r.url(n.supportUrl))
  }

  /** A model's texts after normalization, if they can be normalized. */
  ghost function NormalizedTexts(r: Rules, t: ModelTexts): Option<ModelTexts> {
    if |t.specifications| > 25 || !EntriesFit(r, t.specifications) || !KeysDiffer(r, t.specifications) then None
    else
      var n := CleanTexts(r, t, CleanedSpecifications(r, t.specifications));
      if TextsFit(r, n) then Some(n) else None
  }

  /** Normalizes a model's texts, refusing what does not fit. */
  method NormalizeModelTexts(r: Rules, t: ModelTexts) returns (result: Option<ModelTexts>)
    ensures result == NormalizedTexts(r, t)
  {
    var specs := NormalizeSpecifications(r, t.specifications);
    if specs.None? {
      return None;
    }
    CleanedUnique(r, t.specifications, specs.value, CleanedSpecifications(r, t.specifications));
    var n := CleanTexts(r, t, specs.value);
    if !TextsFit(r, n) {
      return None;
    }
    return Some(n);
  }

  /** Normalized texts are normal. */
  lemma NormalizedTextsNormal(r: Rules, t: ModelTexts)
    requires Lawful(r) && NormalizedTexts(r, t).Some?
    ensures NormalTexts(r, NormalizedTexts(r, t).value)
  {
    var specs := CleanedSpecifications(r, t.specifications);
    CleanedFixed(r, t.specifications, specs);
    CleanedSize(r, t.specifications, specs);
  }

  /** Normal texts are exactly those that normalization accepts and leaves as they are. */
  lemma NormalExactly(r: Rules, t: ModelTexts)
    requires Lawful(r)
    ensures NormalTexts(r, t) <==> NormalizedTexts(r, t) == Some(t)
  {
    if NormalTexts(r, t) {
      NormalKept(r, t);
    } else if NormalizedTexts(r, t) == Some(t) {
      NormalizedTextsNormal(r, t);
    }
  }

  lemma NormalKept(r: Rules, t: ModelTexts)
    requires NormalTexts(r, t)
    ensures NormalizedTexts(r, t) == Some(t)
  {
    NormalSpecifications(r, t.specifications);
    CleanedSame(r, t.specifications, CleanedSpecifications(r, t.specifications));
    NormalFields(r, t);
    KeptTexts(r, t, CleanedSpecifications(r, t.specifications));
  }

  lemma NormalFields(r: Rules, t: ModelTexts)
    requires NormalTexts(r, t)
    ensures CleanTexts(r, t, t.specifications) == t && TextsFit(r, t)
  {
  }

  lemma KeptTexts(r: Rules, t: ModelTexts, specs: map<Name, Name>)
    requires |t.specifications| <= 25 && EntriesFit(r, t.specifications) && KeysDiffer(r, t.specifications)
    requires specs == CleanedSpecifications(r, t.specifications) == t.specifications
    requires CleanTexts(r, t, specs) == t && TextsFit(r, t)
    ensures NormalizedTexts(r, t) == Some(t)
  {
  }

  lemma NormalSpecifications(r: Rules, specs: map<Name, Name>)
    requires forall k :: k in specs ==> r.clean(k) == k && r.clean(specs[k]) == specs[k] && EntryFits(r, k, specs[k])
    ensures EntriesFit(r, specs) && KeysDiffer(r, specs)
  {
  }

  lemma CleanedSame(r: Rules, specs: map<Name, Name>, cleaned: map<Name, Name>)
    requires IsCleaned(r, specs, cleaned)
    requires forall k :: k in specs ==> r.clean(k) == k && r.clean(specs[k]) == specs[k]
    ensures cleaned == specs
  {
    forall c | c in cleaned ensures c in specs {
      assert FromKey(r, specs, c);
    }
    assert forall k :: k in specs ==> r.clean(k) in cleaned && cleaned[r.clean(k)] == r.clean(specs[k]);
  }

  /** Trimming does not add entries. */
  lemma CleanedSize(r: Rules, specs: map<Name, Name>, cleaned: map<Name, Name>)
    requires IsCleaned(r, specs, cleaned)
    ensures |cleaned| <= |specs|
  {
    var keys := set k | k in specs :: r.clean(k);
    ImageSize(specs.Keys, r.clean, keys);
    forall c | c in cleaned ensures c in keys {
      assert FromKey(r, specs, c);
    }
    assert cleaned.Keys <= keys;
    SubsetSize(cleaned.Keys, keys);
  }

  lemma {:induction false} ImageSize(s: set<Name>, f: Name -> Name, image: set<Name>)
    requires image == set k | k in s :: f(k)
    ensures |image| <= |s|
    decreases |s|
  {
    if s != {} {
      var x :| x in s;
      var less := set k | k in s - {x} :: f(k);
      ImageSize(s - {x}, f, less);
      assert image == less + {f(x)};
    }
  }

  // ----- The model context ------------------------------------------------------------------

  function Overrides(kind: Name, texts: ModelTexts): seq<Name> {
    if kind != texts.kind then [KIND] else []
  }

  function Snapshot(model: Model, kind: Name, at: Time): Context {
    Context(model.texts, model.revision, Normalize(model.updatedAt), Normalize(at), Overrides(kind, model.texts))
  }

  function SnapshotOf(model: Option<Model>, kind: Name, at: Time): Option<Context> {
    match model case None => None case Some(m) => Some(Snapshot(m, kind, at))
  }

  // ----- The exchange validators ------------------------------------------------------------

  predicate ValidTimes(created: Time, updated: Time) {
    Portable(created) && Portable(updated) && !Earlier(updated, created)
  }

  /** An existing context of the given model's name. */
  ghost predicate ValidContext(r: Rules, model: Name, context: Option<Context>) {
    match context
    case None => model == NONE
    case Some(c) =>
      && model != NONE && c.modelRevision >= 1
      && Portable(c.defaultsEffectiveAt) && Portable(c.appliedAt) && !Earlier(c.appliedAt, c.defaultsEffectiveAt)
      && (c.overrides == [] || c.overrides == [KIND])
      && NormalTexts(r, c.texts)
  }

  /** A model row as the exchange validator accepts it. */
  ghost predicate ValidModel(svc: Service, m: Model) {
    && m.organization == svc.organization && svc.rules.stable(m.id) && m.revision >= 1
    && ValidTimes(m.createdAt, m.updatedAt) && (m.revision == 1 ==> Same(m.createdAt, m.updatedAt))
    && (m.status == ACTIVE || (m.status == RETIRED && m.revision >= 2))
    && NormalTexts(svc.rules, m.texts)
  }

  /** The asset's own fields, normalized again, come back unchanged. */
  predicate FieldsFixed(r: Rules, id: Name, model: Name, f: Fields) {
    && NamesFit(r, id, model) && r.clean(id) == id && r.clean(model) == model
    && FieldsFit(r, CleanFields(r, f), model)
    && CleanFields(r, f).(purchased := f.purchased) == f
    && (f.purchased.Some? ==> Same(Midnight(f.purchased.value), f.purchased.value))
  }

  ghost predicate ValidAsset(svc: Service, a: Asset) {
    && a.organization == svc.organization && svc.rules.stable(a.id) && a.revision >= 1
    && ValidTimes(a.createdAt, a.updatedAt) && (a.revision == 1 ==> Same(a.createdAt, a.updatedAt))
    && ValidContext(svc.rules, a.model, a.context)
    && (a.context.Some? ==>
          !Earlier(a.context.value.appliedAt, a.createdAt) && !Earlier(a.updatedAt, a.context.value.appliedAt))
    && FieldsFixed(svc.rules, a.id, a.model, a.fields)
  }

  /** Everything the lifecycle validator asks for, apart from the actor. */
  predicate ValidEventApartFromActor(svc: Service, e: Event) {
    && e.organization == svc.organization && svc.rules.reference(e.id) && svc.rules.stable(e.asset)
    && e.revision >= 1 && svc.rules.atMost(e.note, MAXIMUM_NOTE) && Portable(e.occurredAt)
    && svc.rules.status(e.to)
    && if e.from == NONE then e.revision == 1 else svc.rules.status(e.from) && e.revision > 1 && e.from != e.to
  }

  predicate ValidActor(r: Rules, actor: Name) {
    actor != NONE && r.atMost(actor, MAXIMUM_ACTOR)
  }

  predicate ValidEvent(svc: Service, e: Event) {
    ValidEventApartFromActor(svc, e) && ValidActor(svc.rules, e.actor)
  }

  /** The event importer's checks against the asset as it is. */
  predicate EventFits(e: Event, a: Asset) {
    && e.asset == a.id && e.revision <= a.revision
    && !Earlier(e.occurredAt, a.createdAt) && !Earlier(a.updatedAt, e.occurredAt)
    && (e.revision == a.revision ==> Same(e.occurredAt, a.updatedAt) && e.to == a.fields.status)
  }

  // ----- Normalized fields are fixed points -------------------------------------------------

  lemma MidnightFixed(t: Time)
    ensures Midnight(Midnight(t)) == Midnight(t)
    ensures InYears(t) ==> InYears(Midnight(t))
  {
  }

  lemma CleanFieldsFixed(r: Rules, f: Fields)
    requires Lawful(r)
    ensures CleanFields(r, CleanFields(r, f)) == CleanFields(r, f)
  {
    if f.purchased.Some? {
      MidnightFixed(f.purchased.value);
    }
  }

  /** Normalizing a normalized input changes nothing. */
  lemma NormalizedFixed(r: Rules, input: Input, n: Input)
    requires Lawful(r) && NormalizeInput(r, input) == Some(n)
    ensures FieldsFixed(r, n.id, n.model, n.fields)
  {
    CleanFieldsFixed(r, input.fields);
  }

  /** A valid kind may take the place of an absent one. */
  lemma KindFilled(r: Rules, id: Name, model: Name, f: Fields, kind: Name)
    requires FieldsFixed(r, id, model, f) && r.kind(kind) && r.lower(kind) == kind && kind != NONE
    ensures FieldsFixed(r, id, model, f.(kind := kind))
  {
  }
}
