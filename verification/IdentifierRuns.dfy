/**
  The identifier service over time. A request reads a row and later writes on the strength of
  what it read, so reads and writes of different requests interleave freely. Every state any run
  can reach is a disjoint union of replacement histories.
 */
module IdentifierRuns {
  import opened Text
  import opened Sequences
  import opened Ordering
  import opened Clock
  import opened Identifiers
  import opened ChainExport
  import opened IdentifierStore
  import opened IdentifierImport

  // ----- Requests ---------------------------------------------------------------------------

  datatype CreateInput = CreateInput(
    id: Name, asset: Name, symbology: Name, value: Name, display: Name, source: Name, primary: bool)

  datatype ReplaceInput = ReplaceInput(
    asset: Name, id: Name, revision: int, replacement: Name, symbology: Name, value: Name, display: Name, source: Name)

  /** What the request's context and the service supply: a fresh name, who acts, and the clock. */
  datatype Scope = Scope(freshId: Name, actor: Name, correlation: Name, clock: Time, assets: set<Name>)

  datatype Texts = Texts(code: Code, display: Name, source: Name)

  function NormalizeTexts(t: TextRules, symbology: Name, value: Name, display: Name, source: Name): Option<Texts> {
    match NormalizeCode(t, symbology, value)
    case None => None
    case Some(code) =>
      if code.symbology == QR && t.isRoute(code.value) then None
      else
        match NormalizeDisplay(t, display, code.value)
        case None => None
        case Some(d) =>
          match NormalizeSource(t, source)
          case None => None
          case Some(s) => Some(Texts(code, d, s))
  }

  function NewRow(
      svc: Service, id: Name, asset: Name, texts: Texts, primary: bool, supersedes: Name, scope: Scope,
      now: Time): Identifier
  {
    Identifier(id, svc.organization, asset, texts.code.symbology, texts.code.value, texts.display, texts.source,
               primary, Active, supersedes, NONE, 1, scope.actor, scope.correlation, scope.actor, scope.correlation,
               now, now, None)
  }

  /** The row a create request asks the store to add, unless the request is refused first. */
  function BuildCreate(svc: Service, input: CreateInput, scope: Scope): Option<Identifier> {
    var id, asset := svc.text.clean(input.id), svc.text.clean(input.asset);
    if (id != NONE && !svc.text.stable(id)) || !svc.text.stable(asset) || asset !in scope.assets then None
    else
      match NormalizeTexts(svc.text, input.symbology, input.value, input.display, input.source)
      case None => None
      case Some(texts) =>
        Some(NewRow(svc, if id != NONE then id else scope.freshId, asset, texts, input.primary, NONE, scope,
                    Normalize(scope.clock)))
  }

  /** The name of the successor: as asked, or the one already there, or a fresh one. */
  function SuccessorName(t: TextRules, asked: Name, existing: Identifier, unused: Name): Name {
    if asked != NONE then asked
    else if existing.status == Replaced && t.stable(existing.replacedBy) then existing.replacedBy
    else unused
  }

  /** The successor a replace request asks the store to add, given the row it read. */
  function BuildReplace(svc: Service, input: ReplaceInput, existing: Identifier, scope: Scope): Option<Identifier> {
    var asset, id, asked := svc.text.clean(input.asset), svc.text.clean(input.id), svc.text.clean(input.replacement);
    if || !svc.text.stable(asset) || !svc.text.stable(id) || (asked != NONE && !svc.text.stable(asked))
       || input.revision < 1 || asset !in scope.assets || existing.id != id || existing.asset != asset
    then None
    else
      match NormalizeTexts(svc.text, input.symbology, input.value, input.display, input.source)
      case None => None
      case Some(texts) =>
        Some(NewRow(svc, SuccessorName(svc.text, asked, existing, scope.freshId), asset, texts, existing.primary,
                    existing.id, scope, Max(Normalize(scope.clock), existing.updatedAt)))
  }

  // ----- The system -------------------------------------------------------------------------

  /** The rows, and every row any request has read so far, as it was when read. */
  datatype System = System(store: Store, seen: set<Identifier>)

  datatype Action =
    | Read(id: Name)
    | Create(create: CreateInput, scope: Scope)
    | Replace(replace: ReplaceInput, existing: Identifier, scope: Scope)
    | Deactivate(asset: Name, id: Name, revision: int, existing: Identifier, scope: Scope)
    | Import(chain: Chain, scope: Scope)

  ghost function WriteReplace(
      svc: Service, store: Store, input: ReplaceInput, existing: Identifier, scope: Scope): Store
  {
    match BuildReplace(svc, input, existing, scope)
    case None => store
    case Some(row) => ReplaceRow(svc, store, row.asset, row.supersedes, input.revision, row, row.createdAt).store
  }

  ghost function WriteCreate(svc: Service, store: Store, input: CreateInput, scope: Scope): Store {
    match BuildCreate(svc, input, scope)
    case None => store
    case Some(row) => CreateRow(svc, store, row).store
  }

  ghost function WriteDeactivate(
      svc: Service, store: Store, asset: Name, id: Name, revision: int, existing: Identifier, scope: Scope): Store
  {
    if || !svc.text.stable(asset) || !svc.text.stable(id) || existing.id != id || existing.asset != asset
       || asset !in scope.assets then store
    else
      var at := Max(Normalize(scope.clock), existing.updatedAt);
      DeactivateRow(svc, store, asset, id, revision, at, scope.actor, scope.correlation).store
  }

  /** One atomic step. A write relies on a row that was read at some earlier time. */
  ghost function Next(svc: Service, s: System, a: Action): System {
    match a
    case Read(id) => if id in s.store then System(s.store, s.seen + {s.store[id]}) else s
    case Create(input, scope) => System(WriteCreate(svc, s.store, input, scope), s.seen)
    case Replace(input, existing, scope) =>
      if existing in s.seen then System(WriteReplace(svc, s.store, input, existing, scope), s.seen) else s
    case Deactivate(asset, id, revision, existing, scope) =>
      if existing !in s.seen then s
      else
        var a, i := svc.text.clean(asset), svc.text.clean(id);
        System(WriteDeactivate(svc, s.store, a, i, revision, existing, scope), s.seen)
    case Import(chain, scope) => System(ImportChain(svc, scope.assets, s.store, chain).store, s.seen)
  }

  ghost function Run(svc: Service, actions: seq<Action>): System {
    if actions == [] then System(map[], {})
    else Next(svc, Run(svc, actions[..|actions| - 1]), actions[|actions| - 1])
  }

  lemma RunMore(svc: Service, actions: seq<Action>, a: Action)
    ensures Run(svc, actions + [a]) == Next(svc, Run(svc, actions), a)
  {
    assert (actions + [a])[..|actions|] == actions;
  }

  lemma RunTwoMore(svc: Service, actions: seq<Action>, a: Action, b: Action)
    ensures Run(svc, actions + [a] + [b]) == Next(svc, Next(svc, Run(svc, actions), a), b)
  {
    RunMore(svc, actions, a);
    RunMore(svc, actions + [a], b);
  }

  /** The clock is between 1970 and 9999 whenever it is read. */
  predicate ClockWorks(a: Action) {
    match a
    case Read(_) => true
    case Create(_, scope) => 0 <= scope.clock.nanos < END_OF_TIME
    case Replace(_, _, scope) => 0 <= scope.clock.nanos < END_OF_TIME
    case Deactivate(_, _, _, _, scope) => 0 <= scope.clock.nanos < END_OF_TIME
    case Import(_, scope) => 0 <= scope.clock.nanos < END_OF_TIME
  }

  // ----- Rows built by requests are valid ---------------------------------------------------

  lemma TextsFixed(t: TextRules, symbology: Name, value: Name, display: Name, source: Name, texts: Texts)
    requires Lawful(t) && NormalizeTexts(t, symbology, value, display, source) == Some(texts)
    ensures NormalizeCode(t, texts.code.symbology, texts.code.value) == Some(texts.code)
    ensures NormalizeDisplay(t, texts.display, texts.code.value) == Some(texts.display)
    ensures NormalizeSource(t, texts.source) == Some(texts.source)
  {
    NormalizeCodeFixed(t, symbology, value, texts.code);
    NormalizeDisplayFixed(t, display, texts.code.value, texts.display);
    NormalizeSourceFixed(t, source, texts.source);
  }

  ghost predicate FixedTexts(t: TextRules, texts: Texts) {
    && NormalizeCode(t, texts.code.symbology, texts.code.value) == Some(texts.code)
    && NormalizeDisplay(t, texts.display, texts.code.value) == Some(texts.display)
    && NormalizeSource(t, texts.source) == Some(texts.source)
  }

  lemma NewRowValid(
      svc: Service, row: Identifier, id: Name, asset: Name, texts: Texts, primary: bool, supersedes: Name, scope: Scope,
      now: Time, replacement: bool)
    requires row == NewRow(svc, id, asset, texts, primary, supersedes, scope, now)
    requires FixedTexts(svc.text, texts) && Portable(now) && (supersedes != NONE ==> svc.text.stable(supersedes))
    requires ValidNew(svc, row, replacement)
    ensures ValidIdentifier(svc, row)
  {
  }

  lemma CreateValid(svc: Service, input: CreateInput, scope: Scope, row: Identifier)
    requires Lawful(svc.text) && 0 <= scope.clock.nanos < END_OF_TIME
    requires BuildCreate(svc, input, scope) == Some(row) && ValidNew(svc, row, false)
    ensures ValidIdentifier(svc, row)
  {
    var texts := NormalizeTexts(svc.text, input.symbology, input.value, input.display, input.source).value;
    TextsFixed(svc.text, input.symbology, input.value, input.display, input.source, texts);
    NormalizePortable(scope.clock);
    NewRowValid(svc, row, row.id, row.asset, texts, input.primary, NONE, scope, row.createdAt, false);
  }

  lemma ReplaceValid(svc: Service, input: ReplaceInput, existing: Identifier, scope: Scope, row: Identifier)
    requires Lawful(svc.text) && 0 <= scope.clock.nanos < END_OF_TIME && Portable(existing.updatedAt)
    requires BuildReplace(svc, input, existing, scope) == Some(row)
    ensures Portable(row.createdAt) && row.primary == existing.primary && row.supersedes == existing.id
    ensures ValidNew(svc, row, true) ==> ValidIdentifier(svc, row)
  {
    var texts := NormalizeTexts(svc.text, input.symbology, input.value, input.display, input.source).value;
    TextsFixed(svc.text, input.symbology, input.value, input.display, input.source, texts);
    NormalizePortable(scope.clock);
    MaxPortable(Normalize(scope.clock), existing.updatedAt);
    if ValidNew(svc, row, true) {
      NewRowValid(svc, row, row.id, row.asset, texts, existing.primary, existing.id, scope, row.createdAt, true);
    }
  }

  // ----- Every reachable state --------------------------------------------------------------

  /** No row disappears or changes whether it is primary, and a row that is still active has not changed. */
  ghost predicate Evolves(before: Store, after: Store) {
    forall k :: k in before ==> k in after && Outlives(before[k], after[k])
  }

  predicate Outlives(before: Identifier, after: Identifier) {
    after.primary == before.primary && (after.status == Active ==> after == before)
  }

  ghost predicate ReadsFit(svc: Service, s: System) {
    forall e :: e in s.seen ==> ValidIdentifier(svc, e) && e.id in s.store && Outlives(e, s.store[e.id])
  }

  ghost predicate Good(svc: Service, s: System) {
    Sound(svc, s.store) && ReadsFit(svc, s)
  }

  lemma ReadKeeps(svc: Service, s: System, id: Name)
    requires Good(svc, s)
    ensures Good(svc, Next(svc, s, Read(id)))
  {
    if id in s.store {
      RowsValid(svc, s.store, id);
    }
  }

  lemma WriteKeeps(svc: Service, s: System, after: Store)
    requires ReadsFit(svc, s) && Sound(svc, after) && Evolves(s.store, after)
    ensures Good(svc, System(after, s.seen))
  {
  }

  lemma CreateStep(svc: Service, s: System, input: CreateInput, scope: Scope)
    requires Good(svc, s) && 0 <= scope.clock.nanos < END_OF_TIME
    ensures Good(svc, System(WriteCreate(svc, s.store, input, scope), s.seen))
  {
    match BuildCreate(svc, input, scope)
    case None =>
    case Some(row) =>
      if ValidNew(svc, row, false) {
        CreateValid(svc, input, scope, row);
      }
      CreateKeeps(svc, s.store, row);
      WriteKeeps(svc, s, CreateRow(svc, s.store, row).store);
  }

  lemma ReplaceEvolves(
      svc: Service, store: Store, asset: Name, id: Name, expected: int, row: Identifier, changedAt: Time)
    ensures Evolves(store, ReplaceRow(svc, store, asset, id, expected, row, changedAt).store)
  {
  }

  lemma DeactivateEvolves(
      svc: Service, store: Store, asset: Name, id: Name, expected: int, at: Time, actor: Name, correlation: Name)
    ensures Evolves(store, DeactivateRow(svc, store, asset, id, expected, at, actor, correlation).store)
  {
  }

  lemma ReplaceStep(svc: Service, s: System, input: ReplaceInput, existing: Identifier, scope: Scope)
    requires Good(svc, s) && existing in s.seen && 0 <= scope.clock.nanos < END_OF_TIME
    ensures Good(svc, System(WriteReplace(svc, s.store, input, existing, scope), s.seen))
  {
    match BuildReplace(svc, input, existing, scope)
    case None =>
    case Some(row) =>
      ReplaceValid(svc, input, existing, scope, row);
      ReplaceKeeps(svc, s.store, row.asset, row.supersedes, input.revision, row, row.createdAt);
      ReplaceEvolves(svc, s.store, row.asset, row.supersedes, input.revision, row, row.createdAt);
      WriteKeeps(svc, s, ReplaceRow(svc, s.store, row.asset, row.supersedes, input.revision, row, row.createdAt).store);
  }

  lemma DeactivateStep(
      svc: Service, s: System, asset: Name, id: Name, revision: int, existing: Identifier, scope: Scope)
    requires Good(svc, s) && existing in s.seen && 0 <= scope.clock.nanos < END_OF_TIME
    ensures Good(svc, System(WriteDeactivate(svc, s.store, asset, id, revision, existing, scope), s.seen))
  {
    NormalizePortable(scope.clock);
    MaxPortable(Normalize(scope.clock), existing.updatedAt);
    var at := Max(Normalize(scope.clock), existing.updatedAt);
    DeactivateKeeps(svc, s.store, asset, id, revision, at, scope.actor, scope.correlation);
    DeactivateEvolves(svc, s.store, asset, id, revision, at, scope.actor, scope.correlation);
    WriteKeeps(svc, s, WriteDeactivate(svc, s.store, asset, id, revision, existing, scope));
  }

  lemma ImportStep(svc: Service, s: System, chain: Chain, assets: set<Name>)
    requires Good(svc, s)
    ensures Good(svc, System(ImportChain(svc, assets, s.store, chain).store, s.seen))
  {
    ImportKeeps(svc, assets, s.store, chain);
    ImportAllOrNothing(svc, assets, s.store, chain);
    WriteKeeps(svc, s, ImportChain(svc, assets, s.store, chain).store);
  }

  lemma NextKeeps(svc: Service, s: System, a: Action)
    requires Good(svc, s) && ClockWorks(a)
    ensures Good(svc, Next(svc, s, a))
  {
    match a
    case Read(id) => ReadKeeps(svc, s, id);
    case Create(input, scope) => CreateStep(svc, s, input, scope);
    case Replace(input, existing, scope) =>
      if existing in s.seen {
        ReplaceStep(svc, s, input, existing, scope);
      }
    case Deactivate(asset, id, revision, existing, scope) =>
      if existing in s.seen {
        DeactivateStep(svc, s, svc.text.clean(asset), svc.text.clean(id), revision, existing, scope);
      }
    case Import(chain, scope) => ImportStep(svc, s, chain, scope.assets);
  }

  lemma EmptyGood(svc: Service)
    requires Lawful(svc.text)
    ensures Good(svc, System(map[], {}))
  {
    assert Partition(Accepts(svc), {}, map[]);
  }

  /**
    Every state reachable by any interleaving of reads, creates, replaces, deactivations and
    imports is a disjoint union of replacement histories without clashing active rows.
   */
  lemma {:induction false} EveryRunSound(svc: Service, actions: seq<Action>)
    requires Lawful(svc.text) && forall i :: 0 <= i < |actions| ==> ClockWorks(actions[i])
    ensures Good(svc, Run(svc, actions))
  {
    if actions == [] {
      EmptyGood(svc);
    } else {
      var front := actions[..|actions| - 1];
      EveryRunSound(svc, front);
      NextKeeps(svc, Run(svc, front), actions[|actions| - 1]);
    }
  }

  /** A sound store exports exactly while none of its histories is longer than ten thousand rows. */
  lemma SoundExports(svc: Service, store: Store, chains: set<Chain>)
    requires Sound(svc, store) && Partition(Accepts(svc), chains, store)
    ensures (exists v: set<Chain> :: ValidPartition(Accepts(svc), v, store)) <==>
            (forall c :: c in chains ==> |c.items| <= 10_000)
  {
    AcceptsNamed(svc);
    if v: set<Chain> :| ValidPartition(Accepts(svc), v, store) {
      PartitionUnique(Accepts(svc), v, chains, store);
    }
    if forall c :: c in chains ==> |c.items| <= MAXIMUM_CHAIN {
      assert ValidPartition(Accepts(svc), chains, store);
    }
  }

  /** Export from any reachable state, then import into an empty store, loses nothing. */
  lemma ReachableRoundTrip(svc: Service, actions: seq<Action>, chains: seq<Chain>, assets: set<Name>)
    requires Lawful(svc.text) && forall i :: 0 <= i < |actions| ==> ClockWorks(actions[i])
    requires ValidPartition(Accepts(svc), Elements(chains), Run(svc, actions).store)
    requires Distinct(chains) && AssetsKnown(chains, assets)
    ensures ImportAll(svc, assets, map[], chains) == Some(Run(svc, actions).store)
  {
    EveryRunSound(svc, actions);
    ReimportReproduces(svc, assets, Run(svc, actions).store, chains);
  }
}
