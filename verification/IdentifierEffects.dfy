/**
  What identifier requests do, in terms of their own fields: when a create, a replacement and a
  deactivation go through in a reachable state, and exactly which rows they leave.
 */
module IdentifierEffects {
  import opened Text
  import opened Ordering
  import opened Clock
  import opened Identifiers
  import opened ChainExport
  import opened IdentifierStore
  import opened IdentifierImport
  import opened IdentifierRuns

  // ----- The texts of a request -------------------------------------------------------------

  /** The display text of a request; its value when it has none. */
  function ShownText(t: TextRules, display: Name, value: Name): Name {
    if t.clean(display) == NONE then t.clean(value) else t.clean(display)
  }

  function SourceText(t: TextRules, source: Name): Name {
    if t.lower(source) == NONE then Name("user_entered") else t.lower(source)
  }

  predicate TextsAccepted(t: TextRules, symbology: Name, value: Name, display: Name, source: Name) {
    && t.codeFits(Code(t.lower(symbology), t.clean(value)))
    && !(t.lower(symbology) == Name("qr") && t.isRoute(t.clean(value)))
    && t.displayFits(ShownText(t, display, value))
    && SourceText(t, source) in {Name("imported"), Name("user_entered"), Name("generated")}
  }

  lemma TextsExactly(t: TextRules, symbology: Name, value: Name, display: Name, source: Name)
    ensures NormalizeTexts(t, symbology, value, display, source)
         == if TextsAccepted(t, symbology, value, display, source)
            then Some(Texts(Code(t.lower(symbology), t.clean(value)), ShownText(t, display, value),
                            SourceText(t, source)))
            else None
  {
  }

  /** A new active row with the fields of a request. */
  function RequestedRow(
      svc: Service, id: Name, asset: Name, symbology: Name, value: Name, display: Name, source: Name, primary: bool,
      supersedes: Name, scope: Scope, at: Time): Identifier
  {
    Identifier(
      id := id, organization := svc.organization, asset := asset,
      symbology := svc.text.lower(symbology), value := svc.text.clean(value),
      display := ShownText(svc.text, display, value), source := SourceText(svc.text, source), primary := primary,
      status := Active, supersedes := supersedes, replacedBy := Name(""), revision := 1,
      createdBy := scope.actor, createdCorrelation := scope.correlation, createdAt := at,
      updatedBy := scope.actor, updatedCorrelation := scope.correlation, updatedAt := at, deactivatedAt := None)
  }

  /** Who acts and in which request are well formed. */
  predicate Attributed(t: TextRules, scope: Scope) {
    && scope.actor != NONE && t.clean(scope.actor) == scope.actor && t.shortActor(scope.actor)
    && t.stable(scope.correlation)
  }

  /** No other active row has the row's code, nor is one the other primary of its asset. */
  ghost predicate Unopposed(store: Store, row: Identifier, except: set<Name>) {
    forall k :: k in store && k !in except && store[k].status == Active ==>
      && !(store[k].symbology == row.symbology && store[k].value == row.value)
      && !(store[k].primary && row.primary && store[k].asset == row.asset)
  }

  lemma UnopposedExactly(store: Store, row: Identifier, except: Option<Name>)
    ensures Unopposed(store, row, if except.Some? then {except.value} else {}) <==> !ActiveConflict(store, row, except)
  {
  }

  lemma NewExactly(svc: Service, row: Identifier, texts: Texts, scope: Scope, at: Time, replacement: bool)
    requires Lawful(svc.text) && FixedTexts(svc.text, texts) && Portable(at)
    requires row == NewRow(svc, row.id, row.asset, texts, row.primary, row.supersedes, scope, at)
    requires if replacement then svc.text.stable(row.supersedes) else row.supersedes == NONE
    ensures ValidNew(svc, row, replacement) <==>
              && svc.text.clean(svc.organization) != NONE && svc.text.stable(row.id) && svc.text.stable(row.asset)
              && Attributed(svc.text, scope) && (replacement ==> row.supersedes != row.id)
  {
  }

  // ----- Create -----------------------------------------------------------------------------

  predicate CreateAccepted(svc: Service, input: CreateInput, scope: Scope) {
    var t := svc.text;
    && (t.clean(input.id) == NONE || t.stable(t.clean(input.id)))
    && t.stable(t.clean(input.asset)) && t.clean(input.asset) in scope.assets
    && TextsAccepted(t, input.symbology, input.value, input.display, input.source)
    && t.clean(svc.organization) != NONE && Attributed(t, scope)
  }

  function CreatedName(t: TextRules, input: CreateInput, scope: Scope): Name {
    if t.clean(input.id) == NONE then scope.freshId else t.clean(input.id)
  }

  function CreatedRow(svc: Service, input: CreateInput, scope: Scope): Identifier {
    RequestedRow(svc, CreatedName(svc.text, input, scope), svc.text.clean(input.asset), input.symbology, input.value,
                 input.display, input.source, input.primary, Name(""), scope, Normalize(scope.clock))
  }

  lemma CreateBuilt(svc: Service, input: CreateInput, scope: Scope)
    requires Lawful(svc.text) && 0 <= scope.clock.nanos < END_OF_TIME
    ensures var built, row := BuildCreate(svc, input, scope), CreatedRow(svc, input, scope);
            && (built.Some? ==> built.value == row)
            && (built.Some? && ValidNew(svc, row, false) <==>
                  CreateAccepted(svc, input, scope) && svc.text.stable(row.id))
  {
    var t, row := svc.text, CreatedRow(svc, input, scope);
    TextsExactly(t, input.symbology, input.value, input.display, input.source);
    NormalizePortable(scope.clock);
    if BuildCreate(svc, input, scope).Some? {
      var texts := NormalizeTexts(t, input.symbology, input.value, input.display, input.source).value;
      TextsFixed(t, input.symbology, input.value, input.display, input.source, texts);
      NewExactly(svc, row, texts, scope, Normalize(scope.clock), false);
    }
  }

  /**
    A create request adds exactly the row it asks for, if it is acceptable, its name is new and no active
    row opposes it; otherwise it changes nothing.
   */
  lemma CreateExactly(svc: Service, s: System, input: CreateInput, scope: Scope)
    requires Lawful(svc.text) && 0 <= scope.clock.nanos < END_OF_TIME
    ensures var row := CreatedRow(svc, input, scope);
            Next(svc, s, Create(input, scope)) ==
            if && CreateAccepted(svc, input, scope) && svc.text.stable(row.id)
               && row.id !in s.store && Unopposed(s.store, row, {})
            then System(s.store[row.id := row], s.seen) else s
  {
    CreateBuilt(svc, input, scope);
    UnopposedExactly(s.store, CreatedRow(svc, input, scope), None);
  }

  // ----- Replace ----------------------------------------------------------------------------

  predicate ReplaceAccepted(svc: Service, input: ReplaceInput, existing: Identifier, scope: Scope) {
    var t := svc.text;
    && t.stable(t.clean(input.asset)) && t.clean(input.asset) in scope.assets && t.clean(input.asset) == existing.asset
    && t.stable(t.clean(input.id)) && t.clean(input.id) == existing.id
    && (t.clean(input.replacement) == NONE || t.stable(t.clean(input.replacement)))
    && TextsAccepted(t, input.symbology, input.value, input.display, input.source)
    && t.clean(svc.organization) != NONE && Attributed(t, scope)
  }

  function SuccessorRow(svc: Service, input: ReplaceInput, existing: Identifier, scope: Scope): Identifier {
    var asked := svc.text.clean(input.replacement);
    RequestedRow(svc, if asked == NONE then scope.freshId else asked, svc.text.clean(input.asset),
                 input.symbology, input.value, input.display, input.source, existing.primary, existing.id, scope,
                 Max(scope.clock, existing.updatedAt))
  }

  /** The row as it stays behind once its successor has taken over. */
  function ReplacedRow(existing: Identifier, next: Name, scope: Scope, at: Time): Identifier {
    existing.(status := Replaced, replacedBy := next, revision := 2, updatedBy := scope.actor,
              updatedCorrelation := scope.correlation, updatedAt := at, deactivatedAt := Some(at))
  }

  lemma LaterNormalized(clock: Time, other: Time)
    ensures Max(Normalize(clock), other) == Max(clock, other)
  {
  }

  lemma ReplaceBuilt(svc: Service, input: ReplaceInput, existing: Identifier, scope: Scope)
    requires Lawful(svc.text) && 0 <= scope.clock.nanos < END_OF_TIME
    requires ValidIdentifier(svc, existing) && existing.status == Active
    ensures var built, row := BuildReplace(svc, input, existing, scope), SuccessorRow(svc, input, existing, scope);
            && (built.Some? ==> built.value == row && row.asset == existing.asset && Portable(row.createdAt))
            && (built.Some? && ValidNew(svc, row, true) <==>
                  && ReplaceAccepted(svc, input, existing, scope) && input.revision >= 1
                  && svc.text.stable(row.id) && row.id != existing.id)
  {
    var t, row := svc.text, SuccessorRow(svc, input, existing, scope);
    TextsExactly(t, input.symbology, input.value, input.display, input.source);
    NormalizePortable(scope.clock);
    LaterNormalized(scope.clock, existing.updatedAt);
    MaxPortable(Normalize(scope.clock), existing.updatedAt);
    if BuildReplace(svc, input, existing, scope).Some? {
      var texts := NormalizeTexts(t, input.symbology, input.value, input.display, input.source).value;
      TextsFixed(t, input.symbology, input.value, input.display, input.source, texts);
      NewExactly(svc, row, texts, scope, row.createdAt, true);
    }
  }

  lemma InactiveStays(svc: Service, store: Store, asset: Name, id: Name, expected: int, row: Identifier, at: Time)
    requires id in store && store[id].status != Active
    ensures ReplaceRow(svc, store, asset, id, expected, row, at).store == store
  {
  }

  /** The store's part, for the successor of an active row at revision 1. */
  lemma ReplaceStored(svc: Service, store: Store, existing: Identifier, expected: int, row: Identifier, at: Time)
    requires Lawful(svc.text) && svc.text.stable(existing.id) && svc.text.stable(existing.asset) && Portable(at)
    requires existing.id in store && store[existing.id] == existing
    requires existing.status == Active && existing.revision == 1
    requires row.organization == svc.organization && row.asset == existing.asset && row.supersedes == existing.id
    requires !Earlier(at, existing.updatedAt)
    ensures ReplaceRow(svc, store, row.asset, row.supersedes, expected, row, at).store ==
            if && ValidNew(svc, row, true) && expected == 1 && row.id !in store
               && !ActiveConflict(store, row, Some(existing.id))
            then store[existing.id := Superseded(existing, row, at)][row.id := row] else store
  {
  }

  lemma ReplaceActive(svc: Service, store: Store, input: ReplaceInput, existing: Identifier, scope: Scope)
    requires Lawful(svc.text) && 0 <= scope.clock.nanos < END_OF_TIME && ValidIdentifier(svc, existing)
    requires existing.id in store && store[existing.id] == existing && existing.status == Active
    ensures var row := SuccessorRow(svc, input, existing, scope);
            WriteReplace(svc, store, input, existing, scope) ==
            if && ReplaceAccepted(svc, input, existing, scope) && input.revision == 1
               && svc.text.stable(row.id) && row.id !in store && Unopposed(store, row, {existing.id})
            then store[existing.id := ReplacedRow(existing, row.id, scope, row.createdAt)][row.id := row] else store
  {
    var row := SuccessorRow(svc, input, existing, scope);
    ReplaceBuilt(svc, input, existing, scope);
    UnopposedExactly(store, row, Some(existing.id));
    if BuildReplace(svc, input, existing, scope).Some? {
      ReplaceStored(svc, store, existing, input.revision, row, row.createdAt);
      assert Superseded(existing, row, row.createdAt) == ReplacedRow(existing, row.id, scope, row.createdAt);
    }
  }

  /**
    In a reachable state, a replacement of a row that was read adds exactly the successor it asks for and
    leaves the row replaced, at revision 2 and dated by the later of the clock and the row, if it is acceptable,
    names revision 1 of a row still active, the new name is not there and no other active row opposes the
    successor; otherwise it changes nothing.
   */
  lemma ReplaceExactly(svc: Service, s: System, input: ReplaceInput, existing: Identifier, scope: Scope)
    requires Good(svc, s) && existing in s.seen && 0 <= scope.clock.nanos < END_OF_TIME
    ensures var row := SuccessorRow(svc, input, existing, scope);
            Next(svc, s, Replace(input, existing, scope)) ==
            if && existing.id in s.store && s.store[existing.id].status == Active
               && ReplaceAccepted(svc, input, existing, scope) && input.revision == 1
               && svc.text.stable(row.id) && row.id !in s.store && Unopposed(s.store, row, {existing.id})
            then
              var replaced := ReplacedRow(existing, row.id, scope, row.createdAt);
              System(s.store[existing.id := replaced][row.id := row], s.seen)
            else s
  {
    ReadFits(svc, s, existing);
    if s.store[existing.id].status == Active {
      ReplaceActive(svc, s.store, input, existing, scope);
    } else if BuildReplace(svc, input, existing, scope).Some? {
      var row := BuildReplace(svc, input, existing, scope).value;
      InactiveStays(svc, s.store, row.asset, existing.id, input.revision, row, row.createdAt);
    }
  }

  lemma ReadFits(svc: Service, s: System, existing: Identifier)
    requires Good(svc, s) && existing in s.seen
    ensures Lawful(svc.text) && ValidIdentifier(svc, existing) && existing.id in s.store
    ensures s.store[existing.id].status == Active ==> s.store[existing.id] == existing
  {
  }

  // ----- Deactivate -------------------------------------------------------------------------

  predicate DeactivateAccepted(svc: Service, asset: Name, id: Name, existing: Identifier, scope: Scope) {
    var t := svc.text;
    && t.stable(t.clean(asset)) && t.clean(asset) in scope.assets && t.clean(asset) == existing.asset
    && t.stable(t.clean(id)) && t.clean(id) == existing.id && Attributed(t, scope)
  }

  /** The row once it has been deactivated. */
  function DeactivatedRow(existing: Identifier, scope: Scope): Identifier {
    var at := Max(scope.clock, existing.updatedAt);
    existing.(status := Deactivated, revision := 2, updatedBy := scope.actor, updatedCorrelation := scope.correlation,
              updatedAt := at, deactivatedAt := Some(at))
  }

  lemma DeactivateActive(
      svc: Service, store: Store, asset: Name, id: Name, revision: int, existing: Identifier, scope: Scope)
    requires Lawful(svc.text) && 0 <= scope.clock.nanos < END_OF_TIME && ValidIdentifier(svc, existing)
    requires existing.id in store && store[existing.id] == existing && existing.status == Active
    ensures WriteDeactivate(svc, store, svc.text.clean(asset), svc.text.clean(id), revision, existing, scope) ==
            if DeactivateAccepted(svc, asset, id, existing, scope) && revision == 1
            then store[existing.id := DeactivatedRow(existing, scope)] else store
  {
    NormalizePortable(scope.clock);
    LaterNormalized(scope.clock, existing.updatedAt);
    MaxPortable(Normalize(scope.clock), existing.updatedAt);
  }

  /**
    In a reachable state, a deactivation of a row that was read leaves it deactivated, at revision 2 and dated
    by the later of the clock and the row, if it is acceptable and names revision 1 of a row still active;
    otherwise it changes nothing.
   */
  lemma DeactivateExactly(
      svc: Service, s: System, asset: Name, id: Name, revision: int, existing: Identifier, scope: Scope)
    requires Good(svc, s) && existing in s.seen && 0 <= scope.clock.nanos < END_OF_TIME
    ensures Next(svc, s, Deactivate(asset, id, revision, existing, scope)) ==
            if && existing.id in s.store && s.store[existing.id].status == Active
               && DeactivateAccepted(svc, asset, id, existing, scope) && revision == 1
            then System(s.store[existing.id := DeactivatedRow(existing, scope)], s.seen) else s
  {
    ReadFits(svc, s, existing);
    if s.store[existing.id].status == Active {
      DeactivateActive(svc, s.store, asset, id, revision, existing, scope);
    }
  }

  // ----- Whether a row operation is applied -------------------------------------------------

  /** A deactivation is applied exactly to an active row of the asset, at the expected revision and not later. */
  lemma DeactivateApplied(
      svc: Service, store: Store, asset: Name, id: Name, expected: int, at: Time, actor: Name, correlation: Name)
    ensures DeactivateRow(svc, store, asset, id, expected, at, actor, correlation).outcome.Applied? <==>
              && svc.text.clean(asset) != NONE && svc.text.clean(id) != NONE && expected >= 1 && !IsZero(at)
              && ValidProvenance(svc.text, actor, correlation)
              && id in store && store[id].asset == asset && store[id].status == Active
              && store[id].revision == expected && store[id].updatedAt.nanos <= at.nanos
  {
  }

  lemma CreateApplied(svc: Service, store: Store, item: Identifier)
    ensures CreateRow(svc, store, item).outcome.Applied? <==>
              ValidNew(svc, item, false) && item.id !in store && Unopposed(store, item, {})
  {
    UnopposedExactly(store, item, None);
  }

  lemma ReplaceApplied(svc: Service, store: Store, asset: Name, id: Name, expected: int, next: Identifier, at: Time)
    ensures ReplaceRow(svc, store, asset, id, expected, next, at).outcome.Applied? <==>
              && svc.text.clean(asset) != NONE && svc.text.clean(id) != NONE && expected >= 1 && !IsZero(at)
              && ValidNew(svc, next, true) && next.organization == svc.organization
              && next.asset == asset && next.supersedes == id && next.id !in store
              && id in store && store[id].asset == asset && store[id].status == Active
              && store[id].revision == expected && store[id].updatedAt.nanos <= at.nanos
              && Unopposed(store, next, {id})
  {
    UnopposedExactly(store, next, Some(id));
  }

  // ----- Import -----------------------------------------------------------------------------

  /** A chain is imported exactly when it is valid, its asset known, all its names new and no active row opposes it. */
  lemma ImportExactly(svc: Service, assets: set<Name>, store: Store, chain: Chain)
    ensures var items := Adopted(svc, chain.items);
            ImportChain(svc, assets, store, chain).outcome.Created? <==>
              && Importable(svc, chain) && chain.items[0].asset in assets
              && (forall i :: 0 <= i < |items| ==> items[i].id !in store)
              && (forall i :: 0 <= i < |items| && items[i].status == Active ==> Unopposed(store, items[i], {}))
  {
    var items, valid := Adopted(svc, chain.items), Importable(svc, chain);
    ItemsExactly(valid, valid && items[0].asset in assets, store, items);
    NoConflictExactly(store, items);
  }

  lemma ItemsExactly(valid: bool, known: bool, store: Store, items: seq<Identifier>)
    requires valid ==> items != []
    ensures ImportItems(valid, known, store, items).outcome.Created? <==>
              valid && known && (forall i :: 0 <= i < |items| ==> items[i].id !in store) && !SomeConflict(store, items)
  {
    if items != [] && forall i :: 0 <= i < |items| ==> items[i].id !in store {
      assert !Held(store, items[0]);
    }
  }

  lemma NoConflictExactly(store: Store, items: seq<Identifier>)
    ensures !SomeConflict(store, items) <==>
              forall i :: 0 <= i < |items| && items[i].status == Active ==> Unopposed(store, items[i], {})
  {
    forall i | 0 <= i < |items| ensures Unopposed(store, items[i], {}) <==> !ActiveConflict(store, items[i], None) {
      UnopposedExactly(store, items[i], None);
    }
  }

  // ----- Codes and primaries ----------------------------------------------------------------

  /** In every reachable store no two active rows have one code, and no asset has two active primaries. */
  lemma ReachableUnique(svc: Service, actions: seq<Action>, j: Name, k: Name)
    requires Lawful(svc.text) && forall i :: 0 <= i < |actions| ==> ClockWorks(actions[i])
    requires j in Run(svc, actions).store && Run(svc, actions).store[j].status == Active
    requires k in Run(svc, actions).store && Run(svc, actions).store[k].status == Active && j != k
    ensures var a, b := Run(svc, actions).store[j], Run(svc, actions).store[k];
            && !(a.symbology == b.symbology && a.value == b.value)
            && !(a.asset == b.asset && a.primary && b.primary)
  {
    EveryRunSound(svc, actions);
  }

  // ----- Read, then write -------------------------------------------------------------------

  ghost predicate Reached(svc: Service, actions: seq<Action>) {
    Lawful(svc.text) && forall i :: 0 <= i < |actions| ==> ClockWorks(actions[i])
  }

  lemma AfterRead(svc: Service, actions: seq<Action>, id: Name, s: System)
    requires Reached(svc, actions) && s == Run(svc, actions) && id in s.store
    ensures Good(svc, System(s.store, s.seen + {s.store[id]}))
    ensures s.store[id].id == id && ValidIdentifier(svc, s.store[id])
  {
    EveryRunSound(svc, actions);
    ReadKeeps(svc, s, id);
    RowsValid(svc, s.store, id);
  }

  /** Every active row of a reachable store, primary or not, can be read and then deactivated. */
  lemma ReadThenDeactivated(svc: Service, actions: seq<Action>, s: System, id: Name, row: Identifier, scope: Scope)
    requires Reached(svc, actions) && s == Run(svc, actions) && 0 <= scope.clock.nanos < END_OF_TIME
    requires id in s.store && row == s.store[id] && row.status == Active
    requires row.asset in scope.assets && Attributed(svc.text, scope)
    ensures Run(svc, actions + [Read(id)] + [Deactivate(row.asset, id, row.revision, row, scope)]).store
         == s.store[id := DeactivatedRow(row, scope)]
  {
    RunTwoMore(svc, actions, Read(id), Deactivate(row.asset, id, row.revision, row, scope));
    AfterRead(svc, actions, id, s);
    DeactivateExactly(svc, System(s.store, s.seen + {row}), row.asset, id, row.revision, row, scope);
  }

  /** So can it be replaced, by a row with an acceptable code that no other active row opposes. */
  lemma ReadThenReplaced(
      svc: Service, actions: seq<Action>, s: System, input: ReplaceInput, id: Name, row: Identifier, scope: Scope,
      next: Identifier)
    requires Reached(svc, actions) && s == Run(svc, actions) && 0 <= scope.clock.nanos < END_OF_TIME
    requires id in s.store && row == s.store[id] && row.status == Active && input.revision == row.revision
    requires ReplaceAccepted(svc, input, row, scope) && next == SuccessorRow(svc, input, row, scope)
    requires svc.text.stable(next.id) && next.id !in s.store && Unopposed(s.store, next, {id})
    ensures Run(svc, actions + [Read(id)] + [Replace(input, row, scope)]).store
         == s.store[id := ReplacedRow(row, next.id, scope, next.createdAt)][next.id := next]
  {
    RunTwoMore(svc, actions, Read(id), Replace(input, row, scope));
    AfterRead(svc, actions, id, s);
    ReplaceExactly(svc, System(s.store, s.seen + {row}), input, row, scope);
  }
}
