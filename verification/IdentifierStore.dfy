/**
  The identifier store of one organization: the atomic row operations behind create, replace,
  deactivate and chain import, and what each keeps.
 */
module IdentifierStore {
  import opened Text
  import opened Ordering
  import opened Clock
  import opened Identifiers
  import opened ChainExport

  // ----- Row checks -------------------------------------------------------------------------

  /** The zero instant, the first of the year 1. */
  const ZERO_NANOS: int := -62_135_596_800_000_000_000

  predicate IsZero(t: Time) {
    t.nanos == ZERO_NANOS
  }

  predicate ValidProvenance(t: TextRules, actor: Name, correlation: Name) {
    ValidActor(t, actor) && t.stable(correlation)
  }

  /** What the store demands of a row it is to add. */
  predicate ValidNew(svc: Service, item: Identifier, replacement: bool) {
    && svc.text.clean(item.organization) != NONE && svc.text.stable(item.id) && svc.text.stable(item.asset)
    && svc.text.clean(item.value) == item.value && svc.text.codeFits(Code(item.symbology, item.value))
    && svc.text.clean(item.display) == item.display && svc.text.displayFits(item.display)
    && svc.text.clean(item.createdBy) != NONE && svc.text.shortActor(item.createdBy)
    && ValidProvenance(svc.text, item.updatedBy, item.updatedCorrelation) && svc.text.stable(item.createdCorrelation)
    && item.createdBy == item.updatedBy && item.createdCorrelation == item.updatedCorrelation
    && item.revision == 1 && item.status == Active
    && !IsZero(item.createdAt) && !IsZero(item.updatedAt) && !Earlier(item.updatedAt, item.createdAt)
    && item.deactivatedAt == None && item.replacedBy == NONE
    && KnownSource(item.source)
    && (if replacement then svc.text.clean(item.supersedes) != NONE && item.supersedes != item.id
        else item.supersedes == NONE)
  }

  /** Two rows that may not both be active: the same code, or two primaries of one asset. */
  predicate Clash(a: Identifier, b: Identifier) {
    || (a.symbology == b.symbology && a.value == b.value)
    || (a.primary && b.primary && a.asset == b.asset)
  }

  ghost predicate ActiveConflict(store: Store, candidate: Identifier, excluding: Option<Name>) {
    exists k :: k in store && Some(k) != excluding && store[k].status == Active && Clash(store[k], candidate)
  }

  predicate SameIntent(a: Identifier, b: Identifier) {
    && a.id == b.id && a.organization == b.organization && a.asset == b.asset
    && a.symbology == b.symbology && a.value == b.value && a.display == b.display
    && a.source == b.source && a.primary == b.primary && a.status == b.status && a.supersedes == b.supersedes
  }

  // ----- Row operations ---------------------------------------------------------------------

  datatype Outcome = Applied(item: Identifier) | Retried(item: Identifier) | Rejected

  datatype Reply = Reply(store: Store, outcome: Outcome)

  ghost function CreateRow(svc: Service, store: Store, item: Identifier): Reply {
    if !ValidNew(svc, item, false) then Reply(store, Rejected)
    else if item.id in store then
      Reply(store, if SameIntent(store[item.id], item) then Retried(store[item.id]) else Rejected)
    else if ActiveConflict(store, item, None) then Reply(store, Rejected)
    else Reply(store[item.id := item], Applied(item))
  }

  /** The row as it is once its successor has taken over. */
  function Superseded(previous: Identifier, replacement: Identifier, changedAt: Time): Identifier {
    previous.(status := Replaced, replacedBy := replacement.id, revision := previous.revision + 1,
              updatedAt := changedAt, updatedBy := replacement.createdBy,
              updatedCorrelation := replacement.createdCorrelation, deactivatedAt := Some(changedAt))
  }

  ghost function ReplaceRow(
      svc: Service, store: Store, asset: Name, id: Name, expected: int, replacement: Identifier, changedAt: Time): Reply
  {
    if || svc.text.clean(asset) == NONE || svc.text.clean(id) == NONE || expected < 1 || IsZero(changedAt)
       || replacement.organization != svc.organization || replacement.asset != asset
       || replacement.supersedes != id || !ValidNew(svc, replacement, true)
    then Reply(store, Rejected)
    else if id !in store || store[id].asset != asset then Reply(store, Rejected)
    else
      var previous := store[id];
      if previous.status == Replaced then
        if || previous.revision <= 1 || expected != previous.revision - 1 || previous.replacedBy != replacement.id
           || replacement.id !in store || store[replacement.id].asset != asset
           || !SameIntent(store[replacement.id], replacement)
        then Reply(store, Rejected)
        else Reply(store, Retried(store[replacement.id]))
      else if previous.status != Active || previous.revision != expected then Reply(store, Rejected)
      else if Earlier(changedAt, previous.updatedAt) then Reply(store, Rejected)
      else if replacement.id in store || ActiveConflict(store, replacement, Some(id)) then Reply(store, Rejected)
      else
        Reply(store[id := Superseded(previous, replacement, changedAt)][replacement.id := replacement],
              Applied(replacement))
  }

  function Closed(t: TextRules, item: Identifier, at: Time, actor: Name, correlation: Name): Identifier {
    item.(status := Deactivated, revision := item.revision + 1, updatedAt := at,
          updatedBy := t.clean(actor), updatedCorrelation := t.clean(correlation), deactivatedAt := Some(at))
  }

  ghost function DeactivateRow(
      svc: Service, store: Store, asset: Name, id: Name, expected: int, at: Time, actor: Name, correlation: Name): Reply
  {
    if || svc.text.clean(asset) == NONE || svc.text.clean(id) == NONE || expected < 1 || IsZero(at)
       || !ValidProvenance(svc.text, actor, correlation)
    then Reply(store, Rejected)
    else if id !in store || store[id].asset != asset then Reply(store, Rejected)
    else
      var item := store[id];
      if item.status == Deactivated then
        if item.revision <= 1 || expected != item.revision - 1 then Reply(store, Rejected)
        else Reply(store, Retried(item))
      else if item.status != Active || item.revision != expected then Reply(store, Rejected)
      else if Earlier(at, item.updatedAt) then Reply(store, Rejected)
      else
        var closed := Closed(svc.text, item, at, actor, correlation);
        Reply(store[id := closed], Applied(closed))
  }

  // ----- Partitions grow and change in place ------------------------------------------------

  /** The stores agree on every name outside the given set. */
  ghost predicate AgreeOutside(a: Store, b: Store, names: set<Name>) {
    forall k :: k in a && k !in names ==> k in b && b[k] == a[k]
  }

  /** One chain of a partition gives way to one that covers its names and some new ones. */
  ghost predicate Exchanges(chains: set<Chain>, store: Store, gone: set<Chain>, c: Chain, grown: Store) {
    && gone <= chains
    && Within(c.items, grown)
    && AgreeOutside(store, grown, Ids(c.items))
    && grown.Keys == store.Keys + Ids(c.items)
    && (forall d :: d in gone ==> Ids(d.items) <= Ids(c.items))
    && (forall d :: d in chains - gone ==> Ids(d.items) !! Ids(c.items))
  }

  lemma WithinAgrees(items: seq<Identifier>, store: Store, grown: Store, names: set<Name>)
    requires Within(items, store) && AgreeOutside(store, grown, names) && Ids(items) !! names
    ensures Within(items, grown)
  {
    forall i | 0 <= i < |items| ensures Held(grown, items[i]) {
      assert Held(store, items[i]) && items[i].id in Ids(items);
    }
  }

  lemma CoversExchange(chains: set<Chain>, store: Store, gone: set<Chain>, c: Chain, grown: Store)
    requires Covers(chains, store) && Exchanges(chains, store, gone, c, grown)
    ensures Covers(chains - gone + {c}, grown)
  {
    forall k | k in grown ensures InSome(chains - gone + {c}, k) {
      if k in Ids(c.items) {
        assert c in chains - gone + {c};
      } else {
        assert InSome(chains, k);
        var d :| d in chains && k in Ids(d.items);
        assert d !in gone;
        assert d in chains - gone + {c};
      }
    }
  }

  lemma LineagesExchange(
      ok: Identifier -> bool, chains: set<Chain>, store: Store, gone: set<Chain>, c: Chain, grown: Store)
    requires AllLineages(ok, chains, store) && Lineage(ok, c) && Exchanges(chains, store, gone, c, grown)
    ensures AllLineages(ok, chains - gone + {c}, grown)
  {
    forall d | d in chains - gone ensures Within(d.items, grown) {
      WithinAgrees(d.items, store, grown, Ids(c.items));
    }
  }

  lemma DisjointExchange(chains: set<Chain>, gone: set<Chain>, c: Chain)
    requires Disjoint(chains) && forall d :: d in chains - gone ==> Ids(d.items) !! Ids(c.items)
    ensures Disjoint(chains - gone + {c})
  {
  }

  lemma PartitionExchange(
      ok: Identifier -> bool, chains: set<Chain>, store: Store, gone: set<Chain>, c: Chain, grown: Store)
    requires Partition(ok, chains, store) && Lineage(ok, c) && Exchanges(chains, store, gone, c, grown)
    ensures Partition(ok, chains - gone + {c}, grown)
  {
    CoversExchange(chains, store, gone, c, grown);
    LineagesExchange(ok, chains, store, gone, c, grown);
    DisjointExchange(chains, gone, c);
  }

  // ----- What a store keeps -----------------------------------------------------------------

  ghost predicate IsPartitioned(ok: Identifier -> bool, store: Store) {
    exists chains: set<Chain> :: Partition(ok, chains, store)
  }

  /** No two active rows clash. */
  ghost predicate ActiveUnique(store: Store) {
    forall j, k :: j in store && k in store && j != k && store[j].status == Active && store[k].status == Active ==>
                     !Clash(store[j], store[k])
  }

  /** A disjoint union of replacement histories, with no clash among the active rows. */
  ghost predicate Sound(svc: Service, store: Store) {
    Lawful(svc.text) && WellKeyed(store) && IsPartitioned(Accepts(svc), store) && ActiveUnique(store)
  }

  lemma ActiveUniqueAdd(store: Store, item: Identifier, excluding: Option<Name>, grown: Store)
    requires ActiveUnique(store) && !ActiveConflict(store, item, excluding)
    requires item.id !in store
    requires grown.Keys == store.Keys + {item.id} && grown[item.id] == item
    requires forall k :: k in store ==> grown[k] == store[k] || grown[k].status != Active
    requires excluding.Some? && excluding.value in store ==> grown[excluding.value].status != Active
    ensures ActiveUnique(grown)
  {
  }

  lemma ActiveUniqueFewer(store: Store, changed: Store)
    requires ActiveUnique(store) && changed.Keys == store.Keys
    requires forall k :: k in store ==> changed[k] == store[k] || changed[k].status != Active
    ensures ActiveUnique(changed)
  {
  }

  lemma SingleLineage(ok: Identifier -> bool, item: Identifier)
    requires ok(item) && item.supersedes == NONE && item.replacedBy == NONE && item.status != Replaced
    ensures Lineage(ok, Chain(item.id, [item])) && Ids([item]) == {item.id}
  {
    assert [item][0] == item;
  }

  /** The store with a chain of new names added to it. */
  ghost predicate Adds(store: Store, items: seq<Identifier>, grown: Store) {
    && Ids(items) !! store.Keys && Within(items, grown)
    && AgreeOutside(store, grown, {}) && grown.Keys == store.Keys + Ids(items)
  }

  lemma AddsExchange(ok: Identifier -> bool, chains: set<Chain>, store: Store, c: Chain, grown: Store)
    requires AllLineages(ok, chains, store) && Adds(store, c.items, grown)
    ensures Exchanges(chains, store, {}, c, grown)
  {
    forall d | d in chains - {} ensures Ids(d.items) !! Ids(c.items) {
      IdsWithin(d.items, store);
    }
  }

  /** Adding a whole history of new names keeps the union of histories. */
  lemma AddPartitioned(ok: Identifier -> bool, store: Store, c: Chain, grown: Store)
    requires IsPartitioned(ok, store) && Lineage(ok, c) && Adds(store, c.items, grown)
    ensures IsPartitioned(ok, grown)
  {
    var chains: set<Chain> :| Partition(ok, chains, store);
    AddsExchange(ok, chains, store, c, grown);
    PartitionExchange(ok, chains, store, {}, c, grown);
  }

  lemma AddsOne(store: Store, item: Identifier)
    requires item.id !in store
    ensures Adds(store, [item], store[item.id := item])
  {
    assert [item][0] == item;
    assert Ids([item]) == {item.id};
  }

  lemma LastIs(ok: Identifier -> bool, c: Chain, store: Store, t: Identifier)
    requires Lineage(ok, c) && Within(c.items, store) && Held(store, t) && c.terminal == t.id
    ensures c.items[|c.items| - 1] == t
  {
    assert Held(store, c.items[|c.items| - 1]);
  }

  /** The chain whose last row is the given one. */
  lemma ChainEndingIn(ok: Identifier -> bool, chains: set<Chain>, store: Store, t: Identifier) returns (c: Chain)
    requires Named(ok) && Partition(ok, chains, store) && Held(store, t) && t.replacedBy == NONE
    ensures c in chains && c.terminal == t.id && Lineage(ok, c) && Within(c.items, store)
  {
    assert InSome(chains, t.id);
    c :| c in chains && t.id in Ids(c.items);
    TerminalIsLast(ok, c, store, t);
  }

  /** Changing the last row, but not its name, asset or origin, keeps a lineage. */
  predicate SameOrigin(a: Identifier, b: Identifier) {
    && a.id == b.id && a.asset == b.asset && a.supersedes == b.supersedes && a.primary == b.primary
    && a.createdAt == b.createdAt && a.createdBy == b.createdBy && a.createdCorrelation == b.createdCorrelation
  }

  lemma LastChanged(ok: Identifier -> bool, c: Chain, last: Identifier, changed: Chain)
    requires Lineage(ok, c) && SameOrigin(c.items[|c.items| - 1], last) && ok(last)
    requires last.replacedBy == NONE && last.status != Replaced
    requires changed == Chain(c.terminal, c.items[..|c.items| - 1] + [last])
    ensures Lineage(ok, changed) && Ids(changed.items) == Ids(c.items)
  {
    var n := |c.items| - 1;
    forall i | 0 <= i <= n ensures ItemFits(ok, changed.items, i) {
      assert ItemFits(ok, c.items, i);
    }
    SameIds(c.items, changed.items);
  }

  lemma SameIds(a: seq<Identifier>, b: seq<Identifier>)
    requires |a| == |b| && forall i :: 0 <= i < |a| ==> a[i].id == b[i].id
    ensures Ids(a) == Ids(b) && (DistinctIds(a) ==> DistinctIds(b))
  {
  }

  lemma LineageExtended(ok: Identifier -> bool, c: Chain, last: Identifier, next: Identifier, grown: Chain)
    requires Lineage(ok, c) && SameOrigin(c.items[|c.items| - 1], last) && ok(last) && InnerItem(last)
    requires ok(next) && next.asset == last.asset && Linked(last, next) && next.id !in Ids(c.items)
    requires next.replacedBy == NONE && next.status != Replaced
    requires grown == Chain(next.id, c.items[..|c.items| - 1] + [last] + [next])
    ensures Lineage(ok, grown) && Ids(grown.items) == Ids(c.items) + {next.id}
  {
    var n := |c.items| - 1;
    var front := c.items[..n] + [last];
    SameIds(c.items, front);
    IdsAppend(front, next);
    forall i | 0 <= i <= n + 1 ensures ItemFits(ok, grown.items, i) {
      assert ItemFits(ok, c.items, if i <= n then i else n);
    }
  }

  lemma OthersDisjoint(ok: Identifier -> bool, chains: set<Chain>, store: Store, c: Chain, d: Chain)
    requires AllLineages(ok, chains, store) && Disjoint(chains) && c in chains
    requires Ids(d.items) - Ids(c.items) !! store.Keys
    ensures forall e :: e in chains - {c} ==> Ids(e.items) !! Ids(d.items)
  {
    forall e | e in chains - {c} ensures Ids(e.items) !! Ids(d.items) {
      IdsWithin(e.items, store);
      DisjointFrom(Ids(e.items), Ids(c.items), Ids(d.items), store.Keys);
    }
  }

  lemma DisjointFrom(e: set<Name>, c: set<Name>, d: set<Name>, all: set<Name>)
    requires e !! c && e <= all && d - c !! all
    ensures e !! d
  {
    forall k | k in e ensures k !in d {
      assert k !in c && k in all;
    }
  }

  /** The stores differ only in the names of d, all of which are in the second. */
  ghost predicate Rewrites(store: Store, d: Chain, grown: Store) {
    Within(d.items, grown) && AgreeOutside(store, grown, Ids(d.items)) && grown.Keys == store.Keys + Ids(d.items)
  }

  lemma RewriteExchanges(chains: set<Chain>, store: Store, c: Chain, d: Chain, grown: Store)
    requires c in chains && Rewrites(store, d, grown) && Ids(c.items) <= Ids(d.items)
    requires forall e :: e in chains - {c} ==> Ids(e.items) !! Ids(d.items)
    ensures Exchanges(chains, store, {c}, d, grown)
  {
  }

  lemma ChangeExchanges(ok: Identifier -> bool, chains: set<Chain>, store: Store, c: Chain, d: Chain, grown: Store)
    requires AllLineages(ok, chains, store) && Disjoint(chains) && c in chains && Rewrites(store, d, grown)
    requires Ids(c.items) <= Ids(d.items) && Ids(d.items) - Ids(c.items) !! store.Keys
    ensures Exchanges(chains, store, {c}, d, grown)
  {
    OthersDisjoint(ok, chains, store, c, d);
    RewriteExchanges(chains, store, c, d, grown);
  }

  lemma ChangeChain(ok: Identifier -> bool, chains: set<Chain>, store: Store, c: Chain, d: Chain, grown: Store)
    requires Partition(ok, chains, store) && c in chains && Lineage(ok, d) && Rewrites(store, d, grown)
    requires Ids(c.items) <= Ids(d.items) && Ids(d.items) - Ids(c.items) !! store.Keys
    ensures IsPartitioned(ok, grown)
  {
    ChangeExchanges(ok, chains, store, c, d, grown);
    PartitionExchange(ok, chains, store, {c}, d, grown);
  }

  lemma WithinChanged(items: seq<Identifier>, n: nat, store: Store, last: Identifier, changed: Store)
    requires n < |items| && Within(items, store) && DistinctIds(items) && last.id == items[n].id
    requires changed[last.id := last] == changed && AgreeOutside(store, changed, {last.id})
    ensures Within(items[..n], changed) && Held(changed, last)
  {
    forall i | 0 <= i < n ensures Held(changed, items[..n][i]) {
      assert Held(store, items[i]) && items[i].id != items[n].id;
    }
    assert last.id in changed[last.id := last];
  }

  lemma CloseRewrites(ok: Identifier -> bool, c: Chain, store: Store, last: Identifier, d: Chain)
    requires Lineage(ok, c) && Within(c.items, store) && c.terminal == last.id
    requires d == Chain(c.terminal, c.items[..|c.items| - 1] + [last]) && Ids(d.items) == Ids(c.items)
    ensures Rewrites(store, d, store[last.id := last])
  {
    WithinChanged(c.items, |c.items| - 1, store, last, store[last.id := last]);
    LastInIds(ok, c);
    IdsWithin(c.items, store);
  }

  /** Closing the last row of a history keeps the union of histories. */
  lemma CloseLast(ok: Identifier -> bool, store: Store, t: Identifier, last: Identifier)
    requires Named(ok) && IsPartitioned(ok, store) && Held(store, t) && t.replacedBy == NONE
    requires SameOrigin(t, last) && ok(last) && last.replacedBy == NONE && last.status != Replaced
    ensures IsPartitioned(ok, store[last.id := last])
  {
    var chains: set<Chain> :| Partition(ok, chains, store);
    var c := ChainEndingIn(ok, chains, store, t);
    LastIs(ok, c, store, t);
    var d := Chain(c.terminal, c.items[..|c.items| - 1] + [last]);
    LastChanged(ok, c, last, d);
    CloseRewrites(ok, c, store, last, d);
    ChangeChain(ok, chains, store, c, d, store[last.id := last]);
  }

  lemma ExtendRewrites(ok: Identifier -> bool, c: Chain, store: Store, last: Identifier, next: Identifier, d: Chain)
    requires Lineage(ok, c) && Within(c.items, store) && c.terminal == last.id && next.id !in store
    requires d == Chain(next.id, c.items[..|c.items| - 1] + [last] + [next]) && Ids(d.items) == Ids(c.items) + {next.id}
    ensures Rewrites(store, d, store[last.id := last][next.id := next])
  {
    var n := |c.items| - 1;
    var changed := store[last.id := last];
    LastInIds(ok, c);
    IdsWithin(c.items, store);
    WithinChanged(c.items, n, store, last, changed);
    WithinMore(c.items[..n], last, next, changed, changed[next.id := next]);
  }

  /** Replacing the last row of a history by a new one keeps the union of histories. */
  lemma ExtendLast(ok: Identifier -> bool, store: Store, t: Identifier, last: Identifier, next: Identifier)
    requires Named(ok) && IsPartitioned(ok, store) && Held(store, t) && t.replacedBy == NONE
    requires SameOrigin(t, last) && ok(last) && InnerItem(last)
    requires ok(next) && next.asset == last.asset && Linked(last, next) && next.id !in store
    requires next.replacedBy == NONE && next.status != Replaced
    ensures IsPartitioned(ok, store[last.id := last][next.id := next])
  {
    var chains: set<Chain> :| Partition(ok, chains, store);
    var c := ChainEndingIn(ok, chains, store, t);
    LastIs(ok, c, store, t);
    var d := ExtendChain(ok, c, store, last, next);
    ChangeChain(ok, chains, store, c, d, store[last.id := last][next.id := next]);
  }

  lemma ExtendChain(
      ok: Identifier -> bool, c: Chain, store: Store, last: Identifier, next: Identifier)
    returns (d: Chain)
    requires Lineage(ok, c) && Within(c.items, store) && c.terminal == last.id && next.id !in store
    requires SameOrigin(c.items[|c.items| - 1], last) && ok(last) && InnerItem(last)
    requires ok(next) && next.asset == last.asset && Linked(last, next)
    requires next.replacedBy == NONE && next.status != Replaced
    ensures Lineage(ok, d) && Rewrites(store, d, store[last.id := last][next.id := next])
    ensures Ids(c.items) <= Ids(d.items) && Ids(d.items) - Ids(c.items) !! store.Keys
  {
    IdsWithin(c.items, store);
    d := Chain(next.id, c.items[..|c.items| - 1] + [last] + [next]);
    LineageExtended(ok, c, last, next, d);
    ExtendRewrites(ok, c, store, last, next, d);
  }

  lemma WithinMore(front: seq<Identifier>, last: Identifier, next: Identifier, store: Store, grown: Store)
    requires Within(front, store) && Held(store, last) && next.id !in store && grown == store[next.id := next]
    ensures Within(front + [last] + [next], grown)
  {
    var items := front + [last] + [next];
    forall i | 0 <= i < |items| ensures Held(grown, items[i]) {
      if i < |front| {
        assert items[i] == front[i] && Held(store, front[i]);
      }
    }
  }

  // ----- Every row operation keeps a sound store sound --------------------------------------

  lemma SupersededValid(svc: Service, previous: Identifier, replacement: Identifier, changedAt: Time)
    requires Lawful(svc.text) && ValidIdentifier(svc, previous) && previous.status == Active
    requires svc.text.stable(replacement.id)
    requires ValidActor(svc.text, replacement.createdBy) && svc.text.stable(replacement.createdCorrelation)
    requires Portable(changedAt) && !Earlier(changedAt, previous.updatedAt)
    ensures ValidIdentifier(svc, Superseded(previous, replacement, changedAt))
    ensures InnerItem(Superseded(previous, replacement, changedAt))
  {
  }

  lemma ClosedValid(svc: Service, item: Identifier, at: Time, actor: Name, correlation: Name)
    requires Lawful(svc.text) && ValidIdentifier(svc, item) && item.status == Active
    requires ValidProvenance(svc.text, actor, correlation)
    requires Portable(at) && !Earlier(at, item.updatedAt)
    ensures ValidIdentifier(svc, Closed(svc.text, item, at, actor, correlation))
  {
  }

  lemma AddRow(svc: Service, store: Store, item: Identifier)
    requires Sound(svc, store) && ValidIdentifier(svc, item) && item.id !in store
    requires item.status == Active && item.supersedes == NONE && !ActiveConflict(store, item, None)
    ensures Sound(svc, store[item.id := item])
  {
    var ok, grown := Accepts(svc), store[item.id := item];
    SingleLineage(ok, item);
    AddsOne(store, item);
    AddPartitioned(ok, store, Chain(item.id, [item]), grown);
    ActiveUniqueAdd(store, item, None, grown);
  }

  lemma CreateKeeps(svc: Service, store: Store, item: Identifier)
    requires Sound(svc, store) && (ValidNew(svc, item, false) ==> ValidIdentifier(svc, item))
    ensures Sound(svc, CreateRow(svc, store, item).store)
  {
    if CreateRow(svc, store, item).outcome.Applied? {
      AddRow(svc, store, item);
    }
  }

  /** Every row of a sound store passes the exchange validator. */
  lemma RowsValid(svc: Service, store: Store, k: Name)
    requires Sound(svc, store) && k in store
    ensures ValidIdentifier(svc, store[k])
  {
    var ok := Accepts(svc);
    var chains: set<Chain> :| Partition(ok, chains, store);
    assert InSome(chains, k);
    var c :| c in chains && k in Ids(c.items);
    var i :| 0 <= i < |c.items| && c.items[i].id == k;
    assert Held(store, c.items[i]) && ItemFits(ok, c.items, i);
  }

  lemma ReplaceOne(svc: Service, store: Store, previous: Identifier, next: Identifier, changedAt: Time)
    requires Sound(svc, store) && Held(store, previous) && previous.status == Active
    requires ValidIdentifier(svc, next) && next.status == Active && next.id !in store && next.supersedes == previous.id
    requires next.asset == previous.asset && next.primary == previous.primary && Same(next.createdAt, changedAt)
    requires Portable(changedAt) && !Earlier(changedAt, previous.updatedAt)
    requires !ActiveConflict(store, next, Some(previous.id))
    ensures Sound(svc, store[previous.id := Superseded(previous, next, changedAt)][next.id := next])
  {
    var ok, last := Accepts(svc), Superseded(previous, next, changedAt);
    RowsValid(svc, store, previous.id);
    SupersededValid(svc, previous, next, changedAt);
    AcceptsNamed(svc);
    ExtendLast(ok, store, previous, last, next);
    ReplaceUnique(store, last, next);
  }

  lemma ReplaceUnique(store: Store, last: Identifier, next: Identifier)
    requires ActiveUnique(store) && last.id in store && last.status == Replaced && next.id !in store
    requires !ActiveConflict(store, next, Some(last.id))
    ensures ActiveUnique(store[last.id := last][next.id := next])
  {
    ActiveUniqueAdd(store, next, Some(last.id), store[last.id := last][next.id := next]);
  }

  lemma ReplaceKeeps(
      svc: Service, store: Store, asset: Name, id: Name, expected: int, replacement: Identifier, changedAt: Time)
    requires Sound(svc, store) && (ValidNew(svc, replacement, true) ==> ValidIdentifier(svc, replacement))
    requires Same(replacement.createdAt, changedAt) && Portable(changedAt)
    requires id in store ==> store[id].primary == replacement.primary
    ensures Sound(svc, ReplaceRow(svc, store, asset, id, expected, replacement, changedAt).store)
  {
    if ReplaceRow(svc, store, asset, id, expected, replacement, changedAt).outcome.Applied? {
      ReplaceOne(svc, store, store[id], replacement, changedAt);
    }
  }

  lemma CloseUnique(store: Store, item: Identifier, closed: Identifier)
    requires ActiveUnique(store) && Held(store, item) && closed.status == Deactivated
    ensures ActiveUnique(store[item.id := closed])
  {
    ActiveUniqueFewer(store, store[item.id := closed]);
  }

  lemma CloseOne(svc: Service, store: Store, item: Identifier, closed: Identifier)
    requires Sound(svc, store) && Held(store, item) && item.status == Active && item.replacedBy == NONE
    requires ValidIdentifier(svc, closed) && closed.status == Deactivated && closed.replacedBy == NONE
    requires SameOrigin(item, closed)
    ensures Sound(svc, store[closed.id := closed])
  {
    AcceptsNamed(svc);
    CloseLast(Accepts(svc), store, item, closed);
    CloseUnique(store, item, closed);
  }

  lemma CloseActive(svc: Service, store: Store, item: Identifier, at: Time, actor: Name, correlation: Name)
    requires Sound(svc, store) && Held(store, item) && item.status == Active && Portable(at)
    requires ValidProvenance(svc.text, actor, correlation) && !Earlier(at, item.updatedAt)
    ensures Sound(svc, store[item.id := Closed(svc.text, item, at, actor, correlation)])
  {
    RowsValid(svc, store, item.id);
    ClosedValid(svc, item, at, actor, correlation);
    CloseOne(svc, store, item, Closed(svc.text, item, at, actor, correlation));
  }

  lemma DeactivateKeeps(
      svc: Service, store: Store, asset: Name, id: Name, expected: int, at: Time, actor: Name, correlation: Name)
    requires Sound(svc, store) && Portable(at)
    ensures Sound(svc, DeactivateRow(svc, store, asset, id, expected, at, actor, correlation).store)
  {
    if DeactivateRow(svc, store, asset, id, expected, at, actor, correlation).outcome.Applied? {
      CloseActive(svc, store, store[id], at, actor, correlation);
    }
  }

  // ----- Applied once, and then recognized --------------------------------------------------

  /** A create is applied only under a new name without a clash; repeated, it changes nothing. */
  lemma CreateOnce(svc: Service, store: Store, item: Identifier)
    requires CreateRow(svc, store, item).outcome.Applied?
    ensures item.id !in store && !ActiveConflict(store, item, None)
    ensures var after := CreateRow(svc, store, item).store;
            after[item.id] == item && CreateRow(svc, after, item) == Reply(after, Retried(item))
  {
  }

  /** A replacement is applied only to the active row at the expected revision; repeated, it changes nothing. */
  lemma ReplaceOnce(svc: Service, store: Store, asset: Name, id: Name, expected: int, next: Identifier, at: Time)
    requires ReplaceRow(svc, store, asset, id, expected, next, at).outcome.Applied?
    ensures id in store && store[id].status == Active && store[id].revision == expected && next.id !in store
    ensures var after := ReplaceRow(svc, store, asset, id, expected, next, at).store;
            && after[next.id] == next && after[id].replacedBy == next.id && after[id].revision == expected + 1
            && ReplaceRow(svc, after, asset, id, expected, next, at) == Reply(after, Retried(next))
            && (forall k :: k in store && k != id ==> k in after && after[k] == store[k])
  {
  }

  /** So is a deactivation. */
  lemma DeactivateOnce(
      svc: Service, store: Store, asset: Name, id: Name, expected: int, at: Time, actor: Name, correlation: Name)
    requires DeactivateRow(svc, store, asset, id, expected, at, actor, correlation).outcome.Applied?
    ensures id in store && store[id].status == Active && store[id].revision == expected
    ensures var after := DeactivateRow(svc, store, asset, id, expected, at, actor, correlation).store;
            && after[id].status == Deactivated && after[id].revision == expected + 1
            && DeactivateRow(svc, after, asset, id, expected, at, actor, correlation)
               == Reply(after, Retried(after[id]))
            && (forall k :: k in store && k != id ==> k in after && after[k] == store[k])
  {
  }

  /** Any other revision of an active row is refused. */
  lemma StaleRefused(
      svc: Service, store: Store, asset: Name, id: Name, expected: int, next: Identifier, at: Time, actor: Name,
      correlation: Name)
    requires id in store && store[id].status == Active && store[id].revision != expected
    ensures ReplaceRow(svc, store, asset, id, expected, next, at) == Reply(store, Rejected)
    ensures DeactivateRow(svc, store, asset, id, expected, at, actor, correlation) == Reply(store, Rejected)
  {
  }
}
