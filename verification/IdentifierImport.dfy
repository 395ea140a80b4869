/**
  Importing whole chains: the store's atomic insertion, the importer's presence check, and the
  round trip from a store through its exported chains into an empty store.
 */
module IdentifierImport {
  import opened Text
  import opened Sequences
  import opened Ordering
  import opened Clock
  import opened Identifiers
  import opened ChainExport
  import opened IdentifierStore

  function AddAll(store: Store, items: seq<Identifier>): Store {
    if items == [] then store
    else
      var last := items[|items| - 1];
      AddAll(store, items[..|items| - 1])[last.id := last]
  }

  lemma {:induction false} AddAllAdds(store: Store, items: seq<Identifier>)
    requires DistinctIds(items) && Ids(items) !! store.Keys
    ensures Adds(store, items, AddAll(store, items))
  {
    if items != [] {
      var front, last := items[..|items| - 1], items[|items| - 1];
      assert items == front + [last];
      IdsAppend(front, last);
      AddAllAdds(store, front);
      var before, after := AddAll(store, front), AddAll(store, items);
      forall i | 0 <= i < |items| ensures Held(after, items[i]) {
        if i < |front| {
          assert items[i] == front[i] && Held(before, front[i]) && front[i].id in Ids(front);
        }
      }
    }
  }

  // ----- The atomic insertion ---------------------------------------------------------------

  ghost predicate SomePresent(store: Store, items: seq<Identifier>) {
    exists i :: 0 <= i < |items| && items[i].id in store
  }

  ghost predicate SomeConflict(store: Store, items: seq<Identifier>) {
    exists i :: 0 <= i < |items| && items[i].status == Active && ActiveConflict(store, items[i], None)
  }

  datatype Import = Created | Present | Refused(error: Error)

  datatype ImportReply = ImportReply(store: Store, outcome: Import)

  ghost function InsertChain(store: Store, items: seq<Identifier>): ImportReply {
    if Within(items, store) then ImportReply(store, Present)
    else if SomePresent(store, items) || SomeConflict(store, items) then ImportReply(store, Refused(Conflict))
    else ImportReply(AddAll(store, items), Created)
  }

  // ----- The importer -----------------------------------------------------------------------

  predicate Addressable(svc: Service, items: seq<Identifier>) {
    forall i :: 0 <= i < |items| ==> items[i].organization == NONE || items[i].organization == svc.organization
  }

  /** The items under the importing organization. */
  function Adopted(svc: Service, items: seq<Identifier>): (r: seq<Identifier>)
    ensures |r| == |items|
    ensures forall i :: 0 <= i < |items| ==> r[i] == items[i].(organization := svc.organization)
  {
    seq(|items|, i requires 0 <= i < |items| => items[i].(organization := svc.organization))
  }

  /** The chain is valid under the importing organization. */
  predicate Importable(svc: Service, chain: Chain) {
    Addressable(svc, chain.items) && ValidChain(Accepts(svc), Chain(chain.terminal, Adopted(svc, chain.items)))
  }

  /** Imports a chain whole or not at all. */
  ghost function ImportChain(svc: Service, assets: set<Name>, store: Store, chain: Chain): ImportReply {
    var items, valid := Adopted(svc, chain.items), Importable(svc, chain);
    ImportItems(valid, valid && items[0].asset in assets, store, items)
  }

  ghost function ImportItems(valid: bool, known: bool, store: Store, items: seq<Identifier>): ImportReply {
    if !valid then ImportReply(store, Refused(InvalidInput))
    else if !known then ImportReply(store, Refused(MissingAsset))
    else if Within(items, store) then ImportReply(store, Present)
    else if SomePresent(store, items) then ImportReply(store, Refused(Conflict))
    else InsertChain(store, items)
  }

  lemma AbsentDisjoint(store: Store, items: seq<Identifier>)
    requires !SomePresent(store, items)
    ensures Ids(items) !! store.Keys
  {
    forall k | k in Ids(items) ensures k !in store {
      var i :| 0 <= i < |items| && items[i].id == k;
    }
  }

  lemma PresentMeans(store: Store, items: seq<Identifier>, i: nat)
    requires i < |items| && items[i].id in store
    ensures SomePresent(store, items)
  {
  }

  /** All or nothing: a created chain is wholly new and wholly there; otherwise nothing changes. */
  lemma ImportAllOrNothing(svc: Service, assets: set<Name>, store: Store, chain: Chain)
    ensures var r := ImportChain(svc, assets, store, chain);
            var items := Adopted(svc, chain.items);
            match r.outcome
            case Created => Adds(store, items, r.store) && items != []
            case Present => r.store == store && Within(items, store)
            case Refused(_) => r.store == store
  {
    if ImportChain(svc, assets, store, chain).outcome.Created? {
      CreatedAdds(svc, assets, store, chain, Adopted(svc, chain.items));
    }
  }

  lemma ItemsCreated(valid: bool, known: bool, store: Store, items: seq<Identifier>)
    requires ImportItems(valid, known, store, items).outcome.Created?
    ensures valid && !SomePresent(store, items) && !SomeConflict(store, items)
    ensures ImportItems(valid, known, store, items).store == AddAll(store, items)
  {
  }

  /** What a created chain was and what the store becomes. */
  lemma CreatedMeans(svc: Service, assets: set<Name>, store: Store, chain: Chain, items: seq<Identifier>)
    requires items == Adopted(svc, chain.items) && ImportChain(svc, assets, store, chain).outcome.Created?
    ensures ImportChain(svc, assets, store, chain).store == AddAll(store, items)
    ensures ValidChain(Accepts(svc), Chain(chain.terminal, items)) && !SomePresent(store, items)
    ensures !SomeConflict(store, items)
  {
    var valid := Importable(svc, chain);
    ItemsCreated(valid, valid && items[0].asset in assets, store, items);
  }

  lemma CreatedAdds(svc: Service, assets: set<Name>, store: Store, chain: Chain, items: seq<Identifier>)
    requires items == Adopted(svc, chain.items) && ImportChain(svc, assets, store, chain).outcome.Created?
    ensures Adds(store, items, ImportChain(svc, assets, store, chain).store) && items != []
  {
    CreatedMeans(svc, assets, store, chain, items);
    AbsentDisjoint(store, items);
    AddAllAdds(store, items);
  }

  /** Importing again what was imported reports it present and changes nothing. */
  lemma ImportIdempotent(svc: Service, assets: set<Name>, store: Store, chain: Chain)
    requires !ImportChain(svc, assets, store, chain).outcome.Refused?
    ensures var after := ImportChain(svc, assets, store, chain).store;
            ImportChain(svc, assets, after, chain) == ImportReply(after, Present)
  {
    ImportAllOrNothing(svc, assets, store, chain);
  }

  /** A chain only part of which is there, or there with a difference, is refused. */
  lemma PartialRefused(svc: Service, assets: set<Name>, store: Store, chain: Chain, i: nat, j: nat)
    requires i < |chain.items| && chain.items[i].id in store
    requires j < |chain.items| && !Held(store, Adopted(svc, chain.items)[j])
    ensures var r := ImportChain(svc, assets, store, chain);
            && r.store == store && r.outcome.Refused?
            && (Importable(svc, chain) && chain.items[0].asset in assets ==> r.outcome.error == Conflict)
  {
    PresentMeans(store, Adopted(svc, chain.items), i);
  }

  // ----- Importing keeps a sound store sound ------------------------------------------------

  lemma OnlyLastActive(ok: Identifier -> bool, c: Chain, i: nat)
    requires Lineage(ok, c) && i < |c.items| && c.items[i].status == Active
    ensures i == |c.items| - 1
  {
    assert ItemFits(ok, c.items, i);
  }

  lemma AddedActive(store: Store, items: seq<Identifier>, grown: Store, k: Name)
    requires Adds(store, items, grown) && k in grown && k !in store
    ensures exists i :: 0 <= i < |items| && items[i] == grown[k]
  {
    var i :| 0 <= i < |items| && items[i].id == k;
    assert Held(grown, items[i]);
  }

  lemma ActiveUniqueAdds(ok: Identifier -> bool, store: Store, c: Chain, grown: Store)
    requires ActiveUnique(store) && Lineage(ok, c) && Adds(store, c.items, grown) && !SomeConflict(store, c.items)
    ensures ActiveUnique(grown)
  {
    forall j, k | j in grown && k in grown && j != k && grown[j].status == Active && grown[k].status == Active
      ensures !Clash(grown[j], grown[k])
    {
      NoClash(ok, store, c, grown, j, k);
    }
  }

  lemma NoClash(ok: Identifier -> bool, store: Store, c: Chain, grown: Store, j: Name, k: Name)
    requires ActiveUnique(store) && Lineage(ok, c) && Adds(store, c.items, grown) && !SomeConflict(store, c.items)
    requires j in grown && k in grown && j != k && grown[j].status == Active && grown[k].status == Active
    ensures !Clash(grown[j], grown[k])
  {
    if j in store && k in store {
    } else if j in store {
      AddedClash(store, c, grown, j, k);
    } else if k in store {
      AddedClash(store, c, grown, k, j);
    } else {
      NotBothAdded(ok, store, c, grown, j, k);
    }
  }

  lemma AddedClash(store: Store, c: Chain, grown: Store, j: Name, k: Name)
    requires Adds(store, c.items, grown) && !SomeConflict(store, c.items)
    requires j in store && k in grown && k !in store && grown[j].status == Active && grown[k].status == Active
    ensures !Clash(grown[j], grown[k])
  {
    AddedActive(store, c.items, grown, k);
  }

  lemma NotBothAdded(ok: Identifier -> bool, store: Store, c: Chain, grown: Store, j: Name, k: Name)
    requires Lineage(ok, c) && Adds(store, c.items, grown) && j in grown && k in grown && j !in store && k !in store
    requires grown[j].status == Active && grown[k].status == Active
    ensures j == k
  {
    var a :| 0 <= a < |c.items| && c.items[a].id == j;
    var b :| 0 <= b < |c.items| && c.items[b].id == k;
    assert Held(grown, c.items[a]) && Held(grown, c.items[b]);
    OnlyLastActive(ok, c, a);
    OnlyLastActive(ok, c, b);
  }

  lemma ImportKeeps(svc: Service, assets: set<Name>, store: Store, chain: Chain)
    requires Sound(svc, store)
    ensures Sound(svc, ImportChain(svc, assets, store, chain).store)
  {
    var items := Adopted(svc, chain.items);
    if ImportChain(svc, assets, store, chain).outcome.Created? {
      CreatedMeans(svc, assets, store, chain, items);
      CreatedAdds(svc, assets, store, chain, items);
      ChainAdded(svc, store, Chain(chain.terminal, items), AddAll(store, items));
    } else {
      ImportAllOrNothing(svc, assets, store, chain);
    }
  }

  lemma ChainAdded(svc: Service, store: Store, c: Chain, grown: Store)
    requires Sound(svc, store) && ValidChain(Accepts(svc), c) && Adds(store, c.items, grown)
    requires !SomeConflict(store, c.items)
    ensures Sound(svc, grown)
  {
    AddPartitioned(Accepts(svc), store, c, grown);
    ActiveUniqueAdds(Accepts(svc), store, c, grown);
    AddsKeyed(store, c.items, grown);
  }

  lemma AddsKeyed(store: Store, items: seq<Identifier>, grown: Store)
    requires WellKeyed(store) && Adds(store, items, grown)
    ensures WellKeyed(grown)
  {
    forall k | k in grown ensures grown[k].id == k {
      if k !in store {
        AddedActive(store, items, grown, k);
        var i :| 0 <= i < |items| && items[i].id == k;
        assert Held(grown, items[i]);
      }
    }
  }

  // ----- Export, then import ----------------------------------------------------------------

  /** A chain as a package carries it: without its organization. */
  function Cleared(c: Chain): Chain {
    Chain(c.terminal, seq(|c.items|, i requires 0 <= i < |c.items| => c.items[i].(organization := NONE)))
  }

  /** Imports cleared chains one after the other; each must be newly created. */
  ghost function ImportAll(svc: Service, assets: set<Name>, store: Store, chains: seq<Chain>): Option<Store> {
    if chains == [] then Some(store)
    else
      match ImportAll(svc, assets, store, chains[..|chains| - 1])
      case None => None
      case Some(s) =>
        var r := ImportChain(svc, assets, s, Cleared(chains[|chains| - 1]));
        if r.outcome.Created? then Some(r.store) else None
  }

  lemma AdoptedCleared(svc: Service, c: Chain)
    requires Lineage(Accepts(svc), c)
    ensures Adopted(svc, Cleared(c).items) == c.items && Addressable(svc, Cleared(c).items)
  {
    forall i | 0 <= i < |c.items| ensures c.items[i].organization == svc.organization {
      assert ItemFits(Accepts(svc), c.items, i);
    }
    var items := Adopted(svc, Cleared(c).items);
    assert forall i :: 0 <= i < |items| ==> items[i] == c.items[i];
  }

  ghost predicate Part(small: Store, store: Store) {
    forall k :: k in small ==> k in store && store[k] == small[k]
  }

  lemma NoConflictWithin(small: Store, store: Store, items: seq<Identifier>)
    requires Part(small, store) && ActiveUnique(store) && Within(items, store) && Ids(items) !! small.Keys
    ensures !SomePresent(small, items) && !SomeConflict(small, items)
  {
    forall i | 0 <= i < |items|
      ensures items[i].id !in small && !(items[i].status == Active && ActiveConflict(small, items[i], None))
    {
      assert items[i].id in Ids(items) && Held(store, items[i]);
      assert forall k :: k in small ==> k != items[i].id;
    }
  }

  lemma PartAdds(small: Store, store: Store, items: seq<Identifier>, grown: Store)
    requires Part(small, store) && Within(items, store) && Adds(small, items, grown)
    ensures Part(grown, store)
  {
    forall k | k in grown ensures k in store && store[k] == grown[k] {
      if k !in small {
        var i :| 0 <= i < |items| && items[i].id == k;
        assert Held(grown, items[i]) && Held(store, items[i]);
      }
    }
  }

  /** A chain of the store is created in any part of the store that has none of its rows. */
  lemma ImportNext(svc: Service, assets: set<Name>, small: Store, store: Store, c: Chain) returns (r: ImportReply)
    requires Part(small, store) && ActiveUnique(store) && Within(c.items, store) && Ids(c.items) !! small.Keys
    requires ValidChain(Accepts(svc), c) && c.items[0].asset in assets
    ensures r == ImportChain(svc, assets, small, Cleared(c)) && r.outcome.Created?
    ensures Part(r.store, store) && r.store.Keys == small.Keys + Ids(c.items)
  {
    r := ImportChain(svc, assets, small, Cleared(c));
    AdoptedCleared(svc, c);
    NoConflictWithin(small, store, c.items);
    assert !Within(c.items, small) by {
      assert c.items[0].id in Ids(c.items);
    }
    assert Chain(Cleared(c).terminal, c.items) == c;
    ImportAllOrNothing(svc, assets, small, Cleared(c));
    PartAdds(small, store, c.items, r.store);
  }

  function NamesOf(chains: seq<Chain>): set<Name> {
    if chains == [] then {} else NamesOf(chains[..|chains| - 1]) + Ids(chains[|chains| - 1].items)
  }

  lemma {:induction false} NamesOfChain(chains: seq<Chain>, k: Name)
    ensures k in NamesOf(chains) <==> exists i :: 0 <= i < |chains| && k in Ids(chains[i].items)
  {
    if chains != [] {
      var n := |chains| - 1;
      NamesOfChain(chains[..n], k);
      if k in NamesOf(chains[..n]) {
        var i :| 0 <= i < n && k in Ids(chains[..n][i].items);
        assert k in Ids(chains[i].items);
      }
      if i :| 0 <= i < n && k in Ids(chains[i].items) {
        assert chains[..n][i] == chains[i];
      }
    }
  }

  lemma NextDisjoint(chains: seq<Chain>, n: nat)
    requires n < |chains| && Distinct(chains) && Disjoint(Elements(chains))
    ensures Ids(chains[n].items) !! NamesOf(chains[..n])
  {
    forall k | k in NamesOf(chains[..n]) ensures k !in Ids(chains[n].items) {
      NamesOfChain(chains[..n], k);
      var i :| 0 <= i < n && k in Ids(chains[..n][i].items);
      assert chains[i] in Elements(chains) && chains[n] in Elements(chains) && chains[i] != chains[n];
    }
  }

  ghost predicate AssetsKnown(chains: seq<Chain>, assets: set<Name>) {
    forall c :: c in chains && c.items != [] ==> c.items[0].asset in assets
  }

  lemma {:induction false} ImportPrefix(
      svc: Service, assets: set<Name>, store: Store, chains: seq<Chain>, n: nat)
    returns (s: Store)
    requires n <= |chains| && ActiveUnique(store) && Distinct(chains) && AssetsKnown(chains, assets)
    requires ValidPartition(Accepts(svc), Elements(chains), store)
    ensures ImportAll(svc, assets, map[], chains[..n]) == Some(s)
    ensures Part(s, store) && s.Keys == NamesOf(chains[..n])
  {
    if n == 0 {
      s := map[];
    } else {
      var small := ImportPrefix(svc, assets, store, chains, n - 1);
      var c := chains[n - 1];
      assert c in Elements(chains);
      NextDisjoint(chains, n - 1);
      var r := ImportNext(svc, assets, small, store, c);
      ImportAllStep(svc, assets, chains, n, small, r);
      s := r.store;
    }
  }

  lemma ImportAllStep(svc: Service, assets: set<Name>, chains: seq<Chain>, n: nat, small: Store, r: ImportReply)
    requires 0 < n <= |chains| && ImportAll(svc, assets, map[], chains[..n - 1]) == Some(small)
    requires r == ImportChain(svc, assets, small, Cleared(chains[n - 1])) && r.outcome.Created?
    ensures ImportAll(svc, assets, map[], chains[..n]) == Some(r.store)
    ensures NamesOf(chains[..n]) == NamesOf(chains[..n - 1]) + Ids(chains[n - 1].items)
  {
    assert chains[..n][..n - 1] == chains[..n - 1];
  }

  lemma NamesCover(chains: seq<Chain>, store: Store)
    requires Covers(Elements(chains), store)
    ensures store.Keys <= NamesOf(chains)
  {
    forall k | k in store ensures k in NamesOf(chains) {
      assert InSome(Elements(chains), k);
      NamesOfChain(chains, k);
    }
  }

  /**
    The chains of a store without clashing active rows, with their organization cleared, imported in
    any order into an empty store, give the same store; so they export as the same chains again.
   */
  lemma ReimportReproduces(svc: Service, assets: set<Name>, store: Store, chains: seq<Chain>)
    requires ActiveUnique(store) && ValidPartition(Accepts(svc), Elements(chains), store)
    requires Distinct(chains) && AssetsKnown(chains, assets)
    ensures ImportAll(svc, assets, map[], chains) == Some(store)
  {
    var s := ImportPrefix(svc, assets, store, chains, |chains|);
    assert chains[..|chains|] == chains;
    NamesCover(chains, store);
    assert s == store;
  }

  // ----- The store as an object -------------------------------------------------------------

  class IdentifierTable {
    var identifiers: Store

    constructor ()
      ensures identifiers == map[]
    {
      identifiers := map[];
    }

    /** Scans the rows for an active one that clashes with the candidate. */
    method HasActiveConflict(candidate: Identifier, excluding: Option<Name>) returns (conflict: bool)
      ensures conflict <==> ActiveConflict(identifiers, candidate, excluding)
    {
      var rest := identifiers.Keys;
      while rest != {}
        invariant rest <= identifiers.Keys
        invariant forall k :: k in identifiers && k !in rest ==>
                    !(Some(k) != excluding && identifiers[k].status == Active && Clash(identifiers[k], candidate))
      {
        var k :| k in rest;
        if Some(k) != excluding && identifiers[k].status == Active && Clash(identifiers[k], candidate) {
          return true;
        }
        rest := rest - {k};
      }
      return false;
    }

    method CreateIdentifier(svc: Service, item: Identifier) returns (outcome: Outcome)
      modifies this
      ensures Reply(identifiers, outcome) == CreateRow(svc, old(identifiers), item)
    {
      if !ValidNew(svc, item, false) {
        return Rejected;
      }
      if item.id in identifiers {
        return if SameIntent(identifiers[item.id], item) then Retried(identifiers[item.id]) else Rejected;
      }
      var conflict := HasActiveConflict(item, None);
      if conflict {
        return Rejected;
      }
      identifiers := identifiers[item.id := item];
      return Applied(item);
    }

    method ReplaceIdentifier(
        svc: Service, asset: Name, id: Name, expected: int, replacement: Identifier, changedAt: Time)
      returns (outcome: Outcome)
      modifies this
      ensures Reply(identifiers, outcome) ==
              ReplaceRow(svc, old(identifiers), asset, id, expected, replacement, changedAt)
    {
      if || svc.text.clean(asset) == NONE || svc.text.clean(id) == NONE || expected < 1 || IsZero(changedAt)
         || replacement.organization != svc.organization || replacement.asset != asset
         || replacement.supersedes != id || !ValidNew(svc, replacement, true) {
        return Rejected;
      }
      if id !in identifiers || identifiers[id].asset != asset {
        return Rejected;
      }
      var previous := identifiers[id];
      if previous.status == Replaced {
        if previous.revision <= 1 || expected != previous.revision - 1 || previous.replacedBy != replacement.id {
          return Rejected;
        }
        if || replacement.id !in identifiers || identifiers[replacement.id].asset != asset
           || !SameIntent(identifiers[replacement.id], replacement) {
          return Rejected;
        }
        return Retried(identifiers[replacement.id]);
      }
      if previous.status != Active || previous.revision != expected || Earlier(changedAt, previous.updatedAt) {
        return Rejected;
      }
      var conflict := HasActiveConflict(replacement, Some(id));
      if replacement.id in identifiers || conflict {
        return Rejected;
      }
      identifiers := identifiers[id := Superseded(previous, replacement, changedAt)][replacement.id := replacement];
      return Applied(replacement);
    }

    method DeactivateIdentifier(
        svc: Service, asset: Name, id: Name, expected: int, at: Time, actor: Name, correlation: Name)
      returns (outcome: Outcome)
      modifies this
      ensures Reply(identifiers, outcome) ==
              DeactivateRow(svc, old(identifiers), asset, id, expected, at, actor, correlation)
    {
      if || svc.text.clean(asset) == NONE || svc.text.clean(id) == NONE || expected < 1 || IsZero(at)
         || !ValidProvenance(svc.text, actor, correlation) {
        return Rejected;
      }
      if id !in identifiers || identifiers[id].asset != asset {
        return Rejected;
      }
      var item := identifiers[id];
      if item.status == Deactivated {
        return if item.revision <= 1 || expected != item.revision - 1 then Rejected else Retried(item);
      }
      if item.status != Active || item.revision != expected || Earlier(at, item.updatedAt) {
        return Rejected;
      }
      identifiers := identifiers[id := Closed(svc.text, item, at, actor, correlation)];
      return Applied(Closed(svc.text, item, at, actor, correlation));
    }

    /** How much of a chain is there: all of it unchanged, or some of it. */
    method ChainState(items: seq<Identifier>) returns (exact: bool, partial: bool)
      requires items != []
      ensures exact <==> Within(items, identifiers)
      ensures partial <==> !exact && SomePresent(identifiers, items)
    {
      var matched := 0;
      var present := false;
      for index := 0 to |items|
        invariant 0 <= matched <= index && (matched == index <==> Within(items[..index], identifiers))
        invariant present <==> SomePresent(identifiers, items[..index])
      {
        assert items[..index + 1] == items[..index] + [items[index]];
        WithinAppend(items[..index], items[index], identifiers);
        PresentAppend(items[..index], items[index], identifiers);
        if items[index].id in identifiers {
          present := true;
          if identifiers[items[index].id] != items[index] {
            PresentMeans(identifiers, items, index);
            assert !Held(identifiers, items[index]);
            return false, true;
          }
          matched := matched + 1;
        }
      }
      assert items[..|items|] == items;
      return matched == |items|, present && matched != |items|;
    }

    /** The atomic insertion: nothing is written before every row has been looked at. */
    method ImportIdentifierChain(items: seq<Identifier>) returns (outcome: Import)
      requires items != []
      modifies this
      ensures ImportReply(identifiers, outcome) == InsertChain(old(identifiers), items)
    {
      var exact, partial := ChainState(items);
      if exact {
        return Present;
      }
      for index := 0 to |items|
        invariant identifiers == old(identifiers)
        invariant forall i :: 0 <= i < index ==> items[i].id !in identifiers
        invariant forall i :: 0 <= i < index ==>
                    !(items[i].status == Active && ActiveConflict(identifiers, items[i], None))
      {
        if items[index].id in identifiers {
          return Refused(Conflict);
        }
        if items[index].status == Active {
          var conflict := HasActiveConflict(items[index], None);
          if conflict {
            return Refused(Conflict);
          }
        }
      }
      for index := 0 to |items|
        invariant identifiers == AddAll(old(identifiers), items[..index])
      {
        assert items[..index + 1][..index] == items[..index];
        identifiers := identifiers[items[index].id := items[index]];
      }
      assert items[..|items|] == items;
      return Created;
    }

    method ImportFromPackage(svc: Service, assets: set<Name>, chain: Chain) returns (outcome: Import)
      modifies this
      ensures ImportReply(identifiers, outcome) == ImportChain(svc, assets, old(identifiers), chain)
    {
      if !Addressable(svc, chain.items) {
        return Refused(InvalidInput);
      }
      var items := Adopted(svc, chain.items);
      var valid := CheckChain(svc, Chain(chain.terminal, items));
      if !valid {
        return Refused(InvalidInput);
      }
      if items[0].asset !in assets {
        return Refused(MissingAsset);
      }
      var exact, partial := ChainState(items);
      if exact {
        return Present;
      }
      if partial {
        return Refused(Conflict);
      }
      outcome := ImportIdentifierChain(items);
    }
  }

  lemma WithinAppend(items: seq<Identifier>, item: Identifier, store: Store)
    ensures Within(items + [item], store) <==> Within(items, store) && Held(store, item)
  {
    var more := items + [item];
    assert more[|items|] == item && forall i :: 0 <= i < |items| ==> more[i] == items[i];
  }

  lemma PresentAppend(items: seq<Identifier>, item: Identifier, store: Store)
    ensures SomePresent(store, items + [item]) <==> SomePresent(store, items) || item.id in store
  {
    var more := items + [item];
    assert more[|items|] == item && forall i :: 0 <= i < |items| ==> more[i] == items[i];
  }
}
