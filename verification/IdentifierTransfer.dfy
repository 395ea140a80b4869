/**
  Moving a store to another organization: the chains of a sound store, with their organization
  cleared, imported in any order into the empty store of any organization that uses the same text
  rules, give the same rows under the new organization.
 */
module IdentifierTransfer {
  import opened Text
  import opened Sequences
  import opened Ordering
  import opened Identifiers
  import opened ChainExport
  import opened IdentifierStore
  import opened IdentifierImport

  function Readdressed(organization: Name, store: Store): Store {
    map k | k in store :: store[k].(organization := organization)
  }

  function Moved(svc: Service, c: Chain): Chain {
    Chain(c.terminal, Adopted(svc, c.items))
  }

  function MovedAll(svc: Service, chains: seq<Chain>): (moved: seq<Chain>)
    ensures |moved| == |chains| && forall i :: 0 <= i < |chains| ==> moved[i] == Moved(svc, chains[i])
  {
    seq(|chains|, i requires 0 <= i < |chains| => Moved(svc, chains[i]))
  }

  lemma RowMoves(svc: Service, organization: Name, item: Identifier)
    requires ValidIdentifier(svc, item)
    ensures ValidIdentifier(svc.(organization := organization), item.(organization := organization))
  {
  }

  lemma ItemMoves(svc: Service, to: Service, items: seq<Identifier>, i: nat)
    requires to == svc.(organization := to.organization) && i < |items| && ItemFits(Accepts(svc), items, i)
    ensures ItemFits(Accepts(to), Adopted(to, items), i)
  {
    RowMoves(svc, to.organization, items[i]);
  }

  /** A valid chain is valid under the other organization, with the same names. */
  lemma ChainMoves(svc: Service, to: Service, c: Chain)
    requires to == svc.(organization := to.organization) && ValidChain(Accepts(svc), c)
    ensures ValidChain(Accepts(to), Moved(to, c)) && Ids(Moved(to, c).items) == Ids(c.items)
    ensures Cleared(Moved(to, c)) == Cleared(c)
  {
    var d := Moved(to, c);
    forall i | 0 <= i < |d.items| ensures ItemFits(Accepts(to), d.items, i) {
      ItemMoves(svc, to, c.items, i);
    }
    SameIds(c.items, d.items);
    assert Cleared(d).items == Cleared(c).items;
  }

  lemma WithinMoves(to: Service, items: seq<Identifier>, store: Store)
    requires Within(items, store)
    ensures Within(Adopted(to, items), Readdressed(to.organization, store))
  {
    forall i | 0 <= i < |items| ensures Held(Readdressed(to.organization, store), Adopted(to, items)[i]) {
      assert Held(store, items[i]);
    }
  }

  lemma UniqueMoves(organization: Name, store: Store)
    requires ActiveUnique(store)
    ensures ActiveUnique(Readdressed(organization, store))
  {
    var moved := Readdressed(organization, store);
    forall j, k | j in moved && k in moved && j != k && moved[j].status == Active && moved[k].status == Active
      ensures !Clash(moved[j], moved[k])
    {
      assert !Clash(store[j], store[k]);
    }
  }

  ghost predicate Listing(svc: Service, chains: seq<Chain>, store: Store) {
    ValidPartition(Accepts(svc), Elements(chains), store) && Distinct(chains)
  }

  lemma AllMove(svc: Service, to: Service, chains: seq<Chain>, store: Store, moved: seq<Chain>, target: Store)
    requires to == svc.(organization := to.organization) && Listing(svc, chains, store)
    requires moved == MovedAll(to, chains) && target == Readdressed(to.organization, store)
    ensures AllLineages(Accepts(to), Elements(moved), target) && AllValid(Accepts(to), Elements(moved))
  {
    forall d | d in Elements(moved) ensures ValidChain(Accepts(to), d) && Within(d.items, target) {
      var i :| 0 <= i < |moved| && moved[i] == d;
      assert chains[i] in Elements(chains);
      ChainMoves(svc, to, chains[i]);
      WithinMoves(to, chains[i].items, store);
    }
  }

  lemma NamesApart(svc: Service, to: Service, chains: seq<Chain>, store: Store, i: nat, j: nat)
    requires to == svc.(organization := to.organization) && Listing(svc, chains, store)
    requires i < |chains| && j < |chains| && i != j
    ensures Ids(Moved(to, chains[i]).items) !! Ids(Moved(to, chains[j]).items)
    ensures Moved(to, chains[i]) != Moved(to, chains[j])
  {
    assert chains[i] in Elements(chains) && chains[j] in Elements(chains) && chains[i] != chains[j];
    ChainMoves(svc, to, chains[i]);
    ChainMoves(svc, to, chains[j]);
    assert chains[i].items[0].id in Ids(chains[i].items);
  }

  lemma DisjointMoves(svc: Service, to: Service, chains: seq<Chain>, store: Store, moved: seq<Chain>)
    requires to == svc.(organization := to.organization) && Listing(svc, chains, store) && moved == MovedAll(to, chains)
    ensures Disjoint(Elements(moved)) && Distinct(moved)
  {
    forall a, b | a in Elements(moved) && b in Elements(moved) && a != b ensures Ids(a.items) !! Ids(b.items) {
      var i :| 0 <= i < |moved| && moved[i] == a;
      var j :| 0 <= j < |moved| && moved[j] == b;
      NamesApart(svc, to, chains, store, i, j);
    }
    forall i, j | 0 <= i < j < |moved| ensures moved[i] != moved[j] {
      NamesApart(svc, to, chains, store, i, j);
    }
  }

  lemma CoversMove(svc: Service, to: Service, chains: seq<Chain>, store: Store, moved: seq<Chain>, target: Store)
    requires to == svc.(organization := to.organization) && Listing(svc, chains, store)
    requires moved == MovedAll(to, chains) && target == Readdressed(to.organization, store)
    ensures Covers(Elements(moved), target)
  {
    forall k | k in target ensures InSome(Elements(moved), k) {
      assert InSome(Elements(chains), k);
      var c :| c in Elements(chains) && k in Ids(c.items);
      var i :| 0 <= i < |chains| && chains[i] == c;
      ChainMoves(svc, to, c);
      assert moved[i] in Elements(moved);
    }
  }

  /** The moved chains list the readdressed store. */
  lemma ListingMoves(svc: Service, to: Service, chains: seq<Chain>, store: Store)
    requires to == svc.(organization := to.organization) && Listing(svc, chains, store)
    ensures Listing(to, MovedAll(to, chains), Readdressed(to.organization, store))
  {
    var moved, target := MovedAll(to, chains), Readdressed(to.organization, store);
    AllMove(svc, to, chains, store, moved, target);
    DisjointMoves(svc, to, chains, store, moved);
    CoversMove(svc, to, chains, store, moved, target);
  }

  /** An import sees only the cleared chains. */
  lemma {:induction false} ImportSeesCleared(
      svc: Service, assets: set<Name>, store: Store, a: seq<Chain>, b: seq<Chain>)
    requires |a| == |b| && forall i :: 0 <= i < |a| ==> Cleared(a[i]) == Cleared(b[i])
    ensures ImportAll(svc, assets, store, a) == ImportAll(svc, assets, store, b)
    decreases |a|
  {
    if a != [] {
      ImportSeesCleared(svc, assets, store, a[..|a| - 1], b[..|b| - 1]);
    }
  }

  /** Export from one organization and import into another loses nothing but the organization's name. */
  lemma TransferReproduces(svc: Service, to: Service, assets: set<Name>, store: Store, chains: seq<Chain>)
    requires to == svc.(organization := to.organization)
    requires ActiveUnique(store) && Listing(svc, chains, store) && AssetsKnown(chains, assets)
    ensures ImportAll(to, assets, map[], chains) == Some(Readdressed(to.organization, store))
    ensures Listing(to, MovedAll(to, chains), Readdressed(to.organization, store))
    ensures forall i :: 0 <= i < |chains| ==> Cleared(MovedAll(to, chains)[i]) == Cleared(chains[i])
  {
    var moved, target := MovedAll(to, chains), Readdressed(to.organization, store);
    ListingMoves(svc, to, chains, store);
    UniqueMoves(to.organization, store);
    forall i | 0 <= i < |chains| ensures Cleared(moved[i]) == Cleared(chains[i]) {
      assert chains[i] in Elements(chains);
      ChainMoves(svc, to, chains[i]);
    }
    AssetsMove(to, chains, assets);
    ReimportReproduces(to, assets, target, moved);
    ImportSeesCleared(to, assets, map[], chains, moved);
  }

  lemma AssetsMove(to: Service, chains: seq<Chain>, assets: set<Name>)
    requires AssetsKnown(chains, assets)
    ensures AssetsKnown(MovedAll(to, chains), assets)
  {
    var moved := MovedAll(to, chains);
    forall d | d in moved && d.items != [] ensures d.items[0].asset in assets {
      var i :| 0 <= i < |moved| && moved[i] == d;
      assert chains[i] in chains;
    }
  }
}
