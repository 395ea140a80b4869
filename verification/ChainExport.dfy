/**
  Rebuilding replacement chains from a flat snapshot: the backward walks, and the exporter that
  accepts a snapshot exactly when it is a disjoint union of valid chains.
 */
module ChainExport {
  import opened Text
  import opened Sequences
  import opened Ordering
  import opened Identifiers

  type Store = map<Name, Identifier>

  ghost predicate WellKeyed(store: Store) {
    forall k :: k in store ==> store[k].id == k
  }

  predicate Held(store: Store, item: Identifier) {
    item.id in store && store[item.id] == item
  }

  // ----- Walking back -----------------------------------------------------------------------

  /** The items from current back to the first, unless the walk meets a name again or a missing one. */
  function Trace(store: Store, current: Identifier, lineage: set<Name>): Option<seq<Identifier>>
    requires Held(store, current)
    decreases |store.Keys - lineage|
  {
    if current.id in lineage then None
    else if current.supersedes == NONE then Some([current])
    else if current.supersedes !in store || store[current.supersedes].id != current.supersedes then None
    else
      assert store.Keys - lineage == (store.Keys - (lineage + {current.id})) + {current.id};
      match Trace(store, store[current.supersedes], lineage + {current.id})
      case None => None
      case Some(rest) => Some([current] + rest)
  }

  function Prepend(front: seq<Identifier>, rest: Option<seq<Identifier>>): Option<seq<Identifier>> {
    match rest case None => None case Some(items) => Some(front + items)
  }

  lemma PrependNothing(rest: Option<seq<Identifier>>)
    ensures Prepend([], rest) == rest
  {
    if rest.Some? {
      assert [] + rest.value == rest.value;
    }
  }

  lemma TraceStep(store: Store, front: seq<Identifier>, current: Identifier, lineage: set<Name>)
    requires Held(store, current) && current.id !in lineage && current.supersedes in store && current.supersedes != NONE
    requires Held(store, store[current.supersedes]) && store[current.supersedes].id == current.supersedes
    ensures Prepend(front, Trace(store, current, lineage))
         == Prepend(front + [current], Trace(store, store[current.supersedes], lineage + {current.id}))
  {
    match Trace(store, store[current.supersedes], lineage + {current.id})
    case None =>
    case Some(rest) => assert front + ([current] + rest) == front + [current] + rest;
  }

  /** The walk of the bulk exporter, over an index of the snapshot. */
  method WalkIndex(store: Store, terminal: Identifier) returns (r: Option<seq<Identifier>>)
    requires WellKeyed(store) && Held(store, terminal)
    ensures r == Trace(store, terminal, {})
  {
    var reversed: seq<Identifier> := [];
    var current := terminal;
    var lineage: set<Name> := {};
    PrependNothing(Trace(store, terminal, {}));
    while true
      invariant Held(store, current)
      invariant Trace(store, terminal, {}) == Prepend(reversed, Trace(store, current, lineage))
      decreases |store.Keys - lineage|
    {
      if current.id in lineage {
        return None;
      }
      assert store.Keys - lineage == (store.Keys - (lineage + {current.id})) + {current.id};
      if current.supersedes == NONE {
        return Some(reversed + [current]);
      }
      if current.supersedes !in store {
        return None;
      }
      TraceStep(store, reversed, current, lineage);
      lineage := lineage + {current.id};
      reversed := reversed + [current];
      current := store[current.supersedes];
    }
  }

  /** Rows in a walk back from the terminal, each named by the one before, none of them twice. */
  ghost predicate Walked(store: Store, terminal: Identifier, rows: seq<Identifier>) {
    && rows != [] && rows[0] == terminal && DistinctIds(rows)
    && (forall i :: 0 <= i < |rows| ==> Held(store, rows[i]))
    && (forall i :: 0 < i < |rows| ==> Precedes(rows, i))
  }

  /** The row before names this one as its predecessor. */
  predicate Precedes(rows: seq<Identifier>, i: nat)
    requires 0 < i < |rows|
  {
    rows[i - 1].supersedes == rows[i].id && rows[i].id != NONE
  }

  function LastOf(rows: seq<Identifier>): Identifier
    requires rows != []
  {
    rows[|rows| - 1]
  }

  /** The walk cannot go on, as the next row is missing. */
  predicate Breaks(store: Store, rows: seq<Identifier>) {
    rows != [] && LastOf(rows).supersedes != NONE && LastOf(rows).supersedes !in store
  }

  /** The walk comes back to one of its own rows. */
  predicate Loops(rows: seq<Identifier>) {
    rows != [] && LastOf(rows).supersedes != NONE && LastOf(rows).supersedes in Ids(rows)
  }

  /** A walk by point reads finds a row missing; it comes back to a row or is too long. */
  ghost predicate ReadFails(store: Store, terminal: Identifier, error: Error) {
    exists rows :: Walked(store, terminal, rows) && FailsWith(store, rows, error)
  }

  predicate FailsWith(store: Store, rows: seq<Identifier>, error: Error) {
    match error
    case NotFound => |rows| <= 10_000 && Breaks(store, rows)
    case Conflict => |rows| > 10_000 || Loops(rows)
    case _ => false
  }

  lemma WalkedMore(store: Store, terminal: Identifier, rows: seq<Identifier>, next: Identifier)
    requires Walked(store, terminal, rows) && Held(store, next) && next.id !in Ids(rows)
    requires LastOf(rows).supersedes == next.id && next.id != NONE
    ensures Walked(store, terminal, rows + [next])
  {
    IdsAppend(rows, next);
    var more := rows + [next];
    forall i | 0 < i < |more| ensures Precedes(more, i) {
      if i < |rows| {
        assert Precedes(rows, i);
      }
    }
  }

  /** Two walks from one row agree as far as they both go. */
  lemma {:induction false} WalksAgree(store: Store, t: Identifier, a: seq<Identifier>, b: seq<Identifier>, n: nat)
    requires Walked(store, t, a) && Walked(store, t, b) && n < |a| && n < |b|
    ensures a[n] == b[n]
  {
    if n > 0 {
      WalksAgree(store, t, a, b, n - 1);
      assert Precedes(a, n) && Precedes(b, n) && Held(store, a[n]) && Held(store, b[n]);
    }
  }

  /** A walk that breaks or comes back to itself cannot be continued. */
  lemma WalkStops(store: Store, t: Identifier, a: seq<Identifier>, b: seq<Identifier>)
    requires Walked(store, t, a) && Walked(store, t, b)
    requires (Breaks(store, a) || Loops(a) || LastOf(a).supersedes == NONE)
    ensures |b| <= |a|
    ensures |b| < |a| ==> !Breaks(store, b) && !Loops(b) && LastOf(b).supersedes != NONE
    ensures |b| == |a| ==> LastOf(b) == LastOf(a) && b == a
  {
    var n := (if |a| < |b| then |a| else |b|) - 1;
    WalksAgree(store, t, a, b, n);
    if |b| > |a| {
      NotBack(store, t, b, a);
    } else if |b| < |a| {
      NotBack(store, t, a, b);
    } else {
      forall i | 0 <= i < |a| ensures a[i] == b[i] {
        WalksAgree(store, t, a, b, i);
      }
    }
  }

  lemma NotBack(store: Store, t: Identifier, a: seq<Identifier>, b: seq<Identifier>)
    requires Walked(store, t, a) && Walked(store, t, b) && |b| < |a|
    ensures LastOf(b).supersedes in store && LastOf(b).supersedes !in Ids(b) && LastOf(b).supersedes != NONE
  {
    WalksAgree(store, t, a, b, |b| - 1);
    assert Precedes(a, |b|) && Held(store, a[|b|]);
    forall i | 0 <= i < |b| ensures b[i].id != a[|b|].id {
      WalksAgree(store, t, a, b, i);
    }
  }

  lemma BreakIsNoLoop(store: Store, t: Identifier, rows: seq<Identifier>)
    requires Walked(store, t, rows) && Breaks(store, rows)
    ensures !Loops(rows)
  {
    IdsWithin(rows, store);
  }

  /** What a finished walk says of all walks: it fails in at most one way, and not at all if it ends. */
  lemma FailsOnce(store: Store, t: Identifier, rows: seq<Identifier>, error: Error, other: Error)
    requires Walked(store, t, rows) && FailsWith(store, rows, error) && ReadFails(store, t, other)
    ensures other == error
  {
    var others :| Walked(store, t, others) && FailsWith(store, others, other);
    if error == NotFound {
      BreakIsNoLoop(store, t, rows);
      WalkStops(store, t, rows, others);
    } else if other == NotFound {
      BreakIsNoLoop(store, t, others);
      WalkStops(store, t, others, rows);
    }
  }

  lemma EndsWell(store: Store, t: Identifier, rows: seq<Identifier>)
    requires Walked(store, t, rows) && LastOf(rows).supersedes == NONE && |rows| <= MAXIMUM_CHAIN
    ensures FailsExactly(store, t, None)
  {
    forall error, others | Walked(store, t, others) ensures !FailsWith(store, others, error) {
      WalkStops(store, t, rows, others);
    }
  }

  /** The rows so far are a walk that leads to the current one. */
  ghost predicate LeadsTo(store: Store, terminal: Identifier, rows: seq<Identifier>, current: Identifier) {
    && Held(store, current)
    && if rows == [] then current == terminal
       else Walked(store, terminal, rows) && LastOf(rows).supersedes == current.id && current.id != NONE
  }

  /** The one way in which the walk fails, if it does. */
  ghost predicate FailsExactly(store: Store, terminal: Identifier, error: Option<Error>) {
    forall e :: ReadFails(store, terminal, e) <==> error == Some(e)
  }

  function ErrorOf<T>(r: Result<T>): Option<Error> {
    match r case Ok(_) => None case Err(e) => Some(e)
  }

  /** The walk by point reads, which also stops after ten thousand rows. */
  method WalkReads(store: Store, terminal: Identifier) returns (r: Result<seq<Identifier>>)
    requires WellKeyed(store) && Held(store, terminal)
    ensures r.Ok? ==>
              Walked(store, terminal, r.value) && LastOf(r.value).supersedes == NONE && |r.value| <= MAXIMUM_CHAIN
    ensures FailsExactly(store, terminal, ErrorOf(r))
  {
    var reversed: seq<Identifier> := [];
    var current := terminal;
    var seen: set<Name> := {};
    while true
      invariant LeadsTo(store, terminal, reversed, current) && |reversed| <= MAXIMUM_CHAIN && seen == Ids(reversed)
      decreases |store.Keys - seen|
    {
      if current.id in seen || |reversed| >= MAXIMUM_CHAIN {
        LoopedOrLong(store, terminal, reversed, current);
        return Err(Conflict);
      }
      WalkedOn(store, terminal, reversed, current);
      if current.supersedes == NONE {
        EndsWell(store, terminal, reversed + [current]);
        return Ok(reversed + [current]);
      }
      if current.supersedes !in store {
        StopsAt(store, terminal, reversed + [current], NotFound);
        return Err(NotFound);
      }
      SeenGrows(store, reversed, current);
      seen := seen + {current.id};
      reversed := reversed + [current];
      current := store[current.supersedes];
    }
  }

  lemma SeenGrows(store: Store, rows: seq<Identifier>, current: Identifier)
    requires Held(store, current) && current.id !in Ids(rows)
    ensures Ids(rows + [current]) == Ids(rows) + {current.id}
    ensures |store.Keys - (Ids(rows) + {current.id})| < |store.Keys - Ids(rows)|
  {
    IdsAppend(rows, current);
    FewerLeft(store.Keys, Ids(rows), current.id);
  }

  lemma FewerLeft(all: set<Name>, seen: set<Name>, x: Name)
    requires x in all && x !in seen
    ensures |all - (seen + {x})| < |all - seen|
  {
    assert all - seen == (all - (seen + {x})) + {x};
  }

  lemma LoopedOrLong(store: Store, terminal: Identifier, rows: seq<Identifier>, current: Identifier)
    requires LeadsTo(store, terminal, rows, current)
    requires current.id in Ids(rows) || |rows| >= MAXIMUM_CHAIN
    ensures FailsExactly(store, terminal, Some(Conflict))
  {
    if current.id in Ids(rows) {
      StopsAt(store, terminal, rows, Conflict);
    } else {
      WalkedOn(store, terminal, rows, current);
      StopsAt(store, terminal, rows + [current], Conflict);
    }
  }

  lemma WalkedOn(store: Store, terminal: Identifier, rows: seq<Identifier>, current: Identifier)
    requires LeadsTo(store, terminal, rows, current) && current.id !in Ids(rows)
    ensures Walked(store, terminal, rows + [current]) && LastOf(rows + [current]) == current
  {
    if rows != [] {
      WalkedMore(store, terminal, rows, current);
    }
  }

  lemma StopsAt(store: Store, terminal: Identifier, rows: seq<Identifier>, error: Error)
    requires Walked(store, terminal, rows) && FailsWith(store, rows, error)
    ensures FailsExactly(store, terminal, Some(error))
  {
    forall other | ReadFails(store, terminal, other) ensures other == error {
      FailsOnce(store, terminal, rows, error, other);
    }
  }

  lemma {:induction false} TraceWalked(store: Store, current: Identifier, lineage: set<Name>, rows: seq<Identifier>)
    requires Held(store, current) && Trace(store, current, lineage) == Some(rows)
    ensures Walked(store, current, rows) && LastOf(rows).supersedes == NONE && Ids(rows) !! lineage
    decreases |rows|
  {
    if current.supersedes != NONE {
      var rest := rows[1..];
      assert rows == [current] + rest;
      TraceWalked(store, store[current.supersedes], lineage + {current.id}, rest);
      WalkedBefore(store, current, rest);
    }
  }

  lemma WalkedBefore(store: Store, current: Identifier, rest: seq<Identifier>)
    requires Held(store, current) && current.supersedes in store && current.supersedes != NONE
    requires Walked(store, store[current.supersedes], rest) && rest[0].id == current.supersedes
    requires current.id !in Ids(rest)
    ensures Walked(store, current, [current] + rest) && Ids([current] + rest) == {current.id} + Ids(rest)
  {
    var rows := [current] + rest;
    forall i | 0 < i < |rows| ensures Precedes(rows, i) {
      if i > 1 {
        assert Precedes(rest, i - 1);
      }
    }
    IdsBefore(current, rest);
  }

  lemma IdsBefore(current: Identifier, rest: seq<Identifier>)
    requires DistinctIds(rest) && current.id !in Ids(rest)
    ensures DistinctIds([current] + rest) && Ids([current] + rest) == {current.id} + Ids(rest)
  {
    var rows := [current] + rest;
    forall i, j | 0 <= i < j < |rows| ensures rows[i].id != rows[j].id {
      assert rows[j] == rest[j - 1] && rest[j - 1].id in Ids(rest);
    }
    forall k ensures k in Ids(rows) <==> k == current.id || k in Ids(rest) {
      IdBefore(current, rest, k);
    }
  }

  lemma IdBefore(current: Identifier, rest: seq<Identifier>, k: Name)
    ensures k in Ids([current] + rest) <==> k == current.id || k in Ids(rest)
  {
    var rows := [current] + rest;
    assert rows[0] == current;
    if k in Ids(rest) {
      var i :| 0 <= i < |rest| && rest[i].id == k;
      assert rows[i + 1] == rest[i];
    }
  }

  lemma {:induction false} WalkedTraced(store: Store, current: Identifier, lineage: set<Name>, rows: seq<Identifier>)
    requires Held(store, current) && Walked(store, current, rows) && LastOf(rows).supersedes == NONE
    requires Ids(rows) !! lineage
    ensures Trace(store, current, lineage) == Some(rows)
    decreases |rows|
  {
    assert current.id in Ids(rows);
    if |rows| == 1 {
      assert rows == [current];
    } else {
      assert Precedes(rows, 1) && Held(store, rows[1]);
      WalkedTail(store, current, rows);
      assert Ids(rows[1..]) !! lineage + {current.id};
      WalkedTraced(store, rows[1], lineage + {current.id}, rows[1..]);
      assert rows == [current] + rows[1..];
    }
  }

  lemma WalkedTail(store: Store, current: Identifier, rows: seq<Identifier>)
    requires Walked(store, current, rows) && |rows| > 1
    ensures Walked(store, rows[1], rows[1..]) && LastOf(rows[1..]) == LastOf(rows)
    ensures Ids(rows[1..]) == Ids(rows) - {current.id}
  {
    var rest := rows[1..];
    forall i | 0 < i < |rest| ensures Precedes(rest, i) {
      assert Precedes(rows, i + 1);
    }
    assert rows == [rows[0]] + rest;
    forall k | k in Ids(rows) && k != current.id ensures k in Ids(rest) {
      var i :| 0 <= i < |rows| && rows[i].id == k;
      assert rest[i - 1].id == k;
    }
    forall k | k in Ids(rest) ensures k in Ids(rows) && k != current.id {
      var i :| 0 <= i < |rest| && rest[i].id == k;
      assert rows[i + 1].id == k;
    }
  }

  /** The rows back to the first are the walk that ends there. */
  lemma TraceExactly(store: Store, current: Identifier, rows: seq<Identifier>)
    requires Held(store, current)
    ensures Trace(store, current, {}) == Some(rows) <==> Walked(store, current, rows) && LastOf(rows).supersedes == NONE
  {
    if Trace(store, current, {}) == Some(rows) {
      TraceWalked(store, current, {}, rows);
    } else if Walked(store, current, rows) && LastOf(rows).supersedes == NONE {
      WalkedTraced(store, current, {}, rows);
    }
  }

  lemma TraceHeld(store: Store, current: Identifier)
    requires Held(store, current)
    ensures match Trace(store, current, {})
            case None => true
            case Some(items) => items != [] && items[0] == current && Within(items, store)
  {
    if Trace(store, current, {}).Some? {
      TraceWalked(store, current, {}, Trace(store, current, {}).value);
    }
  }

  function Reversed(s: seq<Identifier>): (r: seq<Identifier>)
    ensures |r| == |s| && forall i :: 0 <= i < |s| ==> r[i] == s[|s| - 1 - i]
  {
    seq(|s|, i requires 0 <= i < |s| => s[|s| - 1 - i])
  }

  method ReverseItems(reversed: seq<Identifier>) returns (items: seq<Identifier>)
    ensures items == Reversed(reversed)
  {
    if reversed == [] {
      return [];
    }
    var slots := new Identifier[|reversed|](i => reversed[0]);
    for index := 0 to |reversed|
      invariant forall i :: 0 <= i < index ==> slots[|reversed| - 1 - i] == reversed[i]
    {
      slots[|reversed| - 1 - index] := reversed[index];
    }
    items := slots[..];
    forall i | 0 <= i < |items| ensures items[i] == reversed[|reversed| - 1 - i] {
      assert slots[|reversed| - 1 - (|reversed| - 1 - i)] == reversed[|reversed| - 1 - i];
    }
  }

  /** The chain that ends in the given item, if the walk back succeeds. */
  function ChainOf(store: Store, terminal: Identifier): Option<Chain>
    requires Held(store, terminal)
  {
    match Trace(store, terminal, {})
    case None => None
    case Some(items) => Some(Chain(terminal.id, Reversed(items)))
  }

  // ----- Partitions -------------------------------------------------------------------------

  ghost predicate Within(items: seq<Identifier>, store: Store) {
    forall i :: 0 <= i < |items| ==> Held(store, items[i])
  }

  ghost predicate Disjoint(chains: set<Chain>) {
    forall a, b :: a in chains && b in chains && a != b ==> Ids(a.items) !! Ids(b.items)
  }

  ghost predicate InSome(chains: set<Chain>, k: Name) {
    exists c :: c in chains && k in Ids(c.items)
  }

  ghost predicate Covers(chains: set<Chain>, store: Store) {
    forall k {:trigger InSome(chains, k)} :: k in store ==> InSome(chains, k)
  }

  ghost predicate AllLineages(ok: Identifier -> bool, chains: set<Chain>, store: Store) {
    forall c :: c in chains ==> Lineage(ok, c) && Within(c.items, store)
  }

  /** The store is the disjoint union of the given chains. */
  ghost predicate Partition(ok: Identifier -> bool, chains: set<Chain>, store: Store) {
    AllLineages(ok, chains, store) && Disjoint(chains) && Covers(chains, store)
  }

  ghost predicate AllValid(ok: Identifier -> bool, chains: set<Chain>) {
    forall c :: c in chains ==> ValidChain(ok, c)
  }

  /** No accepted identifier has an empty name. */
  ghost predicate Named(ok: Identifier -> bool) {
    forall item :: ok(item) ==> item.id != NONE
  }

  /** A chain is what the walk back from its terminal gives. */
  ghost predicate Traced(store: Store, chain: Chain) {
    && chain.terminal in store && store[chain.terminal].replacedBy == NONE
    && Held(store, store[chain.terminal])
    && ChainOf(store, store[chain.terminal]) == Some(chain)
  }

  lemma LinkAt(ok: Identifier -> bool, chain: Chain, i: nat)
    requires Lineage(ok, chain) && 0 < i < |chain.items|
    ensures Linked(chain.items[i - 1], chain.items[i]) && ok(chain.items[i])
  {
    assert ItemFits(ok, chain.items, i);
  }

  lemma {:induction false} TraceOfLineage(
      ok: Identifier -> bool, chain: Chain, store: Store, i: nat, lineage: set<Name>)
    requires Named(ok) && Lineage(ok, chain) && Within(chain.items, store) && i < |chain.items|
    requires forall j :: 0 <= j <= i ==> chain.items[j].id !in lineage
    ensures Trace(store, chain.items[i], lineage) == Some(Reversed(chain.items[..i + 1]))
    decreases i
  {
    var items := chain.items;
    assert ItemFits(ok, items, i);
    if i == 0 {
      assert Reversed(items[..1]) == [items[0]];
    } else {
      LinkAt(ok, chain, i);
      assert ItemFits(ok, items, i - 1);
      assert Held(store, items[i - 1]);
      TraceOfLineage(ok, chain, store, i - 1, lineage + {items[i].id});
      assert Reversed(items[..i + 1]) == [items[i]] + Reversed(items[..i]);
    }
  }

  /** A lineage is recovered from its terminal. */
  lemma LineageTraced(ok: Identifier -> bool, chain: Chain, store: Store)
    requires Named(ok) && Lineage(ok, chain) && Within(chain.items, store)
    ensures Traced(store, chain)
  {
    var n := |chain.items| - 1;
    var last := chain.items[n];
    TraceOfLineage(ok, chain, store, n, {});
    assert chain.items[..n + 1] == chain.items;
    assert Reversed(Reversed(chain.items)) == chain.items;
    assert Held(store, last);
  }

  /** An item that nothing replaced is the last of its chain. */
  lemma TerminalIsLast(ok: Identifier -> bool, chain: Chain, store: Store, t: Identifier)
    requires Named(ok) && Lineage(ok, chain) && Within(chain.items, store)
    requires Held(store, t) && t.replacedBy == NONE && t.id in Ids(chain.items)
    ensures t.id == chain.terminal
  {
    var i :| 0 <= i < |chain.items| && chain.items[i].id == t.id;
    assert Held(store, chain.items[i]);
    if i < |chain.items| - 1 {
      LinkAt(ok, chain, i + 1);
    }
  }

  /** The chains of a partition are exactly the chains the walks back give. */
  lemma PartitionIsTraced(ok: Identifier -> bool, chains: set<Chain>, store: Store, c: Chain)
    requires Named(ok) && Partition(ok, chains, store)
    ensures c in chains <==> Traced(store, c)
  {
    if c in chains {
      LineageTraced(ok, c, store);
    }
    if Traced(store, c) {
      var t := store[c.terminal];
      assert InSome(chains, c.terminal);
      var d :| d in chains && c.terminal in Ids(d.items);
      TracedTerminal(store, c);
      TerminalIsLast(ok, d, store, t);
      LineageTraced(ok, d, store);
    }
  }

  lemma TracedTerminal(store: Store, c: Chain)
    requires Traced(store, c)
    ensures store[c.terminal].id == c.terminal
  {
  }

  /** A store is a disjoint union of chains in at most one way. */
  lemma PartitionUnique(ok: Identifier -> bool, a: set<Chain>, b: set<Chain>, store: Store)
    requires Named(ok) && Partition(ok, a, store) && Partition(ok, b, store)
    ensures a == b
  {
    forall c ensures c in a <==> c in b {
      PartitionIsTraced(ok, a, store, c);
      PartitionIsTraced(ok, b, store, c);
    }
  }

  // ----- The exporter -----------------------------------------------------------------------

  /** The store has exactly the given rows, under their own names. */
  ghost predicate Indexes(store: Store, items: seq<Identifier>) {
    WellKeyed(store) && Within(items, store) && store.Keys == Ids(items)
  }

  lemma {:induction false} IdsSize(items: seq<Identifier>)
    requires DistinctIds(items)
    ensures |Ids(items)| == |items|
  {
    if items != [] {
      var front, last := items[..|items| - 1], items[|items| - 1];
      assert items == front + [last];
      IdsAppend(front, last);
      IdsSize(front);
    }
  }

  lemma IndexesOnce(a: Store, b: Store, items: seq<Identifier>)
    requires Indexes(a, items) && Indexes(b, items)
    ensures a == b
  {
    forall k | k in a ensures a[k] == b[k] {
      var i :| 0 <= i < |items| && items[i].id == k;
      assert Held(a, items[i]) && Held(b, items[i]);
    }
  }

  lemma IndexesStep(store: Store, items: seq<Identifier>, item: Identifier)
    requires Indexes(store, items) && item.id !in store
    ensures Indexes(store[item.id := item], items + [item])
  {
    IdsAppend(items, item);
    var more, grown := items + [item], store[item.id := item];
    forall i | 0 <= i < |more| ensures Held(grown, more[i]) {
      if i < |items| {
        assert more[i] == items[i] && Held(store, items[i]);
      }
    }
  }

  lemma SeenBefore(items: seq<Identifier>, n: nat)
    requires n < |items| && DistinctIds(items)
    ensures items[n].id !in Ids(items[..n])
  {
    forall i | 0 <= i < n ensures items[..n][i].id != items[n].id {
      assert items[..n][i] == items[i];
    }
  }

  /** Indexes the snapshot, refusing a repeated name. */
  method IndexItems(items: seq<Identifier>) returns (r: Option<Store>)
    ensures r.Some? <==> DistinctIds(items)
    ensures r.Some? ==> Indexes(r.value, items)
  {
    var byId: Store := map[];
    for n := 0 to |items|
      invariant DistinctIds(items[..n]) && Indexes(byId, items[..n])
    {
      assert items[..n + 1] == items[..n] + [items[n]];
      IdsAppend(items[..n], items[n]);
      if items[n].id in byId {
        if DistinctIds(items) {
          SeenBefore(items, n);
        }
        return None;
      }
      IndexesStep(byId, items[..n], items[n]);
      byId := byId[items[n].id := items[n]];
    }
    assert items[..|items|] == items;
    return Some(byId);
  }

  method MarkVisited(items: seq<Identifier>, before: set<Name>) returns (r: Option<set<Name>>)
    requires DistinctIds(items)
    ensures r.Some? <==> Ids(items) !! before
    ensures r.Some? ==> r.value == before + Ids(items)
  {
    var visited := before;
    for n := 0 to |items|
      invariant visited == before + Ids(items[..n]) && Ids(items[..n]) !! before
    {
      assert items[..n + 1] == items[..n] + [items[n]];
      IdsAppend(items[..n], items[n]);
      if items[n].id in visited {
        assert items[n].id in Ids(items);
        SeenBefore(items, n);
        return None;
      }
      visited := visited + {items[n].id};
    }
    assert items[..|items|] == items;
    return Some(visited);
  }

  ghost predicate ValidPartition(ok: Identifier -> bool, chains: set<Chain>, store: Store) {
    Partition(ok, chains, store) && AllValid(ok, chains)
  }

  /** No way of splitting the store into valid chains. */
  ghost predicate Refused(ok: Identifier -> bool, store: Store) {
    forall chains: set<Chain> :: !ValidPartition(ok, chains, store)
  }

  /** In a partition every walk back from a terminal succeeds. */
  lemma PartitionTraces(ok: Identifier -> bool, chains: set<Chain>, store: Store, t: Identifier)
    requires Named(ok) && Partition(ok, chains, store) && Held(store, t) && t.replacedBy == NONE
    ensures ChainOf(store, t).Some?
  {
    assert InSome(chains, t.id);
    var d :| d in chains && t.id in Ids(d.items);
    TerminalIsLast(ok, d, store, t);
    LineageTraced(ok, d, store);
  }

  lemma UntracedRefused(ok: Identifier -> bool, store: Store, t: Identifier)
    requires Named(ok) && Held(store, t) && t.replacedBy == NONE && ChainOf(store, t) == None
    ensures Refused(ok, store)
  {
    forall chains: set<Chain> ensures !ValidPartition(ok, chains, store) {
      if Partition(ok, chains, store) {
        PartitionTraces(ok, chains, store, t);
      }
    }
  }

  lemma InvalidRefused(ok: Identifier -> bool, store: Store, c: Chain)
    requires Named(ok) && Traced(store, c) && !ValidChain(ok, c)
    ensures Refused(ok, store)
  {
    forall chains: set<Chain> ensures !ValidPartition(ok, chains, store) {
      if Partition(ok, chains, store) {
        PartitionIsTraced(ok, chains, store, c);
      }
    }
  }

  function Terminal(): Chain -> Name {
    (c: Chain) => c.terminal
  }

  ghost predicate AllSound(ok: Identifier -> bool, result: seq<Chain>, store: Store) {
    forall c :: c in result ==> ValidChain(ok, c) && Within(c.items, store) && Traced(store, c)
  }

  ghost predicate Visits(visited: set<Name>, result: seq<Chain>) {
    forall k :: k in visited <==> exists c :: c in result && k in Ids(c.items)
  }

  /** The chains gathered so far are traced, valid and disjoint, and visited holds their names. */
  ghost predicate Gathered(ok: Identifier -> bool, result: seq<Chain>, visited: set<Name>, store: Store) {
    AllSound(ok, result, store) && Disjoint(Elements(result)) && Visits(visited, result)
  }

  /** Every terminal among the first n items has given its chain. */
  ghost predicate Processed(result: seq<Chain>, items: seq<Identifier>, n: nat)
    requires n <= |items|
  {
    && (forall m :: 0 <= m < n && items[m].replacedBy == NONE ==> exists c :: c in result && c.terminal == items[m].id)
    && (forall c :: c in result ==> c.terminal in Ids(items[..n]))
  }

  lemma LastInIds(ok: Identifier -> bool, c: Chain)
    requires Lineage(ok, c)
    ensures c.terminal in Ids(c.items)
  {
    assert c.items[|c.items| - 1].id == c.terminal;
  }

  lemma GatherOne(ok: Identifier -> bool, result: seq<Chain>, visited: set<Name>, store: Store, c: Chain)
    requires Gathered(ok, result, visited, store)
    requires ValidChain(ok, c) && Within(c.items, store) && Traced(store, c) && Ids(c.items) !! visited
    ensures Gathered(ok, result + [c], visited + Ids(c.items), store)
  {
    var more := result + [c];
    assert forall d :: d in more <==> d in result || d == c;
    forall a | a in result ensures Ids(a.items) !! Ids(c.items) {
      forall k | k in Ids(a.items) ensures k !in Ids(c.items) {
        assert k in visited;
      }
    }
  }

  lemma IdsWithin(items: seq<Identifier>, store: Store)
    requires Within(items, store)
    ensures Ids(items) <= store.Keys
  {
    forall k | k in Ids(items) ensures k in store {
      var i :| 0 <= i < |items| && items[i].id == k;
      assert Held(store, items[i]);
    }
  }

  lemma VisitedHeld(ok: Identifier -> bool, result: seq<Chain>, visited: set<Name>, store: Store)
    requires AllSound(ok, result, store) && Visits(visited, result)
    ensures visited <= store.Keys
  {
    forall k | k in visited ensures k in store {
      var c :| c in result && k in Ids(c.items);
      IdsWithin(c.items, store);
    }
  }

  lemma VisitedCovers(result: seq<Chain>, visited: set<Name>, store: Store)
    requires Visits(visited, result) && visited == store.Keys
    ensures Covers(Elements(result), store)
  {
    forall k | k in store ensures InSome(Elements(result), k) {
      var c :| c in result && k in Ids(c.items);
      assert c in Elements(result);
    }
  }

  lemma SoundValid(ok: Identifier -> bool, result: seq<Chain>, store: Store)
    requires AllSound(ok, result, store)
    ensures AllValid(ok, Elements(result))
    ensures AllLineages(ok, Elements(result), store)
  {
  }

  lemma CoveredPartition(ok: Identifier -> bool, result: seq<Chain>, visited: set<Name>, store: Store)
    requires Gathered(ok, result, visited, store) && visited == store.Keys
    ensures ValidPartition(ok, Elements(result), store)
  {
    VisitedCovers(result, visited, store);
    SoundValid(ok, result, store);
  }

  lemma UncoveredRefused(
      ok: Identifier -> bool, result: seq<Chain>, visited: set<Name>, items: seq<Identifier>, store: Store)
    requires Named(ok) && Gathered(ok, result, visited, store) && Processed(result, items, |items|)
    requires Indexes(store, items) && visited != store.Keys
    ensures Refused(ok, store)
  {
    VisitedHeld(ok, result, visited, store);
    forall chains: set<Chain> ensures !ValidPartition(ok, chains, store) {
      if Partition(ok, chains, store) {
        AllVisited(ok, chains, result, visited, items, store);
      }
    }
  }

  /** Counting the visited names decides whether the chains cover the store. */
  lemma CountDecides(
      ok: Identifier -> bool, result: seq<Chain>, visited: set<Name>, items: seq<Identifier>, store: Store)
    requires Gathered(ok, result, visited, store) && DistinctIds(items) && Indexes(store, items)
    ensures |visited| == |items| <==> visited == store.Keys
  {
    VisitedHeld(ok, result, visited, store);
    IdsSize(items);
    if |visited| == |items| {
      SubsetSize(visited, store.Keys);
    }
  }

  lemma AllVisited(
      ok: Identifier -> bool, chains: set<Chain>, result: seq<Chain>, visited: set<Name>, items: seq<Identifier>,
      store: Store)
    requires Named(ok) && Partition(ok, chains, store)
    requires Gathered(ok, result, visited, store) && Processed(result, items, |items|)
    requires Indexes(store, items)
    ensures store.Keys <= visited
  {
    forall k | k in store ensures k in visited {
      assert InSome(chains, k);
      var d :| d in chains && k in Ids(d.items);
      LineageTraced(ok, d, store);
      var m :| 0 <= m < |items| && items[m].id == d.terminal;
      assert Held(store, items[m]);
      var c :| c in result && c.terminal == items[m].id;
      assert Traced(store, c);
      assert c == d;
    }
  }

  // ----- Which error a refused snapshot gets ------------------------------------------------

  /** The row was replaced, or the walk back from it gives a valid chain. */
  ghost predicate FineAt(ok: Identifier -> bool, store: Store, item: Identifier) {
    item.replacedBy == NONE ==>
      Held(store, item) && ChainOf(store, item).Some? && ValidChain(ok, ChainOf(store, item).value)
  }

  ghost predicate FineBefore(ok: Identifier -> bool, store: Store, items: seq<Identifier>, n: nat) {
    n <= |items| && forall m :: 0 <= m < n ==> FineAt(ok, store, items[m])
  }

  ghost predicate FirstFault(ok: Identifier -> bool, store: Store, items: seq<Identifier>, n: nat) {
    FineBefore(ok, store, items, n) && n < |items| && !FineAt(ok, store, items[n])
  }

  /** The first row at fault can be walked back from, but to no valid chain. */
  ghost predicate InvalidFirst(ok: Identifier -> bool, store: Store, items: seq<Identifier>) {
    exists n: nat :: FirstFault(ok, store, items, n) && Held(store, items[n]) && ChainOf(store, items[n]).Some?
  }

  lemma UntracedFirst(ok: Identifier -> bool, store: Store, items: seq<Identifier>, n: nat)
    requires FineBefore(ok, store, items, n) && n < |items| && Held(store, items[n])
    requires items[n].replacedBy == NONE && ChainOf(store, items[n]).None?
    ensures !InvalidFirst(ok, store, items)
  {
    forall m: nat | FirstFault(ok, store, items, m) ensures m == n {
      FaultOnce(ok, store, items, m, n);
    }
  }

  lemma FaultOnce(ok: Identifier -> bool, store: Store, items: seq<Identifier>, m: nat, n: nat)
    requires FirstFault(ok, store, items, m) && FirstFault(ok, store, items, n)
    ensures m == n
  {
  }

  lemma AllFine(ok: Identifier -> bool, store: Store, items: seq<Identifier>)
    requires FineBefore(ok, store, items, |items|)
    ensures !InvalidFirst(ok, store, items)
  {
  }

  /** Valid chains of one store that share a row have the same terminal. */
  lemma {:induction false} SharedTail(ok: Identifier -> bool, store: Store, c: Chain, d: Chain, i: nat, j: nat)
    requires Lineage(ok, c) && Lineage(ok, d) && Within(c.items, store) && Within(d.items, store)
    requires i < |c.items| && j < |d.items| && c.items[i].id == d.items[j].id
    ensures c.terminal == d.terminal
    decreases |c.items| - i
  {
    assert Held(store, c.items[i]) && Held(store, d.items[j]);
    assert ItemFits(ok, c.items, i) && ItemFits(ok, d.items, j);
    if i < |c.items| - 1 && j < |d.items| - 1 {
      LinkAt(ok, c, i + 1);
      LinkAt(ok, d, j + 1);
      SharedTail(ok, store, c, d, i + 1, j + 1);
    }
  }

  lemma NotShared(ok: Identifier -> bool, result: seq<Chain>, visited: set<Name>, store: Store, c: Chain)
    requires Gathered(ok, result, visited, store) && ValidChain(ok, c) && Within(c.items, store)
    requires forall d :: d in result ==> d.terminal != c.terminal
    ensures Ids(c.items) !! visited
  {
    forall k | k in Ids(c.items) ensures k !in visited {
      if k in visited {
        var d :| d in result && k in Ids(d.items);
        var i :| 0 <= i < |c.items| && c.items[i].id == k;
        var j :| 0 <= j < |d.items| && d.items[j].id == k;
        SharedTail(ok, store, c, d, i, j);
      }
    }
  }

  /** The chain ending in the given item, checked; without a chain there is no partition. */
  method BuildChain(
      svc: Service, ghost ok: Identifier -> bool, store: Store, terminal: Identifier)
    returns (r: Result<Chain>)
    requires ok == Accepts(svc) && Named(ok) && WellKeyed(store) && Held(store, terminal) && terminal.replacedBy == NONE
    ensures r.Err? ==> Refused(ok, store) && !FineAt(ok, store, terminal)
    ensures r.Err? ==> r.error == if ChainOf(store, terminal).Some? then InvalidInput else Conflict
    ensures r.Ok? ==> r.value.terminal == terminal.id && ValidChain(ok, r.value) && Traced(store, r.value)
    ensures r.Ok? ==> Within(r.value.items, store) && FineAt(ok, store, terminal)
  {
    var reversed := WalkIndex(store, terminal);
    if reversed.None? {
      UntracedRefused(ok, store, terminal);
      return Err(Conflict);
    }
    TraceHeld(store, terminal);
    var items := ReverseItems(reversed.value);
    var chain := Chain(terminal.id, items);
    assert Traced(store, chain);
    var valid := CheckChain(svc, chain);
    if !valid {
      InvalidRefused(ok, store, chain);
      return Err(InvalidInput);
    }
    return Ok(chain);
  }

  ghost predicate GatheredTo(
      ok: Identifier -> bool, result: seq<Chain>, visited: set<Name>, items: seq<Identifier>, n: nat, store: Store)
    requires n <= |items|
  {
    Gathered(ok, result, visited, store) && Processed(result, items, n) && DistinctKeys(result, Terminal())
  }

  lemma SkipOne(result: seq<Chain>, items: seq<Identifier>, n: nat)
    requires n < |items| && Processed(result, items, n) && items[n].replacedBy != NONE
    ensures Processed(result, items, n + 1)
  {
    assert items[..n + 1] == items[..n] + [items[n]];
    IdsAppend(items[..n], items[n]);
  }

  lemma TerminalsAppend(result: seq<Chain>, c: Chain)
    requires DistinctKeys(result, Terminal()) && forall d :: d in result ==> d.terminal != c.terminal
    ensures DistinctKeys(result + [c], Terminal())
  {
  }

  lemma GatherLands(
      ok: Identifier -> bool, result: seq<Chain>, visited: set<Name>, items: seq<Identifier>, n: nat, store: Store,
      c: Chain)
    requires n < |items| && GatheredTo(ok, result, visited, items, n, store) && c.terminal == items[n].id
    requires ValidChain(ok, c) && Within(c.items, store) && Traced(store, c) && Ids(c.items) !! visited
    requires forall d :: d in result ==> d.terminal != c.terminal
    ensures GatheredTo(ok, result + [c], visited + Ids(c.items), items, n + 1, store)
  {
    GatherOne(ok, result, visited, store, c);
    ProcessOne(result, items, n, c);
    TerminalsAppend(result, c);
  }

  method GatherNext(
      svc: Service, ghost ok: Identifier -> bool, items: seq<Identifier>, n: nat, store: Store, result: seq<Chain>,
      visited: set<Name>)
    returns (fault: Option<Error>, grown: seq<Chain>, seen: set<Name>)
    requires ok == Accepts(svc) && Named(ok) && DistinctIds(items) && Indexes(store, items) && n < |items|
    requires GatheredTo(ok, result, visited, items, n, store) && FineBefore(ok, store, items, n)
    ensures fault.Some? ==> Refused(ok, store) && (fault.value == Conflict || fault.value == InvalidInput)
    ensures fault.Some? ==> (fault.value == InvalidInput <==> InvalidFirst(ok, store, items))
    ensures fault.None? ==> GatheredTo(ok, grown, seen, items, n + 1, store) && FineBefore(ok, store, items, n + 1)
  {
    if items[n].replacedBy != NONE {
      SkipOne(result, items, n);
      return None, result, visited;
    }
    assert Held(store, items[n]);
    var chain := BuildChain(svc, ok, store, items[n]);
    if chain.Err? {
      if chain.error == Conflict {
        UntracedFirst(ok, store, items, n);
      } else {
        assert FirstFault(ok, store, items, n);
      }
      return Some(chain.error), result, visited;
    }
    NewTerminal(result, items, n);
    NotShared(ok, result, visited, store, chain.value);
    var marked := MarkVisited(chain.value.items, visited);
    if marked.None? {
      return Some(Conflict), result, visited;
    }
    GatherLands(ok, result, visited, items, n, store, chain.value);
    return None, result + [chain.value], marked.value;
  }

  method GatherChains(svc: Service, ghost ok: Identifier -> bool, items: seq<Identifier>, store: Store)
    returns (r: Result<seq<Chain>>)
    requires ok == Accepts(svc) && Named(ok) && DistinctIds(items) && Indexes(store, items)
    ensures r.Err? ==> Refused(ok, store) && (r.error == Conflict || r.error == InvalidInput)
    ensures r == Err(InvalidInput) <==> InvalidFirst(ok, store, items)
    ensures r.Ok? ==> ValidPartition(ok, Elements(r.value), store) && DistinctKeys(r.value, Terminal())
  {
    var fault, result, visited := GatherAll(svc, ok, items, store);
    if fault.Some? {
      return Err(fault.value);
    }
    AllFine(ok, store, items);
    CountDecides(ok, result, visited, items, store);
    if |visited| != |items| {
      UncoveredRefused(ok, result, visited, items, store);
      return Err(Conflict);
    }
    CoveredPartition(ok, result, visited, store);
    return Ok(result);
  }

  method GatherAll(svc: Service, ghost ok: Identifier -> bool, items: seq<Identifier>, store: Store)
    returns (fault: Option<Error>, result: seq<Chain>, visited: set<Name>)
    requires ok == Accepts(svc) && Named(ok) && DistinctIds(items) && Indexes(store, items)
    ensures fault.Some? ==> Refused(ok, store) && (fault.value == Conflict || fault.value == InvalidInput)
    ensures fault.Some? ==> (fault.value == InvalidInput <==> InvalidFirst(ok, store, items))
    ensures fault.None? ==>
              GatheredTo(ok, result, visited, items, |items|, store) && FineBefore(ok, store, items, |items|)
  {
    result, visited := [], {};
    for n := 0 to |items|
      invariant GatheredTo(ok, result, visited, items, n, store) && FineBefore(ok, store, items, n)
    {
      fault, result, visited := GatherNext(svc, ok, items, n, store, result, visited);
      if fault.Some? {
        return;
      }
    }
    fault := None;
  }

  lemma NewTerminal(result: seq<Chain>, items: seq<Identifier>, n: nat)
    requires DistinctIds(items) && n < |items| && Processed(result, items, n)
    ensures forall c :: c in result ==> c.terminal != items[n].id
  {
    forall c | c in result ensures c.terminal != items[n].id {
      var m :| 0 <= m < n && items[..n][m].id == c.terminal;
      assert items[m].id != items[n].id;
    }
  }

  lemma ProcessOne(result: seq<Chain>, items: seq<Identifier>, n: nat, c: Chain)
    requires n < |items| && Processed(result, items, n) && c.terminal == items[n].id
    ensures Processed(result + [c], items, n + 1)
  {
    assert items[..n + 1] == items[..n] + [items[n]];
    IdsAppend(items[..n], items[n]);
    var more := result + [c];
    assert forall d :: d in more <==> d in result || d == c;
    forall m | 0 <= m < n + 1 && items[m].replacedBy == NONE
      ensures exists d :: d in more && d.terminal == items[m].id
    {
      if m < n {
        var d :| d in result && d.terminal == items[m].id;
        assert d in more;
      } else {
        assert c in more;
      }
    }
  }

  /** The snapshot is within the caller's bound and no name is in it twice. */
  predicate Listable(items: seq<Identifier>, maximum: int) {
    1 <= maximum && |items| <= maximum && DistinctIds(items)
  }

  /**
    The bulk exporter. It accepts a snapshot exactly when it is within the caller's bound, the names are
    distinct and the rows are a disjoint union of valid chains; it then returns those chains in ascending
    order of terminal. Otherwise the error tells which of these failed.
   */
  method ExchangeIdentifierChains(svc: Service, items: seq<Identifier>, maximum: int) returns (r: Result<seq<Chain>>)
    requires Lawful(svc.text)
    ensures r.Ok? <==>
            && Listable(items, maximum)
            && exists store, chains :: Indexes(store, items) && ValidPartition(Accepts(svc), chains, store)
    ensures r.Ok? ==> Ascending(r.value, Terminal())
    ensures r.Ok? ==> forall store :: Indexes(store, items) ==> ValidPartition(Accepts(svc), Elements(r.value), store)
    ensures r == Err(TooLarge) <==> 1 <= maximum < |items|
    ensures r == Err(InvalidInput) <==>
            || maximum < 1
            || (&& Listable(items, maximum)
                && exists store :: Indexes(store, items) && InvalidFirst(Accepts(svc), store, items))
    ensures r.Err? ==> r.error in {TooLarge, InvalidInput, Conflict}
  {
    if maximum < 1 {
      return Err(InvalidInput);
    }
    if |items| > maximum {
      return Err(TooLarge);
    }
    var index := IndexItems(items);
    if index.None? {
      return Err(Conflict);
    }
    forall store | Indexes(store, items) ensures store == index.value {
      IndexesOnce(store, index.value, items);
    }
    AcceptsNamed(svc);
    var result := GatherChains(svc, Accepts(svc), items, index.value);
    if result.Err? {
      return result;
    }
    SortAscending(result.value, Terminal());
    return Ok(Sort(result.value, Terminal()));
  }

  /** The export does not depend on the order of the snapshot: one ascending listing fits a store. */
  lemma ExportUnique(ok: Identifier -> bool, a: seq<Chain>, b: seq<Chain>, store: Store)
    requires Named(ok) && Ascending(a, Terminal()) && Ascending(b, Terminal())
    requires ValidPartition(ok, Elements(a), store) && ValidPartition(ok, Elements(b), store)
    ensures a == b
  {
    PartitionUnique(ok, Elements(a), Elements(b), store);
    AscendingUnique(a, b, Terminal());
  }

  lemma AcceptsNamed(svc: Service)
    requires Lawful(svc.text)
    ensures Named(Accepts(svc))
  {
  }

  lemma TerminalStable(svc: Service, c: Chain)
    requires ValidChain(Accepts(svc), c)
    ensures svc.text.stable(c.terminal)
  {
    assert ItemFits(Accepts(svc), c.items, |c.items| - 1);
  }

  /** The named row is there and nothing has replaced it. */
  predicate IsTerminal(store: Store, id: Name) {
    id in store && store[id].replacedBy == NONE
  }

  /**
    One chain by point reads: succeeds exactly when the named item ends a valid chain; else the error tells why
    not.
   */
  method ExchangeIdentifierChain(svc: Service, store: Store, terminalId: Name) returns (r: Result<Chain>)
    requires WellKeyed(store)
    ensures forall c :: r == Ok(c) <==>
                        c.terminal == svc.text.clean(terminalId) && Traced(store, c) && ValidChain(Accepts(svc), c)
    ensures var id := svc.text.clean(terminalId);
            && (r == Err(NotFound) <==>
                  svc.text.stable(id) && (IsTerminal(store, id) ==> ReadFails(store, store[id], NotFound)))
            && (r == Err(Conflict) <==>
                  svc.text.stable(id) && IsTerminal(store, id) && ReadFails(store, store[id], Conflict))
            && (r.Err? ==> r.error in {NotFound, Conflict, InvalidInput})
  {
    var id := svc.text.clean(terminalId);
    forall c | ValidChain(Accepts(svc), c) ensures svc.text.stable(c.terminal) {
      TerminalStable(svc, c);
    }
    if !svc.text.stable(id) {
      return Err(InvalidInput);
    }
    if id !in store || store[id].replacedBy != NONE {
      return Err(NotFound);
    }
    var reversed := WalkReads(store, store[id]);
    if reversed.Err? {
      ReadErrors(store, store[id], reversed.error);
      FailedUntraced(store, store[id], reversed.error);
      return Err(reversed.error);
    }
    TraceExactly(store, store[id], reversed.value);
    var items := ReverseItems(reversed.value);
    var chain := Chain(id, items);
    var valid := CheckChain(svc, chain);
    if !valid {
      return Err(InvalidInput);
    }
    return Ok(chain);
  }

  /** Where the point reads fail, the walk back fails or is too long. */
  lemma FailedUntraced(store: Store, t: Identifier, error: Error)
    requires Held(store, t) && ReadFails(store, t, error)
    ensures Trace(store, t, {}).Some? ==> |Trace(store, t, {}).value| > MAXIMUM_CHAIN
  {
    if Trace(store, t, {}).Some? {
      var rows := Trace(store, t, {}).value;
      TraceExactly(store, t, rows);
      if |rows| <= MAXIMUM_CHAIN {
        EndsWell(store, t, rows);
      }
    }
  }

  lemma ReadErrors(store: Store, terminal: Identifier, error: Error)
    requires ReadFails(store, terminal, error)
    ensures error == NotFound || error == Conflict
  {
  }

  /** Point reads give the chain the bulk export gives, and nothing else. */
  lemma PointReadsAgree(ok: Identifier -> bool, chains: set<Chain>, store: Store, c: Chain)
    requires Named(ok) && ValidPartition(ok, chains, store)
    ensures c in chains <==> Traced(store, c) && ValidChain(ok, c)
  {
    PartitionIsTraced(ok, chains, store, c);
  }
}
