/**
  Replacement histories of any length: a create request followed by any number of replacements, each
  after reading the row it replaces, reaches a store that is one history of that many rows. Beyond ten
  thousand rows such a store cannot be exported.
 */
module IdentifierHistories {
  import opened Text
  import opened Ordering
  import opened Clock
  import opened Identifiers
  import opened ChainExport
  import opened IdentifierStore
  import opened IdentifierRuns

  // ----- The requests -----------------------------------------------------------------------

  /** An acceptable create request, a context, and the names for the rows of the history. */
  datatype Plan = Plan(svc: Service, input: CreateInput, texts: Texts, scope: Scope, names: nat -> Name)

  ghost predicate Works(p: Plan, last: nat) {
    var t := p.svc.text;
    && Lawful(t) && t.clean(p.svc.organization) != NONE
    && t.stable(p.input.asset) && p.input.asset in p.scope.assets
    && NormalizeTexts(t, p.input.symbology, p.input.value, p.input.display, p.input.source) == Some(p.texts)
    && ValidProvenance(t, p.scope.actor, p.scope.correlation)
    && 0 <= p.scope.clock.nanos < END_OF_TIME
    && NamesFit(p, last)
  }

  ghost predicate NamesFit(p: Plan, last: nat) {
    && (forall i: nat :: i <= last ==> p.svc.text.stable(p.names(i)))
    && (forall i: nat, j: nat :: i < j <= last ==> p.names(i) != p.names(j))
  }

  /** The i-th row when it is added. */
  function Row(p: Plan, i: nat): Identifier {
    NewRow(p.svc, p.names(i), p.input.asset, p.texts, p.input.primary, if i == 0 then NONE else p.names(i - 1),
           p.scope, Normalize(p.scope.clock))
  }

  function FirstRequest(p: Plan): Action {
    Create(p.input.(id := p.names(0)), p.scope)
  }

  function Replacing(p: Plan, i: nat): Action {
    Replace(ReplaceInput(p.input.asset, p.names(i), 1, p.names(i + 1), p.input.symbology, p.input.value,
                         p.input.display, p.input.source), Row(p, i), p.scope)
  }

  function Requests(p: Plan, n: nat): seq<Action> {
    if n == 0 then [FirstRequest(p)]
    else Further(p, Requests(p, n - 1), n - 1)
  }

  /** The i-th row is read and replaced. */
  function Further(p: Plan, before: seq<Action>, i: nat): seq<Action> {
    before + [Read(p.names(i))] + [Replacing(p, i)]
  }

  // ----- What they reach --------------------------------------------------------------------

  function FirstNames(names: nat -> Name, n: nat): set<Name> {
    if n == 0 then {names(0)} else FirstNames(names, n - 1) + {names(n)}
  }

  /** The rows have the first n + 1 names; all but the last have been replaced. */
  ghost predicate Reached(p: Plan, store: Store, n: nat) {
    && store.Keys == FirstNames(p.names, n)
    && p.names(n) in store && store[p.names(n)] == Row(p, n)
    && forall k :: k in store && k != p.names(n) ==> store[k].status == Replaced && store[k].replacedBy != NONE
  }

  lemma {:induction false} NewName(p: Plan, n: nat, m: nat, last: nat)
    requires NamesFit(p, last) && n < m <= last
    ensures p.names(m) !in FirstNames(p.names, n) && |FirstNames(p.names, n)| == n + 1
    decreases n
  {
    if n > 0 {
      NewName(p, n - 1, m, last);
      NewName(p, n - 1, n, last);
    }
  }

  lemma {:induction false} NamesCount(p: Plan, n: nat)
    requires NamesFit(p, n)
    ensures |FirstNames(p.names, n)| == n + 1
  {
    if n > 0 {
      NewName(p, n - 1, n, n);
    }
  }

  lemma RowIsNew(p: Plan, i: nat, last: nat)
    requires Works(p, last) && i <= last
    ensures ValidNew(p.svc, Row(p, i), i > 0) && Row(p, i).id == p.names(i) && Portable(Row(p, i).updatedAt)
  {
    NormalizePortable(p.scope.clock);
    var t, input := p.svc.text, p.input;
    TextsFixed(t, input.symbology, input.value, input.display, input.source, p.texts);
    if i > 0 {
      assert p.names(i - 1) != p.names(i);
    }
  }

  lemma FirstBuilt(p: Plan, last: nat)
    requires Works(p, last)
    ensures BuildCreate(p.svc, p.input.(id := p.names(0)), p.scope) == Some(Row(p, 0))
  {
    assert p.svc.text.stable(p.names(0));
  }

  lemma FirstReached(p: Plan, last: nat)
    requires Works(p, last)
    ensures Reached(p, Next(p.svc, System(map[], {}), FirstRequest(p)).store, 0)
  {
    FirstBuilt(p, last);
    RowIsNew(p, 0, last);
    assert CreateRow(p.svc, map[], Row(p, 0)).store == map[p.names(0) := Row(p, 0)];
  }

  lemma SuccessorBuilt(p: Plan, i: nat, last: nat)
    requires Works(p, last) && i < last
    ensures BuildReplace(p.svc, Replacing(p, i).replace, Row(p, i), p.scope) == Some(Row(p, i + 1))
  {
    RowIsNew(p, i, last);
    assert p.svc.text.stable(p.names(i)) && p.svc.text.stable(p.names(i + 1));
  }

  /** Only the last row is active, so its successor clashes with no other. */
  lemma Unopposed(p: Plan, store: Store, n: nat, row: Identifier)
    requires Reached(p, store, n)
    ensures !ActiveConflict(store, row, Some(p.names(n)))
  {
  }

  lemma SuccessorStored(p: Plan, store: Store, n: nat, last: nat, after: Store)
    requires Works(p, last) && n < last && Reached(p, store, n)
    requires after == store[p.names(n) := Superseded(Row(p, n), Row(p, n + 1), Row(p, n + 1).createdAt)]
                           [p.names(n + 1) := Row(p, n + 1)]
    ensures Reached(p, after, n + 1)
  {
    NewName(p, n, n + 1, last);
    RowIsNew(p, n + 1, last);
    assert p.names(n + 1) != NONE by {
      assert p.svc.text.stable(p.names(n + 1));
    }
  }

  lemma ReplaceApplies(p: Plan, store: Store, n: nat, last: nat)
    requires Works(p, last) && n < last && Reached(p, store, n)
    ensures var row := Row(p, n + 1);
            ReplaceRow(p.svc, store, row.asset, row.supersedes, 1, row, row.createdAt).store ==
            store[p.names(n) := Superseded(Row(p, n), row, row.createdAt)][p.names(n + 1) := row]
  {
    RowIsNew(p, n, last);
    RowIsNew(p, n + 1, last);
    NewName(p, n, n + 1, last);
    Unopposed(p, store, n, Row(p, n + 1));
    assert p.svc.text.stable(p.names(n));
  }

  lemma NextReached(p: Plan, s: System, n: nat, last: nat)
    requires Works(p, last) && n < last && Reached(p, s.store, n)
    ensures Reached(p, Next(p.svc, Next(p.svc, s, Read(p.names(n))), Replacing(p, n)).store, n + 1)
  {
    var t := Next(p.svc, s, Read(p.names(n)));
    assert t.store == s.store && Row(p, n) in t.seen;
    SuccessorBuilt(p, n, last);
    ReplaceApplies(p, s.store, n, last);
    SuccessorStored(p, s.store, n, last, Next(p.svc, t, Replacing(p, n)).store);
  }

  lemma RunFirst(svc: Service, a: Action)
    ensures Run(svc, [a]) == Next(svc, System(map[], {}), a)
  {
    RunMore(svc, [], a);
    assert [] + [a] == [a];
  }

  lemma MoreReach(p: Plan, before: seq<Action>, n: nat, last: nat)
    requires Works(p, last) && n < last && Reached(p, Run(p.svc, before).store, n)
    ensures Reached(p, Run(p.svc, Further(p, before, n)).store, n + 1)
  {
    RunTwoMore(p.svc, before, Read(p.names(n)), Replacing(p, n));
    NextReached(p, Run(p.svc, before), n, last);
  }

  /** Whatever a first request establishes and every further pair of requests keeps. */
  lemma {:induction false} RequestsKeep(
      p: Plan, n: nat, last: nat, run: seq<Action> -> Store, reached: (Store, nat) -> bool)
    requires n <= last && reached(run([FirstRequest(p)]), 0)
    requires forall before: seq<Action>, m: nat {:trigger Further(p, before, m)} ::
               m < last && reached(run(before), m) ==> reached(run(Further(p, before, m)), m + 1)
    ensures reached(run(Requests(p, n)), n)
    decreases n
  {
    if n > 0 {
      RequestsKeep(p, n - 1, last, run, reached);
    }
  }

  lemma RequestsReach(p: Plan, n: nat, last: nat)
    requires Works(p, last) && n <= last
    ensures Reached(p, Run(p.svc, Requests(p, n)).store, n)
  {
    var run := (actions: seq<Action>) => Run(p.svc, actions).store;
    var reached := (store: Store, m: nat) => Reached(p, store, m);
    FirstReached(p, last);
    RunFirst(p.svc, FirstRequest(p));
    forall before: seq<Action>, m: nat | m < last && Reached(p, Run(p.svc, before).store, m)
      ensures Reached(p, Run(p.svc, Further(p, before, m)).store, m + 1)
    {
      MoreReach(p, before, m, last);
    }
    RequestsKeep(p, n, last, run, reached);
  }

  lemma {:induction false} RequestsWork(p: Plan, n: nat, last: nat)
    requires Works(p, last)
    ensures forall i :: 0 <= i < |Requests(p, n)| ==> ClockWorks(Requests(p, n)[i])
  {
    if n > 0 {
      RequestsWork(p, n - 1, last);
    }
  }

  // ----- One history ------------------------------------------------------------------------

  /** A store with a single row that nothing replaced is one history of all its rows. */
  lemma OneTerminal(ok: Identifier -> bool, chains: set<Chain>, store: Store, last: Name) returns (c: Chain)
    requires Named(ok) && Partition(ok, chains, store) && last in store
    requires forall k :: k in store && store[k].replacedBy == NONE ==> k == last
    ensures c in chains && Ids(c.items) == store.Keys && |c.items| == |store|
  {
    assert InSome(chains, last);
    c :| c in chains && last in Ids(c.items);
    forall k | k in store ensures k in Ids(c.items) {
      assert InSome(chains, k);
      var d :| d in chains && k in Ids(d.items);
      SameChain(ok, chains, store, last, c, d);
    }
    IdsWithin(c.items, store);
    IdsSize(c.items);
  }

  lemma SameChain(ok: Identifier -> bool, chains: set<Chain>, store: Store, last: Name, c: Chain, d: Chain)
    requires Partition(ok, chains, store) && c in chains && d in chains && last in Ids(c.items)
    requires forall k :: k in store && store[k].replacedBy == NONE ==> k == last
    ensures c == d
  {
    var end := d.items[|d.items| - 1];
    assert Held(store, end);
    assert end.id in Ids(d.items);
  }

  /** Of any length n + 1 there is a run that reaches one history of that many rows. */
  lemma HistoryReached(p: Plan, n: nat) returns (c: Chain)
    requires Works(p, n)
    ensures forall i :: 0 <= i < |Requests(p, n)| ==> ClockWorks(Requests(p, n)[i])
    ensures var store := Run(p.svc, Requests(p, n)).store;
            && Sound(p.svc, store) && Partition(Accepts(p.svc), {c}, store) && |c.items| == n + 1
  {
    RequestsReach(p, n, n);
    RequestsWork(p, n, n);
    EveryRunSound(p.svc, Requests(p, n));
    NamesCount(p, n);
    c := ReachedHistory(p, Run(p.svc, Requests(p, n)).store, n);
  }

  lemma ReachedHistory(p: Plan, store: Store, n: nat) returns (c: Chain)
    requires Works(p, n) && Reached(p, store, n) && Sound(p.svc, store) && |FirstNames(p.names, n)| == n + 1
    ensures Partition(Accepts(p.svc), {c}, store) && |c.items| == n + 1
  {
    AcceptsNamed(p.svc);
    var chains :| Partition(Accepts(p.svc), chains, store);
    c := OneTerminal(Accepts(p.svc), chains, store, p.names(n));
    forall d | d in chains ensures d == c {
      SameChain(Accepts(p.svc), chains, store, p.names(n), c, d);
    }
    assert chains == {c};
  }

  /** In particular one that no export accepts. */
  lemma LongHistoryNotExported(p: Plan)
    requires Works(p, 10_000)
    ensures var store := Run(p.svc, Requests(p, 10_000)).store;
            !exists v: set<Chain> :: ValidPartition(Accepts(p.svc), v, store)
  {
    var c := HistoryReached(p, 10_000);
    SoundExports(p.svc, Run(p.svc, Requests(p, 10_000)).store, {c});
  }

  // ----- The text rules as written ----------------------------------------------------------

  function Numbered(n: nat): Name {
    Name(Decimal(n))
  }

  lemma NumberedStable(n: nat)
    requires n < 100_000
    ensures StableId(Numbered(n).text)
  {
    DecimalWidth(n, 5);
    assert Power10(5) == 10 * (10 * (10 * (10 * (10 * Power10(0)))));
    var s := Decimal(n);
    assert forall i :: 0 <= i < |s| ==> IsDigit(s[i]);
  }

  const A := Name("a")

  /** A plan under the text rules as written, with numbers as names. */
  function NumberedPlan(isPrint: char -> bool, lower: char -> char): Plan {
    Plan(Service(A, UnicodeRules(isPrint, lower)), CreateInput(NONE, A, CODE128, A, A, USER_ENTERED, false),
         Texts(Code(CODE128, A), A, USER_ENTERED), Scope(A, A, A, Time(0, true), {A}), (n: nat) => Numbered(n))
  }

  lemma ShortTexts(lower: char -> char)
    requires CaseTable(lower)
    ensures Cleaned(A) == A && StableId("a") && ByteLength("a") == 1
    ensures Lowered(lower, CODE128) == CODE128 && Lowered(lower, USER_ENTERED) == USER_ENTERED
  {
    CleanA();
    Code128Lowered(lower);
    UserEnteredLowered(lower);
  }

  lemma CleanA()
    ensures Cleaned(A) == A && StableId("a") && ByteLength("a") == 1
  {
    OneLetter("a");
  }

  lemma OneLetter(s: string)
    requires |s| == 1 && s[0] == 'a'
    ensures StableId(s) && Trim(s) == s && ByteLength(s) == 1
  {
    StableIdTrimmed(s);
    assert s[1..] == "" && ByteLength(s[1..]) == 0;
  }

  lemma Code128Lowered(lower: char -> char)
    requires CaseTable(lower)
    ensures Lowered(lower, CODE128) == CODE128
  {
    LowerTrimFixed(lower, "code128");
  }

  lemma PlainTexts(t: TextRules)
    requires t.clean(A) == A && t.lower(CODE128) == CODE128 && t.lower(USER_ENTERED) == USER_ENTERED
    requires t.codeFits(Code(CODE128, A)) && t.displayFits(A)
    ensures NormalizeTexts(t, CODE128, A, A, USER_ENTERED) == Some(Texts(Code(CODE128, A), A, USER_ENTERED))
  {
    assert |CODE128.text| != |QR.text| && |A.text| != |NONE.text| && |USER_ENTERED.text| != |NONE.text|;
  }

  lemma NumberedNormalize(isPrint: char -> bool, lower: char -> char)
    requires isPrint('a') && CaseTable(lower)
    ensures NormalizeTexts(UnicodeRules(isPrint, lower), CODE128, A, A, USER_ENTERED)
         == Some(Texts(Code(CODE128, A), A, USER_ENTERED))
  {
    ShortTexts(lower);
    CodeOfA(isPrint);
    PlainTexts(UnicodeRules(isPrint, lower));
  }

  lemma CodeOfA(isPrint: char -> bool)
    requires isPrint('a') && ByteLength("a") == 1
    ensures CodeFits(isPrint, Code(CODE128, A)) && Printable(isPrint, "a")
  {
  }

  lemma NumberedNames(isPrint: char -> bool, lower: char -> char, last: nat)
    requires last < 100_000
    ensures NamesFit(NumberedPlan(isPrint, lower), last)
  {
    forall i: nat | i <= last ensures StableId(Numbered(i).text) {
      NumberedStable(i);
    }
    forall i: nat, j: nat | i < j <= last ensures Numbered(i) != Numbered(j) {
      if Numbered(i) == Numbered(j) {
        DecimalInjective(i, j);
      }
    }
  }

  /** Such requests exist: under the rules as written a history of 10,001 rows is reached. */
  lemma NumberedPlanWorks(isPrint: char -> bool, lower: char -> char)
    requires isPrint('a') && CaseTable(lower)
    ensures Works(NumberedPlan(isPrint, lower), 10_000)
  {
    UnicodeLawful(isPrint, lower);
    ShortTexts(lower);
    NumberedNormalize(isPrint, lower);
    NumberedNames(isPrint, lower, 10_000);
  }
}
