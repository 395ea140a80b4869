/**
  Grouped budget evaluation: allocations and recognized costs are summed per fiscal period,
  scenario and currency in 64-bit arithmetic, and each group spent above its allocation becomes a
  candidate; candidates are sorted by target.
 */
module OverBudget {
  import opened Text
  import opened Sequences
  import opened Ordering

  // ----- 64-bit sums ------------------------------------------------------------------------

  const MODULUS: int := 0x1_0000_0000_0000_0000
  const HALF: int := 0x8000_0000_0000_0000

  /** The 64-bit two's complement value of a number. */
  function Wrap(x: int): int {
    (x + HALF) % MODULUS - HALF
  }

  predicate Fits(x: int) {
    -HALF <= x < HALF
  }

  lemma WrapFits(x: int)
    requires Fits(x)
    ensures Wrap(x) == x
  {
  }

  /** Wrapping at every step gives the wrapped sum. */
  lemma WrapAdd(a: int, b: int)
    ensures Wrap(Wrap(a) + b) == Wrap(a + b)
  {
    var q := (a + HALF) / MODULUS;
    assert Wrap(a) == a - q * MODULUS;
    Shift(a + b + HALF, -q);
  }

  lemma Shift(x: int, q: int)
    ensures (x + q * MODULUS) % MODULUS == x % MODULUS
  {
  }

  // ----- Lines and groups -------------------------------------------------------------------

  datatype Line = Line(period: string, scenario: string, currency: string, kind: string, amount: int)

  datatype Rule = Rule(period: string, scenario: string)

  predicate Matches(rule: Rule, line: Line) {
    (rule.period == "" || rule.period == line.period) && (rule.scenario == "" || rule.scenario == line.scenario)
  }

  predicate Recognized(kind: string) {
    kind == "actual" || kind == "billed" || kind == "paid" || kind == "committed"
  }

  function Parts(line: Line): seq<string> {
    [line.period, line.scenario, line.currency]
  }

  function KeyOf(line: Line): Name {
    Name(Join(Parts(line), '\0'))
  }

  /** Which lines count, and under which key. */
  datatype Grouping = Grouping(counts: Line -> bool, key: Line -> Name)

  function BudgetGrouping(rule: Rule): Grouping {
    Grouping((line: Line) => Matches(rule, line), (line: Line) => KeyOf(line))
  }

  function CostGrouping(rule: Rule): Grouping {
    Grouping((line: Line) => Matches(rule, line) && Recognized(line.kind), (line: Line) => KeyOf(line))
  }

  function Share(g: Grouping, line: Line, key: Name): int {
    if g.counts(line) && g.key(line) == key then line.amount else 0
  }

  /** The exact sum of the counted lines of a key. */
  function Total(g: Grouping, lines: seq<Line>, key: Name): int {
    if lines == [] then 0 else Total(g, lines[..|lines| - 1], key) + Share(g, lines[|lines| - 1], key)
  }

  ghost predicate Listed(g: Grouping, lines: seq<Line>, key: Name) {
    exists i :: 0 <= i < |lines| && g.counts(lines[i]) && g.key(lines[i]) == key
  }

  lemma {:induction false} UnlistedTotal(g: Grouping, lines: seq<Line>, key: Name)
    requires !Listed(g, lines, key)
    ensures Total(g, lines, key) == 0
  {
    if lines != [] {
      var front := lines[..|lines| - 1];
      assert forall i :: 0 <= i < |front| ==> front[i] == lines[i];
      UnlistedTotal(g, front, key);
    }
  }

  // ----- The order of the lines does not matter ---------------------------------------------

  lemma {:induction false} TotalConcat(g: Grouping, a: seq<Line>, b: seq<Line>, key: Name)
    ensures Total(g, a + b, key) == Total(g, a, key) + Total(g, b, key)
    decreases b
  {
    if b == [] {
      assert a + b == a;
    } else {
      assert (a + b)[..|a + b| - 1] == a + b[..|b| - 1];
      TotalConcat(g, a, b[..|b| - 1], key);
    }
  }

  lemma TotalOne(g: Grouping, line: Line, key: Name)
    ensures Total(g, [line], key) == Share(g, line, key)
  {
    assert [line][..0] == [];
  }

  lemma {:induction false} TotalPermutation(g: Grouping, a: seq<Line>, b: seq<Line>, key: Name)
    requires multiset(a) == multiset(b)
    ensures Total(g, a, key) == Total(g, b, key)
    decreases a
  {
    if a == [] {
      assert |multiset(b)| == 0;
    } else {
      var x, rest := a[0], a[1..];
      assert a == [x] + rest;
      assert x in multiset(b);
      var j :| 0 <= j < |b| && b[j] == x;
      var less := b[..j] + b[j + 1..];
      RemoveOne(g, b, j, key);
      assert multiset(a) == multiset{x} + multiset(rest);
      Cancel(x, multiset(rest), multiset(less));
      TotalPermutation(g, rest, less, key);
      TotalConcat(g, [x], rest, key);
      TotalOne(g, x, key);
    }
  }

  lemma RemoveOne(g: Grouping, b: seq<Line>, j: nat, key: Name)
    requires j < |b|
    ensures multiset(b) == multiset{b[j]} + multiset(b[..j] + b[j + 1..])
    ensures Total(g, b, key) == Share(g, b[j], key) + Total(g, b[..j] + b[j + 1..], key)
  {
    assert b == b[..j] + ([b[j]] + b[j + 1..]);
    TotalConcat(g, b[..j], [b[j]] + b[j + 1..], key);
    TotalConcat(g, [b[j]], b[j + 1..], key);
    TotalConcat(g, b[..j], b[j + 1..], key);
    TotalOne(g, b[j], key);
  }

  lemma ListedPermutation(g: Grouping, a: seq<Line>, b: seq<Line>, key: Name)
    requires multiset(a) == multiset(b) && Listed(g, a, key)
    ensures Listed(g, b, key)
  {
    var i :| 0 <= i < |a| && g.counts(a[i]) && g.key(a[i]) == key;
    assert a[i] in multiset(b);
  }

  // ----- Accumulating -----------------------------------------------------------------------

  datatype Totals = Totals(budgeted: int, recognized: int)

  type Groups = map<Name, Totals>

  function Of(groups: Groups, key: Name): Totals {
    if key in groups then groups[key] else Totals(0, 0)
  }

  lemma TotalStep(g: Grouping, lines: seq<Line>, n: nat, key: Name)
    requires n < |lines|
    ensures Total(g, lines[..n + 1], key) == Total(g, lines[..n], key) + Share(g, lines[n], key)
    ensures Listed(g, lines[..n + 1], key) <==>
              Listed(g, lines[..n], key) || (g.counts(lines[n]) && g.key(lines[n]) == key)
  {
    assert lines[..n + 1][..n] == lines[..n];
    assert forall i :: 0 <= i < n ==> lines[..n + 1][i] == lines[..n][i];
    assert lines[..n + 1][n] == lines[n];
  }

  ghost predicate HoldsAt(b: Grouping, budgets: seq<Line>, c: Grouping, costs: seq<Line>, groups: Groups, k: Name) {
    && (k in groups <==> Listed(b, budgets, k) || Listed(c, costs, k))
    && Of(groups, k) == Totals(Wrap(Total(b, budgets, k)), Wrap(Total(c, costs, k)))
  }

  /** The groups hold the wrapped sums of the lines seen, under the keys seen. */
  ghost predicate Holds(b: Grouping, budgets: seq<Line>, c: Grouping, costs: seq<Line>, groups: Groups) {
    forall k :: HoldsAt(b, budgets, c, costs, groups, k)
  }

  function AddBudget(g: Grouping, groups: Groups, line: Line): Groups {
    if !g.counts(line) then groups
    else
      var value := Of(groups, g.key(line));
      groups[g.key(line) := Totals(Wrap(value.budgeted + line.amount), value.recognized)]
  }

  function AddCost(g: Grouping, groups: Groups, line: Line): Groups {
    if !g.counts(line) then groups
    else
      var value := Of(groups, g.key(line));
      groups[g.key(line) := Totals(value.budgeted, Wrap(value.recognized + line.amount))]
  }

  lemma BudgetStep(b: Grouping, budgets: seq<Line>, n: nat, c: Grouping, groups: Groups)
    requires n < |budgets| && Holds(b, budgets[..n], c, [], groups)
    ensures Holds(b, budgets[..n + 1], c, [], AddBudget(b, groups, budgets[n]))
  {
    var seen, after := budgets[..n + 1], AddBudget(b, groups, budgets[n]);
    forall k ensures HoldsAt(b, seen, c, [], after, k) {
      assert HoldsAt(b, budgets[..n], c, [], groups, k);
      TotalStep(b, budgets, n, k);
      WrapAdd(Total(b, budgets[..n], k), budgets[n].amount);
    }
  }

  lemma CostStep(b: Grouping, budgets: seq<Line>, c: Grouping, costs: seq<Line>, n: nat, groups: Groups)
    requires n < |costs| && Holds(b, budgets, c, costs[..n], groups)
    ensures Holds(b, budgets, c, costs[..n + 1], AddCost(c, groups, costs[n]))
  {
    var seen, after := costs[..n + 1], AddCost(c, groups, costs[n]);
    forall k ensures HoldsAt(b, budgets, c, seen, after, k) {
      assert HoldsAt(b, budgets, c, costs[..n], groups, k);
      TotalStep(c, costs, n, k);
      WrapAdd(Total(c, costs[..n], k), costs[n].amount);
    }
  }

  lemma NoGroups(b: Grouping, c: Grouping)
    ensures Holds(b, [], c, [], map[])
  {
    forall k ensures HoldsAt(b, [], c, [], map[], k) {
      WrapFits(0);
    }
  }

  /** Adds up budgets and then costs, line by line. */
  method SumGroups(b: Grouping, budgets: seq<Line>, c: Grouping, costs: seq<Line>) returns (groups: Groups)
    ensures Holds(b, budgets, c, costs, groups)
  {
    groups := map[];
    NoGroups(b, c);
    assert budgets[..0] == [];
    for n := 0 to |budgets|
      invariant Holds(b, budgets[..n], c, [], groups)
    {
      BudgetStep(b, budgets, n, c, groups);
      groups := AddBudget(b, groups, budgets[n]);
    }
    assert budgets[..|budgets|] == budgets && costs[..0] == [];
    for n := 0 to |costs|
      invariant Holds(b, budgets, c, costs[..n], groups)
    {
      CostStep(b, budgets, c, costs, n, groups);
      groups := AddCost(c, groups, costs[n]);
    }
    assert costs[..|costs|] == costs;
  }

  // ----- Candidates -------------------------------------------------------------------------

  /** What is reported of a group: its target and a text. */
  datatype Candidate = Candidate(target: Name, summary: Name)

  predicate TargetChar(c: char) {
    'a' <= c <= 'z' || '0' <= c <= '9' || c == '.' || c == '_' || c == ':' || c == '-'
  }

  function TargetChars(s: string): (r: string)
    ensures |r| == |s|
  {
    seq(|s|, i requires 0 <= i < |s| => if TargetChar(s[i]) then s[i] else '-')
  }

  function TrimHyphens(s: string): string {
    if s == "" then s
    else if s[0] == '-' then TrimHyphens(s[1..])
    else if s[|s| - 1] == '-' then TrimHyphens(s[..|s| - 1])
    else s
  }

  /** The target's name: lower case, unusual characters as hyphens, at most 128 bytes, no hyphens at the ends. */
  function TargetOf(lower: char -> char, period: string, scenario: string, currency: string): Name {
    var s := TargetChars(Lower(lower, Join(["budget", period, scenario, currency], '-')));
    Name(TrimHyphens(if |s| > 128 then s[..128] else s))
  }

  function SummaryOf(period: string, scenario: string, totals: Totals): Name {
    Name(period + " " + scenario + " recognized " + FormatInt(totals.recognized) + " minor units against "
         + FormatInt(totals.budgeted) + " allocated minor units.")
  }

  function Report(lower: char -> char, period: string, scenario: string, currency: string, totals: Totals): Candidate {
    Candidate(TargetOf(lower, period, scenario, currency), SummaryOf(period, scenario, totals))
  }

  function Part(parts: seq<string>, i: nat): string {
    if i < |parts| then parts[i] else ""
  }

  /** The candidate of a group: the first three fields are split off the key again. */
  function MakeCandidate(lower: char -> char, key: Name, totals: Totals): Candidate {
    var parts := Split(key.text, '\0');
    Report(lower, Part(parts, 0), Part(parts, 1), Part(parts, 2), totals)
  }

  /** How candidates are made, as a value. */
  function Maker(lower: char -> char): (make: (Name, Totals) -> Candidate)
    ensures forall key, totals :: make(key, totals) == MakeCandidate(lower, key, totals)
  {
    (key: Name, totals: Totals) => MakeCandidate(lower, key, totals)
  }

  function Target(): (target: Candidate -> Name)
    ensures forall c :: target(c) == c.target
  {
    (c: Candidate) => c.target
  }

  predicate Over(groups: Groups, k: Name) {
    k in groups && groups[k].recognized > groups[k].budgeted
  }

  function OverKeys(groups: Groups): (keys: set<Name>)
    ensures forall k :: k in keys <==> Over(groups, k)
  {
    set k | k in groups && Over(groups, k)
  }

  /** The candidates of the given keys, one each. */
  function Made(make: (Name, Totals) -> Candidate, groups: Groups, order: seq<Name>): (made: seq<Candidate>)
    ensures |made| == |order| && forall i :: 0 <= i < |order| ==> made[i] == make(order[i], Of(groups, order[i]))
  {
    seq(|order|, i requires 0 <= i < |order| => make(order[i], Of(groups, order[i])))
  }

  /** One candidate for each group over budget, sorted by target; nothing is said of equal targets. */
  ghost predicate IsOutput(make: (Name, Totals) -> Candidate, groups: Groups, out: seq<Candidate>) {
    && Sorted(out, Target())
    && exists order :: Lists(order, OverKeys(groups)) && multiset(out) == multiset(Made(make, groups, order))
  }

  lemma MadeAppend(make: (Name, Totals) -> Candidate, groups: Groups, order: seq<Name>, key: Name)
    ensures Made(make, groups, order + [key]) == Made(make, groups, order) + [make(key, Of(groups, key))]
  {
  }

  /** The keys over budget that a loop has taken, one of them more or not. */
  function Extended(groups: Groups, order: seq<Name>, key: Name): seq<Name> {
    if Over(groups, key) then order + [key] else order
  }

  lemma ExtendedLists(groups: Groups, order: seq<Name>, rest: set<Name>, key: Name)
    requires key in rest && Lists(order, OverKeys(groups) - rest)
    ensures Lists(Extended(groups, order, key), OverKeys(groups) - (rest - {key}))
  {
    var done := OverKeys(groups) - rest;
    if Over(groups, key) {
      ListsAppend(order, done, key);
      assert OverKeys(groups) - (rest - {key}) == done + {key};
    } else {
      assert OverKeys(groups) - (rest - {key}) == done;
    }
  }

  /** Takes the groups over budget in whatever order the map gives them, and sorts their candidates by target. */
  method Emit(make: (Name, Totals) -> Candidate, groups: Groups) returns (out: seq<Candidate>)
    ensures IsOutput(make, groups, out)
  {
    var found: seq<Candidate> := [];
    var rest := groups.Keys;
    ghost var order: seq<Name> := [];
    assert OverKeys(groups) - rest == {};
    while rest != {}
      invariant rest <= groups.Keys && Lists(order, OverKeys(groups) - rest)
      invariant found == Made(make, groups, order)
    {
      var key :| key in rest;
      ExtendedLists(groups, order, rest, key);
      if groups[key].recognized > groups[key].budgeted {
        MadeAppend(make, groups, order, key);
        found := found + [make(key, groups[key])];
      }
      order := Extended(groups, order, key);
      rest := rest - {key};
    }
    assert OverKeys(groups) - {} == OverKeys(groups);
    SortSorted(found, Target());
    out := Sort(found, Target());
  }

  // ----- When there is only one output ------------------------------------------------------

  lemma {:induction false} ListsBag(order: seq<Name>, keys: set<Name>)
    requires Lists(order, keys)
    ensures multiset(order) == multiset(keys)
  {
    if order == [] {
      assert keys == {};
    } else {
      ListsTail(order, keys);
      assert order == [order[0]] + order[1..];
      ListsBag(order[1..], keys - {order[0]});
      assert order[0] in Elements(order);
      assert keys == (keys - {order[0]}) + {order[0]};
    }
  }

  lemma {:induction false} MadeBag(make: (Name, Totals) -> Candidate, groups: Groups, a: seq<Name>, b: seq<Name>)
    requires multiset(a) == multiset(b)
    ensures multiset(Made(make, groups, a)) == multiset(Made(make, groups, b))
    decreases a
  {
    if a == [] {
      assert |multiset(b)| == |b|;
    } else {
      var x, rest := a[0], a[1..];
      assert a == [x] + rest && x in multiset(b);
      var j :| 0 <= j < |b| && b[j] == x;
      var less := b[..j] + b[j + 1..];
      assert b == b[..j] + ([x] + b[j + 1..]);
      Cancel(x, multiset(rest), multiset(less));
      MadeBag(make, groups, rest, less);
      MadeSplit(make, groups, b, j);
      MadeSplit(make, groups, a, 0);
      assert a[..0] + a[1..] == rest;
    }
  }

  lemma MadeSplit(make: (Name, Totals) -> Candidate, groups: Groups, b: seq<Name>, j: nat)
    requires j < |b|
    ensures multiset(Made(make, groups, b))
         == multiset{make(b[j], Of(groups, b[j]))} + multiset(Made(make, groups, b[..j] + b[j + 1..]))
  {
    var m, less := Made(make, groups, b), Made(make, groups, b[..j] + b[j + 1..]);
    assert m == m[..j] + ([m[j]] + m[j + 1..]);
    assert less == m[..j] + m[j + 1..];
  }

  lemma {:induction false} SomeListing(keys: set<Name>) returns (order: seq<Name>)
    ensures Lists(order, keys)
    decreases |keys|
  {
    if keys == {} {
      order := [];
    } else {
      var k :| k in keys;
      order := SomeListing(keys - {k});
      ListsAppend(order, keys - {k}, k);
      assert keys == (keys - {k}) + {k};
      order := order + [k];
    }
  }

  lemma OutputsSameBag(make: (Name, Totals) -> Candidate, groups: Groups, a: seq<Candidate>, b: seq<Candidate>)
    requires IsOutput(make, groups, a) && IsOutput(make, groups, b)
    ensures multiset(a) == multiset(b)
  {
    var o :| Lists(o, OverKeys(groups)) && multiset(a) == multiset(Made(make, groups, o));
    var p :| Lists(p, OverKeys(groups)) && multiset(b) == multiset(Made(make, groups, p));
    ListsBag(o, OverKeys(groups));
    ListsBag(p, OverKeys(groups));
    MadeBag(make, groups, o, p);
  }

  /** Every output has the candidate of every group over budget, and of no other. */
  lemma OutputHas(make: (Name, Totals) -> Candidate, groups: Groups, out: seq<Candidate>, x: Candidate)
    requires IsOutput(make, groups, out)
    ensures x in out <==> exists k :: Over(groups, k) && make(k, groups[k]) == x
  {
    var order :| Lists(order, OverKeys(groups)) && multiset(out) == multiset(Made(make, groups, order));
    var made := Made(make, groups, order);
    assert x in out <==> x in multiset(made);
    if x in made {
      var i :| 0 <= i < |made| && made[i] == x;
      assert order[i] in Elements(order);
    }
    if k :| Over(groups, k) && make(k, groups[k]) == x {
      assert k in Elements(order);
      var i :| 0 <= i < |order| && order[i] == k;
      assert made[i] == x;
    }
  }

  /** Groups over budget with equal targets are reported alike. */
  ghost predicate TargetsTell(make: (Name, Totals) -> Candidate, groups: Groups) {
    forall j, k :: Over(groups, j) && Over(groups, k) && make(j, groups[j]).target == make(k, groups[k]).target ==>
                     make(j, groups[j]) == make(k, groups[k])
  }

  lemma OnlyOutput(make: (Name, Totals) -> Candidate, groups: Groups, a: seq<Candidate>, b: seq<Candidate>)
    requires TargetsTell(make, groups) && IsOutput(make, groups, a) && IsOutput(make, groups, b)
    ensures a == b
  {
    OutputsSameBag(make, groups, a, b);
    forall x, y | x in a && y in a && Target()(x) == Target()(y) ensures x == y {
      OutputHas(make, groups, a, x);
      OutputHas(make, groups, a, y);
    }
    SortedUnique(a, b, Target());
  }

  lemma SomeOutput(make: (Name, Totals) -> Candidate, groups: Groups) returns (a: seq<Candidate>)
    ensures IsOutput(make, groups, a)
  {
    var order := SomeListing(OverKeys(groups));
    SortSorted(Made(make, groups, order), Target());
    a := Sort(Made(make, groups, order), Target());
  }

  lemma SwappedOutput(
      make: (Name, Totals) -> Candidate, groups: Groups, a: seq<Candidate>, i: nat, j: nat, b: seq<Candidate>)
    requires IsOutput(make, groups, a) && i < j < |a| && a[i].target == a[j].target && b == a[i := a[j]][j := a[i]]
    ensures IsOutput(make, groups, b)
  {
    SwapSorted(a, i, j, Target(), b);
  }

  lemma TwoOutputs(make: (Name, Totals) -> Candidate, groups: Groups, j: Name, k: Name)
    returns (a: seq<Candidate>, b: seq<Candidate>)
    requires Over(groups, j) && Over(groups, k) && make(j, groups[j]).target == make(k, groups[k]).target
    requires make(j, groups[j]) != make(k, groups[k])
    ensures IsOutput(make, groups, a) && IsOutput(make, groups, b) && a != b
  {
    a := SomeOutput(make, groups);
    OutputHas(make, groups, a, make(j, groups[j]));
    OutputHas(make, groups, a, make(k, groups[k]));
    var p :| 0 <= p < |a| && a[p] == make(j, groups[j]);
    var q :| 0 <= q < |a| && a[q] == make(k, groups[k]);
    var lo, hi := if p < q then p else q, if p < q then q else p;
    b := a[lo := a[hi]][hi := a[lo]];
    SwappedOutput(make, groups, a, lo, hi, b);
    assert b[lo] != a[lo];
  }

  /** There is always an output; there is exactly one if and only if equal targets are reported alike. */
  lemma ExactlyOneOutput(make: (Name, Totals) -> Candidate, groups: Groups)
    ensures exists a :: IsOutput(make, groups, a)
    ensures (forall a, b :: IsOutput(make, groups, a) && IsOutput(make, groups, b) ==> a == b) <==>
              TargetsTell(make, groups)
  {
    var some := SomeOutput(make, groups);
    if TargetsTell(make, groups) {
      forall a, b | IsOutput(make, groups, a) && IsOutput(make, groups, b) ensures a == b {
        OnlyOutput(make, groups, a, b);
      }
    } else {
      var j, k :| Over(groups, j) && Over(groups, k) && make(j, groups[j]).target == make(k, groups[k]).target
                  && make(j, groups[j]) != make(k, groups[k]);
      var a, b := TwoOutputs(make, groups, j, k);
    }
  }

  // ----- The evaluation ---------------------------------------------------------------------

  /** The groups hold the sums, and the output reports those over budget. */
  ghost predicate Evaluated(
      lower: char -> char, rule: Rule, budgets: seq<Line>, costs: seq<Line>, groups: Groups, out: seq<Candidate>)
  {
    Holds(BudgetGrouping(rule), budgets, CostGrouping(rule), costs, groups) && IsOutput(Maker(lower), groups, out)
  }

  method EvaluateOverBudget(
      lower: char -> char, rule: Rule, budgets: seq<Line>, costs: seq<Line>)
    returns (out: seq<Candidate>)
    ensures Result(lower, rule, budgets, costs, out)
  {
    var groups := SumGroups(BudgetGrouping(rule), budgets, CostGrouping(rule), costs);
    out := Emit(Maker(lower), groups);
    assert Evaluated(lower, rule, budgets, costs, groups, out);
  }

  // ----- What is emitted --------------------------------------------------------------------

  /** A key is over budget exactly when its wrapped recognized sum exceeds its wrapped allocation. */
  lemma OverExactly(b: Grouping, budgets: seq<Line>, c: Grouping, costs: seq<Line>, groups: Groups, k: Name)
    requires Holds(b, budgets, c, costs, groups)
    ensures Over(groups, k) <==> Wrap(Total(c, costs, k)) > Wrap(Total(b, budgets, k))
  {
    assert HoldsAt(b, budgets, c, costs, groups, k);
    if k !in groups {
      UnlistedTotal(b, budgets, k);
      UnlistedTotal(c, costs, k);
    }
  }

  /** While the sums fit in 64 bits, that is when the recognized costs exceed the allocations. */
  lemma OverWhenFits(b: Grouping, budgets: seq<Line>, c: Grouping, costs: seq<Line>, groups: Groups, k: Name)
    requires Holds(b, budgets, c, costs, groups) && Fits(Total(b, budgets, k)) && Fits(Total(c, costs, k))
    ensures Over(groups, k) <==> Total(c, costs, k) > Total(b, budgets, k)
  {
    OverExactly(b, budgets, c, costs, groups, k);
    WrapFits(Total(b, budgets, k));
    WrapFits(Total(c, costs, k));
  }

  predicate NulFree(line: Line) {
    Free(line.period, '\0') && Free(line.scenario, '\0') && Free(line.currency, '\0')
  }

  /** With fields free of NUL, one key is one period, scenario and currency, and can be split again. */
  lemma KeysAreGroups(a: Line, b: Line)
    requires NulFree(a) && NulFree(b)
    ensures KeyOf(a) == KeyOf(b) <==> Parts(a) == Parts(b)
    ensures Split(KeyOf(a).text, '\0') == Parts(a)
  {
    SplitJoin(Parts(a), '\0');
    if KeyOf(a) == KeyOf(b) {
      JoinInjective(Parts(a), Parts(b), '\0');
    }
  }

  /** The exact sum of the counted lines with the given period, scenario and currency. */
  function FieldTotal(counts: Line -> bool, lines: seq<Line>, parts: seq<string>): int {
    if lines == [] then 0
    else
      var last := lines[|lines| - 1];
      FieldTotal(counts, lines[..|lines| - 1], parts) + if counts(last) && Parts(last) == parts then last.amount else 0
  }

  lemma {:induction false} KeyTotalIsFieldTotal(g: Grouping, lines: seq<Line>, group: Line)
    requires NulFree(group) && (forall i :: 0 <= i < |lines| ==> NulFree(lines[i]))
    requires (forall l :: g.key(l) == KeyOf(l))
    ensures Total(g, lines, KeyOf(group)) == FieldTotal(g.counts, lines, Parts(group))
  {
    if lines != [] {
      KeyTotalIsFieldTotal(g, lines[..|lines| - 1], group);
      KeysAreGroups(lines[|lines| - 1], group);
    }
  }

  /** Every key of the groups is the key of some line. */
  lemma KeyHasLine(g: Grouping, lines: seq<Line>, k: Name)
    requires Listed(g, lines, k) && forall l :: g.key(l) == KeyOf(l)
    ensures exists i :: 0 <= i < |lines| && KeyOf(lines[i]) == k
  {
    var i :| 0 <= i < |lines| && g.counts(lines[i]) && g.key(lines[i]) == k;
    assert KeyOf(lines[i]) == k;
  }

  ghost predicate AllNulFree(lines: seq<Line>) {
    forall i :: 0 <= i < |lines| ==> NulFree(lines[i])
  }

  lemma ReportsFields(lower: char -> char, group: Line, totals: Totals)
    requires NulFree(group)
    ensures Maker(lower)(KeyOf(group), totals) == Report(lower, group.period, group.scenario, group.currency, totals)
  {
    KeysAreGroups(group, group);
  }

  /**
    With fields free of NUL and sums that fit in 64 bits, a period, scenario and currency is over
    budget exactly when its recognized matching costs exceed its matching allocations; then every
    output has its candidate, with these fields and these sums.
   */
  lemma EmittedExactly(
      lower: char -> char, rule: Rule, budgets: seq<Line>, costs: seq<Line>, groups: Groups, out: seq<Candidate>,
      group: Line, recognized: int, budgeted: int)
    requires Evaluated(lower, rule, budgets, costs, groups, out)
    requires AllNulFree(budgets) && AllNulFree(costs) && NulFree(group)
    requires recognized == FieldTotal(CostGrouping(rule).counts, costs, Parts(group)) && Fits(recognized)
    requires budgeted == FieldTotal(BudgetGrouping(rule).counts, budgets, Parts(group)) && Fits(budgeted)
    ensures Over(groups, KeyOf(group)) <==> recognized > budgeted
    ensures recognized > budgeted ==>
              Report(lower, group.period, group.scenario, group.currency, Totals(budgeted, recognized)) in out
  {
    var b, c, k := BudgetGrouping(rule), CostGrouping(rule), KeyOf(group);
    KeyTotalIsFieldTotal(b, budgets, group);
    KeyTotalIsFieldTotal(c, costs, group);
    OverWhenFits(b, budgets, c, costs, groups, k);
    if recognized > budgeted {
      assert HoldsAt(b, budgets, c, costs, groups, k);
      WrapFits(recognized);
      WrapFits(budgeted);
      ReportsFields(lower, group, Totals(budgeted, recognized));
      OutputHas(Maker(lower), groups, out, Maker(lower)(k, groups[k]));
    }
  }

  /** Nothing else is reported: every candidate is that of some line's group. */
  lemma OnlyGroupsEmitted(
      lower: char -> char, rule: Rule, budgets: seq<Line>, costs: seq<Line>, groups: Groups, out: seq<Candidate>,
      x: Candidate)
    requires Evaluated(lower, rule, budgets, costs, groups, out) && AllNulFree(budgets) && AllNulFree(costs) && x in out
    ensures exists line: Line :: (line in budgets || line in costs) && Over(groups, KeyOf(line))
              && x == Report(lower, line.period, line.scenario, line.currency, groups[KeyOf(line)])
  {
    var b, c := BudgetGrouping(rule), CostGrouping(rule);
    OutputHas(Maker(lower), groups, out, x);
    var k :| Over(groups, k) && Maker(lower)(k, groups[k]) == x;
    assert HoldsAt(b, budgets, c, costs, groups, k);
    var line: Line;
    if Listed(b, budgets, k) {
      KeyHasLine(b, budgets, k);
      var i :| 0 <= i < |budgets| && KeyOf(budgets[i]) == k;
      line := budgets[i];
    } else {
      KeyHasLine(c, costs, k);
      var i :| 0 <= i < |costs| && KeyOf(costs[i]) == k;
      line := costs[i];
    }
    ReportsFields(lower, line, groups[k]);
  }

  /** The sums per group do not depend on the order of the lines. */
  lemma OrderIndependent(
      b: Grouping, budgets: seq<Line>, budgets2: seq<Line>, c: Grouping, costs: seq<Line>, costs2: seq<Line>,
      groups: Groups, groups2: Groups)
    requires Holds(b, budgets, c, costs, groups) && Holds(b, budgets2, c, costs2, groups2)
    requires multiset(budgets) == multiset(budgets2) && multiset(costs) == multiset(costs2)
    ensures groups == groups2
  {
    forall k ensures (k in groups <==> k in groups2) && Of(groups, k) == Of(groups2, k) {
      assert HoldsAt(b, budgets, c, costs, groups, k) && HoldsAt(b, budgets2, c, costs2, groups2, k);
      TotalPermutation(b, budgets, budgets2, k);
      TotalPermutation(c, costs, costs2, k);
      SameListed(b, budgets, budgets2, k);
      SameListed(c, costs, costs2, k);
    }
    assert forall k :: k in groups ==> groups[k] == Of(groups, k) == Of(groups2, k) == groups2[k];
  }

  lemma SameListed(g: Grouping, a: seq<Line>, b: seq<Line>, key: Name)
    requires multiset(a) == multiset(b)
    ensures Listed(g, a, key) <==> Listed(g, b, key)
  {
    if Listed(g, a, key) {
      ListedPermutation(g, a, b, key);
    }
    if Listed(g, b, key) {
      ListedPermutation(g, b, a, key);
    }
  }

  /** A result the evaluation of the lines may have. */
  ghost predicate Result(lower: char -> char, rule: Rule, budgets: seq<Line>, costs: seq<Line>, out: seq<Candidate>) {
    exists groups :: Evaluated(lower, rule, budgets, costs, groups, out)
  }

  /**
    The result is determined by the lines alone, in any order of lines and map, if and only if groups
    over budget with equal targets are reported alike.
   */
  lemma EvaluationDetermined(
      lower: char -> char, rule: Rule, budgets: seq<Line>, costs: seq<Line>, budgets2: seq<Line>, costs2: seq<Line>,
      groups: Groups)
    requires multiset(budgets) == multiset(budgets2) && multiset(costs) == multiset(costs2)
    requires Holds(BudgetGrouping(rule), budgets, CostGrouping(rule), costs, groups)
    ensures (forall a, b ::
               Result(lower, rule, budgets, costs, a) && Result(lower, rule, budgets2, costs2, b) ==> a == b)
       <==> TargetsTell(Maker(lower), groups)
  {
    HoldsPermuted(BudgetGrouping(rule), budgets, budgets2, CostGrouping(rule), costs, costs2, groups);
    forall out
      ensures Result(lower, rule, budgets, costs, out) <==> IsOutput(Maker(lower), groups, out)
      ensures Result(lower, rule, budgets2, costs2, out) <==> IsOutput(Maker(lower), groups, out)
    {
      OutputOfGroups(lower, rule, budgets, costs, groups, out);
      OutputOfGroups(lower, rule, budgets2, costs2, groups, out);
    }
    ExactlyOneOutput(Maker(lower), groups);
  }

  lemma HoldsPermuted(
      b: Grouping, budgets: seq<Line>, budgets2: seq<Line>, c: Grouping, costs: seq<Line>, costs2: seq<Line>,
      groups: Groups)
    requires Holds(b, budgets, c, costs, groups)
    requires multiset(budgets) == multiset(budgets2) && multiset(costs) == multiset(costs2)
    ensures Holds(b, budgets2, c, costs2, groups)
  {
    forall k ensures HoldsAt(b, budgets2, c, costs2, groups, k) {
      assert HoldsAt(b, budgets, c, costs, groups, k);
      TotalPermutation(b, budgets, budgets2, k);
      TotalPermutation(c, costs, costs2, k);
      SameListed(b, budgets, budgets2, k);
      SameListed(c, costs, costs2, k);
    }
  }

  lemma OutputOfGroups(
      lower: char -> char, rule: Rule, budgets: seq<Line>, costs: seq<Line>, groups: Groups, out: seq<Candidate>)
    requires Holds(BudgetGrouping(rule), budgets, CostGrouping(rule), costs, groups)
    ensures Result(lower, rule, budgets, costs, out) <==> IsOutput(Maker(lower), groups, out)
  {
    if IsOutput(Maker(lower), groups, out) {
      assert Evaluated(lower, rule, budgets, costs, groups, out);
    }
    if g :| Evaluated(lower, rule, budgets, costs, g, out) {
      OrderIndependent(BudgetGrouping(rule), budgets, budgets, CostGrouping(rule), costs, costs, g, groups);
    }
  }

  // ----- Targets that collide ---------------------------------------------------------------

  const BLANK := Line("a b", "x", "usd", "actual", 1)
  const HYPHEN := Line("a-b", "x", "usd", "actual", 1)

  lemma JoinFour(a: string, b: string, c: string, d: string)
    ensures Join([a, b, c, d], '-') == a + ['-'] + (b + ['-'] + (c + ['-'] + d))
  {
    assert [a, b, c, d][1..] == [b, c, d] && [b, c, d][1..] == [c, d] && [c, d][1..] == [d];
    assert Join([d], '-') == d && Join([c, d], '-') == c + ['-'] + d;
    assert Join([b, c, d], '-') == b + ['-'] + Join([c, d], '-');
  }

  /** A blank and a hyphen in a period give the same target. */
  lemma TargetsCollide(lower: char -> char)
    requires CaseTable(lower)
    ensures TargetOf(lower, "a b", "x", "usd") == TargetOf(lower, "a-b", "x", "usd")
  {
    JoinFour("budget", "a b", "x", "usd");
    JoinFour("budget", "a-b", "x", "usd");
    var p, q := Join(["budget", "a b", "x", "usd"], '-'), Join(["budget", "a-b", "x", "usd"], '-');
    assert |p| == |q| && forall i :: 0 <= i < |p| && i != 8 ==> p[i] == q[i];
    assert p[8] == ' ' && q[8] == '-';
    assert lower(' ') == ' ' && lower('-') == '-';
    assert TargetChars(Lower(lower, p)) == TargetChars(Lower(lower, q));
  }

  lemma SummariesDiffer(totals: Totals)
    ensures SummaryOf("a b", "x", totals) != SummaryOf("a-b", "x", totals)
  {
    assert SummaryOf("a b", "x", totals).text[1] == ' ' && SummaryOf("a-b", "x", totals).text[1] == '-';
  }

  lemma OneLine(g: Grouping, lines: seq<Line>, i: nat)
    requires |lines| == 2 && i < 2 && g.counts(lines[i]) && g.key(lines[0]) != g.key(lines[1])
    ensures Total(g, lines, g.key(lines[i])) == lines[i].amount
  {
    assert lines == [lines[0]] + [lines[1]];
    TotalConcat(g, [lines[0]], [lines[1]], g.key(lines[i]));
    TotalOne(g, lines[0], g.key(lines[i]));
    TotalOne(g, lines[1], g.key(lines[i]));
  }

  /** A cost line alone in its group, without a budget, is over budget by its amount. */
  lemma LoneCostOver(b: Grouping, c: Grouping, costs: seq<Line>, i: nat, groups: Groups)
    requires Holds(b, [], c, costs, groups) && |costs| == 2 && i < 2 && c.counts(costs[i])
    requires c.key(costs[0]) != c.key(costs[1]) && costs[i].amount == 1
    ensures Over(groups, c.key(costs[i])) && groups[c.key(costs[i])] == Totals(0, 1)
  {
    var k := c.key(costs[i]);
    assert HoldsAt(b, [], c, costs, groups, k);
    OneLine(c, costs, i);
    WrapFits(0);
    WrapFits(1);
    OverExactly(b, [], c, costs, groups, k);
  }

  /** Two such lines of different groups with equal targets and different texts can come out in two orders. */
  lemma CollidingLines(lower: char -> char, rule: Rule, costs: seq<Line>, groups: Groups)
    returns (out: seq<Candidate>, out2: seq<Candidate>)
    requires Holds(BudgetGrouping(rule), [], CostGrouping(rule), costs, groups) && |costs| == 2
    requires forall i :: 0 <= i < 2 ==> CostGrouping(rule).counts(costs[i]) && NulFree(costs[i]) && costs[i].amount == 1
    requires Parts(costs[0]) != Parts(costs[1])
    requires TargetOf(lower, costs[0].period, costs[0].scenario, costs[0].currency)
          == TargetOf(lower, costs[1].period, costs[1].scenario, costs[1].currency)
    requires SummaryOf(costs[0].period, costs[0].scenario, Totals(0, 1))
          != SummaryOf(costs[1].period, costs[1].scenario, Totals(0, 1))
    ensures Evaluated(lower, rule, [], costs, groups, out) && Evaluated(lower, rule, [], costs, groups, out2)
    ensures out != out2
  {
    KeysAreGroups(costs[0], costs[1]);
    LoneCostOver(BudgetGrouping(rule), CostGrouping(rule), costs, 0, groups);
    LoneCostOver(BudgetGrouping(rule), CostGrouping(rule), costs, 1, groups);
    ReportsFields(lower, costs[0], Totals(0, 1));
    ReportsFields(lower, costs[1], Totals(0, 1));
    out, out2 := TwoOutputs(Maker(lower), groups, KeyOf(costs[0]), KeyOf(costs[1]));
  }

  lemma CollidingFits()
    ensures NulFree(BLANK) && NulFree(HYPHEN) && Parts(BLANK) != Parts(HYPHEN)
    ensures Recognized(BLANK.kind) && Recognized(HYPHEN.kind)
  {
    assert Parts(BLANK)[0][1] == ' ' && Parts(HYPHEN)[0][1] == '-';
  }

  lemma GroupsOfTwo(b: Grouping, c: Grouping, costs: seq<Line>) returns (groups: Groups)
    requires |costs| == 2
    ensures Holds(b, [], c, costs, groups)
  {
    NoGroups(b, c);
    assert costs[..0] == [] && costs[..2] == costs;
    CostStep(b, [], c, costs, 0, map[]);
    var one := AddCost(c, map[], costs[0]);
    CostStep(b, [], c, costs, 1, one);
    groups := AddCost(c, one, costs[1]);
  }

  /**
    Two cost lines, one with a blank and one with a hyphen, have two results: equal targets may come in either
    order.
   */
  lemma OrderCanDiffer(lower: char -> char) returns (out: seq<Candidate>, out2: seq<Candidate>)
    requires CaseTable(lower)
    ensures Result(lower, Rule("", ""), [], [BLANK, HYPHEN], out)
    ensures Result(lower, Rule("", ""), [], [BLANK, HYPHEN], out2)
    ensures out != out2
  {
    var rule, costs := Rule("", ""), [BLANK, HYPHEN];
    var groups := GroupsOfTwo(BudgetGrouping(rule), CostGrouping(rule), costs);
    CollidingFits();
    TargetsCollide(lower);
    SummariesDiffer(Totals(0, 1));
    out, out2 := CollidingLines(lower, rule, costs, groups);
  }
}
