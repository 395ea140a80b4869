/**
  What the budget evaluation reports, in terms of the lines' own fields: which lines count towards a
  group, when the group is reported, and the text and target of its report.
 */
module BudgetReports {
  import opened Text
  import opened OverBudget

  // ----- Sums -------------------------------------------------------------------------------

  predicate SameGroup(line: Line, group: Line) {
    line.period == group.period && line.scenario == group.scenario && line.currency == group.currency
  }

  /** A rule without a period or a scenario is for all of them. */
  predicate Applies(rule: Rule, group: Line) {
    rule.period in {"", group.period} && rule.scenario in {"", group.scenario}
  }

  /** The allocations to the group. */
  function AllocatedTo(rule: Rule, group: Line, budgets: seq<Line>): int {
    if budgets == [] then 0
    else
      var last := budgets[|budgets| - 1];
      AllocatedTo(rule, group, budgets[..|budgets| - 1])
      + if SameGroup(last, group) && Applies(rule, group) then last.amount else 0
  }

  /** The costs of the group that are actual, billed, paid or committed. */
  function RecognizedFor(rule: Rule, group: Line, costs: seq<Line>): int {
    if costs == [] then 0
    else
      var last := costs[|costs| - 1];
      RecognizedFor(rule, group, costs[..|costs| - 1])
      + if SameGroup(last, group) && Applies(rule, group) && last.kind in {"actual", "billed", "paid", "committed"}
        then last.amount else 0
  }

  lemma {:induction false} AllocatedIsTotal(rule: Rule, group: Line, budgets: seq<Line>)
    ensures FieldTotal(BudgetGrouping(rule).counts, budgets, Parts(group)) == AllocatedTo(rule, group, budgets)
  {
    if budgets != [] {
      AllocatedIsTotal(rule, group, budgets[..|budgets| - 1]);
      PartsTell(budgets[|budgets| - 1], group);
    }
  }

  lemma {:induction false} RecognizedIsTotal(rule: Rule, group: Line, costs: seq<Line>)
    ensures FieldTotal(CostGrouping(rule).counts, costs, Parts(group)) == RecognizedFor(rule, group, costs)
  {
    if costs != [] {
      RecognizedIsTotal(rule, group, costs[..|costs| - 1]);
      PartsTell(costs[|costs| - 1], group);
    }
  }

  lemma PartsTell(line: Line, group: Line)
    ensures Parts(line) == Parts(group) <==> SameGroup(line, group)
  {
    var p, q := Parts(line), Parts(group);
    assert p[0] == line.period && p[1] == line.scenario && p[2] == line.currency;
    assert q[0] == group.period && q[1] == group.scenario && q[2] == group.currency;
  }

  // ----- Reports ----------------------------------------------------------------------------

  /** The candidate of a group, with what was recognized before what was allocated. */
  predicate Reports(lower: char -> char, x: Candidate, group: Line, recognized: int, budgeted: int) {
    && x.target == TargetOf(lower, group.period, group.scenario, group.currency)
    && x.summary.text == group.period + " " + group.scenario + " recognized " + FormatInt(recognized)
                         + " minor units against " + FormatInt(budgeted) + " allocated minor units."
  }

  lemma ReportReports(lower: char -> char, group: Line, recognized: int, budgeted: int)
    ensures Reports(lower, Report(lower, group.period, group.scenario, group.currency, Totals(budgeted, recognized)),
                    group, recognized, budgeted)
  {
  }

  /** Fields without NUL, and sums of the group within 64 bits. */
  ghost predicate Ordinary(rule: Rule, budgets: seq<Line>, costs: seq<Line>, group: Line) {
    && AllNulFree(budgets) && AllNulFree(costs) && NulFree(group)
    && Fits(AllocatedTo(rule, group, budgets)) && Fits(RecognizedFor(rule, group, costs))
  }

  /** A group is reported, with its sums, if its recognized costs exceed its allocations. */
  lemma OverIsReported(
      lower: char -> char, rule: Rule, budgets: seq<Line>, costs: seq<Line>, out: seq<Candidate>, group: Line)
    requires Result(lower, rule, budgets, costs, out) && Ordinary(rule, budgets, costs, group)
    requires RecognizedFor(rule, group, costs) > AllocatedTo(rule, group, budgets)
    ensures exists x :: x in out && Reports(lower, x, group, RecognizedFor(rule, group, costs),
                                            AllocatedTo(rule, group, budgets))
  {
    var groups :| Evaluated(lower, rule, budgets, costs, groups, out);
    var recognized, budgeted := RecognizedFor(rule, group, costs), AllocatedTo(rule, group, budgets);
    RecognizedIsTotal(rule, group, costs);
    AllocatedIsTotal(rule, group, budgets);
    EmittedExactly(lower, rule, budgets, costs, groups, out, group, recognized, budgeted);
    ReportReports(lower, group, recognized, budgeted);
  }

  /** And only then: every candidate reports such a group, of a line that was evaluated. */
  lemma ReportedIsOver(
      lower: char -> char, rule: Rule, budgets: seq<Line>, costs: seq<Line>, out: seq<Candidate>, x: Candidate)
    requires Result(lower, rule, budgets, costs, out) && x in out
    requires forall line :: line in budgets || line in costs ==> Ordinary(rule, budgets, costs, line)
    requires AllNulFree(budgets) && AllNulFree(costs)
    ensures exists line: Line ::
              && (line in budgets || line in costs)
              && RecognizedFor(rule, line, costs) > AllocatedTo(rule, line, budgets)
              && Reports(lower, x, line, RecognizedFor(rule, line, costs), AllocatedTo(rule, line, budgets))
  {
    var groups :| Evaluated(lower, rule, budgets, costs, groups, out);
    OnlyGroupsEmitted(lower, rule, budgets, costs, groups, out, x);
    var line: Line :| (line in budgets || line in costs) && Over(groups, KeyOf(line))
                      && x == Report(lower, line.period, line.scenario, line.currency, groups[KeyOf(line)]);
    var recognized, budgeted := RecognizedFor(rule, line, costs), AllocatedTo(rule, line, budgets);
    GroupSums(lower, rule, budgets, costs, groups, out, line);
    ReportReports(lower, line, recognized, budgeted);
  }

  lemma GroupSums(
      lower: char -> char, rule: Rule, budgets: seq<Line>, costs: seq<Line>, groups: Groups, out: seq<Candidate>,
      group: Line)
    requires Evaluated(lower, rule, budgets, costs, groups, out) && Ordinary(rule, budgets, costs, group)
    requires Over(groups, KeyOf(group))
    ensures groups[KeyOf(group)] == Totals(AllocatedTo(rule, group, budgets), RecognizedFor(rule, group, costs))
    ensures RecognizedFor(rule, group, costs) > AllocatedTo(rule, group, budgets)
  {
    var b, c, k := BudgetGrouping(rule), CostGrouping(rule), KeyOf(group);
    RecognizedIsTotal(rule, group, costs);
    AllocatedIsTotal(rule, group, budgets);
    KeyTotalIsFieldTotal(b, budgets, group);
    KeyTotalIsFieldTotal(c, costs, group);
    assert HoldsAt(b, budgets, c, costs, groups, k);
    WrapFits(RecognizedFor(rule, group, costs));
    WrapFits(AllocatedTo(rule, group, budgets));
  }

  // ----- Targets ----------------------------------------------------------------------------

  lemma {:induction false} TrimmedWithin(s: string)
    ensures |TrimHyphens(s)| <= |s| && forall c :: c in TrimHyphens(s) ==> c in s
    ensures TrimHyphens(s) != "" ==> TrimHyphens(s)[0] != '-' && TrimHyphens(s)[|TrimHyphens(s)| - 1] != '-'
    decreases |s|
  {
    if s != "" && s[0] == '-' {
      TrimmedWithin(s[1..]);
    } else if s != "" && s[|s| - 1] == '-' {
      TrimmedWithin(s[..|s| - 1]);
    }
  }

  /** A target is at most 128 plain characters, with no hyphen at the ends. */
  lemma TargetShape(lower: char -> char, period: string, scenario: string, currency: string)
    ensures var t := TargetOf(lower, period, scenario, currency).text;
            && |t| <= 128 && (t != "" ==> t[0] != '-' && t[|t| - 1] != '-')
            && forall c :: c in t ==> 'a' <= c <= 'z' || '0' <= c <= '9' || c in {'.', '_', ':', '-'}
  {
    var s := TargetChars(Lower(lower, Join(["budget", period, scenario, currency], '-')));
    var cut := if |s| > 128 then s[..128] else s;
    TrimmedWithin(cut);
    assert forall i :: 0 <= i < |cut| ==> TargetChar(cut[i]);
  }

  predicate Plain(s: string) {
    forall i :: 0 <= i < |s| ==> 'a' <= s[i] <= 'z' || '0' <= s[i] <= '9' || s[i] in {'.', '_', ':', '-'}
  }

  /** Plain fields stand in the target as they are, joined by hyphens after the word budget. */
  lemma TargetPlain(lower: char -> char, period: string, scenario: string, currency: string)
    requires CaseTable(lower) && Plain(period) && Plain(scenario) && Plain(currency)
    requires |period| + |scenario| + |currency| <= 119 && currency != "" && currency[|currency| - 1] != '-'
    ensures TargetOf(lower, period, scenario, currency).text == "budget-" + period + "-" + scenario + "-" + currency
  {
    JoinFour("budget", period, scenario, currency);
    var tail := currency;
    PlainJoined(scenario, tail);
    PlainJoined(period, scenario + ['-'] + tail);
    PlainJoined("budget", period + ['-'] + (scenario + ['-'] + tail));
    var s := "budget" + ['-'] + (period + ['-'] + (scenario + ['-'] + tail));
    PlainKept(lower, s);
    assert s == "budget-" + period + "-" + scenario + "-" + currency;
  }

  lemma PlainJoined(a: string, b: string)
    requires Plain(a) && Plain(b)
    ensures Plain(a + ['-'] + b)
  {
  }

  lemma PlainKept(lower: char -> char, s: string)
    requires CaseTable(lower) && Plain(s) && s != "" && s[0] != '-' && s[|s| - 1] != '-'
    ensures Lower(lower, s) == s && TargetChars(s) == s && TrimHyphens(s) == s
  {
    forall i | 0 <= i < |s| ensures lower(s[i]) == s[i] {
      assert s[i] < '\U{80}' && LowerAscii(s[i]) == s[i];
    }
  }
}
