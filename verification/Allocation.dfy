/** Which supply source fills each order line, and with how much (src/domain/allocation/allocate.ts). */
module Allocation {
  import opened Prelude

  datatype Line = Line(lineId: string, sku: string, quantity: real)

  datatype Kind = Own | Partner

  datatype Level = Level(sourceId: string, sourceCode: string, sku: string, available: real, kind: Kind, priority: int,
                         canSplit: bool, enabled: bool)

  datatype Rule = Rule(id: string, order: seq<Kind>, allowSplit: bool)

  const DEFAULT_RULE := Rule("own-first", [Own, Partner], true)

  datatype Input = Input(lines: seq<Line>, supply: seq<Level>, rules: seq<Rule>)

  /** One entry; without a source it is what a person has to decide about. */
  datatype Entry = Entry(lineId: string, sku: string, source: Option<string>, quantity: int, rule: string, free: int,
                         before: int)

  datatype Shortfall = Shortfall(lineId: string, sku: string, quantity: int)

  datatype Result = Result(entries: seq<Entry>, shortfalls: seq<Shortfall>)

  type Balance = map<string, int>

  function RuleOf(input: Input): Rule {
    if input.rules == [] then DEFAULT_RULE else input.rules[0]
  }

  /* Ordering. */

  /** The order of strings by their characters. */
  predicate Less(a: string, b: string) {
    b != [] && (a == [] || a[0] < b[0] || (a[0] == b[0] && Less(a[1..], b[1..])))
  }

  /** Where a kind first stands in the rule's order; behind everything when it is not in it. */
  function Rank(order: seq<Kind>, kind: Kind): nat {
    if order == [] || order[0] == kind then 0 else 1 + Rank(order[1..], kind)
  }

  predicate Before(order: seq<Kind>, a: Level, b: Level) {
    a.priority < b.priority
    || (a.priority == b.priority
        && (Rank(order, a.kind) < Rank(order, b.kind)
            || (Rank(order, a.kind) == Rank(order, b.kind) && Less(a.sourceCode, b.sourceCode))))
  }

  /** Behind everything it does not come before: the place a stable sort gives it. */
  function Insert(order: seq<Kind>, sorted: seq<Level>, x: Level): seq<Level> {
    if sorted != [] && Before(order, x, sorted[|sorted| - 1])
    then Insert(order, sorted[..|sorted| - 1], x) + [sorted[|sorted| - 1]]
    else sorted + [x]
  }

  function OrderSources(supply: seq<Level>, order: seq<Kind>): seq<Level> {
    if supply == [] then []
    else Insert(order, OrderSources(supply[..|supply| - 1], order), supply[|supply| - 1])
  }

  lemma {:induction false} LessTransitive(a: string, b: string, c: string)
    requires Less(a, b) && Less(b, c)
    ensures Less(a, c)
  {
    if a != [] && a[0] == b[0] == c[0] {
      LessTransitive(a[1..], b[1..], c[1..]);
    }
  }

  lemma {:induction false} LessAsymmetric(a: string, b: string)
    requires Less(a, b)
    ensures !Less(b, a)
  {
    if a != [] && a[0] == b[0] {
      LessAsymmetric(a[1..], b[1..]);
    }
  }

  lemma {:induction false} LessTotal(a: string, b: string)
    ensures a == b || Less(a, b) || Less(b, a)
  {
    if a != [] && b != [] && a[0] == b[0] {
      LessTotal(a[1..], b[1..]);
      assert a == [a[0]] + a[1..] && b == [b[0]] + b[1..];
    }
  }

  lemma BeforeTransitive(order: seq<Kind>, a: Level, b: Level, c: Level)
    requires !Before(order, b, a) && !Before(order, c, b)
    ensures !Before(order, c, a)
  {
    LessTotal(a.sourceCode, b.sourceCode);
    LessTotal(b.sourceCode, c.sourceCode);
    LessTotal(a.sourceCode, c.sourceCode);
    if Less(a.sourceCode, b.sourceCode) && Less(b.sourceCode, c.sourceCode) {
      LessTransitive(a.sourceCode, b.sourceCode, c.sourceCode);
    }
    if Less(c.sourceCode, a.sourceCode) {
      LessAsymmetric(c.sourceCode, a.sourceCode);
    }
  }

  lemma BeforeAsymmetric(order: seq<Kind>, a: Level, b: Level)
    requires Before(order, a, b)
    ensures !Before(order, b, a)
  {
    if Less(a.sourceCode, b.sourceCode) {
      LessAsymmetric(a.sourceCode, b.sourceCode);
    }
  }

  ghost predicate Sorted(order: seq<Kind>, s: seq<Level>) {
    forall i, j :: 0 <= i < j < |s| ==> !Before(order, s[j], s[i])
  }

  lemma LastOneSorts(order: seq<Kind>, s: seq<Level>, x: Level)
    requires Sorted(order, s) && forall y :: y in multiset(s) ==> !Before(order, x, y)
    ensures Sorted(order, s + [x])
  {
    forall i | 0 <= i < |s| ensures !Before(order, x, s[i]) {
      assert s[i] in multiset(s);
    }
  }

  lemma {:induction false} InsertSorts(order: seq<Kind>, s: seq<Level>, x: Level)
    requires Sorted(order, s)
    ensures Sorted(order, Insert(order, s, x)) && multiset(Insert(order, s, x)) == multiset(s) + multiset{x}
  {
    if s == [] {
      return;
    }
    var n := |s| - 1;
    assert s == s[..n] + [s[n]];
    forall y | y in multiset(s[..n]) ensures !Before(order, s[n], y) {
      var i :| 0 <= i < n && s[i] == y;
    }
    if Before(order, x, s[n]) {
      InsertSorts(order, s[..n], x);
      BeforeAsymmetric(order, x, s[n]);
      LastOneSorts(order, Insert(order, s[..n], x), s[n]);
    } else {
      forall y | y in multiset(s) ensures !Before(order, x, y) {
        if y != s[n] {
          BeforeTransitive(order, y, s[n], x);
        }
      }
      LastOneSorts(order, s, x);
    }
  }

  lemma {:induction false} OrderSourcesSorts(supply: seq<Level>, order: seq<Kind>)
    ensures Sorted(order, OrderSources(supply, order)) && multiset(OrderSources(supply, order)) == multiset(supply)
  {
    if supply != [] {
      var n := |supply| - 1;
      assert supply == supply[..n] + [supply[n]];
      OrderSourcesSorts(supply[..n], order);
      InsertSorts(order, OrderSources(supply[..n], order), supply[n]);
    }
  }

  /* Filling. */

  /** One source's stock of one SKU, by a separator no source id can contain. */
  function Key(sourceId: string, sku: string): string {
    sourceId + "\0" + sku
  }

  function KeyOf(level: Level): string {
    Key(level.sourceId, level.sku)
  }

  function Free(balance: Balance, key: string): int {
    if key in balance then balance[key] else 0
  }

  function Enabled(supply: seq<Level>): seq<Level> {
    if supply == [] then []
    else Enabled(supply[..|supply| - 1]) + if supply[|supply| - 1].enabled then [supply[|supply| - 1]] else []
  }

  /** Whole units, never below zero; a later level of the same source and SKU overrides an earlier one. */
  function Opening(supply: seq<Level>): Balance {
    if supply == [] then map[]
    else
      var before, last := Opening(supply[..|supply| - 1]), supply[|supply| - 1];
      if last.enabled then before[KeyOf(last) := Max(0, Trunc(last.available))] else before
  }

  /** What a level gives a line of which `remaining` out of `wanted` is still open. A source that may not be
      split gives the whole line or nothing. */
  function Take(rule: Rule, level: Level, line: Line, wanted: int, remaining: int, free: int): int {
    if level.sku != line.sku || remaining == 0 || free <= 0 then 0
    else if (free < remaining || remaining < wanted) && !(rule.allowSplit && level.canSplit) then 0
    else Min(free, remaining)
  }

  /** A line in the middle of being filled. */
  datatype Filling = Filling(entries: seq<Entry>, remaining: int, balance: Balance)

  function Offer(rule: Rule, level: Level, line: Line, wanted: int, f: Filling): Filling {
    var free := Free(f.balance, KeyOf(level));
    var take := Take(rule, level, line, wanted, f.remaining, free);
    if take == 0 then f
    else Filling(f.entries + [Entry(line.lineId, line.sku, Some(level.sourceId), take, rule.id, free, f.remaining)],
                 f.remaining - take, f.balance[KeyOf(level) := free - take])
  }

  /** The sources asked in turn. */
  function Serve(rule: Rule, ordered: seq<Level>, line: Line, wanted: int, f: Filling): Filling {
    if ordered == [] then f
    else Offer(rule, ordered[|ordered| - 1], line, wanted, Serve(rule, ordered[..|ordered| - 1], line, wanted, f))
  }

  datatype Run = Run(result: Result, balance: Balance)

  function FillLine(rule: Rule, ordered: seq<Level>, line: Line, run: Run): Run {
    var wanted := Trunc(line.quantity);
    if wanted <= 0 then run
    else
      var f := Serve(rule, ordered, line, wanted, Filling([], wanted, run.balance));
      if f.remaining > 0
      then Run(Result(run.result.entries + f.entries
          + [Entry(line.lineId, line.sku, None, f.remaining, rule.id, 0, f.remaining)],
                      run.result.shortfalls + [Shortfall(line.lineId, line.sku, f.remaining)]), f.balance)
      else Run(Result(run.result.entries + f.entries, run.result.shortfalls), f.balance)
  }

  function FillLines(rule: Rule, ordered: seq<Level>, lines: seq<Line>, balance: Balance): Run {
    if lines == [] then Run(Result([], []), balance)
    else FillLine(rule, ordered, lines[|lines| - 1], FillLines(rule, ordered, lines[..|lines| - 1], balance))
  }

  function Allocated(input: Input): Run {
    FillLines(RuleOf(input), OrderSources(Enabled(input.supply), RuleOf(input).order), input.lines,
        Opening(input.supply))
  }

  method Allocate(input: Input) returns (result: Result)
    ensures result == Allocated(input).result
  {
    var rule := RuleOf(input);
    var entries: seq<Entry>, shortfalls: seq<Shortfall> := [], [];
    var stock: Balance := map[];
    for k := 0 to |input.supply|
      invariant stock == Opening(input.supply[..k])
    {
      var level := input.supply[k];
      assert input.supply[..k + 1][..k] == input.supply[..k];
      if level.enabled {
        stock := stock[KeyOf(level) := Max(0, Trunc(level.available))];
      }
    }
    assert input.supply[..|input.supply|] == input.supply;
    var ordered := OrderSources(Enabled(input.supply), rule.order);
    for n := 0 to |input.lines|
      invariant Run(Result(entries, shortfalls), stock)
              == FillLines(rule, ordered, input.lines[..n], Opening(input.supply))
    {
      var line := input.lines[n];
      assert input.lines[..n + 1][..n] == input.lines[..n];
      var wanted := Trunc(line.quantity);
      if wanted > 0 {
        var more, remaining;
        more, remaining, stock := FillFrom(rule, ordered, line, wanted, stock);
        entries := entries + more;
        if remaining > 0 {
          shortfalls := shortfalls + [Shortfall(line.lineId, line.sku, remaining)];
          entries := entries + [Entry(line.lineId, line.sku, None, remaining, rule.id, 0, remaining)];
        }
      }
    }
    assert input.lines[..|input.lines|] == input.lines;
    result := Result(entries, shortfalls);
  }

  /** The inner loop: it stops as soon as nothing remains. */
  method FillFrom(rule: Rule, ordered: seq<Level>, line: Line, wanted: int, stock: Balance)
    returns (entries: seq<Entry>, remaining: int, balance: Balance)
    requires wanted > 0
    ensures Filling(entries, remaining, balance) == Serve(rule, ordered, line, wanted, Filling([], wanted, stock))
  {
    entries, remaining, balance := [], wanted, stock;
    var k := 0;
    while k < |ordered| && remaining != 0
      invariant k <= |ordered|
      invariant Filling(entries, remaining, balance)
              == Serve(rule, ordered[..k], line, wanted, Filling([], wanted, stock))
      decreases |ordered| - k
    {
      var level := ordered[k];
      assert ordered[..k + 1][..k] == ordered[..k];
      k := k + 1;
      if level.sku != line.sku {
        continue;
      }
      var at := KeyOf(level);
      var free := if at in balance then balance[at] else 0;
      if free <= 0 {
        continue;
      }
      var wouldSplit := free < remaining || remaining < wanted;
      if wouldSplit && (!rule.allowSplit || !level.canSplit) {
        continue;
      }
      var take := Min(free, remaining);
      entries := entries + [Entry(line.lineId, line.sku, Some(level.sourceId), take, rule.id, free, remaining)];
      balance := balance[at := free - take];
      remaining := remaining - take;
    }
    if k < |ordered| {
      NothingLeft(rule, ordered, line, wanted, Filling([], wanted, stock), k);
    }
    assert ordered[..|ordered|] == ordered;
  }

  /** A filled line asks no more sources. */
  lemma {:induction false} NothingLeft(rule: Rule, ordered: seq<Level>, line: Line, wanted: int, f: Filling, k: nat)
    requires k <= |ordered| && Serve(rule, ordered[..k], line, wanted, f).remaining == 0
    ensures Serve(rule, ordered, line, wanted, f) == Serve(rule, ordered[..k], line, wanted, f)
  {
    if k == |ordered| {
      assert ordered[..k] == ordered;
    } else {
      assert ordered[..|ordered| - 1][..k] == ordered[..k];
      NothingLeft(rule, ordered[..|ordered| - 1], line, wanted, f, k);
    }
  }
}
