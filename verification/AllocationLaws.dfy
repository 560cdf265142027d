/** What the allocator promises over a whole order (src/domain/allocation/allocate.ts). */
module AllocationLaws {
  import opened Prelude
  import opened Allocation

  /* Sums over entries. */

  function Sum(entries: seq<Entry>, counts: Entry -> bool): int {
    if entries == [] then 0
    else
      var last := entries[|entries| - 1];
      Sum(entries[..|entries| - 1], counts) + if counts(last) then last.quantity else 0
  }

  lemma {:induction false} SumAppend(a: seq<Entry>, b: seq<Entry>, counts: Entry -> bool)
    ensures Sum(a + b, counts) == Sum(a, counts) + Sum(b, counts)
  {
    if b == [] {
      assert a + b == a;
    } else {
      assert (a + b)[..|a + b| - 1] == a + b[..|b| - 1];
      SumAppend(a, b[..|b| - 1], counts);
    }
  }

  function OfLine(lineId: string): Entry -> bool {
    (e: Entry) => e.lineId == lineId
  }

  function FilledOf(sku: string): Entry -> bool {
    (e: Entry) => e.source.Some? && e.sku == sku
  }

  function FromKey(key: string): Entry -> bool {
    (e: Entry) => e.source.Some? && Key(e.source.value, e.sku) == key
  }

  function Wanted(line: Line): int {
    Max(0, Trunc(line.quantity))
  }

  function Demand(lines: seq<Line>, sku: string): int {
    if lines == [] then 0
    else Demand(lines[..|lines| - 1], sku) + if lines[|lines| - 1].sku == sku then Wanted(lines[|lines| - 1]) else 0
  }

  function OrderedOn(lines: seq<Line>, lineId: string): int {
    if lines == [] then 0
    else
      var last := lines[|lines| - 1];
      OrderedOn(lines[..|lines| - 1], lineId) + if last.lineId == lineId then Wanted(last) else 0
  }

  /** A filling under way: nothing over-given, nothing negative. */
  predicate Sane(f: Filling) {
    f.remaining >= 0 && Stocked(f.balance)
  }

  lemma {:induction false} ServeIsSane(rule: Rule, ordered: seq<Level>, line: Line, wanted: int, f: Filling)
    requires Sane(f)
    ensures Sane(Serve(rule, ordered, line, wanted, f))
  {
    if ordered != [] {
      ServeIsSane(rule, ordered[..|ordered| - 1], line, wanted, f);
    }
  }

  /* Conservation. */

  lemma OneMore(entries: seq<Entry>, e: Entry, counts: Entry -> bool)
    ensures Sum(entries + [e], counts) == Sum(entries, counts) + if counts(e) then e.quantity else 0
  {}

  /** What a line still lacks, plus what it has, stays the same while it is served. */
  lemma {:induction false} ServeKeepsLine(rule: Rule, ordered: seq<Level>, line: Line, wanted: int, f: Filling,
                                          id: string)
    ensures var g := Serve(rule, ordered, line, wanted, f);
            Sum(g.entries, OfLine(id)) + (if id == line.lineId then g.remaining else 0)
              == Sum(f.entries, OfLine(id)) + if id == line.lineId then f.remaining else 0
  {
    if ordered != [] {
      var g := Serve(rule, ordered[..|ordered| - 1], line, wanted, f);
      ServeKeepsLine(rule, ordered[..|ordered| - 1], line, wanted, f, id);
      var h := Offer(rule, ordered[|ordered| - 1], line, wanted, g);
      if h != g {
        OneMore(g.entries, h.entries[|g.entries|], OfLine(id));
      }
    }
  }

  lemma OfferKeepsStock(rule: Rule, level: Level, line: Line, wanted: int, f: Filling, key: string)
    ensures var g := Offer(rule, level, line, wanted, f);
            Sum(g.entries, FromKey(key)) + Free(g.balance, key) == Sum(f.entries, FromKey(key)) + Free(f.balance, key)
  {
    var g := Offer(rule, level, line, wanted, f);
    if g != f {
      var e := g.entries[|f.entries|];
      OneMore(f.entries, e, FromKey(key));
      assert Key(e.source.value, e.sku) == KeyOf(level);
    }
  }

  /** No stock is made or lost. */
  lemma {:induction false} ServeKeepsStock(rule: Rule, ordered: seq<Level>, line: Line, wanted: int, f: Filling,
                                           key: string)
    ensures var g := Serve(rule, ordered, line, wanted, f);
            Sum(g.entries, FromKey(key)) + Free(g.balance, key) == Sum(f.entries, FromKey(key)) + Free(f.balance, key)
  {
    if ordered != [] {
      ServeKeepsStock(rule, ordered[..|ordered| - 1], line, wanted, f, key);
      OfferKeepsStock(rule, ordered[|ordered| - 1], line, wanted,
          Serve(rule, ordered[..|ordered| - 1], line, wanted, f), key);
    }
  }

  predicate Stocked(balance: Balance) {
    forall key :: key in balance ==> balance[key] >= 0
  }

  lemma FillLineConserves(rule: Rule, ordered: seq<Level>, line: Line, run: Run, id: string, key: string)
    requires Stocked(run.balance)
    ensures var after := FillLine(rule, ordered, line, run);
            && Stocked(after.balance)
            && Sum(after.result.entries, OfLine(id))
                == Sum(run.result.entries, OfLine(id)) + (if line.lineId == id then Wanted(line) else 0)
            && Sum(after.result.entries, FromKey(key)) + Free(after.balance, key)
               == Sum(run.result.entries, FromKey(key)) + Free(run.balance, key)
  {
    var wanted := Trunc(line.quantity);
    if wanted > 0 {
      var start := Filling([], wanted, run.balance);
      var f := Serve(rule, ordered, line, wanted, start);
      ServeIsSane(rule, ordered, line, wanted, start);
      ServeKeepsLine(rule, ordered, line, wanted, start, id);
      ServeKeepsStock(rule, ordered, line, wanted, start, key);
      SumAppend(run.result.entries, f.entries, OfLine(id));
      SumAppend(run.result.entries, f.entries, FromKey(key));
      var e := Entry(line.lineId, line.sku, None, f.remaining, rule.id, 0, f.remaining);
      OneMore(run.result.entries + f.entries, e, OfLine(id));
      OneMore(run.result.entries + f.entries, e, FromKey(key));
    }
  }

  lemma {:induction false} LinesConserve(rule: Rule, ordered: seq<Level>, lines: seq<Line>, balance: Balance,
                                         id: string, key: string)
    requires Stocked(balance)
    ensures var run := FillLines(rule, ordered, lines, balance);
            && Stocked(run.balance)
            && Sum(run.result.entries, OfLine(id)) == OrderedOn(lines, id)
            && Sum(run.result.entries, FromKey(key)) + Free(run.balance, key) == Free(balance, key)
  {
    if lines != [] {
      LinesConserve(rule, ordered, lines[..|lines| - 1], balance, id, key);
      FillLineConserves(rule, ordered, lines[|lines| - 1], FillLines(rule, ordered, lines[..|lines| - 1], balance),
          id, key);
    }
  }

  lemma {:induction false} OpeningIsNotNegative(supply: seq<Level>)
    ensures Stocked(Opening(supply))
  {
    if supply != [] {
      OpeningIsNotNegative(supply[..|supply| - 1]);
    }
  }

  /** Every line's entries, the unfilled remainder among them, sum to what it asked for. */
  lemma EveryUnitIsAccountedFor(input: Input, lineId: string)
    ensures Sum(Allocated(input).result.entries, OfLine(lineId)) == OrderedOn(input.lines, lineId)
  {
    OpeningIsNotNegative(input.supply);
    LinesConserve(RuleOf(input), OrderSources(Enabled(input.supply), RuleOf(input).order), input.lines,
        Opening(input.supply), lineId, "");
  }

  /** What a source gave of a SKU over the whole order and what it has left is what it had. */
  lemma NoStockIsGivenTwice(input: Input, sourceId: string, sku: string)
    ensures var run, key := Allocated(input), Key(sourceId, sku);
            && Sum(run.result.entries, FromKey(key)) + Free(run.balance, key) == Free(Opening(input.supply), key)
            && Sum(run.result.entries, FromKey(key)) <= Free(Opening(input.supply), key)
  {
    OpeningIsNotNegative(input.supply);
    LinesConserve(RuleOf(input), OrderSources(Enabled(input.supply), RuleOf(input).order), input.lines,
        Opening(input.supply), "", Key(sourceId, sku));
  }

  /* Shortfalls. */

  /** The entries without a source, as shortfalls. */
  function Unfilled(entries: seq<Entry>): seq<Shortfall> {
    if entries == [] then []
    else
      var e := entries[|entries| - 1];
      Unfilled(entries[..|entries| - 1]) + if e.source.None? then [Shortfall(e.lineId, e.sku, e.quantity)] else []
  }

  lemma {:induction false} UnfilledAppend(a: seq<Entry>, b: seq<Entry>)
    requires Unfilled(b) == []
    ensures Unfilled(a + b) == Unfilled(a)
  {
    if b == [] {
      assert a + b == a;
    } else {
      assert (a + b)[..|a + b| - 1] == a + b[..|b| - 1];
      UnfilledAppend(a, b[..|b| - 1]);
    }
  }

  lemma {:induction false} ServeFills(rule: Rule, ordered: seq<Level>, line: Line, wanted: int, f: Filling)
    requires Unfilled(f.entries) == []
    ensures Unfilled(Serve(rule, ordered, line, wanted, f).entries) == []
  {
    if ordered != [] {
      ServeFills(rule, ordered[..|ordered| - 1], line, wanted, f);
    }
  }

  lemma {:induction false} LinesReport(rule: Rule, ordered: seq<Level>, lines: seq<Line>, balance: Balance)
    ensures var run := FillLines(rule, ordered, lines, balance); Unfilled(run.result.entries) == run.result.shortfalls
  {
    if lines != [] {
      var before, line := FillLines(rule, ordered, lines[..|lines| - 1], balance), lines[|lines| - 1];
      LinesReport(rule, ordered, lines[..|lines| - 1], balance);
      var wanted := Trunc(line.quantity);
      var f := Serve(rule, ordered, line, wanted, Filling([], wanted, before.balance));
      ServeFills(rule, ordered, line, wanted, Filling([], wanted, before.balance));
      UnfilledAppend(before.result.entries, f.entries);
    }
  }

  /** The entries without a source are the shortfalls, one for one and in order. */
  lemma ShortfallsAreReported(input: Input)
    ensures Unfilled(Allocated(input).result.entries) == Allocated(input).result.shortfalls
  {
    LinesReport(RuleOf(input), OrderSources(Enabled(input.supply), RuleOf(input).order), input.lines,
        Opening(input.supply));
  }

  /* As much as there is. */

  /** No source offers one SKU twice, by the key its balance is kept under. */
  ghost predicate Unique(levels: seq<Level>) {
    forall i, j {:trigger KeyOf(levels[i]), KeyOf(levels[j])} :: 0 <= i < j < |levels| ==>
        KeyOf(levels[i]) != KeyOf(levels[j])
  }

  /** What the levels have of a SKU. */
  function Avail(levels: seq<Level>, balance: Balance, sku: string): int {
    if levels == [] then 0
    else
      var last := levels[|levels| - 1];
      Avail(levels[..|levels| - 1], balance, sku) + if last.sku == sku then Free(balance, KeyOf(last)) else 0
  }

  lemma {:induction false} AvailFrame(levels: seq<Level>, balance: Balance, sku: string, key: string, left: int)
    requires forall i :: 0 <= i < |levels| ==> KeyOf(levels[i]) != key
    ensures Avail(levels, balance[key := left], sku) == Avail(levels, balance, sku)
  {
    if levels != [] {
      assert KeyOf(levels[|levels| - 1]) != key;
      AvailFrame(levels[..|levels| - 1], balance, sku, key, left);
    }
  }

  /** Serving leaves the levels it does not ask alone. */
  lemma {:induction false} ServeFrame(rule: Rule, ordered: seq<Level>, line: Line, wanted: int, f: Filling, key: string)
    requires forall i :: 0 <= i < |ordered| ==> KeyOf(ordered[i]) != key
    ensures Free(Serve(rule, ordered, line, wanted, f).balance, key) == Free(f.balance, key)
  {
    if ordered != [] {
      assert KeyOf(ordered[|ordered| - 1]) != key;
      ServeFrame(rule, ordered[..|ordered| - 1], line, wanted, f, key);
    }
  }

  ghost predicate AllSplit(rule: Rule, levels: seq<Level>) {
    rule.allowSplit && forall i :: 0 <= i < |levels| ==> levels[i].canSplit
  }

  lemma {:induction false} AvailIsNotNegative(levels: seq<Level>, balance: Balance, sku: string)
    requires Stocked(balance)
    ensures Avail(levels, balance, sku) >= 0
  {
    if levels != [] {
      AvailIsNotNegative(levels[..|levels| - 1], balance, sku);
    }
  }

  /** One splittable level gives what it has, up to what is asked, and no other level notices. */
  lemma OfferTakesAll(rule: Rule, others: seq<Level>, level: Level, line: Line, wanted: int, f: Filling, sku: string)
    requires Sane(f) && rule.allowSplit && level.canSplit
    requires forall i :: 0 <= i < |others| ==> KeyOf(others[i]) != KeyOf(level)
    ensures var g, free := Offer(rule, level, line, wanted, f), Free(f.balance, KeyOf(level));
            && g.remaining == (if level.sku == line.sku then Max(0, f.remaining - free) else f.remaining)
            && Free(g.balance, KeyOf(level)) == free - (f.remaining - g.remaining)
            && Avail(others, g.balance, sku) == Avail(others, f.balance, sku)
  {
    var free := Free(f.balance, KeyOf(level));
    AvailFrame(others, f.balance, sku, KeyOf(level), free - Take(rule, level, line, wanted, f.remaining, free));
  }

  lemma {:induction false} ServeTakesAll(rule: Rule, ordered: seq<Level>, line: Line, wanted: int, f: Filling,
                                         sku: string)
    requires Unique(ordered) && AllSplit(rule, ordered) && Sane(f)
    ensures var g := Serve(rule, ordered, line, wanted, f);
            && g.remaining == Max(0, f.remaining - Avail(ordered, f.balance, line.sku))
            && Avail(ordered, g.balance, sku) == Avail(ordered, f.balance, sku)
                - if sku == line.sku then f.remaining - g.remaining else 0
  {
    if ordered != [] {
      var n := |ordered| - 1;
      var last, g := ordered[n], Serve(rule, ordered[..n], line, wanted, f);
      forall i | 0 <= i < n ensures KeyOf(ordered[..n][i]) != KeyOf(last) {
        assert KeyOf(ordered[i]) != KeyOf(ordered[n]);
      }
      ServeTakesAll(rule, ordered[..n], line, wanted, f, sku);
      ServeIsSane(rule, ordered[..n], line, wanted, f);
      ServeFrame(rule, ordered[..n], line, wanted, f, KeyOf(last));
      OfferTakesAll(rule, ordered[..n], last, line, wanted, g, sku);
      AvailIsNotNegative(ordered[..n], f.balance, line.sku);
    }
  }

  /** All sources filled of a SKU, over the lines, is what was wanted or all there was. */
  lemma {:induction false} LinesTakeAll(rule: Rule, ordered: seq<Level>, lines: seq<Line>, balance: Balance,
                                        sku: string)
    requires Unique(ordered) && AllSplit(rule, ordered) && Stocked(balance)
    ensures var run := FillLines(rule, ordered, lines, balance);
            && Stocked(run.balance)
            && Sum(run.result.entries, FilledOf(sku)) == Min(Demand(lines, sku), Avail(ordered, balance, sku))
            && Avail(ordered, run.balance, sku) == Avail(ordered, balance, sku) - Sum(run.result.entries, FilledOf(sku))
  {
    AvailIsNotNegative(ordered, balance, sku);
    if lines != [] {
      var before, line := FillLines(rule, ordered, lines[..|lines| - 1], balance), lines[|lines| - 1];
      LinesTakeAll(rule, ordered, lines[..|lines| - 1], balance, sku);
      LineTakesAll(rule, ordered, line, before, sku);
    }
  }

  lemma {:induction false} ServeFillsOf(rule: Rule, ordered: seq<Level>, line: Line, wanted: int, f: Filling,
                                        sku: string)
    ensures var g := Serve(rule, ordered, line, wanted, f);
            Sum(g.entries, FilledOf(sku)) == Sum(f.entries, FilledOf(sku))
                + if sku == line.sku then f.remaining - g.remaining else 0
  {
    if ordered != [] {
      var g := Serve(rule, ordered[..|ordered| - 1], line, wanted, f);
      ServeFillsOf(rule, ordered[..|ordered| - 1], line, wanted, f, sku);
      var h := Offer(rule, ordered[|ordered| - 1], line, wanted, g);
      if h != g {
        OneMore(g.entries, h.entries[|g.entries|], FilledOf(sku));
      }
    }
  }

  /** A line adds what its sources gave, its unfilled rest not counted. */
  lemma FillLineFills(rule: Rule, ordered: seq<Level>, line: Line, run: Run, sku: string)
    requires Wanted(line) > 0
    ensures var f := Serve(rule, ordered, line, Wanted(line), Filling([], Wanted(line), run.balance));
            && FillLine(rule, ordered, line, run).balance == f.balance
            && Sum(FillLine(rule, ordered, line, run).result.entries, FilledOf(sku))
               == Sum(run.result.entries, FilledOf(sku)) + if sku == line.sku then Wanted(line) - f.remaining else 0
  {
    var start := Filling([], Wanted(line), run.balance);
    var f := Serve(rule, ordered, line, Wanted(line), start);
    ServeFillsOf(rule, ordered, line, Wanted(line), start, sku);
    SumAppend(run.result.entries, f.entries, FilledOf(sku));
    OneMore(run.result.entries + f.entries,
        Entry(line.lineId, line.sku, None, f.remaining, rule.id, 0, f.remaining), FilledOf(sku));
  }

  lemma LineTakesAll(rule: Rule, ordered: seq<Level>, line: Line, run: Run, sku: string)
    requires Unique(ordered) && AllSplit(rule, ordered) && Stocked(run.balance)
    ensures var after := FillLine(rule, ordered, line, run);
            var filled := if sku == line.sku then Min(Wanted(line), Avail(ordered, run.balance, sku)) else 0;
            && Stocked(after.balance)
            && Sum(after.result.entries, FilledOf(sku)) == Sum(run.result.entries, FilledOf(sku)) + filled
            && Avail(ordered, after.balance, sku) == Avail(ordered, run.balance, sku) - filled
  {
    AvailIsNotNegative(ordered, run.balance, sku);
    if Wanted(line) > 0 {
      var start := Filling([], Wanted(line), run.balance);
      ServeIsSane(rule, ordered, line, Wanted(line), start);
      ServeTakesAll(rule, ordered, line, Wanted(line), start, sku);
      FillLineFills(rule, ordered, line, run, sku);
    }
  }

  /* From the list as given to the list as sorted. */

  /** What the enabled levels say they have of a SKU, in whole units. */
  function Stock(supply: seq<Level>, sku: string): int {
    if supply == [] then 0
    else
      var last := supply[|supply| - 1];
      Stock(supply[..|supply| - 1], sku) + if last.enabled && last.sku == sku then Max(0, Trunc(last.available)) else 0
  }

  lemma {:induction false} InsertKeepsAvail(order: seq<Kind>, s: seq<Level>, x: Level, balance: Balance, sku: string)
    ensures Avail(Insert(order, s, x), balance, sku) == Avail(s, balance, sku)
            + if x.sku == sku then Free(balance, KeyOf(x)) else 0
  {
    if s != [] && Before(order, x, s[|s| - 1]) {
      InsertKeepsAvail(order, s[..|s| - 1], x, balance, sku);
    }
  }

  lemma {:induction false} SortKeepsAvail(order: seq<Kind>, s: seq<Level>, balance: Balance, sku: string)
    ensures Avail(OrderSources(s, order), balance, sku) == Avail(s, balance, sku)
  {
    if s != [] {
      SortKeepsAvail(order, s[..|s| - 1], balance, sku);
      InsertKeepsAvail(order, OrderSources(s[..|s| - 1], order), s[|s| - 1], balance, sku);
    }
  }

  lemma {:induction false} OpeningHolds(supply: seq<Level>, sku: string)
    requires Unique(Enabled(supply))
    ensures Avail(Enabled(supply), Opening(supply), sku) == Stock(supply, sku)
  {
    if supply != [] {
      var n := |supply| - 1;
      var before, all := Enabled(supply[..n]), Enabled(supply);
      assert before <= all;
      forall i, j | 0 <= i < j < |before| ensures KeyOf(before[i]) != KeyOf(before[j]) {
        assert KeyOf(all[i]) != KeyOf(all[j]);
      }
      OpeningHolds(supply[..n], sku);
      if supply[n].enabled {
        forall i | 0 <= i < |before| ensures KeyOf(before[i]) != KeyOf(supply[n]) {
          assert KeyOf(all[i]) != KeyOf(all[|before|]);
        }
        AvailFrame(before, Opening(supply[..n]), sku, KeyOf(supply[n]), Max(0, Trunc(supply[n].available)));
        assert all[..|before|] == before;
      } else {
        assert all == before;
      }
    }
  }

  /** Sorting keeps the keys apart. */
  lemma {:induction false} KeysApart(s: seq<Level>, t: seq<Level>)
    requires Unique(s) && multiset(s) == multiset(t)
    ensures Unique(t)
  {
    forall i, j | 0 <= i < j < |t|
      ensures KeyOf(t[i]) != KeyOf(t[j])
    {
      if KeyOf(t[i]) == KeyOf(t[j]) {
        assert t[i] in multiset(s) && t[j] in multiset(s);
        var a :| 0 <= a < |s| && s[a] == t[i];
        var b :| 0 <= b < |s| && s[b] == t[j];
        assert KeyOf(s[a]) == KeyOf(s[b]);
        assert a == b;
        TwiceThere(t, i, j);
        OnceThere(s, a);
      }
    }
  }

  lemma TwiceThere(t: seq<Level>, i: nat, j: nat)
    requires i < j < |t| && t[i] == t[j]
    ensures multiset(t)[t[i]] >= 2
  {
    assert t == t[..j] + [t[j]] + t[j + 1..];
    assert t[i] in t[..j];
  }

  lemma OnceThere(s: seq<Level>, i: nat)
    requires Unique(s) && i < |s|
    ensures multiset(s)[s[i]] == 1
  {
    assert s == s[..i] + [s[i]] + s[i + 1..];
    forall k | 0 <= k < |s| && k != i ensures s[k] != s[i] {
      if k < i { assert KeyOf(s[k]) != KeyOf(s[i]); } else { assert KeyOf(s[i]) != KeyOf(s[k]); }
    }
    assert s[i] !in s[..i] && s[i] !in s[i + 1..];
  }

  /** With splitting allowed everywhere, a SKU is filled exactly up to what was wanted or what there was. */
  lemma FilledIsAllThereIs(input: Input, sku: string)
    requires Unique(Enabled(input.supply)) && AllSplit(RuleOf(input), Enabled(input.supply))
    ensures Sum(Allocated(input).result.entries, FilledOf(sku))
            == Min(Demand(input.lines, sku), Stock(input.supply, sku))
  {
    var rule, enabled := RuleOf(input), Enabled(input.supply);
    var ordered := OrderSources(enabled, rule.order);
    OrderSourcesSorts(enabled, rule.order);
    KeysApart(enabled, ordered);
    forall i | 0 <= i < |ordered| ensures ordered[i].canSplit {
      assert ordered[i] in multiset(enabled);
    }
    OpeningIsNotNegative(input.supply);
    LinesTakeAll(rule, ordered, input.lines, Opening(input.supply), sku);
    SortKeepsAvail(rule.order, enabled, Opening(input.supply), sku);
    OpeningHolds(input.supply, sku);
  }

  /* Splitting and priority. */

  /** The entry's source is one of the levels, it gives all it can of what was open, and all of the line unless
      both the rule and the source allow splitting. */
  ghost predicate Honoured(rule: Rule, levels: seq<Level>, line: Line, e: Entry) {
    && e.lineId == line.lineId && e.sku == line.sku && e.rule == rule.id
    && 0 < e.quantity == Min(e.free, e.before) && e.before <= Wanted(line)
    && exists i :: 0 <= i < |levels| && levels[i].sku == line.sku && e.source == Some(levels[i].sourceId)
                   && ((rule.allowSplit && levels[i].canSplit) || e.quantity == Wanted(line))
  }

  lemma HonouredByMore(rule: Rule, levels: seq<Level>, level: Level, line: Line, e: Entry)
    requires Honoured(rule, levels, line, e)
    ensures Honoured(rule, levels + [level], line, e)
  {
    var i :| 0 <= i < |levels| && levels[i].sku == line.sku && e.source == Some(levels[i].sourceId)
             && ((rule.allowSplit && levels[i].canSplit) || e.quantity == Wanted(line));
    assert (levels + [level])[i] == levels[i];
  }

  lemma {:induction false} ServeHonours(rule: Rule, ordered: seq<Level>, line: Line, balance: Balance)
    requires Wanted(line) > 0 && Stocked(balance)
    ensures var g := Serve(rule, ordered, line, Wanted(line), Filling([], Wanted(line), balance));
            && g.remaining <= Wanted(line)
            && forall k :: 0 <= k < |g.entries| ==> Honoured(rule, ordered, line, g.entries[k])
  {
    if ordered != [] {
      var n := |ordered| - 1;
      var f := Filling([], Wanted(line), balance);
      var g := Serve(rule, ordered[..n], line, Wanted(line), f);
      ServeHonours(rule, ordered[..n], line, balance);
      ServeIsSane(rule, ordered[..n], line, Wanted(line), f);
      assert ordered == ordered[..n] + [ordered[n]];
      forall k | 0 <= k < |g.entries| ensures Honoured(rule, ordered, line, g.entries[k]) {
        HonouredByMore(rule, ordered[..n], ordered[n], line, g.entries[k]);
      }
      var h := Offer(rule, ordered[n], line, Wanted(line), g);
      if h != g {
        assert ordered[n].sku == line.sku;
        assert Honoured(rule, ordered, line, h.entries[|g.entries|]);
      }
    }
  }

  /** Every entry with a source belongs to one of the order's lines and is honoured on it. */
  lemma {:induction false} LinesHonour(rule: Rule, ordered: seq<Level>, lines: seq<Line>, balance: Balance, k: nat)
    returns (n: nat)
    requires Stocked(balance) && k < |FillLines(rule, ordered, lines, balance).result.entries|
    requires FillLines(rule, ordered, lines, balance).result.entries[k].source.Some?
    ensures n < |lines| && Honoured(rule, ordered, lines[n], FillLines(rule, ordered, lines, balance).result.entries[k])
  {
    n := |lines| - 1;
    var before := FillLines(rule, ordered, lines[..n], balance);
    if k < |before.result.entries| {
      n := LinesHonour(rule, ordered, lines[..n], balance, k);
    } else {
      LinesConserve(rule, ordered, lines[..n], balance, "", "");
      ServeHonours(rule, ordered, lines[n], before.balance);
    }
  }

  /** Whatever the order: a source that may not be split, and every source under a rule that does not split,
      gives a whole line or nothing. */
  lemma WholeLinesFromTheUnsplit(input: Input, k: nat) returns (n: nat)
    requires k < |Allocated(input).result.entries| && Allocated(input).result.entries[k].source.Some?
    ensures n < |input.lines|
    ensures Honoured(RuleOf(input), Enabled(input.supply), input.lines[n], Allocated(input).result.entries[k])
  {
    var rule, enabled := RuleOf(input), Enabled(input.supply);
    var ordered, e := OrderSources(enabled, rule.order), Allocated(input).result.entries[k];
    OpeningIsNotNegative(input.supply);
    OrderSourcesSorts(enabled, rule.order);
    n := LinesHonour(rule, ordered, input.lines, Opening(input.supply), k);
    var line := input.lines[n];
    var i :| 0 <= i < |ordered| && ordered[i].sku == line.sku && e.source == Some(ordered[i].sourceId)
             && ((rule.allowSplit && ordered[i].canSplit) || e.quantity == Wanted(line));
    assert ordered[i] in multiset(enabled);
    var j :| 0 <= j < |enabled| && enabled[j] == ordered[i];
  }

  lemma UniqueBefore(levels: seq<Level>, n: nat)
    requires Unique(levels) && n <= |levels|
    ensures Unique(levels[..n])
  {
    forall a, b | 0 <= a < b < n ensures KeyOf(levels[..n][a]) != KeyOf(levels[..n][b]) {
      assert KeyOf(levels[a]) != KeyOf(levels[b]);
    }
  }

  lemma OfferLeaves(rule: Rule, level: Level, line: Line, wanted: int, f: Filling, other: Level)
    requires KeyOf(other) != KeyOf(level)
    ensures Free(Offer(rule, level, line, wanted, f).balance, KeyOf(other)) == Free(f.balance, KeyOf(other))
  {}

  /** While a line is still open, every splittable level already asked has nothing left. */
  lemma {:induction false} OpenMeansEmpty(rule: Rule, ordered: seq<Level>, line: Line, wanted: int, f: Filling, i: nat)
    requires Unique(ordered) && Sane(f) && i < |ordered| && ordered[i].sku == line.sku
    requires rule.allowSplit && ordered[i].canSplit
    requires Serve(rule, ordered, line, wanted, f).remaining > 0
    ensures Free(Serve(rule, ordered, line, wanted, f).balance, KeyOf(ordered[i])) == 0
  {
    var n := |ordered| - 1;
    ServeIsSane(rule, ordered[..n], line, wanted, f);
    if i < n {
      UniqueBefore(ordered, n);
      OpenMeansEmpty(rule, ordered[..n], line, wanted, f, i);
      OfferLeaves(rule, ordered[n], line, wanted, Serve(rule, ordered[..n], line, wanted, f), ordered[i]);
    }
  }

  /** If a line takes anything from a level, every earlier splittable level of its SKU is left with nothing. */
  lemma {:induction false} EarlierIsEmpty(rule: Rule, ordered: seq<Level>, line: Line, wanted: int, f: Filling, i: nat,
                                          j: nat)
    requires Unique(ordered) && Sane(f) && i < j < |ordered| && ordered[i].sku == line.sku
    requires rule.allowSplit && ordered[i].canSplit
    requires Offer(rule, ordered[j], line, wanted, Serve(rule, ordered[..j], line, wanted, f))
            != Serve(rule, ordered[..j], line, wanted, f)
    ensures Free(Serve(rule, ordered, line, wanted, f).balance, KeyOf(ordered[i])) == 0
    decreases |ordered|
  {
    var n := |ordered| - 1;
    UniqueBefore(ordered, n);
    if j < n {
      assert ordered[..n][..j] == ordered[..j];
      EarlierIsEmpty(rule, ordered[..n], line, wanted, f, i, j);
    } else {
      ServeIsSane(rule, ordered[..n], line, wanted, f);
      OpenMeansEmpty(rule, ordered[..n], line, wanted, f, i);
    }
    OfferLeaves(rule, ordered[n], line, wanted, Serve(rule, ordered[..n], line, wanted, f), ordered[i]);
  }

  /** In the order of the sources: if a line of the order takes anything from one, every splittable one of the line's
      SKU before it has nothing left when the line is done. */
  lemma LaterMeansEarlierEmpty(input: Input, n: nat, i: nat, j: nat)
    requires n < |input.lines| && Unique(Enabled(input.supply)) && RuleOf(input).allowSplit
    requires Wanted(input.lines[n]) > 0
    requires var ordered := OrderSources(Enabled(input.supply), RuleOf(input).order);
             i < j < |ordered| && ordered[i].sku == input.lines[n].sku && ordered[i].canSplit
    requires TakesFrom(input, n, j)
    ensures var ordered := OrderSources(Enabled(input.supply), RuleOf(input).order);
            Free(FillLines(RuleOf(input), ordered, input.lines[..n + 1], Opening(input.supply)).balance,
                KeyOf(ordered[i])) == 0
  {
    var rule, line := RuleOf(input), input.lines[n];
    var ordered := OrderSources(Enabled(input.supply), rule.order);
    OrderSourcesSorts(Enabled(input.supply), rule.order);
    KeysApart(Enabled(input.supply), ordered);
    OpeningIsNotNegative(input.supply);
    LinesConserve(rule, ordered, input.lines[..n], Opening(input.supply), "", "");
    assert input.lines[..n + 1][..n] == input.lines[..n];
    var before := FillLines(rule, ordered, input.lines[..n], Opening(input.supply));
    EarlierIsEmpty(rule, ordered, line, Wanted(line), Filling([], Wanted(line), before.balance), i, j);
  }

  /** Line n takes something from the j-th source. */
  predicate TakesFrom(input: Input, n: nat, j: nat)
    requires n < |input.lines| && j < |OrderSources(Enabled(input.supply), RuleOf(input).order)|
  {
    var rule, line := RuleOf(input), input.lines[n];
    var ordered := OrderSources(Enabled(input.supply), rule.order);
    var before := FillLines(rule, ordered, input.lines[..n], Opening(input.supply));
    var f := Serve(rule, ordered[..j], line, Wanted(line), Filling([], Wanted(line), before.balance));
    |Offer(rule, ordered[j], line, Wanted(line), f).entries| > |f.entries|
  }

  /* What a source starts with. */

  /** As many whole units as there are of an amount, and none for less than nothing. */
  predicate WholeUnits(units: int, amount: real) {
    if amount < 0.0 then units == 0 else units as real <= amount < (units + 1) as real
  }

  /** What there is under a key is what the last enabled level under it has, in whole units. */
  lemma {:induction false} OpeningIsTheLast(supply: seq<Level>, key: string) returns (k: nat)
    requires key in Opening(supply)
    ensures k < |supply| && supply[k].enabled && KeyOf(supply[k]) == key
    ensures forall j :: k < j < |supply| ==> !(supply[j].enabled && KeyOf(supply[j]) == key)
    ensures WholeUnits(Opening(supply)[key], supply[k].available)
  {
    k := |supply| - 1;
    if !(supply[k].enabled && KeyOf(supply[k]) == key) {
      k := OpeningIsTheLast(supply[..k], key);
    }
  }

  /** Every enabled level has its key. */
  lemma {:induction false} OpeningHas(supply: seq<Level>, k: nat)
    requires k < |supply| && supply[k].enabled
    ensures KeyOf(supply[k]) in Opening(supply)
  {
    if k < |supply| - 1 {
      OpeningHas(supply[..|supply| - 1], k);
    }
  }

  /* The order of the sources, told apart from the sort. */

  /** The first kind stands in the rule's order before any of the second. */
  predicate StandsBefore(order: seq<Kind>, a: Kind, b: Kind) {
    exists p :: 0 <= p < |order| && order[p] == a && b !in order[..p + 1]
  }

  lemma {:induction false} RankIsPlace(order: seq<Kind>, a: Kind, b: Kind)
    ensures Rank(order, a) < Rank(order, b) <==> StandsBefore(order, a, b)
  {
    if order != [] {
      RankIsPlace(order[1..], a, b);
      if StandsBefore(order, a, b) {
        var p :| 0 <= p < |order| && order[p] == a && b !in order[..p + 1];
        assert order[0] == order[..p + 1][0];
        if p > 0 {
          assert order[1..][p - 1] == a && order[1..][..p] == order[..p + 1][1..];
        }
      }
      if order[0] == a && a != b {
        assert order[..1] == [a];
      }
    }
  }

  /** The first text is a beginning of the second, or smaller at the first place where they differ. */
  predicate ComesBefore(a: string, b: string) {
    exists k :: 0 <= k <= |a| && k < |b| && a[..k] == b[..k] && (k == |a| || a[k] < b[k])
  }

  lemma {:induction false} LessIsBefore(a: string, b: string)
    ensures Less(a, b) <==> ComesBefore(a, b)
  {
    if b == [] {
      return;
    }
    if a == [] {
      assert a[..0] == b[..0];
      return;
    }
    LessIsBefore(a[1..], b[1..]);
    if Less(a, b) {
      if a[0] < b[0] {
        assert a[..0] == b[..0];
      } else {
        var k :| 0 <= k <= |a[1..]| && k < |b[1..]| && a[1..][..k] == b[1..][..k]
                 && (k == |a[1..]| || a[1..][k] < b[1..][k]);
        assert a[..k + 1] == [a[0]] + a[1..][..k] && b[..k + 1] == [b[0]] + b[1..][..k];
      }
    }
    if ComesBefore(a, b) {
      var k :| 0 <= k <= |a| && k < |b| && a[..k] == b[..k] && (k == |a| || a[k] < b[k]);
      if k > 0 {
        assert a[0] == a[..k][0] == b[0];
        assert a[1..][..k - 1] == a[..k][1..] && b[1..][..k - 1] == b[..k][1..];
      }
    }
  }

  /** Of two sources the smaller priority comes first; of one priority the kind that stands first in the rule's order,
      a kind that is not in it behind all; of one place the smaller code. */
  predicate Ahead(order: seq<Kind>, a: Level, b: Level) {
    || a.priority < b.priority
    || (a.priority == b.priority && StandsBefore(order, a.kind, b.kind))
    || (a.priority == b.priority && !StandsBefore(order, b.kind, a.kind) && ComesBefore(a.sourceCode, b.sourceCode))
  }

  lemma BeforeIsAhead(order: seq<Kind>, a: Level, b: Level)
    ensures Before(order, a, b) <==> Ahead(order, a, b)
  {
    RankIsPlace(order, a.kind, b.kind);
    RankIsPlace(order, b.kind, a.kind);
    LessIsBefore(a.sourceCode, b.sourceCode);
  }

  /** The sources are asked by priority, then by kind, then by code. */
  lemma SourcesAreInOrder(supply: seq<Level>, order: seq<Kind>, i: nat, j: nat)
    requires i < j < |OrderSources(supply, order)|
    ensures var a, b := OrderSources(supply, order)[i], OrderSources(supply, order)[j];
            && a.priority <= b.priority
            && (a.priority == b.priority ==> !StandsBefore(order, b.kind, a.kind))
            && (a.priority == b.priority ==>
                  StandsBefore(order, a.kind, b.kind) || !ComesBefore(b.sourceCode, a.sourceCode))
  {
    OrderSourcesSorts(supply, order);
    BeforeIsAhead(order, OrderSources(supply, order)[j], OrderSources(supply, order)[i]);
  }

  /* The order, over a whole allocation. */

  /** What a source has given away stays given, and what is empty stays empty. */
  lemma {:induction false} ServeOnlyTakes(rule: Rule, ordered: seq<Level>, line: Line, wanted: int, f: Filling,
                                          key: string)
    requires Sane(f)
    ensures 0 <= Free(Serve(rule, ordered, line, wanted, f).balance, key) <= Free(f.balance, key)
  {
    if ordered != [] {
      ServeIsSane(rule, ordered[..|ordered| - 1], line, wanted, f);
      ServeIsSane(rule, ordered, line, wanted, f);
      ServeOnlyTakes(rule, ordered[..|ordered| - 1], line, wanted, f, key);
    }
  }

  lemma FillLineOnlyTakes(rule: Rule, ordered: seq<Level>, line: Line, run: Run, key: string)
    requires Stocked(run.balance)
    ensures 0 <= Free(FillLine(rule, ordered, line, run).balance, key) <= Free(run.balance, key)
  {
    ServeOnlyTakes(rule, ordered, line, Trunc(line.quantity), Filling([], Wanted(line), run.balance), key);
  }

  /** A line's entry from one source leaves every splittable one of the SKU before it with nothing. */
  lemma {:induction false} ServeGoesInOrder(rule: Rule, ordered: seq<Level>, line: Line, wanted: int, f: Filling,
                                            k: nat, i: nat, j: nat)
    requires Unique(ordered) && Sane(f) && f.entries == [] && i < j < |ordered|
    requires ordered[i].sku == ordered[j].sku && rule.allowSplit && ordered[i].canSplit
    requires k < |Serve(rule, ordered, line, wanted, f).entries|
    requires var e := Serve(rule, ordered, line, wanted, f).entries[k];
             e.source == Some(ordered[j].sourceId) && e.sku == ordered[j].sku
    ensures Free(Serve(rule, ordered, line, wanted, f).balance, KeyOf(ordered[i])) == 0
    decreases |ordered|
  {
    var n := |ordered| - 1;
    var before := Serve(rule, ordered[..n], line, wanted, f);
    UniqueBefore(ordered, n);
    ServeIsSane(rule, ordered[..n], line, wanted, f);
    ServeEntries(rule, ordered[..n], line, wanted, f);
    if k < |before.entries| {
      var at := ServeEntryFrom(rule, ordered[..n], line, wanted, f, k);
      assert KeyOf(ordered[at]) == KeyOf(ordered[j]);
      ServeGoesInOrder(rule, ordered[..n], line, wanted, f, k, i, j);
    } else {
      assert KeyOf(ordered[n]) == KeyOf(ordered[j]);
      OpenMeansEmpty(rule, ordered[..n], line, wanted, f, i);
    }
    OfferLeaves(rule, ordered[n], line, wanted, before, ordered[i]);
  }

  lemma {:induction false} ServeEntries(rule: Rule, ordered: seq<Level>, line: Line, wanted: int, f: Filling)
    ensures forall k :: |f.entries| <= k < |Serve(rule, ordered, line, wanted, f).entries| ==>
              Serve(rule, ordered, line, wanted, f).entries[k].sku == line.sku
    ensures f.entries <= Serve(rule, ordered, line, wanted, f).entries
  {
    if ordered != [] {
      ServeEntries(rule, ordered[..|ordered| - 1], line, wanted, f);
    }
  }

  /** Every entry of a line comes from one of its sources. */
  lemma {:induction false} ServeEntryFrom(rule: Rule, ordered: seq<Level>, line: Line, wanted: int, f: Filling, k: nat)
    returns (j: nat)
    requires f.entries == [] && k < |Serve(rule, ordered, line, wanted, f).entries|
    ensures var e := Serve(rule, ordered, line, wanted, f).entries[k];
            j < |ordered| && e.source == Some(ordered[j].sourceId) && e.sku == ordered[j].sku == line.sku
  {
    j := |ordered| - 1;
    if k < |Serve(rule, ordered[..j], line, wanted, f).entries| {
      j := ServeEntryFrom(rule, ordered[..j], line, wanted, f, k);
    }
  }

  lemma {:induction false} LinesGoInOrder(rule: Rule, ordered: seq<Level>, lines: seq<Line>, balance: Balance, k: nat,
                                          i: nat, j: nat)
    requires Unique(ordered) && Stocked(balance) && i < j < |ordered|
    requires ordered[i].sku == ordered[j].sku && rule.allowSplit && ordered[i].canSplit
    requires k < |FillLines(rule, ordered, lines, balance).result.entries|
    requires var e := FillLines(rule, ordered, lines, balance).result.entries[k];
             e.source == Some(ordered[j].sourceId) && e.sku == ordered[j].sku
    ensures Free(FillLines(rule, ordered, lines, balance).balance, KeyOf(ordered[i])) == 0
    decreases |lines|
  {
    var n := |lines| - 1;
    var before := FillLines(rule, ordered, lines[..n], balance);
    LinesConserve(rule, ordered, lines[..n], balance, "", "");
    FillLineOnlyTakes(rule, ordered, lines[n], before, KeyOf(ordered[i]));
    if k < |before.result.entries| {
      LinesGoInOrder(rule, ordered, lines[..n], balance, k, i, j);
    } else {
      var wanted := Trunc(lines[n].quantity);
      ServeGoesInOrder(rule, ordered, lines[n], wanted, Filling([], wanted, before.balance),
          k - |before.result.entries|, i, j);
    }
  }

  /** Where a level stands once sorted. */
  lemma PlaceOf(supply: seq<Level>, order: seq<Kind>, x: Level) returns (i: nat)
    requires x in supply
    ensures i < |OrderSources(supply, order)| && OrderSources(supply, order)[i] == x
  {
    OrderSourcesSorts(supply, order);
    assert x in multiset(OrderSources(supply, order));
    i :| 0 <= i < |OrderSources(supply, order)| && OrderSources(supply, order)[i] == x;
  }

  lemma AheadIsFirst(supply: seq<Level>, order: seq<Kind>, i: nat, j: nat)
    requires i < |OrderSources(supply, order)| && j < |OrderSources(supply, order)|
    requires Ahead(order, OrderSources(supply, order)[i], OrderSources(supply, order)[j])
    ensures i < j
  {
    var a, b := OrderSources(supply, order)[i], OrderSources(supply, order)[j];
    OrderSourcesSorts(supply, order);
    BeforeIsAhead(order, a, b);
    BeforeAsymmetric(order, a, b);
  }

  /** Over the whole order: if any line takes anything of a SKU from a source, every source of that SKU that is ahead of
      it and may be split has given away all it had. */
  lemma AheadGivesAll(input: Input, k: nat, x: Level, y: Level)
    requires Unique(Enabled(input.supply)) && RuleOf(input).allowSplit && x.canSplit
    requires x in Enabled(input.supply) && y in Enabled(input.supply) && x.sku == y.sku
    requires Ahead(RuleOf(input).order, x, y)
    requires k < |Allocated(input).result.entries|
    requires Allocated(input).result.entries[k].source == Some(y.sourceId)
    requires Allocated(input).result.entries[k].sku == y.sku
    ensures Sum(Allocated(input).result.entries, FromKey(KeyOf(x))) == Max(0, Trunc(x.available))
  {
    var rule, enabled := RuleOf(input), Enabled(input.supply);
    var ordered := OrderSources(enabled, rule.order);
    var i := PlaceOf(enabled, rule.order, x);
    var j := PlaceOf(enabled, rule.order, y);
    AheadIsFirst(enabled, rule.order, i, j);
    OrderSourcesSorts(enabled, rule.order);
    KeysApart(enabled, ordered);
    OpeningIsNotNegative(input.supply);
    LinesGoInOrder(rule, ordered, input.lines, Opening(input.supply), k, i, j);
    NoStockIsGivenTwice(input, x.sourceId, x.sku);
    OpeningAt(input.supply, x);
  }

  /* Nothing is left that could have been given. */

  lemma {:induction false} LinesLeaveNothing(rule: Rule, ordered: seq<Level>, lines: seq<Line>, balance: Balance,
                                             k: nat, i: nat)
    requires Unique(ordered) && Stocked(balance) && i < |ordered| && rule.allowSplit && ordered[i].canSplit
    requires k < |FillLines(rule, ordered, lines, balance).result.entries|
    requires var e := FillLines(rule, ordered, lines, balance).result.entries[k];
             e.source.None? && e.sku == ordered[i].sku
    ensures Free(FillLines(rule, ordered, lines, balance).balance, KeyOf(ordered[i])) == 0
    decreases |lines|
  {
    var n := |lines| - 1;
    var before := FillLines(rule, ordered, lines[..n], balance);
    LinesConserve(rule, ordered, lines[..n], balance, "", "");
    FillLineOnlyTakes(rule, ordered, lines[n], before, KeyOf(ordered[i]));
    if k < |before.result.entries| {
      LinesLeaveNothing(rule, ordered, lines[..n], balance, k, i);
    } else {
      var wanted := Trunc(lines[n].quantity);
      var start := Filling([], wanted, before.balance);
      var f := Serve(rule, ordered, lines[n], wanted, start);
      if k - |before.result.entries| < |f.entries| {
        var at := ServeEntryFrom(rule, ordered, lines[n], wanted, start, k - |before.result.entries|);
      } else {
        OpenMeansEmpty(rule, ordered, lines[n], wanted, start, i);
      }
    }
  }

  /** If any line of a SKU is short, every source of it that may be split has given away all it had. */
  lemma ShortMeansAllGiven(input: Input, k: nat, x: Level)
    requires Unique(Enabled(input.supply)) && RuleOf(input).allowSplit && x.canSplit && x in Enabled(input.supply)
    requires k < |Allocated(input).result.entries|
    requires Allocated(input).result.entries[k].source.None? && Allocated(input).result.entries[k].sku == x.sku
    ensures Sum(Allocated(input).result.entries, FromKey(KeyOf(x))) == Max(0, Trunc(x.available))
  {
    var rule, enabled := RuleOf(input), Enabled(input.supply);
    var ordered := OrderSources(enabled, rule.order);
    var i := PlaceOf(enabled, rule.order, x);
    OrderSourcesSorts(enabled, rule.order);
    KeysApart(enabled, ordered);
    OpeningIsNotNegative(input.supply);
    LinesLeaveNothing(rule, ordered, input.lines, Opening(input.supply), k, i);
    NoStockIsGivenTwice(input, x.sourceId, x.sku);
    OpeningAt(input.supply, x);
  }

  /** Every entry names the rule, and one without a source how much is missing. */
  lemma {:induction false} RestsAreTold(rule: Rule, ordered: seq<Level>, lines: seq<Line>, balance: Balance, k: nat)
    requires Stocked(balance) && k < |FillLines(rule, ordered, lines, balance).result.entries|
    ensures var e := FillLines(rule, ordered, lines, balance).result.entries[k];
            e.rule == rule.id && (e.source.None? ==> e.free == 0 && 0 < e.quantity == e.before)
  {
    var n := |lines| - 1;
    var before := FillLines(rule, ordered, lines[..n], balance);
    LinesConserve(rule, ordered, lines[..n], balance, "", "");
    if k < |before.result.entries| {
      RestsAreTold(rule, ordered, lines[..n], balance, k);
    } else {
      ServeHonours(rule, ordered, lines[n], before.balance);
    }
  }

  /** A line that is given nothing at all leaves no source of its SKU with as much as it wanted: not even one that may
      not be split could have given it whole. */
  lemma {:induction false} NothingGivenMeansTooLittle(rule: Rule, ordered: seq<Level>, line: Line, balance: Balance,
                                                      i: nat)
    requires Wanted(line) > 0 && i < |ordered| && ordered[i].sku == line.sku
    requires Serve(rule, ordered, line, Wanted(line), Filling([], Wanted(line), balance)).remaining == Wanted(line)
    ensures Free(balance, KeyOf(ordered[i])) < Wanted(line)
    decreases |ordered|
  {
    var n := |ordered| - 1;
    var start := Filling([], Wanted(line), balance);
    NothingGivenYet(rule, ordered, line, start, n);
    NothingMoved(rule, ordered[..n], line, start);
    if i < n {
      NothingGivenMeansTooLittle(rule, ordered[..n], line, balance, i);
    }
  }

  lemma {:induction false} ServeRemains(rule: Rule, ordered: seq<Level>, line: Line, wanted: int, f: Filling)
    requires f.remaining >= 0
    ensures 0 <= Serve(rule, ordered, line, wanted, f).remaining <= f.remaining
  {
    if ordered != [] {
      ServeRemains(rule, ordered[..|ordered| - 1], line, wanted, f);
    }
  }

  lemma NothingGivenYet(rule: Rule, ordered: seq<Level>, line: Line, f: Filling, n: nat)
    requires n == |ordered| - 1 && f.remaining >= 0
    requires Serve(rule, ordered, line, f.remaining, f).remaining == f.remaining
    ensures Serve(rule, ordered[..n], line, f.remaining, f).remaining == f.remaining
  {
    ServeRemains(rule, ordered[..n], line, f.remaining, f);
  }

  lemma {:induction false} NothingMoved(rule: Rule, ordered: seq<Level>, line: Line, f: Filling)
    requires f.remaining >= 0 && Serve(rule, ordered, line, f.remaining, f).remaining == f.remaining
    ensures Serve(rule, ordered, line, f.remaining, f) == f
  {
    if ordered != [] {
      NothingGivenYet(rule, ordered, line, f, |ordered| - 1);
      NothingMoved(rule, ordered[..|ordered| - 1], line, f);
    }
  }

  /** The first rule decides alone, and without one own stock goes first and may be split. */
  lemma FirstRuleDecides(input: Input)
    ensures input.rules != [] ==> Allocated(input) == Allocated(input.(rules := [input.rules[0]]))
    ensures input.rules == [] ==>
              Allocated(input) == Allocated(input.(rules := [Rule("own-first", [Own, Partner], true)]))
  {}

  /* Input order. */

  function Only(levels: seq<Level>, sku: string): seq<Level> {
    if levels == [] then []
    else Only(levels[..|levels| - 1], sku) + if levels[|levels| - 1].sku == sku then [levels[|levels| - 1]] else []
  }

  /** A line asks only the levels of its own SKU. */
  lemma {:induction false} ServeAsksOnly(rule: Rule, ordered: seq<Level>, line: Line, wanted: int, f: Filling)
    ensures Serve(rule, ordered, line, wanted, f) == Serve(rule, Only(ordered, line.sku), line, wanted, f)
  {
    if ordered != [] {
      var n := |ordered| - 1;
      ServeAsksOnly(rule, ordered[..n], line, wanted, f);
      var some := Only(ordered[..n], line.sku);
      if ordered[n].sku == line.sku {
        assert (some + [ordered[n]])[..|some|] == some;
      } else {
        assert Only(ordered, line.sku) == some;
      }
    }
  }

  lemma {:induction false} OnlyHolds(levels: seq<Level>, sku: string, x: Level)
    ensures multiset(Only(levels, sku))[x] == if x.sku == sku then multiset(levels)[x] else 0
  {
    if levels != [] {
      assert levels == levels[..|levels| - 1] + [levels[|levels| - 1]];
      OnlyHolds(levels[..|levels| - 1], sku, x);
    }
  }

  lemma {:induction false} OnlySorted(order: seq<Kind>, levels: seq<Level>, sku: string)
    requires Sorted(order, levels)
    ensures Sorted(order, Only(levels, sku))
  {
    if levels != [] {
      var n := |levels| - 1;
      OnlySorted(order, levels[..n], sku);
      forall y | y in multiset(Only(levels[..n], sku)) ensures !Before(order, levels[n], y) {
        OnlyHolds(levels[..n], sku, y);
        assert y in multiset(levels[..n]);
        var i :| 0 <= i < n && levels[i] == y;
      }
      LastOneSorts(order, Only(levels[..n], sku), levels[n]);
    }
  }

  ghost predicate Strict(order: seq<Kind>, levels: seq<Level>) {
    forall i, j :: 0 <= i < j < |levels| ==> Before(order, levels[i], levels[j])
  }

  lemma HeadsAgree(order: seq<Kind>, a: seq<Level>, b: seq<Level>)
    requires Strict(order, a) && Strict(order, b) && a != [] && b != [] && a[0] in b && b[0] in a
    ensures a[0] == b[0]
  {
    var i :| 0 <= i < |a| && a[i] == b[0];
    var j :| 0 <= j < |b| && b[j] == a[0];
    if i > 0 && j > 0 {
      BeforeAsymmetric(order, a[0], a[i]);
    }
  }

  /** There is one way to write a collection in strict order. */
  lemma {:induction false} StrictIsOneWay(order: seq<Kind>, a: seq<Level>, b: seq<Level>)
    requires Strict(order, a) && Strict(order, b) && multiset(a) == multiset(b)
    ensures a == b
  {
    assert |multiset(a)| == |a| && |multiset(b)| == |b|;
    if a != [] {
      assert a[0] in multiset(b) && b[0] in multiset(a);
      HeadsAgree(order, a, b);
      assert a == [a[0]] + a[1..] && b == [b[0]] + b[1..];
      assert multiset(a[1..]) == multiset(a) - multiset{a[0]};
      StrictIsOneWay(order, a[1..], b[1..]);
    }
  }

  /** No two levels of one SKU that the order cannot tell apart. */
  ghost predicate NoTies(order: seq<Kind>, levels: seq<Level>) {
    forall x, y :: x in levels && y in levels && x != y && x.sku == y.sku ==> Before(order, x, y) || Before(order, y, x)
  }

  lemma SortedOnlyIsStrict(order: seq<Kind>, levels: seq<Level>, sku: string)
    requires Unique(levels) && NoTies(order, levels)
    ensures Strict(order, Only(OrderSources(levels, order), sku))
  {
    var s := OrderSources(levels, order);
    OrderSourcesSorts(levels, order);
    OnlySorted(order, s, sku);
    KeysApart(levels, s);
    var t := Only(s, sku);
    forall i, j | 0 <= i < j < |t|
      ensures Before(order, t[i], t[j])
    {
      OnlyHolds(s, sku, t[i]);
      OnlyHolds(s, sku, t[j]);
      assert t[i] in multiset(t) && t[j] in multiset(t);
      assert t[i] in multiset(levels) && t[j] in multiset(levels);
      if t[i] == t[j] {
        TwiceThere(t, i, j);
        var k :| 0 <= k < |s| && s[k] == t[i];
        OnceThere(s, k);
      }
    }
  }

  lemma {:induction false} SameSourcesSameRun(rule: Rule, a: seq<Level>, b: seq<Level>, lines: seq<Line>,
                                              balance: Balance)
    requires forall sku :: Only(a, sku) == Only(b, sku)
    ensures FillLines(rule, a, lines, balance) == FillLines(rule, b, lines, balance)
  {
    if lines != [] {
      var n := |lines| - 1;
      SameSourcesSameRun(rule, a, b, lines[..n], balance);
      var before := FillLines(rule, a, lines[..n], balance);
      var wanted := Trunc(lines[n].quantity);
      ServeAsksOnly(rule, a, lines[n], wanted, Filling([], wanted, before.balance));
      ServeAsksOnly(rule, b, lines[n], wanted, Filling([], wanted, before.balance));
    }
  }

  lemma {:induction false} EnabledHolds(supply: seq<Level>, x: Level)
    ensures multiset(Enabled(supply))[x] == if x.enabled then multiset(supply)[x] else 0
  {
    if supply != [] {
      assert supply == supply[..|supply| - 1] + [supply[|supply| - 1]];
      EnabledHolds(supply[..|supply| - 1], x);
    }
  }

  /** What a level opens with, whichever place it has. */
  lemma {:induction false} OpeningAt(supply: seq<Level>, x: Level)
    requires Unique(Enabled(supply)) && x in Enabled(supply)
    ensures KeyOf(x) in Opening(supply) && Opening(supply)[KeyOf(x)] == Max(0, Trunc(x.available))
  {
    var n := |supply| - 1;
    var before, all := Enabled(supply[..n]), Enabled(supply);
    assert before <= all;
    UniqueBefore(all, |before|);
    assert before == all[..|before|];
    if x in before {
      var i :| 0 <= i < |before| && before[i] == x;
      OpeningAt(supply[..n], x);
      if supply[n].enabled {
        assert KeyOf(all[i]) != KeyOf(all[|before|]);
      }
    }
  }

  lemma {:induction false} OpeningOnly(supply: seq<Level>, key: string)
    requires key in Opening(supply)
    ensures exists x :: x in Enabled(supply) && KeyOf(x) == key
  {
    var n := |supply| - 1;
    var last := supply[n];
    if last.enabled && KeyOf(last) == key {
      assert last in Enabled(supply);
    } else {
      OpeningOnly(supply[..n], key);
      var x :| x in Enabled(supply[..n]) && KeyOf(x) == key;
      assert x in Enabled(supply);
    }
  }

  lemma OpeningWithin(a: seq<Level>, b: seq<Level>, key: string)
    requires Unique(Enabled(a)) && Unique(Enabled(b)) && multiset(Enabled(a)) == multiset(Enabled(b))
    requires key in Opening(a)
    ensures key in Opening(b) && Opening(b)[key] == Opening(a)[key]
  {
    OpeningOnly(a, key);
    var x :| x in Enabled(a) && KeyOf(x) == key;
    assert x in multiset(Enabled(b));
    OpeningAt(a, x);
    OpeningAt(b, x);
  }

  lemma SameOpening(a: seq<Level>, b: seq<Level>)
    requires Unique(Enabled(a)) && Unique(Enabled(b)) && multiset(Enabled(a)) == multiset(Enabled(b))
    ensures Opening(a) == Opening(b)
  {
    forall key
      ensures key in Opening(a) <==> key in Opening(b)
      ensures key in Opening(a) ==> Opening(a)[key] == Opening(b)[key]
    {
      if key in Opening(a) { OpeningWithin(a, b, key); }
      if key in Opening(b) { OpeningWithin(b, a, key); }
    }
  }

  /** One SKU's levels come out of the sort in one order. */
  lemma SameOnly(order: seq<Kind>, x: seq<Level>, y: seq<Level>, sku: string)
    requires Unique(x) && NoTies(order, x) && multiset(x) == multiset(y)
    ensures Only(OrderSources(x, order), sku) == Only(OrderSources(y, order), sku)
  {
    KeysApart(x, y);
    forall level | level in y ensures level in x {
      assert level in multiset(x);
    }
    SortedOnlyIsStrict(order, x, sku);
    SortedOnlyIsStrict(order, y, sku);
    OrderSourcesSorts(x, order);
    OrderSourcesSorts(y, order);
    var s, t := Only(OrderSources(x, order), sku), Only(OrderSources(y, order), sku);
    forall level ensures multiset(s)[level] == multiset(t)[level] {
      OnlyHolds(OrderSources(x, order), sku, level);
      OnlyHolds(OrderSources(y, order), sku, level);
    }
    StrictIsOneWay(order, s, t);
  }

  /** Permuting the supply list leaves the whole result as it was, entries, shortfalls and remaining stock. */
  lemma InputOrderDoesNotMatter(a: Input, b: Input)
    requires a.lines == b.lines && a.rules == b.rules && multiset(a.supply) == multiset(b.supply)
    requires Unique(Enabled(a.supply)) && NoTies(RuleOf(a).order, Enabled(a.supply))
    ensures Allocated(a) == Allocated(b)
  {
    var order, x, y := RuleOf(a).order, Enabled(a.supply), Enabled(b.supply);
    forall level ensures multiset(x)[level] == multiset(y)[level] {
      EnabledHolds(a.supply, level);
      EnabledHolds(b.supply, level);
    }
    KeysApart(x, y);
    SameOpening(a.supply, b.supply);
    forall sku ensures Only(OrderSources(x, order), sku) == Only(OrderSources(y, order), sku) {
      SameOnly(order, x, y, sku);
    }
    SameSourcesSameRun(RuleOf(a), OrderSources(x, order), OrderSources(y, order), a.lines, Opening(a.supply));
  }

  /* Pairs and keys. */

  /** No source id holds the separator. */
  predicate NoSeparator(levels: seq<Level>) {
    forall i :: 0 <= i < |levels| ==> '\0' !in levels[i].sourceId
  }

  lemma {:induction false} KeyIsThePair(a: string, b: string, c: string, d: string)
    requires '\0' !in a && '\0' !in c && Key(a, b) == Key(c, d)
    ensures a == c && b == d
  {
    var s := Key(a, b);
    assert s == Key(c, d);
    assert s[|a|] == '\0' && s[|c|] == '\0';
    assert forall k :: 0 <= k < |a| ==> s[k] == a[k];
    assert forall k :: 0 <= k < |c| ==> s[k] == c[k];
    assert |a| == |c|;
    assert a == s[..|a|] && c == s[..|c|] && b == s[|a| + 1..] && d == s[|c| + 1..];
  }

  /** With no separator in a source id, the keys are apart exactly when the pairs of source and SKU are. */
  lemma UniqueMeansPairs(levels: seq<Level>)
    requires NoSeparator(levels)
    ensures Unique(levels) <==>
            forall i, j :: 0 <= i < j < |levels| ==>
                (levels[i].sourceId, levels[i].sku) != (levels[j].sourceId, levels[j].sku)
  {
    forall i, j | 0 <= i < j < |levels|
      ensures KeyOf(levels[i]) == KeyOf(levels[j]) <==>
              (levels[i].sourceId, levels[i].sku) == (levels[j].sourceId, levels[j].sku)
    {
      if KeyOf(levels[i]) == KeyOf(levels[j]) {
        KeyIsThePair(levels[i].sourceId, levels[i].sku, levels[j].sourceId, levels[j].sku);
      }
    }
  }
}
