/** Sales never stack, outside prices survive: what every step of SaleMachine keeps. */
module SaleSafety {
  import opened Prelude
  import opened SalePricing
  import opened SaleMachine

  type Prices = map<VariantId, Pair>

  ghost predicate SameOwned(w: World, a: RowId, b: RowId) {
    && a in w.rows && b in w.rows
    && Live(w.rows[a].state) && Live(w.rows[b].state) && w.rows[a].variant == w.rows[b].variant
  }

  /** The one-owner index. */
  ghost predicate OneOwner(w: World) {
    forall a, b :: SameOwned(w, a, b) ==> a == b
  }

  /** The row r holds variant v with its sale price live. */
  ghost predicate Selling(w: World, r: RowId, v: VariantId) {
    && r in w.rows && v in w.live && Live(w.rows[r].state) && w.rows[r].variant == v
    && w.rows[r].HasSnapshot() && w.rows[r].sale.value == w.live[v]
  }

  /** The claim: a live pair is the one from before any campaign, or the sale of the row holding it. */
  ghost predicate NeverStacked(w: World, first: Prices) {
    forall v :: v in w.live && v in first && w.live[v] != first[v] ==> exists r :: Selling(w, r, v)
  }

  predicate SnapshotIsFirst(row: Row, first: Prices) {
    row.original.Some? ==> row.variant in first && row.original.value == first[row.variant]
  }

  predicate PlanFits(row: Row, plan: Plan, live: Prices, first: Prices)
  {
    && Live(row.state) && row.original.Some?
    && (plan.kind.ToSale? ==>
      && row.sale.Some? && row.state.Applying? && plan.write == row.sale.value && plan.done.Applied?
          && plan.fail.Failed?
      && (row.variant in live && row.variant in first ==>
            && (plan.phase.Waiting? || plan.phase.Vouched? ==> live[row.variant] == first[row.variant])
            && (plan.phase.Landed? ==> live[row.variant] == plan.write)))
    && (plan.kind.ToOriginal? || plan.kind.Forced? ==>
      && plan.write == row.original.value && (plan.done.Restored? || plan.done.Released?) && plan.fail.RestoreFailed?
      && (plan.phase.Landed? && row.variant in live ==> live[row.variant] == plan.write))
    && !plan.kind.ByPolicy?
  }

  ghost predicate Sound(w: World, first: Prices) {
    && w.live.Keys <= first.Keys
    && OneOwner(w)
    && (forall r :: r in w.rows ==> SnapshotIsFirst(w.rows[r], first) && w.rows[r].variant in first)
    && (forall r :: r in w.plans ==> r in w.rows && PlanFits(w.rows[r], w.plans[r], w.live, first))
    && NeverStacked(w, first)
  }

  /** Everything but other people's edits. */
  predicate Inside(s: Step) {
    !s.Edit?
  }

  predicate OnSale(w: World, r: RowId) {
    && r in w.rows && w.rows[r].HasSnapshot() && w.rows[r].variant in w.live
    && w.live[w.rows[r].variant] == w.rows[r].sale.value != w.rows[r].original.value
  }

  /** A row let go while its sale price is live: a stale claim put back to pending after its write had landed, a review
      row released at the campaign's own price, an apply recorded as failed although its write was taken, or a restore
      recorded as done although nothing was written. */
  predicate GivesUpSale(w: World, s: Step) {
    || (s.Shift? && OnSale(w, s.row) && Live(From(s.move)) && !Live(To(s.move)))
    || (s.Record? && OnSale(w, s.row) && s.row in w.plans && !Live(Outcome(w.plans[s.row])))
  }

  /** Shopify left holding a pair that is neither of the row's two. */
  predicate Strays(w: World, s: Step) {
    s.Alter? && s.row in w.rows && Some(s.held) != w.rows[s.row].original && Some(s.held) != w.rows[s.row].sale
  }

  /** The steps after which nobody answers for a live price. */
  predicate LosesTrack(w: World, s: Step) {
    GivesUpSale(w, s) || Strays(w, s)
  }

  /** One row recorded, with or without a plan. */
  lemma RecordKeepsSound(w: World, r: RowId, row: Row, plan: Option<Plan>, w': World, first: Prices)
    requires Sound(w, first)
    requires w'.live == w.live && w'.rows == w.rows[r := row]
    requires w'.plans == if plan.Some? then w.plans[r := plan.value] else w.plans - {r}
    requires SnapshotIsFirst(row, first) && row.variant in first
    requires plan.Some? ==> PlanFits(row, plan.value, w.live, first)
    requires r in w.rows ==> row.variant == w.rows[r].variant
    requires Live(row.state) ==> r in w.rows && (Live(w.rows[r].state) || !Held(w, r))
    requires Selling(w, r, row.variant) && w.live[row.variant] != first[row.variant] ==> Selling(w', r, row.variant)
    ensures Sound(w', first)
  {
    forall a, b | SameOwned(w', a, b) ensures a == b {
      if a != r && b != r {
        assert SameOwned(w, a, b);
      } else if Live(w.rows[r].state) {
        assert SameOwned(w, a, b);
      }
    }
    forall v | v in w'.live && v in first && w'.live[v] != first[v] ensures exists q :: Selling(w', q, v) {
      var q :| Selling(w, q, v);
      assert Selling(w', q, v);
    }
  }

  /** Only the row holding a variant can have a plan for it. */
  lemma PlansAreApart(w: World, first: Prices, a: RowId, b: RowId)
    requires Sound(w, first) && a in w.plans && b in w.plans && w.rows[a].variant == w.rows[b].variant
    ensures a == b
  {
    assert SameOwned(w, a, b);
  }

  lemma WriteKeepsSound(w: World, r: RowId, first: Prices)
    requires Sound(w, first) && Enabled(w, Write(r))
    ensures Sound(Next(w, Write(r)), first)
  {
    var w', v := Next(w, Write(r)), w.rows[r].variant;
    forall a, b | SameOwned(w', a, b) ensures a == b {
      assert SameOwned(w, a, b);
    }
    forall q | q in w'.plans ensures q in w'.rows && PlanFits(w'.rows[q], w'.plans[q], w'.live, first) {
      if w.rows[q].variant == v {
        PlansAreApart(w, first, q, r);
      }
    }
    forall u | u in w'.live && u in first && w'.live[u] != first[u] ensures exists q :: Selling(w', q, u) {
      if u == v {
        assert Selling(w', r, u);
      } else {
        var q :| Selling(w, q, u);
        assert Selling(w', q, u);
      }
    }
  }

  lemma AlterKeepsSound(w: World, s: Step, first: Prices)
    requires Sound(w, first) && s.Alter? && Enabled(w, s) && !Strays(w, s)
    ensures Sound(Next(w, s), first)
  {
    var w', v := Next(w, s), w.rows[s.row].variant;
    forall a, b | SameOwned(w', a, b) ensures a == b {
      assert SameOwned(w, a, b);
    }
    forall q | q in w'.plans ensures q in w'.rows && PlanFits(w'.rows[q], w'.plans[q], w'.live, first) {
      if w.rows[q].variant == v {
        PlansAreApart(w, first, q, s.row);
      }
    }
    forall u | u in w'.live && u in first && w'.live[u] != first[u] ensures exists q :: Selling(w', q, u) {
      if u == v {
        assert Selling(w', s.row, u);
      } else {
        var q :| Selling(w, q, u);
        assert Selling(w', q, u);
      }
    }
  }

  /** Steps that touch no row. */
  lemma RowsUntouchedKeepsSound(w: World, w': World, first: Prices)
    requires Sound(w, first) && w'.rows == w.rows
    requires w'.live.Keys <= w.live.Keys && forall v :: v in w'.live ==> w'.live[v] == w.live[v]
    requires forall r :: r in w'.plans ==> r in w.plans && PlanFits(w.rows[r], w'.plans[r], w'.live, first)
    ensures Sound(w', first)
  {
    forall a, b | SameOwned(w', a, b) ensures a == b {
      assert SameOwned(w, a, b);
    }
    forall u | u in w'.live && u in first && w'.live[u] != first[u] ensures exists q :: Selling(w', q, u) {
      var q :| Selling(w, q, u);
      assert Selling(w', q, u);
    }
  }

  /** The row a recording step leaves behind, and the plan it leaves with it. */
  lemma VerdictKeepsSound(w: World, s: Step, first: Prices)
    requires Sound(w, first) && Enabled(w, s)
    requires s.DecideApply? || s.DecideRestore? || s.DecideForced? || s.OutsideChange?
    ensures Sound(Next(w, s), first)
  {
    var w', row := Next(w, s), w.rows[s.row];
    if row.variant in w.live {
      LivePairIsKnown(w, s.row, first);
    }
    var plan := if s.row in w'.plans then Some(w'.plans[s.row]) else None;
    RecordKeepsSound(w, s.row, w'.rows[s.row], plan, w', first);
  }

  /** With no one else writing prices, a holding row finds one of its own two pairs, and a row about to
      take a snapshot finds the first pair. */
  lemma LivePairIsKnown(w: World, r: RowId, first: Prices)
    requires Sound(w, first) && r in w.rows && Live(w.rows[r].state) && w.rows[r].variant in w.live
    ensures !w.rows[r].HasSnapshot() ==> w.live[w.rows[r].variant] == first[w.rows[r].variant]
    ensures w.rows[r].HasSnapshot() ==>
              ClassifyObservation(w.rows[r].sale.value, w.rows[r].original.value,
                  w.live[w.rows[r].variant]) in {AsExpected, AsOriginal}
  {
    var v := w.rows[r].variant;
    if w.live[v] != first[v] {
      var q :| Selling(w, q, v);
      assert SameOwned(w, q, r);
    }
  }

  /** A row without a plan moves to another state. */
  lemma StateKeepsSound(w: World, r: RowId, state: State, first: Prices)
    requires Sound(w, first) && r in w.rows && r !in w.plans
    requires Live(state) ==> Live(w.rows[r].state) || !Held(w, r)
    requires OnSale(w, r) && Live(w.rows[r].state) ==> Live(state)
    ensures Sound(SetState(w, r, state), first)
  {
    assert w.plans - {r} == w.plans;
    RecordKeepsSound(w, r, w.rows[r].(state := state), None, SetState(w, r, state), first);
  }

  lemma RecordStepKeepsSound(w: World, r: RowId, first: Prices)
    requires Sound(w, first) && Enabled(w, Record(r)) && !GivesUpSale(w, Record(r))
    ensures Sound(Next(w, Record(r)), first)
  {
    var w' := Next(w, Record(r));
    RecordKeepsSound(w, r, w'.rows[r], None, w', first);
  }

  lemma StageKeepsSound(w: World, s: Step, first: Prices)
    requires Sound(w, first) && s.Stage? && Enabled(w, s)
    requires s.row !in w.rows ==> s.variant in first
    ensures Sound(Next(w, s), first)
  {
    var w' := Next(w, s);
    assert w.plans - {s.row} == w.plans;
    RecordKeepsSound(w, s.row, w'.rows[s.row], None, w', first);
  }

  predicate Known(w: World, s: Step, first: Prices) {
    s.Stage? && s.row !in w.rows ==> s.variant in first
  }

  lemma StepKeepsSound(w: World, s: Step, first: Prices)
    requires Sound(w, first) && Enabled(w, s) && Inside(s) && !LosesTrack(w, s) && Known(w, s, first)
    ensures Sound(Next(w, s), first)
  {
    match s
    case Write(r) => WriteKeepsSound(w, r, first);
    case Alter(_, _) => AlterKeepsSound(w, s, first);
    case Overlook(_) => RowsUntouchedKeepsSound(w, Next(w, s), first);
    case Record(r) => RecordStepKeepsSound(w, r, first);
    case Stage(_, _, _, _) => StageKeepsSound(w, s, first);
    case Refuse(_) => RowsUntouchedKeepsSound(w, Next(w, s), first);
    case Crash(_) => RowsUntouchedKeepsSound(w, Next(w, s), first);
    case Delete(_) => RowsUntouchedKeepsSound(w, Next(w, s), first);
    case DecideApply(_, _) => VerdictKeepsSound(w, s, first);
    case DecideRestore(_, _) => VerdictKeepsSound(w, s, first);
    case DecideForced(_) => VerdictKeepsSound(w, s, first);
    case OutsideChange(_, _) => VerdictKeepsSound(w, s, first);
    case Shift(r, m) => StateKeepsSound(w, r, To(m), first);
    case ReleaseMissing(r) => StateKeepsSound(w, r, Released, first);
  }

  /** Letting go of a live sale, or a pair astray, leaves a live price nobody answers for. */
  lemma LosingTrackStacks(w: World, s: Step, first: Prices)
    requires Sound(w, first) && Enabled(w, s) && LosesTrack(w, s)
    ensures !NeverStacked(Next(w, s), first)
  {
    var w', v := Next(w, s), w.rows[s.row].variant;
    forall r ensures !Selling(w', r, v) {
      if Selling(w', r, v) {
        assert SameOwned(w, r, s.row);
      }
    }
  }

  /* Whole runs. */

  ghost predicate NeverStackedThroughout(w: World, steps: seq<Step>, first: Prices)
    requires Legal(w, steps)
    decreases |steps|
  {
    NeverStacked(w, first) && (steps != [] ==> NeverStackedThroughout(Next(w, steps[0]), steps[1..], first))
  }

  ghost predicate KeepsTrack(w: World, steps: seq<Step>)
    requires Legal(w, steps)
    decreases |steps|
  {
    steps != [] ==> !LosesTrack(w, steps[0]) && KeepsTrack(Next(w, steps[0]), steps[1..])
  }

  predicate InsideRun(steps: seq<Step>, first: Prices) {
    forall s :: s in steps ==> Inside(s) && (s.Stage? ==> s.variant in first)
  }

  lemma {:induction false} NeverStackedIff(w: World, steps: seq<Step>, first: Prices)
    requires Sound(w, first) && Legal(w, steps) && InsideRun(steps, first)
    ensures NeverStackedThroughout(w, steps, first) <==> KeepsTrack(w, steps)
    ensures KeepsTrack(w, steps) ==> Sound(Run(w, steps), first)
    decreases |steps|
  {
    if steps != [] {
      if LosesTrack(w, steps[0]) {
        LosingTrackStacks(w, steps[0], first);
      } else {
        StepKeepsSound(w, steps[0], first);
        NeverStackedIff(Next(w, steps[0]), steps[1..], first);
      }
    }
  }

  function Fresh(first: Prices): World {
    World(first, map[], map[])
  }

  /** Sales never stack, over every run of any campaigns with a crash between any two records or writes and any answer
      Shopify may give to a write, exactly when no step of the run lets go of a row whose sale price is live and no
      write leaves another pair. Then a variant no row
      holds, after any chain of takeovers and restores, is back at its first pair. */
  lemma SalesNeverStack(first: Prices, steps: seq<Step>)
    requires Legal(Fresh(first), steps) && InsideRun(steps, first)
    ensures NeverStackedThroughout(Fresh(first), steps, first) <==> KeepsTrack(Fresh(first), steps)
    ensures KeepsTrack(Fresh(first), steps) ==>
              var w := Run(Fresh(first), steps);
              forall v :: v in w.live && (forall r :: r in w.rows && w.rows[r].variant == v ==> !Live(w.rows[r].state))
                ==> v in first && w.live[v] == first[v]
  {
    NeverStackedIff(Fresh(first), steps, first);
  }

  /** What a settled restore means: with no one else writing, the variant is at its first pair, exactly when the sale is
      not let go of. */
  lemma RestoredIsFirst(w: World, s: Step, first: Prices)
    requires Sound(w, first) && Enabled(w, s)
    requires s.DecideRestore? || s.DecideForced? || (s.Record? && !w.plans[s.row].kind.ToSale?)
    requires s.row in w.rows && w.rows[s.row].HasSnapshot() && w.rows[s.row].variant in w.live
    requires !Live(Next(w, s).rows[s.row].state)
    ensures Next(w, s).live[w.rows[s.row].variant] == first[w.rows[s.row].variant] <==> !GivesUpSale(w, s)
  {
    LivePairIsKnown(w, s.row, first);
  }

  /* The run that stacks: the job dies between its write and its record, its claim is put back to
     pending, and another campaign takes the sale price for an original. */

  const TWENTY_OFF := Campaign(1, DiscountSellingPrice, Percentage(2000), NoRounding, Prevent, 0, 0, AskFirst)
  const LIST_PRICE := Pair(10000, None)
  const FIRST: Prices := map[7 := LIST_PRICE]

  const SALE_PRICE := Pair(8000, Some(10000))
  const SECOND_SALE := Pair(6400, Some(10000))

  /** Campaign 1 stages row 0, snapshots and writes its sale, dies before recording the write and has its
      claim put back to pending; campaign 2 stages and claims the variant and takes its own snapshot. */
  const STACKING: seq<Step> := [
    Stage(0, 1, 3, 7), Shift(0, Claim), DecideApply(0, TWENTY_OFF), Write(0), Crash({0}), Shift(0, StaleApplying),
    Stage(1, 2, 3, 7), Shift(1, Claim), DecideApply(1, TWENTY_OFF.(id := 2))]

  function First(s: State): Row {
    Row(1, 3, 7, s, Some(LIST_PRICE), Some(10000), Some(SALE_PRICE))
  }

  function At(price: Pair, rows: map<RowId, Row>, plans: map<RowId, Plan>): World {
    World(map[7 := price], rows, plans)
  }

  const TO_SALE := Plan(ToSale, SALE_PRICE, Applied, Failed, Waiting)
  const UNSOLD := Row(2, 3, 7, Applying, None, None, None)

  lemma One(w: World, s: Step, rest: seq<Step>, next: World)
    requires Enabled(w, s) && Next(w, s) == next && Legal(next, rest)
    ensures Legal(w, [s] + rest) && Run(w, [s] + rest) == Run(next, rest)
  {
    assert ([s] + rest)[0] == s && ([s] + rest)[1..] == rest;
  }

  lemma StackingStart()
    ensures Legal(Fresh(FIRST), STACKING[..3])
    ensures Run(Fresh(FIRST), STACKING[..3]) == At(LIST_PRICE, map[0 := First(Applying)], map[0 := TO_SALE])
  {
    var staged := Row(1, 3, 7, Pending, None, None, None);
    var a, b := At(LIST_PRICE, map[0 := staged], map[]), At(LIST_PRICE, map[0 := staged.(state := Applying)], map[]);
    One(b, STACKING[2], [], At(LIST_PRICE, map[0 := First(Applying)], map[0 := TO_SALE]));
    One(a, STACKING[1], [STACKING[2]], b);
    One(Fresh(FIRST), STACKING[0], [STACKING[1], STACKING[2]], a);
    assert STACKING[..3] == [STACKING[0]] + [STACKING[1], STACKING[2]];
  }

  const WRITTEN := At(SALE_PRICE, map[0 := First(Applying)], map[0 := TO_SALE.(phase := Landed)])

  lemma JobDies()
    ensures Enabled(WRITTEN, STACKING[4])
    ensures Next(WRITTEN, STACKING[4]) == At(SALE_PRICE, map[0 := First(Applying)], map[])
  {}

  lemma StackingMiddle()
    ensures var w := At(LIST_PRICE, map[0 := First(Applying)], map[0 := TO_SALE]);
            && Legal(w, STACKING[3..6])
            && Run(w, STACKING[3..6]) == At(SALE_PRICE, map[0 := First(Pending)], map[])
  {
    var dead := At(SALE_PRICE, map[0 := First(Applying)], map[]);
    One(dead, STACKING[5], [], At(SALE_PRICE, map[0 := First(Pending)], map[]));
    JobDies();
    One(WRITTEN, STACKING[4], [STACKING[5]], dead);
    One(At(LIST_PRICE, map[0 := First(Applying)], map[0 := TO_SALE]), STACKING[3], [STACKING[4], STACKING[5]], WRITTEN);
    assert STACKING[3..6] == [STACKING[3]] + [STACKING[4], STACKING[5]];
  }

  /** What the second campaign does, whatever state the first one's row was let go into. */
  const SECOND: seq<Step> := STACKING[6..]

  /** The second campaign has recorded the first one's sale as the price to put back, and is to sell below it. */
  predicate Stacked(w: World) {
    && 1 in w.rows && w.rows[1].original == Some(SALE_PRICE) && w.rows[1].sale == Some(SECOND_SALE)
    && 1 in w.plans && w.plans[1].write == SECOND_SALE && w.live == map[7 := SALE_PRICE]
  }

  function Unsold(gone: State, s: State): World {
    At(SALE_PRICE, map[0 := First(gone), 1 := UNSOLD.(state := s)], map[])
  }

  lemma SecondClaims(gone: State)
    requires !Live(gone)
    ensures var w, a, b := At(SALE_PRICE, map[0 := First(gone)], map[]), Unsold(gone, Pending), Unsold(gone, Applying);
            Enabled(w, SECOND[0]) && Next(w, SECOND[0]) == a && Enabled(a, SECOND[1]) && Next(a, SECOND[1]) == b
  {}

  lemma SecondDecides(gone: State)
    requires !Live(gone)
    ensures var b := Unsold(gone, Applying); Enabled(b, SECOND[2]) && Stacked(Next(b, SECOND[2]))
  {}

  lemma StackingEnd(gone: State)
    requires !Live(gone)
    ensures var w := At(SALE_PRICE, map[0 := First(gone)], map[]); Legal(w, SECOND) && Stacked(Run(w, SECOND))
  {
    var a, b := Unsold(gone, Pending), Unsold(gone, Applying);
    SecondClaims(gone);
    SecondDecides(gone);
    One(b, SECOND[2], [], Next(b, SECOND[2]));
    One(a, SECOND[1], [SECOND[2]], b);
    One(At(SALE_PRICE, map[0 := First(gone)], map[]), SECOND[0], [SECOND[1], SECOND[2]], a);
    assert SECOND == [SECOND[0]] + [SECOND[1], SECOND[2]];
  }

  lemma StackingHappens()
    ensures Legal(Fresh(FIRST), STACKING) && InsideRun(STACKING, FIRST)
    ensures Stacked(Run(Fresh(FIRST), STACKING)) && SALE_PRICE != FIRST[7]
  {
    StackingStart();
    StackingMiddle();
    StackingEnd(Pending);
    RunAppend(Fresh(FIRST), STACKING[..3], STACKING[3..6]);
    assert STACKING[..3] + STACKING[3..6] == STACKING[..6];
    RunAppend(Fresh(FIRST), STACKING[..6], SECOND);
    assert STACKING[..6] + SECOND == STACKING;
  }

  /* The same by an error: Shopify takes the first campaign's write whole and answers with one, and the row is recorded
     as failed, which no index covers. */

  const ERRED: seq<Step> := [Alter(0, SALE_PRICE), Record(0)]

  lemma ErringMiddle()
    ensures var w := At(LIST_PRICE, map[0 := First(Applying)], map[0 := TO_SALE]);
            Legal(w, ERRED) && Run(w, ERRED) == At(SALE_PRICE, map[0 := First(Failed)], map[])
  {
    var rows := map[0 := First(Applying)];
    var a := At(SALE_PRICE, rows, map[0 := TO_SALE.(phase := Refused)]);
    One(a, ERRED[1], [], At(SALE_PRICE, map[0 := First(Failed)], map[]));
    One(At(LIST_PRICE, rows, map[0 := TO_SALE]), ERRED[0], [ERRED[1]], a);
    assert ERRED == [ERRED[0]] + [ERRED[1]];
  }

  lemma ErringHappens()
    ensures var steps := STACKING[..3] + ERRED + SECOND;
            Legal(Fresh(FIRST), steps) && InsideRun(steps, FIRST) && Stacked(Run(Fresh(FIRST), steps))
  {
    StackingStart();
    ErringMiddle();
    StackingEnd(Failed);
    RunAppend(Fresh(FIRST), STACKING[..3], ERRED);
    RunAppend(Fresh(FIRST), STACKING[..3] + ERRED, SECOND);
  }
}
