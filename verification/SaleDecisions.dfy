/** What a batch does with a row for what it finds live, and what a sale comes to over its steps
    (src/adapters/sales/writer.server.ts). */
module SaleDecisions {
  import opened Prelude
  import opened SalePricing
  import opened SaleRules
  import opened SaleMachine

  /** The row's variant is there, at this pair. */
  predicate Finds(w: World, r: RowId, pair: Pair) {
    r in w.rows && w.rows[r].variant in w.live && w.live[w.rows[r].variant] == pair
  }

  /** Another row holds the variant. */
  predicate Taken(w: World, r: RowId)
    requires r in w.rows
  {
    exists q :: q in w.rows && q != r && w.rows[q].variant == w.rows[r].variant && Live(w.rows[q].state)
  }

  /** The price a campaign strikes over a pair. */
  ghost predicate Offers(camp: Campaign, live: Pair, price: int) {
    Strikes(DiscountedPrice(live, camp.policy), camp.discount, camp.rounding, price)
  }

  /** The sale over a pair, at a price. */
  function SaleAt(live: Pair, price: int): Pair {
    Pair(price, Some(FullPrice(live)))
  }

  /** A row with a write of it planned. */
  function Planned(w: World, r: RowId, row: Row, kind: Kind, write: Pair, done: State, fail: State): World {
    w.(rows := w.rows[r := row], plans := w.plans[r := Plan(kind, write, done, fail, Waiting)])
  }

  function Snapshot(row: Row, live: Pair, camp: Campaign, price: int): Row {
    row.(original := Some(live), base := Some(DiscountedPrice(live, camp.policy)), sale := Some(SaleAt(live, price)))
  }

  /* One row of a batch. */

  /** A variant that is gone is let go of. */
  lemma MissingIsReleased(w: World, s: Step)
    requires (s.DecideApply? || s.DecideRestore?) && Enabled(w, s) && w.rows[s.row].variant !in w.live
    ensures Next(w, s) == SetState(w, s.row, Released)
  {}

  /** A row with a snapshot is never priced again: its sale is recorded if it is live, written as it was recorded if the
      original is, and left to a person over any other pair. */
  lemma RetryWritesItsSale(w: World, r: RowId, camp: Campaign, live: Pair)
    requires Enabled(w, DecideApply(r, camp)) && Finds(w, r, live) && w.rows[r].HasSnapshot()
    ensures var row, next := w.rows[r], Next(w, DecideApply(r, camp));
            && (live == row.sale.value ==> next == SetState(w, r, Applied))
            && (live == row.original.value != row.sale.value ==>
                  next == Planned(w, r, row, ToSale, row.sale.value, Applied, Failed))
            && (live != row.sale.value && live != row.original.value ==> next == SetState(w, r, Review))
  {
    ClassifiesExactly(w.rows[r].sale.value, w.rows[r].original.value, live);
    assert w.rows[r := w.rows[r]] == w.rows;
  }

  /** A row without one takes it, of the pair it finds and the sale struck over that, and writes that sale; or is
      skipped, because another row holds the variant or the sale is not worth writing. */
  lemma FirstTryTakesItsSnapshot(w: World, r: RowId, camp: Campaign, live: Pair, price: int)
    requires Enabled(w, DecideApply(r, camp)) && Finds(w, r, live) && !w.rows[r].HasSnapshot()
    requires Offers(camp, live, price)
    ensures var row, next := w.rows[r], Next(w, DecideApply(r, camp));
            next == if Taken(w, r) then SetState(w, r, Skipped)
                    else if WorthWriting(live, camp.policy, price)
                    then Planned(w, r, Snapshot(row, live, camp, price), ToSale, SaleAt(live, price), Applied, Failed)
                    else SetRow(w, r, row.(state := Skipped, original := Some(live)))
  {
    assert Taken(w, r) == Held(w, r);
    DecidesExactly(live, camp.policy, camp.discount, camp.rounding, price);
  }

  /** A row to be put back is settled over its original, written back over its sale, and left to a person over any other
      pair; without a snapshot there is nothing to put back. */
  lemma RestoreWritesItsOriginal(w: World, r: RowId, final: State, live: Pair)
    requires Enabled(w, DecideRestore(r, final)) && Finds(w, r, live)
    ensures var row, next := w.rows[r], Next(w, DecideRestore(r, final));
            if !row.HasSnapshot() then next == SetState(w, r, final)
            else
              && (live == row.sale.value ==>
                    next == Planned(w, r, row, ToOriginal, row.original.value, final, RestoreFailed))
              && (live == row.original.value != row.sale.value ==> next == SetState(w, r, final))
              && (live != row.sale.value && live != row.original.value ==> next == SetState(w, r, Review))
  {
    if w.rows[r].HasSnapshot() {
      ClassifiesExactly(w.rows[r].sale.value, w.rows[r].original.value, live);
    }
    assert w.rows[r := w.rows[r]] == w.rows;
  }

  /** A forced restore writes the original whatever is live. */
  lemma ForcedWritesItsOriginal(w: World, r: RowId)
    requires Enabled(w, DecideForced(r))
    ensures var row, next := w.rows[r], Next(w, DecideForced(r));
            next == if row.original.None? then SetState(w, r, Released)
                    else Planned(w, r, row, Forced, row.original.value, Restored, RestoreFailed)
  {
    assert w.rows[r := w.rows[r]] == w.rows;
  }

  /* An outside price. */

  /** The row over the price somebody else set: the base that stands for, with the compare-at there was. */
  function NewOriginal(row: Row, live: Pair): Pair
    requires row.HasSnapshot()
  {
    Pair(BaseOf(live, row.sale.value), row.original.value.compareAt)
  }

  /** The full price a kept sale is struck against. */
  function Against(row: Row, live: Pair): int
    requires row.HasSnapshot()
  {
    if row.original.value.compareAt.Some? then row.original.value.compareAt.value else BaseOf(live, row.sale.value)
  }

  ghost predicate SeesOutside(w: World, r: RowId, camp: Campaign, live: Pair) {
    && Enabled(w, OutsideChange(r, camp)) && Finds(w, r, live)
    && w.rows[r].sale != Some(live) && w.rows[r].original != Some(live)
  }

  /** The campaign's own pair changes nothing. */
  lemma OwnPairChangesNothing(w: World, r: RowId, camp: Campaign)
    requires Enabled(w, OutsideChange(r, camp))
    requires var live := w.live[w.rows[r].variant]; w.rows[r].sale == Some(live) || w.rows[r].original == Some(live)
    ensures Next(w, OutsideChange(r, camp)) == w
  {
    assert w.rows[r := w.rows[r]] == w.rows;
  }

  lemma AskFirstAsks(w: World, r: RowId, camp: Campaign, live: Pair)
    requires SeesOutside(w, r, camp, live) && camp.basePolicy == AskFirst
    ensures Next(w, OutsideChange(r, camp)) == SetState(w, r, Review)
  {}

  /** Preserve keeps the sale price, over the new original, as long as it is below what it is struck against; and
      otherwise lets the new price stand. */
  lemma PreserveKeepsTheSalePrice(w: World, r: RowId, camp: Campaign, live: Pair)
    requires SeesOutside(w, r, camp, live) && camp.basePolicy == Preserve
    ensures var row, next := w.rows[r], Next(w, OutsideChange(r, camp));
            var sale := Pair(row.sale.value.price, Some(Against(row, live)));
            var kept := row.(original := Some(NewOriginal(row, live)));
            next == if sale.price < Against(row, live)
                    then Planned(w, r, kept.(state := Applying, base := Some(BaseOf(live, row.sale.value)),
                                             sale := Some(sale)), ByPolicy, sale, Applied, Failed)
                    else SetRow(w, r, kept.(state := Released))
  {
    ClassifiesExactly(w.rows[r].sale.value, w.rows[r].original.value, live);
  }

  /** Recalculate strikes a new sale over the new original, and lets the new price stand if that is not worth
      writing. */
  lemma RecalculateStrikesAnew(w: World, r: RowId, camp: Campaign, live: Pair, price: int)
    requires SeesOutside(w, r, camp, live) && camp.basePolicy == Recalculate
    requires Offers(camp, NewOriginal(w.rows[r], live), price)
    ensures var row, next := w.rows[r], Next(w, OutsideChange(r, camp));
            var base := NewOriginal(row, live);
            next == if WorthWriting(base, camp.policy, price)
                    then Planned(w, r, Snapshot(row, base, camp, price).(state := Applying), ByPolicy,
                                 SaleAt(base, price), Applied, Failed)
                    else SetRow(w, r, row.(state := Released, original := Some(base)))
  {
    ClassifiesExactly(w.rows[r].sale.value, w.rows[r].original.value, live);
    DecidesExactly(NewOriginal(w.rows[r], live), camp.policy, camp.discount, camp.rounding, price);
  }

  /* Whole sales. */

  /** A pending row without a snapshot, on a variant nobody holds, over which its campaign's sale is worth writing. */
  ghost predicate ReadyForSale(w: World, r: RowId, camp: Campaign, live: Pair, price: int) {
    && In(w, r, Pending) && !Held(w, r) && camp.id == w.rows[r].campaign && Finds(w, r, live)
    && !w.rows[r].HasSnapshot() && Offers(camp, live, price) && WorthWriting(live, camp.policy, price)
  }

  /** The world with the row in a state of its sale, and its variant at a pair. */
  function During(w: World, r: RowId, camp: Campaign, live: Pair, price: int, state: State, pair: Pair): World
    requires r in w.rows
  {
    var row := Snapshot(w.rows[r], live, camp, price).(state := state);
    w.(rows := w.rows[r := row], live := w.live[row.variant := pair])
  }

  function Sold(w: World, r: RowId, camp: Campaign, live: Pair, price: int): World
    requires r in w.rows
  {
    During(w, r, camp, live, price, Applied, SaleAt(live, price))
  }

  /** A write planned for a row, sent and recorded. */
  lemma WriteIsDone(w: World, r: RowId, row: Row, kind: Kind, write: Pair, done: State, fail: State)
    requires r in w.rows && r !in w.plans && row.variant in w.live
    ensures var u, steps := Planned(w, r, row, kind, write, done, fail), [Write(r), Record(r)];
            && Legal(u, steps)
            && Run(u, steps) == w.(live := w.live[row.variant := write], rows := w.rows[r := row.(state := done)])
  {
    var u := Planned(w, r, row, kind, write, done, fail);
    var written := Next(u, Write(r));
    assert written.plans - {r} == w.plans;
    assert u.rows[r := row.(state := done)] == w.rows[r := row.(state := done)];
    RunSnoc(u, [], Write(r));
    RunSnoc(u, [Write(r)], Record(r));
    assert [Write(r)] + [Record(r)] == [Write(r), Record(r)] && [] + [Write(r)] == [Write(r)];
  }

  /** A claim and the snapshot. */
  lemma Starts(w: World, r: RowId, camp: Campaign, live: Pair, price: int)
    requires ReadyForSale(w, r, camp, live, price)
    ensures var steps, row := [Shift(r, Claim), DecideApply(r, camp)], Snapshot(w.rows[r], live, camp, price);
            && Legal(w, steps)
            && Run(w, steps) == Planned(w, r, row.(state := Applying), ToSale, SaleAt(live, price), Applied, Failed)
  {
    var claimed := SetState(w, r, Applying);
    FirstTryTakesItsSnapshot(claimed, r, camp, live, price);
    assert !Taken(claimed, r);
    RunSnoc(w, [], Shift(r, Claim));
    RunSnoc(w, [Shift(r, Claim)], DecideApply(r, camp));
    assert [] + [Shift(r, Claim)] == [Shift(r, Claim)];
    assert [Shift(r, Claim)] + [DecideApply(r, camp)] == [Shift(r, Claim), DecideApply(r, camp)];
  }

  function Attempt(r: RowId, camp: Campaign): seq<Step> {
    [Shift(r, Claim), DecideApply(r, camp)]
  }

  /** Claimed, priced, written and recorded: the sale is live, and nothing else has moved. */
  lemma SaleIsMade(w: World, r: RowId, camp: Campaign, live: Pair, price: int)
    requires ReadyForSale(w, r, camp, live, price)
    ensures var steps := Attempt(r, camp) + [Write(r), Record(r)];
            Legal(w, steps) && Run(w, steps) == Sold(w, r, camp, live, price)
  {
    var row := Snapshot(w.rows[r], live, camp, price).(state := Applying);
    Starts(w, r, camp, live, price);
    WriteIsDone(w, r, row, ToSale, SaleAt(live, price), Applied, Failed);
    RunAppend(w, Attempt(r, camp), [Write(r), Record(r)]);
  }

  function PutBack(r: RowId): seq<Step> {
    [Shift(r, ClaimRestore), DecideRestore(r, Restored)]
  }

  /** The write of the original, unless it has landed already. */
  function Return(r: RowId, landed: bool): seq<Step> {
    PutBack(r) + if landed then [] else [Write(r), Record(r)]
  }

  function Back(w: World, r: RowId): World
    requires r in w.rows && w.rows[r].HasSnapshot()
  {
    var row := w.rows[r];
    w.(live := w.live[row.variant := row.original.value], rows := w.rows[r := row.(state := Restored)])
  }

  lemma RestoreStarts(w: World, r: RowId)
    requires In(w, r, Applied) && w.rows[r].HasSnapshot()
    requires Finds(w, r, w.rows[r].original.value) || Finds(w, r, w.rows[r].sale.value)
    ensures var row := w.rows[r];
            && Legal(w, PutBack(r))
            && Run(w, PutBack(r)) == if Finds(w, r, row.sale.value)
               then Planned(w, r, row.(state := Restoring), ToOriginal, row.original.value, Restored, RestoreFailed)
               else SetState(w, r, Restored)
  {
    var claimed, row := SetState(w, r, Restoring), w.rows[r].(state := Restoring);
    RestoreWritesItsOriginal(claimed, r, Restored, w.live[row.variant]);
    RunSnoc(w, [], Shift(r, ClaimRestore));
    RunSnoc(w, [Shift(r, ClaimRestore)], DecideRestore(r, Restored));
    assert [] + [Shift(r, ClaimRestore)] == [Shift(r, ClaimRestore)];
    assert [Shift(r, ClaimRestore)] + [DecideRestore(r, Restored)] == PutBack(r);
    assert Planned(claimed, r, row, ToOriginal, row.original.value, Restored, RestoreFailed)
        == Planned(w, r, row, ToOriginal, row.original.value, Restored, RestoreFailed);
  }

  lemma OriginalIsPutBack(w: World, r: RowId)
    requires In(w, r, Applied) && w.rows[r].HasSnapshot()
    requires Finds(w, r, w.rows[r].original.value) || Finds(w, r, w.rows[r].sale.value)
    ensures var steps := Return(r, !Finds(w, r, w.rows[r].sale.value));
            Legal(w, steps) && Run(w, steps) == Back(w, r)
  {
    var row := w.rows[r];
    RestoreStarts(w, r);
    if Finds(w, r, row.sale.value) {
      WriteIsDone(w, r, row.(state := Restoring), ToOriginal, row.original.value, Restored, RestoreFailed);
      RunAppend(w, PutBack(r), [Write(r), Record(r)]);
    } else {
      assert PutBack(r) + [] == PutBack(r);
      assert w.live[row.variant := row.original.value] == w.live;
    }
  }

  /** A sale made and put back leaves every price as it was. */
  lemma ThereAndBack(w: World, r: RowId, camp: Campaign, live: Pair, price: int)
    requires ReadyForSale(w, r, camp, live, price)
    ensures var steps := Attempt(r, camp) + [Write(r), Record(r)] + Return(r, false);
            && Legal(w, steps) && Run(w, steps).live == w.live
            && Run(w, steps).rows == w.rows[r := Snapshot(w.rows[r], live, camp, price).(state := Restored)]
  {
    SaleIsMade(w, r, camp, live, price);
    OriginalIsPutBack(Sold(w, r, camp, live, price), r);
    RunAppend(w, Attempt(r, camp) + [Write(r), Record(r)], Return(r, false));
  }

  /* Cut short. */

  /** The job dies with its write planned and not sent, or landed and not recorded; or Shopify refuses the write. */
  datatype Mishap = DiedBeforeWriting | DiedAfterWriting | WriteRefused

  /** Each time the row is put back to be tried again: as a stale claim, or as a failure retried. */
  function CutShort(r: RowId, m: Mishap, stale: Move, retry: Move): seq<Step> {
    match m
    case DiedBeforeWriting => [Crash({r}), Shift(r, stale)]
    case DiedAfterWriting => [Write(r), Crash({r}), Shift(r, stale)]
    case WriteRefused => [Step.Refuse(r), Record(r), Shift(r, retry)]
  }

  lemma Three(w: World, s: Step, t: Step, u: Step)
    requires Enabled(w, s) && Enabled(Next(w, s), t) && Enabled(Next(Next(w, s), t), u)
    ensures Legal(w, [s, t, u]) && Run(w, [s, t, u]) == Next(Next(Next(w, s), t), u)
  {
    RunSnoc(w, [], s);
    RunSnoc(w, [s], t);
    RunSnoc(w, [s, t], u);
    assert [] + [s] == [s] && [s] + [t] == [s, t] && [s, t] + [u] == [s, t, u];
  }

  lemma CutBefore(w: World, r: RowId, row: Row, plan: Plan, stale: Move)
    requires r in w.rows && r !in w.plans && plan.phase.Waiting? && !stale.Claim? && From(stale) == row.state
    ensures var u, steps := WithPlan(w, r, row, plan), [Crash({r}), Shift(r, stale)];
            Legal(u, steps) && Run(u, steps) == w.(rows := w.rows[r := row.(state := To(stale))])
  {
    var u := WithPlan(w, r, row, plan);
    RunSnoc(u, [], Crash({r}));
    RunSnoc(u, [Crash({r})], Shift(r, stale));
    assert [] + [Crash({r})] == [Crash({r})] && [Crash({r})] + [Shift(r, stale)] == [Crash({r}), Shift(r, stale)];
    assert u.plans - {r} == w.plans;
    assert u.rows[r := row.(state := To(stale))] == w.rows[r := row.(state := To(stale))];
  }

  lemma CutAfter(w: World, r: RowId, row: Row, plan: Plan, stale: Move)
    requires r in w.rows && r !in w.plans && plan.phase.Waiting? && !stale.Claim? && From(stale) == row.state
    requires row.variant in w.live
    ensures var u, steps := WithPlan(w, r, row, plan), [Write(r), Crash({r}), Shift(r, stale)];
            && Legal(u, steps)
            && Run(u, steps) == w.(rows := w.rows[r := row.(state := To(stale))],
                                   live := w.live[row.variant := plan.write])
  {
    var u := WithPlan(w, r, row, plan);
    Three(u, Write(r), Crash({r}), Shift(r, stale));
    assert Next(u, Write(r)).plans - {r} == w.plans;
    assert u.rows[r := row.(state := To(stale))] == w.rows[r := row.(state := To(stale))];
  }

  lemma CutRefused(w: World, r: RowId, row: Row, plan: Plan, retry: Move)
    requires r in w.rows && r !in w.plans && plan.phase.Waiting? && !retry.Claim? && From(retry) == plan.fail
    ensures var u, steps := WithPlan(w, r, row, plan), [Step.Refuse(r), Record(r), Shift(r, retry)];
            Legal(u, steps) && Run(u, steps) == w.(rows := w.rows[r := row.(state := To(retry))])
  {
    var u := WithPlan(w, r, row, plan);
    Three(u, Step.Refuse(r), Record(r), Shift(r, retry));
    assert Next(u, Step.Refuse(r)).plans - {r} == w.plans;
    assert u.rows[r := row.(state := To(retry))] == w.rows[r := row.(state := To(retry))];
  }

  /** A row with this write of it planned. */
  function WithPlan(w: World, r: RowId, row: Row, plan: Plan): World {
    Planned(w, r, row, plan.kind, plan.write, plan.done, plan.fail)
  }

  /** The row is where it can be claimed again, and only a landed write has moved its price. */
  lemma EndsClaimable(w: World, r: RowId, row: Row, plan: Plan, m: Mishap, stale: Move, retry: Move, state: State)
    requires r in w.rows && r !in w.plans && row.variant in w.live && plan.phase.Waiting?
    requires !stale.Claim? && !retry.Claim? && From(stale) == row.state && From(retry) == plan.fail
    requires To(stale) == To(retry) == state
    ensures var u, steps := WithPlan(w, r, row, plan), CutShort(r, m, stale, retry);
            && Legal(u, steps)
            && Run(u, steps) == w.(rows := w.rows[r := row.(state := state)],
                                   live := if m.DiedAfterWriting? then w.live[row.variant := plan.write] else w.live)
  {
    match m
    case DiedBeforeWriting => CutBefore(w, r, row, plan, stale);
    case DiedAfterWriting => CutAfter(w, r, row, plan, stale);
    case WriteRefused => CutRefused(w, r, row, plan, retry);
  }

  /** Tried again: the write, unless it has landed already. */
  function Again(r: RowId, camp: Campaign, landed: bool): seq<Step> {
    Attempt(r, camp) + if landed then [] else [Write(r), Record(r)]
  }

  lemma RetryMakesTheSale(w: World, r: RowId, camp: Campaign)
    requires In(w, r, Pending) && !Held(w, r) && camp.id == w.rows[r].campaign && w.rows[r].HasSnapshot()
    requires Finds(w, r, w.rows[r].original.value) || Finds(w, r, w.rows[r].sale.value)
    ensures var row := w.rows[r];
            var steps := Again(r, camp, Finds(w, r, row.sale.value));
            && Legal(w, steps)
            && Run(w, steps) == w.(live := w.live[row.variant := row.sale.value],
                                   rows := w.rows[r := row.(state := Applied)])
  {
    var row, claimed := w.rows[r], SetState(w, r, Applying);
    RetryWritesItsSale(claimed, r, camp, w.live[row.variant]);
    RunSnoc(w, [], Shift(r, Claim));
    RunSnoc(w, [Shift(r, Claim)], DecideApply(r, camp));
    assert [] + [Shift(r, Claim)] == [Shift(r, Claim)];
    assert [Shift(r, Claim)] + [DecideApply(r, camp)] == Attempt(r, camp);
    if Finds(w, r, row.sale.value) {
      assert Attempt(r, camp) + [] == Attempt(r, camp);
      assert w.live[row.variant := row.sale.value] == w.live;
    } else {
      var applying := row.(state := Applying);
      WriteIsDone(w, r, applying, ToSale, row.sale.value, Applied, Failed);
      assert Planned(claimed, r, applying, ToSale, row.sale.value, Applied, Failed)
          == Planned(w, r, applying, ToSale, row.sale.value, Applied, Failed);
      RunAppend(w, Attempt(r, camp), [Write(r), Record(r)]);
    }
  }

  lemma NotHeldDuring(w: World, mid: World, r: RowId)
    requires r in w.rows && !Held(w, r) && r in mid.rows && mid.rows == w.rows[r := mid.rows[r]]
    requires mid.rows[r].variant == w.rows[r].variant
    ensures !Held(mid, r)
  {}

  lemma SaleCutShort(w: World, r: RowId, camp: Campaign, live: Pair, price: int, m: Mishap)
    requires ReadyForSale(w, r, camp, live, price)
    ensures var steps := Attempt(r, camp) + CutShort(r, m, StaleApplying, RetryFailed);
            && Legal(w, steps)
            && Run(w, steps) == During(w, r, camp, live, price, Pending,
                                       if m.DiedAfterWriting? then SaleAt(live, price) else live)
  {
    var row := Snapshot(w.rows[r], live, camp, price).(state := Applying);
    Starts(w, r, camp, live, price);
    EndsClaimable(w, r, row, Plan(ToSale, SaleAt(live, price), Applied, Failed, Waiting), m, StaleApplying, RetryFailed,
                  Pending);
    assert w.live[row.variant := live] == w.live;
    RunAppend(w, Attempt(r, camp), CutShort(r, m, StaleApplying, RetryFailed));
  }

  lemma PendingIsSold(w: World, r: RowId, camp: Campaign, live: Pair, price: int, pair: Pair, later: Campaign)
    requires ReadyForSale(w, r, camp, live, price) && later.id == camp.id
    requires pair == live || pair == SaleAt(live, price)
    ensures var mid := During(w, r, camp, live, price, Pending, pair);
            var steps := Again(r, later, pair == SaleAt(live, price));
            Legal(mid, steps) && Run(mid, steps) == Sold(w, r, camp, live, price)
  {
    var mid := During(w, r, camp, live, price, Pending, pair);
    NotHeldDuring(w, mid, r);
    RetryMakesTheSale(mid, r, later);
    var row := mid.rows[r].(state := Applied);
    assert mid.rows[r := row] == w.rows[r := row];
    assert mid.live[row.variant := SaleAt(live, price)] == w.live[row.variant := SaleAt(live, price)];
  }

  /** However the first try was cut short, and whatever has become of the campaign's terms meanwhile, trying again ends
      where an undisturbed sale ends: the sale struck once is live, and neither left unwritten nor struck twice. */
  lemma RetryEndsTheSame(w: World, r: RowId, camp: Campaign, live: Pair, price: int, m: Mishap, later: Campaign)
    requires ReadyForSale(w, r, camp, live, price) && later.id == camp.id
    ensures var landed := m.DiedAfterWriting? || live == SaleAt(live, price);
            var steps := Attempt(r, camp) + CutShort(r, m, StaleApplying, RetryFailed) + Again(r, later, landed);
            Legal(w, steps) && Run(w, steps) == Sold(w, r, camp, live, price)
  {
    var cut := Attempt(r, camp) + CutShort(r, m, StaleApplying, RetryFailed);
    var pair := if m.DiedAfterWriting? then SaleAt(live, price) else live;
    SaleCutShort(w, r, camp, live, price, m);
    PendingIsSold(w, r, camp, live, price, pair, later);
    RunAppend(w, cut, Again(r, later, pair == SaleAt(live, price)));
  }

  lemma RestoreCutShort(w: World, r: RowId, m: Mishap)
    requires In(w, r, Applied) && w.rows[r].HasSnapshot() && Finds(w, r, w.rows[r].sale.value)
    ensures var row, steps := w.rows[r], PutBack(r) + CutShort(r, m, StaleRestoring, RetryRestore);
            && Legal(w, steps)
            && Run(w, steps) == w.(live := w.live[row.variant := if m.DiedAfterWriting? then row.original.value
                                                                 else row.sale.value])
  {
    var row := w.rows[r].(state := Restoring);
    RestoreStarts(w, r);
    EndsClaimable(w, r, row, Plan(ToOriginal, row.original.value, Restored, RestoreFailed, Waiting), m, StaleRestoring,
                  RetryRestore, Applied);
    assert w.rows[r := row.(state := Applied)] == w.rows && w.live[row.variant := row.sale.value] == w.live;
    RunAppend(w, PutBack(r), CutShort(r, m, StaleRestoring, RetryRestore));
  }

  /** And however a restore was cut short, trying again puts the original back. */
  lemma RestoreEndsTheSame(w: World, r: RowId, m: Mishap)
    requires In(w, r, Applied) && w.rows[r].HasSnapshot() && Finds(w, r, w.rows[r].sale.value)
    ensures var landed := m.DiedAfterWriting? && w.rows[r].original != w.rows[r].sale;
            var steps := PutBack(r) + CutShort(r, m, StaleRestoring, RetryRestore) + Return(r, landed);
            Legal(w, steps) && Run(w, steps) == Back(w, r)
  {
    var cut := PutBack(r) + CutShort(r, m, StaleRestoring, RetryRestore);
    RestoreCutShort(w, r, m);
    var mid := Run(w, cut);
    OriginalIsPutBack(mid, r);
    RunAppend(w, cut, Return(r, !Finds(mid, r, w.rows[r].sale.value)));
  }
}
