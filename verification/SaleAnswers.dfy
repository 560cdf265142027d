/** What a batch of the price writer leaves live, and how it records what Shopify answers
    (src/adapters/sales/writer.server.ts). */
module SaleAnswers {
  import opened Prelude
  import opened SalePricing
  import opened SaleRules
  import opened SaleMachine
  import opened SaleDecisions
  import opened SaleBatch

  /* What a batch leaves live. */

  /** A verdict that settles a row, or plans a write for it, as being at this pair. */
  predicate Puts(v: Verdict, done: State, pair: Pair, observed: Option<Pair>) {
    match v
    case Settle(row) => row.state == done ==> observed == Some(pair)
    case Go(_, plan) => plan.write == pair && plan.done == done != plan.fail
  }

  lemma PutsThePair(id: RowId, v: Verdict, done: State, pair: Pair, replies: ProductId -> Reply, plans: seq<Planned>,
                    w: World, w': World)
    requires RowFinished(id, v, replies, plans, w, w') && w'.live.Keys == w.live.Keys && v.row.variant in w.live
    requires Puts(v, done, pair, Observed(w, v.row.variant)) && w'.rows[id].state == done
    ensures replies(v.row.product).Silent? || w'.live[v.row.variant] == pair
  {}

  lemma ApplyPutsTheSale(row: Row, camp: Campaign, observed: Option<Pair>, held: bool)
    requires row.state.Applying?
    ensures var v := ApplyVerdict(row, camp, observed, held);
            && v.row.variant == row.variant && v.row.product == row.product
            && (v.Go? || v.row.state.Applied? ==>
                  observed.Some? && v.row.sale.Some? && Puts(v, Applied, v.row.sale.value, observed))
  {}

  lemma RestorePutsTheOriginal(row: Row, final: State, observed: Option<Pair>)
    requires row.HasSnapshot() && observed.Some? && (final.Restored? || final.Released?)
    ensures var v := RestoreVerdict(row, final, observed);
            && v.row.variant == row.variant && v.row.product == row.product && v.row.original == row.original
            && Puts(v, final, row.original.value, observed)
  {}

  /** Whatever a batch of applies found and was answered, a row it leaves applied has its sale live, unless the answer
      named no variant. */
  lemma AppliedRowsAreOnSale(camp: Campaign, ids: seq<RowId>, replies: ProductId -> Reply, w: World, w': World, i: nat)
    requires i < |ids| && Batch(ids, w) && w.rows[ids[i]].state.Applying?
    requires Finished(ids, ApplyVerdicts(w, camp, ids), replies, w, w') && w'.rows[ids[i]].state.Applied?
    ensures var row := w'.rows[ids[i]];
            && row.variant in w'.live && row.sale.Some?
            && (replies(row.product).Silent? || w'.live[row.variant] == row.sale.value)
  {
    var row, vs := w.rows[ids[i]], ApplyVerdicts(w, camp, ids);
    assert RowFinished(ids[i], vs[i], replies, PlansOf(ids, vs), w, w');
    ApplyPutsTheSale(row, camp, Observed(w, row.variant), Held(w, ids[i]));
    PutsThePair(ids[i], vs[i], Applied, vs[i].row.sale.value, replies, PlansOf(ids, vs), w, w');
  }

  /** And one that a batch of restores leaves as put back has its original live. */
  lemma RestoredRowsArePutBack(final: State, ids: seq<RowId>, replies: ProductId -> Reply, w: World, w': World, i: nat)
    requires i < |ids| && Batch(ids, w) && w.rows[ids[i]].HasSnapshot() && w.rows[ids[i]].variant in w.live
    requires final.Restored? || final.Released?
    requires Finished(ids, RestoreVerdicts(w, final, ids), replies, w, w') && w'.rows[ids[i]].state == final
    ensures var row := w'.rows[ids[i]];
            && row.variant in w'.live && row.original == w.rows[ids[i]].original
            && (replies(row.product).Silent? || w'.live[row.variant] == row.original.value)
  {
    var row, vs := w.rows[ids[i]], RestoreVerdicts(w, final, ids);
    assert RowFinished(ids[i], vs[i], replies, PlansOf(ids, vs), w, w');
    RestorePutsTheOriginal(row, final, Observed(w, row.variant));
    PutsThePair(ids[i], vs[i], final, row.original.value, replies, PlansOf(ids, vs), w, w');
  }

  /* How an answer is recorded. */

  /** A mutation that was taken leaves what Shopify says it holds, and counts as done exactly if that is what was sent;
      one answered with an error never does, whether it was taken or not; one answered with nothing does. */
  predicate AsAnswered(reply: Reply, write: Pair, done: State, fail: State, was: Pair, row: Row, w': World) {
    && row.variant in w'.live
    && match reply
       case Took(holds) =>
         var now := if row.variant in holds then holds[row.variant] else write;
         w'.live[row.variant] == now && row.state == if now == write then done else fail
       case Erred(took) => w'.live[row.variant] == (if took then write else was) && row.state == fail
       case Silent => w'.live[row.variant] == was && row.state == done
       case Lost(_) => true
  }

  lemma WriteIsAnswered(ids: seq<RowId>, vs: seq<Verdict>, replies: ProductId -> Reply, w: World, w': World, i: nat)
    requires i < |ids| == |vs| && vs[i].Go? && Finished(ids, vs, replies, w, w')
    requires OnlySeen(ids, vs, w)
    ensures var row, plan := vs[i].row, vs[i].plan;
            && ids[i] in w'.rows && w'.rows[ids[i]] == row.(state := w'.rows[ids[i]].state)
            && AsAnswered(replies(row.product), plan.write, plan.done, plan.fail, w.live[row.variant],
                          w'.rows[ids[i]], w')
  {
    var plans := PlansOf(ids, vs);
    var p := Planning(ids[i], vs[i].row, vs[i].plan);
    assert RowFinished(ids[i], vs[i], replies, plans, w, w');
    PlansComeFrom(ids, vs);
    OfProductMembers(plans, p.product);
    forall q | q in OfProduct(plans, p.product) ensures q.variant in w.live {
      var k :| 0 <= k < |ids| && FromVerdict(q, ids[k], vs[k]);
    }
  }

  /** Only rows whose variant was read are written. */
  ghost predicate OnlySeen(ids: seq<RowId>, vs: seq<Verdict>, w: World)
    requires |ids| == |vs|
  {
    forall k :: 0 <= k < |ids| ==> vs[k].Go? ==> vs[k].row.variant in w.live
  }

  lemma ApplySeesFirst(row: Row, camp: Campaign, observed: Option<Pair>, held: bool)
    ensures ApplyVerdict(row, camp, observed, held).Go? ==>
              observed.Some? && ApplyVerdict(row, camp, observed, held).row.variant == row.variant
  {}

  lemma AppliesSeen(camp: Campaign, ids: seq<RowId>, w: World)
    requires forall i :: 0 <= i < |ids| ==> ids[i] in w.rows
    ensures OnlySeen(ids, ApplyVerdicts(w, camp, ids), w)
  {
    forall k | 0 <= k < |ids|
      ensures ApplyVerdicts(w, camp, ids)[k].Go? ==> ApplyVerdicts(w, camp, ids)[k].row.variant in w.live
    {
      ApplySeesFirst(w.rows[ids[k]], camp, Observed(w, w.rows[ids[k]].variant), Held(w, ids[k]));
    }
  }

  lemma RetryVerdict(row: Row, camp: Campaign, held: bool)
    requires row.HasSnapshot() && row.original != row.sale
    ensures ApplyVerdict(row, camp, Some(row.original.value), held)
            == Go(row, Plan(ToSale, row.sale.value, Applied, Failed, Waiting))
  {}

  lemma FirstVerdict(row: Row, camp: Campaign, live: Pair, price: int)
    requires !row.HasSnapshot() && Offers(camp, live, price) && WorthWriting(live, camp.policy, price)
    ensures ApplyVerdict(row, camp, Some(live), false)
            == Go(Snapshot(row, live, camp, price).(state := Applying),
                  Plan(ToSale, SaleAt(live, price), Applied, Failed, Waiting))
  {
    DecidesExactly(live, camp.policy, camp.discount, camp.rounding, price);
  }

  /** A row claimed again over its original is written as it was recorded, and ends as Shopify answers. */
  lemma RetryIsAnswered(camp: Campaign, ids: seq<RowId>, replies: ProductId -> Reply, w: World, w': World, i: nat)
    requires i < |ids| && Batch(ids, w) && Finished(ids, ApplyVerdicts(w, camp, ids), replies, w, w')
    requires w.rows[ids[i]].HasSnapshot() && Finds(w, ids[i], w.rows[ids[i]].original.value)
    requires w.rows[ids[i]].original != w.rows[ids[i]].sale
    ensures var row := w.rows[ids[i]];
            && w'.rows[ids[i]] == row.(state := w'.rows[ids[i]].state)
            && AsAnswered(replies(row.product), row.sale.value, Applied, Failed, row.original.value,
                          w'.rows[ids[i]], w')
  {
    RetryVerdict(w.rows[ids[i]], camp, Held(w, ids[i]));
    AppliesSeen(camp, ids, w);
    WriteIsAnswered(ids, ApplyVerdicts(w, camp, ids), replies, w, w', i);
  }

  /** A row claimed for the first time is priced by what was read, and ends as Shopify answers. */
  lemma FirstTryIsAnswered(camp: Campaign, ids: seq<RowId>, replies: ProductId -> Reply, w: World, w': World, i: nat,
                           live: Pair, price: int)
    requires i < |ids| && Batch(ids, w) && Finished(ids, ApplyVerdicts(w, camp, ids), replies, w, w')
    requires !w.rows[ids[i]].HasSnapshot() && !SaleDecisions.Taken(w, ids[i]) && Finds(w, ids[i], live)
    requires Offers(camp, live, price) && WorthWriting(live, camp.policy, price)
    ensures var row := w.rows[ids[i]];
            && w'.rows[ids[i]] == Snapshot(row, live, camp, price).(state := w'.rows[ids[i]].state)
            && AsAnswered(replies(row.product), SaleAt(live, price), Applied, Failed, live, w'.rows[ids[i]], w')
  {
    assert Held(w, ids[i]) == SaleDecisions.Taken(w, ids[i]);
    FirstVerdict(w.rows[ids[i]], camp, live, price);
    AppliesSeen(camp, ids, w);
    WriteIsAnswered(ids, ApplyVerdicts(w, camp, ids), replies, w, w', i);
  }

  /** A row to be put back over its sale is written its original, and ends as Shopify answers. */
  lemma RestoreIsAnswered(final: State, ids: seq<RowId>, replies: ProductId -> Reply, w: World, w': World, i: nat)
    requires i < |ids| && Batch(ids, w) && Finished(ids, RestoreVerdicts(w, final, ids), replies, w, w')
    requires w.rows[ids[i]].HasSnapshot() && Finds(w, ids[i], w.rows[ids[i]].sale.value)
    ensures var row := w.rows[ids[i]];
            && w'.rows[ids[i]] == row.(state := w'.rows[ids[i]].state)
            && AsAnswered(replies(row.product), row.original.value, final, RestoreFailed, row.sale.value,
                          w'.rows[ids[i]], w')
  {
    WriteIsAnswered(ids, RestoreVerdicts(w, final, ids), replies, w, w', i);
  }
}
