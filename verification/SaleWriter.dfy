/** The batches that change prices and put them back (src/adapters/sales/writer.server.ts), against the
    live prices and the campaign rows they read and write. A batch may die between any two of its
    writes and records; `died` says that it did. Every batch is a run of SaleMachine's steps, so what
    SaleSafety and SaleOutside prove of all runs holds of any program of batches. */
module SaleWriter {
  import opened Prelude
  import opened SaleMachine
  import opened SaleSafety
  import opened SaleBatch

  class Desk {
    var live: Prices
    var rows: map<RowId, Row>
    ghost var begin: World
    ghost var trace: seq<Step>
    ghost var world: World

    ghost predicate OnTrack()
      reads this
    {
      Legal(begin, trace) && Run(begin, trace) == world
    }

    ghost predicate Valid()
      reads this
    {
      OnTrack() && world.live == live && world.rows == rows
    }

    constructor (first: Prices)
      ensures Valid() && begin == Fresh(first) && trace == [] && live == first && rows == map[]
    {
      live, rows := first, map[];
      begin, world, trace := Fresh(first), Fresh(first), [];
    }

    ghost method Did(s: Step)
      requires OnTrack() && Enabled(world, s)
      requires Next(world, s).live == live && Next(world, s).rows == rows
      modifies this`trace, this`world
      ensures Valid() && world == Next(old(world), s) && trace == old(trace) + [s]
    {
      RunSnoc(begin, trace, s);
      world, trace := Next(world, s), trace + [s];
    }

    /** One variant of a mutation. */
    method WriteOne(p: Planned, reply: Reply, accepted: bool)
      requires Valid() && ReadyOne(p, world) && (accepted ==> p.variant in live && !reply.Silent?)
      modifies this`live, this`trace, this`world
      ensures Valid() && old(trace) <= trace && world == Sent(old(world), [p], reply, accepted)
    {
      if accepted {
        live := live[p.variant := Holds(reply, p)];
      }
      Did(if reply.Silent? then Overlook(p.row) else if !accepted then Step.Refuse(p.row)
          else if AsSent(reply, accepted, p) then Write(p.row) else Alter(p.row, Holds(reply, p)));
    }

    /** One row's outcome: the success or the failure recorded for it. */
    method RecordOne(p: Planned, reply: Reply, accepted: bool) returns (ok: bool)
      requires Valid() && p.row in rows && p.row in world.plans
      requires world.plans[p.row] == AsPlan(p).(phase := PhaseAfter(reply, accepted, p))
      modifies this`rows, this`trace, this`world
      ensures Valid() && old(trace) <= trace && world == Recorded(old(world), [p], reply, accepted)
      ensures ok == AsSent(reply, accepted, p)
    {
      ok := reply.Silent? || (accepted && !reply.Erred? && Holds(reply, p) == p.write);
      rows := rows[p.row := rows[p.row].(state := if ok then p.done else p.fail)];
      Did(Record(p.row));
    }

    /** One product's mutation, all or nothing. */
    method Mutate(list: seq<Planned>, reply: Reply, accepted: bool)
      requires Valid() && Apart(list) && Ready(list, world) && accepted == Accepts(reply, list, live)
      modifies this`live, this`trace, this`world
      ensures Valid() && old(trace) <= trace && world == Sent(old(world), list, reply, accepted)
    {
      for k := 0 to |list|
        invariant Valid() && old(trace) <= trace && world == Sent(old(world), list[..k], reply, accepted)
      {
        assert ReadyOne(list[k], old(world));
        SentKeeps(old(world), list[..k], reply, accepted, list[k]);
        WriteOne(list[k], reply, accepted);
        assert list[..k + 1][..k] == list[..k];
      }
      assert list[..|list|] == list;
    }

    /** A product's outcomes, row by row. */
    method RecordAll(list: seq<Planned>, reply: Reply, accepted: bool, ghost start: World)
      returns (done: nat, failed: nat, died: bool)
      requires Valid() && Apart(list) && Ready(list, start) && world == Sent(start, list, reply, accepted)
      requires accepted ==> forall i :: 0 <= i < |list| ==> list[i].variant in start.live
      modifies this`rows, this`trace, this`world
      ensures Valid() && old(trace) <= trace && OthersSame(list, start, world)
      ensures !died ==> done + failed == |list| && world == Recorded(old(world), list, reply, accepted)
      ensures !died ==> (failed == 0 <==> ListSent(list, reply, accepted))
    {
      done, failed, died := 0, 0, false;
      for k := 0 to |list|
        invariant Valid() && old(trace) <= trace && done + failed == k
        invariant world == Recorded(old(world), list[..k], reply, accepted)
        invariant failed == 0 <==> forall i :: 0 <= i < k ==> AsSent(reply, accepted, list[i])
      {
        if * {
          SendFrame(list, list[..k], reply, accepted, start, old(world));
          return done, failed, true;
        }
        RecordReady(start, list, reply, accepted, k);
        var ok := RecordOne(list[k], reply, accepted);
        if ok { done := done + 1; } else { failed := failed + 1; }
      }
      assert list[..|list|] == list;
      SendFrame(list, list, reply, accepted, start, old(world));
    }

    /** One product's mutation and its outcome recorded row by row. */
    method SendProduct(list: seq<Planned>, reply: Reply) returns (done: nat, failed: nat, died: bool)
      requires Valid() && Apart(list) && Ready(list, world)
      modifies this`live, this`rows, this`trace, this`world
      ensures Valid() && old(trace) <= trace && OthersSame(list, old(world), world)
      ensures !died ==> done + failed == |list| && !reply.Lost?
      ensures !died ==> (failed == 0 <==> ListSent(list, reply, Accepts(reply, list, old(live))))
      ensures !died ==> forall i :: 0 <= i < |list| ==>
              Ended(list[i], reply, Accepts(reply, list, old(live)), old(world), world)
    {
      var accepted := Accepts(reply, list, live);
      Mutate(list, reply, accepted);
      if reply.Lost? {
        SendFrame(list, [], reply, accepted, old(world), world);
        return 0, 0, true;
      }
      done, failed, died := RecordAll(list, reply, accepted, old(world));
      if !died {
        forall i | 0 <= i < |list| ensures Ended(list[i], reply, accepted, old(world), world) {
          ProductEnds(old(world), list, reply, accepted, i);
        }
      }
    }

    /** The plans by product, the products in the order they first come up. */
    static method Group(plans: seq<Planned>) returns (order: seq<ProductId>, byProduct: Groups)
      ensures Grouped(plans, order, byProduct)
    {
      order, byProduct := [], map[];
      for k := 0 to |plans|
        invariant Grouped(plans[..k], order, byProduct)
      {
        var plan := plans[k];
        assert plans[..k + 1] == plans[..k] + [plan];
        GroupedSnoc(plans[..k], order, byProduct, plan);
        var list := if plan.product in byProduct then byProduct[plan.product] else [];
        if plan.product !in byProduct {
          order := order + [plan.product];
        }
        byProduct := byProduct[plan.product := list + [plan]];
      }
      assert plans[..|plans|] == plans;
    }

    /** Runs the planned writes product by product and settles each row. */
    method Execute(plans: seq<Planned>, replies: ProductId -> Reply) returns (done: nat, failed: nat, died: bool)
      requires Valid() && Apart(plans) && Ready(plans, world)
      modifies this`live, this`rows, this`trace, this`world
      ensures Valid() && old(trace) <= trace && OthersSame(plans, old(world), world)
      ensures !died ==> done + failed == |plans| && Progress(plans, replies, [], old(world), world)
      ensures !died ==> (failed == 0 <==> AllSent(plans, replies, [], old(live)))
    {
      done, failed, died := 0, 0, false;
      var order, byProduct := Group(plans);
      ProgressStart(plans, replies, order, byProduct, world);
      assert order[0..] == order;
      for k := 0 to |order|
        invariant Valid() && old(trace) <= trace && OthersSame(plans, old(world), world)
        invariant done + failed == Total(order[..k], byProduct)
        invariant Progress(plans, replies, order[k..], old(world), world)
        invariant failed == 0 <==> AllSent(plans, replies, order[k..], old(live))
      {
        if * {
          return done, failed, true;
        }
        var list := byProduct[order[k]];
        OneFurther(order, k);
        NextProduct(plans, replies, order[k..], old(world), world);
        ghost var before := world;
        var d, f, died' := SendProduct(list, replies(order[k]));
        if died' {
          OthersStep(plans, list, old(world), before, world);
          return done, failed, true;
        }
        ProgressStep(plans, replies, order[k..], old(world), before, world);
        done, failed := done + d, failed + f;
      }
      assert order[..|order|] == order;
    }

    /** One row's verdict recorded. */
    method Judge(id: RowId, v: Verdict, ghost s: Step) returns (settled: nat, plans: seq<Planned>)
      requires Valid() && id in rows && Carries(world, s, id, v)
      modifies this`rows, this`trace, this`world
      ensures Valid() && old(trace) <= trace && world == Carry(old(world), id, v)
      ensures plans == (if v.Go? then [Planning(id, v.row, v.plan)] else []) && settled + |plans| == 1
    {
      rows := rows[id := v.row];
      Did(s);
      match v
      case Settle(_) => settled, plans := 1, [];
      case Go(row, plan) => settled, plans := 0, [Planning(id, row, plan)];
    }

    /** A job's death forgets what it had in hand. */
    ghost method Die()
      requires Valid()
      modifies this`trace, this`world
      ensures Valid() && old(trace) <= trace && world == old(world).(plans := map[])
    {
      var lost := set r | r in world.plans;
      Did(Crash(lost));
    }

    /** The writes of a batch whose verdicts are recorded. */
    method Conclude(ids: seq<RowId>, ghost vs: seq<Verdict>, plans: seq<Planned>, replies: ProductId -> Reply,
                    ghost start: World)
      returns (done: nat, failed: nat, died: bool)
      requires Valid() && Worked(ids, vs, start) && world == Judged(start, ids, vs) && plans == PlansOf(ids, vs)
      modifies this`live, this`rows, this`trace, this`world
      ensures Valid() && old(trace) <= trace && world.plans == map[]
      ensures !died ==> done + failed == |plans| && Finished(ids, vs, replies, start, world)
      ensures !died ==> (failed == 0 <==> AllSent(plans, replies, [], start.live))
    {
      JudgedReady(start, ids, vs);
      JudgedFrame(start, ids, vs);
      done, failed, died := Execute(plans, replies);
      if died {
        Die();
      } else {
        BatchFinishes(ids, vs, replies, start, world);
        NothingInHand(ids, vs, replies, start, world);
      }
    }

    /** applyRows: rows already in `applying`, of one campaign. */
    method ApplyRows(camp: Campaign, ids: seq<RowId>, replies: ProductId -> Reply)
      returns (done: nat, failed: nat, died: bool)
      requires Valid() && world.plans == map[] && Batch(ids, world)
      requires forall i :: 0 <= i < |ids| ==> rows[ids[i]].state.Applying? && rows[ids[i]].campaign == camp.id
      modifies this`live, this`rows, this`trace, this`world
      ensures Valid() && old(trace) <= trace && world.plans == map[]
      ensures !died ==> done + failed == |ids|
      ensures !died ==> Finished(ids, ApplyVerdicts(old(world), camp, ids), replies, old(world), world)
      ensures !died ==>
                (failed == 0 <==> AllSent(PlansOf(ids, ApplyVerdicts(old(world), camp, ids)), replies, [], old(live)))
    {
      var read, owners := live, rows;
      ghost var vs := ApplyVerdicts(world, camp, ids);
      var plans: seq<Planned> := [];
      done := 0;
      for k := 0 to |ids|
        invariant Valid() && old(trace) <= trace && done + |plans| == k
        invariant world == Judged(old(world), ids[..k], vs[..k]) && plans == PlansOf(ids[..k], vs[..k])
      {
        if * {
          Die();
          return done, 0, true;
        }
        ApplyReached(old(world), camp, ids, vs, k);
        var row := rows[ids[k]];
        var observed := if row.variant in read then Some(read[row.variant]) else None;
        var verdict := ApplyVerdict(row, camp, observed, HeldIn(owners, ids[k]));
        var settled, planned := Judge(ids[k], verdict, DecideApply(ids[k], camp));
        done, plans := done + settled, plans + planned;
      }
      assert ids[..|ids|] == ids && vs[..|ids|] == vs;
      var d;
      d, failed, died := Conclude(ids, vs, plans, replies, old(world));
      done := done + d;
    }

    /** restoreRows: rows a restore run has claimed, or, to release them, rows a takeover finds applied. */
    method RestoreRows(final: State, ids: seq<RowId>, replies: ProductId -> Reply)
      returns (done: nat, failed: nat, died: bool)
      requires Valid() && world.plans == map[] && Batch(ids, world)
      requires final.Restored? || final.Released?
      requires forall i :: 0 <= i < |ids| ==>
                 rows[ids[i]].state.Restoring? || (rows[ids[i]].state.Applied? && final.Released?)
      modifies this`live, this`rows, this`trace, this`world
      ensures Valid() && old(trace) <= trace && world.plans == map[]
      ensures !died ==> done + failed == |ids|
      ensures !died ==> Finished(ids, RestoreVerdicts(old(world), final, ids), replies, old(world), world)
      ensures !died ==>
                (failed == 0 <==>
                   AllSent(PlansOf(ids, RestoreVerdicts(old(world), final, ids)), replies, [], old(live)))
    {
      var read := live;
      ghost var vs := RestoreVerdicts(world, final, ids);
      var plans: seq<Planned> := [];
      done := 0;
      for k := 0 to |ids|
        invariant Valid() && old(trace) <= trace && done + |plans| == k
        invariant world == Judged(old(world), ids[..k], vs[..k]) && plans == PlansOf(ids[..k], vs[..k])
      {
        if * {
          Die();
          return done, 0, true;
        }
        RestoreReached(old(world), final, ids, vs, k);
        var row := rows[ids[k]];
        var observed := if row.variant in read then Some(read[row.variant]) else None;
        var verdict := RestoreVerdict(row, final, observed);
        var settled, planned := Judge(ids[k], verdict, DecideRestore(ids[k], final));
        done, plans := done + settled, plans + planned;
      }
      assert ids[..|ids|] == ids && vs[..|ids|] == vs;
      var d;
      d, failed, died := Conclude(ids, vs, plans, replies, old(world));
      done := done + d;
    }

    /** forceRestoreRows: review rows put back whatever Shopify holds. */
    method ForceRestoreRows(ids: seq<RowId>, replies: ProductId -> Reply)
      returns (done: nat, failed: nat, died: bool)
      requires Valid() && world.plans == map[] && Batch(ids, world)
      requires forall i :: 0 <= i < |ids| ==> rows[ids[i]].state.Review?
      modifies this`live, this`rows, this`trace, this`world
      ensures Valid() && old(trace) <= trace && world.plans == map[]
      ensures !died ==> done + failed == |ids|
      ensures !died ==> Finished(ids, ForcedVerdicts(old(world), ids), replies, old(world), world)
      ensures !died ==>
                (failed == 0 <==> AllSent(PlansOf(ids, ForcedVerdicts(old(world), ids)), replies, [], old(live)))
    {
      ghost var vs := ForcedVerdicts(world, ids);
      var plans: seq<Planned> := [];
      done := 0;
      for k := 0 to |ids|
        invariant Valid() && old(trace) <= trace && done + |plans| == k
        invariant world == Judged(old(world), ids[..k], vs[..k]) && plans == PlansOf(ids[..k], vs[..k])
      {
        if * {
          Die();
          return done, 0, true;
        }
        ForcedReached(old(world), ids, vs, k);
        var row := rows[ids[k]];
        var verdict := ForcedVerdict(row);
        var settled, planned := Judge(ids[k], verdict, DecideForced(ids[k]));
        done, plans := done + settled, plans + planned;
      }
      assert ids[..|ids|] == ids && vs[..|ids|] == vs;
      var d;
      d, failed, died := Conclude(ids, vs, plans, replies, old(world));
      done := done + d;
    }

    /** A record that only moves a row: a claim, a claim put back, a row settled without a read. */
    method MoveRow(id: RowId, move: Move)
      requires Valid() && Enabled(world, Shift(id, move))
      modifies this`rows, this`trace, this`world
      ensures Valid() && old(trace) <= trace && world == SetState(old(world), id, To(move))
    {
      rows := rows[id := rows[id].(state := To(move))];
      Did(Shift(id, move));
    }

    /** The holder's price put back, so that its variant is free. */
    method TakeOver(c: Contest, replies: ProductId -> Reply) returns (free: bool, died: bool)
      requires Valid() && world.plans == map[] && c.holder in rows && rows[c.holder].state.Applied?
      modifies this`live, this`rows, this`trace, this`world
      ensures Valid() && old(trace) <= trace && world.plans == map[]
      ensures !died ==> Finished([c.holder], [HolderVerdict(c, old(world))], replies, old(world), world)
      ensures !died ==> (free <==> rows[c.holder].state.Released?)
    {
      var done, failed;
      ghost var v := HolderVerdict(c, world);
      assert RestoreVerdicts(world, Released, [c.holder]) == [v];
      done, failed, died := RestoreRows(Released, [c.holder], replies);
      free := !died && failed == 0 && c.holder in rows && rows[c.holder].state.Released?;
      if !died {
        assert RowFinished([c.holder][0], [v][0], replies, PlansOf([c.holder], [v]), old(world), world);
        if rows[c.holder].state.Released? {
          FreeMeansReleased(c, replies, old(world), world);
        }
      }
    }

    /** One contest; nothing but its two rows and the holder's variant moves. */
    method ResolveOne(camp: Campaign, c: Contest, replies: ProductId -> Reply) returns (free: bool, died: bool)
      requires Valid() && world.plans == map[] && ContestedOne(c, world)
      modifies this`live, this`rows, this`trace, this`world
      ensures Valid() && old(trace) <= trace && world.plans == map[]
      ensures !died ==> rows.Keys == old(rows).Keys && live.Keys == old(live).Keys
      ensures !died ==> Resolved(camp, c, replies, old(world), world) && (free <==> Freed(camp, c, old(world), world))
      ensures !died ==> forall r :: r in rows && r != c.row && r != c.holder ==> rows[r] == old(rows)[r]
      ensures !died ==> forall v :: v in live && v != old(rows)[c.holder].variant ==> live[v] == old(live)[v]
    {
      free, died := false, false;
      var holder := rows[c.holder];
      if Wins(camp, holder, c.camp) && holder.state.Applied? {
        free, died := TakeOver(c, replies);
        if died {
          return;
        }
      }
      if !free {
        MoveRow(c.row, SkipHeld);
      }
    }

    /** resolveHeldRows: pending rows whose variant another campaign holds, one at a time. */
    method ResolveHeldRows(camp: Campaign, held: seq<Contest>, replies: ProductId -> Reply)
      returns (released: nat, skipped: nat, died: bool)
      requires Valid() && world.plans == map[] && Contested(held, world)
      modifies this`live, this`rows, this`trace, this`world
      ensures Valid() && old(trace) <= trace && world.plans == map[]
      ensures !died ==> forall i :: 0 <= i < |held| ==> Resolved(camp, held[i], replies, old(world), world)
      ensures !died ==> forall c :: c in held ==> c.holder in old(world).rows && c.holder in world.rows
      ensures !died ==> released == FreedCount(camp, held, old(world), world) && released + skipped == |held|
    {
      released, skipped, died := 0, 0, false;
      for k := 0 to |held|
        invariant Valid() && old(trace) <= trace && world.plans == map[]
        invariant rows.Keys == old(rows).Keys
        invariant forall i :: 0 <= i < k ==> Resolved(camp, held[i], replies, old(world), world)
        invariant forall i :: k <= i < |held| ==> ContestSame(held[i], old(world), world)
        invariant released == FreedCount(camp, held[..k], old(world), world) && released + skipped == k
      {
        if * {
          return released, skipped, true;
        }
        ghost var before := world;
        var free, gone := ResolveOne(camp, held[k], replies);
        if gone {
          return released, skipped, true;
        }
        OneResolved(camp, held, replies, old(world), before, world, k);
        if free { released := released + 1; } else { skipped := skipped + 1; }
      }
      assert held[..|held|] == held;
    }

    /** handleExternalChange on an applied row, after the live read that confirmed the pair. */
    method HandleExternalChange(camp: Campaign, id: RowId, replies: ProductId -> Reply) returns (died: bool)
      requires Valid() && world.plans == map[]
      requires id in rows && rows[id].state.Applied? && rows[id].campaign == camp.id && rows[id].variant in live
      modifies this`live, this`rows, this`trace, this`world
      ensures Valid() && old(trace) <= trace && world.plans == map[]
      ensures !died && old(rows)[id].HasSnapshot() ==>
                Finished([id], [OutsideVerdict(old(rows)[id], camp, old(live)[old(rows)[id].variant])], replies,
                    old(world), world)
      ensures !old(rows)[id].HasSnapshot() ==> world == old(world)
    {
      var row := rows[id];
      if !row.HasSnapshot() {
        return false;
      }
      var verdict := OutsideVerdict(row, camp, live[row.variant]);
      var _, plans := Judge(id, verdict, OutsideChange(id, camp));
      assert [id][..0] == [] && [verdict][..0] == [];
      var _, _, gone := Conclude([id], [verdict], plans, replies, old(world));
      died := gone;
    }

    lemma SendFrame(list: seq<Planned>, part: seq<Planned>, reply: Reply, accepted: bool, w: World, sent: World)
      requires part <= list && sent == Sent(w, list, reply, accepted) && world == Recorded(sent, part, reply, accepted)
      requires accepted ==> forall i :: 0 <= i < |list| ==> list[i].variant in w.live
      ensures OthersSame(list, w, world) && world.live == sent.live
    {
      SentFrame(w, list, reply, accepted);
      RecordedLive(sent, part, reply, accepted);
      forall r | forall i :: 0 <= i < |list| ==> list[i].row != r ensures RowSame(r, w, world) {
        RecordedKeeps(sent, part, reply, accepted, r);
      }
    }
  }

  lemma OneFurther(order: seq<ProductId>, k: nat)
    requires k < |order|
    ensures order[k..][0] == order[k] && order[k..][1..] == order[k + 1..] && order[..k + 1][..k] == order[..k]
  {}

  /** Whatever batches a desk has run, wherever they died and however Shopify answered: if nobody else wrote prices, no
      live sale was let go of and no write left another pair, a variant no row holds is at the pair it had before the
      first campaign. */
  lemma DeskNeverStacks(desk: Desk, first: Prices)
    requires desk.Valid() && desk.begin == Fresh(first)
    requires InsideRun(desk.trace, first) && KeepsTrack(Fresh(first), desk.trace)
    ensures forall v :: v in desk.live ==>
              (forall r :: r in desk.rows && desk.rows[r].variant == v ==> !Live(desk.rows[r].state)) ==>
                v in first && desk.live[v] == first[v]
  {
    SalesNeverStack(first, desk.trace);
  }
}
