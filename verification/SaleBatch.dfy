/** What a batch of the price writer comes to (src/adapters/sales/writer.server.ts): its verdicts, its plans by
    product, Shopify's answers, and the world it leaves. */
module SaleBatch {
  import opened Prelude
  import opened SalePricing
  import opened SaleRules
  import opened SaleMachine
  import opened SaleSafety

  /** Shopify's answer to one product's mutation: taken (holding something else for the variants named); an error, user
      or thrown, whether the mutation was taken or not; no error and no variant, nothing being taken; or lost, taken or
      not. */
  datatype Reply = Took(holds: Prices) | Erred(took: bool) | Silent | Lost(took: bool)

  datatype Planned = Planned(row: RowId, product: ProductId, variant: VariantId, kind: Kind, write: Pair, done: State,
                             fail: State)

  function AsPlan(p: Planned): Plan {
    Plan(p.kind, p.write, p.done, p.fail, Waiting)
  }

  function Planning(id: RowId, row: Row, plan: Plan): Planned {
    Planned(id, row.product, row.variant, plan.kind, plan.write, plan.done, plan.fail)
  }

  predicate Apart(list: seq<Planned>) {
    forall i, j :: 0 <= i < j < |list| ==> list[i].row != list[j].row && list[i].variant != list[j].variant
  }

  /** Shopify takes the mutation and has every variant it names. */
  predicate Accepts(reply: Reply, list: seq<Planned>, live: Prices) {
    (reply.Took? || ((reply.Erred? || reply.Lost?) && reply.took)) && forall p :: p in list ==> p.variant in live
  }

  function Holds(reply: Reply, p: Planned): Pair {
    if reply.Took? && p.variant in reply.holds then reply.holds[p.variant] else p.write
  }

  /** The outcome recorded is the success: no error, and no other pair reported. */
  predicate AsSent(reply: Reply, accepted: bool, p: Planned) {
    reply.Silent? || (accepted && !reply.Erred? && Holds(reply, p) == p.write)
  }

  function PhaseAfter(reply: Reply, accepted: bool, p: Planned): Phase {
    if reply.Silent? then Phase.Vouched else if AsSent(reply, accepted, p) then Landed else Phase.Refused
  }

  function EndState(reply: Reply, accepted: bool, p: Planned): State {
    if AsSent(reply, accepted, p) then p.done else p.fail
  }

  /** The world after a mutation, before anything of it is recorded. */
  function Sent(w: World, list: seq<Planned>, reply: Reply, accepted: bool): World {
    if list == [] then w else
    var m, p := Sent(w, list[..|list| - 1], reply, accepted), list[|list| - 1];
    m.(live := if accepted then m.live[p.variant := Holds(reply, p)] else m.live,
       plans := m.plans[p.row := AsPlan(p).(phase := PhaseAfter(reply, accepted, p))])
  }

  /** And with every outcome recorded. */
  function Recorded(w: World, list: seq<Planned>, reply: Reply, accepted: bool): World {
    if list == [] then w else
    var m, p := Recorded(w, list[..|list| - 1], reply, accepted), list[|list| - 1];
    if p.row !in m.rows then m else
    m.(rows := m.rows[p.row := m.rows[p.row].(state := EndState(reply, accepted, p))], plans := m.plans - {p.row})
  }

  lemma {:induction false} SentKeeps(w: World, list: seq<Planned>, reply: Reply, accepted: bool, p: Planned)
    requires forall i :: 0 <= i < |list| ==> list[i].row != p.row && list[i].variant != p.variant
    requires accepted ==> forall i :: 0 <= i < |list| ==> list[i].variant in w.live
    ensures var end := Sent(w, list, reply, accepted);
            && end.rows == w.rows && end.live.Keys == w.live.Keys
            && (p.row in end.plans <==> p.row in w.plans) && (p.row in w.plans ==> end.plans[p.row] == w.plans[p.row])
            && (p.variant in w.live ==> end.live[p.variant] == w.live[p.variant])
  {
    if list != [] {
      SentKeeps(w, list[..|list| - 1], reply, accepted, p);
    }
  }

  lemma {:induction false} RecordedKeeps(w: World, list: seq<Planned>, reply: Reply, accepted: bool, r: RowId)
    requires forall i :: 0 <= i < |list| ==> list[i].row != r
    ensures var end := Recorded(w, list, reply, accepted);
            && end.live == w.live && end.rows.Keys == w.rows.Keys
            && (r in w.rows ==> end.rows[r] == w.rows[r])
            && (r in end.plans <==> r in w.plans) && (r in w.plans ==> end.plans[r] == w.plans[r])
  {
    if list != [] {
      RecordedKeeps(w, list[..|list| - 1], reply, accepted, r);
    }
  }

  /** What a whole product's mutation comes to for one of its plans. */
  lemma {:induction false} SentAt(w: World, list: seq<Planned>, reply: Reply, accepted: bool, k: nat)
    requires k < |list| && Apart(list)
    requires accepted ==> forall i :: 0 <= i < |list| ==> list[i].variant in w.live
    ensures var end, p := Sent(w, list, reply, accepted), list[k];
            && p.row in end.plans
            && end.plans[p.row] == AsPlan(p).(phase := PhaseAfter(reply, accepted, p))
            && (accepted ==> p.variant in end.live && end.live[p.variant] == Holds(reply, p))
            && (!accepted ==> end.live == w.live)
            && end.rows == w.rows && end.live.Keys == w.live.Keys
  {
    var most := list[..|list| - 1];
    if k == |list| - 1 {
      SentKeeps(w, most, reply, accepted, list[k]);
      if most != [] {
        SentAt(w, most, reply, accepted, 0);
      }
    } else {
      SentAt(w, most, reply, accepted, k);
    }
  }

  lemma {:induction false} RecordedAt(w: World, list: seq<Planned>, reply: Reply, accepted: bool, k: nat)
    requires k < |list| && Apart(list) && list[k].row in w.rows
    ensures var end, p := Recorded(w, list, reply, accepted), list[k];
            && p.row !in end.plans && p.row in end.rows
            && end.rows[p.row] == w.rows[p.row].(state := EndState(reply, accepted, p))
  {
    var most := list[..|list| - 1];
    if k == |list| - 1 {
      RecordedKeeps(w, most, reply, accepted, list[k].row);
    } else {
      RecordedAt(w, most, reply, accepted, k);
    }
  }

  /** The plans of one product, in order: the lists the source's map holds. */
  function OfProduct(plans: seq<Planned>, product: ProductId): seq<Planned> {
    if plans == [] then [] else
    var rest, p := OfProduct(plans[..|plans| - 1], product), plans[|plans| - 1];
    if p.product == product then rest + [p] else rest
  }

  lemma {:induction false} OfProductMembers(plans: seq<Planned>, product: ProductId)
    ensures forall p :: p in OfProduct(plans, product) <==> p in plans && p.product == product
    ensures Apart(plans) ==> Apart(OfProduct(plans, product))
  {
    if plans != [] {
      var most := plans[..|plans| - 1];
      OfProductMembers(most, product);
      assert plans == most + [plans[|plans| - 1]];
      if Apart(plans) {
        assert forall q :: q in most ==> exists i :: 0 <= i < |most| && plans[i] == q;
      }
    }
  }

  type Groups = map<ProductId, seq<Planned>>

  predicate Distinct(order: seq<ProductId>) {
    forall i, j :: 0 <= i < j < |order| ==> order[i] != order[j]
  }

  function Total(order: seq<ProductId>, groups: Groups): nat
    requires forall p :: p in order ==> p in groups
  {
    if order == [] then 0 else Total(order[..|order| - 1], groups) + |groups[order[|order| - 1]]|
  }

  lemma {:induction false} TotalRegroup(order: seq<ProductId>, groups: Groups, p: ProductId, list: seq<Planned>)
    requires Distinct(order) && forall q :: q in order ==> q in groups
    ensures p !in order ==> Total(order, groups[p := list]) == Total(order, groups)
    ensures p in order ==> Total(order, groups[p := list]) == Total(order, groups) - |groups[p]| + |list|
  {
    if order != [] {
      TotalRegroup(order[..|order| - 1], groups, p, list);
    }
  }

  function ListOf(groups: Groups, p: ProductId): seq<Planned> {
    if p in groups then groups[p] else []
  }

  ghost predicate ByProduct(plans: seq<Planned>, groups: Groups) {
    forall p {:trigger ListOf(groups, p)} {:trigger OfProduct(plans, p)} :: OfProduct(plans, p) == ListOf(groups, p)
  }

  ghost predicate Grouped(plans: seq<Planned>, order: seq<ProductId>, groups: Groups) {
    && Distinct(order) && (forall p :: p in order <==> p in groups)
    && ByProduct(plans, groups) && Total(order, groups) == |plans|
  }

  lemma OfProductSnoc(plans: seq<Planned>, plan: Planned, p: ProductId)
    ensures OfProduct(plans + [plan], p) == OfProduct(plans, p) + if plan.product == p then [plan] else []
  {
    assert (plans + [plan])[..|plans|] == plans;
  }

  lemma ByProductSnoc(plans: seq<Planned>, groups: Groups, plan: Planned)
    requires ByProduct(plans, groups)
    ensures ByProduct(plans + [plan], groups[plan.product := ListOf(groups, plan.product) + [plan]])
  {
    var after := groups[plan.product := ListOf(groups, plan.product) + [plan]];
    forall p ensures OfProduct(plans + [plan], p) == ListOf(after, p) {
      OfProductSnoc(plans, plan, p);
      assert OfProduct(plans, p) == ListOf(groups, p);
    }
  }

  lemma GroupedSnoc(plans: seq<Planned>, order: seq<ProductId>, groups: Groups, plan: Planned)
    requires Grouped(plans, order, groups)
    ensures Grouped(plans + [plan], if plan.product in groups then order else order + [plan.product],
                    groups[plan.product := ListOf(groups, plan.product) + [plan]])
  {
    TotalRegroup(order, groups, plan.product, ListOf(groups, plan.product) + [plan]);
    ByProductSnoc(plans, groups, plan);
    assert (order + [plan.product])[..|order|] == order;
  }

  /** The answer a plan's own product gets. */
  function Answer(replies: ProductId -> Reply, p: Planned): Reply {
    replies(p.product)
  }

  predicate Taken(replies: ProductId -> Reply, plans: seq<Planned>, p: Planned, live: Prices) {
    Accepts(Answer(replies, p), OfProduct(plans, p.product), live)
  }

  /** The plan is in the world, waiting. */
  predicate ReadyOne(p: Planned, w: World) {
    p.row in w.rows && p.row in w.plans && w.plans[p.row] == AsPlan(p) && w.rows[p.row].variant == p.variant
  }

  predicate Ready(list: seq<Planned>, w: World) {
    forall i :: 0 <= i < |list| ==> ReadyOne(list[i], w)
  }

  /* What two worlds agree on, and what a plan came to between them. */

  predicate RowSame(r: RowId, w: World, w': World) {
    && (r in w.rows <==> r in w'.rows) && (r in w.rows ==> w'.rows[r] == w.rows[r])
    && (r in w.plans <==> r in w'.plans) && (r in w.plans ==> w'.plans[r] == w.plans[r])
  }

  predicate PriceSame(v: VariantId, w: World, w': World) {
    (v in w.live <==> v in w'.live) && (v in w.live ==> w'.live[v] == w.live[v])
  }

  /** Nothing but the rows and variants of these plans has moved. */
  ghost predicate OthersSame(list: seq<Planned>, w: World, w': World) {
    && w'.live.Keys == w.live.Keys && w'.rows.Keys == w.rows.Keys
    && (forall r :: (forall i :: 0 <= i < |list| ==> list[i].row != r) ==> RowSame(r, w, w'))
    && (forall v :: (forall i :: 0 <= i < |list| ==> list[i].variant != v) ==> PriceSame(v, w, w'))
  }

  /** A plan's row and price are what its product's answer says. */
  predicate Ended(p: Planned, reply: Reply, accepted: bool, w: World, w': World) {
    && p.row !in w'.plans && p.row in w'.rows && p.row in w.rows
    && w'.rows[p.row] == w.rows[p.row].(state := EndState(reply, accepted, p))
    && (p.variant in w.live && p.variant in w'.live ==>
          w'.live[p.variant] == if accepted then Holds(reply, p) else w.live[p.variant])
  }

  /** The row a product's recording has come to. */
  lemma RecordReady(w: World, list: seq<Planned>, reply: Reply, accepted: bool, k: nat)
    requires Apart(list) && Ready(list, w) && k < |list|
    requires accepted ==> forall j :: 0 <= j < |list| ==> list[j].variant in w.live
    ensures var mid, p := Recorded(Sent(w, list, reply, accepted), list[..k], reply, accepted), list[k];
            && p.row in mid.rows && p.row in mid.plans
            && mid.plans[p.row] == AsPlan(p).(phase := PhaseAfter(reply, accepted, p))
            && Recorded(Sent(w, list, reply, accepted), list[..k + 1], reply, accepted)
               == Recorded(mid, [p], reply, accepted)
  {
    assert ReadyOne(list[k], w);
    SentAt(w, list, reply, accepted, k);
    RecordedKeeps(Sent(w, list, reply, accepted), list[..k], reply, accepted, list[k].row);
    assert list[..k + 1][..k] == list[..k];
  }

  lemma ProductEnds(w: World, list: seq<Planned>, reply: Reply, accepted: bool, i: nat)
    requires Apart(list) && Ready(list, w) && i < |list|
    requires accepted ==> forall j :: 0 <= j < |list| ==> list[j].variant in w.live
    ensures Ended(list[i], reply, accepted, w, Recorded(Sent(w, list, reply, accepted), list, reply, accepted))
  {
    var sent := Sent(w, list, reply, accepted);
    assert ReadyOne(list[i], w);
    SentAt(w, list, reply, accepted, i);
    RecordedAt(sent, list, reply, accepted, i);
    RecordedLive(sent, list, reply, accepted);
  }

  /** How far a batch has come: the plans of these products are untouched, the others have ended. */
  predicate Progress(plans: seq<Planned>, replies: ProductId -> Reply, todo: seq<ProductId>, w: World, w': World) {
    forall i :: 0 <= i < |plans| ==>
      if plans[i].product in todo then RowSame(plans[i].row, w, w') && PriceSame(plans[i].variant, w, w')
      else Ended(plans[i], Answer(replies, plans[i]), Taken(replies, plans, plans[i], w.live), w, w')
  }

  /** Every plan of a product that is done was reported as sent. */
  predicate AllSent(plans: seq<Planned>, replies: ProductId -> Reply, todo: seq<ProductId>, live: Prices) {
    forall i :: 0 <= i < |plans| && plans[i].product !in todo ==>
      AsSent(Answer(replies, plans[i]), Taken(replies, plans, plans[i], live), plans[i])
  }

  predicate ListSent(list: seq<Planned>, reply: Reply, accepted: bool) {
    forall i :: 0 <= i < |list| ==> AsSent(reply, accepted, list[i])
  }

  lemma AllSentStep(plans: seq<Planned>, replies: ProductId -> Reply, todo: seq<ProductId>, live: Prices)
    requires todo != [] && todo[0] !in todo[1..]
    ensures var list := OfProduct(plans, todo[0]);
            AllSent(plans, replies, todo[1..], live)
            <==> AllSent(plans, replies, todo, live)
                 && ListSent(list, replies(todo[0]), Accepts(replies(todo[0]), list, live))
  {
    var product, list := todo[0], OfProduct(plans, todo[0]);
    OfProductMembers(plans, product);
    assert todo == [product] + todo[1..];
    if AllSent(plans, replies, todo[1..], live) {
      forall i | 0 <= i < |list| ensures AsSent(replies(product), Accepts(replies(product), list, live), list[i]) {
        assert list[i] in list;
        var j :| 0 <= j < |plans| && plans[j] == list[i];
      }
    } else {
      var i :| 0 <= i < |plans| && plans[i].product !in todo[1..]
               && !AsSent(Answer(replies, plans[i]), Taken(replies, plans, plans[i], live), plans[i]);
      if plans[i].product == product {
        assert plans[i] in list;
      }
    }
  }

  lemma ProgressStart(plans: seq<Planned>, replies: ProductId -> Reply, order: seq<ProductId>, groups: Groups, w: World)
    requires Grouped(plans, order, groups)
    ensures Progress(plans, replies, order, w, w)
  {
    forall i | 0 <= i < |plans| ensures plans[i].product in order {
      OfProductMembers(plans, plans[i].product);
      assert plans[i] in OfProduct(plans, plans[i].product);
    }
  }

  lemma ProgressStep(plans: seq<Planned>, replies: ProductId -> Reply, todo: seq<ProductId>, w: World, before: World,
                     after: World)
    requires Apart(plans) && todo != [] && todo[0] !in todo[1..]
    requires Progress(plans, replies, todo, w, before) && OthersSame(plans, w, before)
    requires var list := OfProduct(plans, todo[0]);
             && OthersSame(list, before, after)
             && forall i :: 0 <= i < |list| ==>
                 Ended(list[i], replies(todo[0]), Accepts(replies(todo[0]), list, before.live), before, after)
    ensures Progress(plans, replies, todo[1..], w, after) && OthersSame(plans, w, after)
  {
    var product, list := todo[0], OfProduct(plans, todo[0]);
    OfProductMembers(plans, product);
    forall i | 0 <= i < |plans|
      ensures if plans[i].product in todo[1..]
              then RowSame(plans[i].row, w, after) && PriceSame(plans[i].variant, w, after)
              else Ended(plans[i], Answer(replies, plans[i]), Taken(replies, plans, plans[i], w.live), w, after)
    {
      var p := plans[i];
      if p.product == product {
        assert p in list;
      } else {
        assert p.product in todo <==> p.product in todo[1..];
        assert forall j :: 0 <= j < |list| ==> list[j] in list;
        ApartFrom(plans, list, p);
        assert RowSame(p.row, before, after) && PriceSame(p.variant, before, after);
      }
    }
    OthersStep(plans, list, w, before, after);
  }

  /** The next product of a batch: its plans, all waiting. */
  lemma NextProduct(plans: seq<Planned>, replies: ProductId -> Reply, todo: seq<ProductId>, w: World, w': World)
    requires todo != [] && todo[0] !in todo[1..]
    requires Apart(plans) && Ready(plans, w) && Progress(plans, replies, todo, w, w') && OthersSame(plans, w, w')
    ensures var list := OfProduct(plans, todo[0]);
            && Apart(list) && Ready(list, w') && (forall q :: q in list ==> q in plans)
            && (AllSent(plans, replies, todo[1..], w.live)
                <==> AllSent(plans, replies, todo, w.live)
                     && ListSent(list, replies(todo[0]), Accepts(replies(todo[0]), list, w'.live)))
  {
    OfProductMembers(plans, todo[0]);
    ReadyAfter(plans, replies, todo, w, w');
    AllSentStep(plans, replies, todo, w.live);
  }

  lemma ReadyAfter(plans: seq<Planned>, replies: ProductId -> Reply, todo: seq<ProductId>, w: World, w': World)
    requires todo != [] && Ready(plans, w) && Progress(plans, replies, todo, w, w')
    ensures Ready(OfProduct(plans, todo[0]), w')
  {
    var list := OfProduct(plans, todo[0]);
    OfProductMembers(plans, todo[0]);
    forall i | 0 <= i < |list| ensures ReadyOne(list[i], w') {
      assert list[i] in list;
      var j :| 0 <= j < |plans| && plans[j] == list[i];
      assert ReadyOne(plans[j], w) && plans[j].product in todo;
    }
  }

  lemma ApartFrom(plans: seq<Planned>, list: seq<Planned>, p: Planned)
    requires Apart(plans) && p in plans && forall q :: q in list ==> q in plans && q != p
    ensures forall j :: 0 <= j < |list| ==> list[j].row != p.row && list[j].variant != p.variant
  {
    forall j | 0 <= j < |list| ensures list[j].row != p.row && list[j].variant != p.variant {
      assert list[j] in list;
    }
  }

  lemma OthersStep(plans: seq<Planned>, list: seq<Planned>, w: World, before: World, after: World)
    requires forall q :: q in list ==> q in plans
    requires OthersSame(plans, w, before) && OthersSame(list, before, after)
    ensures OthersSame(plans, w, after)
  {
    forall r | forall i :: 0 <= i < |plans| ==> plans[i].row != r ensures RowSame(r, w, after) {
      assert RowSame(r, w, before);
      forall j | 0 <= j < |list| ensures list[j].row != r {
        assert list[j] in list;
      }
      assert RowSame(r, before, after);
    }
    forall v | forall i :: 0 <= i < |plans| ==> plans[i].variant != v ensures PriceSame(v, w, after) {
      assert PriceSame(v, w, before);
      forall j | 0 <= j < |list| ensures list[j].variant != v {
        assert list[j] in list;
      }
      assert PriceSame(v, before, after);
    }
  }

  /* A batch: one verdict a row, then the planned writes. */

  /** The rows of a batch exist and are of different variants. */
  predicate Batch(ids: seq<RowId>, w: World) {
    && (forall i :: 0 <= i < |ids| ==> ids[i] in w.rows)
    && (forall i, j :: 0 <= i < j < |ids| ==> ids[i] != ids[j] && w.rows[ids[i]].variant != w.rows[ids[j]].variant)
  }

  predicate Faithful(id: RowId, v: Verdict, w: World) {
    id in w.rows && v.row.variant == w.rows[id].variant && v.row.product == w.rows[id].product
    && (v.Go? ==> v.plan.phase.Waiting?)
  }

  function PlansOf(ids: seq<RowId>, vs: seq<Verdict>): seq<Planned>
    requires |ids| == |vs|
  {
    if ids == [] then [] else
    var k := |ids| - 1;
    var rest := PlansOf(ids[..k], vs[..k]);
    match vs[k]
    case Settle(_) => rest
    case Go(row, plan) => rest + [Planning(ids[k], row, plan)]
  }

  lemma {:induction false} PlansComeFrom(ids: seq<RowId>, vs: seq<Verdict>)
    requires |ids| == |vs|
    ensures forall p :: p in PlansOf(ids, vs) ==> exists i :: 0 <= i < |ids| && FromVerdict(p, ids[i], vs[i])
    ensures forall i :: 0 <= i < |ids| && vs[i].Go? ==> Planning(ids[i], vs[i].row, vs[i].plan) in PlansOf(ids, vs)
    ensures |PlansOf(ids, vs)| == |ids| - Settled(vs)
  {
    if ids != [] {
      var k := |ids| - 1;
      PlansComeFrom(ids[..k], vs[..k]);
      var rest := PlansOf(ids[..k], vs[..k]);
      forall p | p in rest ensures exists i :: 0 <= i < |ids| && FromVerdict(p, ids[i], vs[i]) {
        var i :| 0 <= i < k && FromVerdict(p, ids[..k][i], vs[..k][i]);
        assert FromVerdict(p, ids[i], vs[i]);
      }
      if vs[k].Go? {
        assert FromVerdict(Planning(ids[k], vs[k].row, vs[k].plan), ids[k], vs[k]);
      }
    }
  }

  lemma {:induction false} PlansOfMembers(ids: seq<RowId>, vs: seq<Verdict>, w: World)
    requires |ids| == |vs| && Batch(ids, w) && forall i :: 0 <= i < |ids| ==> Faithful(ids[i], vs[i], w)
    ensures Apart(PlansOf(ids, vs))
    ensures forall p :: p in PlansOf(ids, vs) ==> exists i :: 0 <= i < |ids| && FromVerdict(p, ids[i], vs[i])
    ensures forall i :: 0 <= i < |ids| && vs[i].Go? ==> Planning(ids[i], vs[i].row, vs[i].plan) in PlansOf(ids, vs)
    ensures |PlansOf(ids, vs)| == |ids| - Settled(vs)
  {
    PlansComeFrom(ids, vs);
    if ids != [] {
      var k := |ids| - 1;
      PlansOfMembers(ids[..k], vs[..k], w);
      var rest := PlansOf(ids[..k], vs[..k]);
      if vs[k].Go? {
        forall j | 0 <= j < |rest| ensures rest[j].row != ids[k] && rest[j].variant != w.rows[ids[k]].variant {
          assert rest[j] in rest;
          var i :| 0 <= i < k && FromVerdict(rest[j], ids[..k][i], vs[..k][i]);
          assert Faithful(ids[i], vs[i], w) && ids[i] != ids[k];
        }
        assert Faithful(ids[k], vs[k], w);
      }
    }
  }

  predicate FromVerdict(p: Planned, id: RowId, v: Verdict) {
    v.Go? && p == Planning(id, v.row, v.plan)
  }

  function Settled(vs: seq<Verdict>): nat {
    if vs == [] then 0 else Settled(vs[..|vs| - 1]) + if vs[|vs| - 1].Settle? then 1 else 0
  }

  /** Every verdict of the batch recorded. */
  function Judged(w: World, ids: seq<RowId>, vs: seq<Verdict>): World
    requires |ids| == |vs|
  {
    if ids == [] then w else
    var k := |ids| - 1;
    Carry(Judged(w, ids[..k], vs[..k]), ids[k], vs[k])
  }

  lemma {:induction false} JudgedKeeps(w: World, ids: seq<RowId>, vs: seq<Verdict>, r: RowId)
    requires |ids| == |vs| && forall i :: 0 <= i < |ids| ==> ids[i] != r && ids[i] in w.rows
    ensures var end := Judged(w, ids, vs); RowSame(r, w, end) && end.live == w.live && end.rows.Keys == w.rows.Keys
  {
    if ids != [] {
      JudgedKeeps(w, ids[..|ids| - 1], vs[..|ids| - 1], r);
    }
  }

  lemma {:induction false} JudgedAt(w: World, ids: seq<RowId>, vs: seq<Verdict>, k: nat)
    requires k < |ids| == |vs| && Batch(ids, w) && ids[k] !in w.plans
    ensures var end := Judged(w, ids, vs);
            && ids[k] in end.rows && end.rows[ids[k]] == vs[k].row && end.live == w.live && end.rows.Keys == w.rows.Keys
            && (vs[k].Go? ==> ids[k] in end.plans && end.plans[ids[k]] == vs[k].plan)
            && (vs[k].Settle? ==> ids[k] !in end.plans)
  {
    var most := |ids| - 1;
    if k == most {
      JudgedKeeps(w, ids[..most], vs[..most], ids[k]);
    } else {
      JudgedAt(w, ids[..most], vs[..most], k);
    }
  }

  /** What a batch leaves: each row at its verdict, or at what Shopify answered to its write; each price
      written, or as it was; nothing else touched. */
  ghost predicate Finished(ids: seq<RowId>, vs: seq<Verdict>, replies: ProductId -> Reply, w: World, w': World)
    requires |ids| == |vs|
  {
    && w'.rows.Keys == w.rows.Keys && w'.live.Keys == w.live.Keys
    && (forall r :: r in w.rows && r !in ids ==> w'.rows[r] == w.rows[r])
    && (forall v :: v in w.live && (forall i :: 0 <= i < |ids| ==> vs[i].row.variant != v) ==> w'.live[v] == w.live[v])
    && (forall i :: 0 <= i < |ids| ==> RowFinished(ids[i], vs[i], replies, PlansOf(ids, vs), w, w'))
  }

  predicate RowFinished(id: RowId, v: Verdict, replies: ProductId -> Reply, plans: seq<Planned>, w: World, w': World) {
    match v
    case Settle(row) => id in w'.rows && w'.rows[id] == row && PriceSame(row.variant, w, w')
    case Go(row, plan) =>
      var p := Planning(id, row, plan);
      var taken := Taken(replies, plans, p, w.live);
      && id in w'.rows && w'.rows[id] == row.(state := EndState(Answer(replies, p), taken, p))
      && (row.variant in w.live && row.variant in w'.live ==>
            w'.live[row.variant] == if taken then Holds(Answer(replies, p), p) else w.live[row.variant])
  }

  predicate Worked(ids: seq<RowId>, vs: seq<Verdict>, w: World) {
    |ids| == |vs| && Batch(ids, w) && w.plans == map[] && forall i :: 0 <= i < |ids| ==> Faithful(ids[i], vs[i], w)
  }

  lemma RowFinishes(ids: seq<RowId>, vs: seq<Verdict>, replies: ProductId -> Reply, w: World, w': World, i: nat)
    requires Worked(ids, vs, w) && i < |ids|
    requires var plans, mid := PlansOf(ids, vs), Judged(w, ids, vs);
             OthersSame(plans, mid, w') && Progress(plans, replies, [], mid, w')
    ensures RowFinished(ids[i], vs[i], replies, PlansOf(ids, vs), w, w')
  {
    JudgedAt(w, ids, vs, i);
    if vs[i].Go? {
      PlansOfMembers(ids, vs, w);
      assert Planning(ids[i], vs[i].row, vs[i].plan) in PlansOf(ids, vs);
    } else {
      NotPlanned(ids, vs, w, i);
      assert RowSame(ids[i], Judged(w, ids, vs), w') && PriceSame(vs[i].row.variant, Judged(w, ids, vs), w');
    }
  }

  lemma JudgedFrame(w: World, ids: seq<RowId>, vs: seq<Verdict>)
    requires |ids| == |vs| && forall i :: 0 <= i < |ids| ==> ids[i] in w.rows
    ensures Judged(w, ids, vs).live == w.live && Judged(w, ids, vs).rows.Keys == w.rows.Keys
  {
    if ids != [] {
      JudgedFrame(w, ids[..|ids| - 1], vs[..|ids| - 1]);
    }
  }

  /** From the verdicts and the writes to what the batch leaves. */
  lemma BatchFinishes(ids: seq<RowId>, vs: seq<Verdict>, replies: ProductId -> Reply, w: World, w': World)
    requires Worked(ids, vs, w)
    requires var plans, mid := PlansOf(ids, vs), Judged(w, ids, vs);
             OthersSame(plans, mid, w') && Progress(plans, replies, [], mid, w')
    ensures Finished(ids, vs, replies, w, w')
  {
    var plans, mid := PlansOf(ids, vs), Judged(w, ids, vs);
    JudgedFrame(w, ids, vs);
    PlansOfMembers(ids, vs, w);
    forall i | 0 <= i < |ids| ensures RowFinished(ids[i], vs[i], replies, plans, w, w') {
      RowFinishes(ids, vs, replies, w, w', i);
    }
    forall r | r in w.rows && r !in ids ensures w'.rows[r] == w.rows[r] {
      JudgedKeeps(w, ids, vs, r);
      assert forall j :: 0 <= j < |plans| ==> plans[j] in plans;
      assert RowSame(r, mid, w');
    }
    forall v | v in w.live && forall i :: 0 <= i < |ids| ==> vs[i].row.variant != v ensures w'.live[v] == w.live[v] {
      assert forall j :: 0 <= j < |plans| ==> plans[j] in plans;
      assert PriceSame(v, mid, w');
    }
  }

  lemma NothingInHand(ids: seq<RowId>, vs: seq<Verdict>, replies: ProductId -> Reply, w: World, w': World)
    requires Worked(ids, vs, w)
    requires var plans, mid := PlansOf(ids, vs), Judged(w, ids, vs);
             OthersSame(plans, mid, w') && Progress(plans, replies, [], mid, w')
    ensures w'.plans == map[]
  {
    var plans, mid := PlansOf(ids, vs), Judged(w, ids, vs);
    PlansOfMembers(ids, vs, w);
    forall r ensures r !in w'.plans {
      if i :| 0 <= i < |ids| && ids[i] == r {
        JudgedAt(w, ids, vs, i);
        if vs[i].Go? {
          assert Planning(r, vs[i].row, vs[i].plan) in plans;
        } else {
          NotPlanned(ids, vs, w, i);
          assert RowSame(r, mid, w');
        }
      } else {
        JudgedKeeps(w, ids, vs, r);
        assert forall j :: 0 <= j < |plans| ==> plans[j] in plans;
        assert RowSame(r, mid, w');
      }
    }
  }

  /** The plans a batch has recorded are the ones it is about to send. */
  lemma JudgedReady(w: World, ids: seq<RowId>, vs: seq<Verdict>)
    requires Worked(ids, vs, w)
    ensures Apart(PlansOf(ids, vs)) && Ready(PlansOf(ids, vs), Judged(w, ids, vs))
  {
    var plans, mid := PlansOf(ids, vs), Judged(w, ids, vs);
    PlansOfMembers(ids, vs, w);
    forall j | 0 <= j < |plans| ensures ReadyOne(plans[j], mid) {
      assert plans[j] in plans;
      var i :| 0 <= i < |ids| && FromVerdict(plans[j], ids[i], vs[i]);
      assert Faithful(ids[i], vs[i], w);
      JudgedAt(w, ids, vs, i);
    }
  }

  lemma NotPlanned(ids: seq<RowId>, vs: seq<Verdict>, w: World, k: nat)
    requires k < |ids| == |vs| && Batch(ids, w) && vs[k].Settle?
    requires forall i :: 0 <= i < |ids| ==> Faithful(ids[i], vs[i], w)
    ensures var plans := PlansOf(ids, vs);
            forall j :: 0 <= j < |plans| ==> plans[j].row != ids[k] && plans[j].variant != vs[k].row.variant
  {
    var plans := PlansOf(ids, vs);
    PlansOfMembers(ids, vs, w);
    forall j | 0 <= j < |plans| ensures plans[j].row != ids[k] && plans[j].variant != vs[k].row.variant {
      assert plans[j] in plans;
      var i :| 0 <= i < |ids| && FromVerdict(plans[j], ids[i], vs[i]);
      assert Faithful(ids[i], vs[i], w) && Faithful(ids[k], vs[k], w);
      assert i != k;
    }
  }

  /** The verdicts of applyRows, from one read of prices and owners. */
  ghost function ApplyVerdicts(w: World, camp: Campaign, ids: seq<RowId>): (vs: seq<Verdict>)
    requires forall i :: 0 <= i < |ids| ==> ids[i] in w.rows
  {
    seq(|ids|, i requires 0 <= i < |ids| =>
      ApplyVerdict(w.rows[ids[i]], camp, Observed(w, w.rows[ids[i]].variant), Held(w, ids[i])))
  }

  ghost function RestoreVerdicts(w: World, final: State, ids: seq<RowId>): (vs: seq<Verdict>)
    requires forall i :: 0 <= i < |ids| ==> ids[i] in w.rows
  {
    seq(|ids|, i requires 0 <= i < |ids| =>
      RestoreVerdict(w.rows[ids[i]], final, Observed(w, w.rows[ids[i]].variant)))
  }

  ghost function ForcedVerdicts(w: World, ids: seq<RowId>): (vs: seq<Verdict>)
    requires forall i :: 0 <= i < |ids| ==> ids[i] in w.rows
  {
    seq(|ids|, i requires 0 <= i < |ids| => ForcedVerdict(w.rows[ids[i]]))
  }

  /** Judging the rows before one moves no other row of its variant, and no row to another variant. */
  lemma OthersNotReached(w: World, ids: seq<RowId>, vs: seq<Verdict>, k: nat, q: RowId)
    requires k < |ids| == |vs| && Batch(ids, w) && w.plans == map[] && q in w.rows
    requires (forall i :: 0 <= i < |ids| ==> Faithful(ids[i], vs[i], w))
    ensures var mid := Judged(w, ids[..k], vs[..k]);
            && q in mid.rows && mid.rows[q].variant == w.rows[q].variant
            && (w.rows[q].variant == w.rows[ids[k]].variant ==> RowSame(q, w, mid))
  {
    if i :| 0 <= i < k && ids[i] == q {
      JudgedAt(w, ids[..k], vs[..k], i);
      assert Faithful(ids[i], vs[i], w) && w.rows[ids[i]].variant != w.rows[ids[k]].variant;
    } else {
      JudgedKeeps(w, ids[..k], vs[..k], q);
    }
  }

  /** A row not reached yet is as the batch read it. */
  lemma NotReached(w: World, ids: seq<RowId>, vs: seq<Verdict>, k: nat)
    requires k < |ids| == |vs| && Batch(ids, w) && w.plans == map[]
    requires forall i :: 0 <= i < |ids| ==> Faithful(ids[i], vs[i], w)
    ensures var mid := Judged(w, ids[..k], vs[..k]);
            && RowSame(ids[k], w, mid) && mid.live == w.live && (Held(mid, ids[k]) <==> Held(w, ids[k]))
            && mid.rows.Keys == w.rows.Keys
            && Judged(w, ids[..k + 1], vs[..k + 1]) == Carry(mid, ids[k], vs[k])
    ensures PlansOf(ids[..k + 1], vs[..k + 1])
              == PlansOf(ids[..k], vs[..k]) + if vs[k].Go? then [Planning(ids[k], vs[k].row, vs[k].plan)] else []
  {
    assert ids[..k + 1][..k] == ids[..k] && vs[..k + 1][..k] == vs[..k];
    JudgedKeeps(w, ids[..k], vs[..k], ids[k]);
    HeldNotReached(w, ids, vs, k);
  }

  lemma HeldNotReached(w: World, ids: seq<RowId>, vs: seq<Verdict>, k: nat)
    requires k < |ids| == |vs| && Batch(ids, w) && w.plans == map[] && forall i :: 0 <= i < |ids| ==>
            Faithful(ids[i], vs[i], w)
    ensures var mid := Judged(w, ids[..k], vs[..k]);
            mid.rows.Keys == w.rows.Keys && (Held(mid, ids[k]) <==> Held(w, ids[k]))
  {
    JudgedKeeps(w, ids[..k], vs[..k], ids[k]);
    forall q | q in w.rows
      ensures var mid := Judged(w, ids[..k], vs[..k]);
              && q in mid.rows && mid.rows[q].variant == w.rows[q].variant
              && (w.rows[q].variant == w.rows[ids[k]].variant ==> RowSame(q, w, mid))
    {
      OthersNotReached(w, ids, vs, k, q);
    }
  }

  /** A pending row and the row holding its variant, each as listed, with the holder's campaign. */
  datatype Contest = Contest(row: RowId, holder: RowId, camp: Campaign)

  /** Whether the challenger's strategy gives it the variant. */
  predicate Wins(camp: Campaign, holder: Row, theirs: Campaign) {
    var ours := if holder.original.Some? then Some(camp.Decide(holder.original.value)) else None;
    var ourBp := if ours.Some? && ours.value.Apply?
        then EffectiveDiscountBp(ours.value.base, ours.value.sale.price) else 0;
    var theirBp := if holder.base.Some? && holder.sale.Some?
        then EffectiveDiscountBp(holder.base.value, holder.sale.value.price) else 0;
    ResolveConflict(camp.strategy, Contender(camp.priority, camp.createdAt, ourBp),
                    Contender(theirs.priority, theirs.createdAt, theirBp)).Challenger?
  }

  /** A reduction, in hundredths of a per cent of the base it is taken off. */
  predicate Reduces(base: int, sale: int, bp: int) {
    if base <= 0 then bp == 0 else Nearest((base - sale) * 10_000, base, bp)
  }

  /** What the challenger would take off the holder's original: nothing if there is none, or its sale over that, at this
      price, is not worth writing. */
  predicate WouldReduce(camp: Campaign, original: Option<Pair>, price: int, bp: int) {
    if original.Some? && WorthWriting(original.value, camp.policy, price)
    then Reduces(DiscountedPrice(original.value, camp.policy), price, bp) else bp == 0
  }

  predicate HasReduced(holder: Row, bp: int) {
    if holder.base.Some? && holder.sale.Some? then Reduces(holder.base.value, holder.sale.value.price, bp) else bp == 0
  }

  /** The challenger takes the variant exactly by the larger priority or reduction, or by being the newer, as its
      strategy has it. */
  lemma WinsExactly(camp: Campaign, holder: Row, theirs: Campaign, price: int, ours: int, held: int)
    requires holder.original.Some? ==>
               Strikes(DiscountedPrice(holder.original.value, camp.policy), camp.discount, camp.rounding, price)
    requires WouldReduce(camp, holder.original, price, ours) && HasReduced(holder, held)
    ensures Wins(camp, holder, theirs) <==>
            match camp.strategy
            case Prevent => false
            case Priority => camp.priority > theirs.priority
            case LargestDiscount => ours > held
            case Newest => camp.createdAt > theirs.createdAt
  {
    if holder.original.Some? {
      var live := holder.original.value;
      DecidesExactly(live, camp.policy, camp.discount, camp.rounding, price);
      DiscountsExactly(DiscountedPrice(live, camp.policy), price, ours);
    }
    if holder.base.Some? && holder.sale.Some? {
      DiscountsExactly(holder.base.value, holder.sale.value.price, held);
    }
  }

  /** The challenger wins, and its holder is settled enough to be taken over. */
  predicate TakesOver(camp: Campaign, c: Contest, w: World)
    requires c.holder in w.rows
  {
    Wins(camp, w.rows[c.holder], c.camp) && w.rows[c.holder].state.Applied?
  }

  function HolderVerdict(c: Contest, w: World): Verdict
    requires c.holder in w.rows
  {
    RestoreVerdict(w.rows[c.holder], Released, Observed(w, w.rows[c.holder].variant))
  }

  /** The holder has been taken over and has let go of the variant. */
  predicate Freed(camp: Campaign, c: Contest, w: World, w': World)
    requires c.holder in w.rows && c.holder in w'.rows
  {
    TakesOver(camp, c, w) && w'.rows[c.holder].state.Released?
  }

  /** What becomes of one contest: a holder to be taken over is put back as a restore would, any other is left alone;
      and the challenger goes on waiting to claim the variant exactly when its holder has let go of it, else it is
      skipped. */
  predicate Resolved(camp: Campaign, c: Contest, replies: ProductId -> Reply, w: World, w': World) {
    && c.row in w'.rows && c.holder in w'.rows && c.row in w.rows && c.holder in w.rows
    && (if TakesOver(camp, c, w)
        then RowFinished(c.holder, HolderVerdict(c, w), replies, PlansOf([c.holder], [HolderVerdict(c, w)]), w, w')
        else w'.rows[c.holder] == w.rows[c.holder])
    && w'.rows[c.row] == if Freed(camp, c, w, w') then w.rows[c.row] else w.rows[c.row].(state := Skipped)
  }

  /** How many of the challengers may go on waiting. */
  function FreedCount(camp: Campaign, held: seq<Contest>, w: World, w': World): nat
    requires forall c :: c in held ==> c.holder in w.rows && c.holder in w'.rows
  {
    if held == [] then 0
    else
      var last := held[|held| - 1];
      FreedCount(camp, held[..|held| - 1], w, w') + if Freed(camp, last, w, w') then 1 else 0
  }

  predicate ContestedOne(c: Contest, w: World) {
    && c.row in w.rows && w.rows[c.row].state.Pending?
    && c.holder in w.rows && !w.rows[c.holder].state.Pending?
  }

  /** Pending rows, each with the one row holding its variant. */
  ghost predicate Contested(held: seq<Contest>, w: World) {
    && (forall i :: 0 <= i < |held| ==> ContestedOne(held[i], w))
    && (forall i, j :: 0 <= i < j < |held| ==>
          && held[i].row != held[j].row && held[i].holder != held[j].holder
          && w.rows[held[i].holder].variant != w.rows[held[j].holder].variant)
  }

  /** Nothing of a contest has moved. */
  predicate ContestSame(c: Contest, w: World, w': World) {
    && c.row in w.rows && c.holder in w.rows && c.row in w'.rows && c.holder in w'.rows
    && w'.rows[c.row] == w.rows[c.row] && w'.rows[c.holder] == w.rows[c.holder]
    && PriceSame(w.rows[c.holder].variant, w, w')
  }

  lemma FinishedBetween(id: RowId, v: Verdict, replies: ProductId -> Reply, w: World, a: World, b: World, w': World)
    requires RowFinished(id, v, replies, PlansOf([id], [v]), a, b)
    requires id in w'.rows && w'.rows[id] == b.rows[id]
    requires PriceSame(v.row.variant, w, a) && PriceSame(v.row.variant, b, w')
    ensures RowFinished(id, v, replies, PlansOf([id], [v]), w, w')
  {
    if v.Go? {
      var plans := PlansOf([id], [v]);
      PlansOfOne(id, v);
      assert OfProduct(plans, plans[0].product) == plans;
    }
  }

  /** A contest resolved from where it was, before or after anything else moved. */
  lemma ResolvedBetween(camp: Campaign, c: Contest, replies: ProductId -> Reply, w: World, a: World, b: World,
                        w': World)
    requires Resolved(camp, c, replies, a, b) && ContestSame(c, w, a) && ContestSame(c, b, w')
    ensures Resolved(camp, c, replies, w, w') && (Freed(camp, c, w, w') <==> Freed(camp, c, a, b))
  {
    var v := HolderVerdict(c, w);
    assert HolderVerdict(c, a) == v && v.row.variant == w.rows[c.holder].variant;
    assert b.rows[c.holder].variant == w.rows[c.holder].variant;
    if TakesOver(camp, c, w) {
      FinishedBetween(c.holder, v, replies, w, a, b, w');
    }
  }

  /** One contest more of a list: the ones before stay resolved, the ones after stay as they were. */
  lemma OneResolved(camp: Campaign, held: seq<Contest>, replies: ProductId -> Reply, w: World, a: World, b: World,
                    k: nat)
    requires k < |held| && Contested(held, w) && a.rows.Keys == w.rows.Keys == b.rows.Keys && a.live.Keys == b.live.Keys
    requires forall i :: 0 <= i < k ==> Resolved(camp, held[i], replies, w, a)
    requires forall i :: k <= i < |held| ==> ContestSame(held[i], w, a)
    requires Resolved(camp, held[k], replies, a, b)
    requires forall r :: r in b.rows && r != held[k].row && r != held[k].holder ==> b.rows[r] == a.rows[r]
    requires forall v :: v in b.live && v != a.rows[held[k].holder].variant ==> b.live[v] == a.live[v]
    ensures forall i :: 0 <= i <= k ==> Resolved(camp, held[i], replies, w, b)
    ensures forall i :: k < i < |held| ==> ContestSame(held[i], w, b)
    ensures FreedCount(camp, held[..k + 1], w, b)
            == FreedCount(camp, held[..k], w, a) + if Freed(camp, held[k], a, b) then 1 else 0
  {
    forall i | 0 <= i < |held| && i != k ensures ContestSame(held[i], a, b) {
      OtherContest(camp, held, replies, w, a, b, k, i);
    }
    forall i | 0 <= i < k ensures Resolved(camp, held[i], replies, w, b) {
      ResolvedBetween(camp, held[i], replies, w, w, a, b);
    }
    ResolvedBetween(camp, held[k], replies, w, a, b, b);
    assert held[..k + 1][..k] == held[..k];
    SameFreed(camp, held[..k], w, a, b);
  }

  /** Another contest of the list has not moved. */
  lemma OtherContest(camp: Campaign, held: seq<Contest>, replies: ProductId -> Reply, w: World, a: World, b: World,
                     k: nat, i: nat)
    requires k < |held| && i < |held| && i != k && Contested(held, w)
    requires a.rows.Keys == w.rows.Keys == b.rows.Keys && a.live.Keys == b.live.Keys && ContestSame(held[k], w, a)
    requires if i < k then Resolved(camp, held[i], replies, w, a) else ContestSame(held[i], w, a)
    requires forall r :: r in b.rows && r != held[k].row && r != held[k].holder ==> b.rows[r] == a.rows[r]
    requires forall v :: v in b.live && v != a.rows[held[k].holder].variant ==> b.live[v] == a.live[v]
    ensures ContestSame(held[i], a, b)
  {
    assert ContestedOne(held[i], w) && ContestedOne(held[k], w);
    assert a.rows[held[i].holder].variant == w.rows[held[i].holder].variant;
  }

  lemma {:induction false} SameFreed(camp: Campaign, held: seq<Contest>, w: World, a: World, b: World)
    requires forall c :: c in held ==> c.holder in w.rows && c.holder in a.rows && c.holder in b.rows
    requires forall c :: c in held ==> a.rows[c.holder] == b.rows[c.holder]
    ensures FreedCount(camp, held, w, a) == FreedCount(camp, held, w, b)
  {
    if held != [] {
      assert held[|held| - 1] in held;
      SameFreed(camp, held[..|held| - 1], w, a, b);
    }
  }

  lemma PlansOfOne(id: RowId, v: Verdict)
    ensures PlansOf([id], [v]) == if v.Go? then [Planning(id, v.row, v.plan)] else []
  {
    assert [id][..0] == [] && [v][..0] == [];
    assert PlansOf([], []) == [];
  }

  /** One plan whose row ended at its success was sent. */
  lemma DoneMeansSent(id: RowId, v: Verdict, replies: ProductId -> Reply, w: World, w': World)
    requires RowFinished(id, v, replies, PlansOf([id], [v]), w, w')
    requires v.Go? ==> w'.rows[id].state == v.plan.done != v.plan.fail
    ensures AllSent(PlansOf([id], [v]), replies, [], w.live)
  {
    PlansOfOne(id, v);
  }

  /** A holder's restore that is reported as sent is one that releases it. */
  lemma FreeMeansReleased(c: Contest, replies: ProductId -> Reply, w: World, w': World)
    requires c.holder in w.rows
    requires RowFinished(c.holder, HolderVerdict(c, w), replies, PlansOf([c.holder], [HolderVerdict(c, w)]), w, w')
    requires w'.rows[c.holder].state.Released?
    ensures AllSent(PlansOf([c.holder], [HolderVerdict(c, w)]), replies, [], w.live)
  {
    VerdictEnds(w.rows[c.holder], Observed(w, w.rows[c.holder].variant));
    DoneMeansSent(c.holder, HolderVerdict(c, w), replies, w, w');
  }

  lemma VerdictEnds(row: Row, observed: Option<Pair>)
    ensures var v := RestoreVerdict(row, Released, observed);
            v.Go? ==> v.plan.done == Released && v.plan.fail == RestoreFailed
  {}

  /** The step takes the row to its verdict. */
  ghost predicate Carries(w: World, s: Step, r: RowId, v: Verdict)
    requires r in w.rows
  {
    Enabled(w, s) && Next(w, s) == Carry(w, r, v)
  }

  lemma ApplyCarries(w: World, r: RowId, camp: Campaign)
    requires In(w, r, Applying) && camp.id == w.rows[r].campaign
    ensures Carries(w, DecideApply(r, camp), r,
                    ApplyVerdict(w.rows[r], camp, Observed(w, w.rows[r].variant), Held(w, r)))
  {}

  lemma RestoreCarries(w: World, r: RowId, final: State)
    requires final.Restored? || final.Released?
    requires In(w, r, Restoring) || (In(w, r, Applied) && final.Released?)
    ensures Carries(w, DecideRestore(r, final), r, RestoreVerdict(w.rows[r], final, Observed(w, w.rows[r].variant)))
  {}

  lemma ForcedCarries(w: World, r: RowId)
    requires In(w, r, Review)
    ensures Carries(w, DecideForced(r), r, ForcedVerdict(w.rows[r]))
  {}

  lemma ApplyIsFaithful(w: World, r: RowId, camp: Campaign, observed: Option<Pair>, held: bool)
    requires r in w.rows
    ensures Faithful(r, ApplyVerdict(w.rows[r], camp, observed, held), w)
  {}

  lemma RestoreIsFaithful(w: World, r: RowId, final: State, observed: Option<Pair>)
    requires r in w.rows
    ensures Faithful(r, RestoreVerdict(w.rows[r], final, observed), w)
  {}

  lemma ForcedIsFaithful(w: World, r: RowId)
    requires r in w.rows
    ensures Faithful(r, ForcedVerdict(w.rows[r]), w)
  {}

  /** What each loop knows of the row it has come to. */
  lemma ApplyReached(w: World, camp: Campaign, ids: seq<RowId>, vs: seq<Verdict>, k: nat)
    requires k < |ids| && Batch(ids, w) && w.plans == map[] && vs == ApplyVerdicts(w, camp, ids)
    requires forall i :: 0 <= i < |ids| ==> w.rows[ids[i]].state.Applying? && w.rows[ids[i]].campaign == camp.id
    ensures var mid, r := Judged(w, ids[..k], vs[..k]), ids[k];
            && r in mid.rows && mid.rows[r] == w.rows[r] && mid.live == w.live
                && vs[k] == ApplyVerdict(w.rows[r], camp, Observed(w, w.rows[r].variant), HeldIn(w.rows, r))
            && Carries(mid, DecideApply(r, camp), r, vs[k])
            && Judged(w, ids[..k + 1], vs[..k + 1]) == Carry(mid, r, vs[k])
    ensures PlansOf(ids[..k + 1], vs[..k + 1])
              == PlansOf(ids[..k], vs[..k]) + if vs[k].Go? then [Planning(ids[k], vs[k].row, vs[k].plan)] else []
  {
    forall i | 0 <= i < |ids| ensures Faithful(ids[i], vs[i], w) {
      ApplyIsFaithful(w, ids[i], camp, Observed(w, w.rows[ids[i]].variant), Held(w, ids[i]));
    }
    NotReached(w, ids, vs, k);
    ApplyCarries(Judged(w, ids[..k], vs[..k]), ids[k], camp);
  }

  lemma RestoreReached(w: World, final: State, ids: seq<RowId>, vs: seq<Verdict>, k: nat)
    requires k < |ids| && Batch(ids, w) && w.plans == map[] && vs == RestoreVerdicts(w, final, ids)
    requires final.Restored? || final.Released?
    requires forall i :: 0 <= i < |ids| ==>
               w.rows[ids[i]].state.Restoring? || (w.rows[ids[i]].state.Applied? && final.Released?)
    ensures var mid, r := Judged(w, ids[..k], vs[..k]), ids[k];
            && r in mid.rows && mid.rows[r] == w.rows[r] && mid.live == w.live
                && vs[k] == RestoreVerdict(w.rows[r], final, Observed(w, w.rows[r].variant))
            && Carries(mid, DecideRestore(r, final), r, vs[k])
            && Judged(w, ids[..k + 1], vs[..k + 1]) == Carry(mid, r, vs[k])
    ensures PlansOf(ids[..k + 1], vs[..k + 1])
              == PlansOf(ids[..k], vs[..k]) + if vs[k].Go? then [Planning(ids[k], vs[k].row, vs[k].plan)] else []
  {
    forall i | 0 <= i < |ids| ensures Faithful(ids[i], vs[i], w) {
      RestoreIsFaithful(w, ids[i], final, Observed(w, w.rows[ids[i]].variant));
    }
    NotReached(w, ids, vs, k);
    RestoreCarries(Judged(w, ids[..k], vs[..k]), ids[k], final);
  }

  lemma ForcedReached(w: World, ids: seq<RowId>, vs: seq<Verdict>, k: nat)
    requires k < |ids| && Batch(ids, w) && w.plans == map[] && vs == ForcedVerdicts(w, ids)
    requires forall i :: 0 <= i < |ids| ==> w.rows[ids[i]].state.Review?
    ensures var mid, r := Judged(w, ids[..k], vs[..k]), ids[k];
            && r in mid.rows && mid.rows[r] == w.rows[r] && mid.live == w.live && vs[k] == ForcedVerdict(w.rows[r])
            && Carries(mid, DecideForced(r), r, vs[k])
            && Judged(w, ids[..k + 1], vs[..k + 1]) == Carry(mid, r, vs[k])
    ensures PlansOf(ids[..k + 1], vs[..k + 1])
              == PlansOf(ids[..k], vs[..k]) + if vs[k].Go? then [Planning(ids[k], vs[k].row, vs[k].plan)] else []
  {
    forall i | 0 <= i < |ids| ensures Faithful(ids[i], vs[i], w) {
      ForcedIsFaithful(w, ids[i]);
    }
    NotReached(w, ids, vs, k);
    ForcedCarries(Judged(w, ids[..k], vs[..k]), ids[k]);
  }

  lemma {:induction false} SentFrame(w: World, list: seq<Planned>, reply: Reply, accepted: bool)
    requires accepted ==> forall i :: 0 <= i < |list| ==> list[i].variant in w.live
    ensures var end := Sent(w, list, reply, accepted);
            && end.rows == w.rows && end.live.Keys == w.live.Keys
            && (forall r :: (forall i :: 0 <= i < |list| ==> list[i].row != r) ==>
                 (r in end.plans <==> r in w.plans) && (r in w.plans ==> end.plans[r] == w.plans[r]))
            && (forall v :: v in w.live && (forall i :: 0 <= i < |list| ==> list[i].variant != v) ==>
                end.live[v] == w.live[v])
  {
    if list != [] {
      SentFrame(w, list[..|list| - 1], reply, accepted);
    }
  }

  lemma {:induction false} RecordedLive(w: World, list: seq<Planned>, reply: Reply, accepted: bool)
    ensures Recorded(w, list, reply, accepted).live == w.live
    ensures Recorded(w, list, reply, accepted).rows.Keys == w.rows.Keys
  {
    if list != [] {
      RecordedLive(w, list[..|list| - 1], reply, accepted);
    }
  }
}
