/** Prices other people write: they stay live until somebody asks for them to go, and a row settled as put back was
    put back. Edits may come at any moment outside a read and its write. */
module SaleOutside {
  import opened Prelude
  import opened SalePricing
  import opened SaleMachine
  import opened SaleSafety

  /** A waiting plan rests on what its batch read: the row's own pair, not somebody else's. */
  predicate RestsOn(row: Row, plan: Plan, live: Prices) {
    && Live(row.state) && row.original.Some?
    && (plan.kind.ToSale? || plan.kind.ByPolicy? ==> row.state.Applying? && row.sale == Some(plan.write))
    && (plan.kind.ToOriginal? ==> row.HasSnapshot())
    && (plan.kind.ToOriginal? || plan.kind.Forced? ==> row.original == Some(plan.write))
    && (plan.kind.ToSale? || plan.kind.ByPolicy? ==> plan.done.Applied? && plan.fail.Failed?)
    && (plan.kind.ToOriginal? || plan.kind.Forced? ==> !Live(plan.done) && plan.fail.RestoreFailed?)
    && (plan.phase.Waiting? && row.variant in live ==>
      && (plan.kind.ToSale? ==> live[row.variant] == row.original.value)
      && (plan.kind.ToOriginal? ==> live[row.variant] == row.sale.value))
  }

  ghost predicate Answered(w: World) {
    && OneOwner(w)
    && forall r :: r in w.plans ==> r in w.rows && RestsOn(w.rows[r], w.plans[r], w.live)
  }

  lemma RecordKeepsAnswered(w: World, r: RowId, row: Row, plan: Option<Plan>, w': World)
    requires Answered(w)
    requires w'.live == w.live && w'.rows == w.rows[r := row]
    requires w'.plans == if plan.Some? then w.plans[r := plan.value] else w.plans - {r}
    requires plan.Some? ==> RestsOn(row, plan.value, w.live)
    requires r in w.rows ==> row.variant == w.rows[r].variant
    requires Live(row.state) ==> r in w.rows && (Live(w.rows[r].state) || !Held(w, r))
    ensures Answered(w')
  {
    forall a, b | SameOwned(w', a, b) ensures a == b {
      if (a != r && b != r) || Live(w.rows[r].state) {
        assert SameOwned(w, a, b);
      }
    }
  }

  lemma PriceKeepsAnswered(w: World, w': World)
    requires Answered(w) && w'.rows == w.rows && w'.plans.Keys <= w.plans.Keys
    requires forall r :: r in w'.plans ==> RestsOn(w.rows[r], w'.plans[r], w'.live)
    ensures Answered(w')
  {
    forall a, b | SameOwned(w', a, b) ensures a == b {
      assert SameOwned(w, a, b);
    }
  }

  lemma WriteKeepsAnswered(w: World, s: Step)
    requires Answered(w) && (s.Write? || s.Alter?) && Enabled(w, s)
    ensures Answered(Next(w, s))
  {
    var w' := Next(w, s);
    forall q | q in w'.plans ensures RestsOn(w.rows[q], w'.plans[q], w'.live) {
      if q != s.row && w.rows[q].variant == w.rows[s.row].variant {
        assert SameOwned(w, q, s.row);
      }
    }
    PriceKeepsAnswered(w, w');
  }

  lemma VerdictKeepsAnswered(w: World, s: Step)
    requires Answered(w) && Enabled(w, s)
    requires s.DecideApply? || s.DecideRestore? || s.DecideForced? || s.OutsideChange?
    ensures Answered(Next(w, s))
  {
    var w' := Next(w, s);
    var plan := if s.row in w'.plans then Some(w'.plans[s.row]) else None;
    RecordKeepsAnswered(w, s.row, w'.rows[s.row], plan, w');
  }

  lemma RowKeepsAnswered(w: World, s: Step)
    requires Answered(w) && Enabled(w, s) && (s.Record? || s.Shift? || s.Stage? || s.ReleaseMissing?)
    ensures Answered(Next(w, s))
  {
    var w' := Next(w, s);
    assert s.row !in w.plans ==> w.plans - {s.row} == w.plans;
    RecordKeepsAnswered(w, s.row, w'.rows[s.row], None, w');
  }

  lemma StepKeepsAnswered(w: World, s: Step)
    requires Answered(w) && Enabled(w, s)
    ensures Answered(Next(w, s))
  {
    match s
    case Write(_) => WriteKeepsAnswered(w, s);
    case Alter(_, _) => WriteKeepsAnswered(w, s);
    case DecideApply(_, _) => VerdictKeepsAnswered(w, s);
    case DecideRestore(_, _) => VerdictKeepsAnswered(w, s);
    case DecideForced(_) => VerdictKeepsAnswered(w, s);
    case OutsideChange(_, _) => VerdictKeepsAnswered(w, s);
    case Record(_) => RowKeepsAnswered(w, s);
    case Shift(_, _) => RowKeepsAnswered(w, s);
    case Stage(_, _, _, _) => RowKeepsAnswered(w, s);
    case ReleaseMissing(_) => RowKeepsAnswered(w, s);
    case Refuse(_) => PriceKeepsAnswered(w, Next(w, s));
    case Overlook(_) => PriceKeepsAnswered(w, Next(w, s));
    case Crash(_) => PriceKeepsAnswered(w, Next(w, s));
    case Edit(_, _) => PriceKeepsAnswered(w, Next(w, s));
    case Delete(_) => PriceKeepsAnswered(w, Next(w, s));
  }

  /** Row r holds variant v, and v is at pair p: neither the sale nor the original it recorded. */
  predicate Outside(w: World, r: RowId, v: VariantId, p: Pair) {
    && r in w.rows && Live(w.rows[r].state) && w.rows[r].HasSnapshot() && w.rows[r].variant == v
    && v in w.live && w.live[v] == p
    && p != w.rows[r].original.value && p != w.rows[r].sale.value
  }

  /** Somebody moves the price on purpose: another edit, a deletion, a forced restore, the base-price policy. */
  predicate Asked(w: World, s: Step, r: RowId, v: VariantId) {
    || (s.Edit? && s.variant == v) || (s.Delete? && s.variant == v)
    || ((s.Write? || s.Alter?) && s.row == r && r in w.plans && (w.plans[r].kind.Forced? || w.plans[r].kind.ByPolicy?))
  }

  /** Such a price stays live through any other step; an apply, a retry or a restore that meets it only sends the row
      to a person. */
  lemma StepKeepsOutsidePrice(w: World, s: Step, r: RowId, v: VariantId, p: Pair)
    requires Answered(w) && Enabled(w, s) && Outside(w, r, v, p) && !Asked(w, s, r, v)
    ensures v in Next(w, s).live && Next(w, s).live[v] == p
    ensures (s.DecideApply? || s.DecideRestore?) && s.row == r ==> Next(w, s) == SetState(w, r, Review)
  {
    if (s.Write? || s.Alter?) && w.rows[s.row].variant == v {
      assert SameOwned(w, s.row, r);
    }
  }

  /** No step asks for the price to move, and the row keeps holding the variant by the same snapshot. */
  ghost predicate LeftAlone(w: World, steps: seq<Step>, r: RowId, v: VariantId, held: Row)
    requires Legal(w, steps)
    decreases |steps|
  {
    && r in w.rows && Live(w.rows[r].state)
    && w.rows[r] == held.(state := w.rows[r].state, base := w.rows[r].base)
    && (steps != [] ==> !Asked(w, steps[0], r, v) && LeftAlone(Next(w, steps[0]), steps[1..], r, v, held))
  }

  lemma {:induction false} OutsidePriceSurvives(w: World, steps: seq<Step>, r: RowId, v: VariantId, p: Pair)
    requires Answered(w) && Legal(w, steps) && Outside(w, r, v, p) && LeftAlone(w, steps, r, v, w.rows[r])
    ensures v in Run(w, steps).live && Run(w, steps).live[v] == p
    decreases |steps|
  {
    if steps != [] {
      StepKeepsAnswered(w, steps[0]);
      StepKeepsOutsidePrice(w, steps[0], r, v, p);
      var next := Next(w, steps[0]);
      assert LeftAlone(next, steps[1..], r, v, next.rows[r]) by {
        SameHold(next, steps[1..], r, v, w.rows[r], next.rows[r]);
      }
      OutsidePriceSurvives(next, steps[1..], r, v, p);
    }
  }

  lemma {:induction false} SameHold(w: World, steps: seq<Step>, r: RowId, v: VariantId, a: Row, b: Row)
    requires Legal(w, steps) && LeftAlone(w, steps, r, v, a) && b == a.(state := b.state, base := b.base)
    ensures LeftAlone(w, steps, r, v, b)
    decreases |steps|
  {
    if steps != [] {
      SameHold(Next(w, steps[0]), steps[1..], r, v, a, b);
    }
  }

  /* Settled over its own original. */

  /** A plan of a row that puts its variant back, and is answered as done: written, or vouched for. */
  predicate PuttingBack(w: World, r: RowId) {
    && r in w.plans && r in w.rows && Reported(w.plans[r])
    && (w.plans[r].kind.ToOriginal? || w.plans[r].kind.Forced?)
  }

  predicate Reported(plan: Plan) {
    plan.phase.Landed? || plan.phase.Vouched?
  }

  /** Shopify's answer by which a row's plan is done. */
  predicate Answers(s: Step, r: RowId) {
    s == Write(r) || s == Overlook(r)
  }

  /** The row leaves its campaign as put back: by the record of such a plan, or by a restore that finds the original
      live already. */
  predicate PutsBack(w: World, s: Step, r: RowId) {
    && s in {Record(r), DecideRestore(r, Restored), DecideRestore(r, Released)}
    && (s.Record? ==> PuttingBack(w, r))
    && r in w.rows && w.rows[r].HasSnapshot() && w.rows[r].variant in w.live
  }

  /** What others have made of the variant since the row's plan was answered: nothing, or the last pair they set. */
  function EditedSince(steps: seq<Step>, r: RowId, v: VariantId): Option<Pair> {
    if steps == [] then None
    else
      var last, before := steps[|steps| - 1], steps[..|steps| - 1];
      if Answers(last, r) then None
      else if last.Edit? && last.variant == v then Some(last.pair)
      else EditedSince(before, r, v)
  }

  predicate Stays(w: World, next: World, s: Step, r: RowId) {
    && r in w.plans && r in next.plans && w.plans[r] == next.plans[r]
    && r in w.rows && r in next.rows && next.rows[r] == w.rows[r]
    && var v := w.rows[r].variant;
    v in next.live ==> v in w.live && next.live[v] == if s.Edit? && s.variant == v then s.pair else w.live[v]
  }

  /** An answered plan stays as it is, and the price with it until somebody edits it: no other row's write reaches the
      variant. */
  lemma AnswerStays(w: World, s: Step, r: RowId)
    requires Answered(w) && Enabled(w, s) && !Answers(s, r)
    requires r in Next(w, s).plans && Reported(Next(w, s).plans[r])
    ensures Stays(w, Next(w, s), s, r)
  {
    if (s.Write? || s.Alter?) && w.rows[s.row].variant == w.rows[r].variant {
      OneWriter(w, s.row, r);
    }
  }

  lemma OneWriter(w: World, q: RowId, r: RowId)
    requires Answered(w) && q in w.plans && r in w.plans
    requires q in w.rows && r in w.rows && w.rows[q].variant == w.rows[r].variant
    ensures q == r
  {
    assert SameOwned(w, q, r);
  }

  lemma {:induction false} RunKeepsAnswered(w: World, steps: seq<Step>)
    requires Answered(w) && Legal(w, steps)
    ensures Answered(Run(w, steps))
    decreases |steps|
  {
    if steps != [] {
      StepKeepsAnswered(w, steps[0]);
      RunKeepsAnswered(Next(w, steps[0]), steps[1..]);
    }
  }

  /** From the answer to the end: the row and its plan are the same, a landed write was live, and the price is what it
      was, or what somebody last set. */
  predicate Since(answer: World, end: World, r: RowId, edited: Option<Pair>) {
    && r in end.plans && r in end.rows && r in answer.plans && r in answer.rows
    && answer.plans[r] == end.plans[r] && answer.rows[r] == end.rows[r]
    && var v := end.rows[r].variant;
    && (end.plans[r].phase.Landed? ==> v in answer.live && answer.live[v] == end.plans[r].write)
    && (v in end.live ==> v in answer.live && end.live[v] == if edited.Some? then edited.value else answer.live[v])
  }

  lemma AnswerIsNow(w: World, s: Step, r: RowId)
    requires Answered(w) && Enabled(w, s) && Answers(s, r)
    ensures Since(Next(w, s), Next(w, s), r, None) && Next(w, s).plans[r].phase == if s.Write? then Landed else Vouched
  {}

  lemma SinceGoesOn(answer: World, w: World, next: World, s: Step, r: RowId, edited: Option<Pair>)
    requires Stays(w, next, s, r) && Since(answer, w, r, edited)
    ensures Since(answer, next, r, if s.Edit? && s.variant == w.rows[r].variant then Some(s.pair) else edited)
  {}

  /** When a row's plan was answered, and what its variant is at since. */
  lemma {:induction false} AnsweredAt(w: World, steps: seq<Step>, r: RowId) returns (k: nat)
    requires Answered(w) && Legal(w, steps) && r !in w.plans
    requires r in Run(w, steps).plans && r in Run(w, steps).rows && Reported(Run(w, steps).plans[r])
    ensures 0 < k <= |steps| && Legal(w, steps[..k])
    ensures steps[k - 1] == if Run(w, steps).plans[r].phase.Landed? then Write(r) else Overlook(r)
    ensures Since(Run(w, steps[..k]), Run(w, steps), r, EditedSince(steps, r, Run(w, steps).rows[r].variant))
    decreases |steps|
  {
    if steps == [] {
      assert false;
    }
    var n := |steps| - 1;
    RunUnsnoc(w, steps);
    var before := Run(w, steps[..n]);
    RunKeepsAnswered(w, steps[..n]);
    if Answers(steps[n], r) {
      k := |steps|;
      assert steps[..k] == steps;
      AnswerIsNow(before, steps[n], r);
    } else {
      AnswerStays(before, steps[n], r);
      k := AnsweredAt(w, steps[..n], r);
      assert steps[..n][..k] == steps[..k];
      SinceGoesOn(Run(w, steps[..k]), before, Run(w, steps), steps[n], r,
        EditedSince(steps[..n], r, before.rows[r].variant));
    }
  }

  /** In every run, edits by others between an answer and its record included, a row settled as put back had its
      original live when the batch saw it there, or when its write landed; an answer that only vouched wrote nothing.
      The original is live at the moment the row is settled exactly when the last pair anybody set since the answer is
      the original, or nobody set any and it was live then. */
  lemma SettledOverItsOriginal(w: World, steps: seq<Step>, s: Step, r: RowId) returns (k: nat)
    requires Answered(w) && Legal(w, steps) && r !in w.plans
    requires Enabled(Run(w, steps), s) && PutsBack(Run(w, steps), s, r) && !Live(Next(Run(w, steps), s).rows[r].state)
    ensures k <= |steps| && Legal(w, steps[..k])
    ensures if s.Record? then k > 0 && Answers(steps[k - 1], r) else k == |steps|
    ensures var seen, row := Run(w, steps[..k]), Run(w, steps).rows[r];
            && row.variant in seen.live
            && ((s.Record? && steps[k - 1] == Overlook(r)) || seen.live[row.variant] == row.original.value)
    ensures var seen, end := Run(w, steps[..k]), Run(w, steps);
            var row := end.rows[r];
            var edited := if s.Record? then EditedSince(steps, r, row.variant) else None;
            end.live[row.variant] == row.original.value
            <==> edited == row.original || (edited.None? && seen.live[row.variant] == row.original.value)
  {
    RunKeepsAnswered(w, steps);
    if s.Record? {
      k := AnsweredAt(w, steps, r);
    } else {
      k := |steps|;
      assert steps[..k] == steps;
    }
  }

  /** The row is recorded as applied: by the record of its write, or by an apply that finds the sale live already. */
  ghost predicate Applies(w: World, s: Step, r: RowId) {
    && (s == Record(r) || (s.DecideApply? && s.row == r)) && Enabled(w, s)
    && Next(w, s).rows[r].state.Applied? && w.rows[r].variant in w.live
  }

  /** In every run a row recorded as applied had its sale live when the batch saw it there, or when its write landed;
      an answer that only vouched wrote nothing. The sale is live at that moment exactly when the last pair anybody set
      since the answer is the sale, or nobody set any and it was live then. */
  lemma AppliedOverItsSale(w: World, steps: seq<Step>, s: Step, r: RowId) returns (k: nat)
    requires Answered(w) && Legal(w, steps) && r !in w.plans && Applies(Run(w, steps), s, r)
    ensures k <= |steps| && Legal(w, steps[..k])
    ensures if s.Record? then k > 0 && Answers(steps[k - 1], r) else k == |steps|
    ensures var seen, row := Run(w, steps[..k]), Run(w, steps).rows[r];
            && row.variant in seen.live && row.sale.Some?
            && ((s.Record? && steps[k - 1] == Overlook(r)) || seen.live[row.variant] == row.sale.value)
    ensures var seen, end := Run(w, steps[..k]), Run(w, steps);
            var row := end.rows[r];
            var edited := if s.Record? then EditedSince(steps, r, row.variant) else None;
            end.live[row.variant] == row.sale.value
            <==> edited == row.sale || (edited.None? && seen.live[row.variant] == row.sale.value)
  {
    RunKeepsAnswered(w, steps);
    if s.Record? {
      k := AnsweredAt(w, steps, r);
    } else {
      k := |steps|;
      assert steps[..k] == steps;
    }
  }

  /* A row settled over somebody else's price. */

  const OTHER_PRICE := Pair(9000, None)

  /** Campaign 1 applies its sale to row 0 and decides to put it back. */
  const RESTORING: seq<Step> :=
    STACKING[..3] + [Write(0), Record(0)] + [Shift(0, ClaimRestore), DecideRestore(0, Restored)]

  /** Before the write is recorded somebody sets another price. */
  const OVERTAKEN: seq<Step> := RESTORING + [Write(0), Edit(7, OTHER_PRICE)] + [Record(0)]

  const TO_ORIGINAL := Plan(ToOriginal, LIST_PRICE, Restored, RestoreFailed, Waiting)

  lemma Two(w: World, s: Step, t: Step, mid: World, end: World)
    requires Enabled(w, s) && Next(w, s) == mid && Enabled(mid, t) && Next(mid, t) == end
    ensures Legal(w, [s, t]) && Run(w, [s, t]) == end
  {
    One(mid, t, [], end);
    assert [t] + [] == [t];
    One(w, s, [t], mid);
    assert [s] + [t] == [s, t];
  }

  lemma OvertakenApplies()
    ensures var w := At(LIST_PRICE, map[0 := First(Applying)], map[0 := TO_SALE]);
            && Legal(w, [Write(0), Record(0)])
            && Run(w, [Write(0), Record(0)]) == At(SALE_PRICE, map[0 := First(Applied)], map[])
  {
    var rows := map[0 := First(Applying)];
    Two(At(LIST_PRICE, rows, map[0 := TO_SALE]), Write(0), Record(0),
        At(SALE_PRICE, rows, map[0 := TO_SALE.(phase := Landed)]), At(SALE_PRICE, map[0 := First(Applied)], map[]));
  }

  lemma OvertakenRestores()
    ensures var w := At(SALE_PRICE, map[0 := First(Applied)], map[]);
            && Legal(w, [Shift(0, ClaimRestore), DecideRestore(0, Restored)])
            && Run(w, [Shift(0, ClaimRestore), DecideRestore(0, Restored)])
               == At(SALE_PRICE, map[0 := First(Restoring)], map[0 := TO_ORIGINAL])
  {
    Two(At(SALE_PRICE, map[0 := First(Applied)], map[]), Shift(0, ClaimRestore), DecideRestore(0, Restored),
        At(SALE_PRICE, map[0 := First(Restoring)], map[]),
        At(SALE_PRICE, map[0 := First(Restoring)], map[0 := TO_ORIGINAL]));
  }

  lemma OvertakenIsEdited()
    ensures var rows := map[0 := First(Restoring)];
            var w := At(SALE_PRICE, rows, map[0 := TO_ORIGINAL]);
            && Legal(w, [Write(0), Edit(7, OTHER_PRICE)])
            && Run(w, [Write(0), Edit(7, OTHER_PRICE)])
                == At(OTHER_PRICE, rows, map[0 := TO_ORIGINAL.(phase := Landed)])
  {
    var rows, landed := map[0 := First(Restoring)], map[0 := TO_ORIGINAL.(phase := Landed)];
    Two(At(SALE_PRICE, rows, map[0 := TO_ORIGINAL]), Write(0), Edit(7, OTHER_PRICE),
        At(LIST_PRICE, rows, landed), At(OTHER_PRICE, rows, landed));
  }

  lemma OvertakenSettles()
    ensures var w := At(OTHER_PRICE, map[0 := First(Restoring)], map[0 := TO_ORIGINAL.(phase := Landed)]);
            Legal(w, [Record(0)]) && Run(w, [Record(0)]) == At(OTHER_PRICE, map[0 := First(Restored)], map[])
  {
    One(At(OTHER_PRICE, map[0 := First(Restoring)], map[0 := TO_ORIGINAL.(phase := Landed)]), Record(0), [],
        At(OTHER_PRICE, map[0 := First(Restored)], map[]));
  }

  lemma RestoringHappens()
    ensures Legal(Fresh(FIRST), RESTORING)
    ensures Run(Fresh(FIRST), RESTORING) == At(SALE_PRICE, map[0 := First(Restoring)], map[0 := TO_ORIGINAL])
  {
    StackingStart();
    OvertakenApplies();
    OvertakenRestores();
    var a := STACKING[..3] + [Write(0), Record(0)];
    RunAppend(Fresh(FIRST), STACKING[..3], [Write(0), Record(0)]);
    RunAppend(Fresh(FIRST), a, [Shift(0, ClaimRestore), DecideRestore(0, Restored)]);
  }

  /** The row is recorded as restored over a price that is not its original. */
  lemma SettledOverAnother()
    ensures Legal(Fresh(FIRST), OVERTAKEN)
    ensures var end := Run(Fresh(FIRST), OVERTAKEN);
            && 0 in end.rows && end.rows[0].state.Restored? && end.rows[0].original == Some(LIST_PRICE)
            && end.live == map[7 := OTHER_PRICE] && OTHER_PRICE != LIST_PRICE
  {
    RestoringHappens();
    OvertakenIsEdited();
    OvertakenSettles();
    var d := RESTORING + [Write(0), Edit(7, OTHER_PRICE)];
    RunAppend(Fresh(FIRST), RESTORING, [Write(0), Edit(7, OTHER_PRICE)]);
    RunAppend(Fresh(FIRST), d, [Record(0)]);
    assert OVERTAKEN == d + [Record(0)];
  }

  /* The other way to let go of a live sale, which takes an edit: a review row released at the campaign's price. */

  const AWAY: seq<Step> := [Edit(7, OTHER_PRICE), OutsideChange(0, TWENTY_OFF)]
  const BACK: seq<Step> := [Edit(7, SALE_PRICE), Shift(0, ReleaseReview)]

  lemma GoesToReview()
    ensures var w := At(SALE_PRICE, map[0 := First(Applied)], map[]);
            Legal(w, AWAY) && Run(w, AWAY) == At(OTHER_PRICE, map[0 := First(Review)], map[])
  {
    Two(At(SALE_PRICE, map[0 := First(Applied)], map[]), AWAY[0], AWAY[1],
        At(OTHER_PRICE, map[0 := First(Applied)], map[]), At(OTHER_PRICE, map[0 := First(Review)], map[]));
  }

  lemma IsReleased()
    ensures var w := At(OTHER_PRICE, map[0 := First(Review)], map[]);
            Legal(w, BACK) && Run(w, BACK) == At(SALE_PRICE, map[0 := First(Released)], map[])
  {
    Two(At(OTHER_PRICE, map[0 := First(Review)], map[]), BACK[0], BACK[1],
        At(SALE_PRICE, map[0 := First(Review)], map[]), At(SALE_PRICE, map[0 := First(Released)], map[]));
  }

  /** Somebody sets another price and then the sale price again, and the row is released from review: the sale price
      stays with no row holding the variant. */
  lemma ReleasedFromReview()
    ensures var steps := STACKING[..3] + [Write(0), Record(0)] + AWAY + BACK;
            Legal(Fresh(FIRST), steps) && !NeverStacked(Run(Fresh(FIRST), steps), FIRST)
  {
    StackingStart();
    OvertakenApplies();
    GoesToReview();
    IsReleased();
    var a := STACKING[..3];
    RunAppend(Fresh(FIRST), a, [Write(0), Record(0)]);
    RunAppend(Fresh(FIRST), a + [Write(0), Record(0)], AWAY);
    RunAppend(Fresh(FIRST), a + [Write(0), Record(0)] + AWAY, BACK);
    var end := At(SALE_PRICE, map[0 := First(Released)], map[]);
    assert 7 in end.live && end.live[7] != FIRST[7];
    assert forall r :: !Selling(end, r, 7);
  }

  /* And an answer without an error that wrote nothing: the restore is recorded as done over the sale price. */

  const VOUCHED: seq<Step> := [Overlook(0), Record(0)]

  lemma IsVouchedFor()
    ensures var w := At(SALE_PRICE, map[0 := First(Restoring)], map[0 := TO_ORIGINAL]);
            Legal(w, VOUCHED) && Run(w, VOUCHED) == At(SALE_PRICE, map[0 := First(Restored)], map[])
  {
    var rows := map[0 := First(Restoring)];
    Two(At(SALE_PRICE, rows, map[0 := TO_ORIGINAL]), VOUCHED[0], VOUCHED[1],
        At(SALE_PRICE, rows, map[0 := TO_ORIGINAL.(phase := Phase.Vouched)]),
        At(SALE_PRICE, map[0 := First(Restored)], map[]));
  }

  lemma VouchedRestoreStacks()
    ensures var steps := RESTORING + VOUCHED + SECOND;
            Legal(Fresh(FIRST), steps) && Stacked(Run(Fresh(FIRST), steps)) && forall s :: s in steps ==> Inside(s)
  {
    RestoringHappens();
    IsVouchedFor();
    StackingEnd(Restored);
    RunAppend(Fresh(FIRST), RESTORING, VOUCHED);
    RunAppend(Fresh(FIRST), RESTORING + VOUCHED, SECOND);
  }
}
