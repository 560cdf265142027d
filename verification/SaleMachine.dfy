/** Every step that changes a campaign row or a live price, one record or one write at a time, so that
    a crash can fall between any two of them (src/adapters/sales/writer.server.ts, the claims of
    sale-campaign.server.ts, and the run that drives them). */
module SaleMachine {
  import opened Prelude
  import opened SalePricing

  type RowId = nat
  type VariantId = nat
  type ProductId = nat
  type CampaignId = nat

  datatype State =
    | Pending | Applying | Applied | Failed | Skipped | Review
    | Restoring | Restored | RestoreFailed | Released

  /** The states the one-owner index covers. */
  predicate Live(s: State) {
    s.Applying? || s.Applied? || s.Review? || s.Restoring? || s.RestoreFailed?
  }

  datatype Row = Row(
    campaign: CampaignId, product: ProductId, variant: VariantId, state: State,
    original: Option<Pair>, base: Option<int>, sale: Option<Pair>)
  {
    predicate HasSnapshot() {
      original.Some? && sale.Some?
    }
  }

  datatype BasePolicy = Preserve | Recalculate | AskFirst

  datatype Campaign = Campaign(
    id: CampaignId, policy: SalePolicy, discount: Discount, rounding: Rounding,
    strategy: Strategy, priority: int, createdAt: int, basePolicy: BasePolicy)
  {
    function Decide(live: Pair): Decision {
      DecideVariantPricing(live, policy, discount, rounding)
    }
  }

  /** What a worker means to write for one row, and what it has heard back: nothing yet; that it is written; an
      error, or another pair, whatever was written; or no error and no word of the variant, nothing being written. */
  datatype Kind = ToSale | ToOriginal | Forced | ByPolicy
  datatype Phase = Waiting | Landed | Refused | Vouched
  datatype Plan = Plan(kind: Kind, write: Pair, done: State, fail: State, phase: Phase)

  datatype World = World(live: map<VariantId, Pair>, rows: map<RowId, Row>, plans: map<RowId, Plan>)

  /** The records that only move a row from one state to the next: the run's claims, the claims of dead
      jobs put back, Retry failed, and a row settled without looking at Shopify. */
  datatype Move =
    | Claim | ClaimRestore | StaleApplying | StaleRestoring | RetryFailed | RetryRestore
    | SkipHeld | SettlePending | ReleaseReview | Reopen

  function From(m: Move): State {
    match m
    case Claim => Pending
    case ClaimRestore => Applied
    case StaleApplying => Applying
    case StaleRestoring => Restoring
    case RetryFailed => Failed
    case RetryRestore => RestoreFailed
    case SkipHeld => Pending
    case SettlePending => Pending
    case ReleaseReview => Review
    case Reopen => Review
  }

  function To(m: Move): State {
    match m
    case Claim => Applying
    case ClaimRestore => Restoring
    case StaleApplying => Pending
    case StaleRestoring => Applied
    case RetryFailed => Pending
    case RetryRestore => Applied
    case SkipHeld => Skipped
    case SettlePending => Released
    case ReleaseReview => Released
    case Reopen => Applied
  }

  datatype Step =
    | Stage(row: RowId, campaign: CampaignId, product: ProductId, variant: VariantId)
    | Shift(row: RowId, move: Move)
    | ReleaseMissing(row: RowId)
    | DecideApply(row: RowId, camp: Campaign)
    | DecideRestore(row: RowId, final: State)
    | DecideForced(row: RowId)
    | OutsideChange(row: RowId, camp: Campaign)
    | Write(row: RowId)
    | Refuse(row: RowId)
    | Alter(row: RowId, held: Pair)
    | Overlook(row: RowId)
    | Record(row: RowId)
    | Crash(lost: set<RowId>)
    | Edit(variant: VariantId, pair: Pair)
    | Delete(variant: VariantId)

  /* What one pass of each deciding loop does with a row: record a row, or record it and write. */

  datatype Verdict = Settle(row: Row) | Go(row: Row, plan: Plan)

  /** applyRows, one row: `observed` is None when Shopify no longer has the variant. */
  function ApplyVerdict(row: Row, camp: Campaign, observed: Option<Pair>, heldByOther: bool): Verdict {
    if observed.None? then Settle(row.(state := Released))
    else if row.HasSnapshot() then
      match ClassifyObservation(row.sale.value, row.original.value, observed.value)
      case AsExpected => Settle(row.(state := Applied))
      case External(_) => Settle(row.(state := Review))
      case AsOriginal => Go(row, Plan(ToSale, row.sale.value, Applied, Failed, Waiting))
    else if heldByOther then Settle(row.(state := Skipped))
    else
      match camp.Decide(observed.value)
      case Skip(_, original) => Settle(row.(state := Skipped, original := Some(original)))
      case Apply(original, base, sale) =>
        Go(row.(state := Applying, original := Some(original), base := Some(base), sale := Some(sale)),
           Plan(ToSale, sale, Applied, Failed, Waiting))
  }

  /** restoreRows, one row. */
  function RestoreVerdict(row: Row, final: State, observed: Option<Pair>): Verdict {
    if observed.None? then Settle(row.(state := Released))
    else if !row.HasSnapshot() then Settle(row.(state := final))
    else
      match ClassifyObservation(row.sale.value, row.original.value, observed.value)
      case AsOriginal => Settle(row.(state := final))
      case External(_) => Settle(row.(state := Review))
      case AsExpected => Go(row, Plan(ToOriginal, row.original.value, final, RestoreFailed, Waiting))
  }

  /** forceRestoreRows, one row. */
  function ForcedVerdict(row: Row): Verdict {
    if row.original.None? then Settle(row.(state := Released))
    else Go(row, Plan(Forced, row.original.value, Restored, RestoreFailed, Waiting))
  }

  /** handleExternalChange on a row with a snapshot, given the confirmed live pair. */
  function OutsideVerdict(row: Row, camp: Campaign, observed: Pair): Verdict
    requires row.HasSnapshot()
  {
    var seen := ClassifyObservation(row.sale.value, row.original.value, observed);
    if !seen.External? then Settle(row)
    else if camp.basePolicy.AskFirst? then Settle(row.(state := Review))
    else
      var newOriginal := Pair(seen.newBase, row.original.value.compareAt);
      match NextSale(row.sale.value, camp, newOriginal, seen.newBase)
      case None => Settle(row.(state := Released, original := Some(newOriginal)))
      case Some((base, sale)) =>
        Go(row.(state := Applying, original := Some(newOriginal), base := Some(base), sale := Some(sale)),
           Plan(ByPolicy, sale, Applied, Failed, Waiting))
  }

  function NextSale(sale: Pair, camp: Campaign, newOriginal: Pair, newBase: int): Option<(int, Pair)> {
    if camp.basePolicy.Preserve? then
      var compareAt := if newOriginal.compareAt.Some? then newOriginal.compareAt.value else newBase;
      if sale.price < compareAt then Some((newBase, Pair(sale.price, Some(compareAt)))) else None
    else
      match camp.Decide(newOriginal)
      case Apply(_, base, next) => Some((base, next))
      case Skip(_, _) => None
  }

  function Observed(w: World, v: VariantId): Option<Pair> {
    if v in w.live then Some(w.live[v]) else None
  }

  /** Some other row holds this row's variant. */
  predicate HeldIn(rows: map<RowId, Row>, r: RowId)
    requires r in rows
  {
    exists q :: q in rows && q != r && Live(rows[q].state) && rows[q].variant == rows[r].variant
  }

  predicate Held(w: World, r: RowId)
    requires r in w.rows
  {
    HeldIn(w.rows, r)
  }

  predicate In(w: World, r: RowId, s: State) {
    r in w.rows && w.rows[r].state == s && r !in w.plans
  }

  /** The guards. A row is worked by one job at a time, so nothing but its own plan moves a planned row;
      a stale claim has no live job, so no plan; an edit does not fall between a read and its write. */
  ghost predicate Enabled(w: World, s: Step) {
    match s
    case Stage(r, _, _, _) => r !in w.plans && (r in w.rows ==> !Live(w.rows[r].state) && !w.rows[r].state.Pending?)
    case Shift(r, m) => In(w, r, From(m)) && (m.Claim? ==> !Held(w, r))
    case ReleaseMissing(r) => r in w.rows && r !in w.plans && Live(w.rows[r].state) && w.rows[r].variant !in w.live
    case DecideApply(r, camp) => In(w, r, Applying) && camp.id == w.rows[r].campaign
    case DecideRestore(r, final) =>
      (In(w, r, Restoring) && (final.Restored? || final.Released?)) || (In(w, r, Applied) && final.Released?)
    case DecideForced(r) => In(w, r, Review)
    case OutsideChange(r, camp) =>
      && In(w, r, Applied) && camp.id == w.rows[r].campaign
      && w.rows[r].HasSnapshot() && w.rows[r].variant in w.live
    case Write(r) => r in w.plans && r in w.rows && w.plans[r].phase.Waiting? && w.rows[r].variant in w.live
    case Alter(r, _) => r in w.plans && r in w.rows && w.plans[r].phase.Waiting? && w.rows[r].variant in w.live
    case Refuse(r) => r in w.plans && w.plans[r].phase.Waiting?
    case Overlook(r) => r in w.plans && w.plans[r].phase.Waiting?
    case Record(r) => r in w.plans && r in w.rows && !w.plans[r].phase.Waiting?
    case Crash(_) => true
    case Edit(v, _) => v in w.live && forall r :: r in w.plans && r in w.rows && w.rows[r].variant == v ==>
        !w.plans[r].phase.Waiting?
    case Delete(v) => v in w.live
  }

  function SetRow(w: World, r: RowId, row: Row): World {
    w.(rows := w.rows[r := row])
  }

  function SetState(w: World, r: RowId, s: State): World
    requires r in w.rows
  {
    SetRow(w, r, w.rows[r].(state := s))
  }

  function Carry(w: World, r: RowId, v: Verdict): World {
    match v
    case Settle(row) => SetRow(w, r, row)
    case Go(row, plan) => SetRow(w, r, row).(plans := w.plans[r := plan])
  }

  /** The state recorded for a plan that has been answered. */
  function Outcome(plan: Plan): State {
    if plan.phase.Refused? then plan.fail else plan.done
  }

  ghost function Next(w: World, s: Step): World
    requires Enabled(w, s)
  {
    match s
    case Stage(r, c, p, v) =>
      if r in w.rows then SetRow(w, r, w.rows[r].(state := Pending, original := None, base := None, sale := None))
      else SetRow(w, r, Row(c, p, v, Pending, None, None, None))
    case Shift(r, m) => SetState(w, r, To(m))
    case ReleaseMissing(r) => SetState(w, r, Released)
    case DecideApply(r, camp) =>
      Carry(w, r, ApplyVerdict(w.rows[r], camp, Observed(w, w.rows[r].variant), Held(w, r)))
    case DecideRestore(r, final) => Carry(w, r, RestoreVerdict(w.rows[r], final, Observed(w, w.rows[r].variant)))
    case DecideForced(r) => Carry(w, r, ForcedVerdict(w.rows[r]))
    case OutsideChange(r, camp) => Carry(w, r, OutsideVerdict(w.rows[r], camp, w.live[w.rows[r].variant]))
    case Write(r) =>
      w.(live := w.live[w.rows[r].variant := w.plans[r].write], plans := w.plans[r := w.plans[r].(phase := Landed)])
    case Alter(r, held) =>
      w.(live := w.live[w.rows[r].variant := held], plans := w.plans[r := w.plans[r].(phase := Refused)])
    case Refuse(r) => w.(plans := w.plans[r := w.plans[r].(phase := Refused)])
    case Overlook(r) => w.(plans := w.plans[r := w.plans[r].(phase := Vouched)])
    case Record(r) => SetState(w, r, Outcome(w.plans[r])).(plans := w.plans - {r})
    case Crash(lost) => w.(plans := w.plans - lost)
    case Edit(v, pair) => w.(live := w.live[v := pair])
    case Delete(v) => w.(live := w.live - {v})
  }

  ghost predicate Legal(w: World, steps: seq<Step>)
    decreases |steps|
  {
    steps == [] || (Enabled(w, steps[0]) && Legal(Next(w, steps[0]), steps[1..]))
  }

  ghost function Run(w: World, steps: seq<Step>): World
    requires Legal(w, steps)
    decreases |steps|
  {
    if steps == [] then w else Run(Next(w, steps[0]), steps[1..])
  }

  /** One step more at the end of a run. */
  lemma {:induction false} RunSnoc(w: World, steps: seq<Step>, s: Step)
    requires Legal(w, steps) && Enabled(Run(w, steps), s)
    ensures Legal(w, steps + [s]) && Run(w, steps + [s]) == Next(Run(w, steps), s)
    decreases |steps|
  {
    if steps == [] {
      assert steps + [s] == [s] && [s][1..] == [];
    } else {
      assert (steps + [s])[1..] == steps[1..] + [s];
      RunSnoc(Next(w, steps[0]), steps[1..], s);
    }
  }

  /** Two runs, one after the other. */
  lemma {:induction false} RunAppend(w: World, a: seq<Step>, b: seq<Step>)
    requires Legal(w, a) && Legal(Run(w, a), b)
    ensures Legal(w, a + b) && Run(w, a + b) == Run(Run(w, a), b)
    decreases |a|
  {
    if a == [] {
      assert a + b == b;
    } else {
      assert (a + b)[1..] == a[1..] + b;
      RunAppend(Next(w, a[0]), a[1..], b);
    }
  }

  /** A run without its last step. */
  lemma {:induction false} RunUnsnoc(w: World, steps: seq<Step>)
    requires Legal(w, steps) && steps != []
    ensures var n := |steps| - 1;
            && Legal(w, steps[..n]) && Enabled(Run(w, steps[..n]), steps[n])
            && Run(w, steps) == Next(Run(w, steps[..n]), steps[n])
    decreases |steps|
  {
    var n := |steps| - 1;
    if n == 0 {
      assert steps[..n] == [];
      assert Run(w, steps) == Run(Next(w, steps[0]), []);
    } else {
      assert steps[1..][..n - 1] == steps[..n][1..];
      RunUnsnoc(Next(w, steps[0]), steps[1..]);
    }
  }
}
