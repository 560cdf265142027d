/** One order, any number of jobs resolving its partner at once, refereed by a claim with a lease
    (src/jobs/resolve-order-partner.ts). Steps interleave freely; jobs die anywhere. */
module PartnerClaim {
  import opened Prelude
  import opened PartnerSearch

  const LEASE := 300_000
  const CALL_TIMEOUT := 60_000
  /** What the lease leaves of four calls: a holder's own work, database statements included, fits in it. */
  const OWN_WORK := LEASE - 4 * CALL_TIMEOUT

  type JobId = nat

  /* The three conditional updates of the order row. */

  datatype OrderRow = OrderRow(claimedAt: Option<int>, mkId: Option<string>)

  predicate Claimable(row: OrderRow, now: int) {
    row.mkId.None? && (row.claimedAt.None? || row.claimedAt.value < now - LEASE)
  }

  function Claimed(row: OrderRow, now: int): OrderRow {
    row.(claimedAt := Some(now))
  }

  function Released(row: OrderRow): OrderRow {
    if row.mkId.None? then row.(claimedAt := None) else row
  }

  function Recorded(row: OrderRow, id: string): OrderRow {
    row.(mkId := Some(id))
  }

  /** What a job that holds the claim does next, and whether it is in the call already. */
  datatype Task = Search(k: nat) | Create | Record(id: string) | GiveUp

  datatype Job = Job(claimedAt: int, calls: nat, ownWork: int, since: int, task: Task, calling: bool)

  /** `others` are the searches somebody else's partner answers; a partner created for this lookup answers
      every search made for it. `sent` holds the create requests that may still take effect, and until when. */
  datatype System = System(
    now: int, row: OrderRow, jobs: map<JobId, Job>, sent: map<JobId, int>, landed: set<JobId>,
    others: set<Query>, created: nat)

  /** A call that failed is over: it was refused, or timed out, and what it asked for has happened or never will. One
      that broke off is not: the job has an error, and a create that was sent may yet take effect. */
  datatype Step =
    | Tick(to: int)
    | Claim(job: JobId, at: int)
    | BeginCall(job: JobId)
    | SearchFound(job: JobId, id: string)
    | SearchEmpty(job: JobId)
    | CallFailed(job: JobId)
    | CallBroke(job: JobId)
    | CreateLands(job: JobId)
    | CreateAnswers(job: JobId, id: string)
    | SaveId(job: JobId)
    | Release(job: JobId)
    | Die(job: JobId)
    | SomebodyElse(query: Query)

  function Begin(queries: seq<Query>): Task {
    if queries == [] then Create else Search(0)
  }

  function After(queries: seq<Query>, k: nat): Task {
    if k + 1 < |queries| then Search(k + 1) else Create
  }

  /** A call ends by its timeout, and a holder's own work keeps within what is left of the lease. */
  predicate InTime(j: Job, now: int) {
    if j.calling then now <= j.since + CALL_TIMEOUT else j.ownWork + (now - j.since) <= OWN_WORK
  }

  predicate InCall(s: System, job: JobId) {
    job in s.jobs && s.jobs[job].calling
  }

  predicate At(s: System, job: JobId) {
    job in s.jobs && !s.jobs[job].calling
  }

  predicate Enabled(queries: seq<Query>, s: System, step: Step) {
    match step
    case Tick(to) => s.now <= to && forall j :: j in s.jobs ==> InTime(s.jobs[j], to)
    case Claim(j, at) =>
      j !in s.jobs && j !in s.sent && j !in s.landed && at <= s.now <= at + OWN_WORK && Claimable(s.row, at)
    case BeginCall(j) => At(s, j) && (s.jobs[j].task.Search? || s.jobs[j].task.Create?)
    case SearchFound(j, _) => InCall(s, j) && s.jobs[j].task.Search? && s.jobs[j].task.k < |queries|
                              && (s.created > 0 || queries[s.jobs[j].task.k] in s.others)
    case SearchEmpty(j) => InCall(s, j) && s.jobs[j].task.Search? && s.jobs[j].task.k < |queries|
                           && s.created == 0 && queries[s.jobs[j].task.k] !in s.others
    case CallFailed(j) => InCall(s, j)
    case CallBroke(j) => InCall(s, j)
    case CreateLands(j) => j in s.sent && s.now <= s.sent[j]
    case CreateAnswers(j, _) => InCall(s, j) && s.jobs[j].task.Create? && j in s.landed
    case SaveId(j) => At(s, j) && s.jobs[j].task.Record?
    case Release(j) => At(s, j) && s.jobs[j].task.GiveUp?
    case Die(j) => j in s.jobs
    case SomebodyElse(_) => true
  }

  /** The call is over and the job is about to do `task`. */
  function Return(j: Job, now: int, task: Task): Job {
    j.(calls := j.calls + 1, since := now, task := task, calling := false)
  }

  function Next(queries: seq<Query>, s: System, step: Step): System
    requires Enabled(queries, s, step)
  {
    match step
    case Tick(to) => s.(now := to)
    case Claim(j, at) =>
      s.(row := Claimed(s.row, at), jobs := s.jobs[j := Job(at, 0, s.now - at, s.now, Begin(queries), false)])
    case BeginCall(j) =>
      var job := s.jobs[j];
      s.(jobs := s.jobs[j := job.(ownWork := job.ownWork + (s.now - job.since), since := s.now, calling := true)],
         sent := if job.task.Create? then s.sent[j := s.now + CALL_TIMEOUT] else s.sent)
    case SearchFound(j, id) => s.(jobs := s.jobs[j := Return(s.jobs[j], s.now, Record(id))])
    case SearchEmpty(j) => s.(jobs := s.jobs[j := Return(s.jobs[j], s.now, After(queries, s.jobs[j].task.k))])
    case CallFailed(j) => s.(jobs := s.jobs[j := Return(s.jobs[j], s.now, GiveUp)], sent := s.sent - {j})
    case CallBroke(j) => s.(jobs := s.jobs[j := Return(s.jobs[j], s.now, GiveUp)])
    case CreateLands(j) => s.(sent := s.sent - {j}, landed := s.landed + {j}, created := s.created + 1)
    case CreateAnswers(j, id) => s.(jobs := s.jobs[j := Return(s.jobs[j], s.now, Record(id))])
    case SaveId(j) => s.(row := Recorded(s.row, s.jobs[j].task.id), jobs := s.jobs - {j})
    case Release(j) => s.(row := Released(s.row), jobs := s.jobs - {j})
    case Die(j) => s.(jobs := s.jobs - {j})
    case SomebodyElse(q) => s.(others := s.others + {q})
  }

  predicate Legal(queries: seq<Query>, s: System, steps: seq<Step>)
    decreases |steps|
  {
    steps == [] || (Enabled(queries, s, steps[0]) && Legal(queries, Next(queries, s, steps[0]), steps[1..]))
  }

  function Run(queries: seq<Query>, s: System, steps: seq<Step>): System
    requires Legal(queries, s, steps)
    decreases |steps|
  {
    if steps == [] then s else Run(queries, Next(queries, s, steps[0]), steps[1..])
  }

  function Fresh(now: int, others: set<Query>): System {
    System(now, OrderRow(None, None), map[], map[], {}, others, 0)
  }

  /* The lease arithmetic: a holder is done before anyone may take the claim over. */

  /** How many calls a job has behind it, by what it does next. */
  predicate Counted(queries: seq<Query>, j: Job) {
    match j.task
    case Search(k) => j.calls == k && k < |queries|
    case Create => j.calls == |queries|
    case Record(_) => j.calls <= |queries| + 1 && !j.calling
    case GiveUp => j.calls <= |queries| + 1 && !j.calling
  }

  predicate WithinLease(queries: seq<Query>, j: Job, now: int) {
    && Counted(queries, j) && InTime(j, now)
    && 0 <= j.ownWork <= OWN_WORK && j.since <= now
    && j.since <= j.claimedAt + j.ownWork + j.calls * CALL_TIMEOUT
  }

  ghost predicate SingleFlight(queries: seq<Query>, s: System) {
    && (forall a, b :: a in s.jobs && b in s.jobs ==> a == b)
    && (forall j :: j in s.jobs ==>
          s.row == OrderRow(Some(s.jobs[j].claimedAt), None) && WithinLease(queries, s.jobs[j], s.now))
  }

  lemma StepKeepsSingleFlight(queries: seq<Query>, s: System, step: Step)
    requires |queries| <= 3 && SingleFlight(queries, s) && Enabled(queries, s, step)
    ensures SingleFlight(queries, Next(queries, s, step))
  {}

  /** Once stored, the partner's id never changes. */
  lemma StoredIdStays(queries: seq<Query>, s: System, step: Step)
    requires SingleFlight(queries, s) && Enabled(queries, s, step) && s.row.mkId.Some?
    ensures Next(queries, s, step).row.mkId == s.row.mkId
  {}

  /* Mutual exclusion over whole runs. */

  lemma FreshIsSingleFlight(queries: seq<Query>, now: int, others: set<Query>)
    ensures SingleFlight(queries, Fresh(now, others))
  {}

  lemma {:induction false} RunKeepsSingleFlight(queries: seq<Query>, s: System, steps: seq<Step>)
    requires |queries| <= 3 && SingleFlight(queries, s) && Legal(queries, s, steps)
    ensures SingleFlight(queries, Run(queries, s, steps))
    decreases |steps|
  {
    if steps != [] {
      StepKeepsSingleFlight(queries, s, steps[0]);
      RunKeepsSingleFlight(queries, Next(queries, s, steps[0]), steps[1..]);
    }
  }

  /** However the jobs interleave, at most one is between winning the claim and recording or releasing it,
      and the row carries that job's own claim and no partner yet. */
  lemma OneHolder(queries: seq<Query>, now: int, others: set<Query>, steps: seq<Step>, a: JobId, b: JobId)
    requires |queries| <= 3 && Legal(queries, Fresh(now, others), steps)
    requires var s := Run(queries, Fresh(now, others), steps); a in s.jobs && b in s.jobs
    ensures var s := Run(queries, Fresh(now, others), steps);
            a == b && s.row == OrderRow(Some(s.jobs[a].claimedAt), None) && s.now <= s.jobs[a].claimedAt + LEASE
  {
    FreshIsSingleFlight(queries, now, others);
    RunKeepsSingleFlight(queries, Fresh(now, others), steps);
  }

  /** Once stored, the partner's id stays for the rest of any run. */
  lemma {:induction false} StoredIdNeverChanges(queries: seq<Query>, s: System, steps: seq<Step>)
    requires |queries| <= 3 && SingleFlight(queries, s) && Legal(queries, s, steps) && s.row.mkId.Some?
    ensures Run(queries, s, steps).row.mkId == s.row.mkId
    decreases |steps|
  {
    if steps != [] {
      StepKeepsSingleFlight(queries, s, steps[0]);
      StoredIdStays(queries, s, steps[0]);
      StoredIdNeverChanges(queries, Next(queries, s, steps[0]), steps[1..]);
    }
  }

  /* Runs, longer by a step and one after the other. */

  lemma {:induction false} RunSnoc(queries: seq<Query>, s: System, steps: seq<Step>, step: Step)
    requires Legal(queries, s, steps) && Enabled(queries, Run(queries, s, steps), step)
    ensures Legal(queries, s, steps + [step])
    ensures Run(queries, s, steps + [step]) == Next(queries, Run(queries, s, steps), step)
  {
    assert [step][1..] == [];
    RunAppend(queries, s, steps, [step]);
  }

  lemma {:induction false} RunAppend(queries: seq<Query>, s: System, a: seq<Step>, b: seq<Step>)
    requires Legal(queries, s, a) && Legal(queries, Run(queries, s, a), b)
    ensures Legal(queries, s, a + b) && Run(queries, s, a + b) == Run(queries, Run(queries, s, a), b)
    decreases |a|
  {
    if a == [] {
      assert a + b == b;
    } else {
      assert (a + b)[1..] == a[1..] + b;
      RunAppend(queries, Next(queries, s, a[0]), a[1..], b);
    }
  }
}
