/** How many partners are made for one order (src/jobs/resolve-order-partner.ts, src/adapters/metakocka/partners.ts):
    over all runs of the claim's machine, and which step costs the promise. */
module PartnerCreates {
  import opened Prelude
  import opened PartnerSearch
  import opened PartnerClaim

  /** A create request that may still take effect. */
  predicate Pending(s: System, j: JobId) {
    j in s.sent && s.now <= s.sent[j]
  }

  /** A claim given back while its own create may still take effect. */
  predicate LetsGo(s: System, step: Step) {
    step.Release? && Pending(s, step.job)
  }

  predicate NeverLetsGo(queries: seq<Query>, s: System, steps: seq<Step>)
    requires Legal(queries, s, steps)
    decreases |steps|
  {
    steps != [] ==> !LetsGo(s, steps[0]) && NeverLetsGo(queries, Next(queries, s, steps[0]), steps[1..])
  }

  /** A pending create belongs to a claim nobody can take over before it takes effect or lapses, and to no job but
      its own, which is in the call or has had it break off. */
  ghost predicate Guarded(s: System, j: JobId) {
    && j in s.sent && s.created == 0
    && s.row.mkId.None? && s.row.claimedAt.Some? && s.sent[j] <= s.row.claimedAt.value + LEASE
    && forall k :: k in s.jobs ==> k == j && ((s.jobs[k].task.Create? && s.jobs[k].calling) || s.jobs[k].task.GiveUp?)
  }

  /** A job about to create has seen that nobody exists; one that searches, or has an id, has nothing pending. */
  predicate Creating(s: System, j: JobId)
    requires j in s.jobs
  {
    var job := s.jobs[j];
    && (job.task.Create? && (!job.calling || j !in s.landed) ==> s.created == 0)
    && (!(job.task.Create? && job.calling) && !job.task.GiveUp? ==> !Pending(s, j))
  }

  ghost predicate CreatesOnce(s: System) {
    && s.created <= 1 && (s.created == 0 ==> s.landed == {})
    && (forall j, k :: Pending(s, j) && Pending(s, k) ==> j == k)
    && (forall j :: Pending(s, j) ==> Guarded(s, j))
    && (forall j :: j in s.jobs ==> Creating(s, j))
  }

  /** After a step, what is pending is guarded; it was pending before unless the step sent it. */
  lemma PendingIsGuarded(queries: seq<Query>, s: System, step: Step, j: JobId)
    requires 0 < |queries| <= 3 && SingleFlight(queries, s) && CreatesOnce(s)
    requires Enabled(queries, s, step) && !LetsGo(s, step)
    requires Pending(Next(queries, s, step), j)
    ensures Guarded(Next(queries, s, step), j)
    ensures if step == BeginCall(j) then forall k :: !Pending(s, k) else Pending(s, j)
  {
    if step.BeginCall? {
      assert Creating(s, step.job);
      forall k ensures !Pending(s, k) {
        if Pending(s, k) { assert false; }
      }
      if !Pending(s, j) {
        assert WithinLease(queries, s.jobs[step.job], s.now);
      }
    } else if Pending(s, j) {
      assert Guarded(s, j);
      if step.CreateLands? && !Pending(s, step.job) { assert false; }
    }
  }

  lemma StepKeepsCreatesOnce(queries: seq<Query>, s: System, step: Step)
    requires 0 < |queries| <= 3 && SingleFlight(queries, s) && CreatesOnce(s)
    requires Enabled(queries, s, step) && !LetsGo(s, step)
    ensures CreatesOnce(Next(queries, s, step))
  {
    var t := Next(queries, s, step);
    forall j | Pending(t, j)
      ensures Guarded(t, j)
    {
      PendingIsGuarded(queries, s, step, j);
    }
    forall j, k | Pending(t, j) && Pending(t, k)
      ensures j == k
    {
      PendingIsGuarded(queries, s, step, j);
      PendingIsGuarded(queries, s, step, k);
    }
    match step
    case CreateLands(j) =>
      assert Pending(s, j) && Guarded(s, j);
    case _ =>
  }

  lemma {:induction false} RunKeepsCreatesOnce(queries: seq<Query>, s: System, steps: seq<Step>)
    requires 0 < |queries| <= 3 && SingleFlight(queries, s) && CreatesOnce(s)
    requires Legal(queries, s, steps) && NeverLetsGo(queries, s, steps)
    ensures CreatesOnce(Run(queries, s, steps))
    decreases |steps|
  {
    if steps != [] {
      StepKeepsSingleFlight(queries, s, steps[0]);
      StepKeepsCreatesOnce(queries, s, steps[0]);
      RunKeepsCreatesOnce(queries, Next(queries, s, steps[0]), steps[1..]);
    }
  }

  /* Runs of one job alone. */

  predicate NoRelease(steps: seq<Step>) {
    forall i :: 0 <= i < |steps| ==> !steps[i].Release?
  }

  lemma {:induction false} NoReleaseNeverLetsGo(queries: seq<Query>, s: System, steps: seq<Step>)
    requires Legal(queries, s, steps) && NoRelease(steps)
    ensures NeverLetsGo(queries, s, steps)
    decreases |steps|
  {
    if steps != [] {
      NoReleaseNeverLetsGo(queries, Next(queries, s, steps[0]), steps[1..]);
    }
  }

  lemma One(queries: seq<Query>, s: System, step: Step)
    requires Enabled(queries, s, step)
    ensures Legal(queries, s, [step]) && Run(queries, s, [step]) == Next(queries, s, step)
  {
    assert [step][1..] == [];
    assert Run(queries, Next(queries, s, step), []) == Next(queries, s, step);
  }

  lemma Two(queries: seq<Query>, s: System, a: Step, b: Step)
    requires Enabled(queries, s, a) && Enabled(queries, Next(queries, s, a), b)
    ensures Legal(queries, s, [a, b]) && Run(queries, s, [a, b]) == Next(queries, Next(queries, s, a), b)
  {
    One(queries, s, a);
    One(queries, Next(queries, s, a), b);
    RunAppend(queries, s, [a], [b]);
    assert [a] + [b] == [a, b];
  }

  /** Nobody is there to be found. */
  predicate Nobody(queries: seq<Query>, s: System) {
    s.created == 0 && forall k :: 0 <= k < |queries| ==> queries[k] !in s.others
  }

  /** The job's own part of a system. */
  predicate OnlyJob(s: System, t: System, j: JobId) {
    j in t.jobs && t == s.(jobs := s.jobs[j := t.jobs[j]])
  }

  /** Searches that find nobody lead to the create. */
  lemma {:induction false} SearchesInVain(queries: seq<Query>, s: System, j: JobId, k: nat) returns (steps: seq<Step>)
    requires k < |queries| && Nobody(queries, s) && At(s, j) && s.jobs[j].task == Search(k)
    ensures Legal(queries, s, steps) && NoRelease(steps)
    ensures var t := Run(queries, s, steps); OnlyJob(s, t, j) && At(t, j) && t.jobs[j].task == Create
    decreases |queries| - k
  {
    steps := [BeginCall(j), SearchEmpty(j)];
    Two(queries, s, BeginCall(j), SearchEmpty(j));
    var t := Run(queries, s, steps);
    if k + 1 < |queries| {
      var more := SearchesInVain(queries, t, j, k + 1);
      RunAppend(queries, s, steps, more);
      steps := steps + more;
    }
  }

  /** A claim that finds nobody leads to a create under way, whatever else is pending. */
  lemma ClaimLeadsToCreate(queries: seq<Query>, s: System, j: JobId) returns (steps: seq<Step>)
    requires Nobody(queries, s) && Claimable(s.row, s.now) && j !in s.jobs && j !in s.sent && j !in s.landed
    ensures Legal(queries, s, steps) && NoRelease(steps)
    ensures var t := Run(queries, s, steps);
            && InCall(t, j) && t.jobs[j].task == Create
            && t == s.(row := Claimed(s.row, s.now), jobs := s.jobs[j := t.jobs[j]],
                sent := s.sent[j := s.now + CALL_TIMEOUT])
  {
    steps := [Claim(j, s.now)];
    One(queries, s, steps[0]);
    var a := Run(queries, s, steps);
    if queries != [] {
      var searches := SearchesInVain(queries, a, j, 0);
      RunAppend(queries, s, steps, searches);
      steps := steps + searches;
    }
    var b := Run(queries, s, steps);
    One(queries, b, BeginCall(j));
    RunAppend(queries, s, steps, [BeginCall(j)]);
    steps := steps + [BeginCall(j)];
  }

  lemma {:induction false} FreshId(ids: set<JobId>) returns (j: JobId)
    ensures forall i :: i in ids ==> i < j
  {
    j := 0;
    if ids != {} {
      var i :| i in ids;
      var above := FreshId(ids - {i});
      j := if i < above then above else i + 1;
      forall k | k in ids ensures k < j {
        assert k == i || k in ids - {i};
      }
    }
  }

  /** No order is stuck: whatever has happened, as long as no id is stored the claim can be won again, at the latest
      when the lease of a job that died with it has lapsed. */
  lemma ClaimCanBeWonAgain(queries: seq<Query>, s: System) returns (steps: seq<Step>, j: JobId)
    requires |queries| <= 3 && SingleFlight(queries, s) && s.row.mkId.None?
    ensures Legal(queries, s, steps)
    ensures var t := Run(queries, s, steps);
            && j in t.jobs && t.jobs[j].claimedAt == t.now && t.row == OrderRow(Some(t.now), None)
            && (s.row.claimedAt.None? ==> t.now == s.now)
            && (s.row.claimedAt.Some? ==> t.now == Max(s.now, s.row.claimedAt.value + LEASE + 1))
  {
    var a := s;
    steps := [];
    if h :| h in s.jobs {
      steps := [Die(h)];
      One(queries, s, Die(h));
      a := Run(queries, s, steps);
      assert a.jobs == map[];
    }
    j := FreshId(a.jobs.Keys + a.sent.Keys + a.landed);
    var now := if s.row.claimedAt.None? then s.now else Max(s.now, s.row.claimedAt.value + LEASE + 1);
    Two(queries, a, Tick(now), Claim(j, now));
    if steps == [] {
      steps := [Tick(now), Claim(j, now)];
    } else {
      RunAppend(queries, s, steps, [Tick(now), Claim(j, now)]);
      steps := steps + [Tick(now), Claim(j, now)];
    }
  }

  /** A claim given back over a pending create: the next job finds nobody, creates, and both creates take effect. */
  lemma LettingGoMakesTwo(queries: seq<Query>, s: System, j: JobId) returns (steps: seq<Step>)
    requires Nobody(queries, s) && Claimable(s.row, s.now) && Pending(s, j)
    ensures Legal(queries, s, steps) && NeverLetsGo(queries, s, steps) && Run(queries, s, steps).created == 2
  {
    var other := FreshId(s.jobs.Keys + s.sent.Keys + s.landed);
    steps := ClaimLeadsToCreate(queries, s, other);
    var t := Run(queries, s, steps);
    Two(queries, t, CreateLands(other), CreateLands(j));
    RunAppend(queries, s, steps, [CreateLands(other), CreateLands(j)]);
    steps := steps + [CreateLands(other), CreateLands(j)];
    NoReleaseNeverLetsGo(queries, s, steps);
  }

  /* What the code promises, and when. */

  /** No run from here on makes a second partner, as long as no claim is given back over a pending create. */
  ghost predicate StaysAtMostOne(queries: seq<Query>, s: System) {
    forall steps :: Legal(queries, s, steps) && NeverLetsGo(queries, s, steps) ==> Run(queries, s, steps).created <= 1
  }

  /** With something to search by and nobody to be found, a step keeps the promise exactly when it does not give a
      claim back while its own create may still take effect. */
  lemma StepKeepsThePromiseIff(queries: seq<Query>, s: System, step: Step)
    requires 0 < |queries| <= 3 && SingleFlight(queries, s) && CreatesOnce(s) && Enabled(queries, s, step)
    requires forall k :: 0 <= k < |queries| ==> queries[k] !in s.others
    ensures StaysAtMostOne(queries, Next(queries, s, step)) <==> !LetsGo(s, step)
  {
    var t := Next(queries, s, step);
    if LetsGo(s, step) {
      assert Guarded(s, step.job);
      var steps := LettingGoMakesTwo(queries, t, step.job);
      assert Run(queries, t, steps).created == 2;
    } else {
      StepKeepsSingleFlight(queries, s, step);
      StepKeepsCreatesOnce(queries, s, step);
      forall steps | Legal(queries, t, steps) && NeverLetsGo(queries, t, steps)
        ensures Run(queries, t, steps).created <= 1
      {
        RunKeepsCreatesOnce(queries, t, steps);
      }
    }
  }

  /** The run in full, for any lookup: a create whose call breaks off, the claim given back at once, as the code does,
      and the retry that finds nobody. */
  lemma BrokenCreateMakesTwo(queries: seq<Query>, now: int, others: set<Query>) returns (steps: seq<Step>)
    requires forall k :: 0 <= k < |queries| ==> queries[k] !in others
    ensures Legal(queries, Fresh(now, others), steps) && Run(queries, Fresh(now, others), steps).created == 2
  {
    var s := Fresh(now, others);
    steps := ClaimLeadsToCreate(queries, s, 1);
    var t := Run(queries, s, steps);
    Two(queries, t, CallBroke(1), Release(1));
    RunAppend(queries, s, steps, [CallBroke(1), Release(1)]);
    steps := steps + [CallBroke(1), Release(1)];
    var more := LettingGoMakesTwo(queries, Run(queries, s, steps), 1);
    RunAppend(queries, s, steps, more);
    steps := steps + more;
  }

  /** With nothing to search by, a create that took effect and whose answer was lost is made again by the retry. */
  lemma BlankLookupCreatesTwice(now: int, others: set<Query>) returns (steps: seq<Step>)
    ensures Legal([], Fresh(now, others), steps) && NeverLetsGo([], Fresh(now, others), steps)
    ensures Run([], Fresh(now, others), steps).created == 2
  {
    var s := Fresh(now, others);
    var first := [Claim(1, now), BeginCall(1), CreateLands(1)];
    var lost, second := [CallFailed(1), Release(1)], [Claim(2, now), BeginCall(2), CreateLands(2)];
    BlankLookupCreates(s, 1);
    var s1 := Run([], s, first);
    Two([], s1, CallFailed(1), Release(1));
    LostNeverLetsGo(s1);
    var s2 := Run([], s1, lost);
    BlankLookupCreates(s2, 2);
    RunAppend([], s1, lost, second);
    NeverLetsGoAppend([], s1, lost, second);
    RunAppend([], s, first, lost + second);
    NeverLetsGoAppend([], s, first, lost + second);
    steps := first + (lost + second);
  }

  lemma LostNeverLetsGo(s: System)
    requires Legal([], s, [CallFailed(1), Release(1)])
    ensures NeverLetsGo([], s, [CallFailed(1), Release(1)])
  {
    var t := Next([], s, CallFailed(1));
    assert [CallFailed(1), Release(1)][1..] == [Release(1)] && [Release(1)][1..] == [];
    assert NeverLetsGo([], Next([], t, Release(1)), []);
    assert NeverLetsGo([], t, [Release(1)]);
  }

  lemma {:induction false} NeverLetsGoAppend(queries: seq<Query>, s: System, a: seq<Step>, b: seq<Step>)
    requires Legal(queries, s, a) && NeverLetsGo(queries, s, a)
    requires Legal(queries, Run(queries, s, a), b) && NeverLetsGo(queries, Run(queries, s, a), b)
    ensures Legal(queries, s, a + b) && NeverLetsGo(queries, s, a + b)
    decreases |a|
  {
    RunAppend(queries, s, a, b);
    if a == [] {
      assert a + b == b;
    } else {
      assert (a + b)[1..] == a[1..] + b;
      NeverLetsGoAppend(queries, Next(queries, s, a[0]), a[1..], b);
    }
  }

  /** With nothing to search by, a claim leads straight to a create. */
  lemma BlankLookupCreates(s: System, j: JobId)
    requires j !in s.jobs && j !in s.sent && j !in s.landed && Claimable(s.row, s.now)
    ensures var t := s.(row := Claimed(s.row, s.now), jobs := s.jobs[j := Job(s.now, 0, 0, s.now, Create, true)],
                        landed := s.landed + {j}, created := s.created + 1);
            var steps := [Claim(j, s.now), BeginCall(j), CreateLands(j)];
            Legal([], s, steps) && NeverLetsGo([], s, steps) && Run([], s, steps) == t
  {
    var s1 := Next([], s, Claim(j, s.now));
    Two([], s1, BeginCall(j), CreateLands(j));
    One([], s, Claim(j, s.now));
    RunAppend([], s, [Claim(j, s.now)], [BeginCall(j), CreateLands(j)]);
    assert [Claim(j, s.now)] + [BeginCall(j), CreateLands(j)] == [Claim(j, s.now), BeginCall(j), CreateLands(j)];
    NoReleaseNeverLetsGo([], s, [Claim(j, s.now), BeginCall(j), CreateLands(j)]);
    assert s.sent[j := s.now + CALL_TIMEOUT] - {j} == s.sent;
  }

  /** At most one partner is ever created for an order, whatever the interleaving of jobs that never give a claim back
      over a pending create, exactly when there is anything to search by. */
  lemma AtMostOnePartner(lookup: Lookup, now: int, others: set<Query>)
    ensures StaysAtMostOne(Queries(lookup), Fresh(now, others)) <==> Searchable(lookup)
  {
    var queries := Queries(lookup);
    SearchableIff(lookup);
    if queries != [] {
      FreshIsSingleFlight(queries, now, others);
      forall steps | Legal(queries, Fresh(now, others), steps) && NeverLetsGo(queries, Fresh(now, others), steps)
        ensures Run(queries, Fresh(now, others), steps).created <= 1
      {
        RunKeepsCreatesOnce(queries, Fresh(now, others), steps);
      }
    } else {
      var steps := BlankLookupCreatesTwice(now, others);
      assert Run(queries, Fresh(now, others), steps).created == 2;
    }
  }
}
