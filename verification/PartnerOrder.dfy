/** The order row's side of a partner resolution (src/jobs/resolve-order-partner.ts): one job from the first
    look at the row to the recorded id, as a run of the claim's machine. */
module PartnerOrder {
  import opened Prelude
  import opened PartnerSearch
  import opened PartnerClaim
  import PartnerCreates

  /** How add_partner ends: an id; an error, having made nothing; an error, a partner made and its answer lost; or the
      call broken off, the request still under way. */
  datatype Reply = Made(id: string) | NothingMade | AnswerLost | BrokeOff

  predicate Lands(reply: Reply) {
    reply.Made? || reply.AnswerLost?
  }

  datatype Ending = Gave(id: string) | Nobody | Busy | Raised | Crashed

  /** What a job does once its searches are over. */
  function TaskAfter(outcome: Outcome): Task {
    match outcome
    case Threw => GiveUp
    case Found(None) => Create
    case Found(Some(partner)) => Record(partner.mkId)
  }

  class OrderDesk {
    const lookup: Lookup
    var row: OrderRow
    ghost var begin: System
    ghost var trace: seq<Step>
    ghost var system: System

    ghost predicate OnTrack()
      reads this
    {
      Legal(Queries(lookup), begin, trace) && Run(Queries(lookup), begin, trace) == system
    }

    ghost predicate Valid()
      reads this
    {
      OnTrack() && system.row == row
    }

    constructor (lookup: Lookup, now: int, ghost others: set<Query>)
      ensures Valid() && this.lookup == lookup && begin == Fresh(now, others) && trace == []
      ensures row == OrderRow(None, None)
    {
      this.lookup, row := lookup, OrderRow(None, None);
      begin, system, trace := Fresh(now, others), Fresh(now, others), [];
    }

    ghost method Did(step: Step)
      requires OnTrack() && Enabled(Queries(lookup), system, step) && Next(Queries(lookup), system, step).row == row
      modifies this`trace, this`system
      ensures Valid() && system == Next(Queries(lookup), old(system), step) && trace == old(trace) + [step]
    {
      RunSnoc(Queries(lookup), begin, trace, step);
      system, trace := Next(Queries(lookup), system, step), trace + [step];
    }

    /** What the remote system answers is what it holds. */
    ghost predicate Truthful(answers: Query -> Answer)
      reads this
    {
      forall q :: q in Queries(lookup) ==>
        match answers(q)
        case Failed => true
        case NoMatch => system.created == 0 && q !in system.others
        case Listed(partners) => (partners != []) == (system.created > 0 || q in system.others)
    }

    /** Every search that could be made finds nobody. */
    predicate NobodyFound(answers: Query -> Answer) {
      Resolution(lookup, answers) == Found(None)
    }

    /** The partner that the strongest field to decide lists first. */
    predicate FoundAs(answers: Query -> Answer, id: string) {
      match Resolution(lookup, answers)
      case Found(Some(partner)) => partner.mkId == id
      case _ => false
    }

    /** The conditional update that referees the claim: whether this job won it. */
    method TryClaim(me: JobId, now: int) returns (won: bool)
      requires Valid() && system.now == now && me !in system.jobs && me !in system.sent && me !in system.landed
      modifies this`row, this`trace, this`system
      ensures Valid() && old(trace) <= trace && won == Claimable(old(row), now)
      ensures row == if won then Claimed(old(row), now) else old(row)
      ensures system == if won then Next(Queries(lookup), old(system), Claim(me, now)) else old(system)
    {
      won := row.mkId == None && (row.claimedAt == None || row.claimedAt.value < now - LEASE);
      if won {
        row := row.(claimedAt := Some(now));
        Did(Claim(me, now));
      }
    }

    /** One search call. */
    ghost method SearchOne(me: JobId, k: nat, answers: Query -> Answer, id: string)
      requires Valid() && Truthful(answers) && k < |Queries(lookup)|
      requires At(system, me) && system.jobs[me].task == Search(k) && me !in system.sent
      modifies this`trace, this`system
      ensures Valid() && old(trace) <= trace && At(system, me)
      ensures system == old(system).(jobs := old(system).jobs[me := system.jobs[me]])
      ensures var a := answers(Queries(lookup)[k]);
              system.jobs[me].task
                == if a.Failed? then GiveUp else if Decides(a) then Record(id) else After(Queries(lookup), k)
    {
      var a := answers(Queries(lookup)[k]);
      Did(BeginCall(me));
      Did(if a.Failed? then CallFailed(me) else if Decides(a) then SearchFound(me, id) else SearchEmpty(me));
    }

    /** The searches as machine steps, in the order they were asked. */
    ghost method Searched(me: JobId, answers: Query -> Answer, asked: seq<Query>, outcome: Outcome)
      requires Valid() && Truthful(answers) && me !in system.sent && asked <= Queries(lookup)
      requires At(system, me) && system.jobs[me].task == Begin(Queries(lookup))
      requires forall i :: 0 <= i < |asked| - 1 ==> !Decides(answers(asked[i]))
      requires asked != [] ==> outcome == Settled(answers(asked[|asked| - 1]), lookup)
      requires outcome == Found(None) ==> asked == Queries(lookup)
      requires asked == [] ==> outcome == Found(None)
      modifies this`trace, this`system
      ensures Valid() && old(trace) <= trace && At(system, me)
      ensures system == old(system).(jobs := old(system).jobs[me := system.jobs[me]])
      ensures system.jobs[me].task == TaskAfter(outcome)
    {
      var id := if outcome.Found? && outcome.partner.Some? then outcome.partner.value.mkId else "";
      for k := 0 to |asked|
        invariant Valid() && old(trace) <= trace && At(system, me)
        invariant system == old(system).(jobs := old(system).jobs[me := system.jobs[me]])
        invariant system.jobs[me].task == if k == |asked| then TaskAfter(outcome) else Search(k)
      {
        assert asked[k] == Queries(lookup)[k];
        SearchOne(me, k, answers, id);
      }
    }

    /** The searches, asked and accounted for. */
    method SearchAll(me: JobId, answers: Query -> Answer) returns (outcome: Outcome)
      requires Valid() && Truthful(answers) && me !in system.sent
      requires At(system, me) && system.jobs[me].task == Begin(Queries(lookup))
      modifies this`trace, this`system
      ensures Valid() && old(trace) <= trace && At(system, me)
      ensures system == old(system).(jobs := old(system).jobs[me := system.jobs[me]])
      ensures system.jobs[me].task == TaskAfter(outcome) && outcome == Resolution(lookup, answers)
    {
      var asked;
      outcome, asked := FindPartner(lookup, answers);
      Searched(me, answers, asked, outcome);
    }

    /** The create call, and a crash in the middle of it. */
    method CreatePartner(me: JobId, reply: Reply) returns (id: Option<string>, died: bool)
      requires Valid() && At(system, me) && system.jobs[me].task.Create? && me !in system.landed && me !in system.sent
      modifies this`trace, this`system
      ensures Valid() && old(trace) <= trace
      ensures died ==> system.jobs == old(system).jobs - {me}
      ensures !died ==> At(system, me) && system.jobs == old(system).jobs[me := system.jobs[me]]
                        && system.jobs[me].task == if reply.Made? then Record(reply.id) else GiveUp
      ensures !died ==> id == if reply.Made? then Some(reply.id) else None
      ensures system.row == old(system).row
      ensures system.created == old(system).created + if Lands(reply) then 1 else 0
      ensures reply.BrokeOff? ==> PartnerCreates.Pending(system, me)
    {
      Did(BeginCall(me));
      if Lands(reply) {
        Did(CreateLands(me));
      }
      if * {
        Did(Die(me));
        return None, true;
      }
      id, died := if reply.Made? then Some(reply.id) else None, false;
      Did(if reply.Made? then CreateAnswers(me, reply.id) else if reply.BrokeOff? then CallBroke(me)
          else CallFailed(me));
    }

    /** The claim given back, or the id recorded. */
    method Settle(me: JobId, id: Option<string>)
      requires Valid() && At(system, me) && system.jobs[me].task == if id.Some? then Record(id.value) else GiveUp
      modifies this`row, this`trace, this`system
      ensures Valid() && old(trace) <= trace && system.jobs == old(system).jobs - {me}
      ensures system == old(system).(row := row, jobs := system.jobs)
      ensures row == if id.Some? then Recorded(old(row), id.value) else Released(old(row))
    {
      if id.Some? {
        row := row.(mkId := id);
        Did(SaveId(me));
      } else {
        if row.mkId.None? {
          row := row.(claimedAt := None);
        }
        Did(Release(me));
      }
    }

    /** What a job that won the claim does with it. */
    method Resolve(me: JobId, answers: Query -> Answer, reply: Reply) returns (ending: Ending)
      requires Valid() && Truthful(answers) && me !in system.sent && me !in system.landed
      requires At(system, me) && system.jobs[me].task == Begin(Queries(lookup))
      modifies this`row, this`trace, this`system
      ensures Valid() && old(trace) <= trace && system.jobs == old(system).jobs - {me}
      ensures ending.Gave? || ending.Raised? || ending.Crashed?
      ensures row == match ending
                     case Gave(id) => Recorded(old(row), id)
                     case Raised => Released(old(row))
                     case _ => old(row)
      ensures old(system).created <= system.created <= old(system).created + 1
      ensures system.created > old(system).created ==> Lands(reply) && NobodyFound(answers)
      ensures !ending.Crashed? ==> (ending.Raised? <==>
              if NobodyFound(answers) then !reply.Made? else Resolution(lookup, answers).Threw?)
      ensures ending.Gave? && NobodyFound(answers) ==>
              ending.id == reply.id && system.created == old(system).created + 1
      ensures ending.Gave? && !NobodyFound(answers) ==> FoundAs(answers, ending.id)
      ensures ending.Raised? && NobodyFound(answers) && reply.BrokeOff? ==> PartnerCreates.Pending(system, me)
    {
      if * {
        Did(Die(me));
        return Crashed;
      }
      var outcome := SearchAll(me, answers);
      if * {
        Did(Die(me));
        return Crashed;
      }
      var id := if outcome.Found? && outcome.partner.Some? then Some(outcome.partner.value.mkId) else None;
      if outcome == Found(None) {
        var died;
        id, died := CreatePartner(me, reply);
        if died {
          return Crashed;
        }
      }
      Settle(me, id);
      ending := if id.Some? then Gave(id.value) else Raised;
    }

    /** The whole of ensureOrderPartner, with a crash possible after every update and in every call. A claim is given
        back even over a create that may still take effect. `known` says that the order has an address and the shop
        its credential. */
    method EnsureOrderPartner(me: JobId, now: int, known: bool, answers: Query -> Answer, reply: Reply)
      returns (ending: Ending)
      requires Valid() && system.now == now && me !in system.jobs && me !in system.sent && me !in system.landed
      requires Truthful(answers)
      modifies this`row, this`trace, this`system
      ensures Valid() && old(trace) <= trace && system.jobs == old(system).jobs
      ensures old(row).mkId.Some? ==> ending == Gave(old(row).mkId.value) && row == old(row)
      ensures old(row).mkId.None? && !known ==> ending == Nobody && row == old(row)
      ensures old(row).mkId.None? && known && !Claimable(old(row), now) ==> ending == Busy && row == old(row)
      ensures known && Claimable(old(row), now) ==>
                row == match ending
                       case Gave(id) => OrderRow(Some(now), Some(id))
                       case Crashed => OrderRow(Some(now), None)
                       case _ => OrderRow(None, None)
      ensures known && Claimable(old(row), now) && !ending.Crashed? ==>
                (ending.Raised? <==> if NobodyFound(answers) then !reply.Made? else Resolution(lookup, answers).Threw?)
      ensures old(system).created <= system.created <= old(system).created + 1
      ensures system.created > old(system).created ==>
                known && Claimable(old(row), now) && Lands(reply) && NobodyFound(answers)
      ensures ending.Gave? && old(row).mkId.None? ==>
                if NobodyFound(answers) then reply == Made(ending.id) else FoundAs(answers, ending.id)
      ensures old(row).mkId.None? && ending.Raised? && NobodyFound(answers) && reply.BrokeOff? ==>
                row.claimedAt.None? && PartnerCreates.Pending(system, me)
    {
      if row.mkId.Some? {
        return Gave(row.mkId.value);
      }
      if !known {
        return Nobody;
      }
      var won := TryClaim(me, now);
      if !won {
        return Busy;
      }
      ending := Resolve(me, answers, reply);
    }
  }
}
