/** Applying a stored preview of attribute values, batch by batch, resumable after a crash anywhere
    (src/adapters/products/bulk-values.server.ts, src/adapters/shopify/product-workspace.ts). */
module BulkApply {
  import opened Prelude
  import opened BulkValues

  const BATCH := 25
  const OWNERS_PER_CALL := 50
  const METAFIELDS_PER_CALL := 25

  datatype Status = Previewed | Queued | Running | Finished | Stopped

  /** A call that Shopify took, that it refused, or that threw: then nobody knows whether it was taken. */
  datatype Reply = Accepted | Refused(ownerGone: bool, message: string) | Threw

  /** A call's writes, the store its batch had read, and what came of it. */
  datatype Issued = Issued(writes: seq<Write>, read: Store, reply: Reply)

  /** Some call of this one write was refused, and this is how the outcome says so. */
  ghost predicate RefusedAlone(log: seq<Issued>, w: Write, o: Outcome) {
    exists k :: 0 <= k < |log| && Says(log[k], w, o)
  }

  /** The owner is gone, or Shopify's message, cut to two hundred characters. */
  predicate Says(call: Issued, w: Write, o: Outcome) {
    && call.writes == [w] && call.reply.Refused?
    && if call.reply.ownerGone then o == Gone
       else o.Failed? && o.message <= call.reply.message && |o.message| == Min(200, |call.reply.message|)
  }

  lemma StillRefused(log: seq<Issued>, later: seq<Issued>, w: Write, o: Outcome)
    requires RefusedAlone(log, w, o) && log <= later
    ensures RefusedAlone(later, w, o)
  {
    var k :| 0 <= k < |log| && Says(log[k], w, o);
    assert Says(later[k], w, o);
  }

  /** Every write issued was permitted by what its batch had read. */
  ghost predicate Judged(canon: Canon, changes: seq<Change>, log: seq<Issued>) {
    forall k :: 0 <= k < |log| ==> AllPermitted(canon, changes, log[k].read, log[k].writes)
  }

  predicate OwnersKnown(store: Store, ws: seq<Write>) {
    forall k :: 0 <= k < |ws| ==> ws[k].owner in store
  }

  function Failure(reply: Reply): Outcome
    requires reply.Refused?
  {
    if reply.ownerGone then Gone else Failed(if |reply.message| <= 200 then reply.message else reply.message[..200])
  }

  ghost predicate NoRepeat(todo: seq<nat>) {
    forall i, j :: 0 <= i < j < |todo| ==> todo[i] != todo[j]
  }

  /** Of the changes to write, those with a value to set, or those to clear. */
  function Which(changes: seq<Change>, todo: seq<nat>, sets: bool): (r: seq<nat>)
    requires Indexes(changes, todo)
    ensures Indexes(changes, r) && (NoRepeat(todo) ==> NoRepeat(r))
    ensures forall i :: i in r <==> i in todo && Sets(changes[i]) == sets
  {
    if todo == [] then []
    else
      var before, i := Which(changes, todo[..|todo| - 1], sets), todo[|todo| - 1];
      assert todo == todo[..|todo| - 1] + [i];
      if Sets(changes[i]) == sets then before + [i] else before
  }

  /** The order in which a batch's writes go out: sets first. */
  function Order(changes: seq<Change>, todo: seq<nat>): (r: seq<nat>)
    requires Indexes(changes, todo)
    ensures Indexes(changes, r) && (NoRepeat(todo) ==> NoRepeat(r))
    ensures forall i :: i in r <==> i in todo
    ensures WritesOf(changes, Which(changes, todo, true)) + WritesOf(changes, Which(changes, todo, false))
            == WritesOf(changes, r)
  {
    var sets, clears := Which(changes, todo, true), Which(changes, todo, false);
    assert forall k :: 0 <= k < |sets| ==> sets[k] in sets;
    assert forall k :: 0 <= k < |clears| ==> clears[k] in clears;
    sets + clears
  }

  function Done(c: Change): Outcome {
    if c.op.Clear? then Cleared else Written
  }

  function AllDone(changes: seq<Change>, todo: seq<nat>): (r: map<nat, Outcome>)
    requires Indexes(changes, todo)
    ensures forall i :: i in r <==> i in todo
    ensures forall i :: i in r ==> i < |changes| && r[i] == Done(changes[i])
  {
    map i: nat | i in todo :: Done(changes[i])
  }

  function OwnersOf(changes: seq<Change>, batch: seq<nat>): (r: seq<Owner>)
    requires Indexes(changes, batch)
    ensures |r| == |batch| && forall k :: 0 <= k < |r| ==> r[k] == changes[batch[k]].owner
  {
    seq(|batch|, k requires 0 <= k < |batch| => changes[batch[k]].owner)
  }

  function KeysOf(changes: seq<Change>, batch: seq<nat>): (r: seq<Key>)
    requires Indexes(changes, batch)
    ensures |r| == |batch| && forall k :: 0 <= k < |r| ==> r[k] == changes[batch[k]].key
  {
    seq(|batch|, k requires 0 <= k < |batch| => changes[batch[k]].key)
  }

  /** No batch is judged against a key the reader dropped. */
  lemma ReadJudgesTrue(canon: Canon, changes: seq<Change>, batch: seq<nat>, store: Store, k: nat)
    requires Indexes(changes, batch) && k < |batch| <= READ_CAP
    ensures var live := Read(store, OwnersOf(changes, batch), Wanted(KeysOf(changes, batch)));
            Judge(canon, changes[batch[k]], live) == Judge(canon, changes[batch[k]], store)
  {
    var c := changes[batch[k]];
    assert OwnersOf(changes, batch)[k] == c.owner && KeysOf(changes, batch)[k] == c.key;
    ReadIsTrue(store, OwnersOf(changes, batch), KeysOf(changes, batch), c.owner, c.key);
  }

  /** The changes without an outcome, in order. */
  function PendingUpTo(outcomes: seq<Option<Outcome>>, n: nat): (r: seq<nat>)
    requires n <= |outcomes|
    ensures forall k :: 0 <= k < |r| ==> r[k] < n
    ensures forall j, k :: 0 <= j < k < |r| ==> r[j] != r[k]
    ensures forall i :: i in r <==> 0 <= i < n && outcomes[i].None?
  {
    if n == 0 then []
    else if outcomes[n - 1].None? then PendingUpTo(outcomes, n - 1) + [n - 1]
    else PendingUpTo(outcomes, n - 1)
  }

  function Merge(outcomes: seq<Option<Outcome>>, result: map<nat, Outcome>): (r: seq<Option<Outcome>>)
    ensures |r| == |outcomes|
    ensures forall i :: 0 <= i < |r| ==> r[i] == if i in result then Some(result[i]) else outcomes[i]
  {
    seq(|outcomes|, i requires 0 <= i < |outcomes| => if i in result then Some(result[i]) else outcomes[i])
  }

  class BulkJob {
    const preview: Preview
    var store: Store
    var status: Status
    var saved: seq<Option<Outcome>>
    /** The store as the first run found it, whether nobody else has touched it and Shopify refused nothing since,
        and every write issued. */
    ghost var first: Store
    ghost var calm: bool
    ghost var log: seq<Issued>
    /** What the batch of each saved outcome had read. */
    ghost var seen: map<nat, Store>

    /** Where a calm import ends. */
    ghost function Goal(): Store
      reads this
    {
      ApplyOnce(preview.canon, first, preview.changes)
    }

    ghost predicate Goes()
      reads this
    {
      && Judged(preview.canon, preview.changes, log)
      && (calm ==> Between(first, Goal(), store))
    }

    ghost predicate Settled(outcomes: seq<Option<Outcome>>)
      requires |outcomes| == |preview.changes|
      reads this
    {
      forall i :: 0 <= i < |outcomes| && outcomes[i].Some? ==>
        Held(store, preview.changes[i]) == Held(Goal(), preview.changes[i])
    }

    /** What a batch decided on what it had read; or, where it decided to write, that it has, or that Shopify refused to
        take this change by itself. */
    ghost predicate ExplainedBy(told: seq<Issued>, i: nat, o: Outcome, read: Store)
      requires i < |preview.changes|
    {
      match Judge(preview.canon, preview.changes[i], read)
      case Keep(kept) => o == kept
      case DoWrite => o == Done(preview.changes[i]) || RefusedAlone(told, WriteOf(preview.changes[i]), o)
    }

    ghost predicate Explained(i: nat, o: Outcome, read: Store)
      requires i < |preview.changes|
      reads this
    {
      ExplainedBy(log, i, o, read)
    }

    ghost predicate AllExplained()
      requires |saved| == |preview.changes|
      reads this
    {
      forall i :: 0 <= i < |saved| && saved[i].Some? ==> i in seen && Explained(i, saved[i].value, seen[i])
    }

    ghost predicate Valid()
      reads this
    {
      && Goes() && |saved| == |preview.changes| && (calm ==> Settled(saved)) && AllExplained()
      && (status.Finished? ==> forall i :: 0 <= i < |saved| ==> saved[i].Some?)
    }

    constructor (preview: Preview, store: Store)
      ensures Valid() && this.preview == preview && this.store == store && status == Previewed
      ensures first == store && calm && log == [] && saved == seq(|preview.changes|, _ => None)
    {
      this.preview, this.store, status := preview, store, Previewed;
      saved := seq(|preview.changes|, _ => None);
      first, calm, log, seen := store, true, [], map[];
      StartsBetween(preview.canon, store, preview.changes);
    }

    /** Somebody else edits the shop. */
    method Edit(edited: Store)
      requires Goes()
      modifies this`store, this`calm
      ensures Goes() && store == edited && !calm
    {
      store, calm := edited, false;
    }

    /** The named metafields as they are now, or nothing when a call throws. */
    method ReadOwnerMetafields(owners: seq<Owner>, keys: seq<Key>) returns (live: Option<Store>)
      ensures live.Some? ==> live.value == Read(store, owners, Wanted(keys))
    {
      var result: Store := map[];
      var wanted, ids := Wanted(keys), Distinct(owners);
      if ids == [] || wanted == [] {
        return Some(result);
      }
      var start := 0;
      while start < |ids|
        invariant 0 <= start <= |ids| && result == Read(store, ids[..start], wanted)
      {
        if * {
          return None;
        }
        var end := if start + OWNERS_PER_CALL < |ids| then start + OWNERS_PER_CALL else |ids|;
        assert ids[..end] == ids[..start] + ids[start..end];
        result := result + Read(store, ids[start..end], wanted);
        start := end;
      }
      assert ids[..start] == ids;
      live := Some(result);
    }

    /** What Shopify makes of a call: it takes it whole, and the answer may be lost; it refuses it whole; or it never
        hears of it. */
    method Hear(ws: seq<Write>) returns (reply: Reply, ghost taken: seq<Write>)
      modifies this`store, this`calm
      ensures store == PutAll(old(store), taken) && (taken == ws || taken == [])
      ensures reply.Accepted? ==> taken == ws && OwnersKnown(store, ws)
      ensures if reply.Refused? then !calm else calm == old(calm)
    {
      reply, taken := Threw, [];
      if * {
        var gone: bool, message: string := *, *;
        reply, calm := Refused(gone, message), false;
      } else if OwnersKnown(store, ws) {
        store, taken := PutAll(store, ws), ws;
        if * {
          reply := Accepted;
        }
      }
    }

    /** One call, and the writes still to come. */
    method Call(ws: seq<Write>, ghost rest: seq<Write>, ghost read: Store)
      returns (reply: Reply, ghost taken: seq<Write>)
      requires Goes() && Allowed(ws + rest, read)
      modifies this`store, this`calm, this`log
      ensures Goes() && (reply.Accepted? ==> Allowed(rest, read)) && log == old(log) + [Issued(ws, read, reply)]
      ensures store == PutAll(old(store), taken) && (taken == ws || taken == [])
      ensures reply.Accepted? ==> taken == ws && OwnersKnown(store, ws)
      ensures if reply.Refused? then !calm else calm == old(calm)
    {
      Remaining(preview.canon, preview.changes, store, read, ws, rest);
      if calm {
        BatchGoesOn(preview.canon, first, preview.changes, store, ws);
      }
      reply, taken := Hear(ws);
      log := log + [Issued(ws, read, reply)];
    }

    /** Writes that may be issued: no slot twice, each permitted by what was read, which is what the store still
        holds if nobody interfered. */
    ghost predicate Allowed(ws: seq<Write>, read: Store)
      reads this
    {
      && Apart(ws) && AllPermitted(preview.canon, preview.changes, read, ws)
      && (calm ==> AllPermitted(preview.canon, preview.changes, store, ws))
    }

    /** A list of one was refused by itself. */
    ghost predicate LastRefused(list: seq<Write>, read: Store, reply: Reply)
      reads this
    {
      list != [] && (|list| == 1 ==> log != [] && log[|log| - 1] == Issued(list, read, reply))
    }

    /** The next call of a list, twenty-five at most. */
    method SendNext(list: seq<Write>, at: nat, ghost read: Store)
      returns (reply: Reply, ghost taken: seq<Write>, end: nat)
      requires at < |list| && Goes() && Allowed(list[at..], read)
      modifies this`store, this`calm, this`log
      ensures at < end <= |list| && Goes() && old(log) <= log && store == PutAll(old(store), taken)
      ensures taken == [] || taken == list[at..end]
      ensures reply.Accepted? ==> taken == list[at..end] && OwnersKnown(store, taken) && Allowed(list[end..], read)
      ensures if reply.Refused? then !calm && LastRefused(list, read, reply) else calm == old(calm)
    {
      end := if at + METAFIELDS_PER_CALL < |list| then at + METAFIELDS_PER_CALL else |list|;
      Slices(list, at, end);
      reply, taken := Call(list[at..end], list[end..], read);
    }

    /** One list; the first refusal stops the rest. */
    method SendChunked(list: seq<Write>, ghost read: Store) returns (reply: Reply, ghost taken: seq<Write>)
      requires Goes() && Allowed(list, read)
      modifies this`store, this`calm, this`log
      ensures Goes() && old(log) <= log && store == PutAll(old(store), taken) && taken <= list
      ensures reply.Accepted? ==> taken == list && OwnersKnown(store, list)
      ensures if reply.Refused? then !calm && LastRefused(list, read, reply) else calm == old(calm)
    {
      var at := 0;
      reply, taken := Accepted, [];
      while at < |list| && reply.Accepted?
        invariant 0 <= at <= |list| && taken <= list
        invariant Goes() && old(log) <= log && store == PutAll(old(store), taken)
        invariant reply.Accepted? ==> taken == list[..at] && OwnersKnown(store, taken) && Allowed(list[at..], read)
        invariant if reply.Refused? then !calm && LastRefused(list, read, reply) else calm == old(calm)
      {
        ghost var more;
        var end;
        reply, more, end := SendNext(list, at, read);
        PutAllAppend(old(store), taken, more);
        Slices(list, at, end);
        at, taken := end, taken + more;
      }
    }

    lemma LastOfBoth(writes: seq<Write>, clears: seq<Write>, read: Store, reply: Reply)
      requires LastRefused(writes, read, reply) || LastRefused(clears, read, reply)
      ensures LastRefused(writes + clears, read, reply)
    {
      assert writes == [] ==> writes + clears == clears;
      assert clears == [] ==> writes + clears == writes;
    }

    /** Sets and then deletes. What was taken is a beginning of the two lists, and all of both when nothing was
        refused and no call threw. */
    method WriteMetafields(writes: seq<Write>, clears: seq<Write>, ghost read: Store)
      returns (reply: Reply, ghost taken: seq<Write>)
      requires Goes() && Allowed(writes + clears, read)
      modifies this`store, this`calm, this`log
      ensures Goes() && old(log) <= log && taken <= writes + clears && store == PutAll(old(store), taken)
      ensures reply.Accepted? ==> taken == writes + clears && OwnersKnown(store, writes + clears)
      ensures if reply.Refused? then !calm && LastRefused(writes + clears, read, reply) else calm == old(calm)
    {
      Remaining(preview.canon, preview.changes, store, read, writes, clears);
      reply, taken := SendChunked(writes, read);
      if reply.Accepted? {
        ghost var more;
        reply, more := SendChunked(clears, read);
        PutAllAppend(old(store), taken, more);
        taken := taken + more;
      }
      if reply.Refused? {
        LastOfBoth(writes, clears, read, reply);
      }
    }

    /** An outcome and its slot: a write's holds what was sent, and in a calm import the change has arrived. */
    ghost predicate Told(i: nat, o: Outcome, read: Store)
      requires i < |preview.changes|
      reads this
    {
      var c := preview.changes[i];
      && Explained(i, o, read)
      && (Judge(preview.canon, c, read).DoWrite? && o == Done(c) ==> Held(store, c) == WriteOf(c).put)
      && (calm ==> Held(store, c) == Held(Goal(), c))
    }

    /** Who is written and who is left alone, by what was read. */
    method Sort(indexes: seq<nat>, live: Store, ghost read: Store)
      returns (outcomes: map<nat, Outcome>, toWrite: seq<nat>)
      requires Indexes(preview.changes, indexes) && NoRepeat(indexes)
      requires forall k :: 0 <= k < |indexes| ==> Judge(preview.canon, preview.changes[indexes[k]], live)
                                                  == Judge(preview.canon, preview.changes[indexes[k]], read)
      ensures Indexes(preview.changes, toWrite) && NoRepeat(toWrite)
      ensures forall i :: i in toWrite <==> i in indexes && Judge(preview.canon, preview.changes[i], read).DoWrite?
      ensures forall i :: i in outcomes <==> i in indexes && i !in toWrite
      ensures forall i :: i in outcomes ==> Judge(preview.canon, preview.changes[i], read) == Keep(outcomes[i])
    {
      outcomes, toWrite := map[], [];
      for k := 0 to |indexes|
        invariant Indexes(preview.changes, toWrite) && NoRepeat(toWrite)
        invariant forall i :: i in toWrite <==>
                i in indexes[..k] && Judge(preview.canon, preview.changes[i], read).DoWrite?
        invariant forall i :: i in outcomes <==> i in indexes[..k] && i !in toWrite
        invariant forall i :: i in outcomes ==> Judge(preview.canon, preview.changes[i], read) == Keep(outcomes[i])
      {
        var i := indexes[k];
        assert indexes[..k + 1] == indexes[..k] + [i];
        match Judge(preview.canon, preview.changes[i], live) {
          case DoWrite => toWrite := toWrite + [i];
          case Keep(outcome) => outcomes := outcomes[i := outcome];
        }
      }
      assert indexes[..|indexes|] == indexes;
    }

    /** One change's write by itself. */
    method SendAlone(c: Change, ghost read: Store) returns (reply: Reply)
      requires Goes() && !calm && Permitted(preview.canon, preview.changes, read, WriteOf(c))
      modifies this`store, this`calm, this`log
      ensures Goes() && !calm && old(log) <= log
      ensures store == old(store) || store == Put(old(store), WriteOf(c))
      ensures reply.Accepted? ==> Held(store, c) == WriteOf(c).put
      ensures reply.Refused? ==> log != [] && log[|log| - 1] == Issued([WriteOf(c)], read, reply)
    {
      var w := WriteOf(c);
      ghost var taken;
      if Sets(c) {
        OneIsAllowed(w, [w], [], read);
        reply, taken := WriteMetafields([w], [], read);
      } else {
        OneIsAllowed(w, [], [w], read);
        reply, taken := WriteMetafields([], [w], read);
      }
      OneAtMost(old(store), w, taken);
    }

    lemma OneIsAllowed(w: Write, writes: seq<Write>, clears: seq<Write>, read: Store)
      requires !calm && Permitted(preview.canon, preview.changes, read, w)
      requires (writes == [w] && clears == []) || (writes == [] && clears == [w])
      ensures Allowed(writes + clears, read) && writes + clears == [w]
    {
      assert writes + clears == [w];
    }

    lemma OneAtMost(before: Store, w: Write, taken: seq<Write>)
      requires taken <= [w]
      ensures taken == [] || taken == [w]
      ensures PutAll(before, taken) == if taken == [] then before else Put(before, w)
      ensures taken == [w] && OwnersKnown(PutAll(before, taken), taken) ==>
                Slot(PutAll(before, taken), w.owner, w.key) == w.put
    {
      assert PutAll(before, [w]) == Put(PutAll(before, []), w);
    }

    /** One change on its own, after its batch's call was refused. */
    method WriteOne(i: nat, ghost read: Store) returns (outcome: Option<Outcome>)
      requires Goes() && !calm && i < |preview.changes| && Judge(preview.canon, preview.changes[i], read).DoWrite?
      modifies this`store, this`calm, this`log
      ensures Goes() && !calm && old(log) <= log
      ensures outcome.Some? ==> Told(i, outcome.value, read)
      ensures store == old(store) || store == Put(old(store), WriteOf(preview.changes[i]))
    {
      var c := preview.changes[i];
      var reply := SendAlone(c, read);
      match reply {
        case Accepted => outcome := Some(Done(c));
        case Refused(_, _) =>
          outcome := Some(Failure(reply));
          assert Says(log[|log| - 1], WriteOf(c), outcome.value);
        case Threw => outcome := None;
      }
    }

    /** An outcome explained stays so. */
    lemma StillExplained(told: seq<Issued>, i: nat, o: Outcome, read: Store)
      requires i < |preview.changes| && told <= log && ExplainedBy(told, i, o, read)
      ensures Explained(i, o, read)
    {
      if Judge(preview.canon, preview.changes[i], read).DoWrite? && o != Done(preview.changes[i]) {
        StillRefused(told, log, WriteOf(preview.changes[i]), o);
      }
    }

    /** The writes of a refused batch, one at a time. */
    method OneByOne(toWrite: seq<nat>, ghost read: Store) returns (outcomes: map<nat, Outcome>, threw: bool)
      requires Goes() && !calm && Indexes(preview.changes, toWrite) && NoRepeat(toWrite)
      requires forall k :: 0 <= k < |toWrite| ==> Judge(preview.canon, preview.changes[toWrite[k]], read).DoWrite?
      modifies this`store, this`calm, this`log
      ensures Goes() && !calm && old(log) <= log
      ensures !threw ==> forall i :: i in outcomes <==> i in toWrite
      ensures !threw ==> forall i :: i in outcomes ==> Told(i, outcomes[i], read)
    {
      outcomes, threw := map[], false;
      for k := 0 to |toWrite|
        invariant Goes() && !calm && old(log) <= log
        invariant forall i :: i in outcomes <==> i in toWrite[..k]
        invariant forall i :: i in outcomes ==> Told(i, outcomes[i], read)
      {
        ghost var before, told := store, log;
        var outcome := WriteOne(toWrite[k], read);
        if outcome.None? {
          return outcomes, true;
        }
        forall i | i in outcomes
          ensures Told(i, outcomes[i], read)
        {
          assert i != toWrite[k];
          PutElsewhere(before, preview, toWrite[k], i);
          StillExplained(told, i, outcomes[i], read);
        }
        assert toWrite[..k + 1] == toWrite[..k] + [toWrite[k]];
        outcomes := outcomes[toWrite[k] := outcome.value];
      }
    }

    lemma SentIsTold(toWrite: seq<nat>, before: Store, i: nat, read: Store)
      requires Indexes(preview.changes, toWrite) && NoRepeat(toWrite) && i in toWrite
      requires var all := WritesOf(preview.changes, Order(preview.changes, toWrite));
               Apart(all) && OwnersKnown(before, all) && store == PutAll(before, all)
      requires calm ==> Between(first, Goal(), read)
      requires Judge(preview.canon, preview.changes[i], read).DoWrite?
      ensures Told(i, Done(preview.changes[i]), read)
    {
      SentAt(preview, toWrite, before, i);
      if calm {
        WriteGoesOn(preview.canon, first, preview.changes, read, i);
      }
    }

    /** The writes of a batch in one go, or one at a time when Shopify refuses that. */
    method SendBatch(toWrite: seq<nat>, ghost read: Store) returns (outcomes: map<nat, Outcome>, threw: bool)
      requires Goes() && Indexes(preview.changes, toWrite) && NoRepeat(toWrite) && (calm ==> store == read)
      requires forall k :: 0 <= k < |toWrite| ==> Judge(preview.canon, preview.changes[toWrite[k]], read).DoWrite?
      modifies this`store, this`calm, this`log
      ensures Goes() && old(log) <= log && (calm ==> old(calm) && Onward(Goal(), old(store), store))
      ensures !threw ==> forall i :: i in outcomes <==> i in toWrite
      ensures !threw ==> forall i :: i in outcomes ==> Told(i, outcomes[i], read)
    {
      var sets, clears := Which(preview.changes, toWrite, true), Which(preview.changes, toWrite, false);
      ghost var all := WritesOf(preview.changes, Order(preview.changes, toWrite));
      BatchIsApart(preview, toWrite, read);
      var reply, taken := WriteMetafields(WritesOf(preview.changes, sets), WritesOf(preview.changes, clears), read);
      if calm {
        BeginningGoesOn(preview, first, read, all, taken);
      }
      outcomes, threw := map[], reply.Threw?;
      if reply.Accepted? {
        outcomes := AllDone(preview.changes, toWrite);
        forall i | i in toWrite
          ensures Told(i, outcomes[i], read)
        {
          SentIsTold(toWrite, old(store), i, read);
        }
      } else if reply.Refused? {
        outcomes, threw := OneByOne(toWrite, read);
      }
    }

    /** One batch: read, judged, written. Others may edit the shop between the read and the write. */
    method ApplyBatch(indexes: seq<nat>) returns (outcomes: map<nat, Outcome>, threw: bool, ghost read: Store)
      requires Goes() && Indexes(preview.changes, indexes) && NoRepeat(indexes) && |indexes| <= BATCH
      modifies this`store, this`calm, this`log
      ensures Goes() && old(log) <= log && (calm ==> old(calm) && Onward(Goal(), old(store), store))
      ensures !threw ==> forall i :: i in outcomes <==> i in indexes
      ensures !threw ==> forall i :: i in outcomes ==> Told(i, outcomes[i], read)
    {
      read := store;
      var live := ReadOwnerMetafields(OwnersOf(preview.changes, indexes), KeysOf(preview.changes, indexes));
      if live.None? {
        return map[], true, read;
      }
      forall k | 0 <= k < |indexes|
        ensures Judge(preview.canon, preview.changes[indexes[k]], live.value)
                == Judge(preview.canon, preview.changes[indexes[k]], read)
      {
        ReadJudgesTrue(preview.canon, preview.changes, indexes, read, k);
      }
      var kept, toWrite := Sort(indexes, live.value, read);
      if * {
        var edited: Store := *;
        Edit(edited);
      }
      outcomes, threw := map[], false;
      if toWrite != [] {
        outcomes, threw := SendBatch(toWrite, read);
      }
      if !threw {
        forall i | i in kept
          ensures Told(i, kept[i], read)
        {
          if calm {
            WriteGoesOn(preview.canon, first, preview.changes, read, i);
            assert Slot(read, preview.changes[i].owner, preview.changes[i].key)
                == Slot(Goal(), preview.changes[i].owner, preview.changes[i].key);
          }
        }
        outcomes := kept + outcomes;
      }
    }

    /** The person starts the import, or continues one that stopped. */
    method Start()
      requires Valid()
      modifies this`status
      ensures Valid() && status == if old(status).Previewed? || old(status).Stopped? then Queued else old(status)
    {
      if status.Previewed? || status.Stopped? {
        status := Queued;
      }
    }

    /** One batch and its outcomes saved. */
    method Work(batch: seq<nat>) returns (died: bool, threw: bool)
      requires Valid() && status.Running? && NoRepeat(batch) && |batch| <= BATCH
      requires forall k :: 0 <= k < |batch| ==> batch[k] < |saved| && saved[batch[k]].None?
      modifies this`store, this`calm, this`log, this`saved, this`seen
      ensures Valid() && old(log) <= log && (calm ==> old(calm))
      ensures if died || threw then saved == old(saved) else forall i :: 0 <= i < |saved| ==>
              saved[i].Some? == (old(saved)[i].Some? || i in batch)
      ensures forall i :: 0 <= i < |saved| && old(saved)[i].Some? ==> saved[i] == old(saved)[i]
    {
      if * {
        var edited: Store := *;
        Edit(edited);
      }
      ghost var before, told, read := store, log, store;
      var result;
      result, threw, read := ApplyBatch(batch);
      died := *;
      if calm {
        StillSettled(before);
      }
      AllStillExplained(told);
      if !died && !threw {
        Save(result, read);
      }
    }

    /** A batch's outcomes saved beside the others. */
    method Save(result: map<nat, Outcome>, ghost read: Store)
      requires |saved| == |preview.changes| && AllExplained()
      requires forall i :: i in result ==> i < |saved| && Explained(i, result[i], read)
      modifies this`saved, this`seen
      ensures saved == Merge(old(saved), result) && AllExplained()
    {
      saved := Merge(saved, result);
      seen := map i | i in seen.Keys + result.Keys :: if i in result then read else seen[i];
    }

    lemma AllStillExplained(told: seq<Issued>)
      requires |saved| == |preview.changes| && told <= log
      requires forall i :: 0 <= i < |saved| && saved[i].Some? ==>
                 i in seen && ExplainedBy(told, i, saved[i].value, seen[i])
      ensures AllExplained()
    {
      forall i | 0 <= i < |saved| && saved[i].Some?
        ensures Explained(i, saved[i].value, seen[i])
      {
        StillExplained(told, i, saved[i].value, seen[i]);
      }
    }

    /** What had arrived in one store has arrived in any store further on. */
    lemma StillSettled(before: Store)
      requires |saved| == |preview.changes| && Onward(Goal(), before, store)
      requires forall i :: 0 <= i < |saved| && saved[i].Some? ==>
              Held(before, preview.changes[i]) == Held(Goal(), preview.changes[i])
      ensures Settled(saved)
    {
      forall i | 0 <= i < |saved| && saved[i].Some?
        ensures Held(store, preview.changes[i]) == Held(Goal(), preview.changes[i])
      {
        assert Slot(before, preview.changes[i].owner, preview.changes[i].key)
            == Slot(Goal(), preview.changes[i].owner, preview.changes[i].key);
      }
    }

    /** The job. It may die anywhere; what is saved then is what was saved last. */
    method RunBulkApply() returns (died: bool)
      requires Valid()
      modifies this`store, this`calm, this`log, this`saved, this`seen, this`status
      ensures Valid() && old(log) <= log && (calm ==> old(calm))
      ensures !old(status).Queued? && !old(status).Running? ==>
              saved == old(saved) && store == old(store) && status == old(status)
      ensures forall i :: 0 <= i < |saved| && old(saved)[i].Some? ==> saved[i] == old(saved)[i]
      ensures (old(status).Queued? || old(status).Running?) && !died ==> status.Finished? || status.Stopped?
    {
      died := false;
      if !(status.Queued? || status.Running?) {
        return;
      }
      status := Running;
      var pending := PendingUpTo(saved, |saved|);
      var start := 0;
      while start < |pending|
        invariant 0 <= start <= |pending| && NoRepeat(pending)
        invariant Valid() && status.Running? && old(log) <= log && (calm ==> old(calm))
        invariant forall i :: 0 <= i < |saved| ==> (saved[i].None? <==> i in pending[start..])
        invariant forall i :: 0 <= i < |saved| && old(saved)[i].Some? ==> saved[i] == old(saved)[i]
      {
        var end := if start + BATCH < |pending| then start + BATCH else |pending|;
        Cut(pending, start, end);
        assert forall k :: 0 <= k < end - start ==> pending[start..end][k] in pending[start..];
        var threw;
        died, threw := Work(pending[start..end]);
        if died {
          return;
        }
        if threw {
          status := Stopped;
          return;
        }
        start := end;
      }
      status := Finished;
    }
  }

  lemma Cut(list: seq<nat>, from: nat, end: nat)
    requires NoRepeat(list) && from <= end <= |list|
    ensures forall i :: i in list[from..] <==> i in list[from..end] || i in list[end..]
    ensures forall i :: i in list[end..] ==> i !in list[from..end]
    ensures NoRepeat(list[from..end])
  {
    assert list[from..] == list[from..end] + list[end..];
  }

  lemma PutElsewhere(store: Store, p: Preview, w: nat, i: nat)
    requires w < |p.changes| && i < |p.changes| && w != i
    ensures Held(Put(store, WriteOf(p.changes[w])), p.changes[i]) == Held(store, p.changes[i])
  {
    assert Target(p.changes[i]) != Target(p.changes[w]);
  }

  lemma Slices<T>(list: seq<T>, from: nat, end: nat)
    requires from <= end <= |list|
    ensures list[..from] + list[from..end] == list[..end] && list[from..end] + list[end..] == list[from..]
    ensures |list| == 1 && from < end ==> list[from..end] == list
  {}

  /** Both halves of a permitted list are, and writing the first leaves the second permitted. */
  lemma Remaining(canon: Canon, changes: seq<Change>, store: Store, read: Store, a: seq<Write>, b: seq<Write>)
    requires Apart(a + b) && AllPermitted(canon, changes, read, a + b)
    ensures Apart(a) && Apart(b) && AllPermitted(canon, changes, read, a) && AllPermitted(canon, changes, read, b)
    ensures AllPermitted(canon, changes, store, a + b) ==> AllPermitted(canon, changes, store, a)
                                                           && AllPermitted(canon, changes, PutAll(store, a), b)
  {
    forall k | 0 <= k < |a| ensures a[k] == (a + b)[k] {}
    forall k | 0 <= k < |b| ensures b[k] == (a + b)[|a| + k] {}
    if AllPermitted(canon, changes, store, a + b) {
      forall k | 0 <= k < |b| ensures Permitted(canon, changes, PutAll(store, a), b[k]) {
        assert b[k] == (a + b)[|a| + k];
        forall j | 0 <= j < |a| ensures Place(a[j]) != (b[k].owner, b[k].key) {
          assert Place((a + b)[j]) != Place((a + b)[|a| + k]);
        }
        PutAllElsewhere(store, a, b[k].owner, b[k].key);
        assert Permitted(canon, changes, store, b[k]);
      }
    }
  }

  lemma BeginningGoesOn(p: Preview, first: Store, store: Store, all: seq<Write>, taken: seq<Write>)
    requires Apart(all) && AllPermitted(p.canon, p.changes, store, all) && taken <= all
    requires Between(first, ApplyOnce(p.canon, first, p.changes), store)
    ensures Onward(ApplyOnce(p.canon, first, p.changes), store, PutAll(store, taken))
  {
    assert all == taken + all[|taken|..];
    Remaining(p.canon, p.changes, store, store, taken, all[|taken|..]);
    BatchGoesOn(p.canon, first, p.changes, store, taken);
  }

  lemma BatchIsApart(p: Preview, toWrite: seq<nat>, read: Store)
    requires Indexes(p.changes, toWrite) && NoRepeat(toWrite)
    requires forall k :: 0 <= k < |toWrite| ==> Judge(p.canon, p.changes[toWrite[k]], read).DoWrite?
    ensures var all := WritesOf(p.changes, Order(p.changes, toWrite));
            Apart(all) && AllPermitted(p.canon, p.changes, read, all)
  {
    var order := Order(p.changes, toWrite);
    var all := WritesOf(p.changes, order);
    forall i, j | 0 <= i < j < |all|
      ensures Place(all[i]) != Place(all[j])
    {
      assert Target(p.changes[order[i]]) != Target(p.changes[order[j]]);
    }
    forall k | 0 <= k < |all|
      ensures Permitted(p.canon, p.changes, read, all[k])
    {
      assert order[k] in toWrite;
    }
  }

  /** A batch sent whole: each of its slots holds what was sent. */
  lemma SentAt(p: Preview, toWrite: seq<nat>, store: Store, i: nat)
    requires Indexes(p.changes, toWrite) && NoRepeat(toWrite) && i in toWrite
    requires var all := WritesOf(p.changes, Order(p.changes, toWrite)); Apart(all) && OwnersKnown(store, all)
    ensures Held(PutAll(store, WritesOf(p.changes, Order(p.changes, toWrite))), p.changes[i])
            == WriteOf(p.changes[i]).put
  {
    var order := Order(p.changes, toWrite);
    var k :| 0 <= k < |order| && order[k] == i;
    PutAllAt(store, WritesOf(p.changes, order), k);
  }

  /** A finished import that nobody interfered with, however often it crashed or a call was lost, has applied
      every change once: every target is as ApplyOnce leaves it and no other field has changed. */
  lemma FinishedMeansAppliedOnce(job: BulkJob)
    requires job.Valid() && job.calm && job.status.Finished?
    ensures job.store == ApplyOnce(job.preview.canon, job.first, job.preview.changes)
  {
    var p, goal := job.preview, ApplyOnce(job.preview.canon, job.first, job.preview.changes);
    forall owner, key
      ensures Slot(job.store, owner, key) == Slot(goal, owner, key)
    {
      if i :| 0 <= i < |p.changes| && Target(p.changes[i]) == (owner, key) {
        assert job.saved[i].Some?;
        assert Held(job.store, p.changes[i]) == Held(goal, p.changes[i]);
      } else {
        ApplyOnceElsewhere(p.canon, job.first, p.changes, owner, key);
        assert Slot(goal, owner, key) == Slot(job.first, owner, key);
      }
    }
    Arrived(goal, job.store);
  }

  /** No run, whatever happened around it, ever issued a write to a field that its batch had read as anything
      but the value the preview saw. */
  lemma WrittenOnlyAsPreviewed(job: BulkJob, k: nat, j: nat) returns (i: nat)
    requires job.Valid() && k < |job.log| && j < |job.log[k].writes|
    ensures i < |job.preview.changes| && job.log[k].writes[j] == WriteOf(job.preview.changes[i])
    ensures var c := job.preview.changes[i];
            && c.owner in job.log[k].read
            && Canonical(job.preview.canon, c.kind, Held(job.log[k].read, c)) == c.beforeCanon != c.afterCanon
  {
    var p, call := job.preview, job.log[k];
    assert Permitted(p.canon, p.changes, call.read, call.writes[j]);
    i :| 0 <= i < |p.changes| && call.writes[j] == WriteOf(p.changes[i])
        && Judge(p.canon, p.changes[i], call.read).DoWrite?;
  }

  /** Every outcome saved, whatever happened around the import, says what became of its change: the owner was not
      there, or its value was the wanted one already, or neither that nor the previewed one; or it was the previewed
      one, and was written or cleared, unless Shopify refused to take this change alone. */
  lemma OutcomesAreTrue(job: BulkJob, i: nat)
    requires job.Valid() && i < |job.saved| && job.saved[i].Some?
    ensures i in job.seen
    ensures var c, o, read := job.preview.changes[i], job.saved[i].value, job.seen[i];
            var now := Canonical(job.preview.canon, c.kind, Held(read, c));
            if c.owner !in read then o == Gone
            else if now == c.afterCanon then o == Unchanged
            else if now != c.beforeCanon then o == ChangedMeanwhile
            else o == (if c.value.None? then Cleared else Written) || RefusedAlone(job.log, WriteOf(c), o)
  {}
}
