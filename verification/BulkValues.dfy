/** Metafields as Shopify holds them, and what one planned change does to them
    (src/adapters/products/bulk-values.server.ts, src/domain/values/cells.ts,
    src/adapters/shopify/product-workspace.ts). */
module BulkValues {
  import opened Prelude
  import opened JsText

  type Owner = string
  /** Namespace and key joined by a dot, the way the reader asks for a metafield. */
  type Key = string

  datatype Stored = Stored(kind: string, value: string)

  type Fields = map<Key, Stored>
  type Store = map<Owner, Fields>

  datatype Op = Set | Clear

  datatype Change = Change(owner: Owner, key: Key, kind: string, shopifyType: string, op: Op, value: Option<string>,
                           beforeCanon: string, afterCanon: string)

  datatype Outcome = Written | Cleared | Unchanged | ChangedMeanwhile | Gone | Failed(message: string)

  datatype Decision = DoWrite | Keep(outcome: Outcome)

  /** One metafield set, or deleted. */
  datatype Write = Write(owner: Owner, key: Key, put: Option<Stored>)

  /** How a stored text of a kind is brought into canonical form when it is not blank. */
  type Canon = (string, string) -> string

  function CanonicalStored(canon: Canon, kind: string, raw: Option<string>): string {
    if raw.None? || Trim(raw.value) == "" then "" else canon(kind, raw.value)
  }

  function Canonical(canon: Canon, kind: string, stored: Option<Stored>): string {
    CanonicalStored(canon, kind, if stored.Some? then Some(stored.value.value) else None)
  }

  function Decide(canon: Canon, c: Change, live: Option<Stored>, ownerKnown: bool): Decision {
    if !ownerKnown then Keep(Gone)
    else if Canonical(canon, c.kind, live) == c.afterCanon then Keep(Unchanged)
    else if Canonical(canon, c.kind, live) != c.beforeCanon then Keep(ChangedMeanwhile)
    else DoWrite
  }

  predicate Sets(c: Change) {
    c.op.Set? && c.value.Some?
  }

  function WriteOf(c: Change): Write {
    Write(c.owner, c.key, if Sets(c) then Some(Stored(c.shopifyType, c.value.value)) else None)
  }

  /** What the preview puts into a change: its wanted value's canonical form, and no value to clear. */
  predicate Planned(canon: Canon, c: Change) {
    c.afterCanon == CanonicalStored(canon, c.kind, c.value) && (c.op.Clear? <==> c.value.None?)
  }

  function Target(c: Change): (Owner, Key) {
    (c.owner, c.key)
  }

  function Place(w: Write): (Owner, Key) {
    (w.owner, w.key)
  }

  /** What a preview stores: planned changes, none of them with the target of another. */
  ghost predicate Plan(canon: Canon, changes: seq<Change>) {
    && (forall i :: 0 <= i < |changes| ==> Planned(canon, changes[i]))
    && (forall i, j {:trigger Target(changes[i]), Target(changes[j])} :: 0 <= i < j < |changes| ==>
        Target(changes[i]) != Target(changes[j]))
  }

  /** A stored preview. */
  datatype Listing = Listing(canon: Canon, changes: seq<Change>)

  type Preview = p: Listing | Plan(p.canon, p.changes) witness Listing((kind, raw) => raw, [])

  /* The store. */

  function Slot(store: Store, owner: Owner, key: Key): Option<Stored> {
    if owner in store && key in store[owner] then Some(store[owner][key]) else None
  }

  function Held(store: Store, c: Change): Option<Stored> {
    Slot(store, c.owner, c.key)
  }

  function Judge(canon: Canon, c: Change, store: Store): Decision {
    Decide(canon, c, Held(store, c), c.owner in store)
  }

  function Put(store: Store, w: Write): Store {
    if w.owner !in store then store
    else store[w.owner := if w.put.Some? then store[w.owner][w.key := w.put.value] else store[w.owner] - {w.key}]
  }

  function PutAll(store: Store, ws: seq<Write>): (r: Store)
    ensures r.Keys == store.Keys
  {
    if ws == [] then store else Put(PutAll(store, ws[..|ws| - 1]), ws[|ws| - 1])
  }

  lemma {:induction false} PutAllAppend(store: Store, a: seq<Write>, b: seq<Write>)
    ensures PutAll(store, a + b) == PutAll(PutAll(store, a), b)
  {
    if b == [] {
      assert a + b == a;
    } else {
      assert (a + b)[..|a + b| - 1] == a + b[..|b| - 1];
      PutAllAppend(store, a, b[..|b| - 1]);
    }
  }

  /** Every change judged once against the store as it is, and done once: what the import means. */
  function ApplyOnce(canon: Canon, store: Store, changes: seq<Change>): Store {
    if changes == [] then store
    else
      var before, c := ApplyOnce(canon, store, changes[..|changes| - 1]), changes[|changes| - 1];
      if Judge(canon, c, before).DoWrite? then Put(before, WriteOf(c)) else before
  }

  lemma {:induction false} ApplyOnceElsewhere(canon: Canon, store: Store, changes: seq<Change>, owner: Owner, key: Key)
    requires forall i :: 0 <= i < |changes| ==> Target(changes[i]) != (owner, key)
    ensures ApplyOnce(canon, store, changes).Keys == store.Keys
    ensures Slot(ApplyOnce(canon, store, changes), owner, key) == Slot(store, owner, key)
  {
    if changes != [] {
      assert Target(changes[|changes| - 1]) != (owner, key);
      ApplyOnceElsewhere(canon, store, changes[..|changes| - 1], owner, key);
    }
  }

  lemma {:induction false} ApplyOnceAt(canon: Canon, store: Store, changes: seq<Change>, i: nat)
    requires i < |changes| && Plan(canon, changes)
    ensures ApplyOnce(canon, store, changes).Keys == store.Keys
    ensures Held(ApplyOnce(canon, store, changes), changes[i])
              == if Judge(canon, changes[i], store).DoWrite? then WriteOf(changes[i]).put else Held(store, changes[i])
  {
    var n := |changes| - 1;
    if i == n {
      ApplyOnceElsewhere(canon, store, changes[..n], changes[n].owner, changes[n].key);
    } else {
      assert Target(changes[i]) != Target(changes[n]);
      ApplyOnceAt(canon, store, changes[..n], i);
    }
  }

  /** What is done with a change: nothing without its owner; nothing over the wanted value; nothing over any other
      value than the previewed one. Blank text and no text at all are the same nothing. */
  lemma DecidesExactly(canon: Canon, c: Change, live: Option<Stored>, known: bool)
    ensures var now := if live.None? || AllSpace(live.value.value) then "" else canon(c.kind, live.value.value);
            Decide(canon, c, live, known)
              == if !known then Keep(Gone) else if now == c.afterCanon then Keep(Unchanged)
                 else if now == c.beforeCanon then DoWrite else Keep(ChangedMeanwhile)
  {
    if live.Some? {
      BlankIff(live.value.value);
    }
  }

  /** The import on a store that still is what the preview saw: every target ends at its wanted value, and where that is
      not the previewed one already, as the very text and type that were asked for, or as no value at all. */
  lemma AppliedMeansWanted(canon: Canon, store: Store, changes: seq<Change>, i: nat)
    requires i < |changes| && Plan(canon, changes)
    requires changes[i].owner in store
    requires Canonical(canon, changes[i].kind, Held(store, changes[i])) == changes[i].beforeCanon
    ensures Canonical(canon, changes[i].kind, Held(ApplyOnce(canon, store, changes), changes[i]))
            == changes[i].afterCanon
    ensures var c := changes[i];
            c.beforeCanon != c.afterCanon ==>
              Held(ApplyOnce(canon, store, changes), c)
              == if c.value.Some? then Some(Stored(c.shopifyType, c.value.value)) else None
  {
    ApplyOnceAt(canon, store, changes, i);
  }

  /** A store on the way from one to another: each slot is as it was, or as it will be. */
  ghost predicate Between(first: Store, goal: Store, store: Store) {
    && store.Keys == first.Keys == goal.Keys
    && forall owner, key :: Slot(store, owner, key) == Slot(first, owner, key)
        || Slot(store, owner, key) == Slot(goal, owner, key)
  }

  lemma {:induction false} StartsBetween(canon: Canon, first: Store, changes: seq<Change>)
    ensures Between(first, ApplyOnce(canon, first, changes), first)
  {
    if changes != [] {
      StartsBetween(canon, first, changes[..|changes| - 1]);
    }
  }

  /** A store with everything there is the goal. */
  lemma Arrived(goal: Store, store: Store)
    requires store.Keys == goal.Keys
    requires forall owner, key :: Slot(store, owner, key) == Slot(goal, owner, key)
    ensures store == goal
  {
    forall owner | owner in store
      ensures store[owner] == goal[owner]
    {
      forall key
        ensures key in store[owner] <==> key in goal[owner]
        ensures key in store[owner] ==> store[owner][key] == goal[owner][key]
      {
        assert Slot(store, owner, key) == Slot(goal, owner, key);
      }
    }
  }

  /** What has arrived stays arrived. */
  ghost predicate Onward(goal: Store, store: Store, after: Store) {
    forall owner, key :: Slot(store, owner, key) == Slot(goal, owner, key) ==>
        Slot(after, owner, key) == Slot(goal, owner, key)
  }

  /** A store on the way judges every change as the first did, or finds it done; so a write moves it on. */
  lemma WriteGoesOn(canon: Canon, first: Store, changes: seq<Change>, store: Store, i: nat)
    requires i < |changes| && Plan(canon, changes) && Between(first, ApplyOnce(canon, first, changes), store)
    ensures var goal, after := ApplyOnce(canon, first, changes), Put(store, WriteOf(changes[i]));
            if Judge(canon, changes[i], store).DoWrite?
            then Between(first, goal, after) && Onward(goal, store, after)
                && Held(after, changes[i]) == Held(goal, changes[i])
            else Held(store, changes[i]) == Held(goal, changes[i])
  {
    ApplyOnceAt(canon, first, changes, i);
    var goal, c := ApplyOnce(canon, first, changes), changes[i];
    assert Held(store, c) == Held(first, c) || Held(store, c) == Held(goal, c);
    if Judge(canon, c, store).DoWrite? {
      var after := Put(store, WriteOf(c));
      forall owner, key
        ensures Slot(after, owner, key)
                == if (owner, key) == (c.owner, c.key) then Slot(goal, owner, key) else Slot(store, owner, key)
      {}
      forall owner, key
        ensures Slot(after, owner, key) == Slot(first, owner, key) || Slot(after, owner, key) == Slot(goal, owner, key)
      {
        assert Slot(store, owner, key) == Slot(first, owner, key) || Slot(store, owner, key) == Slot(goal, owner, key);
      }
    }
  }

  /* A batch of writes. */

  predicate Indexes(changes: seq<Change>, todo: seq<nat>) {
    forall k :: 0 <= k < |todo| ==> todo[k] < |changes|
  }

  function WritesOf(changes: seq<Change>, todo: seq<nat>): (ws: seq<Write>)
    requires Indexes(changes, todo)
    ensures |ws| == |todo| && forall k :: 0 <= k < |ws| ==> ws[k] == WriteOf(changes[todo[k]])
  {
    seq(|todo|, k requires 0 <= k < |todo| => WriteOf(changes[todo[k]]))
  }

  /** A write the preview's change allows: the store holds what the preview saw, and not yet what it wants. */
  ghost predicate Permitted(canon: Canon, changes: seq<Change>, store: Store, w: Write) {
    exists i :: 0 <= i < |changes| && w == WriteOf(changes[i]) && Judge(canon, changes[i], store).DoWrite?
  }

  ghost predicate AllPermitted(canon: Canon, changes: seq<Change>, store: Store, ws: seq<Write>) {
    forall k :: 0 <= k < |ws| ==> Permitted(canon, changes, store, ws[k])
  }

  /** No slot twice. */
  ghost predicate Apart(ws: seq<Write>) {
    forall i, j {:trigger Place(ws[i]), Place(ws[j])} :: 0 <= i < j < |ws| ==> Place(ws[i]) != Place(ws[j])
  }

  lemma {:induction false} PutAllElsewhere(store: Store, ws: seq<Write>, owner: Owner, key: Key)
    requires forall k :: 0 <= k < |ws| ==> Place(ws[k]) != (owner, key)
    ensures Slot(PutAll(store, ws), owner, key) == Slot(store, owner, key)
  {
    if ws != [] {
      assert Place(ws[|ws| - 1]) != (owner, key);
      PutAllElsewhere(store, ws[..|ws| - 1], owner, key);
    }
  }

  lemma {:induction false} PutAllAt(store: Store, ws: seq<Write>, k: nat)
    requires Apart(ws) && k < |ws| && ws[k].owner in store
    ensures Slot(PutAll(store, ws), ws[k].owner, ws[k].key) == ws[k].put
  {
    var n := |ws| - 1;
    if k < n {
      assert Place(ws[k]) != Place(ws[n]);
      PutAllAt(store, ws[..n], k);
    }
  }

  /** A batch permitted by one store and sent to it, whole or cut short, moves it on. */
  lemma {:induction false} BatchGoesOn(canon: Canon, first: Store, changes: seq<Change>, store: Store, ws: seq<Write>)
    requires Plan(canon, changes) && Apart(ws) && AllPermitted(canon, changes, store, ws)
    requires Between(first, ApplyOnce(canon, first, changes), store)
    ensures var goal, after := ApplyOnce(canon, first, changes), PutAll(store, ws);
            Between(first, goal, after) && Onward(goal, store, after)
  {
    if ws != [] {
      var n := |ws| - 1;
      BatchGoesOn(canon, first, changes, store, ws[..n]);
      assert Permitted(canon, changes, store, ws[n]);
      var i :| 0 <= i < |changes| && ws[n] == WriteOf(changes[i]) && Judge(canon, changes[i], store).DoWrite?;
      forall k | 0 <= k < n ensures Place(ws[..n][k]) != (ws[n].owner, ws[n].key) {
        assert Place(ws[k]) != Place(ws[n]);
      }
      PutAllElsewhere(store, ws[..n], ws[n].owner, ws[n].key);
      WriteGoesOn(canon, first, changes, PutAll(store, ws[..n]), i);
    }
  }

  /* Reading back. */

  const READ_CAP := 25

  /** The keys without repeats, in the order first seen: a JavaScript Set. */
  function Distinct(keys: seq<string>): (r: seq<string>)
    ensures forall k :: k in r <==> k in keys
    ensures forall i, j :: 0 <= i < j < |r| ==> r[i] != r[j]
    ensures |r| <= |keys|
  {
    if keys == [] then []
    else
      var before, last := Distinct(keys[..|keys| - 1]), keys[|keys| - 1];
      assert keys == keys[..|keys| - 1] + [last];
      if last in before then before else before + [last]
  }

  function Wanted(keys: seq<Key>): seq<Key> {
    if |Distinct(keys)| <= READ_CAP then Distinct(keys) else Distinct(keys)[..READ_CAP]
  }

  function Only(fields: Fields, wanted: seq<Key>): Fields {
    map k | k in fields && k in wanted :: fields[k]
  }

  /** What the reader answers: of each owner that exists, the wanted fields. */
  function Read(store: Store, owners: seq<Owner>, wanted: seq<Key>): Store {
    if wanted == [] then map[] else map o | o in owners && o in store :: Only(store[o], wanted)
  }

  /** The reader's cap loses no key exactly when no more than twenty-five different ones are asked for. */
  lemma CapLosesNothing(keys: seq<Key>)
    ensures (forall k :: k in keys ==> k in Wanted(keys)) <==> |Distinct(keys)| <= READ_CAP
  {
    var all := Distinct(keys);
    if |all| > READ_CAP {
      assert all[READ_CAP] in keys;
    }
  }

  /** A field the reader dropped looks empty: a clear of it is called done, and nothing is written. */
  lemma DroppedKeyIsMisjudged(canon: Canon, store: Store, owners: seq<Owner>, keys: seq<Key>, c: Change)
    requires c.owner in owners && c.owner in store && c.key in keys && c.key !in Wanted(keys)
    requires Planned(canon, c) && c.op.Clear? && Canonical(canon, c.kind, Held(store, c)) == c.beforeCanon != ""
    ensures Judge(canon, c, store).DoWrite?
    ensures Judge(canon, c, Read(store, owners, Wanted(keys))) == Keep(Unchanged)
  {}

  /** What a batch reads is what the store holds. */
  lemma ReadIsTrue(store: Store, owners: seq<Owner>, keys: seq<Key>, owner: Owner, key: Key)
    requires owner in owners && key in keys && |keys| <= READ_CAP
    ensures var live := Read(store, owners, Wanted(keys));
            (owner in live <==> owner in store) && Slot(live, owner, key) == Slot(store, owner, key)
  {}
}
