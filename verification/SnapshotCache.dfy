/** The cache that answers fast and refreshes behind the answer (src/adapters/rig/snapshot-cache.ts). Its calls and
    the ends of its loads come in any order; each is one step of a single-threaded runtime. */
module SnapshotCache {
  import opened Prelude

  type Key = string
  type LoadId = nat

  datatype Entry<T> = Entry(value: T, loadedAtMs: int)

  /** What a get gives its caller: a value at once, or a load to wait for. */
  datatype Reply<T> = Now(value: T) | Wait(load: LoadId)

  datatype Verdict = Fresh | Stale | Reload

  function Judge(age: int, ttlMs: int, maxStaleMs: int): Verdict {
    if age < ttlMs then Fresh else if age >= maxStaleMs then Reload else Stale
  }

  /* History: moments count steps. */

  datatype Landing<T> = Landing(moment: nat, entry: Entry<T>)

  /** A load: when it started, whether it has ended, and when and with what it landed. */
  datatype Load<T> = Load(key: Key, started: nat, ended: bool, landed: Option<Landing<T>>)

  /** The last time a key was forgotten, and whether a load was running then. */
  datatype Forgotten = Forgotten(moment: nat, busy: bool)

  /** The cache, every load there was, which one each entry came from, and what was forgotten when. */
  datatype History<T> = History(entries: map<Key, Entry<T>>, inFlight: map<Key, LoadId>, loads: seq<Load<T>>,
                                source: map<Key, LoadId>, forgotten: map<Key, Forgotten>, moment: nat, clock: int)

  function Start<T>(h: History<T>, key: Key): History<T> {
    h.(inFlight := h.inFlight[key := |h.loads|], loads := h.loads + [Load(key, h.moment, false, None)],
        moment := h.moment + 1)
  }

  function Land<T>(h: History<T>, key: Key, value: T, now: int): History<T>
    requires key in h.inFlight && h.inFlight[key] < |h.loads|
  {
    var id, entry := h.inFlight[key], Entry(value, now);
    h.(entries := h.entries[key := entry], inFlight := h.inFlight - {key}, source := h.source[key := id],
       loads := h.loads[id := h.loads[id].(ended := true, landed := Some(Landing(h.moment, entry)))],
       moment := h.moment + 1, clock := now)
  }

  function Fail<T>(h: History<T>, key: Key): History<T>
    requires key in h.inFlight && h.inFlight[key] < |h.loads|
  {
    var id := h.inFlight[key];
    h.(inFlight := h.inFlight - {key}, loads := h.loads[id := h.loads[id].(ended := true)], moment := h.moment + 1)
  }

  function Forget<T>(h: History<T>, key: Key): History<T> {
    h.(entries := h.entries - {key}, forgotten := h.forgotten[key := Forgotten(h.moment, key in h.inFlight)],
        moment := h.moment + 1)
  }

  /** A load that has not ended is the one in flight under its key. */
  predicate LoadOk<T>(h: History<T>, id: LoadId)
    requires id < |h.loads|
  {
    var l := h.loads[id];
    && l.started < h.moment
    && (!l.ended ==> l.landed.None? && l.key in h.inFlight && h.inFlight[l.key] == id)
    && (l.landed.Some? ==> l.started < l.landed.value.moment < h.moment && l.landed.value.entry.loadedAtMs <= h.clock)
  }

  /** Started after the key was last forgotten, if no load was running then. */
  predicate SinceForgotten<T>(h: History<T>, key: Key, l: Load<T>) {
    key in h.forgotten ==>
      && (!h.forgotten[key].busy ==> h.forgotten[key].moment < l.started)
      && (l.landed.Some? ==> h.forgotten[key].moment < l.landed.value.moment)
  }

  predicate FlightOk<T>(h: History<T>, key: Key) {
    key in h.inFlight ==>
      && h.inFlight[key] < |h.loads|
      && var l := h.loads[h.inFlight[key]]; l.key == key && !l.ended && SinceForgotten(h, key, l)
  }

  predicate Loaded<T(==)>(h: History<T>, key: Key, id: LoadId, entry: Entry<T>) {
    && id < |h.loads|
    && var l := h.loads[id];
    l.key == key && l.landed.Some? && l.landed.value.entry == entry && SinceForgotten(h, key, l)
  }

  /** Every entry is what its load landed, after the key was last forgotten. */
  ghost predicate EntryOk<T>(h: History<T>, key: Key) {
    key in h.entries ==> key in h.source && Loaded(h, key, h.source[key], h.entries[key])
  }

  ghost predicate Coherent<T>(h: History<T>) {
    && (forall id {:trigger LoadOk(h, id)} :: 0 <= id < |h.loads| ==> LoadOk(h, id))
    && (forall key {:trigger FlightOk(h, key)} :: FlightOk(h, key))
    && (forall key {:trigger EntryOk(h, key)} :: EntryOk(h, key))
    && (forall key :: key in h.forgotten ==> h.forgotten[key].moment < h.moment)
  }

  lemma StartKeeps<T>(h: History<T>, key: Key)
    requires Coherent(h) && key !in h.inFlight
    ensures Coherent(Start(h, key))
  {
    var t := Start(h, key);
    forall id: LoadId | id < |t.loads| ensures LoadOk(t, id) {
      if id < |h.loads| { assert LoadOk(h, id); }
    }
    forall k ensures FlightOk(t, k) && EntryOk(t, k) {
      assert FlightOk(h, k) && EntryOk(h, k);
    }
  }

  lemma LandKeeps<T>(h: History<T>, key: Key, value: T, now: int)
    requires Coherent(h) && key in h.inFlight && h.inFlight[key] < |h.loads| && h.clock <= now
    ensures Coherent(Land(h, key, value, now))
  {
    var t := Land(h, key, value, now);
    assert FlightOk(h, key) && LoadOk(h, h.inFlight[key]);
    forall id: LoadId | id < |t.loads| ensures LoadOk(t, id) {
      assert LoadOk(h, id);
    }
    forall k ensures FlightOk(t, k) {
      assert FlightOk(h, k);
    }
    forall k ensures EntryOk(t, k) {
      assert EntryOk(h, k);
      if k in h.entries && k != key { assert h.source[k] != h.inFlight[key]; }
    }
  }

  lemma FailKeeps<T>(h: History<T>, key: Key)
    requires Coherent(h) && key in h.inFlight && h.inFlight[key] < |h.loads|
    ensures Coherent(Fail(h, key))
  {
    var t := Fail(h, key);
    assert FlightOk(h, key) && LoadOk(h, h.inFlight[key]);
    forall id: LoadId | id < |t.loads| ensures LoadOk(t, id) {
      assert LoadOk(h, id);
    }
    forall k ensures FlightOk(t, k) && EntryOk(t, k) {
      assert FlightOk(h, k) && EntryOk(h, k);
    }
  }

  lemma ForgetKeeps<T>(h: History<T>, key: Key)
    requires Coherent(h)
    ensures Coherent(Forget(h, key))
  {
    var t := Forget(h, key);
    forall id: LoadId | id < |t.loads| ensures LoadOk(t, id) {
      assert LoadOk(h, id);
    }
    forall k ensures FlightOk(t, k) && EntryOk(t, k) {
      assert FlightOk(h, k) && EntryOk(h, k);
      if k in h.inFlight { assert LoadOk(h, h.inFlight[k]); }
    }
  }

  lemma LaterKeeps<T>(h: History<T>, now: int)
    requires Coherent(h) && h.clock <= now
    ensures Coherent(h.(clock := now))
  {
    var t := h.(clock := now);
    forall id: LoadId | id < |t.loads| ensures LoadOk(t, id) {
      assert LoadOk(h, id);
    }
    forall k ensures FlightOk(t, k) && EntryOk(t, k) {
      assert FlightOk(h, k) && EntryOk(h, k);
    }
  }

  /** What happens to a cache: a call, the end of a load, a key forgotten. */
  datatype Event<T> =
    | Call(key: Key, now: int)
    | Lands(key: Key, value: T, now: int)
    | Fails(key: Key)
    | Forgets(key: Key)

  datatype Limits = Limits(ttlMs: int, maxStaleMs: int)

  /** The clock does not go back, and only a load that is running ends. */
  predicate Can<T>(h: History<T>, e: Event<T>) {
    && (e.Call? || e.Lands? ==> h.clock <= e.now)
    && (e.Lands? || e.Fails? ==> e.key in h.inFlight && h.inFlight[e.key] < |h.loads|)
  }

  /** What a call says of its key's entry. */
  function Found<T>(h: History<T>, key: Key, now: int, limits: Limits): Verdict {
    if key in h.entries then Judge(now - h.entries[key].loadedAtMs, limits.ttlMs, limits.maxStaleMs) else Reload
  }

  /** The history after an event; what cannot happen leaves it as it was. */
  function After<T>(h: History<T>, e: Event<T>, limits: Limits): History<T> {
    if !Can(h, e) then h else
    match e
    case Call(key, now) =>
      var later := h.(clock := now);
      if Found(h, key, now, limits).Fresh? || key in h.inFlight then later else Start(later, key)
    case Lands(key, value, now) => Land(h, key, value, now)
    case Fails(key) => Fail(h, key)
    case Forgets(key) => Forget(h, key)
  }

  function Empty<T>(start: int): History<T> {
    History(map[], map[], [], map[], map[], 0, start)
  }

  /** Any interleaving, from an empty cache on. */
  function Run<T>(start: int, events: seq<Event<T>>, limits: Limits): History<T> {
    if events == [] then Empty(start)
    else After(Run(start, events[..|events| - 1], limits), events[|events| - 1], limits)
  }

  lemma AfterKeeps<T>(h: History<T>, e: Event<T>, limits: Limits)
    requires Coherent(h)
    ensures Coherent(After(h, e, limits))
  {
    if Can(h, e) {
      match e
      case Call(key, now) =>
        LaterKeeps(h, now);
        if !Found(h, key, now, limits).Fresh? && key !in h.inFlight {
          StartKeeps(h.(clock := now), key);
        }
      case Lands(key, value, now) => LandKeeps(h, key, value, now);
      case Fails(key) => FailKeeps(h, key);
      case Forgets(key) => ForgetKeeps(h, key);
    }
  }

  /** Every history a cache can come to is coherent. */
  lemma {:induction false} RunIsCoherent<T>(start: int, events: seq<Event<T>>, limits: Limits)
    ensures Coherent(Run(start, events, limits))
  {
    if events != [] {
      RunIsCoherent(start, events[..|events| - 1], limits);
      AfterKeeps(Run(start, events[..|events| - 1], limits), events[|events| - 1], limits);
    }
  }

  lemma RunAppend<T>(start: int, events: seq<Event<T>>, e: Event<T>, limits: Limits)
    ensures Run(start, events + [e], limits) == After(Run(start, events, limits), e, limits)
  {
    assert (events + [e])[..|events|] == events;
  }

  class SnapshotCache<T> {
    const ttlMs: int
    const maxStaleMs: int
    var entries: map<Key, Entry<T>>
    var inFlight: map<Key, LoadId>
    var nextLoad: LoadId
    ghost const start: int
    ghost var events: seq<Event<T>>
    ghost var history: History<T>

    ghost function Settings(): Limits {
      Limits(ttlMs, maxStaleMs)
    }

    ghost predicate Valid()
      reads this
    {
      && history == Run(start, events, Settings())
      && history.entries == entries && history.inFlight == inFlight && |history.loads| == nextLoad
      && Coherent(history)
    }

    constructor (ttlMs: int, maxStaleMs: int, ghost start: int)
      ensures Valid() && this.ttlMs == ttlMs && this.maxStaleMs == maxStaleMs && this.start == start && events == []
    {
      this.ttlMs, this.maxStaleMs, entries, inFlight, nextLoad := ttlMs, maxStaleMs, map[], map[], 0;
      this.start, events, history := start, [], Empty(start);
      new;
      RunIsCoherent(start, events, Settings());
    }

    ghost method Happen(e: Event<T>)
      requires Coherent(history) && history == Run(start, events, Settings())
      modifies this`events, this`history
      ensures events == old(events) + [e] && history == After(old(history), e, Settings())
      ensures history == Run(start, events, Settings()) && Coherent(history)
    {
      RunAppend(start, events, e, Settings());
      AfterKeeps(history, e, Settings());
      events, history := events + [e], After(history, e, Settings());
    }

    /** Joins the running load, or starts one. */
    method Refresh(key: Key) returns (load: LoadId)
      requires |history.loads| == nextLoad && history.inFlight == inFlight
      modifies this`inFlight, this`nextLoad
      ensures key in inFlight && load == inFlight[key]
      ensures var h := if key in old(inFlight) then history else Start(history, key);
              inFlight == h.inFlight && nextLoad == |h.loads|
    {
      if key in inFlight {
        return inFlight[key];
      }
      load, nextLoad := nextLoad, nextLoad + 1;
      inFlight := inFlight[key := load];
    }

    /** A call that joins the key's load or starts it. */
    method Await(key: Key, now: int) returns (load: LoadId)
      requires Valid() && history.clock <= now && !Found(history, key, now, Settings()).Fresh?
      modifies this`inFlight, this`nextLoad, this`events, this`history
      ensures Valid() && events == old(events) + [Call(key, now)]
      ensures inFlight.Keys == old(inFlight).Keys + {key} && load == inFlight[key]
    {
      load := Refresh(key);
      Happen(Call(key, now));
    }

    /** A call. Neither fresh nor stale: the caller waits for the key's one load. Otherwise the entry's value is
        given at once, and behind it, when it is stale, a refresh runs. */
    method Get(key: Key, now: int) returns (reply: Reply<T>)
      requires Valid() && history.clock <= now
      modifies this`inFlight, this`nextLoad, this`events, this`history
      ensures Valid() && events == old(events) + [Call(key, now)] && entries == old(entries)
      ensures key in entries && now - entries[key].loadedAtMs < Max(ttlMs, maxStaleMs) ==>
                reply == Now(entries[key].value)
      ensures key !in entries || now - entries[key].loadedAtMs >= Max(ttlMs, maxStaleMs) ==>
                key in inFlight && reply == Wait(inFlight[key])
      ensures inFlight.Keys == old(inFlight).Keys
                               + if key in entries && now - entries[key].loadedAtMs < ttlMs then {} else {key}
    {
      var load;
      if key !in entries {
        load := Await(key, now);
        return Wait(load);
      }
      var entry := entries[key];
      var age := now - entry.loadedAtMs;
      if age < ttlMs {
        Happen(Call(key, now));
        return Now(entry.value);
      }
      if age >= maxStaleMs {
        load := Await(key, now);
        return Wait(load);
      }
      if key !in inFlight {
        load := Await(key, now);
      } else {
        Happen(Call(key, now));
      }
      reply := Now(entry.value);
    }

    /** The key's load lands: its entry replaces the cached one, and everybody who waited for it gets its value. */
    method LoadDone(key: Key, value: T, now: int)
      requires Valid() && history.clock <= now && key in inFlight
      modifies this`entries, this`inFlight, this`events, this`history
      ensures Valid() && events == old(events) + [Lands(key, value, now)]
      ensures entries == old(entries)[key := Entry(value, now)] && inFlight == old(inFlight) - {key}
    {
      assert FlightOk(history, key);
      Happen(Lands(key, value, now));
      entries, inFlight := entries[key := Entry(value, now)], inFlight - {key};
    }

    /** The key's load fails: what was cached stays, and the next call may start another. */
    method LoadFailed(key: Key)
      requires Valid() && key in inFlight
      modifies this`inFlight, this`events, this`history
      ensures Valid() && events == old(events) + [Fails(key)]
      ensures entries == old(entries) && inFlight == old(inFlight) - {key}
    {
      assert FlightOk(history, key);
      Happen(Fails(key));
      inFlight := inFlight - {key};
    }

    /** Forgets a key; a load that is running goes on. */
    method Invalidate(key: Key)
      requires Valid()
      modifies this`entries, this`events, this`history
      ensures Valid() && events == old(events) + [Forgets(key)]
      ensures entries == old(entries) - {key} && inFlight == old(inFlight)
    {
      Happen(Forgets(key));
      entries := entries - {key};
    }
  }

  /* What its callers may rely on, after any interleaving. */

  /** Each key has at most one load running. */
  lemma OneLoadAtATime<T>(h: History<T>, a: LoadId, b: LoadId)
    requires Coherent(h) && a < |h.loads| && b < |h.loads| && h.loads[a].key == h.loads[b].key
    requires !h.loads[a].ended && !h.loads[b].ended
    ensures a == b
  {
    assert LoadOk(h, a) && LoadOk(h, b);
  }

  /** A value given at once was landed by a load of its key, young enough, after the key was last forgotten; and
      read after it too if no load was running then. */
  lemma GivenValueIsRecent<T>(h: History<T>, key: Key, ttlMs: int, maxStaleMs: int, now: int)
    requires Coherent(h) && key in h.entries && !Judge(now - h.entries[key].loadedAtMs, ttlMs, maxStaleMs).Reload?
    ensures key in h.source && h.source[key] < |h.loads|
    ensures var l := h.loads[h.source[key]];
            && l.key == key && l.landed.Some? && l.landed.value.entry == h.entries[key]
            && (now - l.landed.value.entry.loadedAtMs < ttlMs || now - l.landed.value.entry.loadedAtMs < maxStaleMs)
            && (key in h.forgotten ==> h.forgotten[key].moment < l.landed.value.moment)
            && (key in h.forgotten && !h.forgotten[key].busy ==> h.forgotten[key].moment < l.started)
  {
    assert EntryOk(h, key);
  }

  /** A get at this moment serves the key's entry: it is fresh, or not yet too stale. */
  predicate Serves<T>(h: History<T>, key: Key, now: int, limits: Limits) {
    && h.clock <= now && key in h.entries
    && (now - h.entries[key].loadedAtMs < limits.ttlMs || now - h.entries[key].loadedAtMs < limits.maxStaleMs)
  }

  /** Within the stale limit nobody waits, and behind a stale answer a load of its key runs. */
  lemma StaleIsGivenAtOnce<T>(h: History<T>, key: Key, now: int, limits: Limits)
    requires h.clock <= now
    ensures !Found(h, key, now, limits).Reload? <==> Serves(h, key, now, limits)
    ensures key in h.entries && now - h.entries[key].loadedAtMs < limits.ttlMs ==>
              After(h, Call(key, now), limits) == h.(clock := now)
    ensures key !in h.entries || now - h.entries[key].loadedAtMs >= limits.ttlMs ==>
              key in After(h, Call(key, now), limits).inFlight
  {}

  /** Over every interleaving of a cache's calls, landings, failures and invalidations: no value that landed maxStaleMs
      ago or longer is served, exactly when freshness ends by then; otherwise one load and a quiet wait are enough. */
  lemma ServedWithinLimitIff<T>(value: T, key: Key, limits: Limits)
    ensures (forall start, events: seq<Event<T>>, now :: Serves(Run(start, events, limits), key, now, limits) ==>
               now - Run(start, events, limits).entries[key].loadedAtMs < limits.maxStaleMs)
            <==> limits.ttlMs <= limits.maxStaleMs || limits.ttlMs <= 0
  {
    if limits.ttlMs > limits.maxStaleMs && limits.ttlMs > 0 {
      var events, now := [Call(key, 0), Lands(key, value, 0)], if limits.maxStaleMs > 0 then limits.maxStaleMs else 0;
      LandedOnce(key, value, limits);
      assert Serves(Run(0, events, limits), key, now, limits);
    } else {
      forall start, events: seq<Event<T>>, now | Serves(Run(start, events, limits), key, now, limits)
        ensures now - Run(start, events, limits).entries[key].loadedAtMs < limits.maxStaleMs
      {
        var h := Run(start, events, limits);
        RunIsCoherent(start, events, limits);
        assert EntryOk(h, key) && LoadOk(h, h.source[key]);
      }
    }
  }

  lemma LandedOnce<T>(key: Key, value: T, limits: Limits)
    ensures var h := Run(0, [Call(key, 0), Lands(key, value, 0)], limits);
            h.clock == 0 && key in h.entries && h.entries[key] == Entry(value, 0)
  {
    var call, land := Call(key, 0), Lands(key, value, 0);
    assert [call, land][..1] == [call];
    assert Run(0, [call], limits) == After(Empty(0), call, limits);
  }

  /** A load somebody waits for is running, so what it gives is read no earlier than that; and after the key was last
      forgotten, if none was running then. */
  lemma AwaitedLoadIsRecent<T>(h: History<T>, key: Key)
    requires Coherent(h) && key in h.inFlight
    ensures h.inFlight[key] < |h.loads|
    ensures var l := h.loads[h.inFlight[key]];
            && l.key == key && !l.ended && l.landed.None?
            && (key in h.forgotten && !h.forgotten[key].busy ==> h.forgotten[key].moment < l.started)
  {
    assert FlightOk(h, key);
    assert LoadOk(h, h.inFlight[key]);
  }

  /** With a load running when a key is forgotten, the next call waits for that load, which had started before;
      without one, it starts its own. */
  lemma ReadAfterForgettingIff<T>(h: History<T>, key: Key)
    requires Coherent(h)
    ensures var f := Forget(h, key);
            var g := if key in f.inFlight then f else Start(f, key);
            && key in g.inFlight && g.inFlight[key] < |g.loads| && key in g.forgotten
            && (g.forgotten[key].moment < g.loads[g.inFlight[key]].started <==> key !in h.inFlight)
  {
    assert FlightOk(h, key);
    if key in h.inFlight {
      assert LoadOk(h, h.inFlight[key]);
    }
  }
}
