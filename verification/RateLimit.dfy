/** The sliding-window limiter of the public routes (src/adapters/rig/rate-limit.ts). */
module RateLimit {
  import opened Prelude

  const MAX_KEYS := 20_000

  datatype Window = Window(ms: int, limit: int)

  datatype Answer = Accepted | Refused(retryAfterSeconds: int)

  type Times = seq<int>

  /** The calls later than a moment. */
  function After(calls: Times, moment: int): Times {
    if calls == [] then []
    else After(calls[..|calls| - 1], moment) + if calls[|calls| - 1] > moment then [calls[|calls| - 1]] else []
  }

  /** One window's say: when it is full, how long until the oldest call that counts ages out. A limit below one
      counts back past the end of the list: the runtime's answer is not a number, and stays so. */
  function Tighten(before: Option<int>, w: Window, inWindow: Times, now: int): Option<int> {
    if |inWindow| < w.limit || before.None? then before
    else if w.limit < 1 then None
    else Some(Max(before.value, inWindow[|inWindow| - w.limit] + w.ms - now))
  }

  /** How long until the windows allow another call; 0 for now. */
  function Retry(windows: seq<Window>, calls: Times, now: int): Option<int> {
    if windows == [] then Some(0)
    else
      var n := |windows| - 1;
      Tighten(Retry(windows[..n], calls, now), windows[n], After(calls, now - windows[n].ms), now)
  }

  function Accepts(windows: seq<Window>, calls: Times, now: int): bool {
    Retry(windows, calls, now).None? || Retry(windows, calls, now).value <= 0
  }

  /** Milliseconds as whole seconds, rounded up. */
  function CeilSeconds(ms: int): int {
    (ms + 999) / 1000
  }

  /** The limiter that keeps every accepted call for ever. */
  function Verdict(windows: seq<Window>, calls: Times, now: int): Answer {
    if Accepts(windows, calls, now) then Accepted else Refused(CeilSeconds(Retry(windows, calls, now).value))
  }

  function Of(calls: map<string, Times>, key: string): Times {
    if key in calls then calls[key] else []
  }

  /** A call that counts for no window any more. */
  predicate Aged(windows: seq<Window>, at: int, now: int) {
    forall i :: 0 <= i < |windows| ==> at <= now - windows[i].ms
  }

  ghost predicate AllAged(windows: seq<Window>, calls: Times, now: int) {
    forall k :: 0 <= k < |calls| ==> Aged(windows, calls[k], now)
  }

  ghost predicate InOrder(calls: Times) {
    forall i, j :: 0 <= i < j < |calls| ==> calls[i] <= calls[j]
  }

  /** What a list lacks of all the accepted calls has aged. */
  ghost predicate Pruned(windows: seq<Window>, all: Times, kept: Times, now: int) {
    |kept| <= |all| && all[|all| - |kept|..] == kept && AllAged(windows, all[..|all| - |kept|], now)
  }

  lemma {:induction false} AfterAppend(a: Times, b: Times, moment: int)
    ensures After(a + b, moment) == After(a, moment) + After(b, moment)
  {
    if b == [] {
      assert a + b == a;
    } else {
      assert (a + b)[..|a + b| - 1] == a + b[..|b| - 1];
      AfterAppend(a, b[..|b| - 1], moment);
    }
  }

  lemma {:induction false} NoneAfter(calls: Times, moment: int)
    requires forall k :: 0 <= k < |calls| ==> calls[k] <= moment
    ensures After(calls, moment) == []
  {
    if calls != [] {
      NoneAfter(calls[..|calls| - 1], moment);
    }
  }

  /** Pruned calls count in no window. */
  lemma PrunedCountsSame(windows: seq<Window>, all: Times, kept: Times, now: int, i: nat)
    requires i < |windows| && Pruned(windows, all, kept, now)
    ensures After(all, now - windows[i].ms) == After(kept, now - windows[i].ms)
  {
    var gone := all[..|all| - |kept|];
    assert all == gone + kept;
    forall k | 0 <= k < |gone| ensures gone[k] <= now - windows[i].ms {
      assert Aged(windows, gone[k], now);
    }
    AfterAppend(gone, kept, now - windows[i].ms);
    NoneAfter(gone, now - windows[i].ms);
  }

  /** Two lists a window counts alike. */
  predicate SameCount(a: Times, b: Times, w: Window, now: int) {
    After(a, now - w.ms) == After(b, now - w.ms)
  }

  lemma {:induction false} SameCountsSameRetry(windows: seq<Window>, a: Times, b: Times, now: int)
    requires forall i {:trigger windows[i]} :: 0 <= i < |windows| ==> SameCount(a, b, windows[i], now)
    ensures Retry(windows, a, now) == Retry(windows, b, now)
  {
    if windows != [] {
      var n := |windows| - 1;
      var before := windows[..n];
      assert SameCount(a, b, windows[n], now);
      forall i | 0 <= i < n ensures SameCount(a, b, before[i], now) {
        assert before[i] == windows[i];
      }
      SameCountsSameRetry(before, a, b, now);
    }
  }

  /** Forgetting what has aged changes no answer. */
  lemma PrunedRetrySame(windows: seq<Window>, all: Times, kept: Times, now: int)
    requires Pruned(windows, all, kept, now)
    ensures Retry(windows, all, now) == Retry(windows, kept, now)
  {
    forall i | 0 <= i < |windows|
      ensures SameCount(all, kept, windows[i], now)
    {
      PrunedCountsSame(windows, all, kept, now, i);
    }
    SameCountsSameRetry(windows, all, kept, now);
  }

  lemma PrunedLater(windows: seq<Window>, all: Times, kept: Times, now: int, later: int)
    requires Pruned(windows, all, kept, now) && now <= later
    ensures Pruned(windows, all, kept, later)
  {
    var gone := all[..|all| - |kept|];
    forall k | 0 <= k < |gone| ensures Aged(windows, gone[k], later) {
      assert Aged(windows, gone[k], now);
    }
  }

  /** The calls that have not aged: those after now less the longest window. */
  function Recent(windows: seq<Window>, calls: Times, now: int): Times {
    if calls == [] then []
    else
      Recent(windows, calls[..|calls| - 1], now)
      + if Aged(windows, calls[|calls| - 1], now) then [] else [calls[|calls| - 1]]
  }

  /** One call more on both. */
  lemma PrunedPlus(windows: seq<Window>, all: Times, kept: Times, now: int, at: int)
    requires Pruned(windows, all, kept, now)
    ensures Pruned(windows, all + [at], kept + [at], now)
  {
    assert (all + [at])[..|all| - |kept|] == all[..|all| - |kept|];
    assert (all + [at])[|all| - |kept|..] == kept + [at];
  }

  /** In a list in order, what has aged stands in front. */
  lemma {:induction false} RecentPrunes(windows: seq<Window>, calls: Times, now: int)
    requires InOrder(calls)
    ensures Pruned(windows, calls, Recent(windows, calls, now), now)
  {
    if calls != [] {
      var n := |calls| - 1;
      if Aged(windows, calls[n], now) {
        forall k | 0 <= k < |calls| ensures Aged(windows, calls[k], now) {}
        AllAgedMeansNone(windows, calls, now);
        assert calls[..|calls|] == calls;
      } else {
        RecentPrunes(windows, calls[..n], now);
        PrunedPlus(windows, calls[..n], Recent(windows, calls[..n], now), now, calls[n]);
        assert calls[..n] + [calls[n]] == calls;
      }
    }
  }

  lemma {:induction false} AllAgedMeansNone(windows: seq<Window>, calls: Times, now: int)
    requires AllAged(windows, calls, now)
    ensures Recent(windows, calls, now) == []
  {
    if calls != [] {
      assert Aged(windows, calls[|calls| - 1], now);
      AllAgedMeansNone(windows, calls[..|calls| - 1], now);
    }
  }

  lemma PrunedTwice(windows: seq<Window>, all: Times, kept: Times, now: int)
    requires Pruned(windows, all, kept, now) && InOrder(all)
    ensures Pruned(windows, all, Recent(windows, kept, now), now)
  {
    var n := |all| - |kept|;
    assert InOrder(kept) by { assert forall k :: 0 <= k < |kept| ==> kept[k] == all[n + k]; }
    RecentPrunes(windows, kept, now);
    PrunedOfPruned(windows, all[..n], kept, Recent(windows, kept, now), now);
    assert all == all[..n] + kept;
  }

  lemma PrunedOfPruned(windows: seq<Window>, gone: Times, kept: Times, recent: Times, now: int)
    requires AllAged(windows, gone, now) && Pruned(windows, kept, recent, now)
    ensures Pruned(windows, gone + kept, recent, now)
  {
    var m := |kept| - |recent|;
    assert (gone + kept)[..|gone| + m] == gone + kept[..m];
    assert (gone + kept)[|gone| + m..] == kept[m..];
    AllAgedBoth(windows, gone, kept[..m], now);
  }

  lemma AllAgedBoth(windows: seq<Window>, a: Times, b: Times, now: int)
    requires AllAged(windows, a, now) && AllAged(windows, b, now)
    ensures AllAged(windows, a + b, now)
  {}

  /** The longest window; nothing stands for the runtime's minus infinity when there is none. */
  function LongestOf(windows: seq<Window>): Option<int> {
    if windows == [] then None
    else
      var before, ms := LongestOf(windows[..|windows| - 1]), windows[|windows| - 1].ms;
      Some(if before.None? then ms else Max(before.value, ms))
  }

  lemma {:induction false} AgedByLongest(windows: seq<Window>, at: int, now: int)
    ensures Aged(windows, at, now) <==> LongestOf(windows).None? || at <= now - LongestOf(windows).value
  {
    if windows != [] {
      var n := |windows| - 1;
      AgedByLongest(windows[..n], at, now);
      assert Aged(windows, at, now) <==> Aged(windows[..n], at, now) && at <= now - windows[n].ms;
    }
  }

  lemma AllAgedByLongest(windows: seq<Window>, calls: Times, now: int)
    ensures AllAged(windows, calls, now)
            <==> forall k :: 0 <= k < |calls| ==> LongestOf(windows).None? || calls[k] <= now - LongestOf(windows).value
  {
    forall k | 0 <= k < |calls|
      ensures Aged(windows, calls[k], now) <==> LongestOf(windows).None? || calls[k] <= now - LongestOf(windows).value
    {
      AgedByLongest(windows, calls[k], now);
    }
  }

  /** The accepted calls of one key, as the limiter lets them build up. */
  ghost predicate Built(windows: seq<Window>, calls: Times) {
    calls == [] ||
    var n := |calls| - 1;
    Built(windows, calls[..n]) && (n > 0 ==> calls[n - 1] <= calls[n]) && Accepts(windows, calls[..n], calls[n])
  }

  lemma {:induction false} BuiltInOrder(windows: seq<Window>, calls: Times)
    requires Built(windows, calls)
    ensures InOrder(calls)
  {
    if calls != [] {
      BuiltInOrder(windows, calls[..|calls| - 1]);
    }
  }

  /** A key's accepted calls and what is kept of them. */
  ghost predicate Consistent(windows: seq<Window>, all: Times, kept: Times, now: int) {
    Built(windows, all) && (all != [] ==> all[|all| - 1] <= now) && Pruned(windows, all, kept, now)
  }

  lemma ConsistentLater(windows: seq<Window>, all: Times, kept: Times, now: int, later: int)
    requires Consistent(windows, all, kept, now) && now <= later
    ensures Consistent(windows, all, kept, later)
  {
    PrunedLater(windows, all, kept, now, later);
  }

  lemma ConsistentPlus(windows: seq<Window>, all: Times, kept: Times, now: int)
    requires Consistent(windows, all, kept, now) && Accepts(windows, all, now)
    ensures Consistent(windows, all + [now], kept + [now], now)
  {
    assert (all + [now])[..|all|] == all;
    PrunedPlus(windows, all, kept, now, now);
  }

  ghost predicate KeyConsistent(windows: seq<Window>, all: map<string, Times>, kept: map<string, Times>, now: int,
                                key: string) {
    Consistent(windows, Of(all, key), Of(kept, key), now)
  }

  /** For every key. */
  ghost predicate AllConsistent(windows: seq<Window>, all: map<string, Times>, kept: map<string, Times>, now: int) {
    forall key {:trigger KeyConsistent(windows, all, kept, now, key)} :: KeyConsistent(windows, all, kept, now, key)
  }

  lemma AllLater(windows: seq<Window>, all: map<string, Times>, kept: map<string, Times>, now: int, later: int)
    requires AllConsistent(windows, all, kept, now) && now <= later
    ensures AllConsistent(windows, all, kept, later)
  {
    forall key ensures KeyConsistent(windows, all, kept, later, key) {
      assert KeyConsistent(windows, all, kept, now, key);
      ConsistentLater(windows, Of(all, key), Of(kept, key), now, later);
    }
  }

  lemma RecentIsConsistent(windows: seq<Window>, all: map<string, Times>, kept: map<string, Times>, now: int,
                           key: string)
    requires AllConsistent(windows, all, kept, now)
    ensures Consistent(windows, Of(all, key), Recent(windows, Of(kept, key), now), now)
  {
    assert KeyConsistent(windows, all, kept, now, key);
    BuiltInOrder(windows, Of(all, key));
    PrunedTwice(windows, Of(all, key), Of(kept, key), now);
  }

  /** Two maps of lists that differ at one key at most. */
  ghost predicate OnlyAt(key: string, a: map<string, Times>, b: map<string, Times>) {
    forall other {:trigger Of(b, other)} :: other != key ==> Of(b, other) == Of(a, other)
  }

  lemma OneKeyChanged(windows: seq<Window>, all: map<string, Times>, kept: map<string, Times>,
                      all': map<string, Times>, kept': map<string, Times>, now: int, key: string)
    requires AllConsistent(windows, all, kept, now) && Consistent(windows, Of(all', key), Of(kept', key), now)
    requires OnlyAt(key, all, all') && OnlyAt(key, kept, kept')
    ensures AllConsistent(windows, all', kept', now)
  {
    forall other ensures KeyConsistent(windows, all', kept', now, other) {
      assert KeyConsistent(windows, all, kept, now, other);
      if other != key {
        assert Of(all', other) == Of(all, other) && Of(kept', other) == Of(kept, other);
      }
    }
  }

  lemma OneKeySet(m: map<string, Times>, key: string, calls: Times)
    ensures OnlyAt(key, m, m[key := calls]) && Of(m[key := calls], key) == calls
  {}

  lemma OneKeyOff(m: map<string, Times>, key: string)
    ensures OnlyAt(key, m, m - {key}) && Of(m - {key}, key) == []
  {}

  /** A list whose calls have all aged may as well be empty. */
  lemma ForgetsAged(windows: seq<Window>, all: Times, kept: Times, now: int)
    requires Consistent(windows, all, kept, now) && AllAged(windows, kept, now)
    ensures Consistent(windows, all, [], now)
  {
    forall k | 0 <= k < |all| ensures Aged(windows, all[k], now) {
      if k < |all| - |kept| {
        assert all[k] == all[..|all| - |kept|][k];
      } else {
        assert all[k] == kept[k - (|all| - |kept|)];
      }
    }
    assert all[..|all|] == all;
  }

  lemma AgedKeyCouldBeEmpty(windows: seq<Window>, all: map<string, Times>, kept: map<string, Times>, now: int,
                            key: string)
    requires AllConsistent(windows, all, kept, now) && AllAged(windows, Of(kept, key), now)
    ensures Consistent(windows, Of(all, key), [], now)
  {
    assert KeyConsistent(windows, all, kept, now, key);
    ForgetsAged(windows, Of(all, key), Of(kept, key), now);
  }

  lemma AgedKeyForgotten(windows: seq<Window>, all: map<string, Times>, kept: map<string, Times>, now: int, key: string)
    requires AllConsistent(windows, all, kept, now) && Consistent(windows, Of(all, key), [], now)
    ensures AllConsistent(windows, all, kept - {key}, now)
  {
    OneKeyOff(kept, key);
    OneKeyChanged(windows, all, kept, all, kept - {key}, now, key);
  }

  lemma CallKept(windows: seq<Window>, all: map<string, Times>, kept: map<string, Times>, now: int, key: string)
    requires AllConsistent(windows, all, kept, now)
    ensures AllConsistent(windows, all, kept[key := Recent(windows, Of(kept, key), now)], now)
  {
    var recent := Recent(windows, Of(kept, key), now);
    var after := kept[key := recent];
    RecentIsConsistent(windows, all, kept, now, key);
    OneKeySet(kept, key, recent);
    OneKeyChanged(windows, all, kept, all, after, now, key);
  }

  lemma CallRecorded(windows: seq<Window>, all: map<string, Times>, kept: map<string, Times>, now: int, key: string)
    requires AllConsistent(windows, all, kept, now) && Accepts(windows, Of(all, key), now)
    ensures AllConsistent(windows, all[key := Of(all, key) + [now]],
            kept[key := Recent(windows, Of(kept, key), now) + [now]], now)
  {
    var whole, part := Of(all, key) + [now], Recent(windows, Of(kept, key), now) + [now];
    var all', kept' := all[key := whole], kept[key := part];
    RecentIsConsistent(windows, all, kept, now, key);
    ConsistentPlus(windows, Of(all, key), Recent(windows, Of(kept, key), now), now);
    OneKeySet(all, key, whole);
    OneKeySet(kept, key, part);
    OneKeyChanged(windows, all, kept, all', kept', now, key);
  }

  class RateLimiter {
    const windows: seq<Window>
    var hits: map<string, Times>
    /** Every accepted call, and the time of the last one looked at. */
    ghost var all: map<string, Times>
    ghost var clock: int

    ghost predicate Valid()
      reads this
    {
      AllConsistent(windows, all, hits, clock)
    }

    constructor (windows: seq<Window>, start: int)
      ensures Valid() && this.windows == windows && hits == map[] && all == map[] && clock == start
    {
      this.windows, hits, all, clock := windows, map[], map[], start;
    }

    method Longest() returns (longest: Option<int>)
      ensures longest == LongestOf(windows)
    {
      longest := None;
      for i := 0 to |windows|
        invariant longest == LongestOf(windows[..i])
      {
        assert windows[..i + 1][..i] == windows[..i];
        longest := Some(if longest.None? then windows[i].ms else Max(longest.value, windows[i].ms));
      }
      assert windows[..|windows|] == windows;
    }

    /** Whether the call is allowed. What it answers and what it remembers is what the limiter answers and
        remembers that never forgets. */
    method Check(key: string, now: int) returns (answer: Answer)
      requires Valid() && clock <= now
      modifies this
      ensures Valid() && clock == now
      ensures answer == Verdict(windows, Of(old(all), key), now)
      ensures all == if answer.Accepted? then old(all)[key := Of(old(all), key) + [now]] else old(all)
    {
      var longest := Longest();
      Later(now);
      var recent := KeepRecent(windows, Of(hits, key), now, longest);
      RecentIsEnough(key);
      var retry := RetryOf(windows, recent, now);
      if retry.Some? && retry.value > 0 {
        Keep(key, recent);
        return Refused(CeilSeconds(retry.value));
      }
      answer := Accepted;
      Record(key, recent, now);
      if |hits| > MAX_KEYS {
        Sweep(now, longest);
      }
    }

    lemma RecentIsEnough(key: string)
      requires Valid()
      ensures Verdict(windows, Of(all, key), clock) == Verdict(windows, Recent(windows, Of(hits, key), clock), clock)
    {
      RecentIsConsistent(windows, all, hits, clock, key);
      PrunedRetrySame(windows, Of(all, key), Recent(windows, Of(hits, key), clock), clock);
    }

    /** A refused call is not recorded. */
    method Keep(key: string, recent: Times)
      requires Valid() && recent == Recent(windows, Of(hits, key), clock)
      modifies this`hits
      ensures Valid() && hits == old(hits)[key := recent]
    {
      CallKept(windows, all, hits, clock, key);
      hits := hits[key := recent];
    }

    method Record(key: string, recent: Times, now: int)
      requires Valid() && clock == now && recent == Recent(windows, Of(hits, key), now)
      requires Verdict(windows, Of(all, key), now).Accepted?
      modifies this`hits, this`all
      ensures Valid() && all == old(all)[key := Of(old(all), key) + [now]]
    {
      CallRecorded(windows, all, hits, now, key);
      hits, all := hits[key := recent + [now]], all[key := Of(all, key) + [now]];
    }

    ghost method Later(now: int)
      requires Valid() && clock <= now
      modifies this`clock
      ensures Valid() && clock == now
    {
      AllLater(windows, all, hits, clock, now);
      clock := now;
    }

    /** Keys with nothing left to count are dropped. */
    method Sweep(now: int, longest: Option<int>)
      requires Valid() && clock == now && longest == LongestOf(windows)
      modifies this`hits
      ensures Valid()
      ensures forall key :: key in hits <==> key in old(hits) && !AllAged(windows, old(hits)[key], now)
      ensures forall key :: key in hits ==> hits[key] == old(hits)[key]
    {
      var keys := hits.Keys;
      while keys != {}
        invariant Valid() && keys <= hits.Keys <= old(hits).Keys
        invariant forall key :: key in hits ==> hits[key] == old(hits)[key]
        invariant forall key :: key in old(hits) && key !in keys ==>
                (key in hits <==> !AllAged(windows, old(hits)[key], now))
        decreases |keys|
      {
        var key :| key in keys;
        keys := keys - {key};
        AllAgedByLongest(windows, hits[key], now);
        if forall k :: 0 <= k < |hits[key]| ==> longest.None? || hits[key][k] <= now - longest.value {
          Forget(key);
        }
      }
    }

    method Forget(key: string)
      requires Valid() && AllAged(windows, Of(hits, key), clock)
      modifies this`hits
      ensures Valid() && hits == old(hits) - {key}
    {
      AgedKeyCouldBeEmpty(windows, all, hits, clock, key);
      AgedKeyForgotten(windows, all, hits, clock, key);
      hits := hits - {key};
    }
  }

  /** The calls later than the longest window reaches. */
  method KeepRecent(windows: seq<Window>, calls: Times, now: int, longest: Option<int>) returns (recent: Times)
    requires longest == LongestOf(windows)
    ensures recent == Recent(windows, calls, now)
  {
    recent := [];
    for k := 0 to |calls|
      invariant recent == Recent(windows, calls[..k], now)
    {
      assert calls[..k + 1][..k] == calls[..k];
      AgedByLongest(windows, calls[k], now);
      if longest.Some? && calls[k] > now - longest.value {
        recent := recent + [calls[k]];
      }
    }
    assert calls[..|calls|] == calls;
  }

  /** The loop over the windows. */
  method RetryOf(windows: seq<Window>, recent: Times, now: int) returns (retry: Option<int>)
    ensures retry == Retry(windows, recent, now)
  {
    retry := Some(0);
    for i := 0 to |windows|
      invariant retry == Retry(windows[..i], recent, now)
    {
      assert windows[..i + 1][..i] == windows[..i];
      var w := windows[i];
      var inWindow := After(recent, now - w.ms);
      if |inWindow| >= w.limit && retry.Some? {
        retry := if w.limit < 1 then None else Some(Max(retry.value, inWindow[|inWindow| - w.limit] + w.ms - now));
      }
    }
    assert windows[..|windows|] == windows;
  }

  /* What the limiter promises. */

  /** Where a list in order passes a moment. */
  predicate CutAt(calls: Times, moment: int, cut: nat) {
    cut <= |calls| && forall k :: 0 <= k < |calls| ==> (calls[k] > moment <==> k >= cut)
  }

  lemma {:induction false} CutExists(calls: Times, moment: int) returns (cut: nat)
    requires InOrder(calls)
    ensures CutAt(calls, moment, cut)
  {
    cut := |calls|;
    if calls != [] && calls[|calls| - 1] > moment {
      cut := CutExists(calls[..|calls| - 1], moment);
    }
  }

  /** The calls after a moment are those from the cut on. */
  lemma {:induction false} AfterIsTail(calls: Times, moment: int, cut: nat)
    requires CutAt(calls, moment, cut)
    ensures After(calls, moment) == calls[cut..]
  {
    if calls != [] {
      var n := |calls| - 1;
      if cut <= n {
        AfterIsTail(calls[..n], moment, cut);
        assert calls[..n][cut..] + [calls[n]] == calls[cut..];
      } else {
        NoneAfter(calls, moment);
      }
    }
  }

  /** When a window that is full frees a slot: as its limit-th newest call ages out. */
  function FreeAt(w: Window, calls: Times): int
    requires 1 <= w.limit <= |calls|
  {
    calls[|calls| - w.limit] + w.ms
  }

  predicate Full(w: Window, calls: Times, now: int) {
    1 <= w.limit <= |calls| && now < FreeAt(w, calls)
  }

  predicate Limits(windows: seq<Window>) {
    forall i :: 0 <= i < |windows| ==> windows[i].limit >= 1
  }

  /** A window holds a call back exactly when it is full, and until it frees a slot. */
  lemma WindowHoldsBack(w: Window, calls: Times, now: int)
    requires InOrder(calls) && w.limit >= 1
    ensures var inWindow := After(calls, now - w.ms);
            && (|inWindow| >= w.limit <==> Full(w, calls, now))
            && (Full(w, calls, now) ==> inWindow[|inWindow| - w.limit] + w.ms == FreeAt(w, calls))
  {
    var cut := CutExists(calls, now - w.ms);
    AfterIsTail(calls, now - w.ms, cut);
  }

  lemma TightenIs(before: int, w: Window, calls: Times, now: int)
    requires InOrder(calls) && w.limit >= 1
    ensures Tighten(Some(before), w, After(calls, now - w.ms), now)
            == Some(if Full(w, calls, now) then Max(before, FreeAt(w, calls) - now) else before)
  {
    WindowHoldsBack(w, calls, now);
  }

  ghost predicate Waits(windows: seq<Window>, calls: Times, now: int, retry: int) {
    && retry >= 0
    && (forall i :: 0 <= i < |windows| && Full(windows[i], calls, now) ==> FreeAt(windows[i], calls) <= now + retry)
    && (retry > 0 ==>
          exists i :: 0 <= i < |windows| && Full(windows[i], calls, now) && FreeAt(windows[i], calls) == now + retry)
  }

  /** How long a caller must wait is until the last full window frees a slot. */
  lemma {:induction false} RetryIsExact(windows: seq<Window>, calls: Times, now: int)
    requires InOrder(calls) && Limits(windows)
    ensures Retry(windows, calls, now).Some? && Waits(windows, calls, now, Retry(windows, calls, now).value)
  {
    if windows != [] {
      var n := |windows| - 1;
      RetryIsExact(windows[..n], calls, now);
      var before := Retry(windows[..n], calls, now).value;
      TightenIs(before, windows[n], calls, now);
      OneMoreWaits(windows, calls, now, before);
    }
  }

  lemma OneMoreWaits(windows: seq<Window>, calls: Times, now: int, before: int)
    requires windows != [] && Waits(windows[..|windows| - 1], calls, now, before)
    ensures var w := windows[|windows| - 1];
            Waits(windows, calls, now, if Full(w, calls, now) then Max(before, FreeAt(w, calls) - now) else before)
  {
    var n := |windows| - 1;
    if before > 0 {
      var i :| 0 <= i < n && Full(windows[..n][i], calls, now) && FreeAt(windows[..n][i], calls) == now + before;
      assert windows[i] == windows[..n][i];
    }
    forall i | 0 <= i < n && Full(windows[i], calls, now) ensures FreeAt(windows[i], calls) <= now + before {
      assert windows[..n][i] == windows[i];
    }
  }

  lemma AcceptsUnlessFull(windows: seq<Window>, calls: Times, now: int)
    requires InOrder(calls) && Limits(windows)
    ensures Accepts(windows, calls, now) <==> forall i :: 0 <= i < |windows| ==> !Full(windows[i], calls, now)
  {
    RetryIsExact(windows, calls, now);
  }

  /** Without another call on the key, a refused caller is refused at every moment before the retry time, and
      accepted from it on. */
  lemma RetryTimeIsExact(windows: seq<Window>, calls: Times, now: int, later: int)
    requires InOrder(calls) && Limits(windows) && !Accepts(windows, calls, now) && now <= later
    ensures Accepts(windows, calls, later) <==> later >= now + Retry(windows, calls, now).value
  {
    RetryIsExact(windows, calls, now);
    AcceptsUnlessFull(windows, calls, later);
    var at := now + Retry(windows, calls, now).value;
    var i :| 0 <= i < |windows| && Full(windows[i], calls, now) && FreeAt(windows[i], calls) == at;
    if later < at {
      assert Full(windows[i], calls, later);
    }
  }

  /** The seconds told are enough, and the fewest whole ones that are. */
  lemma SecondsSuffice(windows: seq<Window>, calls: Times, now: int, seconds: nat)
    requires InOrder(calls) && Limits(windows) && !Accepts(windows, calls, now)
    ensures Accepts(windows, calls, now + 1000 * seconds) <==> seconds >= Verdict(windows, calls, now).retryAfterSeconds
  {
    RetryTimeIsExact(windows, calls, now, now + 1000 * seconds);
  }

  /** A limit below one turns the limiter off. */
  lemma {:induction false} NoLimitAcceptsAll(windows: seq<Window>, calls: Times, now: int, i: nat)
    requires i < |windows| && windows[i].limit < 1
    ensures Retry(windows, calls, now).None? && Accepts(windows, calls, now)
  {
    if i < |windows| - 1 {
      NoLimitAcceptsAll(windows[..|windows| - 1], calls, now, i);
    }
  }

  /** A call waits for the limit-th one before it to leave the window. */
  lemma {:induction false} CallsAreSpaced(windows: seq<Window>, calls: Times, i: nat, k: nat)
    requires Built(windows, calls) && Limits(windows) && i < |windows| && k + windows[i].limit < |calls|
    ensures calls[k] + windows[i].ms <= calls[k + windows[i].limit]
  {
    var n := |calls| - 1;
    BuiltInOrder(windows, calls);
    if k + windows[i].limit < n {
      CallsAreSpaced(windows, calls[..n], i, k);
    } else {
      AcceptsUnlessFull(windows, calls[..n], calls[n]);
    }
  }

  /** How many calls fall into [from, to). */
  function CountIn(calls: Times, from: int, to: int): nat {
    if calls == [] then 0
    else CountIn(calls[..|calls| - 1], from, to) + if from <= calls[|calls| - 1] < to then 1 else 0
  }

  lemma {:induction false} CountInFew(calls: Times, from: int, to: int, most: nat)
    requires InOrder(calls)
    requires |calls| <= most || calls[|calls| - 1 - most] < from
    ensures CountIn(calls, from, to) <= most
  {
    if calls != [] {
      var n := |calls| - 1;
      if most == 0 {
        CountInFew(calls[..n], from, to, 0);
      } else {
        CountInFew(calls[..n], from, to, most - 1);
      }
    }
  }

  /** No interval of a window's length, wherever it starts, has more accepted calls than the window's limit. */
  lemma {:induction false} BoundHolds(windows: seq<Window>, calls: Times, i: nat, from: int)
    requires Built(windows, calls) && Limits(windows) && i < |windows|
    ensures CountIn(calls, from, from + windows[i].ms) <= windows[i].limit
  {
    if calls != [] {
      var n, w := |calls| - 1, windows[i];
      BuiltInOrder(windows, calls);
      if from <= calls[n] < from + w.ms {
        if |calls| > w.limit {
          CallsAreSpaced(windows, calls, i, n - w.limit);
        }
        CountInFew(calls, from, from + w.ms, w.limit);
      } else {
        BoundHolds(windows, calls[..n], i, from);
      }
    }
  }

  /** So it is for every key of a limiter, whatever was checked, pruned and swept. */
  lemma LimiterKeepsTheBound(limiter: RateLimiter, key: string, i: nat, from: int)
    requires limiter.Valid() && Limits(limiter.windows) && i < |limiter.windows|
    ensures CountIn(Of(limiter.all, key), from, from + limiter.windows[i].ms) <= limiter.windows[i].limit
  {
    assert KeyConsistent(limiter.windows, limiter.all, limiter.hits, limiter.clock, key);
    BoundHolds(limiter.windows, Of(limiter.all, key), i, from);
  }
}
