/** One warehouse's whole stock list, and what its echo proves (src/adapters/metakocka/sync-stock.ts). */
module StockSync {
  import opened Prelude

  datatype StockLine = StockLine(warehouseId: string, code: string, amount: real)

  /** A JavaScript map: keys once each, in the order they were first set. */
  type Amounts = seq<(string, real)>

  ghost predicate Keyed(s: Amounts) {
    forall i, j :: 0 <= i < j < |s| ==> s[i].0 != s[j].0
  }

  function AsMap(s: Amounts): map<string, real> {
    if s == [] then map[] else AsMap(s[..|s| - 1])[s[|s| - 1].0 := s[|s| - 1].1]
  }

  /** Shopify's number as MetaKocka can hold it. */
  function ManagedAmount(amount: real): int {
    Max(0, Trunc(amount))
  }

  /* The list. */

  function ManagedLines(warehouse: string, managed: Amounts): seq<StockLine> {
    if managed == [] then []
    else
      var (code, amount) := managed[|managed| - 1];
      ManagedLines(warehouse, managed[..|managed| - 1]) + [StockLine(warehouse, code, ManagedAmount(amount) as real)]
  }

  /** What is not managed, as it is. */
  function OtherLines(warehouse: string, seen: set<string>, current: Amounts): seq<StockLine> {
    if current == [] then []
    else
      var (code, amount) := current[|current| - 1];
      OtherLines(warehouse, seen, current[..|current| - 1])
          + if code in seen then [] else [StockLine(warehouse, code, amount)]
  }

  function StockList(warehouse: string, managed: Amounts, current: Amounts): seq<StockLine> {
    ManagedLines(warehouse, managed) + OtherLines(warehouse, AsMap(managed).Keys, current)
  }

  method BuildCompleteStockList(warehouse: string, managed: Amounts, current: Amounts) returns (lines: seq<StockLine>)
    ensures lines == StockList(warehouse, managed, current)
  {
    lines := [];
    var seen: set<string> := {};
    for k := 0 to |managed|
      invariant lines == ManagedLines(warehouse, managed[..k]) && seen == AsMap(managed[..k]).Keys
    {
      assert managed[..k + 1][..k] == managed[..k];
      lines := lines + [StockLine(warehouse, managed[k].0, ManagedAmount(managed[k].1) as real)];
      seen := seen + {managed[k].0};
    }
    assert managed[..|managed|] == managed;
    for k := 0 to |current|
      invariant lines == ManagedLines(warehouse, managed) + OtherLines(warehouse, seen, current[..k])
    {
      assert current[..k + 1][..k] == current[..k];
      if current[k].0 in seen {
        continue;
      }
      lines := lines + [StockLine(warehouse, current[k].0, current[k].1)];
    }
    assert current[..|current|] == current;
  }

  /** The endpoint makes the list's warehouse hold exactly the list. */
  function Holds(lines: seq<StockLine>): map<string, real> {
    if lines == [] then map[] else Holds(lines[..|lines| - 1])[lines[|lines| - 1].code := lines[|lines| - 1].amount]
  }

  function Synced(store: map<string, map<string, real>>, warehouse: string,
                  lines: seq<StockLine>): map<string, map<string, real>> {
    store[warehouse := Holds(lines)]
  }

  /** What a warehouse should hold: managed products at Shopify's number, the rest as they were. */
  function Merged(managed: map<string, real>, held: map<string, real>): map<string, real> {
    map code | code in managed.Keys + held.Keys :: if code in managed then ManagedAmount(managed[code]) as real
        else held[code]
  }

  lemma {:induction false} HoldsAppend(a: seq<StockLine>, b: seq<StockLine>)
    ensures Holds(a + b) == Holds(a) + Holds(b)
  {
    if b == [] {
      assert a + b == a;
    } else {
      assert (a + b)[..|a + b| - 1] == a + b[..|b| - 1];
      HoldsAppend(a, b[..|b| - 1]);
    }
  }

  lemma {:induction false} ManagedHold(warehouse: string, managed: Amounts)
    ensures Holds(ManagedLines(warehouse, managed)) == Merged(AsMap(managed), map[])
  {
    if managed != [] {
      ManagedHold(warehouse, managed[..|managed| - 1]);
    }
  }

  lemma WithoutSeen(m: map<string, real>, code: string, amount: real, seen: set<string>)
    ensures m[code := amount] - seen == if code in seen then m - seen else (m - seen)[code := amount]
  {}

  lemma {:induction false} OthersHold(warehouse: string, seen: set<string>, current: Amounts)
    ensures Holds(OtherLines(warehouse, seen, current)) == AsMap(current) - seen
  {
    if current != [] {
      var n := |current| - 1;
      var before := OtherLines(warehouse, seen, current[..n]);
      OthersHold(warehouse, seen, current[..n]);
      WithoutSeen(AsMap(current[..n]), current[n].0, current[n].1, seen);
      if current[n].0 in seen {
        assert OtherLines(warehouse, seen, current) == before;
      } else {
        assert (before + [StockLine(warehouse, current[n].0, current[n].1)])[..|before|] == before;
      }
    }
  }

  lemma MergedInTwo(managed: map<string, real>, held: map<string, real>)
    ensures Merged(managed, map[]) + (held - managed.Keys) == Merged(managed, held)
  {}

  lemma ListHolds(warehouse: string, managed: Amounts, current: Amounts)
    ensures Holds(StockList(warehouse, managed, current)) == Merged(AsMap(managed), AsMap(current))
  {
    var seen := AsMap(managed).Keys;
    HoldsAppend(ManagedLines(warehouse, managed), OtherLines(warehouse, seen, current));
    ManagedHold(warehouse, managed);
    OthersHold(warehouse, seen, current);
    MergedInTwo(AsMap(managed), AsMap(current));
  }

  /** A number of whole units: none for less than nothing, and otherwise as many as there are of an amount. */
  predicate WholeUnits(units: real, amount: real) {
    && units == units.Floor as real
    && if amount < 0.0 then units == 0.0 else units <= amount < units + 1.0
  }

  lemma ManagedIsWholeUnits(amount: real)
    ensures WholeUnits(ManagedAmount(amount) as real, amount)
  {}

  /** Sending the list leaves every unmanaged product exactly as held, and every managed one at as many whole units as
      there are, never less than none. No product is lost or added, and no other warehouse touched. */
  lemma NothingIsLost(store: map<string, map<string, real>>, warehouse: string, managed: Amounts, current: Amounts)
    requires warehouse in store && AsMap(current) == store[warehouse]
    ensures var after := Synced(store, warehouse, StockList(warehouse, managed, current));
            && after.Keys == store.Keys && after - {warehouse} == store - {warehouse}
            && after[warehouse].Keys == store[warehouse].Keys + AsMap(managed).Keys
            && (forall code :: code in store[warehouse] && code !in AsMap(managed) ==>
                  after[warehouse][code] == store[warehouse][code])
            && (forall code :: code in AsMap(managed) ==>
                  WholeUnits(after[warehouse][code], AsMap(managed)[code]))
  {
    ListHolds(warehouse, managed, current);
    var after := Synced(store, warehouse, StockList(warehouse, managed, current));
    forall code | code in AsMap(managed)
      ensures WholeUnits(after[warehouse][code], AsMap(managed)[code])
    {
      ManagedIsWholeUnits(AsMap(managed)[code]);
    }
  }

  /** Read back in any order and sent again, it changes nothing. */
  lemma SentAgainChangesNothing(store: map<string, map<string, real>>, warehouse: string, managed: Amounts,
                                current: Amounts, again: Amounts)
    requires warehouse in store && AsMap(current) == store[warehouse]
    requires AsMap(again) == Synced(store, warehouse, StockList(warehouse, managed, current))[warehouse]
    ensures var after := Synced(store, warehouse, StockList(warehouse, managed, current));
            Synced(after, warehouse, StockList(warehouse, managed, again)) == after
  {
    ListHolds(warehouse, managed, current);
    ListHolds(warehouse, managed, again);
    assert Merged(AsMap(managed), Merged(AsMap(managed), store[warehouse])) == Merged(AsMap(managed), store[warehouse]);
  }

  /* The list names no product twice. */

  predicate CodesApart(lines: seq<StockLine>) {
    forall i, j :: 0 <= i < j < |lines| ==> lines[i].code != lines[j].code
  }

  lemma {:induction false} ManagedApart(warehouse: string, managed: Amounts)
    requires Keyed(managed)
    ensures var r := ManagedLines(warehouse, managed);
            |r| == |managed| && (forall i :: 0 <= i < |r| ==>
                r[i].code == managed[i].0 && r[i].warehouseId == warehouse)
  {
    if managed != [] {
      ManagedApart(warehouse, managed[..|managed| - 1]);
    }
  }

  lemma {:induction false} KeysOfMap(s: Amounts)
    ensures forall i :: 0 <= i < |s| ==> s[i].0 in AsMap(s)
    ensures forall code :: code in AsMap(s) ==> exists i :: 0 <= i < |s| && s[i].0 == code
  {
    if s != [] {
      KeysOfMap(s[..|s| - 1]);
      forall code | code in AsMap(s) ensures exists i :: 0 <= i < |s| && s[i].0 == code {
        if code != s[|s| - 1].0 {
          var i :| 0 <= i < |s| - 1 && s[..|s| - 1][i].0 == code;
          assert s[i].0 == code;
        }
      }
    }
  }

  lemma {:induction false} OthersApart(warehouse: string, seen: set<string>, current: Amounts)
    requires Keyed(current)
    ensures var r := OtherLines(warehouse, seen, current);
            && CodesApart(r)
            && (forall i :: 0 <= i < |r| ==> r[i].code !in seen && r[i].warehouseId == warehouse
                                             && exists j :: 0 <= j < |current| && current[j].0 == r[i].code)
  {
    if current != [] {
      var n := |current| - 1;
      OthersApart(warehouse, seen, current[..n]);
      var r := OtherLines(warehouse, seen, current[..n]);
      forall i | 0 <= i < |r|
        ensures r[i].code != current[n].0 && exists j :: 0 <= j < |current| && current[j].0 == r[i].code
      {
        var j :| 0 <= j < n && current[..n][j].0 == r[i].code;
        assert current[j].0 == r[i].code;
      }
    }
  }

  lemma ListNamesEachOnce(warehouse: string, managed: Amounts, current: Amounts)
    requires Keyed(managed) && Keyed(current)
    ensures CodesApart(StockList(warehouse, managed, current))
    ensures forall i :: 0 <= i < |StockList(warehouse, managed, current)| ==>
            StockList(warehouse, managed, current)[i].warehouseId == warehouse
  {
    ManagedApart(warehouse, managed);
    KeysOfMap(managed);
    OthersApart(warehouse, AsMap(managed).Keys, current);
  }

  /* The echo. */

  datatype EchoedLine = EchoedLine(code: Option<string>, warehouse: Option<string>, amount: Option<real>)

  datatype Mismatch = NotAcknowledged(code: string) | Different(code: string, sent: real, back: real)

  const TOLERANCE := 0.000001

  function ExactKey(warehouse: string, code: string): string {
    warehouse + ":" + code
  }

  /** The echoed lines by warehouse and code, the last of two with the same key. */
  function Exact(echoed: seq<EchoedLine>): map<string, EchoedLine> {
    if echoed == [] then map[]
    else
      var before, e := Exact(echoed[..|echoed| - 1]), echoed[|echoed| - 1];
      if e.code.Some? && e.warehouse.Some? then before[ExactKey(e.warehouse.value, e.code.value) := e] else before
  }

  /** Those without a warehouse by code, the first of two. */
  function Unwarehoused(echoed: seq<EchoedLine>): map<string, EchoedLine> {
    if echoed == [] then map[]
    else
      var before, e := Unwarehoused(echoed[..|echoed| - 1]), echoed[|echoed| - 1];
      if e.code.Some? && e.warehouse.None? && e.code.value !in before then before[e.code.value := e] else before
  }

  function WarehousesOf(sent: seq<StockLine>, code: string): set<string> {
    set i | 0 <= i < |sent| && sent[i].code == code :: sent[i].warehouseId
  }

  /** The echoed line that answers a sent one. */
  function BackFor(line: StockLine, sent: seq<StockLine>, echoed: seq<EchoedLine>): Option<EchoedLine> {
    var key := ExactKey(line.warehouseId, line.code);
    if key in Exact(echoed) then Some(Exact(echoed)[key])
    else if |WarehousesOf(sent, line.code)| == 1 && line.code in Unwarehoused(echoed)
        then Some(Unwarehoused(echoed)[line.code])
    else None
  }

  function AbsReal(x: real): real {
    if x < 0.0 then -x else x
  }

  function Complaint(line: StockLine, sent: seq<StockLine>, echoed: seq<EchoedLine>): Option<Mismatch> {
    match BackFor(line, sent, echoed)
    case None => if |WarehousesOf(sent, line.code)| > 1 then None else Some(NotAcknowledged(line.code))
    case Some(back) =>
      if back.amount.Some? && AbsReal(back.amount.value - line.amount) > TOLERANCE
      then Some(Different(line.code, line.amount, back.amount.value)) else None
  }

  predicate Unnamed(echoed: seq<EchoedLine>) {
    forall i :: 0 <= i < |echoed| ==> echoed[i].code.None?
  }

  /** The complaint about the first sent line there is one about; none at all when the echo names nothing. */
  method DescribeEchoMismatch(sent: seq<StockLine>, echoed: seq<EchoedLine>) returns (mismatch: Option<Mismatch>)
    ensures mismatch.None? <==> Unnamed(echoed) || forall i :: 0 <= i < |sent| ==>
            Complaint(sent[i], sent, echoed).None?
    ensures mismatch.Some? ==> exists i :: 0 <= i < |sent| && Complaint(sent[i], sent, echoed) == mismatch
                                           && forall j :: 0 <= j < i ==> Complaint(sent[j], sent, echoed).None?
  {
    var anyNamed := exists i :: 0 <= i < |echoed| && echoed[i].code.Some?;
    if !anyNamed {
      return None;
    }
    var exact, byCode := IndexEcho(echoed);
    var warehouses := IndexWarehouses(sent);
    for k := 0 to |sent|
      invariant forall i :: 0 <= i < k ==> Complaint(sent[i], sent, echoed).None?
    {
      var line := sent[k];
      var several := |warehouses[line.code]|;
      var key := ExactKey(line.warehouseId, line.code);
      var back := if key in exact then Some(exact[key])
                  else if several == 1 && line.code in byCode then Some(byCode[line.code]) else None;
      assert back == BackFor(line, sent, echoed);
      if back.None? {
        if several > 1 {
          continue;
        }
        return Some(NotAcknowledged(line.code));
      }
      if back.value.amount.None? {
        continue;
      }
      if AbsReal(back.value.amount.value - line.amount) > TOLERANCE {
        return Some(Different(line.code, line.amount, back.value.amount.value));
      }
    }
    mismatch := None;
  }

  method IndexEcho(echoed: seq<EchoedLine>) returns (exact: map<string, EchoedLine>, byCode: map<string, EchoedLine>)
    ensures exact == Exact(echoed) && byCode == Unwarehoused(echoed)
  {
    exact, byCode := map[], map[];
    for k := 0 to |echoed|
      invariant exact == Exact(echoed[..k]) && byCode == Unwarehoused(echoed[..k])
    {
      assert echoed[..k + 1][..k] == echoed[..k];
      var e := echoed[k];
      if e.code.Some? {
        if e.warehouse.Some? {
          exact := exact[ExactKey(e.warehouse.value, e.code.value) := e];
        } else if e.code.value !in byCode {
          byCode := byCode[e.code.value := e];
        }
      }
    }
    assert echoed[..|echoed|] == echoed;
  }

  /** Which warehouses each product was sent to. */
  method IndexWarehouses(sent: seq<StockLine>) returns (warehouses: map<string, set<string>>)
    ensures forall i :: 0 <= i < |sent| ==>
            sent[i].code in warehouses && warehouses[sent[i].code] == WarehousesOf(sent, sent[i].code)
  {
    warehouses := map[];
    for k := 0 to |sent|
      invariant forall code :: (if code in warehouses then warehouses[code] else {}) == WarehousesOf(sent[..k], code)
      invariant forall i :: 0 <= i < k ==> sent[i].code in warehouses
    {
      var line := sent[k];
      forall code
        ensures WarehousesOf(sent[..k + 1], code) == WarehousesOf(sent[..k], code)
                + if code == line.code then {line.warehouseId} else {}
      {
        OneMoreWarehouse(sent, k, code);
      }
      var before := if line.code in warehouses then warehouses[line.code] else {};
      warehouses := warehouses[line.code := before + {line.warehouseId}];
    }
    assert sent[..|sent|] == sent;
  }

  lemma OneMoreWarehouse(sent: seq<StockLine>, k: nat, code: string)
    requires k < |sent|
    ensures WarehousesOf(sent[..k + 1], code) == WarehousesOf(sent[..k], code)
            + if sent[k].code == code then {sent[k].warehouseId} else {}
  {
    var a, b := sent[..k], sent[..k + 1];
    forall w | w in WarehousesOf(a, code) ensures w in WarehousesOf(b, code) {
      var i :| 0 <= i < |a| && a[i].code == code && a[i].warehouseId == w;
      assert b[i] == a[i];
    }
    if sent[k].code == code {
      assert b[k] == sent[k];
    }
    forall w | w in WarehousesOf(b, code)
      ensures w in WarehousesOf(a, code) || (sent[k].code == code && w == sent[k].warehouseId)
    {
      var i :| 0 <= i < |b| && b[i].code == code && b[i].warehouseId == w;
      if i < k { assert a[i] == b[i]; }
    }
  }

  /* What an accepted echo proves. */

  predicate NoColon(s: string) {
    ':' !in s
  }

  /** A line whose key has one colon, the one that joins it. */
  predicate OneColon(line: StockLine) {
    NoColon(line.warehouseId) && NoColon(line.code)
  }

  /** A key with one colon has one split. */
  lemma ExactKeyIsThePair(line: StockLine, warehouse: string, code: string)
    requires OneColon(line) && ExactKey(line.warehouseId, line.code) == ExactKey(warehouse, code)
    ensures warehouse == line.warehouseId && code == line.code
  {
    var s, k := ExactKey(warehouse, code), |line.warehouseId|;
    assert forall i :: 0 <= i < k ==> s[i] == line.warehouseId[i];
    assert forall i :: 0 <= i < |line.code| ==> s[k + 1 + i] == line.code[i];
    assert s[|warehouse|] == ':';
    assert |warehouse| == k;
    assert warehouse == s[..k] && code == s[k + 1..];
  }

  lemma {:induction false} ExactComesFrom(echoed: seq<EchoedLine>, key: string) returns (j: nat)
    requires key in Exact(echoed)
    ensures j < |echoed| && Exact(echoed)[key] == echoed[j]
    ensures echoed[j].code.Some? && echoed[j].warehouse.Some?
    ensures key == ExactKey(echoed[j].warehouse.value, echoed[j].code.value)
  {
    j := |echoed| - 1;
    var e := echoed[j];
    if !(e.code.Some? && e.warehouse.Some? && key == ExactKey(e.warehouse.value, e.code.value)) {
      j := ExactComesFrom(echoed[..j], key);
    }
  }

  lemma {:induction false} UnwarehousedComesFrom(echoed: seq<EchoedLine>, code: string) returns (j: nat)
    requires code in Unwarehoused(echoed)
    ensures j < |echoed| && Unwarehoused(echoed)[code] == echoed[j] && echoed[j].code == Some(code)
    ensures echoed[j].warehouse.None?
  {
    j := |echoed| - 1;
    if code in Unwarehoused(echoed[..j]) {
      j := UnwarehousedComesFrom(echoed[..j], code);
    }
  }

  predicate OneWarehouse(sent: seq<StockLine>, warehouse: string) {
    CodesApart(sent) && forall i :: 0 <= i < |sent| ==> sent[i].warehouseId == warehouse
  }

  lemma OneWarehouseOf(sent: seq<StockLine>, warehouse: string, i: nat)
    requires OneWarehouse(sent, warehouse) && i < |sent|
    ensures WarehousesOf(sent, sent[i].code) == {warehouse} && |WarehousesOf(sent, sent[i].code)| == 1
  {
    assert warehouse in WarehousesOf(sent, sent[i].code);
    assert WarehousesOf(sent, sent[i].code) == {warehouse};
  }

  predicate Close(a: real, b: real) {
    b - 0.000001 <= a <= b + 0.000001
  }

  /** The echo answers the line: it names its product, no other warehouse, and no amount off by more than a
      millionth. */
  predicate Answers(e: EchoedLine, line: StockLine) {
    && e.code == Some(line.code)
    && (e.warehouse.Some? ==> e.warehouse.value == line.warehouseId)
    && (e.amount.Some? ==> Close(e.amount.value, line.amount))
  }

  /** The count check and the comparison let it pass. */
  ghost predicate Believed(sent: seq<StockLine>, echoed: seq<EchoedLine>) {
    |echoed| == |sent| && forall i :: 0 <= i < |sent| ==> Complaint(sent[i], sent, echoed).None?
  }

  ghost predicate AllNamed(echoed: seq<EchoedLine>) {
    forall j :: 0 <= j < |echoed| ==> echoed[j].code.Some?
  }

  ghost predicate AllOneColon(sent: seq<StockLine>) {
    forall i :: 0 <= i < |sent| ==> OneColon(sent[i])
  }

  ghost predicate Answered(line: StockLine, echoed: seq<EchoedLine>) {
    exists j :: 0 <= j < |echoed| && Answers(echoed[j], line)
  }

  ghost predicate WasSent(e: EchoedLine, sent: seq<StockLine>) {
    exists i :: 0 <= i < |sent| && Answers(e, sent[i])
  }

  /** Each sent line is answered, and named once; the echo holds nothing else. */
  ghost predicate OneToOne(sent: seq<StockLine>, echoed: seq<EchoedLine>) {
    && (forall i :: 0 <= i < |sent| ==> Answered(sent[i], echoed))
    && (forall j, k :: 0 <= j < k < |echoed| ==> echoed[j].code != echoed[k].code)
    && (forall j :: 0 <= j < |echoed| ==> WasSent(echoed[j], sent))
  }

  lemma AnswerOf(warehouse: string, sent: seq<StockLine>, echoed: seq<EchoedLine>, i: nat) returns (j: nat)
    requires AllOneColon(sent) && OneWarehouse(sent, warehouse) && AllNamed(echoed) && Believed(sent, echoed)
    requires i < |sent|
    ensures j < |echoed| && Answers(echoed[j], sent[i])
  {
    assert Complaint(sent[i], sent, echoed).None?;
    OneWarehouseOf(sent, warehouse, i);
    var key := ExactKey(warehouse, sent[i].code);
    if key in Exact(echoed) {
      j := ExactComesFrom(echoed, key);
      ExactKeyIsThePair(sent[i], echoed[j].warehouse.value, echoed[j].code.value);
    } else {
      j := UnwarehousedComesFrom(echoed, sent[i].code);
    }
  }

  /** Pigeonhole: different numbers below n, n of them, are all of them. */
  lemma AllHolesTaken(f: seq<nat>, n: nat, j: nat)
    requires |f| == n && (forall i :: 0 <= i < n ==> f[i] < n) && j < n
    requires forall i, k :: 0 <= i < k < n ==> f[i] != f[k]
    ensures exists i :: 0 <= i < n && f[i] == j
  {
    TakenCount(f);
    if j !in Taken(f) {
      forall x | x in Taken(f) ensures x in Below(n) - {j} {
        var i :| 0 <= i < n && f[i] == x;
      }
      SubsetCount(Taken(f), Below(n) - {j});
    }
  }

  function Below(n: nat): (r: set<nat>)
    ensures |r| == n && forall x :: x in r <==> 0 <= x < n
  {
    if n == 0 then {} else Below(n - 1) + {n - 1}
  }

  function Taken(f: seq<nat>): set<nat> {
    if f == [] then {} else Taken(f[..|f| - 1]) + {f[|f| - 1]}
  }

  lemma {:induction false} TakenCount(f: seq<nat>)
    requires forall i, k :: 0 <= i < k < |f| ==> f[i] != f[k]
    ensures |Taken(f)| == |f| && forall x :: x in Taken(f) ==> exists i :: 0 <= i < |f| && f[i] == x
  {
    if f != [] {
      var n := |f| - 1;
      TakenCount(f[..n]);
      forall x | x in Taken(f[..n]) ensures x != f[n] && exists i :: 0 <= i < |f| && f[i] == x {
        var i :| 0 <= i < n && f[..n][i] == x;
        assert f[i] == x;
      }
    }
  }

  lemma {:induction false} SubsetCount<T>(a: set<T>, b: set<T>)
    requires a <= b
    ensures |a| <= |b|
  {
    if a != {} {
      var x :| x in a;
      SubsetCount(a - {x}, b - {x});
    }
  }

  /** For every sent line its answer, no two the same. */
  ghost predicate Answering(sent: seq<StockLine>, echoed: seq<EchoedLine>, f: seq<nat>, n: nat) {
    && |f| == n <= |sent|
    && (forall i :: 0 <= i < n ==> f[i] < |echoed| && Answers(echoed[f[i]], sent[i]))
    && (forall i, k :: 0 <= i < k < n ==> f[i] != f[k])
  }

  lemma EchoedIsSent(sent: seq<StockLine>, echoed: seq<EchoedLine>, f: seq<nat>, j: nat) returns (i: nat)
    requires Answering(sent, echoed, f, |sent|) && |echoed| == |sent| && j < |echoed|
    ensures i < |sent| && f[i] == j && Answers(echoed[j], sent[i])
  {
    AllHolesTaken(f, |sent|, j);
    i :| 0 <= i < |sent| && f[i] == j;
    assert Answers(echoed[f[i]], sent[i]);
  }

  lemma BelievedIsOneToOne(warehouse: string, sent: seq<StockLine>, echoed: seq<EchoedLine>)
    requires AllOneColon(sent) && OneWarehouse(sent, warehouse) && AllNamed(echoed) && Believed(sent, echoed)
    ensures OneToOne(sent, echoed)
  {
    var f := AnswersOf(warehouse, sent, echoed, |sent|);
    forall i | 0 <= i < |sent| ensures Answered(sent[i], echoed) {
      assert Answers(echoed[f[i]], sent[i]);
    }
    forall j, k | 0 <= j < k < |echoed| ensures echoed[j].code != echoed[k].code {
      var a := EchoedIsSent(sent, echoed, f, j);
      var b := EchoedIsSent(sent, echoed, f, k);
    }
    forall j | 0 <= j < |echoed| ensures WasSent(echoed[j], sent) {
      var i := EchoedIsSent(sent, echoed, f, j);
    }
  }

  lemma {:induction false} AnswersOf(warehouse: string, sent: seq<StockLine>, echoed: seq<EchoedLine>, n: nat)
    returns (f: seq<nat>)
    requires AllOneColon(sent) && OneWarehouse(sent, warehouse) && AllNamed(echoed) && Believed(sent, echoed)
    requires n <= |sent|
    ensures Answering(sent, echoed, f, n)
  {
    f := [];
    if n > 0 {
      f := AnswersOf(warehouse, sent, echoed, n - 1);
      var j := AnswerOf(warehouse, sent, echoed, n - 1);
      f := f + [j];
    }
  }

  lemma {:induction false} UnwarehousedHas(echoed: seq<EchoedLine>, j: nat)
    requires j < |echoed| && echoed[j].code.Some? && echoed[j].warehouse.None?
    ensures echoed[j].code.value in Unwarehoused(echoed)
  {
    if j < |echoed| - 1 {
      UnwarehousedHas(echoed[..|echoed| - 1], j);
    }
  }

  lemma SameKeySameCode(warehouse: string, a: string, b: string)
    requires ExactKey(warehouse, a) == ExactKey(warehouse, b)
    ensures a == b
  {
    assert a == ExactKey(warehouse, a)[|warehouse| + 1..];
    assert b == ExactKey(warehouse, b)[|warehouse| + 1..];
  }

  /** The check finds no fault with an honest echo, colons or not. */
  lemma HonestIsBelieved(warehouse: string, sent: seq<StockLine>, echoed: seq<EchoedLine>)
    requires OneWarehouse(sent, warehouse) && |echoed| == |sent| && OneToOne(sent, echoed)
    ensures Believed(sent, echoed)
  {
    forall i | 0 <= i < |sent|
      ensures Complaint(sent[i], sent, echoed).None?
    {
      HonestLine(warehouse, sent, echoed, i);
    }
  }

  /** An honest echoed line that names a product answers the line it was sent in. */
  lemma HonestNames(warehouse: string, sent: seq<StockLine>, echoed: seq<EchoedLine>, i: nat, j: nat)
    requires OneWarehouse(sent, warehouse) && OneToOne(sent, echoed) && i < |sent| && j < |echoed|
    requires echoed[j].code == Some(sent[i].code)
    ensures Answers(echoed[j], sent[i])
  {
    assert WasSent(echoed[j], sent);
    var m :| 0 <= m < |sent| && Answers(echoed[j], sent[m]);
    assert m == i;
  }

  lemma HonestLine(warehouse: string, sent: seq<StockLine>, echoed: seq<EchoedLine>, i: nat)
    requires OneWarehouse(sent, warehouse) && OneToOne(sent, echoed) && i < |sent|
    ensures Complaint(sent[i], sent, echoed).None?
  {
    var code, key := sent[i].code, ExactKey(warehouse, sent[i].code);
    OneWarehouseOf(sent, warehouse, i);
    if key in Exact(echoed) {
      var j := ExactComesFrom(echoed, key);
      assert WasSent(echoed[j], sent);
      SameKeySameCode(warehouse, echoed[j].code.value, code);
      HonestNames(warehouse, sent, echoed, i, j);
    } else {
      assert Answered(sent[i], echoed);
      var j :| 0 <= j < |echoed| && Answers(echoed[j], sent[i]);
      if echoed[j].warehouse.Some? {
        ExactHas(echoed, j);
      }
      UnwarehousedHas(echoed, j);
      var k := UnwarehousedComesFrom(echoed, code);
      HonestNames(warehouse, sent, echoed, i, k);
    }
  }

  /** What a complaint says of its line, in any list: that its product went to no other warehouse and no echoed line has
      its key, or its code without a warehouse; or the amount an echoed line states instead. */
  lemma ComplaintSays(sent: seq<StockLine>, echoed: seq<EchoedLine>, i: nat)
    requires i < |sent|
    ensures var line, complaint := sent[i], Complaint(sent[i], sent, echoed);
            && (complaint == Some(NotAcknowledged(line.code)) <==> Alone(line, sent) && Unheard(line, echoed))
            && (complaint.Some? && complaint.value.NotAcknowledged? ==> complaint.value.code == line.code)
            && (complaint.Some? && complaint.value.Different? ==>
                  && complaint.value.code == line.code && complaint.value.sent == line.amount
                  && !Close(complaint.value.back, line.amount) && States(line, echoed, complaint.value.back))
  {
    var line, key := sent[i], ExactKey(sent[i].warehouseId, sent[i].code);
    AloneIff(sent, i);
    if key in Exact(echoed) {
      var j := ExactComesFrom(echoed, key);
      assert Heard(echoed[j], line);
    } else if line.code in Unwarehoused(echoed) {
      var j := UnwarehousedComesFrom(echoed, line.code);
      assert Heard(echoed[j], line);
    }
    forall j | 0 <= j < |echoed| && Heard(echoed[j], line)
      ensures key in Exact(echoed) || line.code in Unwarehoused(echoed)
    {
      if echoed[j].warehouse.Some? {
        ExactHas(echoed, j);
      } else {
        UnwarehousedHas(echoed, j);
      }
    }
  }

  /** The product was sent to this warehouse only. */
  predicate Alone(line: StockLine, sent: seq<StockLine>) {
    forall i :: 0 <= i < |sent| && sent[i].code == line.code ==> sent[i].warehouseId == line.warehouseId
  }

  predicate Heard(e: EchoedLine, line: StockLine) {
    && e.code.Some?
    && if e.warehouse.None? then e.code.value == line.code
       else ExactKey(e.warehouse.value, e.code.value) == ExactKey(line.warehouseId, line.code)
  }

  predicate Unheard(line: StockLine, echoed: seq<EchoedLine>) {
    forall j :: 0 <= j < |echoed| ==> !Heard(echoed[j], line)
  }

  predicate States(line: StockLine, echoed: seq<EchoedLine>, amount: real) {
    exists j :: 0 <= j < |echoed| && Heard(echoed[j], line) && echoed[j].amount == Some(amount)
  }

  lemma AloneIff(sent: seq<StockLine>, i: nat)
    requires i < |sent|
    ensures var all := WarehousesOf(sent, sent[i].code);
            && sent[i].warehouseId in all && |all| >= 1 && (Alone(sent[i], sent) <==> |all| == 1)
  {
    var line, all := sent[i], WarehousesOf(sent, sent[i].code);
    assert line.warehouseId in all;
    if Alone(line, sent) {
      assert all == {line.warehouseId};
    } else {
      var k :| 0 <= k < |sent| && sent[k].code == line.code && sent[k].warehouseId != line.warehouseId;
      assert sent[k].warehouseId in all;
      SubsetCount({line.warehouseId, sent[k].warehouseId}, all);
    }
  }

  /** A key with a colon too many splits another way, and names another product. */
  lemma OtherSplit(line: StockLine) returns (warehouse: string, code: string)
    requires !OneColon(line)
    ensures ExactKey(warehouse, code) == ExactKey(line.warehouseId, line.code) && code != line.code
  {
    if NoColon(line.warehouseId) {
      var k := FirstColon(line.code);
      warehouse, code := ExactKey(line.warehouseId, line.code[..k]), line.code[k + 1..];
      assert line.code == line.code[..k] + ":" + code;
    } else {
      var k := FirstColon(line.warehouseId);
      warehouse, code := line.warehouseId[..k], ExactKey(line.warehouseId[k + 1..], line.code);
      assert line.warehouseId == warehouse + ":" + line.warehouseId[k + 1..];
      assert |code| > |line.code|;
    }
  }

  function FirstColon(s: string): (k: nat)
    requires ':' in s
    ensures k < |s| && s[k] == ':' && NoColon(s[..k])
  {
    if s[0] == ':' then 0 else 1 + FirstColon(s[1..])
  }

  lemma {:induction false} ExactHas(echoed: seq<EchoedLine>, j: nat)
    requires j < |echoed| && echoed[j].code.Some? && echoed[j].warehouse.Some?
    ensures ExactKey(echoed[j].warehouse.value, echoed[j].code.value) in Exact(echoed)
  {
    if j < |echoed| - 1 {
      ExactHas(echoed[..|echoed| - 1], j);
    }
  }

  /** An echo that states no amounts and has a line under every key passes. */
  lemma KeysPass(sent: seq<StockLine>, echoed: seq<EchoedLine>, i: nat)
    requires i < |sent| && ExactKey(sent[i].warehouseId, sent[i].code) in Exact(echoed)
    requires forall j :: 0 <= j < |echoed| ==> echoed[j].amount.None?
    ensures Complaint(sent[i], sent, echoed).None?
  {
    var j := ExactComesFrom(echoed, ExactKey(sent[i].warehouseId, sent[i].code));
  }

  function Unstated(warehouse: string, code: string): EchoedLine {
    EchoedLine(Some(code), Some(warehouse), None)
  }

  /** With a colon too many in one line, an echo that names another product under the same key, and every other
      line as sent, passes for the list. */
  lemma ColonFoolsTheCheck(sent: seq<StockLine>, warehouse: string, i: nat) returns (echoed: seq<EchoedLine>)
    requires OneWarehouse(sent, warehouse) && i < |sent| && !OneColon(sent[i])
    ensures AllNamed(echoed) && Believed(sent, echoed) && !OneToOne(sent, echoed)
  {
    var w, c := OtherSplit(sent[i]);
    echoed := seq(|sent|, k requires 0 <= k < |sent| => if k == i then Unstated(w, c)
        else Unstated(warehouse, sent[k].code));
    forall k | 0 <= k < |sent| ensures Complaint(sent[k], sent, echoed).None? {
      ExactHas(echoed, k);
      KeysPass(sent, echoed, k);
    }
    if Answered(sent[i], echoed) {
      var j :| 0 <= j < |echoed| && Answers(echoed[j], sent[i]);
      assert false;
    }
  }

  /** For the list of a warehouse: the echoes of the right length, naming products only, that pass the comparison are
      those that are one to one with what was sent, exactly when no line has a colon in its warehouse's id or in its
      code. */
  lemma EchoIsABijectionIff(sent: seq<StockLine>, warehouse: string)
    requires OneWarehouse(sent, warehouse)
    ensures (forall echoed :: AllNamed(echoed) && |echoed| == |sent| ==>
               (Believed(sent, echoed) <==> OneToOne(sent, echoed))) <==> AllOneColon(sent)
  {
    if AllOneColon(sent) {
      forall echoed | AllNamed(echoed) && |echoed| == |sent|
        ensures Believed(sent, echoed) <==> OneToOne(sent, echoed)
      {
        if Believed(sent, echoed) {
          BelievedIsOneToOne(warehouse, sent, echoed);
        }
        if OneToOne(sent, echoed) {
          HonestIsBelieved(warehouse, sent, echoed);
        }
      }
    } else {
      var i :| 0 <= i < |sent| && !OneColon(sent[i]);
      var echoed := ColonFoolsTheCheck(sent, warehouse, i);
    }
  }

  /* The call. */

  datatype Reply = Reply(accepted: bool, echoed: seq<EchoedLine>, removed: seq<EchoedLine>)

  datatype SyncResult = Synced(sent: nat) | EmptyList | Failed | CountWrong | Mismatched(mismatch: Mismatch)
                      | RemovedSome

  /** Success is believed only of a list that is not empty, echoed in full and as sent, with nothing removed. */
  method SyncStock(lines: seq<StockLine>, reply: Reply) returns (result: SyncResult)
    ensures result.Synced? <==> lines != [] && reply.accepted && reply.removed == [] && |reply.echoed| == |lines|
                                && (Unnamed(reply.echoed) || Believed(lines, reply.echoed))
    ensures result.EmptyList? <==> lines == []
  {
    if lines == [] {
      return EmptyList;
    }
    if !reply.accepted {
      return Failed;
    }
    if |reply.echoed| != |lines| {
      return CountWrong;
    }
    var mismatch := DescribeEchoMismatch(lines, reply.echoed);
    if mismatch.Some? {
      return Mismatched(mismatch.value);
    }
    if reply.removed != [] {
      return RemovedSome;
    }
    result := SyncResult.Synced(|lines|);
  }
}
