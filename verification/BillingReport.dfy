/**
 The tenant report: totals over a time window and one row per application.  The counters have 64 bits
 and wrap, as additions do in the release profile.
 */
module BillingReport {
  import opened Encoding
  import opened BillingRecord

  datatype AppUsage = AppUsage(
    appId: Text, requests: nat, fuel: nat, avgFuel: nat, wallMs: nat, traps: nat)

  datatype Report = Report(
    tenantId: Text, startMs: u64, endMs: u64,
    requests: nat, fuel: nat, wallMs: nat, peakRam: nat, traps: nat, perApp: seq<AppUsage>)

  /** The additive measures of a report. */
  datatype Measure = Requests | Fuel | WallClock | Traps

  function Of(m: Measure, r: Record): nat {
    match m
    case Requests => 1
    case Fuel => r.fuelConsumed
    case WallClock => r.wallClockMs
    case Traps => if r.isTrap then 1 else 0
  }

  function InRow(m: Measure, row: AppUsage): nat {
    match m
    case Requests => row.requests
    case Fuel => row.fuel
    case WallClock => row.wallMs
    case Traps => row.traps
  }

  function InTotal(m: Measure, report: Report): nat {
    match m
    case Requests => report.requests
    case Fuel => report.fuel
    case WallClock => report.wallMs
    case Traps => report.traps
  }

  /** Wrapping on the way does not change the residue. */
  lemma WrappedSum(a: nat, b: nat)
    ensures Wrapped(Wrapped(a) + b) == Wrapped(a + b)
  {
  }

  lemma WrappedParts(a: nat, b: nat, c: nat)
    requires Wrapped(b) == Wrapped(c)
    ensures Wrapped(Wrapped(a) + b) == Wrapped(a + c)
  {
    WrappedSum(a, b);
    WrappedSum(b, a);
    WrappedSum(c, a);
  }

  lemma BothWrapped(a: nat, b: nat, sum: nat)
    requires sum == a + b
    ensures Wrapped(sum) == Wrapped(Wrapped(a) + Wrapped(b))
  {
    WrappedParts(a, Wrapped(b), b);
  }

  predicate Billed(r: Record, tenantId: Text, startMs: u64, endMs: u64) {
    r.tenantId == tenantId && startMs <= r.timestampMs < endMs
  }

  function Select(records: seq<Record>, tenantId: Text, startMs: u64, endMs: u64): (s: seq<Record>)
    ensures forall r :: r in s ==> Billed(r, tenantId, startMs, endMs)
  {
    if records == [] then []
    else
      var last := records[|records| - 1];
      Select(records[..|records| - 1], tenantId, startMs, endMs)
      + if Billed(last, tenantId, startMs, endMs) then [last] else []
  }

  function Sum(m: Measure, records: seq<Record>): nat {
    if records == [] then 0 else Sum(m, records[..|records| - 1]) + Of(m, records[|records| - 1])
  }

  function Max(a: nat, b: nat): nat {
    if a < b then b else a
  }

  function Peak(records: seq<Record>): nat {
    if records == [] then 0 else Max(Peak(records[..|records| - 1]), records[|records| - 1].ramBytes)
  }

  /** The records of one application. */
  function OfApp(records: seq<Record>, appId: Text): seq<Record> {
    if records == [] then []
    else
      var last := records[|records| - 1];
      OfApp(records[..|records| - 1], appId) + if last.appId == appId then [last] else []
  }

  function AppIds(records: seq<Record>): set<Text> {
    set r | r in records :: r.appId
  }

  /** The sums of some records of an application, the average not yet filled in. */
  function RowOf(appId: Text, own: seq<Record>): AppUsage {
    AppUsage(appId, Wrapped(Sum(Requests, own)), Wrapped(Sum(Fuel, own)), 0,
             Wrapped(Sum(WallClock, own)), Wrapped(Sum(Traps, own)))
  }

  function Running(records: seq<Record>, appId: Text): AppUsage {
    RowOf(appId, OfApp(records, appId))
  }

  function WithAverage(row: AppUsage): AppUsage {
    row.(avgFuel := if row.requests == 0 then 0 else row.fuel / row.requests)
  }

  /** The row that an application deserves. */
  function Usage(records: seq<Record>, appId: Text): AppUsage {
    WithAverage(Running(records, appId))
  }

  /** The rows that the applications of the records deserve. */
  function UsageMap(records: seq<Record>): map<Text, AppUsage> {
    map id | id in AppIds(records) :: Usage(records, id)
  }

  ghost predicate DistinctIds(rows: seq<AppUsage>) {
    forall i, j :: 0 <= i < j < |rows| ==> rows[i].appId != rows[j].appId
  }

  ghost predicate ByFallingFuel(rows: seq<AppUsage>) {
    forall i, j :: 0 <= i < j < |rows| ==> rows[i].fuel >= rows[j].fuel
  }

  /** The rows are the entries of a map, each once. */
  ghost predicate RowsOf(rows: seq<AppUsage>, usage: map<Text, AppUsage>) {
    && DistinctIds(rows)
    && (forall row :: row in rows ==> row.appId in usage && usage[row.appId] == row)
    && (forall id :: id in usage ==> usage[id].appId == id && usage[id] in rows)
  }

  // ----- The aggregation loop -----

  function EmptyUsage(appId: Text): AppUsage {
    AppUsage(appId, 0, 0, 0, 0, 0)
  }

  function Added(row: AppUsage, r: Record): AppUsage {
    AppUsage(row.appId, Wrapped(row.requests + 1), Wrapped(row.fuel + r.fuelConsumed), row.avgFuel,
             Wrapped(row.wallMs + r.wallClockMs), Wrapped(row.traps + if r.isTrap then 1 else 0))
  }

  function AddTo(perApp: map<Text, AppUsage>, r: Record): map<Text, AppUsage> {
    perApp[r.appId := Added(if r.appId in perApp then perApp[r.appId] else EmptyUsage(r.appId), r)]
  }

  /** The rows after the records, one record at a time. */
  function Fold(records: seq<Record>): map<Text, AppUsage> {
    if records == [] then map[] else AddTo(Fold(records[..|records| - 1]), records[|records| - 1])
  }

  lemma SumAppend(m: Measure, records: seq<Record>, r: Record)
    ensures Sum(m, records + [r]) == Sum(m, records) + Of(m, r)
  {
    assert (records + [r])[..|records|] == records;
  }

  lemma OfAppAppend(records: seq<Record>, r: Record, id: Text)
    ensures OfApp(records + [r], id) == if r.appId == id then OfApp(records, id) + [r] else OfApp(records, id)
  {
    assert (records + [r])[..|records|] == records;
  }

  lemma WrappedAppend(m: Measure, records: seq<Record>, r: Record)
    ensures Wrapped(Sum(m, records + [r])) == Wrapped(Wrapped(Sum(m, records)) + Of(m, r))
  {
    SumAppend(m, records, r);
    WrappedSum(Sum(m, records), Of(m, r));
  }

  lemma RowAppend(id: Text, own: seq<Record>, r: Record)
    ensures RowOf(id, own + [r]) == Added(RowOf(id, own), r)
  {
    WrappedAppend(Requests, own, r);
    WrappedAppend(Fuel, own, r);
    WrappedAppend(WallClock, own, r);
    WrappedAppend(Traps, own, r);
  }

  lemma RunningAppend(records: seq<Record>, r: Record, id: Text)
    ensures Running(records + [r], id) == if r.appId == id then Added(Running(records, id), r) else Running(records, id)
  {
    OfAppAppend(records, r, id);
    RowAppend(id, OfApp(records, id), r);
  }

  lemma {:induction false} FoldRow(records: seq<Record>, id: Text)
    ensures id in Fold(records) <==> exists r :: r in records && r.appId == id
    ensures (if id in Fold(records) then Fold(records)[id] else EmptyUsage(id)) == Running(records, id)
  {
    if records != [] {
      var rest, last := records[..|records| - 1], records[|records| - 1];
      assert records == rest + [last];
      FoldRow(rest, id);
      RunningAppend(rest, last, id);
      assert last in records;
      assert forall r :: r in rest ==> r in records;
    }
  }

  /** The loop's map, averages filled in, holds what each application deserves. */
  lemma FoldIsUsage(records: seq<Record>, averaged: map<Text, AppUsage>)
    requires averaged.Keys == Fold(records).Keys
    requires forall id :: id in averaged ==> averaged[id] == WithAverage(Fold(records)[id])
    ensures averaged == UsageMap(records)
  {
    forall id: Text
      ensures id in averaged <==> id in UsageMap(records)
      ensures id in averaged ==> averaged[id] == UsageMap(records)[id]
    {
      FoldRow(records, id);
    }
  }

  /** The values of the map, in the map's own order. */
  method Values(perApp: map<Text, AppUsage>) returns (rows: seq<AppUsage>)
    requires forall id :: id in perApp ==> perApp[id].appId == id
    ensures RowsOf(rows, perApp)
  {
    rows := [];
    var left := perApp.Keys;
    while left != {}
      invariant left <= perApp.Keys
      invariant DistinctIds(rows)
      invariant forall row :: row in rows ==> row.appId in perApp && row.appId !in left && perApp[row.appId] == row
      invariant forall id :: id in perApp && id !in left ==> perApp[id] in rows
      decreases left
    {
      var id :| id in left;
      rows := rows + [perApp[id]];
      left := left - {id};
    }
  }

  method FillAverages(rows: seq<AppUsage>) returns (filled: seq<AppUsage>)
    ensures |filled| == |rows|
    ensures forall i :: 0 <= i < |rows| ==> filled[i] == WithAverage(rows[i])
  {
    filled := rows;
    for i := 0 to |rows|
      invariant |filled| == |rows|
      invariant forall k :: 0 <= k < i ==> filled[k] == WithAverage(rows[k])
      invariant forall k :: i <= k < |rows| ==> filled[k] == rows[k]
    {
      filled := filled[i := WithAverage(filled[i])];
    }
  }

  lemma FilledRows(
    rows: seq<AppUsage>, filled: seq<AppUsage>, perApp: map<Text, AppUsage>, averaged: map<Text, AppUsage>)
    requires RowsOf(rows, perApp)
    requires |filled| == |rows| && forall i :: 0 <= i < |rows| ==> filled[i] == WithAverage(rows[i])
    requires averaged.Keys == perApp.Keys && forall id :: id in averaged ==> averaged[id] == WithAverage(perApp[id])
    ensures RowsOf(filled, averaged)
  {
    forall row | row in filled ensures row.appId in averaged && averaged[row.appId] == row {
      var i :| 0 <= i < |filled| && filled[i] == row;
      assert rows[i] in rows;
    }
    forall id | id in averaged ensures averaged[id].appId == id && averaged[id] in filled {
      var i :| 0 <= i < |rows| && rows[i] == perApp[id];
      assert filled[i] in filled;
    }
  }

  /** The rows of one fuel, in their order. */
  function WithFuel(rows: seq<AppUsage>, fuel: nat): seq<AppUsage> {
    if rows == [] then []
    else (if rows[0].fuel == fuel then [rows[0]] else []) + WithFuel(rows[1..], fuel)
  }

  lemma {:induction false} WithFuelJoins(a: seq<AppUsage>, b: seq<AppUsage>, fuel: nat)
    ensures WithFuel(a + b, fuel) == WithFuel(a, fuel) + WithFuel(b, fuel)
  {
    if a == [] {
      assert a + b == b;
    } else {
      var head := if a[0].fuel == fuel then [a[0]] else [];
      WithFuelJoins(a[1..], b, fuel);
      assert (a + b)[1..] == a[1..] + b && (a + b)[0] == a[0];
      Associates(head, WithFuel(a[1..], fuel), WithFuel(b, fuel));
    }
  }

  lemma {:induction false} NoneWithFuel(rows: seq<AppUsage>, fuel: nat)
    requires forall i :: 0 <= i < |rows| ==> rows[i].fuel != fuel
    ensures WithFuel(rows, fuel) == []
  {
    if rows != [] { NoneWithFuel(rows[1..], fuel); }
  }

  lemma Rearranged(f: seq<AppUsage>, r: seq<AppUsage>, b: seq<AppUsage>)
    requires r == [] || b == []
    ensures f + r + b == f + b + r
  {
  }

  lemma OneWithFuel(row: AppUsage, back: seq<AppUsage>, fuel: nat)
    requires forall i :: 0 <= i < |back| ==> back[i].fuel < row.fuel
    ensures WithFuel([row], fuel) == [] || WithFuel(back, fuel) == []
  {
    if fuel == row.fuel { NoneWithFuel(back, fuel); }
  }

  /** Inserting a row before rows of less fuel puts it after all rows of its own. */
  lemma InsertedLast(front: seq<AppUsage>, row: AppUsage, back: seq<AppUsage>, fuel: nat, all: seq<AppUsage>)
    requires forall i :: 0 <= i < |back| ==> back[i].fuel < row.fuel
    requires all == front + back
    ensures WithFuel(front + [row] + back, fuel) == WithFuel(all, fuel) + WithFuel([row], fuel)
  {
    var f, r, b := WithFuel(front, fuel), WithFuel([row], fuel), WithFuel(back, fuel);
    assert WithFuel(front + [row] + back, fuel) == f + r + b by {
      WithFuelJoins(front + [row], back, fuel);
      WithFuelJoins(front, [row], fuel);
    }
    assert WithFuel(all, fuel) == f + b by { WithFuelJoins(front, back, fuel); }
    OneWithFuel(row, back, fuel);
    Rearranged(f, r, b);
  }

  /** A stable sort by falling fuel: each row goes after those with at least as much. */
  method SortByFuel(rows: seq<AppUsage>) returns (sorted: seq<AppUsage>)
    requires DistinctIds(rows)
    ensures ByFallingFuel(sorted) && DistinctIds(sorted)
    ensures forall row :: row in sorted <==> row in rows
    ensures forall fuel :: WithFuel(sorted, fuel) == WithFuel(rows, fuel)
  {
    sorted := [];
    for i := 0 to |rows|
      invariant Ranked(sorted)
      invariant forall row :: row in sorted <==> row in rows[..i]
      invariant forall fuel :: WithFuel(sorted, fuel) == WithFuel(rows[..i], fuel)
    {
      var k := 0;
      while k < |sorted| && sorted[k].fuel >= rows[i].fuel
        invariant 0 <= k <= |sorted|
        invariant forall j :: 0 <= j < k ==> sorted[j].fuel >= rows[i].fuel
      {
        k := k + 1;
      }
      OtherIds(rows, i, sorted);
      Inserted(sorted, k, rows[i]);
      StableStep(sorted, k, rows[..i], rows[i]);
      assert sorted == sorted[..k] + sorted[k..];
      sorted := sorted[..k] + [rows[i]] + sorted[k..];
      assert rows[..i + 1] == rows[..i] + [rows[i]];
    }
    assert rows[..|rows|] == rows;
  }

  lemma StableAt(
    front: seq<AppUsage>, row: AppUsage, back: seq<AppUsage>, sorted: seq<AppUsage>, before: seq<AppUsage>, fuel: nat)
    requires forall i :: 0 <= i < |back| ==> back[i].fuel < row.fuel
    requires sorted == front + back && WithFuel(sorted, fuel) == WithFuel(before, fuel)
    ensures WithFuel(front + [row] + back, fuel) == WithFuel(before + [row], fuel)
  {
    InsertedLast(front, row, back, fuel, sorted);
    WithFuelJoins(before, [row], fuel);
  }

  lemma StableStep(sorted: seq<AppUsage>, k: nat, before: seq<AppUsage>, row: AppUsage)
    requires k <= |sorted| && forall j :: k <= j < |sorted| ==> sorted[j].fuel < row.fuel
    requires forall fuel :: WithFuel(sorted, fuel) == WithFuel(before, fuel)
    ensures forall fuel :: WithFuel(sorted[..k] + [row] + sorted[k..], fuel) == WithFuel(before + [row], fuel)
  {
    var front, back := sorted[..k], sorted[k..];
    assert sorted == front + back;
    forall fuel ensures WithFuel(front + [row] + back, fuel) == WithFuel(before + [row], fuel) {
      StableAt(front, row, back, sorted, before, fuel);
    }
  }

  lemma OtherIds(rows: seq<AppUsage>, i: nat, some: seq<AppUsage>)
    requires DistinctIds(rows) && i < |rows|
    requires forall row :: row in some ==> row in rows[..i]
    ensures forall j :: 0 <= j < |some| ==> some[j].appId != rows[i].appId
  {
    forall j | 0 <= j < |some| ensures some[j].appId != rows[i].appId {
      assert some[j] in some;
      var k :| 0 <= k < i && rows[..i][k] == some[j];
      assert rows[k] == some[j];
    }
  }

  predicate Ahead(x: AppUsage, y: AppUsage) {
    x.fuel >= y.fuel && x.appId != y.appId
  }

  ghost predicate Ranked(rows: seq<AppUsage>) {
    forall i, j :: 0 <= i < j < |rows| ==> Ahead(rows[i], rows[j])
  }

  lemma Inserted(rows: seq<AppUsage>, k: nat, row: AppUsage)
    requires Ranked(rows) && k <= |rows|
    requires forall j :: 0 <= j < k ==> Ahead(rows[j], row)
    requires forall j :: k <= j < |rows| ==> Ahead(row, rows[j])
    ensures Ranked(rows[..k] + [row] + rows[k..])
  {
    var all := rows[..k] + [row] + rows[k..];
    assert forall i :: 0 <= i < k ==> all[i] == rows[i];
    assert forall i :: k < i < |all| ==> all[i] == rows[i - 1];
  }

  /** The rows of a report: the usage of every application of the records, by falling fuel. */
  method Rows(perApp: map<Text, AppUsage>, ghost selected: seq<Record>) returns (rows: seq<AppUsage>)
    requires perApp == Fold(selected)
    ensures RowsOf(rows, UsageMap(selected)) && ByFallingFuel(rows)
  {
    FoldIds(selected);
    var plain := Values(perApp);
    var filled := FillAverages(plain);
    ghost var averaged := map id | id in perApp :: WithAverage(perApp[id]);
    FilledRows(plain, filled, perApp, averaged);
    FoldIsUsage(selected, averaged);
    rows := SortByFuel(filled);
  }

  lemma FoldIds(records: seq<Record>)
    ensures forall id :: id in Fold(records) ==> Fold(records)[id].appId == id
  {
    forall id | id in Fold(records) ensures Fold(records)[id].appId == id {
      FoldRow(records, id);
    }
  }

  ghost predicate TotalsAre(report: Report, selected: seq<Record>) {
    && report.requests == Wrapped(Sum(Requests, selected)) && report.fuel == Wrapped(Sum(Fuel, selected))
    && report.wallMs == Wrapped(Sum(WallClock, selected)) && report.traps == Wrapped(Sum(Traps, selected))
    && report.peakRam == Peak(selected)
  }

  /** The report says what the selected records add up to. */
  ghost predicate Reports(report: Report, selected: seq<Record>) {
    TotalsAre(report, selected) && RowsOf(report.perApp, UsageMap(selected)) && ByFallingFuel(report.perApp)
  }

  method GenerateReport(records: seq<Record>, tenantId: Text, startMs: u64, endMs: u64) returns (report: Report)
    ensures report.tenantId == tenantId && report.startMs == startMs && report.endMs == endMs
    ensures Reports(report, Select(records, tenantId, startMs, endMs))
  {
    var selected := Select(records, tenantId, startMs, endMs);
    var perApp: map<Text, AppUsage> := map[];
    var fuel: nat, wall: nat, peak: nat, traps: nat := 0, 0, 0, 0;
    for i := 0 to |selected|
      invariant Totals(selected[..i], fuel, wall, peak, traps)
      invariant perApp == Fold(selected[..i])
    {
      var r := selected[i];
      TotalsStep(selected[..i], r, fuel, wall, peak, traps);
      assert selected[..i + 1] == selected[..i] + [r] && selected[..i + 1][..i] == selected[..i];
      fuel, wall, peak := Wrapped(fuel + r.fuelConsumed), Wrapped(wall + r.wallClockMs), Max(peak, r.ramBytes);
      if r.isTrap {
        traps := Wrapped(traps + 1);
      }
      perApp := AddTo(perApp, r);
    }
    assert selected[..|selected|] == selected;
    var rows := Rows(perApp, selected);
    RequestsCount(selected);
    report := Report(tenantId, startMs, endMs, Wrapped(|selected|), fuel, wall, peak, traps, rows);
  }

  /** The running totals of the loop. */
  ghost predicate Totals(records: seq<Record>, fuel: nat, wall: nat, peak: nat, traps: nat) {
    && fuel == Wrapped(Sum(Fuel, records)) && wall == Wrapped(Sum(WallClock, records))
    && peak == Peak(records) && traps == Wrapped(Sum(Traps, records))
  }

  lemma TotalsStep(records: seq<Record>, r: Record, fuel: nat, wall: nat, peak: nat, traps: nat)
    requires Totals(records, fuel, wall, peak, traps)
    ensures Totals(records + [r], Wrapped(fuel + r.fuelConsumed), Wrapped(wall + r.wallClockMs),
                   Max(peak, r.ramBytes), if r.isTrap then Wrapped(traps + 1) else traps)
  {
    WrappedAppend(Fuel, records, r);
    WrappedAppend(WallClock, records, r);
    WrappedAppend(Traps, records, r);
    assert (records + [r])[..|records|] == records;
  }

  lemma {:induction false} RequestsCount(records: seq<Record>)
    ensures Sum(Requests, records) == |records|
  {
    if records != [] { RequestsCount(records[..|records| - 1]); }
  }

  // ----- Conservation -----

  function SumRows(m: Measure, rows: seq<AppUsage>): nat {
    if rows == [] then 0 else InRow(m, rows[0]) + SumRows(m, rows[1..])
  }

  /** The records of all other applications. */
  function Without(records: seq<Record>, appId: Text): seq<Record> {
    if records == [] then []
    else
      var last := records[|records| - 1];
      Without(records[..|records| - 1], appId) + if last.appId != appId then [last] else []
  }

  lemma {:induction false} SumSplits(m: Measure, records: seq<Record>, appId: Text)
    ensures Sum(m, records) == Sum(m, OfApp(records, appId)) + Sum(m, Without(records, appId))
  {
    if records != [] {
      var rest, last := records[..|records| - 1], records[|records| - 1];
      SumSplits(m, rest, appId);
      SumAppend(m, OfApp(rest, appId), last);
      SumAppend(m, Without(rest, appId), last);
      assert OfApp(rest, appId) + [] == OfApp(rest, appId) && Without(rest, appId) + [] == Without(rest, appId);
    }
  }

  lemma {:induction false} WithoutKeeps(records: seq<Record>, appId: Text, other: Text)
    requires other != appId
    ensures OfApp(Without(records, appId), other) == OfApp(records, other)
  {
    if records != [] {
      var rest, last := records[..|records| - 1], records[|records| - 1];
      WithoutKeeps(rest, appId, other);
      var w := Without(rest, appId);
      assert (w + [last])[..|w|] == w && w + [] == w;
      assert OfApp(w, other) + [] == OfApp(w, other);
    }
  }

  lemma {:induction false} WithoutMembers(records: seq<Record>, appId: Text, r: Record)
    ensures r in Without(records, appId) <==> r in records && r.appId != appId
  {
    if records != [] {
      WithoutMembers(records[..|records| - 1], appId, r);
      assert records == records[..|records| - 1] + [records[|records| - 1]];
    }
  }

  lemma WithoutIds(records: seq<Record>, appId: Text)
    ensures AppIds(Without(records, appId)) == AppIds(records) - {appId}
  {
    forall r: Record ensures r in Without(records, appId) <==> r in records && r.appId != appId {
      WithoutMembers(records, appId, r);
    }
  }

  lemma WithoutUsage(records: seq<Record>, appId: Text)
    ensures UsageMap(Without(records, appId)) == UsageMap(records) - {appId}
  {
    WithoutIds(records, appId);
    forall id | id in AppIds(records) && id != appId
      ensures Usage(Without(records, appId), id) == Usage(records, id)
    {
      WithoutKeeps(records, appId, id);
    }
  }

  lemma RestRows(rows: seq<AppUsage>, usage: map<Text, AppUsage>)
    requires RowsOf(rows, usage) && rows != []
    ensures rows[0].appId in usage && RowsOf(rows[1..], usage - {rows[0].appId})
  {
    assert rows == [rows[0]] + rows[1..];
  }

  lemma UsageMeasures(m: Measure, records: seq<Record>, appId: Text)
    ensures InRow(m, Usage(records, appId)) == Wrapped(Sum(m, OfApp(records, appId)))
  {
  }

  lemma NoRows(records: seq<Record>)
    requires RowsOf([], UsageMap(records))
    ensures records == []
  {
    HasUsage(records);
  }

  lemma HasUsage(records: seq<Record>)
    ensures records != [] ==> records[0].appId in UsageMap(records)
  {
    if records != [] { assert records[0] in records; }
  }

  lemma FirstRow(m: Measure, rows: seq<AppUsage>, records: seq<Record>)
    requires RowsOf(rows, UsageMap(records)) && rows != []
    ensures var id := rows[0].appId;
            && RowsOf(rows[1..], UsageMap(Without(records, id)))
            && SumRows(m, rows) == Wrapped(Sum(m, OfApp(records, id))) + SumRows(m, rows[1..])
  {
    var id := rows[0].appId;
    RestRows(rows, UsageMap(records));
    WithoutUsage(records, id);
    UsageMeasures(m, records, id);
  }

  /** Equal in 64-bit arithmetic, and as numbers if the second fits. */
  ghost predicate AddUp(rows: nat, sum: nat) {
    Wrapped(rows) == Wrapped(sum) && (sum < WRAP ==> rows == sum)
  }

  /** A wrapped part and a sum that agrees with the other part. */
  lemma PartsAddUp(x: nat, others: nat, y: nat, rows: nat, sum: nat)
    requires AddUp(others, y)
    requires rows == Wrapped(x) + others && sum == x + y
    ensures AddUp(rows, sum)
  {
    WrappedParts(x, others, y);
  }

  lemma {:induction false} RowsAddUp(m: Measure, rows: seq<AppUsage>, records: seq<Record>)
    requires RowsOf(rows, UsageMap(records))
    ensures AddUp(SumRows(m, rows), Sum(m, records))
    decreases |rows|
  {
    if rows == [] {
      NoRows(records);
    } else {
      var id := rows[0].appId;
      FirstRow(m, rows, records);
      RowsAddUp(m, rows[1..], Without(records, id));
      SumSplits(m, records, id);
      PartsAddUp(Sum(m, OfApp(records, id)), SumRows(m, rows[1..]), Sum(m, Without(records, id)),
                 SumRows(m, rows), Sum(m, records));
    }
  }

  /**
   Nothing is lost or counted twice: in every measure the rows add up to the total, in 64-bit arithmetic
   always, and as numbers whenever the true sum fits 64 bits; exactly then is the total the true sum.
   */
  lemma Conservation(report: Report, selected: seq<Record>, m: Measure)
    requires Reports(report, selected)
    ensures Wrapped(SumRows(m, report.perApp)) == InTotal(m, report)
    ensures Sum(m, selected) < WRAP ==> SumRows(m, report.perApp) == InTotal(m, report)
    ensures InTotal(m, report) == Sum(m, selected) <==> Sum(m, selected) < WRAP
  {
    RowsAddUp(m, report.perApp, selected);
  }

  /** Unless its counters wrapped, a row has a request, and its average is the whole part of fuel per request. */
  lemma AverageIsWholePart(report: Report, selected: seq<Record>, row: AppUsage)
    requires Reports(report, selected) && row in report.perApp && |selected| < WRAP
    ensures row.requests > 0
    ensures row.avgFuel * row.requests <= row.fuel < (row.avgFuel + 1) * row.requests
  {
    UsedRow(selected, row.appId);
    WholePart(row.fuel, row.requests);
  }

  lemma {:induction false} OfAppCount(records: seq<Record>, id: Text)
    ensures |OfApp(records, id)| <= |records|
    ensures OfApp(records, id) == [] ==> id !in AppIds(records)
  {
    if records != [] {
      OfAppCount(records[..|records| - 1], id);
      assert records == records[..|records| - 1] + [records[|records| - 1]];
    }
  }

  lemma UsedRow(records: seq<Record>, id: Text)
    requires id in AppIds(records) && |records| < WRAP
    ensures Usage(records, id).requests > 0
    ensures var row := Usage(records, id); row.avgFuel == row.fuel / row.requests
  {
    OfAppCount(records, id);
    RequestsCount(OfApp(records, id));
  }

  lemma WholePart(fuel: nat, requests: nat)
    requires requests > 0
    ensures fuel / requests * requests <= fuel < (fuel / requests + 1) * requests
  {
    assert fuel == fuel / requests * requests + fuel % requests;
  }

  /** The peak bounds every record and, unless there are none, is one of them. */
  lemma {:induction false} PeakIsMaximum(records: seq<Record>)
    ensures forall r :: r in records ==> r.ramBytes <= Peak(records)
    ensures records != [] ==> exists r :: r in records && r.ramBytes == Peak(records)
  {
    if records != [] {
      var rest, last := records[..|records| - 1], records[|records| - 1];
      assert records == rest + [last] && last in records;
      PeakIsMaximum(rest);
      if rest != [] && Peak(rest) >= last.ramBytes {
        var r :| r in rest && r.ramBytes == Peak(rest);
        assert r in records;
      }
    }
  }

  // ----- Windows -----

  lemma {:induction false} SelectSplits(m: Measure, records: seq<Record>, tenantId: Text, a: u64, b: u64, c: u64)
    requires a <= b <= c
    ensures Sum(m, Select(records, tenantId, a, c))
         == Sum(m, Select(records, tenantId, a, b)) + Sum(m, Select(records, tenantId, b, c))
  {
    if records != [] {
      var rest, last := records[..|records| - 1], records[|records| - 1];
      SelectSplits(m, rest, tenantId, a, b, c);
      SelectLast(m, records, tenantId, a, b);
      SelectLast(m, records, tenantId, b, c);
      SelectLast(m, records, tenantId, a, c);
    }
  }

  lemma SelectLast(m: Measure, records: seq<Record>, tenantId: Text, a: u64, b: u64)
    requires records != []
    ensures var rest, last := records[..|records| - 1], records[|records| - 1];
            && Sum(m, Select(records, tenantId, a, b))
               == Sum(m, Select(rest, tenantId, a, b)) + (if Billed(last, tenantId, a, b) then Of(m, last) else 0)
            && Peak(Select(records, tenantId, a, b))
               == Max(Peak(Select(rest, tenantId, a, b)), if Billed(last, tenantId, a, b) then last.ramBytes else 0)
  {
    var rest, last := records[..|records| - 1], records[|records| - 1];
    var s := Select(rest, tenantId, a, b);
    SumAppend(m, s, last);
    assert (s + [last])[..|s|] == s && s + [] == s;
  }

  lemma {:induction false} PeakSplits(records: seq<Record>, tenantId: Text, a: u64, b: u64, c: u64)
    requires a <= b <= c
    ensures Peak(Select(records, tenantId, a, c))
         == Max(Peak(Select(records, tenantId, a, b)), Peak(Select(records, tenantId, b, c)))
  {
    if records != [] {
      PeakSplits(records[..|records| - 1], tenantId, a, b, c);
      SelectLast(Fuel, records, tenantId, a, b);
      SelectLast(Fuel, records, tenantId, b, c);
      SelectLast(Fuel, records, tenantId, a, c);
    }
  }

  /** Reports of adjacent periods add up to the report of the whole period. */
  lemma PeriodsAddUp(
    records: seq<Record>, tenantId: Text, a: u64, b: u64, c: u64,
    first: Report, second: Report, whole: Report, m: Measure)
    requires a <= b <= c
    requires Reports(first, Select(records, tenantId, a, b)) && Reports(second, Select(records, tenantId, b, c))
    requires Reports(whole, Select(records, tenantId, a, c))
    ensures InTotal(m, whole) == Wrapped(InTotal(m, first) + InTotal(m, second))
    ensures whole.peakRam == Max(first.peakRam, second.peakRam)
  {
    PeakSplits(records, tenantId, a, b, c);
    PeriodTotals(records, tenantId, a, b, c, first, second, whole, m);
  }

  lemma PeriodTotals(
    records: seq<Record>, tenantId: Text, a: u64, b: u64, c: u64,
    first: Report, second: Report, whole: Report, m: Measure)
    requires a <= b <= c
    requires TotalsAre(first, Select(records, tenantId, a, b)) && TotalsAre(second, Select(records, tenantId, b, c))
    requires TotalsAre(whole, Select(records, tenantId, a, c))
    ensures InTotal(m, whole) == Wrapped(InTotal(m, first) + InTotal(m, second))
  {
    SelectSplits(m, records, tenantId, a, b, c);
    ThreeTotals(first, Select(records, tenantId, a, b), second, Select(records, tenantId, b, c),
                whole, Select(records, tenantId, a, c), m);
  }

  lemma ThreeTotals(
    first: Report, x: seq<Record>, second: Report, y: seq<Record>, whole: Report, z: seq<Record>, m: Measure)
    requires TotalsAre(first, x) && TotalsAre(second, y) && TotalsAre(whole, z) && Sum(m, z) == Sum(m, x) + Sum(m, y)
    ensures InTotal(m, whole) == Wrapped(InTotal(m, first) + InTotal(m, second))
  {
    var a := TotalOf(first, x, m);
    var b := TotalOf(second, y, m);
    var c := TotalOf(whole, z, m);
    BothWrapped(a, b, c);
  }

  lemma TotalOf(report: Report, selected: seq<Record>, m: Measure) returns (sum: nat)
    requires TotalsAre(report, selected)
    ensures sum == Sum(m, selected) && InTotal(m, report) == Wrapped(sum)
  {
    sum := Sum(m, selected);
  }

  lemma {:induction false} SelectTwice(records: seq<Record>, tenantId: Text, startMs: u64, endMs: u64)
    ensures var once := Select(records, tenantId, startMs, endMs); Select(once, tenantId, startMs, endMs) == once
  {
    if records != [] {
      var rest, last := records[..|records| - 1], records[|records| - 1];
      SelectTwice(rest, tenantId, startMs, endMs);
      var s := Select(rest, tenantId, startMs, endMs);
      assert (s + [last])[..|s|] == s && s + [] == s;
    }
  }

  /** The store's records are filtered before the report filters them again: nothing changes. */
  method TenantReport(stored: seq<Record>, tenantId: Text, startMs: u64, endMs: u64) returns (report: Report)
    ensures Reports(report, Select(stored, tenantId, startMs, endMs))
  {
    SelectTwice(stored, tenantId, startMs, endMs);
    report := GenerateReport(Select(stored, tenantId, startMs, endMs), tenantId, startMs, endMs);
  }

  // ----- One record more -----

  /** The row of an application in a report; all zero if it has none. */
  ghost function RowFor(report: Report, id: Text): AppUsage {
    if exists row :: row in report.perApp && row.appId == id
    then var row :| row in report.perApp && row.appId == id; row
    else AppUsage(id, 0, 0, 0, 0, 0)
  }

  lemma RowForIs(report: Report, selected: seq<Record>, id: Text)
    requires Reports(report, selected)
    ensures RowFor(report, id) == Usage(selected, id)
  {
    if id in AppIds(selected) {
      assert UsageMap(selected)[id] in report.perApp;
    } else {
      NoneOfApp(selected, id);
      assert forall row :: row in report.perApp ==> row.appId in UsageMap(selected);
    }
  }

  lemma {:induction false} NoneOfApp(records: seq<Record>, id: Text)
    requires id !in AppIds(records)
    ensures OfApp(records, id) == []
  {
    if records != [] {
      var rest, last := records[..|records| - 1], records[|records| - 1];
      assert last in records && forall r :: r in rest ==> r in records;
      NoneOfApp(rest, id);
    }
  }

  lemma SelectAppend(records: seq<Record>, r: Record, tenantId: Text, startMs: u64, endMs: u64)
    ensures var selected := Select(records, tenantId, startMs, endMs);
            Select(records + [r], tenantId, startMs, endMs) ==
              if r.tenantId == tenantId && startMs <= r.timestampMs < endMs then selected + [r] else selected
  {
    assert (records + [r])[..|records|] == records;
  }

  /** The counters of a row after one more of its records. */
  ghost predicate RowGrows(a: AppUsage, b: AppUsage, r: Record) {
    && b.requests == (a.requests + 1) % 0x1_0000_0000_0000_0000
    && b.fuel == (a.fuel + r.fuelConsumed) % 0x1_0000_0000_0000_0000
    && b.wallMs == (a.wallMs + r.wallClockMs) % 0x1_0000_0000_0000_0000
    && b.traps == (if r.isTrap then a.traps + 1 else a.traps) % 0x1_0000_0000_0000_0000
  }

  ghost predicate TotalsGrow(a: Report, b: Report, r: Record) {
    && b.requests == (a.requests + 1) % 0x1_0000_0000_0000_0000
    && b.fuel == (a.fuel + r.fuelConsumed) % 0x1_0000_0000_0000_0000
    && b.wallMs == (a.wallMs + r.wallClockMs) % 0x1_0000_0000_0000_0000
    && b.traps == (if r.isTrap then a.traps + 1 else a.traps) % 0x1_0000_0000_0000_0000
    && b.peakRam == if r.ramBytes > a.peakRam then r.ramBytes else a.peakRam
  }

  lemma RowsGrow(selected: seq<Record>, r: Record, id: Text)
    ensures if id == r.appId then RowGrows(Usage(selected, id), Usage(selected + [r], id), r)
            else Usage(selected + [r], id) == Usage(selected, id)
  {
    RunningAppend(selected, r, id);
  }

  lemma GrownTotals(before: Report, after: Report, selected: seq<Record>, r: Record)
    requires TotalsAre(before, selected) && TotalsAre(after, selected + [r])
    ensures TotalsGrow(before, after, r)
  {
    WrappedAppend(Requests, selected, r);
    WrappedAppend(Fuel, selected, r);
    WrappedAppend(WallClock, selected, r);
    WrappedAppend(Traps, selected, r);
    assert (selected + [r])[..|selected|] == selected;
  }

  lemma RowsHaveIds(rows: seq<AppUsage>, usage: map<Text, AppUsage>)
    requires RowsOf(rows, usage) && rows != []
    ensures exists id :: id in usage
  {
    assert rows[0] in rows;
  }

  /** No records: a report of zeros without rows. */
  lemma EmptyReport(report: Report, tenantId: Text, startMs: u64, endMs: u64)
    requires Reports(report, Select([], tenantId, startMs, endMs))
    ensures report.requests == report.fuel == report.wallMs == report.peakRam == report.traps == 0
    ensures report.perApp == []
  {
    if report.perApp != [] { RowsHaveIds(report.perApp, UsageMap([])); }
  }

  /**
   One record more: if it is the tenant's and in the period, totals and the row of its application grow by
   what it says, 64-bit counters wrapping, and the peak rises to its memory; no other row changes, and any
   other record changes nothing.
   */
  lemma OneRecordMore(
    records: seq<Record>, r: Record, tenantId: Text, startMs: u64, endMs: u64, before: Report, after: Report, id: Text)
    requires Reports(before, Select(records, tenantId, startMs, endMs))
    requires Reports(after, Select(records + [r], tenantId, startMs, endMs))
    ensures if r.tenantId == tenantId && startMs <= r.timestampMs < endMs then
              && TotalsGrow(before, after, r)
              && (if id == r.appId then RowGrows(RowFor(before, id), RowFor(after, id), r)
                  else RowFor(after, id) == RowFor(before, id))
            else
              && after.requests == before.requests && after.fuel == before.fuel && after.wallMs == before.wallMs
              && after.traps == before.traps && after.peakRam == before.peakRam
              && RowFor(after, id) == RowFor(before, id)
  {
    var selected := Select(records, tenantId, startMs, endMs);
    SelectAppend(records, r, tenantId, startMs, endMs);
    RowForIs(before, selected, id);
    RowForIs(after, Select(records + [r], tenantId, startMs, endMs), id);
    if r.tenantId == tenantId && startMs <= r.timestampMs < endMs {
      GrownTotals(before, after, selected, r);
      RowsGrow(selected, r, id);
    }
  }
}
