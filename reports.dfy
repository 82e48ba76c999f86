/** The zone capacity report of frontend/src/pages/ReportsPage.jsx: the
    per-zone tallies the page accumulates over the devices, the table rows
    with their health and average-load figures, the rule that colours a
    health cell, and the guard that refuses to report on no devices.  The
    PDF layout, the date line and the toasts are not modelled. */
module ReportsPage {
  import opened Models
  import opened Seqs
  import opened Assoc

  /** `acc[zone]`: `{ total, offline, clients }`. */
  datatype Tally = Tally(total: int, offline: int, clients: int)

  const Empty := Tally(0, 0, 0)

  /** `device.zone || 'Unassigned'`. */
  function ZoneOf(d: Doc<Device>): string
  {
    if d.fields.zone == "" then "Unassigned" else d.fields.zone
  }

  /** One device counted into its zone's tally: one more device, one more
      offline device when its status is exactly 'offline', and its clients
      (`Number(device.clients) || 0`). */
  function Counted(d: Doc<Device>, t: Tally): Tally
  {
    Tally(
      t.total + 1,
      t.offline + (if d.fields.status == Offline then 1 else 0),
      t.clients + ClientsOrZero(d.fields.clients))
  }

  /** `Counted` as the update `Upsert` applies. */
  function Tick(d: Doc<Device>): Tally -> Tally
  {
    (t: Tally) => Counted(d, t)
  }

  /** `zoneStats`: the tallies after every device has been counted, zones
      in the order they first appear. */
  function Tallies(ds: seq<Doc<Device>>): seq<Entry<Tally>>
  {
    if ds == [] then []
    else
      var last := ds[|ds| - 1];
      Upsert(Tallies(ds[..|ds| - 1]), ZoneOf(last), Empty, Tick(last))
  }

  /** The `reduce` as the page runs it: the accumulator's entry for the
      device's zone is created when missing, then its three counters are
      bumped in place. */
  method CountZones(devices: seq<Doc<Device>>) returns (acc: seq<Entry<Tally>>)
    ensures acc == Tallies(devices)
  {
    acc := [];
    for n := 0 to |devices|
      invariant acc == Tallies(devices[..n])
    {
      var device := devices[n];
      var zone := ZoneOf(device);
      var i := IndexOf(acc, zone);
      ghost var before := acc;
      if i == |acc| {
        acc := acc + [Entry(zone, Empty)];
      }
      var t := Bump(acc[i].value, device);
      acc := acc[i := Entry(zone, t)];
      if i == |before| {
        CountNewZone(before, device, acc);
      } else {
        CountKnownZone(before, device, acc);
      }
      TalliesSnoc(devices, n);
    }
    assert devices[..|devices|] == devices;
  }

  /** The three counters of one zone bumped for one device, in place. */
  method Bump(t0: Tally, device: Doc<Device>) returns (t: Tally)
    ensures t == Counted(device, t0)
  {
    t := t0;
    t := t.(total := t.total + 1);
    if device.fields.status == Offline {
      t := t.(offline := t.offline + 1);
    }
    t := t.(clients := t.clients + ClientsOrZero(device.fields.clients));
  }

  /** `Tallies` of one more device. */
  lemma TalliesSnoc(devices: seq<Doc<Device>>, n: nat)
    requires n < |devices|
    ensures Tallies(devices[..n + 1]) == Upsert(Tallies(devices[..n]), ZoneOf(devices[n]), Empty, Tick(devices[n]))
  {
    assert devices[..n + 1][..n] == devices[..n];
  }

  /** Creating the missing entry and then bumping it is the `Upsert` of
      `Tallies` for a zone seen for the first time. */
  lemma CountNewZone(before: seq<Entry<Tally>>, d: Doc<Device>, after: seq<Entry<Tally>>)
    requires IndexOf(before, ZoneOf(d)) == |before|
    requires after == (before + [Entry(ZoneOf(d), Empty)])[|before| := Entry(ZoneOf(d), Counted(d, Empty))]
    ensures after == Upsert(before, ZoneOf(d), Empty, Tick(d))
  {
    var z := ZoneOf(d);
    assert Tick(d)(Empty) == Counted(d, Empty);
    ReplaceAppended(before, Entry(z, Empty), Entry(z, Counted(d, Empty)));
  }

  lemma ReplaceAppended<T>(s: seq<T>, a: T, b: T)
    ensures (s + [a])[|s| := b] == s + [b]
  {
  }

  /** Bumping the existing entry in place is the `Upsert` of `Tallies` for
      a zone seen before. */
  lemma CountKnownZone(before: seq<Entry<Tally>>, d: Doc<Device>, after: seq<Entry<Tally>>)
    requires IndexOf(before, ZoneOf(d)) < |before|
    requires var i := IndexOf(before, ZoneOf(d));
      after == before[i := Entry(ZoneOf(d), Counted(d, before[i].value))]
    ensures after == Upsert(before, ZoneOf(d), Empty, Tick(d))
  {
    var z, i := ZoneOf(d), IndexOf(before, ZoneOf(d));
    assert Tick(d)(before[i].value) == Counted(d, before[i].value);
  }

  // ------------------------------------------------------------- tallies

  /** A tally that counts at least one device, no more offline devices than
      devices. */
  predicate Sound(t: Tally)
  {
    0 <= t.offline <= t.total && t.total >= 1
  }

  /** Every zone's tally is sound, and no zone appears twice. */
  lemma {:induction false} TalliesSound(ds: seq<Doc<Device>>)
    ensures DistinctKeys(Tallies(ds))
    ensures forall i :: 0 <= i < |Tallies(ds)| ==> Sound(Tallies(ds)[i].value)
  {
    if ds != [] {
      var t, last := ds[..|ds| - 1], ds[|ds| - 1];
      TalliesSound(t);
      UpsertDistinct(Tallies(t), ZoneOf(last), Empty, Tick(last));
    }
  }

  /** A zone is in the report exactly when some device is in it. */
  lemma {:induction false} TalliesKeys(ds: seq<Doc<Device>>, zone: string)
    ensures zone in Keys(Tallies(ds)) <==> exists d :: d in ds && ZoneOf(d) == zone
  {
    if ds != [] {
      var t, last := ds[..|ds| - 1], ds[|ds| - 1];
      assert ds == t + [last];
      TalliesKeys(t, zone);
      UpsertKeys(Tallies(t), ZoneOf(last), Empty, Tick(last));
      if d :| d in ds && ZoneOf(d) == zone {
        assert d in t || d == last;
      }
    }
  }

  function EntryTotal(e: Entry<Tally>): int { e.value.total }

  /** Counting one device adds one to the sum of the zones' totals. */
  lemma CountOneMore(es: seq<Entry<Tally>>, d: Doc<Device>)
    ensures SumBy(Upsert(es, ZoneOf(d), Empty, Tick(d)), EntryTotal) == SumBy(es, EntryTotal) + 1
  {
    UpsertSumBy(es, ZoneOf(d), Empty, Tick(d), EntryTotal);
    KeysIndexOf(es, ZoneOf(d));
    if ZoneOf(d) in Keys(es) {
      var v := es[IndexOf(es, ZoneOf(d))].value;
      assert Tick(d)(v) == Counted(d, v);
    } else {
      assert Tick(d)(Empty) == Counted(d, Empty);
    }
  }

  /** The zones' totals add up to the number of devices. */
  lemma {:induction false} TotalsCountDevices(ds: seq<Doc<Device>>)
    ensures SumBy(Tallies(ds), EntryTotal) == |ds|
  {
    if ds != [] {
      var last := ds[|ds| - 1];
      TotalsCountDevices(ds[..|ds| - 1]);
      CountOneMore(Tallies(ds[..|ds| - 1]), last);
    }
  }

  // ----------------------------------------------------------------- rows

  /** `healthRaw`: the share of the zone's devices that are not offline, in
      percent; 0 for a zone without devices. */
  function Health(t: Tally): (h: real)
    ensures 0 <= t.offline <= t.total ==> 0.0 <= h <= 100.0
    ensures t.total > 0 && t.offline == 0 ==> h == 100.0
    ensures t.total > 0 && t.offline == t.total ==> h == 0.0
  {
    if t.total > 0 then (1.0 - t.offline as real / t.total as real) * 100.0 else 0.0
  }

  /** `avgLoadRaw`: clients per device, 0 for a zone without devices. */
  function AvgLoad(t: Tally): (a: real)
    ensures t.total > 0 ==> a * t.total as real == t.clients as real
    ensures t.total <= 0 ==> a == 0.0
  {
    if t.total > 0 then t.clients as real / t.total as real else 0.0
  }

  /** One row of the table: [zone, total, clients, avgLoad, offline, health]. */
  datatype Row = Row(zone: string, total: int, clients: int, avgLoad: real, offline: int, health: real)

  /** `tableRows`: one row per zone, in the order of `Object.keys`. */
  function TableRows(stats: seq<Entry<Tally>>): (rows: seq<Row>)
    ensures |rows| == |stats|
    ensures forall i :: 0 <= i < |stats| ==>
      var t := stats[i].value;
      rows[i] == Row(stats[i].key, t.total, t.clients, AvgLoad(t), t.offline, Health(t))
  {
    seq(|stats|, i requires 0 <= i < |stats| =>
      var t := stats[i].value;
      Row(stats[i].key, t.total, t.clients, AvgLoad(t), t.offline, Health(t)))
  }

  /** The integer the health cell shows, `parseInt(healthRaw.toFixed(0) + '%')`:
      a non-negative health rounded half up. */
  function Score(h: real): (n: int)
    requires h >= 0.0
    ensures n as real - 0.5 <= h < n as real + 0.5
  {
    (h + 0.5).Floor
  }

  /** The cell is painted red when the score is below 70, green otherwise. */
  predicate HealthRed(r: Row)
  {
    r.health >= 0.0 && Score(r.health) < 70
  }

  /** In a row of a sound tally the cell is red exactly when more than 30.5%
      of the zone's devices are offline: `200 * offline > 61 * total`. */
  lemma HealthRedIff(stats: seq<Entry<Tally>>, i: nat)
    requires i < |stats| && Sound(stats[i].value)
    ensures var t := stats[i].value;
      HealthRed(TableRows(stats)[i]) <==> 200 * t.offline > 61 * t.total
  {
    var t := stats[i].value;
    var o, n := t.offline as real, t.total as real;
    var h := Health(t);
    assert h == (1.0 - o / n) * 100.0;
    assert Score(h) < 70 <==> h < 69.5;
    assert h < 69.5 <==> o / n > 0.305;
    DivAbove(o, n, 0.305);
  }

  /** Clearing the denominator of a comparison with a positive divisor. */
  lemma DivAbove(o: real, n: real, c: real)
    requires n > 0.0
    ensures o / n > c <==> o > c * n
  {
    assert o == (o / n) * n;
  }

  // --------------------------------------------------------------- report

  datatype Report = NoDeviceData | Table(rows: seq<Row>)

  /** `generateZoneReport`: a missing or empty device list gives the "No
      device data available to report" error and no document; otherwise the
      table of the zones. */
  function GenerateZoneReport(devices: Option<seq<Doc<Device>>>): (r: Report)
    ensures r.NoDeviceData? <==> devices.None? || devices.value == []
    ensures r.Table? ==> r.rows == TableRows(Tallies(devices.value))
  {
    if devices.None? || |devices.value| == 0 then NoDeviceData
    else Table(TableRows(Tallies(devices.value)))
  }

  /** A report has a row for every zone, and every row counts at least one
      device, with health in [0, 100]: the "no devices" fallback of `health`
      and `avgLoad` is never used. */
  lemma ReportRowsSound(devices: seq<Doc<Device>>)
    requires devices != []
    ensures var r := GenerateZoneReport(Some(devices));
      && r.Table? && |r.rows| >= 1
      && forall i :: 0 <= i < |r.rows| ==>
           r.rows[i].total >= 1 && 0 <= r.rows[i].offline <= r.rows[i].total
           && 0.0 <= r.rows[i].health <= 100.0
  {
    var stats := Tallies(devices);
    assert |stats| >= 1 by {
      var last := devices[|devices| - 1];
      TalliesKeys(devices, ZoneOf(last));
    }
    TalliesSound(devices);
    var rows := TableRows(stats);
    forall i | 0 <= i < |rows|
      ensures rows[i].total >= 1 && 0 <= rows[i].offline <= rows[i].total
      ensures 0.0 <= rows[i].health <= 100.0
    {
      assert Sound(stats[i].value);
    }
  }
}
