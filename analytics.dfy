/** The figures frontend/src/pages/AnalyticsPage.jsx computes: clients per
    zone for the pie chart and its colours, the traffic chart's points, the
    heat-map colour rule, and the `VisibleChartSizer` render condition. */
module AnalyticsPage {
  import opened Models
  import opened Seqs
  import opened Assoc
  import DataController

  // ------------------------------------------------------------ zone stats

  /** `device.zone || 'Unknown'`. */
  function ZoneOf(d: Doc<Device>): string
  {
    if d.fields.zone == "" then "Unknown" else d.fields.zone
  }

  /** `Number(device.clients) || 0`. */
  function ClientsOf(d: Doc<Device>): int { ClientsOrZero(d.fields.clients) }

  /** The update `v => v + c` of `acc[zone] = (acc[zone] || 0) + c`. */
  function Plus(c: int): int -> int
  {
    (v: int) => v + c
  }

  /** `zoneStats`: the devices folded from the left into an object from
      zone name to client total. */
  function ZoneStats(ds: seq<Doc<Device>>): seq<Entry<int>>
  {
    if ds == [] then []
    else
      var last := ds[|ds| - 1];
      Upsert(ZoneStats(ds[..|ds| - 1]), ZoneOf(last), 0, Plus(ClientsOf(last)))
  }

  /** The clients of the devices in `zone`. */
  function ZoneTotal(ds: seq<Doc<Device>>, zone: string): int
  {
    if ds == [] then 0
    else
      var last := ds[|ds| - 1];
      ZoneTotal(ds[..|ds| - 1], zone) + if ZoneOf(last) == zone then ClientsOf(last) else 0
  }

  /** A zone no device is in has no clients. */
  lemma {:induction false} ZoneTotalAbsent(ds: seq<Doc<Device>>, zone: string)
    requires forall d :: d in ds ==> ZoneOf(d) != zone
    ensures ZoneTotal(ds, zone) == 0
  {
    if ds != [] {
      var t := ds[..|ds| - 1];
      assert forall d :: d in t ==> d in ds;
      ZoneTotalAbsent(t, zone);
    }
  }

  /** `zoneStats` has an entry for every zone some device is in, and for
      no other. */
  lemma {:induction false} ZoneStatsKeys(ds: seq<Doc<Device>>, zone: string)
    ensures zone in Keys(ZoneStats(ds)) <==> exists d :: d in ds && ZoneOf(d) == zone
  {
    if ds != [] {
      var t, last := ds[..|ds| - 1], ds[|ds| - 1];
      assert ds == t + [last];
      ZoneStatsKeys(t, zone);
      UpsertKeys(ZoneStats(t), ZoneOf(last), 0, Plus(ClientsOf(last)));
      if d :| d in ds && ZoneOf(d) == zone {
        assert d in t || d == last;
      }
    }
  }

  /** Every entry holds the clients of its zone's devices. */
  ghost predicate SumsClients(es: seq<Entry<int>>, ds: seq<Doc<Device>>)
  {
    forall i :: 0 <= i < |es| ==> es[i].value == ZoneTotal(ds, es[i].key)
  }

  /** No zone appears twice, and each zone's value is the sum of its
      devices' clients. */
  lemma {:induction false} ZoneStatsEntries(ds: seq<Doc<Device>>)
    ensures DistinctKeys(ZoneStats(ds))
    ensures forall i :: 0 <= i < |ZoneStats(ds)| ==>
      ZoneStats(ds)[i].value == ZoneTotal(ds, ZoneStats(ds)[i].key)
  {
    if ds != [] {
      var t, last := ds[..|ds| - 1], ds[|ds| - 1];
      ZoneStatsEntries(t);
      UpsertDistinct(ZoneStats(t), ZoneOf(last), 0, Plus(ClientsOf(last)));
      ZoneStatsStep(ds);
    }
  }

  /** Folding in the last device keeps every entry the sum of its zone. */
  lemma {:induction false} ZoneStatsStep(ds: seq<Doc<Device>>)
    requires ds != []
    requires DistinctKeys(ZoneStats(ds[..|ds| - 1]))
    requires SumsClients(ZoneStats(ds[..|ds| - 1]), ds[..|ds| - 1])
    ensures SumsClients(ZoneStats(ds), ds)
  {
    var t, last := ds[..|ds| - 1], ds[|ds| - 1];
    var before := ZoneStats(t);
    var p := IndexOf(before, ZoneOf(last));
    if p < |before| {
      var v := Plus(ClientsOf(last))(before[p].value);
      assert ZoneStats(ds) == before[p := Entry(ZoneOf(last), v)];
      ZoneStatsKnown(ds, before, p, v, ZoneStats(ds));
    } else {
      ZoneStatsStepNew(ds);
    }
  }

  lemma {:induction false} ZoneStatsStepNew(ds: seq<Doc<Device>>)
    requires ds != []
    requires SumsClients(ZoneStats(ds[..|ds| - 1]), ds[..|ds| - 1])
    requires IndexOf(ZoneStats(ds[..|ds| - 1]), ZoneOf(ds[|ds| - 1])) == |ZoneStats(ds[..|ds| - 1])|
    ensures SumsClients(ZoneStats(ds), ds)
  {
    var t, last := ds[..|ds| - 1], ds[|ds| - 1];
    var before, z := ZoneStats(t), ZoneOf(last);
    var v := Plus(ClientsOf(last))(0);
    assert ZoneStats(ds) == before + [Entry(z, v)];
    KeysIndexOf(before, z);
    ZoneStatsKeys(t, z);
    ZoneTotalAbsent(t, z);
    ZoneStatsNew(ds, before, v, ZoneStats(ds));
  }

  /** A device of a zone already listed adds its clients to that entry. */
  lemma {:induction false} ZoneStatsKnown(ds: seq<Doc<Device>>, before: seq<Entry<int>>, p: nat, v: int, r: seq<Entry<int>>)
    requires ds != [] && DistinctKeys(before) && SumsClients(before, ds[..|ds| - 1])
    requires p < |before| && before[p].key == ZoneOf(ds[|ds| - 1])
    requires v == before[p].value + ClientsOf(ds[|ds| - 1])
    requires r == before[p := Entry(ZoneOf(ds[|ds| - 1]), v)]
    ensures SumsClients(r, ds)
  {
    var t, last := ds[..|ds| - 1], ds[|ds| - 1];
    forall i | 0 <= i < |r| ensures r[i].value == ZoneTotal(ds, r[i].key) {
      var k := r[i].key;
      assert ZoneTotal(ds, k) == ZoneTotal(t, k) + if ZoneOf(last) == k then ClientsOf(last) else 0;
      if i != p {
        assert before[i].key != before[p].key;
      }
    }
  }

  /** A device of a new zone opens an entry holding its clients. */
  lemma {:induction false} ZoneStatsNew(ds: seq<Doc<Device>>, before: seq<Entry<int>>, v: int, r: seq<Entry<int>>)
    requires ds != [] && SumsClients(before, ds[..|ds| - 1])
    requires var z := ZoneOf(ds[|ds| - 1]);
      IndexOf(before, z) == |before| && ZoneTotal(ds[..|ds| - 1], z) == 0
    requires v == ClientsOf(ds[|ds| - 1])
    requires r == before + [Entry(ZoneOf(ds[|ds| - 1]), v)]
    ensures SumsClients(r, ds)
  {
    var t, last := ds[..|ds| - 1], ds[|ds| - 1];
    forall i | 0 <= i < |r| ensures r[i].value == ZoneTotal(ds, r[i].key) {
      var k := r[i].key;
      assert ZoneTotal(ds, k) == ZoneTotal(t, k) + if ZoneOf(last) == k then ClientsOf(last) else 0;
    }
  }

  function EntryValue(e: Entry<int>): int { e.value }

  /** Adding `c` to one zone adds `c` to the sum over all zones. */
  lemma UpsertSum(es: seq<Entry<int>>, zone: string, c: int)
    ensures SumBy(Upsert(es, zone, 0, Plus(c)), EntryValue) == SumBy(es, EntryValue) + c
  {
    UpsertSumBy(es, zone, 0, Plus(c), EntryValue);
  }

  /** The pie's values add up to the clients of all devices. */
  lemma {:induction false} ZoneStatsTotal(ds: seq<Doc<Device>>)
    ensures SumBy(ZoneStats(ds), EntryValue) == SumBy(ds, ClientsOf)
  {
    if ds != [] {
      var last := ds[|ds| - 1];
      ZoneStatsTotal(ds[..|ds| - 1]);
      UpsertSum(ZoneStats(ds[..|ds| - 1]), ZoneOf(last), ClientsOf(last));
    }
  }

  // -------------------------------------------------------------- pie data

  /** One slice of the pie: `{ name, value }`. */
  datatype Slice = Slice(name: string, value: int)

  /** `zoneDistribution`: one slice per key of `zoneStats`, in key order. */
  function ZoneDistribution(stats: seq<Entry<int>>): (r: seq<Slice>)
    ensures |r| == |stats|
    ensures forall i :: 0 <= i < |stats| ==> r[i] == Slice(stats[i].key, stats[i].value)
  {
    seq(|stats|, i requires 0 <= i < |stats| => Slice(stats[i].key, stats[i].value))
  }

  const NoData := Slice("No Data", 1)

  /** `finalZoneData`: the distribution, or the single 'No Data' slice when
      it is empty. */
  function FinalZoneData(ds: seq<Doc<Device>>): seq<Slice>
  {
    var dist := ZoneDistribution(ZoneStats(ds));
    if |dist| > 0 then dist else [NoData]
  }

  /** The 'No Data' slice stands in only when there are no devices: a
      device always yields a slice of its own zone, even with 0 clients. */
  lemma FinalZoneDataNoData(ds: seq<Doc<Device>>)
    ensures ds == [] ==> FinalZoneData(ds) == [NoData]
    ensures ds != [] ==> FinalZoneData(ds) == ZoneDistribution(ZoneStats(ds))
  {
    if ds != [] {
      var last := ds[|ds| - 1];
      ZoneStatsKeys(ds, ZoneOf(last));
    }
  }

  // ---------------------------------------------------------------- colours

  /** `COLORS`. */
  const Colors: seq<string> := ["#3B82F6", "#10B981", "#F59E0B", "#EF4444", "#8B5CF6"]

  /** The fill of slice `index`: `COLORS[index % COLORS.length]`. */
  function SliceColor(index: nat): (c: string)
    ensures c in Colors
  {
    Colors[index % |Colors|]
  }

  /** Neighbouring slices never share a colour, and the colours repeat
      every five slices. */
  lemma SliceColorCycle(index: nat)
    ensures SliceColor(index) != SliceColor(index + 1)
    ensures SliceColor(index) == SliceColor(index + 5)
  {
  }

  /** With six zones the last slice, which closes the ring next to the
      first, gets the first slice's colour. */
  lemma SixSlicesWrap()
    ensures SliceColor(5) == SliceColor(0)
  {
  }

  /** `getSignalColor`. */
  datatype Signal = Green | Yellow | Red

  function SignalColor(strength: int): (c: Signal)
    ensures c == Green <==> strength > 80
    ensures c == Yellow <==> 50 < strength <= 80
    ensures c == Red <==> strength <= 50
  {
    if strength > 80 then Green
    else if strength > 50 then Yellow
    else Red
  }

  function SignalRank(c: Signal): int
  {
    match c
    case Red => 0
    case Yellow => 1
    case Green => 2
  }

  /** A stronger signal never gets a worse colour. */
  lemma SignalColorMonotone(a: int, b: int)
    requires a <= b
    ensures SignalRank(SignalColor(a)) <= SignalRank(SignalColor(b))
  {
  }

  // ------------------------------------------------------------ chart data

  /** One point of the traffic chart, before its text formatting. */
  datatype Point = Point(time: int, bandwidth: real, users: int)

  function PointOf(d: Doc<TrafficSample>): Point
  {
    Point(d.fields.timestamp, d.fields.totalBandwidth, d.fields.activeUsers)
  }

  /** `chartData`: one point per log, in the order of the list. */
  function ChartData(logs: seq<Doc<TrafficSample>>): (r: seq<Point>)
    ensures |r| == |logs|
    ensures forall i :: 0 <= i < |logs| ==> r[i] == PointOf(logs[i])
  {
    seq(|logs|, i requires 0 <= i < |logs| => PointOf(logs[i]))
  }

  /** Drawn from the server's oldest-first list, time runs left to right. */
  lemma ChartOldestFirst(stored: seq<Doc<TrafficSample>>)
    ensures var r := ChartData(DataController.TrafficHistory(stored));
      forall i, j :: 0 <= i < j < |r| ==> r[i].time <= r[j].time
  {
    var logs := DataController.TrafficHistory(stored);
    forall i, j | 0 <= i < j < |logs| ensures SampleTime(logs[i]) <= SampleTime(logs[j]) {
    }
  }

  // ----------------------------------------------------- VisibleChartSizer

  /** What `readRect` returns: the box's sides rounded down (never below 0)
      and whether it is laid out and non-empty. */
  datatype Rect = Rect(w: int, h: int, visible: bool)

  function Clamp0(x: real): (n: int)
    ensures n >= 0 && (x >= 0.0 ==> n == x.Floor)
    ensures x < 0.0 ==> n == 0
  {
    if x.Floor > 0 then x.Floor else 0
  }

  /** `readRect`; `attached` is `el.offsetParent !== null`. */
  function ReadRect(width: real, height: real, attached: bool): Rect
  {
    var w, h := Clamp0(width), Clamp0(height);
    Rect(w, h, attached && w > 0 && h > 0)
  }

  /** `positiveAndVisible`. */
  predicate PositiveAndVisible(r: Rect) { r.w > 0 && r.h > 0 && r.visible }

  /** The chart is drawn exactly when the element is laid out and at least
      one pixel on each side. */
  lemma VisibleIff(width: real, height: real, attached: bool)
    ensures PositiveAndVisible(ReadRect(width, height, attached)) <==>
      attached && width >= 1.0 && height >= 1.0
  {
    assert Clamp0(width) > 0 <==> width >= 1.0;
    assert Clamp0(height) > 0 <==> height >= 1.0;
  }
}
