/** The figures frontend/src/pages/Dashboard.jsx computes from the store's
    lists: the stat cards, the traffic chart's points, the alert widget,
    and the `ChartSizer` that holds the chart back until it has a size.
    Text formatting (`toLocaleTimeString`) and the decorative 40/60
    upload/download split are not modelled; the chart points keep the
    timestamp and bandwidth they are drawn from. */
module Dashboard {
  import opened Models
  import opened Seqs
  import opened Documents
  import DataController
  import Simulator

  // ---------------------------------------------------------- stat cards

  function Clients(d: Doc<Device>): int { ClientsOrZero(d.fields.clients) }

  /** `totalUsers`: the clients of every device, whatever its status, a
      missing count read as 0. */
  function TotalUsers(ds: seq<Doc<Device>>): int
  {
    SumBy(ds, Clients)
  }

  function OfflineClients(d: Doc<Device>): int
  {
    if d.fields.status == Online then 0 else Clients(d)
  }

  /** The dashboard's total counts the clients of devices that are not
      online too, which the simulator's `totalUsers` leaves out: the two
      differ by exactly those clients. */
  lemma {:induction false} TotalUsersAllStatuses(ds: seq<Doc<Device>>)
    ensures TotalUsers(ds) == Simulator.TotalUsers(ds) + SumBy(ds, OfflineClients)
  {
    if ds != [] {
      TotalUsersAllStatuses(ds[..|ds| - 1]);
    }
  }

  predicate IsOnline(d: Doc<Device>) { d.fields.status == Online }

  /** `onlineDevices`: how many devices have status 'online'. */
  function OnlineDevices(ds: seq<Doc<Device>>): (n: nat)
    ensures n <= |ds|
  {
    |Filter(ds, IsOnline)|
  }

  /** The "N Offline" subtext: every device that is not online. */
  function OfflineDevices(ds: seq<Doc<Device>>): (n: nat)
    ensures n + OnlineDevices(ds) == |ds|
  {
    |ds| - OnlineDevices(ds)
  }

  /** The dashboard and the simulator agree on how many devices are online. */
  lemma {:induction false} OnlineDevicesAgree(ds: seq<Doc<Device>>)
    ensures OnlineDevices(ds) == Simulator.OnlineCount(ds)
  {
    if ds != [] {
      var t, last := ds[..|ds| - 1], ds[|ds| - 1];
      assert ds == t + [last];
      FilterAppend(t, [last], IsOnline);
      OnlineDevicesAgree(t);
    }
  }

  predicate IsCritical(a: Doc<Alert>) { a.fields.severity == High }

  /** `criticalAlerts`: how many alerts have severity 'high'. */
  function CriticalAlerts(alerts: seq<Doc<Alert>>): (n: nat)
    ensures n <= |alerts|
    ensures n == 0 <==> forall a :: a in alerts ==> !IsCritical(a)
  {
    var f := Filter(alerts, IsCritical);
    assert (exists a :: a in alerts && IsCritical(a)) ==> |f| > 0 by {
      if a :| a in alerts && IsCritical(a) {
        assert a in f;
      }
    }
    assert |f| > 0 ==> f[0] in f;
    |f|
  }

  /** An alert the simulator raises adds one to the critical count exactly
      when its severity draw exceeded 0.8. */
  lemma CriticalAfterAlertTick(alerts: seq<Doc<Alert>>, id: Id, d: Simulator.AlertDraws, now: int)
    requires Simulator.ValidAlertDraws(d)
    ensures var raised := Doc(id, Simulator.ComposeAlert(d, now));
      CriticalAlerts(alerts + [raised]) == CriticalAlerts(alerts) + (if d.severity > 0.8 then 1 else 0)
  {
    FilterAppend(alerts, [Doc(id, Simulator.ComposeAlert(d, now))], IsCritical);
  }

  // ------------------------------------------------------------ network load

  /** `x.toFixed(0)` read back as a number: the nearest integer, halves
      rounded away from zero. */
  function ToFixed0(x: real): (n: int)
    ensures x >= 0.0 ==> n as real - 0.5 <= x < n as real + 0.5
    ensures x < 0.0 ==> n as real - 0.5 < x <= n as real + 0.5
  {
    if x >= 0.0 then (x + 0.5).Floor else -((-x + 0.5).Floor)
  }

  /** `currentLoad`: the rounded bandwidth of the FIRST log of the list,
      0 when there is none. */
  function CurrentLoad(logs: seq<Doc<TrafficSample>>): int
  {
    if |logs| > 0 then ToFixed0(logs[0].fields.totalBandwidth) else 0
  }

  /** The Network Load card says "High" when `currentLoad > 800`. */
  predicate LoadHigh(logs: seq<Doc<TrafficSample>>)
  {
    CurrentLoad(logs) > 800
  }

  /** Because the bandwidth is rounded before the comparison, "High" starts
      at 800.5 Mbps, not above 800. */
  lemma LoadHighIff(logs: seq<Doc<TrafficSample>>)
    ensures LoadHigh(logs) <==> |logs| > 0 && logs[0].fields.totalBandwidth >= 800.5
  {
    if |logs| > 0 {
      var b := logs[0].fields.totalBandwidth;
      var n := ToFixed0(b);
      if b >= 800.5 {
        assert n as real > 800.0;
      }
      if n > 800 {
        assert n as real >= 801.0;
      }
    }
  }

  /** The list the server sends is oldest first, so the card shows the
      OLDEST of the samples it received: every other one is at least as
      recent. */
  lemma CurrentLoadIsOldest(stored: seq<Doc<TrafficSample>>)
    requires |stored| > 0
    ensures var logs := DataController.TrafficHistory(stored);
      && |logs| > 0
      && CurrentLoad(logs) == ToFixed0(logs[0].fields.totalBandwidth)
      && forall k :: k in logs ==> logs[0].fields.timestamp <= k.fields.timestamp
  {
    var logs := DataController.TrafficHistory(stored);
    assert |logs| == Min(|stored|, DataController.HistoryLength);
    forall k | k in logs ensures logs[0].fields.timestamp <= k.fields.timestamp {
      var j :| 0 <= j < |logs| && logs[j] == k;
      if j > 0 {
        assert SampleTime(logs[0]) <= SampleTime(logs[j]);
      }
    }
  }

  // ------------------------------------------------------------------ chart

  /** One point of the traffic chart, before its text formatting. */
  datatype Point = Point(time: int, bandwidth: real)

  function PointOf(d: Doc<TrafficSample>): Point
  {
    Point(d.fields.timestamp, d.fields.totalBandwidth)
  }

  /** `chartData`: one point per log, in the reverse order of the list. */
  function ChartData(logs: seq<Doc<TrafficSample>>): (r: seq<Point>)
    ensures |r| == |logs|
    ensures forall i :: 0 <= i < |logs| ==> r[i] == PointOf(logs[|logs| - 1 - i])
  {
    Reverse(seq(|logs|, i requires 0 <= i < |logs| => PointOf(logs[i])))
  }

  /** Reversing the server's oldest-first list puts the newest point on the
      left: along the chart, time never increases. */
  lemma ChartNewestFirst(stored: seq<Doc<TrafficSample>>)
    ensures var r := ChartData(DataController.TrafficHistory(stored));
      forall i, j :: 0 <= i < j < |r| ==> r[i].time >= r[j].time
  {
    var logs := DataController.TrafficHistory(stored);
    var r := ChartData(logs);
    forall i, j | 0 <= i < j < |r| ensures r[i].time >= r[j].time {
      assert SampleTime(logs[|logs| - 1 - j]) <= SampleTime(logs[|logs| - 1 - i]);
    }
  }

  // ----------------------------------------------------------- alert widget

  /** `alerts.slice(0, 5)`. */
  function AlertWidget(alerts: seq<Doc<Alert>>): (r: seq<Doc<Alert>>)
    ensures |r| == Min(|alerts|, 5)
    ensures r == alerts[..|r|]
  {
    alerts[..Min(|alerts|, 5)]
  }

  /** "No active alerts" is shown when the list is empty. */
  predicate ShowsNoAlerts(alerts: seq<Doc<Alert>>) { |alerts| == 0 }

  /** The message appears exactly when the widget lists nothing. */
  lemma NoAlertsIffEmptyWidget(alerts: seq<Doc<Alert>>)
    ensures ShowsNoAlerts(alerts) <==> AlertWidget(alerts) == []
  {
    if AlertWidget(alerts) == [] {
      assert |alerts| == 0;
    }
  }

  /** On the server's newest-first list, the widget shows the newest alerts:
      any alert left out is no newer than one shown. */
  lemma WidgetShowsNewest(stored: seq<Doc<Alert>>)
    ensures var s := DataController.AlertsNewestFirst(stored);
      forall x, k :: x in stored && x !in AlertWidget(s) && k in AlertWidget(s) ==>
        x.fields.timestamp <= k.fields.timestamp
  {
    var s := DataController.AlertsNewestFirst(stored);
    var w := AlertWidget(s);
    forall x, k | x in stored && x !in w && k in w
      ensures x.fields.timestamp <= k.fields.timestamp
    {
      assert x in multiset(s);
      var i :| 0 <= i < |s| && s[i] == x;
      var j :| 0 <= j < |w| && w[j] == k;
      assert forall t :: 0 <= t < |w| ==> s[t] in w;
      assert i >= |w|;
    }
  }

  // ------------------------------------------------------------- ChartSizer

  /** The size `ChartSizer` holds, in whole pixels. */
  datatype Size = Size(width: int, height: int)

  /** The chart is drawn only when both sides exceed 10 pixels. */
  predicate Renders(s: Size) { s.width > 10 && s.height > 10 }

  /** `updateSize`: the box's sides rounded down replace the size when both
      are positive; otherwise the previous size stays. */
  function Measured(s: Size, rectWidth: real, rectHeight: real): Size
  {
    var w, h := rectWidth.Floor, rectHeight.Floor;
    if w > 0 && h > 0 then Size(w, h) else s
  }

  /** After a measurement the chart is drawn exactly when the box is at
      least 11 pixels on each side, or, when either side rounds down to 0,
      exactly when it was drawn before: a box that collapses keeps showing
      the chart at its last size. */
  lemma MeasuredRenders(s: Size, rectWidth: real, rectHeight: real)
    ensures rectWidth >= 1.0 && rectHeight >= 1.0 ==>
      (Renders(Measured(s, rectWidth, rectHeight)) <==> rectWidth >= 11.0 && rectHeight >= 11.0)
    ensures !(rectWidth >= 1.0 && rectHeight >= 1.0) ==>
      (Renders(Measured(s, rectWidth, rectHeight)) <==> Renders(s))
  {
    var w, h := rectWidth.Floor, rectHeight.Floor;
    assert w > 0 <==> rectWidth >= 1.0;
    assert h > 0 <==> rectHeight >= 1.0;
    assert w > 10 <==> rectWidth >= 11.0;
    assert h > 10 <==> rectHeight >= 11.0;
  }

  class ChartSizer {
    var size: Size

    /** The initial size is 0 by 0: nothing is drawn. */
    constructor ()
      ensures size == Size(0, 0) && !Renders(size)
    {
      size := Size(0, 0);
    }

    method UpdateSize(rectWidth: real, rectHeight: real)
      modifies this
      ensures size == Measured(old(size), rectWidth, rectHeight)
    {
      var w, h := rectWidth.Floor, rectHeight.Floor;
      if w > 0 && h > 0 {
        size := Size(w, h);
      }
    }
  }
}
