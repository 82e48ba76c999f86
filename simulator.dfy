/** The telemetry simulator (backend/util/simulator.js).  Every five seconds
    it moves the client count of each online device, records one traffic
    sample and trims the ledger to its 50 newest samples; every minute it may
    raise an alert.  The cron schedule is not modelled: one tick is one
    method call, and every `Math.random()` the tick makes is a parameter in
    [0, 1). */
module Simulator {
  import opened Models
  import opened Seqs
  import opened Documents
  import opened Database

  /** A value `Math.random()` can return. */
  predicate IsDraw(u: real) { 0.0 <= u < 1.0 }

  predicate AllDraws(us: seq<real>)
  {
    forall i :: 0 <= i < |us| ==> IsDraw(us[i])
  }

  /** `randomInt(min, max)`: the draw scaled to `max - min + 1` slots, shifted
      by `min` and floored; always one of `min`, ..., `max`. */
  function RandomInt(min: int, max: int, u: real): (r: int)
    requires min <= max && IsDraw(u)
    ensures min <= r <= max
  {
    var n := (max - min + 1) as real;
    assert u * n < 1.0 * n;
    (u * n + min as real).Floor
  }

  /** Each value gets a slice of [0, 1) of the same width `1 / n`: `k` is
      returned exactly when `u * n` lies in [k - min, k - min + 1). */
  lemma RandomIntSlice(min: int, max: int, u: real, k: int)
    requires min <= max && IsDraw(u)
    ensures RandomInt(min, max, u) == k <==>
      (k - min) as real <= u * (max - min + 1) as real < (k - min + 1) as real
  {
  }

  // ------------------------------------------------------- client counts

  const MaxClients := 150

  /** `(device.clients || 0) + change`, before clamping. */
  function Moved(clients: Option<int>, change: int): int
  {
    ClientsOrZero(clients) + change
  }

  function Dist(a: int, b: int): nat
  {
    if a <= b then b - a else a - b
  }

  /** The new client count of an online device: the old count (0 when null)
      moved by `change`, then clamped into [0, 150], that is, the count in
      [0, 150] nearest to the moved one. */
  function NextClients(clients: Option<int>, change: int): (n: int)
    ensures 0 <= n <= MaxClients
    ensures forall m :: 0 <= m <= MaxClients ==>
      Dist(n, Moved(clients, change)) <= Dist(m, Moved(clients, change))
  {
    var moved := Moved(clients, change);
    if moved < 0 then 0 else if moved > MaxClients then MaxClients else moved
  }

  /** From a count already in range, one tick moves it by -2 to +3. */
  lemma NextClientsStep(clients: Option<int>, change: int)
    requires 0 <= ClientsOrZero(clients) <= MaxClients && -2 <= change <= 3
    ensures -2 <= NextClients(clients, change) - ClientsOrZero(clients) <= 3
  {
  }

  /** One device after the loop body: an online device gets a new count
      `NextClients(old, change)` for a change in [-2, 3]; every other field,
      and every device that is not online, is left as it was. */
  function TickDevice(d: Doc<Device>, u: real): (r: Doc<Device>)
    requires IsDraw(u)
    ensures r.id == d.id && r.fields.(clients := d.fields.clients) == d.fields
    ensures d.fields.status != Online ==> r == d
    ensures d.fields.status == Online ==>
      exists change :: -2 <= change <= 3 && r.fields.clients == Some(NextClients(d.fields.clients, change))
  {
    if d.fields.status == Online then
      var change := RandomInt(-2, 3, u);
      Doc(d.id, d.fields.(clients := Some(NextClients(d.fields.clients, change))))
    else d
  }

  /** Every device after the loop, device `i` using draw `i`. */
  function TickDevices(ds: seq<Doc<Device>>, us: seq<real>): (r: seq<Doc<Device>>)
    requires |us| == |ds| && AllDraws(us)
    ensures |r| == |ds|
    ensures forall i :: 0 <= i < |ds| ==> r[i] == TickDevice(ds[i], us[i])
  {
    seq(|ds|, i requires 0 <= i < |ds| => TickDevice(ds[i], us[i]))
  }

  function OnlineClients(d: Doc<Device>): int
  {
    if d.fields.status == Online then ClientsOrZero(d.fields.clients) else 0
  }

  function OnlineFlag(d: Doc<Device>): int
  {
    if d.fields.status == Online then 1 else 0
  }

  /** `totalUsers`: the clients of the online devices. */
  function TotalUsers(ds: seq<Doc<Device>>): int
  {
    SumBy(ds, OnlineClients)
  }

  function OnlineCount(ds: seq<Doc<Device>>): int
  {
    SumBy(ds, OnlineFlag)
  }

  lemma {:induction false} TotalUsersBound(ds: seq<Doc<Device>>)
    requires forall d :: d in ds && d.fields.status == Online ==>
      0 <= ClientsOrZero(d.fields.clients) <= MaxClients
    ensures 0 <= TotalUsers(ds) <= MaxClients * OnlineCount(ds)
  {
    if ds != [] {
      var init := ds[..|ds| - 1];
      assert forall d :: d in init ==> d in ds;
      TotalUsersBound(init);
      assert ds[|ds| - 1] in ds;
    }
  }

  /** A tick changes no device's status, and afterwards `totalUsers` lies
      between 0 and 150 per online device. */
  lemma TickUsersBound(ds: seq<Doc<Device>>, us: seq<real>)
    requires |us| == |ds| && AllDraws(us)
    ensures OnlineCount(TickDevices(ds, us)) == OnlineCount(ds)
    ensures 0 <= TotalUsers(TickDevices(ds, us)) <= MaxClients * OnlineCount(ds)
  {
    var r := TickDevices(ds, us);
    SumByPointwise(r, OnlineFlag, ds, OnlineFlag);
    forall d | d in r && d.fields.status == Online
      ensures 0 <= ClientsOrZero(d.fields.clients) <= MaxClients
    {
      var i :| 0 <= i < |r| && r[i] == d;
    }
    TotalUsersBound(r);
  }

  // ----------------------------------------------------------- bandwidth

  /** `baseLoad`: 3.5 Mbps per active user, or 5 Mbps when nobody is online. */
  function BaseLoad(users: int): real
  {
    if users > 0 then users as real * 3.5 else 5.0
  }

  /** `Math.max(0, baseLoad + jitter)`: the larger of 0 and the jittered load. */
  function Bandwidth(users: int, jitter: int): (b: real)
    ensures b >= 0.0 && b >= BaseLoad(users) + jitter as real
    ensures b == 0.0 || b == BaseLoad(users) + jitter as real
  {
    var raw := BaseLoad(users) + jitter as real;
    if raw < 0.0 then 0.0 else raw
  }

  /** With a jitter from `randomInt(-5, 10)`, the sample reads 0 Mbps only
      with no user and jitter -5, or with one user and jitter -5 or -4. */
  lemma BandwidthZero(users: int, jitter: int)
    requires users >= 0 && -5 <= jitter <= 10
    ensures Bandwidth(users, jitter) == 0.0 <==>
      (users == 0 && jitter == -5) || (users == 1 && jitter <= -4)
  {
  }

  /** The bandwidth is not capped: from two users on the clamp never applies,
      so it grows by 3.5 Mbps per user. */
  lemma BandwidthUncapped(users: int, jitter: int)
    requires users >= 2 && -5 <= jitter <= 10
    ensures Bandwidth(users, jitter) == users as real * 3.5 + jitter as real
    ensures Bandwidth(users, jitter) >= users as real * 3.5 - 5.0
  {
  }

  /** The sample a tick records once the devices have been updated. */
  function Sample(ds: seq<Doc<Device>>, jitterDraw: real, now: int): TrafficSample
    requires IsDraw(jitterDraw)
  {
    TrafficSample(now, Bandwidth(TotalUsers(ds), RandomInt(-5, 10, jitterDraw)), TotalUsers(ds))
  }

  /** The recorded sample: at most 150 users per online device, bandwidth
      never negative and at least 3.5 Mbps per user less 5. */
  lemma TickSampleBounds(ds: seq<Doc<Device>>, us: seq<real>, jitterDraw: real, now: int)
    requires |us| == |ds| && AllDraws(us) && IsDraw(jitterDraw)
    ensures var s := Sample(TickDevices(ds, us), jitterDraw, now);
      && 0 <= s.activeUsers <= MaxClients * OnlineCount(ds)
      && s.totalBandwidth >= 0.0
      && s.totalBandwidth >= s.activeUsers as real * 3.5 - 5.0
      && s.timestamp == now
  {
    TickUsersBound(ds, us);
  }

  // ----------------------------------------------------------- retention

  const LedgerSize := 50

  /** `TrafficLog.find().sort({timestamp: 1}).limit(n)`: the `n` oldest samples. */
  function Oldest(logs: seq<Doc<TrafficSample>>, n: nat): (r: seq<Doc<TrafficSample>>)
    requires n <= |logs|
    ensures |r| == n
  {
    SortBy(logs, SampleTime)[..n]
  }

  /** The ledger after trimming: when it holds more than 50 samples, the
      documents whose `_id` is one of the `count - 50` oldest are deleted. */
  function Retain(logs: seq<Doc<TrafficSample>>): seq<Doc<TrafficSample>>
  {
    if |logs| > LedgerSize then WithoutIds(logs, IdSet(Oldest(logs, |logs| - LedgerSize)))
    else logs
  }

  /** With unique `_id`s the sorted ledger is split into the `n` oldest, all
      deleted, and the rest, all kept. */
  lemma RetainSplit(logs: seq<Doc<TrafficSample>>, n: nat)
    requires UniqueIds(logs) && n <= |logs|
    ensures var sorted := SortBy(logs, SampleTime);
      && multiset(WithoutIds(logs, IdSet(sorted[..n]))) == multiset(sorted[n..])
  {
    var sorted := SortBy(logs, SampleTime);
    UniqueIdsPermutation(logs, sorted);
    WithoutLeadingIds(sorted, n);
    FilterPermutation(logs, sorted, IdNotIn<TrafficSample>(IdSet(sorted[..n])));
  }

  /** Trimming keeps `min(count, 50)` samples, keeps them in ledger order,
      and deletes none that is newer than one it keeps. */
  lemma RetainNewest(logs: seq<Doc<TrafficSample>>)
    requires UniqueIds(logs)
    ensures |Retain(logs)| == Min(|logs|, LedgerSize)
    ensures IsSubsequence(Retain(logs), logs)
    ensures forall x, k :: x in logs && x !in Retain(logs) && k in Retain(logs) ==>
      SampleTime(x) <= SampleTime(k)
  {
    if |logs| <= LedgerSize {
      assert Retain(logs) == logs;
      SubsequenceOfItself(logs);
    } else {
      RetainOverLimit(logs);
      RetainTrimmed(logs, |logs| - LedgerSize);
    }
  }

  lemma RetainOverLimit(logs: seq<Doc<TrafficSample>>)
    requires |logs| > LedgerSize
    ensures Retain(logs) == WithoutIds(logs, IdSet(Oldest(logs, |logs| - LedgerSize)))
    ensures Min(|logs|, LedgerSize) == |logs| - (|logs| - LedgerSize)
  {
  }

  lemma {:induction false} RetainTrimmed(logs: seq<Doc<TrafficSample>>, n: nat)
    requires UniqueIds(logs) && n <= |logs|
    ensures var kept := WithoutIds(logs, IdSet(Oldest(logs, n)));
      && |kept| == |logs| - n
      && IsSubsequence(kept, logs)
      && forall x, k :: x in logs && x !in kept && k in kept ==> SampleTime(x) <= SampleTime(k)
  {
    RetainSplit(logs, n);
    RetainSize(logs, n);
    FilterIsSubsequence(logs, IdNotIn(IdSet(Oldest(logs, n))));
    RetainOrder(logs, n);
  }

  lemma RetainSize(logs: seq<Doc<TrafficSample>>, n: nat)
    requires UniqueIds(logs) && n <= |logs|
    requires multiset(WithoutIds(logs, IdSet(Oldest(logs, n)))) == multiset(SortBy(logs, SampleTime)[n..])
    ensures |WithoutIds(logs, IdSet(Oldest(logs, n)))| == |logs| - n
  {
    var kept := WithoutIds(logs, IdSet(Oldest(logs, n)));
    assert |kept| == |multiset(kept)|;
  }

  lemma RetainOrder(logs: seq<Doc<TrafficSample>>, n: nat)
    requires UniqueIds(logs) && n <= |logs|
    requires multiset(WithoutIds(logs, IdSet(Oldest(logs, n)))) == multiset(SortBy(logs, SampleTime)[n..])
    ensures var kept := WithoutIds(logs, IdSet(Oldest(logs, n)));
      forall x, k :: x in logs && x !in kept && k in kept ==> SampleTime(x) <= SampleTime(k)
  {
    var sorted := SortBy(logs, SampleTime);
    var kept := WithoutIds(logs, IdSet(Oldest(logs, n)));
    forall x, k | x in logs && x !in kept && k in kept
      ensures SampleTime(x) <= SampleTime(k)
    {
      assert k in multiset(kept);
      DroppedNotNewer(logs, sorted, n, x, k);
    }
  }

  /** A sample whose `_id` is among the `n` oldest is no newer than any
      sample after them in timestamp order. */
  lemma DroppedNotNewer(logs: seq<Doc<TrafficSample>>, sorted: seq<Doc<TrafficSample>>, n: nat,
                        x: Doc<TrafficSample>, k: Doc<TrafficSample>)
    requires UniqueIds(logs) && multiset(sorted) == multiset(logs)
    requires SortedBy(sorted, SampleTime) && n <= |sorted|
    requires x in logs && x.id in IdSet(sorted[..n]) && k in sorted[n..]
    ensures SampleTime(x) <= SampleTime(k)
  {
    var i :| 0 <= i < n && sorted[..n][i].id == x.id;
    var o := sorted[i];
    assert o in multiset(sorted);
    UniqueIdsSameDoc(logs, o, x);
    var j :| n <= j < |sorted| && sorted[j] == k;
  }

  // --------------------------------------------------------- traffic tick

  /** The loop over the devices: each online device gets its new count, and
      the counts are added up into `totalUsers`. */
  method UpdateDevices(db: Db, draws: seq<real>) returns (totalUsers: int)
    requires db.Valid()
    requires |draws| == |db.devices| && AllDraws(draws)
    modifies db
    ensures db.Valid()
    ensures db.devices == TickDevices(old(db.devices), draws)
    ensures totalUsers == TotalUsers(db.devices)
    ensures db.alerts == old(db.alerts) && db.users == old(db.users)
    ensures db.trafficLogs == old(db.trafficLogs) && db.nextId == old(db.nextId)
  {
    ghost var before := db.devices;
    totalUsers := 0;
    var i := 0;
    while i < |db.devices|
      invariant 0 <= i <= |db.devices| == |before|
      invariant forall k :: 0 <= k < i ==> db.devices[k] == TickDevice(before[k], draws[k])
      invariant forall k :: i <= k < |before| ==> db.devices[k] == before[k]
      invariant totalUsers == TotalUsers(db.devices[..i])
      invariant db.alerts == old(db.alerts) && db.users == old(db.users)
      invariant db.trafficLogs == old(db.trafficLogs) && db.nextId == old(db.nextId)
    {
      var device := db.devices[i];
      ghost var prefix := db.devices[..i];
      if device.fields.status == Online {
        var change := RandomInt(-2, 3, draws[i]);
        var newCount := ClientsOrZero(device.fields.clients) + change;
        if newCount < 0 {
          newCount := 0;
        }
        if newCount > MaxClients {
          newCount := MaxClients;
        }
        db.devices := db.devices[i := Doc(device.id, device.fields.(clients := Some(newCount)))];
        totalUsers := totalUsers + newCount;
      }
      TotalUsersStep(prefix, db.devices, i);
      i := i + 1;
    }
    assert db.devices[..i] == db.devices;
  }

  /** One more device of the loop adds its online clients to the running
      total. */
  lemma TotalUsersStep(prefix: seq<Doc<Device>>, ds: seq<Doc<Device>>, i: nat)
    requires i < |ds| && prefix == ds[..i]
    ensures TotalUsers(ds[..i + 1]) == TotalUsers(prefix) + OnlineClients(ds[i])
  {
    assert ds[..i + 1][..i] == prefix;
  }

  /** The trimming step: when the ledger holds more than 50 samples, the
      `count - 50` oldest are deleted, which leaves the ledger `Retain`
      describes. */
  method TrimLedger(db: Db)
    requires db.Valid()
    modifies db
    ensures db.Valid()
    ensures db.trafficLogs == Retain(old(db.trafficLogs))
    ensures db.devices == old(db.devices) && db.alerts == old(db.alerts)
    ensures db.users == old(db.users) && db.nextId == old(db.nextId)
  {
    var count := |db.trafficLogs|;
    if count > LedgerSize {
      ghost var full := db.trafficLogs;
      var oldLogs := Oldest(db.trafficLogs, count - LedgerSize);
      assert Retain(full) == WithoutIds(full, IdSet(oldLogs));
      DeleteEach(db, oldLogs);
      FilterWellFormed(full, IdNotIn<TrafficSample>(IdSet(oldLogs)), db.nextId);
    }
  }

  /** `oldLogs.forEach(log => TrafficLog.findByIdAndDelete(log._id))`, one
      deletion after the other. */
  method DeleteEach(db: Db, oldLogs: seq<Doc<TrafficSample>>)
    modifies db
    ensures db.trafficLogs == WithoutIds(old(db.trafficLogs), IdSet(oldLogs))
    ensures db.devices == old(db.devices) && db.alerts == old(db.alerts)
    ensures db.users == old(db.users) && db.nextId == old(db.nextId)
  {
    ghost var full := db.trafficLogs;
    assert IdSet(oldLogs[..0]) == {};
    FilterKeepsAll(full, IdNotIn<TrafficSample>({}));
    var j := 0;
    while j < |oldLogs|
      invariant 0 <= j <= |oldLogs|
      invariant db.trafficLogs == WithoutIds(full, IdSet(oldLogs[..j]))
      invariant db.devices == old(db.devices) && db.alerts == old(db.alerts)
      invariant db.users == old(db.users) && db.nextId == old(db.nextId)
    {
      DeleteStep(full, oldLogs, j);
      db.trafficLogs := WithoutId(db.trafficLogs, oldLogs[j].id);
      j := j + 1;
    }
    assert oldLogs[..j] == oldLogs;
  }

  /** Deleting the `_id` of `ids[j]` after those of `ids[..j]`. */
  lemma DeleteStep(s: seq<Doc<TrafficSample>>, ids: seq<Doc<TrafficSample>>, j: nat)
    requires j < |ids|
    ensures WithoutId(WithoutIds(s, IdSet(ids[..j])), ids[j].id) == WithoutIds(s, IdSet(ids[..j + 1]))
  {
    WithoutIdsStep(s, IdSet(ids[..j]), ids[j].id);
    assert ids[..j + 1] == ids[..j] + [ids[j]];
    IdSetSnoc(ids[..j], ids[j]);
  }

  /** One run of the five-second job.  With no device it changes nothing.
      Otherwise every device is updated as `TickDevices` says, one sample
      with a fresh `_id` is recorded, and the ledger is trimmed by
      `Retain`, so it ends with at most 50 samples. */
  method TrafficTick(db: Db, draws: seq<real>, jitterDraw: real, now: int)
    requires db.Valid()
    requires |draws| == |db.devices| && AllDraws(draws) && IsDraw(jitterDraw)
    modifies db
    ensures db.Valid()
    ensures db.alerts == old(db.alerts) && db.users == old(db.users)
    ensures old(db.devices) == [] ==>
      db.devices == [] && db.trafficLogs == old(db.trafficLogs) && db.nextId == old(db.nextId)
    ensures old(db.devices) != [] ==>
      && db.devices == TickDevices(old(db.devices), draws)
      && db.nextId == old(db.nextId) + 1
      && db.trafficLogs ==
           Retain(old(db.trafficLogs) + [Doc(old(db.nextId), Sample(db.devices, jitterDraw, now))])
      && |db.trafficLogs| <= LedgerSize
  {
    if |db.devices| == 0 {
      return;
    }
    var totalUsers := UpdateDevices(db, draws);

    var baseLoad := if totalUsers > 0 then totalUsers as real * 3.5 else 5.0;
    var bandwidth := baseLoad + RandomInt(-5, 10, jitterDraw) as real;
    var sample := TrafficSample(now, if bandwidth < 0.0 then 0.0 else bandwidth, totalUsers);
    assert sample == Sample(db.devices, jitterDraw, now);
    AppendFresh(db.trafficLogs, db.nextId, sample);
    db.trafficLogs := db.trafficLogs + [Doc(db.nextId, sample)];
    db.nextId := db.nextId + 1;

    RetainNewest(db.trafficLogs);
    TrimLedger(db);
  }

  // ----------------------------------------------------------- alert tick

  const Zones: seq<string> := ["Library", "Hostel", "Academic"]
  const Phrases: seq<string> := ["High Latency", "Packet Loss", "Interference"]

  /** The `Math.random()` calls of one run of the one-minute job, in the
      order the source makes them: the gate, the phrase and the zone of the
      message, the severity, and the zone stored on the alert. */
  datatype AlertDraws = AlertDraws(gate: real, phrase: real, messageZone: real, severity: real, zone: real)

  predicate ValidAlertDraws(d: AlertDraws)
  {
    IsDraw(d.gate) && IsDraw(d.phrase) && IsDraw(d.messageZone) && IsDraw(d.severity) && IsDraw(d.zone)
  }

  /** The alert a run creates: a message "<phrase> detected in <zone>" from
      the two fixed lists, severity 'high' exactly when its draw exceeds 0.8
      and 'medium' otherwise (never 'low'), a zone from the list, status
      'active', stamped with the current time. */
  function ComposeAlert(d: AlertDraws, now: int): (a: Alert)
    requires ValidAlertDraws(d)
    ensures exists i, j ::
      0 <= i < |Phrases| && 0 <= j < |Zones| && a.message == Phrases[i] + " detected in " + Zones[j]
    ensures a.zone in Zones
    ensures a.severity == High <==> d.severity > 0.8
    ensures a.severity == Medium <==> d.severity <= 0.8
    ensures a.status == "active" && a.timestamp == now
  {
    Alert(
      Phrases[RandomInt(0, 2, d.phrase)] + " detected in " + Zones[RandomInt(0, 2, d.messageZone)],
      if d.severity > 0.8 then High else Medium,
      Zones[RandomInt(0, 2, d.zone)],
      now,
      "active")
  }

  /** The zone in the message and the stored zone come from separate draws,
      so an alert can name one zone in its text and carry another. */
  lemma AlertZoneMayDiffer()
    ensures var a := ComposeAlert(AlertDraws(0.9, 0.0, 0.0, 0.0, 0.5), 0);
      a.message == "High Latency detected in Library" && a.zone == "Hostel"
  {
    assert RandomInt(0, 2, 0.5) == 1;
    assert RandomInt(0, 2, 0.0) == 0;
    assert Phrases[0] + " detected in " + Zones[0] == "High Latency detected in Library";
  }

  /** One run of the one-minute job: nothing happens unless the gate draw
      exceeds 0.7; then `ComposeAlert` is appended with a fresh `_id`. */
  method AlertTick(db: Db, d: AlertDraws, now: int)
    requires db.Valid() && ValidAlertDraws(d)
    modifies db
    ensures db.Valid()
    ensures db.devices == old(db.devices) && db.users == old(db.users)
    ensures db.trafficLogs == old(db.trafficLogs)
    ensures d.gate <= 0.7 ==> db.alerts == old(db.alerts) && db.nextId == old(db.nextId)
    ensures d.gate > 0.7 ==>
      && db.alerts == old(db.alerts) + [Doc(old(db.nextId), ComposeAlert(d, now))]
      && db.nextId == old(db.nextId) + 1
  {
    if d.gate > 0.7 {
      var alert := ComposeAlert(d, now);
      AppendFresh(db.alerts, db.nextId, alert);
      db.alerts := db.alerts + [Doc(db.nextId, alert)];
      db.nextId := db.nextId + 1;
    }
  }
}
