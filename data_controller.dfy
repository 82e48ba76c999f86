/** The request handlers of backend/controllers/DataController.js as
    operations on the store `Db`.  A handler's answer is a `Reply`: the HTTP
    status and the `success`, `message` and `data` members of its JSON body. */
module DataController {
  import opened Models
  import opened Seqs
  import opened Documents
  import opened Database

  /** The `message` of an answer: none, a fixed text, or the text of the
      exception the storage layer threw (`error.message`), which the storage
      library composes. */
  datatype Message = NoMessage | Text(text: string) | StorageError

  datatype Reply<T> = Reply(status: int, success: bool, message: Message, data: Option<T>)

  // ------------------------------------------------------------- queries

  /** `getDevices`: every device, in stored order. */
  method GetDevices(db: Db) returns (r: Reply<seq<Doc<Device>>>)
    ensures r.status == 200 && r.success && r.data.Some?
    ensures r.data.value == db.devices
  {
    r := Reply(200, true, NoMessage, Some(db.devices));
  }

  function AlertRecency(a: Doc<Alert>): int { -a.fields.timestamp }

  /** `Alert.find().sort({ timestamp: -1 })`: every alert, newest first. */
  function AlertsNewestFirst(alerts: seq<Doc<Alert>>): (r: seq<Doc<Alert>>)
    ensures multiset(r) == multiset(alerts)
    ensures forall i, j :: 0 <= i < j < |r| ==> r[i].fields.timestamp >= r[j].fields.timestamp
  {
    var r := SortBy(alerts, AlertRecency);
    assert forall i, j :: 0 <= i < j < |r| ==> AlertRecency(r[i]) <= AlertRecency(r[j]);
    r
  }

  method GetAlerts(db: Db) returns (r: Reply<seq<Doc<Alert>>>)
    ensures r.status == 200 && r.success && r.data == Some(AlertsNewestFirst(db.alerts))
  {
    r := Reply(200, true, NoMessage, Some(SortBy(db.alerts, AlertRecency)));
  }

  /** `select('-password')` applied to each user. */
  function Publics(users: seq<Doc<User>>): (r: seq<PublicUser>)
    ensures |r| == |users|
    ensures forall i :: 0 <= i < |users| ==> r[i] == Public(users[i])
  {
    seq(|users|, i requires 0 <= i < |users| => Public(users[i]))
  }

  function UserRecency(u: PublicUser): int { -u.createdAt }

  /** `User.find().select('-password').sort({ createdAt: -1 })`: every user
      without its password, newest first. */
  function UsersNewestFirst(users: seq<Doc<User>>): (r: seq<PublicUser>)
    ensures multiset(r) == multiset(Publics(users))
    ensures forall i, j :: 0 <= i < j < |r| ==> r[i].createdAt >= r[j].createdAt
  {
    var r := SortBy(Publics(users), UserRecency);
    assert forall i, j :: 0 <= i < j < |r| ==> UserRecency(r[i]) <= UserRecency(r[j]);
    r
  }

  method GetUsers(db: Db) returns (r: Reply<seq<PublicUser>>)
    ensures r.status == 200 && r.success && r.data == Some(UsersNewestFirst(db.users))
  {
    r := Reply(200, true, NoMessage, Some(SortBy(Publics(db.users), UserRecency)));
  }

  const HistoryLength := 20

  function SampleRecency(d: Doc<TrafficSample>): int { -d.fields.timestamp }

  /** `TrafficLog.find().sort({ timestamp: -1 }).limit(20)` reversed: the 20
      newest samples (all of them when there are fewer), oldest first. */
  function TrafficHistory(logs: seq<Doc<TrafficSample>>): (r: seq<Doc<TrafficSample>>)
    ensures |r| == Min(|logs|, HistoryLength)
    ensures multiset(r) <= multiset(logs)
    ensures SortedBy(r, SampleTime)
    ensures forall x, k :: x in logs && x !in r && k in r ==> SampleTime(x) <= SampleTime(k)
  {
    var newest := SortBy(logs, SampleRecency);
    var n := Min(|logs|, HistoryLength);
    HistoryFacts(logs, newest, n);
    Reverse(newest[..n])
  }

  lemma HistoryFacts(logs: seq<Doc<TrafficSample>>, newest: seq<Doc<TrafficSample>>, n: nat)
    requires multiset(newest) == multiset(logs) && SortedBy(newest, SampleRecency)
    requires n <= |newest|
    ensures multiset(Reverse(newest[..n])) <= multiset(logs)
    ensures SortedBy(Reverse(newest[..n]), SampleTime)
    ensures forall x, k :: x in logs && x !in Reverse(newest[..n]) && k in Reverse(newest[..n]) ==>
      SampleTime(x) <= SampleTime(k)
  {
    ReverseMultiset(newest[..n]);
    PrefixMultiset(newest, n);
    ReverseOldestFirst(newest[..n]);
    forall x, k | x in logs && x !in Reverse(newest[..n]) && k in Reverse(newest[..n])
      ensures SampleTime(x) <= SampleTime(k)
    {
      assert x in multiset(newest) && x !in multiset(newest[..n]);
      assert k in multiset(newest[..n]);
      NotInPrefix(newest, n, x, k);
    }
  }

  lemma PrefixMultiset<T>(s: seq<T>, n: nat)
    requires n <= |s|
    ensures multiset(s) == multiset(s[..n]) + multiset(s[n..])
  {
    assert s == s[..n] + s[n..];
  }

  /** Newest first, reversed, is oldest first. */
  lemma ReverseOldestFirst(s: seq<Doc<TrafficSample>>)
    requires SortedBy(s, SampleRecency)
    ensures SortedBy(Reverse(s), SampleTime)
  {
    var r := Reverse(s);
    forall i, j | 0 <= i < j < |r| ensures SampleTime(r[i]) <= SampleTime(r[j]) {
      assert SampleRecency(s[|s| - 1 - j]) <= SampleRecency(s[|s| - 1 - i]);
    }
  }

  /** A sample of the newest-first list that is not in its first `n` places
      is no newer than one that is. */
  lemma NotInPrefix(newest: seq<Doc<TrafficSample>>, n: nat, x: Doc<TrafficSample>, k: Doc<TrafficSample>)
    requires SortedBy(newest, SampleRecency) && n <= |newest|
    requires x in newest && x !in newest[..n] && k in newest[..n]
    ensures SampleTime(x) <= SampleTime(k)
  {
    assert forall t :: 0 <= t < n ==> newest[t] in newest[..n];
    var i :| 0 <= i < |newest| && newest[i] == x;
    var j :| 0 <= j < n && newest[..n][j] == k;
    assert SampleRecency(newest[j]) <= SampleRecency(newest[i]);
  }

  /** `getTrafficHistory`. */
  method GetTrafficHistory(db: Db) returns (r: Reply<seq<Doc<TrafficSample>>>)
    ensures r.status == 200 && r.success && r.data == Some(TrafficHistory(db.trafficLogs))
  {
    var logs := SortBy(db.trafficLogs, SampleRecency);
    var limited := logs[..Min(|logs|, HistoryLength)];
    r := Reply(200, true, NoMessage, Some(Reverse(limited)));
  }

  // ------------------------------------------------------------ devices

  /** `addDevice`: `Device.create(req.body)`.  A body that fails the schema's
      validation, or whose `deviceId` is already taken (the unique index),
      is refused with 500 and the store unchanged; otherwise the device gets
      a fresh `_id`, is stored last and is answered with 201. */
  method AddDevice(db: Db, body: DeviceBody) returns (r: Reply<Doc<Device>>)
    requires db.Valid()
    modifies db
    ensures db.Valid()
    ensures db.alerts == old(db.alerts) && db.users == old(db.users)
    ensures db.trafficLogs == old(db.trafficLogs)
    ensures !DeviceBodyValid(body) || body.deviceId in DeviceIds(old(db.devices)) ==>
      && r == Reply(500, false, StorageError, None)
      && db.devices == old(db.devices) && db.nextId == old(db.nextId)
    ensures DeviceBodyValid(body) && body.deviceId !in DeviceIds(old(db.devices)) ==>
      && r == Reply(201, true, NoMessage, Some(Doc(old(db.nextId), DeviceFromBody(body))))
      && db.devices == old(db.devices) + [Doc(old(db.nextId), DeviceFromBody(body))]
      && db.nextId == old(db.nextId) + 1
  {
    if !DeviceBodyValid(body) || body.deviceId in DeviceIds(db.devices) {
      return Reply(500, false, StorageError, None);
    }
    var device := Doc(db.nextId, DeviceFromBody(body));
    AppendFresh(db.devices, db.nextId, device.fields);
    assert forall i :: 0 <= i < |db.devices| ==> db.devices[i].fields.deviceId in DeviceIds(db.devices);
    db.devices := db.devices + [device];
    db.nextId := db.nextId + 1;
    r := Reply(201, true, NoMessage, Some(device));
  }

  /** `deleteDevice`: 404 "Device not found" with nothing changed when no
      device has the `_id`; otherwise that one device is removed and the
      answer is 200. */
  method DeleteDevice(db: Db, id: Id) returns (r: Reply<()>)
    requires db.Valid()
    modifies db
    ensures db.Valid()
    ensures db.alerts == old(db.alerts) && db.users == old(db.users)
    ensures db.trafficLogs == old(db.trafficLogs) && db.nextId == old(db.nextId)
    ensures id !in IdSet(old(db.devices)) ==>
      r == Reply(404, false, Text("Device not found"), None) && db.devices == old(db.devices)
    ensures id in IdSet(old(db.devices)) ==>
      && r == Reply(200, true, Text("Device deleted successfully"), None)
      && db.devices == WithoutId(old(db.devices), id)
      && |db.devices| == |old(db.devices)| - 1
  {
    var deleted := FindById(db.devices, id);
    if deleted.None? {
      return Reply(404, false, Text("Device not found"), None);
    }
    WithoutIdCount(db.devices, id);
    FilterWellFormed(db.devices, IdNotIn<Device>({id}), db.nextId);
    DistinctDeviceIdsFilter(db.devices, IdNotIn<Device>({id}));
    db.devices := WithoutId(db.devices, id);
    r := Reply(200, true, Text("Device deleted successfully"), None);
  }

  // -------------------------------------------------------------- users

  /** `deleteUser`: as `DeleteDevice`, on the users, with "User not found"
      and "User deleted successfully". */
  method DeleteUser(db: Db, id: Id) returns (r: Reply<()>)
    requires db.Valid()
    modifies db
    ensures db.Valid()
    ensures db.devices == old(db.devices) && db.alerts == old(db.alerts)
    ensures db.trafficLogs == old(db.trafficLogs) && db.nextId == old(db.nextId)
    ensures id !in IdSet(old(db.users)) ==>
      r == Reply(404, false, Text("User not found"), None) && db.users == old(db.users)
    ensures id in IdSet(old(db.users)) ==>
      && r == Reply(200, true, Text("User deleted successfully"), None)
      && db.users == WithoutId(old(db.users), id)
      && |db.users| == |old(db.users)| - 1
  {
    var deleted := FindById(db.users, id);
    if deleted.None? {
      return Reply(404, false, Text("User not found"), None);
    }
    WithoutIdCount(db.users, id);
    FilterWellFormed(db.users, IdNotIn<User>({id}), db.nextId);
    DistinctUsernamesFilter(db.users, IdNotIn<User>({id}));
    db.users := WithoutId(db.users, id);
    r := Reply(200, true, Text("User deleted successfully"), None);
  }

  /** The body of a user-creation request; an absent field is "". */
  datatype UserBody = UserBody(username: string, password: string, role: string)

  /** `username && password && role`: no field is missing or empty. */
  predicate Complete(body: UserBody)
  {
    body.username != "" && body.password != "" && body.role != ""
  }

  /** `createUser`: 400 "All fields are required" when a field is missing or
      empty, 400 "Username already exists" when the name is taken, both
      with nothing changed; otherwise exactly one user is stored, with a
      fresh `_id` and created at `now`, and the answer is 201 with that user
      minus its password. */
  method CreateUser(db: Db, body: UserBody, now: int) returns (r: Reply<PublicUser>)
    requires db.Valid()
    modifies db
    ensures db.Valid()
    ensures db.devices == old(db.devices) && db.alerts == old(db.alerts)
    ensures db.trafficLogs == old(db.trafficLogs)
    ensures !Complete(body) ==>
      && r == Reply(400, false, Text("All fields are required"), None)
      && db.users == old(db.users) && db.nextId == old(db.nextId)
    ensures Complete(body) && FindByUsername(old(db.users), body.username).Some? ==>
      && r == Reply(400, false, Text("Username already exists"), None)
      && db.users == old(db.users) && db.nextId == old(db.nextId)
    ensures Complete(body) && FindByUsername(old(db.users), body.username).None? ==>
      var u := Doc(old(db.nextId), User(body.username, body.password, body.role, now));
      && db.users == old(db.users) + [u]
      && db.nextId == old(db.nextId) + 1
      && r == Reply(201, true, NoMessage, Some(Public(u)))
  {
    if !Complete(body) {
      return Reply(400, false, Text("All fields are required"), None);
    }
    var userExists := FindByUsername(db.users, body.username);
    if userExists.Some? {
      return Reply(400, false, Text("Username already exists"), None);
    }
    var newUser := Doc(db.nextId, User(body.username, body.password, body.role, now));
    AppendFresh(db.users, db.nextId, newUser.fields);
    assert forall i :: 0 <= i < |db.users| ==> db.users[i] in db.users;
    db.users := db.users + [newUser];
    db.nextId := db.nextId + 1;
    r := Reply(201, true, NoMessage, Some(Public(newUser)));
  }
}
