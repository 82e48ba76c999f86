/** The document store behind the API and the simulator, reduced to what the
    core needs: four collections held in insertion order and a source of
    fresh `_id`s.  Queries, sorting and deletion by `_id` are functions on
    the collections (module Documents); the engine itself (connection,
    indexes, persistence) is not part of this model. */
module Database {
  import opened Models
  import opened Seqs
  import opened Documents

  // ----------------------------------------------------------------- store

  /** The database: one sequence per collection, in insertion order, and the
      next fresh `_id`.  The unique index on `deviceId` and the uniqueness of
      usernames (kept by `createUser`) are part of its invariant. */
  class Db {
    var devices: seq<Doc<Device>>
    var alerts: seq<Doc<Alert>>
    var users: seq<Doc<User>>
    var trafficLogs: seq<Doc<TrafficSample>>
    var nextId: Id

    ghost predicate Valid()
      reads this
    {
      && WellFormed(devices, nextId)
      && WellFormed(alerts, nextId)
      && WellFormed(users, nextId)
      && WellFormed(trafficLogs, nextId)
      && DistinctDeviceIds(devices)
      && DistinctUsernames(users)
    }

    constructor ()
      ensures Valid()
      ensures devices == [] && alerts == [] && users == [] && trafficLogs == []
    {
      devices, alerts, users, trafficLogs := [], [], [], [];
      nextId := 0;
    }
  }

  /** The unique index on `deviceId` (backend/models/Device.js). */
  ghost predicate DistinctDeviceIds(s: seq<Doc<Device>>)
  {
    forall i, j :: 0 <= i < j < |s| ==> s[i].fields.deviceId != s[j].fields.deviceId
  }

  ghost predicate DistinctUsernames(s: seq<Doc<User>>)
  {
    forall i, j :: 0 <= i < j < |s| ==> s[i].fields.username != s[j].fields.username
  }

  /** The `deviceId`s present among the devices. */
  function DeviceIds(ds: seq<Doc<Device>>): set<string>
  {
    set i | 0 <= i < |ds| :: ds[i].fields.deviceId
  }

  /** `User.findOne({ username })`: the first user with that name, if any. */
  function FindByUsername(users: seq<Doc<User>>, name: string): (r: Option<Doc<User>>)
    ensures r.Some? <==> exists u :: u in users && u.fields.username == name
    ensures r.Some? ==> r.value in users && r.value.fields.username == name
  {
    if users == [] then None
    else if users[0].fields.username == name then Some(users[0])
    else
      var r := FindByUsername(users[1..], name);
      assert forall u :: u in users && u != users[0] ==> u in users[1..];
      r
  }

  /** With distinct usernames, `findOne` finds the one user of that name. */
  lemma FindByUsernameUnique(users: seq<Doc<User>>, u: Doc<User>)
    requires DistinctUsernames(users) && u in users
    ensures FindByUsername(users, u.fields.username) == Some(u)
  {
    var v := FindByUsername(users, u.fields.username).value;
    var i :| 0 <= i < |users| && users[i] == u;
    var j :| 0 <= j < |users| && users[j] == v;
  }

  lemma DistinctDeviceIdsFilter(s: seq<Doc<Device>>, p: Doc<Device> -> bool)
    requires DistinctDeviceIds(s)
    ensures DistinctDeviceIds(Filter(s, p))
  {
    FilterIsSubsequence(s, p);
    var idx :| Embeds(Filter(s, p), s, idx);
  }

  lemma DistinctUsernamesFilter(s: seq<Doc<User>>, p: Doc<User> -> bool)
    requires DistinctUsernames(s)
    ensures DistinctUsernames(Filter(s, p))
  {
    FilterIsSubsequence(s, p);
    var idx :| Embeds(Filter(s, p), s, idx);
  }
}
