/** The client-side store of frontend/src/stores/useDataStore.js: the lists
    the pages show and the `loading` flag.  Each action's request is not
    modelled; its outcome is a parameter, `None` when the request failed.
    `fetchDevices` and `fetchUsers` set `loading` before they wait for
    their request, so each is split at that point into a `Begin` and a
    `Settle` method. */
module DataStore {
  import opened Models
  import opened Seqs
  import opened Documents

  /** `users.filter(u => u._id !== id)`. */
  function WithoutUser(users: seq<PublicUser>, id: Id): (r: seq<PublicUser>)
    ensures forall u :: u in r <==> u in users && u.id != id
    ensures |r| <= |users|
  {
    Filter(users, (u: PublicUser) => u.id != id)
  }

  class Store {
    var devices: seq<Doc<Device>>
    var alerts: seq<Doc<Alert>>
    var users: seq<PublicUser>
    var loading: bool
    var trafficLogs: seq<Doc<TrafficSample>>

    /** The initial state: every list empty, not loading. */
    constructor ()
      ensures devices == [] && alerts == [] && users == [] && trafficLogs == []
      ensures !loading
    {
      devices, alerts, users, trafficLogs := [], [], [], [];
      loading := false;
    }

    /** `fetchDevices` up to its request: `loading` is raised. */
    method BeginFetchDevices()
      modifies this
      ensures loading
      ensures devices == old(devices) && alerts == old(alerts)
      ensures users == old(users) && trafficLogs == old(trafficLogs)
    {
      loading := true;
    }

    /** `fetchDevices` after its request: the list is replaced only when the
        request succeeded, and `loading` is lowered either way. */
    method SettleFetchDevices(response: Option<seq<Doc<Device>>>)
      modifies this
      ensures !loading
      ensures devices == if response.Some? then response.value else old(devices)
      ensures alerts == old(alerts) && users == old(users) && trafficLogs == old(trafficLogs)
    {
      if response.Some? {
        devices, loading := response.value, false;
      } else {
        loading := false;
      }
    }

    /** `fetchAlerts`: replaces the alerts on success; `loading` is not touched. */
    method FetchAlerts(response: Option<seq<Doc<Alert>>>)
      modifies this
      ensures alerts == if response.Some? then response.value else old(alerts)
      ensures loading == old(loading)
      ensures devices == old(devices) && users == old(users) && trafficLogs == old(trafficLogs)
    {
      if response.Some? {
        alerts := response.value;
      }
    }

    /** `addDevice`: on success the device the server answered with is
        appended and the answer is true; on failure nothing changes and the
        answer is false. */
    method AddDevice(response: Option<Doc<Device>>) returns (ok: bool)
      modifies this
      ensures ok == response.Some?
      ensures devices == if response.Some? then old(devices) + [response.value] else old(devices)
      ensures loading == old(loading)
      ensures alerts == old(alerts) && users == old(users) && trafficLogs == old(trafficLogs)
    {
      if response.None? {
        return false;
      }
      devices := devices + [response.value];
      ok := true;
    }

    /** `fetchUsers` up to its request. */
    method BeginFetchUsers()
      modifies this
      ensures loading
      ensures devices == old(devices) && alerts == old(alerts)
      ensures users == old(users) && trafficLogs == old(trafficLogs)
    {
      loading := true;
    }

    /** `fetchUsers` after its request. */
    method SettleFetchUsers(response: Option<seq<PublicUser>>)
      modifies this
      ensures !loading
      ensures users == if response.Some? then response.value else old(users)
      ensures devices == old(devices) && alerts == old(alerts) && trafficLogs == old(trafficLogs)
    {
      if response.Some? {
        users, loading := response.value, false;
      } else {
        loading := false;
      }
    }

    /** `deleteDevice`: when the server confirmed, every device with that
        `_id` is dropped and the others keep their order; otherwise nothing
        changes. */
    method DeleteDevice(id: Id, confirmed: bool)
      modifies this
      ensures devices == if confirmed then WithoutId(old(devices), id) else old(devices)
      ensures loading == old(loading)
      ensures alerts == old(alerts) && users == old(users) && trafficLogs == old(trafficLogs)
    {
      if confirmed {
        devices := WithoutId(devices, id);
      }
    }

    /** `deleteUser`: as `DeleteDevice`, on the users. */
    method DeleteUser(id: Id, confirmed: bool)
      modifies this
      ensures users == if confirmed then WithoutUser(old(users), id) else old(users)
      ensures loading == old(loading)
      ensures devices == old(devices) && alerts == old(alerts) && trafficLogs == old(trafficLogs)
    {
      if confirmed {
        users := WithoutUser(users, id);
      }
    }

    /** `createUser`: on success the new user is put first and the answer is
        true; on failure nothing changes and the answer is false. */
    method CreateUser(response: Option<PublicUser>) returns (ok: bool)
      modifies this
      ensures ok == response.Some?
      ensures users == if response.Some? then [response.value] + old(users) else old(users)
      ensures loading == old(loading)
      ensures devices == old(devices) && alerts == old(alerts) && trafficLogs == old(trafficLogs)
    {
      if response.None? {
        return false;
      }
      users := [response.value] + users;
      ok := true;
    }

    /** `fetchTrafficLogs`: replaces the samples on success; `loading` is not touched. */
    method FetchTrafficLogs(response: Option<seq<Doc<TrafficSample>>>)
      modifies this
      ensures trafficLogs == if response.Some? then response.value else old(trafficLogs)
      ensures loading == old(loading)
      ensures devices == old(devices) && alerts == old(alerts) && users == old(users)
    {
      if response.Some? {
        trafficLogs := response.value;
      }
    }
  }

  /** Deleting a device just added, whose `_id` was new to the list, gives
      back the list as it was. */
  lemma DeleteUndoesAdd(devices: seq<Doc<Device>>, added: Doc<Device>)
    requires added.id !in IdSet(devices)
    ensures WithoutId(devices + [added], added.id) == devices
  {
    WithoutIdAfterAppend(devices, added);
  }

  /** Deleting a user just created, whose `_id` was new to the list, gives
      back the list as it was. */
  lemma {:induction false} DeleteUndoesCreate(users: seq<PublicUser>, created: PublicUser)
    requires forall u :: u in users ==> u.id != created.id
    ensures WithoutUser([created] + users, created.id) == users
  {
    var p := (u: PublicUser) => u.id != created.id;
    assert ([created] + users)[1..] == users;
    FilterKeepsAll(users, p);
  }
}
