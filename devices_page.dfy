/** What frontend/src/pages/DevicesPage.jsx decides: which devices the
    search box keeps, who sees the Add and Delete controls, that a delete
    is sent only after the user confirms it, and the status badge and
    clients cell of each row.  The reboot toasts are not modelled. */
module DevicesPage {
  import opened Models
  import opened Seqs
  import opened Text
  import opened Documents
  import LoginController
  import Auth
  import DataStore

  // ---------------------------------------------------------------- search

  /** The search test: the lower-cased term occurs in the lower-cased name,
      `deviceId` or zone. */
  predicate MatchesTerm(d: Doc<Device>, term: string)
  {
    var t := Lower(term);
    Includes(Lower(d.fields.name), t)
    || Includes(Lower(d.fields.deviceId), t)
    || Includes(Lower(d.fields.zone), t)
  }

  function Matches(term: string): Doc<Device> -> bool
  {
    (d: Doc<Device>) => MatchesTerm(d, term)
  }

  /** `filteredDevices`. */
  function FilteredDevices(devices: seq<Doc<Device>>, term: string): (r: seq<Doc<Device>>)
    ensures |r| <= |devices|
  {
    Filter(devices, Matches(term))
  }

  /** A device is listed exactly when it is in the store and matches, and
      the list keeps the store's order. */
  lemma FilteredDevicesSpec(devices: seq<Doc<Device>>, term: string)
    ensures forall d :: d in FilteredDevices(devices, term) <==> d in devices && MatchesTerm(d, term)
    ensures IsSubsequence(FilteredDevices(devices, term), devices)
  {
    FilterIsSubsequence(devices, Matches(term));
  }

  /** An empty search box lists every device. */
  lemma EmptyTermKeepsAll(devices: seq<Doc<Device>>)
    ensures FilteredDevices(devices, "") == devices
  {
    forall d | d in devices ensures MatchesTerm(d, "") {
      IncludesEmpty(Lower(d.fields.name));
    }
    FilterKeepsAll(devices, Matches(""));
  }

  /** The search ignores the case of the term. */
  lemma SearchIgnoresCase(devices: seq<Doc<Device>>, term: string)
    ensures FilteredDevices(devices, Lower(term)) == FilteredDevices(devices, term)
  {
    LowerIdempotent(term);
    FilterSameTest(devices, Matches(Lower(term)), Matches(term));
  }

  /** Typing more characters only narrows the list: the devices found for
      the longer term are those found for the shorter one that also match
      the longer. */
  lemma TypingNarrows(devices: seq<Doc<Device>>, term: string, more: string)
    ensures FilteredDevices(FilteredDevices(devices, term), term + more)
         == FilteredDevices(devices, term + more)
  {
    LowerAppend(term, more);
    var t, m := Lower(term), Lower(more);
    forall d: Doc<Device> | MatchesTerm(d, term + more) ensures MatchesTerm(d, term) {
      if Includes(Lower(d.fields.name), t + m) {
        IncludesPrefixOf(Lower(d.fields.name), t, m);
      } else if Includes(Lower(d.fields.deviceId), t + m) {
        IncludesPrefixOf(Lower(d.fields.deviceId), t, m);
      } else {
        IncludesPrefixOf(Lower(d.fields.zone), t, m);
      }
    }
    FilterFilter(devices, Matches(term), Matches(term + more), Matches(term + more));
  }

  /** The "No devices found" row is shown when the store is not loading
      (while it loads, the spinner replaces the whole table) and the list
      is empty. */
  predicate ShowsNoDevicesFound(loading: bool, devices: seq<Doc<Device>>, term: string)
  {
    !loading && |FilteredDevices(devices, term)| == 0
  }

  /** The row appears exactly when nothing loads and no device matches;
      with an empty search box, exactly when nothing loads and the store has
      no device. */
  lemma NoDevicesFoundIff(loading: bool, devices: seq<Doc<Device>>, term: string)
    ensures ShowsNoDevicesFound(loading, devices, term) <==>
      !loading && forall d :: d in devices ==> !MatchesTerm(d, term)
    ensures ShowsNoDevicesFound(loading, devices, "") <==> !loading && devices == []
  {
    var r := FilteredDevices(devices, term);
    assert |r| > 0 ==> r[0] in r;
    EmptyTermKeepsAll(devices);
  }

  // --------------------------------------------------------------- actions

  /** `user?.role === 'admin'`: the Add Device and Delete controls. */
  predicate ShowsAdminControls(user: Option<LoginController.Profile>)
  {
    user.Some? && user.value.role == "admin"
  }

  /** After a login the page offers the admin controls exactly when the
      server's `verifyAdmin` lets the same user's token through. */
  lemma AdminControlsMatchServer(u: Doc<User>, sign: LoginController.Claims -> string, now: int)
    ensures ShowsAdminControls(LoginController.Welcome(u, sign, now).data)
        <==> Auth.AdminCheck(Some(LoginController.TokenClaims(u, now))) == Auth.Next
  {
  }

  /** `handleDelete`: the store's `deleteDevice` runs only when the user
      confirms; `serverConfirms` is the server's answer to it. */
  method HandleDelete(store: DataStore.Store, id: Id, userConfirms: bool, serverConfirms: bool)
    modifies store
    ensures store.devices ==
      if userConfirms && serverConfirms then WithoutId(old(store.devices), id) else old(store.devices)
    ensures store.loading == old(store.loading) && store.alerts == old(store.alerts)
    ensures store.users == old(store.users) && store.trafficLogs == old(store.trafficLogs)
  {
    if userConfirms {
      store.DeleteDevice(id, serverConfirms);
    }
  }

  // ------------------------------------------------------------------- row

  /** The badge colour of a device's status. */
  datatype Badge = GreenBadge | YellowBadge | RedBadge

  function StatusBadge(s: Status): (b: Badge)
    ensures b == GreenBadge <==> StatusName(s) == "online"
    ensures b == YellowBadge <==> StatusName(s) == "maintenance"
    ensures b == RedBadge <==> StatusName(s) != "online" && StatusName(s) != "maintenance"
  {
    if s == Online then GreenBadge
    else if s == Maintenance then YellowBadge
    else RedBadge
  }
}
