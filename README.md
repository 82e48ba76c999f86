# Smart Campus Wi-Fi Management, modelled in Dafny

The system watches a campus's Wi-Fi access points. An Express back end keeps
four MongoDB collections: devices (access points), alerts, traffic logs and
users. It serves them over a JSON API guarded by JWT middleware, and a
simulator moves the devices' client counts, records a traffic sample every
five seconds and raises random alerts. A React front end fetches the lists
into a Zustand store and derives the figures its pages show: the dashboard
cards and charts, the analytics pie, the zone report, the alert list and the
device table.

The model follows the source file by file:

- `Models`, `Documents` and `Database` hold the document shapes of the four
  schemas and the store the handlers work on. `Database.Db` is a class with
  one sequence per collection and a counter that hands out fresh `_id`s.
- `DataController`, `LoginController`, `Auth` and `Routes` model the request
  handlers, the login, the two middlewares and the route table. Handlers that
  write are methods on the `Db`; the JWT library's `sign` and `verify` are
  function parameters.
- `Simulator` models one run of each cron job as a method. Every
  `Math.random()` draw is a parameter in [0, 1).
- `DataStore.Store` models the front-end store. Each network answer is an
  `Option`, with `None` for a failed request. `fetchDevices` and `fetchUsers`
  are split at their `await`, so that `loading` can be seen in between.
- `Dashboard`, `AnalyticsPage`, `ReportsPage`, `AlertsPage`, `DevicesPage` and
  `AddDeviceModal` model what each page computes from the store. State the
  page keeps in React hooks, such as the chart sizer and the form, is a class.
- `Seqs`, `Text` and `Assoc` are shared helpers:
  - `Seqs` has filtering, a stable sort, reversal and sums;
  - `Text` has ASCII lower-casing, substring search and hex digits;
  - `Assoc` models a JavaScript object used as a dictionary, as an
    association list whose keys keep insertion order.

Some behaviours of the source are surprising. They are modelled as written,
each with a lemma that shows it:

- The dashboard's "Network Load" card reads the oldest of the twenty samples
  the server returns, not the newest (`Dashboard.CurrentLoadIsOldest`).
- The dashboard's chart runs newest to oldest. The analytics chart runs the
  other way (`Dashboard.ChartNewestFirst`, `AnalyticsPage.ChartOldestFirst`).
- An alert's message can name a different zone from the one stored on it
  (`Simulator.AlertZoneMayDiffer`).
- The MAC address pattern accepts mixed `:` and `-` separators
  (`AddDeviceModal.SeparatorsIndependent`).
- A rounded load of exactly 800.5 Mbps already counts as "High"
  (`Dashboard.LoadHighIff`).

## Model

| member | source | states |
|---|---|---|
| Models.ParseStatus | backend/models/Device.js:8-12 | a status string is accepted exactly when it names one of online, offline and maintenance, and then it maps back to that name |
| Models.ParseStatusName | backend/models/Device.js:8-12 | parsing the name of a status gives back that status |
| Models.ClientsOrZero | frontend/src/pages/DevicesPage.jsx:135 | a missing client count reads as 0 and a present one as itself |
| Models.DeviceFromBody | backend/models/Device.js:3-14 | a created device keeps the body's four strings, defaults its status to offline and its clients to 0, and otherwise takes the body's status and clients |
| Models.Public | backend/controllers/DataController.js:37 | the user returned by the API carries the `_id`, username, role and creation time, and no password |
| Database.Db.constructor | backend/util/database.js:6-10 | the database `dbConnect` opens is taken to start with every collection empty and well formed |
| Database.FindByUsername | backend/controllers/Login.js:12 | `findOne({username})` finds a user exactly when one of that name exists, and the user it finds has that name |
| Database.FindByUsernameUnique | backend/controllers/DataController.js:88 | with distinct usernames, the lookup returns the one user of that name |
| Database.DistinctDeviceIdsFilter | backend/models/Device.js:4 | deleting devices keeps `deviceId` unique |
| Database.DistinctUsernamesFilter | backend/controllers/DataController.js:66 | deleting users keeps usernames unique |
| Documents.FindById | backend/controllers/DataController.js:47 | `findByIdAndDelete` finds a document exactly when its `_id` is present |
| Documents.WithoutId | backend/controllers/DataController.js:47 | after the deletion, the collection holds exactly the documents with another `_id` |
| Documents.WithoutIds | backend/util/simulator.js:49 | deleting a set of `_id`s leaves exactly the documents whose `_id` is outside the set |
| Documents.WithoutIdCount | backend/controllers/DataController.js:47-52 | with unique `_id`s, a deletion removes one document when the `_id` is present and none otherwise |
| DataController.GetDevices | backend/controllers/DataController.js:6-13 | answers 200 with every device in stored order |
| DataController.AlertsNewestFirst | backend/controllers/DataController.js:27 | the alerts, every one of them, sorted by timestamp descending |
| DataController.GetAlerts | backend/controllers/DataController.js:25-32 | answers 200 with the alerts newest first |
| DataController.Publics | backend/controllers/DataController.js:37 | `select('-password')` maps each user to its public form, one for one |
| DataController.UsersNewestFirst | backend/controllers/DataController.js:37 | the public users, every one of them, sorted by creation time descending |
| DataController.GetUsers | backend/controllers/DataController.js:34-42 | answers 200 with the public users newest first |
| DataController.TrafficHistory | backend/controllers/DataController.js:112-115 | the history holds min(count, 20) of the stored samples, oldest first, and none left out is newer than one kept |
| DataController.HistoryFacts | backend/controllers/DataController.js:112-115 | the first n samples of the newest-first list, reversed, are part of the ledger, oldest first, and no later sample is newer than one of them |
| DataController.ReverseOldestFirst | backend/controllers/DataController.js:115 | reversing a newest-first list gives an oldest-first list |
| DataController.NotInPrefix | backend/controllers/DataController.js:112 | a sample cut off by `limit(20)` is no newer than any sample kept |
| DataController.GetTrafficHistory | backend/controllers/DataController.js:109-119 | answers 200 with the traffic history |
| DataController.AddDevice | backend/controllers/DataController.js:16-23 | a body the schema refuses or a duplicate `deviceId` gives 500 and changes nothing; otherwise the device is appended with a fresh `_id` and returned with 201 |
| DataController.DeleteDevice | backend/controllers/DataController.js:44-58 | an unknown `_id` gives 404 "Device not found" and changes nothing; a known one is removed, the list shrinks by one, and the answer is 200 |
| DataController.DeleteUser | backend/controllers/DataController.js:60-76 | the same for users, with "User not found" and "User deleted successfully" |
| DataController.CreateUser | backend/controllers/DataController.js:78-107 | a missing field gives 400 "All fields are required"; a taken username gives 400 "Username already exists"; otherwise the user is appended with a fresh `_id` and returned with 201, without the password |
| LoginController.TokenClaims | backend/controllers/Login.js:20-24 | the token carries the user's `_id` and role and expires one day after it is issued |
| LoginController.Login | backend/controllers/Login.js:4-39 | an empty field gives 400; the only answers are 400, 401 and 200; a 200 is given only for a stored user whose password matches, with a token and the user's name and role |
| LoginController.LoginSucceedsIff | backend/controllers/Login.js:8-17 | with distinct usernames, a login succeeds exactly when both fields are present and a user of that name has that password |
| LoginController.UnknownUserLikeWrongPassword | backend/controllers/Login.js:15-17 | an unknown username and a wrong password get the same 401 answer |
| LoginController.MissingFieldsIgnoreUsers | backend/controllers/Login.js:8-10 | a missing field is answered with 400 whatever users are stored |
| Auth.BearerToken | backend/middleware/auth.js:10 | no header gives no token, and a token found is a non-empty word without spaces |
| Auth.BearerTokenOf | backend/middleware/auth.js:10 | "scheme token" yields the token |
| Auth.NoTokenInOneWord | backend/middleware/auth.js:10-14 | a header of one word carries no token |
| Auth.TokenCheck | backend/middleware/auth.js:7-22 | the request passes exactly when there is a token and it verifies; no token gives 401; a token that fails gives 403 |
| Auth.Request.constructor | backend/middleware/auth.js:7-10 | a request starts with its header and no user attached |
| Auth.VerifyToken | backend/middleware/auth.js:7-22 | decides as `TokenCheck` does, and on success attaches the verified payload as `req.user`; otherwise `req.user` is unchanged |
| Auth.AdminCheck | backend/middleware/auth.js:25-31 | passes exactly when a user is attached whose role is "admin"; otherwise it answers 403 |
| Routes.Lookup | backend/routes/routes.api.js:9-21 | dispatch finds a route that matches the request, or finds none exactly when no route matches |
| Routes.LookupFrom | backend/routes/routes.api.js:9-21 | the same search over the routes from position k on |
| Routes.HandlersRegisteredOnce | backend/routes/routes.api.js:9-21 | every handler is registered exactly once |
| Routes.AccessTable | backend/routes/routes.api.js:9-21 | every route has the middleware its handler needs: none for login, and otherwise token verification first |
| Routes.ApartNeverBothMatch | backend/routes/routes.api.js:9-21 | two routes that differ in method, length or a literal segment never match the same request |
| Routes.RoutesDisjoint | backend/routes/routes.api.js:9-21 | no request matches two routes |
| Routes.ReaderAccess | backend/routes/routes.api.js:12-14 | the reader routes let a request through exactly when its token verifies |
| Routes.AdminAccess | backend/routes/routes.api.js:17-21 | the admin routes let a request through exactly when its token verifies with role admin, and answer 401 without a token |
| Routes.AdminRouteChain | backend/routes/routes.api.js:17-21 | each admin handler sits behind both middlewares |
| Routes.AdminLoginGrantsAccess | backend/routes/routes.api.js:9-21 | the token an admin gets by logging in opens every admin route |
| Simulator.RandomInt | backend/util/simulator.js:6 | `randomInt(min, max)` returns a value between min and max inclusive |
| Simulator.RandomIntSlice | backend/util/simulator.js:6 | each value comes from a slice of [0, 1) of width 1/(max-min+1) |
| Simulator.NextClients | backend/util/simulator.js:23-27 | the new count lies in [0, 150] and is the value in that range closest to the moved count |
| Simulator.NextClientsStep | backend/util/simulator.js:23-27 | from a count in range, one tick moves it by -2 to +3 |
| Simulator.TickDevice | backend/util/simulator.js:21-33 | a device that is not online is left as it was; an online device changes only its client count, by a change in [-2, 3], clamped |
| Simulator.TickDevices | backend/util/simulator.js:21-33 | each device is updated on its own draw |
| Simulator.TotalUsersBound | backend/util/simulator.js:18-31 | the online clients add up to between 0 and 150 per online device |
| Simulator.TickUsersBound | backend/util/simulator.js:21-33 | a tick changes no status, and afterwards the total users lie between 0 and 150 per online device |
| Simulator.Bandwidth | backend/util/simulator.js:35-39 | the bandwidth is the jittered load, or 0 when that is negative |
| Simulator.BandwidthZero | backend/util/simulator.js:35-39 | the bandwidth is 0 only with no user and jitter -5, or with one user and jitter -5 or -4 |
| Simulator.BandwidthUncapped | backend/util/simulator.js:35-39 | from two users on, the bandwidth is 3.5 Mbps per user plus the jitter |
| Simulator.TickSampleBounds | backend/util/simulator.js:35-41 | the recorded sample has 0 to 150 users per online device, a bandwidth that is never negative and at least 3.5 per user less 5, and the current time |
| Simulator.RetainSplit | backend/util/simulator.js:48-49 | deleting the n oldest samples leaves exactly the rest of the timestamp order |
| Simulator.RetainNewest | backend/util/simulator.js:46-50 | trimming keeps min(count, 50) samples, in ledger order, and deletes none newer than one it keeps |
| Simulator.UpdateDevices | backend/util/simulator.js:18-33 | the loop leaves every device as `TickDevices` says, and `totalUsers` is the sum of the online clients |
| Simulator.TotalUsersStep | backend/util/simulator.js:31 | each pass of the loop adds the device's online clients to the running total |
| Simulator.TrimLedger | backend/util/simulator.js:46-50 | the ledger becomes what `Retain` describes, and nothing else changes |
| Simulator.DeleteEach | backend/util/simulator.js:49 | deleting the `_id`s one at a time removes exactly the documents with those `_id`s |
| Simulator.DeleteStep | backend/util/simulator.js:49 | one more deletion removes one more `_id` |
| Simulator.TrafficTick | backend/util/simulator.js:12-55 | with no device nothing changes; otherwise the devices tick, one sample is recorded with a fresh `_id`, and the ledger is trimmed to at most 50 samples |
| Simulator.ComposeAlert | backend/util/simulator.js:62-69 | the alert has a message "phrase detected in zone" from the fixed lists, a zone from the list, severity high exactly when its draw exceeds 0.8 and medium otherwise, status active, and the current time |
| Simulator.AlertZoneMayDiffer | backend/util/simulator.js:65-67 | the zone in the message and the stored zone can differ |
| Simulator.AlertTick | backend/util/simulator.js:58-72 | an alert is appended with a fresh `_id` exactly when the gate draw exceeds 0.7; otherwise nothing changes |
| DataStore.WithoutUser | frontend/src/stores/useDataStore.js:80-82 | the users left are exactly those with another `_id` |
| DataStore.Store.constructor | frontend/src/stores/useDataStore.js:5-10 | the store starts with every list empty and not loading |
| DataStore.Store.BeginFetchDevices | frontend/src/stores/useDataStore.js:13-14 | `loading` is raised and no list changes |
| DataStore.Store.SettleFetchDevices | frontend/src/stores/useDataStore.js:15-22 | `loading` drops; the devices are replaced on success and kept on failure |
| DataStore.Store.FetchAlerts | frontend/src/stores/useDataStore.js:26-33 | the alerts are replaced on success and kept on failure; `loading` is untouched |
| DataStore.Store.AddDevice | frontend/src/stores/useDataStore.js:36-46 | the answer's device is appended on success, with result true; on failure nothing changes and the result is false |
| DataStore.Store.BeginFetchUsers | frontend/src/stores/useDataStore.js:48-49 | `loading` is raised and no list changes |
| DataStore.Store.SettleFetchUsers | frontend/src/stores/useDataStore.js:50-57 | `loading` drops; the users are replaced on success and kept on failure |
| DataStore.Store.DeleteDevice | frontend/src/stores/useDataStore.js:60-74 | once the server confirms, the device with that `_id` is removed; otherwise nothing changes |
| DataStore.Store.DeleteUser | frontend/src/stores/useDataStore.js:75-89 | once the server confirms, the user with that `_id` is removed; otherwise nothing changes |
| DataStore.Store.CreateUser | frontend/src/stores/useDataStore.js:91-106 | on success the new user is put first and the result is true; on failure nothing changes and the result is false |
| DataStore.Store.FetchTrafficLogs | frontend/src/stores/useDataStore.js:108-115 | the samples are replaced on success and kept on failure |
| DataStore.DeleteUndoesAdd | frontend/src/stores/useDataStore.js:39 | deleting a device just added, whose `_id` was new, restores the list |
| DataStore.DeleteUndoesCreate | frontend/src/stores/useDataStore.js:97 | deleting a user just created, whose `_id` was new, restores the list |
| AddDeviceModal.GroupsLaid | frontend/src/components/AddDeviceModal.jsx:19 | the pattern of n groups matches exactly the strings of length 3n+2 with hex digits everywhere except every third place, where a separator stands |
| AddDeviceModal.MacIff | frontend/src/components/AddDeviceModal.jsx:19 | an address is accepted exactly when it is 17 characters laid out as six hex pairs joined by separators |
| AddDeviceModal.SeparatorsIndependent | frontend/src/components/AddDeviceModal.jsx:19 | any six hex pairs joined by any mix of `:` and `-` are accepted |
| AddDeviceModal.TrailingSeparatorRejected | frontend/src/components/AddDeviceModal.jsx:19 | an address with a trailing separator is refused |
| AddDeviceModal.WithField | frontend/src/components/AddDeviceModal.jsx:49 | the named field takes the value and the other fields keep theirs |
| AddDeviceModal.Modal.constructor | frontend/src/components/AddDeviceModal.jsx:7-16 | the form opens with its defaults, no error and not loading |
| AddDeviceModal.Modal.HandleChange | frontend/src/components/AddDeviceModal.jsx:47-50 | the error is cleared and only the named field changes |
| AddDeviceModal.Modal.BeginSubmit | frontend/src/components/AddDeviceModal.jsx:23-33 | the form is sent exactly when its address is valid; otherwise the invalid-address error is shown and nothing loads |
| AddDeviceModal.Modal.FinishSubmit | frontend/src/components/AddDeviceModal.jsx:35-43 | on success the device joins the store, the form resets and the modal closes; on failure the form stays and the duplicate-ID error is shown |
| AlertsPage.FilteredAlerts | frontend/src/pages/AlertsPage.jsx:15-20 | the filtered list is never longer than the alerts |
| AlertsPage.AcknowledgedNeverShown | frontend/src/pages/AlertsPage.jsx:16-17 | an acknowledged alert is never listed, and an alert without a status counts as active |
| AlertsPage.AllShowsEveryActive | frontend/src/pages/AlertsPage.jsx:18 | under 'all', exactly the alerts that are not acknowledged are listed |
| AlertsPage.OtherFilterMatchesSeverity | frontend/src/pages/AlertsPage.jsx:19 | under any other filter, an alert is listed exactly when it is not acknowledged and its severity is the filter |
| AlertsPage.UnknownFilterShowsNothing | frontend/src/pages/AlertsPage.jsx:19 | a filter that names no severity lists nothing |
| AlertsPage.FilteredIsSubsequence | frontend/src/pages/AlertsPage.jsx:15-20 | the listed alerts keep the store's order |
| AlertsPage.NarrowingAll | frontend/src/pages/AlertsPage.jsx:15-20 | filtering the 'all' list by a severity is the same as filtering directly |
| AlertsPage.SeverityStyle | frontend/src/pages/AlertsPage.jsx:23-30 | high is red, medium orange, low blue, and any other text gray |
| AlertsPage.StoredSeverityStyled | frontend/src/pages/AlertsPage.jsx:23-30 | every severity the schema allows gets its own colour, never gray |
| AlertsPage.FormatTime | frontend/src/pages/AlertsPage.jsx:33-38 | a missing timestamp reads 'Just now'; a present one is shown as a date |
| AlertsPage.EmptyStateUnderAll | frontend/src/pages/AlertsPage.jsx:111 | under 'all', the empty state shows exactly when nothing loads and every alert is acknowledged |
| AnalyticsPage.ZoneTotalAbsent | frontend/src/pages/AnalyticsPage.jsx:114-119 | a zone with no device has no clients |
| AnalyticsPage.ZoneStatsKeys | frontend/src/pages/AnalyticsPage.jsx:114-119 | a zone has an entry exactly when some device is in it, with 'Unknown' for devices without a zone |
| AnalyticsPage.ZoneStatsEntries | frontend/src/pages/AnalyticsPage.jsx:114-119 | no zone appears twice, and each entry holds the clients of its zone's devices |
| AnalyticsPage.UpsertSum | frontend/src/pages/AnalyticsPage.jsx:117 | adding a device's clients to its zone adds them to the sum over all zones |
| AnalyticsPage.ZoneStatsTotal | frontend/src/pages/AnalyticsPage.jsx:114-124 | the pie's values add up to the clients of all devices |
| AnalyticsPage.ZoneDistribution | frontend/src/pages/AnalyticsPage.jsx:121-124 | one slice per zone entry, in key order, with that entry's name and value |
| AnalyticsPage.FinalZoneDataNoData | frontend/src/pages/AnalyticsPage.jsx:126 | the 'No Data' fallback is used exactly when there are no devices; otherwise the pie is the zone distribution |
| AnalyticsPage.SliceColor | frontend/src/pages/AnalyticsPage.jsx:220-221 | each slice's colour is one of the five in `COLORS` |
| AnalyticsPage.SliceColorCycle | frontend/src/pages/AnalyticsPage.jsx:127 | neighbouring slices differ in colour, and colours repeat every five slices |
| AnalyticsPage.SixSlicesWrap | frontend/src/pages/AnalyticsPage.jsx:127 | with six zones, the last slice has the same colour as the first |
| AnalyticsPage.SignalColor | frontend/src/pages/AnalyticsPage.jsx:143-147 | above 80 is green, above 50 up to 80 is yellow, and 50 or below is red |
| AnalyticsPage.SignalColorMonotone | frontend/src/pages/AnalyticsPage.jsx:143-147 | a stronger signal never gets a worse colour |
| AnalyticsPage.ChartData | frontend/src/pages/AnalyticsPage.jsx:130-134 | one point per sample, in list order |
| AnalyticsPage.ChartOldestFirst | frontend/src/pages/AnalyticsPage.jsx:130-134 | drawn from the server's history, time never decreases from left to right |
| AnalyticsPage.Clamp0 | frontend/src/pages/AnalyticsPage.jsx:30-31 | a side is rounded down and never negative |
| AnalyticsPage.VisibleIff | frontend/src/pages/AnalyticsPage.jsx:28-35 | the chart is drawn exactly when the element is attached and each side is at least one pixel |
| Dashboard.TotalUsersAllStatuses | frontend/src/pages/Dashboard.jsx:93 | the dashboard counts the clients of every device, which differs from the simulator's total by the clients of devices that are not online |
| Dashboard.OnlineDevices | frontend/src/pages/Dashboard.jsx:94 | the online count is at most the number of devices |
| Dashboard.OfflineDevices | frontend/src/pages/Dashboard.jsx:141 | online and offline counts add up to the number of devices |
| Dashboard.OnlineDevicesAgree | frontend/src/pages/Dashboard.jsx:94 | the dashboard and the simulator agree on the online count |
| Dashboard.CriticalAlerts | frontend/src/pages/Dashboard.jsx:96 | the count is 0 exactly when no alert has severity high |
| Dashboard.CriticalAfterAlertTick | frontend/src/pages/Dashboard.jsx:96 | a raised alert adds one to the critical count exactly when its severity draw exceeded 0.8 |
| Dashboard.ToFixed0 | frontend/src/pages/Dashboard.jsx:100 | the rounded value is within half a unit of the bandwidth |
| Dashboard.LoadHighIff | frontend/src/pages/Dashboard.jsx:150-151 | the load reads "High" exactly when the first sample's bandwidth is at least 800.5 |
| Dashboard.CurrentLoadIsOldest | frontend/src/pages/Dashboard.jsx:99-101 | the card shows the first sample of the history, which is the oldest one |
| Dashboard.ChartData | frontend/src/pages/Dashboard.jsx:104-108 | one point per sample, in reverse list order |
| Dashboard.ChartNewestFirst | frontend/src/pages/Dashboard.jsx:104-108 | drawn from the server's history, time never increases from left to right |
| Dashboard.AlertWidget | frontend/src/pages/Dashboard.jsx:228 | the widget lists the first min(count, 5) alerts |
| Dashboard.NoAlertsIffEmptyWidget | frontend/src/pages/Dashboard.jsx:250-252 | "No active alerts" shows exactly when the widget lists nothing |
| Dashboard.WidgetShowsNewest | frontend/src/pages/Dashboard.jsx:228 | on the server's newest-first list, no alert left out is newer than one shown |
| Dashboard.MeasuredRenders | frontend/src/pages/Dashboard.jsx:34-41 | after a measurement the chart is drawn exactly when both sides are at least 11 pixels; a side that rounds to 0 keeps the previous size |
| Dashboard.ChartSizer.constructor | frontend/src/pages/Dashboard.jsx:29 | the sizer starts at 0 by 0 and draws nothing |
| Dashboard.ChartSizer.UpdateSize | frontend/src/pages/Dashboard.jsx:34-41 | the size becomes the measured one |
| DevicesPage.FilteredDevices | frontend/src/pages/DevicesPage.jsx:19-23 | the filtered list is never longer than the devices |
| DevicesPage.FilteredDevicesSpec | frontend/src/pages/DevicesPage.jsx:19-23 | a device is listed exactly when its name, `deviceId` or zone contains the term, ignoring case, and the list keeps the store's order |
| DevicesPage.EmptyTermKeepsAll | frontend/src/pages/DevicesPage.jsx:19-23 | an empty search lists every device |
| DevicesPage.SearchIgnoresCase | frontend/src/pages/DevicesPage.jsx:19-23 | lower-casing the term changes nothing |
| DevicesPage.TypingNarrows | frontend/src/pages/DevicesPage.jsx:19-23 | extending the term only removes devices from the list |
| DevicesPage.NoDevicesFoundIff | frontend/src/pages/DevicesPage.jsx:70-176 | "No devices found" shows exactly when the store is not loading and no device matches, and with an empty term exactly when it is not loading and there are no devices |
| DevicesPage.AdminControlsMatchServer | frontend/src/pages/DevicesPage.jsx:45 | after a login, the admin controls show exactly for the role the server treats as admin |
| DevicesPage.HandleDelete | frontend/src/pages/DevicesPage.jsx:31-35 | the device is removed only when the user confirms and the server confirms |
| DevicesPage.StatusBadge | frontend/src/pages/DevicesPage.jsx:119-128 | online is green, maintenance yellow, and anything else red |
| ReportsPage.CountZones | frontend/src/pages/ReportsPage.jsx:34-43 | the reduce that updates the tallies in place gives the same tallies as counting one device at a time |
| ReportsPage.Bump | frontend/src/pages/ReportsPage.jsx:39-41 | one device adds one to total, one to offline when it is offline, and its clients |
| ReportsPage.TalliesSound | frontend/src/pages/ReportsPage.jsx:34-43 | no zone appears twice, and each tally counts at least one device, with no more offline than total |
| ReportsPage.TalliesKeys | frontend/src/pages/ReportsPage.jsx:34-43 | a zone is reported exactly when some device is in it, with 'Unassigned' for devices without a zone |
| ReportsPage.TotalsCountDevices | frontend/src/pages/ReportsPage.jsx:34-43 | the zones' totals add up to the number of devices |
| ReportsPage.Health | frontend/src/pages/ReportsPage.jsx:47 | health is between 0 and 100: 100 with nothing offline and 0 with everything offline |
| ReportsPage.AvgLoad | frontend/src/pages/ReportsPage.jsx:49 | the average load times the total gives the clients, and 0 for no devices |
| ReportsPage.TableRows | frontend/src/pages/ReportsPage.jsx:45-60 | one row per zone, in key order, with its totals, average load and health |
| ReportsPage.Score | frontend/src/pages/ReportsPage.jsx:48 | the shown score is within half a unit of the health |
| ReportsPage.HealthRedIff | frontend/src/pages/ReportsPage.jsx:73-81 | a health cell is red exactly when more than 30.5% of the zone's devices are offline |
| ReportsPage.GenerateZoneReport | frontend/src/pages/ReportsPage.jsx:15-60 | no devices gives the "No device data" error; otherwise the table of the zones |
| ReportsPage.ReportRowsSound | frontend/src/pages/ReportsPage.jsx:45-60 | a report on some devices has at least one row, and every row counts a device and has health between 0 and 100 |

## Left out

- Cron scheduling and the `setInterval` polling are left out. One run of a job is one method call, and one poll is one store call.
- Randomness, the clock and the network are left out. Every `Math.random()` draw, `Date.now()` and each HTTP answer is a parameter.
- The `forEach` deletes in the simulator are not awaited, so they may interleave with later ticks. `Simulator.DeleteEach` runs them one after the other.
- The `try`/`catch` blocks that answer 500 with the error's text are reduced to the one failure the model can produce, a refused device in `DataController.AddDevice`. `console` logging is left out.
- `DataController.AddDevice` does not distinguish a schema error from a duplicate-key error: both give 500, as in the source, and the message text is not modelled.
- Mongo's internals are left out: `ObjectId` cast errors, and how ties in a sort are ordered. Contracts promise only the order and the permutation.
- The JWT library's signing, verification and expiry are left out: `sign` and `verify` are parameters, and an expired token is one that `verify` refuses.
- bcrypt is not used by the source, which compares plain-text passwords, and the model does the same.
- The Express layer is left out: JSON parsing, CORS and `server.js`.
- Routes.Lookup: route matching is literal. Express by default also ignores the case of the path and a trailing slash, and answers HEAD through the GET routes; those variants reach the same handler and the same middleware chain, so the access lemmas are unaffected.
- Models.DeviceBody: client counts are whole numbers. A fractional `clients` (stored as is, then moved and clamped by the simulator and summed by the pages), a non-numeric one (refused by the schema's cast, so `addDevice` answers 500) and an explicit `null` (stored without the default) in a creation body are left out.
- Models.Device: the stored `clients` is a whole number or missing; fractional counts are not represented.
- `backend/models/User.js` is not part of this model. The user document's fields follow from how the handlers use them.
- The front end's rendering is left out: toasts, `window.confirm`, the DOM, `ResizeObserver`, `requestAnimationFrame` and its `MAX_ATTEMPTS` retry bound.
- The analytics page's `updateIfDifferent` is modelled through `ReadRect`; its skipping of equal updates only avoids re-rendering.
- Number and date formatting is left out: `toFixed(1)`, `toLocaleTimeString` and `toLocaleString`. `toFixed(0)` is modelled as rounding half away from zero.
- The dashboard's 40/60 split of bandwidth into upload and download is left out.
- Case folding is ASCII only: the model's `Lower` maps only A to Z.
- `Object.keys` ordering of integer-like keys, and keys that collide with `Object.prototype`, are left out. Keys keep insertion order.
- The dashboard's decorative alert colours, its static "+12%" badge and the analytics page's static heat-map data are left out. `AnalyticsPage.SignalColor` models the colour rule.
- `ReportsPage.GenerateZoneReport` leaves out the PDF itself: layout, header, date and summary text, and the saved file.
- The reboot button of the devices page only shows toasts, and is left out.
- The users page, the create-user modal, the navigation bar, the sidebar, the layout, the app's routing and the user store are not part of this model. They only display or forward what the modelled store holds.
- The alert schema's `timestamp` default is `Date.now`, passed in as `now`.
