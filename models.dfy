/** The documents of the four MongoDB collections (backend/models), the
    defaults and validation the schemas apply when a document is created, and
    the JSON shapes the frontend receives for them.  `User` comes from
    backend/models/User.js, which is not part of this model: its fields are
    the ones the controllers read and write. */
module Models {

  datatype Option<+T> = None | Some(value: T)

  /** A MongoDB `_id`: opaque, compared only for equality. */
  type Id = nat

  /** A stored document: its `_id` and the fields its schema declares. */
  datatype Doc<+T> = Doc(id: Id, fields: T)

  // ---------------------------------------------------------------- Device

  /** `status` of a device: the schema's enum ['online', 'offline', 'maintenance']. */
  datatype Status = Online | Offline | Maintenance

  function StatusName(s: Status): string
  {
    match s
    case Online => "online"
    case Offline => "offline"
    case Maintenance => "maintenance"
  }

  /** The enum validator: a string is accepted exactly when it names a status. */
  function ParseStatus(name: string): (r: Option<Status>)
    ensures r.Some? ==> StatusName(r.value) == name
    ensures r.None? ==> forall s: Status :: StatusName(s) != name
  {
    if name == "online" then Some(Online)
    else if name == "offline" then Some(Offline)
    else if name == "maintenance" then Some(Maintenance)
    else None
  }

  lemma ParseStatusName(s: Status)
    ensures ParseStatus(StatusName(s)) == Some(s)
  {
  }

  /** A device (access point).  `clients` is `None` when the stored value is
      null; every other field is present on a stored document. */
  datatype Device = Device(
    deviceId: string,
    name: string,
    zone: string,
    macAddress: string,
    status: Status,
    clients: Option<int>)

  /** `device.clients || 0`, and equally `Number(device.clients) || 0`: a
      missing (null) count reads as 0. */
  function ClientsOrZero(c: Option<int>): (n: int)
    ensures c.None? ==> n == 0
    ensures c.Some? ==> n == c.value
  {
    match c
    case None => 0
    case Some(k) => k
  }

  /** The JSON body of a device-creation request.  A string field that is
      absent is "" (the `required` validator rejects both alike); `status`
      and `clients` distinguish absence, because their defaults apply only
      then. */
  datatype DeviceBody = DeviceBody(
    deviceId: string,
    name: string,
    zone: string,
    macAddress: string,
    status: Option<string>,
    clients: Option<int>)

  /** Mongoose validation of a new device: the four required strings are
      non-empty and a given status is one of the enum's names. */
  predicate DeviceBodyValid(b: DeviceBody)
  {
    && b.deviceId != "" && b.name != "" && b.zone != "" && b.macAddress != ""
    && (b.status.Some? ==> ParseStatus(b.status.value).Some?)
  }

  /** The document `Device.create(body)` stores: the body's fields, status
      'offline' and clients 0 when they are absent. */
  function DeviceFromBody(b: DeviceBody): (d: Device)
    requires DeviceBodyValid(b)
    ensures d.deviceId == b.deviceId && d.name == b.name && d.zone == b.zone
    ensures d.macAddress == b.macAddress
    ensures b.status.None? ==> d.status == Offline
    ensures b.status.Some? ==> StatusName(d.status) == b.status.value
    ensures d.clients == if b.clients.None? then Some(0) else b.clients
  {
    Device(
      b.deviceId, b.name, b.zone, b.macAddress,
      if b.status.None? then Offline else ParseStatus(b.status.value).value,
      if b.clients.None? then Some(0) else b.clients)
  }

  // ----------------------------------------------------------------- Alert

  /** `severity` of an alert: the schema's enum ['low', 'medium', 'high']. */
  datatype Severity = Low | Medium | High

  function SeverityName(s: Severity): string
  {
    match s
    case Low => "low"
    case Medium => "medium"
    case High => "high"
  }

  /** An alert.  `zone` is optional in the schema ("" when absent) and
      `status` is free text, 'active' by default ("" when absent). */
  datatype Alert = Alert(
    message: string,
    severity: Severity,
    zone: string,
    timestamp: int,
    status: string)

  // ----------------------------------------------------------- TrafficLog

  /** One sample of the traffic ledger (Mbps and active users). */
  datatype TrafficSample = TrafficSample(
    timestamp: int,
    totalBandwidth: real,
    activeUsers: int)

  function SampleTime(d: Doc<TrafficSample>): int { d.fields.timestamp }

  // ------------------------------------------------------------------ User

  datatype User = User(
    username: string,
    password: string,
    role: string,
    createdAt: int)

  /** A user as the API returns it: `select('-password')`, or the created
      document with its password deleted. */
  datatype PublicUser = PublicUser(
    id: Id,
    username: string,
    role: string,
    createdAt: int)

  function Public(u: Doc<User>): (p: PublicUser)
    ensures p.id == u.id && p.username == u.fields.username
    ensures p.role == u.fields.role && p.createdAt == u.fields.createdAt
  {
    PublicUser(u.id, u.fields.username, u.fields.role, u.fields.createdAt)
  }
}
