/** The route table of backend/routes/routes.api.js: which handler answers
    which method and path, and which middleware runs before it. */
module Routes {
  import opened Models
  import opened Database
  import opened LoginController
  import opened Auth

  datatype Verb = Get | Post | Delete

  /** One path segment of a route: a literal, or a parameter such as `:id`. */
  datatype Segment = Lit(name: string) | Param

  datatype Middleware = VerifyTokenStep | VerifyAdminStep

  datatype Handler =
    | LoginHandler
    | GetDevices | GetAlerts | GetTrafficHistory
    | AddDevice | GetUsers | DeleteDevice | DeleteUser | CreateUser

  datatype Route = Route(verb: Verb, path: seq<Segment>, chain: seq<Middleware>, handler: Handler)

  const Reader: seq<Middleware> := [VerifyTokenStep]
  const Admin: seq<Middleware> := [VerifyTokenStep, VerifyAdminStep]

  /** The routes, in registration order; paths are relative to where the
      router is mounted. */
  const Table: seq<Route> := [
    Route(Post, [Lit("login")], [], LoginHandler),
    Route(Get, [Lit("devices")], Reader, GetDevices),
    Route(Get, [Lit("alerts")], Reader, GetAlerts),
    Route(Get, [Lit("analytics"), Lit("traffic")], Reader, GetTrafficHistory),
    Route(Post, [Lit("devices")], Admin, AddDevice),
    Route(Get, [Lit("users")], Admin, GetUsers),
    Route(Delete, [Lit("devices"), Param], Admin, DeleteDevice),
    Route(Delete, [Lit("users"), Param], Admin, DeleteUser),
    Route(Post, [Lit("users")], Admin, CreateUser)
  ]

  predicate SegmentMatches(s: Segment, part: string)
  {
    match s
    case Lit(name) => part == name
    case Param => part != ""
  }

  /** A request with this method and these path segments is one the route answers. */
  predicate Matches(r: Route, verb: Verb, parts: seq<string>)
  {
    && r.verb == verb
    && |parts| == |r.path|
    && forall i :: 0 <= i < |parts| ==> SegmentMatches(r.path[i], parts[i])
  }

  /** Dispatch: the first registered route that matches, if any, comparing
      literal segments exactly. */
  function Lookup(verb: Verb, parts: seq<string>): (r: Option<Route>)
    ensures r.Some? ==> r.value in Table && Matches(r.value, verb, parts)
    ensures r.None? ==> forall i :: 0 <= i < |Table| ==> !Matches(Table[i], verb, parts)
  {
    LookupFrom(0, verb, parts)
  }

  function LookupFrom(k: nat, verb: Verb, parts: seq<string>): (r: Option<Route>)
    requires k <= |Table|
    ensures r.Some? ==> r.value in Table && Matches(r.value, verb, parts)
    ensures r.None? ==> forall i :: k <= i < |Table| ==> !Matches(Table[i], verb, parts)
    decreases |Table| - k
  {
    if k == |Table| then None
    else if Matches(Table[k], verb, parts) then Some(Table[k])
    else LookupFrom(k + 1, verb, parts)
  }

  predicate IsReaderHandler(h: Handler)
  {
    h == GetDevices || h == GetAlerts || h == GetTrafficHistory
  }

  predicate IsAdminHandler(h: Handler)
  {
    h == AddDevice || h == GetUsers || h == DeleteDevice || h == DeleteUser || h == CreateUser
  }

  /** Where each handler is registered. */
  function Slot(h: Handler): nat
  {
    match h
    case LoginHandler => 0
    case GetDevices => 1
    case GetAlerts => 2
    case GetTrafficHistory => 3
    case AddDevice => 4
    case GetUsers => 5
    case DeleteDevice => 6
    case DeleteUser => 7
    case CreateUser => 8
  }

  /** Every handler is registered exactly once. */
  lemma HandlersRegisteredOnce()
    ensures forall h: Handler :: Slot(h) < |Table| && Table[Slot(h)].handler == h
    ensures forall i :: 0 <= i < |Table| ==> Slot(Table[i].handler) == i
  {
  }

  /** The middleware each handler is meant to sit behind: none for login,
      `verifyToken` for the three readers, `verifyToken` then `verifyAdmin`
      for the five administrative operations. */
  function IntendedChain(h: Handler): seq<Middleware>
  {
    if h == LoginHandler then [] else if IsReaderHandler(h) then Reader else Admin
  }

  /** Every route sits behind exactly the middleware its handler is meant
      to; in particular POST /login is the only route without `verifyToken`,
      and `verifyToken` always runs first. */
  lemma AccessTable()
    ensures forall i :: 0 <= i < |Table| ==> Table[i].chain == IntendedChain(Table[i].handler)
    ensures forall i :: 0 <= i < |Table| ==> (Table[i].chain == [] <==> Table[i].handler == LoginHandler)
    ensures forall i :: 0 <= i < |Table| && Table[i].chain != [] ==> Table[i].chain[0] == VerifyTokenStep
  {
    forall i | 0 <= i < |Table|
      ensures Table[i].chain == IntendedChain(Table[i].handler)
    {
    }
  }

  /** Two routes that differ in method, in length, or in a literal segment at
      the same place never answer the same request. */
  predicate Apart(a: Route, b: Route)
  {
    || a.verb != b.verb
    || |a.path| != |b.path|
    || exists i :: 0 <= i < |a.path| && i < |b.path| && a.path[i].Lit? && b.path[i].Lit? && a.path[i].name != b.path[i].name
  }

  lemma ApartNeverBothMatch(a: Route, b: Route, verb: Verb, parts: seq<string>)
    requires Apart(a, b)
    ensures !(Matches(a, verb, parts) && Matches(b, verb, parts))
  {
    if a.verb == b.verb && |a.path| == |b.path| && |parts| == |a.path| {
      var i :| 0 <= i < |a.path| && i < |b.path| && a.path[i].Lit? && b.path[i].Lit? && a.path[i].name != b.path[i].name;
      assert !(SegmentMatches(a.path[i], parts[i]) && SegmentMatches(b.path[i], parts[i]));
    }
  }

  /** No request matches two routes, so registration order does not matter
      and every request reaches at most one handler. */
  lemma RoutesDisjoint(verb: Verb, parts: seq<string>)
    ensures forall i, j :: 0 <= i < j < |Table| ==> !(Matches(Table[i], verb, parts) && Matches(Table[j], verb, parts))
  {
    forall i, j | 0 <= i < j < |Table|
      ensures !(Matches(Table[i], verb, parts) && Matches(Table[j], verb, parts))
    {
      assert Apart(Table[i], Table[j]) by {
        assert Table[i].path[0].Lit? && Table[j].path[0].Lit?;
      }
      ApartNeverBothMatch(Table[i], Table[j], verb, parts);
    }
  }

  // ------------------------------------------------------ running a chain

  /** The middleware chain run on a request with header `header`, `user` being
      what is attached to the request so far: each step either answers or
      passes on to the next, and the handler runs when all have passed. */
  function RunChain(chain: seq<Middleware>, user: Option<Claims>, header: Option<string>,
                    verify: string -> Option<Claims>): Outcome
  {
    if chain == [] then Next
    else
      match chain[0]
      case VerifyTokenStep =>
        var o := TokenCheck(header, verify);
        if o != Next then o
        else RunChain(chain[1..], verify(BearerToken(header).value), header, verify)
      case VerifyAdminStep =>
        var o := AdminCheck(user);
        if o != Next then o else RunChain(chain[1..], user, header, verify)
  }

  /** The three reader routes let a request through exactly when its token
      verifies. */
  lemma ReaderAccess(header: Option<string>, verify: string -> Option<Claims>)
    ensures RunChain(Reader, None, header, verify) == TokenCheck(header, verify)
  {
  }

  /** The administrative routes let a request through exactly when its token
      verifies to a payload whose role is "admin"; `verifyAdmin` always sees
      the payload `verifyToken` attached, never an earlier value. */
  lemma AdminAccess(user: Option<Claims>, header: Option<string>, verify: string -> Option<Claims>)
    ensures RunChain(Admin, user, header, verify) == Next <==>
      && BearerToken(header).Some?
      && verify(BearerToken(header).value).Some?
      && verify(BearerToken(header).value).value.role == "admin"
    ensures BearerToken(header).None? ==> RunChain(Admin, user, header, verify) == NoToken
  {
    assert Admin[1..] == [VerifyAdminStep];
    if TokenCheck(header, verify) == Next {
      var c := verify(BearerToken(header).value);
      assert RunChain([VerifyAdminStep], c, header, verify) == AdminCheck(c);
    }
  }

  /** Each administrative handler is registered behind the admin chain. */
  lemma AdminRouteChain(i: nat)
    requires i < |Table| && IsAdminHandler(Table[i].handler)
    ensures Table[i].chain == Admin
  {
  }

  /** From login to an administrative request: when the JWT library verifies
      what it signed, an administrator who logs in and sends the token as
      "Bearer <token>" passes the middleware of every administrative route. */
  lemma AdminLoginGrantsAccess(
    users: seq<Doc<User>>, creds: Credentials, sign: Claims -> string, verify: string -> Option<Claims>,
    now: int, i: nat)
    requires forall c :: verify(sign(c)) == Some(c)
    requires forall c :: sign(c) != "" && ' ' !in sign(c)
    requires Login(users, creds, sign, now).status == 200
    requires exists u :: u in users && u.fields.username == creds.username && u.fields.role == "admin"
    requires DistinctUsernames(users)
    requires i < |Table| && IsAdminHandler(Table[i].handler)
    ensures RunChain(Table[i].chain, None, Some("Bearer " + Login(users, creds, sign, now).token.value), verify) == Next
  {
    var reply := Login(users, creds, sign, now);
    var admin :| admin in users && admin.fields.username == creds.username && admin.fields.role == "admin";
    FindByUsernameUnique(users, admin);
    assert reply == Welcome(admin, sign, now);
    var token := sign(TokenClaims(admin, now));
    assert verify(token) == Some(TokenClaims(admin, now));
    BearerTokenOf("Bearer", token);
    assert "Bearer" + " " + token == "Bearer " + token;
    AdminRouteChain(i);
    AdminAccess(None, Some("Bearer " + token), verify);
  }
}
