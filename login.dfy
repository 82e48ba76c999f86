/** The login handler of backend/controllers/Login.js: a lookup by username
    and a decision on the password, with no change to the store.  Signing
    the token is the JWT library's work and is the parameter `sign`. */
module LoginController {
  import opened Models
  import opened Database

  /** The payload of an issued token: `{ id, role }` as the handler passes
      it, with the issue time and the expiry that `expiresIn: "1d"` adds. */
  datatype Claims = Claims(id: Id, role: string, issuedAt: int, expiresAt: int)

  /** One day, in the seconds that token times are counted in. */
  const OneDay := 86400

  datatype Credentials = Credentials(username: string, password: string)

  /** The `data` of a successful login: the user's name and role only. */
  datatype Profile = Profile(username: string, role: string)

  datatype LoginReply = LoginReply(
    status: int,
    success: bool,
    message: string,
    token: Option<string>,
    data: Option<Profile>)

  const MissingFields := LoginReply(400, false, "Missing username or password", None, None)
  const InvalidCredentials := LoginReply(401, false, "Invalid credentials", None, None)

  /** The claims signed for a user who logs in at `now`. */
  function TokenClaims(u: Doc<User>, now: int): (c: Claims)
    ensures c.id == u.id && c.role == u.fields.role
    ensures c.issuedAt == now && c.expiresAt - c.issuedAt == OneDay
  {
    Claims(u.id, u.fields.role, now, now + OneDay)
  }

  /** The 200 answer for `u`: the token, and a profile without the password. */
  function Welcome(u: Doc<User>, sign: Claims -> string, now: int): LoginReply
  {
    LoginReply(200, true, "Login successful", Some(sign(TokenClaims(u, now))),
      Some(Profile(u.fields.username, u.fields.role)))
  }

  /** `login`.  An empty or missing field answers 400 before any lookup; the
      first user with the name is then compared by plain string equality,
      and an unknown name and a wrong password both answer the same 401. */
  function Login(users: seq<Doc<User>>, creds: Credentials, sign: Claims -> string, now: int): (r: LoginReply)
    ensures creds.username == "" || creds.password == "" ==> r == MissingFields
    ensures r == MissingFields || r == InvalidCredentials || r.status == 200
    ensures r.status == 200 ==>
      exists u :: u in users && u.fields.username == creds.username &&
        u.fields.password == creds.password && r == Welcome(u, sign, now)
  {
    if creds.username == "" || creds.password == "" then MissingFields
    else
      var user := FindByUsername(users, creds.username);
      if user.None? || user.value.fields.password != creds.password then InvalidCredentials
      else Welcome(user.value, sign, now)
  }

  /** With distinct usernames, a login succeeds exactly when both fields are
      given and some user has that name and that password. */
  lemma LoginSucceedsIff(users: seq<Doc<User>>, creds: Credentials, sign: Claims -> string, now: int)
    requires DistinctUsernames(users)
    ensures Login(users, creds, sign, now).status == 200 <==>
      creds.username != "" && creds.password != "" &&
      exists u :: u in users && u.fields.username == creds.username && u.fields.password == creds.password
  {
    if creds.username != "" && creds.password != "" {
      if u :| u in users && u.fields.username == creds.username && u.fields.password == creds.password {
        FindByUsernameUnique(users, u);
      }
    }
  }

  /** An unknown username and a wrong password give the identical answer, so
      a caller cannot tell which of the two it was. */
  lemma UnknownUserLikeWrongPassword(
    noSuchUser: seq<Doc<User>>, wrongPassword: seq<Doc<User>>, creds: Credentials, sign: Claims -> string, now: int)
    requires creds.username != "" && creds.password != ""
    requires forall u :: u in noSuchUser ==> u.fields.username != creds.username
    requires FindByUsername(wrongPassword, creds.username).Some?
    requires FindByUsername(wrongPassword, creds.username).value.fields.password != creds.password
    ensures Login(noSuchUser, creds, sign, now) == Login(wrongPassword, creds, sign, now) == InvalidCredentials
  {
  }

  /** A missing field is answered without looking at the users at all. */
  lemma MissingFieldsIgnoreUsers(a: seq<Doc<User>>, b: seq<Doc<User>>, creds: Credentials, sign: Claims -> string, now: int)
    requires creds.username == "" || creds.password == ""
    ensures Login(a, creds, sign, now) == Login(b, creds, sign, now) == MissingFields
  {
  }
}
