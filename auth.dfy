/** The middleware of backend/middleware/auth.js.  `verifyToken` reads a
    bearer token from the `Authorization` header (the header shape of
    section 2.1 of RFC 6750, though the scheme word is not checked) and
    attaches the verified payload to the request; `verifyAdmin` lets only
    administrators through.  Checking a token's signature and expiry is the
    JWT library's work and is the parameter `verify`: `None` when it
    rejects the token. */
module Auth {
  import opened Models
  import opened Text
  import opened LoginController

  /** `req.headers.authorization?.split(" ")[1]`, kept only when it is a
      non-empty string: the second space-separated field of the header. */
  function BearerToken(header: Option<string>): (t: Option<string>)
    ensures header.None? ==> t.None?
    ensures t.Some? ==> t.value != "" && ' ' !in t.value
  {
    if header.None? then None
    else
      var fields := Split(header.value, ' ');
      if |fields| >= 2 && fields[1] != "" then Some(fields[1]) else None
  }

  /** Any scheme word without spaces, one space and a token without spaces:
      the token is what is read, whatever the word is. */
  lemma BearerTokenOf(scheme: string, token: string)
    requires ' ' !in scheme && ' ' !in token && token != ""
    ensures BearerToken(Some(scheme + " " + token)) == Some(token)
  {
    SplitAfterWord(scheme, ' ', token);
    assert scheme + " " + token == scheme + [' '] + token;
    SplitWithoutSeparator(token, ' ');
  }

  /** A header that is a single word carries no token. */
  lemma NoTokenInOneWord(header: string)
    requires ' ' !in header
    ensures BearerToken(Some(header)).None?
  {
    SplitWithoutSeparator(header, ' ');
  }

  /** What a middleware does: call `next`, or answer with a status and a message. */
  datatype Outcome = Next | Respond(status: int, message: string)

  const NoToken := Respond(401, "Access Denied: No Token Provided")
  const InvalidToken := Respond(403, "Invalid Token")
  const AdminsOnly := Respond(403, "Access Denied: Admins Only")

  /** The decision of `verifyToken`: 401 without a token, 403 when the token
      does not verify, `next` otherwise. */
  function TokenCheck(header: Option<string>, verify: string -> Option<Claims>): (o: Outcome)
    ensures o == Next <==> BearerToken(header).Some? && verify(BearerToken(header).value).Some?
    ensures BearerToken(header).None? ==> o == NoToken
    ensures o != Next && BearerToken(header).Some? ==> o == InvalidToken
  {
    var token := BearerToken(header);
    if token.None? then NoToken
    else if verify(token.value).None? then InvalidToken
    else Next
  }

  /** A request as the middleware sees it: its `Authorization` header and
      the `user` the middleware may attach. */
  class Request {
    const authorization: Option<string>
    var user: Option<Claims>

    constructor (authorization: Option<string>)
      ensures this.authorization == authorization && user == None
    {
      this.authorization := authorization;
      user := None;
    }
  }

  /** `verifyToken`: on success `req.user` becomes the verified payload and
      `next` is called once; otherwise the request is answered and left as
      it was. */
  method VerifyToken(req: Request, verify: string -> Option<Claims>) returns (o: Outcome)
    modifies req
    ensures o == TokenCheck(req.authorization, verify)
    ensures o == Next ==> req.user == verify(BearerToken(req.authorization).value)
    ensures o != Next ==> req.user == old(req.user)
  {
    var token := BearerToken(req.authorization);
    if token.None? {
      return NoToken;
    }
    var verified := verify(token.value);
    if verified.None? {
      return InvalidToken;
    }
    req.user := verified;
    o := Next;
  }

  /** `verifyAdmin`: `next` exactly when a user is attached and its role is
      exactly "admin"; 403 otherwise. */
  function AdminCheck(user: Option<Claims>): (o: Outcome)
    ensures o == Next <==> user.Some? && user.value.role == "admin"
    ensures o != Next ==> o == AdminsOnly
  {
    if user.Some? && user.value.role == "admin" then Next else AdminsOnly
  }
}
