/**
 * The authentication middleware (backend/src/middleware/auth.middleware.ts):
 * `auth` takes the bearer token from the Authorization header, has it
 * verified, looks up the user it names and attaches that user to the
 * request; `requireRole` lets a request through only for the given roles.
 * Token verification is an oracle `verify` (None when it throws) and the
 * user table is a map from id to the user's public fields.
 */
module AuthMiddleware {
  import opened Wrappers
  import opened Model

  /** The authentication scheme and the single space that must open the header. */
  const BearerPrefix: string := "Bearer "

  const NotAuthorizedMessage: string := "No autorizado"
  const InvalidTokenMessage: string := "Token inválido"

  predicate StartsWith(s: string, prefix: string) {
    |prefix| <= |s| && s[..|prefix|] == prefix
  }

  /**
   * The token of an `Authorization: Bearer <token>` header: the header with
   * the seven-character prefix cut off. The scheme is matched exactly, with
   * its case and one space.
   */
  function BearerToken(header: Option<string>): (token: Option<string>)
    ensures token.Some? <==> header.Some? && StartsWith(header.value, BearerPrefix)
    ensures token.Some? ==> header.value == BearerPrefix + token.value
  {
    if header.Some? && StartsWith(header.value, BearerPrefix) then
      var t := header.value[|BearerPrefix|..];
      assert header.value == header.value[..|BearerPrefix|] + t;
      Some(t)
    else
      None
  }

  /** Any token sent under the bearer scheme is the one handed to verification. */
  lemma BearerTokenOf(token: string)
    ensures BearerToken(Some(BearerPrefix + token)) == Some(token)
  {
  }

  /** The scheme name is compared case-sensitively: a lower-case `bearer` is refused. */
  lemma LowerCaseSchemeRefused(token: string)
    ensures BearerToken(Some("bearer " + token)) == None
  {
  }

  /**
   * The decision `auth` takes for a request: the user the request is made
   * on behalf of, or the 401 it is answered with.
   */
  function Authenticate(header: Option<string>, verify: string -> Option<UserId>, users: map<UserId, AuthUser>)
    : (r: Result<AuthUser, HttpError>)
    ensures r.Success? <==>
      exists token :: header == Some(BearerPrefix + token) && verify(token).Some? && verify(token).value in users
    ensures r.Success? ==>
      exists token :: header == Some(BearerPrefix + token) && verify(token).Some? && r.value == users[verify(token).value]
    ensures r.Failure? ==> StatusCode(r.error) == 401
    ensures r == Failure(Unauthorized(InvalidTokenMessage)) <==>
      exists token :: header == Some(BearerPrefix + token) && verify(token).None?
    ensures r.Failure? && r != Failure(Unauthorized(InvalidTokenMessage)) ==> r == Failure(Unauthorized(NotAuthorizedMessage))
  {
    var token := BearerToken(header);
    if token.None? then
      assert forall t :: header != Some(BearerPrefix + t) by {
        forall t ensures header != Some(BearerPrefix + t) {
          BearerTokenOf(t);
        }
      }
      Failure(Unauthorized(NotAuthorizedMessage))
    else
      var t := token.value;
      assert forall t' :: header == Some(BearerPrefix + t') ==> t' == t by {
        forall t' | header == Some(BearerPrefix + t') ensures t' == t {
          BearerTokenOf(t');
        }
      }
      match verify(t)
      case None => Failure(Unauthorized(InvalidTokenMessage))
      case Some(sub) =>
        if sub in users then Success(users[sub]) else Failure(Unauthorized(NotAuthorizedMessage))
  }

  /** `roles.includes(role)`. */
  function Includes(roles: seq<Role>, role: Role): (found: bool)
    ensures found <==> exists i :: 0 <= i < |roles| && roles[i] == role
  {
    if roles == [] then false
    else if roles[0] == role then true
    else Includes(roles[1..], role)
  }

  /**
   * One request passing through the middleware: the Authorization header it
   * arrived with, the user attached to it, the error response sent on it
   * (if any) and how many times the next handler was invoked.
   */
  class Exchange {
    const authorization: Option<string>
    var user: Option<AuthUser>
    var response: Option<HttpError>
    var nextCalls: nat

    constructor (authorization: Option<string>)
      ensures this.authorization == authorization
      ensures user == None && response == None && nextCalls == 0
    {
      this.authorization := authorization;
      user := None;
      response := None;
      nextCalls := 0;
    }

    /**
     * auth: on success `req.user` is the looked-up user and `next` is called
     * once; otherwise a 401 is sent and `next` is not called.
     */
    method Auth(verify: string -> Option<UserId>, users: map<UserId, AuthUser>)
      modifies this
      ensures Authenticate(authorization, verify, users).Success? ==>
        && user == Some(Authenticate(authorization, verify, users).value)
        && nextCalls == old(nextCalls) + 1
        && response == old(response)
      ensures Authenticate(authorization, verify, users).Failure? ==>
        && user == old(user)
        && nextCalls == old(nextCalls)
        && response == Some(Authenticate(authorization, verify, users).error)
    {
      var header := authorization;
      if !(header.Some? && StartsWith(header.value, BearerPrefix)) {
        response := Some(Unauthorized(NotAuthorizedMessage));
        return;
      }
      var token := header.value[|BearerPrefix|..];
      var payload := verify(token);
      if payload.None? {
        response := Some(Unauthorized(InvalidTokenMessage));
        return;
      }
      var userId := payload.value;
      if userId !in users {
        response := Some(Unauthorized(NotAuthorizedMessage));
        return;
      }
      user := Some(users[userId]);
      nextCalls := nextCalls + 1;
    }

    /**
     * requireRole(roles): a caller whose role is listed goes on to `next`;
     * anyone else is answered 403 and `next` is not called.
     */
    method RequireRole(roles: seq<Role>)
      requires user.Some?
      modifies this
      ensures user == old(user)
      ensures (exists i :: 0 <= i < |roles| && roles[i] == user.value.role) ==>
        nextCalls == old(nextCalls) + 1 && response == old(response)
      ensures (forall i :: 0 <= i < |roles| ==> roles[i] != user.value.role) ==>
        nextCalls == old(nextCalls) && response == Some(Forbidden)
    {
      if !Includes(roles, user.value.role) {
        response := Some(Forbidden);
        return;
      }
      nextCalls := nextCalls + 1;
    }
  }
}
