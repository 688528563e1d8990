/**
 * The two request guards: `verifyToken`, which turns an Authorization header
 * into the requesting user or a 401, and `authorize(...roles)`, which lets a
 * request through only for the listed roles. Signature checking is the
 * abstract `verify` oracle: it yields the id a token names, or nothing when
 * the token is forged, malformed or expired.
 */
module AuthMiddleware {
  import opened Wrappers
  import opened Http
  import opened Text
  import opened Persistence
  import opened UserModel

  /** `header.split(' ')[1]`: the second space-separated piece, if there is one. */
  function BearerToken(header: string): Option<string> {
    var pieces := Split(header, ' ');
    if |pieces| >= 2 then Some(pieces[1]) else None
  }

  /** `jwt.verify(token, secret)`: an absent or empty token fails before any
      signature check; any other token is whatever the oracle says. */
  function JwtVerify(verify: string -> Option<ObjectId>, token: Option<string>): (r: Option<ObjectId>)
    ensures r.Some? ==> token.Some? && token.value != ""
  {
    if token.None? || token.value == "" then None else verify(token.value)
  }

  /** The header carries a bearer credential: it is present, non-empty and
      starts with `Bearer` (no space required after it). */
  predicate BearerHeader(authorization: Option<string>) {
    authorization.Some? && authorization.value != "" && StartsWith(authorization.value, "Bearer")
  }

  /** The id a bearer header's token names, if the token verifies. */
  function Decoded(authorization: Option<string>, verify: string -> Option<ObjectId>): Option<ObjectId>
    requires BearerHeader(authorization)
  {
    JwtVerify(verify, BearerToken(authorization.value))
  }

  /** `verifyToken(req, res, next)`. `sent` lists the responses sent, `nextCalls`
      counts the calls of `next`, and `user` is `req.user` when `next` is called. */
  method VerifyToken(authorization: Option<string>, verify: string -> Option<ObjectId>,
                     users: map<ObjectId, User>)
    returns (user: Option<PublicUser>, sent: seq<Response>, nextCalls: nat)
    ensures |sent| + nextCalls == 1
    ensures !BearerHeader(authorization) ==>
      sent == [Response(StatusUnauthorized, "Not authorized, no token")]
    ensures BearerHeader(authorization) && Decoded(authorization, verify).None? ==>
      sent == [Response(StatusUnauthorized, "Not authorized, token failed")]
    ensures (BearerHeader(authorization) && Decoded(authorization, verify).Some?
      && Decoded(authorization, verify).value !in users) ==>
      sent == [Response(StatusUnauthorized, "User not found")]
    ensures nextCalls == 1 <==>
      BearerHeader(authorization) && Decoded(authorization, verify).Some?
      && Decoded(authorization, verify).value in users
    ensures nextCalls == 1 ==>
      var id := Decoded(authorization, verify).value;
      user == Some(WithoutPassword(id, users[id]))
  {
    user, sent, nextCalls := None, [], 0;
    var token: Option<string> := None;
    if authorization.Some? && authorization.value != "" && StartsWith(authorization.value, "Bearer") {
      token := BearerToken(authorization.value);
      var decoded := JwtVerify(verify, token);
      if decoded.None? {
        sent := sent + [Response(StatusUnauthorized, "Not authorized, token failed")];
        return;
      }
      if decoded.value !in users {
        sent := sent + [Response(StatusUnauthorized, "User not found")];
        return;
      }
      user := Some(WithoutPassword(decoded.value, users[decoded.value]));
      nextCalls := nextCalls + 1;
    }
    if token.None? || token.value == "" {
      sent := sent + [Response(StatusUnauthorized, "Not authorized, no token")];
    }
  }

  /** The token of `Bearer <t>` is `t`, for a token without spaces. */
  lemma BearerTokenOf(t: string)
    requires ' ' !in t
    ensures BearerToken("Bearer " + t) == Some(t)
  {
    assert "Bearer " + t == "Bearer" + [' '] + t;
    SplitAtFirstSeparator("Bearer", ' ', t);
    SplitWithoutSeparator(t, ' ');
  }

  /** A header `Bearer` with nothing after it passes the prefix check but has no
      token, so it fails verification rather than counting as "no token". */
  lemma BareBearerFails(verify: string -> Option<ObjectId>)
    ensures BearerHeader(Some("Bearer"))
    ensures Decoded(Some("Bearer"), verify).None?
  {
    SplitWithoutSeparator("Bearer", ' ');
  }

  /** The prefix check has no space in it: `Bearerxyz t` is accepted as a bearer header. */
  lemma PrefixWithoutSpace(t: string)
    requires ' ' !in t
    ensures BearerHeader(Some("Bearerxyz " + t))
    ensures BearerToken("Bearerxyz " + t) == Some(t)
  {
    assert "Bearerxyz " + t == "Bearerxyz" + [' '] + t;
    SplitAtFirstSeparator("Bearerxyz", ' ', t);
    SplitWithoutSeparator(t, ' ');
  }

  /** The outcome of a role guard. */
  datatype Gate = Pass | Deny(response: Response)

  function RoleMessage(role: string): string {
    "User role '" + role + "' is not authorized to access this route"
  }

  /** `authorize(...roles)` applied to `req.user`: pass exactly for a listed role,
      else 403 with a message naming the role. */
  function Authorize(roles: seq<string>, user: PublicUser): (r: Gate)
    ensures r.Pass? <==> user.role in roles
    ensures r.Deny? ==> r.response.status == StatusForbidden && Includes(r.response.message, user.role)
  {
    if user.role in roles then Pass
    else
      IncludesMiddle("User role '", user.role, "' is not authorized to access this route");
      Deny(Response(StatusForbidden, RoleMessage(user.role)))
  }
}
