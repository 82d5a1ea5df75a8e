/** The bearer-token middleware that runs before every protected route
    (backend/src/middleware/auth.js). */
module Middleware {
  import opened Common
  import opened Text
  import opened Store

  /** The claims a token carries, `{ userId, email }`. */
  datatype Claims = Claims(userId: Id, email: string)

  /** What the middleware stores in `req.user`. */
  datatype AuthUser = AuthUser(id: Id, email: string)

  /** The token library with the server's secret: `sign` issues a token for
      some claims, `verify` gives the claims back or fails (bad signature,
      malformed, expired). */
  datatype Jwt = Jwt(sign: Claims -> string, verify: string -> Option<Claims>)

  /** What the model relies on from the token library: a token it issued
      verifies to the claims it was issued for, and is one word (the
      compact serialisation has no spaces). */
  ghost predicate JwtSound(jwt: Jwt) {
    forall c :: jwt.verify(jwt.sign(c)) == Some(c) && ' ' !in jwt.sign(c)
  }

  /** How the middleware ends: it calls `next()` once with the caller
      established, or it answers the request itself. */
  datatype GuardOutcome = Next(user: AuthUser) | Reject(status: nat, error: string)

  const BearerPrefix: string := "Bearer "

  /** A header that passes the prefix test splits into "Bearer" and then the
      fields of what follows the prefix. */
  lemma BearerSplit(header: string)
    requires StartsWith(header, BearerPrefix)
    ensures Split(header, ' ') == ["Bearer"] + Split(header[|BearerPrefix|..], ' ')
  {
    assert header == "Bearer" + [' '] + header[|BearerPrefix|..];
    SplitAfterField("Bearer", ' ', header[|BearerPrefix|..]);
  }

  /** `header.split(" ")[1]`: the text right after "Bearer ", up to the next
      space or the end of the header. */
  function BearerToken(header: string): (token: string)
    requires StartsWith(header, BearerPrefix)
    ensures ' ' !in token
    ensures |BearerPrefix| + |token| <= |header|
    ensures token == header[|BearerPrefix|..|BearerPrefix| + |token|]
    ensures |BearerPrefix| + |token| == |header| || header[|BearerPrefix| + |token|] == ' '
  {
    BearerSplit(header);
    SplitFirstField(header[|BearerPrefix|..], ' ');
    Split(header, ' ')[1]
  }

  /** The middleware's decision for an `Authorization` header (absent when
      `None`), given the token verifier. */
  function Guard(header: Option<string>, verify: string -> Option<Claims>): (r: GuardOutcome)
    ensures r.Reject? ==> r.status == 401
    ensures r == Reject(401, "Missing token") <==> header.None? || !StartsWith(header.value, BearerPrefix)
    ensures r == Reject(401, "Invalid or expired token")
            <==> header.Some? && StartsWith(header.value, BearerPrefix) && verify(BearerToken(header.value)).None?
    ensures r.Next? ==> header.Some? && StartsWith(header.value, BearerPrefix)
                        && verify(BearerToken(header.value)) == Some(Claims(r.user.id, r.user.email))
    ensures header.Some? && StartsWith(header.value, BearerPrefix) && verify(BearerToken(header.value)).Some? ==>
              r == Next(AuthUser(verify(BearerToken(header.value)).value.userId, verify(BearerToken(header.value)).value.email))
  {
    if header.None? || !StartsWith(header.value, BearerPrefix) then Reject(401, "Missing token")
    else
      match verify(BearerToken(header.value))
      case None => Reject(401, "Invalid or expired token")
      case Some(payload) => Next(AuthUser(payload.userId, payload.email))
  }

  /** A token the server issued, sent as "Bearer <token>" (with or without
      further space-separated words after it), lets the request through as
      the user it was issued for. */
  lemma IssuedTokenAccepted(jwt: Jwt, c: Claims, trailer: string)
    requires JwtSound(jwt)
    ensures Guard(Some(BearerPrefix + jwt.sign(c)), jwt.verify) == Next(AuthUser(c.userId, c.email))
    ensures Guard(Some(BearerPrefix + jwt.sign(c) + " " + trailer), jwt.verify) == Next(AuthUser(c.userId, c.email))
  {
    var t := jwt.sign(c);
    var h1 := BearerPrefix + t;
    var h2 := BearerPrefix + t + " " + trailer;
    assert h1[..|BearerPrefix|] == BearerPrefix;
    assert h2[..|BearerPrefix|] == BearerPrefix;
    assert h1[|BearerPrefix|..] == t;
    SplitWithoutSeparator(t, ' ');
    BearerSplit(h1);
    assert h2[|BearerPrefix|..] == t + [' '] + trailer;
    SplitAfterField(t, ' ', trailer);
    BearerSplit(h2);
  }

  /** The parts of the incoming request the middleware touches. */
  class Request {
    const authorization: Option<string>
    var user: Option<AuthUser>

    constructor (authorization: Option<string>)
      ensures this.authorization == authorization && user == None
    {
      this.authorization := authorization;
      user := None;
    }
  }

  /** `authGuard(req, res, next)`: on success sets `req.user` and continues
      with `next()` (the `Next` outcome); otherwise answers with the
      rejection and leaves `req.user` as it was. */
  method AuthGuard(req: Request, verify: string -> Option<Claims>) returns (outcome: GuardOutcome)
    modifies req
    ensures outcome == Guard(req.authorization, verify)
    ensures outcome.Next? ==> req.user == Some(outcome.user)
    ensures outcome.Reject? ==> req.user == old(req.user)
  {
    var header := req.authorization;
    if header.None? || !StartsWith(header.value, BearerPrefix) {
      return Reject(401, "Missing token");
    }
    var token := BearerToken(header.value);
    var payload := verify(token);
    if payload.None? {
      return Reject(401, "Invalid or expired token");
    }
    req.user := Some(AuthUser(payload.value.userId, payload.value.email));
    outcome := Next(req.user.value);
  }
}
