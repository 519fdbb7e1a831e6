/** The JWT middleware (router/middleware/jwt_auth.go): the bearer header
    check, token validation, and the claims it puts in the context before the
    handler runs. */
module JwtMiddleware {
  import opened Common
  import opened Pkg
  import opened GoStrings
  import opened Http

  const MissingHeader := "missing authorization header"
  const MalformedHeader := "invalid authorization header format"
  const InvalidTokenMessage := "invalid token"

  /** The header split on single spaces must have exactly two parts, the
      first of which lower-cases to "bearer"; the token is the second part.
      Comparing against "bearer" with an ASCII ToLower is exact: the only
      non-ASCII characters Go lower-cases to ASCII letters are U+212A, which
      becomes 'k', and U+0130, which becomes 'i', and neither letter occurs
      in "bearer". */
  function BearerToken(header: string): (r: Option<string>)
    ensures Count(header, ' ') != 1 ==> r.None?
  {
    var parts := Split(header, ' ');
    if |parts| != 2 || Lower(parts[0]) != "bearer" then None else Some(parts[1])
  }

  /** An accepted header is a six-letter scheme spelling "bearer" in any
      case, one space, and a token without spaces, and the token is that
      last part. */
  lemma {:induction false} AcceptedHeaderShape(header: string)
    ensures BearerToken(header).Some? ==>
      var t := BearerToken(header).value;
      && |header| == 7 + |t|
      && Lower(header[..6]) == "bearer"
      && header[6] == ' '
      && header[7..] == t
      && ' ' !in t
      && forall i :: 0 <= i < |header| && i != 6 ==> header[i] != ' '
  {
    if BearerToken(header).Some? {
      var parts := Split(header, ' ');
      JoinSplit(header, ' ');
      SplitPiecesHaveNoSeparator(header, ' ');
      assert header == parts[0] + [' '] + parts[1];
      assert |parts[0]| == 6;
      assert header[..6] == parts[0];
      assert header[7..] == parts[1];
      forall i | 0 <= i < |header| && i != 6 ensures header[i] != ' ' {
        if i < 6 {
          assert Lower(header[..6])[i] == LowerChar(header[i]);
        } else {
          assert header[i] == parts[1][i - 7];
        }
      }
    }
  }

  /** Conversely every such header is accepted, with that token. */
  lemma BearerHeaderAccepted(scheme: string, t: string)
    requires Lower(scheme) == "bearer" && ' ' !in t
    ensures BearerToken(scheme + " " + t) == Some(t)
  {
    assert ' ' !in scheme by {
      forall i | 0 <= i < |scheme| ensures scheme[i] != ' ' {
        assert Lower(scheme)[i] == LowerChar(scheme[i]);
      }
    }
    SplitAfterPrefix(scheme, ' ', t);
    SplitWithoutSeparator(t, ' ');
  }

  /** Two spaces or a third word are refused. */
  lemma ExtraSpacesRefused(scheme: string, t: string)
    requires ' ' in t
    ensures BearerToken(scheme + " " + t).None?
  {
    var h := scheme + " " + t;
    var j :| 0 <= j < |t| && t[j] == ' ';
    assert h[|scheme|] == ' ' && h[|scheme| + 1 + j] == ' ';
    AcceptedHeaderShape(h);
  }

  /** The context the handler sees: the four claims, everything else as it was. */
  function WithClaims(ctx: Context, c: Claims): (next: Context)
    ensures next.Keys == ctx.Keys + {UserIdKey, TenantIdKey, EmailKey, RoleKey}
    ensures next[UserIdKey] == c.userId && next[TenantIdKey] == c.tenantId
    ensures next[EmailKey] == c.email && next[RoleKey] == c.role
    ensures forall k :: k in ctx && !k.UserIdKey? && !k.TenantIdKey? && !k.EmailKey? && !k.RoleKey? ==>
      next[k] == ctx[k]
  {
    ctx[UserIdKey := c.userId][TenantIdKey := c.tenantId][EmailKey := c.email][RoleKey := c.role]
  }

  /** Either the request is refused with a status and message and the
      handler is not called, or the handler runs on the given context. */
  datatype Gate = Reject(status: int, message: string) | Next(ctx: Context)

  function Authenticate(header: string, ctx: Context, jwt: JwtService, now: int): (g: Gate)
    ensures g.Reject? ==> g.status == StatusUnauthorized
    ensures header == "" ==> g == Reject(StatusUnauthorized, MissingHeader)
    ensures header != "" && BearerToken(header).None? ==> g == Reject(StatusUnauthorized, MalformedHeader)
    ensures BearerToken(header).Some? && jwt.validate(BearerToken(header).value, now).None? ==>
      g == Reject(StatusUnauthorized, InvalidTokenMessage)
    ensures g.Next? <==> BearerToken(header).Some? && jwt.validate(BearerToken(header).value, now).Some?
    ensures g.Next? ==> g.ctx == WithClaims(ctx, jwt.validate(BearerToken(header).value, now).value)
  {
    if header == "" then Reject(StatusUnauthorized, MissingHeader)
    else match BearerToken(header)
      case None => Reject(StatusUnauthorized, MalformedHeader)
      case Some(token) =>
        match jwt.validate(token, now)
        case None => Reject(StatusUnauthorized, InvalidTokenMessage)
        case Some(claims) => Next(WithClaims(ctx, claims))
  }

  /** After authentication the controllers' guards find exactly the token's
      user and tenant, and refuse only when a claim is empty. */
  lemma AuthenticatedIds(header: string, ctx: Context, jwt: JwtService, now: int)
    requires Authenticate(header, ctx, jwt, now).Next?
    ensures var c := jwt.validate(BearerToken(header).value, now).value;
      var next := Authenticate(header, ctx, jwt, now).ctx;
      && (ContextId(next, UserIdKey).Some? <==> c.userId != "")
      && (c.userId != "" ==> ContextId(next, UserIdKey) == Some(c.userId))
      && (ContextId(next, TenantIdKey).Some? <==> c.tenantId != "")
      && (c.tenantId != "" ==> ContextId(next, TenantIdKey) == Some(c.tenantId))
  {
  }
}
