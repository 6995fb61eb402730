/** The `Authorization` header form of section 2.1 of RFC 6750, as both the
    server and the client write it: the case-sensitive scheme `Bearer`, one
    space, then the token. */
module Bearer {
  import opened Wrappers
  import opened Strings

  /** A stored token counts only when it is a non-empty string (JavaScript truthiness). */
  predicate HasToken(token: Option<string>)
  {
    token.Some? && token.value != ""
  }

  const Prefix: string := "Bearer "

  /** The header value a client sends for `token`. */
  function Credentials(token: string): (v: string)
    ensures StartsWith(v, Prefix) && v[|Prefix|..] == token
  {
    Prefix + token
  }
}

/** Server-side resolution of a request's bearer token to a live user
    (src/lib/auth.ts). Token verification is an oracle; the user table is
    the store's `id -> email` projection. */
module Auth {
  import opened Wrappers
  import opened Strings
  import Bearer

  /** The claims a verified token carries. */
  datatype Payload = Payload(userId: string, email: string)

  /** `verifyToken`: the decoded payload, or `None` for any verification
      failure (bad signature, expiry, malformed token). */
  type Verifier = string -> Option<Payload>

  /** The users the store holds: id to email. */
  type UserTable = map<string, string>

  datatype AuthUser = AuthUser(userId: string, email: string)

  /** The resolved user, with what was consulted on the way: the token handed
      to the verifier and the id looked up in the store. */
  datatype Resolution = Resolution(
    user: Option<AuthUser>,
    verified: Option<string>,
    lookedUp: Option<string>)

  /** `getUserFromRequest`, given the `authorization` header (`None` when absent). */
  function GetUserFromRequest(header: Option<string>, verify: Verifier, users: UserTable): (res: Resolution)
    // no bearer header: nothing is consulted
    ensures !(header.Some? && StartsWith(header.value, Bearer.Prefix)) ==>
              res == Resolution(None, None, None)
    // the verifier sees the header minus its first seven characters
    ensures header.Some? && StartsWith(header.value, Bearer.Prefix) ==>
              res.verified == Some(header.value[7..])
              && header.value == Bearer.Prefix + res.verified.value
    // a rejected token: no store lookup, no user
    ensures res.verified.Some? && verify(res.verified.value).None? ==>
              res.user.None? && res.lookedUp.None?
    // an accepted token: the payload's id is looked up, and the user exists iff stored
    ensures res.verified.Some? && verify(res.verified.value).Some? ==>
              var p := verify(res.verified.value).value;
              res.lookedUp == Some(p.userId)
              && (res.user.Some? <==> p.userId in users)
    // identity and email come from the stored record
    ensures res.user.Some? ==>
              res.lookedUp == Some(res.user.value.userId)
              && res.user.value.userId in users
              && res.user.value.email == users[res.user.value.userId]
  {
    if header.None? || !StartsWith(header.value, Bearer.Prefix) then
      Resolution(None, None, None)
    else
      var token := header.value[7..];
      match verify(token)
      case None => Resolution(None, Some(token), None)
      case Some(payload) =>
        var user := if payload.userId in users
                    then Some(AuthUser(payload.userId, users[payload.userId]))
                    else None;
        Resolution(user, Some(token), Some(payload.userId))
  }

  /** A header without the exact prefix resolves the same way whatever the
      verifier and the store hold: neither is consulted. */
  lemma NonBearerIgnoresOracles(header: Option<string>, v1: Verifier, u1: UserTable, v2: Verifier, u2: UserTable)
    requires header.None? || !StartsWith(header.value, Bearer.Prefix)
    ensures GetUserFromRequest(header, v1, u1) == GetUserFromRequest(header, v2, u2)
  {
  }

  /** The scheme is case-sensitive: a lower-case `bearer` is rejected. */
  lemma LowerCaseSchemeRejected(token: string, verify: Verifier, users: UserTable)
    ensures GetUserFromRequest(Some("bearer " + token), verify, users).user.None?
  {
    assert ("bearer " + token)[..7] == "bearer ";
  }

  /** The header a client builds with `Bearer.Credentials` hands exactly its
      token to the verifier; a verified token of a stored user resolves to that
      user with the stored email, whatever email the payload carries. */
  lemma {:induction false} ClientHeaderResolves(token: string, verify: Verifier, users: UserTable, p: Payload)
    requires verify(token) == Some(p)
    requires p.userId in users
    ensures GetUserFromRequest(Some(Bearer.Credentials(token)), verify, users)
            == Resolution(Some(AuthUser(p.userId, users[p.userId])), Some(token), Some(p.userId))
  {
    var h := Bearer.Credentials(token);
    assert h[7..] == token;
  }

  /** A deleted account's token stops working even though it still verifies. */
  lemma DeletedUserRejected(token: string, verify: Verifier, users: UserTable, p: Payload)
    requires verify(token) == Some(p)
    requires p.userId !in users
    ensures GetUserFromRequest(Some(Bearer.Credentials(token)), verify, users).user.None?
  {
    assert Bearer.Credentials(token)[7..] == token;
  }
}
