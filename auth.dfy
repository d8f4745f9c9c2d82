/**
 * Bearer-token authentication: how the Authorization header is read and when
 * a session row resolves to a user. The gate that applies it to every
 * protected route is Backend.Store.Serve.
 */
module Auth {
  import opened Common
  import opened Schema
  import opened Text

  const BearerPrefix: string := "Bearer "

  /** The token of an Authorization header: what follows the exact, case-sensitive "Bearer ". */
  function BearerToken(header: Option<string>): (token: Option<string>)
    ensures token.Some? <==> header.Some? && StartsWith(header.value, BearerPrefix)
    ensures token.Some? ==> BearerPrefix + token.value == header.value
  {
    if header.Some? && header.value != "" && StartsWith(header.value, BearerPrefix) then
      assert header.value == header.value[..7] + header.value[7..];
      Some(header.value[7..])
    else None
  }

  lemma BearerRoundTrip(token: string)
    ensures BearerToken(Some(BearerPrefix + token)) == Some(token)
  {
    var h := BearerPrefix + token;
    assert h[..7] == BearerPrefix;
    assert h[7..] == token;
  }

  /**
   * The session lookup of get_current_user: a session with exactly this
   * token, expiring strictly after now, whose user exists and is active.
   */
  predicate Authenticates(users: map<int, User>, sessions: map<string, Session>, token: string, now: Time) {
    && token in sessions
    && sessions[token].expiresAt > now
    && sessions[token].userId in users
    && users[sessions[token].userId].isActive
  }

  /**
   * get_current_user: the user behind the bearer token, reduced to id,
   * username, email and full name; every failure gives None.
   */
  function CurrentUser(users: map<int, User>, sessions: map<string, Session>, header: Option<string>, now: Time): (r: Option<UserInfo>)
    ensures r.Some? <==> BearerToken(header).Some? && Authenticates(users, sessions, BearerToken(header).value, now)
    ensures r.Some? ==> var uid := sessions[BearerToken(header).value].userId;
                        uid in users && r.value == InfoOf(uid, users[uid])
  {
    match BearerToken(header)
    case None => None
    case Some(token) =>
      if Authenticates(users, sessions, token, now) then
        var uid := sessions[token].userId;
        Some(InfoOf(uid, users[uid]))
      else None
  }

  /** A live session authenticates its holder until, but not at, its expiry time. */
  lemma SessionValidUntilExpiry(users: map<int, User>, sessions: map<string, Session>, token: string, now: Time)
    requires token in sessions && sessions[token].userId in users && users[sessions[token].userId].isActive
    ensures now < sessions[token].expiresAt ==>
              CurrentUser(users, sessions, Some(BearerPrefix + token), now)
                == Some(InfoOf(sessions[token].userId, users[sessions[token].userId]))
    ensures now >= sessions[token].expiresAt ==> CurrentUser(users, sessions, Some(BearerPrefix + token), now) == None
  {
    BearerRoundTrip(token);
  }

  /** A token with no session row (never issued, or logged out) authenticates no one. */
  lemma UnknownTokenRejected(users: map<int, User>, sessions: map<string, Session>, token: string, now: Time)
    requires token !in sessions
    ensures CurrentUser(users, sessions, Some(BearerPrefix + token), now) == None
  {
    BearerRoundTrip(token);
  }

  /** No header of any shape resolves to a deactivated user. */
  lemma InactiveUserLockedOut(users: map<int, User>, sessions: map<string, Session>, header: Option<string>, now: Time, uid: int)
    requires uid in users && !users[uid].isActive
    ensures CurrentUser(users, sessions, header, now) == None || CurrentUser(users, sessions, header, now).value.id != uid
  {
  }
}
