/** Users and login sessions: a user table keyed by user name, in which the
    root administrator cannot be deleted, and a session table keyed by token. */
module Auth {
  import opened Wrappers

  /** The root administrator's user name. */
  const ROOT := "nerv_admin"

  /** A stored user. Passwords are compared as stored. */
  datatype UserRecord = UserRecord(password: string, name: string, role: string)

  /** What a successful login or a valid session yields. */
  datatype UserInfo = UserInfo(username: string, name: string, role: string)

  /** A session: who it belongs to and when it began (an ISO timestamp the
      caller supplies). */
  datatype Session = Session(user: UserInfo, createdAt: string)

  class UserStore {
    var users: map<string, UserRecord>

    constructor (users: map<string, UserRecord>)
      ensures this.users == users
    {
      this.users := users;
    }

    /** Credentials are accepted exactly when the user exists and the
      password matches; the result names the user with its display name and
      role. */
    function Authenticate(username: string, password: string): (r: Option<UserInfo>)
      reads this
      ensures r.Some? <==> username in users && users[username].password == password
      ensures r.Some? ==> r.value == UserInfo(username, users[username].name, users[username].role)
    {
      if username in users && users[username].password == password then
        Some(UserInfo(username, users[username].name, users[username].role))
      else None
    }

    /** Register a user. An existing user name is refused and nothing
      changes; otherwise the new user can log in with the given password and
      every other user is as before. */
    method AddUser(username: string, password: string, name: string, role: string) returns (ok: bool)
      modifies this
      ensures ok <==> username !in old(users)
      ensures ok ==> users == old(users)[username := UserRecord(password, name, role)]
      ensures !ok ==> users == old(users)
      ensures ok ==> Authenticate(username, password) == Some(UserInfo(username, name, role))
      ensures forall u | u != username :: (u in users <==> u in old(users)) && (u in users ==> users[u] == old(users)[u])
    {
      if username in users {
        return false;
      }
      users := users[username := UserRecord(password, name, role)];
      ok := true;
    }

    /** Delete a user. The root administrator is never deleted; a user that
      does not exist is reported as not deleted; otherwise the user is gone
      and can no longer log in, and every other user is as before. */
    method DeleteUser(username: string) returns (ok: bool)
      modifies this
      ensures ok <==> username != ROOT && username in old(users)
      ensures ok ==> users == old(users) - {username}
      ensures !ok ==> users == old(users)
      ensures ROOT in old(users) ==> ROOT in users && users[ROOT] == old(users)[ROOT]
      ensures forall p :: ok ==> Authenticate(username, p).None?
    {
      if username == ROOT {
        return false;
      }
      if username in users {
        users := users - {username};
        return true;
      }
      return false;
    }
  }

  class SessionStore {
    var sessions: map<string, Session>

    constructor (sessions: map<string, Session>)
      ensures this.sessions == sessions
    {
      this.sessions := sessions;
    }

    /** The user of a live session, and nothing for an unknown token. */
    function ValidateSession(token: string): (r: Option<UserInfo>)
      reads this
      ensures r.Some? <==> token in sessions
      ensures r.Some? ==> r.value == sessions[token].user
    {
      if token in sessions then Some(sessions[token].user) else None
    }

    /** Start a session under a fresh token (a random UUID the caller
      supplies): the token then validates to the user; other sessions are as
      before. */
    method CreateSession(user: UserInfo, token: string, createdAt: string) returns (t: string)
      modifies this
      ensures t == token
      ensures sessions == old(sessions)[token := Session(user, createdAt)]
      ensures ValidateSession(t) == Some(user)
    {
      sessions := sessions[token := Session(user, createdAt)];
      t := token;
    }

    /** End a session: the token no longer validates; other sessions are as
      before, and an unknown token changes nothing. */
    method ClearSession(token: string)
      modifies this
      ensures sessions == old(sessions) - {token}
      ensures ValidateSession(token).None?
      ensures token !in old(sessions) ==> sessions == old(sessions)
    {
      if token in sessions {
        sessions := sessions - {token};
      }
    }
  }
}
