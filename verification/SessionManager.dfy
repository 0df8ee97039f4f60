/**
 The cache of logged-in sessions. A session is dropped when it has not been used
 for the valid duration; `now` is the time of each call.
 */
module SessionManager {
  import opened Common
  import L = Login

  /** A verified token; None stands for a bad signature. */
  datatype Claims = Claims(name: string, subject: string)

  datatype Token = Token(subject: string, name: string, publicKey: string, issuedAt: nat, expires: nat)

  datatype Error = NotLoggedIn(error: L.Error) | InvalidIp | NoPublicKey | NoSession | WrongToken | InvalidToken

  /** One successful loginOrCreate. */
  datatype LoginRecord = LoginRecord(rq: L.Request, keys: L.KeyPair)

  class SessionManager {
    var sessions: map<string, L.Session>
    var lastAccess: map<string, nat>
    const validMs: nat

    /** Every successful loginOrCreate so far. */
    ghost var logins: seq<LoginRecord>

    /** Every cached session has the key pair, the IP and the group of a login under its name. */
    ghost predicate Valid()
      reads this, sessions.Values
    {
      && 0 < validMs && lastAccess.Keys == sessions.Keys
      && forall n :: n in sessions ==> Backed(logins, n, sessions[n])
    }

    static ghost predicate Backed(logins: seq<LoginRecord>, name: string, s: L.Session)
      reads s
    {
      exists k :: 0 <= k < |logins| && Backs(logins[k], name, s)
    }

    static ghost predicate Backs(l: LoginRecord, name: string, s: L.Session)
      reads s
    {
      l.rq.name == name && l.rq.clientIp == s.clientIp && l.rq.groupAlias == s.groupAlias && s.keys == Some(l.keys)
    }

    constructor (validMs: nat)
      requires 0 < validMs
      ensures Valid() && sessions == map[] && logins == [] && this.validMs == validMs
    {
      sessions, lastAccess, logins := map[], map[], [];
      this.validMs := validMs;
    }

    predicate IsLive(name: string, now: nat)
      reads this
    {
      name in sessions && name in lastAccess && now - lastAccess[name] < validMs
    }

    /** Nobody has gained, lost or exchanged a live session. */
    twostate predicate SameLive(now: nat)
      reads this
    {
      forall n :: (IsLive(n, now) <==> old(IsLive(n, now))) && (IsLive(n, now) ==> sessions[n] == old(sessions[n]))
    }

    /** The cache's own lookup: an expired entry is removed, a live one is refreshed. */
    method Get(name: string, now: nat) returns (s: L.Session?)
      requires Valid()
      modifies this
      ensures Valid() && logins == old(logins)
      ensures s != null <==> name in old(sessions) && now < old(lastAccess)[name] + validMs
      ensures s == (if old(IsLive(name, now)) then old(sessions[name]) else null)
      ensures sessions == if s == null then old(sessions) - {name} else old(sessions)
      ensures lastAccess == if s == null then old(lastAccess) - {name} else old(lastAccess)[name := now]
      ensures SameLive(now)
    {
      if IsLive(name, now) {
        s := sessions[name];
        lastAccess := lastAccess[name := now];
      } else {
        s := null;
        sessions := sessions - {name};
        lastAccess := lastAccess - {name};
      }
    }

    /**
     Log in. A live session under the name is reused without looking at the
     password or the group; otherwise loginOrCreate decides, and only its success
     changes what the cache holds.
     */
    method Login(rq: L.Request, db: L.Database, c: L.Crypto, newKeys: L.KeyPair, fault: L.Fault, now: nat)
      returns (r: Result<Token, Error>)
      requires Valid()
      modifies this, db
      ensures Valid()
      ensures old(IsLive(rq.name, now)) ==>
                && db.store == old(db.store) && logins == old(logins) && SameLive(now)
                && (r.Ok? <==> old(sessions[rq.name].clientIp) == rq.clientIp)
                && (r.Err? ==> r.error == InvalidIp)
      ensures !old(IsLive(rq.name, now)) ==>
                var (reply, st) := L.LoggedIn(old(db.store), rq, c, newKeys, fault);
                && db.store == st
                && (reply.Failed? ==> r == Err(NotLoggedIn(reply.error)) && SameLive(now) && logins == old(logins))
                && (!reply.Failed? ==>
                     && r.Ok? && logins == old(logins) + [LoginRecord(rq, reply.keys)]
                     && forall n :: n != rq.name ==>
                          && (IsLive(n, now) <==> old(IsLive(n, now)))
                          && (IsLive(n, now) ==> sessions[n] == old(sessions[n])))
      ensures r.Ok? ==>
                && lastAccess.Keys == sessions.Keys && rq.name in lastAccess && lastAccess[rq.name] == now
                && IsLive(rq.name, now) && sessions[rq.name].clientIp == rq.clientIp
                && sessions[rq.name].keys.Some? && r.value.publicKey == sessions[rq.name].keys.value.publicKey
                && r.value == Token("login", rq.name, r.value.publicKey, now, now + validMs)
    {
      var session := Get(rq.name, now);
      if session == null {
        var reply := Add(rq, db, c, newKeys, fault, now);
        if reply.Failed? {
          return Err(NotLoggedIn(reply.error));
        }
        session := sessions[rq.name];
      }
      if session.clientIp != rq.clientIp {
        return Err(InvalidIp);
      }
      if session.keys.None? {
        return Err(NoPublicKey);
      }
      r := Ok(Token("login", rq.name, session.keys.value.publicKey, now, now + validMs));
    }

    /** The branch of `login` for a name that has no live session. */
    method Add(rq: L.Request, db: L.Database, c: L.Crypto, newKeys: L.KeyPair, fault: L.Fault, now: nat)
      returns (reply: L.Reply)
      requires Valid()
      modifies this, db
      ensures Valid()
      ensures (reply, db.store) == L.LoggedIn(old(db.store), rq, c, newKeys, fault)
      ensures reply.Failed? ==> sessions == old(sessions) && lastAccess == old(lastAccess) && logins == old(logins)
      ensures !reply.Failed? ==>
                && rq.name in sessions
                && sessions[rq.name].clientIp == rq.clientIp && sessions[rq.name].keys == Some(reply.keys)
                && sessions == old(sessions)[rq.name := sessions[rq.name]]
                && lastAccess == old(lastAccess)[rq.name := now]
                && logins == old(logins) + [LoginRecord(rq, reply.keys)]
    {
      var created := new L.Session();
      reply := created.LoginOrCreate(rq, db, c, newKeys, fault);
      ghost var before := logins;
      if reply.Failed? {
        return;
      }
      sessions := sessions[rq.name := created];
      lastAccess := lastAccess[rq.name := now];
      logins := logins + [LoginRecord(rq, reply.keys)];
      assert Backs(logins[|before|], rq.name, created);
      forall n | n in sessions && n != rq.name ensures Backed(logins, n, sessions[n]) {
        assert Backed(before, n, sessions[n]);
        var k :| 0 <= k < |before| && Backs(before[k], n, sessions[n]);
        assert logins[k] == before[k];
      }
    }

    /** The session a token speaks for. */
    method GetSession(claims: Option<Claims>, clientIp: string, now: nat) returns (r: Result<L.Session, Error>)
      requires Valid()
      modifies this
      ensures Valid() && logins == old(logins) && SameLive(now)
      ensures r.Ok? <==>
                && claims.Some? && claims.value.name in old(sessions)
                && now < old(lastAccess)[claims.value.name] + validMs
                && old(sessions[claims.value.name].clientIp) == clientIp
      ensures r.Ok? ==> lastAccess == old(lastAccess)[claims.value.name := now]
      ensures r.Ok? ==> r.value == old(sessions[claims.value.name]) && r.value.keys.Some?
    {
      if claims.None? {
        return Err(InvalidToken);
      }
      var session := Get(claims.value.name, now);
      if session == null {
        return Err(NoSession);
      }
      if session.clientIp != clientIp {
        return Err(InvalidIp);
      }
      r := Ok(session);
    }

    /** The session of a named user, for a connection token. */
    method GetSessionOf(claims: Option<Claims>, username: string, clientIp: string, now: nat)
      returns (r: Result<L.Session, Error>)
      requires Valid()
      modifies this
      ensures Valid() && logins == old(logins) && SameLive(now)
      ensures r.Ok? <==>
                && claims.Some? && claims.value.subject == "openConnection"
                && username in old(sessions) && now < old(lastAccess)[username] + validMs
                && old(sessions[username].clientIp) == clientIp
      ensures r.Ok? ==> lastAccess == old(lastAccess)[username := now]
      ensures r.Ok? ==> r.value == old(sessions[username]) && r.value.keys.Some?
    {
      if claims.None? {
        return Err(InvalidToken);
      }
      if claims.value.subject != "openConnection" {
        return Err(WrongToken);
      }
      var session := Get(username, now);
      if session == null {
        return Err(NoSession);
      }
      if session.clientIp != clientIp {
        return Err(InvalidIp);
      }
      r := Ok(session);
    }
  }
}
