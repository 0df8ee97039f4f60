/**
 Login or create: a session derives a secret from the password, resolves its group,
 and then either opens the stored key pair or stores a new one. Any statement may fail.
 */
module Login {
  import opened Common
  import opened Sql

  datatype KeyPair = KeyPair(privateKey: string, publicKey: string)

  /** The secret of a name and a password. */
  datatype Secret = Secret(name: string, password: string)

  /** The cryptography, as functions. */
  datatype Crypto = Crypto(
    keyHash: Secret -> nat,
    seal: (Secret, string) -> string,
    unseal: (Secret, string) -> Option<string>,
    publicOf: string -> string)

  /** What was sealed under a secret can be opened under it. */
  ghost predicate Sound(c: Crypto) {
    forall s: Secret, key: string :: c.unseal(s, c.seal(s, key)) == Some(key)
  }

  datatype GroupRow = GroupRow(id: nat, name: string, groupAlias: string)
  datatype UserRow = UserRow(
    id: nat, name: string, groupId: nat, password: nat, publicKey: string, encryptedPrivateKey: string)
  datatype BackupRow = BackupRow(userId: nat)

  datatype Store = Store(
    groups: seq<GroupRow>, users: seq<UserRow>, backups: seq<BackupRow>, nextGroup: nat, nextUser: nat)

  datatype Request = Request(name: string, password: string, groupAlias: string, clientIp: string)

  /** The step of a login that fails from outside, if any. */
  datatype Fault = NoFault | Encrypt | LoadGroup | SaveGroup | LoadUser | SealKey | SaveUser | SupportKey | SaveBackup

  datatype Error = NoFreeCore | Database | InvalidPassword | DecryptionFailed | CannotSeal | MissingSupportKey

  datatype Reply = Existing(keys: KeyPair) | Created(keys: KeyPair) | Failed(error: Error)

  // ---- rows ----------------------------------------------------------------

  /** The first group whose alias is LIKE the pattern. */
  function FindGroup(groups: seq<GroupRow>, pattern: string): (r: Option<GroupRow>)
    ensures r.None? <==> forall i :: 0 <= i < |groups| ==> !Like(groups[i].groupAlias, pattern)
    ensures r.Some? ==> r.value in groups && Like(r.value.groupAlias, pattern)
  {
    if groups == [] then None
    else if Like(groups[0].groupAlias, pattern) then Some(groups[0])
    else FindGroup(groups[1..], pattern)
  }

  function FindUser(users: seq<UserRow>, name: string, groupId: nat): (r: Option<UserRow>)
    ensures r.None? <==> forall i :: 0 <= i < |users| ==>
                !(SameText(users[i].name, name) && users[i].groupId == groupId)
    ensures r.Some? ==> r.value in users && SameText(r.value.name, name) && r.value.groupId == groupId
  {
    if users == [] then None
    else if SameText(users[0].name, name) && users[0].groupId == groupId then Some(users[0])
    else FindUser(users[1..], name, groupId)
  }

  ghost predicate GroupKeys(st: Store) {
    && 0 < st.nextGroup
    && (forall i :: 0 <= i < |st.groups| ==> 0 < st.groups[i].id < st.nextGroup && ValidAlias(st.groups[i].groupAlias))
    && (forall i, j :: 0 <= i < j < |st.groups| ==>
          st.groups[i].id != st.groups[j].id && st.groups[i].groupAlias != st.groups[j].groupAlias)
  }

  ghost predicate UserKeys(st: Store) {
    && 0 < st.nextUser
    && (forall i :: 0 <= i < |st.users| ==> 0 < st.users[i].id < st.nextUser && st.users[i].groupId < st.nextGroup)
    && (forall i, j :: 0 <= i < j < |st.users| ==>
          && st.users[i].id != st.users[j].id
          && !(SameText(st.users[i].name, st.users[j].name) && st.users[i].groupId == st.users[j].groupId))
  }

  /** Keys of the tables: ids, the alias, and name with group; the counters are ahead of all ids in use. */
  ghost predicate KeysHold(st: Store) {
    GroupKeys(st) && UserKeys(st)
  }

  /** Rows are only ever added behind the existing ones. */
  predicate Extends(st: Store, st': Store) {
    st.groups <= st'.groups && st.users <= st'.users && st.backups <= st'.backups
  }

  function WithGroup(st: Store, groupAlias: string): Store {
    st.(groups := st.groups + [GroupRow(st.nextGroup, groupAlias, groupAlias)], nextGroup := st.nextGroup + 1)
  }

  function WithUser(st: Store, name: string, groupId: nat, c: Crypto, s: Secret, keys: KeyPair): Store {
    st.(users := st.users + [UserRow(st.nextUser, name, groupId,
                                     c.keyHash(s), keys.publicKey, c.seal(s, keys.privateKey))],
        nextUser := st.nextUser + 1)
  }

  // ---- the session ---------------------------------------------------------

  class Database {
    var store: Store

    constructor (store: Store)
      ensures this.store == store
    {
      this.store := store;
    }
  }

  class Session {
    var clientIp: string
    var groupAlias: string
    var groupId: nat
    var keys: Option<KeyPair>

    constructor ()
      ensures clientIp == "" && groupAlias == "" && groupId == 0 && keys == None
    {
      clientIp, groupAlias, groupId, keys := "", "", 0, None;
    }

    /** Load the group or insert it. */
    method GetGroupId(db: Database, fault: Fault) returns (ok: bool)
      requires groupId == 0
      modifies this`groupId, db
      ensures ok && FindGroup(old(db.store).groups, groupAlias).Some? ==>
                db.store == old(db.store) && groupId == FindGroup(old(db.store).groups, groupAlias).value.id
      ensures ok && FindGroup(old(db.store).groups, groupAlias).None? ==>
                && groupId == old(db.store).nextGroup
                && db.store == old(db.store).(
                     groups := old(db.store).groups
                       + [GroupRow(id := old(db.store).nextGroup, name := groupAlias, groupAlias := groupAlias)],
                     nextGroup := old(db.store).nextGroup + 1)
      ensures !ok ==> db.store == old(db.store)
      ensures !ok <==> fault == LoadGroup || (fault == SaveGroup && FindGroup(old(db.store).groups, groupAlias).None?)
      ensures ok <==> ResolveGroup(old(db.store), groupAlias, fault).0.Some?
      ensures ok ==> Some(groupId) == ResolveGroup(old(db.store), groupAlias, fault).0
      ensures db.store == ResolveGroup(old(db.store), groupAlias, fault).1
    {
      if fault == LoadGroup {
        return false;
      }
      var group := FindGroup(db.store.groups, groupAlias);
      if group.Some? {
        groupId := group.value.id;
        return true;
      }
      if fault == SaveGroup {
        return false;
      }
      groupId := db.store.nextGroup;
      db.store := WithGroup(db.store, groupAlias);
      ok := true;
    }

    /** `fresh` is the key pair generated from a new passphrase. */
    method LoginOrCreate(rq: Request, db: Database, c: Crypto, newKeys: KeyPair, fault: Fault) returns (reply: Reply)
      requires groupId == 0 && keys == None
      modifies this, db
      ensures (reply, db.store) == LoggedIn(old(db.store), rq, c, newKeys, fault)
      ensures clientIp == rq.clientIp && groupAlias == rq.groupAlias
      ensures !reply.Failed? ==> keys == Some(reply.keys)
      ensures !reply.Failed? ==> Some(groupId) == ResolveGroup(old(db.store), rq.groupAlias, fault).0
    {
      clientIp := rq.clientIp;
      groupAlias := rq.groupAlias;
      var secret := Secret(rq.name, rq.password);
      if fault == Encrypt {
        return Failed(NoFreeCore);
      }
      var resolved := GetGroupId(db, fault);
      if !resolved || fault == LoadUser {
        return Failed(Database);
      }
      var row := FindUser(db.store.users, rq.name, groupId);
      if row.Some? {
        if row.value.password != c.keyHash(secret) {
          return Failed(InvalidPassword);
        }
        var privateKey := c.unseal(secret, row.value.encryptedPrivateKey);
        if privateKey.None? {
          return Failed(DecryptionFailed);
        }
        keys := Some(KeyPair(privateKey.value, c.publicOf(privateKey.value)));
        if keys.value.publicKey != row.value.publicKey {
          return Failed(DecryptionFailed);
        }
        return Existing(keys.value);
      }
      reply := CreateNewUser(rq, db, c, newKeys, fault);
    }

    method CreateNewUser(rq: Request, db: Database, c: Crypto, newKeys: KeyPair, fault: Fault) returns (reply: Reply)
      modifies this`keys, db
      ensures (reply, db.store) == NewUser(old(db.store), rq, groupId, c, newKeys, fault)
      ensures keys == Some(newKeys)
      ensures db.store.groups == old(db.store).groups
      ensures fault == SealKey || fault == SaveUser ==> db.store == old(db.store) && reply.Failed?
      ensures fault != SealKey && fault != SaveUser ==>
                var secret := Secret(rq.name, rq.password);
                && db.store.users == old(db.store).users + [UserRow(
                     id := old(db.store).nextUser, name := rq.name, groupId := groupId, password := c.keyHash(secret),
                     publicKey := newKeys.publicKey, encryptedPrivateKey := c.seal(secret, newKeys.privateKey))]
                && db.store.nextUser == old(db.store).nextUser + 1
      ensures fault == SupportKey || fault == SaveBackup ==>
                db.store.backups == old(db.store).backups && reply.Failed?
      ensures fault == SupportKey ==> reply == Failed(MissingSupportKey)
      ensures fault !in {SealKey, SaveUser, SupportKey, SaveBackup} ==>
                && db.store.backups == old(db.store).backups + [BackupRow(old(db.store).nextUser)]
                && reply == Created(newKeys)
    {
      keys := Some(newKeys);
      if fault == SealKey {
        return Failed(CannotSeal);
      }
      if fault == SaveUser {
        return Failed(Database);
      }
      var userId := db.store.nextUser;
      db.store := WithUser(db.store, rq.name, groupId, c, Secret(rq.name, rq.password), newKeys);
      if fault == SupportKey {
        return Failed(MissingSupportKey);
      }
      if fault == SaveBackup {
        return Failed(Database);
      }
      db.store := db.store.(backups := db.store.backups + [BackupRow(userId)]);
      reply := Created(newKeys);
    }
  }

  function ResolveGroup(st: Store, groupAlias: string, fault: Fault): (Option<nat>, Store) {
    if fault == LoadGroup then (None, st)
    else
      var row := FindGroup(st.groups, groupAlias);
      if row.Some? then (Some(row.value.id), st)
      else if fault == SaveGroup then (None, st)
      else (Some(st.nextGroup), WithGroup(st, groupAlias))
  }

  function NewUser(st: Store, rq: Request, groupId: nat, c: Crypto, newKeys: KeyPair, fault: Fault): (Reply, Store) {
    var saved := WithUser(st, rq.name, groupId, c, Secret(rq.name, rq.password), newKeys);
    match fault
    case SealKey => (Failed(CannotSeal), st)
    case SaveUser => (Failed(Database), st)
    case SupportKey => (Failed(MissingSupportKey), saved)
    case SaveBackup => (Failed(Database), saved)
    case _ => (Created(newKeys), saved.(backups := saved.backups + [BackupRow(st.nextUser)]))
  }

  /** Opening the key pair of a stored user. */
  function OpenUser(row: UserRow, c: Crypto, s: Secret): Reply {
    if row.password != c.keyHash(s) then Failed(InvalidPassword)
    else
      var key := c.unseal(s, row.encryptedPrivateKey);
      if key.None? || c.publicOf(key.value) != row.publicKey then Failed(DecryptionFailed)
      else Existing(KeyPair(key.value, row.publicKey))
  }

  function LoggedIn(st: Store, rq: Request, c: Crypto, newKeys: KeyPair, fault: Fault): (Reply, Store) {
    if fault == Encrypt then (Failed(NoFreeCore), st)
    else
      var (groupId, st1) := ResolveGroup(st, rq.groupAlias, fault);
      if groupId.None? || fault == LoadUser then (Failed(Database), st1)
      else
        var row := FindUser(st1.users, rq.name, groupId.value);
        if row.Some? then (OpenUser(row.value, c, Secret(rq.name, rq.password)), st1)
        else NewUser(st1, rq, groupId.value, c, newKeys, fault)
  }

  /**
   What a stored user gets: another hash is refused; with the same hash the private key
   must open and belong to the stored public key.
   */
  predicate OpensAs(reply: Reply, row: UserRow, c: Crypto, s: Secret) {
    var key := c.unseal(s, row.encryptedPrivateKey);
    && (reply == Failed(InvalidPassword) <==> row.password != c.keyHash(s))
    && (reply == Failed(DecryptionFailed) <==>
          row.password == c.keyHash(s) && (key == None || c.publicOf(key.value) != row.publicKey))
    && (row.password == c.keyHash(s) && key.Some? && c.publicOf(key.value) == row.publicKey ==>
          reply == Existing(KeyPair(privateKey := key.value, publicKey := row.publicKey)))
  }

  /** The id a request's group has: that of the row found, or the next one. */
  function GroupIdFor(st: Store, groupAlias: string): nat {
    var group := FindGroup(st.groups, groupAlias);
    if group.Some? then group.value.id else st.nextGroup
  }

  /**
   What each login answers. Nothing fails: the stored user of the name and group is opened, or
   a new one stored with its backup. No free core: nothing changes. The user cannot be looked
   up: no user is added.
   */
  lemma LoginAnswers(st: Store, rq: Request, c: Crypto, newKeys: KeyPair)
    ensures var (reply, st') := LoggedIn(st, rq, c, newKeys, NoFault);
      var row := FindUser(st.users, rq.name, GroupIdFor(st, rq.groupAlias));
      if row.Some? then
        && OpensAs(reply, row.value, c, Secret(rq.name, rq.password))
        && st'.users == st.users && st'.backups == st.backups
      else
        && reply == Created(newKeys) && |st'.users| == |st.users| + 1
        && st'.backups == st.backups + [BackupRow(st.nextUser)] && st'.users[|st.users|].id == st.nextUser
    ensures LoggedIn(st, rq, c, newKeys, Encrypt) == (Failed(NoFreeCore), st)
    ensures var (reply, st') := LoggedIn(st, rq, c, newKeys, LoadUser);
      reply == Failed(Database) && st'.users == st.users && st'.backups == st.backups
  {
  }
}
