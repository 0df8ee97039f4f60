/** What logins keep, one by one and over any sequence of them. */
module LoginTheorems {
  import opened Common
  import opened Sql
  import opened Login

  datatype Attempt = Attempt(rq: Request, keys: KeyPair, fault: Fault)

  /** JsonLogin lets only valid aliases through; key pairs are well formed. */
  predicate Proper(a: Attempt, c: Crypto) {
    ValidAlias(a.rq.groupAlias) && a.keys.publicKey == c.publicOf(a.keys.privateKey)
  }

  function Run(st: Store, attempts: seq<Attempt>, c: Crypto): Store {
    if attempts == [] then st
    else
      var a := attempts[|attempts| - 1];
      LoggedIn(Run(st, attempts[..|attempts| - 1], c), a.rq, c, a.keys, a.fault).1
  }

  /** The id an alias resolves to without inserting anything. */
  function IdOf(st: Store, groupAlias: string): Option<nat> {
    var row := FindGroup(st.groups, groupAlias);
    if row.Some? then Some(row.value.id) else None
  }

  // ---- groups --------------------------------------------------------------

  /** For valid aliases the LIKE lookup finds exactly the row with that alias. */
  lemma FindGroupIsExact(st: Store, groupAlias: string)
    requires GroupKeys(st) && ValidAlias(groupAlias)
    ensures var r := FindGroup(st.groups, groupAlias);
      && (r.Some? ==> r.value.groupAlias == groupAlias)
      && (r.None? <==> forall i :: 0 <= i < |st.groups| ==> st.groups[i].groupAlias != groupAlias)
  {
    forall i | 0 <= i < |st.groups|
      ensures Like(st.groups[i].groupAlias, groupAlias) <==> st.groups[i].groupAlias == groupAlias {
      LikeIsEquality(st.groups[i].groupAlias, groupAlias);
    }
  }

  lemma GroupRowById(st: Store, groupAlias: string, i: nat)
    requires GroupKeys(st) && ValidAlias(groupAlias) && i < |st.groups| && st.groups[i].groupAlias == groupAlias
    ensures IdOf(st, groupAlias) == Some(st.groups[i].id)
  {
    FindGroupIsExact(st, groupAlias);
    var row := FindGroup(st.groups, groupAlias).value;
    var k :| 0 <= k < |st.groups| && st.groups[k] == row;
    assert k == i;
  }

  /** The row an alias resolves to. */
  lemma RowOf(st: Store, groupAlias: string) returns (i: nat)
    requires GroupKeys(st) && ValidAlias(groupAlias) && IdOf(st, groupAlias).Some?
    ensures i < |st.groups| && st.groups[i].groupAlias == groupAlias && IdOf(st, groupAlias) == Some(st.groups[i].id)
  {
    FindGroupIsExact(st, groupAlias);
    i :| 0 <= i < |st.groups| && st.groups[i] == FindGroup(st.groups, groupAlias).value;
  }

  lemma WithGroupKeeps(st: Store, groupAlias: string)
    requires GroupKeys(st) && ValidAlias(groupAlias) && FindGroup(st.groups, groupAlias).None?
    ensures GroupKeys(WithGroup(st, groupAlias))
    ensures IdOf(WithGroup(st, groupAlias), groupAlias) == Some(st.nextGroup)
  {
    FindGroupIsExact(st, groupAlias);
    var st' := WithGroup(st, groupAlias);
    assert st'.groups[|st.groups|].groupAlias == groupAlias;
    GroupRowById(st', groupAlias, |st.groups|);
  }

  lemma ResolveKeeps(st: Store, groupAlias: string, fault: Fault)
    requires KeysHold(st) && ValidAlias(groupAlias)
    ensures var (id, st') := ResolveGroup(st, groupAlias, fault);
      && KeysHold(st') && Extends(st, st') && st'.users == st.users && st'.nextUser == st.nextUser
      && (id.Some? ==> IdOf(st', groupAlias) == id && id.value < st'.nextGroup)
  {
    if FindGroup(st.groups, groupAlias).None? {
      WithGroupKeeps(st, groupAlias);
    } else {
      var i := RowOf(st, groupAlias);
    }
  }

  // ---- one login -----------------------------------------------------------

  lemma WithUserKeeps(st: Store, rq: Request, groupId: nat, c: Crypto, keys: KeyPair)
    requires UserKeys(st) && groupId < st.nextGroup && FindUser(st.users, rq.name, groupId).None?
    ensures UserKeys(WithUser(st, rq.name, groupId, c, Secret(rq.name, rq.password), keys))
  {
  }

  lemma NewUserKeeps(st: Store, rq: Request, groupId: nat, c: Crypto, keys: KeyPair, fault: Fault)
    requires KeysHold(st) && groupId < st.nextGroup && FindUser(st.users, rq.name, groupId).None?
    ensures var st' := NewUser(st, rq, groupId, c, keys, fault).1; KeysHold(st') && Extends(st, st')
  {
    WithUserKeeps(st, rq, groupId, c, keys);
  }

  /** A login, whatever fails in it, only adds rows and keeps every key of the tables. */
  lemma LoginKeeps(st: Store, a: Attempt, c: Crypto)
    requires KeysHold(st) && Proper(a, c)
    ensures var st' := LoggedIn(st, a.rq, c, a.keys, a.fault).1; KeysHold(st') && Extends(st, st')
  {
    ResolveKeeps(st, a.rq.groupAlias, a.fault);
    var (groupId, st1) := ResolveGroup(st, a.rq.groupAlias, a.fault);
    if groupId.Some? && FindUser(st1.users, a.rq.name, groupId.value).None? {
      NewUserKeeps(st1, a.rq, groupId.value, c, a.keys, a.fault);
    }
  }

  /** No run alters an existing row of any table. */
  lemma {:induction false} RunKeeps(st: Store, attempts: seq<Attempt>, c: Crypto)
    requires KeysHold(st) && forall i :: 0 <= i < |attempts| ==> Proper(attempts[i], c)
    ensures KeysHold(Run(st, attempts, c)) && Extends(st, Run(st, attempts, c))
  {
    if attempts != [] {
      var n := |attempts| - 1;
      RunKeeps(st, attempts[..n], c);
      LoginKeeps(Run(st, attempts[..n], c), attempts[n], c);
    }
  }

  lemma IdStays(st: Store, st': Store, groupAlias: string)
    requires GroupKeys(st) && GroupKeys(st') && st.groups <= st'.groups
    requires ValidAlias(groupAlias) && IdOf(st, groupAlias).Some?
    ensures IdOf(st', groupAlias) == IdOf(st, groupAlias)
  {
    var i := RowOf(st, groupAlias);
    assert st'.groups[i] == st.groups[i];
    GroupRowById(st', groupAlias, i);
  }

  lemma IdsDiffer(st: Store, a: string, b: string)
    requires GroupKeys(st) && ValidAlias(a) && ValidAlias(b) && IdOf(st, a).Some? && IdOf(st, a) == IdOf(st, b)
    ensures a == b
  {
    var i := RowOf(st, a);
    var j := RowOf(st, b);
    assert i == j;
  }

  predicate OneRowPerAlias(groups: seq<GroupRow>) {
    forall i, j :: 0 <= i < |groups| && 0 <= j < |groups| && groups[i].groupAlias == groups[j].groupAlias ==> i == j
  }

  /** An alias keeps its id forever, two aliases never share one, and no alias has two rows. */
  lemma GroupsAreFunctional(st: Store, attempts: seq<Attempt>, c: Crypto, a: string, b: string)
    requires KeysHold(st) && forall i :: 0 <= i < |attempts| ==> Proper(attempts[i], c)
    requires ValidAlias(a) && ValidAlias(b)
    ensures var st' := Run(st, attempts, c);
      && (IdOf(st, a).Some? ==> IdOf(st', a) == IdOf(st, a))
      && (IdOf(st', a).Some? && IdOf(st', a) == IdOf(st', b) ==> a == b)
      && OneRowPerAlias(st'.groups)
  {
    RunKeeps(st, attempts, c);
    var st' := Run(st, attempts, c);
    if IdOf(st, a).Some? { IdStays(st, st', a); }
    if IdOf(st', a).Some? && IdOf(st', a) == IdOf(st', b) { IdsDiffer(st', a, b); }
  }

  // ---- create, then log in -------------------------------------------------

  /** The row a user was stored under. */
  ghost predicate StoredAt(st: Store, i: nat, rq: Request, c: Crypto, keys: KeyPair) {
    && i < |st.users|
    && st.users[i].name == rq.name
    && Some(st.users[i].groupId) == IdOf(st, rq.groupAlias)
    && st.users[i].password == c.keyHash(Secret(rq.name, rq.password))
    && st.users[i].publicKey == keys.publicKey
    && st.users[i].encryptedPrivateKey == c.seal(Secret(rq.name, rq.password), keys.privateKey)
  }

  lemma SameTextTwice(a: string, b: string, name: string)
    requires SameText(a, name) && SameText(b, name)
    ensures SameText(a, b)
  {
  }

  lemma FindUserIsExact(st: Store, i: nat, name: string, groupId: nat)
    requires KeysHold(st) && i < |st.users| && st.users[i].name == name && st.users[i].groupId == groupId
    ensures FindUser(st.users, name, groupId) == Some(st.users[i])
  {
    var r := FindUser(st.users, name, groupId);
    assert SameText(st.users[i].name, name);
    var k :| 0 <= k < |st.users| && st.users[k] == r.value;
    SameTextTwice(st.users[k].name, st.users[i].name, name);
    SameTextTwice(st.users[i].name, st.users[k].name, name);
  }

  /**
   A login that adds a user row, even one that then fails for want of the support
   key, stores the user for good.
   */
  lemma NewRowIsStored(st: Store, a: Attempt, c: Crypto)
    requires KeysHold(st) && Proper(a, c)
    requires |LoggedIn(st, a.rq, c, a.keys, a.fault).1.users| > |st.users|
    ensures StoredAt(LoggedIn(st, a.rq, c, a.keys, a.fault).1, |st.users|, a.rq, c, a.keys)
    ensures LoggedIn(st, a.rq, c, a.keys, a.fault).0 ==
              match a.fault
              case SupportKey => Failed(MissingSupportKey)
              case SaveBackup => Failed(Error.Database)
              case _ => Created(a.keys)
  {
    ResolveKeeps(st, a.rq.groupAlias, a.fault);
    var (groupId, st1) := ResolveGroup(st, a.rq.groupAlias, a.fault);
    var st2 := LoggedIn(st, a.rq, c, a.keys, a.fault).1;
    assert st2.groups == st1.groups;
  }

  lemma StoredStays(st: Store, st': Store, i: nat, rq: Request, c: Crypto, keys: KeyPair)
    requires KeysHold(st) && KeysHold(st') && Extends(st, st')
    requires ValidAlias(rq.groupAlias) && StoredAt(st, i, rq, c, keys)
    ensures StoredAt(st', i, rq, c, keys)
  {
    assert st'.users[i] == st.users[i];
    IdStays(st, st', rq.groupAlias);
  }

  /** Logging in to a stored user: the same key pair for the same secret, and nothing changes. */
  lemma StoredLogin(st: Store, i: nat, a: Attempt, c: Crypto, rq: Request, newKeys: KeyPair)
    requires KeysHold(st) && Proper(a, c) && Sound(c) && StoredAt(st, i, a.rq, c, a.keys)
    requires rq.name == a.rq.name && rq.groupAlias == a.rq.groupAlias
    ensures var (reply, st') := LoggedIn(st, rq, c, newKeys, NoFault);
      && st' == st
      && (rq.password == a.rq.password ==> reply == Existing(a.keys))
      && (c.keyHash(Secret(rq.name, rq.password)) != c.keyHash(Secret(a.rq.name, a.rq.password)) ==>
            reply == Failed(InvalidPassword))
  {
    FindUserIsExact(st, i, rq.name, st.users[i].groupId);
    var s := Secret(a.rq.name, a.rq.password);
    assert c.unseal(s, c.seal(s, a.keys.privateKey)) == Some(a.keys.privateKey);
  }

  /**
   Once a login has stored a user, then after any further logins, with any faults,
   the same name, group and password log in to the same key pair, a password with
   another hash is refused, and neither changes the store.
   */
  lemma CreateThenLogin(st: Store, a: Attempt, later: seq<Attempt>, c: Crypto, rq: Request, newKeys: KeyPair)
    requires KeysHold(st) && Proper(a, c) && Sound(c) && forall i :: 0 <= i < |later| ==> Proper(later[i], c)
    requires |LoggedIn(st, a.rq, c, a.keys, a.fault).1.users| > |st.users|
    requires rq.name == a.rq.name && rq.groupAlias == a.rq.groupAlias
    ensures var st' := Run(LoggedIn(st, a.rq, c, a.keys, a.fault).1, later, c);
      var (reply, st'') := LoggedIn(st', rq, c, newKeys, NoFault);
      && st'' == st'
      && (rq.password == a.rq.password ==> reply == Existing(a.keys))
      && (c.keyHash(Secret(rq.name, rq.password)) != c.keyHash(Secret(a.rq.name, a.rq.password)) ==>
            reply == Failed(InvalidPassword))
  {
    var st1 := LoggedIn(st, a.rq, c, a.keys, a.fault).1;
    LoginKeeps(st, a, c);
    NewRowIsStored(st, a, c);
    RunKeeps(st1, later, c);
    StoredStays(st1, Run(st1, later, c), |st.users|, a.rq, c, a.keys);
    StoredLogin(Run(st1, later, c), |st.users|, a, c, rq, newKeys);
  }

  /** When nothing fails, a name and group that are not stored get stored. */
  lemma FirstLoginCreates(st: Store, a: Attempt, c: Crypto)
    requires KeysHold(st) && Proper(a, c) && a.fault == NoFault
    requires IdOf(st, a.rq.groupAlias).None? || FindUser(st.users, a.rq.name, IdOf(st, a.rq.groupAlias).value).None?
    ensures var (reply, st') := LoggedIn(st, a.rq, c, a.keys, NoFault);
      && reply == Created(a.keys) && |st'.users| == |st.users| + 1 && |st'.backups| == |st.backups| + 1
      && st'.backups[|st.backups|].userId == st'.users[|st.users|].id
  {
  }
}
