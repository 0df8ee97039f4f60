/**
 Logins at the same time. One step is one SQL statement of one login; a login may
 fail before any of its statements, and an insert fails on a taken key.
 */
module LoginRuns {
  import opened Common
  import opened Sql
  import opened Login
  import opened LoginTheorems

  datatype Pc =
    | Resolving                       // look the group up
    | AddingGroup                     // insert the group
    | Looking(groupId: nat)           // look the user up
    | AddingUser(groupId: nat)        // insert the user
    | BackingUp(userId: nat)          // insert the backup
    | Ended(reply: Reply)

  datatype Running = Running(a: Attempt, pc: Pc)

  datatype State = State(store: Store, logins: seq<Running>)

  datatype Step = Start(a: Attempt) | Go(i: nat) | Fail(i: nat, error: Error)

  predicate Enabled(s: State, step: Step, c: Crypto) {
    match step
    case Start(a) => Proper(a, c)
    case Go(i) => i < |s.logins| && !s.logins[i].pc.Ended?
    case Fail(i, _) => i < |s.logins| && !s.logins[i].pc.Ended?
  }

  predicate AliasTaken(groups: seq<GroupRow>, groupAlias: string) {
    exists i :: 0 <= i < |groups| && SameText(groups[i].groupAlias, groupAlias)
  }

  function SecretOf(rq: Request): Secret {
    Secret(rq.name, rq.password)
  }

  function Statement(st: Store, r: Running, c: Crypto): (Store, Pc) {
    var rq := r.a.rq;
    match r.pc
    case Resolving =>
      var row := FindGroup(st.groups, rq.groupAlias);
      (st, if row.Some? then Looking(row.value.id) else AddingGroup)
    case AddingGroup =>
      if AliasTaken(st.groups, rq.groupAlias) then (st, Ended(Failed(Error.Database)))
      else (WithGroup(st, rq.groupAlias), Looking(st.nextGroup))
    case Looking(groupId) =>
      var row := FindUser(st.users, rq.name, groupId);
      (st, if row.Some? then Ended(OpenUser(row.value, c, SecretOf(rq))) else AddingUser(groupId))
    case AddingUser(groupId) =>
      if FindUser(st.users, rq.name, groupId).Some? then (st, Ended(Failed(Error.Database)))
      else (WithUser(st, rq.name, groupId, c, SecretOf(rq), r.a.keys), BackingUp(st.nextUser))
    case BackingUp(userId) =>
      (st.(backups := st.backups + [BackupRow(userId)]), Ended(Created(r.a.keys)))
    case Ended(_) => (st, r.pc)
  }

  function Apply(s: State, step: Step, c: Crypto): State
    requires Enabled(s, step, c)
  {
    match step
    case Start(a) => s.(logins := s.logins + [Running(a, Resolving)])
    case Go(i) =>
      var (store, pc) := Statement(s.store, s.logins[i], c);
      State(store, s.logins[i := s.logins[i].(pc := pc)])
    case Fail(i, error) => s.(logins := s.logins[i := s.logins[i].(pc := Ended(Failed(error)))])
  }

  function After(st: Store, steps: seq<Step>, c: Crypto): Option<State> {
    if steps == [] then Some(State(st, []))
    else
      var before := After(st, steps[..|steps| - 1], c);
      if before.Some? && Enabled(before.value, steps[|steps| - 1], c)
      then Some(Apply(before.value, steps[|steps| - 1], c)) else None
  }

  // ---- what a login in progress can rely on --------------------------------

  /** A row of the user, under the group's id and with this public key. */
  ghost predicate HasRow(st: Store, rq: Request, publicKey: string) {
    exists i: nat :: RowIs(st, i, rq, publicKey)
  }

  predicate RowIs(st: Store, i: nat, rq: Request, publicKey: string) {
    && i < |st.users| && SameText(st.users[i].name, rq.name)
    && Some(st.users[i].groupId) == IdOf(st, rq.groupAlias) && st.users[i].publicKey == publicKey
  }

  ghost predicate RunningInv(st: Store, r: Running, c: Crypto) {
    && Proper(r.a, c)
    && match r.pc
       case Resolving => true
       case AddingGroup => true
       case Looking(groupId) => IdOf(st, r.a.rq.groupAlias) == Some(groupId)
       case AddingUser(groupId) => IdOf(st, r.a.rq.groupAlias) == Some(groupId)
       case BackingUp(_) => HasRow(st, r.a.rq, r.a.keys.publicKey)
       case Ended(reply) => !reply.Failed? ==> HasRow(st, r.a.rq, reply.keys.publicKey)
  }

  ghost predicate Inv(s: State, c: Crypto) {
    KeysHold(s.store) && forall i :: 0 <= i < |s.logins| ==> RunningInv(s.store, s.logins[i], c)
  }

  lemma HasRowStays(st: Store, st': Store, rq: Request, publicKey: string)
    requires KeysHold(st) && KeysHold(st') && Extends(st, st') && ValidAlias(rq.groupAlias) && HasRow(st, rq, publicKey)
    ensures HasRow(st', rq, publicKey)
  {
    var i: nat :| RowIs(st, i, rq, publicKey);
    IdStays(st, st', rq.groupAlias);
    assert st'.users[i] == st.users[i];
    assert RowIs(st', i, rq, publicKey);
  }

  /** What others add does not disturb a login. */
  lemma RunningInvStays(st: Store, st': Store, r: Running, c: Crypto)
    requires KeysHold(st) && KeysHold(st') && Extends(st, st') && RunningInv(st, r, c)
    ensures RunningInv(st', r, c)
  {
    match r.pc
    case Looking(_) => IdStays(st, st', r.a.rq.groupAlias);
    case AddingUser(_) => IdStays(st, st', r.a.rq.groupAlias);
    case BackingUp(_) => HasRowStays(st, st', r.a.rq, r.a.keys.publicKey);
    case Ended(reply) => if !reply.Failed? { HasRowStays(st, st', r.a.rq, reply.keys.publicKey); }
    case _ =>
  }

  /** The unique key on the alias and the LIKE lookup agree on whether there is a group. */
  lemma FreeAliasMeansNoGroup(st: Store, groupAlias: string)
    requires GroupKeys(st) && ValidAlias(groupAlias) && !AliasTaken(st.groups, groupAlias)
    ensures FindGroup(st.groups, groupAlias).None?
  {
    FindGroupIsExact(st, groupAlias);
    forall i | 0 <= i < |st.groups| ensures st.groups[i].groupAlias != groupAlias {
      assert !SameText(st.groups[i].groupAlias, groupAlias);
    }
  }

  lemma AddGroupKeeps(st: Store, r: Running, c: Crypto)
    requires KeysHold(st) && RunningInv(st, r, c) && r.pc.AddingGroup?
    ensures var (st', pc') := Statement(st, r, c);
      KeysHold(st') && Extends(st, st') && RunningInv(st', r.(pc := pc'), c)
  {
    var groupAlias := r.a.rq.groupAlias;
    if !AliasTaken(st.groups, groupAlias) {
      FreeAliasMeansNoGroup(st, groupAlias);
      WithGroupKeeps(st, groupAlias);
    }
  }

  lemma IdBelowNext(st: Store, groupAlias: string)
    requires GroupKeys(st) && ValidAlias(groupAlias) && IdOf(st, groupAlias).Some?
    ensures IdOf(st, groupAlias).value < st.nextGroup
  {
    var i := RowOf(st, groupAlias);
  }

  lemma AddUserKeeps(st: Store, r: Running, c: Crypto)
    requires KeysHold(st) && RunningInv(st, r, c) && r.pc.AddingUser?
    ensures var (st', pc') := Statement(st, r, c);
      KeysHold(st') && Extends(st, st') && RunningInv(st', r.(pc := pc'), c)
  {
    var rq, groupId := r.a.rq, r.pc.groupId;
    if FindUser(st.users, rq.name, groupId).None? {
      IdBelowNext(st, rq.groupAlias);
      WithUserKeeps(st, rq, groupId, c, r.a.keys);
      var st' := WithUser(st, rq.name, groupId, c, SecretOf(rq), r.a.keys);
      assert IdOf(st', rq.groupAlias) == IdOf(st, rq.groupAlias);
      assert RowIs(st', |st.users|, rq, r.a.keys.publicKey);
    }
  }

  lemma LookKeeps(st: Store, r: Running, c: Crypto)
    requires KeysHold(st) && RunningInv(st, r, c) && r.pc.Looking?
    ensures RunningInv(st, r.(pc := Statement(st, r, c).1), c)
  {
    var row := FindUser(st.users, r.a.rq.name, r.pc.groupId);
    if row.Some? {
      var i: nat :| i < |st.users| && st.users[i] == row.value;
      assert RowIs(st, i, r.a.rq, row.value.publicKey);
    }
  }

  lemma StatementKeeps(st: Store, r: Running, c: Crypto)
    requires KeysHold(st) && RunningInv(st, r, c)
    ensures var (st', pc') := Statement(st, r, c);
      KeysHold(st') && Extends(st, st') && RunningInv(st', r.(pc := pc'), c)
  {
    match r.pc
    case Resolving =>
    case AddingGroup => AddGroupKeeps(st, r, c);
    case Looking(_) => LookKeeps(st, r, c);
    case AddingUser(_) => AddUserKeeps(st, r, c);
    case BackingUp(userId) =>
      HasRowStays(st, st.(backups := st.backups + [BackupRow(userId)]), r.a.rq, r.a.keys.publicKey);
    case Ended(_) =>
  }

  lemma InvStep(s: State, step: Step, c: Crypto)
    requires Inv(s, c) && Enabled(s, step, c)
    ensures Inv(Apply(s, step, c), c) && Extends(s.store, Apply(s, step, c).store)
  {
    if step.Go? {
      StatementKeeps(s.store, s.logins[step.i], c);
      var s' := Apply(s, step, c);
      forall i | 0 <= i < |s'.logins| ensures RunningInv(s'.store, s'.logins[i], c) {
        if i != step.i { RunningInvStays(s.store, s'.store, s.logins[i], c); }
      }
    }
  }

  /** Whatever the interleaving, rows are only added and every key of the tables is kept. */
  lemma {:induction false} InvAfter(st: Store, steps: seq<Step>, c: Crypto)
    requires KeysHold(st) && After(st, steps, c).Some?
    ensures Inv(After(st, steps, c).value, c) && Extends(st, After(st, steps, c).value.store)
  {
    if steps != [] {
      var before := steps[..|steps| - 1];
      InvAfter(st, before, c);
      InvStep(After(st, before, c).value, steps[|steps| - 1], c);
    }
  }

  lemma OneKeyPerUser(st: Store, rq: Request, rq': Request, k: string, k': string)
    requires KeysHold(st) && SameText(rq.name, rq'.name) && rq.groupAlias == rq'.groupAlias
    requires HasRow(st, rq, k) && HasRow(st, rq', k')
    ensures k == k'
  {
    var i: nat :| RowIs(st, i, rq, k);
    var j: nat :| RowIs(st, j, rq', k');
    assert SameText(st.users[i].name, st.users[j].name) && SameText(st.users[j].name, st.users[i].name);
    assert i == j;
  }

  /**
   Agreement. In every interleaving, any two logins that end well under one name
   and group hold the same public key, whether they created the user or found it.
   */
  lemma SuccessfulLoginsAgree(st: Store, steps: seq<Step>, c: Crypto, i: nat, j: nat)
    requires KeysHold(st) && After(st, steps, c).Some?
    requires var s := After(st, steps, c).value;
      && i < |s.logins| && j < |s.logins|
      && s.logins[i].pc.Ended? && !s.logins[i].pc.reply.Failed?
      && s.logins[j].pc.Ended? && !s.logins[j].pc.reply.Failed?
      && SameText(s.logins[i].a.rq.name, s.logins[j].a.rq.name)
      && s.logins[i].a.rq.groupAlias == s.logins[j].a.rq.groupAlias
    ensures var s := After(st, steps, c).value;
      s.logins[i].pc.reply.keys.publicKey == s.logins[j].pc.reply.keys.publicKey
  {
    InvAfter(st, steps, c);
    var s := After(st, steps, c).value;
    OneKeyPerUser(s.store, s.logins[i].a.rq, s.logins[j].a.rq,
                  s.logins[i].pc.reply.keys.publicKey, s.logins[j].pc.reply.keys.publicKey);
  }

  function Left(pc: Pc): nat {
    match pc
    case Resolving => 5
    case AddingGroup => 4
    case Looking(_) => 3
    case AddingUser(_) => 2
    case BackingUp(_) => 1
    case Ended(_) => 0
  }

  /** The statements of one login with nobody else around. */
  function Alone(st: Store, r: Running, c: Crypto): (Store, Pc)
    decreases Left(r.pc)
  {
    if r.pc.Ended? then (st, r.pc)
    else var (st', pc') := Statement(st, r, c); Alone(st', r.(pc := pc'), c)
  }

  lemma AloneFrom(st: Store, a: Attempt, c: Crypto, groupId: nat)
    requires KeysHold(st) && Proper(a, c)
    ensures Alone(st, Running(a, Looking(groupId)), c) ==
              var row := FindUser(st.users, a.rq.name, groupId);
              if row.Some? then (st, Ended(OpenUser(row.value, c, SecretOf(a.rq))))
              else var (reply, st') := NewUser(st, a.rq, groupId, c, a.keys, NoFault); (st', Ended(reply))
  {
    if FindUser(st.users, a.rq.name, groupId).None? {
      var st1 := WithUser(st, a.rq.name, groupId, c, SecretOf(a.rq), a.keys);
      var st2 := st1.(backups := st1.backups + [BackupRow(st.nextUser)]);
      assert Alone(st2, Running(a, Ended(Created(a.keys))), c) == (st2, Ended(Created(a.keys)));
      assert Alone(st1, Running(a, BackingUp(st.nextUser)), c) == (st2, Ended(Created(a.keys)));
      assert Alone(st, Running(a, AddingUser(groupId)), c) == (st2, Ended(Created(a.keys)));
    }
  }

  /** Undisturbed, the statements of one login add up to `LoggedIn`. */
  lemma AloneIsLoggedIn(st: Store, a: Attempt, c: Crypto)
    requires KeysHold(st) && Proper(a, c)
    ensures var (reply, st') := LoggedIn(st, a.rq, c, a.keys, NoFault);
      Alone(st, Running(a, Resolving), c) == (st', Ended(reply))
  {
    var row := FindGroup(st.groups, a.rq.groupAlias);
    if row.Some? {
      AloneFrom(st, a, c, row.value.id);
    } else {
      NoGroupMeansFreeAlias(st, a.rq.groupAlias);
      WithGroupKeeps(st, a.rq.groupAlias);
      var st1 := WithGroup(st, a.rq.groupAlias);
      AloneFrom(st1, a, c, st.nextGroup);
      assert Alone(st, Running(a, AddingGroup), c) == Alone(st1, Running(a, Looking(st.nextGroup)), c);
    }
  }

  lemma NoGroupMeansFreeAlias(st: Store, groupAlias: string)
    requires GroupKeys(st) && ValidAlias(groupAlias) && FindGroup(st.groups, groupAlias).None?
    ensures !AliasTaken(st.groups, groupAlias)
  {
    FindGroupIsExact(st, groupAlias);
    forall i | 0 <= i < |st.groups| ensures !SameText(st.groups[i].groupAlias, groupAlias) {
      SameAliasIsEquality(st.groups[i].groupAlias, groupAlias);
    }
  }

  /** A stored user can log in to the stored key pair after any interleaving of other logins. */
  lemma StoredSurvives(st: Store, steps: seq<Step>, c: Crypto, i: nat, a: Attempt, newKeys: KeyPair)
    requires KeysHold(st) && After(st, steps, c).Some? && Sound(c) && Proper(a, c) && StoredAt(st, i, a.rq, c, a.keys)
    ensures LoggedIn(After(st, steps, c).value.store, a.rq, c, newKeys, NoFault)
            == (Existing(a.keys), After(st, steps, c).value.store)
  {
    InvAfter(st, steps, c);
    var st' := After(st, steps, c).value.store;
    StoredStays(st, st', i, a.rq, c, a.keys);
    StoredLogin(st', i, a, c, a.rq, newKeys);
  }
}
