/** What interleaved logins leave in the table of backups. */
module BackupRuns {
  import opened Common
  import opened Sql
  import opened Login
  import opened LoginTheorems
  import opened LoginRuns

  predicate HasUser(st: Store, id: nat) {
    exists i :: 0 <= i < |st.users| && st.users[i].id == id
  }

  predicate HasBackup(st: Store, id: nat) {
    exists b :: 0 <= b < |st.backups| && st.backups[b].userId == id
  }

  /** Every backup is of a user, and no user has two. */
  ghost predicate BackupKeys(st: Store) {
    && (forall b :: 0 <= b < |st.backups| ==> HasUser(st, st.backups[b].userId))
    && (forall b, d :: 0 <= b < d < |st.backups| ==> st.backups[b].userId != st.backups[d].userId)
  }

  predicate IsCreated(pc: Pc) {
    pc.Ended? && pc.reply.Created?
  }

  /** The id of the user row each login has inserted, if it has. */
  function Inserted(st: Store, steps: seq<Step>, c: Crypto): (r: seq<Option<nat>>)
    requires After(st, steps, c).Some?
    ensures |r| == |After(st, steps, c).value.logins|
  {
    if steps == [] then []
    else
      var n := |steps| - 1;
      var before := Inserted(st, steps[..n], c);
      match steps[n]
      case Start(_) => before + [None]
      case Go(i) =>
        var pc := After(st, steps, c).value.logins[i].pc;
        if pc.BackingUp? then before[i := Some(pc.userId)] else before
      case Fail(_, _) => before
  }

  /** What one login has inserted: a user of this run, backed up exactly when the login is through. */
  ghost predicate InsertInv(st: Store, s: State, ins: seq<Option<nat>>, l: nat)
    requires l < |ins| == |s.logins|
  {
    var pc := s.logins[l].pc;
    if ins[l].None? then !pc.BackingUp? && !IsCreated(pc)
    else
      var id := ins[l].value;
      && st.nextUser <= id < s.store.nextUser && HasUser(s.store, id)
      && (pc.BackingUp? ==> pc.userId == id) && (pc.BackingUp? || (pc.Ended? && !pc.reply.Existing?))
      && (HasBackup(s.store, id) <==> IsCreated(pc))
  }

  predicate InsertedBy(ins: seq<Option<nat>>, id: nat, l: nat) {
    l < |ins| && ins[l] == Some(id)
  }

  ghost predicate BackupInv(st: Store, s: State, ins: seq<Option<nat>>) {
    && |ins| == |s.logins| && BackupKeys(s.store) && st.nextUser <= s.store.nextUser
    && (forall l :: 0 <= l < |ins| ==> InsertInv(st, s, ins, l))
    && (forall l, m :: 0 <= l < |ins| && 0 <= m < |ins| && ins[l].Some? && ins[l] == ins[m] ==> l == m)
    && (forall i :: 0 <= i < |s.store.users| && st.nextUser <= s.store.users[i].id ==>
          exists l: nat :: InsertedBy(ins, s.store.users[i].id, l))
    && (forall id: nat :: id < st.nextUser ==> (HasBackup(s.store, id) <==> HasBackup(st, id)))
  }

  predicate OnlyMoves(s: State, s': State, i: nat) {
    i < |s.logins| == |s'.logins| && s'.logins == s.logins[i := s'.logins[i]]
  }

  /** One login moves on, inserting nothing, or starts, or fails. */
  lemma QuietStep(st: Store, s: State, s': State, ins: seq<Option<nat>>, i: nat)
    requires BackupInv(st, s, ins) && i < |s.logins|
    requires s'.store.users == s.store.users && s'.store.backups == s.store.backups
    requires s'.store.nextUser == s.store.nextUser
    requires OnlyMoves(s, s', i)
    requires !s'.logins[i].pc.BackingUp? && !IsCreated(s'.logins[i].pc) && !IsCreated(s.logins[i].pc)
    requires ins[i].Some? ==> s'.logins[i].pc.Ended? && s'.logins[i].pc.reply.Failed?
    ensures BackupInv(st, s', ins)
  {
    SameBackups(s.store, s'.store);
    forall l | 0 <= l < |ins| ensures InsertInv(st, s', ins, l) {
      assert InsertInv(st, s, ins, l);
    }
  }

  lemma SameBackups(st: Store, st': Store)
    requires st'.users == st.users && st'.backups == st.backups
    ensures forall id :: HasUser(st', id) == HasUser(st, id) && HasBackup(st', id) == HasBackup(st, id)
    ensures BackupKeys(st) ==> BackupKeys(st')
  {
    forall id ensures HasUser(st', id) == HasUser(st, id) && HasBackup(st', id) == HasBackup(st, id) {}
  }

  lemma StartStep(st: Store, s: State, ins: seq<Option<nat>>, a: Attempt)
    requires BackupInv(st, s, ins)
    ensures BackupInv(st, s.(logins := s.logins + [Running(a, Resolving)]), ins + [None])
  {
    var s', ins' := s.(logins := s.logins + [Running(a, Resolving)]), ins + [None];
    forall l | 0 <= l < |ins'| ensures InsertInv(st, s', ins', l) {
      if l < |ins| { assert InsertInv(st, s, ins, l); }
    }
    forall i | 0 <= i < |s.store.users| && st.nextUser <= s.store.users[i].id
      ensures exists l: nat :: InsertedBy(ins', s.store.users[i].id, l)
    {
      var l: nat :| InsertedBy(ins, s.store.users[i].id, l);
      assert InsertedBy(ins', s.store.users[i].id, l);
    }
  }

  lemma UserAdded(st: Store, row: UserRow, st': Store)
    requires KeysHold(st) && BackupKeys(st) && row.id == st.nextUser
    requires st'.users == st.users + [row] && st'.backups == st.backups
    ensures forall id :: HasUser(st', id) <==> HasUser(st, id) || id == row.id
    ensures forall id :: HasBackup(st', id) == HasBackup(st, id)
    ensures !HasBackup(st', row.id) && BackupKeys(st')
  {
    forall id ensures HasUser(st', id) <==> HasUser(st, id) || id == row.id {
      if HasUser(st, id) {
        var i :| 0 <= i < |st.users| && st.users[i].id == id;
        assert st'.users[i].id == id;
      }
      assert st'.users[|st.users|] == row;
    }
    forall id ensures HasBackup(st', id) == HasBackup(st, id) {}
  }

  lemma AddUserStep(st: Store, s: State, s': State, ins: seq<Option<nat>>, i: nat, row: UserRow)
    requires BackupInv(st, s, ins) && KeysHold(s.store) && i < |s.logins| && s.logins[i].pc.AddingUser?
    requires row.id == s.store.nextUser && s'.store.nextUser == s.store.nextUser + 1
    requires s'.store.users == s.store.users + [row] && s'.store.backups == s.store.backups
    requires OnlyMoves(s, s', i) && s'.logins[i].pc == BackingUp(row.id)
    ensures BackupInv(st, s', ins[i := Some(row.id)])
  {
    var ins' := ins[i := Some(row.id)];
    UserAdded(s.store, row, s'.store);
    assert InsertInv(st, s, ins, i);
    forall l | 0 <= l < |ins'| ensures InsertInv(st, s', ins', l) {
      assert InsertInv(st, s, ins, l);
    }
    forall l, m | 0 <= l < |ins'| && 0 <= m < |ins'| && ins'[l].Some? && ins'[l] == ins'[m] ensures l == m {
      assert InsertInv(st, s, ins, l) && InsertInv(st, s, ins, m);
    }
    forall k | 0 <= k < |s'.store.users| && st.nextUser <= s'.store.users[k].id
      ensures exists l: nat :: InsertedBy(ins', s'.store.users[k].id, l)
    {
      if k == |s.store.users| {
        assert InsertedBy(ins', row.id, i);
      } else {
        var l: nat :| InsertedBy(ins, s.store.users[k].id, l);
        assert l != i;
        assert InsertedBy(ins', s.store.users[k].id, l);
      }
    }
  }

  lemma BackupAdded(st: Store, id: nat, st': Store)
    requires BackupKeys(st) && HasUser(st, id) && !HasBackup(st, id)
    requires st'.users == st.users && st'.backups == st.backups + [BackupRow(id)]
    ensures forall x :: HasUser(st', x) == HasUser(st, x)
    ensures forall x :: HasBackup(st', x) <==> HasBackup(st, x) || x == id
    ensures BackupKeys(st')
  {
    forall x ensures HasUser(st', x) == HasUser(st, x) {}
    forall x ensures HasBackup(st', x) <==> HasBackup(st, x) || x == id {
      if HasBackup(st, x) {
        var b :| 0 <= b < |st.backups| && st.backups[b].userId == x;
        assert st'.backups[b].userId == x;
      }
      assert st'.backups[|st.backups|].userId == id;
    }
  }

  lemma BackUpStep(st: Store, s: State, s': State, ins: seq<Option<nat>>, i: nat)
    requires BackupInv(st, s, ins) && i < |s.logins| && s.logins[i].pc.BackingUp?
    requires s'.store.users == s.store.users && s'.store.nextUser == s.store.nextUser
    requires s'.store.backups == s.store.backups + [BackupRow(s.logins[i].pc.userId)]
    requires OnlyMoves(s, s', i) && IsCreated(s'.logins[i].pc)
    ensures BackupInv(st, s', ins)
  {
    assert InsertInv(st, s, ins, i);
    var id := s.logins[i].pc.userId;
    BackupAdded(s.store, id, s'.store);
    forall l | 0 <= l < |ins| ensures InsertInv(st, s', ins, l) {
      assert InsertInv(st, s, ins, l);
    }
  }

  lemma GoStep(st: Store, s: State, ins: seq<Option<nat>>, i: nat, c: Crypto)
    requires BackupInv(st, s, ins) && KeysHold(s.store) && Enabled(s, Go(i), c)
    ensures var s' := Apply(s, Go(i), c);
      var pc := s'.logins[i].pc;
      BackupInv(st, s', if pc.BackingUp? then ins[i := Some(pc.userId)] else ins)
  {
    var s' := Apply(s, Go(i), c);
    assert InsertInv(st, s, ins, i);
    match s.logins[i].pc
    case AddingUser(groupId) =>
      if s'.logins[i].pc.BackingUp? {
        AddUserStep(st, s, s', ins, i, s'.store.users[|s.store.users|]);
      } else {
        QuietStep(st, s, s', ins, i);
      }
    case BackingUp(_) => BackUpStep(st, s, s', ins, i);
    case _ => QuietStep(st, s, s', ins, i);
  }

  lemma BackupInvStep(st: Store, steps: seq<Step>, c: Crypto)
    requires KeysHold(st) && steps != [] && After(st, steps, c).Some?
    requires BackupInv(st, After(st, steps[..|steps| - 1], c).value, Inserted(st, steps[..|steps| - 1], c))
    ensures BackupInv(st, After(st, steps, c).value, Inserted(st, steps, c))
  {
    var n := |steps| - 1;
    var s := After(st, steps[..n], c).value;
    var ins := Inserted(st, steps[..n], c);
    match steps[n]
    case Start(a) => StartStep(st, s, ins, a);
    case Fail(i, error) =>
      assert InsertInv(st, s, ins, i);
      QuietStep(st, s, Apply(s, Fail(i, error), c), ins, i);
    case Go(i) =>
      InvAfter(st, steps[..n], c);
      GoStep(st, s, ins, i, c);
  }

  lemma {:induction false} BackupInvAfter(st: Store, steps: seq<Step>, c: Crypto)
    requires KeysHold(st) && BackupKeys(st) && After(st, steps, c).Some?
    ensures BackupInv(st, After(st, steps, c).value, Inserted(st, steps, c))
  {
    if steps != [] {
      BackupInvAfter(st, steps[..|steps| - 1], c);
      BackupInvStep(st, steps, c);
    }
  }

  /** Login `l` has inserted this user row but has not got as far as its backup, or never will. */
  predicate WithoutBackup(s: State, ins: seq<Option<nat>>, id: nat, l: nat)
    requires |ins| == |s.logins|
  {
    InsertedBy(ins, id, l) && (s.logins[l].pc.BackingUp? || (s.logins[l].pc.Ended? && s.logins[l].pc.reply.Failed?))
  }

  /** Whether user `i` has a backup, told by the state at the start and the logins since. */
  ghost predicate Accounted(st: Store, s: State, ins: seq<Option<nat>>, i: nat)
    requires |ins| == |s.logins| && i < |s.store.users|
  {
    var id := s.store.users[i].id;
    if i < |st.users| then HasBackup(s.store, id) <==> HasBackup(st, id)
    else !HasBackup(s.store, id) <==> exists l: nat :: WithoutBackup(s, ins, id, l)
  }

  lemma NewUserAccounted(st: Store, s: State, ins: seq<Option<nat>>, i: nat)
    requires BackupInv(st, s, ins) && i < |s.store.users| && st.nextUser <= s.store.users[i].id
    ensures !HasBackup(s.store, s.store.users[i].id) <==> exists l: nat :: WithoutBackup(s, ins, s.store.users[i].id, l)
  {
    var id := s.store.users[i].id;
    var l: nat :| InsertedBy(ins, id, l);
    assert InsertInv(st, s, ins, l);
    if !HasBackup(s.store, id) { assert WithoutBackup(s, ins, id, l); }
    forall m: nat | WithoutBackup(s, ins, id, m) ensures !HasBackup(s.store, id) { assert InsertInv(st, s, ins, m); }
  }

  lemma UserAccounted(st: Store, s: State, ins: seq<Option<nat>>, i: nat)
    requires KeysHold(st) && BackupInv(st, s, ins) && Extends(st, s.store) && i < |s.store.users|
    requires i >= |st.users| ==> st.nextUser <= s.store.users[i].id
    ensures Accounted(st, s, ins, i)
  {
    if i < |st.users| {
      assert s.store.users[i] == st.users[i];
    } else {
      NewUserAccounted(st, s, ins, i);
    }
  }

  /**
   In every interleaving each backup is of one user and no user has two. Users that were
   there keep having one or none; of the new ones exactly those have none whose login
   stands between its two inserts or has failed there.
   */
  lemma BackupsAccounted(st: Store, steps: seq<Step>, c: Crypto)
    requires KeysHold(st) && BackupKeys(st) && After(st, steps, c).Some?
    ensures var s := After(st, steps, c).value;
      && BackupKeys(s.store)
      && forall i :: 0 <= i < |s.store.users| ==> Accounted(st, s, Inserted(st, steps, c), i)
  {
    BackupInvAfter(st, steps, c);
    InvAfter(st, steps, c);
    NewIdsFollow(st, steps, c);
    var s, ins := After(st, steps, c).value, Inserted(st, steps, c);
    forall i | 0 <= i < |s.store.users| ensures Accounted(st, s, ins, i) { UserAccounted(st, s, ins, i); }
  }

  lemma {:induction false} NewIdsFollow(st: Store, steps: seq<Step>, c: Crypto)
    requires KeysHold(st) && After(st, steps, c).Some?
    ensures var st' := After(st, steps, c).value.store;
      && |st.users| <= |st'.users| && st.nextUser <= st'.nextUser
      && forall i :: |st.users| <= i < |st'.users| ==> st.nextUser <= st'.users[i].id
  {
    if steps != [] { NewIdsFollow(st, steps[..|steps| - 1], c); }
  }
}
