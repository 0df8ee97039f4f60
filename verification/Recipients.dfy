/**
 How a transfer or a creation finds its recipient. Names and groups are looked up with
 LIKE here, while a login compares the name with `=`.
 */
module Recipients {
  import opened Common
  import opened Sql
  import opened Login

  // ---- users ---------------------------------------------------------------

  /** The first user of the group whose name is LIKE the given one. */
  function LoadUser(users: seq<UserRow>, name: string, groupId: nat): (r: Option<UserRow>)
    ensures r.None? <==> forall i :: 0 <= i < |users| ==> !(Like(users[i].name, name) && users[i].groupId == groupId)
    ensures r.Some? ==> r.value in users && Like(r.value.name, name) && r.value.groupId == groupId
  {
    if users == [] then None
    else if Like(users[0].name, name) && users[0].groupId == groupId then Some(users[0])
    else LoadUser(users[1..], name, groupId)
  }

  lemma {:induction false} PlainNameFindsTheUser(users: seq<UserRow>, name: string, groupId: nat)
    requires Plain(name)
    ensures LoadUser(users, name, groupId) == FindUser(users, name, groupId)
  {
    if users != [] {
      PlainLikeIsSameText(users[0].name, name);
      PlainNameFindsTheUser(users[1..], name, groupId);
    }
  }

  /**
   The recipient is the user who logs in under the given name, whatever the table
   holds, exactly when the name has no wildcard and no escape.
   */
  lemma RecipientIsTheUserIffPlain(name: string)
    ensures (forall users: seq<UserRow>, groupId: nat ::
               LoadUser(users, name, groupId) == FindUser(users, name, groupId))
            <==> Plain(name)
  {
    if Plain(name) {
      forall users: seq<UserRow>, groupId: nat
        ensures LoadUser(users, name, groupId) == FindUser(users, name, groupId)
      {
        PlainNameFindsTheUser(users, name, groupId);
      }
    } else {
      var somebody := UserRow(1, OtherMatchOf(name), 1, 0, "", "");
      assert LoadUser([somebody], name, 1) == Some(somebody) && FindUser([somebody], name, 1) == None;
    }
  }

  // ---- groups --------------------------------------------------------------

  /** As every login leaves it. */
  predicate AliasesStoredValid(groups: seq<GroupRow>) {
    forall i :: 0 <= i < |groups| ==> ValidAlias(groups[i].groupAlias)
  }

  /** An alias that finds a group is valid exactly when it is written as in the row it finds. */
  lemma FoundAliasIsValidIffExact(groups: seq<GroupRow>, groupAlias: string)
    requires AliasesStoredValid(groups) && FindGroup(groups, groupAlias).Some?
    ensures ValidAlias(groupAlias) <==> groupAlias == FindGroup(groups, groupAlias).value.groupAlias
  {
    var row := FindGroup(groups, groupAlias).value;
    assert ValidAlias(row.groupAlias);
    if ValidAlias(groupAlias) { LikeIsEquality(row.groupAlias, groupAlias); }
  }

  /** The same alias with other upper and lower case. */
  predicate OtherSpelling(spelling: string, groupAlias: string) {
    SameText(spelling, groupAlias) && spelling != groupAlias
  }

  lemma SpellingFindsAlike(text: string, spelling: string, groupAlias: string)
    requires ValidAlias(text) && ValidAlias(groupAlias) && SameText(spelling, groupAlias)
    ensures Like(text, spelling) <==> Like(text, groupAlias)
  {
    assert forall i :: 0 <= i < |spelling| ==> AliasChar(groupAlias[i]) && Fold(spelling[i]) == Fold(groupAlias[i]);
    PlainLikeIsSameText(text, spelling);
    PlainLikeIsSameText(text, groupAlias);
  }

  /** Another spelling of a valid alias finds the same row and is not valid. */
  lemma {:induction false} OtherSpellingIsFound(groups: seq<GroupRow>, spelling: string, groupAlias: string)
    requires AliasesStoredValid(groups) && ValidAlias(groupAlias) && OtherSpelling(spelling, groupAlias)
    ensures FindGroup(groups, spelling) == FindGroup(groups, groupAlias) && !ValidAlias(spelling)
  {
    if ValidAlias(spelling) { SameAliasIsEquality(spelling, groupAlias); }
    if groups != [] {
      SpellingFindsAlike(groups[0].groupAlias, spelling, groupAlias);
      OtherSpellingIsFound(groups[1..], spelling, groupAlias);
    }
  }

  function UpperCase(s: string): (r: string)
    ensures |r| == |s|
  {
    seq(|s|, i requires 0 <= i < |s| => if 'a' <= s[i] <= 'z' then (s[i] as int - 32) as char else s[i])
  }

  /** Every valid alias with a letter has another spelling. */
  lemma UpperCaseIsOtherSpelling(groupAlias: string, k: nat)
    requires ValidAlias(groupAlias) && k < |groupAlias| && 'a' <= groupAlias[k] <= 'z'
    ensures OtherSpelling(UpperCase(groupAlias), groupAlias)
  {
    assert UpperCase(groupAlias)[k] != groupAlias[k];
    forall i | 0 <= i < |groupAlias| ensures Fold(UpperCase(groupAlias)[i]) == Fold(groupAlias[i]) {
      assert AliasChar(groupAlias[i]);
    }
  }
}
