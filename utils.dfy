/** Template expansion and the static roster (inviter/utils.py). */
module Utils {
  import opened Wrappers
  import opened Strings
  import opened Config
  import opened MatrixUtils

  /** The one placeholder a template may hold. */
  const Placeholder: string := "<1>"

  /** `template_room_alias`: fail when the template holds the placeholder
      but the argument is empty; otherwise replace every placeholder by the
      argument. Used for aliases, names and directory groups alike. */
  function TemplateRoomAlias(alias: string, arg1: string): (r: Result<string>)
    ensures r.Err? <==> Contains(alias, Placeholder) && arg1 == ""
    ensures r.Err? ==> r.error == MissingTemplateArgument(alias)
    ensures r.Ok? ==> r.value == Join(Split(alias, Placeholder), arg1)
  {
    if Contains(alias, Placeholder) && arg1 == "" then
      Err(MissingTemplateArgument(alias))
    else
      ReplaceIsJoinOfSplit(alias, Placeholder, arg1);
      Ok(ReplaceAll(alias, Placeholder, arg1))
  }

  /** A template without the placeholder is returned unchanged, whatever
      the argument, the empty one included. */
  lemma TemplateWithoutPlaceholder(alias: string, arg1: string)
    requires !Contains(alias, Placeholder)
    ensures TemplateRoomAlias(alias, arg1) == Ok(alias)
  {
    ReplaceAbsent(alias, Placeholder, arg1);
  }

  /** `user.get("power_level", 0)`. */
  function LevelOrDefault(member: MemberConfig): int {
    match member.powerLevel
    case Some(level) => level
    case None => 0
  }

  /** The roster a member list denotes: each entry in turn sets its mxid's
      level, so a later entry overrides an earlier one. */
  function UserInfoMapOf(members: seq<MemberConfig>): UserInfoMap
    decreases |members|
  {
    if members == [] then map[]
    else
      var last := members[|members| - 1];
      UserInfoMapOf(members[..|members| - 1])[last.mxid := UserInfo(LevelOrDefault(last))]
  }

  /** `to_user_info_map`. */
  method ToUserInfoMap(memberConfig: seq<MemberConfig>) returns (userInfoMap: UserInfoMap)
    ensures userInfoMap == UserInfoMapOf(memberConfig)
  {
    userInfoMap := map[];
    for i := 0 to |memberConfig|
      invariant userInfoMap == UserInfoMapOf(memberConfig[..i])
    {
      var user := memberConfig[i];
      assert memberConfig[..i + 1][..i] == memberConfig[..i];
      userInfoMap := userInfoMap[user.mxid := UserInfo(LevelOrDefault(user))];
    }
    assert memberConfig[..|memberConfig|] == memberConfig;
  }

  /** The roster holds exactly the listed mxids; an empty list gives an
      empty roster. */
  lemma {:induction false} UserInfoMapKeys(members: seq<MemberConfig>)
    ensures UserInfoMapOf(members).Keys == set i | 0 <= i < |members| :: members[i].mxid
    decreases |members|
  {
    if members != [] {
      var init := members[..|members| - 1];
      UserInfoMapKeys(init);
      assert forall i | 0 <= i < |init| :: init[i] == members[i];
      var s := set i | 0 <= i < |members| :: members[i].mxid;
      var s' := set i | 0 <= i < |init| :: init[i].mxid;
      assert s == s' + {members[|members| - 1].mxid} by {
        forall x | x in s ensures x in s' + {members[|members| - 1].mxid} {
          var i :| 0 <= i < |members| && members[i].mxid == x;
          if i < |init| { assert init[i].mxid == x; }
        }
      }
    }
  }

  /** The level of an mxid comes from its last entry, 0 when that entry has
      no level. */
  lemma {:induction false} UserInfoMapLastWins(members: seq<MemberConfig>, i: nat)
    requires i < |members|
    requires forall j | i < j < |members| :: members[j].mxid != members[i].mxid
    ensures members[i].mxid in UserInfoMapOf(members)
    ensures UserInfoMapOf(members)[members[i].mxid] == UserInfo(LevelOrDefault(members[i]))
    decreases |members|
  {
    if i < |members| - 1 {
      var init := members[..|members| - 1];
      assert init[i] == members[i];
      UserInfoMapLastWins(init, i);
    }
  }
}
