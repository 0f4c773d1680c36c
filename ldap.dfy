/** The directory membership resolver (inviter/ldap.py). The directory
    search is an oracle from (base DN, filter) to the matching entries; the
    connection, the bind and the transport are not modelled. */
module Ldap {
  import opened Wrappers
  import opened Config
  import opened MatrixUtils
  import opened Utils

  /** One search result: its DN and the values of its `uid` attribute. */
  datatype LdapEntry = LdapEntry(dn: string, uids: seq<string>)

  /** The subtree search for `uid`: the entries found, None when the search
      raised. */
  type SearchOracle = (string, string) -> Option<seq<LdapEntry>>

  /** The filter "members of the group AND the configured user filter", in
      the string syntax of section 3 of RFC 4515, built by plain
      concatenation: the group is not escaped. */
  function SearchFilter(userFilter: string, ldapGroup: string): (f: string)
    ensures |f| == |userFilter| + |ldapGroup| + 14
    ensures f[..2] == "(&" && f[|f| - 2..] == "))"
  {
    "(&" + userFilter + "(memberOf=" + ldapGroup + "))"
  }

  /** The group stands verbatim at a fixed place in the filter, between
      "(memberOf=" and the closing "))", and the user filter right after
      "(&". */
  lemma FilterEmbedsGroupVerbatim(userFilter: string, ldapGroup: string)
    ensures var f := SearchFilter(userFilter, ldapGroup);
      && |f| == |userFilter| + |ldapGroup| + 14
      && f[..2] == "(&"
      && f[2..|userFilter| + 2] == userFilter
      && f[|userFilter| + 2..|userFilter| + 12] == "(memberOf="
      && f[|userFilter| + 12..|f| - 2] == ldapGroup
      && f[|f| - 2..] == "))"
  {
  }

  /** Under one user filter, distinct groups give distinct filters. */
  lemma SearchFilterInjective(userFilter: string, g1: string, g2: string)
    requires SearchFilter(userFilter, g1) == SearchFilter(userFilter, g2)
    ensures g1 == g2
  {
    FilterEmbedsGroupVerbatim(userFilter, g1);
    FilterEmbedsGroupVerbatim(userFilter, g2);
  }

  /** The Matrix user id `@uid:homeserver`. */
  function Mxid(uid: string, homeserver: string): (m: string)
    ensures |m| == |uid| + |homeserver| + 2
    ensures m[0] == '@' && m[1..|uid| + 1] == uid && m[|uid| + 1] == ':'
  {
    "@" + uid + ":" + homeserver
  }

  /** Under one homeserver, distinct uids give distinct mxids. */
  lemma MxidInjective(u1: string, u2: string, homeserver: string)
    requires Mxid(u1, homeserver) == Mxid(u2, homeserver)
    ensures u1 == u2
  {
    var m := Mxid(u1, homeserver);
    assert |u1| == |u2|;
    assert m[1..|u1| + 1] == u1;
    assert Mxid(u2, homeserver)[1..|u2| + 1] == u2;
  }

  /** The mxids of the search results in order, each from the entry's first
      `uid`; fails at the first entry without one. */
  function EntryMxids(entries: seq<LdapEntry>, homeserver: string): Result<seq<string>>
    decreases |entries|
  {
    if entries == [] then Ok([])
    else
      var last := entries[|entries| - 1];
      match EntryMxids(entries[..|entries| - 1], homeserver)
      case Err(e) => Err(e)
      case Ok(ids) =>
        if last.uids == [] then Err(MissingUid(last.dn))
        else Ok(ids + [Mxid(last.uids[0], homeserver)])
  }

  /** An error in a prefix of the results is the error of all of them. */
  lemma {:induction false} EntryMxidsErrorSticks(entries: seq<LdapEntry>, k: nat, homeserver: string)
    requires k <= |entries| && EntryMxids(entries[..k], homeserver).Err?
    ensures EntryMxids(entries, homeserver) == EntryMxids(entries[..k], homeserver)
    decreases |entries| - k
  {
    if k < |entries| {
      assert entries[..|entries| - 1][..k] == entries[..k];
      EntryMxidsErrorSticks(entries[..|entries| - 1], k, homeserver);
    } else {
      assert entries[..k] == entries;
    }
  }

  /** The mxids succeed exactly when every entry has a uid, and then the
      i-th mxid is built from the i-th entry's first uid. */
  lemma {:induction false} EntryMxidsOk(entries: seq<LdapEntry>, homeserver: string)
    ensures EntryMxids(entries, homeserver).Ok? <==> forall i | 0 <= i < |entries| :: entries[i].uids != []
    ensures EntryMxids(entries, homeserver).Ok? ==>
      var ids := EntryMxids(entries, homeserver).value;
      |ids| == |entries| && forall i | 0 <= i < |entries| :: ids[i] == Mxid(entries[i].uids[0], homeserver)
    decreases |entries|
  {
    if entries != [] {
      var init := entries[..|entries| - 1];
      EntryMxidsOk(init, homeserver);
      assert forall i | 0 <= i < |init| :: init[i] == entries[i];
    }
  }

  /** Every mxid of a group gets the group's level; repeated mxids collapse
      into one key. */
  function GroupUserMap(mxids: seq<string>, powerLevel: int): UserInfoMap {
    map mxid | mxid in mxids :: UserInfo(powerLevel)
  }

  /** What `get_matrix_users_of_ldap_group` returns for one group. */
  function GroupUsers(config: LdapConfig, search: SearchOracle, ldapGroup: string, powerLevel: int): Result<UserInfoMap> {
    var filter := SearchFilter(config.userFilter, ldapGroup);
    match search(config.baseDn, filter)
    case None => Err(SearchFailed(filter))
    case Some(entries) =>
      match EntryMxids(entries, config.mxidHomeserver)
      case Err(e) => Err(e)
      case Ok(ids) => Ok(GroupUserMap(ids, powerLevel))
  }

  /** A group's map holds exactly the mxids of the search results, each with
      the rule's level. */
  lemma GroupUsersContents(config: LdapConfig, search: SearchOracle, ldapGroup: string, powerLevel: int)
    requires GroupUsers(config, search, ldapGroup, powerLevel).Ok?
    ensures var entries := search(config.baseDn, SearchFilter(config.userFilter, ldapGroup));
      var m := GroupUsers(config, search, ldapGroup, powerLevel).value;
      && entries.Some?
      && (forall e | e in entries.value :: e.uids != [] && Mxid(e.uids[0], config.mxidHomeserver) in m)
      && (forall x | x in m :: exists e :: e in entries.value && e.uids != [] && x == Mxid(e.uids[0], config.mxidHomeserver))
      && (forall x | x in m :: m[x] == UserInfo(powerLevel))
  {
    var entries := search(config.baseDn, SearchFilter(config.userFilter, ldapGroup)).value;
    EntryMxidsOk(entries, config.mxidHomeserver);
    var ids := EntryMxids(entries, config.mxidHomeserver).value;
    var m := GroupUsers(config, search, ldapGroup, powerLevel).value;
    forall e | e in entries ensures e.uids != [] && Mxid(e.uids[0], config.mxidHomeserver) in m {
      var i :| 0 <= i < |entries| && entries[i] == e;
      assert ids[i] in ids;
    }
    forall x | x in m ensures exists e :: e in entries && e.uids != [] && x == Mxid(e.uids[0], config.mxidHomeserver) {
      var i :| 0 <= i < |ids| && ids[i] == x;
      assert entries[i] in entries;
    }
  }

  /** What one rule contributes: its group, template-expanded, searched
      with the rule's level; a missing level is a KeyError. */
  function RuleUsers(config: LdapConfig, search: SearchOracle, rule: LdapMemberConfig, templateArg: string): Result<UserInfoMap> {
    match TemplateRoomAlias(rule.ldapGroup, templateArg)
    case Err(e) => Err(e)
    case Ok(group) =>
      match rule.powerLevel
      case None => Err(MissingKey("power_level"))
      case Some(level) => GroupUsers(config, search, group, level)
  }

  /** The filter a rule searches with, None when the rule fails before its
      search. */
  function RuleFilter(config: LdapConfig, rule: LdapMemberConfig, templateArg: string): Option<string> {
    match TemplateRoomAlias(rule.ldapGroup, templateArg)
    case Err(_) => None
    case Ok(group) => if rule.powerLevel.None? then None else Some(SearchFilter(config.userFilter, group))
  }

  /** The combined roster of a room's rules: the rules are applied in order,
      each one's map written over the previous ones; the first failure is
      the result. */
  function ResolveRules(config: LdapConfig, search: SearchOracle, rules: seq<LdapMemberConfig>, templateArg: string): Result<UserInfoMap>
    decreases |rules|
  {
    if rules == [] then Ok(map[])
    else
      match ResolveRules(config, search, rules[..|rules| - 1], templateArg)
      case Err(e) => Err(e)
      case Ok(acc) =>
        match RuleUsers(config, search, rules[|rules| - 1], templateArg)
        case Err(e) => Err(e)
        case Ok(users) => Ok(acc + users)
  }

  /** The filters of the searches the resolution issues, in order, up to
      and including the failing rule's search if it got that far. */
  function IssuedFilters(config: LdapConfig, search: SearchOracle, rules: seq<LdapMemberConfig>, templateArg: string): seq<string>
    decreases |rules|
  {
    if rules == [] then []
    else
      var prior := IssuedFilters(config, search, rules[..|rules| - 1], templateArg);
      if ResolveRules(config, search, rules[..|rules| - 1], templateArg).Err? then prior
      else
        match RuleFilter(config, rules[|rules| - 1], templateArg)
        case None => prior
        case Some(f) => prior + [f]
  }

  /** Once a prefix of the rules fails, the rest changes neither the result
      nor the searches issued. */
  lemma {:induction false} ResolveErrorSticks(config: LdapConfig, search: SearchOracle, rules: seq<LdapMemberConfig>, k: nat, templateArg: string)
    requires k <= |rules| && ResolveRules(config, search, rules[..k], templateArg).Err?
    ensures ResolveRules(config, search, rules, templateArg) == ResolveRules(config, search, rules[..k], templateArg)
    ensures IssuedFilters(config, search, rules, templateArg) == IssuedFilters(config, search, rules[..k], templateArg)
    decreases |rules| - k
  {
    if k < |rules| {
      assert rules[..|rules| - 1][..k] == rules[..k];
      ResolveErrorSticks(config, search, rules[..|rules| - 1], k, templateArg);
    } else {
      assert rules[..k] == rules;
    }
  }

  /** One more rule: its map is written over the prefix's, and its search,
      if it gets that far, is issued after the prefix's. */
  lemma ResolveStep(config: LdapConfig, search: SearchOracle, rules: seq<LdapMemberConfig>, i: nat, templateArg: string)
    requires i < |rules| && ResolveRules(config, search, rules[..i], templateArg).Ok?
    ensures ResolveRules(config, search, rules[..i + 1], templateArg) ==
      match RuleUsers(config, search, rules[i], templateArg)
      case Err(e) => Err(e)
      case Ok(users) => Ok(ResolveRules(config, search, rules[..i], templateArg).value + users)
    ensures IssuedFilters(config, search, rules[..i + 1], templateArg) ==
      IssuedFilters(config, search, rules[..i], templateArg)
        + match RuleFilter(config, rules[i], templateArg) case None => [] case Some(f) => [f]
  {
    assert rules[..i + 1][..i] == rules[..i];
  }

  /** A failing rule ends the resolution with its error, after the
      searches of the rules before it and its own search, if it got that
      far. */
  lemma ResolveStopsAt(config: LdapConfig, search: SearchOracle, rules: seq<LdapMemberConfig>, i: nat, templateArg: string)
    requires i < |rules| && ResolveRules(config, search, rules[..i], templateArg).Ok?
    requires RuleUsers(config, search, rules[i], templateArg).Err?
    ensures ResolveRules(config, search, rules, templateArg) == Err(RuleUsers(config, search, rules[i], templateArg).error)
    ensures IssuedFilters(config, search, rules, templateArg) ==
      IssuedFilters(config, search, rules[..i], templateArg)
        + match RuleFilter(config, rules[i], templateArg) case None => [] case Some(f) => [f]
  {
    ResolveStep(config, search, rules, i, templateArg);
    ResolveErrorSticks(config, search, rules, i + 1, templateArg);
  }

  /** A successful resolution succeeded on every rule, and its keys are the
      union of the rules' keys. */
  lemma {:induction false} ResolveRulesKeys(config: LdapConfig, search: SearchOracle, rules: seq<LdapMemberConfig>, templateArg: string)
    requires ResolveRules(config, search, rules, templateArg).Ok?
    ensures forall i | 0 <= i < |rules| :: RuleUsers(config, search, rules[i], templateArg).Ok?
    ensures forall x :: x in ResolveRules(config, search, rules, templateArg).value <==>
      exists i :: 0 <= i < |rules| && RuleUsers(config, search, rules[i], templateArg).Ok?
        && x in RuleUsers(config, search, rules[i], templateArg).value
    decreases |rules|
  {
    if rules != [] {
      var init := rules[..|rules| - 1];
      ResolveRulesKeys(config, search, init, templateArg);
      assert forall i | 0 <= i < |init| :: init[i] == rules[i];
      var m := ResolveRules(config, search, rules, templateArg).value;
      forall x | x in m
        ensures exists i :: (0 <= i < |rules| && RuleUsers(config, search, rules[i], templateArg).Ok?
          && x in RuleUsers(config, search, rules[i], templateArg).value)
      {
        if x !in RuleUsers(config, search, rules[|rules| - 1], templateArg).value {
          var i :| 0 <= i < |init| && RuleUsers(config, search, init[i], templateArg).Ok?
            && x in RuleUsers(config, search, init[i], templateArg).value;
          assert rules[i] == init[i];
        }
      }
      forall x, i | 0 <= i < |rules| && RuleUsers(config, search, rules[i], templateArg).Ok?
          && x in RuleUsers(config, search, rules[i], templateArg).value
        ensures x in m
      {
        if i < |init| {
          assert init[i] == rules[i];
        }
      }
    }
  }

  /** For an mxid found by several rules, the last such rule decides its
      level; the empty rule list gives the empty roster. */
  lemma {:induction false} ResolveRulesLastWins(config: LdapConfig, search: SearchOracle, rules: seq<LdapMemberConfig>, templateArg: string, i: nat, x: string)
    requires ResolveRules(config, search, rules, templateArg).Ok?
    requires i < |rules|
    requires RuleUsers(config, search, rules[i], templateArg).Ok? && x in RuleUsers(config, search, rules[i], templateArg).value
    requires forall j | i < j < |rules| ::
      RuleUsers(config, search, rules[j], templateArg).Ok? ==> x !in RuleUsers(config, search, rules[j], templateArg).value
    ensures rules[i].powerLevel.Some?
    ensures x in ResolveRules(config, search, rules, templateArg).value
    ensures ResolveRules(config, search, rules, templateArg).value[x] == UserInfo(rules[i].powerLevel.value)
    decreases |rules|
  {
    var init := rules[..|rules| - 1];
    var group := TemplateRoomAlias(rules[i].ldapGroup, templateArg).value;
    GroupUsersContents(config, search, group, rules[i].powerLevel.value);
    if i < |rules| - 1 {
      assert init[i] == rules[i];
      ResolveRulesLastWins(config, search, init, templateArg, i, x);
    }
  }

  /** When resolution succeeds it has issued one search per rule, in rule
      order, each for the rule's group expanded with the run's argument. */
  lemma {:induction false} IssuedFiltersOnSuccess(config: LdapConfig, search: SearchOracle, rules: seq<LdapMemberConfig>, templateArg: string)
    requires ResolveRules(config, search, rules, templateArg).Ok?
    ensures var fs := IssuedFilters(config, search, rules, templateArg);
      && |fs| == |rules|
      && forall i | 0 <= i < |rules| ::
        TemplateRoomAlias(rules[i].ldapGroup, templateArg).Ok?
        && fs[i] == SearchFilter(config.userFilter, TemplateRoomAlias(rules[i].ldapGroup, templateArg).value)
    decreases |rules|
  {
    if rules != [] {
      var init := rules[..|rules| - 1];
      IssuedFiltersOnSuccess(config, search, init, templateArg);
      assert forall i | 0 <= i < |init| :: init[i] == rules[i];
    }
  }

  /** `LDAPManager`: the directory settings, the search oracle, and the
      filters of the searches issued so far. */
  class LdapManager {
    const config: LdapConfig
    const search: SearchOracle
    var searchLog: seq<string>

    /** `__init__` without the connection and the bind. */
    constructor (config: LdapConfig, search: SearchOracle)
      ensures this.config == config && this.search == search && searchLog == []
    {
      this.config := config;
      this.search := search;
      searchLog := [];
    }

    /** `get_matrix_users_of_ldap_group`: one search, then one map entry per
        result. */
    method GetMatrixUsersOfLdapGroup(ldapGroup: string, powerLevel: int) returns (r: Result<UserInfoMap>)
      modifies this
      ensures searchLog == old(searchLog) + [SearchFilter(config.userFilter, ldapGroup)]
      ensures r == GroupUsers(config, search, ldapGroup, powerLevel)
    {
      var ldapFilter := SearchFilter(config.userFilter, ldapGroup);
      searchLog := searchLog + [ldapFilter];
      var groupMembers := search(config.baseDn, ldapFilter);
      if groupMembers.None? {
        return Err(SearchFailed(ldapFilter));
      }
      var entries := groupMembers.value;
      var userMap: UserInfoMap := map[];
      ghost var mxids: seq<string> := [];
      for i := 0 to |entries|
        invariant EntryMxids(entries[..i], config.mxidHomeserver) == Ok(mxids)
        invariant userMap == GroupUserMap(mxids, powerLevel)
      {
        var member := entries[i];
        assert entries[..i + 1][..i] == entries[..i];
        if member.uids == [] {
          EntryMxidsErrorSticks(entries, i + 1, config.mxidHomeserver);
          return Err(MissingUid(member.dn));
        }
        var mxid := Mxid(member.uids[0], config.mxidHomeserver);
        userMap := userMap[mxid := UserInfo(powerLevel)];
        mxids := mxids + [mxid];
      }
      assert entries[..|entries|] == entries;
      r := Ok(userMap);
    }

    /** `get_all_matrix_users_of_sync_room`: the rules in order, each
        group's map written over the accumulated one. */
    method GetAllMatrixUsersOfSyncRoom(ldapMembers: seq<LdapMemberConfig>, templateArg: string) returns (r: Result<UserInfoMap>)
      modifies this
      ensures r == ResolveRules(config, search, ldapMembers, templateArg)
      ensures searchLog == old(searchLog) + IssuedFilters(config, search, ldapMembers, templateArg)
    {
      var userInfoMap: UserInfoMap := map[];
      for i := 0 to |ldapMembers|
        invariant ResolveRules(config, search, ldapMembers[..i], templateArg) == Ok(userInfoMap)
        invariant searchLog == old(searchLog) + IssuedFilters(config, search, ldapMembers[..i], templateArg)
      {
        var memberConfig := ldapMembers[i];
        var group := TemplateRoomAlias(memberConfig.ldapGroup, templateArg);
        if group.Err? {
          ResolveStopsAt(config, search, ldapMembers, i, templateArg);
          return Err(group.error);
        }
        if memberConfig.powerLevel.None? {
          ResolveStopsAt(config, search, ldapMembers, i, templateArg);
          return Err(MissingKey("power_level"));
        }
        var users := GetMatrixUsersOfLdapGroup(group.value, memberConfig.powerLevel.value);
        if users.Err? {
          ResolveStopsAt(config, search, ldapMembers, i, templateArg);
          return Err(users.error);
        }
        ResolveStep(config, search, ldapMembers, i, templateArg);
        userInfoMap := userInfoMap + users.value;
      }
      assert ldapMembers[..|ldapMembers|] == ldapMembers;
      r := Ok(userInfoMap);
    }
  }
}
