/** The configuration shapes the inviter reads (inviter/config.py). A key
    that a dictionary may lack is an `Option`, `None` meaning "absent". */
module Config {
  import opened Wrappers

  /** One directory-group rule of a room: members of `ldapGroup` (a
      template) get `powerLevel`. */
  datatype LdapMemberConfig = LdapMemberConfig(ldapGroup: string, powerLevel: Option<int>)

  /** One statically configured member of a room. */
  datatype MemberConfig = MemberConfig(mxid: string, powerLevel: Option<int>)

  /** One room to keep in sync; `alias` and `name` are templates, and the
      `members` key may be absent. */
  datatype SyncRoomConfig = SyncRoomConfig(
    alias: string,
    visibility: string,
    name: string,
    ldapMembers: seq<LdapMemberConfig>,
    members: Option<seq<MemberConfig>>)

  /** Directory connection parameters. */
  datatype LdapConfig = LdapConfig(
    uri: string,
    baseDn: string,
    connectDn: string,
    connectPassword: string,
    userFilter: string,
    mxidHomeserver: string)

  datatype InviterConfig = InviterConfig(
    syncRooms: seq<SyncRoomConfig>,
    adminUsers: seq<string>,
    ldap: LdapConfig)
}
