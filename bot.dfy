/** The sync orchestrator (inviter/bot.py): build a room's roster from the
    directory and the static members, then run the five convergence steps
    in a fixed order; rooms are synced in list order and the first failure
    ends the run. Chat replies and logging are not modelled. */
module Bot {
  import opened Wrappers
  import opened Config
  import opened Remote
  import opened MatrixUtils
  import opened Utils
  import opened Ldap

  // ---------------------------------------------------------------------
  // The roster

  /** `room.get("members", [])`. */
  function StaticMembers(room: SyncRoomConfig): seq<MemberConfig> {
    match room.members
    case Some(members) => members
    case None => []
  }

  /** `all_users`: the directory users, then the static users written over
      them. */
  function MergeRoster(ldapUsers: UserInfoMap, staticUsers: UserInfoMap): (roster: UserInfoMap)
    ensures roster.Keys == ldapUsers.Keys + staticUsers.Keys
    ensures forall u | u in staticUsers :: roster[u] == staticUsers[u]
    ensures forall u | u in ldapUsers && u !in staticUsers :: roster[u] == ldapUsers[u]
  {
    map[] + ldapUsers + staticUsers
  }

  /** The roster `sync_room` computes for a room, or the error that stops
      it from doing so. */
  function RoomRoster(ldap: LdapConfig, search: SearchOracle, room: SyncRoomConfig, templateArg: string): (r: Result<UserInfoMap>)
    ensures r.Ok? <==> ResolveRules(ldap, search, room.ldapMembers, templateArg).Ok?
    ensures r.Err? ==> r == Err(ResolveRules(ldap, search, room.ldapMembers, templateArg).error)
    ensures r.Ok? ==> ResolveRules(ldap, search, room.ldapMembers, templateArg).value.Keys <= r.value.Keys
  {
    match ResolveRules(ldap, search, room.ldapMembers, templateArg)
    case Err(e) => Err(e)
    case Ok(ldapUsers) => Ok(MergeRoster(ldapUsers, UserInfoMapOf(StaticMembers(room))))
  }

  /** The roster's users are the directory users and the static users. */
  lemma RoomRosterKeys(ldap: LdapConfig, search: SearchOracle, room: SyncRoomConfig, templateArg: string)
    requires RoomRoster(ldap, search, room, templateArg).Ok?
    ensures var members := StaticMembers(room);
      RoomRoster(ldap, search, room, templateArg).value.Keys ==
        ResolveRules(ldap, search, room.ldapMembers, templateArg).value.Keys
          + set i | 0 <= i < |members| :: members[i].mxid
  {
    UserInfoMapKeys(StaticMembers(room));
  }

  /** A static entry decides its mxid's level whatever the directory says:
      its own level, or 0 when it has none (the last entry for an mxid
      counts). */
  lemma StaticEntryOverridesDirectory(ldap: LdapConfig, search: SearchOracle, room: SyncRoomConfig, templateArg: string, i: nat)
    requires RoomRoster(ldap, search, room, templateArg).Ok?
    requires i < |StaticMembers(room)|
    requires forall j | i < j < |StaticMembers(room)| :: StaticMembers(room)[j].mxid != StaticMembers(room)[i].mxid
    ensures var member := StaticMembers(room)[i];
      && member.mxid in RoomRoster(ldap, search, room, templateArg).value
      && RoomRoster(ldap, search, room, templateArg).value[member.mxid] == UserInfo(LevelOrDefault(member))
  {
    UserInfoMapLastWins(StaticMembers(room), i);
  }

  /** A room without `members` gets the directory roster as it is. */
  lemma NoStaticMembersMeansDirectoryRoster(ldap: LdapConfig, search: SearchOracle, room: SyncRoomConfig, templateArg: string)
    requires room.members.None?
    ensures RoomRoster(ldap, search, room, templateArg) == ResolveRules(ldap, search, room.ldapMembers, templateArg)
  {
    assert UserInfoMapOf(StaticMembers(room)) == map[];
    match ResolveRules(ldap, search, room.ldapMembers, templateArg)
    case Err(_) =>
    case Ok(ldapUsers) =>
      assert MergeRoster(ldapUsers, map[]) == ldapUsers;
  }

  // ---------------------------------------------------------------------
  // Converged rooms and step order

  /** A room in the state the five steps aim at. */
  predicate Converged(room: Room, name: string, roster: UserInfoMap, visibility: string) {
    && DisplayedName(room) == name
    && (forall u | u in roster :: Present(room.memberEvents, u))
    && PowerLevelsAfter(room.users, roster) == room.users
    && VisibilityName(room.visibility) == visibility
  }

  /** The room config is already fully applied on the server: the alias
      resolves to a room that is converged. */
  ghost predicate Synced(s: Server, ldap: LdapConfig, search: SearchOracle, room: SyncRoomConfig, templateArg: string) {
    && Resolvable(ldap, search, room, templateArg)
    && Lookup(s.aliases, TemplateRoomAlias(room.alias, templateArg).value).Found?
    && Lookup(s.aliases, TemplateRoomAlias(room.alias, templateArg).value).id in s.rooms
    && Converged(s.rooms[Lookup(s.aliases, TemplateRoomAlias(room.alias, templateArg).value).id],
         TemplateRoomAlias(room.name, templateArg).value,
         RoomRoster(ldap, search, room, templateArg).value,
         room.visibility)
  }

  /** The step a mutating call belongs to. */
  function Step(c: Call): nat {
    match c
    case Created(_, _) => 0
    case NameSent(_, _) => 1
    case Invited(_, _) => 2
    case PowerLevelsSent(_, _) => 3
    case VisibilitySet(_, _) => 4
  }

  /** Calls ordered by step: room, name, invitees, power levels,
      visibility. */
  predicate InStepOrder(calls: seq<Call>) {
    forall i, j | 0 <= i < j < |calls| :: Step(calls[i]) <= Step(calls[j])
  }

  predicate StepsAtMost(calls: seq<Call>, s: nat) {
    forall c | c in calls :: Step(c) <= s
  }

  predicate StepsAtLeast(calls: seq<Call>, s: nat) {
    forall c | c in calls :: s <= Step(c)
  }

  /** Appending a block of one later step keeps the calls in step order. */
  lemma {:induction false} AppendStep(a: seq<Call>, b: seq<Call>, s: nat)
    requires InStepOrder(a) && StepsAtMost(a, s)
    requires forall c | c in b :: Step(c) == s
    ensures InStepOrder(a + b) && StepsAtMost(a + b, s)
  {
    forall i, j | 0 <= i < j < |a + b| ensures Step((a + b)[i]) <= Step((a + b)[j]) {
      if j < |a| {
        assert (a + b)[i] == a[i] && (a + b)[j] == a[j];
      } else if i < |a| {
        assert (a + b)[i] in a;
        assert (a + b)[j] in b;
      } else {
        assert (a + b)[i] in b && (a + b)[j] in b;
      }
    }
  }

  /** Appending an ordered block of steps no earlier than `s` keeps the
      calls in step order. */
  lemma {:induction false} AppendOrdered(a: seq<Call>, b: seq<Call>, s: nat)
    requires InStepOrder(a) && StepsAtMost(a, s)
    requires InStepOrder(b) && StepsAtLeast(b, s)
    ensures InStepOrder(a + b)
  {
    forall i, j | 0 <= i < j < |a + b| ensures Step((a + b)[i]) <= Step((a + b)[j]) {
      if j < |a| {
        assert (a + b)[i] == a[i] && (a + b)[j] == a[j];
      } else if i < |a| {
        assert (a + b)[i] in a;
        assert (a + b)[j] in b;
      } else {
        assert (a + b)[i] == b[i - |a|] && (a + b)[j] == b[j - |a|];
      }
    }
  }

  // ---------------------------------------------------------------------
  // What one sync does to its room

  /** The room as the visibility step finds it: named, invitees invited,
      power levels written. */
  function BeforeVisibility(room: Room, name: string, roster: UserInfoMap, invited: seq<string>): Room {
    PoweredRoom(InvitedRoom(RenamedRoom(room, name), invited), roster)
  }

  /** The room after the name, invitee, power-level and visibility steps,
      given the order the invites went out in. */
  function SyncedRoom(room: Room, name: string, roster: UserInfoMap, invited: seq<string>, visibility: string): Room {
    VisibleRoom(BeforeVisibility(room, name, roster, invited), visibility)
  }

  /** The calls of the invitee, power-level and visibility steps. */
  function MemberCalls(id: RoomId, room: Room, name: string, roster: UserInfoMap, invited: seq<string>, visibility: string): seq<Call> {
    InviteCalls(id, invited)
      + [PowerLevelsSent(id, BeforeVisibility(room, name, roster, invited).users)]
      + VisibilityCalls(id, BeforeVisibility(room, name, roster, invited), visibility)
  }

  /** The calls of all four steps, in the order they are issued. */
  function SyncCalls(id: RoomId, room: Room, name: string, roster: UserInfoMap, invited: seq<string>, visibility: string): seq<Call> {
    NameCalls(id, room, name) + MemberCalls(id, room, name, roster, invited, visibility)
  }

  /** When the visibility step succeeds, the four steps leave the room
      converged. */
  lemma SyncedRoomConverged(room: Room, name: string, roster: UserInfoMap, invited: seq<string>, visibility: string)
    requires InviteOrder(room.memberEvents, roster, invited)
    requires VisibilityChange(BeforeVisibility(room, name, roster, invited), visibility).Ok?
    ensures Converged(SyncedRoom(room, name, roster, invited, visibility), name, roster, visibility)
  {
    var named := RenamedRoom(room, name);
    InviteStepCovers(named.memberEvents, invited, roster);
  }

  /** Invites, then power-level writes, then visibility changes: in step
      order, none before the invites. */
  lemma {:induction false} MemberBlocksInStepOrder(inviteCalls: seq<Call>, powerCalls: seq<Call>, visibilityCalls: seq<Call>)
    requires forall c | c in inviteCalls :: Step(c) == 2
    requires forall c | c in powerCalls :: Step(c) == 3
    requires forall c | c in visibilityCalls :: Step(c) == 4
    ensures InStepOrder(inviteCalls + powerCalls + visibilityCalls)
    ensures StepsAtLeast(inviteCalls + powerCalls + visibilityCalls, 2)
  {
    assert [] + inviteCalls == inviteCalls;
    AppendStep([], inviteCalls, 2);
    AppendStep(inviteCalls, powerCalls, 3);
    AppendStep(inviteCalls + powerCalls, visibilityCalls, 4);
  }

  /** The four steps issue their calls in step order. */
  lemma {:induction false} SyncCallsInStepOrder(id: RoomId, room: Room, name: string, roster: UserInfoMap, invited: seq<string>, visibility: string)
    ensures InStepOrder(SyncCalls(id, room, name, roster, invited, visibility))
  {
    var before := BeforeVisibility(room, name, roster, invited);
    var nameCalls := NameCalls(id, room, name);
    var inviteCalls := InviteCalls(id, invited);
    var powerCalls := [PowerLevelsSent(id, before.users)];
    var visibilityCalls := VisibilityCalls(id, before, visibility);
    var memberCalls := MemberCalls(id, room, name, roster, invited, visibility);
    assert memberCalls == inviteCalls + powerCalls + visibilityCalls;
    InviteCallsAreInvites(id, invited);
    MemberBlocksInStepOrder(inviteCalls, powerCalls, visibilityCalls);
    assert [] + nameCalls == nameCalls;
    AppendStep([], nameCalls, 1);
    AppendOrdered(nameCalls, memberCalls, 1);
  }

  /** On a converged room the four steps change nothing and issue exactly
      one call: the power-level write. */
  lemma SyncIdempotent(id: RoomId, room: Room, name: string, roster: UserInfoMap, invited: seq<string>, visibility: string)
    requires Converged(room, name, roster, visibility)
    requires InviteOrder(room.memberEvents, roster, invited)
    ensures invited == []
    ensures BeforeVisibility(room, name, roster, invited) == room
    ensures SyncedRoom(room, name, roster, invited, visibility) == room
    ensures VisibilityChange(room, visibility) == Ok(None)
    ensures SyncCalls(id, room, name, roster, invited, visibility) == [PowerLevelsSent(id, room.users)]
  {
    InviteNobodyWhenAllPresent(room, roster, invited);
    assert room.(users := room.users) == room;
    assert InviteCalls(id, invited) == [];
  }

  // ---------------------------------------------------------------------
  // Syncing

  /** Everything `sync_room` computes from the configuration alone
      succeeds: both templates and the roster. */
  predicate Resolvable(ldap: LdapConfig, search: SearchOracle, room: SyncRoomConfig, templateArg: string) {
    && TemplateRoomAlias(room.alias, templateArg).Ok?
    && TemplateRoomAlias(room.name, templateArg).Ok?
    && RoomRoster(ldap, search, room, templateArg).Ok?
  }

  /** The invitee, power-level and visibility steps of `sync_room`, on a
      room that exists and already carries its name. */
  method MemberSteps(hs: Homeserver, id: RoomId, ghost room: Room, ghost name: string, roster: UserInfoMap, visibility: string)
    returns (r: Result<()>, ghost invited: seq<string>)
    requires id in hs.rooms && hs.rooms[id] == RenamedRoom(room, name)
    modifies hs
    ensures hs.aliases == old(hs.aliases) && hs.nextRoomId == old(hs.nextRoomId)
    ensures InviteOrder(room.memberEvents, roster, invited)
    ensures r.Ok? <==> VisibilityChange(BeforeVisibility(room, name, roster, invited), visibility).Ok?
    ensures r.Err? ==> r == Err(InvalidVisibility(visibility))
    ensures hs.rooms == old(hs.rooms)[id := SyncedRoom(room, name, roster, invited, visibility)]
    ensures hs.calls == old(hs.calls) + MemberCalls(id, room, name, roster, invited, visibility)
  {
    ghost var calls0, rooms0 := hs.calls, hs.rooms;
    // Ensure users are invited
    r, invited := EnsureRoomInvitees(hs, id, roster);
    assert r.Ok?;
    assert hs.rooms == rooms0[id := InvitedRoom(RenamedRoom(room, name), invited)];
    ghost var calls1 := hs.calls;
    assert calls1 == calls0 + InviteCalls(id, invited);
    // Ensure users have correct power levels
    r := EnsureRoomPowerLevels(hs, id, roster);
    assert r.Ok?;
    ghost var before := BeforeVisibility(room, name, roster, invited);
    assert hs.rooms == rooms0[id := before];
    ghost var calls2 := hs.calls;
    assert calls2 == calls1 + [PowerLevelsSent(id, before.users)];
    // Ensure room is (in) visible in the room directory
    r := EnsureRoomVisibility(hs, id, visibility);
    assert hs.calls == calls2 + VisibilityCalls(id, before, visibility);
    assert hs.rooms == rooms0[id := VisibleRoom(before, visibility)];
    CallsRegroup(calls0, InviteCalls(id, invited), [PowerLevelsSent(id, before.users)], VisibilityCalls(id, before, visibility));
  }

  /** What `sync_room` does from the name step on to the existing room `id`,
      taking the server from `s` to `t` with result `r`: a bad name
      template changes nothing; a roster error stops after the name step;
      otherwise the four steps run. `invited` is the order the invites went
      out in. The alias table and the room ids stay as they are. */
  ghost predicate StepsTaken(s: Server, t: Server, id: RoomId, ldap: LdapConfig, search: SearchOracle,
                             room: SyncRoomConfig, templateArg: string, invited: seq<string>, r: Result<()>) {
    && id in s.rooms
    && t.aliases == s.aliases && t.nextRoomId == s.nextRoomId
    && match TemplateRoomAlias(room.name, templateArg)
       case Err(e) => r == Err(e) && t == s
       case Ok(name) =>
         match RoomRoster(ldap, search, room, templateArg)
         case Err(e) =>
           && r == Err(e)
           && t.rooms == s.rooms[id := RenamedRoom(s.rooms[id], name)]
           && t.calls == s.calls + NameCalls(id, s.rooms[id], name)
         case Ok(roster) =>
           && InviteOrder(s.rooms[id].memberEvents, roster, invited)
           && (r.Ok? <==> VisibilityChange(BeforeVisibility(s.rooms[id], name, roster, invited), room.visibility).Ok?)
           && (r.Err? ==> r == Err(InvalidVisibility(room.visibility)))
           && t.rooms == s.rooms[id := SyncedRoom(s.rooms[id], name, roster, invited, room.visibility)]
           && t.calls == s.calls + SyncCalls(id, s.rooms[id], name, roster, invited, room.visibility)
  }

  /** What `sync_room` does to the server, taking it from `s` to `t` with
      result `r`. A bad alias template, a null alias lookup or a taken alias
      fail with nothing changed. Otherwise the room the alias names, or a
      room created under it, goes through the steps from the name on; `id`
      is that room and `invited` the order of its invites. */
  ghost predicate RoomSynced(s: Server, t: Server, serverName: string, botUser: string,
                             ldap: LdapConfig, search: SearchOracle, room: SyncRoomConfig, templateArg: string,
                             id: RoomId, invited: seq<string>, r: Result<()>) {
    match TemplateRoomAlias(room.alias, templateArg)
    case Err(e) => r == Err(e) && t == s
    case Ok(alias) =>
      var lp := AliasLocalPart(alias);
      var claimed := "#" + lp + ":" + serverName;
      match Lookup(s.aliases, alias)
      case Null => r == Err(RoomUnresolvable(alias)) && t == s
      case Found(found) => id == found && StepsTaken(s, t, id, ldap, search, room, templateArg, invited, r)
      case NotFound =>
        if claimed in s.aliases then r == Err(AliasInUse(claimed)) && t == s
        else id == s.nextRoomId && StepsTaken(WithNewRoom(s, claimed, lp, botUser), t, id, ldap, search, room, templateArg, invited, r)
  }

  /** The steps from the name on change room `id` only, keep the
      bookkeeping and append their calls in step order. */
  lemma StepsTakenFrame(s: Server, t: Server, id: RoomId, ldap: LdapConfig, search: SearchOracle,
                        room: SyncRoomConfig, templateArg: string, invited: seq<string>, r: Result<()>)
    requires StepsTaken(s, t, id, ldap, search, room, templateArg, invited, r)
    ensures ValidServer(s) ==> ValidServer(t)
    ensures id in t.rooms && t.rooms == s.rooms[id := t.rooms[id]]
    ensures s.calls <= t.calls && InStepOrder(t.calls[|s.calls|..])
  {
    var room0 := s.rooms[id];
    match TemplateRoomAlias(room.name, templateArg)
    case Err(_) =>
      assert s.rooms[id := room0] == s.rooms;
      assert t.calls[|s.calls|..] == [];
    case Ok(name) =>
      match RoomRoster(ldap, search, room, templateArg)
      case Err(_) =>
        if ValidServer(s) {
          RoomUpdateKeepsValid(s.aliases, s.rooms, s.nextRoomId, id, RenamedRoom(room0, name));
        }
        assert [] + NameCalls(id, room0, name) == NameCalls(id, room0, name);
        AppendStep([], NameCalls(id, room0, name), 1);
        assert t.calls[|s.calls|..] == NameCalls(id, room0, name);
      case Ok(roster) =>
        if ValidServer(s) {
          RoomUpdateKeepsValid(s.aliases, s.rooms, s.nextRoomId, id, SyncedRoom(room0, name, roster, invited, room.visibility));
        }
        SyncCallsInStepOrder(id, room0, name, roster, invited, room.visibility);
        assert t.calls[|s.calls|..] == SyncCalls(id, room0, name, roster, invited, room.visibility);
  }

  /** When the steps from the name on succeed, the name and the roster
      resolved and the room is converged; on a room that was converged already they change
      nothing and issue only the power-level write. */
  lemma StepsTakenConverges(s: Server, t: Server, id: RoomId, ldap: LdapConfig, search: SearchOracle,
                            room: SyncRoomConfig, templateArg: string, invited: seq<string>, r: Result<()>)
    requires StepsTaken(s, t, id, ldap, search, room, templateArg, invited, r)
    ensures r.Ok? ==>
      && TemplateRoomAlias(room.name, templateArg).Ok? && RoomRoster(ldap, search, room, templateArg).Ok?
      && id in t.rooms
      && Converged(t.rooms[id], TemplateRoomAlias(room.name, templateArg).value,
           RoomRoster(ldap, search, room, templateArg).value, room.visibility)
    ensures (&& TemplateRoomAlias(room.name, templateArg).Ok? && RoomRoster(ldap, search, room, templateArg).Ok?
             && Converged(s.rooms[id], TemplateRoomAlias(room.name, templateArg).value,
                  RoomRoster(ldap, search, room, templateArg).value, room.visibility)) ==>
      && r.Ok?
      && t.rooms == s.rooms
      && t.calls == s.calls + [PowerLevelsSent(id, s.rooms[id].users)]
  {
    var room0 := s.rooms[id];
    match TemplateRoomAlias(room.name, templateArg)
    case Err(_) =>
    case Ok(name) =>
      match RoomRoster(ldap, search, room, templateArg)
      case Err(_) =>
      case Ok(roster) =>
      if r.Ok? {
        SyncedRoomConverged(room0, name, roster, invited, room.visibility);
      }
      if Converged(room0, name, roster, room.visibility) {
        SyncIdempotent(id, room0, name, roster, invited, room.visibility);
        assert s.rooms[id := room0] == s.rooms;
      }
  }

  /** `Touches(s, t, id)`: going from `s` to `t` changed no room but `id`,
      and added no alias but one naming `id`. */
  predicate Touches(s: Server, t: Server, id: RoomId) {
    && (forall other | other in s.rooms && other != id :: other in t.rooms && t.rooms[other] == s.rooms[other])
    && t.rooms.Keys <= s.rooms.Keys + {id}
    && (forall a | a in s.aliases :: a in t.aliases && t.aliases[a] == s.aliases[a])
    && (forall a | a in t.aliases && a !in s.aliases :: t.aliases[a] == Some(id))
  }

  /** Replacing one room, with or without a new alias naming it, touches
      only that room. */
  lemma UpdateTouches(s: Server, t: Server, id: RoomId, claimed: string)
    requires id in t.rooms && t.rooms == s.rooms[id := t.rooms[id]]
    requires t.aliases == s.aliases || (claimed !in s.aliases && t.aliases == s.aliases[claimed := Some(id)])
    ensures Touches(s, t, id)
  {
  }

  /** A room created under `claimed`, then changed only itself with calls
      in step order: only the new room is added, only `claimed` is added
      to the alias table, and the creation comes before the other calls. */
  lemma CreationThenRoomUpdate(s: Server, t: Server, claimed: string, lp: string, botUser: string)
    requires claimed !in s.aliases
    requires var s1 := WithNewRoom(s, claimed, lp, botUser);
      && (ValidServer(s1) ==> ValidServer(t))
      && s.nextRoomId in t.rooms && t.rooms == s1.rooms[s.nextRoomId := t.rooms[s.nextRoomId]]
      && t.aliases == s1.aliases
      && s1.calls <= t.calls && InStepOrder(t.calls[|s1.calls|..])
    ensures ValidServer(s) ==> ValidServer(t)
    ensures t.rooms == s.rooms[s.nextRoomId := t.rooms[s.nextRoomId]]
    ensures t.aliases == s.aliases[claimed := Some(s.nextRoomId)]
    ensures s.calls <= t.calls && InStepOrder(t.calls[|s.calls|..])
  {
    var id := s.nextRoomId;
    var s1 := WithNewRoom(s, claimed, lp, botUser);
    if ValidServer(s) {
      NewRoomKeepsValid(s, claimed, lp, botUser);
    }
    assert s1.rooms[id := t.rooms[id]] == s.rooms[id := t.rooms[id]];
    var created := [Created(lp, id)];
    var rest := t.calls[|s1.calls|..];
    assert t.calls == s.calls + created + rest;
    assert t.calls[|s.calls|..] == created + rest;
    StepsAfterCreation(created, rest);
  }

  /** A creation followed by calls in step order is in step order. */
  lemma StepsAfterCreation(created: seq<Call>, rest: seq<Call>)
    requires forall c | c in created :: c.Created?
    requires InStepOrder(rest)
    ensures InStepOrder(created + rest)
  {
    assert [] + created == created;
    AppendStep([], created, 0);
    AppendOrdered(created, rest, 0);
  }

  /** One `sync_room` touches at most one room, the one it reports, keeps
      the bookkeeping valid and appends its calls in step order. */
  lemma RoomSyncedFrame(s: Server, t: Server, serverName: string, botUser: string,
                        ldap: LdapConfig, search: SearchOracle, room: SyncRoomConfig, templateArg: string,
                        id: RoomId, invited: seq<string>, r: Result<()>)
    requires RoomSynced(s, t, serverName, botUser, ldap, search, room, templateArg, id, invited, r)
    ensures ValidServer(s) ==> ValidServer(t)
    ensures Touches(s, t, id)
    ensures s.calls <= t.calls && InStepOrder(t.calls[|s.calls|..])
  {
    match TemplateRoomAlias(room.alias, templateArg)
    case Err(_) =>
      assert t.calls[|s.calls|..] == [];
    case Ok(alias) =>
      var lp := AliasLocalPart(alias);
      var claimed := "#" + lp + ":" + serverName;
      match Lookup(s.aliases, alias)
      case Null =>
        assert t.calls[|s.calls|..] == [];
      case Found(_) =>
        StepsTakenFrame(s, t, id, ldap, search, room, templateArg, invited, r);
        UpdateTouches(s, t, id, claimed);
      case NotFound =>
        if claimed in s.aliases {
          assert t.calls[|s.calls|..] == [];
        } else {
          StepsTakenFrame(WithNewRoom(s, claimed, lp, botUser), t, id, ldap, search, room, templateArg, invited, r);
          CreationThenRoomUpdate(s, t, claimed, lp, botUser);
          UpdateTouches(s, t, id, claimed);
        }
  }

  /** A `sync_room` that succeeds resolved everything and left its room
      converged: the room the alias named, if it named one. The
      configuration is then synced as soon as the alias resolves to that
      room. */
  lemma RoomSyncedConverges(s: Server, t: Server, serverName: string, botUser: string,
                            ldap: LdapConfig, search: SearchOracle, room: SyncRoomConfig, templateArg: string,
                            id: RoomId, invited: seq<string>, r: Result<()>)
    requires RoomSynced(s, t, serverName, botUser, ldap, search, room, templateArg, id, invited, r)
    requires r.Ok?
    ensures Resolvable(ldap, search, room, templateArg)
    ensures Lookup(s.aliases, TemplateRoomAlias(room.alias, templateArg).value).Found? ==>
      id == Lookup(s.aliases, TemplateRoomAlias(room.alias, templateArg).value).id
    ensures id in t.rooms
    ensures Converged(t.rooms[id], TemplateRoomAlias(room.name, templateArg).value,
      RoomRoster(ldap, search, room, templateArg).value, room.visibility)
    ensures Lookup(t.aliases, TemplateRoomAlias(room.alias, templateArg).value) == Found(id) ==>
      Synced(t, ldap, search, room, templateArg)
  {
    var alias := TemplateRoomAlias(room.alias, templateArg).value;
    var lp := AliasLocalPart(alias);
    var claimed := "#" + lp + ":" + serverName;
    if Lookup(s.aliases, alias).Found? {
      StepsTakenConverges(s, t, id, ldap, search, room, templateArg, invited, r);
    } else {
      StepsTakenConverges(WithNewRoom(s, claimed, lp, botUser), t, id, ldap, search, room, templateArg, invited, r);
    }
  }

  /** `sync_room` on a configuration that is already synced changes no
      room and no alias, succeeds, and issues only the power-level write. */
  lemma RoomSyncedIdempotent(s: Server, t: Server, serverName: string, botUser: string,
                             ldap: LdapConfig, search: SearchOracle, room: SyncRoomConfig, templateArg: string,
                             id: RoomId, invited: seq<string>, r: Result<()>)
    requires RoomSynced(s, t, serverName, botUser, ldap, search, room, templateArg, id, invited, r)
    requires Synced(s, ldap, search, room, templateArg)
    ensures r.Ok?
    ensures t.rooms == s.rooms && t.aliases == s.aliases && t.nextRoomId == s.nextRoomId
    ensures t.calls == s.calls + [PowerLevelsSent(id, s.rooms[id].users)]
    ensures Synced(t, ldap, search, room, templateArg)
  {
    StepsTakenConverges(s, t, id, ldap, search, room, templateArg, invited, r);
  }

  /** `sync_room` from the name step on, for a room that exists. */
  method SyncExistingRoom(hs: Homeserver, ldapManager: LdapManager, id: RoomId, room: SyncRoomConfig, templateArg: string)
    returns (r: Result<()>, ghost invited: seq<string>)
    requires id in hs.rooms
    modifies hs, ldapManager
    ensures StepsTaken(old(hs.State()), hs.State(), id, ldapManager.config, ldapManager.search, room, templateArg, invited, r)
  {
    invited := [];
    var nameR := TemplateRoomAlias(room.name, templateArg);
    if nameR.Err? {
      return Err(nameR.error), invited;
    }
    var name := nameR.value;
    ghost var calls0 := hs.calls;
    ghost var room0 := hs.rooms[id];
    // Ensure room has the correct name
    r := EnsureRoomName(hs, id, name);

    // Generate map of users
    var allUsers: UserInfoMap := map[];
    var ldapUsers := ldapManager.GetAllMatrixUsersOfSyncRoom(room.ldapMembers, templateArg);
    if ldapUsers.Err? {
      return Err(ldapUsers.error), invited;
    }
    allUsers := allUsers + ldapUsers.value;
    // Static users are added last, so that they override the directory
    var staticUsers := ToUserInfoMap(StaticMembers(room));
    allUsers := allUsers + staticUsers;
    assert allUsers == RoomRoster(ldapManager.config, ldapManager.search, room, templateArg).value;

    r, invited := MemberSteps(hs, id, room0, name, allUsers, room.visibility);
    assert hs.calls == calls0 + SyncCalls(id, room0, name, allUsers, invited, room.visibility);
  }

  /** `sync_room`. `roomId` names the room the steps ran on and `invited`
      the order its invites went out in. */
  method SyncRoom(hs: Homeserver, ldap: LdapConfig, search: SearchOracle, room: SyncRoomConfig, templateArg: string)
    returns (r: Result<()>, ghost roomId: RoomId, ghost invited: seq<string>)
    requires hs.Valid()
    modifies hs
    ensures hs.Valid()
    ensures RoomSynced(old(hs.State()), hs.State(), hs.serverName, hs.botUser, ldap, search, room, templateArg,
      roomId, invited, r)
  {
    roomId, invited := 0, [];
    var ldapManager := new LdapManager(ldap, search);

    var aliasR := TemplateRoomAlias(room.alias, templateArg);
    if aliasR.Err? {
      return Err(aliasR.error), roomId, invited;
    }
    var alias := aliasR.value;

    // Ensure room exists
    var idR := EnsureRoomWithAlias(hs, alias);
    if idR.Err? {
      return Err(idR.error), roomId, invited;
    }
    var id := idR.value;
    roomId := id;
    ghost var s1 := hs.State();
    assert ValidServer(s1);
    r, invited := SyncExistingRoom(hs, ldapManager, id, room, templateArg);
    StepsTakenFrame(s1, hs.State(), id, ldap, search, room, templateArg, invited, r);
  }

  /** Regrouping four blocks of calls. */
  lemma CallsRegroup(a: seq<Call>, b: seq<Call>, c: seq<Call>, d: seq<Call>)
    ensures a + b + c + d == a + (b + c + d)
  {
  }

  /** A prefix of a prefix is a prefix. */
  lemma CallsPrefixTransitive(a: seq<Call>, b: seq<Call>, c: seq<Call>)
    requires a <= b && b <= c
    ensures a <= c
  {
    assert c[..|a|] == b[..|a|];
  }

  /** How many rooms a run attempted: all of them when it succeeded, else
      the ones that succeeded and the one that failed. */
  function Attempted(r: Result<()>, done: nat): nat {
    if r.Ok? then done else done + 1
  }

  /** One room of a run: `sync_room` took the server from `s` to `t`. */
  ghost predicate Ran(s: Server, t: Server, serverName: string, botUser: string,
                      ldap: LdapConfig, search: SearchOracle, room: SyncRoomConfig, templateArg: string,
                      id: RoomId, invited: seq<string>, r: Result<()>) {
    RoomSynced(s, t, serverName, botUser, ldap, search, room, templateArg, id, invited, r)
  }

  /** `states` is a run of `sync_room` over the first `n` rooms of the list,
      in list order: room i took the server from `states[i]` to
      `states[i + 1]`, ran on room `ids[i]` and sent its invites in the order
      `orders[i]`. Every room but the n-th succeeded; the n-th ended with
      `last`. */
  ghost predicate RunOf(states: seq<Server>, serverName: string, botUser: string,
                        ldap: LdapConfig, search: SearchOracle, rooms: seq<SyncRoomConfig>, templateArg: string,
                        ids: seq<RoomId>, orders: seq<seq<string>>, n: nat, last: Result<()>) {
    && n <= |rooms| && |states| == n + 1 && |ids| == n && |orders| == n
    && forall i | 0 <= i < n ::
         Ran(states[i], states[i + 1], serverName, botUser, ldap, search, rooms[i], templateArg,
           ids[i], orders[i], if i < n - 1 then Ok(()) else last)
  }

  /** A run of successes, followed by one more `sync_room`, is a run one
      room longer that ends with that room's result. */
  lemma RunExtends(states: seq<Server>, serverName: string, botUser: string,
                   ldap: LdapConfig, search: SearchOracle, rooms: seq<SyncRoomConfig>, templateArg: string,
                   ids: seq<RoomId>, orders: seq<seq<string>>, n: nat,
                   next: Server, id: RoomId, order: seq<string>, result: Result<()>)
    requires RunOf(states, serverName, botUser, ldap, search, rooms, templateArg, ids, orders, n, Ok(()))
    requires n < |rooms|
    requires Ran(states[n], next, serverName, botUser, ldap, search, rooms[n], templateArg, id, order, result)
    ensures RunOf(states + [next], serverName, botUser, ldap, search, rooms, templateArg, ids + [id], orders + [order],
      n + 1, result)
  {
    var states', ids', orders' := states + [next], ids + [id], orders + [order];
    forall i | 0 <= i < n + 1
      ensures Ran(states'[i], states'[i + 1], serverName, botUser, ldap, search, rooms[i], templateArg,
        ids'[i], orders'[i], if i < n then Ok(()) else result)
    {
      if i < n {
        assert states'[i] == states[i] && states'[i + 1] == states[i + 1];
        assert ids'[i] == ids[i] && orders'[i] == orders[i];
      }
    }
  }

  /** In a run, each room's calls form one block in step order, each room
      changes no other room, and each room that succeeded resolved
      everything and was converged when its sync ended. */
  lemma RunBlocks(states: seq<Server>, serverName: string, botUser: string,
                  ldap: LdapConfig, search: SearchOracle, rooms: seq<SyncRoomConfig>, templateArg: string,
                  ids: seq<RoomId>, orders: seq<seq<string>>, n: nat, last: Result<()>)
    requires RunOf(states, serverName, botUser, ldap, search, rooms, templateArg, ids, orders, n, last)
    ensures forall i | 0 <= i < n ::
      && Touches(states[i], states[i + 1], ids[i])
      && states[i].calls <= states[i + 1].calls
      && InStepOrder(states[i + 1].calls[|states[i].calls|..])
    ensures forall i | 0 <= i < n :: (i < n - 1 || last.Ok?) ==>
      && Resolvable(ldap, search, rooms[i], templateArg)
      && ids[i] in states[i + 1].rooms
      && Converged(states[i + 1].rooms[ids[i]], TemplateRoomAlias(rooms[i].name, templateArg).value,
           RoomRoster(ldap, search, rooms[i], templateArg).value, rooms[i].visibility)
  {
    forall i | 0 <= i < n
      ensures && Touches(states[i], states[i + 1], ids[i])
              && states[i].calls <= states[i + 1].calls
              && InStepOrder(states[i + 1].calls[|states[i].calls|..])
    {
      RoomSyncedFrame(states[i], states[i + 1], serverName, botUser, ldap, search, rooms[i], templateArg,
        ids[i], orders[i], if i < n - 1 then Ok(()) else last);
    }
    forall i | 0 <= i < n
      ensures (i < n - 1 || last.Ok?) ==>
        && Resolvable(ldap, search, rooms[i], templateArg)
        && ids[i] in states[i + 1].rooms
        && Converged(states[i + 1].rooms[ids[i]], TemplateRoomAlias(rooms[i].name, templateArg).value,
             RoomRoster(ldap, search, rooms[i], templateArg).value, rooms[i].visibility)
    {
      if i < n - 1 || last.Ok? {
        RoomSyncedConverges(states[i], states[i + 1], serverName, botUser, ldap, search, rooms[i], templateArg,
          ids[i], orders[i], if i < n - 1 then Ok(()) else last);
      }
    }
  }

  /** `sync_rooms`: the rooms in list order; the first failure ends the
      run. `done` counts the rooms synced before it ended; `states` are the
      server's states before, between and after the rooms attempted, `ids`
      the rooms the syncs ran on and `orders` the order of their invites.
      Nothing happens after the failing room. */
  method SyncRooms(hs: Homeserver, ldap: LdapConfig, search: SearchOracle, rooms: seq<SyncRoomConfig>, templateArg: string)
    returns (r: Result<()>, ghost done: nat, ghost states: seq<Server>, ghost ids: seq<RoomId>, ghost orders: seq<seq<string>>)
    requires hs.Valid()
    modifies hs
    ensures hs.Valid()
    ensures old(hs.calls) <= hs.calls
    ensures done <= |rooms| && (r.Ok? <==> done == |rooms|)
    ensures RunOf(states, hs.serverName, hs.botUser, ldap, search, rooms, templateArg, ids, orders, Attempted(r, done), r)
    ensures states[0] == old(hs.State()) && states[|states| - 1] == hs.State()
  {
    done, states, ids, orders := 0, [hs.State()], [], [];
    r := Ok(());
    for k := 0 to |rooms|
      invariant hs.Valid()
      invariant old(hs.calls) <= hs.calls
      invariant done == k && r.Ok?
      invariant RunOf(states, hs.serverName, hs.botUser, ldap, search, rooms, templateArg, ids, orders, k, Ok(()))
      invariant states[0] == old(hs.State()) && states[k] == hs.State()
    {
      ghost var before := hs.State();
      var result;
      ghost var roomId, invited;
      result, roomId, invited := SyncRoom(hs, ldap, search, rooms[k], templateArg);
      RoomSyncedFrame(before, hs.State(), hs.serverName, hs.botUser, ldap, search, rooms[k], templateArg,
        roomId, invited, result);
      CallsPrefixTransitive(old(hs.calls), before.calls, hs.calls);
      RunExtends(states, hs.serverName, hs.botUser, ldap, search, rooms, templateArg, ids, orders, k,
        hs.State(), roomId, invited, result);
      states, ids, orders := states + [hs.State()], ids + [roomId], orders + [invited];
      if result.Err? {
        return result, done, states, ids, orders;
      }
      done := done + 1;
    }
  }

  /** The reply to the `ldap-sync` command: refused, or the outcome of the
      run. */
  datatype SyncReply = NotAllowed | Finished(result: Result<()>)

  /** `ldap_sync`: only an admin user may start a run; anybody else is
      refused before anything is touched. */
  method LdapSync(hs: Homeserver, config: InviterConfig, search: SearchOracle, sender: string, templateArg: string)
    returns (reply: SyncReply, ghost done: nat, ghost states: seq<Server>, ghost ids: seq<RoomId>, ghost orders: seq<seq<string>>)
    requires hs.Valid()
    modifies hs
    ensures hs.Valid()
    ensures old(hs.calls) <= hs.calls
    ensures sender !in config.adminUsers ==> reply == NotAllowed && unchanged(hs)
    ensures sender in config.adminUsers ==>
      && reply.Finished?
      && done <= |config.syncRooms| && (reply.result.Ok? <==> done == |config.syncRooms|)
      && RunOf(states, hs.serverName, hs.botUser, config.ldap, search, config.syncRooms, templateArg, ids, orders,
           Attempted(reply.result, done), reply.result)
      && states[0] == old(hs.State()) && states[|states| - 1] == hs.State()
    ensures reply == Finished(Ok(())) ==>
      forall i | 0 <= i < |config.syncRooms| :: Resolvable(config.ldap, search, config.syncRooms[i], templateArg)
  {
    done, states, ids, orders := 0, [], [], [];
    if sender !in config.adminUsers {
      return NotAllowed, done, states, ids, orders;
    }
    var result;
    result, done, states, ids, orders := SyncRooms(hs, config.ldap, search, config.syncRooms, templateArg);
    RunBlocks(states, hs.serverName, hs.botUser, config.ldap, search, config.syncRooms, templateArg, ids, orders,
      Attempted(result, done), result);
    reply := Finished(result);
  }
}
