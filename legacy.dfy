/** The legacy single-file inviter (ldap-inviter.py): the same convergence
    driver over a plain list of member entries, without templates, without
    the directory and without an admin check. It reuses the member split,
    the local-part rule, room creation and the visibility step, whose code
    is the same as the package's; it differs in the name step (no fallback
    for a room without a name event), the alias step (a null lookup gives
    no id instead of failing), the invitee step (list order, repeated
    entries invited again) and the power-level step (a missing level
    fails). */
module Legacy {
  import opened Wrappers
  import opened Config
  import opened Remote
  import opened MatrixUtils
  import opened Utils
  import opened Bot

  const RoomNameEventType: string := "m.room.name"
  const PowerLevelKey: string := "power_level"
  const MembersKey: string := "members"

  /** One entry of `sync_rooms`; the `members` key may be absent. */
  datatype RoomConfig = RoomConfig(
    alias: string,
    name: string,
    visibility: string,
    members: Option<seq<MemberConfig>>)

  // ---------------------------------------------------------------------
  // Invitees

  /** The mxids the invitee loop invites, in list order: every entry whose
      mxid is neither joined nor invited, a repeated entry as often as it
      is listed. */
  function Invitees(events: seq<StateEvent>, members: seq<MemberConfig>): seq<string>
    decreases |members|
  {
    if members == [] then []
    else
      var last := members[|members| - 1];
      Invitees(events, members[..|members| - 1]) + (if Present(events, last.mxid) then [] else [last.mxid])
  }

  /** A user is invited exactly when some entry lists it and it is neither
      joined nor invited. */
  lemma {:induction false} InviteesIff(events: seq<StateEvent>, members: seq<MemberConfig>, x: string)
    ensures x in Invitees(events, members) <==>
      (exists i :: 0 <= i < |members| && members[i].mxid == x) && !Present(events, x)
    decreases |members|
  {
    if members != [] {
      var init := members[..|members| - 1];
      InviteesIff(events, init, x);
      if exists i :: 0 <= i < |init| && init[i].mxid == x {
        var i :| 0 <= i < |init| && init[i].mxid == x;
        assert members[i] == init[i];
      }
      if exists i :: 0 <= i < |members| && members[i].mxid == x {
        var i :| 0 <= i < |members| && members[i].mxid == x;
        if i < |init| {
          assert init[i] == members[i];
        }
      }
    }
  }

  /** The legacy loop invites the same users as the package's step does
      for the roster the list denotes. */
  lemma InviteesMatchRoster(events: seq<StateEvent>, members: seq<MemberConfig>)
    ensures forall u :: u in Invitees(events, members) <==> u in UserInfoMapOf(members) && !Present(events, u)
  {
    UserInfoMapKeys(members);
    forall u ensures u in Invitees(events, members) <==> u in UserInfoMapOf(members) && !Present(events, u) {
      InviteesIff(events, members, u);
    }
  }

  /** How many entries list `x`. */
  function Entries(members: seq<MemberConfig>, x: string): nat
    decreases |members|
  {
    if members == [] then 0
    else Entries(members[..|members| - 1], x) + (if members[|members| - 1].mxid == x then 1 else 0)
  }

  /** A user that is neither joined nor invited is invited once per entry
      that lists it; a present user is not invited at all. */
  lemma {:induction false} InviteesCount(events: seq<StateEvent>, members: seq<MemberConfig>, x: string)
    ensures multiset(Invitees(events, members))[x] == if Present(events, x) then 0 else Entries(members, x)
    decreases |members|
  {
    if members != [] {
      InviteesCount(events, members[..|members| - 1], x);
    }
  }

  /** Distinct mxids are invited at most once each. */
  lemma {:induction false} InviteesNoDuplicates(events: seq<StateEvent>, members: seq<MemberConfig>)
    requires forall i, j :: 0 <= i < j < |members| ==> members[i].mxid != members[j].mxid
    ensures NoDuplicates(Invitees(events, members))
    decreases |members|
  {
    if members != [] {
      var init := members[..|members| - 1];
      var last := members[|members| - 1];
      InviteesNoDuplicates(events, init);
      InviteesIff(events, init, last.mxid);
      assert forall i | 0 <= i < |init| :: init[i].mxid != last.mxid;
    }
  }

  // ---------------------------------------------------------------------
  // Power levels

  /** Every entry carries a power level. */
  predicate AllLeveled(members: seq<MemberConfig>) {
    forall i | 0 <= i < |members| :: members[i].powerLevel.Some?
  }

  /** The `users` map after the legacy power-level loop: each entry in turn
      writes its level over the current map; an entry without a level
      stops the step. */
  function OverlaidLevels(current: map<string, int>, members: seq<MemberConfig>): (r: Result<map<string, int>>)
    ensures r.Err? <==> !AllLeveled(members)
    ensures r.Err? ==> r.error == MissingKey(PowerLevelKey)
    decreases |members|
  {
    if members == [] then Ok(current)
    else
      var init := members[..|members| - 1];
      var last := members[|members| - 1];
      assert forall i | 0 <= i < |init| :: init[i] == members[i];
      match OverlaidLevels(current, init)
      case Err(e) => Err(e)
      case Ok(levels) =>
        match last.powerLevel
        case None => Err(MissingKey(PowerLevelKey))
        case Some(level) => Ok(levels[last.mxid := level])
  }

  /** With every level present the legacy loop computes the package's
      overlay of the roster the list denotes: later entries win and users
      not listed keep their level. */
  lemma {:induction false} OverlaidMatchesRoster(current: map<string, int>, members: seq<MemberConfig>)
    requires AllLeveled(members)
    ensures OverlaidLevels(current, members) == Ok(PowerLevelsAfter(current, UserInfoMapOf(members)))
    decreases |members|
  {
    if members != [] {
      var init := members[..|members| - 1];
      var last := members[|members| - 1];
      assert forall i | 0 <= i < |init| :: init[i] == members[i];
      assert AllLeveled(init);
      OverlaidMatchesRoster(current, init);
      var before := PowerLevelsAfter(current, UserInfoMapOf(init));
      var after := PowerLevelsAfter(current, UserInfoMapOf(members));
      var level := last.powerLevel.value;
      assert OverlaidLevels(current, members) == Ok(before[last.mxid := level]);
      assert UserInfoMapOf(members) == UserInfoMapOf(init)[last.mxid := UserInfo(level)];
      assert after.Keys == before[last.mxid := level].Keys;
      assert forall u | u in after :: after[u] == before[last.mxid := level][u];
      assert after == before[last.mxid := level];
    } else {
      assert PowerLevelsAfter(current, UserInfoMapOf(members)) == current;
    }
  }

  // ---------------------------------------------------------------------
  // What the steps from the name on do to one room

  /** A room, the calls issued and the result, after some steps. */
  datatype Outcome = Outcome(room: Room, calls: seq<Call>, result: Result<()>)

  /** The invitee, power-level and visibility steps on a room. */
  function MemberOutcome(id: RoomId, room: Room, members: seq<MemberConfig>, visibility: string): Outcome {
    var invitees := Invitees(room.memberEvents, members);
    var invited := InvitedRoom(room, invitees);
    match OverlaidLevels(invited.users, members)
    case Err(e) => Outcome(invited, InviteCalls(id, invitees), Err(e))
    case Ok(users) =>
      var powered := invited.(users := users);
      Outcome(
        VisibleRoom(powered, visibility),
        InviteCalls(id, invitees) + [PowerLevelsSent(id, users)] + VisibilityCalls(id, powered, visibility),
        if VisibilityChange(powered, visibility).Ok? then Ok(()) else Err(InvalidVisibility(visibility)))
  }

  /** The name, invitee, power-level and visibility steps of `sync_room` on
      an existing room; a room without a name event stops at the first. */
  function Steps(id: RoomId, room: Room, config: RoomConfig): (o: Outcome)
    ensures room.name.None? ==> o.room == room && o.calls == [] && o.result.Err?
    ensures room.name.Some? ==> DisplayedName(o.room) == config.name && o.room.name.Some?
    ensures o.result.Ok? ==> config.members.Some?
  {
    if room.name.None? then Outcome(room, [], Err(StateNotFound(RoomNameEventType)))
    else
      var named := RenamedRoom(room, config.name);
      match config.members
      case None => Outcome(named, NameCalls(id, room, config.name), Err(MissingKey(MembersKey)))
      case Some(members) =>
        var rest := MemberOutcome(id, named, members, config.visibility);
        Outcome(rest.room, NameCalls(id, room, config.name) + rest.calls, rest.result)
  }

  /** The configuration lets a sync through: `members` is there and every
      entry carries a level. */
  predicate Complete(config: RoomConfig) {
    config.members.Some? && AllLeveled(config.members.value)
  }

  /** A room without a name event fails the steps and is left as it was,
      so no later run gets further with it either. */
  lemma UnnamedRoomNeverSyncs(id: RoomId, room: Room, config: RoomConfig)
    requires room.name.None?
    ensures Steps(id, room, config) == Outcome(room, [], Err(StateNotFound(RoomNameEventType)))
    ensures Steps(id, Steps(id, room, config).room, config) == Steps(id, room, config)
  {
  }

  /** When the steps succeed the room had a name, the configuration is
      complete and the room is converged to it. */
  lemma StepsConverge(id: RoomId, room: Room, config: RoomConfig)
    requires Steps(id, room, config).result.Ok?
    ensures room.name.Some? && Complete(config)
    ensures Converged(Steps(id, room, config).room, config.name, UserInfoMapOf(config.members.value), config.visibility)
  {
    var members := config.members.value;
    var roster := UserInfoMapOf(members);
    var named := RenamedRoom(room, config.name);
    var invitees := Invitees(named.memberEvents, members);
    var invited := InvitedRoom(named, invitees);
    InviteesMatchRoster(named.memberEvents, members);
    InviteStepCovers(named.memberEvents, invitees, roster);
    OverlaidMatchesRoster(invited.users, members);
    PowerLevelsAfterIdempotent(invited.users, roster);
  }

  /** The invitee, power-level and visibility steps issue their calls in
      step order, none of them before the invites. */
  lemma MemberCallsInStepOrder(id: RoomId, room: Room, members: seq<MemberConfig>, visibility: string)
    ensures InStepOrder(MemberOutcome(id, room, members, visibility).calls)
    ensures StepsAtLeast(MemberOutcome(id, room, members, visibility).calls, 2)
  {
    var invitees := Invitees(room.memberEvents, members);
    var invited := InvitedRoom(room, invitees);
    var inviteCalls := InviteCalls(id, invitees);
    InviteCallsAreInvites(id, invitees);
    match OverlaidLevels(invited.users, members)
    case Err(_) =>
      MemberBlocksInStepOrder(inviteCalls, [], []);
      assert inviteCalls + [] + [] == inviteCalls;
    case Ok(users) =>
      MemberBlocksInStepOrder(inviteCalls, [PowerLevelsSent(id, users)],
        VisibilityCalls(id, invited.(users := users), visibility));
  }

  /** The steps issue their calls in step order. */
  lemma StepsInStepOrder(id: RoomId, room: Room, config: RoomConfig)
    ensures InStepOrder(Steps(id, room, config).calls)
  {
    if room.name.Some? {
      var nameCalls := NameCalls(id, room, config.name);
      assert [] + nameCalls == nameCalls;
      AppendStep([], nameCalls, 1);
      if config.members.Some? {
        var rest := MemberOutcome(id, RenamedRoom(room, config.name), config.members.value, config.visibility);
        MemberCallsInStepOrder(id, RenamedRoom(room, config.name), config.members.value, config.visibility);
        AppendOrdered(nameCalls, rest.calls, 1);
      }
    }
  }

  /** On a named room that is already converged to a complete
      configuration the steps change nothing and issue exactly one call:
      the power-level write. */
  lemma StepsIdempotent(id: RoomId, room: Room, config: RoomConfig)
    requires room.name.Some? && Complete(config)
    requires Converged(room, config.name, UserInfoMapOf(config.members.value), config.visibility)
    ensures Steps(id, room, config) == Outcome(room, [PowerLevelsSent(id, room.users)], Ok(()))
  {
    var members := config.members.value;
    var roster := UserInfoMapOf(members);
    var invitees := Invitees(room.memberEvents, members);
    InviteesMatchRoster(room.memberEvents, members);
    NoMemberMeansEmpty(invitees);
    assert room.memberEvents + InviteEvents([]) == room.memberEvents;
    OverlaidMatchesRoster(room.users, members);
    assert room.(users := room.users) == room;
  }

  /** On a named room, and for a complete list that names each mxid once,
      the legacy steps are the package's steps for the roster the list
      denotes, with the invites going out in list order. */
  lemma StepsMatchPackage(id: RoomId, room: Room, config: RoomConfig)
    requires room.name.Some? && Complete(config)
    requires forall i, j :: 0 <= i < j < |config.members.value| ==>
      config.members.value[i].mxid != config.members.value[j].mxid
    ensures var members := config.members.value;
      var roster := UserInfoMapOf(members);
      var invited := Invitees(room.memberEvents, members);
      && InviteOrder(room.memberEvents, roster, invited)
      && Steps(id, room, config).room == SyncedRoom(room, config.name, roster, invited, config.visibility)
      && Steps(id, room, config).calls == SyncCalls(id, room, config.name, roster, invited, config.visibility)
      && (Steps(id, room, config).result.Ok? <==>
            VisibilityChange(BeforeVisibility(room, config.name, roster, invited), config.visibility).Ok?)
  {
    var members := config.members.value;
    var roster := UserInfoMapOf(members);
    var invited := Invitees(room.memberEvents, members);
    InviteesMatchRoster(room.memberEvents, members);
    InviteesNoDuplicates(room.memberEvents, members);
    var named := RenamedRoom(room, config.name);
    OverlaidMatchesRoster(InvitedRoom(named, invited).users, members);
    assert NameCalls(id, room, config.name) + (InviteCalls(id, invited)
        + [PowerLevelsSent(id, BeforeVisibility(room, config.name, roster, invited).users)]
        + VisibilityCalls(id, BeforeVisibility(room, config.name, roster, invited), config.visibility))
      == SyncCalls(id, room, config.name, roster, invited, config.visibility);
  }

  // ---------------------------------------------------------------------
  // The ensure steps

  /** `ensure_room_with_alias`: a found room is used as it is, a missing
      alias leads to one creation, and a null lookup result gives no id
      (the method falls off its end). */
  method EnsureRoomWithAlias(hs: Homeserver, alias: string) returns (r: Result<Option<RoomId>>)
    requires hs.Valid()
    modifies hs
    ensures hs.Valid()
    ensures r.Ok? && r.value.Some? ==> r.value.value in hs.rooms
    ensures old(hs.LookupAlias(alias)).Found? ==>
      r == Ok(Some(old(hs.LookupAlias(alias)).id)) && unchanged(hs)
    ensures old(hs.LookupAlias(alias)).Null? ==> r == Ok(None) && unchanged(hs)
    ensures old(hs.LookupAlias(alias)).NotFound? ==>
      var lp := AliasLocalPart(alias);
      var claimed := "#" + lp + ":" + hs.serverName;
      if claimed in old(hs.aliases) then
        r == Err(AliasInUse(claimed)) && unchanged(hs)
      else
        && r == Ok(Some(old(hs.nextRoomId))) && r.value.value !in old(hs.rooms)
        && hs.State() == WithNewRoom(old(hs.State()), claimed, lp, hs.botUser)
  {
    var room := hs.LookupAlias(alias);
    match room
    case NotFound =>
      var created := CreateRoomWithAlias(hs, alias);
      if created.Err? {
        return Err(created.error);
      }
      r := Ok(Some(created.value));
    case Null =>
      r := Ok(None);
    case Found(id) =>
      r := Ok(Some(id));
  }

  /** `ensure_room_name`: read the name event and write the name when it
      differs; a room without a name event, or no room at all, fails. */
  method EnsureRoomName(hs: Homeserver, id: Option<RoomId>, name: string) returns (r: Result<()>)
    modifies hs
    ensures hs.aliases == old(hs.aliases) && hs.nextRoomId == old(hs.nextRoomId)
    ensures id.None? || id.value !in old(hs.rooms) ==> r == Err(UnknownRoom) && unchanged(hs)
    ensures id.Some? && id.value in old(hs.rooms) ==>
      var room := old(hs.rooms)[id.value];
      if room.name.None? then
        r == Err(StateNotFound(RoomNameEventType)) && unchanged(hs)
      else
        && r.Ok?
        && hs.rooms == old(hs.rooms)[id.value := RenamedRoom(room, name)]
        && hs.calls == old(hs.calls) + NameCalls(id.value, room, name)
  {
    if id.None? || id.value !in hs.rooms {
      return Err(UnknownRoom);
    }
    var currentName := hs.rooms[id.value].name;
    if currentName.None? {
      return Err(StateNotFound(RoomNameEventType));
    }
    if currentName.value != name {
      hs.SendRoomName(id.value, name);
    } else {
      assert hs.rooms == hs.rooms[id.value := hs.rooms[id.value]];
      assert hs.calls + [] == hs.calls;
    }
    r := Ok(());
  }

  /** `ensure_room_invitees`: go through the list in order and invite every
      entry whose mxid was neither joined nor invited when the step began. */
  method EnsureRoomInvitees(hs: Homeserver, id: RoomId, members: seq<MemberConfig>) returns (r: Result<()>)
    modifies hs
    ensures hs.aliases == old(hs.aliases) && hs.nextRoomId == old(hs.nextRoomId)
    ensures id !in old(hs.rooms) ==> r == Err(UnknownRoom) && unchanged(hs)
    ensures id in old(hs.rooms) ==>
      var room := old(hs.rooms)[id];
      var invitees := Invitees(room.memberEvents, members);
      && r.Ok?
      && hs.rooms == old(hs.rooms)[id := InvitedRoom(room, invitees)]
      && hs.calls == old(hs.calls) + InviteCalls(id, invitees)
  {
    if id !in hs.rooms {
      return Err(UnknownRoom);
    }
    ghost var room := hs.rooms[id];
    ghost var invited: seq<string> := [];
    var roomMembers, roomInvitees := StateEventsToMemberList(hs.rooms[id].memberEvents);
    assert room.memberEvents + InviteEvents(invited) == room.memberEvents;
    assert old(hs.rooms)[id := InvitedRoom(room, invited)] == old(hs.rooms);
    for i := 0 to |members|
      invariant hs.aliases == old(hs.aliases) && hs.nextRoomId == old(hs.nextRoomId)
      invariant invited == Invitees(room.memberEvents, members[..i])
      invariant hs.rooms == old(hs.rooms)[id := InvitedRoom(room, invited)]
      invariant hs.calls == old(hs.calls) + InviteCalls(id, invited)
    {
      var user := members[i];
      assert members[..i + 1][..i] == members[..i];
      assert Invitees(room.memberEvents, members[..i + 1])
          == invited + (if Present(room.memberEvents, user.mxid) then [] else [user.mxid]);
      if user.mxid !in roomMembers && user.mxid !in roomInvitees {
        InviteOneMore(room, id, invited, user.mxid);
        hs.InviteUser(id, user.mxid);
        invited := invited + [user.mxid];
      } else {
        assert invited + [] == invited;
      }
    }
    assert members[..|members|] == members;
    r := Ok(());
  }

  /** `ensure_room_power_levels`: write each entry's level over the current
      map, then send the map in one call; an entry without a level fails
      the step before anything is sent. */
  method EnsureRoomPowerLevels(hs: Homeserver, id: RoomId, members: seq<MemberConfig>) returns (r: Result<()>)
    modifies hs
    ensures hs.aliases == old(hs.aliases) && hs.nextRoomId == old(hs.nextRoomId)
    ensures id !in old(hs.rooms) ==> r == Err(UnknownRoom) && unchanged(hs)
    ensures id in old(hs.rooms) ==>
      var room := old(hs.rooms)[id];
      match OverlaidLevels(room.users, members)
      case Err(e) => r == Err(e) && unchanged(hs)
      case Ok(users) =>
        && r.Ok?
        && hs.rooms == old(hs.rooms)[id := room.(users := users)]
        && hs.calls == old(hs.calls) + [PowerLevelsSent(id, users)]
  {
    if id !in hs.rooms {
      return Err(UnknownRoom);
    }
    var levels := OverlayLevels(hs.rooms[id].users, members);
    if levels.Err? {
      return Err(levels.error);
    }
    hs.SendPowerLevels(id, levels.value);
    r := Ok(());
  }

  /** The loop of `ensure_room_power_levels` on the current map. */
  method OverlayLevels(current: map<string, int>, members: seq<MemberConfig>) returns (r: Result<map<string, int>>)
    ensures r == OverlaidLevels(current, members)
  {
    var levels := current;
    for i := 0 to |members|
      invariant OverlaidLevels(current, members[..i]) == Ok(levels)
    {
      var user := members[i];
      assert members[..i + 1][..i] == members[..i];
      if user.powerLevel.None? {
        assert !AllLeveled(members[..i + 1]);
        assert !AllLeveled(members);
        return Err(MissingKey(PowerLevelKey));
      }
      levels := levels[user.mxid := user.powerLevel.value];
    }
    assert members[..|members|] == members;
    r := Ok(levels);
  }

  // ---------------------------------------------------------------------
  // Syncing

  /** `MemberOutcome` on each side of the power-level step's failure. */
  lemma MemberOutcomeCases(id: RoomId, room: Room, members: seq<MemberConfig>, visibility: string)
    ensures var invitees := Invitees(room.memberEvents, members);
      var invited := InvitedRoom(room, invitees);
      var levels := OverlaidLevels(invited.users, members);
      && (levels.Err? ==>
            MemberOutcome(id, room, members, visibility) == Outcome(invited, InviteCalls(id, invitees), Err(levels.error)))
      && (levels.Ok? ==>
            var powered := invited.(users := levels.value);
            MemberOutcome(id, room, members, visibility) ==
              Outcome(VisibleRoom(powered, visibility),
                InviteCalls(id, invitees) + [PowerLevelsSent(id, levels.value)] + VisibilityCalls(id, powered, visibility),
                if VisibilityChange(powered, visibility).Ok? then Ok(()) else Err(InvalidVisibility(visibility))))
  {
  }

  /** The power-level and visibility steps of `sync_room`: a missing level
      stops before anything is sent; otherwise the overlaid map is sent and
      the visibility step runs on the room that results. */
  method LevelsAndVisibility(hs: Homeserver, id: RoomId, members: seq<MemberConfig>, visibility: string) returns (r: Result<()>)
    requires id in hs.rooms
    modifies hs
    ensures hs.aliases == old(hs.aliases) && hs.nextRoomId == old(hs.nextRoomId)
    ensures var room := old(hs.rooms)[id];
      match OverlaidLevels(room.users, members)
      case Err(e) => r == Err(e) && hs.rooms == old(hs.rooms) && hs.calls == old(hs.calls)
      case Ok(users) =>
        var powered := room.(users := users);
        && r == (if VisibilityChange(powered, visibility).Ok? then Ok(()) else Err(InvalidVisibility(visibility)))
        && hs.rooms == old(hs.rooms)[id := VisibleRoom(powered, visibility)]
        && hs.calls == old(hs.calls) + [PowerLevelsSent(id, users)] + VisibilityCalls(id, powered, visibility)
  {
    // Ensure users have correct power levels
    r := EnsureRoomPowerLevels(hs, id, members);
    if r.Err? {
      return;
    }
    // Ensure room is (in) visible in the room directory
    var visibilityR := EnsureRoomVisibility(hs, id, visibility);
    if visibilityR.Err? {
      return Err(visibilityR.error);
    }
    r := Ok(());
  }

  /** The invitee, power-level and visibility steps of `sync_room`. */
  method SyncMembers(hs: Homeserver, id: RoomId, members: seq<MemberConfig>, visibility: string) returns (r: Result<()>)
    requires id in hs.rooms
    modifies hs
    ensures hs.aliases == old(hs.aliases) && hs.nextRoomId == old(hs.nextRoomId)
    ensures var outcome := MemberOutcome(id, old(hs.rooms)[id], members, visibility);
      && r == outcome.result
      && hs.rooms == old(hs.rooms)[id := outcome.room]
      && hs.calls == old(hs.calls) + outcome.calls
  {
    ghost var room := hs.rooms[id];
    MemberOutcomeCases(id, room, members, visibility);
    ghost var invitees := Invitees(room.memberEvents, members);
    ghost var invited := InvitedRoom(room, invitees);
    ghost var calls0, rooms0 := hs.calls, hs.rooms;
    // Ensure hardcoded users are invited
    r := EnsureRoomInvitees(hs, id, members);
    assert hs.rooms == rooms0[id := invited];
    assert hs.calls == calls0 + InviteCalls(id, invitees);
    r := LevelsAndVisibility(hs, id, members, visibility);
    if OverlaidLevels(invited.users, members).Ok? {
      var users := OverlaidLevels(invited.users, members).value;
      var powered := invited.(users := users);
      CallsRegroup(calls0, InviteCalls(id, invitees), [PowerLevelsSent(id, users)], VisibilityCalls(id, powered, visibility));
    }
  }

  /** `sync_room` from the name step on, for the id the alias step gave. */
  method SyncFromName(hs: Homeserver, id: Option<RoomId>, config: RoomConfig) returns (r: Result<()>)
    modifies hs
    ensures hs.aliases == old(hs.aliases) && hs.nextRoomId == old(hs.nextRoomId)
    ensures id.None? || id.value !in old(hs.rooms) ==> r == Err(UnknownRoom) && unchanged(hs)
    ensures id.Some? && id.value in old(hs.rooms) ==>
      var outcome := Steps(id.value, old(hs.rooms)[id.value], config);
      && r == outcome.result
      && hs.rooms == old(hs.rooms)[id.value := outcome.room]
      && hs.calls == old(hs.calls) + outcome.calls
  {
    // Ensure room has the correct name
    r := EnsureRoomName(hs, id, config.name);
    if r.Err? {
      return;
    }
    if config.members.None? {
      return Err(MissingKey(MembersKey));
    }
    r := SyncMembers(hs, id.value, config.members.value, config.visibility);
  }

  /** What `sync_room` does from the name step on to the existing room
      `id`, taking the server from `s` to `t` with result `r`: the room,
      calls and result of `Steps`; the alias table and room ids stay as
      they are. */
  ghost predicate StepsApplied(s: Server, t: Server, id: RoomId, config: RoomConfig, r: Result<()>) {
    && id in s.rooms
    && var outcome := Steps(id, s.rooms[id], config);
    && r == outcome.result
    && t == Server(s.aliases, s.rooms[id := outcome.room], s.nextRoomId, s.calls + outcome.calls)
  }

  /** What the legacy `sync_room` does to the server, taking it from `s` to
      `t` with result `r`. A null alias lookup gives no room and fails at
      the name step; a taken alias fails creation; either way nothing
      changes. Otherwise the room the alias names, or a room created under
      it, goes through `Steps`; `id` is that room. */
  ghost predicate RoomSynced(s: Server, t: Server, serverName: string, botUser: string, config: RoomConfig,
                             id: RoomId, r: Result<()>) {
    var lp := AliasLocalPart(config.alias);
    var claimed := "#" + lp + ":" + serverName;
    match Lookup(s.aliases, config.alias)
    case Null => r == Err(UnknownRoom) && t == s
    case Found(found) => id == found && StepsApplied(s, t, id, config, r)
    case NotFound =>
      if claimed in s.aliases then r == Err(AliasInUse(claimed)) && t == s
      else id == s.nextRoomId && StepsApplied(WithNewRoom(s, claimed, lp, botUser), t, id, config, r)
  }

  /** The steps change room `id` only, keep the bookkeeping and append
      their calls in step order. */
  lemma StepsAppliedFrame(s: Server, t: Server, id: RoomId, config: RoomConfig, r: Result<()>)
    requires StepsApplied(s, t, id, config, r)
    ensures ValidServer(s) ==> ValidServer(t)
    ensures id in t.rooms && t.rooms == s.rooms[id := t.rooms[id]] && t.aliases == s.aliases
    ensures s.calls <= t.calls && InStepOrder(t.calls[|s.calls|..])
  {
    var outcome := Steps(id, s.rooms[id], config);
    if ValidServer(s) {
      RoomUpdateKeepsValid(s.aliases, s.rooms, s.nextRoomId, id, outcome.room);
    }
    StepsInStepOrder(id, s.rooms[id], config);
    assert t.calls[|s.calls|..] == outcome.calls;
  }

  /** One legacy `sync_room` touches at most one room, the one it reports,
      keeps the bookkeeping valid and appends its calls in step order. */
  lemma RoomSyncedFrame(s: Server, t: Server, serverName: string, botUser: string, config: RoomConfig,
                        id: RoomId, r: Result<()>)
    requires RoomSynced(s, t, serverName, botUser, config, id, r)
    ensures ValidServer(s) ==> ValidServer(t)
    ensures Touches(s, t, id)
    ensures s.calls <= t.calls && InStepOrder(t.calls[|s.calls|..])
  {
    var lp := AliasLocalPart(config.alias);
    var claimed := "#" + lp + ":" + serverName;
    match Lookup(s.aliases, config.alias)
    case Null =>
      assert t.calls[|s.calls|..] == [];
    case Found(_) =>
      StepsAppliedFrame(s, t, id, config, r);
      UpdateTouches(s, t, id, claimed);
    case NotFound =>
      if claimed in s.aliases {
        assert t.calls[|s.calls|..] == [];
      } else {
        StepsAppliedFrame(WithNewRoom(s, claimed, lp, botUser), t, id, config, r);
        CreationThenRoomUpdate(s, t, claimed, lp, botUser);
        UpdateTouches(s, t, id, claimed);
      }
  }

  /** A legacy `sync_room` that succeeds found its room under the alias
      (a room it creates can never succeed), had a complete entry, and
      left the room converged to the entry's roster. */
  lemma RoomSyncedConverges(s: Server, t: Server, serverName: string, botUser: string, config: RoomConfig,
                            id: RoomId, r: Result<()>)
    requires RoomSynced(s, t, serverName, botUser, config, id, r)
    requires r.Ok?
    ensures Lookup(s.aliases, config.alias) == Found(id)
    ensures Complete(config)
    ensures id in t.rooms
    ensures Converged(t.rooms[id], config.name, UserInfoMapOf(config.members.value), config.visibility)
  {
    var lp := AliasLocalPart(config.alias);
    var claimed := "#" + lp + ":" + serverName;
    match Lookup(s.aliases, config.alias)
    case Found(_) =>
      StepsConverge(id, s.rooms[id], config);
    case NotFound =>
      if claimed !in s.aliases {
        UnnamedRoomNeverSyncs(id, NewRoom(botUser), config);
        assert false;
      }
  }

  /** A legacy `sync_room` whose alias is not found either fails to create
      the room, changing nothing, or creates one unnamed room under the
      claimed alias and then fails at the name step with nothing else
      done. */
  lemma NewAliasNeverSyncs(s: Server, t: Server, serverName: string, botUser: string, config: RoomConfig,
                           id: RoomId, r: Result<()>)
    requires RoomSynced(s, t, serverName, botUser, config, id, r)
    requires Lookup(s.aliases, config.alias) == NotFound
    ensures var lp := AliasLocalPart(config.alias);
      var claimed := "#" + lp + ":" + serverName;
      if claimed in s.aliases then r == Err(AliasInUse(claimed)) && t == s
      else
        && r == Err(StateNotFound(RoomNameEventType))
        && id == s.nextRoomId
        && t == WithNewRoom(s, claimed, lp, botUser)
  {
    var lp := AliasLocalPart(config.alias);
    var claimed := "#" + lp + ":" + serverName;
    if claimed !in s.aliases {
      UnnamedRoomNeverSyncs(id, NewRoom(botUser), config);
      var s1 := WithNewRoom(s, claimed, lp, botUser);
      assert s1.rooms[id := NewRoom(botUser)] == s1.rooms;
    }
  }

  /** When the alias is the one creation claims, the room a legacy
      `sync_room` creates is found by every later run, which fails at the
      name step and changes nothing: the configuration never syncs. */
  lemma CreatedRoomStaysUnsynced(s: Server, t: Server, u: Server, serverName: string, botUser: string,
                                 config: RoomConfig, id: RoomId, id': RoomId, r: Result<()>, r': Result<()>)
    requires config.alias == "#" + AliasLocalPart(config.alias) + ":" + serverName
    requires Lookup(s.aliases, config.alias) == NotFound
    requires RoomSynced(s, t, serverName, botUser, config, id, r)
    requires RoomSynced(t, u, serverName, botUser, config, id', r')
    ensures Lookup(t.aliases, config.alias) == Found(id) && id' == id
    ensures r == r' == Err(StateNotFound(RoomNameEventType))
    ensures u == t
  {
    var lp := AliasLocalPart(config.alias);
    NewAliasNeverSyncs(s, t, serverName, botUser, config, id, r);
    assert t.rooms[id] == NewRoom(botUser);
    UnnamedRoomNeverSyncs(id, NewRoom(botUser), config);
    assert t.rooms[id := NewRoom(botUser)] == t.rooms;
  }

  /** On a room found under the alias that is named and converged to a
      complete entry, a legacy `sync_room` changes nothing and issues only
      the power-level write. */
  lemma RoomSyncedIdempotent(s: Server, t: Server, serverName: string, botUser: string, config: RoomConfig,
                             id: RoomId, r: Result<()>)
    requires RoomSynced(s, t, serverName, botUser, config, id, r)
    requires Lookup(s.aliases, config.alias).Found?
    requires var found := Lookup(s.aliases, config.alias).id;
      && found in s.rooms && s.rooms[found].name.Some? && Complete(config)
      && Converged(s.rooms[found], config.name, UserInfoMapOf(config.members.value), config.visibility)
    ensures r.Ok?
    ensures t.rooms == s.rooms && t.aliases == s.aliases
    ensures t.calls == s.calls + [PowerLevelsSent(id, s.rooms[id].users)]
  {
    StepsIdempotent(id, s.rooms[id], config);
    assert s.rooms[id := s.rooms[id]] == s.rooms;
  }

  /** `sync_room`. `roomId` names the room the steps ran on. */
  method SyncRoom(hs: Homeserver, config: RoomConfig) returns (r: Result<()>, ghost roomId: RoomId)
    requires hs.Valid()
    modifies hs
    ensures hs.Valid()
    ensures RoomSynced(old(hs.State()), hs.State(), hs.serverName, hs.botUser, config, roomId, r)
  {
    roomId := 0;
    // Ensure room exists
    var idR := EnsureRoomWithAlias(hs, config.alias);
    if idR.Err? {
      return Err(idR.error), roomId;
    }
    var id := idR.value;
    if id.Some? {
      roomId := id.value;
    }
    ghost var s1 := hs.State();
    r := SyncFromName(hs, id, config);
    if id.Some? {
      StepsAppliedFrame(s1, hs.State(), roomId, config, r);
    }
  }

  /** One entry of a run: `sync_room` took the server from `s` to `t`. */
  ghost predicate Ran(s: Server, t: Server, serverName: string, botUser: string, config: RoomConfig,
                      id: RoomId, r: Result<()>) {
    RoomSynced(s, t, serverName, botUser, config, id, r)
  }

  /** A run of the legacy `sync_room` over the first `n` entries, in list
      order: entry i took the server from `states[i]` to `states[i + 1]`
      and ran on room `ids[i]`. Every entry but the n-th succeeded; the
      n-th ended with `last`. */
  ghost predicate RunOf(states: seq<Server>, serverName: string, botUser: string, rooms: seq<RoomConfig>,
                        ids: seq<RoomId>, n: nat, last: Result<()>) {
    && n <= |rooms| && |states| == n + 1 && |ids| == n
    && forall i | 0 <= i < n ::
         Ran(states[i], states[i + 1], serverName, botUser, rooms[i], ids[i], if i < n - 1 then Ok(()) else last)
  }

  /** A run of successes, followed by one more `sync_room`, is a run one
      entry longer that ends with that entry's result. */
  lemma RunExtends(states: seq<Server>, serverName: string, botUser: string, rooms: seq<RoomConfig>,
                   ids: seq<RoomId>, n: nat, next: Server, id: RoomId, result: Result<()>)
    requires RunOf(states, serverName, botUser, rooms, ids, n, Ok(()))
    requires n < |rooms|
    requires Ran(states[n], next, serverName, botUser, rooms[n], id, result)
    ensures RunOf(states + [next], serverName, botUser, rooms, ids + [id], n + 1, result)
  {
    var states', ids' := states + [next], ids + [id];
    forall i | 0 <= i < n + 1
      ensures Ran(states'[i], states'[i + 1], serverName, botUser, rooms[i], ids'[i],
        if i < n then Ok(()) else result)
    {
      if i < n {
        assert states'[i] == states[i] && states'[i + 1] == states[i + 1] && ids'[i] == ids[i];
      }
    }
  }

  /** In a run, each entry's calls form one block in step order, each
      entry changes no other room, and each entry that succeeded was
      complete and its room converged when its sync ended. */
  lemma RunBlocks(states: seq<Server>, serverName: string, botUser: string, rooms: seq<RoomConfig>,
                  ids: seq<RoomId>, n: nat, last: Result<()>)
    requires RunOf(states, serverName, botUser, rooms, ids, n, last)
    ensures forall i | 0 <= i < n ::
      && Touches(states[i], states[i + 1], ids[i])
      && states[i].calls <= states[i + 1].calls
      && InStepOrder(states[i + 1].calls[|states[i].calls|..])
    ensures forall i | 0 <= i < n :: (i < n - 1 || last.Ok?) ==>
      && Complete(rooms[i])
      && ids[i] in states[i + 1].rooms
      && Converged(states[i + 1].rooms[ids[i]], rooms[i].name, UserInfoMapOf(rooms[i].members.value), rooms[i].visibility)
  {
    forall i | 0 <= i < n
      ensures && Touches(states[i], states[i + 1], ids[i])
              && states[i].calls <= states[i + 1].calls
              && InStepOrder(states[i + 1].calls[|states[i].calls|..])
    {
      RoomSyncedFrame(states[i], states[i + 1], serverName, botUser, rooms[i], ids[i], if i < n - 1 then Ok(()) else last);
    }
    forall i | 0 <= i < n
      ensures (i < n - 1 || last.Ok?) ==>
        && Complete(rooms[i])
        && ids[i] in states[i + 1].rooms
        && Converged(states[i + 1].rooms[ids[i]], rooms[i].name, UserInfoMapOf(rooms[i].members.value), rooms[i].visibility)
    {
      if i < n - 1 || last.Ok? {
        RoomSyncedConverges(states[i], states[i + 1], serverName, botUser, rooms[i], ids[i],
          if i < n - 1 then Ok(()) else last);
      }
    }
  }

  /** `sync_rooms`: the entries in list order; the first failure ends the
      run. The command that starts it checks no sender. `done` counts the
      entries synced before the run ended; `states` are the server's
      states before, between and after the entries attempted and `ids`
      the rooms the syncs ran on. Nothing happens after the failing entry. */
  method SyncRooms(hs: Homeserver, rooms: seq<RoomConfig>)
    returns (r: Result<()>, ghost done: nat, ghost states: seq<Server>, ghost ids: seq<RoomId>)
    requires hs.Valid()
    modifies hs
    ensures hs.Valid()
    ensures old(hs.calls) <= hs.calls
    ensures done <= |rooms| && (r.Ok? <==> done == |rooms|)
    ensures RunOf(states, hs.serverName, hs.botUser, rooms, ids, Attempted(r, done), r)
    ensures states[0] == old(hs.State()) && states[|states| - 1] == hs.State()
  {
    done, states, ids := 0, [hs.State()], [];
    r := Ok(());
    for k := 0 to |rooms|
      invariant hs.Valid()
      invariant old(hs.calls) <= hs.calls
      invariant done == k && r.Ok?
      invariant RunOf(states, hs.serverName, hs.botUser, rooms, ids, k, Ok(()))
      invariant states[0] == old(hs.State()) && states[k] == hs.State()
    {
      ghost var before := hs.State();
      var result;
      ghost var roomId;
      result, roomId := SyncRoom(hs, rooms[k]);
      RoomSyncedFrame(before, hs.State(), hs.serverName, hs.botUser, rooms[k], roomId, result);
      CallsPrefixTransitive(old(hs.calls), before.calls, hs.calls);
      RunExtends(states, hs.serverName, hs.botUser, rooms, ids, k, hs.State(), roomId, result);
      states, ids := states + [hs.State()], ids + [roomId];
      if result.Err? {
        return result, done, states, ids;
      }
      done := done + 1;
    }
  }
}
