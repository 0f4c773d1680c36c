/** The room convergence driver (inviter/matrix_utils.py): each `Ensure*`
    method reads the room's current state from the homeserver, compares it
    with the desired one and issues a mutating call only where the source
    does. */
module MatrixUtils {
  import opened Wrappers
  import opened Strings
  import opened Remote

  /** Per-user settings of a roster: the power level to grant. */
  datatype UserInfo = UserInfo(powerLevel: int)

  /** A roster: mxid -> settings. */
  type UserInfoMap = map<string, UserInfo>

  // ---------------------------------------------------------------------
  // Alias local part

  /** Python's `alias[1:-1]`: drop the first and the last character. */
  function Inner(alias: string): string {
    if |alias| >= 2 then alias[1..|alias| - 1] else []
  }

  /** `alias[1:-1].split(":")[0]`: the part of the alias between its first
      character and the first ':' after it, never including the alias's
      last character. */
  function AliasLocalPart(alias: string): (lp: string)
    ensures var inner := Inner(alias);
      && |lp| <= |inner| && lp == inner[..|lp|]
      && ':' !in lp
      && (':' in inner ==> |lp| < |inner| && inner[|lp|] == ':')
      && (':' !in inner ==> lp == inner)
  {
    FirstFieldOfSplit(Inner(alias), ':');
    Split(Inner(alias), ":")[0]
  }

  /** For an alias of the canonical shape `#lp:server` the rule gives back
      `lp`. */
  lemma CanonicalAliasLocalPart(lp: string, server: string)
    requires ':' !in lp
    ensures AliasLocalPart("#" + lp + ":" + server) == lp
  {
    var alias := "#" + lp + ":" + server;
    var inner := Inner(alias);
    var r := AliasLocalPart(alias);
    assert |inner| == |lp| + |server|;
    assert forall k | 0 <= k < |lp| :: inner[k] == alias[k + 1] == lp[k];
    assert inner[..|lp|] == lp;
    if server == [] {
      assert inner == lp;
    } else {
      assert inner[|lp|] == alias[|lp| + 1] == ':';
      assert forall k | 0 <= k < |r| :: inner[k] == r[k] != ':';
      assert |r| == |lp|;
    }
  }

  /** An alias without any ':' loses its last character. */
  lemma AliasWithoutColonLosesLastChar(alias: string)
    requires |alias| >= 2 && ':' !in alias
    ensures AliasLocalPart(alias) == alias[1..|alias| - 1]
  {
    assert ':' !in Inner(alias);
  }

  // ---------------------------------------------------------------------
  // Membership split

  /** The state keys of the `m.room.member` events whose membership is `m`,
      in event order. */
  function KeysWith(events: seq<StateEvent>, m: Membership): seq<string>
    decreases |events|
  {
    if events == [] then []
    else
      var last := events[|events| - 1];
      KeysWith(events[..|events| - 1], m)
        + (if last.eventType == MemberEventType && last.membership == m then [last.stateKey] else [])
  }

  /** `state_events_to_member_list`: the joined and the invited users. */
  method StateEventsToMemberList(events: seq<StateEvent>) returns (memberMxids: seq<string>, inviteMxids: seq<string>)
    ensures memberMxids == KeysWith(events, Join)
    ensures inviteMxids == KeysWith(events, Invite)
  {
    memberMxids, inviteMxids := [], [];
    for i := 0 to |events|
      invariant memberMxids == KeysWith(events[..i], Join)
      invariant inviteMxids == KeysWith(events[..i], Invite)
    {
      var event := events[i];
      assert events[..i + 1][..i] == events[..i];
      if event.eventType == MemberEventType && event.membership == Join {
        memberMxids := memberMxids + [event.stateKey];
      }
      if event.eventType == MemberEventType && event.membership == Invite {
        inviteMxids := inviteMxids + [event.stateKey];
      }
    }
    assert events[..|events|] == events;
  }

  /** A user is listed under `m` exactly when some member event gives it
      membership `m`; no other event matters. */
  lemma {:induction false} KeysWithIff(events: seq<StateEvent>, m: Membership, x: string)
    ensures x in KeysWith(events, m) <==>
      exists i :: 0 <= i < |events| && events[i] == StateEvent(MemberEventType, x, m)
    decreases |events|
  {
    if events != [] {
      var init := events[..|events| - 1];
      KeysWithIff(init, m, x);
      if exists i :: 0 <= i < |init| && init[i] == StateEvent(MemberEventType, x, m) {
        var i :| 0 <= i < |init| && init[i] == StateEvent(MemberEventType, x, m);
        assert events[i] == init[i];
      }
      if exists i :: 0 <= i < |events| && events[i] == StateEvent(MemberEventType, x, m) {
        var i :| 0 <= i < |events| && events[i] == StateEvent(MemberEventType, x, m);
        if i < |init| {
          assert init[i] == events[i];
        }
      }
    }
  }

  /** The split distributes over concatenation of event lists. */
  lemma {:induction false} KeysWithAppend(a: seq<StateEvent>, b: seq<StateEvent>, m: Membership)
    ensures KeysWith(a + b, m) == KeysWith(a, m) + KeysWith(b, m)
    decreases |b|
  {
    if b == [] {
      assert a + b == a;
    } else {
      var b' := b[..|b| - 1];
      KeysWithAppend(a, b', m);
      assert (a + b)[..|a + b| - 1] == a + b';
    }
  }

  /** Joined or invited. */
  predicate Present(events: seq<StateEvent>, user: string) {
    user in KeysWith(events, Join) || user in KeysWith(events, Invite)
  }

  /** The member events that inviting `users` in order appends. */
  function InviteEvents(users: seq<string>): seq<StateEvent>
    decreases |users|
  {
    if users == [] then []
    else InviteEvents(users[..|users| - 1]) + [StateEvent(MemberEventType, users[|users| - 1], Invite)]
  }

  /** The calls that inviting `users` in order into room `id` issues. */
  function InviteCalls(id: RoomId, users: seq<string>): seq<Call>
    decreases |users|
  {
    if users == [] then []
    else InviteCalls(id, users[..|users| - 1]) + [Invited(id, users[|users| - 1])]
  }

  /** Appending invite events adds exactly those users to the invited list
      and leaves the joined list alone. */
  lemma {:induction false} InviteEventsSplit(users: seq<string>)
    ensures KeysWith(InviteEvents(users), Invite) == users
    ensures KeysWith(InviteEvents(users), Join) == []
    decreases |users|
  {
    if users != [] {
      var init := users[..|users| - 1];
      InviteEventsSplit(init);
      KeysWithAppend(InviteEvents(init), [StateEvent(MemberEventType, users[|users| - 1], Invite)], Invite);
      KeysWithAppend(InviteEvents(init), [StateEvent(MemberEventType, users[|users| - 1], Invite)], Join);
      assert init + [users[|users| - 1]] == users;
    }
  }

  /** The invite step issues invite calls only. */
  lemma {:induction false} InviteCallsAreInvites(id: RoomId, users: seq<string>)
    ensures forall c | c in InviteCalls(id, users) :: c.Invited? && c.room == id
    decreases |users|
  {
    if users != [] {
      InviteCallsAreInvites(id, users[..|users| - 1]);
    }
  }

  predicate NoDuplicates(s: seq<string>) {
    forall i, j :: 0 <= i < j < |s| ==> s[i] != s[j]
  }

  // ---------------------------------------------------------------------
  // Power levels

  /** The `users` map after the power-level step: the current map with every
      roster entry written over it. */
  function PowerLevelsAfter(current: map<string, int>, roster: UserInfoMap): (r: map<string, int>)
    ensures r.Keys == current.Keys + roster.Keys
    ensures forall u | u in roster :: r[u] == roster[u].powerLevel
    ensures forall u | u in current && u !in roster :: r[u] == current[u]
  {
    current + map u | u in roster :: roster[u].powerLevel
  }

  /** Overlaying the same roster twice is overlaying it once. */
  lemma PowerLevelsAfterIdempotent(current: map<string, int>, roster: UserInfoMap)
    ensures PowerLevelsAfter(PowerLevelsAfter(current, roster), roster) == PowerLevelsAfter(current, roster)
  {
    var once := PowerLevelsAfter(current, roster);
    var twice := PowerLevelsAfter(once, roster);
    assert twice.Keys == once.Keys;
    assert forall u | u in twice :: twice[u] == once[u];
  }

  /** The map is a fixed point of the overlay exactly when every roster user
      already holds its level. */
  lemma PowerLevelsFixedPoint(current: map<string, int>, roster: UserInfoMap)
    ensures PowerLevelsAfter(current, roster) == current <==>
      forall u | u in roster :: u in current && current[u] == roster[u].powerLevel
  {
    if forall u | u in roster :: u in current && current[u] == roster[u].powerLevel {
      var r := PowerLevelsAfter(current, roster);
      assert r.Keys == current.Keys;
      assert forall u | u in r :: r[u] == current[u];
    }
  }

  // ---------------------------------------------------------------------
  // What each step does to one room

  /** The name the room shows; a room without a name event shows "". */
  function DisplayedName(room: Room): string {
    match room.name
    case Some(n) => n
    case None => ""
  }

  /** The room after `ensure_room_name`: it shows `name`, and nothing but
      its name event can have changed. */
  function RenamedRoom(room: Room, name: string): (r: Room)
    ensures DisplayedName(r) == name
    ensures r.memberEvents == room.memberEvents && r.users == room.users && r.visibility == room.visibility
    ensures DisplayedName(room) == name ==> r == room
  {
    if DisplayedName(room) == name then room else room.(name := Some(name))
  }

  /** The calls `ensure_room_name` issues: a name event for `name`, and
      only when the displayed name differs. */
  function NameCalls(id: RoomId, room: Room, name: string): (calls: seq<Call>)
    ensures calls == [] <==> DisplayedName(room) == name
    ensures forall c | c in calls :: c == NameSent(id, name)
  {
    if DisplayedName(room) == name then [] else [NameSent(id, name)]
  }

  /** What `ensure_room_visibility` decides for a room: nothing to do
      (`Ok(None)`), a visibility to set (`Ok(Some(v))`), or a failure on a
      string that names no visibility. */
  function VisibilityChange(room: Room, visibility: string): (r: Result<Option<Visibility>>)
    ensures r == Ok(None) <==> VisibilityName(room.visibility) == visibility
    ensures r.Err? <==> VisibilityName(room.visibility) != visibility && visibility != "public" && visibility != "private"
    ensures r.Err? ==> r.error == InvalidVisibility(visibility)
    ensures r.Ok? && r.value.Some? ==> VisibilityName(r.value.value) == visibility && r.value.value != room.visibility
  {
    if VisibilityName(room.visibility) == visibility then Ok(None)
    else match ParseVisibility(visibility)
      case None => Err(InvalidVisibility(visibility))
      case Some(v) => Ok(Some(v))
  }

  /** The room after `ensure_room_visibility`: when the step succeeds it is
      listed as `visibility` says; only its visibility can have changed. */
  function VisibleRoom(room: Room, visibility: string): (r: Room)
    ensures r.name == room.name && r.memberEvents == room.memberEvents && r.users == room.users
    ensures VisibilityChange(room, visibility).Ok? ==> VisibilityName(r.visibility) == visibility
    ensures VisibilityChange(room, visibility).Err? || VisibilityName(room.visibility) == visibility ==> r == room
  {
    match VisibilityChange(room, visibility)
    case Ok(Some(v)) => room.(visibility := v)
    case _ => room
  }

  /** The calls `ensure_room_visibility` issues: at most one, and only when
      the visibility has to change to a valid one. */
  function VisibilityCalls(id: RoomId, room: Room, visibility: string): (calls: seq<Call>)
    ensures |calls| <= 1
    ensures calls == [] <==> !(VisibilityChange(room, visibility).Ok? && VisibilityChange(room, visibility).value.Some?)
    ensures forall c | c in calls :: c.VisibilitySet? && c.room == id && VisibilityName(c.visibility) == visibility
  {
    match VisibilityChange(room, visibility)
    case Ok(Some(v)) => [VisibilitySet(id, v)]
    case _ => []
  }

  /** The room after `ensure_room_power_levels`: the roster overlaid on its
      `users`, which is then a fixed point of the overlay. */
  function PoweredRoom(room: Room, roster: UserInfoMap): (r: Room)
    ensures r.name == room.name && r.memberEvents == room.memberEvents && r.visibility == room.visibility
    ensures forall u | u in roster :: u in r.users && r.users[u] == roster[u].powerLevel
    ensures forall u | u in room.users && u !in roster :: u in r.users && r.users[u] == room.users[u]
    ensures r.users.Keys == room.users.Keys + roster.Keys
    ensures PowerLevelsAfter(r.users, roster) == r.users
  {
    PowerLevelsAfterIdempotent(room.users, roster);
    room.(users := PowerLevelsAfter(room.users, roster))
  }

  /** An order in which the invite step can go through the roster: every
      roster user that is neither joined nor invited, each once. */
  ghost predicate InviteOrder(events: seq<StateEvent>, roster: UserInfoMap, invited: seq<string>) {
    && (forall u :: u in invited <==> u in roster && !Present(events, u))
    && NoDuplicates(invited)
  }

  /** The room after inviting `invited` in that order. */
  function InvitedRoom(room: Room, invited: seq<string>): Room {
    room.(memberEvents := room.memberEvents + InviteEvents(invited))
  }

  /** After the invite step every roster user is joined or invited, and the
      joined users are the same as before. */
  lemma InviteStepCovers(events: seq<StateEvent>, invited: seq<string>, roster: UserInfoMap)
    requires forall u :: u in invited <==> u in roster && !Present(events, u)
    ensures forall u | u in roster :: Present(events + InviteEvents(invited), u)
    ensures KeysWith(events + InviteEvents(invited), Join) == KeysWith(events, Join)
    ensures KeysWith(events + InviteEvents(invited), Invite) == KeysWith(events, Invite) + invited
  {
    InviteEventsSplit(invited);
    KeysWithAppend(events, InviteEvents(invited), Join);
    KeysWithAppend(events, InviteEvents(invited), Invite);
  }

  /** Inviting one more user appends one invite event and one call. */
  lemma InviteOneMore(room: Room, id: RoomId, invited: seq<string>, mxid: string)
    ensures var before := InvitedRoom(room, invited);
      InvitedRoom(room, invited + [mxid])
        == before.(memberEvents := before.memberEvents + [StateEvent(MemberEventType, mxid, Invite)])
    ensures InviteCalls(id, invited + [mxid]) == InviteCalls(id, invited) + [Invited(id, mxid)]
  {
    assert (invited + [mxid])[..|invited|] == invited;
    assert room.memberEvents + InviteEvents(invited + [mxid])
        == room.memberEvents + InviteEvents(invited) + [StateEvent(MemberEventType, mxid, Invite)];
  }

  /** When every roster user is already joined or invited, the invite step
      invites nobody and leaves the room as it is. */
  lemma InviteNobodyWhenAllPresent(room: Room, roster: UserInfoMap, invited: seq<string>)
    requires forall u | u in roster :: Present(room.memberEvents, u)
    requires InviteOrder(room.memberEvents, roster, invited)
    ensures invited == []
    ensures InvitedRoom(room, invited) == room
  {
    NoMemberMeansEmpty(invited);
    assert room.memberEvents + InviteEvents([]) == room.memberEvents;
  }

  lemma NoMemberMeansEmpty(s: seq<string>)
    ensures (forall x :: x !in s) ==> s == []
  {
    if s != [] {
      assert s[0] in s;
    }
  }

  /** The loop's view of the room (its joined and invited lists) gives the
      invite order in terms of the room's events. */
  lemma InviteOrderFromLists(events: seq<StateEvent>, roster: UserInfoMap, invited: seq<string>,
                             members: seq<string>, invitees: seq<string>)
    requires members == KeysWith(events, Join) && invitees == KeysWith(events, Invite)
    requires forall u :: u in invited <==> u in roster && u !in members && u !in invitees
    requires NoDuplicates(invited)
    ensures InviteOrder(events, roster, invited)
  {
  }

  // ---------------------------------------------------------------------
  // The ensure steps

  /** `ensure_room_visibility`: set the directory visibility only when the
      current one differs from the requested string; a string that names no
      visibility fails at that point. */
  method EnsureRoomVisibility(hs: Homeserver, id: RoomId, visibility: string) returns (r: Result<()>)
    modifies hs
    ensures hs.aliases == old(hs.aliases) && hs.nextRoomId == old(hs.nextRoomId)
    ensures id !in old(hs.rooms) ==> r == Err(UnknownRoom) && unchanged(hs)
    ensures id in old(hs.rooms) ==>
      var room := old(hs.rooms)[id];
      && (r.Ok? <==> VisibilityChange(room, visibility).Ok?)
      && (r.Err? ==> r.error == InvalidVisibility(visibility))
      && hs.rooms == old(hs.rooms)[id := VisibleRoom(room, visibility)]
      && hs.calls == old(hs.calls) + VisibilityCalls(id, room, visibility)
  {
    if id !in hs.rooms {
      return Err(UnknownRoom);
    }
    var current := hs.rooms[id].visibility;
    if VisibilityName(current) != visibility {
      var v := ParseVisibility(visibility);
      if v.None? {
        assert hs.rooms == hs.rooms[id := hs.rooms[id]];
        assert hs.calls + [] == hs.calls;
        return Err(InvalidVisibility(visibility));
      }
      hs.SetDirectoryVisibility(id, v.value);
    } else {
      assert hs.rooms == hs.rooms[id := hs.rooms[id]];
      assert hs.calls + [] == hs.calls;
    }
    r := Ok(());
  }

  /** `ensure_room_name`: write the name only when the displayed name
      differs from it. */
  method EnsureRoomName(hs: Homeserver, id: RoomId, name: string) returns (r: Result<()>)
    modifies hs
    ensures hs.aliases == old(hs.aliases) && hs.nextRoomId == old(hs.nextRoomId)
    ensures id !in old(hs.rooms) ==> r == Err(UnknownRoom) && unchanged(hs)
    ensures id in old(hs.rooms) ==>
      var room := old(hs.rooms)[id];
      && r.Ok?
      && hs.rooms == old(hs.rooms)[id := RenamedRoom(room, name)]
      && hs.calls == old(hs.calls) + NameCalls(id, room, name)
  {
    if id !in hs.rooms {
      return Err(UnknownRoom);
    }
    var currentName := DisplayedName(hs.rooms[id]);
    if currentName != name {
      hs.SendRoomName(id, name);
    } else {
      assert hs.rooms == hs.rooms[id := hs.rooms[id]];
      assert hs.calls + [] == hs.calls;
    }
    r := Ok(());
  }

  /** `create_room_with_alias`: create a room whose local part is taken from
      the alias. */
  method CreateRoomWithAlias(hs: Homeserver, alias: string) returns (r: Result<RoomId>)
    requires hs.Valid()
    modifies hs
    ensures hs.Valid()
    ensures var lp := AliasLocalPart(alias);
      var claimed := "#" + lp + ":" + hs.serverName;
      if claimed in old(hs.aliases) then
        r == Err(AliasInUse(claimed)) && unchanged(hs)
      else
        && r == Ok(old(hs.nextRoomId)) && r.value in hs.rooms && r.value !in old(hs.rooms)
        && hs.State() == WithNewRoom(old(hs.State()), claimed, lp, hs.botUser)
  {
    var localPart := AliasLocalPart(alias);
    r := hs.CreateRoom(localPart);
  }

  /** `ensure_room_with_alias`: a found room is used as it is; a missing
      alias leads to exactly one creation; a null lookup result fails. */
  method EnsureRoomWithAlias(hs: Homeserver, alias: string) returns (r: Result<RoomId>)
    requires hs.Valid()
    modifies hs
    ensures hs.Valid()
    ensures r.Ok? ==> r.value in hs.rooms
    ensures old(hs.calls) <= hs.calls
    ensures forall c | c in hs.calls[|old(hs.calls)|..] :: c.Created?
    ensures old(hs.LookupAlias(alias)).Found? ==>
      r == Ok(old(hs.LookupAlias(alias)).id) && unchanged(hs)
    ensures old(hs.LookupAlias(alias)).Null? ==>
      r == Err(RoomUnresolvable(alias)) && unchanged(hs)
    ensures old(hs.LookupAlias(alias)).NotFound? ==>
      var lp := AliasLocalPart(alias);
      var claimed := "#" + lp + ":" + hs.serverName;
      if claimed in old(hs.aliases) then
        r == Err(AliasInUse(claimed)) && unchanged(hs)
      else
        && r == Ok(old(hs.nextRoomId)) && r.value !in old(hs.rooms)
        && hs.State() == WithNewRoom(old(hs.State()), claimed, lp, hs.botUser)
  {
    var room := hs.LookupAlias(alias);
    match room
    case NotFound =>
      r := CreateRoomWithAlias(hs, alias);
    case Null =>
      r := Err(RoomUnresolvable(alias));
    case Found(id) =>
      r := Ok(id);
  }

  /** `ensure_room_invitees`: invite exactly the roster users that are
      neither joined nor invited, each once; nobody is removed. `invited`
      is the order the invites went out in. */
  method EnsureRoomInvitees(hs: Homeserver, id: RoomId, roster: UserInfoMap)
    returns (r: Result<()>, ghost invited: seq<string>)
    modifies hs
    ensures hs.aliases == old(hs.aliases) && hs.nextRoomId == old(hs.nextRoomId)
    ensures id !in old(hs.rooms) ==> r == Err(UnknownRoom) && unchanged(hs)
    ensures id in old(hs.rooms) ==>
      var room := old(hs.rooms)[id];
      && r.Ok?
      && InviteOrder(room.memberEvents, roster, invited)
      && hs.rooms == old(hs.rooms)[id := InvitedRoom(room, invited)]
      && hs.calls == old(hs.calls) + InviteCalls(id, invited)
  {
    invited := [];
    if id !in hs.rooms {
      r := Err(UnknownRoom);
      return;
    }
    var roomMembers, roomInvitees := StateEventsToMemberList(hs.rooms[id].memberEvents);
    invited := InviteMissing(hs, id, roster, roomMembers, roomInvitees);
    InviteOrderFromLists(old(hs.rooms)[id].memberEvents, roster, invited, roomMembers, roomInvitees);
    r := Ok(());
  }

  /** The loop of `ensure_room_invitees`: go through the roster and invite
      every user on neither of the two lists. */
  method InviteMissing(hs: Homeserver, id: RoomId, roster: UserInfoMap, roomMembers: seq<string>, roomInvitees: seq<string>)
    returns (ghost invited: seq<string>)
    requires id in hs.rooms
    modifies hs
    ensures hs.aliases == old(hs.aliases) && hs.nextRoomId == old(hs.nextRoomId)
    ensures forall u :: u in invited <==> u in roster && u !in roomMembers && u !in roomInvitees
    ensures NoDuplicates(invited)
    ensures hs.rooms == old(hs.rooms)[id := InvitedRoom(old(hs.rooms)[id], invited)]
    ensures hs.calls == old(hs.calls) + InviteCalls(id, invited)
  {
    invited := [];
    ghost var room := hs.rooms[id];
    var pending := roster.Keys;
    assert room.memberEvents + InviteEvents(invited) == room.memberEvents;
    assert InvitedRoom(room, invited) == room;
    assert old(hs.rooms)[id := room] == old(hs.rooms);
    while pending != {}
      invariant hs.aliases == old(hs.aliases) && hs.nextRoomId == old(hs.nextRoomId)
      invariant pending <= roster.Keys
      invariant forall u :: u in invited <==> u in roster && u !in pending && u !in roomMembers && u !in roomInvitees
      invariant NoDuplicates(invited)
      invariant hs.rooms == old(hs.rooms)[id := InvitedRoom(room, invited)]
      invariant hs.calls == old(hs.calls) + InviteCalls(id, invited)
      decreases pending
    {
      var mxid :| mxid in pending;
      if mxid !in roomMembers && mxid !in roomInvitees {
        InviteOneMore(room, id, invited, mxid);
        hs.InviteUser(id, mxid);
        invited := invited + [mxid];
      }
      pending := pending - {mxid};
    }
  }

  /** `ensure_room_power_levels`: overlay the roster on the current `users`
      map and write the result, in exactly one call, whether or not it
      differs. */
  method EnsureRoomPowerLevels(hs: Homeserver, id: RoomId, roster: UserInfoMap) returns (r: Result<()>)
    modifies hs
    ensures hs.aliases == old(hs.aliases) && hs.nextRoomId == old(hs.nextRoomId)
    ensures id !in old(hs.rooms) ==> r == Err(UnknownRoom) && unchanged(hs)
    ensures id in old(hs.rooms) ==>
      var room := old(hs.rooms)[id];
      && r.Ok?
      && hs.rooms == old(hs.rooms)[id := PoweredRoom(room, roster)]
      && hs.calls == old(hs.calls) + [PowerLevelsSent(id, PoweredRoom(room, roster).users)]
  {
    if id !in hs.rooms {
      return Err(UnknownRoom);
    }
    var currentPowerLevels := hs.rooms[id].users;
    ghost var before := currentPowerLevels;
    var pending := roster.Keys;
    while pending != {}
      invariant pending <= roster.Keys
      invariant currentPowerLevels.Keys == before.Keys + (roster.Keys - pending)
      invariant forall u | u in currentPowerLevels ::
        currentPowerLevels[u] == if u in roster && u !in pending then roster[u].powerLevel else before[u]
      decreases pending
    {
      var mxid :| mxid in pending;
      currentPowerLevels := currentPowerLevels[mxid := roster[mxid].powerLevel];
      pending := pending - {mxid};
    }
    assert currentPowerLevels == PowerLevelsAfter(before, roster);
    hs.SendPowerLevels(id, currentPowerLevels);
    r := Ok(());
  }
}
