/** The remote side of the inviter: a fake Matrix homeserver holding the
    state the inviter reads and the mutating calls it accepted. It stands in
    for the client API (room aliases, room creation, state events, invites,
    the room directory); nothing here is the inviter's own logic. */
module Remote {
  import opened Wrappers

  /** `membership` values of an `m.room.member` event. */
  datatype Membership = Join | Invite | Leave | Ban | Knock

  const MemberEventType: string := "m.room.member"

  /** A room state event as the member listing returns it; `membership` is
      the content's membership field. */
  datatype StateEvent = StateEvent(eventType: string, stateKey: string, membership: Membership)

  /** Room directory visibility. */
  datatype Visibility = Public | Private

  function VisibilityName(v: Visibility): string {
    match v
    case Public => "public"
    case Private => "private"
  }

  /** The enum constructor `RoomDirectoryVisibility(s)`, which rejects any
      other string. */
  function ParseVisibility(s: string): (r: Option<Visibility>)
    ensures r.Some? <==> s == "public" || s == "private"
    ensures r.Some? ==> VisibilityName(r.value) == s
  {
    if s == "public" then Some(Public)
    else if s == "private" then Some(Private)
    else None
  }

  /** What the inviter sees of one room. `name` is None when the room has no
      name state event; `users` is the `users` map of the power-level event. */
  datatype Room = Room(
    name: Option<string>,
    memberEvents: seq<StateEvent>,
    users: map<string, int>,
    visibility: Visibility)

  /** A room as the server creates it: no name, the creator joined with
      power level 100, private. */
  function NewRoom(creator: string): Room {
    Room(None, [StateEvent(MemberEventType, creator, Join)], map[creator := 100], Private)
  }

  /** A mutating call the server accepted. */
  datatype Call =
    | Created(localPart: string, room: RoomId)
    | NameSent(room: RoomId, name: string)
    | Invited(room: RoomId, user: string)
    | PowerLevelsSent(room: RoomId, users: map<string, int>)
    | VisibilitySet(room: RoomId, visibility: Visibility)

  /** The three outcomes of an alias lookup: a room, MNotFound, or null. */
  datatype AliasLookup = Found(id: RoomId) | NotFound | Null

  /** `get_room_alias` on an alias table: Some(id) resolves, None makes the
      lookup return null, an absent alias is not found. */
  function Lookup(aliases: map<string, Option<RoomId>>, alias: string): (r: AliasLookup)
    ensures r == NotFound <==> alias !in aliases
    ensures r == Null <==> alias in aliases && aliases[alias] == None
    ensures r.Found? ==> aliases[alias] == Some(r.id)
  {
    if alias !in aliases then NotFound
    else match aliases[alias]
      case Some(id) => Found(id)
      case None => Null
  }

  /** Everything the inviter can change on the server, as a value: the
      alias table, the rooms, the next room id and the calls accepted. */
  datatype Server = Server(
    aliases: map<string, Option<RoomId>>,
    rooms: map<RoomId, Room>,
    nextRoomId: RoomId,
    calls: seq<Call>)

  /** The server after `create_room(localPart)` made room `s.nextRoomId`,
      claiming the alias `claimed` for it. */
  function WithNewRoom(s: Server, claimed: string, localPart: string, creator: string): Server {
    Server(s.aliases[claimed := Some(s.nextRoomId)], s.rooms[s.nextRoomId := NewRoom(creator)], s.nextRoomId + 1,
      s.calls + [Created(localPart, s.nextRoomId)])
  }

  /** Creating a room keeps the bookkeeping, and the room it makes is new. */
  lemma NewRoomKeepsValid(s: Server, claimed: string, localPart: string, creator: string)
    requires ValidServer(s)
    ensures s.nextRoomId !in s.rooms
    ensures ValidServer(WithNewRoom(s, claimed, localPart, creator))
  {
  }

  /** The server's bookkeeping: every alias that resolves names a room, and
      every room id is below the next one to be handed out. */
  ghost predicate ValidState(aliases: map<string, Option<RoomId>>, rooms: map<RoomId, Room>, nextRoomId: RoomId) {
    && (forall a | a in aliases && aliases[a].Some? :: aliases[a].value in rooms)
    && (forall id | id in rooms :: id < nextRoomId)
  }

  ghost predicate ValidServer(s: Server) {
    ValidState(s.aliases, s.rooms, s.nextRoomId)
  }

  /** Replacing the state of an existing room keeps the bookkeeping. */
  lemma RoomUpdateKeepsValid(aliases: map<string, Option<RoomId>>, rooms: map<RoomId, Room>, nextRoomId: RoomId,
                             id: RoomId, room: Room)
    requires ValidState(aliases, rooms, nextRoomId) && id in rooms
    ensures ValidState(aliases, rooms[id := room], nextRoomId)
  {
  }

  class Homeserver {
    /** The server's domain; a created room gets the alias `#lp:serverName`. */
    const serverName: string
    /** The inviter's own user, the creator of the rooms it creates. */
    const botUser: string
    /** Alias table: Some(id) resolves, None makes the lookup return null,
        an absent alias is not found. */
    var aliases: map<string, Option<RoomId>>
    var rooms: map<RoomId, Room>
    var nextRoomId: RoomId
    /** Every mutating call accepted, in order. */
    var calls: seq<Call>

    ghost predicate Valid()
      reads this
    {
      ValidState(aliases, rooms, nextRoomId)
    }

    constructor (serverName: string, botUser: string)
      ensures Valid()
      ensures this.serverName == serverName && this.botUser == botUser
      ensures aliases == map[] && rooms == map[] && calls == []
    {
      this.serverName := serverName;
      this.botUser := botUser;
      aliases := map[];
      rooms := map[];
      nextRoomId := 0;
      calls := [];
    }

    /** The server's state as a value. */
    function State(): Server
      reads this
    {
      Server(aliases, rooms, nextRoomId, calls)
    }

    /** `get_room_alias`. */
    function LookupAlias(alias: string): AliasLookup
      reads this
    {
      Lookup(aliases, alias)
    }

    /** `create_room(alias_localpart)`: a new room that claims
        `#localPart:serverName`, refused when that alias is taken. */
    method CreateRoom(localPart: string) returns (r: Result<RoomId>)
      requires Valid()
      modifies this
      ensures Valid()
      ensures var claimed := "#" + localPart + ":" + serverName;
        if claimed in old(aliases) then
          r == Err(AliasInUse(claimed)) && unchanged(this)
        else
          && r == Ok(old(nextRoomId)) && r.value !in old(rooms)
          && State() == WithNewRoom(old(State()), claimed, localPart, botUser)
    {
      var claimed := "#" + localPart + ":" + serverName;
      if claimed in aliases {
        return Err(AliasInUse(claimed));
      }
      var id := nextRoomId;
      rooms := rooms[id := NewRoom(botUser)];
      aliases := aliases[claimed := Some(id)];
      nextRoomId := nextRoomId + 1;
      calls := calls + [Created(localPart, id)];
      r := Ok(id);
    }

    /** `send_state_event(room, m.room.name, name)`. */
    method SendRoomName(id: RoomId, name: string)
      requires id in rooms
      modifies this
      ensures aliases == old(aliases) && nextRoomId == old(nextRoomId)
      ensures rooms == old(rooms)[id := old(rooms)[id].(name := Some(name))]
      ensures calls == old(calls) + [NameSent(id, name)]
    {
      rooms := rooms[id := rooms[id].(name := Some(name))];
      calls := calls + [NameSent(id, name)];
    }

    /** `invite_user`: the user's membership becomes "invite". */
    method InviteUser(id: RoomId, user: string)
      requires id in rooms
      modifies this
      ensures aliases == old(aliases) && nextRoomId == old(nextRoomId)
      ensures rooms == old(rooms)[id := old(rooms)[id].(memberEvents :=
        old(rooms)[id].memberEvents + [StateEvent(MemberEventType, user, Invite)])]
      ensures calls == old(calls) + [Invited(id, user)]
    {
      var room := rooms[id];
      rooms := rooms[id := room.(memberEvents := room.memberEvents + [StateEvent(MemberEventType, user, Invite)])];
      calls := calls + [Invited(id, user)];
    }

    /** `send_state_event(room, m.room.power_levels, {users})`. */
    method SendPowerLevels(id: RoomId, users: map<string, int>)
      requires id in rooms
      modifies this
      ensures aliases == old(aliases) && nextRoomId == old(nextRoomId)
      ensures rooms == old(rooms)[id := old(rooms)[id].(users := users)]
      ensures calls == old(calls) + [PowerLevelsSent(id, users)]
    {
      rooms := rooms[id := rooms[id].(users := users)];
      calls := calls + [PowerLevelsSent(id, users)];
    }

    /** `set_room_directory_visibility`. */
    method SetDirectoryVisibility(id: RoomId, v: Visibility)
      requires id in rooms
      modifies this
      ensures aliases == old(aliases) && nextRoomId == old(nextRoomId)
      ensures rooms == old(rooms)[id := old(rooms)[id].(visibility := v)]
      ensures calls == old(calls) + [VisibilitySet(id, v)]
    {
      rooms := rooms[id := rooms[id].(visibility := v)];
      calls := calls + [VisibilitySet(id, v)];
    }
  }
}
