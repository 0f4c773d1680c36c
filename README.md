# maubot-ldap-inviter, modelled in Dafny

The inviter is a chat-bot plugin. It keeps a list of Matrix rooms in line with
directory (LDAP) groups and with a static member list. For each configured
room, `ldap-sync` does the following:

- expands the room's alias and name templates with the command's argument;
- builds the room's roster. Each directory group contributes its members at
  the group's power level. The static members are then written over that.
- converges the room on the homeserver in five fixed steps:
  1. make sure the room exists, creating it under its alias when the alias is
     unknown;
  2. set its name;
  3. invite every roster user who is neither joined nor invited;
  4. write the roster's power levels over the current ones;
  5. set its room-directory visibility.

Rooms are synced in list order, and the first failure ends the run. Only an
admin user may start a run.

The project also models the older single-file version of the plugin
(`ldap-inviter.py`). It runs the same driver over a plain member list, with no
templates, no directory and no admin check.

## Layout

| file | module | models |
|---|---|---|
| wrappers.dfy | `Wrappers` | `Option`, `Result`, and the error conditions the source raises as exceptions |
| strings.dfy | `Strings` | the Python string operations used: `in`, `replace`, `split`, `join` |
| config.dfy | `Config` | the configuration dictionaries (inviter/config.py) |
| homeserver.dfy | `Remote` | a fake homeserver (class `Homeserver`) standing in for the client API |
| utils.dfy | `Utils` | inviter/utils.py |
| ldap.dfy | `Ldap` | inviter/ldap.py (class `LdapManager`) |
| matrix_utils.dfy | `MatrixUtils` | inviter/matrix_utils.py |
| bot.dfy | `Bot` | inviter/bot.py |
| legacy.dfy | `Legacy` | ldap-inviter.py |

### The homeserver

The homeserver is a class. It holds:

- an alias table;
- a map from room id to `Room` (name, member events, the `users` map of the
  power-level event, and directory visibility);
- a log `calls` of every mutating call it accepted.

Each `Ensure*` method reads the room from the class and changes it only
through the class's mutating methods.

Each step's contract relies on two pure functions of the room before the step:

- one gives the room's new state (for example `RenamedRoom`, `PoweredRoom`,
  `VisibleRoom`);
- the other gives the calls the step appends (`NameCalls`, `InviteCalls`,
  `VisibilityCalls`).

The whole sync is stated as the composition of these functions (`SyncedRoom`,
`SyncCalls`; `Legacy.Steps`). The properties are proved as lemmas about them:

- convergence;
- idempotence;
- the step order of the calls;
- the agreement of the legacy driver with the package's.

### The directory and iteration order

The directory search is an oracle. It maps (base DN, filter) to the entries
found, or to `None` when the search raises. `LdapManager` records the filters
of the searches it issued.

Python dictionaries are iterated in insertion order. The model iterates a
roster's keys in an unspecified order. Where that order is visible (the order
of the invites), it is returned as a ghost out-parameter `invited`, and the
contracts hold for every such order.

Two behaviours of the code that a reader might not expect:

- The power-level step always issues its one write, even when nothing changes
  (inviter/matrix_utils.py:113-128). A re-run on a converged room therefore
  issues exactly one mutating call (`Bot.SyncIdempotent`), not zero.
- A room without a name event counts as named "" (inviter/matrix_utils.py:52-53).
  So when the configured name is "", no name is written.

### Whole syncs

A sync of one room is stated on server values (`Remote.Server`, the class's
state as a value). `Bot.RoomSynced` and `Legacy.RoomSynced` give the server
after a `sync_room` for each exit: the error exits leave it unchanged, and
otherwise the alias table, the room ids, the rooms and the calls are given
outright. `RunOf` chains these in list order over the rooms a `sync_rooms`
attempted; every room but the last succeeded.

## Model

| member | source | states |
|---|---|---|
| Strings.ContainsIff | inviter/utils.py:7 | `pat in s` holds exactly when `pat` occurs at some index of `s` |
| Strings.ReplaceAbsent | inviter/utils.py:11 | replacing a pattern that does not occur leaves the string unchanged |
| Strings.ReplaceIsJoinOfSplit | inviter/utils.py:11 | `s.replace(p, r)` equals `r.join(s.split(p))` |
| Strings.ReplaceBySelf | inviter/utils.py:11 | replacing a pattern by itself is the identity |
| Strings.JoinSplitRoundTrip | inviter/matrix_utils.py:62 | splitting on a separator and joining with it gives back the string |
| Strings.Split | inviter/matrix_utils.py:62 | `split` always yields at least one field |
| Strings.FirstFieldOfSplit | inviter/matrix_utils.py:62 | the first field of a split on one character is the longest prefix without it; it ends right before the first occurrence, or is the whole string |
| Remote.ParseVisibility | inviter/matrix_utils.py:44 | `RoomDirectoryVisibility(s)` accepts exactly "public" and "private", and gives the visibility with that name |
| Remote.Lookup | inviter/matrix_utils.py:69-78 | the lookup is not found exactly when the alias is absent, null exactly when it maps to no room, and otherwise gives the room it maps to |
| Remote.NewRoomKeepsValid | inviter/matrix_utils.py:63 | a created room has an id no room had yet, and creating it keeps every resolving alias pointing at a room |
| Remote.Homeserver.CreateRoom | inviter/matrix_utils.py:63 | creation claims `#lp:server`; it fails and changes nothing when that alias is taken; otherwise it adds one fresh, unnamed room and logs one `Created` call |
| Remote.Homeserver.SendRoomName | inviter/matrix_utils.py:56-58 | only the room's name changes; one `NameSent` call is logged |
| Remote.Homeserver.InviteUser | inviter/matrix_utils.py:110 | one invite member event is appended to the room; one `Invited` call is logged |
| Remote.Homeserver.SendPowerLevels | inviter/matrix_utils.py:123-127 | the room's `users` map is replaced; one `PowerLevelsSent` call is logged |
| Remote.Homeserver.SetDirectoryVisibility | inviter/matrix_utils.py:43-45 | only the room's visibility changes; one `VisibilitySet` call is logged |
| Utils.TemplateRoomAlias | inviter/utils.py:5-11 | fails exactly when the template holds `<1>` and the argument is empty; otherwise every `<1>` is replaced by the argument (split on `<1>`, joined with the argument) |
| Utils.TemplateWithoutPlaceholder | inviter/utils.py:7-11 | a template without `<1>` comes back unchanged for every argument, "" included |
| Utils.ToUserInfoMap | inviter/utils.py:14-19 | the loop builds the roster `UserInfoMapOf` of the list: each entry in turn sets its mxid's level, 0 when it has none |
| Utils.UserInfoMapKeys | inviter/utils.py:15-19 | the roster's keys are exactly the listed mxids; an empty list gives an empty roster |
| Utils.UserInfoMapLastWins | inviter/utils.py:17-18 | an mxid's level comes from its last entry, 0 when that entry has no `power_level` |
| Ldap.SearchFilter | inviter/ldap.py:45 | the filter is 14 characters longer than the user filter and the group together, opens with `(&` and closes with `))` |
| Ldap.FilterEmbedsGroupVerbatim | inviter/ldap.py:45 | the filter is `(&` + user filter + `(memberOf=` + group + `))`, with the group unescaped |
| Ldap.SearchFilterInjective | inviter/ldap.py:45 | under one user filter, distinct groups give distinct filters |
| Ldap.Mxid | inviter/ldap.py:52 | the mxid is `@`, then the uid, then `:` and the homeserver |
| Ldap.MxidInjective | inviter/ldap.py:51-54 | `@uid:homeserver` is injective in the uid |
| Ldap.EntryMxidsErrorSticks | inviter/ldap.py:51-54 | an entry without a uid fails the whole result list |
| Ldap.EntryMxidsOk | inviter/ldap.py:51-54 | the mxids succeed exactly when every entry has a uid; the i-th mxid is built from the i-th entry's first uid |
| Ldap.GroupUsersContents | inviter/ldap.py:38-59 | a group's map holds exactly the mxids of the search results, each at the rule's level |
| Ldap.ResolveErrorSticks | inviter/ldap.py:61-72 | once a prefix of the rules fails, later rules change neither the result nor the searches issued |
| Ldap.ResolveStep | inviter/ldap.py:65-71 | one more rule writes its map over the accumulated one, after the earlier searches |
| Ldap.ResolveStopsAt | inviter/ldap.py:65-71 | a failing rule ends the resolution with its own error, after the earlier rules' searches |
| Ldap.ResolveRulesKeys | inviter/ldap.py:61-72 | on success every rule succeeded, and the roster's keys are the union of the rules' keys |
| Ldap.ResolveRulesLastWins | inviter/ldap.py:65-71 | an mxid found by several rules gets the level of the last rule that found it |
| Ldap.IssuedFiltersOnSuccess | inviter/ldap.py:61-72 | a successful resolution issued one search per rule, in rule order, for the expanded group |
| Ldap.LdapManager.constructor | inviter/ldap.py:17-36 | the manager keeps the directory settings and starts with no searches |
| Ldap.LdapManager.GetMatrixUsersOfLdapGroup | inviter/ldap.py:38-59 | exactly one search is logged with the built filter; the result is the group's map, or the search or missing-uid error |
| Ldap.LdapManager.GetAllMatrixUsersOfSyncRoom | inviter/ldap.py:61-72 | the loop computes `ResolveRules` (rules in order, later maps override, first failure returned) and logs exactly `IssuedFilters` |
| MatrixUtils.AliasLocalPart | inviter/matrix_utils.py:62 | the local part lies between the alias's first character and the first ':' after it; it never includes the alias's last character and never contains ':' |
| MatrixUtils.CanonicalAliasLocalPart | inviter/matrix_utils.py:62 | for `#lp:server` with no ':' in `lp` the rule gives back `lp` |
| MatrixUtils.AliasWithoutColonLosesLastChar | inviter/matrix_utils.py:62 | an alias without ':' loses its first and last character |
| MatrixUtils.StateEventsToMemberList | inviter/matrix_utils.py:80-96 | the two lists are the state keys of the JOIN and of the INVITE member events, in event order; ldap-inviter.py:40-49 is the same code and uses this member |
| MatrixUtils.KeysWithIff | inviter/matrix_utils.py:85-95 | a user is listed under a membership exactly when some member event gives it that membership |
| MatrixUtils.KeysWithAppend | inviter/matrix_utils.py:85-95 | the split distributes over concatenation of event lists |
| MatrixUtils.InviteEventsSplit | inviter/matrix_utils.py:105-110 | the events appended by inviting users add exactly those users to the invited list and none to the joined list |
| MatrixUtils.InviteCallsAreInvites | inviter/matrix_utils.py:105-110 | the invitee step issues invite calls for its room only |
| MatrixUtils.PowerLevelsAfter | inviter/matrix_utils.py:119-122 | the roster's levels are written over the current map; the keys are the union; users not in the roster keep their level |
| MatrixUtils.PowerLevelsAfterIdempotent | inviter/matrix_utils.py:119-122 | overlaying the same roster twice is overlaying it once |
| MatrixUtils.PowerLevelsFixedPoint | inviter/matrix_utils.py:119-122 | the overlay changes nothing exactly when every roster user already holds its level |
| MatrixUtils.RenamedRoom | inviter/matrix_utils.py:47-58 | after the name step the room shows the name; nothing else changes; a room already showing it is untouched |
| MatrixUtils.NameCalls | inviter/matrix_utils.py:54-58 | a name write is issued exactly when the displayed name (with "" for a missing event) differs |
| MatrixUtils.VisibilityChange | inviter/matrix_utils.py:37-45 | no change when the current visibility has the requested name; otherwise a change to the named visibility, or an error for a string that names none |
| MatrixUtils.VisibleRoom | inviter/matrix_utils.py:42-45 | on success the room is listed as requested; only the visibility can change |
| MatrixUtils.VisibilityCalls | inviter/matrix_utils.py:42-45 | at most one call, issued only when the visibility must change to a valid one |
| MatrixUtils.PoweredRoom | inviter/matrix_utils.py:113-128 | the roster's levels are applied and other users are kept; the result is a fixed point of the overlay |
| MatrixUtils.InviteStepCovers | inviter/matrix_utils.py:98-111 | after the invites every roster user is joined or invited; the joined list is unchanged and the invited list grows by exactly the invites |
| MatrixUtils.InviteOneMore | inviter/matrix_utils.py:105-110 | one more invite appends one event and one call |
| MatrixUtils.InviteNobodyWhenAllPresent | inviter/matrix_utils.py:105-110 | when all roster users are present, nobody is invited and the room is unchanged |
| MatrixUtils.InviteOrderFromLists | inviter/matrix_utils.py:99-106 | testing against the two snapshot lists is testing presence in the room's events |
| MatrixUtils.EnsureRoomVisibility | inviter/matrix_utils.py:37-45 | the room becomes `VisibleRoom` and the calls grow by `VisibilityCalls`; it fails exactly when the requested string differs from the current visibility's name and names no visibility; ldap-inviter.py:51-55 is the same code and uses this member |
| MatrixUtils.EnsureRoomName | inviter/matrix_utils.py:47-58 | always succeeds on an existing room, which becomes `RenamedRoom`; the calls grow by `NameCalls` |
| MatrixUtils.CreateRoomWithAlias | inviter/matrix_utils.py:60-65 | creates a room under the alias's local part, or fails unchanged when the claimed alias is taken; ldap-inviter.py:63-68 is the same code and uses this member |
| MatrixUtils.EnsureRoomWithAlias | inviter/matrix_utils.py:67-78 | a found room is used unchanged; a null lookup fails unchanged; an unknown alias leads to exactly one creation |
| MatrixUtils.EnsureRoomInvitees | inviter/matrix_utils.py:98-111 | exactly the roster users who are neither joined nor invited are invited, each once; nobody is removed |
| MatrixUtils.InviteMissing | inviter/matrix_utils.py:105-110 | the loop invites exactly the roster users on neither snapshot list, without repeats |
| MatrixUtils.EnsureRoomPowerLevels | inviter/matrix_utils.py:113-128 | the room becomes `PoweredRoom`, with exactly one power-level write |
| Bot.RoomRoster | inviter/bot.py:63-71 | the roster fails exactly when the directory rules fail, with their error; on success it holds every user the rules found |
| Bot.MergeRoster | inviter/bot.py:63-71 | the keys are the directory and static users; a static entry overrides the directory; other directory entries are kept |
| Bot.RoomRosterKeys | inviter/bot.py:63-71 | the roster's users are the directory users plus the listed static mxids |
| Bot.StaticEntryOverridesDirectory | inviter/bot.py:70-71 | a static entry decides its mxid's level whatever the directory says |
| Bot.NoStaticMembersMeansDirectoryRoster | inviter/bot.py:71 | without `members` the roster is the directory roster |
| Bot.AppendStep | inviter/bot.py:55-80 | appending a block of one later step keeps the calls in step order |
| Bot.AppendOrdered | inviter/bot.py:55-80 | appending an ordered block of no earlier steps keeps the calls in step order |
| Bot.SyncedRoomConverged | inviter/bot.py:58-80 | when the visibility step succeeds, the room shows the name, has every roster user present, holds the roster's levels, and has the visibility |
| Bot.SyncCallsInStepOrder | inviter/bot.py:58-80 | the steps' calls come in the order name, invites, power levels, visibility |
| Bot.SyncIdempotent | inviter/bot.py:58-80 | on a converged room the steps change nothing and issue only the power-level write |
| Bot.MemberSteps | inviter/bot.py:73-80 | invitees, power levels and visibility leave the room as `SyncedRoom`, with the calls of `MemberCalls`; it fails exactly when the visibility string names no visibility, with `InvalidVisibility` |
| Bot.SyncExistingRoom | inviter/bot.py:58-80 | a bad name template changes nothing; a roster error stops after the name step; otherwise the room becomes `SyncedRoom`, with the calls of `SyncCalls`, and the only failure is `InvalidVisibility` for a string that names no visibility |
| Bot.StepsTakenFrame | inviter/bot.py:58-80 | the steps from the name on change only their own room, keep the bookkeeping valid and append their calls in step order |
| Bot.StepsTakenConverges | inviter/bot.py:58-80 | when they succeed, the name and roster resolved and the room is converged; on a converged room they succeed, change nothing and issue only the power-level write |
| Bot.UpdateTouches | inviter/bot.py:55-80 | replacing one room, with at most one new alias naming it, changes no other room and no existing alias |
| Bot.CreationThenRoomUpdate | inviter/matrix_utils.py:67-73 | a room created under the claimed alias and then changed alone adds only that room and that alias, and its creation comes before the other calls |
| Bot.StepsAfterCreation | inviter/bot.py:55-80 | a creation followed by calls in step order is in step order |
| Bot.RoomSyncedFrame | inviter/bot.py:35-83 | one `sync_room` changes at most the room it ran on, adds at most an alias for it, keeps the bookkeeping valid and appends its calls in step order |
| Bot.RoomSyncedConverges | inviter/bot.py:35-83 | a successful `sync_room` resolved the alias, name and roster, ran on the room the alias named (if it named one) and left it converged; the configuration is synced once the alias points to it |
| Bot.RoomSyncedIdempotent | inviter/bot.py:35-83 | on a synced configuration `sync_room` succeeds, changes no room, alias or room id, and issues only the power-level write |
| Bot.SyncRoom | inviter/bot.py:35-83 | the server ends as `RoomSynced` says: a bad alias template, a null lookup or a taken alias fail with nothing changed; a found room, or one created under the alias, goes through the steps, which a bad name template stops before any change and a roster error stops after the name step |
| Bot.RunExtends | inviter/bot.py:85-90 | a run of successes followed by one more `sync_room` is a run one room longer |
| Bot.RunBlocks | inviter/bot.py:85-90 | in a run each room's calls are one block in step order that changes no other room, and every room that succeeded was resolvable and converged when its sync ended |
| Bot.SyncRooms | inviter/bot.py:85-90 | the rooms go through `sync_room` in list order, each from the state the previous one left; the run stops at the first failure with nothing done after it, and succeeds exactly when every room did |
| Bot.LdapSync | inviter/bot.py:96-109 | a sender who is not an admin is refused and nothing is touched; for an admin the reply carries the result of a `sync_rooms` run over the configured rooms, from the state before the command to the state after it (`RunOf`); success means every room was resolvable |
| Legacy.InviteesIff | ldap-inviter.py:88-91 | a user is invited exactly when some entry lists it and it is neither joined nor invited |
| Legacy.InviteesMatchRoster | ldap-inviter.py:84-91 | the legacy loop invites the same users as the package's step for the roster the list denotes |
| Legacy.InviteesCount | ldap-inviter.py:84-91 | an absent user is invited once per entry that lists it, so a repeated entry is invited again; a present user is never invited |
| Legacy.InviteesNoDuplicates | ldap-inviter.py:88-91 | a list with distinct mxids invites each user at most once |
| Legacy.OverlaidLevels | ldap-inviter.py:99-100 | the overlay fails exactly when some entry lacks `power_level` (a KeyError) |
| Legacy.OverlaidMatchesRoster | ldap-inviter.py:95-102 | with every level present, the legacy overlay is the package's overlay of the list's roster: later entries win and other users keep their level |
| Bot.MemberBlocksInStepOrder | inviter/bot.py:73-80 | invites, then power-level writes, then visibility changes are in step order |
| Legacy.MemberCallsInStepOrder | ldap-inviter.py:113-117 | the invitee, power-level and visibility steps issue their calls in step order |
| Legacy.StepsInStepOrder | ldap-inviter.py:111-117 | the legacy steps issue their calls in the order name, invites, power levels, visibility |
| Legacy.Steps | ldap-inviter.py:105-117 | a room without a name event is left as it was, with no call and an error; a named room ends up showing the configured name; success needs the `members` key |
| Legacy.UnnamedRoomNeverSyncs | ldap-inviter.py:57-61 | a room without a name event fails at the name step and is left as it was, so a re-run fails again |
| Legacy.StepsConverge | ldap-inviter.py:105-117 | success means the room had a name, the entry is complete, and the room is converged to the list's roster |
| Legacy.StepsIdempotent | ldap-inviter.py:105-117 | on a named, converged room the steps change nothing and issue only the power-level write |
| Legacy.StepsMatchPackage | ldap-inviter.py:105-117 | on a named room, with a complete list of distinct mxids, the legacy steps equal the package's steps with invites in list order |
| Legacy.EnsureRoomWithAlias | ldap-inviter.py:70-81 | a found room is used unchanged; a null lookup gives no id, not an error; an unknown alias leads to exactly one creation |
| Legacy.EnsureRoomName | ldap-inviter.py:57-61 | no id, or no name event, fails with nothing changed; otherwise the name is written only when it differs |
| Legacy.EnsureRoomInvitees | ldap-inviter.py:83-92 | entries are invited in list order when neither joined nor invited at the start of the step |
| Legacy.OverlayLevels | ldap-inviter.py:98-100 | the loop computes `OverlaidLevels` |
| Legacy.EnsureRoomPowerLevels | ldap-inviter.py:94-103 | a missing level fails before anything is sent; otherwise exactly one write of the overlaid map |
| Legacy.LevelsAndVisibility | ldap-inviter.py:115-117 | a missing level fails with nothing sent or changed; otherwise one write of the overlaid map, then the visibility step on the room that results, failing with `InvalidVisibility` for a string that names no visibility |
| Legacy.SyncMembers | ldap-inviter.py:113-117 | invitees, power levels and visibility leave the room and the calls as `MemberOutcome` says |
| Legacy.SyncFromName | ldap-inviter.py:111-117 | no id fails with nothing changed; otherwise the room, calls and result are those of `Steps` |
| Legacy.StepsAppliedFrame | ldap-inviter.py:110-117 | the steps change only their own room, keep the bookkeeping valid and append their calls in step order |
| Legacy.RoomSyncedFrame | ldap-inviter.py:105-118 | one `sync_room` changes at most the room it ran on, adds at most an alias for it, keeps the bookkeeping valid and appends its calls in step order |
| Legacy.RoomSyncedConverges | ldap-inviter.py:105-118 | a successful `sync_room` found its room under the alias, had a complete entry and left the room converged |
| Legacy.NewAliasNeverSyncs | ldap-inviter.py:57-61 | for an alias not found, `sync_room` either fails creation with nothing changed, or creates one unnamed room under the claimed alias, logs its `Created` call and fails at the name step with nothing else changed |
| Legacy.CreatedRoomStaysUnsynced | ldap-inviter.py:57-61 | when the alias is the one creation claims, the next `sync_room` finds the created room, fails at the name step again and changes nothing |
| Legacy.RoomSyncedIdempotent | ldap-inviter.py:105-118 | on a found, named room converged to a complete entry `sync_room` succeeds, changes no room or alias, and issues only the power-level write |
| Legacy.SyncRoom | ldap-inviter.py:105-118 | the server ends as `RoomSynced` says: a null lookup fails with `UnknownRoom` and a taken alias with `AliasInUse`, both unchanged; a new alias creates an unnamed room and then goes through `Steps`; a found room goes through `Steps` |
| Legacy.RunExtends | ldap-inviter.py:120-122 | a run of successes followed by one more `sync_room` is a run one entry longer |
| Legacy.RunBlocks | ldap-inviter.py:120-122 | in a run each entry's calls are one block in step order that changes no other room, and every entry that succeeded was complete and its room converged |
| Legacy.SyncRooms | ldap-inviter.py:120-127 | for any sender, the entries go through `sync_room` in list order, each from the state the previous one left; the run stops at the first failure with nothing done after it, and succeeds exactly when every entry did |

## Left out

- **Side effects.** The chat replies, logging, `asyncio.sleep` and traceback
  formatting are output only.
- **Async.** `async`/`await` is not modelled; every call is a sequential step.
- **LDAP connection.** The connection, the bind and the transport of the
  search are left out (inviter/ldap.py:29-33). So is UTF-8 decoding of uids.
  The search is a parameter.
- **Plugin lifecycle.** `start`, `get_config_class`, `do_update` and config
  loading are left out.
- **Diagnostic commands.** `debug-map` and `ldap-check` (inviter/bot.py:111-146)
  are read-only wrappers around modelled functions.
- **Client API.** The mautrix HTTP client and wire format are not modelled.
  The homeserver is a fake that accepts every invite and appends a member
  event, without replacing earlier events of that user. Banned and
  left users are not given special treatment. Per-call failures (rate
  limits, permissions) are not modelled.
- **Rooms with no id.** An unknown room id is an `UnknownRoom` error. It only
  arises in the legacy flow, after a null alias lookup.
- **Explicit nulls.** The configuration records cannot hold an explicit
  `null`:
  - `power_level: null` is treated like an absent key. Python would store
    `None` as the level (package) or write it (legacy).
  - `members: null` is read as "no static members", and the room is synced
    with the directory roster. In Python, `room.get("members", [])` returns
    `None` (inviter/bot.py:71), and `to_user_info_map(None)` raises
    `TypeError` after the directory searches and before any invite. In the
    legacy script a null list also fails at the invitee step, with
    `TypeError` instead of the `KeyError` the model gives for a missing
    `members`.
  - `ldap_members: null` cannot be written: the model's list of rules is
    always a list. Python raises `TypeError` at the loop
    (inviter/ldap.py:65), after the name step.
- **Import names.** inviter/bot.py:15 and inviter/ldap.py:8 import
  `process_template`, and inviter/utils.py:2 imports `UserConfig`. Neither
  exists in the modules shown. The model uses `template_room_alias` and
  `UserInfo` for them.
- **Dictionary order.** Python's insertion-ordered iteration over a roster is
  not modelled; any order is allowed.
- **Missing keys.** Missing keys other than `members` and `power_level` (e.g.
  `alias`, `name`, `visibility`) are not modelled as errors. The records
  assume them present.
- MatrixUtils.EnsureRoomInvitees, MatrixUtils.InviteMissing: the order of the
  invites is stated as some order with the required properties, not as the
  dictionary's insertion order.
- **Visibility comparison.** `current_visibility != visibility` compares the
  `RoomDirectoryVisibility` enum the client returns with the configured string
  (inviter/matrix_utils.py:39-42, ldap-inviter.py:53-54). The model takes the
  two as equal when the string is the visibility's name. If a plain enum never
  equals a string, the visibility is written again on every run, and the
  idempotence lemmas (`Bot.SyncIdempotent`, `Legacy.StepsIdempotent`) would not
  hold as stated.
- **Power-level event.** `PowerLevelStateEventContent(users=…)` sends a whole
  new power-level event (inviter/matrix_utils.py:123-127,
  ldap-inviter.py:101-102). Its other fields (event and default levels) then
  take the library's defaults. The model keeps only the `users` map of that
  event.

## Findings

| source | as written | input that shows it | evidently intended | confidence | as-written member | corrected member |
|---|---|---|---|---|---|---|
| ldap-inviter.py:57-61 | the name step reads the room's name event without handling its absence | a `sync_rooms` entry whose alias does not exist yet: the room is created without a name, the read raises, and the sync of that room (and of the rest of the list) stops before the name is written, on this run and every later one | a room without a name event counts as unnamed and gets its name written, as inviter/matrix_utils.py:48-53 does | medium, not executed | Legacy.NewAliasNeverSyncs | MatrixUtils.EnsureRoomName |
