// Channel roles and the power levels that stand for them.
module ChannelRoles {
  import opened Options

  datatype Role = Admin | Moderator | Participant | ReactOnly

  function LevelOf(r: Role): int {
    match r
    case Admin => 100
    case Moderator => 50
    case Participant => 25
    case ReactOnly => 10
  }

  function RoleOf(level: int): Role {
    if level >= 100 then Admin
    else if level >= 50 then Moderator
    else if level >= 25 then Participant
    else ReactOnly
  }

  // A level carries a role exactly when the role it is read as is at least that one, for all levels
  // from 10 up; below 10 the reader still answers the lowest role, which needs 10.
  lemma RoleAdjunction(level: int)
    ensures (forall r: Role :: LevelOf(r) <= level <==> LevelOf(r) <= LevelOf(RoleOf(level))) <==>
            level >= 10
    ensures forall r: Role :: RoleOf(LevelOf(r)) == r
  {
    if level < 10 {
      assert LevelOf(ReactOnly) <= LevelOf(RoleOf(level));
    }
  }

  // The permissions of a channel; on input each may be left out.
  datatype Permissions = Permissions(
    sendMessages: Role,
    inviteHandles: Role,
    kickHandles: Role,
    banHandles: Role,
    changeChannelName: Role,
    changeChannelDescription: Role,
    changeChannelAvatar: Role,
    deleteOthersMessages: Role)

  datatype PermissionsInput = PermissionsInput(
    sendMessages: Option<Role>,
    inviteHandles: Option<Role>,
    kickHandles: Option<Role>,
    banHandles: Option<Role>,
    changeChannelName: Option<Role>,
    changeChannelDescription: Option<Role>,
    changeChannelAvatar: Option<Role>,
    deleteOthersMessages: Option<Role>)

  const DefaultPermissions := Permissions(
    Participant, Participant, Moderator, Moderator, Moderator, Moderator, Moderator, Moderator)

  // The power levels of a room; any of them may be absent.
  datatype PowerLevels = PowerLevels(
    usersDefault: Option<int>,
    eventsDefault: Option<int>,
    invite: Option<int>,
    kick: Option<int>,
    ban: Option<int>,
    redact: Option<int>,
    events: map<string, int>)

  // `toInitialPowerLevels`
  function ToInitialPowerLevels(p: PermissionsInput, usersDefault: Role): PowerLevels {
    var d := DefaultPermissions;
    PowerLevels(
      Some(LevelOf(usersDefault)),
      Some(LevelOf(p.sendMessages.GetOr(d.sendMessages))),
      Some(LevelOf(p.inviteHandles.GetOr(d.inviteHandles))),
      Some(LevelOf(p.kickHandles.GetOr(d.kickHandles))),
      Some(LevelOf(p.banHandles.GetOr(d.banHandles))),
      Some(LevelOf(p.deleteOthersMessages.GetOr(d.deleteOthersMessages))),
      map["m.room.name" := LevelOf(p.changeChannelName.GetOr(d.changeChannelName)),
          "m.room.topic" := LevelOf(p.changeChannelDescription.GetOr(d.changeChannelDescription)),
          "m.room.avatar" := LevelOf(p.changeChannelAvatar.GetOr(d.changeChannelAvatar)),
          "m.reaction" := LevelOf(ReactOnly),
          "m.room.redaction" := LevelOf(ReactOnly)])
  }

  function EventLevel(l: PowerLevels, event: string): int {
    if event in l.events then l.events[event] else 50
  }

  function PermissionsOf(l: PowerLevels): Permissions {
    Permissions(
      RoleOf(l.eventsDefault.GetOr(25)),
      RoleOf(l.invite.GetOr(25)),
      RoleOf(l.kick.GetOr(50)),
      RoleOf(l.ban.GetOr(50)),
      RoleOf(EventLevel(l, "m.room.name")),
      RoleOf(EventLevel(l, "m.room.topic")),
      RoleOf(EventLevel(l, "m.room.avatar")),
      RoleOf(l.redact.GetOr(50)))
  }

  datatype Room = Room(roomId: string, powerLevels: Option<PowerLevels>)

  datatype ChannelRights = ChannelRights(permissions: Permissions, defaultMemberRole: Role)

  function RightsOf(l: PowerLevels): ChannelRights {
    ChannelRights(PermissionsOf(l), RoleOf(l.usersDefault.GetOr(25)))
  }

  // Room `i` is the last of its id, among the first `n`, that has power levels.
  ghost predicate Decides(rooms: seq<Room>, n: nat, i: nat) {
    i < n <= |rooms| && rooms[i].powerLevels.Some? &&
    forall j :: i < j < n && rooms[j].powerLevels.Some? ==> rooms[j].roomId != rooms[i].roomId
  }

  // `toPowerLevelsMap`: rooms without power levels are left out, and of rooms with the same id the
  // last one counts.
  method ToPowerLevelsMap(rooms: seq<Room>) returns (m: map<string, ChannelRights>)
    ensures forall id :: id in m <==>
              exists i :: 0 <= i < |rooms| && rooms[i].roomId == id && rooms[i].powerLevels.Some?
    ensures forall i: nat :: Decides(rooms, |rooms|, i) ==> m[rooms[i].roomId] == RightsOf(rooms[i].powerLevels.value)
  {
    m := map[];
    for n := 0 to |rooms|
      invariant forall id :: id in m <==> exists i :: 0 <= i < n && rooms[i].roomId == id && rooms[i].powerLevels.Some?
      invariant forall i: nat :: Decides(rooms, n, i) ==> m[rooms[i].roomId] == RightsOf(rooms[i].powerLevels.value)
    {
      if rooms[n].powerLevels.Some? {
        m := m[rooms[n].roomId := RightsOf(rooms[n].powerLevels.value)];
      }
      forall i: nat | Decides(rooms, n + 1, i) && i < n
        ensures Decides(rooms, n, i)
      {
      }
    }
  }

  function WithDefaults(p: PermissionsInput): Permissions {
    var d := DefaultPermissions;
    Permissions(
      p.sendMessages.GetOr(d.sendMessages),
      p.inviteHandles.GetOr(d.inviteHandles),
      p.kickHandles.GetOr(d.kickHandles),
      p.banHandles.GetOr(d.banHandles),
      p.changeChannelName.GetOr(d.changeChannelName),
      p.changeChannelDescription.GetOr(d.changeChannelDescription),
      p.changeChannelAvatar.GetOr(d.changeChannelAvatar),
      p.deleteOthersMessages.GetOr(d.deleteOthersMessages))
  }

  // Whatever is chosen, every role may react and take back what it sent.
  lemma EveryRoleMayReact(p: PermissionsInput, usersDefault: Role, member: Role)
    ensures var events := ToInitialPowerLevels(p, usersDefault).events;
            && "m.reaction" in events && events["m.reaction"] <= LevelOf(member)
            && "m.room.redaction" in events && events["m.room.redaction"] <= LevelOf(member)
  {
  }

  const NothingChosen := PermissionsInput(None, None, None, None, None, None, None, None)

  // The levels of a room, and where it has none, those of a room created without choices.
  function Completed(l: PowerLevels): PowerLevels {
    var d := ToInitialPowerLevels(NothingChosen, Participant);
    PowerLevels(
      if l.usersDefault.Some? then l.usersDefault else d.usersDefault,
      if l.eventsDefault.Some? then l.eventsDefault else d.eventsDefault,
      if l.invite.Some? then l.invite else d.invite,
      if l.kick.Some? then l.kick else d.kick,
      if l.ban.Some? then l.ban else d.ban,
      if l.redact.Some? then l.redact else d.redact,
      d.events + l.events)
  }

  // A room that leaves levels out has the rights of a room created without choices there.
  lemma AbsentLevelsAreDefaults(l: PowerLevels)
    ensures RightsOf(l) == RightsOf(Completed(l))
  {
    var d := ToInitialPowerLevels(NothingChosen, Participant);
    assert EventLevel(d, "m.room.name") == EventLevel(d, "m.room.topic") == EventLevel(d, "m.room.avatar") == 50;
  }

  // Permissions written as power levels are read back as they were given, the defaults filled in.
  lemma PermissionsRoundTrip(p: PermissionsInput, usersDefault: Role)
    ensures RightsOf(ToInitialPowerLevels(p, usersDefault)) == ChannelRights(WithDefaults(p), usersDefault)
  {
    RoleAdjunction(100);
  }
}
