// Kicking, banning, unbanning and changing roles, over the power levels of a room.
module Moderation {
  import opened Options

  datatype PowerLevels = PowerLevels(users: map<string, int>, usersDefault: Option<int>)

  datatype Membership = Join | Leave | Ban | OtherMembership

  // The power-level content of the room, if there is any, and the membership of each user.
  datatype Room = Room(levels: Option<PowerLevels>, members: map<string, Membership>)

  function Level(r: Room, user: string): int {
    if r.levels.None? then 0
    else if user in r.levels.value.users then r.levels.value.users[user]
    else r.levels.value.usersDefault.GetOr(0)
  }

  datatype Command =
    | Kick(target: string)
    | BanUser(target: string)
    | Unban(target: string)
    | SetLevel(target: string, level: int)

  // The guards of the four operations.
  predicate Permitted(r: Room, actor: string, c: Command) {
    Level(r, actor) > Level(r, c.target) || (actor == c.target && (c.Kick? || c.SetLevel?))
  }

  // What the server does with a command it accepts.
  function Execute(r: Room, c: Command): Room {
    match c
    case Kick(t) => r.(members := r.members[t := Leave])
    case BanUser(t) => r.(members := r.members[t := Ban])
    case Unban(t) => r.(members := r.members[t := Leave])
    case SetLevel(t, level) =>
      var l := r.levels.GetOr(PowerLevels(map[], None));
      r.(levels := Some(l.(users := l.users[t := level])))
  }

  // The server refuses to grant a level above the actor's own (Matrix room versions, "Authorization
  // rules", `m.room.power_levels`). It may refuse any command for other reasons.
  predicate Grantable(r: Room, actor: string, c: Command) {
    c.SetLevel? ==> c.level <= Level(r, actor)
  }

  class RoomsService {
    var room: Room

    constructor (room: Room)
      ensures this.room == room
    {
      this.room := room;
    }

    // The operations of the service: a guard, then the command; `accepted` is the server's answer.
    // The result tells whether the operation went through; without permission it throws before
    // anything is sent.
    method UpdateRoomMemberPowerLevel(userId: string, target: string, powerLevel: int, accepted: bool)
      returns (ok: bool)
      modifies this
      ensures room == Step(old(room), userId, SetLevel(target, powerLevel), accepted)
      ensures ok <==> accepted && Permitted(old(room), userId, SetLevel(target, powerLevel))
    {
      var currentPowerLevel := Level(room, userId);
      var memberToUpdatePowerLevel := Level(room, target);
      ok := false;
      if userId == target || currentPowerLevel > memberToUpdatePowerLevel {
        if accepted {
          room := Execute(room, SetLevel(target, powerLevel));
          ok := true;
        }
      }
    }

    method KickHandle(userId: string, target: string, accepted: bool) returns (ok: bool)
      modifies this
      ensures room == Step(old(room), userId, Kick(target), accepted)
      ensures ok <==> accepted && Permitted(old(room), userId, Kick(target))
    {
      var currentPowerLevel := Level(room, userId);
      var memberToKickPowerLevel := Level(room, target);
      ok := false;
      if userId == target || currentPowerLevel > memberToKickPowerLevel {
        if accepted {
          room := Execute(room, Kick(target));
          ok := true;
        }
      }
    }

    method BanHandle(userId: string, target: string, accepted: bool) returns (ok: bool)
      modifies this
      ensures room == Step(old(room), userId, BanUser(target), accepted)
      ensures ok <==> accepted && Permitted(old(room), userId, BanUser(target))
    {
      var currentPowerLevel := Level(room, userId);
      var memberToBanPowerLevel := Level(room, target);
      ok := false;
      if currentPowerLevel > memberToBanPowerLevel && accepted {
        room := Execute(room, BanUser(target));
        ok := true;
      }
    }

    method UnbanHandle(userId: string, target: string, accepted: bool) returns (ok: bool)
      modifies this
      ensures room == Step(old(room), userId, Unban(target), accepted)
      ensures ok <==> accepted && Permitted(old(room), userId, Unban(target))
    {
      var currentPowerLevel := Level(room, userId);
      var memberToUnbanPowerLevel := Level(room, target);
      ok := false;
      if currentPowerLevel > memberToUnbanPowerLevel && accepted {
        room := Execute(room, Unban(target));
        ok := true;
      }
    }
  }

  // ---------- runs ----------

  function Step(r: Room, actor: string, c: Command, accepted: bool): Room {
    if accepted && Permitted(r, actor, c) then Execute(r, c) else r
  }

  datatype Action = Action(actor: string, command: Command, accepted: bool)

  function After(r: Room, run: seq<Action>): Room {
    if run == [] then r
    else
      var a := run[|run| - 1];
      Step(After(r, run[..|run| - 1]), a.actor, a.command, a.accepted)
  }

  // The server has accepted no grant above the actor's own level.
  ghost predicate Authorized(r: Room, run: seq<Action>) {
    forall i {:trigger run[i]} :: 0 <= i < |run| && run[i].accepted ==>
      Grantable(After(r, run[..i]), run[i].actor, run[i].command)
  }

  ghost predicate AllAtMost(r: Room, max: int) {
    forall u :: Level(r, u) <= max
  }

  lemma LevelAfter(r: Room, actor: string, c: Command, accepted: bool, u: string)
    ensures Level(Step(r, actor, c, accepted), u) ==
            if accepted && Permitted(r, actor, c) && c.SetLevel? && c.target == u then c.level else Level(r, u)
  {
  }

  lemma AuthorizedPrefix(r: Room, run: seq<Action>)
    requires Authorized(r, run) && run != []
    ensures Authorized(r, run[..|run| - 1])
    ensures var a := run[|run| - 1]; a.accepted ==> Grantable(After(r, run[..|run| - 1]), a.actor, a.command)
  {
    var n := |run| - 1;
    forall i | 0 <= i < n && run[..n][i].accepted
      ensures Grantable(After(r, run[..n][..i]), run[..n][i].actor, run[..n][i].command)
    {
      assert run[..n][..i] == run[..i] && run[..n][i] == run[i];
    }
    assert run[n].accepted ==> Grantable(After(r, run[..n]), run[n].actor, run[n].command);
  }

  // No level in the room ever exceeds the highest one at the start: the server's rule alone is
  // enough, self-updates included.
  lemma {:induction false} MaximumNeverRises(r: Room, run: seq<Action>, max: int)
    requires AllAtMost(r, max) && Authorized(r, run)
    ensures AllAtMost(After(r, run), max)
  {
    if run != [] {
      var n := |run| - 1;
      AuthorizedPrefix(r, run);
      MaximumNeverRises(r, run[..n], max);
      forall u
        ensures Level(After(r, run), u) <= max
      {
        LevelAfter(After(r, run[..n]), run[n].actor, run[n].command, run[n].accepted, u);
      }
    }
  }

  // ---------- what decides the state of a user ----------

  // Action `i` took effect on the user: the server accepted it and the guard let it through.
  ghost predicate TookEffect(r: Room, run: seq<Action>, i: nat, u: string) {
    i < |run| && run[i].accepted && run[i].command.target == u &&
    Permitted(After(r, run[..i]), run[i].actor, run[i].command)
  }

  // It was the last one of its kind: a role change, or a kick, ban or unban.
  ghost predicate Decides(r: Room, run: seq<Action>, i: nat, u: string, role: bool) {
    TookEffect(r, run, i, u) && run[i].command.SetLevel? == role &&
    forall j: nat :: i < j && TookEffect(r, run, j, u) ==> run[j].command.SetLevel? != role
  }

  // The level that the power levels give a user.
  ghost predicate HasLevel(r: Room, user: string, level: int) {
    || (r.levels.None? && level == 0)
    || (exists p :: r.levels == Some(p) && user in p.users && p.users[user] == level)
    || (exists p :: r.levels == Some(p) && user !in p.users && p.usersDefault == Some(level))
    || (exists p :: r.levels == Some(p) && user !in p.users && p.usersDefault == None && level == 0)
  }

  lemma LevelIsHad(r: Room, user: string)
    ensures forall level :: HasLevel(r, user, level) <==> level == Level(r, user)
  {
  }

  // An action takes effect exactly when the server accepted it and the actor has a higher level than the
  // target, or acts on himself by a kick or a role change. It then changes the membership of the target
  // alone, or the level of the target alone.
  lemma EffectExactly(r: Room, run: seq<Action>, i: nat)
    requires i < |run|
    ensures var (a, before, after) := (run[i], After(r, run[..i]), After(r, run[..i + 1]));
            var (c, t) := (a.command, a.command.target);
            && (TookEffect(r, run, i, t) <==>
                 && a.accepted
                 && ((a.actor == t && !c.BanUser? && !c.Unban?)
                     || exists x, y :: HasLevel(before, a.actor, x) && HasLevel(before, t, y) && x > y))
            && (!TookEffect(r, run, i, t) ==> after == before)
            && (TookEffect(r, run, i, t) && !c.SetLevel? ==>
                 after == Room(before.levels, before.members[t := if c.BanUser? then Ban else Leave]))
            && (TookEffect(r, run, i, t) && c.SetLevel? ==>
                 && after.members == before.members && HasLevel(after, t, c.level)
                 && forall u, x :: u != t ==> (HasLevel(after, u, x) <==> HasLevel(before, u, x)))
  {
    var (a, before, after) := (run[i], After(r, run[..i]), After(r, run[..i + 1]));
    assert run[..i + 1][..i] == run[..i] && run[..i + 1][i] == run[i];
    forall u
      ensures forall x :: HasLevel(before, u, x) <==> x == Level(before, u)
      ensures forall x :: HasLevel(after, u, x) <==> x == Level(after, u)
    {
      LevelIsHad(before, u);
      LevelIsHad(after, u);
      LevelAfter(before, a.actor, a.command, a.accepted, u);
    }
    hide HasLevel;
    var t := a.command.target;
    assert HasLevel(before, a.actor, Level(before, a.actor)) && HasLevel(before, t, Level(before, t));
  }

  lemma EffectLater(r: Room, run: seq<Action>, i: nat, u: string)
    requires i < |run| - 1
    ensures TookEffect(r, run, i, u) <==> TookEffect(r, run[..|run| - 1], i, u)
  {
    assert run[..|run| - 1][..i] == run[..i];
  }

  lemma DecidesLater(r: Room, run: seq<Action>, i: nat, u: string, role: bool)
    requires run != [] && Decides(r, run[..|run| - 1], i, u, role)
    requires !(TookEffect(r, run, |run| - 1, u) && run[|run| - 1].command.SetLevel? == role)
    ensures Decides(r, run, i, u, role)
  {
    EffectLater(r, run, i, u);
    forall j: nat | i < j && TookEffect(r, run, j, u)
      ensures run[j].command.SetLevel? != role
    {
      if j < |run| - 1 {
        EffectLater(r, run, j, u);
      }
    }
  }

  // The membership of a user is as it was, or what the last kick, ban or unban made it that took effect.
  lemma {:induction false} MembershipDecided(r: Room, run: seq<Action>, u: string)
    ensures var m := After(r, run).members;
            || (exists i: nat ::
                  Decides(r, run, i, u, false) && u in m && m[u] == if run[i].command.BanUser? then Ban else Leave)
            || ((forall i: nat :: !Decides(r, run, i, u, false))
                && (u in m <==> u in r.members) && (u in m ==> m[u] == r.members[u]))
  {
    if run != [] {
      var n := |run| - 1;
      MembershipDecided(r, run[..n], u);
      if TookEffect(r, run, n, u) && !run[n].command.SetLevel? {
        assert Decides(r, run, n, u, false);
      } else if i: nat :| Decides(r, run[..n], i, u, false) {
        DecidesLater(r, run, i, u, false);
        assert run[..n][i] == run[i];
      } else {
        NothingDecides(r, run, run[..n], u, false);
      }
    }
  }

  // The level of a user is as it was, or what the last role change granted that took effect.
  lemma {:induction false} LevelDecided(r: Room, run: seq<Action>, u: string)
    ensures var level := Level(After(r, run), u);
            || (exists i: nat :: Decides(r, run, i, u, true) && level == run[i].command.level)
            || ((forall i: nat :: !Decides(r, run, i, u, true)) && level == Level(r, u))
  {
    if run != [] {
      var n := |run| - 1;
      LevelDecided(r, run[..n], u);
      LevelAfter(After(r, run[..n]), run[n].actor, run[n].command, run[n].accepted, u);
      if TookEffect(r, run, n, u) && run[n].command.SetLevel? {
        assert Decides(r, run, n, u, true);
      } else if i: nat :| Decides(r, run[..n], i, u, true) {
        DecidesLater(r, run, i, u, true);
        assert run[..n][i] == run[i];
      } else {
        NothingDecides(r, run, run[..n], u, true);
      }
    }
  }

  lemma NothingDecides(r: Room, run: seq<Action>, before: seq<Action>, u: string, role: bool)
    requires run != [] && before == run[..|run| - 1]
    requires forall i: nat :: !Decides(r, before, i, u, role)
    requires !(TookEffect(r, run, |run| - 1, u) && run[|run| - 1].command.SetLevel? == role)
    ensures forall i: nat :: !Decides(r, run, i, u, role)
  {
    forall i: nat
      ensures !Decides(r, run, i, u, role)
    {
      if i < |run| - 1 {
        EffectLater(r, run, i, u);
        forall j: nat | i < j && TookEffect(r, before, j, u)
          ensures TookEffect(r, run, j, u) && run[j] == before[j]
        {
          EffectLater(r, run, j, u);
        }
        assert before[i] == run[i] && !Decides(r, before, i, u, role);
      }
    }
  }

  // Whoever is at the maximum at some point of a run is out of reach of everybody else there.
  lemma TopMemberOutOfReach(r: Room, run: seq<Action>, i: nat, u: string)
    requires i < |run| && AllAtMost(After(r, run[..i]), Level(After(r, run[..i]), u))
    ensures run[i].actor != u ==> !TookEffect(r, run, i, u)
  {
    assert Level(After(r, run[..i]), run[i].actor) <= Level(After(r, run[..i]), u);
  }

  // A user at the maximum keeps level and membership in every run, whatever others do and whatever the
  // user does to others, unless the user acts on himself.
  lemma {:induction false} TopMemberIsSafe(r: Room, run: seq<Action>, u: string)
    requires AllAtMost(r, Level(r, u)) && Authorized(r, run)
    requires forall i :: 0 <= i < |run| && run[i].actor == u ==> run[i].command.target != u
    ensures Level(After(r, run), u) == Level(r, u)
    ensures u in r.members <==> u in After(r, run).members
    ensures u in r.members ==> After(r, run).members[u] == r.members[u]
  {
    if run != [] {
      var n := |run| - 1;
      AuthorizedPrefix(r, run);
      forall i | 0 <= i < n && run[..n][i].actor == u
        ensures run[..n][i].command.target != u
      {
        assert run[..n][i] == run[i];
      }
      TopMemberIsSafe(r, run[..n], u);
      MaximumNeverRises(r, run[..n], Level(r, u));
      TopMemberOutOfReach(r, run, n, u);
      LevelAfter(After(r, run[..n]), run[n].actor, run[n].command, run[n].accepted, u);
    }
  }

  // One accepted role change keeps the bound exactly when the granted level respects it.
  lemma GrantDecides(r: Room, actor: string, target: string, level: int, max: int)
    requires AllAtMost(r, max) && Permitted(r, actor, SetLevel(target, level))
    ensures AllAtMost(Step(r, actor, SetLevel(target, level), true), max) <==> level <= max
  {
    var r' := Step(r, actor, SetLevel(target, level), true);
    assert Level(r', target) == level;
    forall u
      ensures Level(r', u) == if u == target then level else Level(r, u)
    {
      LevelAfter(r, actor, SetLevel(target, level), true, u);
    }
  }

  // The guard of the code alone does not bound the levels: it lets a user raise their own.
  lemma GuardAloneIsNotEnough()
    ensures var r := Room(Some(PowerLevels(map["@admin" := 100], Some(25))), map[]);
            && AllAtMost(r, 100)
            && Permitted(r, "@user", SetLevel("@user", 101))
            && !AllAtMost(Step(r, "@user", SetLevel("@user", 101), true), 100)
  {
    var r := Room(Some(PowerLevels(map["@admin" := 100], Some(25))), map[]);
    assert Level(Step(r, "@user", SetLevel("@user", 101), true), "@user") == 101;
  }
}
