// Of what the server notifies under the rules that the setters leave in the store.
module PushDelivery {
  import opened Options
  import opened JsCollections
  import opened PushRules

  // ---------- the rules of a default level ----------

  // The rules of mentions.
  predicate ForMentions(id: string) {
    id == ".m.rule.is_user_mention" || id == ".m.rule.roomnotif" || id == ".m.rule.is_room_mention"
  }

  function Notifying(yes: bool): seq<Action> {
    if yes then [Notify] else []
  }

  // After the setter, the rules of messages are enabled and notify for all messages only, the rules of
  // mentions are enabled for mentions only, and notify unless all is mute; every other rule is as it was.
  lemma DefaultRules(s: Store, level: Level, id: string)
    requires WellFormed(s)
    ensures var t := SetDefault(s, level);
            && (id == ".m.rule.message" || id == ".m.rule.encrypted" ==>
                  Find(t.underride, id) == Some(Rule(id, level == AllMessages, Notifying(level == AllMessages))))
            && (id == ".m.rule.contains_display_name" ==>
                  Find(t.override, id) == Some(Rule(id, level == AllMessages, Notifying(level == AllMessages))))
            && (ForMentions(id) ==> Find(t.override, id) == Some(Rule(id, level == Mentions, Notifying(level != Mute))))
            && (id != ".m.rule.message" && id != ".m.rule.encrypted" ==> Find(t.underride, id) == Find(s.underride, id))
            && (id != ".m.rule.contains_display_name" && !ForMentions(id) ==>
                  Find(t.override, id) == Find(s.override, id))
  {
    hide Distinct, Ids, Find, SetBoth;
    var all := if level.AllMessages? then [Notify] else [];
    var mentions := if level.Mentions? then all + [Notify] else all;
    var o1 := SetBoth(s.override, DISPLAY_NAME, all, level.AllMessages?);
    var o2 := SetBoth(o1, USER_MENTION, mentions, level.Mentions?);
    var o3 := SetBoth(o2, ROOM_NOTIF, mentions, level.Mentions?);
    var u1 := SetBoth(s.underride, MESSAGE, all, level.AllMessages?);
    FindAfterSetBoth(s.override, DISPLAY_NAME, all, level.AllMessages?);
    FindAfterSetBoth(o1, USER_MENTION, mentions, level.Mentions?);
    FindAfterSetBoth(o2, ROOM_NOTIF, mentions, level.Mentions?);
    FindAfterSetBoth(o3, ROOM_MENTION, mentions, level.Mentions?);
    FindAfterSetBoth(s.underride, MESSAGE, all, level.AllMessages?);
    FindAfterSetBoth(u1, ENCRYPTED, all, level.AllMessages?);
    FoundName(s.override, id);
    FoundName(s.underride, id);
    assert all == Notifying(level == AllMessages) && mentions == Notifying(level != Mute);
  }

  lemma {:induction false} FoundName(rules: seq<Rule>, id: string)
    ensures Find(rules, id).Some? ==> Find(rules, id).value.id == id
  {
    if rules != [] {
      FoundName(rules[1..], id);
    }
  }

  // ---------- the server's evaluation ----------

  // What a message is about, as far as the rules of the store tell messages apart.
  datatype Kind = PlainMessage | EncryptedMessage | WithDisplayName | UserMention | RoomMention

  function OverridesFor(k: Kind): set<string> {
    match k
    case PlainMessage => {}
    case EncryptedMessage => {}
    case WithDisplayName => {".m.rule.contains_display_name"}
    case UserMention => {".m.rule.is_user_mention"}
    case RoomMention => {".m.rule.roomnotif", ".m.rule.is_room_mention"}
  }

  function UnderrideFor(k: Kind): string {
    if k.EncryptedMessage? then ".m.rule.encrypted" else ".m.rule.message"
  }

  // The first enabled rule among those that match.
  function FirstEnabled(rules: seq<Rule>, matching: set<string>): Option<Rule> {
    if rules == [] then None
    else if rules[0].enabled && rules[0].id in matching then Some(rules[0])
    else FirstEnabled(rules[1..], matching)
  }

  // The first enabled rule that matches decides; overrides come before underrides, and the rule made for a
  // room matches every message of the room.
  predicate Notifies(s: Store, room: string, k: Kind) {
    var override := FirstEnabled(s.override, OverridesFor(k) + {"custom.rule.room." + room});
    var underride := FirstEnabled(s.underride, {UnderrideFor(k)});
    if override.Some? then Notify in override.value.actions
    else underride.Some? && Notify in underride.value.actions
  }

  // ---------- what the setters were called for ----------

  function LastDefault(ops: seq<Op>): Option<Level> {
    if ops == [] then None
    else
      match ops[|ops| - 1]
      case DefaultOp(level) => Some(level)
      case _ => LastDefault(ops[..|ops| - 1])
  }

  // The level the room has of its own. The server refuses rules with slashes and backslashes.
  function OwnLevel(ops: seq<Op>, room: string): Option<Level> {
    if ops == [] then None
    else
      var before := OwnLevel(ops[..|ops| - 1], room);
      match ops[|ops| - 1]
      case RecipientOp(r, level) =>
        if r != room then before else if '/' in room || '\\' in room then None else Some(level)
      case ClearOp(r) => if r == room then None else before
      case _ => before
  }

  // Whether a default level lets a kind of message through; without one everything notifies.
  predicate LetsThrough(default: Option<Level>, k: Kind) {
    default.None? || default.value.AllMessages? ||
    (default.value.Mentions? && (k.UserMention? || k.RoomMention?))
  }

  // ---------- the proof ----------

  predicate Custom(id: string) {
    ROOM_PREFIX <= id
  }

  // The rules made for rooms come before all others.
  predicate CustomFirst(ids: seq<string>) {
    ids == [] ||
    (if Custom(ids[0]) then CustomFirst(ids[1..]) else forall i :: 1 <= i < |ids| ==> !Custom(ids[i]))
  }

  // The rules are those the setters were called for.
  ghost predicate Reflects(s: Store, ops: seq<Op>) {
    && WellFormed(s) && CustomFirst(Ids(s.override))
    && (forall room :: Find(s.override, RuleName(room)) ==
          match OwnLevel(ops, room)
          case None => None
          case Some(level) => Some(Rule(RuleName(room), true, Notifying(level == AllMessages))))
    && (forall id :: id in {MESSAGE, ENCRYPTED} ==>
          Find(s.underride, id).Some? && Fits(Find(s.underride, id).value, LetsThrough(LastDefault(ops), PlainMessage)))
    && Find(s.override, DISPLAY_NAME).Some?
    && Fits(Find(s.override, DISPLAY_NAME).value, LetsThrough(LastDefault(ops), PlainMessage))
    && (forall id :: id in {USER_MENTION, ROOM_NOTIF, ROOM_MENTION} ==>
          Find(s.override, id).Some? && Fits(Find(s.override, id).value, MentionsOn(LastDefault(ops))))
  }

  // The rules of mentions are on before the first setter, and for mentions.
  predicate MentionsOn(default: Option<Level>) {
    default.None? || default.value.Mentions?
  }

  predicate Fits(r: Rule, on: bool) {
    (r.enabled <==> on) && (r.enabled ==> Notify in r.actions)
  }

  lemma {:induction false} FirstFound(rules: seq<Rule>, matching: set<string>)
    requires Distinct(Ids(rules))
    ensures var r := FirstEnabled(rules, matching);
            if r.Some? then r.value.enabled && r.value.id in matching && Find(rules, r.value.id) == r
            else forall id :: id in matching && Find(rules, id).Some? ==> !Find(rules, id).value.enabled
  {
    if rules != [] {
      FirstFound(rules[1..], matching);
      var r := FirstEnabled(rules[1..], matching);
      if r.Some? {
        FoundIn(rules[1..], r.value.id);
      }
    }
  }

  // The rule made for a room is the first that matches, if it is there.
  lemma {:induction false} OwnRuleFirst(rules: seq<Rule>, matching: set<string>, name: string)
    requires Distinct(Ids(rules)) && CustomFirst(Ids(rules)) && Custom(name)
    requires forall id :: id in matching ==> !Custom(id)
    requires Find(rules, name).Some? ==> Find(rules, name).value.enabled
    ensures FirstEnabled(rules, matching + {name}) ==
            if Find(rules, name).Some? then Find(rules, name) else FirstEnabled(rules, matching)
  {
    if rules != [] {
      if Custom(rules[0].id) {
        if rules[0].id != name {
          OwnRuleFirst(rules[1..], matching, name);
        }
      } else {
        NoneCustom(rules, matching, name);
      }
    }
  }

  lemma {:induction false} NoneCustom(rules: seq<Rule>, matching: set<string>, name: string)
    requires Custom(name) && forall i :: 0 <= i < |Ids(rules)| ==> !Custom(Ids(rules)[i])
    ensures Find(rules, name).None? && FirstEnabled(rules, matching + {name}) == FirstEnabled(rules, matching)
  {
    if rules != [] {
      assert Ids(rules)[0] == rules[0].id && Ids(rules)[1..] == Ids(rules[1..]);
      NoneCustom(rules[1..], matching, name);
    }
  }

  lemma OpsSnoc(ops: seq<Op>, op: Op, room: string)
    ensures LastDefault(ops + [op]) == if op.DefaultOp? then Some(op.level) else LastDefault(ops)
    ensures OwnLevel(ops + [op], room) ==
            match op
            case RecipientOp(r, level) =>
              if r != room then OwnLevel(ops, room) else if '/' in room || '\\' in room then None else Some(level)
            case ClearOp(r) => if r == room then None else OwnLevel(ops, room)
            case _ => OwnLevel(ops, room)
  {
    assert (ops + [op])[..|ops|] == ops;
  }

  lemma SetBothKeepsIds(rules: seq<Rule>, id: string, actions: seq<Action>, enabled: bool)
    ensures Ids(SetBoth(rules, id, actions, enabled)) == Ids(rules)
  {
    SetKeepsIds(rules, id, actions, enabled);
    SetKeepsIds(SetActions(rules, id, actions), id, actions, enabled);
  }

  lemma DefaultKeepsIds(s: Store, level: Level)
    ensures Ids(SetDefault(s, level).override) == Ids(s.override)
  {
    hide SetBoth, Ids;
    var all := if level.AllMessages? then [Notify] else [];
    var mentions := if level.Mentions? then all + [Notify] else all;
    var o1 := SetBoth(s.override, DISPLAY_NAME, all, level.AllMessages?);
    var o2 := SetBoth(o1, USER_MENTION, mentions, level.Mentions?);
    var o3 := SetBoth(o2, ROOM_NOTIF, mentions, level.Mentions?);
    SetBothKeepsIds(s.override, DISPLAY_NAME, all, level.AllMessages?);
    SetBothKeepsIds(o1, USER_MENTION, mentions, level.Mentions?);
    SetBothKeepsIds(o2, ROOM_NOTIF, mentions, level.Mentions?);
    SetBothKeepsIds(o3, ROOM_MENTION, mentions, level.Mentions?);
  }

  lemma DefaultReflects(s: Store, ops: seq<Op>, level: Level)
    requires Reflects(s, ops)
    ensures Reflects(SetDefault(s, level), ops + [DefaultOp(level)])
  {
    hide SetDefault, Find, Ids, CustomFirst, WellFormed, OwnLevel, LastDefault;
    var t := SetDefault(s, level);
    SetDefaultReads(s, level);
    DefaultKeepsIds(s, level);
    OpsSnoc(ops, DefaultOp(level), "");
    forall room
      ensures Find(t.override, RuleName(room)) == Find(s.override, RuleName(room))
      ensures OwnLevel(ops + [DefaultOp(level)], room) == OwnLevel(ops, room)
    {
      NotARoom(room);
      DefaultRules(s, level, RuleName(room));
      OpsSnoc(ops, DefaultOp(level), room);
    }
    DefaultRules(s, level, MESSAGE);
    DefaultRules(s, level, ENCRYPTED);
    DefaultRules(s, level, DISPLAY_NAME);
    DefaultRules(s, level, USER_MENTION);
    DefaultRules(s, level, ROOM_NOTIF);
    DefaultRules(s, level, ROOM_MENTION);
  }

  lemma InvitationsKeepIds(s: Store, enabled: bool)
    ensures Ids(SetInvitations(s, enabled).override) == Ids(s.override)
  {
    SetKeepsIds(s.override, INVITE_FOR_ME, [Notify], enabled);
    SetKeepsIds(s.override, INVITE_FOR_ME, [], enabled);
    SetKeepsIds(SetActions(s.override, INVITE_FOR_ME, [Notify]), INVITE_FOR_ME, [], enabled);
    SetKeepsIds(SetActions(s.override, INVITE_FOR_ME, []), INVITE_FOR_ME, [], enabled);
  }

  lemma InvitationsReflect(s: Store, ops: seq<Op>, enabled: bool)
    requires Reflects(s, ops)
    ensures Reflects(SetInvitations(s, enabled), ops + [InvitationsOp(enabled)])
  {
    InvitationRules(s, enabled);
    SetInvitationsReads(s, enabled);
    InvitationsKeepIds(s, enabled);
    hide SetInvitations, Find, Ids, CustomFirst, WellFormed, OwnLevel, LastDefault;
    OpsSnoc(ops, InvitationsOp(enabled), "");
    forall room
      ensures OwnLevel(ops + [InvitationsOp(enabled)], room) == OwnLevel(ops, room)
      ensures RuleName(room) != INVITE_FOR_ME
    {
      NotARoom(room);
      OpsSnoc(ops, InvitationsOp(enabled), room);
    }
  }

  lemma {:induction false} DeleteKeepsCustomFirst(rules: seq<Rule>, id: string)
    requires CustomFirst(Ids(rules))
    ensures CustomFirst(Ids(Delete(rules, id)))
    ensures (forall i :: 0 <= i < |Ids(rules)| ==> !Custom(Ids(rules)[i])) ==>
              forall i :: 0 <= i < |Ids(Delete(rules, id))| ==> !Custom(Ids(Delete(rules, id))[i])
  {
    if rules != [] {
      assert Ids(rules)[1..] == Ids(rules[1..]);
      if !Custom(rules[0].id) {
        PlainIsCustomFirst(Ids(rules[1..]));
      }
      DeleteKeepsCustomFirst(rules[1..], id);
    }
  }

  lemma PlainIsCustomFirst(ids: seq<string>)
    requires forall i :: 0 <= i < |ids| ==> !Custom(ids[i])
    ensures CustomFirst(ids)
  {
  }

  // The rules after the one of a room was taken away, and perhaps put back, first of all.
  lemma RoomRuleReflects(s: Store, t: Store, ops: seq<Op>, op: Op, room: string)
    requires Reflects(s, ops) && WellFormed(t) && t.underride == s.underride && CustomFirst(Ids(t.override))
    requires (op.RecipientOp? && op.room == room) || (op.ClearOp? && op.room == room)
    requires forall x :: x != RuleName(room) ==> Find(t.override, x) == Find(s.override, x)
    requires Find(t.override, RuleName(room)) ==
             match OwnLevel(ops + [op], room)
             case None => None
             case Some(level) => Some(Rule(RuleName(room), true, Notifying(level == AllMessages)))
    ensures Reflects(t, ops + [op])
  {
    hide Find, Ids, CustomFirst, WellFormed, OwnLevel, LastDefault;
    OpsSnoc(ops, op, "");
    NotARoom(room);
    forall other
      ensures other != room ==> OwnLevel(ops + [op], other) == OwnLevel(ops, other)
      ensures RuleName(other) == RuleName(room) ==> other == room
    {
      OneRoomOneRule(other, room);
      OpsSnoc(ops, op, other);
    }
  }

  lemma CustomRoom(room: string)
    ensures Custom(RuleName(room)) && "custom.rule.room." + room == RuleName(room)
  {
  }

  lemma RecipientReflects(s: Store, ops: seq<Op>, room: string, level: Level)
    requires Reflects(s, ops)
    ensures Reflects(SetRecipient(s, room, level), ops + [RecipientOp(room, level)])
  {
    var actions := if level.AllMessages? then [Notify] else [];
    var cleared := Delete(s.override, RuleName(room));
    var t := SetRecipient(s, room, level);
    SetRecipientReads(s, room, level);
    DeleteKeepsCustomFirst(s.override, RuleName(room));
    DeleteKeepsCustomFirst(cleared, RuleName(room));
    CustomRoom(room);
    AddIsFirst(cleared, RuleName(room), actions);
    AcceptedRoom(room);
    OpsSnoc(ops, RecipientOp(room, level), room);
    hide Find, Ids, Delete, Add, Accepts, OwnLevel, CustomFirst, WellFormed, Reflects;
    forall x
      ensures Find(t.override, x) ==
              if x != RuleName(room) then Find(s.override, x)
              else if Accepts(RuleName(room)) then Some(Rule(x, true, actions)) else None
    {
      FindAfterDelete(s.override, RuleName(room), x);
      FindAfterAdd(cleared, RuleName(room), actions, x);
    }
    RoomRuleReflects(s, t, ops, RecipientOp(room, level), room);
  }

  lemma AddIsFirst(rules: seq<Rule>, id: string, actions: seq<Action>)
    requires Custom(id) && CustomFirst(Ids(Delete(rules, id)))
    ensures CustomFirst(Ids(Add(rules, id, actions)))
  {
    assert Add(rules, id, actions)[1..] == Delete(rules, id);
    assert Ids(Add(rules, id, actions))[1..] == Ids(Delete(rules, id));
  }

  lemma ClearReflects(s: Store, ops: seq<Op>, room: string)
    requires Reflects(s, ops)
    ensures Reflects(ClearRecipient(s, room), ops + [ClearOp(room)])
  {
    var t := ClearRecipient(s, room);
    ClearReads(s, room);
    DeleteKeepsCustomFirst(s.override, RuleName(room));
    OpsSnoc(ops, ClearOp(room), room);
    hide Find, Ids, Delete, OwnLevel, CustomFirst, WellFormed, Reflects;
    forall x
      ensures Find(t.override, x) == if x == RuleName(room) then None else Find(s.override, x)
    {
      FindAfterDelete(s.override, RuleName(room), x);
    }
    RoomRuleReflects(s, t, ops, ClearOp(room), room);
  }

  lemma PredefinedReflects()
    ensures Reflects(Predefined, [])
  {
    PredefinedWellFormed();
    forall room
      ensures Find(Predefined.override, RuleName(room)).None?
    {
      NotARoom(room);
      PredefinedNames(RuleName(room));
    }
    PredefinedOn();
    PredefinedPlain();
  }

  // The predefined rules are enabled and notify.
  lemma PredefinedOn()
    ensures forall id :: id in {DISPLAY_NAME, USER_MENTION, ROOM_NOTIF, ROOM_MENTION} ==>
              Find(Predefined.override, id).Some? && Fits(Find(Predefined.override, id).value, true)
    ensures forall id :: id in {MESSAGE, ENCRYPTED} ==>
              Find(Predefined.underride, id).Some? && Fits(Find(Predefined.underride, id).value, true)
  {
    PredefinedWellFormed();
    forall id | id in {DISPLAY_NAME, USER_MENTION, ROOM_NOTIF, ROOM_MENTION}
      ensures Fits(Find(Predefined.override, id).value, true)
    {
      var i := FindIsRule(Predefined.override, id);
    }
    forall id | id in {MESSAGE, ENCRYPTED}
      ensures Fits(Find(Predefined.underride, id).value, true)
    {
      var i := FindIsRule(Predefined.underride, id);
    }
  }

  lemma PredefinedPlain()
    ensures CustomFirst(Ids(Predefined.override))
  {
    var rules := Predefined.override;
    forall i | 0 <= i < |Ids(rules)|
      ensures !Custom(Ids(rules)[i])
    {
      IdAt(rules, i);
      DottedIsPlain(rules[i].id);
    }
    PlainIsCustomFirst(Ids(rules));
  }

  lemma {:induction false} IdAt(rules: seq<Rule>, i: nat)
    requires i < |Ids(rules)|
    ensures |Ids(rules)| == |rules| && Ids(rules)[i] == rules[i].id
  {
    if i > 0 {
      IdAt(rules[1..], i - 1);
    } else {
      IdsSize(rules);
    }
  }

  lemma {:induction false} IdsSize(rules: seq<Rule>)
    ensures |Ids(rules)| == |rules|
  {
    if rules != [] {
      IdsSize(rules[1..]);
    }
  }

  lemma {:induction false} RunReflects(ops: seq<Op>)
    ensures Reflects(WriteAll(Predefined, ops), ops)
  {
    hide Reflects, SetDefault, SetInvitations, SetRecipient, ClearRecipient;
    if ops == [] {
      PredefinedReflects();
    } else {
      var n := |ops| - 1;
      RunReflects(ops[..n]);
      var before := WriteAll(Predefined, ops[..n]);
      assert ops == ops[..n] + [ops[n]];
      match ops[n]
      case DefaultOp(level) => DefaultReflects(before, ops[..n], level);
      case InvitationsOp(enabled) => InvitationsReflect(before, ops[..n], enabled);
      case RecipientOp(room, level) => RecipientReflects(before, ops[..n], room, level);
      case ClearOp(room) => ClearReflects(before, ops[..n], room);
    }
  }

  // What the server notifies of in such a store.
  lemma ReflectsDelivers(s: Store, ops: seq<Op>, room: string, k: Kind)
    requires Reflects(s, ops)
    ensures Notifies(s, room, k) <==>
            match OwnLevel(ops, room)
            case Some(level) => level == AllMessages
            case None => LetsThrough(LastDefault(ops), k)
  {
    hide OwnLevel, LastDefault;
    var name := RuleName(room);
    CustomRoom(room);
    NoOverrideIsCustom(k);
    OwnRuleFirst(s.override, OverridesFor(k), name);
    FirstFound(s.override, OverridesFor(k));
    FirstFound(s.underride, {UnderrideFor(k)});
    hide CustomFirst, Find, FirstEnabled, Ids, Distinct, Custom;
  }

  lemma NoOverrideIsCustom(k: Kind)
    ensures forall id :: id in OverridesFor(k) ==> !Custom(id)
  {
    forall id | id in OverridesFor(k)
      ensures !Custom(id)
    {
      DottedIsPlain(id);
    }
  }

  lemma DottedIsPlain(id: string)
    requires id != "" && id[0] == '.'
    ensures !Custom(id)
  {
    assert ROOM_PREFIX[0] == 'c';
  }

  // After any sequence of setters, a message in a room with a level of its own notifies exactly when that
  // is all messages, so that mentions are muted with it; elsewhere the last default level decides, and
  // before the first everything notifies.
  lemma SettersDecideDelivery(ops: seq<Op>, room: string, k: Kind)
    ensures Notifies(WriteAll(Predefined, ops), room, k) <==>
            match OwnLevel(ops, room)
            case Some(level) => level == AllMessages
            case None => LetsThrough(LastDefault(ops), k)
  {
    hide Reflects, Notifies;
    RunReflects(ops);
    ReflectsDelivers(WriteAll(Predefined, ops), ops, room, k);
  }
}
