// Notification settings kept as Matrix push rules (Matrix Client-Server API v1.13, module "Push
// Notifications", sections "Push Rules" and "Predefined Rules"). The rules written by the setters
// hold a record of three fields, and the reader returns it.
module PushRules {
  import opened Options
  import opened JsCollections

  datatype Action = Notify | OtherAction(name: string)

  datatype Rule = Rule(id: string, enabled: bool, actions: seq<Action>)

  // The two kinds of rules the code uses, highest priority first.
  datatype Store = Store(override: seq<Rule>, underride: seq<Rule>)

  datatype Level = AllMessages | Mentions | Mute

  datatype Settings = Settings(defaultLevel: Level, invitations: bool, recipients: map<string, Level>)

  const MESSAGE := ".m.rule.message"
  const ENCRYPTED := ".m.rule.encrypted"
  const DISPLAY_NAME := ".m.rule.contains_display_name"
  const USER_MENTION := ".m.rule.is_user_mention"
  const ROOM_NOTIF := ".m.rule.roomnotif"
  const ROOM_MENTION := ".m.rule.is_room_mention"
  const INVITE_FOR_ME := ".m.rule.invite_for_me"
  const ROOM_PREFIX := "custom.rule.room."

  // ---------- the rule store ----------

  function Find(rules: seq<Rule>, id: string): Option<Rule> {
    if rules == [] then None
    else if rules[0].id == id then Some(rules[0])
    else Find(rules[1..], id)
  }

  // `setPushRuleActions` and `setPushRuleEnabled` for a rule that exists.
  function SetActions(rules: seq<Rule>, id: string, actions: seq<Action>): seq<Rule> {
    if rules == [] then []
    else if rules[0].id == id then [rules[0].(actions := actions)] + rules[1..]
    else [rules[0]] + SetActions(rules[1..], id, actions)
  }

  function SetEnabled(rules: seq<Rule>, id: string, enabled: bool): seq<Rule> {
    if rules == [] then []
    else if rules[0].id == id then [rules[0].(enabled := enabled)] + rules[1..]
    else [rules[0]] + SetEnabled(rules[1..], id, enabled)
  }

  function Delete(rules: seq<Rule>, id: string): seq<Rule> {
    if rules == [] then []
    else if rules[0].id == id then Delete(rules[1..], id)
    else [rules[0]] + Delete(rules[1..], id)
  }

  // The server refuses to add a rule with a name reserved for its own rules, or with a slash or a backslash.
  predicate Accepts(id: string) {
    (id == "" || id[0] != '.') && '/' !in id && '\\' !in id
  }

  // `addPushRule` when the server accepts the name: a new rule is enabled and goes before all others; an old
  // one of its name is gone.
  function Add(rules: seq<Rule>, id: string, actions: seq<Action>): seq<Rule> {
    [Rule(id, true, actions)] + Delete(rules, id)
  }

  lemma {:induction false} FindAfterSetActions(rules: seq<Rule>, id: string, actions: seq<Action>, x: string)
    ensures Find(SetActions(rules, id, actions), x) ==
            if x == id && Find(rules, id).Some? then Some(Find(rules, id).value.(actions := actions))
            else Find(rules, x)
  {
    if rules != [] && rules[0].id != id {
      FindAfterSetActions(rules[1..], id, actions, x);
    }
  }

  lemma {:induction false} FindAfterSetEnabled(rules: seq<Rule>, id: string, enabled: bool, x: string)
    ensures Find(SetEnabled(rules, id, enabled), x) ==
            if x == id && Find(rules, id).Some? then Some(Find(rules, id).value.(enabled := enabled))
            else Find(rules, x)
  {
    if rules != [] && rules[0].id != id {
      FindAfterSetEnabled(rules[1..], id, enabled, x);
    }
  }

  lemma {:induction false} FindAfterDelete(rules: seq<Rule>, id: string, x: string)
    ensures Find(Delete(rules, id), x) == if x == id then None else Find(rules, x)
  {
    if rules != [] {
      FindAfterDelete(rules[1..], id, x);
    }
  }

  lemma FindAfterAdd(rules: seq<Rule>, id: string, actions: seq<Action>, x: string)
    ensures Find(Add(rules, id, actions), x) == if x == id then Some(Rule(id, true, actions)) else Find(rules, x)
  {
    FindAfterDelete(rules, id, x);
  }

  function Ids(rules: seq<Rule>): seq<string> {
    if rules == [] then [] else [rules[0].id] + Ids(rules[1..])
  }

  ghost predicate Distinct(ids: seq<string>) {
    ids == [] || (ids[0] !in ids[1..] && Distinct(ids[1..]))
  }

  lemma {:induction false} SetKeepsIds(rules: seq<Rule>, id: string, actions: seq<Action>, enabled: bool)
    ensures Ids(SetActions(rules, id, actions)) == Ids(rules) && Ids(SetEnabled(rules, id, enabled)) == Ids(rules)
  {
    if rules != [] && rules[0].id != id {
      SetKeepsIds(rules[1..], id, actions, enabled);
    }
  }

  lemma {:induction false} DeleteKeepsDistinct(rules: seq<Rule>, id: string)
    requires Distinct(Ids(rules))
    ensures Distinct(Ids(Delete(rules, id))) && id !in Ids(Delete(rules, id))
    ensures forall x :: x in Ids(Delete(rules, id)) ==> x in Ids(rules)
  {
    if rules != [] {
      DeleteKeepsDistinct(rules[1..], id);
    }
  }

  lemma {:induction false} FoundIn(rules: seq<Rule>, id: string)
    ensures Find(rules, id).Some? <==> id in Ids(rules)
  {
    if rules != [] {
      FoundIn(rules[1..], id);
    }
  }

  // ---------- the rooms in rule names ----------

  predicate LineTerminator(c: char) {
    c == '\n' || c == '\r' || c == '\U{2028}' || c == '\U{2029}'
  }

  // The names the pattern `(.+)` of the reader accepts.
  predicate ReadableRoom(room: string) {
    room != "" && forall i :: 0 <= i < |room| ==> !LineTerminator(room[i])
  }

  function RuleName(room: string): string {
    ROOM_PREFIX + room
  }

  // The match of the rule name against `^custom\.(rule)\.room\.(.+)$`.
  function RoomOf(id: string): Option<string> {
    if ROOM_PREFIX <= id && ReadableRoom(id[|ROOM_PREFIX|..]) then Some(id[|ROOM_PREFIX|..]) else None
  }

  lemma RoomOfRuleName(id: string, room: string)
    ensures RoomOf(id) == Some(room) <==> ReadableRoom(room) && id == RuleName(room)
  {
    if ROOM_PREFIX <= id {
      assert id == ROOM_PREFIX + id[|ROOM_PREFIX|..];
    }
    assert RuleName(room)[|ROOM_PREFIX|..] == room;
  }

  // ---------- reading ----------

  function LevelOf(r: Rule): Option<Level> {
    if !r.enabled then None
    else if r.actions == [] then Some(Mute)
    else if Notify in r.actions then Some(AllMessages)
    else None
  }

  // The rooms that can be read back: in the record of the reader, `__proto__` makes no entry.
  predicate ReadBack(room: string) {
    ReadableRoom(room) && room != PROTO
  }

  function RecipientsOf(rules: seq<Rule>): map<string, Level> {
    if rules == [] then map[]
    else
      var before := RecipientsOf(rules[..|rules| - 1]);
      var r := rules[|rules| - 1];
      if RoomOf(r.id).Some? && RoomOf(r.id) != Some(PROTO) && LevelOf(r).Some?
      then before[RoomOf(r.id).value := LevelOf(r).value]
      else before
  }

  // `some(r => r.rule_id === id && r.actions.includes('notify'))`
  predicate SomeNotifies(rules: seq<Rule>, id: string) {
    exists i :: 0 <= i < |rules| && rules[i].id == id && Notify in rules[i].actions
  }

  function DefaultLevelOf(s: Store): Level {
    if SomeNotifies(s.underride, MESSAGE) then AllMessages
    else if SomeNotifies(s.override, USER_MENTION) then Mentions
    else Mute
  }

  function InvitationsOf(s: Store): bool {
    var rule := Find(s.override, INVITE_FOR_ME);
    rule.Some? && rule.value.enabled && Notify in rule.value.actions
  }

  function SettingsOf(s: Store): Settings {
    Settings(DefaultLevelOf(s), InvitationsOf(s), RecipientsOf(s.override))
  }

  // With distinct names, a room's level is that of the rule of its name.
  lemma {:induction false} RecipientIsRule(rules: seq<Rule>, room: string)
    requires Distinct(Ids(rules))
    ensures var rule := Find(rules, RuleName(room));
            if ReadBack(room) && rule.Some? && LevelOf(rule.value).Some?
            then room in RecipientsOf(rules) && RecipientsOf(rules)[room] == LevelOf(rule.value).value
            else room !in RecipientsOf(rules)
    decreases |rules|
  {
    if rules != [] {
      var n := |rules| - 1;
      DistinctPrefix(rules);
      RecipientIsRule(rules[..n], room);
      FindSnoc(rules, RuleName(room));
      RoomOfRuleName(rules[n].id, room);
    }
  }

  lemma ReadBackExactly(room: string)
    ensures ReadBack(room) <==>
            room != "" && room != "__proto__" && forall c :: c in room ==> c !in {'\n', '\r', '\U{2028}', '\U{2029}'}
  {
    assert forall i :: 0 <= i < |room| ==> room[i] in room;
    assert forall i :: 0 <= i < |room| ==>
      (LineTerminator(room[i]) <==> room[i] in {'\n', '\r', '\U{2028}', '\U{2029}'});
  }

  // A room has a level exactly when the pattern matches its name and an enabled rule of that name has no
  // action or notifies.
  lemma RecipientsExactly(rules: seq<Rule>, room: string)
    requires Distinct(Ids(rules))
    ensures room in RecipientsOf(rules) <==>
              && room != "" && room != "__proto__"
              && (forall c :: c in room ==> c !in {'\n', '\r', '\U{2028}', '\U{2029}'})
              && exists r :: r in rules && r.id == "custom.rule.room." + room && r.enabled &&
                   (r.actions == [] || Notify in r.actions)
    ensures forall r :: room in RecipientsOf(rules) && r in rules && r.id == "custom.rule.room." + room ==>
              RecipientsOf(rules)[room] == if r.actions == [] then Mute else AllMessages
  {
    RecipientIsRule(rules, room);
    ReadBackExactly(room);
    assert RuleName(room) == "custom.rule.room." + room;
    hide ReadBack, RecipientsOf, Distinct, Ids;
    FoundExactly(rules, RuleName(room));
  }

  lemma FoundExactly(rules: seq<Rule>, id: string)
    requires Distinct(Ids(rules))
    ensures forall r :: Find(rules, id) == Some(r) <==> r in rules && r.id == id
  {
    forall r | r in rules && r.id == id
      ensures Find(rules, id) == Some(r)
    {
      var i :| 0 <= i < |rules| && rules[i] == r;
      FoundAt(rules, i);
    }
    if Find(rules, id).Some? {
      var i := FindIsRule(rules, id);
    }
  }

  // The invitation flag is that of an enabled rule that notifies.
  lemma InvitationsExactly(s: Store)
    requires Distinct(Ids(s.override))
    ensures InvitationsOf(s) <==>
            exists r :: r in s.override && r.id == ".m.rule.invite_for_me" && r.enabled && Notify in r.actions
  {
    FoundExactly(s.override, INVITE_FOR_ME);
  }

  lemma {:induction false} DistinctPrefix(rules: seq<Rule>)
    requires rules != [] && Distinct(Ids(rules))
    ensures Distinct(Ids(rules[..|rules| - 1]))
    ensures Find(rules[..|rules| - 1], rules[|rules| - 1].id).None?
    ensures forall x :: x in Ids(rules[..|rules| - 1]) ==> x in Ids(rules)
  {
    var n := |rules| - 1;
    if n > 0 {
      assert rules[1..][..n - 1] == rules[..n][1..];
      DistinctPrefix(rules[1..]);
      FoundIn(rules[1..], rules[n].id);
      LastIdIn(rules[1..]);
    }
  }

  lemma {:induction false} LastIdIn(rules: seq<Rule>)
    requires rules != []
    ensures rules[|rules| - 1].id in Ids(rules)
  {
    if |rules| > 1 {
      LastIdIn(rules[1..]);
    }
  }

  lemma {:induction false} FindSnoc(rules: seq<Rule>, id: string)
    requires rules != []
    ensures Find(rules, id) ==
            if Find(rules[..|rules| - 1], id).Some? then Find(rules[..|rules| - 1], id)
            else if rules[|rules| - 1].id == id then Some(rules[|rules| - 1]) else None
  {
    var n := |rules| - 1;
    if n > 0 && rules[0].id != id {
      assert rules[1..][..n - 1] == rules[..n][1..];
      FindSnoc(rules[1..], id);
    }
  }

  lemma {:induction false} FoundAt(rules: seq<Rule>, i: nat)
    requires Distinct(Ids(rules)) && i < |rules|
    ensures Find(rules, rules[i].id) == Some(rules[i])
  {
    if i > 0 {
      FoundAt(rules[1..], i - 1);
      FoundIn(rules[1..], rules[i].id);
    }
  }

  lemma {:induction false} FindIsRule(rules: seq<Rule>, id: string) returns (i: nat)
    requires Find(rules, id).Some?
    ensures i < |rules| && rules[i].id == id && Find(rules, id) == Some(rules[i])
  {
    if rules[0].id == id {
      i := 0;
    } else {
      var j := FindIsRule(rules[1..], id);
      i := j + 1;
    }
  }

  lemma SomeNotifiesIsRule(rules: seq<Rule>, id: string)
    requires Distinct(Ids(rules))
    ensures SomeNotifies(rules, id) <==> Find(rules, id).Some? && Notify in Find(rules, id).value.actions
  {
    if SomeNotifies(rules, id) {
      var i :| 0 <= i < |rules| && rules[i].id == id && Notify in rules[i].actions;
      FoundAt(rules, i);
    }
    if Find(rules, id).Some? {
      var i := FindIsRule(rules, id);
    }
  }

  // ---------- the service ----------

  // The setters need the predefined rules they change, and names are unique.
  ghost predicate WellFormed(s: Store) {
    && Distinct(Ids(s.override)) && Distinct(Ids(s.underride))
    && Find(s.underride, MESSAGE).Some? && Find(s.underride, ENCRYPTED).Some?
    && Find(s.override, DISPLAY_NAME).Some? && Find(s.override, USER_MENTION).Some?
    && Find(s.override, ROOM_NOTIF).Some? && Find(s.override, ROOM_MENTION).Some?
    && Find(s.override, INVITE_FOR_ME).Some?
  }

  function SetBoth(rules: seq<Rule>, id: string, actions: seq<Action>, enabled: bool): seq<Rule> {
    SetEnabled(SetActions(rules, id, actions), id, enabled)
  }

  function SetDefault(s: Store, level: Level): Store {
    var all := if level.AllMessages? then [Notify] else [];
    var mentions := if level.Mentions? then all + [Notify] else all;
    Store(SetBoth(SetBoth(SetBoth(SetBoth(s.override, DISPLAY_NAME, all, level.AllMessages?),
            USER_MENTION, mentions, level.Mentions?), ROOM_NOTIF, mentions, level.Mentions?),
            ROOM_MENTION, mentions, level.Mentions?),
          SetBoth(SetBoth(s.underride, MESSAGE, all, level.AllMessages?), ENCRYPTED, all, level.AllMessages?))
  }

  // Where the rule is missing the server refuses to have it added.
  function SetInvitations(s: Store, enabled: bool): Store {
    var existing := Find(s.override, INVITE_FOR_ME);
    if existing.None? then s
    else
      var notifies := Notify in existing.value.actions;
      var rules := if enabled && !notifies then SetActions(s.override, INVITE_FOR_ME, [Notify])
                   else if !enabled && notifies then SetActions(s.override, INVITE_FOR_ME, [])
                   else s.override;
      s.(override := SetEnabled(rules, INVITE_FOR_ME, enabled))
  }

  // Clearing a room without a rule throws and changes nothing.
  function ClearRecipient(s: Store, room: string): Store {
    s.(override := Delete(s.override, RuleName(room)))
  }

  // The old rule is deleted before the new one is refused.
  function SetRecipient(s: Store, room: string, level: Level): Store {
    var cleared := Delete(s.override, RuleName(room));
    s.(override := if Accepts(RuleName(room))
                   then Add(cleared, RuleName(room), if level.AllMessages? then [Notify] else [])
                   else cleared)
  }

  class NotificationService {
    var override: seq<Rule>
    var underride: seq<Rule>

    function View(): Store
      reads this
    {
      Store(override, underride)
    }

    constructor (s: Store)
      ensures View() == s
    {
      override, underride := s.override, s.underride;
    }

    method SetOverride(id: string, actions: seq<Action>, enabled: bool)
      modifies `override
      ensures override == SetBoth(old(override), id, actions, enabled)
    {
      override := SetActions(override, id, actions);
      override := SetEnabled(override, id, enabled);
    }

    method SetUnderride(id: string, actions: seq<Action>, enabled: bool)
      modifies `underride
      ensures underride == SetBoth(old(underride), id, actions, enabled)
    {
      underride := SetActions(underride, id, actions);
      underride := SetEnabled(underride, id, enabled);
    }

    // `addPushRule`, which throws when the server refuses.
    method AddRule(id: string, actions: seq<Action>) returns (ok: bool)
      modifies `override
      ensures ok <==> Accepts(id)
      ensures override == if ok then Add(old(override), id, actions) else old(override)
    {
      ok := Accepts(id);
      if ok {
        override := Add(override, id, actions);
      }
    }

    method SetDefaultChatRules(level: Level)
      requires WellFormed(View())
      modifies this
      ensures View() == SetDefault(old(View()), level)
    {
      var actions: seq<Action> := [];
      if level.AllMessages? {
        actions := actions + [Notify];
      }
      assert actions == if level.AllMessages? then [Notify] else [];
      SetUnderride(MESSAGE, actions, level.AllMessages?);
      SetUnderride(ENCRYPTED, actions, level.AllMessages?);
      SetOverride(DISPLAY_NAME, actions, level.AllMessages?);
      if level.Mentions? {
        actions := actions + [Notify];
      }
      SetOverride(USER_MENTION, actions, level.Mentions?);
      SetOverride(ROOM_NOTIF, actions, level.Mentions?);
      SetOverride(ROOM_MENTION, actions, level.Mentions?);
    }

    method SetInviteForMeEnabled(enabled: bool) returns (ok: bool)
      modifies this
      ensures View() == SetInvitations(old(View()), enabled)
      ensures ok <==> Find(old(override), INVITE_FOR_ME).Some? || !enabled
    {
      ok := true;
      var existing := Find(override, INVITE_FOR_ME);
      if existing.None? {
        if enabled {
          ok := AddRule(INVITE_FOR_ME, [Notify]);
        }
        return;
      }
      var shouldNotify := Notify in existing.value.actions;
      if enabled && !shouldNotify {
        override := SetActions(override, INVITE_FOR_ME, [Notify]);
      } else if !enabled && shouldNotify {
        override := SetActions(override, INVITE_FOR_ME, []);
      }
      override := SetEnabled(override, INVITE_FOR_ME, enabled);
    }

    method ClearRecipientChatRules(room: string) returns (ok: bool)
      modifies this
      ensures View() == ClearRecipient(old(View()), room)
      ensures ok <==> Find(old(override), RuleName(room)).Some?
    {
      ok := Find(override, RuleName(room)).Some?;
      if ok {
        override := Delete(override, RuleName(room));
      } else {
        DeleteAbsent(override, RuleName(room));
      }
    }

    method SetRecipientChatRules(room: string, level: Level) returns (ok: bool)
      modifies this
      ensures View() == SetRecipient(old(View()), room, level)
      ensures ok <==> '/' !in room && '\\' !in room
    {
      var actions: seq<Action> := [];
      if level.AllMessages? {
        actions := actions + [Notify];
      }
      assert actions == if level.AllMessages? then [Notify] else [];
      var ignored := ClearRecipientChatRules(room);
      AcceptedRoom(room);
      ok := AddRule(RuleName(room), actions);
    }

    method GetSettings() returns (r: Settings)
      ensures r == SettingsOf(View())
    {
      var recipientChatRules: map<string, Level> := map[];
      for i := 0 to |override|
        invariant recipientChatRules == RecipientsOf(override[..i])
      {
        assert override[..i + 1][..i] == override[..i];
        var rule := override[i];
        if !rule.enabled {
          continue;
        }
        var room := RoomOf(rule.id);
        if room.None? {
          continue;
        }
        if room.value == PROTO {
          // Assigned to the accessor, the level makes no entry.
          continue;
        }
        if rule.actions == [] {
          recipientChatRules := recipientChatRules[room.value := Mute];
        }
        if Notify in rule.actions {
          recipientChatRules := recipientChatRules[room.value := AllMessages];
        }
      }
      assert override[..|override|] == override;
      r := Settings(DefaultLevelOf(View()), InvitationsOf(View()), recipientChatRules);
    }
  }

  lemma AcceptedRoom(room: string)
    ensures Accepts(RuleName(room)) <==> '/' !in room && '\\' !in room
  {
    assert forall c :: c in RuleName(room) <==> c in ROOM_PREFIX || c in room;
  }

  lemma {:induction false} DeleteAbsent(rules: seq<Rule>, id: string)
    requires Find(rules, id).None?
    ensures Delete(rules, id) == rules
  {
    if rules != [] {
      DeleteAbsent(rules[1..], id);
    }
  }

  // ---------- what the settings are after any sequence of setters ----------

  datatype Op =
    | DefaultOp(level: Level)
    | InvitationsOp(enabled: bool)
    | RecipientOp(room: string, level: Level)
    | ClearOp(room: string)

  function Write(s: Store, op: Op): Store {
    match op
    case DefaultOp(level) => SetDefault(s, level)
    case InvitationsOp(enabled) => SetInvitations(s, enabled)
    case RecipientOp(room, level) => SetRecipient(s, room, level)
    case ClearOp(room) => ClearRecipient(s, room)
  }

  // A recipient level of `Mentions` reads back as `Mute`; a room that cannot be read back leaves no trace,
  // and one the server refuses loses its level.
  function Apply(r: Settings, op: Op): Settings {
    match op
    case DefaultOp(level) => r.(defaultLevel := level)
    case InvitationsOp(enabled) => r.(invitations := enabled)
    case RecipientOp(room, level) =>
      if !Accepts(RuleName(room)) then r.(recipients := r.recipients - {room})
      else if ReadBack(room) then
        r.(recipients := r.recipients[room := if level.AllMessages? then AllMessages else Mute])
      else r
    case ClearOp(room) => r.(recipients := r.recipients - {room})
  }

  function WriteAll(s: Store, ops: seq<Op>): Store {
    if ops == [] then s else Write(WriteAll(s, ops[..|ops| - 1]), ops[|ops| - 1])
  }

  function ApplyAll(r: Settings, ops: seq<Op>): Settings {
    if ops == [] then r else Apply(ApplyAll(r, ops[..|ops| - 1]), ops[|ops| - 1])
  }

  // What the settings of a store are, rule by rule.
  lemma SettingsByRule(s: Store)
    requires WellFormed(s)
    ensures DefaultLevelOf(s) ==
            if Notify in Find(s.underride, MESSAGE).value.actions then AllMessages
            else if Notify in Find(s.override, USER_MENTION).value.actions then Mentions
            else Mute
  {
    SomeNotifiesIsRule(s.underride, MESSAGE);
    SomeNotifiesIsRule(s.override, USER_MENTION);
  }

  // Rules that are found alike give the same recipients.
  lemma SameRecipients(a: seq<Rule>, b: seq<Rule>)
    requires Distinct(Ids(a)) && Distinct(Ids(b))
    requires forall room :: Find(a, RuleName(room)) == Find(b, RuleName(room))
    ensures RecipientsOf(a) == RecipientsOf(b)
  {
    forall room
      ensures room in RecipientsOf(a) <==> room in RecipientsOf(b)
      ensures room in RecipientsOf(a) ==> RecipientsOf(a)[room] == RecipientsOf(b)[room]
    {
      RecipientIsRule(a, room);
      RecipientIsRule(b, room);
    }
  }

  lemma FindAfterSetBoth(rules: seq<Rule>, id: string, actions: seq<Action>, enabled: bool)
    requires Distinct(Ids(rules))
    ensures forall x :: Find(SetBoth(rules, id, actions, enabled), x) ==
              if x == id && Find(rules, id).Some? then Some(Rule(Find(rules, id).value.id, enabled, actions))
              else Find(rules, x)
    ensures Distinct(Ids(SetBoth(rules, id, actions, enabled)))
  {
    var acted := SetActions(rules, id, actions);
    SetKeepsIds(rules, id, actions, enabled);
    SetKeepsIds(acted, id, actions, enabled);
    forall x
      ensures Find(SetBoth(rules, id, actions, enabled), x) ==
              if x == id && Find(rules, id).Some? then Some(Rule(Find(rules, id).value.id, enabled, actions))
              else Find(rules, x)
    {
      FindAfterSetActions(rules, id, actions, x);
      FindAfterSetActions(rules, id, actions, id);
      FindAfterSetEnabled(acted, id, enabled, x);
    }
  }

  lemma NotARoom(room: string)
    ensures RuleName(room) !in {MESSAGE, ENCRYPTED, DISPLAY_NAME, USER_MENTION, ROOM_NOTIF, ROOM_MENTION, INVITE_FOR_ME}
  {
    assert RuleName(room)[0] == 'c';
  }

  lemma SetDefaultReads(s: Store, level: Level)
    requires WellFormed(s)
    ensures WellFormed(SetDefault(s, level))
    ensures SettingsOf(SetDefault(s, level)) == Apply(SettingsOf(s), DefaultOp(level))
  {
    hide Distinct, Ids, Find, SetBoth, RecipientsOf, DefaultLevelOf;
    var all := if level.AllMessages? then [Notify] else [];
    var mentions := if level.Mentions? then all + [Notify] else all;
    var o1 := SetBoth(s.override, DISPLAY_NAME, all, level.AllMessages?);
    var o2 := SetBoth(o1, USER_MENTION, mentions, level.Mentions?);
    var o3 := SetBoth(o2, ROOM_NOTIF, mentions, level.Mentions?);
    var u1 := SetBoth(s.underride, MESSAGE, all, level.AllMessages?);
    FindAfterSetBoth(s.override, DISPLAY_NAME, all, level.AllMessages?);
    FindAfterSetBoth(o1, USER_MENTION, mentions, level.Mentions?);
    FindAfterSetBoth(o2, ROOM_NOTIF, mentions, level.Mentions?);
    FindAfterSetBoth(o3, ROOM_MENTION, mentions, level.Mentions?);
    FindAfterSetBoth(s.underride, MESSAGE, all, level.AllMessages?);
    FindAfterSetBoth(u1, ENCRYPTED, all, level.AllMessages?);
    var t := SetDefault(s, level);
    forall room
      ensures Find(t.override, RuleName(room)) == Find(s.override, RuleName(room))
    {
      NotARoom(room);
    }
    SameRecipients(t.override, s.override);
    SettingsByRule(t);
  }

  lemma SetInvitationsReads(s: Store, enabled: bool)
    requires WellFormed(s)
    ensures WellFormed(SetInvitations(s, enabled))
    ensures SettingsOf(SetInvitations(s, enabled)) == Apply(SettingsOf(s), InvitationsOp(enabled))
  {
    hide Distinct, Ids, Find, RecipientsOf, DefaultLevelOf, SetActions, SetEnabled, Add;
    var t := SetInvitations(s, enabled);
    InvitationRules(s, enabled);
    forall room
      ensures Find(t.override, RuleName(room)) == Find(s.override, RuleName(room))
    {
      NotARoom(room);
    }
    SameRecipients(t.override, s.override);
    SettingsByRule(t);
    SettingsByRule(s);
  }

  // Only the rule for invitations changes.
  lemma InvitationRules(s: Store, enabled: bool)
    requires WellFormed(s)
    ensures var t := SetInvitations(s, enabled);
            && t.underride == s.underride && Distinct(Ids(t.override))
            && (forall x :: x != INVITE_FOR_ME ==> Find(t.override, x) == Find(s.override, x))
            && Find(t.override, INVITE_FOR_ME).Some? && InvitationsOf(t) == enabled
  {
    hide Distinct, Ids, Find, SetActions, SetEnabled, Add;
    var t := SetInvitations(s, enabled);
    var existing := Find(s.override, INVITE_FOR_ME);
    var notifies := Notify in existing.value.actions;
    var actions := if enabled then [Notify] else [];
    var rules := if enabled != notifies then SetActions(s.override, INVITE_FOR_ME, actions) else s.override;
    SetKeepsIds(s.override, INVITE_FOR_ME, actions, enabled);
    SetKeepsIds(rules, INVITE_FOR_ME, actions, enabled);
    forall x
      ensures x != INVITE_FOR_ME ==> Find(t.override, x) == Find(s.override, x)
    {
      FindAfterSetActions(s.override, INVITE_FOR_ME, actions, x);
      FindAfterSetEnabled(rules, INVITE_FOR_ME, enabled, x);
    }
    FindAfterSetActions(s.override, INVITE_FOR_ME, actions, INVITE_FOR_ME);
    FindAfterSetEnabled(rules, INVITE_FOR_ME, enabled, INVITE_FOR_ME);
  }

  // In a store without the rule for invitations, as in any other, the setter reaches what it was called
  // for exactly when the rule is there or invitations were to be turned off.
  lemma InvitationsNeedTheirRule(s: Store, enabled: bool)
    ensures InvitationsOf(SetInvitations(s, enabled)) == enabled <==> Find(s.override, INVITE_FOR_ME).Some? || !enabled
  {
    hide Find, SetActions, SetEnabled;
    var existing := Find(s.override, INVITE_FOR_ME);
    if existing.Some? {
      var actions := if enabled then [Notify] else [];
      var acted := SetActions(s.override, INVITE_FOR_ME, actions);
      FindAfterSetActions(s.override, INVITE_FOR_ME, actions, INVITE_FOR_ME);
      FindAfterSetEnabled(s.override, INVITE_FOR_ME, enabled, INVITE_FOR_ME);
      FindAfterSetEnabled(acted, INVITE_FOR_ME, enabled, INVITE_FOR_ME);
    }
  }

  // Turning invitations on in a store without rules leaves them off.
  lemma InvitationsStayOff()
    ensures !InvitationsOf(SetInvitations(Store([], []), true)) && !Accepts(INVITE_FOR_ME)
  {
  }

  lemma AddKeepsDistinct(rules: seq<Rule>, id: string, actions: seq<Action>)
    requires Distinct(Ids(rules))
    ensures Distinct(Ids(Add(rules, id, actions)))
  {
    DeleteKeepsDistinct(rules, id);
    assert Add(rules, id, actions)[1..] == Delete(rules, id);
  }

  lemma ClearReads(s: Store, room: string)
    requires WellFormed(s)
    ensures WellFormed(ClearRecipient(s, room))
    ensures SettingsOf(ClearRecipient(s, room)) == Apply(SettingsOf(s), ClearOp(room))
  {
    hide Distinct, Ids, Find, RecipientsOf, DefaultLevelOf, Delete;
    var t := ClearRecipient(s, room);
    DeleteKeepsDistinct(s.override, RuleName(room));
    forall x
      ensures Find(t.override, x) == if x == RuleName(room) then None else Find(s.override, x)
    {
      FindAfterDelete(s.override, RuleName(room), x);
    }
    NotARoom(room);
    SettingsByRule(t);
    SettingsByRule(s);
    forall other
      ensures other in RecipientsOf(t.override) <==> other in RecipientsOf(s.override) && other != room
      ensures other in RecipientsOf(t.override) ==> RecipientsOf(t.override)[other] == RecipientsOf(s.override)[other]
    {
      RecipientIsRule(t.override, other);
      RecipientIsRule(s.override, other);
      OneRoomOneRule(room, other);
    }
  }

  lemma OneRoomOneRule(room: string, other: string)
    ensures RuleName(room) == RuleName(other) ==> room == other
  {
    assert RuleName(room)[|ROOM_PREFIX|..] == room;
    assert RuleName(other)[|ROOM_PREFIX|..] == other;
  }

  lemma SetRecipientReads(s: Store, room: string, level: Level)
    requires WellFormed(s)
    ensures WellFormed(SetRecipient(s, room, level))
    ensures SettingsOf(SetRecipient(s, room, level)) == Apply(SettingsOf(s), RecipientOp(room, level))
  {
    hide Distinct, Ids, Find, RecipientsOf, DefaultLevelOf, Delete, Add, Accepts;
    var actions := if level.AllMessages? then [Notify] else [];
    var t := SetRecipient(s, room, level);
    DeleteKeepsDistinct(s.override, RuleName(room));
    AddKeepsDistinct(Delete(s.override, RuleName(room)), RuleName(room), actions);
    forall x
      ensures Find(t.override, x) ==
              if x != RuleName(room) then Find(s.override, x)
              else if Accepts(RuleName(room)) then Some(Rule(x, true, actions)) else None
    {
      FindAfterDelete(s.override, RuleName(room), x);
      FindAfterAdd(Delete(s.override, RuleName(room)), RuleName(room), actions, x);
    }
    NotARoom(room);
    SettingsByRule(t);
    SettingsByRule(s);
    var expected := Apply(SettingsOf(s), RecipientOp(room, level)).recipients;
    forall other
      ensures other in RecipientsOf(t.override) <==> other in expected
      ensures other in RecipientsOf(t.override) ==> RecipientsOf(t.override)[other] == expected[other]
    {
      RecipientIsRule(t.override, other);
      RecipientIsRule(s.override, other);
      OneRoomOneRule(room, other);
    }
    assert RecipientsOf(t.override) == expected;
  }

  // A recipient level is read back as it was written exactly when the server accepts the name of the
  // rule, the reader's pattern and record take the name of the room, and the level is not `Mentions`.
  lemma RecipientReadsBackExactly(s: Store, room: string, level: Level)
    requires WellFormed(s)
    ensures var r := SettingsOf(SetRecipient(s, room, level)).recipients;
            (room in r && r[room] == level) <==>
            room != "" && room != "__proto__" && !level.Mentions? && '/' !in room && '\\' !in room &&
            forall c :: c in room ==> c !in {'\n', '\r', '\U{2028}', '\U{2029}'}
  {
    hide Accepts, SetRecipient, WellFormed;
    ReadBackExactly(room);
    SetRecipientReads(s, room, level);
    AcceptedRoom(room);
    if !ReadBack(room) {
      assert WellFormed(SetRecipient(s, room, level));
      NotReadBack(SetRecipient(s, room, level), room);
    }
  }

  // A level of `Mentions` for a room is read back as `Mute`.
  lemma MentionsReadAsMute()
    ensures var r := SettingsOf(SetRecipient(Predefined, "!r", Mentions)).recipients; "!r" in r && r["!r"] == Mute
  {
    PredefinedWellFormed();
    SetRecipientReads(Predefined, "!r", Mentions);
    AcceptedRoom("!r");
    assert ReadBack("!r");
  }

  lemma NotReadBack(s: Store, room: string)
    requires WellFormed(s) && !ReadBack(room)
    ensures room !in RecipientsOf(s.override)
  {
    RecipientIsRule(s.override, room);
  }

  // After any sequence of setters, from any store with the predefined rules, the reader returns the
  // record the setters describe: each changes its own part and no other.
  lemma {:induction false} SettersThenReader(s: Store, ops: seq<Op>)
    requires WellFormed(s)
    ensures WellFormed(WriteAll(s, ops))
    ensures SettingsOf(WriteAll(s, ops)) == ApplyAll(SettingsOf(s), ops)
  {
    hide WellFormed, SettingsOf, SetDefault, SetInvitations, SetRecipient, ClearRecipient, Apply;
    if ops != [] {
      SettersThenReader(s, ops[..|ops| - 1]);
      var before := WriteAll(s, ops[..|ops| - 1]);
      match ops[|ops| - 1]
      case DefaultOp(level) => SetDefaultReads(before, level);
      case InvitationsOp(enabled) => SetInvitationsReads(before, enabled);
      case RecipientOp(room, level) => SetRecipientReads(before, room, level);
      case ClearOp(room) => ClearReads(before, room);
    }
  }

  // The rules a server starts an account with, as far as the code looks at them.
  const Predefined := Store(
    [Rule(INVITE_FOR_ME, true, [Notify, OtherAction("sound")]),
     Rule(USER_MENTION, true, [Notify, OtherAction("sound"), OtherAction("highlight")]),
     Rule(DISPLAY_NAME, true, [Notify, OtherAction("sound"), OtherAction("highlight")]),
     Rule(ROOM_MENTION, true, [Notify, OtherAction("highlight")]),
     Rule(ROOM_NOTIF, true, [Notify, OtherAction("highlight")])],
    [Rule(MESSAGE, true, [Notify]),
     Rule(ENCRYPTED, true, [Notify])])

  lemma PredefinedSettings()
    ensures WellFormed(Predefined)
    ensures SettingsOf(Predefined) == Settings(AllMessages, true, map[])
  {
    PredefinedWellFormed();
    SettingsByRule(Predefined);
    forall room
      ensures room !in RecipientsOf(Predefined.override)
    {
      RecipientIsRule(Predefined.override, room);
      NotARoom(room);
      PredefinedNames(RuleName(room));
    }
    assert InvitationsOf(Predefined);
  }

  lemma PredefinedNames(id: string)
    requires id !in {MESSAGE, ENCRYPTED, DISPLAY_NAME, USER_MENTION, ROOM_NOTIF, ROOM_MENTION, INVITE_FOR_ME}
    ensures Find(Predefined.override, id).None?
  {
    var rules := Predefined.override;
    assert Find(rules[4..], id) == Find(rules[5..], id);
    assert Find(rules[3..], id) == Find(rules[3..][1..], id);
    assert rules[3..][1..] == rules[4..] && rules[2..][1..] == rules[3..] && rules[1..][1..] == rules[2..];
    assert rules[5..] == [];
    assert Find(rules[2..], id) == Find(rules[3..], id);
    assert Find(rules[1..], id) == Find(rules[2..], id);
  }

  lemma PredefinedWellFormed()
    ensures WellFormed(Predefined)
  {
    PredefinedOverrides();
    PredefinedUnderrides();
  }

  // The distinctness of names, shown rule by rule.
  lemma PredefinedOverrides()
    ensures var rules := Predefined.override;
            Distinct(Ids(rules)) &&
            forall id :: id in {INVITE_FOR_ME, USER_MENTION, DISPLAY_NAME, ROOM_MENTION, ROOM_NOTIF} ==>
                Find(rules, id).Some?
  {
    var rules := Predefined.override;
    FoundSteps(rules, 0);
    FoundSteps(rules, 1);
    FoundSteps(rules, 2);
    FoundSteps(rules, 3);
    FoundSteps(rules, 4);
    hide Find, Ids, Distinct;
    LastRule(rules);
    assert rules[0..] == rules;
  }

  lemma PredefinedUnderrides()
    ensures var rules := Predefined.underride;
            Distinct(Ids(rules)) && Find(rules, MESSAGE).Some? && Find(rules, ENCRYPTED).Some?
  {
    var rules := Predefined.underride;
    FoundSteps(rules, 0);
    FoundSteps(rules, 1);
    hide Find, Ids, Distinct;
    LastRule(rules);
    assert rules[0..] == rules;
  }

  lemma LastRule(rules: seq<Rule>)
    ensures Ids(rules[|rules|..]) == [] && Distinct(Ids(rules[|rules|..]))
  {
  }

  lemma FoundSteps(rules: seq<Rule>, i: nat)
    requires i < |rules|
    ensures Ids(rules[i..]) == [rules[i].id] + Ids(rules[i + 1..])
    ensures forall id :: Find(rules[i..], id) == if rules[i].id == id then Some(rules[i]) else Find(rules[i + 1..], id)
    ensures Distinct(Ids(rules[i..])) <==> rules[i].id !in Ids(rules[i + 1..]) && Distinct(Ids(rules[i + 1..]))
  {
    assert rules[i..][1..] == rules[i + 1..];
    assert Ids(rules[i..])[1..] == Ids(rules[i + 1..]);
  }
}
