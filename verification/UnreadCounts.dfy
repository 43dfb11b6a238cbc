// The unread counters of a chat, over any run of arriving events and of marking it read or unread.
module UnreadCounts {
  import opened Options
  import opened JsCollections

  datatype Kind = RoomMessage | RoomMessageEncrypted | RoomMember | PollStart | Reaction | OtherKind

  // `thread` is the id of the thread an event relates to, `userIds` and `roomMention` its mentions.
  datatype Event = Event(
    id: string,
    kind: Kind,
    thread: Option<string>,
    userIds: Option<seq<string>>,
    roomMention: bool)

  datatype Counts = Counts(all: nat, mentions: nat)

  datatype Summary = Summary(hasUnreadMessages: bool, unread: Counts, threads: JsMap<string, Counts>)

  // The live timeline of a room, the event of the user's read receipt, and the marked-unread flag.
  datatype Room = Room(timeline: seq<Event>, receipt: Option<string>, markedUnread: bool)

  predicate Mentioned(e: Event, user: string) {
    (e.userIds.Some? && user in e.userIds.value) || e.roomMention
  }

  // An empty thread id counts as none.
  function ThreadOf(e: Event): Option<string> {
    if e.thread == Some("") then None else e.thread
  }

  // ---------- counting ----------

  // The number of events of a kind that counts, of those that mention the user if `mention`, and
  // within one thread if one is given.
  function Count(es: seq<Event>, user: string, mention: bool, thread: Option<string>): nat {
    if es == [] then 0
    else
      var e := es[|es| - 1];
      Count(es[..|es| - 1], user, mention, thread) +
      if !e.kind.OtherKind? && (mention ==> Mentioned(e, user)) && (thread.Some? ==> ThreadOf(e) == thread)
      then 1 else 0
  }

  function CountsOf(es: seq<Event>, user: string, thread: Option<string>): Counts {
    Counts(Count(es, user, false, thread), Count(es, user, true, thread))
  }

  // The threads with counted events, each with its counts. A thread with an inherited name makes no entry:
  // its counts go to the inherited value.
  ghost predicate CountsThreads(threads: JsMap<string, Counts>, es: seq<Event>, user: string) {
    && threads.Valid()
    && (forall t :: t in threads.at <==> t != "" && !Inherited(t) && Count(es, user, false, Some(t)) > 0)
    && (forall t :: t in threads.at ==> threads.at[t] == CountsOf(es, user, Some(t)))
  }

  lemma CountAppend(es: seq<Event>, e: Event, user: string, mention: bool, thread: Option<string>)
    ensures Count(es + [e], user, mention, thread) ==
            Count(es, user, mention, thread) +
            if !e.kind.OtherKind? && (mention ==> Mentioned(e, user)) && (thread.Some? ==> ThreadOf(e) == thread)
            then 1 else 0
  {
    assert (es + [e])[..|es|] == es;
  }

  lemma {:induction false} MentionsAtMostAll(es: seq<Event>, user: string, thread: Option<string>)
    ensures Count(es, user, true, thread) <= Count(es, user, false, thread)
  {
    if es != [] {
      MentionsAtMostAll(es[..|es| - 1], user, thread);
    }
  }

  // The events that the badge is for.
  ghost predicate Matters(e: Event, user: string, mention: bool, thread: Option<string>) {
    && e.kind in {RoomMessage, RoomMessageEncrypted, RoomMember, PollStart, Reaction}
    && (!mention || e.roomMention || exists ids :: e.userIds == Some(ids) && user in ids)
    && (thread.None? || (e.thread == thread && thread.value != ""))
  }

  ghost function Positions(es: seq<Event>, user: string, mention: bool, thread: Option<string>): set<nat> {
    set i: nat | i < |es| && Matters(es[i], user, mention, thread)
  }

  // The counts are the number of events that matter.
  lemma {:induction false} CountIsSize(es: seq<Event>, user: string, mention: bool, thread: Option<string>)
    ensures Count(es, user, mention, thread) == |Positions(es, user, mention, thread)|
  {
    hide Matters;
    if es != [] {
      var n := |es| - 1;
      CountIsSize(es[..n], user, mention, thread);
      CountedMatters(es[n], user, mention, thread);
      assert Positions(es, user, mention, thread) ==
             Positions(es[..n], user, mention, thread) + if Matters(es[n], user, mention, thread) then {n} else {};
    }
  }

  lemma CountedMatters(e: Event, user: string, mention: bool, thread: Option<string>)
    ensures Matters(e, user, mention, thread) <==>
            !e.kind.OtherKind? && (mention ==> Mentioned(e, user)) && (thread.Some? ==> ThreadOf(e) == thread)
  {
  }

  // The counted events outside the given threads.
  function Outside(es: seq<Event>, user: string, mention: bool, threads: seq<string>): nat {
    if es == [] then 0
    else
      var e := es[|es| - 1];
      Outside(es[..|es| - 1], user, mention, threads) +
      if !e.kind.OtherKind? && (mention ==> Mentioned(e, user)) && (ThreadOf(e).None? || ThreadOf(e).value !in threads)
      then 1 else 0
  }

  function SumThreads(es: seq<Event>, user: string, mention: bool, threads: seq<string>): nat {
    if threads == [] then 0
    else
      SumThreads(es, user, mention, threads[..|threads| - 1]) +
      Count(es, user, mention, Some(threads[|threads| - 1]))
  }

  lemma {:induction false} OutsideNone(es: seq<Event>, user: string, mention: bool)
    ensures Outside(es, user, mention, []) == Count(es, user, mention, None)
  {
    if es != [] {
      OutsideNone(es[..|es| - 1], user, mention);
    }
  }

  lemma {:induction false} OutsideOneMore(es: seq<Event>, user: string, mention: bool, threads: seq<string>, t: string)
    requires t !in threads && t != ""
    ensures Outside(es, user, mention, threads + [t]) + Count(es, user, mention, Some(t)) ==
            Outside(es, user, mention, threads)
  {
    if es != [] {
      OutsideOneMore(es[..|es| - 1], user, mention, threads, t);
    }
  }

  // The counts of distinct threads and of what lies outside them add up to the total.
  lemma {:induction false} ThreadsPartition(es: seq<Event>, user: string, mention: bool, threads: seq<string>)
    requires NoDup(threads) && "" !in threads
    ensures SumThreads(es, user, mention, threads) + Outside(es, user, mention, threads) ==
            Count(es, user, mention, None)
    decreases |threads|
  {
    if threads == [] {
      OutsideNone(es, user, mention);
    } else {
      var n := |threads| - 1;
      ThreadsPartition(es, user, mention, threads[..n]);
      OutsideOneMore(es, user, mention, threads[..n], threads[n]);
      assert threads == threads[..n] + [threads[n]];
    }
  }

  // ---------- the summary ----------

  function Ids(es: seq<Event>): seq<string> {
    seq(|es|, i requires 0 <= i < |es| => es[i].id)
  }

  // The events after the read one; all events when that one is not in the timeline.
  function UnreadEvents(r: Room): seq<Event> {
    if r.receipt.None? || r.receipt.value == "" then r.timeline
    else
      var k := IndexOf(Ids(r.timeline), r.receipt.value);
      if k.Some? then r.timeline[k.value + 1..] else r.timeline
  }

  // What the summary reports for the given unread events and flag.
  ghost predicate Reports(s: Summary, unread: seq<Event>, marked: bool, user: string) {
    && (s.hasUnreadMessages <==> s.unread.all > 0)
    && s.unread.mentions == Count(unread, user, true, None)
    && (Count(unread, user, false, None) > 0 ==> s.unread.all == Count(unread, user, false, None))
    && (Count(unread, user, false, None) == 0 ==> s.unread.all == if marked then 1 else 0)
    && CountsThreads(s.threads, unread, user)
  }

  // The thread in whose entry an event is counted.
  function EntryOf(e: Event): Option<string> {
    var t := ThreadOf(e);
    if t.Some? && Inherited(t.value) then None else t
  }

  // Reading one event in the counting loop: the totals,
  lemma CountTotals(before: seq<Event>, e: Event, user: string)
    requires !e.kind.OtherKind?
    ensures Count(before + [e], user, false, None) == Count(before, user, false, None) + 1
    ensures Count(before + [e], user, true, None) ==
            Count(before, user, true, None) + if Mentioned(e, user) then 1 else 0
  {
    CountAppend(before, e, user, false, None);
    CountAppend(before, e, user, true, None);
  }

  // the entries when the event makes none,
  lemma CountUnthreaded(before: seq<Event>, e: Event, user: string, threads: JsMap<string, Counts>)
    requires CountsThreads(threads, before, user) && !e.kind.OtherKind? && EntryOf(e).None?
    ensures CountsThreads(threads, before + [e], user)
  {
    hide Count;
    forall t | t != "" && !Inherited(t)
      ensures CountsOf(before + [e], user, Some(t)) == CountsOf(before, user, Some(t))
    {
      CountAppend(before, e, user, false, Some(t));
      CountAppend(before, e, user, true, Some(t));
    }
    SameEntries(threads, before, before + [e], user);
  }

  lemma SameEntries(threads: JsMap<string, Counts>, es: seq<Event>, more: seq<Event>, user: string)
    requires CountsThreads(threads, es, user)
    requires forall t :: t != "" && !Inherited(t) ==> CountsOf(more, user, Some(t)) == CountsOf(es, user, Some(t))
    ensures CountsThreads(threads, more, user)
  {
    hide Count, Inherited;
    forall t
      ensures t in threads.at <==> t != "" && !Inherited(t) && Count(more, user, false, Some(t)) > 0
      ensures t in threads.at ==> threads.at[t] == CountsOf(more, user, Some(t))
    {
      if t != "" && !Inherited(t) {
        assert CountsOf(more, user, Some(t)) == CountsOf(es, user, Some(t));
      }
    }
  }

  // and the entry of its thread.
  lemma CountThreaded(before: seq<Event>, e: Event, user: string, threads: JsMap<string, Counts>, t: string)
    requires CountsThreads(threads, before, user) && !e.kind.OtherKind? && EntryOf(e) == Some(t)
    ensures var was := if t in threads.at then threads.at[t] else Counts(0, 0);
            var m := if Mentioned(e, user) then 1 else 0;
            CountsThreads(threads.Set(t, Counts(was.all + 1, was.mentions + m)), before + [e], user)
  {
    hide Count, Inherited;
    MentionsAtMostAll(before, user, Some(t));
    var was := if t in threads.at then threads.at[t] else Counts(0, 0);
    assert was == CountsOf(before, user, Some(t));
    var after := threads.Set(t, Counts(was.all + 1, was.mentions + if Mentioned(e, user) then 1 else 0));
    assert after.Valid();
    forall x
      ensures x in after.at <==> x != "" && !Inherited(x) && Count(before + [e], user, false, Some(x)) > 0
      ensures x in after.at ==> after.at[x] == CountsOf(before + [e], user, Some(x))
    {
      CountAppend(before, e, user, false, Some(x));
      CountAppend(before, e, user, true, Some(x));
    }
  }

  lemma SkipOne(before: seq<Event>, e: Event, user: string, threads: JsMap<string, Counts>)
    requires CountsThreads(threads, before, user) && e.kind.OtherKind?
    ensures Count(before + [e], user, false, None) == Count(before, user, false, None)
    ensures Count(before + [e], user, true, None) == Count(before, user, true, None)
    ensures CountsThreads(threads, before + [e], user)
  {
    forall mention, thread
      ensures Count(before + [e], user, mention, thread) == Count(before, user, mention, thread)
    {
      CountAppend(before, e, user, mention, thread);
    }
  }

  lemma NothingUnread(user: string)
    ensures CountsThreads(JsMap([], map[]), [], user)
    ensures Count([], user, false, None) == 0 && Count([], user, true, None) == 0
  {
  }

  // ---------- the room as an object ----------

  class ChatRoom {
    var timeline: seq<Event>
    var receipt: Option<string>
    var markedUnread: bool

    function View(): Room
      reads this
    {
      Room(timeline, receipt, markedUnread)
    }

    constructor ()
      ensures View() == Room([], None, false)
    {
      timeline, receipt, markedUnread := [], None, false;
    }

    method Arrive(e: Event)
      modifies this
      ensures View() == Step(old(View()), Arrival(e))
    {
      timeline := timeline + [e];
    }

    method MarkAsUnread()
      modifies this
      ensures View() == Step(old(View()), MarkUnread)
    {
      if markedUnread {
        return;
      }
      markedUnread := true;
    }

    // `sendReadReceipt`; it throws when there is no event to mark.
    method SendReadReceipt() returns (ok: bool)
      modifies this
      ensures View() == Step(old(View()), MarkRead)
      ensures ok <==> old(timeline) != [] && old(timeline)[|old(timeline)| - 1].id != ""
      ensures !ok ==> View() == old(View())
      ensures ok ==> View() == Room(old(timeline), Some(old(timeline)[|old(timeline)| - 1].id), false)
    {
      if timeline == [] {
        return false;
      }
      var latestEventId := timeline[|timeline| - 1].id;
      if latestEventId == "" {
        return false;
      }
      receipt := Some(latestEventId);
      if markedUnread {
        markedUnread := false;
      }
      ok := true;
    }

    // `getChatSummaries` for this room.
    method GetChatSummary(user: string) returns (s: Summary)
      ensures Reports(s, UnreadEvents(View()), markedUnread, user)
    {
      hide Count, CountsThreads, Inherited;
      var threads: JsMap<string, Counts> := JsMap([], map[]);
      NothingUnread(user);
      if timeline == [] {
        assert UnreadEvents(View()) == [];
        return Summary(markedUnread, Counts(if markedUnread then 1 else 0, 0), threads);
      }
      var unreadEvents := UnreadEvents(View());
      var unreadCountAll, unreadCountMentions := 0, 0;
      for i := 0 to |unreadEvents|
        invariant unreadCountAll == Count(unreadEvents[..i], user, false, None)
        invariant unreadCountMentions == Count(unreadEvents[..i], user, true, None)
        invariant CountsThreads(threads, unreadEvents[..i], user)
      {
        var e := unreadEvents[i];
        assert unreadEvents[..i + 1] == unreadEvents[..i] + [e];
        if e.kind.OtherKind? {
          SkipOne(unreadEvents[..i], e, user, threads);
          continue;
        }
        CountTotals(unreadEvents[..i], e, user);
        var isMentioned := Mentioned(e, user);
        unreadCountAll := unreadCountAll + 1;
        if isMentioned {
          unreadCountMentions := unreadCountMentions + 1;
        }
        // Under an inherited name the code finds a value, makes no entry and counts on that value.
        var threadId := EntryOf(e);
        if threadId.None? {
          CountUnthreaded(unreadEvents[..i], e, user, threads);
        } else {
          CountThreaded(unreadEvents[..i], e, user, threads, threadId.value);
          var c := if threads.Has(threadId.value) then threads.at[threadId.value] else Counts(0, 0);
          c := c.(all := c.all + 1);
          if isMentioned {
            c := c.(mentions := c.mentions + 1);
          }
          threads := threads.Set(threadId.value, c);
        }
      }
      assert unreadEvents[..|unreadEvents|] == unreadEvents;
      var effectiveUnreadAll := if unreadCountAll > 0 then unreadCountAll else if markedUnread then 1 else 0;
      s := Summary(unreadCountAll > 0 || markedUnread, Counts(effectiveUnreadAll, unreadCountMentions), threads);
    }
  }

  // ---------- runs ----------

  datatype Action = Arrival(event: Event) | MarkRead | MarkUnread

  function Step(r: Room, a: Action): Room {
    match a
    case Arrival(e) => r.(timeline := r.timeline + [e])
    case MarkUnread => r.(markedUnread := true)
    case MarkRead =>
      if r.timeline == [] || r.timeline[|r.timeline| - 1].id == "" then r
      else r.(receipt := Some(r.timeline[|r.timeline| - 1].id), markedUnread := false)
  }

  function After(run: seq<Action>): Room {
    if run == [] then Room([], None, false) else Step(After(run[..|run| - 1]), run[|run| - 1])
  }

  // The events that arrived in a run.
  function Arrived(run: seq<Action>): seq<Event> {
    if run == [] then []
    else Arrived(run[..|run| - 1]) + if run[|run| - 1].Arrival? then [run[|run| - 1].event] else []
  }

  // The events that arrived since the chat was last marked read; marking an empty chat does nothing.
  function Since(run: seq<Action>): seq<Event> {
    if run == [] then []
    else
      var before := run[..|run| - 1];
      match run[|run| - 1]
      case Arrival(e) => Since(before) + [e]
      case MarkUnread => Since(before)
      case MarkRead => []
  }

  // Whether the chat was marked unread since then.
  function Marked(run: seq<Action>): bool {
    if run == [] then false
    else
      var before := run[..|run| - 1];
      match run[|run| - 1]
      case Arrival(_) => Marked(before)
      case MarkUnread => true
      case MarkRead => Arrived(before) == [] && Marked(before)
  }

  // The server gives each event an id of its own.
  ghost predicate FreshIds(es: seq<Event>) {
    (forall i :: 0 <= i < |es| ==> es[i].id != "") &&
    (forall i, j :: 0 <= i < j < |es| ==> es[i].id != es[j].id)
  }

  // The receipt stands between the read and the unread part of the timeline.
  ghost predicate Divides(r: Room, unread: seq<Event>) {
    && |unread| <= |r.timeline|
    && r.timeline[|r.timeline| - |unread|..] == unread
    && r.receipt == if |unread| == |r.timeline| then None else Some(r.timeline[|r.timeline| - |unread| - 1].id)
  }

  lemma DividesUnread(r: Room, unread: seq<Event>)
    requires Divides(r, unread) && FreshIds(r.timeline)
    ensures UnreadEvents(r) == unread
  {
    if r.receipt.Some? {
      var k := |r.timeline| - |unread| - 1;
      var ids := Ids(r.timeline);
      assert ids[k] == r.receipt.value && forall i :: 0 <= i < |ids| && i != k ==> ids[i] != ids[k];
    } else {
      assert r.timeline[0..] == unread;
    }
  }

  lemma ArrivalDivides(r: Room, unread: seq<Event>, e: Event)
    requires Divides(r, unread)
    ensures Divides(Step(r, Arrival(e)), unread + [e])
  {
    var all := r.timeline + [e];
    var k := |r.timeline| - |unread|;
    assert all[k..] == r.timeline[k..] + [e];
    assert k > 0 ==> all[k - 1] == r.timeline[k - 1];
  }

  lemma ReadDivides(r: Room)
    requires r.timeline != [] && r.timeline[|r.timeline| - 1].id != ""
    ensures Divides(Step(r, MarkRead), [])
  {
    assert r.timeline[|r.timeline|..] == [];
  }

  lemma FreshPrefix(es: seq<Event>, n: nat)
    requires FreshIds(es) && n <= |es|
    ensures FreshIds(es[..n])
  {
  }

  lemma {:induction false} RunDivides(run: seq<Action>)
    requires FreshIds(Arrived(run))
    ensures var r := After(run); r.timeline == Arrived(run) && r.markedUnread == Marked(run) && Divides(r, Since(run))
  {
    hide Divides, FreshIds;
    if run == [] {
      NothingDivides();
    } else {
      var n := |run| - 1;
      var before := After(run[..n]);
      FreshPrefix(Arrived(run), |Arrived(run[..n])|);
      assert Arrived(run)[..|Arrived(run[..n])|] == Arrived(run[..n]);
      RunDivides(run[..n]);
      match run[n]
      case Arrival(e) =>
        ArrivalDivides(before, Since(run[..n]), e);
      case MarkUnread =>
        assert Arrived(run) == Arrived(run[..n]);
        FlagDivides(before, Since(run[..n]));
      case MarkRead =>
        assert Arrived(run) == Arrived(run[..n]);
        LastIsFresh(before.timeline);
        if before.timeline != [] {
          ReadDivides(before);
        } else {
          EmptyDivides(before, Since(run[..n]));
        }
    }
  }

  lemma NothingDivides()
    ensures Divides(Room([], None, false), [])
  {
  }

  lemma FlagDivides(r: Room, unread: seq<Event>)
    requires Divides(r, unread)
    ensures Divides(Step(r, MarkUnread), unread)
  {
  }

  lemma EmptyDivides(r: Room, unread: seq<Event>)
    requires Divides(r, unread) && r.timeline == []
    ensures unread == []
  {
  }

  lemma LastIsFresh(es: seq<Event>)
    requires FreshIds(es)
    ensures es != [] ==> es[|es| - 1].id != ""
  {
  }

  // Every thread with counted events has an entry.
  ghost predicate EveryThreadCounted(threads: JsMap<string, Counts>, es: seq<Event>, user: string) {
    forall t :: t != "" && Count(es, user, false, Some(t)) > 0 ==> t in threads.at
  }

  // No counted event is in a thread with an inherited name.
  ghost predicate PlainThreads(es: seq<Event>) {
    forall e :: e in es && !e.kind.OtherKind? && ThreadOf(e).Some? ==> !Inherited(ThreadOf(e).value)
  }

  lemma {:induction false} SomeCounted(es: seq<Event>, user: string, t: string)
    ensures Count(es, user, false, Some(t)) > 0 <==> exists e :: e in es && !e.kind.OtherKind? && ThreadOf(e) == Some(t)
  {
    if es != [] {
      SomeCounted(es[..|es| - 1], user, t);
      assert forall e :: e in es <==> e in es[..|es| - 1] || e == es[|es| - 1];
    }
  }

  lemma EveryThreadExactly(threads: JsMap<string, Counts>, es: seq<Event>, user: string)
    requires CountsThreads(threads, es, user)
    ensures EveryThreadCounted(threads, es, user) <==> PlainThreads(es)
  {
    hide Count, Inherited;
    forall t
      ensures Count(es, user, false, Some(t)) > 0 <==>
              exists e :: e in es && !e.kind.OtherKind? && ThreadOf(e) == Some(t)
    {
      SomeCounted(es, user, t);
    }
    if EveryThreadCounted(threads, es, user) {
      forall e | e in es && !e.kind.OtherKind? && ThreadOf(e).Some?
        ensures !Inherited(ThreadOf(e).value)
      {
        assert Count(es, user, false, ThreadOf(e)) > 0;
      }
    }
  }

  // One message in a thread "constructor" is counted in the total and in no thread.
  lemma ConstructorThreadIsLost(s: Summary)
    requires Reports(s, [Event("$1", RoomMessage, Some("constructor"), None, false)], false, "@u")
    ensures s.unread.all == 1 && "constructor" !in s.threads.at
  {
    var es := [Event("$1", RoomMessage, Some("constructor"), None, false)];
    assert es[..0] == [];
  }

  // After any run, the summary counts exactly the events since the chat was last marked read, in all
  // and thread by thread; the thread counts add up to at most the totals. Every thread is counted exactly
  // when none of them has an inherited name.
  lemma SummaryOfRun(run: seq<Action>, user: string, s: Summary)
    requires FreshIds(Arrived(run))
    requires Reports(s, UnreadEvents(After(run)), After(run).markedUnread, user)
    ensures Reports(s, Since(run), Marked(run), user)
    ensures SumThreads(Since(run), user, false, s.threads.keys) <= s.unread.all
    ensures SumThreads(Since(run), user, true, s.threads.keys) <= s.unread.mentions
    ensures EveryThreadCounted(s.threads, Since(run), user) <==> PlainThreads(Since(run))
  {
    hide Count, SumThreads, Outside, EveryThreadCounted, PlainThreads;
    RunDivides(run);
    DividesUnread(After(run), Since(run));
    assert "" !in s.threads.keys;
    ThreadsPartition(Since(run), user, false, s.threads.keys);
    ThreadsPartition(Since(run), user, true, s.threads.keys);
    EveryThreadExactly(s.threads, Since(run), user);
  }

  // Marking a chat read brings its counts to zero, unless it has no events and is marked unread: then
  // marking it read throws, and the flag stays.
  lemma MarkReadClears(run: seq<Action>, user: string, s: Summary)
    requires FreshIds(Arrived(run))
    requires var r := After(run + [MarkRead]); Reports(s, UnreadEvents(r), r.markedUnread, user)
    ensures s.unread == Counts(0, 0) && !s.hasUnreadMessages && s.threads.keys == [] <==>
            Arrived(run) != [] || !Marked(run)
  {
    hide Count;
    var all := run + [MarkRead];
    assert all[..|run|] == run;
    assert Arrived(all) == Arrived(run);
    SummaryOfRun(all, user, s);
    NothingUnread(user);
    forall t
      ensures t !in s.threads.at
    {
      NoneCounted(user, t);
    }
    NoKeys(s.threads);
  }

  // A chat without events, marked unread and then read, still reports an unread message.
  lemma EmptyChatStaysUnread(s: Summary)
    requires var r := After([MarkUnread, MarkRead]); Reports(s, UnreadEvents(r), r.markedUnread, "@u")
    ensures s.unread == Counts(1, 0) && s.hasUnreadMessages
  {
    var run := [MarkUnread, MarkRead];
    assert run[..1] == [MarkUnread] && [MarkUnread][..0] == [];
    assert After(run[..1]) == Step(After([]), MarkUnread);
    NothingUnread("@u");
  }

  lemma NoneCounted(user: string, t: string)
    ensures Count([], user, false, Some(t)) == 0
  {
  }

  lemma NoKeys(threads: JsMap<string, Counts>)
    requires threads.Valid() && forall t :: t !in threads.at
    ensures threads.keys == []
  {
    if threads.keys != [] {
      FirstKey(threads);
    }
  }

  lemma FirstKey(threads: JsMap<string, Counts>)
    requires threads.Valid() && threads.keys != []
    ensures threads.keys[0] in threads.at
  {
    assert threads.keys[0] in threads.keys;
  }
}
