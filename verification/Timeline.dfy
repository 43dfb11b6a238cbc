// Listing the messages of a room: routing events to the main timeline or their thread, removing
// duplicates in place, applying edits, and sorting by time.
module Timeline {
  import opened Options
  import opened JsCollections
  import opened TimelinePages
  import opened MessageContents

  // ---------- buckets without duplicates ----------

  function Ids(ms: seq<Message>): seq<string> {
    seq(|ms|, i requires 0 <= i < |ms| => ms[i].id)
  }

  // `findIndex` by message id.
  function FindIndex(ms: seq<Message>, id: string): (k: Option<nat>)
    ensures k.Some? ==> k.value < |ms| && ms[k.value].id == id && forall i :: 0 <= i < k.value ==> ms[i].id != id
    ensures k.None? ==> forall i :: 0 <= i < |ms| ==> ms[i].id != id
  {
    var ids := Ids(ms);
    assert forall i :: 0 <= i < |ms| ==> ids[i] == ms[i].id;
    IndexOf(ids, id)
  }

  // A message replaces the one with its id in place, or goes last.
  function Put(bucket: seq<Message>, m: Message): seq<Message> {
    var k := FindIndex(bucket, m.id);
    if k.Some? then bucket[k.value := m] else bucket + [m]
  }

  function PutAll(ms: seq<Message>): seq<Message> {
    if ms == [] then [] else Put(PutAll(ms[..|ms| - 1]), ms[|ms| - 1])
  }

  // `d` holds one entry for each id of `ms`, in the order in which the ids first occur, and each
  // entry is the last message with its id.
  ghost predicate Deduplicates(d: seq<Message>, ms: seq<Message>) {
    && (forall m :: m in ms ==> HoldsId(d, m.id))
    && (forall a, b :: 0 <= a < b < |d| ==> d[a].id != d[b].id)
    && (forall k :: 0 <= k < |d| ==> IsLastWithId(ms, d[k]))
    && (forall a, b :: 0 <= a < b < |d| ==> FirstSeen(ms, d[a].id) < FirstSeen(ms, d[b].id))
  }

  ghost predicate HoldsId(d: seq<Message>, id: string) {
    exists k :: 0 <= k < |d| && d[k].id == id
  }

  ghost predicate IsLastWithId(ms: seq<Message>, m: Message) {
    exists i :: 0 <= i < |ms| && ms[i] == m && forall j :: i < j < |ms| ==> ms[j].id != m.id
  }

  // The first position of an id, or the length if it does not occur.
  function FirstSeen(ms: seq<Message>, id: string): nat {
    var k := FindIndex(ms, id);
    if k.Some? then k.value else |ms|
  }

  lemma FirstSeenAppend(ms: seq<Message>, m: Message, id: string)
    ensures FirstSeen(ms + [m], id) ==
            if FindIndex(ms, id).Some? then FirstSeen(ms, id)
            else if m.id == id then |ms| else |ms| + 1
  {
    assert (ms + [m])[..|ms|] == ms;
  }

  lemma LastWithIdAppend(ms: seq<Message>, m: Message, x: Message)
    ensures IsLastWithId(ms + [m], m)
    ensures IsLastWithId(ms, x) && x.id != m.id ==> IsLastWithId(ms + [m], x)
  {
    assert (ms + [m])[|ms|] == m;
    if IsLastWithId(ms, x) && x.id != m.id {
      var i :| 0 <= i < |ms| && ms[i] == x && forall j :: i < j < |ms| ==> ms[j].id != x.id;
      assert (ms + [m])[i] == x;
    }
  }

  lemma PutCovers(d: seq<Message>, ms: seq<Message>, m: Message)
    requires Deduplicates(d, ms)
    ensures forall x :: x in ms + [m] ==> HoldsId(Put(d, m), x.id)
  {
    var d' := Put(d, m);
    var k := FindIndex(d, m.id);
    assert k.Some? ==> d'[k.value] == m;
    assert k.None? ==> d'[|d|] == m;
    forall x | x in ms + [m]
      ensures HoldsId(d', x.id)
    {
      if x in ms {
        var i :| 0 <= i < |d| && d[i].id == x.id;
        assert d'[i].id == x.id;
      }
    }
  }

  lemma PutKeepsLast(d: seq<Message>, ms: seq<Message>, m: Message)
    requires Deduplicates(d, ms)
    ensures forall i :: 0 <= i < |Put(d, m)| ==> IsLastWithId(ms + [m], Put(d, m)[i])
  {
    var d' := Put(d, m);
    forall i | 0 <= i < |d'|
      ensures IsLastWithId(ms + [m], d'[i])
    {
      LastWithIdAppend(ms, m, d'[i]);
      if d'[i] != m {
        assert d[i] == d'[i];
      }
    }
  }

  lemma PutKeepsOrder(d: seq<Message>, ms: seq<Message>, m: Message)
    requires Deduplicates(d, ms)
    ensures forall a, b :: 0 <= a < b < |Put(d, m)| ==>
              FirstSeen(ms + [m], Put(d, m)[a].id) < FirstSeen(ms + [m], Put(d, m)[b].id)
  {
    var d' := Put(d, m);
    forall a, b | 0 <= a < b < |d'|
      ensures FirstSeen(ms + [m], d'[a].id) < FirstSeen(ms + [m], d'[b].id)
    {
      FirstSeenAppend(ms, m, d'[a].id);
      FirstSeenAppend(ms, m, d'[b].id);
      SeenBefore(d, ms, a);
      assert d'[a].id == d[a].id;
      if b < |d| {
        SeenBefore(d, ms, b);
        assert d'[b].id == d[b].id;
      } else {
        NotSeen(d, ms, m);
      }
    }
  }

  lemma PutDeduplicates(d: seq<Message>, ms: seq<Message>, m: Message)
    requires Deduplicates(d, ms)
    ensures Deduplicates(Put(d, m), ms + [m])
  {
    hide FirstSeen, IsLastWithId;
    PutCovers(d, ms, m);
    PutKeepsLast(d, ms, m);
    PutKeepsOrder(d, ms, m);
  }

  lemma SeenBefore(d: seq<Message>, ms: seq<Message>, k: nat)
    requires Deduplicates(d, ms) && k < |d|
    ensures FindIndex(ms, d[k].id).Some?
  {
    assert IsLastWithId(ms, d[k]);
  }

  lemma NotSeen(d: seq<Message>, ms: seq<Message>, m: Message)
    requires Deduplicates(d, ms) && FindIndex(d, m.id).None?
    ensures FindIndex(ms, m.id).None?
  {
    forall i | 0 <= i < |ms|
      ensures ms[i].id != m.id
    {
      assert ms[i] in ms;
    }
  }

  lemma {:induction false} PutAllDeduplicates(ms: seq<Message>)
    ensures Deduplicates(PutAll(ms), ms)
  {
    hide Put, FirstSeen, IsLastWithId;
    if ms != [] {
      var n := |ms| - 1;
      PutAllDeduplicates(ms[..n]);
      PutDeduplicates(PutAll(ms[..n]), ms[..n], ms[n]);
      assert ms == ms[..n] + [ms[n]];
    }
  }

  // ---------- routing ----------

  datatype Routed = Routed(main: seq<Message>, threads: JsMap<string, seq<Message>>)

  const NoMessages := Routed([], JsMap([], map[]))

  function ThreadMessages(r: Routed, thread: string): seq<Message> {
    if thread in r.threads.at then r.threads.at[thread] else []
  }

  function RouteOne(r: Routed, m: Message): Routed {
    var thread := Truthy(m.content.threadId);
    if thread.Some? then
      r.(threads := r.threads.Set(thread.value, Put(ThreadMessages(r, thread.value), m)))
    else r.(main := Put(r.main, m))
  }

  function Route(ms: seq<Message>): Routed {
    if ms == [] then NoMessages else RouteOne(Route(ms[..|ms| - 1]), ms[|ms| - 1])
  }

  // The messages that belong to one thread, or to the main timeline.
  function Belonging(ms: seq<Message>, thread: Option<string>): seq<Message> {
    if ms == [] then []
    else Belonging(ms[..|ms| - 1], thread) +
         if Truthy(ms[|ms| - 1].content.threadId) == thread then [ms[|ms| - 1]] else []
  }

  function BucketOf(r: Routed, thread: Option<string>): seq<Message> {
    if thread.Some? then ThreadMessages(r, thread.value) else r.main
  }

  lemma PutAllSnoc(ms: seq<Message>, m: Message)
    ensures PutAll(ms + [m]) == Put(PutAll(ms), m)
  {
    assert (ms + [m])[..|ms|] == ms;
  }

  lemma {:induction false} RoutePutsEach(ms: seq<Message>, thread: Option<string>)
    ensures BucketOf(Route(ms), thread) == PutAll(Belonging(ms, thread))
    ensures thread.Some? ==> (thread.value in Route(ms).threads.at <==> Belonging(ms, thread) != [])
    ensures Route(ms).threads.Valid()
  {
    hide PutAll, Put;
    if ms == [] {
      assert PutAll([]) == [] by {
        PutAllEmpty();
      }
    } else {
      var n := |ms| - 1;
      RoutePutsEach(ms[..n], thread);
      PutAllSnoc(Belonging(ms[..n], thread), ms[n]);
      assert Belonging(ms[..n], thread) + [] == Belonging(ms[..n], thread);
    }
  }

  lemma PutAllEmpty()
    ensures PutAll([]) == []
  {
  }

  // Routing splits the messages into the main timeline and one bucket for each thread that has
  // messages; each bucket is free of duplicates and loses no id.
  lemma RouteDeduplicates(ms: seq<Message>, thread: Option<string>)
    ensures Deduplicates(BucketOf(Route(ms), thread), Belonging(ms, thread))
    ensures thread.Some? ==> (thread.value in Route(ms).threads.at <==> Belonging(ms, thread) != [])
  {
    RoutePutsEach(ms, thread);
    PutAllDeduplicates(Belonging(ms, thread));
  }

  lemma RouteLosesNoId(ms: seq<Message>, m: Message)
    requires m in ms
    ensures HoldsId(BucketOf(Route(ms), Truthy(m.content.threadId)), m.id)
  {
    hide Route, FirstSeen, IsLastWithId, PutAll, HoldsId, Belonging, BucketOf;
    RouteDeduplicates(ms, Truthy(m.content.threadId));
    BelongsToItsThread(ms, m);
  }

  lemma {:induction false} BelongsToItsThread(ms: seq<Message>, m: Message)
    requires m in ms
    ensures m in Belonging(ms, Truthy(m.content.threadId))
  {
    var n := |ms| - 1;
    if m != ms[n] {
      BelongsToItsThread(ms[..n], m);
    }
  }

  // The messages of the collected events that survive; a failure if some event makes the code throw.
  function Readable(es: seq<Event>): Result<seq<Message>> {
    if es == [] then Success([])
    else
      var before := Readable(es[..|es| - 1]);
      var last := MessageOf(es[|es| - 1]);
      if before.Failure? || last.Failure? then Failure
      else if last.value.None? || Unsupported(last.value.value) then before
      else Success(before.value + [last.value.value])
  }

  // The events that make the code throw: one without content that was not redacted, and a membership or a
  // poll that lacks something.
  ghost predicate Throws(e: Event) {
    && e.id.Some? && e.id.value != ""
    && ((e.content.None? && !e.redacted)
        || exists c :: e.content == Some(c) && !c.complete && e.etype in {RoomMember, PollStart})
  }

  // The events that are left out: one without id, and a message without a type that is no edit.
  ghost predicate LeftOut(e: Event) {
    || e.id == None || e.id == Some("")
    || (e.etype.RoomMessage? && exists c ::
          && e.content == Some(c) && c.msgtype in {None, Some("unknown")}
          && (c.relatesTo.None? || c.relatesTo.value.relType != Some("m.replace")))
  }

  // The ids of the other events.
  ghost function IdsRead(es: seq<Event>): seq<Option<string>> {
    if es == [] then []
    else IdsRead(es[..|es| - 1]) + if LeftOut(es[|es| - 1]) then [] else [es[|es| - 1].id]
  }

  // Reading fails exactly when some event makes the code throw, and otherwise makes one message of each event
  // that is not left out.
  lemma {:induction false} ReadableExactly(es: seq<Event>)
    ensures Readable(es).Failure? <==> exists e :: e in es && Throws(e)
    ensures Readable(es).Success? ==>
              IdsRead(es) == seq(|Readable(es).value|, i requires 0 <= i < |Readable(es).value| =>
                                   Some(Readable(es).value[i].id))
  {
    if es != [] {
      hide Throws, LeftOut, MessageOf, Unsupported;
      var n := |es| - 1;
      ReadableExactly(es[..n]);
      ReadsExactly(es[n]);
      assert forall e :: e in es <==> e in es[..n] || e == es[n];
    }
  }

  lemma ReadsExactly(e: Event)
    ensures MessageOf(e).Failure? <==> Throws(e)
    ensures MessageOf(e).Success? ==>
              (MessageOf(e).value.None? || Unsupported(MessageOf(e).value.value) <==> LeftOut(e))
    ensures MessageOf(e).Success? && MessageOf(e).value.Some? ==> e.id == Some(MessageOf(e).value.value.id)
  {
  }

  // No message is in a thread with an inherited name: there the code finds the inherited value in place
  // of a bucket, and throws when it looks for the message in it.
  predicate Routable(ms: seq<Message>) {
    ms == [] || (Routable(ms[..|ms| - 1]) && !Misrouted(ms[|ms| - 1]))
  }

  predicate Misrouted(m: Message) {
    Truthy(m.content.threadId).Some? && Inherited(Truthy(m.content.threadId).value)
  }

  lemma {:induction false} RoutableExactly(ms: seq<Message>)
    ensures Routable(ms) <==> forall m :: m in ms ==> !Misrouted(m)
  {
    if ms != [] {
      RoutableExactly(ms[..|ms| - 1]);
      assert forall m :: m in ms <==> m in ms[..|ms| - 1] || m == ms[|ms| - 1];
    }
  }

  predicate Unsupported(m: Message) {
    m.content.ctype == Some("unknown") && !m.content.isEdited
  }

  // The second half of `listMessages`.
  method SeparateMessages(messageEvents: seq<Event>) returns (r: Result<Routed>)
    ensures var ms := Readable(messageEvents);
            if ms.Success? && Routable(ms.value) then r == Success(Route(ms.value)) else r.Failure?
  {
    hide MessageOf, Inherited;
    var mainMessages: seq<Message> := [];
    var threads: JsMap<string, seq<Message>> := JsMap([], map[]);
    for i := 0 to |messageEvents|
      invariant var ms := Readable(messageEvents[..i]);
                ms.Success? && Routable(ms.value) && Routed(mainMessages, threads) == Route(ms.value)
    {
      assert messageEvents[..i + 1][..i] == messageEvents[..i];
      var message := MessageOf(messageEvents[i]);
      if message.Failure? {
        ReadableFails(messageEvents, i);
        return Failure;
      }
      if message.value.None? || Unsupported(message.value.value) {
        continue;
      }
      var m := message.value.value;
      ghost var before := Readable(messageEvents[..i]).value;
      assert (before + [m])[..|before|] == before;
      var threadId := Truthy(m.content.threadId);
      if threadId.Some? {
        if Inherited(threadId.value) {
          MisroutedFails(messageEvents, i);
          return Failure;
        }
        var threadMessages := if threads.Has(threadId.value) then threads.at[threadId.value] else [];
        var existingIndex := FindIndex(threadMessages, m.id);
        if existingIndex.None? {
          threadMessages := threadMessages + [m];
        } else {
          threadMessages := threadMessages[existingIndex.value := m];
        }
        threads := threads.Set(threadId.value, threadMessages);
      } else {
        var existingIndex := FindIndex(mainMessages, m.id);
        if existingIndex.None? {
          mainMessages := mainMessages + [m];
        } else {
          mainMessages := mainMessages[existingIndex.value := m];
        }
      }
    }
    assert messageEvents[..|messageEvents|] == messageEvents;
    r := Success(Routed(mainMessages, threads));
  }

  lemma {:induction false} ReadableFails(es: seq<Event>, i: nat)
    requires i < |es| && MessageOf(es[i]).Failure?
    ensures Readable(es).Failure?
    decreases |es|
  {
    if i < |es| - 1 {
      ReadableFails(es[..|es| - 1], i);
    }
  }

  // A message that cannot be routed makes the whole call fail, whatever else is collected.
  lemma {:induction false} MisroutedFails(es: seq<Event>, i: nat)
    requires i < |es|
    requires var m := MessageOf(es[i]);
             m.Success? && m.value.Some? && !Unsupported(m.value.value) && Misrouted(m.value.value)
    ensures var ms := Readable(es); ms.Success? ==> !Routable(ms.value)
    decreases |es|
  {
    hide MessageOf, Inherited;
    var n := |es| - 1;
    if i < n {
      MisroutedFails(es[..n], i);
    }
    var before := Readable(es[..n]);
    if before.Success? && Readable(es).Success? && Readable(es) != before {
      var last := MessageOf(es[n]).value.value;
      assert Readable(es).value == before.value + [last];
      assert (before.value + [last])[..|before.value|] == before.value;
    }
  }

  // ---------- replacements ----------

  // The messages of the replacement events of one message: redacted ones dropped, the first of each
  // id kept; a failure if some event makes the code throw.
  function Replacements(relations: seq<Event>): Result<seq<Message>> {
    if relations == [] then Success([])
    else
      var e := relations[|relations| - 1];
      var before := Replacements(relations[..|relations| - 1]);
      if e.redacted then before
      else if before.Failure? || MessageOf(e).Failure? then Failure
      else
        var m := MessageOf(e).value;
        if m.None? || FindIndex(before.value, m.value.id).Some? then before
        else Success(before.value + [m.value])
  }

  lemma SeenAppend(ms: seq<Message>, m: Message, id: string)
    ensures FindIndex(ms + [m], id).Some? <==> FindIndex(ms, id).Some? || m.id == id
  {
    assert (ms + [m])[..|ms|] == ms;
  }

  // `getReplacements`, which keeps the ids it has seen in a set.
  method GetReplacements(relations: seq<Event>) returns (r: Result<seq<Message>>)
    ensures r == Replacements(relations)
  {
    hide MessageOf, FindIndex;
    var kept: seq<Message> := [];
    var seen: set<string> := {};
    assert forall id :: FindIndex([], id).None? by {
      SeenNothing();
    }
    for i := 0 to |relations|
      invariant Replacements(relations[..i]) == Success(kept)
      invariant forall id :: id in seen <==> FindIndex(kept, id).Some?
    {
      assert relations[..i + 1][..i] == relations[..i];
      var e := relations[i];
      if e.redacted {
        continue;
      }
      var m := MessageOf(e);
      if m.Failure? {
        ReplacementsFail(relations, i);
        return Failure;
      }
      if m.value.Some? && m.value.value.id !in seen {
        var x := m.value.value;
        forall id
          ensures FindIndex(kept + [x], id).Some? <==> id in seen + {x.id}
        {
          SeenAppend(kept, x, id);
        }
        seen := seen + {x.id};
        kept := kept + [x];
      }
    }
    assert relations[..|relations|] == relations;
    r := Success(kept);
  }

  lemma SeenNothing()
    ensures forall id :: FindIndex([], id).None?
  {
  }

  lemma {:induction false} ReplacementsFail(es: seq<Event>, i: nat)
    requires i < |es| && !es[i].redacted && MessageOf(es[i]).Failure?
    ensures Replacements(es).Failure?
    decreases |es|
  {
    if i < |es| - 1 {
      ReplacementsFail(es[..|es| - 1], i);
    }
  }

  // ---------- the list ----------

  // The edits of each message, as `getReplacements` finds them.
  type Edits = string -> seq<Message>

  function ApplyAll(ms: seq<Message>, edits: Edits): seq<Message> {
    if ms == [] then [] else ApplyAll(ms[..|ms| - 1], edits) + [ApplyEdits(ms[|ms| - 1], edits(ms[|ms| - 1].id))]
  }

  function Buckets(keys: seq<string>, at: map<string, seq<Message>>): seq<Message> {
    if keys == [] then []
    else Buckets(keys[..|keys| - 1], at) + if keys[|keys| - 1] in at then at[keys[|keys| - 1]] else []
  }

  function Flat(r: Routed): seq<Message> {
    r.main + Buckets(r.threads.keys, r.threads.at)
  }

  // What `list` returns for the routed messages of one call.
  function Listed(r: Routed, edits: Edits): seq<Message> {
    SortByTime(ApplyAll(Flat(r), edits))
  }

  lemma {:induction false} ApplyAllConcat(a: seq<Message>, b: seq<Message>, edits: Edits)
    ensures ApplyAll(a + b, edits) == ApplyAll(a, edits) + ApplyAll(b, edits)
  {
    if b == [] {
      assert a + b == a;
    } else {
      var n := |b| - 1;
      assert (a + b)[..|a + b| - 1] == a + b[..n];
      ApplyAllConcat(a, b[..n], edits);
    }
  }

  // The replacement events of each message, as the relations of the room hold them.
  type Relations = string -> seq<Event>

  // The edits that `getReplacements` makes of them.
  function EditsBy(relations: Relations): Edits {
    id => match Replacements(relations(id)) case Success(es) => es case Failure => []
  }

  lemma EditsFound(relations: Relations, id: string)
    requires Replacements(relations(id)).Success?
    ensures EditsBy(relations)(id) == Replacements(relations(id)).value
  {
  }

  // `processMessage`, which fails when the replacements of the message cannot be read.
  method ProcessMessage(m: Message, relations: Relations) returns (r: Result<Message>)
    ensures r.Failure? <==> Replacements(relations(m.id)).Failure?
    ensures r.Success? ==> r.value == ApplyEdits(m, EditsBy(relations)(m.id))
  {
    hide Replacements, LastSorted;
    var message := m;
    var edits := GetReplacements(relations(message.id));
    if edits.Failure? {
      return Failure;
    }
    EditsFound(relations, m.id);
    if edits.value != [] {
      var latestEdit := LastSorted(edits.value);
      var existingThreadId := Truthy(message.content.threadId);
      if IsMedia(message.content.ctype) {
        message := message.(content := message.content.(caption := latestEdit.content.text));
      } else {
        message := message.(content := latestEdit.content);
      }
      message := message.(content := message.content.(isEdited := true));
      if existingThreadId.Some? {
        message := message.(content := message.content.(threadId := existingThreadId));
      }
    }
    r := Success(message);
  }

  // `processMessage` on each message of a bucket.
  method ProcessMessages(ms: seq<Message>, relations: Relations) returns (r: Result<seq<Message>>)
    ensures r.Failure? <==> exists m :: m in ms && Replacements(relations(m.id)).Failure?
    ensures r.Success? ==> r.value == ApplyAll(ms, EditsBy(relations))
  {
    hide Replacements, ApplyEdits, EditsBy;
    var processed := [];
    for i := 0 to |ms|
      invariant processed == ApplyAll(ms[..i], EditsBy(relations))
      invariant forall k :: 0 <= k < i ==> Replacements(relations(ms[k].id)).Success?
    {
      var message := ProcessMessage(ms[i], relations);
      if message.Failure? {
        return Failure;
      }
      assert ms[..i + 1][..i] == ms[..i];
      processed := processed + [message.value];
    }
    assert ms[..|ms|] == ms;
    r := Success(processed);
  }

  // The threads of a list, processed and flattened.
  method ProcessThreads(threads: JsMap<string, seq<Message>>, relations: Relations) returns (r: Result<seq<Message>>)
    requires threads.Valid()
    ensures r.Failure? <==> exists m :: m in Buckets(threads.keys, threads.at) && Replacements(relations(m.id)).Failure?
    ensures r.Success? ==> r.value == ApplyAll(Buckets(threads.keys, threads.at), EditsBy(relations))
  {
    hide Replacements, ApplyEdits, EditsBy;
    var flat: seq<Message> := [];
    for i := 0 to |threads.keys|
      invariant flat == ApplyAll(Buckets(threads.keys[..i], threads.at), EditsBy(relations))
      invariant forall m :: m in Buckets(threads.keys[..i], threads.at) ==> Replacements(relations(m.id)).Success?
    {
      var t := threads.keys[i];
      assert t in threads.keys;
      assert threads.keys[..i + 1][..i] == threads.keys[..i];
      var processed := ProcessMessages(threads.at[t], relations);
      if processed.Failure? {
        ghost var m :| m in threads.at[t] && Replacements(relations(m.id)).Failure?;
        InSomeBucket(threads.keys, threads.at, t, m);
        return Failure;
      }
      ApplyAllConcat(Buckets(threads.keys[..i], threads.at), threads.at[t], EditsBy(relations));
      flat := flat + processed.value;
    }
    assert threads.keys[..|threads.keys|] == threads.keys;
    r := Success(flat);
  }

  // `list` after `listMessages` has returned.
  method List(listed: Routed, relations: Relations) returns (r: Result<seq<Message>>)
    requires listed.threads.Valid()
    ensures r.Failure? <==> exists m :: m in Flat(listed) && Replacements(relations(m.id)).Failure?
    ensures r.Success? ==> r.value == Listed(listed, EditsBy(relations))
  {
    hide Replacements, ApplyAll, EditsBy, SortByTime, Buckets;
    var processedMain := ProcessMessages(listed.main, relations);
    if processedMain.Failure? {
      return Failure;
    }
    var processedThreads := ProcessThreads(listed.threads, relations);
    if processedThreads.Failure? {
      return Failure;
    }
    ApplyAllConcat(listed.main, Buckets(listed.threads.keys, listed.threads.at), EditsBy(relations));
    r := Success(SortByTime(processedMain.value + processedThreads.value));
  }

  lemma {:induction false} InSomeBucket(keys: seq<string>, at: map<string, seq<Message>>, t: string, m: Message)
    requires t in keys && t in at && m in at[t]
    ensures m in Buckets(keys, at)
  {
    var n := |keys| - 1;
    if keys[n] != t {
      InSomeBucket(keys[..n], at, t, m);
    }
  }
}
