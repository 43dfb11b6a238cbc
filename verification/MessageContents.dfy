// Turning room events into messages, and applying the latest edit to a message.
module MessageContents {
  import opened Options
  import opened TimelinePages

  // The content of a message; `ctype` is None for contents without a type.
  datatype MessageContent = MessageContent(
    ctype: Option<string>,
    isEdited: bool,
    threadId: Option<string>,
    repliedTo: Option<string>,
    text: Option<string>,
    caption: Option<string>)

  datatype Message = Message(id: string, sender: string, ts: int, content: MessageContent)

  const POLL_START := "org.matrix.msc3381.poll.start"

  // An empty string counts as no id.
  function Truthy(s: Option<string>): Option<string> {
    if s == Some("") then None else s
  }

  function ThreadOf(r: Option<Relation>): Option<string> {
    if r.Some? && r.value.relType == Some("m.thread") then Truthy(r.value.eventId) else None
  }

  function ReplyOf(r: Option<Relation>): Option<string> {
    if r.Some? then Truthy(r.value.inReplyTo) else None
  }

  predicate IsMedia(ctype: Option<string>) {
    ctype == Some("m.audio") || ctype == Some("m.file") || ctype == Some("m.image") || ctype == Some("m.video")
  }

  // `messageContentFromMessageEvent`: an edit is read from its new content, and so are the thread
  // and the reply it belongs to.
  function ContentOf(c: Content): MessageContent {
    var edited := c.relatesTo.Some? && c.relatesTo.value.relType == Some("m.replace");
    var source := if edited then c.newContent else Some(c);
    var relation := if source.Some? then source.value.relatesTo else None;
    var msgtype := if source.Some? then source.value.msgtype else None;
    MessageContent(
      Some(msgtype.GetOr("unknown")),
      edited,
      ThreadOf(relation),
      ReplyOf(relation),
      if msgtype == Some("m.text") then source.value.body else None,
      if msgtype == Some("m.audio") then source.value.caption
      else if IsMedia(msgtype) then source.value.body
      else None)
  }

  // `fromMatrixToEntity`: an event without id gives no message. The code throws for one without content
  // that is not redacted, and for a membership or a poll that is not complete. Events other than messages
  // keep their thread and reply, and a poll its type.
  function MessageOf(e: Event): Result<Option<Message>> {
    if e.id.None? || e.id.value == "" then Success(None)
    else if e.content.None? then
      if e.redacted
      then Success(Some(Message(e.id.value, e.sender, e.ts, MessageContent(None, false, None, None, None, None))))
      else Failure
    else
      var c := e.content.value;
      if (e.etype.RoomMember? || e.etype.PollStart?) && !c.complete then Failure
      else Success(Some(Message(e.id.value, e.sender, e.ts,
        if e.etype.RoomMessage? then ContentOf(c)
        else MessageContent(if e.etype.PollStart? then Some(POLL_START) else None,
                            false, ThreadOf(c.relatesTo), ReplyOf(c.relatesTo), None, None))))
  }

  // ---------- sorting by timestamp ----------

  ghost predicate Sorted(ms: seq<Message>) {
    forall i, j :: 0 <= i < j < |ms| ==> ms[i].ts <= ms[j].ts
  }

  function Insert(ms: seq<Message>, m: Message): seq<Message> {
    if ms == [] || ms[|ms| - 1].ts <= m.ts then ms + [m]
    else Insert(ms[..|ms| - 1], m) + [ms[|ms| - 1]]
  }

  // `sort((a, b) => a.timestamp - b.timestamp)`, which is stable.
  function SortByTime(ms: seq<Message>): seq<Message> {
    if ms == [] then [] else Insert(SortByTime(ms[..|ms| - 1]), ms[|ms| - 1])
  }

  lemma {:induction false} InsertBag(ms: seq<Message>, m: Message)
    ensures multiset(Insert(ms, m)) == multiset(ms) + multiset{m}
  {
    if !(ms == [] || ms[|ms| - 1].ts <= m.ts) {
      InsertBag(ms[..|ms| - 1], m);
      assert ms == ms[..|ms| - 1] + [ms[|ms| - 1]];
    }
  }

  lemma {:induction false} InsertSorted(ms: seq<Message>, m: Message)
    requires Sorted(ms)
    ensures Sorted(Insert(ms, m))
  {
    if !(ms == [] || ms[|ms| - 1].ts <= m.ts) {
      var n := |ms| - 1;
      var before := Insert(ms[..n], m);
      assert Insert(ms, m) == before + [ms[n]];
      InsertSorted(ms[..n], m);
      InsertBag(ms[..n], m);
      hide Insert;
      forall i | 0 <= i < |before|
        ensures before[i].ts <= ms[n].ts
      {
        assert before[i] in multiset(before);
      }
    }
  }

  lemma {:induction false} SortSorts(ms: seq<Message>)
    ensures Sorted(SortByTime(ms)) && multiset(SortByTime(ms)) == multiset(ms)
  {
    if ms != [] {
      var n := |ms| - 1;
      SortSorts(ms[..n]);
      InsertSorted(SortByTime(ms[..n]), ms[n]);
      InsertBag(SortByTime(ms[..n]), ms[n]);
      assert ms == ms[..n] + [ms[n]];
    }
  }

  // The messages of one instant, in order.
  function At(ms: seq<Message>, ts: int): seq<Message> {
    if ms == [] then [] else At(ms[..|ms| - 1], ts) + if ms[|ms| - 1].ts == ts then [ms[|ms| - 1]] else []
  }

  lemma AtAppend(ms: seq<Message>, m: Message, ts: int)
    ensures At(ms + [m], ts) == At(ms, ts) + if m.ts == ts then [m] else []
  {
    assert (ms + [m])[..|ms|] == ms;
  }

  lemma {:induction false} InsertKeepsOrder(ms: seq<Message>, m: Message, ts: int)
    requires Sorted(ms)
    ensures At(Insert(ms, m), ts) == At(ms + [m], ts)
  {
    hide At;
    if !(ms == [] || ms[|ms| - 1].ts <= m.ts) {
      var (before, last) := (ms[..|ms| - 1], ms[|ms| - 1]);
      var r := Insert(before, m);
      assert Insert(ms, m) == r + [last] && ms == before + [last];
      hide Insert;
      InsertKeepsOrder(before, m, ts);
      AtAppend(r, last, ts);
      AtAppend(before, m, ts);
      AtAppend(before, last, ts);
      AtAppend(ms, m, ts);
    }
  }

  // Messages of the same instant keep their order.
  lemma {:induction false} SortIsStable(ms: seq<Message>, ts: int)
    ensures At(SortByTime(ms), ts) == At(ms, ts)
  {
    if ms != [] {
      var n := |ms| - 1;
      var r := SortByTime(ms[..n]);
      SortIsStable(ms[..n], ts);
      SortSorts(ms[..n]);
      InsertKeepsOrder(r, ms[n], ts);
      AtAppend(r, ms[n], ts);
    }
  }

  // ---------- edits ----------

  // The latest edit: none is later, and none of the same instant comes after it.
  ghost predicate IsLatest(edits: seq<Message>, k: nat) {
    k < |edits| &&
    (forall i :: 0 <= i < k ==> edits[i].ts <= edits[k].ts) &&
    (forall i :: k < i < |edits| ==> edits[i].ts < edits[k].ts)
  }

  // `edits.sort(...).at(-1)`
  function LastSorted(edits: seq<Message>): Message
    requires edits != []
  {
    SortSorts(edits);
    assert |multiset(SortByTime(edits))| == |multiset(edits)|;
    SortByTime(edits)[|SortByTime(edits)| - 1]
  }

  lemma InsertLast(ms: seq<Message>, m: Message)
    requires Sorted(ms)
    ensures |Insert(ms, m)| == |ms| + 1
    ensures Insert(ms, m)[|ms|] == if ms == [] || ms[|ms| - 1].ts <= m.ts then m else ms[|ms| - 1]
  {
    InsertBag(ms, m);
    assert |multiset(Insert(ms, m))| == |ms| + 1;
  }

  lemma LastSortedStep(edits: seq<Message>, m: Message)
    ensures LastSorted(edits + [m]) == if edits == [] || LastSorted(edits).ts <= m.ts then m else LastSorted(edits)
  {
    assert (edits + [m])[..|edits|] == edits;
    SortSorts(edits);
    assert |multiset(SortByTime(edits))| == |multiset(edits)|;
    InsertLast(SortByTime(edits), m);
  }

  lemma {:induction false} LastSortedIsLatest(edits: seq<Message>) returns (k: nat)
    requires edits != []
    ensures IsLatest(edits, k) && LastSorted(edits) == edits[k]
  {
    hide LastSorted;
    var n := |edits| - 1;
    var before := edits[..n];
    assert edits == before + [edits[n]];
    LastSortedStep(before, edits[n]);
    if before == [] {
      k := 0;
    } else {
      var j := LastSortedIsLatest(before);
      k := if before[j].ts <= edits[n].ts then n else j;
    }
  }

  lemma LatestIsUnique(edits: seq<Message>, j: nat, k: nat)
    requires IsLatest(edits, j) && k < |edits| && k != j
    ensures !IsLatest(edits, k)
  {
    if j < k {
      assert edits[k].ts < edits[j].ts;
    } else {
      assert edits[k].ts <= edits[j].ts;
    }
  }

  // How `list` applies the edits of a message: media keep their content and get a new caption, any
  // other message gets the content of the edit; the thread of the original is kept.
  function ApplyEdits(m: Message, edits: seq<Message>): Message {
    if edits == [] then m
    else
      var latest := LastSorted(edits).content;
      var content := if IsMedia(m.content.ctype) then m.content.(caption := latest.text) else latest;
      m.(content := content.(isEdited := true,
                             threadId := if Truthy(m.content.threadId).Some? then m.content.threadId
                                         else content.threadId))
  }

  // How `get` applies them: the thread is not kept.
  function ApplyEditsInGet(m: Message, edits: seq<Message>): Message {
    if edits == [] then m
    else
      var latest := LastSorted(edits).content;
      var content := if IsMedia(m.content.ctype) then m.content.(caption := latest.text) else latest;
      m.(content := content.(isEdited := true))
  }

  // `get` agrees with `list` exactly when there is no edit, the message is a media message, it is in
  // no thread, or the latest edit names the same thread.
  lemma GetAgreesWithList(m: Message, edits: seq<Message>)
    requires Truthy(m.content.threadId) == m.content.threadId
    ensures ApplyEditsInGet(m, edits) == ApplyEdits(m, edits) <==>
            edits == [] || IsMedia(m.content.ctype) || m.content.threadId.None? ||
            LastSorted(edits).content.threadId == m.content.threadId
  {
  }

  // How the reader of pinned messages applies them: it looks at neither the kind of the message nor its
  // thread.
  function ApplyEditsInPinned(m: Message, edits: seq<Message>): Message {
    if edits == [] then m else m.(content := LastSorted(edits).content.(isEdited := true))
  }

  // Edited by texts, as the code edits, a message is shown among the pinned ones as `get` shows it exactly
  // when it was not edited or is no media message.
  lemma PinnedAgreesWithGet(m: Message, edits: seq<Message>)
    requires edits != [] ==> LastSorted(edits).content.ctype == Some("m.text")
    ensures ApplyEditsInPinned(m, edits) == ApplyEditsInGet(m, edits) <==> edits == [] || !IsMedia(m.content.ctype)
  {
  }
}
