// Listing a room whose history holds what this code lists: text and media messages, polls and encrypted
// events, plain, in threads and as replies, memberships, edits of texts and captions, and redactions. The
// list is the history with the edits applied.
module TimelineHistory {
  import opened Options
  import opened JsCollections
  import opened TimelinePages
  import opened MessageContents
  import opened Timeline

  // ---------- histories ----------

  datatype Kind = Text | Audio | File | Image | Video

  // A message can be a reply within a thread, and can refer to another message without answering it.
  datatype Place =
    | Main
    | InThread(root: string)
    | ReplyTo(target: string)
    | ReplyInThread(root: string, target: string)
    | RefersTo(target: string)

  // What was sent. The text of a media message is its caption, empty when it was given none. A text and a
  // caption are edited alike; the body of an edit is for readers that know no edits.
  datatype Op =
    | Send(kind: Kind, place: Place, text: string)
    | Poll(place: Place)
    | Membership
    | Encrypted(place: Place)
    | Edit(target: string, text: string, body: string)
    | Redact(target: string)

  // One sent event. A history is a sequence of them, oldest first.
  datatype Entry = Entry(id: string, sender: string, ts: int, op: Op)

  ghost predicate History(h: seq<Entry>) {
    (forall i :: 0 <= i < |h| ==> h[i].id != "") &&
    (forall i, j :: 0 <= i < j < |h| ==> h[i].id != h[j].id)
  }

  function MsgType(k: Kind): string {
    match k
    case Text => "m.text"
    case Audio => "m.audio"
    case File => "m.file"
    case Image => "m.image"
    case Video => "m.video"
  }

  function RelationTo(p: Place): Option<Relation> {
    match p
    case Main => None
    case InThread(root) => Some(Relation(Some("m.thread"), Some(root), None))
    case ReplyTo(target) => Some(Relation(None, None, Some(target)))
    case ReplyInThread(root, target) => Some(Relation(Some("m.thread"), Some(root), Some(target)))
    case RefersTo(target) => Some(Relation(Some("m.reference"), Some(target), None))
  }

  // The content `sendMessage`, `sendThread`, `sendReply` and `sendMedia` send, and that of an edit;
  // mentions and the details of media aside. A caption is sent as the body.
  function ContentSent(op: Op): Option<Content> {
    match op
    case Send(kind, place, text) =>
      Some(Content(Some(MsgType(kind)), Some(text), None, RelationTo(place), None, false))
    case Poll(place) => Some(Content(None, None, None, RelationTo(place), None, true))
    case Membership => Some(Content(None, None, None, None, None, true))
    case Encrypted(place) => Some(Content(None, None, None, RelationTo(place), None, false))
    case Edit(target, text, body) =>
      Some(Content(Some("m.text"), Some(body), None, Some(Relation(Some("m.replace"), Some(target), None)),
                   Some(Content(Some("m.text"), Some(text), None, None, None, false)), false))
    case Redact(_) => None
  }

  function TypeOf(op: Op): EventType {
    match op
    case Send(_, _, _) => RoomMessage
    case Edit(_, _, _) => RoomMessage
    case Poll(_) => PollStart
    case Membership => RoomMember
    case Encrypted(_) => RoomMessageEncrypted
    case Redact(_) => OtherType
  }

  predicate Deleted(h: seq<Entry>, id: string) {
    exists i :: 0 <= i < |h| && h[i].op.Redact? && h[i].op.target == id
  }

  // The server has taken the content away, which it does to all but memberships.
  predicate Emptied(h: seq<Entry>, e: Entry) {
    Deleted(h, e.id) && !e.op.Membership?
  }

  function EventOf(h: seq<Entry>, e: Entry): Event {
    Event(Some(e.id), e.sender, e.ts, TypeOf(e.op), if Emptied(h, e) then None else ContentSent(e.op), Deleted(h, e.id))
  }

  function Events(h: seq<Entry>, es: seq<Entry>): seq<Event> {
    seq(|es|, k requires 0 <= k < |es| => EventOf(h, es[k]))
  }

  // The history as the server serves it, newest first.
  function Served(h: seq<Entry>): seq<Entry> {
    seq(|h|, k requires 0 <= k < |h| => h[|h| - 1 - k])
  }

  // The server's log holds the history, and it gives the client all of it.
  ghost predicate Serves(server: Server, h: seq<Entry>) {
    server.Valid() && Given(server.log) == Events(h, Served(h))
  }

  // The replacement events of a message among some entries, in their order.
  function RelationsOf(h: seq<Entry>, es: seq<Entry>, id: string): seq<Event> {
    if es == [] then []
    else
      var e := es[|es| - 1];
      RelationsOf(h, es[..|es| - 1], id) + if e.op.Edit? && e.op.target == id then [EventOf(h, e)] else []
  }

  // An edit of the message that was not redacted.
  predicate IsEditOf(h: seq<Entry>, e: Entry, id: string) {
    e.op.Edit? && e.op.target == id && !Deleted(h, e.id)
  }

  // ---------- what the list has to show ----------

  function PlaceOf(op: Op): Place {
    match op
    case Send(_, place, _) => place
    case Poll(place) => place
    case Encrypted(place) => place
    case _ => Main
  }

  // The thread of an entry; an empty id is none.
  function ThreadOfOp(op: Op): Option<string> {
    match PlaceOf(op)
    case InThread(root) => if root == "" then None else Some(root)
    case ReplyInThread(root, _) => if root == "" then None else Some(root)
    case _ => None
  }

  function ReplyOfOp(op: Op): Option<string> {
    match PlaceOf(op)
    case ReplyTo(target) => if target == "" then None else Some(target)
    case ReplyInThread(_, target) => if target == "" then None else Some(target)
    case _ => None
  }

  ghost predicate Edited(h: seq<Entry>, es: seq<Entry>, id: string) {
    exists i :: 0 <= i < |es| && IsEditOf(h, es[i], id)
  }

  // Entry `j` is the latest edit of the message, the last one of its instant.
  ghost predicate IsLatestEdit(h: seq<Entry>, es: seq<Entry>, id: string, j: nat) {
    j < |es| && IsEditOf(h, es[j], id) &&
    forall i :: 0 <= i < |es| && IsEditOf(h, es[i], id) ==> es[i].ts < es[j].ts || (es[i].ts == es[j].ts && i <= j)
  }

  ghost predicate LatestText(h: seq<Entry>, id: string, text: Option<string>) {
    exists j: nat :: IsLatestEdit(h, h, id, j) && text == Some(h[j].op.text)
  }

  // The entries that make messages of their own: all but redactions and the edits that were not redacted.
  // A redacted edit, without its content, is no edit any more.
  predicate Appears(h: seq<Entry>, e: Entry) {
    !e.op.Redact? && (e.op.Edit? ==> Deleted(h, e.id))
  }

  // The thread an entry is shown in: without its content a message has lost its thread.
  function ThreadShown(h: seq<Entry>, e: Entry): Option<string> {
    if Emptied(h, e) then None else ThreadOfOp(e.op)
  }

  // The message shows the original, in its own thread unless it was redacted.
  ghost predicate Shows(h: seq<Entry>, o: Entry, m: Message)
    requires Appears(h, o)
  {
    && m.id == o.id && m.sender == o.sender && m.ts == o.ts
    && m.content.threadId == ThreadShown(h, o)
    && (m.content.isEdited <==> Edited(h, h, o.id))
    && if Emptied(h, o) then ShowsDeleted(h, o, m)
       else if !o.op.Send? then ShowsOther(h, o, m)
       else if o.op.kind.Text? then ShowsText(h, o, m)
       else ShowsMedia(h, o, m)
  }

  // A poll shows its type, a membership and an encrypted event none. An edit puts its text in place of any.
  ghost predicate ShowsOther(h: seq<Entry>, o: Entry, m: Message) {
    && m.content.caption == None
    && (!Edited(h, h, o.id) ==>
          && m.content.ctype == (if o.op.Poll? then Some("org.matrix.msc3381.poll.start") else None)
          && m.content.text == None && m.content.repliedTo == ReplyOfOp(o.op))
    && (Edited(h, h, o.id) ==>
          m.content.ctype == Some("m.text") && m.content.repliedTo == None && LatestText(h, o.id, m.content.text))
  }

  // A redacted message shows nothing, but the text of its latest edit if some edit was not redacted.
  ghost predicate ShowsDeleted(h: seq<Entry>, o: Entry, m: Message) {
    && m.content.caption == None && m.content.repliedTo == None
    && (!Edited(h, h, o.id) ==> m.content.ctype == None && m.content.text == None)
    && (Edited(h, h, o.id) ==> m.content.ctype == Some("m.text") && LatestText(h, o.id, m.content.text))
  }

  // A text shows the text of its latest edit, and what it replies to only if it was not edited.
  ghost predicate ShowsText(h: seq<Entry>, o: Entry, m: Message)
    requires o.op.Send?
  {
    && m.content.ctype == Some("m.text") && m.content.caption == None
    && (!Edited(h, h, o.id) ==> m.content.text == Some(o.op.text) && m.content.repliedTo == ReplyOfOp(o.op))
    && (Edited(h, h, o.id) ==> m.content.repliedTo == None && LatestText(h, o.id, m.content.text))
  }

  // A media message stays what it is and shows the caption of its latest edit. Without an edit it shows
  // the caption it was sent with, unless it is audio: that caption is looked for where it was not put.
  ghost predicate ShowsMedia(h: seq<Entry>, o: Entry, m: Message)
    requires o.op.Send?
  {
    && m.content.ctype == Some(MsgType(o.op.kind)) && m.content.text == None
    && m.content.repliedTo == ReplyOfOp(o.op)
    && (!Edited(h, h, o.id) ==> m.content.caption == if o.op.kind.Audio? then None else Some(o.op.text))
    && (Edited(h, h, o.id) ==> LatestText(h, o.id, m.content.caption))
  }

  function Originals(h: seq<Entry>, es: seq<Entry>): seq<Entry> {
    if es == [] then [] else (if Appears(h, es[0]) then [es[0]] else []) + Originals(h, es[1..])
  }

  // ---------- reading events back ----------

  const NoContent := MessageContent(None, false, None, None, None, None)

  // The message an entry is read as.
  function Base(h: seq<Entry>, e: Entry): Message {
    Message(e.id, e.sender, e.ts,
      if Emptied(h, e) then NoContent
      else
        match e.op
        case Send(kind, _, text) =>
          MessageContent(Some(MsgType(kind)), false, ThreadOfOp(e.op), ReplyOfOp(e.op),
            if kind.Text? then Some(text) else None,
            if kind.Text? || kind.Audio? then None else Some(text))
        case Poll(_) =>
          MessageContent(Some(POLL_START), false, ThreadOfOp(e.op), ReplyOfOp(e.op), None, None)
        case Membership => NoContent
        case Encrypted(_) => MessageContent(None, false, ThreadOfOp(e.op), ReplyOfOp(e.op), None, None)
        case Edit(_, text, _) => MessageContent(Some("m.text"), true, None, None, Some(text), None)
        case Redact(_) => NoContent)
  }

  lemma ReadsBack(h: seq<Entry>, e: Entry)
    requires e.id != ""
    ensures !e.op.Redact? ==> MessageOf(EventOf(h, e)) == Success(Some(Base(h, e))) && !Unsupported(Base(h, e))
    ensures Keeps(EventOf(h, e)) <==> Appears(h, e)
  {
    hide Deleted;
  }

  lemma EventsSlice(h: seq<Entry>, es: seq<Entry>, i: nat, j: nat)
    requires i <= j <= |es|
    ensures Events(h, es)[i..j] == Events(h, es[i..j])
  {
  }

  lemma {:induction false} KeptEvents(h: seq<Entry>, es: seq<Entry>)
    requires forall i :: 0 <= i < |es| ==> es[i].id != ""
    ensures Kept(Events(h, es)) == Events(h, Originals(h, es))
  {
    hide Appears, EventOf, Keeps;
    if es != [] {
      ReadsBack(h, es[0]);
      EventsSlice(h, es, 1, |es|);
      assert Events(h, es)[1..] == Events(h, es[1..]);
      KeptEvents(h, es[1..]);
      assert Events(h, [es[0]] + Originals(h, es[1..])) == [EventOf(h, es[0])] + Events(h, Originals(h, es[1..]));
      assert [] + Events(h, Originals(h, es[1..])) == Events(h, Originals(h, es[1..]));
    }
  }

  function Bases(h: seq<Entry>, es: seq<Entry>): seq<Message> {
    seq(|es|, k requires 0 <= k < |es| => Base(h, es[k]))
  }

  lemma {:induction false} ReadableEvents(h: seq<Entry>, es: seq<Entry>)
    requires forall i :: 0 <= i < |es| ==> es[i].id != "" && !es[i].op.Redact?
    ensures Readable(Events(h, es)) == Success(Bases(h, es))
  {
    hide MessageOf, EventOf, Base, Unsupported;
    if es != [] {
      var n := |es| - 1;
      ReadsBack(h, es[n]);
      EventsSlice(h, es, 0, n);
      assert Events(h, es)[..n] == Events(h, es[..n]);
      ReadableEvents(h, es[..n]);
      assert Bases(h, es) == Bases(h, es[..n]) + [Base(h, es[n])];
    }
  }

  // ---------- the edits of a message ----------

  function EditMessages(h: seq<Entry>, es: seq<Entry>, id: string): seq<Message> {
    if es == [] then []
    else
      var e := es[|es| - 1];
      EditMessages(h, es[..|es| - 1], id) + if IsEditOf(h, e, id) then [Base(h, e)] else []
  }

  function EditsIn(h: seq<Entry>): Edits {
    id => EditMessages(h, h, id)
  }

  lemma {:induction false} EditsComeFromHistory(h: seq<Entry>, es: seq<Entry>, id: string, x: string)
    requires forall i :: 0 <= i < |es| ==> es[i].id != x
    ensures FindIndex(EditMessages(h, es, id), x).None?
  {
    hide IsEditOf, FindIndex;
    if es == [] {
      SeenNothing();
    } else {
      var n := |es| - 1;
      var before := EditMessages(h, es[..n], id);
      EditsComeFromHistory(h, es[..n], id, x);
      SeenAppend(before, Base(h, es[n]), x);
      assert before + [] == before;
    }
  }

  // `getReplacements` finds exactly the edits of the message that were not redacted, in the order of the
  // history.
  lemma {:induction false} ReplacementsOfHistory(h: seq<Entry>, es: seq<Entry>, id: string)
    requires History(es)
    ensures Replacements(RelationsOf(h, es, id)) == Success(EditMessages(h, es, id))
  {
    hide EventOf, FindIndex, Deleted, Base, Replacements;
    if es == [] {
      NoReplacements();
    } else {
      var n := |es| - 1;
      ReplacementsOfHistory(h, es[..n], id);
      var before := RelationsOf(h, es[..n], id);
      assert before + [] == before;
      assert EditMessages(h, es[..n], id) + [] == EditMessages(h, es[..n], id);
      if es[n].op.Edit? && es[n].op.target == id {
        EditsComeFromHistory(h, es[..n], id, es[n].id);
        OneMoreReplacement(h, before, EditMessages(h, es[..n], id), es[n]);
      }
    }
  }

  lemma NoReplacements()
    ensures Replacements([]) == Success([])
  {
  }

  lemma OneMoreReplacement(h: seq<Entry>, before: seq<Event>, found: seq<Message>, e: Entry)
    requires Replacements(before) == Success(found) && FindIndex(found, e.id).None?
    requires e.op.Edit? && e.id != ""
    ensures Replacements(before + [EventOf(h, e)]) == Success(if Deleted(h, e.id) then found else found + [Base(h, e)])
  {
    hide MessageOf, FindIndex, ContentSent, Deleted, Base;
    ReadsBack(h, e);
    BaseId(h, e);
    assert (before + [EventOf(h, e)])[..|before|] == before;
  }

  lemma {:induction false} EditedExactly(h: seq<Entry>, es: seq<Entry>, id: string)
    ensures Edited(h, es, id) <==> EditMessages(h, es, id) != []
  {
    hide IsEditOf;
    if es != [] {
      var n := |es| - 1;
      EditedExactly(h, es[..n], id);
      if Edited(h, es[..n], id) {
        var i :| 0 <= i < n && IsEditOf(h, es[..n][i], id);
        assert IsEditOf(h, es[i], id);
      }
      if Edited(h, es, id) && !IsEditOf(h, es[n], id) {
        var i :| 0 <= i < |es| && IsEditOf(h, es[i], id);
        assert IsEditOf(h, es[..n][i], id);
      }
    }
  }

  // The edit that sorting puts last is the latest one in the history.
  lemma {:induction false} LastSortedIsLatestEdit(h: seq<Entry>, es: seq<Entry>, id: string) returns (j: nat)
    requires EditMessages(h, es, id) != []
    ensures IsLatestEdit(h, es, id, j) && LastSorted(EditMessages(h, es, id)) == Base(h, es[j])
  {
    hide LastSorted, IsEditOf;
    var n := |es| - 1;
    var before := EditMessages(h, es[..n], id);
    if !IsEditOf(h, es[n], id) {
      assert before + [] == before;
      j := LastSortedIsLatestEdit(h, es[..n], id);
    } else {
      LastSortedStep(before, Base(h, es[n]));
      if before == [] {
        EditedExactly(h, es[..n], id);
        assert forall i :: 0 <= i < n ==> !IsEditOf(h, es[..n][i], id);
        j := n;
      } else {
        var k := LastSortedIsLatestEdit(h, es[..n], id);
        j := if es[k].ts <= es[n].ts then n else k;
      }
    }
    assert forall i :: 0 <= i < n ==> es[..n][i] == es[i];
  }

  // The text of the latest edit, if there is one.
  lemma LatestEditTells(h: seq<Entry>, id: string)
    ensures Edited(h, h, id) <==> EditMessages(h, h, id) != []
    ensures Edited(h, h, id) ==>
              var latest := LastSorted(EditMessages(h, h, id)).content;
              && latest == MessageContent(Some("m.text"), true, None, None, latest.text, None)
              && LatestText(h, id, latest.text)
  {
    hide LastSorted;
    EditedExactly(h, h, id);
    if Edited(h, h, id) {
      var j := LastSortedIsLatestEdit(h, h, id);
    }
  }

  lemma ApplyEditsShows(h: seq<Entry>, o: Entry)
    requires Appears(h, o)
    ensures Shows(h, o, ApplyEdits(Base(h, o), EditMessages(h, h, o.id)))
  {
    LatestEditTells(h, o.id);
    hide LastSorted, Edited, EditMessages, LatestText, Deleted;
    if o.op.Send? {
      MediaTypes(o.op.kind);
    }
  }

  // A redacted message shows no text exactly when none of its edits is left, and it is in no thread, so
  // that it is routed to the main timeline whatever thread it was sent into.
  lemma DeletedShowsNoText(h: seq<Entry>, o: Entry)
    requires Appears(h, o) && Deleted(h, o.id)
    ensures var m := ApplyEdits(Base(h, o), EditMessages(h, h, o.id));
            && (m.content.text.None? <==> !Edited(h, h, o.id))
            && m.content.threadId.None? && Truthy(Base(h, o).content.threadId).None?
  {
    hide Edited, Deleted;
    ApplyEditsShows(h, o);
  }

  // A media message that was not redacted shows some caption that was given to it exactly when it was
  // edited or is no audio message: an audio caption is sent as the body, and looked for in a field of its
  // own.
  lemma CaptionShown(h: seq<Entry>, o: Entry)
    requires o.op.Send? && !o.op.kind.Text? && !Deleted(h, o.id)
    ensures ApplyEdits(Base(h, o), EditMessages(h, h, o.id)).content.caption.Some? <==>
            Edited(h, h, o.id) || !o.op.kind.Audio?
  {
    hide Edited, Deleted;
    ApplyEditsShows(h, o);
  }

  lemma MediaTypes(k: Kind)
    ensures IsMedia(Some(MsgType(k))) <==> !k.Text?
  {
  }

  // ---------- nothing lost, nothing repeated ----------

  ghost function IdBag(ms: seq<Message>): multiset<string> {
    if ms == [] then multiset{} else IdBag(ms[..|ms| - 1]) + multiset{ms[|ms| - 1].id}
  }

  lemma IdBagAppend(ms: seq<Message>, m: Message)
    ensures IdBag(ms + [m]) == IdBag(ms) + multiset{m.id}
  {
    assert (ms + [m])[..|ms|] == ms;
  }

  lemma {:induction false} IdBagConcat(a: seq<Message>, b: seq<Message>)
    ensures IdBag(a + b) == IdBag(a) + IdBag(b)
  {
    if b == [] {
      assert a + b == a;
    } else {
      var n := |b| - 1;
      assert (a + b)[..|a + b| - 1] == a + b[..n];
      IdBagConcat(a, b[..n]);
    }
  }

  lemma {:induction false} IdBagInsert(ms: seq<Message>, m: Message)
    ensures IdBag(Insert(ms, m)) == IdBag(ms) + multiset{m.id}
  {
    if ms == [] || ms[|ms| - 1].ts <= m.ts {
      IdBagAppend(ms, m);
    } else {
      IdBagInsert(ms[..|ms| - 1], m);
      IdBagAppend(Insert(ms[..|ms| - 1], m), ms[|ms| - 1]);
    }
  }

  lemma {:induction false} IdBagSort(ms: seq<Message>)
    ensures IdBag(SortByTime(ms)) == IdBag(ms)
  {
    if ms != [] {
      IdBagSort(ms[..|ms| - 1]);
      IdBagInsert(SortByTime(ms[..|ms| - 1]), ms[|ms| - 1]);
    }
  }

  lemma {:induction false} IdBagApply(ms: seq<Message>, edits: Edits)
    ensures IdBag(ApplyAll(ms, edits)) == IdBag(ms)
  {
    if ms != [] {
      var n := |ms| - 1;
      IdBagApply(ms[..n], edits);
      IdBagAppend(ApplyAll(ms[..n], edits), ApplyEdits(ms[n], edits(ms[n].id)));
    }
  }

  lemma {:induction false} InApplyAll(ms: seq<Message>, edits: Edits, x: Message)
    requires x in ApplyAll(ms, edits)
    ensures exists m :: m in ms && x == ApplyEdits(m, edits(m.id))
  {
    var n := |ms| - 1;
    if x == ApplyEdits(ms[n], edits(ms[n].id)) {
      assert ms[n] in ms;
    } else {
      InApplyAll(ms[..n], edits, x);
    }
  }

  lemma {:induction false} BucketsFrame(keys: seq<string>, at: map<string, seq<Message>>, t: string, b: seq<Message>)
    requires t !in keys
    ensures Buckets(keys, at[t := b]) == Buckets(keys, at)
  {
    if keys != [] {
      BucketsFrame(keys[..|keys| - 1], at, t, b);
    }
  }

  function BucketAt(at: map<string, seq<Message>>, t: string): seq<Message> {
    if t in at then at[t] else []
  }

  lemma BucketsSnoc(keys: seq<string>, at: map<string, seq<Message>>)
    requires keys != []
    ensures var n := |keys| - 1;
            IdBag(Buckets(keys, at)) == IdBag(Buckets(keys[..n], at)) + IdBag(BucketAt(at, keys[n]))
  {
    var n := |keys| - 1;
    IdBagConcat(Buckets(keys[..n], at), BucketAt(at, keys[n]));
  }

  // Appending a message to one bucket adds its id once.
  lemma {:induction false} BucketsGrow(keys: seq<string>, at: map<string, seq<Message>>, t: string, m: Message)
    requires NoDup(keys) && t in keys && t in at
    ensures IdBag(Buckets(keys, at[t := at[t] + [m]])) == IdBag(Buckets(keys, at)) + multiset{m.id}
  {
    hide Buckets, IdBag;
    var n := |keys| - 1;
    var at' := at[t := at[t] + [m]];
    BucketsSnoc(keys, at);
    BucketsSnoc(keys, at');
    if keys[n] == t {
      BucketsFrame(keys[..n], at, t, at[t] + [m]);
      IdBagAppend(at[t], m);
    } else {
      BucketsGrow(keys[..n], at, t, m);
    }
  }

  lemma {:induction false} InBuckets(keys: seq<string>, at: map<string, seq<Message>>, m: Message)
    requires m in Buckets(keys, at)
    ensures exists t :: t in at && m in at[t]
  {
    var n := |keys| - 1;
    if keys[n] in at && m in at[keys[n]] {
    } else {
      InBuckets(keys[..n], at, m);
    }
  }

  lemma {:induction false} InBelonging(ms: seq<Message>, t: Option<string>, m: Message)
    requires m in Belonging(ms, t)
    ensures m in ms
  {
    var n := |ms| - 1;
    if m != ms[n] {
      InBelonging(ms[..n], t, m);
    }
  }

  // Routing makes up no message.
  lemma RoutedFrom(ms: seq<Message>, m: Message)
    requires m in Flat(Route(ms))
    ensures m in ms
  {
    hide Route, FirstSeen, FindIndex;
    var r := Route(ms);
    var thread: Option<string> := None;
    if m !in r.main {
      InBuckets(r.threads.keys, r.threads.at, m);
      var t :| t in r.threads.at && m in r.threads.at[t];
      thread := Some(t);
    }
    RouteDeduplicates(ms, thread);
    var bucket := BucketOf(r, thread);
    var k :| 0 <= k < |bucket| && bucket[k] == m;
    assert IsLastWithId(Belonging(ms, thread), bucket[k]);
    InBelonging(ms, thread, m);
  }

  ghost predicate DistinctIds(ms: seq<Message>) {
    forall i, j :: 0 <= i < j < |ms| ==> ms[i].id != ms[j].id
  }

  lemma PutNew(bucket: seq<Message>, m: Message)
    requires forall x :: x in bucket ==> x.id != m.id
    ensures Put(bucket, m) == bucket + [m]
  {
    assert forall i :: 0 <= i < |bucket| ==> bucket[i] in bucket;
  }

  lemma FlatIds(r: Routed)
    ensures IdBag(Flat(r)) == IdBag(r.main) + IdBag(Buckets(r.threads.keys, r.threads.at))
  {
    IdBagConcat(r.main, Buckets(r.threads.keys, r.threads.at));
  }

  // A message in a thread that has no messages yet opens a bucket.
  lemma BucketsOpen(threads: JsMap<string, seq<Message>>, t: string, m: Message)
    requires threads.Valid() && t !in threads.at
    ensures IdBag(Buckets(threads.Set(t, [m]).keys, threads.Set(t, [m]).at)) ==
            IdBag(Buckets(threads.keys, threads.at)) + multiset{m.id}
  {
    hide Buckets, IdBag;
    var after := threads.Set(t, [m]);
    assert after.keys[..|threads.keys|] == threads.keys;
    BucketsFrame(threads.keys, threads.at, t, [m]);
    BucketsSnoc(after.keys, after.at);
    OneId(m);
  }

  lemma OneId(m: Message)
    ensures IdBag([m]) == multiset{m.id}
  {
    IdBagAppend([], m);
    assert [] + [m] == [m];
  }

  lemma RouteNew(r: Routed, m: Message)
    requires r.threads.Valid()
    requires forall x :: x in r.main ==> x.id != m.id
    requires forall t, x :: t in r.threads.at && x in r.threads.at[t] ==> x.id != m.id
    ensures IdBag(Flat(RouteOne(r, m))) == IdBag(Flat(r)) + multiset{m.id}
  {
    hide Buckets, IdBag, Flat, Put;
    var thread := Truthy(m.content.threadId);
    FlatIds(r);
    FlatIds(RouteOne(r, m));
    if thread.None? {
      PutNew(r.main, m);
      IdBagAppend(r.main, m);
    } else if thread.value in r.threads.at {
      PutNew(r.threads.at[thread.value], m);
      BucketsGrow(r.threads.keys, r.threads.at, thread.value, m);
    } else {
      PutNew([], m);
      assert [] + [m] == [m];
      BucketsOpen(r.threads, thread.value, m);
    }
  }

  // When the ids are distinct, routing keeps each message once.
  lemma {:induction false} RouteKeepsIds(ms: seq<Message>)
    requires DistinctIds(ms)
    ensures IdBag(Flat(Route(ms))) == IdBag(ms)
  {
    if ms != [] {
      var n := |ms| - 1;
      var r := Route(ms[..n]);
      RouteKeepsIds(ms[..n]);
      RoutePutsEach(ms[..n], None);
      forall x | x in r.main
        ensures x.id != ms[n].id
      {
        RoutedFrom(ms[..n], x);
      }
      forall t, x | t in r.threads.at && x in r.threads.at[t]
        ensures x.id != ms[n].id
      {
        InSomeBucket(r.threads.keys, r.threads.at, t, x);
        RoutedFrom(ms[..n], x);
      }
      RouteNew(r, ms[n]);
    }
  }

  // ---------- the theorem ----------

  ghost function EntryIds(h: seq<Entry>, es: seq<Entry>): multiset<string> {
    IdBag(Bases(h, es))
  }

  ghost predicate DistinctEntries(es: seq<Entry>) {
    forall i, j :: 0 <= i < j < |es| ==> es[i].id != es[j].id
  }

  lemma {:induction false} OriginalsFrom(h: seq<Entry>, es: seq<Entry>)
    ensures forall k :: 0 <= k < |Originals(h, es)| ==> Originals(h, es)[k] in es && Appears(h, Originals(h, es)[k])
    ensures forall o :: o in es && Appears(h, o) ==> o in Originals(h, es)
  {
    hide Appears;
    if es != [] {
      OriginalsFrom(h, es[1..]);
    }
  }

  lemma PrependDistinct(e: Entry, es: seq<Entry>)
    requires DistinctEntries(es) && forall k :: 0 <= k < |es| ==> es[k].id != e.id
    ensures DistinctEntries([e] + es)
  {
  }

  lemma DistinctHead(es: seq<Entry>)
    requires DistinctEntries(es) && es != []
    ensures DistinctEntries(es[1..]) && forall e :: e in es[1..] ==> e.id != es[0].id
  {
  }

  lemma {:induction false} OriginalsDistinct(h: seq<Entry>, es: seq<Entry>)
    requires DistinctEntries(es)
    ensures DistinctEntries(Originals(h, es))
  {
    hide DistinctEntries, Appears;
    if es == [] {
      assert Originals(h, es) == es;
    } else {
      var rest := Originals(h, es[1..]);
      DistinctHead(es);
      OriginalsDistinct(h, es[1..]);
      OriginalsFrom(h, es[1..]);
      PrependDistinct(es[0], rest);
      assert [] + rest == rest;
    }
  }

  // What `list` returns for the events collected by one call.
  ghost function ListOf(h: seq<Entry>, collected: seq<Event>): Result<seq<Message>> {
    var ms := Readable(collected);
    if ms.Failure? || !Routable(ms.value) then Failure else Success(Listed(Route(ms.value), EditsIn(h)))
  }

  // No message is shown in a thread with an inherited name.
  ghost predicate PlainThreads(h: seq<Entry>, es: seq<Entry>) {
    forall e :: e in es && ThreadShown(h, e).Some? ==> !Inherited(ThreadShown(h, e).value)
  }

  lemma BaseThread(h: seq<Entry>, e: Entry)
    requires Appears(h, e)
    ensures Misrouted(Base(h, e)) <==> ThreadShown(h, e).Some? && Inherited(ThreadShown(h, e).value)
  {
    hide Inherited, Deleted;
  }

  lemma PlainBases(h: seq<Entry>, es: seq<Entry>)
    requires forall k :: 0 <= k < |es| ==> Appears(h, es[k])
    ensures Routable(Bases(h, es)) <==> PlainThreads(h, es)
  {
    hide Inherited, Appears, Base, Misrouted, ThreadShown;
    RoutableExactly(Bases(h, es));
    forall e | e in es
      ensures Base(h, e) in Bases(h, es)
      ensures Misrouted(Base(h, e)) <==> ThreadShown(h, e).Some? && Inherited(ThreadShown(h, e).value)
    {
      var k :| 0 <= k < |es| && es[k] == e;
      assert Bases(h, es)[k] == Base(h, e);
      BaseThread(h, es[k]);
    }
    forall m | m in Bases(h, es)
      ensures exists e :: e in es && m == Base(h, e)
    {
      var k :| 0 <= k < |es| && Bases(h, es)[k] == m;
      assert es[k] in es;
    }
  }

  lemma ServedHistory(h: seq<Entry>, i: nat, j: nat)
    requires History(h) && i <= j <= |h|
    ensures var es := Served(h)[i..j];
            && (forall k :: 0 <= k < |es| ==> es[k].id != "")
            && DistinctEntries(es)
            && Events(h, Served(h))[i..j] == Events(h, es)
  {
    EventsSlice(h, Served(h), i, j);
  }

  // The messages of the originals, edits applied, before they are sorted.
  ghost function Unsorted(h: seq<Entry>, os: seq<Entry>): seq<Message> {
    ApplyAll(Flat(Route(Bases(h, os))), EditsIn(h))
  }

  lemma CollectedOriginals(h: seq<Entry>, i: nat, j: nat)
    requires History(h) && i <= j <= |h|
    ensures var os := Originals(h, Served(h)[i..j]);
            var collected := Kept(Events(h, Served(h))[i..j]);
            && Readable(collected) == Success(Bases(h, os))
            && ListOf(h, collected) == (if PlainThreads(h, os) then Success(SortByTime(Unsorted(h, os))) else Failure)
            && DistinctEntries(os)
  {
    hide Kept, Originals, Route, ApplyAll, SortByTime, DistinctEntries, Routable, PlainThreads, Deleted;
    var es := Served(h)[i..j];
    ServedHistory(h, i, j);
    KeptEvents(h, es);
    OriginalsFrom(h, es);
    OriginalsDistinct(h, es);
    ReadableEvents(h, Originals(h, es));
    PlainBases(h, Originals(h, es));
  }

  lemma UnsortedShows(h: seq<Entry>, os: seq<Entry>, m: Message)
    requires m in Unsorted(h, os)
    requires forall k :: 0 <= k < |os| ==> Appears(h, os[k])
    ensures exists o :: o in os && Appears(h, o) && Shows(h, o, m)
  {
    hide Route, ApplyEdits, Shows, ApplyAll, Flat, Appears, Base, EditMessages;
    var flat := Flat(Route(Bases(h, os)));
    InApplyAll(flat, EditsIn(h), m);
    var b :| b in flat && m == ApplyEdits(b, EditsIn(h)(b.id));
    RoutedFrom(Bases(h, os), b);
    var k :| 0 <= k < |os| && Bases(h, os)[k] == b;
    BaseId(h, os[k]);
    ApplyEditsShows(h, os[k]);
    assert os[k] in os;
  }

  lemma BaseId(h: seq<Entry>, e: Entry)
    ensures Base(h, e).id == e.id
  {
  }

  lemma UnsortedIds(h: seq<Entry>, os: seq<Entry>)
    requires DistinctEntries(os)
    ensures IdBag(Unsorted(h, os)) == EntryIds(h, os)
  {
    hide Route, ApplyAll, Flat, IdBag, Deleted;
    RouteKeepsIds(Bases(h, os));
    IdBagApply(Flat(Route(Bases(h, os))), EditsIn(h));
  }

  // The list is sorted by time, holds each of the given originals exactly once and nothing else, and
  // shows each with its edits applied.
  ghost predicate Lists(h: seq<Entry>, os: seq<Entry>, ms: seq<Message>) {
    && Sorted(ms)
    && DistinctEntries(os) && IdBag(ms) == EntryIds(h, os)
    && forall m :: m in ms ==> exists o :: o in os && Appears(h, o) && Shows(h, o, m)
  }

  // For the part of the history a call covers, `list` lists its originals with their edits applied; it
  // fails exactly when one of them is shown in a thread with an inherited name.
  lemma ListAppliesEdits(h: seq<Entry>, i: nat, j: nat)
    requires History(h) && i <= j <= |h|
    ensures var os := Originals(h, Served(h)[i..j]);
            var ms := ListOf(h, Kept(Events(h, Served(h))[i..j]));
            && (ms.Success? <==> PlainThreads(h, os))
            && (ms.Success? ==> Lists(h, os, ms.value))
  {
    hide Shows, Unsorted, Kept, Originals, Listed, SortByTime, IdBag, Sorted, DistinctEntries, ListOf,
      PlainThreads, Appears;
    var os := Originals(h, Served(h)[i..j]);
    var all := Unsorted(h, os);
    CollectedOriginals(h, i, j);
    OriginalsFrom(h, Served(h)[i..j]);
    UnsortedIds(h, os);
    IdBagSort(all);
    SortSorts(all);
    forall m | m in SortByTime(all)
      ensures exists o :: o in os && Appears(h, o) && Shows(h, o, m)
    {
      assert m in multiset(SortByTime(all));
      UnsortedShows(h, os, m);
    }
  }

  // ---------- the part of the history that a part of the server's log gives ----------

  // How many events the server gives before a place of its log.
  function Before(server: Server, place: nat): nat
    requires place <= |server.log|
  {
    |server.Page(0, place)|
  }

  lemma PageIsPart(server: Server, h: seq<Entry>, from: nat, to: nat)
    requires Serves(server, h) && from <= to <= |server.log|
    ensures Before(server, from) <= Before(server, to) <= |h|
    ensures server.Page(from, to) == Events(h, Served(h))[Before(server, from)..Before(server, to)]
    ensures Before(server, 0) == 0 && Before(server, |server.log|) == |h|
  {
    var n := |server.log|;
    var all := Events(h, Served(h));
    PageSplit(server, 0, from, to);
    PageSplit(server, 0, to, n);
    assert server.log[0..n] == server.log && server.log[0..0] == [];
    hide Server.Page;
    assert all == server.Page(0, from) + server.Page(from, to) + server.Page(to, n);
  }

  // The originals that a part of the server's log gives.
  ghost function Part(server: Server, h: seq<Entry>, from: nat, to: nat): seq<Entry>
    requires Serves(server, h) && from <= to <= |server.log|
  {
    PageIsPart(server, h, from, to);
    Originals(h, Served(h)[Before(server, from)..Before(server, to)])
  }

  lemma ListPart(server: Server, h: seq<Entry>, from: nat, to: nat)
    requires History(h) && Serves(server, h) && from <= to <= |server.log|
    ensures var os := Part(server, h, from, to);
            var ms := ListOf(h, Kept(server.Page(from, to)));
            && (ms.Success? <==> PlainThreads(h, os))
            && (ms.Success? ==> Lists(h, os, ms.value))
  {
    hide ListOf, Lists, PlainThreads, Kept, Server.Page, Serves;
    PageIsPart(server, h, from, to);
    ListAppliesEdits(h, Before(server, from), Before(server, to));
  }

  // A call that reaches the end of the history in one go lists every original of the history.
  lemma ListWholeHistory(h: seq<Entry>, server: Server, limit: int)
    requires History(h) && Serves(server, h)
    requires Collect(server, limit, 0, 0).1.None?
    ensures var os := Originals(h, Served(h));
            var ms := ListOf(h, Collect(server, limit, 0, 0).0);
            && (forall o :: o in h && Appears(h, o) <==> o in os)
            && (ms.Success? <==> PlainThreads(h, os))
            && (ms.Success? ==> Lists(h, os, ms.value))
  {
    hide Lists, ListOf, Kept, PlainThreads, Collect, Appears, Originals, Server.Page;
    CollectsKept(server, limit, 0, 0);
    ListPart(server, h, 0, |server.log|);
    PageIsPart(server, h, 0, |server.log|);
    assert Served(h)[0..|h|] == Served(h);
    OriginalsFrom(h, Served(h));
    forall o
      ensures o in Served(h) <==> o in h
    {
      SameEntries(h, o);
    }
  }

  // One message in a thread "constructor" and the list of the room cannot be read.
  lemma ConstructorThreadFails(h: seq<Entry>)
    requires h == [Entry("$1", "@u", 1, Send(Text, InThread("constructor"), "hi"))]
    ensures History(h) && ListOf(h, Kept(Events(h, Served(h)))).Failure?
  {
    ListAppliesEdits(h, 0, 1);
    OnlyEntry(h);
    OriginalsFrom(h, h);
    hide ListOf, Lists, Originals, Kept;
    var e := h[0];
    assert !Deleted(h, e.id);
    assert Appears(h, e) && ThreadShown(h, e) == Some("constructor");
    assert e in Originals(h, h);
    assert Inherited("constructor");
  }

  lemma OnlyEntry(h: seq<Entry>)
    requires |h| == 1
    ensures Served(h)[0..1] == h && Events(h, Served(h))[0..1] == Events(h, Served(h))
  {
  }

  // An edit that was redacted is listed as a message of its own, next to the message it edited.
  lemma RedactedEditAppears(h: seq<Entry>)
    requires h == [Entry("$1", "@u", 1, Send(Text, Main, "hi")), Entry("$2", "@u", 2, Edit("$1", "ho", "* ho")),
                   Entry("$3", "@u", 3, Redact("$2"))]
    ensures History(h) && Appears(h, h[1]) && h[1] in Originals(h, Served(h)) && !Edited(h, h, "$1")
  {
    assert Deleted(h, "$2") by {
      assert h[2].op.Redact? && h[2].op.target == "$2";
    }
    OriginalsFrom(h, Served(h));
    SameEntries(h, h[1]);
  }

  lemma SameEntries(h: seq<Entry>, o: Entry)
    ensures o in Served(h) <==> o in h
  {
    if o in h {
      var k :| 0 <= k < |h| && h[k] == o;
      assert Served(h)[|h| - 1 - k] == o;
    }
    if o in Served(h) {
      var k :| 0 <= k < |h| && Served(h)[k] == o;
      assert h[|h| - 1 - k] == o;
    }
  }

  // The ids that chained calls of `list` return, one call for each limit.
  ghost function PagedIds(h: seq<Entry>, server: Server, limits: seq<int>, pos: nat): multiset<string>
    requires server.Valid() && pos <= |server.log|
  {
    if limits == [] then multiset{}
    else
      var (events, next) := Collect(server, limits[0], pos, 0);
      (if ListOf(h, events).Success? then IdBag(ListOf(h, events).value) else multiset{}) +
      if next.Some? then PagedIds(h, server, limits[1..], next.value) else multiset{}
  }

  lemma OriginalsCons(h: seq<Entry>, e: Entry, es: seq<Entry>)
    ensures Originals(h, [e] + es) == (if Appears(h, e) then [e] else []) + Originals(h, es)
  {
    hide Appears;
    assert ([e] + es)[1..] == es;
  }

  lemma {:induction false} OriginalsConcat(h: seq<Entry>, a: seq<Entry>, b: seq<Entry>)
    ensures Originals(h, a + b) == Originals(h, a) + Originals(h, b)
  {
    if a == [] {
      assert a + b == b;
    } else {
      hide Originals, Appears;
      var (e, rest) := (a[0], a[1..]);
      OriginalsConcat(h, rest, b);
      OriginalsCons(h, e, rest);
      OriginalsCons(h, e, rest + b);
      assert a == [e] + rest && a + b == [e] + (rest + b);
      var head := if Appears(h, e) then [e] else [];
      assert (head + Originals(h, rest)) + Originals(h, b) == head + (Originals(h, rest) + Originals(h, b));
    }
  }

  lemma EntryIdsConcat(h: seq<Entry>, a: seq<Entry>, b: seq<Entry>)
    ensures EntryIds(h, a + b) == EntryIds(h, a) + EntryIds(h, b)
  {
    hide Base;
    assert Bases(h, a + b) == Bases(h, a) + Bases(h, b);
    IdBagConcat(Bases(h, a), Bases(h, b));
  }

  // The originals of adjacent parts.
  lemma PartsAdd(server: Server, h: seq<Entry>, i: nat, j: nat, k: nat)
    requires Serves(server, h) && i <= j <= k <= |server.log|
    ensures EntryIds(h, Part(server, h, i, k)) ==
            EntryIds(h, Part(server, h, i, j)) + EntryIds(h, Part(server, h, j, k))
    ensures PlainThreads(h, Part(server, h, i, k)) <==>
            PlainThreads(h, Part(server, h, i, j)) && PlainThreads(h, Part(server, h, j, k))
  {
    hide Server.Page, Serves, Originals, EntryIds, ThreadShown, Inherited;
    PageIsPart(server, h, i, j);
    PageIsPart(server, h, j, k);
    PageIsPart(server, h, i, k);
    var (x, y, z) := (Before(server, i), Before(server, j), Before(server, k));
    assert Served(h)[x..z] == Served(h)[x..y] + Served(h)[y..z];
    OriginalsConcat(h, Served(h)[x..y], Served(h)[y..z]);
    EntryIdsConcat(h, Part(server, h, i, j), Part(server, h, j, k));
  }

  // Chained calls of `list` return each original of the part they cover once, whatever their limits
  // and the pages of the server, if none of these is shown in a thread with an inherited name; enough
  // calls cover the history.
  lemma {:induction false} PagedListsAreWhole(h: seq<Entry>, server: Server, limits: seq<int>, pos: nat)
    requires History(h) && Serves(server, h) && pos <= |server.log|
    ensures var stop := StopOf(server, Chain(server, limits, pos).1);
            && pos <= stop <= |server.log|
            && (PlainThreads(h, Part(server, h, pos, stop)) ==>
                  PagedIds(h, server, limits, pos) == EntryIds(h, Part(server, h, pos, stop)))
    ensures |limits| > |server.log| - pos ==> StopOf(server, Chain(server, limits, pos).1) == |server.log|
    decreases |limits|
  {
    hide Collect, Kept, EntryIds, IdBag, ListOf, Shows, DistinctEntries, Sorted, PlainThreads, Part, Server.Page;
    PagingIsLossless(server, limits, pos);
    var stop := StopOf(server, Chain(server, limits, pos).1);
    if limits == [] {
      NoPart(server, h, pos);
    } else {
      var (events, next) := Collect(server, limits[0], pos, 0);
      CollectsKept(server, limits[0], pos, 0);
      ListPart(server, h, pos, StopOf(server, next));
      if next.Some? {
        PagedListsAreWhole(h, server, limits[1..], next.value);
        PartsAdd(server, h, pos, next.value, stop);
      }
    }
    if |limits| > |server.log| - pos {
      PagingEnds(server, limits, pos);
    }
  }

  lemma NoPart(server: Server, h: seq<Entry>, pos: nat)
    requires Serves(server, h) && pos <= |server.log|
    ensures EntryIds(h, Part(server, h, pos, pos)) == multiset{}
  {
    PageIsPart(server, h, pos, pos);
    assert Served(h)[Before(server, pos)..Before(server, pos)] == [];
  }

  // The relations of the room, as the server serves them for this history.
  function RelationsIn(h: seq<Entry>): Relations {
    id => RelationsOf(h, h, id)
  }

  lemma {:induction false} SameEdits(ms: seq<Message>, edits: Edits, other: Edits)
    requires forall id :: edits(id) == other(id)
    ensures ApplyAll(ms, edits) == ApplyAll(ms, other)
  {
    if ms != [] {
      SameEdits(ms[..|ms| - 1], edits, other);
    }
  }

  lemma EditsOfHistory(h: seq<Entry>, id: string)
    requires History(h)
    ensures Replacements(RelationsIn(h)(id)).Success? && EditsBy(RelationsIn(h))(id) == EditsIn(h)(id)
  {
    hide Replacements;
    ReplacementsOfHistory(h, h, id);
  }

  // `list` from request to result: the code of the parts put together.
  method ListRoom(h: seq<Entry>, server: Server, limit: int, nextToken: Option<nat>)
    returns (messages: Result<seq<Message>>, next: Option<nat>)
    requires History(h) && Serves(server, h)
    requires nextToken.Some? ==> nextToken.value <= |server.log|
    ensures nextToken.GetOr(0) <= StopOf(server, next) <= |server.log|
    ensures var os := Part(server, h, nextToken.GetOr(0), StopOf(server, next));
            && (messages.Success? <==> PlainThreads(h, os))
            && (messages.Success? ==> Lists(h, os, messages.value))
  {
    hide Lists, Route, Readable, Kept, PlainThreads, Collect, Part, Routable, Replacements, EditsBy, EditsIn,
      RelationsIn, Server.Page;
    var events;
    events, next := ListEvents(server, limit, nextToken);
    CollectsKept(server, limit, nextToken.GetOr(0), 0);
    ListPart(server, h, nextToken.GetOr(0), StopOf(server, next));
    var routed := SeparateMessages(events);
    if routed.Failure? {
      return Failure, next;
    }
    RoutePutsEach(Readable(events).value, None);
    messages := List(routed.value, RelationsIn(h));
    forall id
      ensures Replacements(RelationsIn(h)(id)).Success? && EditsBy(RelationsIn(h))(id) == EditsIn(h)(id)
    {
      EditsOfHistory(h, id);
    }
    SameEdits(Flat(routed.value), EditsBy(RelationsIn(h)), EditsIn(h));
  }
}
