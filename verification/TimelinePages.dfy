// Reading the history of a room page by page, newest event first.
module TimelinePages {
  import opened Options
  import opened JsCollections

  // The relation of an event to another one, as far as the code looks at it.
  datatype Relation = Relation(relType: Option<string>, eventId: Option<string>, inReplyTo: Option<string>)

  // The content of an event; `caption` is the field of that name that audio messages carry. `complete` tells
  // whether a membership or a poll holds what it is read for: a membership at all, or the answers of a poll.
  datatype Content = Content(
    msgtype: Option<string>,
    body: Option<string>,
    caption: Option<string>,
    relatesTo: Option<Relation>,
    newContent: Option<Content>,
    complete: bool)

  datatype EventType = RoomMessage | RoomMessageEncrypted | RoomMember | PollStart | OtherType

  // `content` is None when it is missing or empty.
  datatype Event = Event(
    id: Option<string>,
    sender: string,
    ts: int,
    etype: EventType,
    content: Option<Content>,
    redacted: bool)

  predicate IsReplacement(e: Event) {
    e.content.Some? && e.content.value.relatesTo.Some? &&
    e.content.value.relatesTo.value.relType == Some("m.replace")
  }

  // The filter on each page.
  predicate Keeps(e: Event) {
    !IsReplacement(e) && !e.etype.OtherType?
  }

  function Kept(es: seq<Event>): seq<Event> {
    if es == [] then []
    else (if Keeps(es[0]) then [es[0]] else []) + Kept(es[1..])
  }

  lemma {:induction false} KeptConcat(a: seq<Event>, b: seq<Event>)
    ensures Kept(a + b) == Kept(a) + Kept(b)
  {
    if a == [] {
      assert a + b == b;
    } else {
      assert (a + b)[1..] == a[1..] + b;
      KeptConcat(a[1..], b);
    }
  }

  lemma {:induction false} KeptSize(es: seq<Event>)
    ensures |Kept(es)| <= |es|
  {
    if es != [] {
      KeptSize(es[1..]);
    }
  }

  // The events among the places of a server's log; it keeps some events back from the client.
  function Given(places: seq<Option<Event>>): seq<Event> {
    if places == [] then []
    else (if places[0].Some? then [places[0].value] else []) + Given(places[1..])
  }

  lemma {:induction false} GivenConcat(a: seq<Option<Event>>, b: seq<Option<Event>>)
    ensures Given(a + b) == Given(a) + Given(b)
  {
    if a == [] {
      assert a + b == b;
    } else {
      var head := if a[0].Some? then [a[0].value] else [];
      GivenConcat(a[1..], b);
      assert (a + b)[1..] == a[1..] + b;
      assert head + (Given(a[1..]) + Given(b)) == (head + Given(a[1..])) + Given(b);
    }
  }

  // The server holds the history, newest first, and answers from a position of it. It chooses the extent
  // of each page, which may give no event at all, and whether it still hands out a token with the page that
  // reaches the end.
  datatype Server = Server(log: seq<Option<Event>>, extent: (nat, nat) -> nat, eager: bool) {

    // Every page moves on until the history is exhausted.
    ghost predicate Valid() {
      forall pos: nat, size: nat :: pos < |log| && size >= 1 ==> 1 <= extent(pos, size) <= |log| - pos
    }

    // No page gives more events than were asked for.
    ghost predicate HonoursSize()
      requires Valid()
    {
      forall pos: nat, size: nat :: pos < |log| && size >= 1 ==> |Page(pos, pos + extent(pos, size))| <= size
    }

    // The events given for a part of the log.
    function Page(from: nat, to: nat): seq<Event>
      requires from <= to <= |log|
    {
      Given(log[from..to])
    }

    function Chunk(pos: nat, size: nat): nat {
      if pos < |log| then extent(pos, size) else 0
    }

    // The token that comes with a page ending at `pos`; none once there is nothing left.
    function End(pos: nat, chunk: nat): Option<nat> {
      if pos + chunk >= |log| && (eager || chunk == 0) then None else Some(pos + chunk)
    }
  }

  lemma PageSplit(server: Server, i: nat, j: nat, k: nat)
    requires i <= j <= k <= |server.log|
    ensures server.Page(i, k) == server.Page(i, j) + server.Page(j, k)
    ensures Kept(server.Page(i, k)) == Kept(server.Page(i, j)) + Kept(server.Page(j, k))
  {
    assert server.log[i..k] == server.log[i..j] + server.log[j..k];
    GivenConcat(server.log[i..j], server.log[j..k]);
    KeptConcat(server.Page(i, j), server.Page(j, k));
  }

  // The size a request asks for.
  function Wanted(limit: int, have: nat): nat {
    if limit - have > 1 then limit - have else 1
  }

  // Where the reading of one call starts and stops.
  function StopOf(server: Server, next: Option<nat>): nat {
    if next.Some? then next.value else |server.log|
  }

  // What one call collects after `have` events were collected, and the token it ends with.
  function Collect(server: Server, limit: int, pos: nat, have: nat): (r: (seq<Event>, Option<nat>))
    requires server.Valid() && pos <= |server.log|
    ensures r.1.Some? ==> r.1.value <= |server.log|
    decreases |server.log| - pos, if pos == |server.log| then 0 else 1
  {
    var chunk := server.Chunk(pos, Wanted(limit, have));
    var page := Kept(server.Page(pos, pos + chunk));
    var end := server.End(pos, chunk);
    if end.None? || have + |page| >= limit then (page, end)
    else
      var (rest, next) := Collect(server, limit, end.value, have + |page|);
      (page + rest, next)
  }

  lemma ChunkMoves(server: Server, pos: nat, size: nat)
    requires server.Valid() && pos <= |server.log| && size >= 1
    ensures pos + server.Chunk(pos, size) <= |server.log|
    ensures pos < |server.log| ==> server.Chunk(pos, size) >= 1
  {
  }

  // A call collects the kept events between its position and its token, and moves on.
  lemma {:induction false} CollectsKept(server: Server, limit: int, pos: nat, have: nat)
    requires server.Valid() && pos <= |server.log|
    ensures var (events, next) := Collect(server, limit, pos, have);
            && pos <= StopOf(server, next) <= |server.log|
            && events == Kept(server.Page(pos, StopOf(server, next)))
            && (next.Some? ==> have + |events| >= limit && (pos < |server.log| ==> pos < next.value))
    decreases |server.log| - pos, if pos == |server.log| then 0 else 1
  {
    hide Kept, Server.Page, Server.Valid, Server.Chunk;
    ChunkMoves(server, pos, Wanted(limit, have));
    var chunk := server.Chunk(pos, Wanted(limit, have));
    var page := Kept(server.Page(pos, pos + chunk));
    var end := server.End(pos, chunk);
    if end.Some? && have + |page| < limit {
      CollectsKept(server, limit, end.value, have + |page|);
      PageSplit(server, pos, end.value, StopOf(server, Collect(server, limit, end.value, have + |page|).1));
    }
  }

  lemma PageIsBounded(server: Server, pos: nat, size: nat)
    requires server.Valid() && server.HonoursSize() && pos <= |server.log| && size >= 1
    ensures |Kept(server.Page(pos, pos + server.Chunk(pos, size)))| <= size
  {
    KeptSize(server.Page(pos, pos + server.Chunk(pos, size)));
    if pos == |server.log| {
      assert server.log[pos..pos] == [];
    }
  }

  // When the server honours the requested size, a call collects no more than the limit leaves.
  lemma {:induction false} CollectIsBounded(server: Server, limit: int, pos: nat, have: nat)
    requires server.Valid() && server.HonoursSize() && pos <= |server.log|
    requires have < limit || have == 0
    ensures have + |Collect(server, limit, pos, have).0| <= if limit > 1 then limit else 1
    decreases |server.log| - pos, if pos == |server.log| then 0 else 1
  {
    hide Kept, Server.Page, Server.Valid, Server.HonoursSize, Server.Chunk;
    ChunkMoves(server, pos, Wanted(limit, have));
    PageIsBounded(server, pos, Wanted(limit, have));
    var chunk := server.Chunk(pos, Wanted(limit, have));
    var page := Kept(server.Page(pos, pos + chunk));
    var end := server.End(pos, chunk);
    if end.Some? && have + |page| < limit {
      CollectIsBounded(server, limit, end.value, have + |page|);
    }
  }

  // What one page adds to the events collected, and what is left to collect.
  lemma CollectStep(server: Server, limit: int, pos: nat, got: seq<Event>)
    requires server.Valid() && pos <= |server.log|
    ensures var chunk := server.Chunk(pos, Wanted(limit, |got|));
            var more := got + Kept(server.Page(pos, pos + chunk));
            var end := server.End(pos, chunk);
            var (rest, next) := Collect(server, limit, pos, |got|);
            if end.None? || |more| >= limit then (got + rest, next) == (more, end)
            else
              var (later, last) := Collect(server, limit, end.value, |more|);
              (got + rest, next) == (more + later, last)
  {
    hide Kept;
    var chunk := server.Chunk(pos, Wanted(limit, |got|));
    var page := Kept(server.Page(pos, pos + chunk));
    var end := server.End(pos, chunk);
    if end.Some? && |got + page| < limit {
      var later := Collect(server, limit, end.value, |got + page|).0;
      assert got + (page + later) == (got + page) + later;
    }
  }

  // The loop of `listMessages`.
  method ListEvents(server: Server, limit: int, nextToken: Option<nat>)
    returns (messageEvents: seq<Event>, next: Option<nat>)
    requires server.Valid()
    requires nextToken.Some? ==> nextToken.value <= |server.log|
    ensures (messageEvents, next) == Collect(server, limit, nextToken.GetOr(0), 0)
  {
    hide Kept, Collect;
    messageEvents, next := [], nextToken;
    var pos := nextToken.GetOr(0);
    ghost var all := Collect(server, limit, pos, 0);
    assert all.0 == [] + all.0;
    while true
      invariant pos <= |server.log|
      invariant var rest := Collect(server, limit, pos, |messageEvents|);
                all == (messageEvents + rest.0, rest.1)
      decreases |server.log| - pos, if pos == |server.log| then 0 else 1
    {
      CollectStep(server, limit, pos, messageEvents);
      var chunk := server.Chunk(pos, Wanted(limit, |messageEvents|));
      var page := Kept(server.Page(pos, pos + chunk));
      messageEvents := messageEvents + page;
      next := server.End(pos, chunk);
      if next.None? || |messageEvents| >= limit {
        break;
      }
      pos := next.value;
    }
  }

  // Calls chained by their tokens, one for each limit, until a call returns no token.
  function Chain(server: Server, limits: seq<int>, pos: nat): (r: (seq<seq<Event>>, Option<nat>))
    requires server.Valid() && pos <= |server.log|
    ensures r.1.Some? ==> r.1.value <= |server.log|
  {
    if limits == [] then ([], Some(pos))
    else
      var (events, next) := Collect(server, limits[0], pos, 0);
      if next.None? then ([events], None)
      else
        var (rest, last) := Chain(server, limits[1..], next.value);
        ([events] + rest, last)
  }

  // Chained calls collect, for any limits and any page sizes, exactly the kept events between the
  // first position and the last token, without gap or repeat; without a last token, all of them.
  lemma {:induction false} PagingIsLossless(server: Server, limits: seq<int>, pos: nat)
    requires server.Valid() && pos <= |server.log|
    ensures var (pages, next) := Chain(server, limits, pos);
            && pos <= StopOf(server, next) <= |server.log|
            && Flatten(pages) == Kept(server.Page(pos, StopOf(server, next)))
    decreases |limits|
  {
    if limits != [] {
      var (events, next) := Collect(server, limits[0], pos, 0);
      CollectsKept(server, limits[0], pos, 0);
      if next.Some? {
        var (rest, last) := Chain(server, limits[1..], next.value);
        PagingIsLossless(server, limits[1..], next.value);
        PageSplit(server, pos, next.value, StopOf(server, last));
        FlattenCons(events, rest);
      } else {
        assert [events] == [events] + [];
        FlattenCons(events, []);
      }
    }
  }

  // When the server honours the requested size, no call collects more than max(1, limit) events.
  lemma CallIsBounded(server: Server, limit: int, pos: nat)
    requires server.Valid() && server.HonoursSize() && pos <= |server.log|
    ensures |Collect(server, limit, pos, 0).0| <= if limit > 1 then limit else 1
  {
    CollectIsBounded(server, limit, pos, 0);
  }

  // A server that gives as much as it is asked for, all of it kept, is asked once: its first page has
  // what the limit asks for, or what there is.
  lemma FullPageIsEnough(server: Server, limit: int, pos: nat)
    requires server.Valid() && pos < |server.log|
    requires var asked := if limit > 1 then limit else 1;
             && server.Chunk(pos, asked) == (if pos + asked < |server.log| then asked else |server.log| - pos)
             && (pos + asked >= |server.log| ==> server.eager)
             && |Kept(server.Page(pos, pos + server.Chunk(pos, asked)))| == server.Chunk(pos, asked)
    ensures var page := server.Chunk(pos, Wanted(limit, 0));
            Collect(server, limit, pos, 0) == (Kept(server.Page(pos, pos + page)), server.End(pos, page))
  {
  }

  // Enough calls reach the end of the history, whatever their limits.
  lemma {:induction false} PagingEnds(server: Server, limits: seq<int>, pos: nat)
    requires server.Valid() && pos <= |server.log|
    requires |limits| > |server.log| - pos
    ensures Chain(server, limits, pos).1.None?
    decreases |limits|
  {
    var (events, next) := Collect(server, limits[0], pos, 0);
    CollectsKept(server, limits[0], pos, 0);
    if pos == |server.log| {
      assert server.Chunk(pos, Wanted(limits[0], 0)) == 0;
    } else if next.Some? {
      PagingEnds(server, limits[1..], next.value);
    }
  }
}
