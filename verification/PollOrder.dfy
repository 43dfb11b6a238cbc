// What the outcome of a poll depends on: not on the pages the responses come in, and on their order
// only where the last responses of a user do not agree.
module PollOrder {
  import opened Options
  import opened JsCollections
  import opened PollTally

  // ---------- the end of the poll ----------

  // The responses sent up to the end.
  function OnTime(es: seq<Response>, t: int): seq<Response> {
    if es == [] then []
    else OnTime(es[..|es| - 1], t) + if es[|es| - 1].ts <= t then [es[|es| - 1]] else []
  }

  lemma {:induction false} InOnTime(es: seq<Response>, t: int)
    ensures forall e :: e in OnTime(es, t) <==> e in es && e.ts <= t
  {
    if es != [] {
      InOnTime(es[..|es| - 1], t);
      assert forall e :: e in es <==> e in es[..|es| - 1] || e == es[|es| - 1];
    }
  }

  lemma {:induction false} LatestOnTime(es: seq<Response>, t: int)
    requires t != 0
    ensures Latest(Some(t), es) == Latest(None, OnTime(es, t))
  {
    if es != [] {
      var n := |es| - 1;
      LatestOnTime(es[..n], t);
      LatestSnoc(None, OnTime(es[..n], t), es[n]);
      assert OnTime(es[..n], t) + [] == OnTime(es[..n], t);
    }
  }

  lemma {:induction false} LatestWithoutEnd(es: seq<Response>)
    ensures Latest(Some(0), es) == Latest(None, es)
  {
    if es != [] {
      LatestWithoutEnd(es[..|es| - 1]);
    }
  }

  // The outcome but for the end that is reported.
  ghost function Unended(r: Result<PollResponses>): Result<PollResponses> {
    if r.Failure? then r else Success(r.value.(endedAt := None))
  }

  // A poll that ended at `t` comes to what its responses up to `t` come to without an end.
  lemma EndCutsOff(es: seq<Response>, t: int)
    requires t != 0
    ensures Unended(PollOf(Some(t), es)) == PollOf(None, OnTime(es, t))
    ensures PollOf(Some(t), es).Success? ==> PollOf(Some(t), es).value.endedAt == Some(t)
  {
    InOnTime(es, t);
    LatestOnTime(es, t);
    if e :| e in es && Breaks(Some(t), e) {
      assert e in OnTime(es, t) && Breaks(None, e);
    }
    if e :| e in OnTime(es, t) && Breaks(None, e) {
      assert e in es && Breaks(Some(t), e);
    }
  }

  // An end of 0 is no end.
  lemma EndOfZeroIsNone(es: seq<Response>)
    ensures Unended(PollOf(Some(0), es)) == PollOf(None, es)
  {
    LatestWithoutEnd(es);
    assert forall e :: Breaks(Some(0), e) <==> Breaks(None, e);
  }

  // Without an end, the voters are the senders of answers, and the poll cannot be read exactly when some
  // response with a sender has no answer block.
  lemma VotersExactly(es: seq<Response>, user: string)
    ensures user in Latest(None, es).at <==>
            exists e :: e in es && e.sender == user && user != "" && e.payload.Answers? && |e.payload.list| > 0
    ensures PollOf(None, es).Failure? <==> exists e :: e in es && e.sender != "" && e.payload.Missing?
  {
    LatestIsWinner(None, es, user);
    if e :| e in es && e.sender == user && user != "" && e.payload.Answers? && |e.payload.list| > 0 {
      VoterHasBallot(None, es, e);
    }
    if user in Latest(None, es).at {
      var w := BallotIsLast(None, es, user);
    }
    assert forall e :: Breaks(None, e) <==> e.sender != "" && e.payload.Missing?;
  }

  // ---------- page boundaries ----------

  // The log cut into pages of the given sizes, as far as it goes, and a last page.
  function Cut(es: seq<Response>, sizes: seq<nat>): (pages: seq<seq<Response>>)
    ensures pages != []
  {
    if sizes == [] || sizes[0] > |es| then [es] else [es[..sizes[0]]] + Cut(es[sizes[0]..], sizes[1..])
  }

  lemma {:induction false} CutLosesNothing(es: seq<Response>, sizes: seq<nat>)
    ensures Flatten(Cut(es, sizes)) == es
    decreases |sizes|
  {
    if sizes == [] || sizes[0] > |es| {
      assert [es] == [es] + [];
      FlattenCons(es, []);
    } else {
      CutLosesNothing(es[sizes[0]..], sizes[1..]);
      FlattenCons(es[..sizes[0]], Cut(es[sizes[0]..], sizes[1..]));
    }
  }

  // The latest responses, page by page and event by event; none once an event could not be read.
  ghost function ReadEvents(latest: Option<JsMap<string, Ballot>>, end: Option<int>, es: seq<Response>):
    Option<JsMap<string, Ballot>>
  {
    if es == [] then latest
    else
      var before := ReadEvents(latest, end, es[..|es| - 1]);
      if before.None? || Breaks(end, es[|es| - 1]) then None else Some(Record(before.value, end, es[|es| - 1]))
  }

  ghost function ReadPages(end: Option<int>, pages: seq<seq<Response>>): Option<JsMap<string, Ballot>> {
    if pages == [] then Some(JsMap([], map[]))
    else ReadEvents(ReadPages(end, pages[..|pages| - 1]), end, pages[|pages| - 1])
  }

  lemma {:induction false} ReadEventsConcat(latest: Option<JsMap<string, Ballot>>, end: Option<int>,
                                            es: seq<Response>, fs: seq<Response>)
    ensures ReadEvents(latest, end, es + fs) == ReadEvents(ReadEvents(latest, end, es), end, fs)
  {
    if fs == [] {
      assert es + fs == es;
    } else {
      var n := |fs| - 1;
      assert (es + fs)[..|es + fs| - 1] == es + fs[..n];
      ReadEventsConcat(latest, end, es, fs[..n]);
    }
  }

  lemma {:induction false} PagesAreEvents(end: Option<int>, pages: seq<seq<Response>>)
    ensures ReadPages(end, pages) == ReadEvents(Some(JsMap([], map[])), end, Flatten(pages))
  {
    if pages != [] {
      var n := |pages| - 1;
      PagesAreEvents(end, pages[..n]);
      ReadEventsConcat(Some(JsMap([], map[])), end, Flatten(pages[..n]), pages[n]);
    }
  }

  // However the server cuts the responses into pages, reading them page by page comes to the same,
  // failures included.
  lemma PageBoundariesDoNotMatter(end: Option<int>, es: seq<Response>, sizes: seq<nat>)
    ensures ReadPages(end, Cut(es, sizes)) == ReadPages(end, [es])
  {
    CutLosesNothing(es, sizes);
    PagesAreEvents(end, Cut(es, sizes));
    PagesAreEvents(end, [es]);
    assert [es] == [es] + [];
    FlattenCons(es, []);
  }

  // What was read decides the poll.
  lemma {:induction false} ReadDecides(end: Option<int>, es: seq<Response>)
    ensures var latest := ReadEvents(Some(JsMap([], map[])), end, es);
            && (latest.None? <==> PollOf(end, es).Failure?)
            && (latest.Some? ==> latest.value == Latest(end, es))
  {
    hide Breaks, Record;
    if es != [] {
      var n := |es| - 1;
      ReadDecides(end, es[..n]);
      assert forall e :: e in es <==> e in es[..n] || e == es[n];
    }
  }

  // ---------- the order of the events ----------

  // A response of a user that counts, and none of the user that counts is later.
  ghost predicate IsLast(end: Option<int>, es: seq<Response>, e: Response) {
    e in es && Counted(end, e) && forall x :: x in es && Counted(end, x) && x.sender == e.sender ==> x.ts <= e.ts
  }

  // The last responses of each user, if there are several, give the same answers, equally often.
  ghost predicate Settled(end: Option<int>, es: seq<Response>) {
    forall x, y :: IsLast(end, es, x) && IsLast(end, es, y) && x.sender == y.sender ==>
      Entered(multiset(Given(x))) == Entered(multiset(Given(y)))
  }

  // Two outcomes with the same entries, whatever their order, and the same end, whose totals are the same
  // number or both texts. The texts need not be the same.
  predicate Alike(r: Result<PollResponses>, q: Result<PollResponses>) {
    if r.Failure? || q.Failure? then r.Failure? && q.Failure?
    else
      && r.value.talliedAnswers.at == q.value.talliedAnswers.at
      && (r.value.totalVotes.Sum? || q.value.totalVotes.Sum? ==> r.value.totalVotes == q.value.totalVotes)
      && r.value.endedAt == q.value.endedAt
  }

  lemma SameMembers(es: seq<Response>, fs: seq<Response>)
    requires multiset(es) == multiset(fs)
    ensures forall e :: e in es <==> e in fs
  {
    forall e
      ensures e in es <==> e in fs
    {
      assert e in es <==> e in multiset(es);
      assert e in fs <==> e in multiset(fs);
    }
  }

  // The ballot of a user is that of a last response.
  lemma BallotIsLast(end: Option<int>, es: seq<Response>, user: string) returns (w: Response)
    requires user in Latest(end, es).at
    ensures IsLast(end, es, w) && w.sender == user && Latest(end, es).at[user] == Ballot(w.ts, Given(w))
  {
    hide Latest;
    LatestIsWinner(end, es, user);
    var b := Latest(end, es).at[user];
    var k: nat :| IsWinner(end, es, user, k) && b == Ballot(es[k].ts, Given(es[k]));
    w := es[k];
  }

  lemma VoterHasBallot(end: Option<int>, es: seq<Response>, e: Response)
    requires e in es && Counted(end, e)
    ensures e.sender in Latest(end, es).at
  {
    LatestIsWinner(end, es, e.sender);
    var i :| 0 <= i < |es| && es[i] == e;
    assert Counted(end, es[i]);
  }

  ghost function EnteredOf(ballots: map<string, Ballot>, u: string): multiset<string> {
    if u in ballots then Entered(multiset(ballots[u].answers)) else multiset{}
  }

  lemma {:induction false} SameBags(a: map<string, Ballot>, b: map<string, Ballot>)
    requires a.Keys == b.Keys
    requires forall u :: EnteredOf(a, u) == EnteredOf(b, u)
    ensures Entered(AllAnswers(a)) == Entered(AllAnswers(b))
    decreases |a|
  {
    if a == map[] {
      assert b == map[];
    } else {
      var u :| u in a;
      assert u in b.Keys;
      AllAnswersSplit(a, u);
      AllAnswersSplit(b, u);
      forall v
        ensures EnteredOf(a - {u}, v) == EnteredOf(b - {u}, v)
      {
        assert EnteredOf(a, v) == EnteredOf(b, v);
      }
      SameBags(a - {u}, b - {u});
      EnteredSum(multiset(a[u].answers), AllAnswers(a - {u}));
      EnteredSum(multiset(b[u].answers), AllAnswers(b - {u}));
      assert EnteredOf(a, u) == EnteredOf(b, u);
    }
  }

  lemma EnteredSum(m: multiset<string>, n: multiset<string>)
    ensures Entered(m + n) == Entered(m) + Entered(n)
  {
    forall a
      ensures Entered(m + n)[a] == (Entered(m) + Entered(n))[a]
    {
    }
  }

  // The entries are those of the bag, and tell it.
  lemma EntriesTellBag(r: JsMap<string, Entry>, q: JsMap<string, Entry>, bag: multiset<string>, other: multiset<string>)
    requires Counts(r, bag) && Counts(q, other)
    ensures r.at == q.at <==> Entered(bag) == Entered(other)
  {
    hide Inherited;
    if r.at == q.at {
      forall a
        ensures Entered(bag)[a] == Entered(other)[a]
      {
        assert a in r.at <==> a in Entered(bag);
        assert a in q.at <==> a in Entered(other);
      }
    } else if Entered(bag) == Entered(other) {
      forall a
        ensures a in r.at <==> a in q.at
        ensures a in r.at ==> r.at[a] == q.at[a]
      {
        if a in r.at {
          assert Entered(bag)[a] == bag[a] && Entered(other)[a] == other[a];
        }
      }
    }
  }

  lemma SettledAlike(end: Option<int>, es: seq<Response>, fs: seq<Response>)
    requires multiset(es) == multiset(fs) && Settled(end, es)
    ensures Alike(PollOf(end, es), PollOf(end, fs))
  {
    hide Counted, Breaks, Latest, Counts, Entered, TotalFits, AllAnswers;
    SameMembers(es, fs);
    var (a, b) := (Latest(end, es).at, Latest(end, fs).at);
    forall u
      ensures u in a <==> u in b
      ensures EnteredOf(a, u) == EnteredOf(b, u)
    {
      if u in a {
        var w := BallotIsLast(end, es, u);
        VoterHasBallot(end, fs, w);
        var v := BallotIsLast(end, fs, u);
        assert IsLast(end, es, v);
      } else if u in b {
        var v := BallotIsLast(end, fs, u);
        VoterHasBallot(end, es, v);
        assert false;
      }
    }
    assert a.Keys == b.Keys;
    SameBags(a, b);
    if PollOf(end, es).Success? {
      PollOfTallies(end, es);
      PollOfTallies(end, fs);
      EntriesTellBag(PollOf(end, es).value.talliedAnswers, PollOf(end, fs).value.talliedAnswers,
                     AllAnswers(a), AllAnswers(b));
      SameTotal(AllAnswers(a), AllAnswers(b));
    }
  }

  lemma SameTotal(bag: multiset<string>, other: multiset<string>)
    requires Entered(bag) == Entered(other)
    ensures forall t, u :: TotalFits(t, bag) && TotalFits(u, other) ==> t == u || (t.SomeText? && u.SomeText?)
  {
  }

  function RemoveOne(es: seq<Response>, e: Response): (r: seq<Response>)
    requires e in es
    ensures multiset(r) == multiset(es) - multiset{e}
  {
    if es[0] == e then
      assert es == [es[0]] + es[1..];
      es[1..]
    else
      assert es == [es[0]] + es[1..];
      [es[0]] + RemoveOne(es[1..], e)
  }

  // A last response that comes first is the ballot of its user.
  lemma FirstWins(end: Option<int>, es: seq<Response>, x: Response)
    requires es != [] && es[0] == x && IsLast(end, es, x)
    ensures x.sender in Latest(end, es).at && Latest(end, es).at[x.sender] == Ballot(x.ts, Given(x))
  {
    hide Latest, Counted;
    VoterHasBallot(end, es, x);
    LatestIsWinner(end, es, x.sender);
    var b := Latest(end, es).at[x.sender];
    var k: nat :| IsWinner(end, es, x.sender, k) && b == Ballot(es[k].ts, Given(es[k]));
    assert es[k] in es && es[0] in es;
    assert k == 0;
  }

  // The ballot of a user, if there is one.
  function BallotOf(end: Option<int>, es: seq<Response>, user: string): Option<Ballot> {
    if user in Latest(end, es).at then Some(Latest(end, es).at[user]) else None
  }

  lemma BallotSnoc(end: Option<int>, es: seq<Response>, e: Response, user: string)
    ensures var before := BallotOf(end, es, user);
            BallotOf(end, es + [e], user) ==
            if e.sender == user && Counted(end, e) && (before.None? || before.value.ts < e.ts)
            then Some(Ballot(e.ts, Given(e)))
            else before
  {
    hide Counted, Latest;
    LatestSnoc(end, es, e);
  }

  // Where two lists leave a user with the same ballot, so they do when they go on alike.
  lemma {:induction false} GoingOnAlike(end: Option<int>, es: seq<Response>, fs: seq<Response>,
                                        rest: seq<Response>, v: string)
    requires BallotOf(end, es, v) == BallotOf(end, fs, v)
    ensures BallotOf(end, es + rest, v) == BallotOf(end, fs + rest, v)
  {
    hide BallotOf, Counted;
    if rest == [] {
      assert es + rest == es && fs + rest == fs;
    } else {
      var n := |rest| - 1;
      GoingOnAlike(end, es, fs, rest[..n], v);
      assert es + rest == es + rest[..n] + [rest[n]];
      assert fs + rest == fs + rest[..n] + [rest[n]];
      BallotSnoc(end, es + rest[..n], rest[n], v);
      BallotSnoc(end, fs + rest[..n], rest[n], v);
    }
  }

  lemma LatestOfTwo(end: Option<int>, x: Response, y: Response, v: string)
    requires x.sender != v && y.sender != v
    ensures v !in Latest(end, [x, y]).at
  {
    assert [x, y][..1] == [x] && [x][..0] == [];
    assert Latest(end, [x]) == Record(Latest(end, []), end, x);
  }

  // Two last responses of a user that differ, put first in either order, make a difference.
  lemma OrderDecides(end: Option<int>, x: Response, y: Response, rest: seq<Response>)
    requires x.sender == y.sender && Entered(multiset(Given(x))) != Entered(multiset(Given(y)))
    requires IsLast(end, [x, y] + rest, x) && IsLast(end, [x, y] + rest, y)
    requires PollOf(end, [x, y] + rest).Success?
    ensures !Alike(PollOf(end, [x, y] + rest), PollOf(end, [y, x] + rest))
  {
    hide Counted, Breaks, Latest, Counts, Entered, TotalFits, AllAnswers;
    var (fs, gs) := ([x, y] + rest, [y, x] + rest);
    var u := x.sender;
    assert forall e :: e in fs <==> e in gs;
    FirstWins(end, fs, x);
    FirstWins(end, gs, y);
    var (a, b) := (Latest(end, fs).at, Latest(end, gs).at);
    forall v | v != u
      ensures v in a <==> v in b
      ensures v in a ==> a[v] == b[v]
    {
      LatestOfTwo(end, x, y, v);
      LatestOfTwo(end, y, x, v);
      GoingOnAlike(end, [x, y], [y, x], rest, v);
      assert BallotOf(end, fs, v) == BallotOf(end, gs, v);
    }
    assert a - {u} == b - {u};
    AllAnswersSplit(a, u);
    AllAnswersSplit(b, u);
    EnteredSum(multiset(Given(x)), AllAnswers(a - {u}));
    EnteredSum(multiset(Given(y)), AllAnswers(a - {u}));
    OneSummand(Entered(multiset(Given(x))), Entered(multiset(Given(y))), Entered(AllAnswers(a - {u})));
    PollOfTallies(end, fs);
    PollOfTallies(end, gs);
    if PollOf(end, gs).Success? {
      EntriesTellBag(PollOf(end, fs).value.talliedAnswers, PollOf(end, gs).value.talliedAnswers,
                     AllAnswers(a), AllAnswers(b));
    }
  }

  lemma OneSummand(m: multiset<string>, n: multiset<string>, rest: multiset<string>)
    requires m != n
    ensures m + rest != n + rest
  {
    assert m + rest - rest == m && n + rest - rest == n;
  }

  // The events with two of them put first.
  lemma TwoFirst(es: seq<Response>, x: Response, y: Response) returns (rest: seq<Response>)
    requires x in es && y in es && x != y
    ensures multiset([x, y] + rest) == multiset(es) && multiset([y, x] + rest) == multiset(es)
  {
    var others := RemoveOne(es, x);
    assert y in multiset(others);
    rest := RemoveOne(others, y);
    RemovedBag(multiset(es), multiset(others), multiset(rest), x, y);
    PairBag(x, y, rest);
    PairBag(y, x, rest);
  }

  lemma PairBag(x: Response, y: Response, rest: seq<Response>)
    ensures multiset([x, y] + rest) == multiset(rest) + multiset{x} + multiset{y}
  {
    assert [x, y] + rest == [x] + ([y] + rest);
  }

  lemma RemovedBag(m: multiset<Response>, n: multiset<Response>, rest: multiset<Response>, x: Response, y: Response)
    requires x in m && n == m - multiset{x} && y in n && rest == n - multiset{y}
    ensures m == rest + multiset{x} + multiset{y} == rest + multiset{y} + multiset{x}
  {
  }

  lemma LastReordered(end: Option<int>, es: seq<Response>, fs: seq<Response>, e: Response)
    requires multiset(es) == multiset(fs) && IsLast(end, es, e)
    ensures IsLast(end, fs, e)
  {
    hide Counted;
    SameMembers(es, fs);
  }

  // Some reordering of the events comes to something else.
  lemma UnsettledDiffers(end: Option<int>, es: seq<Response>) returns (fs: seq<Response>)
    requires PollOf(end, es).Success? && !Settled(end, es)
    ensures multiset(fs) == multiset(es) && !Alike(PollOf(end, es), PollOf(end, fs))
  {
    var x, y :| IsLast(end, es, x) && IsLast(end, es, y) && x.sender == y.sender &&
                Entered(multiset(Given(x))) != Entered(multiset(Given(y)));
    hide *;
    LastIsMember(end, es, x);
    LastIsMember(end, es, y);
    var rest := TwoFirst(es, x, y);
    var (one, other) := ([x, y] + rest, [y, x] + rest);
    SameMembers(es, one);
    SameFailure(end, es, one);
    LastReordered(end, es, one, x);
    LastReordered(end, es, one, y);
    OrderDecides(end, x, y, rest);
    fs := one;
    if Alike(PollOf(end, es), PollOf(end, one)) {
      fs := other;
      if Alike(PollOf(end, es), PollOf(end, other)) {
        AlikeBoth(PollOf(end, es), PollOf(end, one), PollOf(end, other));
      }
    }
  }

  lemma LastIsMember(end: Option<int>, es: seq<Response>, e: Response)
    requires IsLast(end, es, e)
    ensures e in es
  {
  }

  lemma SameFailure(end: Option<int>, es: seq<Response>, fs: seq<Response>)
    requires forall e :: e in es <==> e in fs
    ensures PollOf(end, es).Failure? <==> PollOf(end, fs).Failure?
  {
    hide Breaks;
  }

  lemma AlikeBoth(r: Result<PollResponses>, p: Result<PollResponses>, q: Result<PollResponses>)
    requires Alike(r, p) && Alike(r, q)
    ensures Alike(p, q)
  {
  }

  // No reordering of the events makes a difference exactly when each user's last responses agree, or
  // the poll cannot be read at all.
  lemma OrderDoesNotMatter(end: Option<int>, es: seq<Response>)
    ensures (forall fs :: multiset(fs) == multiset(es) ==> Alike(PollOf(end, es), PollOf(end, fs))) <==>
            Settled(end, es) || PollOf(end, es).Failure?
  {
    hide Breaks, Latest, Alike, Settled;
    if PollOf(end, es).Failure? {
      forall fs | multiset(fs) == multiset(es)
        ensures Alike(PollOf(end, es), PollOf(end, fs))
      {
        SameMembers(es, fs);
        BothFail(PollOf(end, es), PollOf(end, fs));
      }
    } else if Settled(end, es) {
      forall fs | multiset(fs) == multiset(es)
        ensures Alike(PollOf(end, es), PollOf(end, fs))
      {
        SettledAlike(end, es, fs);
      }
    } else {
      var fs := UnsettledDiffers(end, es);
    }
  }

  lemma BothFail(r: Result<PollResponses>, q: Result<PollResponses>)
    requires r.Failure? && q.Failure?
    ensures Alike(r, q)
  {
  }

  // Where no winning ballot holds an inherited name, the total is a number, and no reordering changes it
  // either, if each user's last responses agree.
  lemma TotalDoesNotMove(end: Option<int>, es: seq<Response>, fs: seq<Response>)
    requires multiset(es) == multiset(fs) && Settled(end, es) && PollOf(end, es).Success?
    requires forall u, a :: u in Latest(end, es).at && a in Latest(end, es).at[u].answers ==> !Inherited(a)
    ensures PollOf(end, fs).Success? && PollOf(end, es).value.totalVotes == PollOf(end, fs).value.totalVotes
    ensures PollOf(end, es).value.totalVotes == Sum(AnswerCount(Latest(end, es).at))
  {
    hide Latest, Counted, Breaks, Inherited;
    SettledAlike(end, es, fs);
    PollOfTallies(end, es);
    PlainExactly(end, es, PollOf(end, es).value);
  }

  // With such a name the order decides what the total is a text of: one vote each for "constructor" and
  // "yes" is a text that begins with 0, or with 1.
  lemma TextTotalsMove()
    ensures var (c, y) := (Response("@a", 5, Answers(["constructor"])), Response("@b", 5, Answers(["yes"])));
            && multiset([c, y]) == multiset([y, c])
            && PollOf(None, [c, y]).Success? && PollOf(None, [c, y]).value.totalVotes == SomeText(0)
            && PollOf(None, [y, c]).Success? && PollOf(None, [y, c]).value.totalVotes == SomeText(1)
  {
    assert multiset([Response("@a", 5, Answers(["constructor"])), Response("@b", 5, Answers(["yes"]))]) ==
           multiset([Response("@b", 5, Answers(["yes"])), Response("@a", 5, Answers(["constructor"]))]);
    hide Inherited, PollOf, Plus;
    TwoVotes("@a", "constructor", "@b", "yes");
    TwoVotes("@b", "yes", "@a", "constructor");
    NameChecks();
    PlusChecks();
  }

  lemma NameChecks()
    ensures Inherited("constructor") && !Inherited("yes") && "constructor" != PROTO && "yes" != PROTO
  {
  }

  lemma PlusChecks()
    ensures Plus(Plus(Sum(0), Text(1)), Number(1)) == SomeText(0)
    ensures Plus(Plus(Sum(0), Number(1)), Text(1)) == SomeText(1)
  {
  }

  // Two users and a vote each, for different answers.
  lemma TwoVotes(u: string, a: string, v: string, b: string)
    requires u != v && u != "" && v != "" && a != b && a != PROTO && b != PROTO
    ensures var es := [Response(u, 5, Answers([a])), Response(v, 5, Answers([b]))];
            && PollOf(None, es).Success?
            && PollOf(None, es).value.totalVotes ==
               Plus(Plus(Sum(0), if Inherited(a) then Text(1) else Number(1)),
                    if Inherited(b) then Text(1) else Number(1))
  {
    hide Inherited, CountUsers, SumValues, Plus, Latest;
    var (x, y) := (Response(u, 5, Answers([a])), Response(v, 5, Answers([b])));
    LatestOfTwoVotes(x, y);
    var latest := Latest(None, [x, y]);
    CountTwo(u, v, latest.at, a, b);
    var tally := CountUsers(latest.keys, latest.at);
    SumOfTwo(a, b, tally.at);
  }

  lemma LatestOfTwoVotes(x: Response, y: Response)
    requires Counted(None, x) && Counted(None, y) && x.sender != y.sender
    ensures Latest(None, [x, y]) ==
            JsMap([x.sender, y.sender], map[x.sender := Ballot(x.ts, Given(x)), y.sender := Ballot(y.ts, Given(y))])
  {
    assert [x, y][..1] == [x] && [x][..0] == [];
    assert Latest(None, [x]) == Record(JsMap([], map[]), None, x);
    assert Latest(None, [x]).keys == [x.sender];
  }

  lemma CountTwo(u: string, v: string, ballots: map<string, Ballot>, a: string, b: string)
    requires u in ballots && v in ballots && ballots[u].answers == [a] && ballots[v].answers == [b]
    requires a != b && a != PROTO && b != PROTO
    ensures var tally := CountUsers([u, v], ballots);
            && tally.keys == [a, b]
            && a in tally.at && tally.at[a] == (if Inherited(a) then Text(1) else Number(1))
            && b in tally.at && tally.at[b] == (if Inherited(b) then Text(1) else Number(1))
  {
    hide Inherited, CountList;
    var nothing := CountUsers([], ballots);
    CountOneMore([], u, ballots);
    CountOneMore([u], v, ballots);
    assert [] + [u] == [u] && [u] + [v] == [u, v];
    CountSingle(nothing, a);
    CountSingle(CountUsers([u], ballots), b);
  }

  lemma CountOneMore(users: seq<string>, u: string, ballots: map<string, Ballot>)
    requires u in ballots
    ensures CountUsers(users + [u], ballots) == CountList(CountUsers(users, ballots), ballots[u].answers)
  {
    assert (users + [u])[..|users|] == users;
  }

  lemma CountSingle(tally: JsMap<string, Entry>, a: string)
    ensures CountList(tally, [a]) == Bump(tally, a)
  {
    assert [a][..0] == [];
    assert CountList(tally, []) == tally;
  }

  lemma SumOfTwo(a: string, b: string, at: map<string, Entry>)
    requires a in at && b in at
    ensures SumValues([a, b], at) == Plus(Plus(Sum(0), at[a]), at[b])
  {
    assert [a, b][..1] == [a] && [a][..0] == [];
    assert SumValues([a], at) == Plus(SumValues([], at), at[a]);
  }

  // Two events that are not settled: of two responses with the same timestamp the first one wins.
  lemma TiesGoToTheFirst()
    ensures var yes := Response("@u", 5, Answers(["yes"]));
            var no := Response("@u", 5, Answers(["no"]));
            && multiset([yes, no]) == multiset([no, yes])
            && Latest(None, [yes, no]).at["@u"].answers == ["yes"]
            && Latest(None, [no, yes]).at["@u"].answers == ["no"]
  {
    var yes := Response("@u", 5, Answers(["yes"]));
    var no := Response("@u", 5, Answers(["no"]));
    assert [yes, no][..1] == [yes] && [yes][..0] == [];
    assert [no, yes][..1] == [no] && [no][..0] == [];
    assert Latest(None, [yes]) == Record(JsMap([], map[]), None, yes);
    assert Latest(None, [no]) == Record(JsMap([], map[]), None, no);
  }
}
