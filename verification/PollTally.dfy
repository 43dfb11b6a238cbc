// Counting the responses to a poll.
module PollTally {
  import opened Options
  import opened JsCollections

  // The answers of a response event: the response block may be missing, and what it holds as
  // answers need not be a list.
  datatype Payload = Missing | NotAList | Answers(list: seq<string>)

  // `sender` is empty when the event has none.
  datatype Response = Response(sender: string, ts: int, payload: Payload)

  datatype Ballot = Ballot(ts: int, answers: seq<string>)

  // An entry of the tally: a number; or, since `{}` answers to inherited names, the text of the inherited
  // value with so many digits 1 appended.
  datatype Entry = Number(n: nat) | Text(ones: nat)

  // The total: a number, or the text that adding up turns into at the first entry that is a text. It begins
  // with the sum so far, and goes on with a letter.
  datatype Total = Sum(n: nat) | SomeText(before: nat)

  datatype PollResponses = PollResponses(talliedAnswers: JsMap<string, Entry>, totalVotes: Total, endedAt: Option<int>)

  // An end timestamp of 0 counts as "not ended".
  predicate Late(end: Option<int>, e: Response) {
    end.Some? && end.value != 0 && e.ts > end.value
  }

  // The answers a response gives, if any.
  function Given(e: Response): seq<string> {
    if e.payload.Answers? then e.payload.list else []
  }

  predicate Counted(end: Option<int>, e: Response) {
    !Late(end, e) && e.sender != "" && Given(e) != []
  }

  // Reading the answers of such an event throws.
  predicate Breaks(end: Option<int>, e: Response) {
    !Late(end, e) && e.sender != "" && e.payload.Missing?
  }

  // ---------- the latest response of each user ----------

  function Record(latest: JsMap<string, Ballot>, end: Option<int>, e: Response): JsMap<string, Ballot> {
    if Counted(end, e) && (e.sender !in latest.at || latest.at[e.sender].ts < e.ts)
    then latest.Set(e.sender, Ballot(e.ts, Given(e)))
    else latest
  }

  function Latest(end: Option<int>, es: seq<Response>): JsMap<string, Ballot> {
    if es == [] then JsMap([], map[]) else Record(Latest(end, es[..|es| - 1]), end, es[|es| - 1])
  }

  // Response `k` is the latest one of the user that counts, the first seen on ties.
  ghost predicate IsWinner(end: Option<int>, es: seq<Response>, user: string, k: nat) {
    k < |es| && Counted(end, es[k]) && es[k].sender == user &&
    forall i :: 0 <= i < |es| && Counted(end, es[i]) && es[i].sender == user ==>
      es[i].ts < es[k].ts || (es[i].ts == es[k].ts && k <= i)
  }

  ghost predicate Votes(end: Option<int>, es: seq<Response>, user: string) {
    exists i :: 0 <= i < |es| && Counted(end, es[i]) && es[i].sender == user
  }

  ghost predicate WinningBallot(end: Option<int>, es: seq<Response>, user: string, b: Ballot) {
    exists k: nat :: IsWinner(end, es, user, k) && b == Ballot(es[k].ts, Given(es[k]))
  }

  lemma {:induction false} LatestIsWinner(end: Option<int>, es: seq<Response>, user: string)
    ensures Latest(end, es).Valid()
    ensures user in Latest(end, es).at <==> Votes(end, es, user)
    ensures user in Latest(end, es).at ==> WinningBallot(end, es, user, Latest(end, es).at[user])
  {
    if es != [] {
      var n := |es| - 1;
      LatestIsWinner(end, es[..n], user);
      VotesSnoc(end, es, user);
      assert es == es[..n] + [es[n]];
      if Counted(end, es[n]) && es[n].sender == user {
        WinnerSnoc(end, es[..n], es[n]);
      } else if user in Latest(end, es).at {
        IgnoredSnoc(end, es[..n], es[n], user, Latest(end, es).at[user]);
      }
    }
  }

  lemma VotesSnoc(end: Option<int>, es: seq<Response>, user: string)
    requires es != []
    ensures Votes(end, es, user) <==>
            Votes(end, es[..|es| - 1], user) || (Counted(end, es[|es| - 1]) && es[|es| - 1].sender == user)
  {
    var n := |es| - 1;
    if Votes(end, es[..n], user) {
      var i :| 0 <= i < n && Counted(end, es[..n][i]) && es[..n][i].sender == user;
      assert Counted(end, es[i]);
    }
    if Votes(end, es, user) && !(Counted(end, es[n]) && es[n].sender == user) {
      var i :| 0 <= i < |es| && Counted(end, es[i]) && es[i].sender == user;
      assert Counted(end, es[..n][i]);
    }
  }

  // An event that does not count for the user changes nothing.
  lemma IgnoredSnoc(end: Option<int>, es: seq<Response>, e: Response, user: string, b: Ballot)
    requires WinningBallot(end, es, user, b)
    requires !(Counted(end, e) && e.sender == user)
    ensures WinningBallot(end, es + [e], user, b)
  {
    var k: nat :| IsWinner(end, es, user, k) && b == Ballot(es[k].ts, Given(es[k]));
    assert IsWinner(end, es + [e], user, k);
  }

  lemma WinnerSnoc(end: Option<int>, es: seq<Response>, e: Response)
    requires Counted(end, e)
    requires var before := Latest(end, es);
             && (e.sender in before.at <==> Votes(end, es, e.sender))
             && (e.sender in before.at ==> WinningBallot(end, es, e.sender, before.at[e.sender]))
    ensures var after := Record(Latest(end, es), end, e);
            e.sender in after.at && WinningBallot(end, es + [e], e.sender, after.at[e.sender])
  {
    var before := Latest(end, es);
    var n := |es|;
    if e.sender !in before.at {
      assert IsWinner(end, es + [e], e.sender, n);
    } else {
      var k: nat :| IsWinner(end, es, e.sender, k) && before.at[e.sender] == Ballot(es[k].ts, Given(es[k]));
      if es[k].ts < e.ts {
        assert IsWinner(end, es + [e], e.sender, n);
      } else {
        assert IsWinner(end, es + [e], e.sender, k);
      }
    }
  }

  // ---------- the tally ----------

  // The answers of all ballots together.
  ghost function AllAnswers(ballots: map<string, Ballot>): multiset<string> {
    if ballots == map[] then multiset{}
    else
      var u :| u in ballots;
      multiset(ballots[u].answers) + AllAnswers(ballots - {u})
  }

  // The sum of the lengths of the answer lists.
  ghost function AnswerCount(ballots: map<string, Ballot>): nat {
    if ballots == map[] then 0
    else
      var u :| u in ballots;
      |ballots[u].answers| + AnswerCount(ballots - {u})
  }

  lemma {:induction false} AllAnswersSplit(ballots: map<string, Ballot>, u: string)
    requires u in ballots
    ensures AllAnswers(ballots) == multiset(ballots[u].answers) + AllAnswers(ballots - {u})
    decreases |ballots|
  {
    var v :| v in ballots && AllAnswers(ballots) == multiset(ballots[v].answers) + AllAnswers(ballots - {v});
    if v != u {
      AllAnswersSplit(ballots - {v}, u);
      AllAnswersSplit(ballots - {u}, v);
      assert ballots - {v} - {u} == ballots - {u} - {v};
    }
  }

  lemma {:induction false} AllAnswersSize(ballots: map<string, Ballot>)
    ensures |AllAnswers(ballots)| == AnswerCount(ballots)
    decreases |ballots|
  {
    if ballots != map[] {
      var u :| u in ballots && AnswerCount(ballots) == |ballots[u].answers| + AnswerCount(ballots - {u});
      AllAnswersSplit(ballots, u);
      AllAnswersSize(ballots - {u});
    }
  }

  lemma {:induction false} InAllAnswers(ballots: map<string, Ballot>, a: string)
    ensures a in AllAnswers(ballots) <==> exists u :: u in ballots && a in ballots[u].answers
    decreases |ballots|
  {
    if ballots != map[] {
      var u :| u in ballots;
      AllAnswersSplit(ballots, u);
      InAllAnswers(ballots - {u}, a);
      assert a in multiset(ballots[u].answers) <==> a in ballots[u].answers;
      assert forall v :: v in ballots <==> v == u || v in ballots - {u};
    }
  }

  // The answers that make an entry.
  ghost function Entered(bag: multiset<string>): multiset<string> {
    bag[PROTO := 0]
  }

  // The tally has an entry for each answer of the bag but `__proto__`. It is the number of times the
  // answer occurs there, unless the name is inherited: adding 1 to the inherited value gives a text.
  ghost predicate Counts(tally: JsMap<string, Entry>, bag: multiset<string>) {
    && tally.Valid()
    && (forall a :: a in tally.at <==> a in Entered(bag))
    && (forall a :: a in tally.at ==> tally.at[a] == if Inherited(a) then Text(bag[a]) else Number(bag[a]))
  }

  // `talliedAnswers[answer] = (talliedAnswers[answer] ?? 0) + 1`
  function Bump(tally: JsMap<string, Entry>, a: string): JsMap<string, Entry> {
    if a == PROTO then tally
    else if a in tally.at then
      match tally.at[a]
      case Number(n) => tally.Set(a, Number(n + 1))
      case Text(ones) => tally.Set(a, Text(ones + 1))
    else tally.Set(a, if Inherited(a) then Text(1) else Number(1))
  }

  lemma BumpCounts(tally: JsMap<string, Entry>, bag: multiset<string>, a: string)
    requires Counts(tally, bag)
    ensures Counts(Bump(tally, a), bag + multiset{a})
  {
    hide Inherited;
    NotEntered(bag, a);
    BumpAt(tally, a, bag[a]);
    var after := Bump(tally, a);
    forall x
      ensures x in after.at <==> x in Entered(bag + multiset{a})
      ensures x in after.at ==>
                after.at[x] == if Inherited(x) then Text((bag + multiset{a})[x]) else Number((bag + multiset{a})[x])
    {
      hide Entered, Bump;
      NotEntered(bag, x);
      NotEntered(bag + multiset{a}, x);
    }
  }

  // One entry goes up by one, the others stay.
  lemma BumpAt(tally: JsMap<string, Entry>, a: string, n: nat)
    requires tally.Valid() && (a != PROTO ==> (a in tally.at <==> n > 0))
    requires a in tally.at ==> tally.at[a] == if Inherited(a) then Text(n) else Number(n)
    ensures var after := Bump(tally, a);
            && after.Valid()
            && (forall x :: x in after.at <==> x in tally.at || (x == a && a != PROTO))
            && (forall x :: x in tally.at && x != a ==> after.at[x] == tally.at[x])
            && (a != PROTO ==> after.at[a] == if Inherited(a) then Text(n + 1) else Number(n + 1))
            && (a == PROTO ==> after == tally)
  {
    hide Inherited;
  }

  lemma NotEntered(bag: multiset<string>, a: string)
    ensures a in Entered(bag) <==> a in bag && a != PROTO
  {
  }

  // `sum + count`
  function Plus(sum: Total, e: Entry): Total {
    if sum.SomeText? then sum
    else if e.Number? then Sum(sum.n + e.n)
    else SomeText(sum.n)
  }

  // `Object.values(...).reduce`.
  function SumValues(keys: seq<string>, at: map<string, Entry>): Total {
    if keys == [] then Sum(0)
    else
      var k := keys[|keys| - 1];
      if k in at then Plus(SumValues(keys[..|keys| - 1], at), at[k]) else SumValues(keys[..|keys| - 1], at)
  }

  // The occurrences in the bag of the answers outside `keys`.
  ghost function Among(keys: seq<string>, bag: multiset<string>): multiset<string> {
    if keys == [] then bag else Among(keys[..|keys| - 1], bag)[keys[|keys| - 1] := 0]
  }

  lemma {:induction false} AmongSpec(keys: seq<string>, bag: multiset<string>, a: string)
    ensures Among(keys, bag)[a] == if a in keys then 0 else bag[a]
  {
    if keys != [] {
      AmongSpec(keys[..|keys| - 1], bag, a);
    }
  }

  lemma {:induction false} SumIsSize(keys: seq<string>, at: map<string, Entry>, bag: multiset<string>)
    requires NoDup(keys)
    requires forall a :: a in keys ==> a in at && (at[a].Number? ==> bag[a] == at[a].n)
    ensures SumValues(keys, at).Sum? <==> forall a :: a in keys ==> at[a].Number?
    ensures SumValues(keys, at).Sum? ==> SumValues(keys, at).n + |Among(keys, bag)| == |bag|
  {
    if keys != [] {
      var n := |keys| - 1;
      SumIsSize(keys[..n], at, bag);
      AmongSpec(keys[..n], bag, keys[n]);
      var rest := Among(keys[..n], bag);
      assert rest == rest[keys[n] := 0] + multiset{}[keys[n] := rest[keys[n]]];
      assert forall a :: a in keys <==> a in keys[..n] || a == keys[n];
    }
  }

  // The total is the number of the answers that make an entry, unless one of them has an inherited name.
  ghost predicate TotalFits(total: Total, bag: multiset<string>) {
    if exists a :: a in Entered(bag) && Inherited(a) then total.SomeText? else total == Sum(|Entered(bag)|)
  }

  // A total that is a text begins with the sum of the entries before the first text.
  lemma {:induction false} TextBegins(keys: seq<string>, at: map<string, Entry>) returns (i: nat)
    requires (forall k :: k in keys ==> k in at) && SumValues(keys, at).SomeText?
    ensures i < |keys| && at[keys[i]].Text? && SumValues(keys[..i], at) == Sum(SumValues(keys, at).before)
  {
    var n := |keys| - 1;
    if SumValues(keys[..n], at).SomeText? {
      i := TextBegins(keys[..n], at);
      assert keys[..n][..i] == keys[..i];
    } else {
      i := n;
    }
  }

  lemma TotalIsSize(tally: JsMap<string, Entry>, bag: multiset<string>)
    requires Counts(tally, bag)
    ensures TotalFits(SumValues(tally.keys, tally.at), bag)
  {
    hide Inherited;
    var entered := Entered(bag);
    forall a | a in tally.keys
      ensures a in tally.at && (tally.at[a].Number? <==> !Inherited(a)) &&
          (tally.at[a].Number? ==> entered[a] == tally.at[a].n)
    {
      assert a in tally.at && a in entered;
      assert a != PROTO;
    }
    SumIsSize(tally.keys, tally.at, entered);
    forall a
      ensures Among(tally.keys, entered)[a] == 0
    {
      AmongSpec(tally.keys, entered, a);
      assert a in entered ==> a in tally.at;
    }
    assert Among(tally.keys, entered) == multiset{};
    if a :| a in entered && Inherited(a) {
      assert a in tally.at;
      assert a in tally.keys;
    }
  }

  // ---------- the counting loops ----------

  function CountList(tally: JsMap<string, Entry>, answers: seq<string>): JsMap<string, Entry> {
    if answers == [] then tally else Bump(CountList(tally, answers[..|answers| - 1]), answers[|answers| - 1])
  }

  lemma {:induction false} CountListCounts(tally: JsMap<string, Entry>, answers: seq<string>, bag: multiset<string>)
    requires Counts(tally, bag)
    ensures Counts(CountList(tally, answers), bag + multiset(answers))
  {
    hide Counts, Bump;
    if answers == [] {
      assert bag + multiset(answers) == bag;
    } else {
      var n := |answers| - 1;
      CountListCounts(tally, answers[..n], bag);
      BumpCounts(CountList(tally, answers[..n]), bag + multiset(answers[..n]), answers[n]);
      assert answers == answers[..n] + [answers[n]];
      assert bag + multiset(answers[..n]) + multiset{answers[n]} == bag + multiset(answers);
    }
  }

  function CountUsers(users: seq<string>, ballots: map<string, Ballot>): JsMap<string, Entry> {
    if users == [] then JsMap([], map[])
    else
      var u := users[|users| - 1];
      CountList(CountUsers(users[..|users| - 1], ballots), if u in ballots then ballots[u].answers else [])
  }

  // The answers of the ballots of some users, one after another.
  ghost function AnswersOf(users: seq<string>, ballots: map<string, Ballot>): multiset<string> {
    if users == [] then multiset{}
    else
      var u := users[|users| - 1];
      AnswersOf(users[..|users| - 1], ballots) + multiset(if u in ballots then ballots[u].answers else [])
  }

  lemma {:induction false} CountUsersCounts(users: seq<string>, ballots: map<string, Ballot>)
    ensures Counts(CountUsers(users, ballots), AnswersOf(users, ballots))
  {
    if users == [] {
      NothingCounted();
    } else {
      hide Counts;
      var n := |users| - 1;
      CountUsersCounts(users[..n], ballots);
      CountListCounts(CountUsers(users[..n], ballots), if users[n] in ballots then ballots[users[n]].answers else [],
                      AnswersOf(users[..n], ballots));
    }
  }

  lemma NothingCounted()
    ensures Counts(JsMap([], map[]), multiset{})
  {
  }

  lemma {:induction false} AnswersOfFrame(users: seq<string>, ballots: map<string, Ballot>, u: string)
    requires u !in users
    ensures AnswersOf(users, ballots - {u}) == AnswersOf(users, ballots)
  {
    if users != [] {
      AnswersOfFrame(users[..|users| - 1], ballots, u);
    }
  }

  lemma {:induction false} AnswersOfAll(users: seq<string>, ballots: map<string, Ballot>)
    requires NoDup(users) && forall u :: u in users <==> u in ballots
    ensures AnswersOf(users, ballots) == AllAnswers(ballots)
  {
    if users == [] {
      assert ballots == map[];
    } else {
      var n := |users| - 1;
      var u := users[n];
      assert u !in users[..n];
      AnswersOfFrame(users[..n], ballots, u);
      forall v
        ensures v in users[..n] <==> v in ballots - {u}
      {
        assert v in users <==> v in users[..n] || v == u;
      }
      AnswersOfAll(users[..n], ballots - {u});
      AllAnswersSplit(ballots, u);
    }
  }

  method CountAnswers(ballots: JsMap<string, Ballot>) returns (tally: JsMap<string, Entry>)
    requires ballots.Valid()
    ensures tally == CountUsers(ballots.keys, ballots.at)
    ensures Counts(tally, AllAnswers(ballots.at))
  {
    hide Counts, Bump, AllAnswers;
    tally := JsMap([], map[]);
    for i := 0 to |ballots.keys|
      invariant tally == CountUsers(ballots.keys[..i], ballots.at)
    {
      assert ballots.keys[i] in ballots.keys;
      assert ballots.keys[..i + 1][..i] == ballots.keys[..i];
      var answers := ballots.at[ballots.keys[i]].answers;
      ghost var before := tally;
      for j := 0 to |answers|
        invariant tally == CountList(before, answers[..j])
      {
        assert answers[..j + 1][..j] == answers[..j];
        tally := Bump(tally, answers[j]);
      }
      assert answers[..|answers|] == answers;
    }
    assert ballots.keys[..|ballots.keys|] == ballots.keys;
    CountUsersCounts(ballots.keys, ballots.at);
    AnswersOfAll(ballots.keys, ballots.at);
  }

  // ---------- the outcome of a poll ----------

  // What the poll comes to, given the events of all pages together.
  ghost function PollOf(end: Option<int>, es: seq<Response>): Result<PollResponses> {
    if exists e :: e in es && Breaks(end, e) then Failure
    else
      var latest := Latest(end, es);
      var tally := CountUsers(latest.keys, latest.at);
      Success(PollResponses(tally, SumValues(tally.keys, tally.at), end))
  }

  // The tally has the answers of each user's latest response that counts, and the total is theirs.
  ghost predicate Tallies(end: Option<int>, es: seq<Response>, r: PollResponses) {
    var bag := AllAnswers(Latest(end, es).at);
    Counts(r.talliedAnswers, bag) && TotalFits(r.totalVotes, bag) && r.endedAt == end
  }

  lemma PollOfTallies(end: Option<int>, es: seq<Response>)
    ensures PollOf(end, es).Success? ==> Tallies(end, es, PollOf(end, es).value)
  {
    hide Counts, TotalFits, AllAnswers;
    var latest := Latest(end, es);
    assert latest.Valid() by {
      LatestIsWinner(end, es, "");
    }
    var tally := CountUsers(latest.keys, latest.at);
    CountUsersCounts(latest.keys, latest.at);
    AnswersOfAll(latest.keys, latest.at);
    TotalIsSize(tally, AllAnswers(latest.at));
  }

  // The plain reading: each answer is counted, and the total is the number of answers given.
  ghost predicate CountsPlainly(end: Option<int>, es: seq<Response>, r: PollResponses) {
    var ballots := Latest(end, es).at;
    && (forall a :: a in r.talliedAnswers.at <==> a in AllAnswers(ballots))
    && (forall a :: a in r.talliedAnswers.at ==> r.talliedAnswers.at[a] == Number(AllAnswers(ballots)[a]))
    && r.totalVotes == Sum(AnswerCount(ballots))
  }

  // That is what the poll comes to exactly when no winning ballot holds an inherited name.
  lemma PlainExactly(end: Option<int>, es: seq<Response>, r: PollResponses)
    requires Tallies(end, es, r)
    ensures CountsPlainly(end, es, r) <==>
            forall u, a :: u in Latest(end, es).at && a in Latest(end, es).at[u].answers ==> !Inherited(a)
  {
    hide Inherited, Latest;
    var ballots := Latest(end, es).at;
    var bag := AllAnswers(ballots);
    AllAnswersSize(ballots);
    assert Inherited(PROTO) by {
      ProtoInherited();
    }
    forall a
      ensures a in bag <==> exists u :: u in ballots && a in ballots[u].answers
    {
      InAllAnswers(ballots, a);
    }
    if forall a :: a in bag ==> !Inherited(a) {
      assert Entered(bag) == bag;
    } else {
      var a :| a in bag && Inherited(a);
      assert a in r.talliedAnswers.at ==> r.talliedAnswers.at[a].Text?;
    }
  }

  lemma ProtoInherited()
    ensures Inherited(PROTO)
  {
  }

  // The name of an answer alone can spoil the poll: one vote for "constructor".
  lemma ConstructorIsNotCounted()
    ensures var r := PollOf(None, [Response("@u", 5, Answers(["constructor"]))]);
            && r.Success?
            && "constructor" in r.value.talliedAnswers.at
            && r.value.talliedAnswers.at["constructor"] == Text(1)
            && r.value.totalVotes.SomeText?
  {
    var e := Response("@u", 5, Answers(["constructor"]));
    var es := [e];
    assert es[..0] == [];
    assert Latest(None, es) == Record(JsMap([], map[]), None, e);
    PollOfTallies(None, es);
    var ballots := Latest(None, es).at;
    InAllAnswers(ballots, "constructor");
    AllAnswersSplit(ballots, "@u");
    assert ballots - {"@u"} == map[];
    var bag := AllAnswers(ballots);
    assert bag == multiset{"constructor"};
    assert "constructor" in Entered(bag) && Inherited("constructor");
  }

  lemma LatestSnoc(end: Option<int>, es: seq<Response>, e: Response)
    ensures Latest(end, es + [e]) == Record(Latest(end, es), end, e)
  {
    assert (es + [e])[..|es|] == es;
  }

  // The events of one page; `stopped` tells that the code has thrown.
  method RecordPage(before: JsMap<string, Ballot>, end: Option<int>, page: seq<Response>, ghost seen: seq<Response>)
    returns (latest: JsMap<string, Ballot>, stopped: bool)
    requires before == Latest(end, seen)
    ensures stopped <==> exists e :: e in page && Breaks(end, e)
    ensures !stopped ==> latest == Latest(end, seen + page)
  {
    hide Breaks, Latest, Record;
    latest, stopped := before, false;
    assert seen + page[..0] == seen;
    for j := 0 to |page|
      invariant latest == Latest(end, seen + page[..j])
      invariant forall k :: 0 <= k < j ==> !Breaks(end, page[k])
    {
      if Breaks(end, page[j]) {
        return latest, true;
      }
      assert seen + page[..j + 1] == seen + page[..j] + [page[j]];
      LatestSnoc(end, seen + page[..j], page[j]);
      latest := Record(latest, end, page[j]);
    }
    assert page[..|page|] == page;
  }

  // `getPollResponses`
  method GetPollResponses(end: Option<int>, pages: seq<seq<Response>>) returns (r: Result<PollResponses>)
    requires pages != []
    ensures r == PollOf(end, Flatten(pages))
    ensures r.Failure? <==> exists e :: e in Flatten(pages) && Breaks(end, e)
    ensures r.Success? ==> Tallies(end, Flatten(pages), r.value)
  {
    hide Breaks, Latest, Counts;
    var latestResponseByUser: JsMap<string, Ballot> := JsMap([], map[]);
    NoResponses(end);
    for i := 0 to |pages|
      invariant latestResponseByUser == Latest(end, Flatten(pages[..i]))
      invariant forall e :: e in Flatten(pages[..i]) ==> !Breaks(end, e)
    {
      var stopped;
      latestResponseByUser, stopped := RecordPage(latestResponseByUser, end, pages[i], Flatten(pages[..i]));
      if stopped {
        ghost var e :| e in pages[i] && Breaks(end, e);
        InFlatten(pages, i, e);
        return Failure;
      }
      assert pages[..i + 1][..i] == pages[..i];
    }
    assert pages[..|pages|] == pages;
    LatestIsWinner(end, Flatten(pages), "");
    var talliedAnswers := CountAnswers(latestResponseByUser);
    PollOfTallies(end, Flatten(pages));
    r := Success(PollResponses(talliedAnswers, SumValues(talliedAnswers.keys, talliedAnswers.at), end));
  }

  lemma NoResponses(end: Option<int>)
    ensures Latest(end, Flatten([])) == JsMap([], map[])
  {
  }

  lemma {:induction false} InFlatten(pages: seq<seq<Response>>, i: nat, e: Response)
    requires i < |pages| && e in pages[i]
    ensures e in Flatten(pages)
    decreases |pages|
  {
    if i < |pages| - 1 {
      InFlatten(pages[..|pages| - 1], i, e);
    }
  }
}
