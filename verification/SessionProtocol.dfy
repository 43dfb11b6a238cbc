// What the session protocol guarantees in every run: calls, microtasks, answers to awaits, timers
// and deletions from outside, interleaved in any way.
module SessionProtocol {
  import opened Options
  import opened JsCollections
  import opened TokenClock
  import opened SessionBody
  import opened SessionChain
  import opened SessionChainInvariant

  // A run of the protocol, and the state it ends in.
  ghost predicate IsRun(cfg: Config, run: seq<Action>)
    decreases |run|, 0
  {
    run == [] ||
    (IsRun(cfg, run[..|run| - 1]) && Enabled(cfg, After(cfg, run[..|run| - 1]), run[|run| - 1]))
  }

  ghost function After(cfg: Config, run: seq<Action>): State
    requires IsRun(cfg, run)
    decreases |run|, 1
  {
    if run == [] then Initial else Next(cfg, After(cfg, run[..|run| - 1]), run[|run| - 1])
  }

  lemma InitialHistory(cfg: Config)
    ensures History(cfg, map[], [])
  {
  }

  lemma InitialLinks()
    ensures Links([], map[])
  {
  }

  lemma InitialQueue()
    ensures Order([]) && Waits([]) && Queue([], [])
  {
    hide Rank, Fits, HasJob;
  }

  lemma InitialInv(cfg: Config)
    ensures Inv(cfg, Initial)
  {
    hide Links, Order, Waits, Queue, History;
    InitialHistory(cfg);
    InitialLinks();
    InitialQueue();
  }

  lemma {:induction false} RunInv(cfg: Config, run: seq<Action>)
    requires IsRun(cfg, run)
    ensures Inv(cfg, After(cfg, run))
    decreases |run|
  {
    hide Inv;
    if run == [] {
      InitialInv(cfg);
    } else {
      RunInv(cfg, run[..|run| - 1]);
      NextKeepsInv(cfg, After(cfg, run[..|run| - 1]), run[|run| - 1]);
    }
  }

  // ---------- one body at a time, in call order ----------

  // When the body of a later call has begun, every earlier caller of the handle has been resumed.
  lemma BodiesRunInCallOrder(cfg: Config, run: seq<Action>, i: nat, j: nat)
    requires IsRun(cfg, run)
    requires var ts := After(cfg, run).tickets;
             i < j < |ts| && ts[i].handle == ts[j].handle && ts[i].Ticket? && Rank(ts[j]) >= 2
    ensures After(cfg, run).tickets[i].phase.Delivered?
  {
    hide Links, Waits, Queue, FiredBefore, History;
    RunInv(cfg, run);
  }

  lemma OneBodyAtATime(cfg: Config, run: seq<Action>, i: nat, j: nat)
    requires IsRun(cfg, run)
    requires var s := After(cfg, run);
             InPhase(s, i, 2) && InPhase(s, j, 2) && s.tickets[i].handle == s.tickets[j].handle
    ensures i == j
  {
    hide Links, Waits, Queue, FiredBefore, History;
    RunInv(cfg, run);
  }

  // The interleaved run has done to each handle what its bodies do one after another in call order,
  // and each call has come out as its body does in that sequential run.
  lemma SequentialRun(cfg: Config, run: seq<Action>, h: HandleId)
    requires IsRun(cfg, run)
    ensures var s := After(cfg, run); LocalOf(s, h) == Replay(cfg, s.tickets, h, |s.tickets|)
    ensures var s := After(cfg, run); forall i :: 0 <= i < |s.tickets| ==> Recorded(cfg, s.tickets, i)
  {
    hide Links, Waits, Queue, FiredBefore, Order;
    RunInv(cfg, run);
  }

  // A handle with an inherited name never gets a ticket or a session.
  lemma {:induction false} InheritedHandlesAreRefused(cfg: Config, run: seq<Action>, h: HandleId)
    requires IsRun(cfg, run) && Inherited(h)
    ensures var s := After(cfg, run);
            LocalOf(s, h) == FreshLocal && forall i :: 0 <= i < |s.tickets| ==> s.tickets[i].handle != h
    decreases |run|
  {
    hide Inherited, Enabled, Next;
    if run != [] {
      var n := |run| - 1;
      InheritedHandlesAreRefused(cfg, run[..n], h);
      StaysRefused(cfg, After(cfg, run[..n]), run[n], h);
    }
  }

  lemma StaysRefused(cfg: Config, s: State, a: Action, h: HandleId)
    requires Inherited(h) && Enabled(cfg, s, a)
    requires LocalOf(s, h) == FreshLocal && forall i :: 0 <= i < |s.tickets| ==> s.tickets[i].handle != h
    ensures var s' := Next(cfg, s, a);
            LocalOf(s', h) == FreshLocal && forall i :: 0 <= i < |s'.tickets| ==> s'.tickets[i].handle != h
  {
    hide Inherited, Rank, Step, Possible, DeleteSession;
    if a.Fire? {
      assert a.timer in LocalOf(s, a.handle).armed;
    }
  }

  // ---------- timers ----------

  // A handle has at most one live timer, the one stored in its session; without a session it has
  // none. While no call is open and no storage call has failed, the stored timer is live unless it
  // has fired.
  lemma TimersFollowSessions(cfg: Config, run: seq<Action>, h: HandleId)
    requires IsRun(cfg, run)
    ensures var s := After(cfg, run); var l := LocalOf(s, h);
            && (forall k :: k in Live(s, h) ==> l.session.Some? && l.session.value.timer == Some(k))
            && |Live(s, h)| <= 1
            && (l.session.None? ==> Live(s, h) == {})
    ensures var s := After(cfg, run); var l := LocalOf(s, h);
            (forall i :: 0 <= i < |s.tickets| && s.tickets[i].handle == h ==> Rank(s.tickets[i]) == 6) &&
            !l.storageFault && l.session.Some? && l.session.value.timer.Some? ==>
            (l.session.value.timer.value in Live(s, h) <==> (h, l.session.value.timer.value) !in s.fired)
  {
    hide Inv;
    var s := After(cfg, run);
    RunInv(cfg, run);
    HandleLinked(cfg, s, h);
    if Live(s, h) != {} {
      var k :| k in Live(s, h);
      assert Live(s, h) == {k};
    }
  }

  // Firing `late` milliseconds late, the timer finds the token of the session expiring soon, and so
  // refreshes it, exactly when the part of a second already spent when it was set plus the lateness stays
  // below the threshold; else it finds it expired.
  predicate FiresInTime(cfg: Config, s: Session, t: Timer, late: nat)
    requires Decodes(s.token)
  {
    var firesAt := t.setAt + t.delay + late;
    var inTime := t.setAt % 1000 + late < cfg.minutes * 60 * 1000;
    && (ExpiringSoon(s.token.exp, firesAt, cfg.minutes) <==> inTime)
    && (Expired(s.token.exp, firesAt) <==> !inTime)
    && !Fresh(s.token.exp, firesAt, cfg.minutes)
  }

  // A live timer passes on the passphrase of the session, and fires into its refresh or expiry branch as
  // its lateness says.
  lemma LiveTimerRefreshes(cfg: Config, run: seq<Action>, h: HandleId, k: nat, late: nat)
    requires IsRun(cfg, run) && k in Live(After(cfg, run), h)
    ensures var l := LocalOf(After(cfg, run), h);
            && l.session.Some? && Decodes(l.session.value.token)
            && l.armed[k].pass == l.session.value.pass
            && FiresInTime(cfg, l.session.value, l.armed[k], late)
  {
    RunInv(cfg, run);
    hide Inv, IsRun, After, TimerFits, FiresInTime;
    LiveTimerFits(cfg, After(cfg, run), h, k);
    var l := LocalOf(After(cfg, run), h);
    FittingTimer(cfg, l.session.value, l.armed[k], late);
  }

  lemma LiveTimerFits(cfg: Config, s: State, h: HandleId, k: nat)
    requires Inv(cfg, s) && k in Live(s, h)
    ensures var l := LocalOf(s, h); k in l.armed && l.session.Some? && TimerFits(cfg, l.session.value, l.armed[k])
  {
    hide Inv, TimerFits;
    HandleLinked(cfg, s, h);
  }

  lemma FittingTimer(cfg: Config, s: Session, t: Timer, late: nat)
    requires TimerFits(cfg, s, t)
    ensures Decodes(s.token) && t.pass == s.pass && FiresInTime(cfg, s, t, late)
  {
    hide Seconds;
    TimerTakesRefreshBranch(s.token.exp, t.setAt, cfg.minutes, late);
  }

  // ---------- tokens ----------

  // The call `i` has come to its end with token `t`.
  predicate Returns(s: State, i: nat, t: Token) {
    && i < |s.tickets| && s.tickets[i].Ticket?
    && match s.tickets[i].phase
       case Ended(o) => o == Returned(t)
       case Settled(o) => o == Returned(t)
       case Chained(o) => o == Returned(t)
       case Delivered(o, _) => o == Returned(t)
       case _ => false
  }

  // A token that a call returns was, during that call, the cached or stored token and judged fresh, or
  // granted by the service.
  lemma ReturnedTokenWasBrought(cfg: Config, run: seq<Action>, i: nat, t: Token)
    requires IsRun(cfg, run) && Returns(After(cfg, run), i, t)
    ensures var c := After(cfg, run).tickets[i];
            var l := Replay(cfg, After(cfg, run).tickets, c.handle, i);
            Runs(cfg, l, Begin(c.call), c.replies) &&
            exists k: nat :: k < |c.replies| && Brings(cfg, l, Begin(c.call), c.replies, k, t)
  {
    SequentialRun(cfg, run, "");
    var ts := After(cfg, run).tickets;
    assert Recorded(cfg, ts, i);
    CarriedTokenWasBrought(cfg, Replay(cfg, ts, ts[i].handle, i), ts[i].call, ts[i].replies, t);
  }

  // From the end of a body with token `t` until its caller has been resumed, the session exists and
  // holds `t`, its client uses `t`, and `t` is persisted unless a storage call has ever failed.
  lemma SessionHoldsReturnedToken(cfg: Config, run: seq<Action>, i: nat, t: Token)
    requires IsRun(cfg, run) && Returns(After(cfg, run), i, t)
    requires !After(cfg, run).tickets[i].phase.Delivered?
    ensures var l := LocalOf(After(cfg, run), After(cfg, run).tickets[i].handle);
            && l.session.Some? && l.session.value.token == t
            && l.session.value.client < |l.clients| && l.clients[l.session.value.client] == t
            && (cfg.hasStorage && !l.storageFault ==> l.stored == Some(t))
  {
    hide Links, Waits, Queue, FiredBefore, History;
    var s := After(cfg, run);
    RunInv(cfg, run);
    forall k | 0 <= k < i && s.tickets[k].handle == s.tickets[i].handle
      ensures Rank(s.tickets[k]) >= 5
    {
      assert Rank(s.tickets[i]) >= 1;
    }
    BodyAtWork(cfg, s, i);
  }

  // `getMatrixClient` resumes before the next body of its handle starts, and so hands out a client
  // that uses the token its own body returned.
  lemma CallerGetsItsClient(cfg: Config, run: seq<Action>, clock: Clock, i: nat, t: Token)
    requires IsRun(cfg, run)
    requires var s := After(cfg, run);
             s.jobs != [] && s.jobs[0] == Resume(i) && Enabled(cfg, s, RunJob(clock))
    requires Returns(After(cfg, run), i, t) && After(cfg, run).tickets[i].call.wantsClient
    ensures var s := Next(cfg, After(cfg, run), RunJob(clock));
            && s.tickets[i].phase.Delivered? && s.tickets[i].phase.client.Some?
            && var clients := LocalOf(s, s.tickets[i].handle).clients;
               s.tickets[i].phase.client.value < |clients| && clients[s.tickets[i].phase.client.value] == t
  {
    SessionHoldsReturnedToken(cfg, run, i, t);
  }

  // ---------- nothing gets stuck ----------

  // Every `await` of a body can come back.
  lemma AwaitCanComeBack(cfg: Config, l: Local, b: Body) returns (r: Reply)
    requires !b.pc.Finished?
    ensures Possible(cfg, l, b, r)
  {
    r := if b.pc.Service() then Failed else Done(Clock(0, 0, 0));
  }

  // Whether the runtime can go on by itself: a microtask is queued, or an `await` can come back.
  predicate GoesOn(a: Action) {
    a.RunJob? || a.Answer?
  }

  // While a call is open, a microtask can run, or an `await` of a body of its handle can come back.
  lemma OpenCallMakesProgress(cfg: Config, run: seq<Action>, i: nat) returns (a: Action)
    requires IsRun(cfg, run)
    requires var s := After(cfg, run); i < |s.tickets| && Rank(s.tickets[i]) < 6
    ensures GoesOn(a) && Enabled(cfg, After(cfg, run), a)
    ensures a.Answer? ==> var s := After(cfg, run); s.tickets[a.i].handle == s.tickets[i].handle
  {
    var s := After(cfg, run);
    RunInv(cfg, run);
    if s.jobs != [] {
      a := RunJob(Clock(0, 0, 0));
      QueueHeadEnabled(cfg, s, a.clock);
    } else {
      FirstOpenRuns(cfg, s, i);
      var j: nat :| j < |s.tickets| && s.tickets[j].Ticket? && s.tickets[j].phase.Running? &&
                    s.tickets[j].handle == s.tickets[i].handle;
      RunningIsUnfinished(cfg, s, j);
      var r := AwaitCanComeBack(cfg, LocalOf(s, s.tickets[j].handle), s.tickets[j].phase.body);
      a := Answer(j, r);
    }
  }

  lemma RunningIsUnfinished(cfg: Config, s: State, j: nat)
    requires Inv(cfg, s) && j < |s.tickets| && s.tickets[j].Ticket? && s.tickets[j].phase.Running?
    ensures !s.tickets[j].phase.body.pc.Finished?
  {
    hide Links, Order, Waits, Queue, FiredBefore;
    assert Recorded(cfg, s.tickets, j);
  }

  // The second reaction of a promise is not first in the queue while the other one is in it.
  lemma ReactionsInOrder(s: State, k: nat)
    requires Queue(s.tickets, s.jobs) && k < |s.jobs| && s.jobs[k].ChainNext?
    ensures s.jobs[0] != Resume(s.jobs[k].i)
  {
    assert s.jobs[k + 1] == Resume(s.jobs[k].i);
  }

  lemma QueueHeadEnabled(cfg: Config, s: State, clock: Clock)
    requires Queue(s.tickets, s.jobs) && s.jobs != []
    ensures Enabled(cfg, s, RunJob(clock))
  {
    var j := s.jobs[0];
    assert Fits(s.tickets, j);
    if j.Resume? && Rank(s.tickets[j.i]) == 4 {
      assert HasJob(s.jobs, s.tickets[j.i], j.i);
      var k: nat :| k < |s.jobs| && s.jobs[k] == ChainNext(j.i);
      ReactionsInOrder(s, k);
    }
  }

  // Without microtasks, the first call of a handle that is still open has a running body.
  lemma FirstOpenRuns(cfg: Config, s: State, i: nat)
    requires Inv(cfg, s) && s.jobs == [] && i < |s.tickets| && Rank(s.tickets[i]) < 6
    ensures exists j: nat :: j < |s.tickets| && s.tickets[j].Ticket? && s.tickets[j].phase.Running? &&
              s.tickets[j].handle == s.tickets[i].handle
    decreases i
  {
    hide Order, FiredBefore, History;
    var t := s.tickets[i];
    assert HasJob(s.jobs, t, i);
    if t.phase.Waiting? {
      var p := t.prev.value;
      LastCallIsLast(s.tickets, t.handle, i);
      FirstOpenRuns(cfg, s, p);
    } else {
      QueueHasNoSettled(s, i);
      assert t.phase.Running?;
    }
  }

  lemma QueueHasNoSettled(s: State, i: nat)
    requires Queue(s.tickets, s.jobs) && s.jobs == [] && i < |s.tickets|
    ensures Rank(s.tickets[i]) in {0, 2, 6}
  {
    assert HasJob(s.jobs, s.tickets[i], i);
  }

  // The steps a ticket still needs, and those all tickets need together.
  function Effort(t: Ticket): nat {
    if t.Deletion? then 0
    else match t.phase
      case Waiting => 20
      case Ready => 19
      case Running(b) => 4 + Remaining(b)
      case Ended(_) => 3
      case Settled(_) => 2
      case Chained(_) => 1
      case Delivered(_, _) => 0
  }

  function TotalEffort(ts: seq<Ticket>): nat {
    if ts == [] then 0 else TotalEffort(ts[..|ts| - 1]) + Effort(ts[|ts| - 1])
  }

  lemma {:induction false} EffortOfUpdate(ts: seq<Ticket>, i: nat, t: Ticket)
    requires i < |ts|
    ensures TotalEffort(ts[i := t]) == TotalEffort(ts) - Effort(ts[i]) + Effort(t)
    decreases |ts|
  {
    var n := |ts| - 1;
    if i < n {
      assert ts[i := t][..n] == ts[..n][i := t];
      EffortOfUpdate(ts[..n], i, t);
    } else {
      assert ts[i := t][..n] == ts[..n];
    }
  }

  // The end of a body wakes at most one waiting ticket.
  lemma ChainTakesEffort(cfg: Config, s: State, clock: Clock, i: nat)
    requires Inv(cfg, s) && Enabled(cfg, s, RunJob(clock)) && s.jobs[0] == ChainNext(i)
    ensures TotalEffort(RunFirstJob(cfg, s, clock).tickets) < TotalEffort(s.tickets)
  {
    hide Order, FiredBefore, History, Queue, Links, Waits;
    var ts := SetPhase(s.tickets, i, Chained(s.tickets[i].phase.outcome));
    EffortOfUpdate(s.tickets, i, ts[i]);
    match Successor(s.tickets, i, |s.tickets|)
    case None =>
    case Some(j) =>
      SuccessorWaits(s, i, j);
      EffortOfUpdate(ts, j, SetPhase(ts, j, Ready)[j]);
  }

  lemma AdvanceTakesEffort(cfg: Config, s: State, i: nat, b: Body, r: Reply)
    requires i < |s.tickets| && s.tickets[i].Ticket? && Possible(cfg, LocalOf(s, s.tickets[i].handle), b, r)
    requires 4 + Remaining(b) <= Effort(s.tickets[i])
    ensures TotalEffort(Advance(cfg, s, i, b, r).tickets) < TotalEffort(s.tickets)
  {
    hide Possible, Step;
    StepApproachesEnd(cfg, LocalOf(s, s.tickets[i].handle), b, r);
    EffortOfUpdate(s.tickets, i, Advance(cfg, s, i, b, r).tickets[i]);
  }

  // Every microtask and every answer brings the open calls closer to their end.
  lemma StepTakesEffort(cfg: Config, s: State, a: Action)
    requires Inv(cfg, s) && Enabled(cfg, s, a) && (a.RunJob? || a.Answer?)
    ensures TotalEffort(Next(cfg, s, a).tickets) < TotalEffort(s.tickets)
  {
    hide Inv, Advance, TotalEffort;
    if a.Answer? {
      AdvanceTakesEffort(cfg, s, a.i, s.tickets[a.i].phase.body, a.reply);
    } else {
      var i := s.jobs[0].i;
      var s' := Next(cfg, s, a);
      match s.jobs[0]
      case StartBody(_) =>
        AdvanceTakesEffort(cfg, s.(jobs := s.jobs[1..]), i, Begin(s.tickets[i].call), Done(a.clock));
      case SettleRun(_) => EffortOfUpdate(s.tickets, i, s'.tickets[i]);
      case Resume(_) => EffortOfUpdate(s.tickets, i, s'.tickets[i]);
      case ChainNext(_) => ChainTakesEffort(cfg, s, a.clock, i);
    }
  }

  lemma SuccessorWaits(s: State, i: nat, j: nat)
    requires Links(s.tickets, s.tail) && Order(s.tickets) && i < |s.tickets| && j < |s.tickets|
    requires s.tickets[j].Ticket? && s.tickets[j].prev == Some(i) && Rank(s.tickets[i]) < 5
    ensures i < j && s.tickets[j].phase.Waiting?
  {
    hide Order;
    OneSuccessor(s, i, j, j);
    WokenWaits(s.tickets, i, j);
  }

  // A run that goes on with microtasks and answers only is no longer than the effort left.
  lemma {:induction false} StepsAreBounded(cfg: Config, run: seq<Action>, more: seq<Action>)
    requires IsRun(cfg, run + more)
    requires forall a :: a in more ==> GoesOn(a)
    ensures IsRun(cfg, run)
    ensures |more| + TotalEffort(After(cfg, run + more).tickets) <= TotalEffort(After(cfg, run).tickets)
    decreases |more|
  {
    hide Enabled, Inv, Next, TotalEffort;
    if more == [] {
      assert run + more == run;
    } else {
      var n := |more| - 1;
      assert (run + more)[..|run + more| - 1] == run + more[..n];
      assert more[n] in more;
      StepsAreBounded(cfg, run, more[..n]);
      RunInv(cfg, run + more[..n]);
      StepTakesEffort(cfg, After(cfg, run + more[..n]), more[n]);
    }
  }

  // Every call has come out and its caller has been resumed.
  predicate AllDelivered(s: State) {
    forall i :: 0 <= i < |s.tickets| && s.tickets[i].Ticket? ==> s.tickets[i].phase.Delivered?
  }

  // A run that cannot go on by itself has resumed every caller, however the bodies came out.
  lemma QuietMeansDelivered(cfg: Config, run: seq<Action>)
    requires IsRun(cfg, run)
    requires forall a :: GoesOn(a) ==> !Enabled(cfg, After(cfg, run), a)
    ensures AllDelivered(After(cfg, run))
  {
    hide Enabled;
    var s := After(cfg, run);
    forall i | 0 <= i < |s.tickets| && s.tickets[i].Ticket?
      ensures s.tickets[i].phase.Delivered?
    {
      if Rank(s.tickets[i]) < 6 {
        var a := OpenCallMakesProgress(cfg, run, i);
        assert false;
      }
    }
  }

  lemma DeliveredAtRank(s: State)
    ensures AllDelivered(s) <==> forall i :: 0 <= i < |s.tickets| ==> Rank(s.tickets[i]) == 6
  {
    forall i | 0 <= i < |s.tickets|
      ensures Rank(s.tickets[i]) == 6 <==> (s.tickets[i].Ticket? ==> s.tickets[i].phase.Delivered?)
    {
    }
  }

  // Every run can go on, by at most as many steps as there is effort left, until every caller has been
  // resumed: no body, failed or not, keeps a later call from being delivered.
  lemma {:induction false} EveryCallIsDelivered(cfg: Config, run: seq<Action>) returns (more: seq<Action>)
    requires IsRun(cfg, run)
    ensures IsRun(cfg, run + more) && (forall a :: a in more ==> GoesOn(a))
    ensures |more| <= TotalEffort(After(cfg, run).tickets)
    ensures AllDelivered(After(cfg, run + more))
    decreases TotalEffort(After(cfg, run).tickets)
  {
    hide Enabled, Inv, GoesOn, Next, TotalEffort, Rank, AllDelivered, IsRun, After;
    var s := After(cfg, run);
    DeliveredAtRank(s);
    if i: nat :| i < |s.tickets| && Rank(s.tickets[i]) < 6 {
      var a := OpenCallMakesProgress(cfg, run, i);
      OneMore(cfg, run, a);
      var longer := run + [a];
      var rest := EveryCallIsDelivered(cfg, longer);
      more := [a] + rest;
      assert run + more == longer + rest;
    } else {
      RanksEnd(s);
      more := [];
      assert run + more == run;
    }
  }

  lemma OneMore(cfg: Config, run: seq<Action>, a: Action)
    requires IsRun(cfg, run) && GoesOn(a) && Enabled(cfg, After(cfg, run), a)
    ensures IsRun(cfg, run + [a])
    ensures TotalEffort(After(cfg, run + [a]).tickets) < TotalEffort(After(cfg, run).tickets)
  {
    hide Enabled, Inv, Next, TotalEffort;
    var longer := run + [a];
    assert longer[..|longer| - 1] == run;
    RunInv(cfg, run);
    StepTakesEffort(cfg, After(cfg, run), a);
  }

  lemma RanksEnd(s: State)
    requires forall i: nat :: !(i < |s.tickets| && Rank(s.tickets[i]) < 6)
    ensures forall i :: 0 <= i < |s.tickets| ==> Rank(s.tickets[i]) == 6
  {
    forall i | 0 <= i < |s.tickets|
      ensures Rank(s.tickets[i]) == 6
    {
      var j: nat := i;
      assert !(j < |s.tickets| && Rank(s.tickets[j]) < 6);
    }
  }
}
