// How calls come in: each makes one ticket, and so does each timer that fires; every one is delivered.
module SessionCalls {
  import opened Options
  import opened JsCollections
  import opened TokenClock
  import opened SessionBody
  import opened SessionChain
  import opened SessionChainInvariant
  import opened SessionProtocol

  // The chain promise of the call is still pending.
  predicate Pending(t: Ticket) {
    t.Ticket? && !t.phase.Chained? && !t.phase.Delivered?
  }

  // The state has one more call, with the given arguments. It waits exactly if an earlier call of the handle
  // is pending, and otherwise its start is queued last.
  ghost predicate MakesCall(s: State, s': State, h: HandleId, c: Call) {
    var n := |s.tickets|;
    && |s'.tickets| == n + 1 && s'.tickets[..n] == s.tickets
    && s'.locals == s.locals
    && var t := s'.tickets[n];
       && t.Ticket? && t.handle == h && t.replies == []
       && t.call.pass == c.pass && t.call.device == c.device && t.call.wantsClient == c.wantsClient
       && (t.phase.Waiting? || t.phase.Ready?)
       && (t.phase.Waiting? <==> exists i :: 0 <= i < n && s.tickets[i].handle == h && Pending(s.tickets[i]))
       && s'.jobs == if t.phase.Waiting? then s.jobs else s.jobs + [StartBody(n)]
  }

  lemma WaitsForPending(ts: seq<Ticket>, h: HandleId)
    requires Order(ts)
    ensures var p := LastCall(ts, h, |ts|);
            (p.Some? && p.value < |ts| && Rank(ts[p.value]) < 5) <==>
            exists i :: 0 <= i < |ts| && ts[i].handle == h && Pending(ts[i])
  {
    var p := LastCall(ts, h, |ts|);
    LastCallIsLast(ts, h, |ts|);
    if i :| 0 <= i < |ts| && ts[i].handle == h && Pending(ts[i]) {
      assert Rank(ts[i]) < 5;
      assert i < p.value ==> Rank(ts[p.value]) < 1;
    }
    if p.Some? && Rank(ts[p.value]) < 5 {
      assert Pending(ts[p.value]);
    }
  }

  lemma EnterChainMakesCall(cfg: Config, s: State, h: HandleId, c: Call)
    requires Links(s.tickets, s.tail) && Order(s.tickets)
    ensures MakesCall(s, EnterChain(s, h, c), h, c)
  {
    WaitsForPending(s.tickets, h);
    hide Order;
    assert LastCall(s.tickets, h, |s.tickets|) == if h in s.tail then Some(s.tail[h]) else None;
    assert EnterChain(s, h, c).tickets[..|s.tickets|] == s.tickets;
  }

  // A call makes one ticket, with its arguments, unless its handle has an inherited name.
  lemma CallIsMade(cfg: Config, run: seq<Action>, h: HandleId, c: Call)
    requires IsRun(cfg, run) && !Inherited(h)
    ensures Enabled(cfg, After(cfg, run), Enter(h, c))
    ensures MakesCall(After(cfg, run), Next(cfg, After(cfg, run), Enter(h, c)), h, c)
  {
    hide Inherited, EnterChain, MakesCall, Links, Order;
    RunInv(cfg, run);
    EnterChainMakesCall(cfg, After(cfg, run), h, c);
  }

  // A timer that fires makes one call for its handle, with the passphrase of the session and no device; it
  // does not fire again.
  lemma FireMakesCall(cfg: Config, s: State, h: HandleId, k: nat)
    requires Inv(cfg, s) && Enabled(cfg, s, Fire(h, k))
    ensures var s' := Next(cfg, s, Fire(h, k));
            && LocalOf(s, h).session.Some?
            && MakesCall(s, s', h, Call(LocalOf(s, h).session.value.pass, None, false))
            && k !in Live(s', h)
  {
    hide EnterChain, MakesCall, Links, Order, Waits, Queue, History, FiredBefore, TimerFits;
    LiveTimerFits(cfg, s, h, k);
    var l := LocalOf(s, h);
    FittingTimer(cfg, l.session.value, l.armed[k], 0);
    var fired := s.(fired := s.fired + {(h, k)});
    EnterChainMakesCall(cfg, fired, h, Call(l.armed[k].pass, None, false));
    FiredAside(s, fired, Next(cfg, s, Fire(h, k)), h, Call(l.armed[k].pass, None, false));
    SameFired(fired, h, Call(l.armed[k].pass, None, false));
  }

  lemma TimerMakesCall(cfg: Config, run: seq<Action>, h: HandleId, k: nat)
    requires IsRun(cfg, run) && Enabled(cfg, After(cfg, run), Fire(h, k))
    ensures var s := After(cfg, run);
            var s' := Next(cfg, s, Fire(h, k));
            && LocalOf(s, h).session.Some?
            && MakesCall(s, s', h, Call(LocalOf(s, h).session.value.pass, None, false))
            && k !in Live(s', h)
  {
    hide Next, Enabled, MakesCall, Inv;
    RunInv(cfg, run);
    FireMakesCall(cfg, After(cfg, run), h, k);
  }

  lemma FiredAside(s: State, fired: State, s': State, h: HandleId, c: Call)
    requires fired == s.(fired := fired.fired) && MakesCall(fired, s', h, c)
    ensures MakesCall(s, s', h, c)
  {
  }

  lemma SameFired(s: State, h: HandleId, c: Call)
    ensures EnterChain(s, h, c).fired == s.fired
  {
  }

  // Tickets stay: later states have the same calls, and more.
  lemma {:induction false} CallsStay(cfg: Config, run: seq<Action>, more: seq<Action>, i: nat)
    requires IsRun(cfg, run + more) && IsRun(cfg, run) && i < |After(cfg, run).tickets|
    ensures i < |After(cfg, run + more).tickets|
    ensures SameCall(After(cfg, run).tickets[i], After(cfg, run + more).tickets[i])
    decreases |more|
  {
    hide Enabled, Next;
    if more == [] {
      assert run + more == run;
    } else {
      var n := |more| - 1;
      assert (run + more)[..|run + more| - 1] == run + more[..n];
      CallsStay(cfg, run, more[..n], i);
      NextKeepsCall(cfg, After(cfg, run + more[..n]), more[n], i);
    }
  }

  lemma NextKeepsCall(cfg: Config, s: State, a: Action, i: nat)
    requires Enabled(cfg, s, a) && i < |s.tickets|
    ensures i < |Next(cfg, s, a).tickets| && SameCall(s.tickets[i], Next(cfg, s, a).tickets[i])
  {
    hide Inherited, Step, Possible, DeleteSession, Live;
  }

  // The call of a timer that fires can be brought to its end.
  lemma TimerCallIsDelivered(cfg: Config, run: seq<Action>, h: HandleId, k: nat) returns (more: seq<Action>)
    requires IsRun(cfg, run) && Enabled(cfg, After(cfg, run), Fire(h, k))
    ensures IsRun(cfg, run + [Fire(h, k)] + more) && (forall a :: a in more ==> GoesOn(a))
    ensures var n := |After(cfg, run).tickets|;
            var ts := After(cfg, run + [Fire(h, k)] + more).tickets;
            n < |ts| && ts[n].Ticket? && ts[n].handle == h && ts[n].phase.Delivered?
  {
    hide Next, Enabled, Live;
    var fired := run + [Fire(h, k)];
    assert fired[..|fired| - 1] == run;
    TimerMakesCall(cfg, run, h, k);
    more := EveryCallIsDelivered(cfg, fired);
    CallsStay(cfg, fired, more, |After(cfg, run).tickets|);
  }

  // The caller is resumed with the outcome of its body, and with a client exactly when it asked for one and
  // the body returned.
  lemma CallerIsResumed(cfg: Config, run: seq<Action>, clock: Clock, i: nat)
    requires IsRun(cfg, run)
    requires var s := After(cfg, run); s.jobs != [] && s.jobs[0] == Resume(i) && Enabled(cfg, s, RunJob(clock))
    ensures var s := After(cfg, run);
            var t := Next(cfg, s, RunJob(clock)).tickets[i];
            && t.phase.Delivered? && s.tickets[i].phase == Chained(t.phase.outcome)
            && (t.phase.client.Some? <==> t.call.wantsClient && t.phase.outcome.Returned?)
  {
    var s := After(cfg, run);
    var o := s.tickets[i].phase.outcome;
    if o.Returned? {
      SessionHoldsReturnedToken(cfg, run, i, o.token);
    }
    hide Inv;
  }

  // ---------- deletions from outside ----------

  // What a deletion leaves of the session and the storage, wherever it halts: unless it is complete, the
  // session is still there.
  predicate Deleted(cfg: Config, l: Local, l': Local, halt: Halt) {
    && l'.armed == map[] && l'.clients == l.clients && l'.nextTimer == l.nextTimer
    && (l'.session == if halt.Complete? then None else l.session)
    && (l'.stored == if halt.AtOpen? || halt.AtToken? then l.stored else None)
    && (l'.storeOpen <==> if halt.AtOpen? then l.storeOpen else cfg.hasStorage && !halt.Complete?)
    && (l'.storageFault <==> l.storageFault || !halt.Complete?)
  }

  lemma DeletionLeaves(cfg: Config, l: Local, halt: Halt)
    requires Linked(cfg, l)
    ensures l.session.None? ==> DeleteSession(cfg, l, halt) == l
    ensures l.session.Some? ==> Deleted(cfg, l, DeleteSession(cfg, l, halt), halt)
  {
    hide Uses, Decodes, TimerFits;
  }

  // A deletion from outside takes place exactly when no call of the handle is open, and it can fail to open a
  // storage only if there is one.
  lemma DeletionAllowed(cfg: Config, s: State, h: HandleId, halt: Halt)
    ensures Enabled(cfg, s, DeleteOutside(h, halt)) <==>
            && (halt.AtOpen? ==> cfg.hasStorage)
            && forall t :: t in s.tickets && t.handle == h && t.Ticket? ==> t.phase.Delivered?
  {
    if Enabled(cfg, s, DeleteOutside(h, halt)) {
      forall t | t in s.tickets && t.handle == h && t.Ticket?
        ensures t.phase.Delivered?
      {
        var i :| 0 <= i < |s.tickets| && s.tickets[i] == t;
        assert Rank(s.tickets[i]) == 6;
      }
    } else {
      assert forall i :: 0 <= i < |s.tickets| ==> s.tickets[i] in s.tickets;
    }
  }

  // It leaves the other handles, the open calls and the microtasks alone, and disarms the timer; without a
  // session nothing changes.
  lemma DeletionIsMade(cfg: Config, run: seq<Action>, h: HandleId, halt: Halt)
    requires IsRun(cfg, run) && !Inherited(h) && Enabled(cfg, After(cfg, run), DeleteOutside(h, halt))
    ensures var s := After(cfg, run);
            var s' := Next(cfg, s, DeleteOutside(h, halt));
            && s'.tickets == s.tickets + [Deletion(h, halt)] && s'.jobs == s.jobs && s'.tail == s.tail
            && s'.fired == s.fired
            && (forall g :: g != h ==> LocalOf(s', g) == LocalOf(s, g))
            && (LocalOf(s, h).session.None? ==> LocalOf(s', h) == LocalOf(s, h))
            && (LocalOf(s, h).session.Some? ==> Deleted(cfg, LocalOf(s, h), LocalOf(s', h), halt))
  {
    hide Inherited, Deleted, DeleteSession, Inv, Linked;
    RunInv(cfg, run);
    HandleLinked(cfg, After(cfg, run), h);
    DeletionLeaves(cfg, LocalOf(After(cfg, run), h), halt);
  }
}
