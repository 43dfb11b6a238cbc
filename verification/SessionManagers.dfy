// The session manager as an object: its records are updated in place, one synchronous stretch of
// code at a time. Each method does exactly what the corresponding step of the protocol does, and
// keeps the invariant of the protocol.
module SessionManagers {
  import opened Options
  import opened JsCollections
  import opened TokenClock
  import opened SessionBody
  import opened SessionChain
  import opened SessionChainInvariant
  import opened SessionOutcomes
  import opened SessionReturns
  import opened SessionCalls

  // A refresh step keeps the client and carries the token of the session on, unless it failed and turns
  // to deletion.
  lemma RefreshKeepsClient(cfg: Config, l: Local, b: Body, r: Reply)
    requires Working(cfg, l, b) && Possible(cfg, l, b, r)
    requires b.pc.RefreshService? || b.pc.RefreshOpen? || b.pc.RefreshSave?
    ensures var (l', b') := StepRefresh(cfg, l, b, r);
            && Working(cfg, l', b')
            && if b'.pc.Deleting() then l'.armed == map[] && (r.Failed? || (r.Granted? && !Decodes(r.token)))
               else
                 && l'.session.Some? && l'.session.value.client == l.session.value.client
                 && Carries(b', l'.session.value.token)
  {
    hide RefreshDelay, Decodes;
    StepRefreshKeepsWorking(cfg, l, b, r);
  }

  class SessionManager {
    const cfg: Config
    // The state of each handle: its `sessions` entry, timers, clients and storage.
    var locals: map<HandleId, Local>
    var fired: set<(HandleId, nat)>
    // The calls made so far, and `perHandleSessionChain`.
    var tickets: seq<Ticket>
    var perHandleSessionChain: map<HandleId, nat>
    // The microtask queue of the runtime.
    var jobs: seq<Job>

    ghost function View(): State
      reads this
    {
      State(locals, fired, tickets, perHandleSessionChain, jobs)
    }

    ghost predicate Valid()
      reads this
    {
      Inv(cfg, View())
    }

    constructor (cfg: Config)
      ensures this.cfg == cfg && View() == Initial
    {
      this.cfg := cfg;
      locals, fired, tickets, perHandleSessionChain, jobs := map[], {}, [], map[], [];
    }

    // ---------- the segments of a body ----------

    // `deleteSession` up to its first `await`: the session is still there, its timer is not.
    method BeginDeleteSession(l: Local, b: Body) returns (l': Local, b': Body)
      ensures (l', b') == BeginDelete(l, b)
      ensures Linked(cfg, l) && l.session.Some? ==>
                l'.armed == map[] && l'.session == l.session && b'.pc.DeleteStopSync?
    {
      l', b' := l, b;
      if l'.session.Some? {
        var timer := l'.session.value.timer;
        if timer.Some? {
          l' := l'.(armed := l'.armed - {timer.value});
        }
        b' := b'.(pc := DeleteStopSync);
      } else {
        b' := b'.(pc := CreateOpen);
      }
    }

    // `scheduleTokenRefresh`.
    method ScheduleTokenRefresh(l: Local, t: Token, pass: Option<string>, ms: int)
      returns (l': Local, timer: Option<nat>)
      requires Decodes(t)
      ensures (l', timer) == Schedule(cfg, l, t, pass, ms)
      ensures timer.Some? <==> cfg.minutes > 0 && Fresh(t.exp, ms, cfg.minutes)
      ensures timer.Some? ==>
                timer.value in l'.armed &&
                forall c :: TimerFits(cfg, Session(t, pass, c, timer), l'.armed[timer.value])
      ensures forall k :: k in l.armed && timer != Some(k) ==> k in l'.armed && l'.armed[k] == l.armed[k]
    {
      l', timer := l, None;
      var before := t.exp - Seconds(ms) - cfg.minutes * 60;
      if cfg.minutes > 0 && before > 0 {
        timer := Some(l'.nextTimer);
        l' := l'.(armed := l'.armed[l'.nextTimer := Timer(pass, ms, before * 1000)]);
        l' := l'.(nextTimer := l'.nextTimer + 1);
      }
    }

    // `ensureValidSessionBody` and `tryUseCachedSession`. From a handle at rest the first thing waited for
    // tells what was found: a session goes on to be returned as it is, deleted or refreshed.
    method TryUseCachedSession(l: Local, b: Body, clock: Clock) returns (l': Local, b': Body)
      ensures (l', b') == StepStart(cfg, l, b, clock)
      ensures l.session.None? <==> b'.pc.CreateOpen?
      ensures Rest(cfg, l) && l.session.Some? ==>
                var s := l.session.value;
                && (b'.pc.Finished? <==> Usable(cfg, l, s, clock))
                && (b'.pc.Finished? ==> l' == l && b'.pc == Finished(Returned(s.token)))
                && (b'.pc.DeleteStopSync? <==> !Usable(cfg, l, s, clock) && Expired(s.token.exp, clock.third))
                && (b'.pc.DeleteStopSync? ==> l'.armed == map[])
                && (!b'.pc.Finished? && !b'.pc.DeleteStopSync? ==> l' == l && b'.pc == RefreshService(s))
    {
      l', b' := l, b;
      if l.session.None? {
        b' := b'.(pc := CreateOpen);
        return;
      }
      var cached := l.session.value;
      b' := b'.(pass := cached.pass.OrElse(b.pass));
      if !Decodes(cached.token) {
        b' := Finish(b', Rejected);
      } else if JudgedFresh(cached.token.exp, cfg.minutes, clock) && Uses(l, cached.client, cached.token) {
        b' := Finish(b', Returned(cached.token));
      } else if Expired(cached.token.exp, clock.third) {
        l', b' := BeginDeleteSession(l', b');
      } else {
        b' := b'.(pc := RefreshService(cached));
      }
    }

    // `refreshCachedSessionToken`.
    method RefreshCachedSessionToken(l: Local, b: Body, r: Reply) returns (l': Local, b': Body)
      requires b.pc.RefreshService? || b.pc.RefreshOpen? || b.pc.RefreshSave?
      requires Possible(cfg, l, b, r)
      ensures (l', b') == StepRefresh(cfg, l, b, r)
      ensures Working(cfg, l, b) ==> Working(cfg, l', b')
      ensures Working(cfg, l, b) ==>
                if b'.pc.Deleting() then l'.armed == map[] && (r.Failed? || (r.Granted? && !Decodes(r.token)))
                else
                  && l'.session.Some? && l'.session.value.client == l.session.value.client
                  && Carries(b', l'.session.value.token)
    {
      if Working(cfg, l, b) {
        RefreshKeepsClient(cfg, l, b, r);
      }
      hide Working, Carries;
      l', b' := l, b;
      if r.Failed? {
        if !b.pc.RefreshService? {
          l' := Fault(l');
        }
        l', b' := BeginDeleteSession(l', b');
        return;
      }
      match b.pc
      case RefreshService(cached) =>
        var newToken := r.token;
        if !Decodes(newToken) {
          l', b' := BeginDeleteSession(l', b');
          return;
        }
        if cached.timer.Some? {
          l' := l'.(armed := l'.armed - {cached.timer.value});
        }
        var timer;
        l', timer := ScheduleTokenRefresh(l', newToken, b.pass, r.clock.first);
        if cached.client < |l'.clients| {
          l' := l'.(clients := l'.clients[cached.client := newToken]);
        }
        l' := l'.(session := Some(Session(newToken, b.pass, cached.client, timer)));
        b' := b'.(pc := RefreshOpen(newToken));
      case RefreshOpen(t) =>
        l' := l'.(storeOpen := cfg.hasStorage);
        b' := b'.(pc := RefreshSave(t));
      case RefreshSave(t) =>
        l' := Save(cfg, l', t);
        b' := Finish(b', Returned(t));
    }

    // `createNewSession`.
    method CreateNewSession(l: Local, b: Body, r: Reply) returns (l': Local, b': Body)
      requires b.pc.Creating() || b.pc.CreateSave?
      requires Possible(cfg, l, b, r)
      ensures (l', b') == StepCreate(cfg, l, b, r)
      ensures Working(cfg, l, b) ==> Working(cfg, l', b')
      ensures Working(cfg, l, b) && b'.pc.CreateSave? ==>
                l'.session.Some? && l'.session.value.client == |l.clients| && Carries(b', l'.session.value.token)
      ensures b'.pc == Finished(Rejected) <==> Fatal(cfg, l, b, r)
    {
      StepRejectsExactly(cfg, l, b, r);
      hide Fatal;
      if Working(cfg, l, b) {
        StepCreateKeepsWorking(cfg, l, b, r);
      }
      l', b' := l, b;
      if r.Failed? {
        if !b.pc.CreateService? && !b.pc.CreateClient? {
          l' := Fault(l');
        }
        b' := Finish(b', Rejected);
        return;
      }
      match b.pc
      case CreateOpen =>
        l' := l'.(storeOpen := cfg.hasStorage);
        b' := b'.(pc := CreateRead);
      case CreateRead =>
        if !cfg.hasStorage || l.stored.None? {
          b' := b'.(pc := CreateService);
        } else {
          var stored := l.stored.value;
          if !Decodes(stored) {
            b' := Finish(b', Rejected);
          } else if JudgedFresh(stored.exp, cfg.minutes, r.clock) {
            b' := b'.(pc := CreateClient(stored));
          } else {
            b' := b'.(pc := CreateService, device := Some(stored.device));
          }
        }
      case CreateService =>
        b' := if Decodes(r.token) then b'.(pc := CreateClient(r.token)) else Finish(b', Rejected);
      case CreateClient(t) =>
        if !Decodes(t) {
          b' := Finish(b', Rejected);
          return;
        }
        var timer;
        l', timer := ScheduleTokenRefresh(l', t, b.pass, r.clock.first);
        var client := |l'.clients|;
        l' := l'.(clients := l'.clients + [t]);
        l' := l'.(session := Some(Session(t, b.pass, client, timer)));
        b' := b'.(pc := CreateSave(t));
      case CreateSave(t) =>
        l' := Save(cfg, l', t);
        b' := Finish(b', Returned(t));
    }

    // The body of call `i` goes on until its next `await` or its end.
    method ResumeBody(i: nat, b: Body, r: Reply)
      requires i < |tickets| && tickets[i].Ticket?
      requires Possible(cfg, LocalOf(View(), tickets[i].handle), b, r)
      modifies `locals, `tickets, `jobs
      ensures View() == Advance(cfg, old(View()), i, b, r)
    {
      var t := tickets[i];
      var l := LocalIn(locals, t.handle);
      var b' := b;
      if b.pc.Start? {
        l, b' := TryUseCachedSession(l, b, r.clock);
      } else if b.pc.Deleting() {
        var next := StepDelete(cfg, l, b, r);
        l, b' := next.0, next.1;
      } else if b.pc.Creating() || b.pc.CreateSave? {
        l, b' := CreateNewSession(l, b, r);
      } else {
        l, b' := RefreshCachedSessionToken(l, b, r);
      }
      locals := locals[t.handle := l];
      tickets := tickets[i := t.(phase := AfterStep(b'), replies := t.replies + [r])];
      if b'.pc.Finished? {
        jobs := jobs + [SettleRun(i)];
      }
    }

    // ---------- the steps of the protocol ----------

    // `ensureValidSession` through `runSessionWorkSerialized`; it throws for an inherited name.
    method EnsureValidSession(h: HandleId, c: Call) returns (i: Option<nat>)
      requires Valid()
      modifies this
      ensures Valid() && View() == Next(cfg, old(View()), Enter(h, c))
      ensures i == if Inherited(h) then None else Some(|old(tickets)|)
      ensures i.Some? ==> MakesCall(old(View()), View(), h, c)
    {
      if Inherited(h) {
        return None;
      }
      EnterChainMakesCall(cfg, View(), h, c);
      hide Inv, EnterChain, Inherited, MakesCall;
      EnterKeepsInv(cfg, View(), h, c);
      var k := Attach(h, c);
      i := Some(k);
    }

    method Attach(h: HandleId, c: Call) returns (i: nat)
      modifies `tickets, `perHandleSessionChain, `jobs
      ensures View() == EnterChain(old(View()), h, c) && i == |old(tickets)|
    {
      i := |tickets|;
      var prev := None;
      if h in perHandleSessionChain {
        prev := Some(perHandleSessionChain[h]);
      }
      if prev.Some? && prev.value < i && Rank(tickets[prev.value]) < 5 {
        tickets := tickets + [Ticket(h, c, prev, Waiting, [])];
      } else {
        tickets := tickets + [Ticket(h, c, prev, Ready, [])];
        jobs := jobs + [StartBody(i)];
      }
      perHandleSessionChain := perHandleSessionChain[h := i];
    }

    // The runtime takes the first microtask.
    method RunMicrotask(clock: Clock)
      requires Valid() && Enabled(cfg, View(), RunJob(clock))
      modifies this
      ensures Valid() && View() == Next(cfg, old(View()), RunJob(clock))
    {
      hide Inv;
      NextKeepsInv(cfg, View(), RunJob(clock));
      var job := jobs[0];
      jobs := jobs[1..];
      var i := job.i;
      match job
      case StartBody(_) =>
        ResumeBody(i, Begin(tickets[i].call), Done(clock));
      case SettleRun(_) =>
        tickets := SetPhase(tickets, i, Settled(tickets[i].phase.outcome));
        jobs := jobs + [ChainNext(i), Resume(i)];
      case ChainNext(_) =>
        var next := Successor(tickets, i, |tickets|);
        tickets := SetPhase(tickets, i, Chained(tickets[i].phase.outcome));
        if next.Some? {
          tickets := SetPhase(tickets, next.value, Ready);
          jobs := jobs + [StartBody(next.value)];
        }
      case Resume(_) =>
        var t := tickets[i];
        var client := ClientFor(t, LocalIn(locals, t.handle), t.phase.outcome);
        tickets := SetPhase(tickets, i, Delivered(t.phase.outcome, client));
    }

    // An `await` of the body of call `i` comes back.
    method AnswerAwait(i: nat, r: Reply)
      requires Valid() && Enabled(cfg, View(), Answer(i, r))
      modifies this
      ensures Valid() && View() == Next(cfg, old(View()), Answer(i, r))
    {
      hide Inv;
      NextKeepsInv(cfg, View(), Answer(i, r));
      ResumeBody(i, tickets[i].phase.body, r);
    }

    // The callback of a refresh timer.
    method TimerFires(h: HandleId, k: nat)
      requires Valid() && Enabled(cfg, View(), Fire(h, k))
      modifies this
      ensures Valid() && View() == Next(cfg, old(View()), Fire(h, k))
      ensures var session := old(LocalIn(locals, h)).session;
              session.Some? && MakesCall(old(View()), View(), h, Call(session.value.pass, None, false))
    {
      hide Inv, EnterChain, MakesCall;
      FireMakesCall(cfg, View(), h, k);
      NextKeepsInv(cfg, View(), Fire(h, k));
      fired := fired + {(h, k)};
      var i := Attach(h, Call(LocalIn(locals, h).armed[k].pass, None, false));
    }

    // `deleteSession` called from outside, while no call of the handle is open.
    method DeleteSessionOutside(h: HandleId, halt: Halt)
      requires Valid() && Enabled(cfg, View(), DeleteOutside(h, halt))
      modifies this
      ensures Valid() && View() == Next(cfg, old(View()), DeleteOutside(h, halt))
    {
      hide Inv, Inherited;
      NextKeepsInv(cfg, View(), DeleteOutside(h, halt));
      if Inherited(h) {
        return;
      }
      locals := locals[h := DeleteSession(cfg, LocalIn(locals, h), halt)];
      tickets := tickets + [Deletion(h, halt)];
    }
  }
}
