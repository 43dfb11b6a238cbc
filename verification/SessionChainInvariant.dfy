// Every step of the session protocol keeps the invariant of `SessionChain`.
module SessionChainInvariant {
  import opened Options
  import opened JsCollections
  import opened TokenClock
  import opened SessionBody
  import opened SessionChain

  // ---------- what the parts of the invariant depend on ----------

  // Ticket `k` still stands for the same call or deletion.
  predicate SameCall(t: Ticket, u: Ticket) {
    t.Ticket? == u.Ticket? && t.handle == u.handle && (t.Ticket? ==> t.call == u.call && t.prev == u.prev)
  }

  ghost predicate SameCalls(ts: seq<Ticket>, us: seq<Ticket>) {
    |ts| == |us| && forall k :: 0 <= k < |ts| ==> SameCall(ts[k], us[k])
  }

  lemma {:induction false} LastCallSame(ts: seq<Ticket>, us: seq<Ticket>, h: HandleId, n: nat)
    requires n <= |ts| && n <= |us| && forall k :: 0 <= k < n ==> SameCall(ts[k], us[k])
    ensures LastCall(ts, h, n) == LastCall(us, h, n)
  {
    if n > 0 {
      assert SameCall(ts[n - 1], us[n - 1]);
      LastCallSame(ts, us, h, n - 1);
    }
  }

  lemma LinksSame(s: State, s': State)
    requires Links(s.tickets, s.tail) && SameCalls(s.tickets, s'.tickets) && s'.tail == s.tail
    ensures Links(s'.tickets, s'.tail)
  {
    forall j | 0 <= j < |s'.tickets| && s'.tickets[j].Ticket?
      ensures s'.tickets[j].prev == LastCall(s'.tickets, s'.tickets[j].handle, j)
    {
      assert SameCall(s.tickets[j], s'.tickets[j]);
      LastCallSame(s.tickets, s'.tickets, s'.tickets[j].handle, j);
    }
    forall h
      ensures LastCall(s'.tickets, h, |s'.tickets|) == if h in s'.tail then Some(s'.tail[h]) else None
    {
      LastCallSame(s.tickets, s'.tickets, h, |s.tickets|);
    }
  }

  // The ticket has the same effect when it is replayed.
  predicate SameEffect(t: Ticket, u: Ticket) {
    SameCall(t, u) && (t.Ticket? ==> t.replies == u.replies) && (t.Deletion? ==> t.halt == u.halt)
  }

  lemma {:induction false} ReplaySame(cfg: Config, ts: seq<Ticket>, us: seq<Ticket>, h: HandleId, n: nat)
    requires n <= |ts| && n <= |us|
    requires forall k :: 0 <= k < n ==> ts[k].handle == us[k].handle
    requires forall k :: 0 <= k < n && ts[k].handle == h ==> SameEffect(ts[k], us[k])
    ensures Replay(cfg, ts, h, n) == Replay(cfg, us, h, n)
  {
    if n > 0 {
      ReplaySame(cfg, ts, us, h, n - 1);
    }
  }

  // Tickets that have not begun do nothing.
  lemma {:induction false} ReplayIdle(cfg: Config, ts: seq<Ticket>, h: HandleId, from: nat, n: nat)
    requires from <= n <= |ts|
    requires forall k :: from <= k < n && ts[k].handle == h ==> ts[k].Ticket? && ts[k].replies == []
    ensures Replay(cfg, ts, h, n) == Replay(cfg, ts, h, from)
    decreases n
  {
    if n > from {
      ReplayIdle(cfg, ts, h, from, n - 1);
    }
  }

  // ---------- a change of phase only ----------

  // The changes of phase that leave the body where it is.
  predicate MovesOn(p: Phase, q: Phase) {
    match q
    case Ready => p.Waiting?
    case Settled(o) => p == Ended(o)
    case Chained(o) => p == Settled(o)
    case Delivered(o, _) => p == Chained(o)
    case _ => false
  }

  lemma HistorySetPhase(cfg: Config, locals: map<HandleId, Local>, ts: seq<Ticket>, i: nat, p: Phase)
    requires History(cfg, locals, ts) && i < |ts| && ts[i].Ticket? && MovesOn(ts[i].phase, p)
    ensures History(cfg, locals, SetPhase(ts, i, p))
  {
    var us := SetPhase(ts, i, p);
    forall h
      ensures Replay(cfg, us, h, |us|) == LocalIn(locals, h)
    {
      ReplaySame(cfg, ts, us, h, |us|);
    }
    forall k | 0 <= k < |us|
      ensures Recorded(cfg, us, k)
    {
      assert Recorded(cfg, ts, k);
      ReplaySame(cfg, ts, us, us[k].handle, k);
    }
  }

  // ---------- entering the chain ----------

  lemma LastCallAppend(ts: seq<Ticket>, t: Ticket, h: HandleId)
    ensures LastCall(ts + [t], h, |ts| + 1) ==
            if t.Ticket? && t.handle == h then Some(|ts|) else LastCall(ts, h, |ts|)
  {
    LastCallSame(ts, ts + [t], h, |ts|);
  }

  lemma LinksAppend(ts: seq<Ticket>, tail: map<HandleId, nat>, t: Ticket)
    requires Links(ts, tail)
    requires t.Ticket? ==> t.prev == LastCall(ts, t.handle, |ts|)
    ensures Links(ts + [t], if t.Ticket? then tail[t.handle := |ts|] else tail)
  {
    hide LastCall;
    var us := ts + [t];
    forall j | 0 <= j < |us| && us[j].Ticket?
      ensures us[j].prev == LastCall(us, us[j].handle, j)
    {
      LastCallSame(ts, us, us[j].handle, j);
    }
    forall h
      ensures LastCall(us, h, |ts| + 1) == if t.Ticket? && h == t.handle then Some(|ts|) else LastCall(ts, h, |ts|)
    {
      LastCallAppend(ts, t, h);
    }
  }

  // The last call decides whether a newcomer waits; all calls before it are then finished too.
  lemma NewcomerOrder(ts: seq<Ticket>, t: Ticket)
    requires Order(ts) && t.Ticket? && Rank(t) <= 1
    requires t.prev == LastCall(ts, t.handle, |ts|)
    requires Rank(t) == 1 && t.prev.Some? && t.prev.value < |ts| ==> Rank(ts[t.prev.value]) >= 5
    ensures Order(ts + [t])
  {
    var us := ts + [t];
    LastCallIsLast(ts, t.handle, |ts|);
    forall i | 0 <= i < |ts| && ts[i].handle == t.handle && Rank(t) == 1
      ensures Rank(us[i]) >= 5
    {
      if ts[i].Ticket? && i < t.prev.value {
        assert Rank(ts[t.prev.value]) >= 1 ==> Rank(ts[i]) >= 5;
      }
    }
    forall i, j | 0 <= i < j < |us| && us[i].handle == us[j].handle
      ensures (Rank(us[j]) >= 1 ==> Rank(us[i]) >= 5) && (Rank(us[j]) >= 2 ==> Rank(us[i]) == 6)
    {
      if j < |ts| {
        assert ts[i] == us[i] && ts[j] == us[j];
      }
    }
  }

  lemma NewcomerWaits(ts: seq<Ticket>, t: Ticket)
    requires Waits(ts) && t.Ticket?
    requires Rank(t) == 0 ==> t.prev.Some? && t.prev.value < |ts| && Rank(ts[t.prev.value]) < 5
    ensures Waits(ts + [t])
  {
  }

  // A ticket that needs no job yet.
  lemma QueueAppend(ts: seq<Ticket>, jobs: seq<Job>, t: Ticket)
    requires Queue(ts, jobs) && Rank(t) in {0, 6}
    ensures Queue(ts + [t], jobs)
  {
    hide Rank;
    var us := ts + [t];
    forall k | 0 <= k < |jobs|
      ensures Fits(us, jobs[k])
    {
      assert Fits(ts, jobs[k]);
    }
    forall i | 0 <= i < |us|
      ensures HasJob(jobs, us[i], i)
    {
      assert i < |ts| ==> HasJob(jobs, ts[i], i);
    }
  }

  // A ticket whose body can start.
  lemma QueueAppendReady(ts: seq<Ticket>, jobs: seq<Job>, t: Ticket)
    requires Queue(ts, jobs) && t.Ticket? && Rank(t) == 1
    ensures Queue(ts + [t], jobs + [StartBody(|ts|)])
  {
    hide Rank;
    var (us, all) := (ts + [t], jobs + [StartBody(|ts|)]);
    forall k | 0 <= k < |all|
      ensures Fits(us, all[k])
    {
      assert k < |jobs| ==> Fits(ts, jobs[k]);
    }
    forall k, l | 0 <= k < l < |all|
      ensures all[k] != all[l]
    {
      assert Fits(ts, jobs[k]);
    }
    forall i | 0 <= i < |us|
      ensures HasJob(all, us[i], i)
    {
      assert i < |ts| ==> HasJob(jobs, ts[i], i);
      assert all[|jobs|] == StartBody(|ts|);
    }
  }

  lemma QueueEnter(s: State, h: HandleId, c: Call)
    requires Queue(s.tickets, s.jobs)
    ensures var s' := EnterChain(s, h, c); Queue(s'.tickets, s'.jobs)
  {
    hide Queue;
    var t := EnterChain(s, h, c).tickets[|s.tickets|];
    if t.phase.Waiting? {
      QueueAppend(s.tickets, s.jobs, t);
    } else {
      QueueAppendReady(s.tickets, s.jobs, t);
    }
  }

  lemma HistoryAppend(cfg: Config, s: State, s': State, t: Ticket)
    requires History(cfg, s.locals, s.tickets) && s'.tickets == s.tickets + [t]
    requires forall h :: h != t.handle ==> LocalOf(s', h) == LocalOf(s, h)
    requires if t.Deletion?
             then (t.halt == AtOpen ==> cfg.hasStorage) &&
                  LocalOf(s', t.handle) == DeleteSession(cfg, LocalOf(s, t.handle), t.halt)
             else LocalOf(s', t.handle) == LocalOf(s, t.handle) && t.replies == [] && Rank(t) <= 1
    ensures History(cfg, s'.locals, s'.tickets)
  {
    var n := |s.tickets|;
    forall h
      ensures LocalIn(s'.locals, h) == Replay(cfg, s'.tickets, h, n + 1)
    {
      assert LocalOf(s', h) ==
             if h == t.handle && t.Deletion? then DeleteSession(cfg, LocalOf(s, h), t.halt) else LocalOf(s, h);
      ReplaySame(cfg, s.tickets, s'.tickets, h, n);
    }
    forall k | 0 <= k < n + 1
      ensures Recorded(cfg, s'.tickets, k)
    {
      ReplaySame(cfg, s.tickets, s'.tickets, s'.tickets[k].handle, k);
      if k < n {
        assert Recorded(cfg, s.tickets, k);
      }
    }
  }

  lemma EnterKeepsInv(cfg: Config, s: State, h: HandleId, c: Call)
    requires Inv(cfg, s)
    ensures Inv(cfg, EnterChain(s, h, c))
  {
    hide Order, Waits, Queue, History, FiredBefore;
    var s' := EnterChain(s, h, c);
    var t := s'.tickets[|s.tickets|];
    assert t.prev == LastCall(s.tickets, h, |s.tickets|);
    LastCallIsLast(s.tickets, h, |s.tickets|);
    LinksAppend(s.tickets, s.tail, t);
    NewcomerOrder(s.tickets, t);
    NewcomerWaits(s.tickets, t);
    QueueEnter(s, h, c);
    HistoryAppend(cfg, s, s', t);
  }

  // ---------- a body goes on ----------

  lemma TimersGrow(cfg: Config, l: Local, b: Body, r: Reply)
    requires Possible(cfg, l, b, r)
    ensures Step(cfg, l, b, r).0.nextTimer >= l.nextTimer
  {
  }

  lemma FiredAdvance(cfg: Config, s: State, i: nat, b: Body, r: Reply)
    requires FiredBefore(s.locals, s.fired) && Resumes(cfg, s, i, b, r)
    ensures var s' := Advance(cfg, s, i, b, r); FiredBefore(s'.locals, s'.fired)
  {
    TimersGrow(cfg, LocalOf(s, s.tickets[i].handle), b, r);
  }

  // No later ticket of the handle has begun while the caller of ticket `i` was not resumed.
  lemma LaterIdle(cfg: Config, s: State, i: nat, k: nat)
    requires Order(s.tickets) && History(cfg, s.locals, s.tickets)
    requires i < k < |s.tickets| && s.tickets[k].handle == s.tickets[i].handle && Rank(s.tickets[i]) < 6
    ensures s.tickets[k].Ticket? && Rank(s.tickets[k]) <= 1 && s.tickets[k].replies == []
  {
    assert Recorded(cfg, s.tickets, k);
  }

  // So the state of the handle is what the bodies up to ticket `i` made it.
  lemma LocalIsRun(cfg: Config, s: State, i: nat)
    requires Order(s.tickets) && History(cfg, s.locals, s.tickets)
    requires i < |s.tickets| && s.tickets[i].Ticket? && Rank(s.tickets[i]) < 6
    ensures Recorded(cfg, s.tickets, i)
    ensures var t := s.tickets[i]; var l := Replay(cfg, s.tickets, t.handle, i);
            LocalOf(s, t.handle) == Run(cfg, l, Begin(t.call), t.replies).0
  {
    assert Recorded(cfg, s.tickets, i);
    var h := s.tickets[i].handle;
    forall k | i + 1 <= k < |s.tickets| && s.tickets[k].handle == h
      ensures s.tickets[k].Ticket? && s.tickets[k].replies == []
    {
      LaterIdle(cfg, s, i, k);
    }
    ReplayIdle(cfg, s.tickets, h, i + 1, |s.tickets|);
  }

  // The body that ticket `i` is about to resume with reply `r`.
  ghost predicate Resumes(cfg: Config, s: State, i: nat, b: Body, r: Reply) {
    && i < |s.tickets| && s.tickets[i].Ticket?
    && (s.tickets[i].phase == Running(b) || (s.tickets[i].phase.Ready? && b == Begin(s.tickets[i].call)))
    && Possible(cfg, LocalOf(s, s.tickets[i].handle), b, r)
  }

  lemma RunExtends(cfg: Config, l: Local, b: Body, rs: seq<Reply>, r: Reply)
    requires Runs(cfg, l, b, rs)
    requires var (l1, b1) := Run(cfg, l, b, rs); Possible(cfg, l1, b1, r)
    ensures Runs(cfg, l, b, rs + [r])
    ensures var (l1, b1) := Run(cfg, l, b, rs); Run(cfg, l, b, rs + [r]) == Step(cfg, l1, b1, r)
  {
    assert (rs + [r])[..|rs|] == rs;
  }

  // What the run of the body of ticket `i` has come to, and that it can take the reply.
  lemma RunningBody(cfg: Config, s: State, i: nat, b: Body, r: Reply)
    requires Order(s.tickets) && History(cfg, s.locals, s.tickets) && Resumes(cfg, s, i, b, r)
    ensures var t := s.tickets[i]; var l := Replay(cfg, s.tickets, t.handle, i);
            && Runs(cfg, l, Begin(t.call), t.replies)
            && Run(cfg, l, Begin(t.call), t.replies) == (LocalOf(s, t.handle), b)
            && Possible(cfg, LocalOf(s, t.handle), b, r)
  {
    LocalIsRun(cfg, s, i);
    hide Order, History, Possible, Replay;
    var t := s.tickets[i];
    if t.phase.Ready? {
      assert t.replies == [];
    }
  }

  lemma AdvanceRecorded(cfg: Config, s: State, i: nat, b: Body, r: Reply)
    requires Order(s.tickets) && History(cfg, s.locals, s.tickets) && Resumes(cfg, s, i, b, r)
    ensures var s' := Advance(cfg, s, i, b, r);
            Recorded(cfg, s'.tickets, i) &&
            LocalOf(s', s.tickets[i].handle) == Replay(cfg, s'.tickets, s.tickets[i].handle, i + 1)
  {
    var s' := Advance(cfg, s, i, b, r);
    var t := s.tickets[i];
    var l := Replay(cfg, s.tickets, t.handle, i);
    RunningBody(cfg, s, i, b, r);
    ReplaySame(cfg, s.tickets, s'.tickets, t.handle, i);
    hide Order, History, Resumes, Possible, Step, Rank, Runs, Run;
    RunExtends(cfg, l, Begin(t.call), t.replies, r);
  }

  lemma LaterStaysIdle(cfg: Config, s: State, i: nat, b: Body, r: Reply)
    requires Order(s.tickets) && History(cfg, s.locals, s.tickets) && Resumes(cfg, s, i, b, r)
    ensures var us := Advance(cfg, s, i, b, r).tickets;
            forall k :: i < k < |us| && us[k].handle == us[i].handle ==>
              us[k].Ticket? && us[k].replies == [] && Rank(us[k]) <= 1
  {
    assert Rank(s.tickets[i]) < 6;
    hide Order, History, Rank, Step;
    var us := Advance(cfg, s, i, b, r).tickets;
    forall k | i < k < |us| && us[k].handle == us[i].handle
      ensures us[k].Ticket? && us[k].replies == [] && Rank(us[k]) <= 1
    {
      LaterIdle(cfg, s, i, k);
    }
  }

  lemma AdvanceHistory(cfg: Config, s: State, i: nat, b: Body, r: Reply)
    requires Order(s.tickets) && History(cfg, s.locals, s.tickets) && Resumes(cfg, s, i, b, r)
    ensures var s' := Advance(cfg, s, i, b, r); History(cfg, s'.locals, s'.tickets)
  {
    var s' := Advance(cfg, s, i, b, r);
    var h := s.tickets[i].handle;
    AdvanceRecorded(cfg, s, i, b, r);
    LaterStaysIdle(cfg, s, i, b, r);
    hide Order, Resumes, Step;
    forall g
      ensures LocalOf(s', g) == Replay(cfg, s'.tickets, g, |s'.tickets|)
    {
      if g == h {
        ReplayIdle(cfg, s'.tickets, h, i + 1, |s.tickets|);
      } else {
        ReplaySame(cfg, s.tickets, s'.tickets, g, |s.tickets|);
      }
    }
    forall k | 0 <= k < |s'.tickets|
      ensures Recorded(cfg, s'.tickets, k)
    {
      assert Recorded(cfg, s.tickets, k);
      if k != i && !(k > i && s.tickets[k].handle == h) {
        ReplaySame(cfg, s.tickets, s'.tickets, s.tickets[k].handle, k);
      }
    }
  }

  // A running ticket has no job.
  lemma RunningHasNoJob(ts: seq<Ticket>, jobs: seq<Job>, i: nat)
    requires Queue(ts, jobs) && i < |ts| && Rank(ts[i]) == 2
    ensures forall k :: 0 <= k < |jobs| ==> jobs[k].i != i
  {
    forall k | 0 <= k < |jobs|
      ensures jobs[k].i != i
    {
      assert Fits(ts, jobs[k]);
    }
  }

  // It goes on running,
  lemma RunningStays(ts: seq<Ticket>, jobs: seq<Job>, i: nat, t: Ticket)
    requires Queue(ts, jobs) && i < |ts| && Rank(ts[i]) == 2 && t.Ticket? && Rank(t) == 2
    ensures Queue(ts[i := t], jobs)
  {
    RunningHasNoJob(ts, jobs, i);
    hide Rank;
    var us := ts[i := t];
    forall k | 0 <= k < |jobs|
      ensures Fits(us, jobs[k])
    {
      assert Fits(ts, jobs[k]);
    }
    forall k | 0 <= k < |us|
      ensures HasJob(jobs, us[k], k)
    {
      assert HasJob(jobs, ts[k], k);
    }
    assert forall k :: 0 <= k < |us| && Rank(us[k]) == 5 ==> Rank(ts[k]) == 5;
  }

  // or ends, which queues one job.
  lemma RunningEnds(ts: seq<Ticket>, jobs: seq<Job>, i: nat, t: Ticket)
    requires Queue(ts, jobs) && i < |ts| && Rank(ts[i]) == 2 && t.Ticket? && Rank(t) == 3
    ensures Queue(ts[i := t], jobs + [SettleRun(i)])
  {
    RunningHasNoJob(ts, jobs, i);
    hide Rank;
    var (us, all) := (ts[i := t], jobs + [SettleRun(i)]);
    forall k | 0 <= k < |all|
      ensures Fits(us, all[k])
    {
      assert k < |jobs| ==> Fits(ts, jobs[k]);
    }
    forall k | 0 <= k < |us|
      ensures HasJob(all, us[k], k)
    {
      assert HasJob(jobs, ts[k], k);
      assert all[|jobs|] == SettleRun(i);
    }
    assert forall k :: 0 <= k < |us| && Rank(us[k]) == 5 ==> Rank(ts[k]) == 5;
  }

  lemma AdvanceQueue(cfg: Config, s: State, i: nat, b: Body, r: Reply)
    requires Resumes(cfg, s, i, b, r)
    requires Queue(s.tickets[i := s.tickets[i].(phase := Running(b))], s.jobs)
    ensures var s' := Advance(cfg, s, i, b, r); Queue(s'.tickets, s'.jobs)
  {
    hide Queue, Step;
    var ts := s.tickets[i := s.tickets[i].(phase := Running(b))];
    var t := Advance(cfg, s, i, b, r).tickets[i];
    if Rank(t) == 2 {
      RunningStays(ts, s.jobs, i, t);
    } else {
      RunningEnds(ts, s.jobs, i, t);
    }
    assert ts[i := t] == s.tickets[i := t];
  }

  // Ticket `i` moves from before its chain promise to before its chain promise.
  lemma OrderAdvance(ts: seq<Ticket>, us: seq<Ticket>, i: nat)
    requires Order(ts) && Waits(ts) && SameCalls(ts, us) && i < |ts|
    requires forall k :: 0 <= k < |ts| && k != i ==> us[k] == ts[k]
    requires 1 <= Rank(ts[i]) < 5 && 1 <= Rank(us[i]) < 5
    requires forall k :: 0 <= k < i && ts[k].handle == ts[i].handle ==> Rank(ts[k]) == 6
    ensures Order(us) && Waits(us)
  {
    assert SameCall(ts[i], us[i]);
  }

  lemma AdvanceKeepsInv(cfg: Config, s: State, i: nat, b: Body, r: Reply)
    requires FiredBefore(s.locals, s.fired) && History(cfg, s.locals, s.tickets)
    requires Links(s.tickets, s.tail) && Order(s.tickets) && Waits(s.tickets)
    requires Resumes(cfg, s, i, b, r)
    requires forall k :: 0 <= k < i && s.tickets[k].handle == s.tickets[i].handle ==> Rank(s.tickets[k]) == 6
    requires StartBody(i) !in s.jobs
    requires Queue(s.tickets[i := s.tickets[i].(phase := Running(b))], s.jobs)
    ensures Inv(cfg, Advance(cfg, s, i, b, r))
  {
    hide Links, Order, Waits, Queue, History, FiredBefore;
    var s' := Advance(cfg, s, i, b, r);
    LinksSame(s, s');
    OrderAdvance(s.tickets, s'.tickets, i);
    AdvanceQueue(cfg, s, i, b, r);
    AdvanceHistory(cfg, s, i, b, r);
    FiredAdvance(cfg, s, i, b, r);
  }

  lemma AnswerKeepsInv(cfg: Config, s: State, i: nat, r: Reply)
    requires Inv(cfg, s) && Enabled(cfg, s, Answer(i, r))
    ensures Inv(cfg, Next(cfg, s, Answer(i, r)))
  {
    var b := s.tickets[i].phase.body;
    assert s.tickets[i := s.tickets[i].(phase := Running(b))] == s.tickets;
    AdvanceKeepsInv(cfg, s, i, b, r);
  }

  // ---------- the four kinds of jobs ----------

  // Taking the first job off the queue leaves a queue, up to the ticket the job was about.
  lemma QueuePop(s: State, i: nat, p: Phase)
    requires Queue(s.tickets, s.jobs) && s.jobs != [] && s.jobs[0].i == i && Fits(s.tickets, s.jobs[0])
    requires match s.jobs[0]
             case StartBody(_) => p.Running?
             case SettleRun(_) => p.Running?
             case ChainNext(_) => p.Chained?
             case Resume(_) => p.Delivered? && s.tickets[i].phase.Chained?
    ensures Queue(SetPhase(s.tickets, i, p), s.jobs[1..])
    ensures s.jobs[0] !in s.jobs[1..]
  {
    var us := SetPhase(s.tickets, i, p);
    var js := s.jobs[1..];
    forall k | 0 <= k < |js|
      ensures Fits(us, js[k]) && js[k] != s.jobs[0]
    {
      assert js[k] == s.jobs[k + 1];
      assert Fits(s.tickets, js[k]);
    }
    forall k | 0 <= k < |us|
      ensures HasJob(js, us[k], k)
    {
      assert HasJob(s.jobs, s.tickets[k], k);
      assert forall j :: j in s.jobs && j != s.jobs[0] ==> j in js;
    }
  }

  lemma SettleQueue(ts: seq<Ticket>, jobs: seq<Job>, i: nat, o: Outcome)
    requires Queue(ts, jobs) && i < |ts| && ts[i].Ticket? && ts[i].phase.Running?
    ensures Queue(SetPhase(ts, i, Settled(o)), jobs + [ChainNext(i), Resume(i)])
  {
    var us := SetPhase(ts, i, Settled(o));
    var all := jobs + [ChainNext(i), Resume(i)];
    forall k | 0 <= k < |jobs|
      ensures Fits(us, jobs[k]) && jobs[k].i != i
    {
      assert Fits(ts, jobs[k]);
    }
    forall k | 0 <= k < |us|
      ensures HasJob(all, us[k], k)
    {
      assert HasJob(jobs, ts[k], k);
      assert all[|jobs|] == ChainNext(i);
    }
  }

  // At most one ticket is attached to a chain promise.
  lemma OneSuccessor(s: State, i: nat, j: nat, k: nat)
    requires Links(s.tickets, s.tail) && j < |s.tickets| && k < |s.tickets|
    requires s.tickets[j].Ticket? && s.tickets[k].Ticket?
    requires s.tickets[j].prev == Some(i) && s.tickets[k].prev == Some(i)
    ensures j == k && i < j && s.tickets[i].Ticket? && s.tickets[i].handle == s.tickets[j].handle
    ensures forall a :: i < a < j && s.tickets[a].handle == s.tickets[j].handle ==> s.tickets[a].Deletion?
  {
    var h := s.tickets[j].handle;
    LastCallIsLast(s.tickets, h, j);
    LastCallIsLast(s.tickets, s.tickets[k].handle, k);
  }

  lemma WakeQueue(ts: seq<Ticket>, jobs: seq<Job>, j: nat)
    requires Queue(ts, jobs) && j < |ts| && ts[j].Ticket? && ts[j].phase.Waiting?
    ensures Queue(SetPhase(ts, j, Ready), jobs + [StartBody(j)])
  {
    var us := SetPhase(ts, j, Ready);
    var all := jobs + [StartBody(j)];
    assert forall k :: 0 <= k < |jobs| ==> Fits(ts, jobs[k]);
    forall k | 0 <= k < |us|
      ensures HasJob(all, us[k], k)
    {
      assert HasJob(jobs, ts[k], k);
      assert all[|jobs|] == StartBody(j);
    }
  }

  // The woken ticket may be queued: everything before it has fulfilled its chain promise.
  lemma WakeOrder(ts: seq<Ticket>, i: nat, o: Outcome, j: nat)
    requires Order(ts) && i < j < |ts|
    requires ts[i].Ticket? && ts[i].phase == Settled(o) && ts[j].Ticket? && ts[j].phase.Waiting?
    requires ts[i].handle == ts[j].handle
    requires forall a :: i < a < j && ts[a].handle == ts[j].handle ==> ts[a].Deletion?
    ensures Order(SetPhase(SetPhase(ts, i, Chained(o)), j, Ready))
  {
    var us := SetPhase(SetPhase(ts, i, Chained(o)), j, Ready);
    forall a, b | 0 <= a < b < |us| && us[a].handle == us[b].handle
      ensures (Rank(us[b]) >= 1 ==> Rank(us[a]) >= 5) && (Rank(us[b]) >= 2 ==> Rank(us[a]) == 6)
    {
      assert (Rank(ts[b]) >= 1 ==> Rank(ts[a]) >= 5) && (Rank(ts[b]) >= 2 ==> Rank(ts[a]) == 6);
      if b == j && a < i {
        assert Rank(ts[i]) >= 1 ==> Rank(ts[a]) >= 5;
      }
    }
  }

  lemma WakeWaits(ts: seq<Ticket>, i: nat, o: Outcome, j: nat)
    requires Waits(ts) && i < j < |ts|
    requires ts[i].Ticket? && ts[i].phase == Settled(o) && ts[j].Ticket? && ts[j].phase.Waiting?
    requires forall k :: 0 <= k < |ts| && ts[k].Ticket? && ts[k].prev == Some(i) ==> k == j
    ensures Waits(SetPhase(SetPhase(ts, i, Chained(o)), j, Ready))
  {
    var us := SetPhase(SetPhase(ts, i, Chained(o)), j, Ready);
    forall k | 0 <= k < |us| && Rank(us[k]) == 0
      ensures us[k].prev.Some? && us[k].prev.value < k && Rank(us[us[k].prev.value]) < 5
    {
      assert Rank(ts[k]) == 0 && ts[k].prev == us[k].prev;
      var p := ts[k].prev.value;
      assert p != i;
      assert Rank(ts[p]) < 5;
    }
  }

  lemma WokenWaits(ts: seq<Ticket>, i: nat, j: nat)
    requires Order(ts) && i < j < |ts| && ts[i].handle == ts[j].handle && Rank(ts[i]) < 5
    ensures Rank(ts[j]) == 0
  {
  }

  lemma ChainOrder(ts: seq<Ticket>, i: nat, o: Outcome)
    requires Order(ts)
    requires i < |ts| && ts[i].Ticket? && ts[i].phase == Settled(o)
    ensures Order(SetPhase(ts, i, Chained(o)))
  {
    var us := SetPhase(ts, i, Chained(o));
    forall a, b | 0 <= a < b < |us| && us[a].handle == us[b].handle
      ensures (Rank(us[b]) >= 1 ==> Rank(us[a]) >= 5) && (Rank(us[b]) >= 2 ==> Rank(us[a]) == 6)
    {
      assert (Rank(ts[b]) >= 1 ==> Rank(ts[a]) >= 5) && (Rank(ts[b]) >= 2 ==> Rank(ts[a]) == 6);
    }
  }

  lemma NoneWaits(ts: seq<Ticket>, i: nat, o: Outcome)
    requires Waits(ts)
    requires i < |ts| && ts[i].Ticket? && ts[i].phase == Settled(o)
    requires forall k :: 0 <= k < |ts| && ts[k].Ticket? ==> ts[k].prev != Some(i)
    ensures Waits(SetPhase(ts, i, Chained(o)))
  {
    var us := SetPhase(ts, i, Chained(o));
    forall k | 0 <= k < |us| && Rank(us[k]) == 0
      ensures us[k].prev.Some? && us[k].prev.value < k && Rank(us[us[k].prev.value]) < 5
    {
      assert Rank(ts[k]) == 0 && ts[k].prev == us[k].prev;
      assert Rank(ts[ts[k].prev.value]) < 5;
    }
  }

  // The first reaction of the promise of ticket `i` is followed by the second one, and nothing of
  // the handle starts before that has run.
  lemma StartsAlone(s: State, i: nat)
    requires Queue(s.tickets, s.jobs) && Order(s.tickets)
    requires s.jobs != [] && s.jobs[0] == StartBody(i)
    ensures Fits(s.tickets, s.jobs[0])
    ensures forall k :: 0 <= k < i && s.tickets[k].handle == s.tickets[i].handle ==> Rank(s.tickets[k]) == 6
  {
    forall k | 0 <= k < i && s.tickets[k].handle == s.tickets[i].handle
      ensures Rank(s.tickets[k]) == 6
    {
      assert Rank(s.tickets[k]) >= 5;
    }
  }

  lemma StartKeepsInv(cfg: Config, s: State, clock: Clock, i: nat)
    requires Inv(cfg, s) && s.jobs != [] && s.jobs[0] == StartBody(i)
    requires Enabled(cfg, s, RunJob(clock))
    ensures Inv(cfg, RunFirstJob(cfg, s, clock))
  {
    hide Links, Order, Waits, Queue, History, FiredBefore;
    var b := Begin(s.tickets[i].call);
    QueuePop(s, i, Running(b));
    StartsAlone(s, i);
    AdvanceKeepsInv(cfg, s.(jobs := s.jobs[1..]), i, b, Done(clock));
  }

  lemma SettleKeepsInv(cfg: Config, s: State, clock: Clock, i: nat)
    requires Inv(cfg, s) && s.jobs != [] && s.jobs[0] == SettleRun(i)
    requires Enabled(cfg, s, RunJob(clock))
    ensures Inv(cfg, RunFirstJob(cfg, s, clock))
  {
    hide Links, Order, Waits, Queue, History, FiredBefore;
    var s' := RunFirstJob(cfg, s, clock);
    var o := s.tickets[i].phase.outcome;
    var idle := Running(Begin(s.tickets[i].call));
    QueuePop(s, i, idle);
    SettleQueue(SetPhase(s.tickets, i, idle), s.jobs[1..], i, o);
    assert SetPhase(SetPhase(s.tickets, i, idle), i, Settled(o)) == s'.tickets;
    LinksSame(s, s');
    EndedOrder(s.tickets, i, Settled(o));
    HistorySetPhase(cfg, s.locals, s.tickets, i, Settled(o));
  }

  lemma ChainKeepsInv(cfg: Config, s: State, clock: Clock, i: nat)
    requires Inv(cfg, s) && s.jobs != [] && s.jobs[0] == ChainNext(i)
    requires Enabled(cfg, s, RunJob(clock))
    ensures Inv(cfg, RunFirstJob(cfg, s, clock))
  {
    hide Links, Order, Waits, Queue, History, FiredBefore;
    var s' := RunFirstJob(cfg, s, clock);
    var o := s.tickets[i].phase.outcome;
    var ts := SetPhase(s.tickets, i, Chained(o));
    QueuePop(s, i, Chained(o));
    HistorySetPhase(cfg, s.locals, s.tickets, i, Chained(o));
    LinksSame(s, s');
    match Successor(s.tickets, i, |s.tickets|)
    case None =>
      ChainOrder(s.tickets, i, o);
      NoneWaits(s.tickets, i, o);
    case Some(j) =>
      forall k | 0 <= k < |s.tickets| && s.tickets[k].Ticket? && s.tickets[k].prev == Some(i)
        ensures k == j
      {
        OneSuccessor(s, i, j, k);
      }
      OneSuccessor(s, i, j, j);
      WokenWaits(s.tickets, i, j);
      WakeOrder(s.tickets, i, o, j);
      WakeWaits(s.tickets, i, o, j);
      WakeQueue(ts, s.jobs[1..], j);
      HistorySetPhase(cfg, s.locals, ts, j, Ready);
  }

  lemma ResumeKeepsInv(cfg: Config, s: State, clock: Clock, i: nat)
    requires Inv(cfg, s) && s.jobs != [] && s.jobs[0] == Resume(i)
    requires Enabled(cfg, s, RunJob(clock))
    ensures Inv(cfg, RunFirstJob(cfg, s, clock))
  {
    hide Links, Order, Waits, Queue, History, FiredBefore;
    var s' := RunFirstJob(cfg, s, clock);
    var p := s'.tickets[i].phase;
    assert s'.tickets == SetPhase(s.tickets, i, p);
    QueuePop(s, i, p);
    LinksSame(s, s');
    EndedOrder(s.tickets, i, p);
    HistorySetPhase(cfg, s.locals, s.tickets, i, p);
  }

  // A ticket whose body has ended may move on without waking anything.
  lemma EndedOrder(ts: seq<Ticket>, i: nat, p: Phase)
    requires Order(ts) && Waits(ts) && i < |ts| && ts[i].Ticket? && MovesOn(ts[i].phase, p)
    requires p.Settled? || p.Delivered?
    ensures Order(SetPhase(ts, i, p)) && Waits(SetPhase(ts, i, p))
  {
  }

  // ---------- the other steps ----------

  lemma AppendDeletionOrder(ts: seq<Ticket>, t: Ticket)
    requires t.Deletion? && Order(ts) && Waits(ts)
    requires forall i :: 0 <= i < |ts| && ts[i].handle == t.handle ==> Rank(ts[i]) == 6
    ensures Order(ts + [t]) && Waits(ts + [t])
  {
  }

  lemma DeleteKeepsInv(cfg: Config, s: State, h: HandleId, halt: Halt)
    requires Inv(cfg, s) && Enabled(cfg, s, DeleteOutside(h, halt))
    ensures Inv(cfg, DeleteFromOutside(cfg, s, h, halt))
  {
    hide Links, Order, Waits, Queue, History;
    var t := Deletion(h, halt);
    LinksAppend(s.tickets, s.tail, t);
    QueueAppend(s.tickets, s.jobs, t);
    AppendDeletionOrder(s.tickets, t);
    HistoryAppend(cfg, s, DeleteFromOutside(cfg, s, h, halt), t);
  }

  // ---------- what the bodies keep, seen from the chain ----------

  // Between two bodies the handle is at rest.
  lemma {:induction false} RestBetween(cfg: Config, ts: seq<Ticket>, h: HandleId, n: nat)
    requires n <= |ts|
    requires forall k :: 0 <= k < n && ts[k].handle == h ==> Recorded(cfg, ts, k) && Rank(ts[k]) >= 3
    ensures Rest(cfg, Replay(cfg, ts, h, n))
  {
    if n > 0 {
      RestBetween(cfg, ts, h, n - 1);
      var t := ts[n - 1];
      if t.handle == h {
        var l := Replay(cfg, ts, h, n - 1);
        assert Recorded(cfg, ts, n - 1);
        if t.Deletion? {
          DeleteSessionKeepsRest(cfg, l, t.halt);
        } else {
          RunKeepsWorking(cfg, l, t.call, t.replies);
        }
      }
    }
  }

  // The body of a ticket is at work on the state of its handle.
  lemma BodyAtWork(cfg: Config, s: State, i: nat)
    requires Inv(cfg, s) && i < |s.tickets| && s.tickets[i].Ticket? && Rank(s.tickets[i]) < 6
    requires forall k :: 0 <= k < i && s.tickets[k].handle == s.tickets[i].handle ==> Rank(s.tickets[k]) >= 5
    ensures Recorded(cfg, s.tickets, i)
    ensures var t := s.tickets[i]; var l := Replay(cfg, s.tickets, t.handle, i);
            && Rest(cfg, l)
            && Run(cfg, l, Begin(t.call), t.replies).0 == LocalOf(s, t.handle)
            && Working(cfg, LocalOf(s, t.handle), Run(cfg, l, Begin(t.call), t.replies).1)
  {
    hide Links, Waits, Queue, FiredBefore;
    var t := s.tickets[i];
    assert forall k :: 0 <= k < i ==> Recorded(cfg, s.tickets, k);
    RestBetween(cfg, s.tickets, t.handle, i);
    LocalIsRun(cfg, s, i);
    RunKeepsWorking(cfg, Replay(cfg, s.tickets, t.handle, i), t.call, t.replies);
  }

  // The first ticket of a handle that has not come to its chain promise, if there is one.
  function FirstOpen(ts: seq<Ticket>, h: HandleId, n: nat): (i: nat)
    requires n <= |ts|
    ensures i <= n
    ensures forall k :: 0 <= k < i && ts[k].handle == h ==> Rank(ts[k]) >= 5
    ensures i < n ==> ts[i].handle == h && Rank(ts[i]) < 5
  {
    if n == 0 then 0
    else
      var i := FirstOpen(ts, h, n - 1);
      if i == n - 1 && !(ts[i].handle == h && Rank(ts[i]) < 5) then n else i
  }

  lemma HandleLinked(cfg: Config, s: State, h: HandleId)
    requires Inv(cfg, s)
    ensures Linked(cfg, LocalOf(s, h))
    ensures (forall i :: 0 <= i < |s.tickets| && s.tickets[i].handle == h ==> Rank(s.tickets[i]) >= 5)
            ==> Rest(cfg, LocalOf(s, h))
  {
    hide Links, Waits, Queue, FiredBefore, Order;
    var i := FirstOpen(s.tickets, h, |s.tickets|);
    if i < |s.tickets| {
      BodyAtWork(cfg, s, i);
    } else {
      assert forall k :: 0 <= k < |s.tickets| ==> Recorded(cfg, s.tickets, k);
      RestBetween(cfg, s.tickets, h, |s.tickets|);
      assert LocalIn(s.locals, h) == Replay(cfg, s.tickets, h, |s.tickets|);
    }
  }

  // A live timer has a number the handle has already used.
  lemma LiveTimerIsOld(cfg: Config, s: State, h: HandleId, k: nat)
    requires Inv(cfg, s) && k in Live(s, h)
    ensures FiredBefore(s.locals, s.fired + {(h, k)})
  {
    hide Links, Order, Waits, Queue, History;
    HandleLinked(cfg, s, h);
    assert k in LocalIn(s.locals, h).armed;
  }

  lemma NextKeepsInv(cfg: Config, s: State, a: Action)
    requires Inv(cfg, s) && Enabled(cfg, s, a)
    ensures Inv(cfg, Next(cfg, s, a))
  {
    hide Links, Order, Waits, Queue, History, FiredBefore, Inherited;
    match a
    case Enter(h, c) =>
      if !Inherited(h) {
        EnterKeepsInv(cfg, s, h, c);
      }
    case RunJob(clock) =>
      match s.jobs[0] {
        case StartBody(i) => StartKeepsInv(cfg, s, clock, i);
        case SettleRun(i) => SettleKeepsInv(cfg, s, clock, i);
        case ChainNext(i) => ChainKeepsInv(cfg, s, clock, i);
        case Resume(i) => ResumeKeepsInv(cfg, s, clock, i);
      }
    case Answer(i, r) => AnswerKeepsInv(cfg, s, i, r);
    case Fire(h, k) =>
      LiveTimerIsOld(cfg, s, h, k);
      EnterKeepsInv(cfg, s.(fired := s.fired + {(h, k)}), h, Call(LocalOf(s, h).armed[k].pass, None, false));
    case DeleteOutside(h, halt) =>
      if !Inherited(h) {
        DeleteKeepsInv(cfg, s, h, halt);
      }
  }
}
