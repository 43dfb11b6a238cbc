// The promise chain that serializes the session bodies of each handle, the microtask queue that
// drives it, and the refresh timers that feed it.
//
// A call of `ensureValidSession` takes a ticket; tickets are numbered in call order. The chain
// promise of a ticket fulfils after its body has ended, well or badly, and starts the next one.
module SessionChain {
  import opened Options
  import opened JsCollections
  import opened TokenClock
  import opened SessionBody

  type HandleId = string

  // Waiting: the chain promise of the previous call is pending. Ready: the job that starts the body
  // is queued. Ended: the body has ended. Settled: the promise given to the caller has settled, its
  // two reactions are queued. Chained: the first reaction has fulfilled the chain promise.
  // Delivered: the second one has resumed the caller, who may have been given a client.
  datatype Phase =
    | Waiting
    | Ready
    | Running(body: Body)
    | Ended(outcome: Outcome)
    | Settled(outcome: Outcome)
    | Chained(outcome: Outcome)
    | Delivered(outcome: Outcome, client: Option<nat>)

  // `prev` is the ticket whose chain promise this one was attached to; `replies` what its body has
  // been given so far. A deletion asked for from outside does not go through the chain.
  datatype Ticket =
    | Ticket(handle: HandleId, call: Call, prev: Option<nat>, phase: Phase, replies: seq<Reply>)
    | Deletion(handle: HandleId, halt: Halt)

  datatype Job = StartBody(i: nat) | SettleRun(i: nat) | ChainNext(i: nat) | Resume(i: nat)

  // `tail` is `perHandleSessionChain`; `fired` the timers that have fired.
  datatype State = State(
    locals: map<HandleId, Local>,
    fired: set<(HandleId, nat)>,
    tickets: seq<Ticket>,
    tail: map<HandleId, nat>,
    jobs: seq<Job>)

  const Initial := State(map[], {}, [], map[], [])

  // What can happen next: a call, the next microtask, the answer to an `await` of a body, a timer,
  // or a deletion from outside.
  datatype Action =
    | Enter(handle: HandleId, call: Call)
    | RunJob(clock: Clock)
    | Answer(i: nat, reply: Reply)
    | Fire(handle: HandleId, timer: nat)
    | DeleteOutside(handle: HandleId, halt: Halt)

  function LocalIn(locals: map<HandleId, Local>, h: HandleId): Local {
    if h in locals then locals[h] else FreshLocal
  }

  function LocalOf(s: State, h: HandleId): Local {
    LocalIn(s.locals, h)
  }

  function Rank(t: Ticket): nat {
    if t.Deletion? then 6
    else match t.phase
      case Waiting => 0
      case Ready => 1
      case Running(_) => 2
      case Ended(_) => 3
      case Settled(_) => 4
      case Chained(_) => 5
      case Delivered(_, _) => 6
  }

  // The timers of a handle that can still fire.
  function Live(s: State, h: HandleId): set<nat> {
    set k | k in LocalOf(s, h).armed && (h, k) !in s.fired
  }

  predicate InPhase(s: State, i: nat, rank: nat) {
    i < |s.tickets| && s.tickets[i].Ticket? && Rank(s.tickets[i]) == rank
  }

  predicate Enabled(cfg: Config, s: State, a: Action) {
    match a
    case Enter(_, _) => true
    case RunJob(_) =>
      s.jobs != [] &&
      (match s.jobs[0]
       case StartBody(i) => InPhase(s, i, 1)
       case SettleRun(i) => InPhase(s, i, 3)
       case ChainNext(i) => InPhase(s, i, 4)
       case Resume(i) => InPhase(s, i, 5))
    case Answer(i, r) =>
      InPhase(s, i, 2) && Possible(cfg, LocalOf(s, s.tickets[i].handle), s.tickets[i].phase.body, r)
    case Fire(h, k) => k in Live(s, h)
    case DeleteOutside(h, halt) =>
      (halt == AtOpen ==> cfg.hasStorage) &&
      (forall i :: 0 <= i < |s.tickets| && s.tickets[i].handle == h ==> Rank(s.tickets[i]) == 6)
  }

  // ---------- the steps ----------

  // `runSessionWorkSerialized`: a chain promise that is still pending makes the call wait, one that
  // has fulfilled queues the start of the body at once.
  function EnterChain(s: State, h: HandleId, c: Call): State {
    var i := |s.tickets|;
    var prev := if h in s.tail then Some(s.tail[h]) else None;
    var waits := prev.Some? && prev.value < i && Rank(s.tickets[prev.value]) < 5;
    s.(tickets := s.tickets + [Ticket(h, c, prev, if waits then Waiting else Ready, [])],
       tail := s.tail[h := i],
       jobs := if waits then s.jobs else s.jobs + [StartBody(i)])
  }

  function AfterStep(b: Body): Phase {
    if b.pc.Finished? then Ended(b.pc.outcome) else Running(b)
  }

  function SetPhase(ts: seq<Ticket>, i: nat, p: Phase): seq<Ticket>
    requires i < |ts| && ts[i].Ticket?
  {
    ts[i := ts[i].(phase := p)]
  }

  // The body `b` of ticket `i` goes on with reply `r` until its next `await` or its end.
  function Advance(cfg: Config, s: State, i: nat, b: Body, r: Reply): State
    requires i < |s.tickets| && s.tickets[i].Ticket?
    requires Possible(cfg, LocalOf(s, s.tickets[i].handle), b, r)
  {
    var t := s.tickets[i];
    var (l', b') := Step(cfg, LocalOf(s, t.handle), b, r);
    s.(locals := s.locals[t.handle := l'],
       tickets := s.tickets[i := t.(phase := AfterStep(b'), replies := t.replies + [r])],
       jobs := if b'.pc.Finished? then s.jobs + [SettleRun(i)] else s.jobs)
  }

  // The ticket attached to the chain promise of ticket `i`, looked for among the first `n`.
  function Successor(ts: seq<Ticket>, i: nat, n: nat): (j: Option<nat>)
    requires n <= |ts|
    ensures j.Some? ==> j.value < n && ts[j.value].Ticket? && ts[j.value].prev == Some(i)
    ensures j.None? ==> forall k :: 0 <= k < n && ts[k].Ticket? ==> ts[k].prev != Some(i)
  {
    if n == 0 then None
    else if ts[n - 1].Ticket? && ts[n - 1].prev == Some(i) then Some(n - 1)
    else Successor(ts, i, n - 1)
  }

  // The client `getMatrixClient` reads from the session when it is resumed.
  function ClientFor(t: Ticket, l: Local, o: Outcome): Option<nat>
    requires t.Ticket?
  {
    if t.call.wantsClient && o.Returned? && l.session.Some? then Some(l.session.value.client) else None
  }

  function RunFirstJob(cfg: Config, s: State, clock: Clock): State
    requires Enabled(cfg, s, RunJob(clock))
  {
    var rest := s.(jobs := s.jobs[1..]);
    match s.jobs[0]
    case StartBody(i) =>
      Advance(cfg, rest, i, Begin(s.tickets[i].call), Done(clock))
    case SettleRun(i) =>
      rest.(tickets := SetPhase(s.tickets, i, Settled(s.tickets[i].phase.outcome)),
            jobs := rest.jobs + [ChainNext(i), Resume(i)])
    case ChainNext(i) =>
      var ts := SetPhase(s.tickets, i, Chained(s.tickets[i].phase.outcome));
      var next := Successor(s.tickets, i, |s.tickets|);
      if next.Some? then
        rest.(tickets := SetPhase(ts, next.value, Ready), jobs := rest.jobs + [StartBody(next.value)])
      else rest.(tickets := ts)
    case Resume(i) =>
      var t := s.tickets[i];
      rest.(tickets := SetPhase(s.tickets, i,
              Delivered(t.phase.outcome, ClientFor(t, LocalOf(s, t.handle), t.phase.outcome))))
  }

  // The callback of a timer calls `ensureValidSession` with the passphrase it was set with.
  function FireTimer(s: State, h: HandleId, k: nat): State
    requires k in Live(s, h)
  {
    EnterChain(s.(fired := s.fired + {(h, k)}), h, Call(LocalOf(s, h).armed[k].pass, None, false))
  }

  function DeleteFromOutside(cfg: Config, s: State, h: HandleId, halt: Halt): State {
    s.(locals := s.locals[h := DeleteSession(cfg, LocalOf(s, h), halt)],
       tickets := s.tickets + [Deletion(h, halt)])
  }

  // For a handle with an inherited name the records of the manager answer with the inherited value, and
  // a call or a deletion throws before it does anything.
  function Next(cfg: Config, s: State, a: Action): State
    requires Enabled(cfg, s, a)
  {
    match a
    case Enter(h, c) => if Inherited(h) then s else EnterChain(s, h, c)
    case RunJob(clock) => RunFirstJob(cfg, s, clock)
    case Answer(i, r) => Advance(cfg, s, i, s.tickets[i].phase.body, r)
    case Fire(h, k) => FireTimer(s, h, k)
    case DeleteOutside(h, halt) => if Inherited(h) then s else DeleteFromOutside(cfg, s, h, halt)
  }

  // ---------- the invariant ----------

  // The last call for a handle among the first `n` tickets.
  function LastCall(ts: seq<Ticket>, h: HandleId, n: nat): Option<nat>
    requires n <= |ts|
  {
    if n == 0 then None
    else if ts[n - 1].Ticket? && ts[n - 1].handle == h then Some(n - 1)
    else LastCall(ts, h, n - 1)
  }

  lemma {:induction false} LastCallIsLast(ts: seq<Ticket>, h: HandleId, n: nat)
    requires n <= |ts|
    ensures var p := LastCall(ts, h, n);
            && (p.Some? ==> p.value < n && ts[p.value].Ticket? && ts[p.value].handle == h)
            && (forall k :: 0 <= k < n && ts[k].Ticket? && ts[k].handle == h ==> p.Some? && k <= p.value)
  {
    if n > 0 {
      LastCallIsLast(ts, h, n - 1);
    }
  }

  // Each call is attached to the last call before it, and `tail` is the last call of all.
  ghost predicate Links(ts: seq<Ticket>, tail: map<HandleId, nat>) {
    && (forall j :: 0 <= j < |ts| && ts[j].Ticket? ==> ts[j].prev == LastCall(ts, ts[j].handle, j))
    && (forall h :: LastCall(ts, h, |ts|) == if h in tail then Some(tail[h]) else None)
  }

  // A ticket is not queued before every earlier one of its handle has fulfilled its chain promise,
  // and not begun before every earlier caller was resumed.
  ghost predicate Order(ts: seq<Ticket>) {
    forall i, j :: 0 <= i < j < |ts| && ts[i].handle == ts[j].handle ==>
      (Rank(ts[j]) >= 1 ==> Rank(ts[i]) >= 5) && (Rank(ts[j]) >= 2 ==> Rank(ts[i]) == 6)
  }

  // A waiting ticket waits for a chain promise that is pending.
  ghost predicate Waits(ts: seq<Ticket>) {
    forall j :: 0 <= j < |ts| && Rank(ts[j]) == 0 ==>
      ts[j].prev.Some? && ts[j].prev.value < j && Rank(ts[ts[j].prev.value]) < 5
  }

  predicate Fits(ts: seq<Ticket>, j: Job) {
    j.i < |ts| && ts[j.i].Ticket? &&
    (match j
     case StartBody(i) => Rank(ts[i]) == 1
     case SettleRun(i) => Rank(ts[i]) == 3
     case ChainNext(i) => Rank(ts[i]) == 4
     case Resume(i) => Rank(ts[i]) == 4 || Rank(ts[i]) == 5)
  }

  predicate HasJob(jobs: seq<Job>, t: Ticket, i: nat) {
    && (Rank(t) == 1 ==> StartBody(i) in jobs)
    && (Rank(t) == 3 ==> SettleRun(i) in jobs)
    && (Rank(t) == 4 ==> ChainNext(i) in jobs)
  }

  // The queue holds exactly the jobs the phases call for, the reactions of a settled promise
  // side by side.
  ghost predicate Queue(ts: seq<Ticket>, jobs: seq<Job>) {
    && (forall k :: 0 <= k < |jobs| ==> Fits(ts, jobs[k]))
    && (forall k, l :: 0 <= k < l < |jobs| ==> jobs[k] != jobs[l])
    && (forall i :: 0 <= i < |ts| ==> HasJob(jobs, ts[i], i))
    && (forall k :: 0 <= k < |jobs| && jobs[k].ChainNext? ==>
          k + 1 < |jobs| && jobs[k + 1] == Resume(jobs[k].i))
    && (forall i :: 0 <= i < |ts| && Rank(ts[i]) == 5 ==> jobs != [] && jobs[0] == Resume(i))
  }

  // The effect of running, one whole body after another in ticket order, the bodies of a handle
  // among the first `n` tickets, each on the replies it was given.
  ghost function Replay(cfg: Config, ts: seq<Ticket>, h: HandleId, n: nat): Local
    requires n <= |ts|
  {
    if n == 0 then FreshLocal
    else
      var l := Replay(cfg, ts, h, n - 1);
      var t := ts[n - 1];
      if t.handle != h then l
      else if t.Deletion? then DeleteSession(cfg, l, t.halt)
      else if Runs(cfg, l, Begin(t.call), t.replies) then Run(cfg, l, Begin(t.call), t.replies).0
      else l
  }

  // The phase of a ticket is what the sequential run of its body says.
  ghost predicate Recorded(cfg: Config, ts: seq<Ticket>, i: nat)
    requires i < |ts|
  {
    var t := ts[i];
    if t.Deletion? then t.halt == AtOpen ==> cfg.hasStorage
    else
      var l := Replay(cfg, ts, t.handle, i);
      && Runs(cfg, l, Begin(t.call), t.replies)
      && (var b := Run(cfg, l, Begin(t.call), t.replies).1;
          match t.phase
          case Waiting => t.replies == []
          case Ready => t.replies == []
          case Running(body) => b == body && !b.pc.Finished?
          case Ended(o) => b.pc == Finished(o)
          case Settled(o) => b.pc == Finished(o)
          case Chained(o) => b.pc == Finished(o)
          case Delivered(o, _) => b.pc == Finished(o))
  }

  ghost predicate History(cfg: Config, locals: map<HandleId, Local>, ts: seq<Ticket>) {
    && (forall h :: LocalIn(locals, h) == Replay(cfg, ts, h, |ts|))
    && (forall i :: 0 <= i < |ts| ==> Recorded(cfg, ts, i))
  }

  // Timer numbers are not used twice.
  ghost predicate FiredBefore(locals: map<HandleId, Local>, fired: set<(HandleId, nat)>) {
    forall h, k :: (h, k) in fired ==> k < LocalIn(locals, h).nextTimer
  }

  ghost predicate Inv(cfg: Config, s: State) {
    && FiredBefore(s.locals, s.fired)
    && Links(s.tickets, s.tail)
    && Order(s.tickets)
    && Waits(s.tickets)
    && Queue(s.tickets, s.jobs)
    && History(cfg, s.locals, s.tickets)
  }
}
