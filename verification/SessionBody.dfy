// What one session body does to the state of its handle. A body is the code that runs for one
// `ensureValidSession` call; it is cut at every `await`, and `Step` is the code between two of them.
module SessionBody {
  import opened Options
  import opened TokenClock

  // The refresh threshold, and whether a storage provider is configured.
  datatype Config = Config(minutes: int, hasStorage: bool)

  // A timer keeps the passphrase its callback passes on, when it was set and its delay.
  datatype Timer = Timer(pass: Option<string>, setAt: int, delay: int)

  datatype Session = Session(token: Token, pass: Option<string>, client: nat, timer: Option<nat>)

  // Everything that belongs to one handle. `armed` holds the timers set and not cleared,
  // `clients[c]` the token client `c` uses, `stored` the persisted token, `storeOpen` whether the
  // handle storage cache has an entry. `storageFault` remembers that some storage call has failed.
  datatype Local = Local(
    session: Option<Session>,
    armed: map<nat, Timer>,
    nextTimer: nat,
    clients: seq<Token>,
    stored: Option<Token>,
    storeOpen: bool,
    storageFault: bool)

  const FreshLocal := Local(None, map[], 0, [], None, false, false)

  // The arguments of `ensureValidSession`, and whether the caller is `getMatrixClient`.
  datatype Call = Call(pass: Option<string>, device: Option<string>, wantsClient: bool)

  datatype Outcome = Returned(token: Token) | Rejected

  // The `await` a body is suspended at.
  datatype Pc =
    | Start
    | DeleteStopSync
    | DeleteFlush
    | DeleteOpen
    | DeleteToken
    | DeleteClose
    | RefreshService(cached: Session)
    | RefreshOpen(token: Token)
    | RefreshSave(token: Token)
    | CreateOpen
    | CreateRead
    | CreateService
    | CreateClient(token: Token)
    | CreateSave(token: Token)
    | Finished(outcome: Outcome)
  {
    predicate Deleting() {
      DeleteStopSync? || DeleteFlush? || DeleteOpen? || DeleteToken? || DeleteClose?
    }

    // At a `useHandleStorage` call, which succeeds at once when the storage is in the cache.
    predicate Opening() {
      DeleteOpen? || RefreshOpen? || CreateOpen?
    }

    predicate Service() {
      RefreshService? || CreateService?
    }

    // The points before a session exists.
    predicate Creating() {
      CreateOpen? || CreateRead? || CreateService? || CreateClient?
    }
  }

  // `pass` and `device` are the arguments the body works with; `device` becomes that of the stored
  // token once one was read, and is what the service is asked for.
  datatype Body = Body(pc: Pc, pass: Option<string>, device: Option<string>)

  function Begin(c: Call): Body {
    Body(Start, c.pass, c.device)
  }

  // How an `await` ends: normally, with an exception, or with a token from the session service.
  // The clock is what the code after the `await` reads.
  datatype Reply = Done(clock: Clock) | Failed | Granted(token: Token, clock: Clock)

  // The replies that can reach a body: stopping the sync and the flush cannot fail, nor can a
  // storage call when no storage is configured, nor the opening of a storage that is in the cache.
  predicate Possible(cfg: Config, l: Local, b: Body, r: Reply) {
    match b.pc
    case Start => r.Done?
    case DeleteStopSync => r.Done?
    case DeleteFlush => r.Done?
    case Finished(_) => false
    case CreateClient(_) => !r.Granted?
    case _ =>
      if b.pc.Service() then !r.Done?
      else !r.Granted? && (r.Failed? ==> cfg.hasStorage && (b.pc.Opening() ==> !l.storeOpen))
  }

  // ---------- the code between two awaits ----------

  predicate Uses(l: Local, client: nat, t: Token) {
    client < |l.clients| && l.clients[client] == t
  }

  // `deleteSession` up to its first `await`.
  function BeginDelete(l: Local, b: Body): (Local, Body) {
    if l.session.None? then (l, b.(pc := CreateOpen))
    else
      var timer := l.session.value.timer;
      (l.(armed := if timer.Some? then l.armed - {timer.value} else l.armed), b.(pc := DeleteStopSync))
  }

  // `scheduleTokenRefresh`, with the timer it returns.
  function Schedule(cfg: Config, l: Local, t: Token, pass: Option<string>, ms: int): (Local, Option<nat>)
    requires Decodes(t)
  {
    var delay := RefreshDelay(t.exp, ms, cfg.minutes);
    if delay.None? then (l, None)
    else (l.(armed := l.armed[l.nextTimer := Timer(pass, ms, delay.value)], nextTimer := l.nextTimer + 1),
          Some(l.nextTimer))
  }

  function Fault(l: Local): Local {
    l.(storageFault := true)
  }

  function Save(cfg: Config, l: Local, t: Token): Local {
    if cfg.hasStorage then l.(stored := Some(t)) else l
  }

  function Finish(b: Body, o: Outcome): Body {
    b.(pc := Finished(o))
  }

  // `ensureValidSessionBody` and `tryUseCachedSession` up to the first `await`.
  function StepStart(cfg: Config, l: Local, b: Body, clock: Clock): (Local, Body) {
    if l.session.None? then (l, b.(pc := CreateOpen))
    else
      var s := l.session.value;
      var b := b.(pass := s.pass.OrElse(b.pass));
      if !Decodes(s.token) then (l, Finish(b, Rejected))
      else if JudgedFresh(s.token.exp, cfg.minutes, clock) && Uses(l, s.client, s.token) then
        (l, Finish(b, Returned(s.token)))
      else if Expired(s.token.exp, clock.third) then BeginDelete(l, b)
      else (l, b.(pc := RefreshService(s)))
  }

  // `deleteSession` after its first `await`; it is followed by `createNewSession`.
  function StepDelete(cfg: Config, l: Local, b: Body, r: Reply): (Local, Body)
    requires b.pc.Deleting()
  {
    if r.Failed? then (Fault(l), Finish(b, Rejected))
    else match b.pc
      case DeleteStopSync => (l, b.(pc := DeleteFlush))
      case DeleteFlush => (l, b.(pc := DeleteOpen))
      case DeleteOpen => (l.(storeOpen := cfg.hasStorage), b.(pc := DeleteToken))
      case DeleteToken => (l.(stored := None), b.(pc := DeleteClose))
      case DeleteClose => (l.(storeOpen := false, session := None), b.(pc := CreateOpen))
  }

  // `refreshCachedSessionToken`: any failure ends in `deleteSession`.
  function StepRefresh(cfg: Config, l: Local, b: Body, r: Reply): (Local, Body)
    requires b.pc.RefreshService? || b.pc.RefreshOpen? || b.pc.RefreshSave?
    requires Possible(cfg, l, b, r)
  {
    match b.pc
    case RefreshService(cached) =>
      if r.Failed? || !Decodes(r.token) then BeginDelete(l, b)
      else
        var cleared := if cached.timer.Some? then l.(armed := l.armed - {cached.timer.value}) else l;
        var (l1, timer) := Schedule(cfg, cleared, r.token, b.pass, r.clock.first);
        var l2 := if cached.client < |l1.clients|
                  then l1.(clients := l1.clients[cached.client := r.token]) else l1;
        (l2.(session := Some(Session(r.token, b.pass, cached.client, timer))),
         b.(pc := RefreshOpen(r.token)))
    case RefreshOpen(t) =>
      if r.Failed? then BeginDelete(Fault(l), b)
      else (l.(storeOpen := cfg.hasStorage), b.(pc := RefreshSave(t)))
    case RefreshSave(t) =>
      if r.Failed? then BeginDelete(Fault(l), b)
      else (Save(cfg, l, t), Finish(b, Returned(t)))
  }

  // `createNewSession` with `getAccessTokenFromStorageOrService`.
  function StepCreate(cfg: Config, l: Local, b: Body, r: Reply): (Local, Body)
    requires b.pc.Creating() || b.pc.CreateSave?
    requires Possible(cfg, l, b, r)
  {
    match b.pc
    case CreateOpen =>
      if r.Failed? then (Fault(l), Finish(b, Rejected))
      else (l.(storeOpen := cfg.hasStorage), b.(pc := CreateRead))
    case CreateRead =>
      if r.Failed? then (Fault(l), Finish(b, Rejected))
      else if !cfg.hasStorage || l.stored.None? then (l, b.(pc := CreateService))
      else
        var t := l.stored.value;
        if !Decodes(t) then (l, Finish(b, Rejected))
        else if JudgedFresh(t.exp, cfg.minutes, r.clock) then (l, b.(pc := CreateClient(t)))
        else (l, b.(pc := CreateService, device := Some(t.device)))
    case CreateService =>
      if r.Failed? || !Decodes(r.token) then (l, Finish(b, Rejected))
      else (l, b.(pc := CreateClient(r.token)))
    case CreateClient(t) =>
      if r.Failed? || !Decodes(t) then (l, Finish(b, Rejected))
      else
        var (l1, timer) := Schedule(cfg, l, t, b.pass, r.clock.first);
        (l1.(clients := l1.clients + [t],
             session := Some(Session(t, b.pass, |l1.clients|, timer))),
         b.(pc := CreateSave(t)))
    case CreateSave(t) =>
      if r.Failed? then (Fault(l), Finish(b, Rejected))
      else (Save(cfg, l, t), Finish(b, Returned(t)))
  }

  function Step(cfg: Config, l: Local, b: Body, r: Reply): (Local, Body)
    requires Possible(cfg, l, b, r)
  {
    if b.pc.Start? then StepStart(cfg, l, b, r.clock)
    else if b.pc.Deleting() then StepDelete(cfg, l, b, r)
    else if b.pc.Creating() || b.pc.CreateSave? then StepCreate(cfg, l, b, r)
    else StepRefresh(cfg, l, b, r)
  }

  // ---------- whole bodies ----------

  // Whether the replies can be given to the body one after another.
  ghost predicate Runs(cfg: Config, l: Local, b: Body, rs: seq<Reply>)
    decreases |rs|, 0
  {
    rs == [] ||
    (Runs(cfg, l, b, rs[..|rs| - 1]) && (var (l1, b1) := Run(cfg, l, b, rs[..|rs| - 1]);
      Possible(cfg, l1, b1, rs[|rs| - 1])))
  }

  // The sequential run of a body on its own.
  ghost function Run(cfg: Config, l: Local, b: Body, rs: seq<Reply>): (Local, Body)
    requires Runs(cfg, l, b, rs)
    decreases |rs|, 1
  {
    if rs == [] then (l, b)
    else
      var (l1, b1) := Run(cfg, l, b, rs[..|rs| - 1]);
      Step(cfg, l1, b1, rs[|rs| - 1])
  }

  // A bound on the replies a body still waits for.
  function Remaining(b: Body): nat {
    match b.pc
    case Start => 14
    case RefreshService(_) => 13
    case RefreshOpen(_) => 12
    case RefreshSave(_) => 11
    case DeleteStopSync => 10
    case DeleteFlush => 9
    case DeleteOpen => 8
    case DeleteToken => 7
    case DeleteClose => 6
    case CreateOpen => 5
    case CreateRead => 4
    case CreateService => 3
    case CreateClient(_) => 2
    case CreateSave(_) => 1
    case Finished(_) => 0
  }

  lemma StepApproachesEnd(cfg: Config, l: Local, b: Body, r: Reply)
    requires Possible(cfg, l, b, r)
    ensures Remaining(Step(cfg, l, b, r).1) < Remaining(b)
  {
  }

  // Every body ends after at most fourteen replies, whatever they are.
  lemma {:induction false} BodyEnds(cfg: Config, l: Local, b: Body, rs: seq<Reply>)
    requires Runs(cfg, l, b, rs)
    ensures |rs| + Remaining(Run(cfg, l, b, rs).1) <= Remaining(b)
    decreases |rs|
  {
    if rs != [] {
      var (l1, b1) := Run(cfg, l, b, rs[..|rs| - 1]);
      BodyEnds(cfg, l, b, rs[..|rs| - 1]);
      StepApproachesEnd(cfg, l1, b1, rs[|rs| - 1]);
    }
  }

  // ---------- what a body keeps ----------

  // What holds whenever no body is at work on the handle.
  ghost predicate Rest(cfg: Config, l: Local) {
    && Linked(cfg, l)
    && (!l.storageFault ==> TimerArmed(l))
    && (cfg.hasStorage && !l.storageFault && l.session.Some? ==> l.stored == Some(l.session.value.token))
  }

  // The timer stored in the session is armed.
  predicate TimerArmed(l: Local) {
    l.session.Some? && l.session.value.timer.Some? ==> l.session.value.timer.value in l.armed
  }

  // The timer was set for the token of the session, and passes on the passphrase of the session.
  predicate TimerFits(cfg: Config, s: Session, t: Timer) {
    && Decodes(s.token)
    && t.pass == s.pass
    && RefreshDelay(s.token.exp, t.setAt, cfg.minutes) == Some(t.delay)
  }

  // No timer is armed but the one stored in the session, which fits it, and the client of a session uses the
  // token of the session. The storage of a handle with a session is in the cache.
  ghost predicate Linked(cfg: Config, l: Local) {
    && (l.session.None? ==> l.armed == map[])
    && (l.session.Some? ==>
          && (forall k :: k in l.armed ==>
                l.session.value.timer == Some(k) && TimerFits(cfg, l.session.value, l.armed[k]))
          && Decodes(l.session.value.token)
          && Uses(l, l.session.value.client, l.session.value.token))
    && (forall k :: k in l.armed ==> k < l.nextTimer)
    && (cfg.hasStorage && l.session.Some? ==> l.storeOpen)
  }

  // What holds at each `await` of a body.
  ghost predicate Working(cfg: Config, l: Local, b: Body) {
    && Linked(cfg, l)
    && match b.pc
       case Start => Rest(cfg, l)
       case Finished(Rejected) => Rest(cfg, l)
       case Finished(Returned(t)) => Rest(cfg, l) && l.session.Some? && l.session.value.token == t
       case RefreshService(cached) => Rest(cfg, l) && l.session == Some(cached)
       case RefreshOpen(t) => TimerArmed(l) && l.session.Some? && l.session.value.token == t
       case RefreshSave(t) => TimerArmed(l) && l.session.Some? && l.session.value.token == t
       case CreateSave(t) => TimerArmed(l) && l.session.Some? && l.session.value.token == t
       case CreateClient(t) => Decodes(t) && l.session.None? && (cfg.hasStorage ==> l.storeOpen)
       case CreateOpen => l.session.None?
       case CreateRead => l.session.None? && (cfg.hasStorage ==> l.storeOpen)
       case CreateService => l.session.None? && (cfg.hasStorage ==> l.storeOpen)
       case _ => l.session.Some? && l.armed == map[]
  }

  lemma BeginDeleteKeepsWorking(cfg: Config, l: Local, b: Body)
    requires Linked(cfg, l)
    ensures var (l', b') := BeginDelete(l, b); Working(cfg, l', b')
  {
  }

  lemma StepStartKeepsWorking(cfg: Config, l: Local, b: Body, clock: Clock)
    requires Working(cfg, l, b) && b.pc.Start?
    ensures var (l', b') := StepStart(cfg, l, b, clock); Working(cfg, l', b')
  {
    if l.session.Some? {
      BeginDeleteKeepsWorking(cfg, l, b.(pass := l.session.value.pass.OrElse(b.pass)));
    }
  }

  lemma GrantKeepsWorking(cfg: Config, l: Local, b: Body, r: Reply)
    requires Working(cfg, l, b) && b.pc.RefreshService? && Possible(cfg, l, b, r)
    requires r.Granted? && Decodes(r.token)
    ensures var (l', b') := StepRefresh(cfg, l, b, r); Working(cfg, l', b')
  {
    hide Decodes;
  }

  lemma StepRefreshKeepsWorking(cfg: Config, l: Local, b: Body, r: Reply)
    requires Working(cfg, l, b) && Possible(cfg, l, b, r)
    requires b.pc.RefreshService? || b.pc.RefreshOpen? || b.pc.RefreshSave?
    ensures var (l', b') := StepRefresh(cfg, l, b, r); Working(cfg, l', b')
  {
    if r.Granted? && Decodes(r.token) {
      GrantKeepsWorking(cfg, l, b, r);
    } else {
      hide TimerFits, Decodes, Schedule;
      BeginDeleteKeepsWorking(cfg, l, b);
      BeginDeleteKeepsWorking(cfg, Fault(l), b);
    }
  }

  lemma StepDeleteKeepsWorking(cfg: Config, l: Local, b: Body, r: Reply)
    requires Working(cfg, l, b) && b.pc.Deleting()
    ensures var (l', b') := StepDelete(cfg, l, b, r); Working(cfg, l', b')
  {
    hide TimerFits, Decodes;
  }

  lemma StepCreateKeepsWorking(cfg: Config, l: Local, b: Body, r: Reply)
    requires Working(cfg, l, b) && Possible(cfg, l, b, r)
    requires b.pc.Creating() || b.pc.CreateSave?
    ensures var (l', b') := StepCreate(cfg, l, b, r); Working(cfg, l', b')
  {
    hide RefreshDelay, JudgedFresh;
  }

  lemma StepKeepsWorking(cfg: Config, l: Local, b: Body, r: Reply)
    requires Working(cfg, l, b) && Possible(cfg, l, b, r)
    ensures var (l', b') := Step(cfg, l, b, r); Working(cfg, l', b')
  {
    hide Working, StepStart, StepDelete, StepCreate, StepRefresh;
    if b.pc.Start? {
      StepStartKeepsWorking(cfg, l, b, r.clock);
    } else if b.pc.Deleting() {
      StepDeleteKeepsWorking(cfg, l, b, r);
    } else if b.pc.Creating() || b.pc.CreateSave? {
      StepCreateKeepsWorking(cfg, l, b, r);
    } else {
      StepRefreshKeepsWorking(cfg, l, b, r);
    }
  }

  lemma {:induction false} RunKeepsWorking(cfg: Config, l: Local, c: Call, rs: seq<Reply>)
    requires Rest(cfg, l) && Runs(cfg, l, Begin(c), rs)
    ensures var (l', b') := Run(cfg, l, Begin(c), rs); Working(cfg, l', b')
    decreases |rs|
  {
    if rs != [] {
      var (l1, b1) := Run(cfg, l, Begin(c), rs[..|rs| - 1]);
      RunKeepsWorking(cfg, l, c, rs[..|rs| - 1]);
      StepKeepsWorking(cfg, l1, b1, rs[|rs| - 1]);
    }
  }

  // ---------- where the returned token comes from ----------

  // The token the code is about to examine: the cached one when the body starts, the stored one when it
  // was read.
  predicate Examines(cfg: Config, l: Local, b: Body, t: Token) {
    Decodes(t) &&
    ((b.pc.Start? && l.session.Some? && l.session.value.token == t) ||
     (b.pc.CreateRead? && cfg.hasStorage && l.stored == Some(t)))
  }

  // The k-th reply of this run brought the token: the service granted it, or it was the cached or stored
  // token examined then, and the clock read there judged it fresh.
  ghost predicate Brings(cfg: Config, l: Local, b: Body, rs: seq<Reply>, k: nat, t: Token)
    requires Runs(cfg, l, b, rs) && k < |rs|
  {
    RunsPrefix(cfg, l, b, rs, k);
    var (l1, b1) := Run(cfg, l, b, rs[..k]);
    || (rs[k].Granted? && b1.pc.Service() && rs[k].token == t)
    || (rs[k].Done? && Examines(cfg, l1, b1, t) && JudgedFresh(t.exp, cfg.minutes, rs[k].clock))
  }

  lemma {:induction false} RunsPrefix(cfg: Config, l: Local, b: Body, rs: seq<Reply>, k: nat)
    requires Runs(cfg, l, b, rs) && k <= |rs|
    ensures Runs(cfg, l, b, rs[..k])
    decreases |rs|
  {
    if k < |rs| {
      assert rs[..|rs| - 1][..k] == rs[..k];
      RunsPrefix(cfg, l, b, rs[..|rs| - 1], k);
    } else {
      assert rs[..k] == rs;
    }
  }

  lemma {:induction false} ReplyPossible(cfg: Config, l: Local, b: Body, rs: seq<Reply>, k: nat)
    requires Runs(cfg, l, b, rs) && k < |rs|
    ensures Runs(cfg, l, b, rs[..k])
    ensures var (l1, b1) := Run(cfg, l, b, rs[..k]); Possible(cfg, l1, b1, rs[k])
    decreases |rs|
  {
    if k < |rs| - 1 {
      assert rs[..|rs| - 1][..k] == rs[..k];
      ReplyPossible(cfg, l, b, rs[..|rs| - 1], k);
    }
  }

  // The token a body is about to store or has returned.
  predicate Carries(b: Body, t: Token) {
    match b.pc
    case RefreshOpen(u) => u == t
    case RefreshSave(u) => u == t
    case CreateClient(u) => u == t
    case CreateSave(u) => u == t
    case Finished(Returned(u)) => u == t
    case _ => false
  }

  // A token is either carried on or was brought by this very reply.
  lemma CarriedOrBrought(cfg: Config, l: Local, b: Body, r: Reply, t: Token)
    requires Possible(cfg, l, b, r)
    requires Carries(Step(cfg, l, b, r).1, t)
    ensures Carries(b, t) || (b.pc.Service() && r.Granted? && r.token == t) ||
            (r.Done? && Examines(cfg, l, b, t) && JudgedFresh(t.exp, cfg.minutes, r.clock))
  {
  }

  lemma {:induction false} CarriedTokenWasBrought(cfg: Config, l: Local, c: Call, rs: seq<Reply>, t: Token)
    requires Runs(cfg, l, Begin(c), rs) && Carries(Run(cfg, l, Begin(c), rs).1, t)
    ensures exists k: nat :: k < |rs| && Brings(cfg, l, Begin(c), rs, k, t)
    decreases |rs|
  {
    var n := |rs| - 1;
    var b := Begin(c);
    var (l1, b1) := Run(cfg, l, b, rs[..n]);
    CarriedOrBrought(cfg, l1, b1, rs[n], t);
    if Carries(b1, t) {
      CarriedTokenWasBrought(cfg, l, c, rs[..n], t);
      var k: nat :| k < n && Brings(cfg, l, b, rs[..n], k, t);
      assert rs[..n][..k] == rs[..k];
      assert Brings(cfg, l, b, rs, k, t);
    } else {
      assert Brings(cfg, l, b, rs, n, t);
    }
  }

  // Whenever a body returns t, the handle has a session holding t, its client uses t, t is the
  // persisted token unless a storage call has ever failed, and in this call t was the cached or stored
  // token and judged fresh, or fetched from the service.
  lemma ReturnedToken(cfg: Config, l: Local, c: Call, rs: seq<Reply>, t: Token)
    requires Rest(cfg, l) && Runs(cfg, l, Begin(c), rs)
    requires Run(cfg, l, Begin(c), rs).1.pc == Finished(Returned(t))
    ensures var l' := Run(cfg, l, Begin(c), rs).0;
            && l'.session.Some? && l'.session.value.token == t
            && l'.session.value.client < |l'.clients| && l'.clients[l'.session.value.client] == t
            && (cfg.hasStorage && !l'.storageFault ==> l'.stored == Some(t))
    ensures exists k: nat :: k < |rs| && Brings(cfg, l, Begin(c), rs, k, t)
  {
    RunKeepsWorking(cfg, l, c, rs);
    CarriedTokenWasBrought(cfg, l, c, rs, t);
  }

  // ---------- deletion asked for from outside ----------

  // Where a `deleteSession` call from outside stops: at the `await` that throws, or at its end.
  // With `deleteStorage`, clearing the crypto store counts as part of closing the storage.
  datatype Halt = AtOpen | AtToken | AtClose | Complete

  function DeleteSession(cfg: Config, l: Local, halt: Halt): Local {
    if l.session.None? then l
    else
      var cleared := BeginDelete(l, Begin(Call(None, None, false))).0;
      match halt
      case AtOpen => Fault(cleared)
      case AtToken => Fault(cleared.(storeOpen := cfg.hasStorage))
      case AtClose => Fault(cleared.(storeOpen := cfg.hasStorage, stored := None))
      case Complete => cleared.(storeOpen := false, stored := None, session := None)
  }

  lemma DeleteSessionKeepsRest(cfg: Config, l: Local, halt: Halt)
    requires Rest(cfg, l) && (halt == AtOpen ==> cfg.hasStorage)
    ensures Rest(cfg, DeleteSession(cfg, l, halt))
    ensures l.session.Some? ==> DeleteSession(cfg, l, halt).armed == map[]
    ensures DeleteSession(cfg, l, Complete).session.None?
    ensures l.session.Some? ==>
              DeleteSession(cfg, l, Complete).stored.None? && !DeleteSession(cfg, l, Complete).storeOpen
    ensures l.session.None? ==> DeleteSession(cfg, l, halt) == l
  {
  }
}
