// What a call makes of its arguments and of the session it finds: the passphrase its session is stored
// with, the device the session service is asked for, the storage it opens and the client it ends with.
module SessionOutcomes {
  import opened Options
  import opened TokenClock
  import opened SessionBody

  // A call works with the passphrase of the session it finds, or else with its own.
  function PassFor(found: Option<Session>, c: Call): Option<string> {
    if found.Some? then found.value.pass.OrElse(c.pass) else c.pass
  }

  // The device a body at the service asks for: a refresh keeps that of the cached token.
  function DeviceAsked(b: Body): Option<string>
    requires b.pc.Service()
    requires b.pc.RefreshService? ==> b.pc.cached.token.Jwt?
  {
    match b.pc
    case RefreshService(cached) => Some(cached.token.device)
    case _ => b.device
  }

  // The device for a session made from scratch: that of the stored token, if there is one, or else the
  // one the caller gave. A session that was deleted on the way has left no stored token.
  function DeviceForNew(cfg: Config, l: Local, c: Call): Option<string>
    requires cfg.hasStorage && l.stored.Some? ==> l.stored.value.Jwt?
  {
    if cfg.hasStorage && l.stored.Some? then Some(l.stored.value.device) else c.device
  }

  // What holds at each `await` of a body that found the session `found`.
  ghost predicate Follows(cfg: Config, found: Option<Session>, c: Call, l: Local, b: Body) {
    && (b.pc.Start? ==> b == Begin(c) && l.session == found)
    && (!b.pc.Start? ==> b.pass == PassFor(found, c))
    && (l.session.Some? ==> l.session == found || l.session.value.pass == PassFor(found, c))
    && (found.Some? && (b.pc.DeleteClose? || b.pc.CreateOpen? || b.pc.CreateRead? || b.pc.CreateService?) ==>
        l.stored.None?)
    && (found.Some? && b.pc.CreateOpen? ==> !l.storeOpen)
    && match b.pc
       case RefreshService(cached) =>
         l.session == found == Some(cached) && Decodes(cached.token) && b.device == c.device
       case RefreshOpen(_) => l.session.Some? && b.device == c.device
       case RefreshSave(_) => l.session.Some? && b.device == c.device
       case CreateService =>
         (cfg.hasStorage && l.stored.Some? ==> Decodes(l.stored.value)) && b.device == DeviceForNew(cfg, l, c)
       case CreateClient(_) => true
       case CreateSave(_) => true
       case Finished(_) => true
       case _ => b.device == c.device
  }

  lemma StartFollows(cfg: Config, found: Option<Session>, c: Call, l: Local, b: Body, clock: Clock)
    requires Follows(cfg, found, c, l, b) && b.pc.Start?
    ensures var (l', b') := StepStart(cfg, l, b, clock); Follows(cfg, found, c, l', b')
  {
    hide Expired, JudgedFresh;
  }

  lemma DeleteFollows(cfg: Config, found: Option<Session>, c: Call, l: Local, b: Body, r: Reply)
    requires Follows(cfg, found, c, l, b) && b.pc.Deleting()
    ensures var (l', b') := StepDelete(cfg, l, b, r); Follows(cfg, found, c, l', b')
  {
  }

  lemma CreateFollows(cfg: Config, found: Option<Session>, c: Call, l: Local, b: Body, r: Reply)
    requires Follows(cfg, found, c, l, b) && Possible(cfg, l, b, r)
    requires b.pc.Creating() || b.pc.CreateSave?
    ensures var (l', b') := StepCreate(cfg, l, b, r); Follows(cfg, found, c, l', b')
  {
    hide RefreshDelay, JudgedFresh;
  }

  lemma RefreshFollows(cfg: Config, found: Option<Session>, c: Call, l: Local, b: Body, r: Reply)
    requires Follows(cfg, found, c, l, b) && Possible(cfg, l, b, r)
    requires b.pc.RefreshService? || b.pc.RefreshOpen? || b.pc.RefreshSave?
    ensures var (l', b') := StepRefresh(cfg, l, b, r); Follows(cfg, found, c, l', b')
  {
    hide RefreshDelay;
  }

  lemma StepFollows(cfg: Config, found: Option<Session>, c: Call, l: Local, b: Body, r: Reply)
    requires Follows(cfg, found, c, l, b) && Possible(cfg, l, b, r)
    ensures var (l', b') := Step(cfg, l, b, r); Follows(cfg, found, c, l', b')
  {
    hide RefreshDelay, Expired, JudgedFresh, StepStart, StepDelete, StepCreate, StepRefresh;
    if b.pc.Start? {
      StartFollows(cfg, found, c, l, b, r.clock);
    } else if b.pc.Deleting() {
      DeleteFollows(cfg, found, c, l, b, r);
    } else if b.pc.Creating() || b.pc.CreateSave? {
      CreateFollows(cfg, found, c, l, b, r);
    } else {
      RefreshFollows(cfg, found, c, l, b, r);
    }
  }

  lemma {:induction false} RunFollows(cfg: Config, l: Local, c: Call, rs: seq<Reply>)
    requires Runs(cfg, l, Begin(c), rs)
    ensures var (l', b') := Run(cfg, l, Begin(c), rs); Follows(cfg, l.session, c, l', b')
    decreases |rs|
  {
    if rs != [] {
      var (l1, b1) := Run(cfg, l, Begin(c), rs[..|rs| - 1]);
      RunFollows(cfg, l, c, rs[..|rs| - 1]);
      StepFollows(cfg, l.session, c, l1, b1, rs[|rs| - 1]);
    }
  }

  // A body that ends leaves no session, the one it found, or one with the passphrase of the session it
  // found and, failing that, of its caller; the timer it leaves passes the same passphrase on.
  lemma PassphraseSticks(cfg: Config, l: Local, c: Call, rs: seq<Reply>)
    requires Rest(cfg, l) && Runs(cfg, l, Begin(c), rs)
    requires Run(cfg, l, Begin(c), rs).1.pc.Finished?
    ensures var l' := Run(cfg, l, Begin(c), rs).0;
            l'.session.Some? ==>
              && (l'.session == l.session || l'.session.value.pass == PassFor(l.session, c))
              && (forall k :: k in l'.armed ==> l'.armed[k].pass == l'.session.value.pass)
  {
    RunFollows(cfg, l, c, rs);
    RunKeepsWorking(cfg, l, c, rs);
  }

  // Whenever a body asks the service for a token, it asks for the device of the cached token when it
  // refreshes a session, else for that of the stored token, else for the caller's. A body that has
  // deleted the session it found has deleted the stored token too, and asks for the caller's device.
  lemma ServiceAskedForDevice(cfg: Config, l: Local, c: Call, rs: seq<Reply>)
    requires Runs(cfg, l, Begin(c), rs)
    requires Run(cfg, l, Begin(c), rs).1.pc.Service()
    ensures var (l', b') := Run(cfg, l, Begin(c), rs);
            if b'.pc.RefreshService? then
              l.session.Some? && l.session.value.token.Jwt? && b'.pc.cached == l.session.value
              && DeviceAsked(b') == Some(l.session.value.token.device)
            else
              && (cfg.hasStorage && l'.stored.Some? ==> l'.stored.value.Jwt?)
              && DeviceAsked(b') == DeviceForNew(cfg, l', c)
              && (l.session.Some? ==> DeviceAsked(b') == c.device)
  {
    RunFollows(cfg, l, c, rs);
  }

  // ---------- the storage cache ----------

  // A refresh, and a deletion, which opens the storage without a passphrase, find the storage of the
  // handle in the cache: opening it cannot fail there. A deletion has taken it out of the cache when a new
  // session is made, which opens it with the passphrase.
  lemma StorageIsCached(cfg: Config, l: Local, c: Call, rs: seq<Reply>)
    requires Rest(cfg, l) && Runs(cfg, l, Begin(c), rs)
    ensures var (l', b') := Run(cfg, l, Begin(c), rs);
            b'.pc.RefreshOpen? || b'.pc.DeleteOpen? || b'.pc.DeleteClose? ==>
              (cfg.hasStorage ==> l'.storeOpen) && (b'.pc.Opening() ==> !Possible(cfg, l', b', Failed))
    ensures var (l', b') := Run(cfg, l, Begin(c), rs);
            b'.pc.CreateOpen? && l.session.Some? ==> !l'.storeOpen
  {
    RunKeepsWorking(cfg, l, c, rs);
    RunFollows(cfg, l, c, rs);
  }

  // ---------- which client a call ends with ----------

  // The cached token is judged fresh and in use by the client.
  predicate Usable(cfg: Config, l: Local, s: Session, clock: Clock)
    requires s.token.Jwt?
  {
    JudgedFresh(s.token.exp, cfg.minutes, clock) && Uses(l, s.client, s.token)
  }

  // The session still has its client; the token that was replaced had not expired.
  predicate Refreshed(s: Session, clock: Clock, l: Local)
    requires s.token.Jwt?
  {
    !Expired(s.token.exp, clock.third) && l.session.Some? && l.session.value.client == s.client
  }

  // There is a session with a client that did not exist before.
  predicate Created(found: Local, l: Local) {
    l.session.Some? && l.session.value.client >= |found.clients|
  }

  // What holds at each later `await` of a body that started on `found` with the clock at `clock`.
  ghost predicate TakesBranch(cfg: Config, found: Local, clock: Clock, l: Local, b: Body)
    requires found.session.Some? && Decodes(found.session.value.token)
  {
    var s := found.session.value;
    && |found.clients| <= |l.clients|
    && match b.pc
       case Start => false
       case Finished(Rejected) => true
       case Finished(Returned(t)) =>
         if Usable(cfg, found, s, clock) then l == found && t == s.token
         else Refreshed(s, clock, l) || Created(found, l)
       case RefreshService(cached) => cached == s && !Usable(cfg, found, s, clock) && !Expired(s.token.exp, clock.third)
       case RefreshOpen(_) => !Usable(cfg, found, s, clock) && Refreshed(s, clock, l)
       case RefreshSave(_) => !Usable(cfg, found, s, clock) && Refreshed(s, clock, l)
       case CreateSave(_) => !Usable(cfg, found, s, clock) && Created(found, l)
       case _ => !Usable(cfg, found, s, clock)
  }

  lemma StartTakesBranch(cfg: Config, l: Local, c: Call, clock: Clock)
    requires l.session.Some? && Decodes(l.session.value.token)
    ensures var (l', b') := StepStart(cfg, l, Begin(c), clock); TakesBranch(cfg, l, clock, l', b')
  {
    hide Expired, JudgedFresh, Decodes;
  }

  lemma StepKeepsBranch(cfg: Config, found: Local, clock: Clock, l: Local, b: Body, r: Reply)
    requires found.session.Some? && Decodes(found.session.value.token)
    requires TakesBranch(cfg, found, clock, l, b) && Possible(cfg, l, b, r)
    ensures var (l', b') := Step(cfg, l, b, r); TakesBranch(cfg, found, clock, l', b')
  {
    hide RefreshDelay, Expired, JudgedFresh, Decodes, Usable;
  }

  lemma {:induction false} RunTakesBranch(cfg: Config, l: Local, c: Call, rs: seq<Reply>)
    requires l.session.Some? && Decodes(l.session.value.token)
    requires Runs(cfg, l, Begin(c), rs) && rs != [] && rs[0].Done?
    ensures var (l', b') := Run(cfg, l, Begin(c), rs); TakesBranch(cfg, l, rs[0].clock, l', b')
    decreases |rs|
  {
    var n := |rs| - 1;
    var (l1, b1) := Run(cfg, l, Begin(c), rs[..n]);
    if n == 0 {
      StartTakesBranch(cfg, l, c, rs[0].clock);
    } else {
      RunTakesBranch(cfg, l, c, rs[..n]);
      StepKeepsBranch(cfg, l, rs[0].clock, l1, b1, rs[n]);
    }
  }

  // A call that returns has reused the session it found as it was, if its token was judged fresh and
  // was in use; else it has refreshed that session, keeping its client, unless its token had expired;
  // else it has made a session with a client of its own.
  lemma ReuseRefreshOrCreate(cfg: Config, l: Local, c: Call, rs: seq<Reply>, t: Token)
    requires Rest(cfg, l) && l.session.Some?
    requires Runs(cfg, l, Begin(c), rs) && rs != [] && rs[0].Done?
    requires Run(cfg, l, Begin(c), rs).1.pc == Finished(Returned(t))
    ensures var l' := Run(cfg, l, Begin(c), rs).0;
            var (s, clock) := (l.session.value, rs[0].clock);
            && (Usable(cfg, l, s, clock) ==> l' == l && t == s.token)
            && (!Usable(cfg, l, s, clock) ==> Refreshed(s, clock, l') || Created(l, l'))
  {
    RunTakesBranch(cfg, l, c, rs);
  }
}
