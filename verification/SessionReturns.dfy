// When a call returns and when it rejects, and with which token: the course of a body, reply by reply.
module SessionReturns {
  import opened Options
  import opened TokenClock
  import opened SessionBody
  import opened SessionOutcomes

  // The tokens that can be decoded: those with an expiry and a device.
  predicate Sound(t: Token) {
    t.Jwt? && t.exp != 0 && t.device != ""
  }

  // ---------- rejection ----------

  // The replies that end a call with an exception. What fails in a refresh does not: it turns the call to
  // deletion and creation.
  predicate Fatal(cfg: Config, l: Local, b: Body, r: Reply) {
    match b.pc
    case Start => l.session.Some? && !Sound(l.session.value.token)
    case RefreshService(_) => false
    case RefreshOpen(_) => false
    case RefreshSave(_) => false
    case CreateRead => r.Failed? || (cfg.hasStorage && l.stored.Some? && !Sound(l.stored.value))
    case CreateService => r.Failed? || (r.Granted? && !Sound(r.token))
    case CreateClient(t) => r.Failed? || !Sound(t)
    case _ => r.Failed?
  }

  lemma StepRejectsExactly(cfg: Config, l: Local, b: Body, r: Reply)
    requires Possible(cfg, l, b, r)
    ensures Step(cfg, l, b, r).1.pc == Finished(Rejected) <==> Fatal(cfg, l, b, r)
  {
    hide RefreshDelay, JudgedFresh, Expired;
  }

  ghost predicate FatalAt(cfg: Config, l: Local, c: Call, rs: seq<Reply>, k: nat)
    requires Runs(cfg, l, Begin(c), rs) && k < |rs|
  {
    RunsPrefix(cfg, l, Begin(c), rs, k);
    var (l1, b1) := Run(cfg, l, Begin(c), rs[..k]);
    Fatal(cfg, l1, b1, rs[k])
  }

  // A call is rejected exactly when one of its replies is fatal.
  lemma {:induction false} RejectedExactly(cfg: Config, l: Local, c: Call, rs: seq<Reply>)
    requires Runs(cfg, l, Begin(c), rs)
    ensures Run(cfg, l, Begin(c), rs).1.pc == Finished(Rejected) <==>
            exists k: nat :: k < |rs| && FatalAt(cfg, l, c, rs, k)
    decreases |rs|
  {
    hide Fatal, Step;
    if rs != [] {
      var n := |rs| - 1;
      var (l1, b1) := Run(cfg, l, Begin(c), rs[..n]);
      RejectedExactly(cfg, l, c, rs[..n]);
      StepRejectsExactly(cfg, l1, b1, rs[n]);
      forall k: nat | k < n
        ensures FatalAt(cfg, l, c, rs, k) <==> FatalAt(cfg, l, c, rs[..n], k)
      {
        assert rs[..n][..k] == rs[..k];
      }
      assert FatalAt(cfg, l, c, rs, n) <==> Fatal(cfg, l1, b1, rs[n]);
      assert b1.pc != Finished(Rejected);
    }
  }

  // ---------- the course of a call that goes well ----------

  // No await fails, and every token that is granted, and the stored one a new session would be made
  // with, can be decoded.
  predicate AllWell(cfg: Config, l: Local, rs: seq<Reply>) {
    && (forall k :: 0 <= k < |rs| ==> !rs[k].Failed?)
    && (forall k :: 0 <= k < |rs| && rs[k].Granted? ==> Sound(rs[k].token))
    && (cfg.hasStorage && l.session.None? && l.stored.Some? ==> Sound(l.stored.value))
  }

  // The stored token is used when the clock, read after it was fetched, judges it fresh.
  predicate UsesStored(cfg: Config, l: Local, rs: seq<Reply>) {
    cfg.hasStorage && l.stored.Some? && Sound(l.stored.value) && |rs| > 2 && rs[2].Done? &&
    JudgedFresh(l.stored.value.exp, cfg.minutes, rs[2].clock)
  }

  function TokenAt(rs: seq<Reply>, k: nat): Token {
    if k < |rs| && rs[k].Granted? then rs[k].token else Opaque(0)
  }

  // Where a call without a session is after its replies: the storage is opened and read, the service is
  // asked unless the stored token does, the client is made and the token saved.
  function CreatePc(cfg: Config, l: Local, rs: seq<Reply>): Pc {
    if |rs| < 3 then [Start, CreateOpen, CreateRead][|rs|]
    else if UsesStored(cfg, l, rs) then
      var t := l.stored.value;
      if |rs| < 5 then [CreateClient(t), CreateSave(t)][|rs| - 3] else Finished(Returned(t))
    else
      var t := TokenAt(rs, 3);
      if |rs| < 6 then [CreateService, CreateClient(t), CreateSave(t)][|rs| - 3] else Finished(Returned(t))
  }

  // Where a call that finds a session is: a usable one is returned at once; an expired one is deleted, and
  // a new one is made with a token of the service; any other is refreshed.
  function FoundPc(cfg: Config, l: Local, rs: seq<Reply>): Pc
    requires l.session.Some? && l.session.value.token.Jwt? && rs != [] && rs[0].Done?
  {
    var s := l.session.value;
    var n := |rs| - 1;
    if Usable(cfg, l, s, rs[0].clock) then Finished(Returned(s.token))
    else if Expired(s.token.exp, rs[0].clock.third) then
      var t := TokenAt(rs, 8);
      if n < 10 then
        [DeleteStopSync, DeleteFlush, DeleteOpen, DeleteToken, DeleteClose, CreateOpen, CreateRead, CreateService,
         CreateClient(t), CreateSave(t)][n]
      else Finished(Returned(t))
    else
      var t := TokenAt(rs, 1);
      if n < 3 then [RefreshService(s), RefreshOpen(t), RefreshSave(t)][n] else Finished(Returned(t))
  }

  lemma CreateStep(cfg: Config, l0: Local, rs: seq<Reply>, l: Local, b: Body, r: Reply)
    requires b.pc == CreatePc(cfg, l0, rs) && Possible(cfg, l, b, r)
    requires !b.pc.CreateSave? ==> l.session.None?
    requires |rs| < 3 ==> l.stored == l0.stored
    ensures var (l', b') := Step(cfg, l, b, r);
            b'.pc != Finished(Rejected) ==>
              && b'.pc == CreatePc(cfg, l0, rs + [r])
              && (|rs| < 2 ==> l'.stored == l0.stored)
              && (!b'.pc.CreateSave? && !b'.pc.Finished? ==> l'.session.None?)
  {
    hide RefreshDelay, JudgedFresh;
  }

  // A call without a session that is not rejected takes exactly this course.
  lemma {:induction false} CreateCourse(cfg: Config, l: Local, c: Call, rs: seq<Reply>)
    requires l.session.None? && Runs(cfg, l, Begin(c), rs)
    requires Run(cfg, l, Begin(c), rs).1.pc != Finished(Rejected)
    ensures var (l', b') := Run(cfg, l, Begin(c), rs);
            && b'.pc == CreatePc(cfg, l, rs)
            && (|rs| < 3 ==> l'.stored == l.stored)
            && (!b'.pc.CreateSave? && !b'.pc.Finished? ==> l'.session.None?)
    decreases |rs|
  {
    hide CreatePc, Step;
    if rs == [] {
      CourseStarts(cfg, l);
    } else {
      var n := |rs| - 1;
      var (l1, b1) := Run(cfg, l, Begin(c), rs[..n]);
      assert b1.pc != Finished(Rejected);
      CreateCourse(cfg, l, c, rs[..n]);
      CreateStep(cfg, l, rs[..n], l1, b1, rs[n]);
      assert rs[..n] + [rs[n]] == rs;
    }
  }

  lemma CourseStarts(cfg: Config, l: Local)
    ensures CreatePc(cfg, l, []) == Start
  {
  }

  // A call without a session returns the stored token, without asking the service, if that was judged fresh
  // when it was read; else the token the service granted.
  lemma NewSessionToken(cfg: Config, l: Local, c: Call, rs: seq<Reply>, t: Token)
    requires l.session.None? && Runs(cfg, l, Begin(c), rs)
    requires Run(cfg, l, Begin(c), rs).1.pc == Finished(Returned(t))
    ensures if UsesStored(cfg, l, rs)
            then t == l.stored.value && forall k :: 0 <= k < |rs| ==> !rs[k].Granted?
            else |rs| > 3 && rs[3].Granted? && t == rs[3].token
  {
    CreateCourse(cfg, l, c, rs);
    forall k: nat | k < |rs|
      ensures !(k == 3 && !UsesStored(cfg, l, rs)) ==> !rs[k].Granted?
      ensures k == 3 && !UsesStored(cfg, l, rs) ==> rs[k].Granted?
    {
      CreateGrants(cfg, l, c, rs, k);
    }
  }

  lemma CreateGrants(cfg: Config, l: Local, c: Call, rs: seq<Reply>, k: nat)
    requires l.session.None? && Runs(cfg, l, Begin(c), rs) && k < |rs|
    requires Run(cfg, l, Begin(c), rs).1.pc.Finished? && Run(cfg, l, Begin(c), rs).1.pc != Finished(Rejected)
    ensures rs[k].Granted? <==> k == 3 && !UsesStored(cfg, l, rs)
  {
    ReplyPossible(cfg, l, Begin(c), rs, k);
    RejectedExactly(cfg, l, c, rs);
    assert !FatalAt(cfg, l, c, rs, k);
    var (l1, b1) := Run(cfg, l, Begin(c), rs[..k]);
    CreateCourse(cfg, l, c, rs[..k]);
    assert k > 2 ==> rs[..k][2] == rs[2];
  }

  // Without failures a call without a session is not rejected.
  lemma WellCreatedReturns(cfg: Config, l: Local, c: Call, rs: seq<Reply>)
    requires l.session.None? && Runs(cfg, l, Begin(c), rs) && AllWell(cfg, l, rs)
    ensures Run(cfg, l, Begin(c), rs).1.pc == CreatePc(cfg, l, rs)
  {
    forall k: nat | k < |rs|
      ensures !FatalAt(cfg, l, c, rs, k)
    {
      ReplyPossible(cfg, l, Begin(c), rs, k);
      CreateCourse(cfg, l, c, rs[..k]);
      if k == 4 {
        ReplyPossible(cfg, l, Begin(c), rs, 3);
        CreateCourse(cfg, l, c, rs[..3]);
        assert rs[..4][3] == rs[3] && rs[..4][2] == rs[2] && rs[..3][2] == rs[2];
      }
    }
    RejectedExactly(cfg, l, c, rs);
    CreateCourse(cfg, l, c, rs);
  }

  lemma FoundStarts(cfg: Config, l: Local, c: Call, r: Reply)
    requires l.session.Some? && Sound(l.session.value.token) && r.Done?
    ensures StepStart(cfg, l, Begin(c), r.clock).1.pc == FoundPc(cfg, l, [r])
  {
    hide JudgedFresh, Expired;
  }

  lemma FoundRefreshes(cfg: Config, l0: Local, c: Call, rs: seq<Reply>, l: Local, b: Body, r: Reply)
    requires l0.session.Some? && Sound(l0.session.value.token) && rs != [] && rs[0].Done?
    requires b.pc == FoundPc(cfg, l0, rs) && Working(cfg, l, b) && Follows(cfg, l0.session, c, l, b)
    requires Possible(cfg, l, b, r) && !r.Failed? && (r.Granted? ==> Sound(r.token))
    requires |rs| > 8 && rs[8].Granted? ==> Sound(rs[8].token)
    requires b.pc.RefreshService? || b.pc.RefreshOpen? || b.pc.RefreshSave?
    ensures StepRefresh(cfg, l, b, r).1.pc == FoundPc(cfg, l0, rs + [r])
  {
    hide RefreshDelay, JudgedFresh, Expired, Usable, TimerFits, Working, Follows;
    assert (rs + [r])[0] == rs[0];
    assert |rs| > 1 ==> (rs + [r])[1] == rs[1];
    assert |rs| > 8 ==> (rs + [r])[8] == rs[8];
  }

  lemma FoundStep(cfg: Config, l0: Local, c: Call, rs: seq<Reply>, l: Local, b: Body, r: Reply)
    requires l0.session.Some? && Sound(l0.session.value.token) && rs != [] && rs[0].Done?
    requires b.pc == FoundPc(cfg, l0, rs) && Working(cfg, l, b) && Follows(cfg, l0.session, c, l, b)
    requires Possible(cfg, l, b, r) && !r.Failed? && (r.Granted? ==> Sound(r.token))
    requires |rs| > 8 && rs[8].Granted? ==> Sound(rs[8].token)
    ensures Step(cfg, l, b, r).1.pc == FoundPc(cfg, l0, rs + [r])
  {
    hide RefreshDelay, JudgedFresh, Expired, Usable, TimerFits;
    assert (rs + [r])[0] == rs[0];
    assert |rs| > 1 ==> (rs + [r])[1] == rs[1];
    assert |rs| > 8 ==> (rs + [r])[8] == rs[8];
    if b.pc.RefreshService? || b.pc.RefreshOpen? || b.pc.RefreshSave? {
      FoundRefreshes(cfg, l0, c, rs, l, b, r);
    }
    hide StepRefresh;
  }

  // Nor is one that finds a session.
  lemma {:induction false} FoundCourse(cfg: Config, l: Local, c: Call, rs: seq<Reply>)
    requires Rest(cfg, l) && l.session.Some? && Runs(cfg, l, Begin(c), rs) && AllWell(cfg, l, rs) && rs != []
    ensures l.session.value.token.Jwt? && rs[0].Done?
    ensures Run(cfg, l, Begin(c), rs).1.pc == FoundPc(cfg, l, rs)
    decreases |rs|
  {
    hide FoundPc, Step, Working, Follows;
    var n := |rs| - 1;
    var (l1, b1) := Run(cfg, l, Begin(c), rs[..n]);
    ReplyPossible(cfg, l, Begin(c), rs, 0);
    assert rs[..0] == [];
    assert Run(cfg, l, Begin(c), rs[..0]) == (l, Begin(c));
    assert Sound(l.session.value.token);
    if n == 0 {
      FoundStarts(cfg, l, c, rs[0]);
      assert rs == [rs[0]];
      StartIsStep(cfg, l, c, rs[0]);
    } else {
      FoundCourse(cfg, l, c, rs[..n]);
      RunKeepsWorking(cfg, l, c, rs[..n]);
      RunFollows(cfg, l, c, rs[..n]);
      FoundStep(cfg, l, c, rs[..n], l1, b1, rs[n]);
      assert rs[..n] + [rs[n]] == rs;
    }
  }

  lemma StartIsStep(cfg: Config, l: Local, c: Call, r: Reply)
    requires r.Done?
    ensures Step(cfg, l, Begin(c), r) == StepStart(cfg, l, Begin(c), r.clock)
  {
  }

  // What a call returns for which nothing fails: the token of a usable session; for an expired one, and for
  // none, a token of the service, or the stored one; for any other the refreshed one.
  function TokenFor(cfg: Config, l: Local, rs: seq<Reply>): Token
    requires rs != [] && rs[0].Done? && (l.session.Some? ==> l.session.value.token.Jwt?)
  {
    if l.session.None? then
      if UsesStored(cfg, l, rs) then l.stored.value else TokenAt(rs, 3)
    else
      var s := l.session.value;
      if Usable(cfg, l, s, rs[0].clock) then s.token
      else if Expired(s.token.exp, rs[0].clock.third) then TokenAt(rs, 8)
      else TokenAt(rs, 1)
  }

  // A call for which nothing fails returns that token.
  lemma GoodCallReturns(cfg: Config, l: Local, c: Call, rs: seq<Reply>)
    requires Rest(cfg, l) && Runs(cfg, l, Begin(c), rs) && AllWell(cfg, l, rs)
    requires Run(cfg, l, Begin(c), rs).1.pc.Finished?
    ensures rs != [] && rs[0].Done? && (l.session.Some? ==> l.session.value.token.Jwt?)
    ensures Run(cfg, l, Begin(c), rs).1.pc == Finished(Returned(TokenFor(cfg, l, rs)))
  {
    hide Step, Usable, UsesStored, Expired;
    assert rs != [];
    ReplyPossible(cfg, l, Begin(c), rs, 0);
    assert rs[..0] == [];
    assert Run(cfg, l, Begin(c), rs[..0]) == (l, Begin(c));
    if l.session.None? {
      WellCreatedReturns(cfg, l, c, rs);
    } else {
      FoundCourse(cfg, l, c, rs);
    }
  }

  // ---------- the token granted last ----------

  function LastGranted(rs: seq<Reply>): Option<Token> {
    if rs == [] then None
    else if rs[|rs| - 1].Granted? then Some(rs[|rs| - 1].token)
    else LastGranted(rs[..|rs| - 1])
  }

  ghost predicate CarriesLast(found: Option<Session>, l: Local, b: Body, granted: Option<Token>) {
    match b.pc
    case Start => granted.None?
    case RefreshService(_) => granted.None?
    case RefreshOpen(t) => granted == Some(t) && found.Some?
    case RefreshSave(t) => granted == Some(t) && found.Some?
    case CreateClient(t) => granted.Some? ==> granted == Some(t)
    case CreateSave(t) => granted.Some? ==> granted == Some(t)
    case Finished(Returned(t)) => granted.Some? ==> granted == Some(t)
    case Finished(Rejected) => true
    case _ => granted.Some? ==> found.Some?
  }

  lemma StepCarriesLast(cfg: Config, found: Option<Session>, c: Call, l: Local, b: Body, r: Reply,
                        granted: Option<Token>)
    requires CarriesLast(found, l, b, granted) && Follows(cfg, found, c, l, b) && Possible(cfg, l, b, r)
    ensures var (l', b') := Step(cfg, l, b, r);
            CarriesLast(found, l', b', if r.Granted? then Some(r.token) else granted)
  {
    hide RefreshDelay, JudgedFresh, Expired;
  }

  // Whatever failed on the way, a call to which the service granted tokens returns the last of them.
  lemma {:induction false} LastGrantedIsCarried(cfg: Config, l: Local, c: Call, rs: seq<Reply>)
    requires Runs(cfg, l, Begin(c), rs)
    ensures var (l', b') := Run(cfg, l, Begin(c), rs); CarriesLast(l.session, l', b', LastGranted(rs))
    decreases |rs|
  {
    hide CarriesLast, Step, Follows;
    if rs == [] {
      NothingGranted(l, c);
    } else {
      var n := |rs| - 1;
      var (l1, b1) := Run(cfg, l, Begin(c), rs[..n]);
      LastGrantedIsCarried(cfg, l, c, rs[..n]);
      RunFollows(cfg, l, c, rs[..n]);
      StepCarriesLast(cfg, l.session, c, l1, b1, rs[n], LastGranted(rs[..n]));
    }
  }

  lemma NothingGranted(l: Local, c: Call)
    ensures CarriesLast(l.session, l, Begin(c), None)
  {
  }

  lemma ReturnsLastGranted(cfg: Config, l: Local, c: Call, rs: seq<Reply>, t: Token)
    requires Runs(cfg, l, Begin(c), rs) && Run(cfg, l, Begin(c), rs).1.pc == Finished(Returned(t))
    requires LastGranted(rs).Some?
    ensures LastGranted(rs) == Some(t)
  {
    LastGrantedIsCarried(cfg, l, c, rs);
  }

  // ---------- the timer of a session that is made ----------

  // The step at which a session gets its token.
  predicate MakesSession(b: Body, r: Reply, t: Token) {
    Sound(t) && ((b.pc == CreateClient(t) && r.Done?) || (b.pc.RefreshService? && r.Granted? && r.token == t))
  }

  // The session has a timer exactly when refreshing is on and the token has more than the threshold left,
  // and that timer is armed for the moment the threshold is reached, whole seconds counted.
  lemma NewSessionIsScheduled(cfg: Config, l: Local, b: Body, r: Reply, t: Token)
    requires Possible(cfg, l, b, r) && MakesSession(b, r, t)
    ensures var l' := Step(cfg, l, b, r).0;
            var ms := r.clock.first;
            && l'.session.Some? && l'.session.value.token == t
            && (l'.session.value.timer.Some? <==> cfg.minutes > 0 && ms < 1000 * (t.exp - 60 * cfg.minutes))
            && (l'.session.value.timer.Some? ==>
                  var k := l'.session.value.timer.value;
                  && k in l'.armed
                  && l'.armed[k] == Timer(b.pass, ms, 1000 * (t.exp - 60 * cfg.minutes) - (ms - ms % 1000)))
  {
    assert r.clock.first == 1000 * Seconds(r.clock.first) + r.clock.first % 1000;
  }
}
