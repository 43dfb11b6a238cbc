// What a call does to the storage of its handle, await by await, and what failures lead to.
module SessionStorage {
  import opened Options
  import opened TokenClock
  import opened SessionBody

  // Stopping the sync and the flush cannot fail, and storage calls only if there is a storage; opening it only
  // when it is not in the cache. Tokens come from the service, which answers in no other way.
  lemma PossibleReplies(cfg: Config, l: Local, b: Body, t: Token, clock: Clock)
    ensures Possible(cfg, l, b, Failed) <==>
            || b.pc.RefreshService? || b.pc.CreateService? || b.pc.CreateClient?
            || (cfg.hasStorage &&
                (b.pc.DeleteToken? || b.pc.DeleteClose? || b.pc.RefreshSave? || b.pc.CreateRead? || b.pc.CreateSave?))
            || (cfg.hasStorage && !l.storeOpen && (b.pc.DeleteOpen? || b.pc.RefreshOpen? || b.pc.CreateOpen?))
    ensures Possible(cfg, l, b, Granted(t, clock)) <==> b.pc.RefreshService? || b.pc.CreateService?
    ensures Possible(cfg, l, b, Done(clock)) <==> !b.pc.RefreshService? && !b.pc.CreateService? && !b.pc.Finished?
  {
  }

  // Opening puts the storage into the cache and closing takes it out; a token is stored at the end of a
  // refresh and of a creation, and deleted by a deletion. Failed storage calls change neither and are
  // remembered.
  lemma StorageStep(cfg: Config, l: Local, b: Body, r: Reply)
    requires Possible(cfg, l, b, r)
    ensures var l' := Step(cfg, l, b, r).0;
            && (l'.storeOpen <==>
                 if r.Done? && (b.pc.DeleteOpen? || b.pc.RefreshOpen? || b.pc.CreateOpen?) then cfg.hasStorage
                 else !(r.Done? && b.pc.DeleteClose?) && l.storeOpen)
            && (l'.storageFault <==> l.storageFault || FailsStorage(b, r))
    ensures var l' := Step(cfg, l, b, r).0;
            match b.pc
            case DeleteToken => l'.stored == if r.Done? then None else l.stored
            case RefreshSave(t) => l'.stored == if r.Done? && cfg.hasStorage then Some(t) else l.stored
            case CreateSave(t) => l'.stored == if r.Done? && cfg.hasStorage then Some(t) else l.stored
            case _ => l'.stored == l.stored
  {
    hide RefreshDelay, JudgedFresh, Expired;
  }

  // A storage call fails.
  predicate FailsStorage(b: Body, r: Reply) {
    r.Failed? && !b.pc.RefreshService? && !b.pc.CreateService? && !b.pc.CreateClient?
  }

  ghost predicate FailsStorageAt(cfg: Config, l: Local, c: Call, rs: seq<Reply>, k: nat)
    requires Runs(cfg, l, Begin(c), rs) && k < |rs|
  {
    RunsPrefix(cfg, l, Begin(c), rs, k);
    FailsStorage(Run(cfg, l, Begin(c), rs[..k]).1, rs[k])
  }

  // A fault is remembered after a run exactly when there was one before or a storage call failed.
  lemma {:induction false} FaultExactly(cfg: Config, l: Local, c: Call, rs: seq<Reply>)
    requires Runs(cfg, l, Begin(c), rs)
    ensures Run(cfg, l, Begin(c), rs).0.storageFault <==>
            l.storageFault || exists k: nat :: k < |rs| && FailsStorageAt(cfg, l, c, rs, k)
    decreases |rs|
  {
    hide Step, Possible, FailsStorage;
    if rs != [] {
      var n := |rs| - 1;
      var (l1, b1) := Run(cfg, l, Begin(c), rs[..n]);
      FaultExactly(cfg, l, c, rs[..n]);
      StorageStep(cfg, l1, b1, rs[n]);
      forall k: nat | k < n
        ensures FailsStorageAt(cfg, l, c, rs, k) <==> FailsStorageAt(cfg, l, c, rs[..n], k)
      {
        assert rs[..n][..k] == rs[..k];
      }
      assert FailsStorageAt(cfg, l, c, rs, n) <==> FailsStorage(b1, rs[n]);
    }
  }

  // Without a storage provider nothing is stored, opened or at fault.
  lemma {:induction false} WithoutStorage(cfg: Config, l: Local, c: Call, rs: seq<Reply>)
    requires !cfg.hasStorage && l.stored.None? && !l.storeOpen && !l.storageFault
    requires Runs(cfg, l, Begin(c), rs)
    ensures var l' := Run(cfg, l, Begin(c), rs).0; l'.stored.None? && !l'.storeOpen && !l'.storageFault
    decreases |rs|
  {
    hide Step;
    if rs != [] {
      var (l1, b1) := Run(cfg, l, Begin(c), rs[..|rs| - 1]);
      WithoutStorage(cfg, l, c, rs[..|rs| - 1]);
      StorageStep(cfg, l1, b1, rs[|rs| - 1]);
    }
  }

  // A refresh that fails, wherever it does, or is granted a token that cannot be decoded, turns to the
  // deletion of its session, whose timer is disarmed first.
  lemma RefreshFailureDeletes(cfg: Config, l: Local, b: Body, r: Reply)
    requires Working(cfg, l, b) && Possible(cfg, l, b, r)
    requires b.pc.RefreshService? || b.pc.RefreshOpen? || b.pc.RefreshSave?
    ensures var (l', b') := Step(cfg, l, b, r);
            (r.Failed? || (r.Granted? && !(r.token.Jwt? && r.token.exp != 0 && r.token.device != "")) <==>
              b'.pc == DeleteStopSync)
            && (b'.pc == DeleteStopSync ==> l'.session == l.session && l'.armed == map[])
  {
    hide RefreshDelay, TimerFits;
  }
}
