/**
Nobody is stuck: in every reachable state each unfinished goroutine can take a step of its own, or waits
along a chain of goroutines that ends in one that can.
*/
module PoolProgress {
  import opened Options
  import opened PoolSections
  import opened PoolMachine
  import opened PoolFlight
  import opened PoolTunnels
  import opened PoolTimers
  import opened PoolConns
  import opened PoolTheorems
  import opened PoolLocks

  predicate Unfinished(s: State, g: Gid) {
    g in s.gs && !s.gs[g].at.Finished?
  }

  /** The goroutine that a step moves on; timers and forwarders move by themselves. */
  function Mover(step: Step): Option<Gid> {
    match step
    case Get(x) => Some(x.g)
    case Make(x) => Some(x.g)
    case Use(x) => if x.Fire? || x.ForwarderExit? || x.Monitor? then None else Some(x.g)
    case Drop(x) => Some(x.g)
  }

  /** A waiter that gives up because its context ended. */
  predicate Cancels(s: State, step: Step) {
    step.Get? && step.get.Local? && step.get.g in s.gs && s.gs[step.get.g].at.Waiting? && step.get.to == RemoveWant
  }

  predicate Advances(s: State, g: Gid, step: Step) {
    g in s.gs && Mover(step) == Some(g) && Enabled(s, step) && !Cancels(s, step)
  }

  /** `g` can go on, without the help of a cancelled context. */
  ghost predicate CanStep(s: State, g: Gid) {
    exists step :: Advances(s, g, step)
  }

  /** `g` waits for something that another unfinished goroutine holds. */
  ghost predicate Blocked(s: State, g: Gid) {
    exists h, r :: WaitsFor(s, g, h, r) && Unfinished(s, h)
  }

  lemma FreshId(used: set<nat>) returns (n: nat)
    ensures n !in used && forall m | m in used :: m < n
  {
    if used == {} {
      n := 0;
    } else {
      var x :| x in used;
      var k := FreshId(used - {x});
      n := if x < k then k else x + 1;
      assert forall m | m in used :: m == x || m in used - {x};
    }
  }

  // ---------------------------------------------------------------------------------------
  // Each place in turn
  // ---------------------------------------------------------------------------------------

  predicate WantsPool(pc: Pc) {
    pc.GetWant? || pc.RemoveWant? || pc.CallbackWant? || pc.CloseAllWant? || pc.Returned? || pc.OnIdle?
  }

  /** With the pool mutex free, whoever is at it gets it. */
  lemma TakesPool(s: State, g: Gid)
    requires Flight(s) && Conns(s) && g in s.gs && WantsPool(s.gs[g].at) && s.mu == None
    ensures CanStep(s, g)
  {
    var tm := FreshId(s.timers.Keys);
    assert FlightPc(s, g, s.gs[g]) && ConnPc(s, g, s.gs[g]);
    var pc := s.gs[g].at;
    if pc.Returned? {
      assert Advances(s, g, Make(Publish(g)));
    } else if pc.OnIdle? {
      assert Advances(s, g, Use(Schedule(g, tm)));
    } else if pc.CloseAllWant? {
      assert Advances(s, g, Drop(CloseAllBegin(g)));
    } else {
      assert Advances(s, g, Get(PoolLock(g)));
    }
  }

  lemma WaitsForPool(s: State, g: Gid)
    requires Mutex(s) && g in s.gs && WantsPool(s.gs[g].at) && s.mu.Some?
    ensures Blocked(s, g)
  {
    assert WaitsFor(s, g, s.mu.value, PoolMu) && Unfinished(s, s.mu.value);
  }

  /** A tunnel that has come out of `Establish` is not locked. */
  lemma ReadyIsFree(s: State, t: TunnelId)
    requires Makers(s) && t in s.tun && s.tun[t].ready
    ensures TunnelFree(s, t)
  {
    assert LockOk(s, t, s.tun[t]);
  }

  lemma StoredIsFree(s: State, c: Cluster)
    requires Makers(s)
    ensures StoredFree(s, c)
  {
    if c in s.pool.tunnels {
      assert StoredOk(s, c, s.pool.tunnels[c]);
      ReadyIsFree(s, s.pool.tunnels[c]);
    }
  }

  lemma PoolHolderSteps(s: State, g: Gid)
    requires Makers(s) && Timers(s) && g in s.gs && HoldsPool(s.gs[g].at)
    ensures CanStep(s, g)
  {
    StoredIsFree(s, s.gs[g].c);
    assert TimerPc(s, g, s.gs[g]);
    match s.gs[g].at
    case GetLocked =>
      var t := FreshId(s.tun.Keys);
      var ch := FreshId(s.chans.Keys);
      assert Advances(s, g, Get(Reuse(g))) || Advances(s, g, Get(Wait(g))) || Advances(s, g, Make(Create(g, t, ch)));
    case RemoveLocked => assert Advances(s, g, Drop(Remove(g)));
    case CallbackLocked(_) => assert Advances(s, g, Drop(Callback(g)));
    case IdleClosing(_) => assert Advances(s, g, Drop(IdleClose(g)));
    case CloseAllLocked(todo) =>
      if todo == {} {
        assert Advances(s, g, Drop(CloseAllEnd(g)));
      } else {
        var c :| c in todo;
        StoredIsFree(s, c);
        assert Advances(s, g, Drop(CloseAllOne(g, c)));
      }
  }

  lemma EstablisherSteps(s: State, g: Gid)
    requires Makers(s) && g in s.gs && s.gs[g].at.Establishing?
    ensures CanStep(s, g)
  {
    assert MakerPc(s, g, s.gs[g]);
    match s.gs[g].at.phase
    case Entering => assert Advances(s, g, Make(EstablishLock(g)));
    case Locked => assert Advances(s, g, Make(EstablishForward(g)));
    case Forwarding => assert Advances(s, g, Make(EstablishReturn(g, Ready(1))));
  }

  lemma WaiterSteps(s: State, g: Gid)
    requires Flight(s) && g in s.gs && s.gs[g].at.Waiting?
    ensures CanStep(s, g) || Blocked(s, g)
  {
    var ch := s.gs[g].at.ch;
    assert FlightPc(s, g, s.gs[g]) && ChanOk(s, ch, s.chans[ch]);
    if s.chans[ch].closes == 1 {
      assert Advances(s, g, Get(Local(g, GetWant)));
    } else {
      assert WaitsFor(s, g, s.chans[ch].creator, Notify(ch)) && Unfinished(s, s.chans[ch].creator);
    }
  }

  predicate Dials(pc: Pc) {
    pc.NextAttempt? || pc.Holding? || pc.Dialing? || pc.Handshake? || pc.Piping? || pc.Releasing?
  }

  lemma DialerSteps(s: State, g: Gid)
    requires Makers(s) && Handed(s) && Conns(s) && g in s.gs && Dials(s.gs[g].at)
    ensures CanStep(s, g)
  {
    assert ConnPc(s, g, s.gs[g]);
    match s.gs[g].at
    case NextAttempt =>
      assert Advances(s, g, Get(Local(g, if s.gs[g].attempt <= s.maxRetries then GetWant else Finished)));
    case Holding(t) =>
      ReadyIsFree(s, t);
      assert Advances(s, g, Get(Local(g, if s.tun[t].closed || s.tun[t].port == 0 then RemoveWant else Dialing(t))));
    case Dialing(t) =>
      var k := FreshId(s.conns.Keys);
      assert Advances(s, g, Use(DialOk(g, k)));
    case Handshake(k) => assert Advances(s, g, Get(Local(g, Piping(k))));
    case Piping(_) => assert Advances(s, g, Get(HangUp(g)));
    case Releasing(k) =>
      assert ConnOk(s, k, s.conns[k]);
      assert Advances(s, g, Use(Release(g)));
  }

  lemma CloserSteps(s: State, g: Gid)
    requires Conns(s) && g in s.gs && s.gs[g].at.Closing?
    ensures CanStep(s, g) || Blocked(s, g)
  {
    var k := s.gs[g].at.k;
    assert ConnPc(s, g, s.gs[g]) && ConnOk(s, k, s.conns[k]);
    match s.conns[k].once
    case Unused => assert Advances(s, g, Use(CloseEnter(g)));
    case Done => assert Advances(s, g, Get(Local(g, AfterClose(s.gs[g]))));
    case Running(h) => assert WaitsFor(s, g, h, ReleaseOnce(k)) && Unfinished(s, h);
  }

  lemma StepsOrWaits(s: State, g: Gid)
    requires Inv(s) && Unfinished(s, g)
    ensures CanStep(s, g) || Blocked(s, g)
  {
    var pc := s.gs[g].at;
    if WantsPool(pc) {
      if s.mu == None {
        TakesPool(s, g);
      } else {
        WaitsForPool(s, g);
      }
    } else if HoldsPool(pc) {
      PoolHolderSteps(s, g);
    } else if pc.Establishing? {
      EstablisherSteps(s, g);
    } else if pc.Waiting? {
      WaiterSteps(s, g);
    } else if pc.Closing? {
      CloserSteps(s, g);
    } else {
      DialerSteps(s, g);
    }
  }

  // ---------------------------------------------------------------------------------------
  // Chains
  // ---------------------------------------------------------------------------------------

  /** Every unfinished goroutine can step or is blocked. */
  ghost predicate Lively(s: State) {
    forall g | Unfinished(s, g) :: CanStep(s, g) || Blocked(s, g)
  }

  lemma LongerChain(s: State, g: Gid, h: Gid, r: Resource, chain: seq<Gid>, rs: seq<Resource>)
    requires WaitsFor(s, g, h, r) && WaitChain(s, chain, rs) && chain[0] == h
    ensures WaitChain(s, [g] + chain, [r] + rs) && ([g] + chain)[|rs| + 1] == chain[|rs|]
  {
  }

  /** Following what each one waits for, the ranks grow, so the chain comes to an end. */
  lemma {:induction false} FollowChain(s: State, g: Gid, lo: nat) returns (chain: seq<Gid>, rs: seq<Resource>)
    requires Lively(s) && Ordered(s) && Unfinished(s, g) && lo <= 4
    requires forall r | Wants(s, g, r) :: lo <= Rank(r)
    ensures WaitChain(s, chain, rs) && chain[0] == g && CanStep(s, chain[|rs|])
    decreases 4 - lo
  {
    if CanStep(s, g) {
      chain, rs := [g], [];
    } else {
      var h, r :| WaitsFor(s, g, h, r) && Unfinished(s, h);
      var chain', rs' := FollowChain(s, h, Rank(r) + 1);
      LongerChain(s, g, h, r, chain', rs');
      chain, rs := [g] + chain', [r] + rs';
    }
  }

  /** From every unfinished goroutine of every reachable state a wait chain, of four links at most, leads to one that can step. */
  lemma NobodyIsStuck(s: State, steps: seq<Step>, g: Gid) returns (chain: seq<Gid>, rs: seq<Resource>)
    requires Init(s) && Runnable(s, steps) && Unfinished(Run(s, steps), g)
    ensures WaitChain(Run(s, steps), chain, rs) && chain[0] == g && |rs| <= 4
    ensures CanStep(Run(s, steps), chain[|rs|])
  {
    var x := Run(s, steps);
    Reachable(s, steps);
    OrderedWhenInv(x);
    LivelyWhenInv(x);
    chain, rs := FollowChain(x, g, 0);
    NoCycle(x, chain, rs);
  }

  lemma LivelyWhenInv(s: State)
    requires Inv(s)
    ensures Lively(s)
  {
    forall g | Unfinished(s, g) ensures CanStep(s, g) || Blocked(s, g) {
      StepsOrWaits(s, g);
    }
  }

  lemma QuietWhenStill(x: State)
    requires Inv(x) && forall g :: !CanStep(x, g)
    ensures Quiet(x)
  {
    OrderedWhenInv(x);
    LivelyWhenInv(x);
    forall g | g in x.gs ensures x.gs[g].at.Finished? {
      if Unfinished(x, g) {
        var chain, rs := FollowChain(x, g, 0);
      }
    }
  }

  /** So a pool in which nobody can step is one in which everybody has come to an end. */
  lemma StillIsQuiet(s: State, steps: seq<Step>)
    requires Init(s) && Runnable(s, steps) && forall g :: !CanStep(Run(s, steps), g)
    ensures Quiet(Run(s, steps))
  {
    Reachable(s, steps);
    QuietWhenStill(Run(s, steps));
  }
}
