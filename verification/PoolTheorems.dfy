/** What holds in every state of every run of the tunnel pool. */
module PoolTheorems {
  import opened Options
  import opened PoolSections
  import opened PoolMachine
  import opened PoolFlight
  import opened PoolTunnels
  import opened PoolTimers
  import opened PoolConns
  import opened PoolIdle

  ghost predicate Inv(s: State) {
    Attempts(s) && Mutex(s) && Flight(s) && Stops(s) && Makers(s) && Handed(s) && Sections(s) && NoLeak(s) &&
    Timers(s) && Conns(s) && Counted(s) && NoneStranded(s)
  }

  lemma InvGet(s: State, step: GetStep)
    requires Inv(s) && CanGet(s, step)
    ensures Inv(DoGet(s, step))
  {
    AttemptsGet(s, step); MutexGet(s, step); FlightGet(s, step); StopsGet(s, step); MakersGet(s, step);
    HandedGet(s, step); SectionsGet(s, step); NoLeakGet(s, step); TimersGet(s, step); ConnsGet(s, step);
    CountedGet(s, step); NoneStrandedGet(s, step);
  }

  lemma InvMake(s: State, step: MakeStep)
    requires Inv(s) && CanMake(s, step)
    ensures Inv(DoMake(s, step))
  {
    AttemptsMake(s, step); MutexMake(s, step); FlightMake(s, step); StopsMake(s, step); MakersMake(s, step);
    HandedMake(s, step); SectionsMake(s, step); NoLeakMake(s, step); TimersMake(s, step); ConnsMake(s, step);
    CountedMake(s, step); NoneStrandedMake(s, step);
  }

  lemma InvUse(s: State, step: UseStep)
    requires Inv(s) && CanUse(s, step)
    ensures Inv(DoUse(s, step))
  {
    AttemptsUse(s, step); MutexUse(s, step); FlightUse(s, step); StopsUse(s, step); MakersUse(s, step);
    HandedUse(s, step); SectionsUse(s, step); NoLeakUse(s, step); TimersUse(s, step); ConnsUse(s, step);
    CountedUse(s, step); NoneStrandedUse(s, step);
  }

  lemma InvDrop(s: State, step: DropStep)
    requires Inv(s) && CanDrop(s, step)
    ensures Inv(DoDrop(s, step))
  {
    AttemptsDrop(s, step); MutexDrop(s, step); FlightDrop(s, step); StopsDrop(s, step); MakersDrop(s, step);
    HandedDrop(s, step); SectionsDrop(s, step); NoLeakDrop(s, step); TimersDrop(s, step); ConnsDrop(s, step);
    CountedDrop(s, step); NoneStrandedDrop(s, step);
  }

  lemma InvStep(s: State, step: Step)
    requires Inv(s) && Enabled(s, step)
    ensures Inv(Apply(s, step))
  {
    match step
    case Get(x) => InvGet(s, x);
    case Make(x) => InvMake(s, x);
    case Use(x) => InvUse(s, x);
    case Drop(x) => InvDrop(s, x);
  }

  /** The invariant holds after every run. */
  lemma {:induction false} Reachable(s: State, steps: seq<Step>)
    requires Init(s) && Runnable(s, steps)
    ensures Inv(Run(s, steps))
  {
    if steps == [] {
    } else {
      Reachable(s, steps[..|steps| - 1]);
      InvStep(Run(s, steps[..|steps| - 1]), steps[|steps| - 1]);
    }
  }

  // ---------------------------------------------------------------------------------------
  // Idle tunnels
  // ---------------------------------------------------------------------------------------

  /** The idle timer of `c` will fire, or its callback is already on its way. */
  predicate TimerPending(s: State, c: Cluster) {
    c in s.pool.idleTimers && s.pool.idleTimers[c] in s.timers && s.timers[s.pool.idleTimers[c]].cluster == c &&
    (s.timers[s.pool.idleTimers[c]].state.Armed? ||
     (s.timers[s.pool.idleTimers[c]].state.Fired? &&
      RunsCallback(s, s.timers[s.pool.idleTimers[c]].state.runner, c, s.pool.idleTimers[c])))
  }

  /** An open stored tunnel without connections has a pending timer or a goroutine that will see to it. */
  lemma NoIdleTunnelStranded(s: State, steps: seq<Step>, c: Cluster)
    requires Init(s) && Runnable(s, steps) && Idle(Run(s, steps), c)
    ensures var r := Run(s, steps); var t := r.pool.tunnels[c];
      TimerPending(r, c) ||
      (exists g :: g in r.gs && Attends(r.gs[g], c, t)) ||
      (exists g :: r.mu == Some(g) && g in r.gs && Dooms(r.gs[g], c, t))
  {
    var r := Run(s, steps);
    Reachable(s, steps);
    if c !in r.pool.idleTimers {
      var g :| TendsAt(r, g, c, r.pool.tunnels[c]);
      assert Attends(r.gs[g], c, r.pool.tunnels[c]) || Dooms(r.gs[g], c, r.pool.tunnels[c]);
    }
  }

  predicate TimerArmed(s: State, c: Cluster) {
    c in s.pool.idleTimers && s.pool.idleTimers[c] in s.timers && s.timers[s.pool.idleTimers[c]] == Timer(c, Armed)
  }

  predicate Quiet(s: State) {
    forall g | g in s.gs :: s.gs[g].at.Finished?
  }

  /**
  Once every goroutine has come to its end: nothing is locked, nobody establishes, every channel
  was closed once, every connection was released, and every open stored tunnel waits on an armed timer.
  */
  lemma QuietPool(s: State, steps: seq<Step>)
    requires Init(s) && Runnable(s, steps) && Quiet(Run(s, steps))
    ensures var r := Run(s, steps);
      r.mu == None && r.pool.establishing == map[] &&
      (forall ch | ch in r.chans :: r.chans[ch].closes == 1) &&
      (forall k | k in r.conns :: r.conns[k].released) &&
      (forall t | t in r.tun :: r.tun[t].activeConns == 0 && r.tun[t].lock == None) &&
      (forall c | c in r.pool.tunnels ::
        r.pool.tunnels[c] in r.tun && (r.tun[r.pool.tunnels[c]].closed || TimerArmed(r, c)))
  {
    var r := Run(s, steps);
    Reachable(s, steps);
    forall t | t in r.tun ensures r.tun[t].activeConns == 0 {
      assert Live(r, t) == {};
    }
    forall c | c in r.pool.tunnels && !r.tun[r.pool.tunnels[c]].closed ensures TimerArmed(r, c) {
      assert Idle(r, c);
      assert forall g :: !TendsAt(r, g, c, r.pool.tunnels[c]);
      assert EntryOk(r, c, r.pool.idleTimers[c]);
    }
  }

  // ---------------------------------------------------------------------------------------
  // Single flight
  // ---------------------------------------------------------------------------------------

  /** Two goroutines that establish for one cluster are one goroutine. */
  lemma OneEstablisherPerCluster(s: State, steps: seq<Step>, g: Gid, h: Gid)
    requires Init(s) && Runnable(s, steps)
    requires var r := Run(s, steps);
      g in r.gs && h in r.gs && InFlight(r.gs[g].at) && InFlight(r.gs[h].at) && r.gs[g].c == r.gs[h].c
    ensures g == h
  {
    Reachable(s, steps);
    var r := Run(s, steps);
    assert FlightPc(r, g, r.gs[g]) && FlightPc(r, h, r.gs[h]);
  }

  /** Whoever waits can go on now, or the goroutine that will close its channel is at work on its cluster. */
  lemma NoLostWakeUp(s: State, steps: seq<Step>, g: Gid)
    requires Init(s) && Runnable(s, steps)
    requires g in Run(s, steps).gs && Run(s, steps).gs[g].at.Waiting?
    ensures var r := Run(s, steps); var ch := r.gs[g].at.ch;
      ch in r.chans &&
      (r.chans[ch].closes == 1 ||
       (r.chans[ch].closes == 0 && Flies(r, r.chans[ch].creator, r.gs[g].c, ch)))
  {
    Reachable(s, steps);
    var r := Run(s, steps);
    assert FlightPc(r, g, r.gs[g]);
    assert ChanOk(r, r.gs[g].at.ch, r.chans[r.gs[g].at.ch]);
  }

  /** `ch` is kept, or its creator closes it for the first time. */
  predicate MayClose(s: State, s': State, step: Step, ch: ChanId)
    requires ch in s.chans
  {
    ch in s'.chans && s'.chans[ch].closes <= 1 && s'.chans[ch].creator == s.chans[ch].creator &&
    (s'.chans[ch] != s.chans[ch] ==> step == Make(Publish(s.chans[ch].creator)))
  }

  lemma ChansGet(s: State, step: GetStep)
    requires CanGet(s, step)
    ensures DoGet(s, step).chans == s.chans
  {
  }

  lemma ChansDrop(s: State, step: DropStep)
    requires CanDrop(s, step)
    ensures DoDrop(s, step).chans == s.chans
  {
  }

  lemma ChansUse(s: State, step: UseStep)
    requires CanUse(s, step)
    ensures DoUse(s, step).chans == s.chans
  {
  }

  lemma ChansMake(s: State, step: MakeStep, ch: ChanId)
    requires Flight(s) && CanMake(s, step) && ch in s.chans
    ensures MayClose(s, DoMake(s, step), Make(step), ch)
  {
  }

  lemma ClosesOnce(s: State, step: Step, ch: ChanId)
    requires Flight(s) && Enabled(s, step) && ch in s.chans
    ensures MayClose(s, Apply(s, step), step, ch)
  {
    assert ChanOk(s, ch, s.chans[ch]);
    match step
    case Get(x) => ChansGet(s, x);
    case Make(x) => ChansMake(s, x, ch);
    case Use(x) => ChansUse(s, x);
    case Drop(x) => ChansDrop(s, x);
  }

  /** A channel is closed at most once, and only by the publication of its creator. */
  lemma OnlyCreatorCloses(s: State, steps: seq<Step>, step: Step, ch: ChanId)
    requires Init(s) && Runnable(s, steps) && Enabled(Run(s, steps), step) && ch in Run(s, steps).chans
    ensures MayClose(Run(s, steps), Apply(Run(s, steps), step), step, ch)
  {
    Reachable(s, steps);
    ClosesOnce(Run(s, steps), step, ch);
  }

  // ---------------------------------------------------------------------------------------
  // Forwarders
  // ---------------------------------------------------------------------------------------

  /** A forwarder that runs with an open stop channel is reachable; `closed` means stopped exactly once. */
  lemma NoForwarderLeaked(s: State, steps: seq<Step>, t: TunnelId)
    requires Init(s) && Runnable(s, steps) && t in Run(s, steps).tun
    ensures var r := Run(s, steps); var x := r.tun[t];
      (x.closed <==> x.stopCloses == 1) && (!x.closed <==> x.stopCloses == 0) &&
      (x.forwarder == Forwards && x.stopCloses == 0 ==>
        StoredUnder(r, x.cluster, t) || Makes(r, x.establisher, t))
  {
    Reachable(s, steps);
  }

  /** Storing a new tunnel never replaces one. */
  lemma PublishReplacesNone(s: State, steps: seq<Step>, g: Gid)
    requires Init(s) && Runnable(s, steps) && CanPublish(Run(s, steps), g)
    ensures Run(s, steps).gs[g].c !in Run(s, steps).pool.tunnels
  {
    Reachable(s, steps);
    NoLeakPublish(Run(s, steps), g);
  }

  /** A tunnel can be found through the map only after its `Establish` returned without error. */
  lemma StoredTunnelsAreEstablished(s: State, steps: seq<Step>, c: Cluster)
    requires Init(s) && Runnable(s, steps) && c in Run(s, steps).pool.tunnels
    ensures var r := Run(s, steps); var t := r.pool.tunnels[c];
      t in r.tun && r.tun[t].cluster == c && r.tun[t].ready && r.tun[t].lock == None &&
      !Makes(r, r.tun[t].establisher, t)
  {
    Reachable(s, steps);
    var r := Run(s, steps);
    assert StoredOk(r, c, r.pool.tunnels[c]);
    var g := r.tun[r.pool.tunnels[c]].establisher;
    assert g in r.gs ==> FlightPc(r, g, r.gs[g]) && MakerPc(r, g, r.gs[g]);
  }

  // ---------------------------------------------------------------------------------------
  // References
  // ---------------------------------------------------------------------------------------

  /** The counter is the number of connections acquired and not yet released, so never negative. */
  lemma CounterIsExact(s: State, steps: seq<Step>, t: TunnelId)
    requires Init(s) && Runnable(s, steps) && t in Run(s, steps).tun
    ensures Run(s, steps).tun[t].activeConns == |Live(Run(s, steps), t)| >= 0
  {
    Reachable(s, steps);
  }

  predicate AtOnIdle(s: State, g: Gid) {
    g in s.gs && s.gs[g].at.OnIdle?
  }

  /** `g` gives back the last reference to `t` and goes on to `onIdle` with its cluster. */
  predicate LastRelease(s: State, s': State, step: Step, g: Gid, t: TunnelId) {
    step == Use(Release(g)) && CanRelease(s, g) && s.conns[s.gs[g].at.k].tunnel == t &&
    s.tun[t].activeConns == 1 && t in s'.tun && s'.tun[t].activeConns == 0 &&
    AtOnIdle(s', g) && s'.gs[g].at == OnIdle(s.gs[g].at.k, s.tun[t].cluster)
  }

  /** A counter drops to zero, or a goroutine comes to `onIdle`, only where a last reference is given back. */
  predicate IdleAtZero(s: State, s': State, step: Step, g: Gid, t: TunnelId) {
    (t in s.tun && t in s'.tun && s.tun[t].activeConns > 0 && s'.tun[t].activeConns == 0 ==>
      step.Use? && step.use.Release? && LastRelease(s, s', step, step.use.g, t)) &&
    (AtOnIdle(s', g) && !AtOnIdle(s, g) ==>
      CanRelease(s, g) && LastRelease(s, s', step, g, s.conns[s.gs[g].at.k].tunnel))
  }

  lemma ZeroGet(s: State, step: GetStep, g: Gid, t: TunnelId)
    requires CanGet(s, step)
    ensures IdleAtZero(s, DoGet(s, step), Get(step), g, t)
  {
  }

  lemma ZeroMake(s: State, step: MakeStep, g: Gid, t: TunnelId)
    requires CanMake(s, step)
    ensures IdleAtZero(s, DoMake(s, step), Make(step), g, t)
  {
  }

  lemma ZeroUse(s: State, step: UseStep, g: Gid, t: TunnelId)
    requires CanUse(s, step)
    ensures IdleAtZero(s, DoUse(s, step), Use(step), g, t)
  {
  }

  lemma ZeroDrop(s: State, step: DropStep, g: Gid, t: TunnelId)
    requires CanDrop(s, step)
    ensures IdleAtZero(s, DoDrop(s, step), Drop(step), g, t)
  {
  }

  /** `onIdle` runs exactly at each drop of a counter to zero. */
  lemma OnIdleExactlyAtZero(s: State, step: Step, g: Gid, t: TunnelId)
    requires Enabled(s, step)
    ensures IdleAtZero(s, Apply(s, step), step, g, t)
  {
    match step
    case Get(x) => ZeroGet(s, x, g, t);
    case Make(x) => ZeroMake(s, x, g, t);
    case Use(x) => ZeroUse(s, x, g, t);
    case Drop(x) => ZeroDrop(s, x, g, t);
  }

  /** A request holds at most the connection of its current attempt, one of the first `maxRetries`, and ends with none. */
  lemma RequestsLeaveNothing(s: State, steps: seq<Step>, g: Gid, k: ConnId)
    requires Init(s) && Runnable(s, steps)
    requires var r := Run(s, steps); g in r.gs && k in r.conns && r.conns[k].owner == g && !r.conns[k].released
    ensures var r := Run(s, steps);
      HasConn(r.gs[g].at) && r.gs[g].at.k == k && (r.gs[g].retry ==> 1 <= r.gs[g].attempt <= r.maxRetries)
  {
    Reachable(s, steps);
    var r := Run(s, steps);
    assert ConnOk(r, k, r.conns[k]);
    assert AttemptOk(r, r.gs[g]);
  }
}
