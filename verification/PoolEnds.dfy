/**
Without new arrivals every schedule comes to an end, fair or not: each step spends some of a potential that
the state at the beginning fixes.
*/
module PoolEnds {
  import opened PoolSections
  import opened PoolMachine
  import opened PoolFlight
  import opened PoolTunnels
  import opened PoolTheorems
  import opened PoolProgress
  import opened Sums

  /** Not an arrival, and not a monitor that finds its tunnel closed and does nothing. */
  predicate Spends(s: State, step: Step) {
    !(step.Get? && step.get.Spawn?) &&
    (step.Use? && step.use.Monitor? && step.use.t in s.tun ==> !s.tun[step.use.t].closed)
  }

  // ---------------------------------------------------------------------------------------
  // The potential
  // ---------------------------------------------------------------------------------------

  predicate Woken(s: State, ch: ChanId) {
    ch in s.chans && s.chans[ch].closes > 0
  }

  /**
  How far a place is from the end of its attempt.  Publication wakes waiters, each of which rises by three, so
  it falls by more than three for each of `m` goroutines.  A new timer, tunnel or callback is paid for likewise.
  */
  function Level(s: State, m: nat, pc: Pc): nat {
    match pc
    case NextAttempt => 23 + 3 * m
    case Waiting(ch) => if Woken(s, ch) then 22 + 3 * m else 19 + 3 * m
    case GetWant => 21 + 3 * m
    case GetLocked => 20 + 3 * m
    case Establishing(_, _, phase) => (match phase case Entering => 17 case Locked => 16 case Forwarding => 15) + 3 * m
    case Returned(_, _, _) => 14 + 3 * m
    case Holding(_) => 13
    case Dialing(_) => 12
    case Handshake(_) => 11
    case Piping(_) => 10
    case Closing(_) => 9
    case Releasing(_) => 8
    case OnIdle(_, _) => 7
    case RemoveWant => 2
    case RemoveLocked => 1
    case CallbackWant(_) => 3
    case CallbackLocked(_) => 2
    case IdleClosing(_) => 1
    case CloseAllWant => 2 + |s.pool.tunnels.Keys|
    case CloseAllLocked(todo) => 1 + |todo|
    case Finished => 0
  }

  /** What the attempts that are left, the current one included, are worth. */
  function Attempting(maxRetries: int, m: nat, x: Go): nat {
    if x.retry && x.attempt <= maxRetries then Worth(maxRetries + 1 - x.attempt, 24 + 3 * m) else 0
  }

  function Worth(attempts: nat, each: nat): nat {
    if attempts == 0 then 0 else each + Worth(attempts - 1, each)
  }

  function Weight(s: State, m: nat, x: Go): nat {
    Attempting(s.maxRetries, m, x) + Level(s, m, x.at)
  }

  function TunnelWeight(t: Tunnel): nat {
    (if t.forwarder == Exited then 0 else 1) + if t.closed then 0 else 1
  }

  function TimerWeight(t: Timer): nat {
    if t.state == Armed then 4 else 0
  }

  function GoWeights(s: State, m: nat): map<Gid, nat> {
    map g | g in s.gs :: Weight(s, m, s.gs[g])
  }

  function TunnelWeights(s: State): map<TunnelId, nat> {
    map t | t in s.tun :: TunnelWeight(s.tun[t])
  }

  function TimerWeights(s: State): map<TimerId, nat> {
    map tm | tm in s.timers :: TimerWeight(s.timers[tm])
  }

  ghost function Potential(s: State, m: nat): nat {
    Sum(GoWeights(s, m)) + Sum(TunnelWeights(s)) + Sum(TimerWeights(s))
  }

  /** Whoever is not in `crowd` runs a callback or has ended. */
  predicate Confined(s: State, crowd: set<Gid>) {
    forall g | g in s.gs && g !in crowd ::
      s.gs[g].at.CallbackWant? || s.gs[g].at.CallbackLocked? || s.gs[g].at.IdleClosing? || s.gs[g].at.Finished?
  }

  // ---------------------------------------------------------------------------------------
  // Steps of one goroutine that wake nobody
  // ---------------------------------------------------------------------------------------

  predicate Calm(s: State, s': State) {
    s'.chans == s.chans && s'.maxRetries == s.maxRetries && s'.pool.tunnels.Keys <= s.pool.tunnels.Keys
  }

  predicate TunnelsFall(s: State, s': State) {
    s'.tun.Keys == s.tun.Keys && forall t | t in s.tun :: TunnelWeight(s'.tun[t]) <= TunnelWeight(s.tun[t])
  }

  predicate TimersFall(s: State, s': State) {
    s'.timers.Keys == s.timers.Keys && forall tm | tm in s.timers :: TimerWeight(s'.timers[tm]) <= TimerWeight(s.timers[tm])
  }

  lemma FewerKeys(a: set<Cluster>, b: set<Cluster>)
    requires a <= b
    ensures |a| <= |b|
  {
    if c :| c in a {
      FewerKeys(a - {c}, b - {c});
    }
  }

  lemma TunnelsSum(s: State, s': State)
    requires TunnelsFall(s, s')
    ensures Sum(TunnelWeights(s')) <= Sum(TunnelWeights(s))
  {
    Falls(TunnelWeights(s), TunnelWeights(s'));
  }

  lemma TimersSum(s: State, s': State)
    requires TimersFall(s, s')
    ensures Sum(TimerWeights(s')) <= Sum(TimerWeights(s))
  {
    Falls(TimerWeights(s), TimerWeights(s'));
  }

  /** A goroutine that stands still rises by three at most, and only where `up` admits it. */
  predicate OthersRise(s: State, s': State, m: nat, g: Gid, up: set<Gid>) {
    forall h | h in s.gs && h != g :: Weight(s', m, s.gs[h]) <= Weight(s, m, s.gs[h]) + if h in up then 3 else 0
  }

  lemma GoSum(s: State, s': State, m: nat, g: Gid, up: set<Gid>)
    requires OneMoves(s, s', g) && g in s.gs && OthersRise(s, s', m, g, up)
    ensures Sum(GoWeights(s', m)) + Weight(s, m, s.gs[g]) <= Sum(GoWeights(s, m)) + Weight(s', m, s'.gs[g]) + 3 * |up|
  {
    var w, w' := GoWeights(s, m), GoWeights(s', m);
    TakeOut(w, g);
    TakeOut(w', g);
    Rises(w - {g}, w' - {g}, up);
  }

  /** A goroutine rises only by being woken, or by one more tunnel that it is going to close. */
  lemma StandsStill(s: State, s': State, m: nat, x: Go, woken: nat)
    requires s'.maxRetries == s.maxRetries
    requires x.at.Waiting? ==> woken == 3 || (Woken(s', x.at.ch) ==> Woken(s, x.at.ch))
    requires x.at.CloseAllWant? ==> |s'.pool.tunnels.Keys| <= |s.pool.tunnels.Keys| + woken
    ensures Weight(s', m, x) <= Weight(s, m, x) + woken
  {
  }

  lemma NobodyRises(s: State, s': State, m: nat, g: Gid)
    requires Calm(s, s')
    ensures OthersRise(s, s', m, g, {})
  {
    FewerKeys(s'.pool.tunnels.Keys, s.pool.tunnels.Keys);
  }

  predicate MovesCalmly(s: State, s': State, g: Gid) {
    Calm(s, s') && OneMoves(s, s', g) && g in s.gs && TunnelsFall(s, s') && TimersFall(s, s')
  }

  lemma SpendsCalmly(s: State, s': State, g: Gid, m: nat)
    requires MovesCalmly(s, s', g) && Weight(s', m, s'.gs[g]) < Weight(s, m, s.gs[g])
    ensures Potential(s', m) < Potential(s, m)
  {
    NobodyRises(s, s', m, g);
    GoSum(s, s', m, g, {});
    TunnelsSum(s, s');
    TimersSum(s, s');
  }

  lemma CalmGet(s: State, step: GetStep)
    requires CanGet(s, step) && !step.Spawn?
    ensures MovesCalmly(s, DoGet(s, step), step.g)
  {
  }

  lemma LowerLocal(s: State, g: Gid, to: Pc, m: nat)
    requires CanLocal(s, g, to)
    ensures Weight(Move(s, g, to), m, Move(s, g, to).gs[g]) < Weight(s, m, s.gs[g])
  {
  }

  lemma LowerWait(s: State, g: Gid, m: nat)
    requires Flight(s) && CanWait(s, g)
    ensures Weight(DoWait(s, g), m, DoWait(s, g).gs[g]) < Weight(s, m, s.gs[g])
  {
  }

  lemma LowerGet(s: State, step: GetStep, m: nat)
    requires Flight(s) && CanGet(s, step) && !step.Spawn?
    ensures Weight(DoGet(s, step), m, DoGet(s, step).gs[step.g]) < Weight(s, m, s.gs[step.g])
  {
    match step
    case Local(g, to) => LowerLocal(s, g, to, m);
    case Wait(g) => LowerWait(s, g, m);
    case _ =>
  }

  lemma SpendsGet(s: State, step: GetStep, m: nat)
    requires Flight(s) && CanGet(s, step) && !step.Spawn?
    ensures Potential(DoGet(s, step), m) < Potential(s, m)
  {
    CalmGet(s, step);
    LowerGet(s, step, m);
    SpendsCalmly(s, DoGet(s, step), step.g, m);
  }

  predicate Establishment(step: MakeStep) {
    !step.Create? && !step.Publish?
  }

  lemma CalmEstablish(s: State, step: MakeStep)
    requires Makers(s) && CanMake(s, step) && Establishment(step)
    ensures MovesCalmly(s, DoMake(s, step), step.g)
  {
    assert MakerPc(s, step.g, s.gs[step.g]);
  }

  lemma LowerEstablish(s: State, step: MakeStep, m: nat)
    requires CanMake(s, step) && Establishment(step)
    ensures Weight(DoMake(s, step), m, DoMake(s, step).gs[step.g]) < Weight(s, m, s.gs[step.g])
  {
  }

  lemma SpendsEstablish(s: State, step: MakeStep, m: nat)
    requires Makers(s) && CanMake(s, step) && Establishment(step)
    ensures Potential(DoMake(s, step), m) < Potential(s, m)
  {
    CalmEstablish(s, step);
    LowerEstablish(s, step, m);
    SpendsCalmly(s, DoMake(s, step), step.g, m);
  }

  lemma CalmRemove(s: State, g: Gid)
    requires CanRemove(s, g)
    ensures MovesCalmly(s, DoRemove(s, g), g)
  {
  }

  /** One attempt less is worth more than the climb to the next. */
  lemma LowerRemove(s: State, g: Gid, m: nat)
    requires Attempts(s) && CanRemove(s, g)
    ensures Weight(DoRemove(s, g), m, DoRemove(s, g).gs[g]) < Weight(s, m, s.gs[g])
  {
    assert AttemptOk(s, s.gs[g]);
  }

  lemma CalmDrop(s: State, step: DropStep)
    requires CanDrop(s, step)
    ensures MovesCalmly(s, DoDrop(s, step), step.g)
  {
    if step.Remove? {
      CalmRemove(s, step.g);
    }
  }

  lemma LowerCallback(s: State, g: Gid, m: nat)
    requires CanCallback(s, g)
    ensures Weight(DoCallback(s, g), m, DoCallback(s, g).gs[g]) < Weight(s, m, s.gs[g])
  {
  }

  lemma LowerIdleClose(s: State, g: Gid, m: nat)
    requires CanIdleClose(s, g)
    ensures Weight(DoIdleClose(s, g), m, DoIdleClose(s, g).gs[g]) < Weight(s, m, s.gs[g])
  {
  }

  lemma LowerCloseAllBegin(s: State, g: Gid, m: nat)
    requires CanCloseAllBegin(s, g)
    ensures Weight(DoCloseAllBegin(s, g), m, DoCloseAllBegin(s, g).gs[g]) < Weight(s, m, s.gs[g])
  {
  }

  lemma LowerCloseAllEnd(s: State, g: Gid, m: nat)
    requires CanCloseAllEnd(s, g)
    ensures Weight(DoCloseAllEnd(s, g), m, DoCloseAllEnd(s, g).gs[g]) < Weight(s, m, s.gs[g])
  {
  }

  lemma LowerCloseAllOne(s: State, g: Gid, c: Cluster, m: nat)
    requires CanCloseAllOne(s, g, c)
    ensures Weight(DoCloseAllOne(s, g, c), m, DoCloseAllOne(s, g, c).gs[g]) < Weight(s, m, s.gs[g])
  {
    var todo := s.gs[g].at.todo;
    assert |todo - {c}| == |todo| - 1;
  }

  lemma LowerDrop(s: State, step: DropStep, m: nat)
    requires Attempts(s) && CanDrop(s, step)
    ensures Weight(DoDrop(s, step), m, DoDrop(s, step).gs[step.g]) < Weight(s, m, s.gs[step.g])
  {
    match step
    case Remove(g) => LowerRemove(s, g, m);
    case Callback(g) => LowerCallback(s, g, m);
    case IdleClose(g) => LowerIdleClose(s, g, m);
    case CloseAllBegin(g) => LowerCloseAllBegin(s, g, m);
    case CloseAllOne(g, c) => LowerCloseAllOne(s, g, c, m);
    case CloseAllEnd(g) => LowerCloseAllEnd(s, g, m);
  }

  lemma SpendsDrop(s: State, step: DropStep, m: nat)
    requires Attempts(s) && CanDrop(s, step)
    ensures Potential(DoDrop(s, step), m) < Potential(s, m)
  {
    CalmDrop(s, step);
    LowerDrop(s, step, m);
    SpendsCalmly(s, DoDrop(s, step), step.g, m);
  }

  // ---------------------------------------------------------------------------------------
  // Steps that make something, or wake somebody
  // ---------------------------------------------------------------------------------------

  lemma TunnelAdded(s: State, s': State, t: TunnelId)
    requires t !in s.tun && t in s'.tun && s'.tun == s.tun[t := s'.tun[t]]
    ensures Sum(TunnelWeights(s')) == Sum(TunnelWeights(s)) + TunnelWeight(s'.tun[t])
  {
    TakeOut(TunnelWeights(s'), t);
    assert TunnelWeights(s') - {t} == TunnelWeights(s);
  }

  lemma CreateIsLocal(s: State, g: Gid, t: TunnelId, ch: ChanId)
    requires CanCreate(s, g, t, ch)
    ensures var s' := DoCreate(s, g, t, ch);
      OneMoves(s, s', g) && TimersFall(s, s') && t in s'.tun && s'.tun == s.tun[t := s'.tun[t]] && TunnelWeight(s'.tun[t]) == 2
  {
  }

  /** Nobody waits on a channel that has just been made. */
  lemma CreateRaisesNobody(s: State, g: Gid, t: TunnelId, ch: ChanId, m: nat)
    requires CanCreate(s, g, t, ch)
    ensures OthersRise(s, DoCreate(s, g, t, ch), m, g, {})
  {
    var s' := DoCreate(s, g, t, ch);
    FewerKeys(s'.pool.tunnels.Keys, s.pool.tunnels.Keys);
    forall h | h in s.gs && h != g ensures Weight(s', m, s.gs[h]) <= Weight(s, m, s.gs[h]) {
      StandsStill(s, s', m, s.gs[h], 0);
    }
  }

  lemma LowerCreate(s: State, g: Gid, t: TunnelId, ch: ChanId, m: nat)
    requires CanCreate(s, g, t, ch)
    ensures Weight(DoCreate(s, g, t, ch), m, DoCreate(s, g, t, ch).gs[g]) + 3 == Weight(s, m, s.gs[g])
  {
  }

  /** The new tunnel is worth two. */
  lemma SpendsCreate(s: State, g: Gid, t: TunnelId, ch: ChanId, m: nat)
    requires CanCreate(s, g, t, ch)
    ensures Potential(DoCreate(s, g, t, ch), m) < Potential(s, m)
  {
    var s' := DoCreate(s, g, t, ch);
    CreateIsLocal(s, g, t, ch);
    CreateRaisesNobody(s, g, t, ch, m);
    GoSum(s, s', m, g, {});
    TunnelAdded(s, s', t);
    TimersSum(s, s');
    LowerCreate(s, g, t, ch, m);
  }

  lemma OneKeyMore(a: set<Cluster>, b: set<Cluster>, c: Cluster)
    requires b <= a + {c}
    ensures |b| <= |a| + 1
  {
    FewerKeys(b, a + {c});
  }

  /** Only waiters and those about to close everything rise, by three at most, and they belong to the crowd. */
  lemma PublishRaisesCrowd(s: State, g: Gid, m: nat, crowd: set<Gid>)
    requires CanPublish(s, g) && Confined(s, crowd)
    ensures OthersRise(s, DoPublish(s, g), m, g, crowd)
  {
    var s' := DoPublish(s, g);
    OneKeyMore(s.pool.tunnels.Keys, s'.pool.tunnels.Keys, s.gs[g].c);
    forall h | h in s.gs && h != g ensures Weight(s', m, s.gs[h]) <= Weight(s, m, s.gs[h]) + if h in crowd then 3 else 0 {
      StandsStill(s, s', m, s.gs[h], if h in crowd then 3 else 0);
    }
  }

  lemma LowerPublish(s: State, g: Gid, m: nat)
    requires CanPublish(s, g)
    ensures Weight(DoPublish(s, g), m, DoPublish(s, g).gs[g]) + 3 * m < Weight(s, m, s.gs[g])
  {
  }

  lemma SpendsPublish(s: State, g: Gid, crowd: set<Gid>)
    requires CanPublish(s, g) && Confined(s, crowd)
    ensures Potential(DoPublish(s, g), |crowd|) < Potential(s, |crowd|)
  {
    var s' := DoPublish(s, g);
    PublishRaisesCrowd(s, g, |crowd|, crowd);
    GoSum(s, s', |crowd|, g, crowd);
    TunnelsSum(s, s');
    TimersSum(s, s');
    LowerPublish(s, g, |crowd|);
  }

  lemma SpendsMake(s: State, step: MakeStep, crowd: set<Gid>)
    requires Makers(s) && CanMake(s, step) && Confined(s, crowd)
    ensures Potential(DoMake(s, step), |crowd|) < Potential(s, |crowd|)
  {
    match step
    case Create(g, t, ch) => SpendsCreate(s, g, t, ch, |crowd|);
    case Publish(g) => SpendsPublish(s, g, crowd);
    case _ => SpendsEstablish(s, step, |crowd|);
  }

  /** An armed timer is worth four, and whatever was armed before is worth nothing now. */
  lemma TimersSumSchedule(s: State, g: Gid, tm: TimerId)
    requires CanSchedule(s, g, tm)
    ensures Sum(TimerWeights(DoSchedule(s, g, tm))) <= Sum(TimerWeights(s)) + 4
  {
    var w, w' := TimerWeights(s), TimerWeights(DoSchedule(s, g, tm));
    TakeOut(w', tm);
    Falls(w, w' - {tm});
  }

  lemma CalmSchedule(s: State, g: Gid, tm: TimerId)
    requires CanSchedule(s, g, tm)
    ensures var s' := DoSchedule(s, g, tm); Calm(s, s') && OneMoves(s, s', g) && TunnelsFall(s, s')
  {
  }

  lemma LowerSchedule(s: State, g: Gid, tm: TimerId, m: nat)
    requires CanSchedule(s, g, tm)
    ensures Weight(DoSchedule(s, g, tm), m, DoSchedule(s, g, tm).gs[g]) + 5 <= Weight(s, m, s.gs[g])
  {
  }

  lemma SpendsSchedule(s: State, g: Gid, tm: TimerId, m: nat)
    requires CanSchedule(s, g, tm)
    ensures Potential(DoSchedule(s, g, tm), m) < Potential(s, m)
  {
    var s' := DoSchedule(s, g, tm);
    CalmSchedule(s, g, tm);
    LowerSchedule(s, g, tm, m);
    NobodyRises(s, s', m, g);
    GoSum(s, s', m, g, {});
    TunnelsSum(s, s');
    TimersSumSchedule(s, g, tm);
  }

  lemma CallbackAdded(s: State, tm: TimerId, g: Gid, m: nat)
    requires CanFire(s, tm, g)
    ensures Sum(GoWeights(DoFire(s, tm, g), m)) <= Sum(GoWeights(s, m)) + 3
  {
    var s' := DoFire(s, tm, g);
    var w, w' := GoWeights(s, m), GoWeights(s', m);
    TakeOut(w', g);
    forall h | h in w ensures (w' - {g})[h] <= w[h] {
      StandsStill(s, s', m, s.gs[h], 0);
    }
    Falls(w, w' - {g});
  }

  lemma TimerSpent(s: State, tm: TimerId, g: Gid)
    requires CanFire(s, tm, g)
    ensures Sum(TimerWeights(DoFire(s, tm, g))) + 4 == Sum(TimerWeights(s))
  {
    var w, w' := TimerWeights(s), TimerWeights(DoFire(s, tm, g));
    TakeOut(w, tm);
    TakeOut(w', tm);
    assert w - {tm} == w' - {tm};
  }

  /** The callback that a timer starts is worth less than the timer. */
  lemma SpendsFire(s: State, tm: TimerId, g: Gid, m: nat)
    requires CanFire(s, tm, g)
    ensures Potential(DoFire(s, tm, g), m) < Potential(s, m)
  {
    CallbackAdded(s, tm, g, m);
    TunnelsSum(s, DoFire(s, tm, g));
    TimerSpent(s, tm, g);
  }

  lemma SpendsForwarder(s: State, s': State, t: TunnelId, m: nat)
    requires t in s.tun && s' == s.(tun := s'.tun) && s'.tun.Keys == s.tun.Keys && s'.tun == s.tun[t := s'.tun[t]]
    requires TunnelWeight(s'.tun[t]) < TunnelWeight(s.tun[t])
    ensures Potential(s', m) < Potential(s, m)
  {
    assert GoWeights(s', m) == GoWeights(s, m);
    TakeOut(TunnelWeights(s), t);
    TakeOut(TunnelWeights(s'), t);
    assert TunnelWeights(s') - {t} == TunnelWeights(s) - {t};
  }

  predicate OfConnection(step: UseStep) {
    step.DialOk? || step.CloseEnter? || step.Release?
  }

  lemma CalmConnection(s: State, step: UseStep)
    requires CanUse(s, step) && OfConnection(step)
    ensures MovesCalmly(s, DoUse(s, step), step.g)
  {
  }

  lemma LowerConnection(s: State, step: UseStep, m: nat)
    requires CanUse(s, step) && OfConnection(step)
    ensures Weight(DoUse(s, step), m, DoUse(s, step).gs[step.g]) < Weight(s, m, s.gs[step.g])
  {
  }

  lemma SpendsConnection(s: State, step: UseStep, m: nat)
    requires CanUse(s, step) && OfConnection(step)
    ensures Potential(DoUse(s, step), m) < Potential(s, m)
  {
    CalmConnection(s, step);
    LowerConnection(s, step, m);
    SpendsCalmly(s, DoUse(s, step), step.g, m);
  }

  lemma SpendsUse(s: State, step: UseStep, m: nat)
    requires CanUse(s, step) && Spends(s, Use(step))
    ensures Potential(DoUse(s, step), m) < Potential(s, m)
  {
    match step
    case Schedule(g, tm) => SpendsSchedule(s, g, tm, m);
    case Fire(tm, g) => SpendsFire(s, tm, g, m);
    case ForwarderExit(t) => SpendsForwarder(s, DoForwarderExit(s, t), t, m);
    case Monitor(t) => SpendsForwarder(s, DoMonitor(s, t), t, m);
    case _ => SpendsConnection(s, step, m);
  }

  // ---------------------------------------------------------------------------------------
  // Runs
  // ---------------------------------------------------------------------------------------

  lemma ConfinedGet(s: State, step: GetStep, crowd: set<Gid>)
    requires Confined(s, crowd) && CanGet(s, step) && !step.Spawn?
    ensures Confined(DoGet(s, step), crowd)
  {
  }

  lemma ConfinedMake(s: State, step: MakeStep, crowd: set<Gid>)
    requires Confined(s, crowd) && CanMake(s, step)
    ensures Confined(DoMake(s, step), crowd)
  {
  }

  lemma ConfinedUse(s: State, step: UseStep, crowd: set<Gid>)
    requires Confined(s, crowd) && CanUse(s, step)
    ensures Confined(DoUse(s, step), crowd)
  {
  }

  lemma ConfinedDrop(s: State, step: DropStep, crowd: set<Gid>)
    requires Confined(s, crowd) && CanDrop(s, step)
    ensures Confined(DoDrop(s, step), crowd)
  {
  }

  lemma StaysConfined(s: State, step: Step, crowd: set<Gid>)
    requires Confined(s, crowd) && Enabled(s, step) && Spends(s, step)
    ensures Confined(Apply(s, step), crowd)
  {
    match step
    case Get(x) => ConfinedGet(s, x, crowd);
    case Make(x) => ConfinedMake(s, x, crowd);
    case Use(x) => ConfinedUse(s, x, crowd);
    case Drop(x) => ConfinedDrop(s, x, crowd);
  }

  lemma EveryStepSpends(s: State, step: Step, crowd: set<Gid>)
    requires Inv(s) && Confined(s, crowd) && Enabled(s, step) && Spends(s, step)
    ensures Potential(Apply(s, step), |crowd|) < Potential(s, |crowd|)
  {
    match step
    case Get(x) => SpendsGet(s, x, |crowd|);
    case Make(x) => SpendsMake(s, x, crowd);
    case Use(x) => SpendsUse(s, x, |crowd|);
    case Drop(x) => SpendsDrop(s, x, |crowd|);
  }

  /** The steps can be taken from `s`, and each of them spends. */
  predicate SpendingRun(s: State, steps: seq<Step>) {
    Runnable(s, steps) &&
    forall i | 0 <= i < |steps| && Runnable(s, steps[..i]) :: Spends(Run(s, steps[..i]), steps[i])
  }

  lemma SpendingPrefix(s: State, steps: seq<Step>)
    requires SpendingRun(s, steps) && steps != []
    ensures var before := steps[..|steps| - 1]; var last := steps[|steps| - 1];
      SpendingRun(s, before) && Enabled(Run(s, before), last) && Spends(Run(s, before), last)
  {
    var before := steps[..|steps| - 1];
    forall i | 0 <= i < |before| && Runnable(s, before[..i]) ensures Spends(Run(s, before[..i]), before[i]) {
      assert before[..i] == steps[..i];
    }
  }

  lemma {:induction false} LongerIsLower(s: State, steps: seq<Step>, crowd: set<Gid>)
    requires Inv(s) && Confined(s, crowd) && SpendingRun(s, steps)
    ensures Inv(Run(s, steps)) && Confined(Run(s, steps), crowd)
    ensures |steps| + Potential(Run(s, steps), |crowd|) <= Potential(s, |crowd|)
  {
    if steps == [] {
    } else {
      var before, last := steps[..|steps| - 1], steps[|steps| - 1];
      SpendingPrefix(s, steps);
      LongerIsLower(s, before, crowd);
      InvStep(Run(s, before), last);
      StaysConfined(Run(s, before), last, crowd);
      EveryStepSpends(Run(s, before), last, crowd);
    }
  }

  /** From a reachable state, no run without arrivals is longer than the potential of that state. */
  lemma RunsAreBounded(s: State, steps: seq<Step>, more: seq<Step>)
    requires Init(s) && Runnable(s, steps) && SpendingRun(Run(s, steps), more)
    ensures var r := Run(s, steps); |more| <= Potential(r, |r.gs.Keys|)
  {
    var r := Run(s, steps);
    Reachable(s, steps);
    LongerIsLower(r, more, r.gs.Keys);
  }

  ghost predicate Spent(e: State) {
    forall step | Enabled(e, step) :: !Spends(e, step)
  }

  lemma SpentIsQuiet(e: State)
    requires Inv(e) && Spent(e)
    ensures Quiet(e)
  {
    forall g ensures !CanStep(e, g) {
      if step :| Advances(e, g, step) {
        assert Spends(e, step);
      }
    }
    QuietWhenStill(e);
  }

  lemma SpendingMore(s: State, steps: seq<Step>, step: Step)
    requires SpendingRun(s, steps) && Enabled(Run(s, steps), step) && Spends(Run(s, steps), step)
    ensures SpendingRun(s, steps + [step]) && Run(s, steps + [step]) == Apply(Run(s, steps), step)
  {
    var more := steps + [step];
    assert more[..|steps|] == steps;
    forall i | 0 <= i < |more| && Runnable(s, more[..i]) ensures Spends(Run(s, more[..i]), more[i]) {
      if i < |steps| {
        assert more[..i] == steps[..i];
      }
    }
  }

  /** Taking any step that spends, for as long as there is one, comes to an end, and everybody has ended then. */
  lemma {:induction false} Continues(r: State, steps: seq<Step>) returns (more: seq<Step>)
    requires Inv(r) && SpendingRun(r, steps)
    ensures SpendingRun(r, more) && Quiet(Run(r, more)) && steps <= more
    decreases Potential(r, |r.gs.Keys|) - |steps|
  {
    LongerIsLower(r, steps, r.gs.Keys);
    if step :| Enabled(Run(r, steps), step) && Spends(Run(r, steps), step) {
      SpendingMore(r, steps, step);
      LongerIsLower(r, steps + [step], r.gs.Keys);
      more := Continues(r, steps + [step]);
    } else {
      SpentIsQuiet(Run(r, steps));
      more := steps;
    }
  }

  /** A run without arrivals that cannot be prolonged by one more such step has brought everybody to an end. */
  lemma MaximalRunsEndQuiet(s: State, steps: seq<Step>, more: seq<Step>)
    requires Init(s) && Runnable(s, steps) && SpendingRun(Run(s, steps), more) && Spent(Run(Run(s, steps), more))
    ensures Quiet(Run(Run(s, steps), more))
  {
    var r := Run(s, steps);
    Reachable(s, steps);
    LongerIsLower(r, more, r.gs.Keys);
    SpentIsQuiet(Run(r, more));
  }

  /** And every run without arrivals, however it went so far, can be prolonged to such an end. */
  lemma EveryRunCanEndQuiet(s: State, steps: seq<Step>, more: seq<Step>) returns (all: seq<Step>)
    requires Init(s) && Runnable(s, steps) && SpendingRun(Run(s, steps), more)
    ensures SpendingRun(Run(s, steps), all) && more <= all && Quiet(Run(Run(s, steps), all))
  {
    Reachable(s, steps);
    all := Continues(Run(s, steps), more);
  }
}
