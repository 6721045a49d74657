/**
What each step does to the three maps of the pool and to the timers, exactly: which entries it makes, which
it forgets, and which timers it stops.
*/
module PoolEntries {
  import opened Options
  import opened PoolSections
  import opened PoolMachine
  import opened PoolFlight
  import opened PoolTunnels
  import opened PoolTimers
  import opened PoolTheorems
  import opened PoolProgress

  // ---------------------------------------------------------------------------------------
  // Tunnels
  // ---------------------------------------------------------------------------------------

  predicate Stores(s: State, step: Step, c: Cluster, t: TunnelId) {
    step.Make? && step.make.Publish? && step.make.g in s.gs &&
    var x := s.gs[step.make.g]; x.at.Returned? && x.at.ok && x.c == c && x.at.t == t
  }

  /** The name is cleaned up, removed, closed for idleness, or everything is. */
  predicate Unstores(s: State, step: Step, c: Cluster) {
    match step
    case Get(x) => x.Wait? && x.g in s.gs && s.gs[x.g].c == c
    case Make(x) => x.Create? && x.g in s.gs && s.gs[x.g].c == c
    case Use(_) => false
    case Drop(x) => x.CloseAllEnd? || ((x.Remove? || x.IdleClose?) && x.g in s.gs && s.gs[x.g].c == c)
  }

  predicate TunnelEntry(s: State, s': State, step: Step, c: Cluster, t: TunnelId) {
    StoredUnder(s', c, t) <==> Stores(s, step, c, t) || (StoredUnder(s, c, t) && !Unstores(s, step, c))
  }

  lemma TunnelEntryGet(s: State, step: GetStep, c: Cluster, t: TunnelId)
    requires CanGet(s, step)
    ensures TunnelEntry(s, DoGet(s, step), Get(step), c, t)
  {
  }

  lemma TunnelEntryMake(s: State, step: MakeStep, c: Cluster, t: TunnelId)
    requires Flight(s) && Makers(s) && CanMake(s, step)
    ensures TunnelEntry(s, DoMake(s, step), Make(step), c, t)
  {
    assert FlightPc(s, step.g, s.gs[step.g]);
  }

  lemma TunnelEntryUse(s: State, step: UseStep, c: Cluster, t: TunnelId)
    requires CanUse(s, step)
    ensures TunnelEntry(s, DoUse(s, step), Use(step), c, t)
  {
  }

  lemma TunnelEntryDrop(s: State, step: DropStep, c: Cluster, t: TunnelId)
    requires CanDrop(s, step)
    ensures TunnelEntry(s, DoDrop(s, step), Drop(step), c, t)
  {
  }

  /** A name stores a tunnel after a step exactly when the step published it, or it was stored and not dropped. */
  lemma TunnelEntriesExactly(s: State, steps: seq<Step>, step: Step, c: Cluster, t: TunnelId)
    requires Init(s) && Runnable(s, steps) && Enabled(Run(s, steps), step)
    ensures TunnelEntry(Run(s, steps), Apply(Run(s, steps), step), step, c, t)
  {
    Reachable(s, steps);
    var r := Run(s, steps);
    match step
    case Get(x) => TunnelEntryGet(r, x, c, t);
    case Make(x) => TunnelEntryMake(r, x, c, t);
    case Use(x) => TunnelEntryUse(r, x, c, t);
    case Drop(x) => TunnelEntryDrop(r, x, c, t);
  }

  // ---------------------------------------------------------------------------------------
  // Registrations
  // ---------------------------------------------------------------------------------------

  predicate Registers(s: State, step: Step, c: Cluster, ch: ChanId) {
    step.Make? && step.make.Create? && step.make.g in s.gs && s.gs[step.make.g].c == c && step.make.ch == ch
  }

  predicate Unregisters(s: State, step: Step, c: Cluster) {
    step.Make? && step.make.Publish? && step.make.g in s.gs && s.gs[step.make.g].c == c
  }

  predicate Registration(s: State, s': State, step: Step, c: Cluster, ch: ChanId) {
    Registered(s', c, ch) <==> Registers(s, step, c, ch) || (Registered(s, c, ch) && !Unregisters(s, step, c))
  }

  lemma RegistrationMake(s: State, step: MakeStep, c: Cluster, ch: ChanId)
    requires CanMake(s, step)
    ensures Registration(s, DoMake(s, step), Make(step), c, ch)
  {
  }

  lemma RegistrationDrop(s: State, step: DropStep)
    requires CanDrop(s, step)
    ensures DoDrop(s, step).pool.establishing == s.pool.establishing
  {
  }

  /** A name has a registered establishment exactly from the creation to the publication. */
  lemma RegistrationsExactly(s: State, step: Step, c: Cluster, ch: ChanId)
    requires Enabled(s, step)
    ensures Registration(s, Apply(s, step), step, c, ch)
  {
    match step
    case Get(x) => assert DoGet(s, x).pool.establishing == s.pool.establishing;
    case Make(x) => RegistrationMake(s, x, c, ch);
    case Use(x) => assert DoUse(s, x).pool.establishing == s.pool.establishing;
    case Drop(x) => RegistrationDrop(s, x);
  }

  // ---------------------------------------------------------------------------------------
  // Idle timers
  // ---------------------------------------------------------------------------------------

  predicate HasTimer(s: State, c: Cluster, tm: TimerId) {
    c in s.pool.idleTimers && s.pool.idleTimers[c] == tm
  }

  predicate Arms(s: State, step: Step, c: Cluster, tm: TimerId) {
    step.Use? && step.use.Schedule? && step.use.tm == tm &&
    step.use.g in s.gs && s.gs[step.use.g].at.OnIdle? && s.gs[step.use.g].at.idle == c
  }

  /** The timer entry of the name is dropped, or replaced. */
  predicate Forgets(s: State, step: Step, c: Cluster) {
    match step
    case Get(x) => x.g in s.gs && s.gs[x.g].c == c && (x.Reuse? || (x.Wait? && c in s.pool.tunnels))
    case Make(x) => x.Create? && x.g in s.gs && s.gs[x.g].c == c && c in s.pool.tunnels
    case Use(x) => x.Schedule? && x.g in s.gs && s.gs[x.g].at.OnIdle? && s.gs[x.g].at.idle == c
    case Drop(x) => x.CloseAllBegin? || ((x.Remove? || x.Callback?) && x.g in s.gs && s.gs[x.g].c == c)
  }

  predicate TimerEntry(s: State, s': State, step: Step, c: Cluster, tm: TimerId) {
    HasTimer(s', c, tm) <==> Arms(s, step, c, tm) || (HasTimer(s, c, tm) && !Forgets(s, step, c))
  }

  predicate IsArmed(s: State, tm: TimerId) {
    tm in s.timers && s.timers[tm].state == Armed
  }

  /** Whoever drops a timer entry stops the timer, except a callback, which only drops it. */
  predicate StopsTimer(s: State, step: Step, tm: TimerId) {
    tm in s.timers && HasTimer(s, s.timers[tm].cluster, tm) && Forgets(s, step, s.timers[tm].cluster) &&
    !(step.Drop? && step.drop.Callback?)
  }

  predicate FiresTimer(step: Step, tm: TimerId) {
    step.Use? && step.use.Fire? && step.use.tm == tm
  }

  predicate TimerState(s: State, s': State, step: Step, tm: TimerId) {
    (tm in s.timers ==> tm in s'.timers) &&
    (IsArmed(s', tm) <==>
      (step.Use? && step.use.Schedule? && step.use.tm == tm) ||
      (IsArmed(s, tm) && !FiresTimer(step, tm) && !StopsTimer(s, step, tm)))
  }

  lemma TimerEntryGet(s: State, step: GetStep, c: Cluster, tm: TimerId)
    requires CanGet(s, step)
    ensures TimerEntry(s, DoGet(s, step), Get(step), c, tm)
  {
  }

  lemma TimerEntryMake(s: State, step: MakeStep, c: Cluster, tm: TimerId)
    requires CanMake(s, step)
    ensures TimerEntry(s, DoMake(s, step), Make(step), c, tm)
  {
  }

  lemma TimerEntryUse(s: State, step: UseStep, c: Cluster, tm: TimerId)
    requires CanUse(s, step)
    ensures TimerEntry(s, DoUse(s, step), Use(step), c, tm)
  {
  }

  lemma TimerEntryDrop(s: State, step: DropStep, c: Cluster, tm: TimerId)
    requires CanDrop(s, step)
    ensures TimerEntry(s, DoDrop(s, step), Drop(step), c, tm)
  {
  }

  /** A name has a timer entry after a step exactly when the step armed it, or it was there and not forgotten. */
  lemma TimerEntriesExactly(s: State, step: Step, c: Cluster, tm: TimerId)
    requires Enabled(s, step)
    ensures TimerEntry(s, Apply(s, step), step, c, tm)
  {
    match step
    case Get(x) => TimerEntryGet(s, x, c, tm);
    case Make(x) => TimerEntryMake(s, x, c, tm);
    case Use(x) => TimerEntryUse(s, x, c, tm);
    case Drop(x) => TimerEntryDrop(s, x, c, tm);
  }

  lemma TimerStateGet(s: State, step: GetStep, tm: TimerId)
    requires Timers(s) && CanGet(s, step)
    ensures TimerState(s, DoGet(s, step), Get(step), tm)
  {
  }

  lemma TimerStateMake(s: State, step: MakeStep, tm: TimerId)
    requires Timers(s) && CanMake(s, step)
    ensures TimerState(s, DoMake(s, step), Make(step), tm)
  {
  }

  lemma TimerStateUse(s: State, step: UseStep, tm: TimerId)
    requires Timers(s) && CanUse(s, step)
    ensures TimerState(s, DoUse(s, step), Use(step), tm)
  {
  }

  lemma TimerStateDrop(s: State, step: DropStep, tm: TimerId)
    requires Timers(s) && CanDrop(s, step)
    ensures TimerState(s, DoDrop(s, step), Drop(step), tm)
  {
  }

  lemma TimerStateStep(s: State, step: Step, tm: TimerId)
    requires Timers(s) && Enabled(s, step)
    ensures TimerState(s, Apply(s, step), step, tm)
  {
    match step
    case Get(x) => TimerStateGet(s, x, tm);
    case Make(x) => TimerStateMake(s, x, tm);
    case Use(x) => TimerStateUse(s, x, tm);
    case Drop(x) => TimerStateDrop(s, x, tm);
  }

  /** A timer is armed after a step exactly when the step made it, or it was and the step neither fired nor stopped it. */
  lemma TimerStatesExactly(s: State, steps: seq<Step>, step: Step, tm: TimerId)
    requires Init(s) && Runnable(s, steps) && Enabled(Run(s, steps), step)
    ensures TimerState(Run(s, steps), Apply(Run(s, steps), step), step, tm)
  {
    Reachable(s, steps);
    TimerStateStep(Run(s, steps), step, tm);
  }

  /** So an entry that leaves the map leaves no armed timer behind, unless a callback dropped it. */
  lemma ForgottenTimersAreStopped(s: State, steps: seq<Step>, step: Step, c: Cluster, tm: TimerId)
    requires Init(s) && Runnable(s, steps) && Enabled(Run(s, steps), step)
    requires HasTimer(Run(s, steps), c, tm) && !HasTimer(Apply(Run(s, steps), step), c, tm)
    ensures !(step.Drop? && step.drop.Callback?) ==> !IsArmed(Apply(Run(s, steps), step), tm)
  {
    var r := Run(s, steps);
    Reachable(s, steps);
    assert EntryOk(r, c, tm);
    TimerEntriesExactly(r, step, c, tm);
    TimerStateStep(r, step, tm);
  }

  predicate DisarmedAt(s: State, steps: seq<Step>, n: nat, tm: TimerId) {
    n <= |steps| && Runnable(s, steps[..n]) && tm in Run(s, steps[..n]).timers && !IsArmed(Run(s, steps[..n]), tm)
  }

  lemma StaysDisarmed(s: State, step: Step, tm: TimerId)
    requires Timers(s) && Enabled(s, step) && tm in s.timers && !IsArmed(s, tm)
    ensures tm in Apply(s, step).timers && !IsArmed(Apply(s, step), tm) && !FiresTimer(step, tm)
  {
    TimerStateStep(s, step, tm);
  }

  lemma StaysDisarmedAfter(s: State, steps: seq<Step>, step: Step, tm: TimerId)
    requires Init(s) && Runnable(s, steps) && Enabled(Run(s, steps), step)
    requires tm in Run(s, steps).timers && !IsArmed(Run(s, steps), tm)
    ensures var r' := Apply(Run(s, steps), step); tm in r'.timers && !IsArmed(r', tm) && !FiresTimer(step, tm)
  {
    Reachable(s, steps);
    StaysDisarmed(Run(s, steps), step, tm);
  }

  lemma {:induction false} DisarmedStays(s: State, steps: seq<Step>, n: nat, tm: TimerId)
    requires Init(s) && Runnable(s, steps) && DisarmedAt(s, steps, n, tm)
    ensures tm in Run(s, steps).timers && !IsArmed(Run(s, steps), tm)
  {
    if n == |steps| {
      assert steps[..n] == steps;
    } else {
      var before := steps[..|steps| - 1];
      assert before[..n] == steps[..n];
      DisarmedStays(s, before, n, tm);
      StaysDisarmedAfter(s, before, steps[|steps| - 1], tm);
    }
  }

  /** And a timer that is not armed any more never fires. */
  lemma {:induction false} StoppedTimersNeverFire(s: State, steps: seq<Step>, n: nat, i: nat, tm: TimerId)
    requires Init(s) && Runnable(s, steps) && DisarmedAt(s, steps, n, tm) && n <= i < |steps|
    ensures !FiresTimer(steps[i], tm)
  {
    var before := steps[..|steps| - 1];
    assert before[..n] == steps[..n];
    if i == |steps| - 1 {
      DisarmedStays(s, before, n, tm);
      StaysDisarmedAfter(s, before, steps[i], tm);
    } else {
      StoppedTimersNeverFire(s, before, n, i, tm);
    }
  }

  // ---------------------------------------------------------------------------------------
  // What the mutexes guard
  // ---------------------------------------------------------------------------------------

  /** The step takes place with the pool mutex free or in the hands of the goroutine that moves. */
  predicate UnderPoolMutex(s: State, step: Step) {
    s.mu == None || s.mu == Mover(step)
  }

  /** The same of a tunnel's mutex. */
  predicate UnderTunnelMutex(s: State, step: Step, t: TunnelId) {
    t in s.tun && (s.tun[t].lock == None || s.tun[t].lock == Mover(step))
  }

  predicate Guarded(s: State, s': State, step: Step, t: TunnelId) {
    (s'.pool != s.pool ==> UnderPoolMutex(s, step)) &&
    (t in s.tun && t in s'.tun && (s'.tun[t].closed != s.tun[t].closed || s'.tun[t].port != s.tun[t].port) ==>
      UnderTunnelMutex(s, step, t))
  }

  lemma GuardedGet(s: State, step: GetStep, t: TunnelId)
    requires Mutex(s) && CanGet(s, step)
    ensures Guarded(s, DoGet(s, step), Get(step), t)
  {
  }

  lemma GuardedMake(s: State, step: MakeStep, t: TunnelId)
    requires Mutex(s) && Makers(s) && CanMake(s, step)
    ensures Guarded(s, DoMake(s, step), Make(step), t)
  {
    assert MakerPc(s, step.g, s.gs[step.g]);
  }

  lemma GuardedUse(s: State, step: UseStep, t: TunnelId)
    requires Mutex(s) && CanUse(s, step)
    ensures Guarded(s, DoUse(s, step), Use(step), t)
  {
  }

  lemma GuardedDrop(s: State, step: DropStep, t: TunnelId)
    requires Mutex(s) && CanDrop(s, step)
    ensures Guarded(s, DoDrop(s, step), Drop(step), t)
  {
  }

  /** The maps change only under the pool mutex, and a tunnel's state only under its own. */
  lemma ChangesAreGuarded(s: State, steps: seq<Step>, step: Step, t: TunnelId)
    requires Init(s) && Runnable(s, steps) && Enabled(Run(s, steps), step)
    ensures Guarded(Run(s, steps), Apply(Run(s, steps), step), step, t)
  {
    Reachable(s, steps);
    var r := Run(s, steps);
    match step
    case Get(x) => GuardedGet(r, x, t);
    case Make(x) => GuardedMake(r, x, t);
    case Use(x) => GuardedUse(r, x, t);
    case Drop(x) => GuardedDrop(r, x, t);
  }

  // ---------------------------------------------------------------------------------------
  // Forwarders that die
  // ---------------------------------------------------------------------------------------

  /** Whatever came out of `Establish` successfully has a monitor and a forwarder that was started. */
  predicate Watched(s: State) {
    forall t | t in s.tun && s.tun[t].ready :: s.tun[t].monitored && s.tun[t].forwarder != NotStarted
  }

  lemma WatchedGet(s: State, step: GetStep)
    requires Watched(s) && CanGet(s, step)
    ensures Watched(DoGet(s, step))
  {
  }

  lemma WatchedMake(s: State, step: MakeStep)
    requires Watched(s) && Makers(s) && CanMake(s, step)
    ensures Watched(DoMake(s, step))
  {
    assert MakerPc(s, step.g, s.gs[step.g]);
  }

  lemma WatchedUse(s: State, step: UseStep)
    requires Watched(s) && CanUse(s, step)
    ensures Watched(DoUse(s, step))
  {
  }

  lemma WatchedDrop(s: State, step: DropStep)
    requires Watched(s) && CanDrop(s, step)
    ensures Watched(DoDrop(s, step))
  {
  }

  lemma WatchedStep(s: State, step: Step)
    requires Watched(s) && Makers(s) && Enabled(s, step)
    ensures Watched(Apply(s, step))
  {
    match step
    case Get(x) => WatchedGet(s, x);
    case Make(x) => WatchedMake(s, x);
    case Use(x) => WatchedUse(s, x);
    case Drop(x) => WatchedDrop(s, x);
  }

  lemma {:induction false} WatchedRun(s: State, steps: seq<Step>)
    requires Init(s) && Runnable(s, steps)
    ensures Watched(Run(s, steps))
  {
    if steps == [] {
    } else {
      var before := steps[..|steps| - 1];
      WatchedRun(s, before);
      Reachable(s, before);
      WatchedStep(Run(s, before), steps[|steps| - 1]);
    }
  }

  /** The death of an established tunnel's forwarder can always be noticed, and then closes the tunnel. */
  lemma DeathIsNoticed(s: State, steps: seq<Step>, t: TunnelId)
    requires Init(s) && Runnable(s, steps) && t in Run(s, steps).tun && Run(s, steps).tun[t].ready
    ensures var r := Run(s, steps);
      (r.tun[t].forwarder == Exited <==> CanMonitor(r, t)) && (CanMonitor(r, t) ==> DoMonitor(r, t).tun[t].closed)
  {
    WatchedRun(s, steps);
    Reachable(s, steps);
    assert LockOk(Run(s, steps), t, Run(s, steps).tun[t]);
  }
}
