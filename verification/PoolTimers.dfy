/** Idle timers: an entry of the map has a callback still to come, even where stale callbacks run. */
module PoolTimers {
  import opened PoolSections
  import opened PoolMachine
  import opened PoolFlight

  predicate Callback(pc: Pc) {
    pc.CallbackWant? || pc.CallbackLocked?
  }

  predicate RunsCallback(s: State, g: Gid, c: Cluster, tm: TimerId) {
    g in s.gs && Callback(s.gs[g].at) && s.gs[g].c == c && s.gs[g].at.tm == tm
  }

  predicate TimerPc(s: State, g: Gid, x: Go) {
    Callback(x.at) ==> x.at.tm in s.timers && s.timers[x.at.tm] == Timer(x.c, Fired(g))
  }

  predicate EntryOk(s: State, c: Cluster, tm: TimerId) {
    tm in s.timers && s.timers[tm].cluster == c && (s.timers[tm].state.Armed? || s.timers[tm].state.Fired?)
  }

  /** Timers are keyed by cluster name: an entry need not have been made for the tunnel now stored. */
  predicate Timers(s: State) {
    (forall g | g in s.gs :: TimerPc(s, g, s.gs[g])) &&
    (forall tm | tm in s.timers && s.timers[tm].state.Fired? ::
      RunsCallback(s, s.timers[tm].state.runner, s.timers[tm].cluster, tm)) &&
    (forall c | c in s.pool.idleTimers :: EntryOk(s, c, s.pool.idleTimers[c]))
  }

  predicate Cancelled(s: State, s': State, c: Cluster) {
    s'.timers == CancelTimer(s, c) && s'.pool.idleTimers == s.pool.idleTimers - {c}
  }

  lemma TimersFrame(s: State, s': State, g: Gid, c: Cluster)
    requires Timers(s) && OneMoves(s, s', g)
    requires (s'.timers == s.timers && s'.pool.idleTimers == s.pool.idleTimers) || Cancelled(s, s', c)
    requires Callback(s'.gs[g].at) ==> RunsCallback(s, g, s'.gs[g].c, s'.gs[g].at.tm)
    requires g in s.gs && Callback(s.gs[g].at) ==> RunsCallback(s', g, s.gs[g].c, s.gs[g].at.tm)
    ensures Timers(s')
  {
  }

  lemma TimersGet(s: State, step: GetStep)
    requires Timers(s) && CanGet(s, step)
    ensures Timers(DoGet(s, step))
  {
    TimersFrame(s, DoGet(s, step), step.g, DoGet(s, step).gs[step.g].c);
  }

  lemma TimersMake(s: State, step: MakeStep)
    requires Timers(s) && CanMake(s, step)
    ensures Timers(DoMake(s, step))
  {
    TimersFrame(s, DoMake(s, step), step.g, s.gs[step.g].c);
  }

  lemma TimersSchedule(s: State, g: Gid, tm: TimerId)
    requires Timers(s) && CanSchedule(s, g, tm)
    ensures Timers(DoSchedule(s, g, tm))
  {
  }

  lemma TimersFire(s: State, tm: TimerId, g: Gid)
    requires Timers(s) && CanFire(s, tm, g)
    ensures Timers(DoFire(s, tm, g))
  {
  }

  lemma TimersUse(s: State, step: UseStep)
    requires Timers(s) && CanUse(s, step)
    ensures Timers(DoUse(s, step))
  {
    match step
    case Schedule(g, tm) => TimersSchedule(s, g, tm);
    case Fire(tm, g) => TimersFire(s, tm, g);
    case ForwarderExit(t) =>
    case Monitor(t) =>
    case _ => TimersFrame(s, DoUse(s, step), step.g, "");
  }

  lemma TimersDrop(s: State, step: DropStep)
    requires Timers(s) && CanDrop(s, step)
    ensures Timers(DoDrop(s, step))
  {
    match step
    case Callback(g) =>
    case CloseAllBegin(g) =>
    case _ => TimersFrame(s, DoDrop(s, step), step.g, s.gs[step.g].c);
  }
}
