/** Bounded attempts, one holder of the pool mutex, single flight without lost wake-ups. */
module PoolFlight {
  import opened Options
  import opened PoolSections
  import opened PoolMachine

  /** At most goroutine `g` changes place, or appears. */
  predicate OneMoves(s: State, s': State, g: Gid) {
    g in s'.gs && s'.gs == s.gs[g := s'.gs[g]]
  }

  // ---------------------------------------------------------------------------------------
  // Attempts
  // ---------------------------------------------------------------------------------------

  predicate AttemptOk(s: State, x: Go) {
    (x.at.NextAttempt? ==> x.retry && 1 <= x.attempt && (x.attempt == 1 || x.attempt - 1 <= s.maxRetries)) &&
    (x.retry && !x.at.NextAttempt? && !x.at.Finished? ==> 1 <= x.attempt <= s.maxRetries)
  }

  /** Whoever is inside an attempt is within the first `maxRetries` of them. */
  predicate Attempts(s: State) {
    forall g | g in s.gs :: AttemptOk(s, s.gs[g])
  }

  lemma AttemptsGet(s: State, step: GetStep)
    requires Attempts(s) && CanGet(s, step)
    ensures Attempts(DoGet(s, step))
  {
  }

  lemma AttemptsMake(s: State, step: MakeStep)
    requires Attempts(s) && CanMake(s, step)
    ensures Attempts(DoMake(s, step))
  {
  }

  lemma AttemptsUse(s: State, step: UseStep)
    requires Attempts(s) && CanUse(s, step)
    ensures Attempts(DoUse(s, step))
  {
  }

  lemma AttemptsDrop(s: State, step: DropStep)
    requires Attempts(s) && CanDrop(s, step)
    ensures Attempts(DoDrop(s, step))
  {
  }

  // ---------------------------------------------------------------------------------------
  // The pool mutex
  // ---------------------------------------------------------------------------------------

  predicate HoldsPool(pc: Pc) {
    pc.GetLocked? || pc.RemoveLocked? || pc.CallbackLocked? || pc.IdleClosing? || pc.CloseAllLocked?
  }

  /** The goroutine inside a pool section is the one that holds the mutex. */
  predicate Mutex(s: State) {
    (s.mu.Some? ==> s.mu.value in s.gs) &&
    forall g | g in s.gs :: HoldsPool(s.gs[g].at) <==> s.mu == Some(g)
  }

  lemma MutexGet(s: State, step: GetStep)
    requires Mutex(s) && CanGet(s, step)
    ensures Mutex(DoGet(s, step))
  {
  }

  lemma MutexMake(s: State, step: MakeStep)
    requires Mutex(s) && CanMake(s, step)
    ensures Mutex(DoMake(s, step))
  {
  }

  lemma MutexUse(s: State, step: UseStep)
    requires Mutex(s) && CanUse(s, step)
    ensures Mutex(DoUse(s, step))
  {
  }

  lemma MutexDrop(s: State, step: DropStep)
    requires Mutex(s) && CanDrop(s, step)
    ensures Mutex(DoDrop(s, step))
  {
  }

  // ---------------------------------------------------------------------------------------
  // Single flight
  // ---------------------------------------------------------------------------------------

  /** In `doEstablish`, with `ch` to be closed. */
  predicate InFlight(pc: Pc) {
    pc.Establishing? || pc.Returned?
  }

  predicate Registered(s: State, c: Cluster, ch: ChanId) {
    c in s.pool.establishing && s.pool.establishing[c] == ch
  }

  /** An establisher's channel is its own, open and registered; a waiter's is registered or closed already. */
  predicate FlightPc(s: State, g: Gid, x: Go) {
    (InFlight(x.at) ==> x.at.ch in s.chans && s.chans[x.at.ch] == Chan(x.c, g, 0) && Registered(s, x.c, x.at.ch)) &&
    (x.at.Waiting? ==> x.at.ch in s.chans && (s.chans[x.at.ch].closes == 1 || Registered(s, x.c, x.at.ch)))
  }

  predicate Flies(s: State, g: Gid, c: Cluster, ch: ChanId) {
    g in s.gs && InFlight(s.gs[g].at) && s.gs[g].at.ch == ch && s.gs[g].c == c
  }

  /** A channel is closed at most once; an open one is registered and its creator is in flight. */
  predicate ChanOk(s: State, ch: ChanId, x: Chan) {
    x.closes <= 1 && (x.closes == 0 ==> Registered(s, x.cluster, ch) && Flies(s, x.creator, x.cluster, ch))
  }

  /** A registered channel is open, and no cluster both has a tunnel and makes one. */
  predicate RegisteredOk(s: State, c: Cluster, ch: ChanId) {
    ch in s.chans && s.chans[ch].closes == 0 && s.chans[ch].cluster == c && c !in s.pool.tunnels
  }

  predicate Flight(s: State) {
    (forall g | g in s.gs :: FlightPc(s, g, s.gs[g])) &&
    (forall ch | ch in s.chans :: ChanOk(s, ch, s.chans[ch])) &&
    (forall c | c in s.pool.establishing :: RegisteredOk(s, c, s.pool.establishing[c]))
  }

  /** A step that leaves the channels alone and does not move its goroutine out of `doEstablish`. */
  lemma FlightFrame(s: State, s': State, g: Gid)
    requires Flight(s) && OneMoves(s, s', g)
    requires s'.chans == s.chans && s'.pool.establishing == s.pool.establishing
    requires s'.pool.tunnels.Keys <= s.pool.tunnels.Keys
    requires FlightPc(s, g, s'.gs[g])
    requires g in s.gs && InFlight(s.gs[g].at) ==> Flies(s', g, s.gs[g].c, s.gs[g].at.ch)
    ensures Flight(s')
  {
  }

  lemma FlightRegister(s: State, g: Gid, t: TunnelId, ch: ChanId)
    requires Flight(s) && g in s.gs && !InFlight(s.gs[g].at) && ch !in s.chans
    requires s.gs[g].c !in s.pool.tunnels && s.gs[g].c !in s.pool.establishing
    ensures Flight(Register(s, g, t, ch))
  {
  }

  lemma FlightCreate(s: State, g: Gid, t: TunnelId, ch: ChanId)
    requires Flight(s) && CanCreate(s, g, t, ch)
    ensures Flight(DoCreate(s, g, t, ch))
  {
    FlightFrame(s, Cleaned(s, s.gs[g].c), g);
    FlightRegister(Cleaned(s, s.gs[g].c), g, t, ch);
  }

  /** Closing the channel wakes every waiter: each of them finds its channel closed. */
  lemma FlightPublish(s: State, g: Gid)
    requires Flight(s) && CanPublish(s, g)
    ensures Flight(DoPublish(s, g))
  {
  }

  lemma FlightGet(s: State, step: GetStep)
    requires Flight(s) && CanGet(s, step)
    ensures Flight(DoGet(s, step))
  {
    FlightFrame(s, DoGet(s, step), step.g);
  }

  lemma FlightMake(s: State, step: MakeStep)
    requires Flight(s) && CanMake(s, step)
    ensures Flight(DoMake(s, step))
  {
    match step
    case Create(g, t, ch) => FlightCreate(s, g, t, ch);
    case Publish(g) => FlightPublish(s, g);
    case _ => FlightFrame(s, DoMake(s, step), step.g);
  }

  lemma FlightUse(s: State, step: UseStep)
    requires Flight(s) && CanUse(s, step)
    ensures Flight(DoUse(s, step))
  {
    if !step.ForwarderExit? && !step.Monitor? {
      FlightFrame(s, DoUse(s, step), step.g);
    }
  }

  lemma FlightDrop(s: State, step: DropStep)
    requires Flight(s) && CanDrop(s, step)
    ensures Flight(DoDrop(s, step))
  {
    FlightFrame(s, DoDrop(s, step), step.g);
  }
}
