/**
The Talos tunnel pool as a concurrent protocol.

A state holds the three maps of the pool, every tunnel, notify channel, idle timer and
tracked connection ever made, and where every goroutine stands.  A step is one critical
section.  A section that runs under the pool mutex and takes a tunnel mutex inside is cut at
that point, so other goroutines may run in between.  Choices of the network, of the scheduler
and of Go's map order are arguments of the steps.
*/
module PoolMachine {
  import opened Options
  import opened PoolSections

  type Gid = nat
  type ConnId = nat

  datatype Forwarder = NotStarted | Forwards | Exited

  /** `establisher` and `ready` are history: who made the tunnel, and whether `Establish` returned nil. */
  datatype Tunnel = Tunnel(
    cluster: Cluster, establisher: Gid, ready: bool,
    lock: Option<Gid>, closed: bool, stopCloses: nat,
    port: nat, activeConns: int, forwarder: Forwarder, monitored: bool)

  datatype Chan = Chan(cluster: Cluster, creator: Gid, closes: nat)

  datatype TimerState = Armed | Stopped | Fired(runner: Gid) | Ran

  datatype Timer = Timer(cluster: Cluster, state: TimerState)

  datatype Once = Unused | Running(holder: Gid) | Done

  /** `released` is history: whether the connection has given its reference back. */
  datatype Conn = Conn(tunnel: TunnelId, owner: Gid, once: Once, released: bool)

  datatype Phase = Entering | Locked | Forwarding

  datatype Pc =
    // dialTunnel and GetOrCreateTunnel
    | NextAttempt
    | GetWant
    | GetLocked
    | Waiting(ch: ChanId)
    | Establishing(t: TunnelId, ch: ChanId, phase: Phase)
    | Returned(t: TunnelId, ch: ChanId, ok: bool)
    | Holding(t: TunnelId)
    | Dialing(t: TunnelId)
    | Handshake(k: ConnId)
    | Piping(k: ConnId)
    // trackedConn.Close
    | Closing(k: ConnId)
    | Releasing(k: ConnId)
    | OnIdle(k: ConnId, idle: Cluster)
    // RemoveTunnel
    | RemoveWant
    | RemoveLocked
    // closeIdleTunnel, run by a timer
    | CallbackWant(tm: TimerId)
    | CallbackLocked(tm: TimerId)
    | IdleClosing(t: TunnelId)
    // CloseAll
    | CloseAllWant
    | CloseAllLocked(todo: set<Cluster>)
    | Finished

  /** `attempt` counts the rounds of `dialTunnel`; `retry` says that a `Close` or a removal belongs to a failed one. */
  datatype Go = Go(c: Cluster, attempt: nat, retry: bool, at: Pc)

  datatype State = State(
    maxRetries: int,
    pool: Maps<TunnelId, TimerId, ChanId>,
    mu: Option<Gid>,
    tun: map<TunnelId, Tunnel>,
    chans: map<ChanId, Chan>,
    timers: map<TimerId, Timer>,
    conns: map<ConnId, Conn>,
    gs: map<Gid, Go>)

  predicate Init(s: State) {
    s.pool == Maps(map[], map[], map[]) && s.mu == None && s.tun == map[] && s.chans == map[] &&
    s.timers == map[] && s.conns == map[] && s.gs == map[]
  }

  // ---------------------------------------------------------------------------------------
  // Pieces of the steps
  // ---------------------------------------------------------------------------------------

  function Move(s: State, g: Gid, at: Pc): State
    requires g in s.gs
  {
    s.(gs := s.gs[g := s.gs[g].(at := at)])
  }

  function MarkClosed(t: Tunnel): Tunnel {
    if t.closed then t else t.(closed := true, stopCloses := t.stopCloses + 1)
  }

  /** `Stop` keeps an armed timer from firing and does nothing to one that has fired. */
  function StopTimer(t: Timer): Timer {
    if t.state == Armed then t.(state := Stopped) else t
  }

  function CancelTimer(s: State, c: Cluster): map<TimerId, Timer> {
    if c in s.pool.idleTimers && s.pool.idleTimers[c] in s.timers
    then s.timers[s.pool.idleTimers[c] := StopTimer(s.timers[s.pool.idleTimers[c]])]
    else s.timers
  }

  /** Close the tunnel stored under `c`, if there is one. */
  function CloseUnder(s: State, c: Cluster): map<TunnelId, Tunnel> {
    if c in s.pool.tunnels && s.pool.tunnels[c] in s.tun
    then s.tun[s.pool.tunnels[c] := MarkClosed(s.tun[s.pool.tunnels[c]])]
    else s.tun
  }

  predicate TunnelFree(s: State, t: TunnelId) {
    t in s.tun && s.tun[t].lock == None
  }

  /** The mutex of the tunnel stored under `c`, if there is one, is free. */
  predicate StoredFree(s: State, c: Cluster) {
    c in s.pool.tunnels ==> TunnelFree(s, s.pool.tunnels[c])
  }

  /** Where a goroutine goes on after `Close`: to `RemoveTunnel` in a failed attempt, else to its end. */
  function AfterClose(x: Go): Pc {
    if x.retry then RemoveWant else Finished
  }

  // ---------------------------------------------------------------------------------------
  // A tunnel for the request: look-up, establishment, publication
  // ---------------------------------------------------------------------------------------

  /** A new request, `DeregisterCluster`, `CloseAll`, or one more `Close` of any connection. */
  predicate CanSpawn(s: State, g: Gid, x: Go) {
    g !in s.gs &&
    ((x.at.NextAttempt? && x.attempt == 1 && x.retry) ||
     (x.at.RemoveWant? && !x.retry) ||
     (x.at.CloseAllWant? && !x.retry) ||
     (x.at.Closing? && !x.retry && x.at.k in s.conns))
  }

  function DoSpawn(s: State, g: Gid, x: Go): State {
    s.(gs := s.gs[g := x])
  }

  /** Moves of one goroutine that change nothing shared. */
  predicate CanLocal(s: State, g: Gid, to: Pc) {
    g in s.gs &&
    match s.gs[g].at
    case NextAttempt => to == if s.gs[g].attempt <= s.maxRetries then GetWant else Finished
    case Waiting(ch) => (ch in s.chans && s.chans[ch].closes > 0 && to == GetWant) || to == RemoveWant
    case Holding(t) =>
      TunnelFree(s, t) && to == if s.tun[t].closed || s.tun[t].port == 0 then RemoveWant else Dialing(t)
    case Dialing(t) => to == RemoveWant
    case Handshake(k) => to == Piping(k) || to == Closing(k)
    case Closing(k) => k in s.conns && s.conns[k].once == Done && to == AfterClose(s.gs[g])
    case _ => false
  }

  /** The deferred `upstream.Close()` of `ServeHTTP`: nothing is retried after it. */
  predicate CanHangUp(s: State, g: Gid) {
    g in s.gs && s.gs[g].at.Piping?
  }

  function DoHangUp(s: State, g: Gid): State
    requires CanHangUp(s, g)
  {
    s.(gs := s.gs[g := s.gs[g].(at := Closing(s.gs[g].at.k), retry := false)])
  }

  predicate CanPoolLock(s: State, g: Gid) {
    s.mu == None && g in s.gs && (s.gs[g].at.GetWant? || s.gs[g].at.RemoveWant? || s.gs[g].at.CallbackWant?)
  }

  function DoPoolLock(s: State, g: Gid): State
    requires CanPoolLock(s, g)
  {
    var at := s.gs[g].at;
    Move(s, g, if at.GetWant? then GetLocked else if at.RemoveWant? then RemoveLocked else CallbackLocked(at.tm))
    .(mu := Some(g))
  }

  predicate InGet(s: State, g: Gid) {
    g in s.gs && s.gs[g].at.GetLocked? && StoredFree(s, s.gs[g].c)
  }

  /** Fast path: the stored tunnel is open. */
  predicate CanReuse(s: State, g: Gid) {
    InGet(s, g) && s.gs[g].c in s.pool.tunnels && !s.tun[s.pool.tunnels[s.gs[g].c]].closed
  }

  function DoReuse(s: State, g: Gid): State
    requires CanReuse(s, g)
  {
    var c := s.gs[g].c;
    Move(s, g, Holding(s.pool.tunnels[c])).(mu := None, pool := ForgetTimer(s.pool, c), timers := CancelTimer(s, c))
  }

  /** The pool after a stale closed tunnel under `c` was cleaned up. */
  function Cleaned(s: State, c: Cluster): State {
    if c in s.pool.tunnels
    then s.(pool := RemoveSection(s.pool, c), timers := CancelTimer(s, c))
    else s
  }

  /** Wait path: another goroutine is establishing. */
  predicate CanWait(s: State, g: Gid) {
    InGet(s, g) && !CanReuse(s, g) && s.gs[g].c in s.pool.establishing
  }

  function DoWait(s: State, g: Gid): State
    requires CanWait(s, g)
  {
    var c := s.gs[g].c;
    Move(Cleaned(s, c), g, Waiting(s.pool.establishing[c])).(mu := None)
  }

  /** Create path: register as the one establishing goroutine. */
  predicate CanCreate(s: State, g: Gid, t: TunnelId, ch: ChanId) {
    InGet(s, g) && !CanReuse(s, g) && s.gs[g].c !in s.pool.establishing && t !in s.tun && ch !in s.chans
  }

  function Register(s: State, g: Gid, t: TunnelId, ch: ChanId): State
    requires g in s.gs
  {
    var c := s.gs[g].c;
    Move(s, g, Establishing(t, ch, Entering))
    .(mu := None,
      pool := s.pool.(establishing := s.pool.establishing[c := ch]),
      tun := s.tun[t := Tunnel(c, g, false, None, false, 0, 0, 0, NotStarted, false)],
      chans := s.chans[ch := Chan(c, g, 0)])
  }

  function DoCreate(s: State, g: Gid, t: TunnelId, ch: ChanId): State
    requires CanCreate(s, g, t, ch)
  {
    Register(Cleaned(s, s.gs[g].c), g, t, ch)
  }

  /** The three paths are the three outcomes of the section. */
  lemma LookUpSteps(s: State, g: Gid, t: TunnelId, ch: ChanId)
    requires InGet(s, g)
    ensures var c := s.gs[g].c; var open := c in s.pool.tunnels && !s.tun[s.pool.tunnels[c]].closed;
      (CanReuse(s, g) ==> GetSection(s.pool, c, open, DoReuse(s, g).pool, Found(DoReuse(s, g).gs[g].at.t))) &&
      (CanWait(s, g) ==> GetSection(s.pool, c, open, DoWait(s, g).pool, Await(DoWait(s, g).gs[g].at.ch))) &&
      (CanCreate(s, g, t, ch) ==> GetSection(s.pool, c, open, DoCreate(s, g, t, ch).pool, New(t, ch)))
  {
  }

  predicate Establishes(s: State, g: Gid, phase: Phase) {
    g in s.gs && s.gs[g].at.Establishing? && s.gs[g].at.phase == phase && s.gs[g].at.t in s.tun
  }

  predicate CanEstablishLock(s: State, g: Gid) {
    Establishes(s, g, Entering) && TunnelFree(s, s.gs[g].at.t) && !s.tun[s.gs[g].at.t].closed
  }

  function DoEstablishLock(s: State, g: Gid): State
    requires CanEstablishLock(s, g)
  {
    var at := s.gs[g].at;
    Move(s, g, Establishing(at.t, at.ch, Locked)).(tun := s.tun[at.t := s.tun[at.t].(lock := Some(g))])
  }

  predicate CanEstablishForward(s: State, g: Gid) {
    Establishes(s, g, Locked)
  }

  function DoEstablishForward(s: State, g: Gid): State
    requires CanEstablishForward(s, g)
  {
    var at := s.gs[g].at;
    Move(s, g, Establishing(at.t, at.ch, Forwarding)).(tun := s.tun[at.t := s.tun[at.t].(forwarder := Forwards)])
  }

  datatype EstablishEnd = Abort | AbortForwarding(monitored: bool) | Ready(port: nat)

  predicate CanEstablishReturn(s: State, g: Gid, end: EstablishEnd) {
    Establishes(s, g, if end == Abort then Locked else Forwarding)
  }

  /** Every error after the forwarder was started goes through `markClosedLocked`. */
  function EstablishOutcome(t: Tunnel, end: EstablishEnd): Tunnel {
    match end
    case Abort => t.(lock := None)
    case AbortForwarding(monitored) => MarkClosed(t).(lock := None, monitored := monitored)
    case Ready(port) => t.(lock := None, monitored := true, port := port, ready := true)
  }

  function DoEstablishReturn(s: State, g: Gid, end: EstablishEnd): State
    requires CanEstablishReturn(s, g, end)
  {
    var at := s.gs[g].at;
    Move(s, g, Returned(at.t, at.ch, end.Ready?)).(tun := s.tun[at.t := EstablishOutcome(s.tun[at.t], end)])
  }

  predicate CanPublish(s: State, g: Gid) {
    s.mu == None && g in s.gs && s.gs[g].at.Returned? && s.gs[g].at.ch in s.chans
  }

  /** The second section of `doEstablish`: wake the waiters; store the tunnel unless there was an error. */
  function DoPublish(s: State, g: Gid): State
    requires CanPublish(s, g)
  {
    var at := s.gs[g].at;
    Move(s, g, if at.ok then Holding(at.t) else RemoveWant)
    .(pool := PublishSection(s.pool, s.gs[g].c, at.t, at.ok),
      chans := s.chans[at.ch := s.chans[at.ch].(closes := s.chans[at.ch].closes + 1)])
  }

  // ---------------------------------------------------------------------------------------
  // Connections, their release, timers and forwarders
  // ---------------------------------------------------------------------------------------

  predicate CanDialOk(s: State, g: Gid, k: ConnId) {
    g in s.gs && s.gs[g].at.Dialing? && s.gs[g].at.t in s.tun && k !in s.conns
  }

  function DoDialOk(s: State, g: Gid, k: ConnId): State
    requires CanDialOk(s, g, k)
  {
    var t := s.gs[g].at.t;
    Move(s, g, Handshake(k))
    .(tun := s.tun[t := s.tun[t].(activeConns := s.tun[t].activeConns + 1)],
      conns := s.conns[k := Conn(t, g, Unused, false)])
  }

  predicate CanCloseEnter(s: State, g: Gid) {
    g in s.gs && s.gs[g].at.Closing? && s.gs[g].at.k in s.conns && s.conns[s.gs[g].at.k].once == Unused
  }

  function DoCloseEnter(s: State, g: Gid): State
    requires CanCloseEnter(s, g)
  {
    var k := s.gs[g].at.k;
    Move(s, g, Releasing(k)).(conns := s.conns[k := s.conns[k].(once := Running(g))])
  }

  predicate CanRelease(s: State, g: Gid) {
    g in s.gs && s.gs[g].at.Releasing? && s.gs[g].at.k in s.conns && s.conns[s.gs[g].at.k].tunnel in s.tun
  }

  /** `activeConns.Add(-1)`; only the drop to zero goes on to `onIdle`. */
  function DoRelease(s: State, g: Gid): State
    requires CanRelease(s, g)
  {
    var k := s.gs[g].at.k;
    var t := s.conns[k].tunnel;
    var zero := s.tun[t].activeConns - 1 == 0;
    Move(s, g, if zero then OnIdle(k, s.tun[t].cluster) else AfterClose(s.gs[g]))
    .(tun := s.tun[t := s.tun[t].(activeConns := s.tun[t].activeConns - 1)],
      conns := s.conns[k := s.conns[k].(released := true, once := if zero then s.conns[k].once else Done)])
  }

  predicate CanSchedule(s: State, g: Gid, tm: TimerId) {
    s.mu == None && g in s.gs && s.gs[g].at.OnIdle? && s.gs[g].at.k in s.conns && tm !in s.timers
  }

  function DoSchedule(s: State, g: Gid, tm: TimerId): State
    requires CanSchedule(s, g, tm)
  {
    var k, c := s.gs[g].at.k, s.gs[g].at.idle;
    Move(s, g, AfterClose(s.gs[g]))
    .(pool := ScheduleSection(s.pool, c, tm),
      timers := CancelTimer(s, c)[tm := Timer(c, Armed)],
      conns := s.conns[k := s.conns[k].(once := Done)])
  }

  predicate CanFire(s: State, tm: TimerId, g: Gid) {
    tm in s.timers && s.timers[tm].state == Armed && g !in s.gs
  }

  function DoFire(s: State, tm: TimerId, g: Gid): State
    requires CanFire(s, tm, g)
  {
    DoSpawn(s, g, Go(s.timers[tm].cluster, 0, false, CallbackWant(tm)))
    .(timers := s.timers[tm := s.timers[tm].(state := Fired(g))])
  }

  predicate CanForwarderExit(s: State, t: TunnelId) {
    t in s.tun && s.tun[t].forwarder == Forwards
  }

  function DoForwarderExit(s: State, t: TunnelId): State
    requires CanForwarderExit(s, t)
  {
    s.(tun := s.tun[t := s.tun[t].(forwarder := Exited)])
  }

  predicate CanMonitor(s: State, t: TunnelId) {
    TunnelFree(s, t) && s.tun[t].monitored && s.tun[t].forwarder == Exited
  }

  function DoMonitor(s: State, t: TunnelId): State
    requires CanMonitor(s, t)
  {
    s.(tun := s.tun[t := MarkClosed(s.tun[t])])
  }

  // ---------------------------------------------------------------------------------------
  // Removal: RemoveTunnel, closeIdleTunnel, CloseAll
  // ---------------------------------------------------------------------------------------

  predicate CanRemove(s: State, g: Gid) {
    g in s.gs && s.gs[g].at.RemoveLocked? && StoredFree(s, s.gs[g].c)
  }

  /** Removes whatever is stored under the name, which need not be the tunnel that failed. */
  function DoRemove(s: State, g: Gid): State
    requires CanRemove(s, g)
  {
    var x := s.gs[g];
    s.(mu := None, pool := RemoveSection(s.pool, x.c), timers := CancelTimer(s, x.c), tun := CloseUnder(s, x.c),
       gs := s.gs[g := if x.retry then x.(at := NextAttempt, attempt := x.attempt + 1) else x.(at := Finished)])
  }

  predicate CanCallback(s: State, g: Gid) {
    g in s.gs && s.gs[g].at.CallbackLocked? && s.gs[g].at.tm in s.timers
  }

  /** The counter is read here; the tunnel is closed in a later step, with the pool still locked. */
  function DoCallback(s: State, g: Gid): State
    requires CanCallback(s, g)
  {
    var c, tm := s.gs[g].c, s.gs[g].at.tm;
    var close := c in s.pool.tunnels && s.pool.tunnels[c] in s.tun && s.tun[s.pool.tunnels[c]].activeConns <= 0;
    Move(s, g, if close then IdleClosing(s.pool.tunnels[c]) else Finished)
    .(mu := if close then s.mu else None,
      pool := ForgetTimer(s.pool, c), timers := s.timers[tm := s.timers[tm].(state := Ran)])
  }

  predicate CanIdleClose(s: State, g: Gid) {
    g in s.gs && s.gs[g].at.IdleClosing? && StoredFree(s, s.gs[g].c)
  }

  function DoIdleClose(s: State, g: Gid): State
    requires CanIdleClose(s, g)
  {
    var c := s.gs[g].c;
    Move(s, g, Finished).(mu := None, pool := Forget(s.pool, c), tun := CloseUnder(s, c))
  }

  predicate CanCloseAllBegin(s: State, g: Gid) {
    s.mu == None && g in s.gs && s.gs[g].at.CloseAllWant?
  }

  function DoCloseAllBegin(s: State, g: Gid): State
    requires CanCloseAllBegin(s, g)
  {
    Move(s, g, CloseAllLocked(s.pool.tunnels.Keys))
    .(mu := Some(g), pool := s.pool.(idleTimers := map[]),
      timers := map tm | tm in s.timers ::
        if tm in s.pool.idleTimers.Values then StopTimer(s.timers[tm]) else s.timers[tm])
  }

  predicate CanCloseAllOne(s: State, g: Gid, c: Cluster) {
    g in s.gs && s.gs[g].at.CloseAllLocked? && c in s.gs[g].at.todo && StoredFree(s, c)
  }

  function DoCloseAllOne(s: State, g: Gid, c: Cluster): State
    requires CanCloseAllOne(s, g, c)
  {
    Move(s, g, CloseAllLocked(s.gs[g].at.todo - {c})).(tun := CloseUnder(s, c))
  }

  predicate CanCloseAllEnd(s: State, g: Gid) {
    g in s.gs && s.gs[g].at == CloseAllLocked({})
  }

  function DoCloseAllEnd(s: State, g: Gid): State
    requires CanCloseAllEnd(s, g)
  {
    Move(s, g, Finished).(mu := None, pool := s.pool.(tunnels := map[]))
  }

  // ---------------------------------------------------------------------------------------
  // Runs
  // ---------------------------------------------------------------------------------------

  /** Requests up to a tunnel, and every move that changes nothing shared. */
  datatype GetStep =
    | Spawn(g: Gid, x: Go)
    | Local(g: Gid, to: Pc)
    | HangUp(g: Gid)
    | PoolLock(g: Gid)
    | Reuse(g: Gid)
    | Wait(g: Gid)

  /** Establishment and publication of a new tunnel. */
  datatype MakeStep =
    | Create(g: Gid, t: TunnelId, ch: ChanId)
    | EstablishLock(g: Gid)
    | EstablishForward(g: Gid)
    | EstablishReturn(g: Gid, end: EstablishEnd)
    | Publish(g: Gid)

  /** Connections, and what the environment does to timers and forwarders. */
  datatype UseStep =
    | DialOk(g: Gid, k: ConnId)
    | CloseEnter(g: Gid)
    | Release(g: Gid)
    | Schedule(g: Gid, tm: TimerId)
    | Fire(tm: TimerId, g: Gid)
    | ForwarderExit(t: TunnelId)
    | Monitor(t: TunnelId)

  /** Removal of tunnels. */
  datatype DropStep =
    | Remove(g: Gid)
    | Callback(g: Gid)
    | IdleClose(g: Gid)
    | CloseAllBegin(g: Gid)
    | CloseAllOne(g: Gid, c: Cluster)
    | CloseAllEnd(g: Gid)

  datatype Step = Get(get: GetStep) | Make(make: MakeStep) | Use(use: UseStep) | Drop(drop: DropStep)

  predicate CanGet(s: State, step: GetStep) {
    match step
    case Spawn(g, x) => CanSpawn(s, g, x)
    case Local(g, to) => CanLocal(s, g, to)
    case HangUp(g) => CanHangUp(s, g)
    case PoolLock(g) => CanPoolLock(s, g)
    case Reuse(g) => CanReuse(s, g)
    case Wait(g) => CanWait(s, g)
  }

  function DoGet(s: State, step: GetStep): State
    requires CanGet(s, step)
  {
    match step
    case Spawn(g, x) => DoSpawn(s, g, x)
    case Local(g, to) => Move(s, g, to)
    case HangUp(g) => DoHangUp(s, g)
    case PoolLock(g) => DoPoolLock(s, g)
    case Reuse(g) => DoReuse(s, g)
    case Wait(g) => DoWait(s, g)
  }

  predicate CanMake(s: State, step: MakeStep) {
    match step
    case Create(g, t, ch) => CanCreate(s, g, t, ch)
    case EstablishLock(g) => CanEstablishLock(s, g)
    case EstablishForward(g) => CanEstablishForward(s, g)
    case EstablishReturn(g, end) => CanEstablishReturn(s, g, end)
    case Publish(g) => CanPublish(s, g)
  }

  function DoMake(s: State, step: MakeStep): State
    requires CanMake(s, step)
  {
    match step
    case Create(g, t, ch) => DoCreate(s, g, t, ch)
    case EstablishLock(g) => DoEstablishLock(s, g)
    case EstablishForward(g) => DoEstablishForward(s, g)
    case EstablishReturn(g, end) => DoEstablishReturn(s, g, end)
    case Publish(g) => DoPublish(s, g)
  }

  predicate CanUse(s: State, step: UseStep) {
    match step
    case DialOk(g, k) => CanDialOk(s, g, k)
    case CloseEnter(g) => CanCloseEnter(s, g)
    case Release(g) => CanRelease(s, g)
    case Schedule(g, tm) => CanSchedule(s, g, tm)
    case Fire(tm, g) => CanFire(s, tm, g)
    case ForwarderExit(t) => CanForwarderExit(s, t)
    case Monitor(t) => CanMonitor(s, t)
  }

  function DoUse(s: State, step: UseStep): State
    requires CanUse(s, step)
  {
    match step
    case DialOk(g, k) => DoDialOk(s, g, k)
    case CloseEnter(g) => DoCloseEnter(s, g)
    case Release(g) => DoRelease(s, g)
    case Schedule(g, tm) => DoSchedule(s, g, tm)
    case Fire(tm, g) => DoFire(s, tm, g)
    case ForwarderExit(t) => DoForwarderExit(s, t)
    case Monitor(t) => DoMonitor(s, t)
  }

  predicate CanDrop(s: State, step: DropStep) {
    match step
    case Remove(g) => CanRemove(s, g)
    case Callback(g) => CanCallback(s, g)
    case IdleClose(g) => CanIdleClose(s, g)
    case CloseAllBegin(g) => CanCloseAllBegin(s, g)
    case CloseAllOne(g, c) => CanCloseAllOne(s, g, c)
    case CloseAllEnd(g) => CanCloseAllEnd(s, g)
  }

  function DoDrop(s: State, step: DropStep): State
    requires CanDrop(s, step)
  {
    match step
    case Remove(g) => DoRemove(s, g)
    case Callback(g) => DoCallback(s, g)
    case IdleClose(g) => DoIdleClose(s, g)
    case CloseAllBegin(g) => DoCloseAllBegin(s, g)
    case CloseAllOne(g, c) => DoCloseAllOne(s, g, c)
    case CloseAllEnd(g) => DoCloseAllEnd(s, g)
  }

  predicate Enabled(s: State, step: Step) {
    match step
    case Get(x) => CanGet(s, x)
    case Make(x) => CanMake(s, x)
    case Use(x) => CanUse(s, x)
    case Drop(x) => CanDrop(s, x)
  }

  function Apply(s: State, step: Step): State
    requires Enabled(s, step)
  {
    match step
    case Get(x) => DoGet(s, x)
    case Make(x) => DoMake(s, x)
    case Use(x) => DoUse(s, x)
    case Drop(x) => DoDrop(s, x)
  }

  /** The steps can be taken one after the other from `s`. */
  predicate Runnable(s: State, steps: seq<Step>)
    decreases steps, 0
  {
    steps == [] ||
    (Runnable(s, steps[..|steps| - 1]) && Enabled(Run(s, steps[..|steps| - 1]), steps[|steps| - 1]))
  }

  function Run(s: State, steps: seq<Step>): State
    requires Runnable(s, steps)
    decreases steps, 1
  {
    if steps == [] then s
    else Apply(Run(s, steps[..|steps| - 1]), steps[|steps| - 1])
  }
}
