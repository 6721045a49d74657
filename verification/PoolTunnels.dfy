/** The life of tunnels: locked only by their establisher, closed once, no forwarder leaked. */
module PoolTunnels {
  import opened Options
  import opened PoolSections
  import opened PoolMachine
  import opened PoolFlight

  /** The stop channel is closed exactly when `closed` is set, and once. */
  predicate Stops(s: State) {
    forall t | t in s.tun :: s.tun[t].stopCloses == if s.tun[t].closed then 1 else 0
  }

  lemma StopsGet(s: State, step: GetStep)
    requires Stops(s) && CanGet(s, step)
    ensures Stops(DoGet(s, step))
  {
  }

  lemma StopsMake(s: State, step: MakeStep)
    requires Stops(s) && CanMake(s, step)
    ensures Stops(DoMake(s, step))
  {
  }

  lemma StopsUse(s: State, step: UseStep)
    requires Stops(s) && CanUse(s, step)
    ensures Stops(DoUse(s, step))
  {
  }

  lemma StopsDrop(s: State, step: DropStep)
    requires Stops(s) && CanDrop(s, step)
    ensures Stops(DoDrop(s, step))
  {
  }

  // ---------------------------------------------------------------------------------------
  // Who makes a tunnel, who locks it, who was handed it
  // ---------------------------------------------------------------------------------------

  /** The tunnel a goroutine establishes is its own, locked while it works on it. */
  predicate MakerPc(s: State, g: Gid, x: Go) {
    (InFlight(x.at) ==> x.at.t in s.tun && s.tun[x.at.t].cluster == x.c && s.tun[x.at.t].establisher == g) &&
    (x.at.Establishing? ==>
      !s.tun[x.at.t].ready && !s.tun[x.at.t].closed && !s.tun[x.at.t].monitored &&
      s.tun[x.at.t].lock == (if x.at.phase == Entering then None else Some(g)) &&
      (s.tun[x.at.t].forwarder == NotStarted <==> x.at.phase != Forwarding)) &&
    (x.at.Returned? ==>
      s.tun[x.at.t].lock == None && s.tun[x.at.t].ready == x.at.ok &&
      (x.at.ok || s.tun[x.at.t].closed || s.tun[x.at.t].forwarder == NotStarted))
  }

  /** Only a goroutine inside `Establish` keeps a tunnel locked, and such a tunnel is not ready. */
  predicate LockOk(s: State, t: TunnelId, x: Tunnel) {
    x.lock.Some? ==>
      !x.ready && x.lock.value in s.gs && s.gs[x.lock.value].at.Establishing? &&
      s.gs[x.lock.value].at.t == t && s.gs[x.lock.value].at.phase != Entering
  }

  /** A stored tunnel has come out of `Establish` and bears the name it is stored under. */
  predicate StoredOk(s: State, c: Cluster, t: TunnelId) {
    t in s.tun && s.tun[t].ready && s.tun[t].cluster == c
  }

  predicate Makers(s: State) {
    (forall g | g in s.gs :: MakerPc(s, g, s.gs[g])) &&
    (forall t | t in s.tun :: LockOk(s, t, s.tun[t])) &&
    (forall c | c in s.pool.tunnels :: StoredOk(s, c, s.pool.tunnels[c]))
  }

  /** What happens to a tunnel outside `Establish`: the counter, the forwarder, and closing a finished one. */
  predicate Tame(x: Tunnel, y: Tunnel) {
    y.cluster == x.cluster && y.establisher == x.establisher && y.ready == x.ready && y.lock == x.lock &&
    y.monitored == x.monitored && (y.forwarder == NotStarted <==> x.forwarder == NotStarted) &&
    (y.closed == x.closed || (y.closed && (x.ready || x.monitored)))
  }

  predicate AllTame(s: State, s': State) {
    s'.tun.Keys == s.tun.Keys && forall t | t in s.tun :: Tame(s.tun[t], s'.tun[t])
  }

  predicate Fewer(s: State, s': State) {
    forall c | c in s'.pool.tunnels :: c in s.pool.tunnels && s'.pool.tunnels[c] == s.pool.tunnels[c]
  }

  lemma ClosingIsTame(s: State, c: Cluster)
    requires Makers(s)
    ensures AllTame(s, s.(tun := CloseUnder(s, c)))
  {
  }

  lemma MakersFrame(s: State, s': State, g: Gid)
    requires Makers(s) && (s'.gs == s.gs || OneMoves(s, s', g)) && AllTame(s, s') && Fewer(s, s')
    requires s'.gs != s.gs ==> !InFlight(s'.gs[g].at) && (g in s.gs ==> !InFlight(s.gs[g].at))
    ensures Makers(s')
  {
  }

  lemma MakersCreate(s: State, g: Gid, t: TunnelId, ch: ChanId)
    requires Makers(s) && CanCreate(s, g, t, ch)
    ensures Makers(DoCreate(s, g, t, ch))
  {
  }

  lemma MakersReturn(s: State, g: Gid, end: EstablishEnd)
    requires Makers(s) && CanEstablishReturn(s, g, end)
    ensures Makers(DoEstablishReturn(s, g, end))
  {
  }

  lemma MakersPublish(s: State, g: Gid)
    requires Makers(s) && CanPublish(s, g)
    ensures Makers(DoPublish(s, g))
  {
  }

  lemma MakersGet(s: State, step: GetStep)
    requires Makers(s) && CanGet(s, step)
    ensures Makers(DoGet(s, step))
  {
    MakersFrame(s, DoGet(s, step), step.g);
  }

  lemma MakersEnter(s: State, g: Gid)
    requires Makers(s) && CanEstablishLock(s, g)
    ensures Makers(DoEstablishLock(s, g))
  {
  }

  lemma MakersForward(s: State, g: Gid)
    requires Makers(s) && CanEstablishForward(s, g)
    ensures Makers(DoEstablishForward(s, g))
  {
  }

  lemma MakersMake(s: State, step: MakeStep)
    requires Makers(s) && CanMake(s, step)
    ensures Makers(DoMake(s, step))
  {
    match step
    case Create(g, t, ch) => MakersCreate(s, g, t, ch);
    case EstablishLock(g) => MakersEnter(s, g);
    case EstablishForward(g) => MakersForward(s, g);
    case EstablishReturn(g, end) => MakersReturn(s, g, end);
    case Publish(g) => MakersPublish(s, g);
  }

  lemma UseIsTame(s: State, step: UseStep)
    requires CanUse(s, step)
    ensures AllTame(s, DoUse(s, step))
  {
  }

  lemma MakersUse(s: State, step: UseStep)
    requires Makers(s) && CanUse(s, step)
    ensures Makers(DoUse(s, step))
  {
    UseIsTame(s, step);
    MakersFrame(s, DoUse(s, step), if step.ForwarderExit? || step.Monitor? then 0 else step.g);
  }

  lemma MakersDrop(s: State, step: DropStep)
    requires Makers(s) && CanDrop(s, step)
    ensures Makers(DoDrop(s, step))
  {
    ClosingIsTame(s, if step.CloseAllOne? then step.c else s.gs[step.g].c);
    MakersFrame(s, DoDrop(s, step), step.g);
  }

  /** A tunnel that was handed out is ready and of the right cluster. */
  predicate Handed(s: State) {
    forall g | g in s.gs && (s.gs[g].at.Holding? || s.gs[g].at.Dialing?) :: StoredOk(s, s.gs[g].c, s.gs[g].at.t)
  }

  lemma HandedGet(s: State, step: GetStep)
    requires Handed(s) && Makers(s) && CanGet(s, step)
    ensures Handed(DoGet(s, step))
  {
  }

  lemma HandedMake(s: State, step: MakeStep)
    requires Handed(s) && Makers(s) && CanMake(s, step)
    ensures Handed(DoMake(s, step))
  {
  }

  lemma HandedUse(s: State, step: UseStep)
    requires Handed(s) && Makers(s) && CanUse(s, step)
    ensures Handed(DoUse(s, step))
  {
  }

  lemma HandedDrop(s: State, step: DropStep)
    requires Handed(s) && Makers(s) && CanDrop(s, step)
    ensures Handed(DoDrop(s, step))
  {
  }

  // ---------------------------------------------------------------------------------------
  // Closing sections and leaks
  // ---------------------------------------------------------------------------------------

  predicate Makes(s: State, g: Gid, t: TunnelId) {
    g in s.gs && InFlight(s.gs[g].at) && s.gs[g].at.t == t
  }

  predicate StoredUnder(s: State, c: Cluster, t: TunnelId) {
    c in s.pool.tunnels && s.pool.tunnels[c] == t
  }

  /** What a goroutine inside a closing section knows, because it holds the pool mutex. */
  predicate SectionPc(s: State, x: Go) {
    (x.at.IdleClosing? ==> StoredUnder(s, x.c, x.at.t)) &&
    (x.at.CloseAllLocked? ==>
      x.at.todo <= s.pool.tunnels.Keys &&
      forall c | c in s.pool.tunnels && c !in x.at.todo :: s.pool.tunnels[c] in s.tun && s.tun[s.pool.tunnels[c]].closed)
  }

  predicate Sections(s: State) {
    forall g | g in s.gs :: SectionPc(s, s.gs[g])
  }

  lemma SectionsGet(s: State, step: GetStep)
    requires Sections(s) && Mutex(s) && Makers(s) && CanGet(s, step)
    ensures Sections(DoGet(s, step))
  {
  }

  lemma SectionsMake(s: State, step: MakeStep)
    requires Sections(s) && Mutex(s) && Makers(s) && CanMake(s, step)
    ensures Sections(DoMake(s, step))
  {
  }

  lemma SectionsUse(s: State, step: UseStep)
    requires Sections(s) && Mutex(s) && Makers(s) && CanUse(s, step)
    ensures Sections(DoUse(s, step))
  {
  }

  lemma SectionsDrop(s: State, step: DropStep)
    requires Sections(s) && Mutex(s) && Makers(s) && CanDrop(s, step)
    ensures Sections(DoDrop(s, step))
  {
  }

  /** A started forwarder that was not told to stop belongs to a stored tunnel or to its establisher. */
  predicate NoLeak(s: State) {
    forall t | t in s.tun && s.tun[t].forwarder != NotStarted && !s.tun[t].closed ::
      StoredUnder(s, s.tun[t].cluster, t) || Makes(s, s.tun[t].establisher, t)
  }

  /** A step that stops storing a tunnel has closed it. */
  lemma NoLeakFrame(s: State, s': State, g: Gid)
    requires NoLeak(s) && OneMoves(s, s', g) && AllTame(s, s')
    requires !InFlight(s'.gs[g].at) && (g in s.gs ==> !InFlight(s.gs[g].at))
    requires forall c | c in s.pool.tunnels ::
      StoredUnder(s', c, s.pool.tunnels[c]) || (s.pool.tunnels[c] in s'.tun && s'.tun[s.pool.tunnels[c]].closed)
    ensures NoLeak(s')
  {
  }

  lemma NoLeakGet(s: State, step: GetStep)
    requires NoLeak(s) && Makers(s) && CanGet(s, step)
    ensures NoLeak(DoGet(s, step))
  {
    NoLeakFrame(s, DoGet(s, step), step.g);
  }

  /** Publication stores the tunnel it hands over, and replaces none: the cluster had none. */
  lemma NoLeakPublish(s: State, g: Gid)
    requires NoLeak(s) && Flight(s) && Makers(s) && CanPublish(s, g)
    ensures s.gs[g].c !in s.pool.tunnels && NoLeak(DoPublish(s, g))
  {
  }

  /** A tunnel that a cleaned-up entry stored was closed already. */
  lemma NoLeakCreate(s: State, g: Gid, t: TunnelId, ch: ChanId)
    requires NoLeak(s) && Makers(s) && CanCreate(s, g, t, ch)
    ensures NoLeak(DoCreate(s, g, t, ch))
  {
  }

  lemma NoLeakEnter(s: State, g: Gid)
    requires NoLeak(s) && CanEstablishLock(s, g)
    ensures NoLeak(DoEstablishLock(s, g))
  {
  }

  lemma NoLeakForward(s: State, g: Gid)
    requires NoLeak(s) && Makers(s) && CanEstablishForward(s, g)
    ensures NoLeak(DoEstablishForward(s, g))
  {
  }

  lemma NoLeakReturn(s: State, g: Gid, end: EstablishEnd)
    requires NoLeak(s) && Makers(s) && CanEstablishReturn(s, g, end)
    ensures NoLeak(DoEstablishReturn(s, g, end))
  {
  }

  lemma NoLeakMake(s: State, step: MakeStep)
    requires NoLeak(s) && Flight(s) && Makers(s) && CanMake(s, step)
    ensures NoLeak(DoMake(s, step))
  {
    match step
    case Create(g, t, ch) => NoLeakCreate(s, g, t, ch);
    case EstablishLock(g) => NoLeakEnter(s, g);
    case EstablishForward(g) => NoLeakForward(s, g);
    case EstablishReturn(g, end) => NoLeakReturn(s, g, end);
    case Publish(g) => NoLeakPublish(s, g);
  }

  lemma NoLeakUse(s: State, step: UseStep)
    requires NoLeak(s) && CanUse(s, step)
    ensures NoLeak(DoUse(s, step))
  {
    if !step.ForwarderExit? && !step.Monitor? {
      NoLeakFrame(s, DoUse(s, step), step.g);
    }
  }

  lemma NoLeakDrop(s: State, step: DropStep)
    requires NoLeak(s) && Makers(s) && Sections(s) && CanDrop(s, step)
    ensures NoLeak(DoDrop(s, step))
  {
    ClosingIsTame(s, if step.CloseAllOne? then step.c else s.gs[step.g].c);
    NoLeakFrame(s, DoDrop(s, step), step.g);
  }
}
