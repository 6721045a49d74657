/** Tracked connections: released once, left behind by no request, counted exactly. */
module PoolConns {
  import opened PoolSections
  import opened PoolMachine
  import opened PoolFlight
  import opened PoolTunnels

  predicate InsideOnce(pc: Pc) {
    pc.Releasing? || pc.OnIdle?
  }

  predicate HasConn(pc: Pc) {
    pc.Handshake? || pc.Piping? || pc.Closing? || InsideOnce(pc)
  }

  predicate Releases(s: State, g: Gid, k: ConnId) {
    g in s.gs && InsideOnce(s.gs[g].at) && s.gs[g].at.k == k
  }

  predicate Works(s: State, g: Gid, k: ConnId) {
    g in s.gs && HasConn(s.gs[g].at) && s.gs[g].at.k == k
  }

  predicate ConnPc(s: State, g: Gid, x: Go) {
    (HasConn(x.at) ==> x.at.k in s.conns) &&
    (InsideOnce(x.at) ==> s.conns[x.at.k].once == Running(g) && s.conns[x.at.k].released == x.at.OnIdle?)
  }

  /** `releaseOnce` and the reference agree; until it is done the owner still works on the connection. */
  predicate ConnOk(s: State, k: ConnId, x: Conn) {
    x.tunnel in s.tun && s.tun[x.tunnel].ready &&
    (x.once.Unused? ==> !x.released) &&
    (x.once.Done? ==> x.released) &&
    (x.once.Running? ==> Releases(s, x.once.holder, k)) &&
    (x.once.Done? || Works(s, x.owner, k))
  }

  predicate Conns(s: State) {
    (forall g | g in s.gs :: ConnPc(s, g, s.gs[g])) &&
    (forall k | k in s.conns :: ConnOk(s, k, s.conns[k]))
  }

  predicate KeepsReady(s: State, s': State) {
    forall t | t in s.tun :: t in s'.tun && (s.tun[t].ready ==> s'.tun[t].ready)
  }

  lemma ConnsFrame(s: State, s': State, g: Gid)
    requires Conns(s) && OneMoves(s, s', g) && s'.conns == s.conns && KeepsReady(s, s')
    requires !InsideOnce(s'.gs[g].at) && ConnPc(s, g, s'.gs[g])
    requires g in s.gs ==> !InsideOnce(s.gs[g].at)
    requires g in s.gs && HasConn(s.gs[g].at) ==> Works(s', g, s.gs[g].at.k) || s.conns[s.gs[g].at.k].once.Done?
    ensures Conns(s')
  {
  }

  lemma ConnsGet(s: State, step: GetStep)
    requires Conns(s) && CanGet(s, step)
    ensures Conns(DoGet(s, step))
  {
    ConnsFrame(s, DoGet(s, step), step.g);
  }

  lemma ConnsMake(s: State, step: MakeStep)
    requires Conns(s) && CanMake(s, step)
    ensures Conns(DoMake(s, step))
  {
    ConnsFrame(s, DoMake(s, step), step.g);
  }

  lemma ConnsDial(s: State, g: Gid, k: ConnId)
    requires Conns(s) && Handed(s) && CanDialOk(s, g, k)
    ensures Conns(DoDialOk(s, g, k))
  {
  }

  lemma ConnsRelease(s: State, g: Gid)
    requires Conns(s) && CanRelease(s, g)
    ensures Conns(DoRelease(s, g))
  {
  }

  lemma ConnsCloseEnter(s: State, g: Gid)
    requires Conns(s) && CanCloseEnter(s, g)
    ensures Conns(DoCloseEnter(s, g))
  {
  }

  lemma ConnsSchedule(s: State, g: Gid, tm: TimerId)
    requires Conns(s) && CanSchedule(s, g, tm)
    ensures Conns(DoSchedule(s, g, tm))
  {
  }

  lemma ConnsUse(s: State, step: UseStep)
    requires Conns(s) && Handed(s) && CanUse(s, step)
    ensures Conns(DoUse(s, step))
  {
    match step
    case DialOk(g, k) => ConnsDial(s, g, k);
    case CloseEnter(g) => ConnsCloseEnter(s, g);
    case Release(g) => ConnsRelease(s, g);
    case Schedule(g, tm) => ConnsSchedule(s, g, tm);
    case Fire(tm, g) => ConnsFrame(s, DoUse(s, step), g);
    case _ =>
  }

  lemma ConnsDrop(s: State, step: DropStep)
    requires Conns(s) && CanDrop(s, step)
    ensures Conns(DoDrop(s, step))
  {
    ConnsFrame(s, DoDrop(s, step), step.g);
  }

  // ---------------------------------------------------------------------------------------
  // Reference counts
  // ---------------------------------------------------------------------------------------

  /** The connections of tunnel `t` that were acquired and have not given their reference back. */
  function Live(s: State, t: TunnelId): set<ConnId> {
    set k | k in s.conns && s.conns[k].tunnel == t && !s.conns[k].released
  }

  predicate Counted(s: State) {
    forall t | t in s.tun :: s.tun[t].activeConns == |Live(s, t)|
  }

  predicate SameReference(x: Conn, y: Conn) {
    y.tunnel == x.tunnel && y.released == x.released
  }

  /** A step that neither takes nor gives a reference. */
  lemma CountedFrame(s: State, s': State)
    requires Counted(s) && s'.conns.Keys == s.conns.Keys && s'.tun.Keys == s.tun.Keys
    requires forall k | k in s.conns :: SameReference(s.conns[k], s'.conns[k])
    requires forall t | t in s.tun :: s'.tun[t].activeConns == s.tun[t].activeConns
    ensures Counted(s')
  {
    forall t | t in s'.tun ensures s'.tun[t].activeConns == |Live(s', t)| {
      assert Live(s', t) == Live(s, t);
    }
  }

  lemma LiveAfterDial(s: State, g: Gid, k: ConnId, t: TunnelId)
    requires CanDialOk(s, g, k)
    ensures Live(DoDialOk(s, g, k), t) == Live(s, t) + if t == s.gs[g].at.t then {k} else {}
    ensures k !in Live(s, t)
  {
  }

  lemma CountedDial(s: State, g: Gid, k: ConnId)
    requires Counted(s) && CanDialOk(s, g, k)
    ensures Counted(DoDialOk(s, g, k))
  {
    var s' := DoDialOk(s, g, k);
    forall t | t in s'.tun ensures s'.tun[t].activeConns == |Live(s', t)| {
      LiveAfterDial(s, g, k, t);
    }
  }

  lemma LiveAfterRelease(s: State, g: Gid, t: TunnelId)
    requires Conns(s) && CanRelease(s, g)
    ensures var k := s.gs[g].at.k;
      Live(DoRelease(s, g), t) == Live(s, t) - {k} && (k in Live(s, t) <==> t == s.conns[k].tunnel)
  {
    assert ConnPc(s, g, s.gs[g]);
  }

  lemma CountedRelease(s: State, g: Gid)
    requires Counted(s) && Conns(s) && CanRelease(s, g)
    ensures Counted(DoRelease(s, g))
  {
    var s' := DoRelease(s, g);
    forall t | t in s'.tun ensures s'.tun[t].activeConns == |Live(s', t)| {
      LiveAfterRelease(s, g, t);
    }
  }

  lemma CountedGet(s: State, step: GetStep)
    requires Counted(s) && CanGet(s, step)
    ensures Counted(DoGet(s, step))
  {
    CountedFrame(s, DoGet(s, step));
  }

  lemma CountedMake(s: State, step: MakeStep)
    requires Counted(s) && Conns(s) && CanMake(s, step)
    ensures Counted(DoMake(s, step))
  {
  }

  lemma CountedUse(s: State, step: UseStep)
    requires Counted(s) && Conns(s) && CanUse(s, step)
    ensures Counted(DoUse(s, step))
  {
    match step
    case DialOk(g, k) => CountedDial(s, g, k);
    case CloseEnter(g) => CountedFrame(s, DoCloseEnter(s, g));
    case Release(g) => CountedRelease(s, g);
    case Schedule(g, tm) => CountedFrame(s, DoSchedule(s, g, tm));
    case Fire(tm, g) => CountedFrame(s, DoFire(s, tm, g));
    case ForwarderExit(t) => CountedFrame(s, DoForwarderExit(s, t));
    case Monitor(t) => CountedFrame(s, DoMonitor(s, t));
  }

  lemma CountedDrop(s: State, step: DropStep)
    requires Counted(s) && CanDrop(s, step)
    ensures Counted(DoDrop(s, step))
  {
    CountedFrame(s, DoDrop(s, step));
  }
}
