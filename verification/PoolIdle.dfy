/** No idle tunnel is stranded. */
module PoolIdle {
  import opened PoolSections
  import opened PoolMachine
  import opened PoolFlight
  import opened PoolTunnels
  import opened PoolConns

  /** Will acquire `t`, remove whatever `c` stores, or arm the idle timer of `c`. */
  predicate Attends(x: Go, c: Cluster, t: TunnelId) {
    ((x.at.Holding? || x.at.Dialing?) && x.c == c && x.at.t == t) ||
    ((x.at.RemoveWant? || x.at.RemoveLocked?) && x.c == c) ||
    (x.at.OnIdle? && x.at.idle == c)
  }

  /** Holds the pool mutex and is bound to close `t`. */
  predicate Dooms(x: Go, c: Cluster, t: TunnelId) {
    (x.at.IdleClosing? && x.c == c && x.at.t == t) || (x.at.CloseAllLocked? && c in x.at.todo)
  }

  predicate Tends(x: Go, c: Cluster, t: TunnelId) {
    Attends(x, c, t) || Dooms(x, c, t)
  }

  predicate TendsAt(s: State, g: Gid, c: Cluster, t: TunnelId) {
    g in s.gs && Tends(s.gs[g], c, t)
  }

  ghost predicate Tended(s: State, c: Cluster, t: TunnelId) {
    c in s.pool.idleTimers || exists g :: TendsAt(s, g, c, t)
  }

  predicate Idle(s: State, c: Cluster) {
    c in s.pool.tunnels && s.pool.tunnels[c] in s.tun &&
    !s.tun[s.pool.tunnels[c]].closed && s.tun[s.pool.tunnels[c]].activeConns == 0
  }

  ghost predicate NoneStranded(s: State) {
    forall c | Idle(s, c) :: Tended(s, c, s.pool.tunnels[c])
  }

  lemma StillTended(s: State, s': State, g: Gid, c: Cluster, t: TunnelId)
    requires Tended(s, c, t) && (s'.gs == s.gs || OneMoves(s, s', g))
    requires c in s.pool.idleTimers || TendsAt(s, g, c, t) ==> c in s'.pool.idleTimers || TendsAt(s', g, c, t)
    ensures Tended(s', c, t)
  {
    if c !in s.pool.idleTimers && !TendsAt(s, g, c, t) {
      var h :| TendsAt(s, h, c, t);
      assert TendsAt(s', h, c, t);
    }
  }

  lemma NoneStrandedGet(s: State, step: GetStep)
    requires NoneStranded(s) && CanGet(s, step)
    ensures NoneStranded(DoGet(s, step))
  {
    var s' := DoGet(s, step);
    forall c | Idle(s', c) ensures Tended(s', c, s'.pool.tunnels[c]) {
      StillTended(s, s', step.g, c, s.pool.tunnels[c]);
    }
  }

  /** The publisher holds the tunnel it has stored. */
  lemma NoneStrandedPublish(s: State, g: Gid)
    requires NoneStranded(s) && CanPublish(s, g)
    ensures NoneStranded(DoPublish(s, g))
  {
    var s' := DoPublish(s, g);
    forall c | Idle(s', c) ensures Tended(s', c, s'.pool.tunnels[c]) {
      if c == s.gs[g].c && s.gs[g].at.ok {
        assert TendsAt(s', g, c, s'.pool.tunnels[c]);
      } else {
        StillTended(s, s', g, c, s.pool.tunnels[c]);
      }
    }
  }

  lemma NoneStrandedCreate(s: State, g: Gid, t: TunnelId, ch: ChanId)
    requires NoneStranded(s) && Makers(s) && CanCreate(s, g, t, ch)
    ensures NoneStranded(DoCreate(s, g, t, ch))
  {
    var s' := DoCreate(s, g, t, ch);
    forall c | Idle(s', c) ensures Tended(s', c, s'.pool.tunnels[c]) {
      StillTended(s, s', g, c, s.pool.tunnels[c]);
    }
  }

  lemma NoneStrandedMake(s: State, step: MakeStep)
    requires NoneStranded(s) && Makers(s) && CanMake(s, step)
    ensures NoneStranded(DoMake(s, step))
  {
    if step.Publish? {
      NoneStrandedPublish(s, step.g);
    } else if step.Create? {
      NoneStrandedCreate(s, step.g, step.t, step.ch);
    } else {
      var s' := DoMake(s, step);
      forall c | Idle(s', c) ensures Tended(s', c, s'.pool.tunnels[c]) {
        StillTended(s, s', step.g, c, s.pool.tunnels[c]);
      }
    }
  }

  /** The drop to zero leaves its goroutine on the way to arm the timer. */
  lemma NoneStrandedRelease(s: State, g: Gid)
    requires NoneStranded(s) && Makers(s) && CanRelease(s, g)
    ensures NoneStranded(DoRelease(s, g))
  {
    var s' := DoRelease(s, g);
    forall c | Idle(s', c) ensures Tended(s', c, s'.pool.tunnels[c]) {
      var t := s'.pool.tunnels[c];
      if t == s.conns[s.gs[g].at.k].tunnel {
        assert TendsAt(s', g, c, t);
      } else {
        StillTended(s, s', g, c, t);
      }
    }
  }

  /** A tunnel with one more connection is not idle. */
  lemma NoneStrandedDial(s: State, g: Gid, k: ConnId)
    requires NoneStranded(s) && Counted(s) && CanDialOk(s, g, k)
    ensures NoneStranded(DoDialOk(s, g, k))
  {
    var s' := DoDialOk(s, g, k);
    forall c | Idle(s', c) ensures Tended(s', c, s'.pool.tunnels[c]) {
      StillTended(s, s', g, c, s.pool.tunnels[c]);
    }
  }

  lemma NoneStrandedForwarder(s: State, step: UseStep)
    requires NoneStranded(s) && CanUse(s, step) && (step.ForwarderExit? || step.Monitor?)
    ensures NoneStranded(DoUse(s, step))
  {
    var s' := DoUse(s, step);
    forall c | Idle(s', c) ensures Tended(s', c, s'.pool.tunnels[c]) {
      StillTended(s, s', 0, c, s.pool.tunnels[c]);
    }
  }

  lemma NoneStrandedSchedule(s: State, g: Gid, tm: TimerId)
    requires NoneStranded(s) && CanSchedule(s, g, tm)
    ensures NoneStranded(DoSchedule(s, g, tm))
  {
    var s' := DoSchedule(s, g, tm);
    forall c | Idle(s', c) ensures Tended(s', c, s'.pool.tunnels[c]) {
      StillTended(s, s', g, c, s.pool.tunnels[c]);
    }
  }

  lemma NoneStrandedUse(s: State, step: UseStep)
    requires NoneStranded(s) && Makers(s) && Counted(s) && CanUse(s, step)
    ensures NoneStranded(DoUse(s, step))
  {
    if step.Release? {
      NoneStrandedRelease(s, step.g);
    } else if step.ForwarderExit? || step.Monitor? {
      NoneStrandedForwarder(s, step);
    } else if step.DialOk? {
      NoneStrandedDial(s, step.g, step.k);
    } else if step.Schedule? {
      NoneStrandedSchedule(s, step.g, step.tm);
    } else {
      var s' := DoUse(s, step);
      forall c | Idle(s', c) ensures Tended(s', c, s'.pool.tunnels[c]) {
        StillTended(s, s', step.g, c, s.pool.tunnels[c]);
      }
    }
  }

  lemma NoneStrandedDrop(s: State, step: DropStep)
    requires NoneStranded(s) && Sections(s) && CanDrop(s, step)
    ensures NoneStranded(DoDrop(s, step))
  {
    var s' := DoDrop(s, step);
    forall c | Idle(s', c) ensures Tended(s', c, s'.pool.tunnels[c]) {
      StillTended(s, s', step.g, c, s.pool.tunnels[c]);
    }
  }
}
