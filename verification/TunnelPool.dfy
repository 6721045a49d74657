/**
The pool, its tunnels and its tracked connections as objects.  Every method is one critical
section, or the sequence of sections that one goroutine performs.  What a section does to the
three maps is given by the functions of `PoolSections`, which the concurrent protocol also uses.
*/
module TunnelPool {
  import opened Options
  import opened PoolSections

  /** The port-forward may not come into being, break before it is usable, or listen on a local port. */
  datatype Forward = NotCreated | Broken | Listening(port: nat)

  /** What the cluster answers to `Establish`: a REST config, the pod behind the service, the port-forward. */
  datatype Network = Network(config: bool, pod: Option<string>, forward: Forward)

  /** The establishment gets as far as starting the port-forward. */
  predicate Reached(net: Network) {
    net.config && net.pod.Some?
  }

  predicate Listens(net: Network) {
    Reached(net) && net.forward.Listening?
  }

  /** What a look-up depends on: an open tunnel under the name and its port, and whether somebody establishes. */
  datatype Entry = Entry(open: bool, port: nat, busy: bool)

  /** The port of the tunnel to be had: the open one, else that of whoever is busy and finishes, else a new one. */
  function PortFor(e: Entry, net: Network, rival: Option<Network>): Option<nat> {
    if e.open then Some(e.port)
    else if e.busy && rival.None? then None
    else if e.busy && Listens(rival.value) then Some(rival.value.forward.port)
    else if Listens(net) then Some(net.forward.port)
    else None
  }

  /** Which tunnel is had: the open one; that of a rival who succeeds; or a new one, if there is no rival or it has failed. */
  lemma PortExactly(e: Entry, net: Network, rival: Option<Network>, port: nat)
    ensures PortFor(e, net, rival) == Some(port) <==>
      (e.open && port == e.port) ||
      (!e.open && e.busy && rival.Some? && Listens(rival.value) && port == rival.value.forward.port) ||
      (!e.open && (e.busy ==> rival.Some? && !Listens(rival.value)) && Listens(net) && port == net.forward.port)
  {
  }

  /** The look-up waits, and the wait ends with the other establishment. */
  predicate Retries(e: Entry, rival: Option<Network>) {
    !e.open && e.busy && rival.Some?
  }

  class Tunnel {
    const clusterName: Cluster
    var closed: bool
    var stopCloses: nat
    var localPort: nat
    var podName: string
    var activeConns: int

    constructor (clusterName: Cluster)
      ensures this.clusterName == clusterName
      ensures Valid() && !closed && localPort == 0 && activeConns == 0
    {
      this.clusterName := clusterName;
      closed, stopCloses, localPort, podName, activeConns := false, 0, 0, "", 0;
    }

    /** The stop channel has been closed exactly when the tunnel is, and once. */
    predicate Valid() reads this {
      stopCloses == if closed then 1 else 0
    }

    /** Idempotent: `close(stopChan)` runs on the first call only. */
    method MarkClosedLocked()
      requires Valid()
      modifies this`closed, this`stopCloses
      ensures Valid() && closed
      ensures old(closed) ==> unchanged(this)
    {
      if closed {
        return;
      }
      closed := true;
      stopCloses := stopCloses + 1;
    }

    /** Only a port-forward that was started and then broke closes the tunnel. */
    method Establish(net: Network) returns (ok: bool)
      requires Valid()
      modifies this`closed, this`stopCloses, this`localPort, this`podName
      ensures Valid()
      ensures ok <==> !old(closed) && Listens(net)
      ensures closed <==> old(closed) || (Reached(net) && net.forward.Broken?)
      ensures localPort == if ok then net.forward.port else old(localPort)
      ensures podName == if !old(closed) && Reached(net) then net.pod.value else old(podName)
    {
      if closed || !net.config || net.pod.None? {
        return false;
      }
      podName := net.pod.value;
      match net.forward
      case NotCreated => ok := false;
      case Broken =>
        MarkClosedLocked();
        ok := false;
      case Listening(port) =>
        localPort := port;
        ok := true;
    }

    /** A closed or unready tunnel is refused before the network decides in `dialled`. */
    method Dial(dialled: bool) returns (conn: Option<TrackedConn>)
      modifies this`activeConns
      ensures conn.Some? <==> !closed && localPort != 0 && dialled
      ensures conn.Some? ==> fresh(conn.value) && conn.value.tunnel == this && !conn.value.released
      ensures activeConns == old(activeConns) + if conn.Some? then 1 else 0
    {
      conn := None;
      if closed || localPort == 0 || !dialled {
        return;
      }
      activeConns := activeConns + 1;
      var k := new TrackedConn(this);
      conn := Some(k);
    }

    /** Reports whether the count dropped to zero, which is when `onIdle` is called. */
    method ReleaseConn() returns (idle: bool)
      modifies this`activeConns
      ensures activeConns == old(activeConns) - 1
      ensures idle <==> activeConns == 0
    {
      activeConns := activeConns - 1;
      idle := activeConns == 0;
    }
  }

  class Timer {
    var stopped: bool

    constructor ()
      ensures !stopped
    {
      stopped := false;
    }
  }

  class Notify {
    var closes: nat

    constructor ()
      ensures closes == 0
    {
      closes := 0;
    }
  }

  class TrackedConn {
    const tunnel: Tunnel
    var released: bool

    constructor (tunnel: Tunnel)
      ensures this.tunnel == tunnel && !released
    {
      this.tunnel, released := tunnel, false;
    }

    /** Gives the reference back on the first call only; the drop to zero arms the idle timer. */
    method Close(pool: Pool)
      requires pool.Valid()
      modifies this`released, tunnel`activeConns, pool`idleTimers, pool.TimerOf(tunnel.clusterName)
      ensures pool.Valid() && released
      ensures tunnel.activeConns == old(tunnel.activeConns) - if old(released) then 0 else 1
      ensures
        if !old(released) && tunnel.activeConns == 0
        then pool.Scheduled(old(pool.View()), tunnel.clusterName) && fresh(pool.idleTimers[tunnel.clusterName])
        else pool.View() == old(pool.View())
      ensures pool.idleTimers - {tunnel.clusterName} == old(pool.idleTimers) - {tunnel.clusterName}
      ensures !old(released) && tunnel.activeConns == 0 && tunnel.clusterName in old(pool.idleTimers) ==>
        old(pool.idleTimers[tunnel.clusterName]).stopped
    {
      if !released {
        released := true;
        var idle := tunnel.ReleaseConn();
        if idle {
          pool.ScheduleIdleClose(tunnel.clusterName);
        }
      }
    }
  }

  class Pool {
    var tunnels: map<Cluster, Tunnel>
    var idleTimers: map<Cluster, Timer>
    var establishing: map<Cluster, Notify>

    constructor ()
      ensures Valid() && View() == Maps(map[], map[], map[])
    {
      tunnels, idleTimers, establishing := map[], map[], map[];
    }

    ghost predicate Valid() reads this, tunnels.Values {
      forall c | c in tunnels :: tunnels[c].clusterName == c && tunnels[c].Valid()
    }

    /** The tunnel and the timer under `c`, if any. */
    function Stored(c: Cluster): set<Tunnel> reads this {
      if c in tunnels then {tunnels[c]} else {}
    }

    function TimerOf(c: Cluster): set<Timer> reads this {
      if c in idleTimers then {idleTimers[c]} else {}
    }

    /** The channel that a request for `c` would wait on, if any. */
    function Waits(c: Cluster): set<Notify> reads this {
      if c in establishing then {establishing[c]} else {}
    }

    /** The fast path is open to `c`. */
    predicate Open(c: Cluster) reads this, tunnels.Values {
      c in tunnels && !tunnels[c].closed
    }

    /** The tunnel stored under `c` is idle and no timer of the name runs. */
    predicate Forgotten(c: Cluster) reads this, tunnels.Values, idleTimers.Values {
      c in tunnels && tunnels[c].activeConns == 0 && (c !in idleTimers || idleTimers[c].stopped)
    }

    function Look(c: Cluster): Entry reads this, tunnels.Values {
      Entry(Open(c), if Open(c) then tunnels[c].localPort else 0, c in establishing)
    }

    function View(): Maps<Tunnel, Timer, Notify> reads this {
      Maps(tunnels, idleTimers, establishing)
    }

    method CancelIdleTimerLocked(c: Cluster)
      modifies this`idleTimers, TimerOf(c)
      ensures idleTimers == old(idleTimers) - {c} && View() == ForgetTimer(old(View()), c)
      ensures c in old(idleTimers) ==> old(idleTimers[c]).stopped
    {
      if c !in idleTimers {
        return;
      }
      idleTimers[c].stopped := true;
      idleTimers := idleTimers - {c};
    }

    /** The pool is `m` with a running timer for `c`. */
    ghost predicate Scheduled(m: Maps<Tunnel, Timer, Notify>, c: Cluster) reads this, idleTimers.Values {
      c in idleTimers && !idleTimers[c].stopped && View() == ScheduleSection(m, c, idleTimers[c])
    }

    method ScheduleIdleClose(c: Cluster)
      requires Valid()
      modifies this`idleTimers, TimerOf(c)
      ensures Valid() && Scheduled(old(View()), c) && fresh(idleTimers[c])
      ensures c in old(idleTimers) ==> old(idleTimers[c]).stopped
    {
      CancelIdleTimerLocked(c);
      var t := new Timer();
      idleTimers := idleTimers[c := t];
    }

    method CleanUpStale(c: Cluster)
      requires Valid() && c in tunnels && tunnels[c].closed
      modifies this`tunnels, this`idleTimers, tunnels[c], TimerOf(c)
      ensures Valid() && View() == RemoveSection(old(View()), c) && unchanged(old(tunnels[c]))
      ensures c in old(idleTimers) ==> old(idleTimers[c]).stopped
    {
      CancelIdleTimerLocked(c);
      tunnels[c].MarkClosedLocked();
      tunnels := tunnels - {c};
    }

    /** The section of `GetOrCreateTunnel`: reuse an open tunnel, clean up a closed one, wait or register. */
    method LookUp(c: Cluster) returns (got: GetResult<Tunnel, Notify>)
      requires Valid()
      modifies this, Stored(c), TimerOf(c)
      ensures Valid()
      ensures GetSection(old(View()), c, old(c in tunnels && !tunnels[c].closed), View(), got)
      ensures got.Found? ==> c in old(tunnels) && got.tunnel == old(tunnels[c]) && !got.tunnel.closed
      ensures got.New? ==>
        fresh(got.tunnel) && got.tunnel.Valid() && got.tunnel.clusterName == c && !got.tunnel.closed &&
        got.tunnel.activeConns == 0 && got.tunnel.localPort == 0 && fresh(got.notify) && got.notify.closes == 0
      ensures c in old(tunnels) ==> unchanged(old(tunnels[c]))
      ensures got.Found? <==> old(Open(c))
      ensures !got.Found? ==> (got.Await? <==> c in old(establishing))
      ensures tunnels == if got.Found? then old(tunnels) else old(tunnels) - {c}
      ensures establishing == if got.New? then old(establishing)[c := got.notify] else old(establishing)
      ensures idleTimers == if c in old(tunnels) then old(idleTimers) - {c} else old(idleTimers)
      ensures c in old(idleTimers) && c !in idleTimers ==> old(idleTimers[c]).stopped
    {
      if c in tunnels && !tunnels[c].closed {
        CancelIdleTimerLocked(c);
        return Found(tunnels[c]);
      }
      if c in tunnels {
        CleanUpStale(c);
      }
      if c in establishing {
        return Await(establishing[c]);
      }
      var n := new Notify();
      establishing := establishing[c := n];
      var t := new Tunnel(c);
      got := New(t, n);
    }

    /** The second section of `doEstablish`. */
    method Publish(c: Cluster, t: Tunnel, n: Notify, ok: bool)
      requires Valid() && t.Valid() && t.clusterName == c
      modifies this`tunnels, this`establishing, n
      ensures Valid() && View() == PublishSection(old(View()), c, t, ok)
      ensures n.closes == old(n.closes) + 1
      ensures tunnels == if ok then old(tunnels)[c := t] else old(tunnels)
    {
      establishing := establishing - {c};
      n.closes := n.closes + 1;
      if ok {
        tunnels := tunnels[c := t];
      }
    }

    /** Establish outside the mutex, then publish. */
    method DoEstablish(c: Cluster, t: Tunnel, n: Notify, net: Network) returns (ok: bool)
      requires Valid() && t.Valid() && t.clusterName == c && t !in tunnels.Values && !t.closed && t.localPort == 0
      modifies this`tunnels, this`establishing, n, t`closed, t`stopCloses, t`localPort, t`podName
      ensures Valid() && t.Valid() && establishing == old(establishing) - {c} && n.closes == old(n.closes) + 1
      ensures ok <==> Listens(net)
      ensures tunnels == if ok then old(tunnels)[c := t] else old(tunnels)
      ensures if ok then !t.closed && t.localPort == net.forward.port else t.localPort == 0
    {
      ok := t.Establish(net);
      Publish(c, t, n, ok);
    }

    /** One round of the loop in `GetOrCreateTunnel`, up to the wait. */
    method LookUpOrEstablish(c: Cluster, net: Network)
      returns (got: Option<Tunnel>, waits: bool, ghost made: set<Tunnel>)
      requires Valid()
      modifies this, Stored(c), TimerOf(c)
      ensures Valid() && establishing == old(establishing) && (waits <==> !old(Open(c)) && c in establishing)
      ensures idleTimers == if c in old(tunnels) then old(idleTimers) - {c} else old(idleTimers)
      ensures c in old(idleTimers) && c !in idleTimers ==> old(idleTimers[c]).stopped
      ensures c in old(tunnels) ==> unchanged(old(tunnels[c]))
      ensures fresh(made) && forall t | t in made :: t.Valid() && t.activeConns == 0
      ensures got.Some? <==> old(Open(c)) || (c !in establishing && Listens(net))
      ensures got.Some? ==> tunnels == old(tunnels)[c := got.value] && !got.value.closed
      ensures got.Some? && old(Open(c)) ==> made == {} && got.value == old(tunnels[c])
      ensures got.Some? && !old(Open(c)) ==> made == {got.value} && got.value.localPort == net.forward.port
      ensures got.None? ==> tunnels == old(tunnels) - {c} && forall t | t in made :: t.localPort == 0
    {
      var look := LookUp(c);
      waits := look.Await?;
      match look
      case Found(t) => got, made := Some(t), {};
      case Await(_) => got, made := None, {};
      case New(t, n) =>
        var ok := DoEstablish(c, t, n, net);
        got, made := if ok then Some(t) else None, {t};
    }

    /** The goroutine that establishes for `c` comes to its end; its tunnel is known to nobody else before. */
    method FinishRival(c: Cluster, net: Network) returns (ghost t: Tunnel)
      requires Valid() && c in establishing && c !in tunnels
      modifies this`tunnels, this`establishing, establishing[c]
      ensures Valid() && establishing == old(establishing) - {c}
      ensures old(establishing[c]).closes == old(establishing[c].closes) + 1
      ensures fresh(t) && t.Valid() && t.activeConns == 0
      ensures tunnels == if Listens(net) then old(tunnels)[c := t] else old(tunnels)
      ensures if Listens(net) then !t.closed && t.localPort == net.forward.port else t.localPort == 0
    {
      var rival := new Tunnel(c);
      var _ := DoEstablish(c, rival, establishing[c], net);
      t := rival;
    }

    /** The wait and the round after it: what the other goroutine stored is found, or it is this one's turn. */
    method WaitAndRetry(c: Cluster, net: Network, rival: Network) returns (got: Option<Tunnel>, ghost made: set<Tunnel>)
      requires Valid() && c in establishing && c !in tunnels
      modifies this, TimerOf(c), establishing[c]
      ensures Valid() && establishing == old(establishing) - {c}
      ensures old(establishing[c]).closes == old(establishing[c].closes) + 1
      ensures idleTimers == if Listens(rival) then old(idleTimers) - {c} else old(idleTimers)
      ensures c in old(idleTimers) && c !in idleTimers ==> old(idleTimers[c]).stopped
      ensures fresh(made) && forall t | t in made :: t.Valid() && t.activeConns == 0
      ensures forall t | t in made && got != Some(t) :: t.localPort == 0
      ensures got.Some? <==> Listens(rival) || Listens(net)
      ensures got.Some? ==> tunnels == old(tunnels)[c := got.value] && !got.value.closed && got.value in made
      ensures got.Some? ==> got.value.localPort == (if Listens(rival) then rival else net).forward.port
      ensures got.None? ==> tunnels == old(tunnels) - {c}
    {
      ghost var t := FinishRival(c, rival);
      Overwritten(old(tunnels), c, t);
      ghost var more;
      var waits;
      got, waits, more := LookUpOrEstablish(c, net);
      made := {t} + more;
      if got.Some? {
        Overwritten(old(tunnels)[c := t], c, got.value);
      }
    }

    /** A tunnel is found under the name, at once or after the wait, so its timer is cancelled. */
    predicate Cancels(c: Cluster, rival: Option<Network>) reads this, tunnels.Values {
      c in tunnels || (Retries(Look(c), rival) && Listens(rival.value))
    }

    /**
    One goroutine's way through `GetOrCreateTunnel`.  If it has to wait, the other establishment ends as
    `rival` says and it tries again, or its context ends first.  `made` holds the tunnels created meanwhile.
    */
    method GetOrCreateTunnel(c: Cluster, net: Network, rival: Option<Network>)
      returns (got: Option<Tunnel>, ghost made: set<Tunnel>)
      requires Valid()
      modifies this, Stored(c), TimerOf(c), Waits(c)
      ensures Valid()
      ensures establishing == if Retries(old(Look(c)), rival) then old(establishing) - {c} else old(establishing)
      ensures c in old(establishing) ==>
        old(establishing[c]).closes == old(establishing[c].closes) + if Retries(old(Look(c)), rival) then 1 else 0
      ensures idleTimers == if old(Cancels(c, rival)) then old(idleTimers) - {c} else old(idleTimers)
      ensures c in old(idleTimers) && c !in idleTimers ==> old(idleTimers[c]).stopped
      ensures c in old(tunnels) ==> unchanged(old(tunnels[c]))
      ensures fresh(made) && forall t | t in made :: t.Valid() && t.activeConns == 0
      ensures forall t | t in made && got != Some(t) :: t.localPort == 0
      ensures got.Some? <==> PortFor(old(Look(c)), net, rival).Some?
      ensures got.Some? ==> tunnels == old(tunnels)[c := got.value] && !got.value.closed
      ensures got.Some? ==> got.value.localPort == PortFor(old(Look(c)), net, rival).value
      ensures got.Some? ==> got.value in if old(Open(c)) then old(Stored(c)) else made
      ensures got.None? ==> tunnels == old(tunnels) - {c}
    {
      var waits;
      got, waits, made := LookUpOrEstablish(c, net);
      if waits && rival.Some? {
        got, made := WaitAndRetry(c, net, rival.value);
        RemovedTwice(old(tunnels), c);
        RemovedTwice(old(idleTimers), c);
        if got.Some? {
          Overwritten(old(tunnels), c, got.value);
        }
      }
    }

    /** Closes and removes whatever is stored under the name. */
    method RemoveTunnel(c: Cluster)
      requires Valid()
      modifies this`tunnels, this`idleTimers, Stored(c)`closed, Stored(c)`stopCloses, TimerOf(c)
      ensures Valid() && View() == RemoveSection(old(View()), c)
      ensures tunnels == old(tunnels) - {c} && idleTimers == old(idleTimers) - {c}
      ensures c in old(tunnels) ==> old(tunnels[c]).closed && old(tunnels[c]).Valid()
      ensures c in old(idleTimers) ==> old(idleTimers[c]).stopped
    {
      CancelIdleTimerLocked(c);
      if c !in tunnels {
        return;
      }
      tunnels[c].MarkClosedLocked();
      tunnels := tunnels - {c};
    }

    /** The timer callback: a tunnel in use stays, and any timer entry of the name is forgotten. */
    method CloseIdleTunnel(c: Cluster)
      requires Valid()
      modifies this`tunnels, this`idleTimers, Stored(c)
      ensures Valid() && idleTimers == old(idleTimers) - {c}
      ensures var drop := old(c in tunnels && tunnels[c].activeConns <= 0);
        View() == (if drop then RemoveSection(old(View()), c) else ForgetTimer(old(View()), c)) &&
        (drop ==> old(tunnels[c]).closed) &&
        (!drop && c in old(tunnels) ==> unchanged(old(tunnels[c])))
    {
      idleTimers := idleTimers - {c};
      if c !in tunnels {
        return;
      }
      if tunnels[c].activeConns > 0 {
        return;
      }
      tunnels[c].MarkClosedLocked();
      tunnels := tunnels - {c};
    }

    method StopAllTimers()
      modifies this`idleTimers, idleTimers.Values
      ensures idleTimers == map[] && forall x | x in old(idleTimers.Values) :: x.stopped
    {
      var names := idleTimers.Keys;
      while names != {}
        invariant names <= idleTimers.Keys
        invariant forall c | c in idleTimers && c !in names :: idleTimers[c].stopped
        modifies idleTimers.Values
      {
        var c :| c in names;
        idleTimers[c].stopped := true;
        names := names - {c};
      }
      idleTimers := map[];
    }

    /** Stops every timer and closes every tunnel, in any order; an establishment in flight is not touched. */
    method CloseAll()
      requires Valid()
      modifies this`tunnels, this`idleTimers, tunnels.Values`closed, tunnels.Values`stopCloses, idleTimers.Values
      ensures Valid() && View() == Maps(map[], map[], old(establishing))
      ensures forall t | t in old(tunnels.Values) :: t.closed && t.Valid()
      ensures forall x | x in old(idleTimers.Values) :: x.stopped
    {
      StopAllTimers();
      var names := tunnels.Keys;
      while names != {}
        invariant names <= tunnels.Keys && Valid()
        invariant forall c | c in tunnels && c !in names :: tunnels[c].closed
        modifies tunnels.Values`closed, tunnels.Values`stopCloses
      {
        var c :| c in names;
        tunnels[c].MarkClosedLocked();
        names := names - {c};
      }
      tunnels := map[];
    }
  }
}
