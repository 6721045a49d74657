/**
The request path over the pool: a bounded retry loop that gives back every connection it does not
return.  One goroutine runs; an establishment it waits for may end, and else the others stand still.
All that they can do in between is in `PoolMachine`.
*/
module ConnectHandler {
  import opened Options
  import opened PoolSections
  import opened TunnelPool

  /**
  What the world answers in one attempt: how another establishment ends that is waited for, if it does, and
  then to the own establishment, to the dial and to the CONNECT handshake.
  */
  datatype Round = Round(rival: Option<Network>, net: Network, dialled: bool, handshake: bool)

  /** There is a tunnel to be had, it listens, and it can be dialled. */
  predicate Dials(e: Entry, w: Round) {
    w.dialled && PortFor(e, w.net, w.rival).Some? && PortFor(e, w.net, w.rival).value != 0
  }

  /** The attempt succeeds. */
  predicate Works(e: Entry, w: Round) {
    Dials(e, w) && w.handshake
  }

  /** An attempt succeeds exactly if a listening tunnel is to be had, is dialled, and answers the handshake. */
  lemma WorksExactly(e: Entry, w: Round)
    ensures Works(e, w) <==> w.dialled && w.handshake && exists port :: port != 0 && PortFor(e, w.net, w.rival) == Some(port)
  {
  }

  /** A failed attempt leaves nothing stored; whoever was busy is done if the attempt saw the end of it. */
  function AfterFailure(e: Entry, w: Round): Entry {
    Entry(false, 0, e.busy && !Retries(e, w.rival))
  }

  function Before(e: Entry, rounds: seq<Round>, i: nat): Entry
    requires i <= |rounds|
  {
    if i == 0 then e else AfterFailure(Before(e, rounds, i - 1), rounds[i - 1])
  }

  /** Round `i` works, if all before it failed. */
  predicate RoundWorks(e: Entry, rounds: seq<Round>, i: nat)
    requires i < |rounds|
  {
    Works(Before(e, rounds, i), rounds[i])
  }

  predicate NoneWorks(e: Entry, rounds: seq<Round>, n: int)
    requires n <= |rounds|
  {
    forall i | 0 <= i < n :: !RoundWorks(e, rounds, i)
  }

  /** After `n` rounds the first that works has been found, or none of them works. */
  predicate Tried(e: Entry, rounds: seq<Round>, n: nat, found: bool) {
    n <= |rounds| &&
    if found then 0 < n && NoneWorks(e, rounds, n - 1) && RoundWorks(e, rounds, n - 1) else NoneWorks(e, rounds, n)
  }

  /** References through `t` that the caller still holds. */
  function Held(conn: Option<TrackedConn>, t: Tunnel): nat {
    if conn.Some? && conn.value.tunnel == t then 1 else 0
  }

  /** Of the tunnels made, those not in `kept` have no reference and are closed or never listened. */
  predicate Dropped(made: set<Tunnel>, kept: set<Tunnel>)
    reads made
  {
    forall t | t in made && t !in kept :: t.activeConns == 0 && (t.closed || t.localPort == 0)
  }

  /** How taking over the client connection ends: it may not be supported, fail, or be piped. */
  datatype Hijack = Unsupported | Broken | Piped

  function HijackStatus(hijack: Hijack): Option<nat> {
    match hijack case Unsupported => Some(500) case Broken => None case Piped => Some(200)
  }

  class Handler {
    const maxRetries: int
    const pool: Pool

    constructor (pool: Pool, maxRetries: int)
      ensures this.pool == pool && this.maxRetries == maxRetries
    {
      this.pool, this.maxRetries := pool, maxRetries;
    }

    /** `handleDialFailure` and, with a connection, `handleHandshakeFailure`. */
    method HandleFailure(c: Cluster, conn: Option<TrackedConn>)
      requires pool.Valid()
      requires conn.Some? ==> !conn.value.released && conn.value.tunnel.clusterName == c
      modifies pool`tunnels, pool`idleTimers, pool.Stored(c)`closed, pool.Stored(c)`stopCloses, pool.TimerOf(c)
      modifies if conn.Some? then {conn.value} else {}, (if conn.Some? then {conn.value.tunnel} else {})`activeConns
      ensures pool.Valid() && pool.tunnels == old(pool.tunnels) - {c} && pool.idleTimers == old(pool.idleTimers) - {c}
      ensures forall x | x in old(pool.TimerOf(c)) :: x.stopped
      ensures c in old(pool.tunnels) ==> old(pool.tunnels[c]).closed
      ensures conn.Some? ==> conn.value.released && conn.value.tunnel.activeConns == old(conn.value.tunnel.activeConns) - 1
    {
      if conn.Some? {
        conn.value.Close(pool);
      }
      pool.RemoveTunnel(c);
    }

    /** Get a tunnel and dial it; `made` holds the tunnels created meanwhile, of which one may be stored now. */
    method DialTunnelOnce(c: Cluster, w: Round) returns (conn: Option<TrackedConn>, ghost made: set<Tunnel>)
      requires pool.Valid()
      modifies pool, pool.Stored(c), pool.TimerOf(c), pool.Waits(c)
      ensures pool.Valid() && pool.tunnels - {c} == old(pool.tunnels) - {c}
      ensures conn.Some? <==> Dials(old(pool.Look(c)), w)
      ensures conn.Some? ==> fresh(conn.value) && !conn.value.released && pool.Stored(c) == {conn.value.tunnel}
      ensures if old(pool.Open(c)) then pool.Stored(c) == old(pool.Stored(c)) else pool.Stored(c) <= made
      ensures c in pool.establishing <==> AfterFailure(old(pool.Look(c)), w).busy
      ensures pool.establishing == old(pool.establishing) || pool.establishing == old(pool.establishing) - {c}
      ensures pool.idleTimers == old(pool.idleTimers) || pool.idleTimers == old(pool.idleTimers) - {c}
      ensures c in old(pool.tunnels) ==>
        old(pool.tunnels[c]).closed == old(pool.tunnels[c].closed) &&
        old(pool.tunnels[c]).activeConns == old(pool.tunnels[c].activeConns) + Held(conn, old(pool.tunnels[c]))
      ensures fresh(made) && Dropped(made, pool.Stored(c))
      ensures forall t | t in pool.Stored(c) * made :: t.activeConns == Held(conn, t)
    {
      var tunnel;
      tunnel, made := pool.GetOrCreateTunnel(c, w.net, w.rival);
      RemovedTwice(old(pool.tunnels), c);
      conn := None;
      if tunnel.Some? {
        Overwritten(old(pool.tunnels), c, tunnel.value);
        conn := tunnel.value.Dial(w.dialled);
      }
    }

    /** The failure of a round that leaves a tunnel stored, possibly with the connection that failed. */
    method GiveUp(c: Cluster, conn: Option<TrackedConn>, ghost made: set<Tunnel>)
      requires pool.Valid() && Dropped(made, pool.Stored(c))
      requires conn.Some? ==> !conn.value.released && pool.Stored(c) == {conn.value.tunnel}
      requires forall t | t in pool.Stored(c) * made :: t.activeConns == Held(conn, t)
      modifies pool`tunnels, pool`idleTimers, pool.Stored(c), pool.TimerOf(c), if conn.Some? then {conn.value} else {}
      ensures pool.Valid() && pool.tunnels == old(pool.tunnels) - {c} && pool.idleTimers == old(pool.idleTimers) - {c}
      ensures forall x | x in old(pool.TimerOf(c)) :: x.stopped
      ensures c in old(pool.tunnels) ==>
        old(pool.tunnels[c]).closed &&
        old(pool.tunnels[c]).activeConns == old(pool.tunnels[c].activeConns) - Held(conn, old(pool.tunnels[c]))
      ensures Dropped(made, {})
    {
      ghost var kept := pool.Stored(c);
      assert conn.Some? ==> conn.value.tunnel in kept;
      HandleFailure(c, conn);
      assert Dropped(made, kept);
    }

    /** One round of the loop: dial, shake hands, and on a failure remove what the name stores. */
    method Attempt(c: Cluster, w: Round) returns (conn: Option<TrackedConn>, ghost made: set<Tunnel>)
      requires pool.Valid()
      modifies pool, pool.Stored(c), pool.TimerOf(c), pool.Waits(c)
      ensures pool.Valid()
      ensures conn.Some? <==> Works(old(pool.Look(c)), w)
      ensures conn.None? ==> pool.Look(c) == AfterFailure(old(pool.Look(c)), w)
      ensures conn.Some? ==> fresh(conn.value) && !conn.value.released
      ensures pool.tunnels == if conn.Some? then old(pool.tunnels)[c := conn.value.tunnel] else old(pool.tunnels) - {c}
      ensures conn.Some? ==> conn.value.tunnel in (if old(pool.Open(c)) then old(pool.Stored(c)) else made)
      ensures conn.None? ==> c in old(pool.tunnels) ==> old(pool.tunnels[c]).closed
      ensures pool.establishing == old(pool.establishing) || pool.establishing == old(pool.establishing) - {c}
      ensures pool.idleTimers == old(pool.idleTimers) - {c} || (conn.Some? && pool.idleTimers == old(pool.idleTimers))
      ensures c in old(pool.tunnels) ==>
        old(pool.tunnels[c]).activeConns == old(pool.tunnels[c].activeConns) + Held(conn, old(pool.tunnels[c]))
      ensures fresh(made) && Dropped(made, pool.Stored(c))
      ensures conn.Some? && conn.value.tunnel in made ==> conn.value.tunnel.activeConns == 1
    {
      conn, made := DialTunnelOnce(c, w);
      if conn.None? || !w.handshake {
        RemovedTwice(old(pool.idleTimers), c);
        GiveUp(c, conn, made);
        conn := None;
      } else {
        PutBack(pool.tunnels, old(pool.tunnels), c);
      }
    }

    /**
    Tries at most `maxRetries` times and stops at the first round that works.  It leaves exactly one
    reference, through the tunnel now stored, or none at all, however the attempts fail.
    */
    method DialTunnel(c: Cluster, rounds: seq<Round>)
      returns (conn: Option<TrackedConn>, attempts: nat, ghost made: set<Tunnel>)
      requires pool.Valid() && maxRetries <= |rounds|
      modifies pool, pool.Stored(c), pool.TimerOf(c), pool.Waits(c)
      ensures pool.Valid()
      ensures attempts <= if maxRetries < 0 then 0 else maxRetries
      ensures conn.None? ==> attempts == if maxRetries < 0 then 0 else maxRetries
      ensures Tried(old(pool.Look(c)), rounds, attempts, conn.Some?)
      ensures conn.Some? ==> fresh(conn.value) && !conn.value.released
      ensures pool.tunnels ==
        if conn.Some? then old(pool.tunnels)[c := conn.value.tunnel]
        else if attempts == 0 then old(pool.tunnels) else old(pool.tunnels) - {c}
      ensures conn.Some? ==> conn.value.tunnel in old(pool.Stored(c)) + made
      ensures pool.establishing == old(pool.establishing) || pool.establishing == old(pool.establishing) - {c}
      ensures pool.idleTimers == old(pool.idleTimers) || pool.idleTimers == old(pool.idleTimers) - {c}
      ensures c in old(pool.tunnels) ==>
        old(pool.tunnels[c]).activeConns == old(pool.tunnels[c].activeConns) + Held(conn, old(pool.tunnels[c]))
      ensures fresh(made) && Dropped(made, pool.Stored(c))
      ensures conn.Some? && conn.value.tunnel in made ==> conn.value.tunnel.activeConns == 1
    {
      conn, attempts, made := None, 0, {};
      ghost var e := pool.Look(c);
      while conn.None? && attempts < maxRetries
        invariant attempts <= if maxRetries < 0 then 0 else maxRetries
        invariant pool.Valid()
        invariant Tried(e, rounds, attempts, conn.Some?)
        invariant conn.None? ==> pool.Look(c) == Before(e, rounds, attempts)
        invariant conn.Some? ==> fresh(conn.value) && !conn.value.released && 0 < attempts
        invariant pool.tunnels ==
          if conn.Some? then old(pool.tunnels)[c := conn.value.tunnel]
          else if attempts == 0 then old(pool.tunnels) else old(pool.tunnels) - {c}
        invariant conn.Some? ==> conn.value.tunnel in old(pool.Stored(c)) + made
        invariant pool.establishing == old(pool.establishing) || pool.establishing == old(pool.establishing) - {c}
        invariant pool.idleTimers == old(pool.idleTimers) || pool.idleTimers == old(pool.idleTimers) - {c}
        invariant c in old(pool.tunnels) ==>
          old(pool.tunnels[c]).activeConns == old(pool.tunnels[c].activeConns) + Held(conn, old(pool.tunnels[c]))
        invariant fresh(made) && Dropped(made, pool.Stored(c))
        invariant conn.Some? && conn.value.tunnel in made ==> conn.value.tunnel.activeConns == 1
      {
        ghost var more;
        conn, more := Attempt(c, rounds[attempts]);
        made := made + more;
        RemovedTwice(old(pool.tunnels), c);
        RemovedTwice(old(pool.idleTimers), c);
        RemovedTwice(old(pool.establishing), c);
        if conn.Some? {
          Overwritten(old(pool.tunnels), c, conn.value.tunnel);
        }
        attempts := attempts + 1;
      }
    }

    /** A routed target: what `DialTunnel` returns is closed again after the hijack. */
    method ServeRouted(c: Cluster, rounds: seq<Round>, hijack: Hijack) returns (status: Option<nat>, ghost made: set<Tunnel>)
      requires pool.Valid() && maxRetries <= |rounds|
      modifies pool, pool.Stored(c), pool.TimerOf(c), pool.Waits(c)
      ensures pool.Valid()
      ensures pool.establishing == old(pool.establishing) || pool.establishing == old(pool.establishing) - {c}
      ensures pool.tunnels - {c} == old(pool.tunnels) - {c} && pool.idleTimers - {c} == old(pool.idleTimers) - {c}
      ensures c in old(pool.tunnels) ==> old(pool.tunnels[c]).activeConns == old(pool.tunnels[c].activeConns)
      ensures fresh(made) && Dropped(made, pool.Stored(c)) && forall t | t in made :: t.activeConns == 0
      ensures status == if NoneWorks(old(pool.Look(c)), rounds, maxRetries) then Some(502) else HijackStatus(hijack)
      ensures !NoneWorks(old(pool.Look(c)), rounds, maxRetries) ==> c in pool.tunnels && !pool.Forgotten(c)
    {
      var conn, attempts;
      conn, attempts, made := DialTunnel(c, rounds);
      RemovedTwice(old(pool.tunnels), c);
      RemovedTwice(old(pool.idleTimers), c);
      if conn.None? {
        return Some(502), made;
      }
      Overwritten(old(pool.tunnels), c, conn.value.tunnel);
      assert pool.tunnels[c] == conn.value.tunnel;
      conn.value.Close(pool);
      status := HijackStatus(hijack);
    }

    /**
    `route` is the cluster whose CIDR holds the target, if any; `direct` says whether a direct dial
    succeeds.  Whatever happens, no connection through a tunnel is outstanding at the end, other clusters
    are untouched, and the tunnel that was used is not left idle without a running timer.  No status is
    written where the hijack or the first write to the client fails.
    */
    method ServeHTTP(
      isConnect: bool, validTarget: bool, route: Option<Cluster>, rounds: seq<Round>, direct: bool, hijack: Hijack)
      returns (status: Option<nat>, ghost made: set<Tunnel>)
      requires pool.Valid() && maxRetries <= |rounds|
      modifies pool, if route.Some? then pool.Stored(route.value) else {}
      modifies if route.Some? then pool.TimerOf(route.value) else {}, if route.Some? then pool.Waits(route.value) else {}
      ensures pool.Valid()
      ensures route.None? ==> pool.View() == old(pool.View())
      ensures route.Some? ==>
        (pool.establishing == old(pool.establishing) || pool.establishing == old(pool.establishing) - {route.value}) &&
        pool.tunnels - {route.value} == old(pool.tunnels) - {route.value} &&
        pool.idleTimers - {route.value} == old(pool.idleTimers) - {route.value}
      ensures forall t | t in old(pool.tunnels.Values) :: t.activeConns == old(t.activeConns)
      ensures fresh(made) && forall t | t in made :: t.activeConns == 0
      ensures forall t | t in made && t !in pool.tunnels.Values :: t.closed || t.localPort == 0
      ensures status ==
        if !isConnect then Some(405) else if !validTarget then Some(400)
        else if (if route.None? then !direct else NoneWorks(old(pool.Look(route.value)), rounds, maxRetries)) then Some(502)
        else HijackStatus(hijack)
      ensures status == Some(200) ==> hijack.Piped?
      ensures status == Some(500) ==> hijack.Unsupported?
      ensures status == None ==> hijack.Broken?
      ensures isConnect && validTarget && route.Some? && !NoneWorks(old(pool.Look(route.value)), rounds, maxRetries) ==>
        route.value in pool.tunnels && !pool.Forgotten(route.value)
    {
      made := {};
      if !isConnect {
        return Some(405), made;
      }
      if !validTarget {
        return Some(400), made;
      }
      if route.None? {
        return if direct then HijackStatus(hijack) else Some(502), made;
      }
      status, made := ServeRouted(route.value, rounds, hijack);
    }
  }
}
