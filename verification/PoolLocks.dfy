/** The lock order of the pool: no circular wait, and the pool mutex never waits for the network. */
module PoolLocks {
  import opened Options
  import opened PoolSections
  import opened PoolMachine
  import opened PoolFlight
  import opened PoolTunnels
  import opened PoolConns
  import opened PoolTheorems

  /** What a goroutine can wait for.  A notify channel is held by the goroutine that must close it. */
  datatype Resource = Notify(ch: ChanId) | ReleaseOnce(k: ConnId) | PoolMu | TunnelMu(t: TunnelId)

  function Rank(r: Resource): nat {
    match r case Notify(_) => 0 case ReleaseOnce(_) => 1 case PoolMu => 2 case TunnelMu(_) => 3
  }

  predicate Holds(s: State, g: Gid, r: Resource) {
    match r
    case Notify(ch) => ch in s.chans && s.chans[ch].closes == 0 && s.chans[ch].creator == g
    case ReleaseOnce(k) => k in s.conns && s.conns[k].once == Running(g)
    case PoolMu => s.mu == Some(g)
    case TunnelMu(t) => t in s.tun && s.tun[t].lock == Some(g)
  }

  /** What the next statement of `g` blocks on. */
  predicate Wants(s: State, g: Gid, r: Resource) {
    g in s.gs &&
    match s.gs[g].at
    case GetWant => r == PoolMu
    case RemoveWant => r == PoolMu
    case CallbackWant(_) => r == PoolMu
    case CloseAllWant => r == PoolMu
    case Returned(_, _, _) => r == PoolMu
    case OnIdle(_, _) => r == PoolMu
    case Waiting(ch) => r == Notify(ch)
    case Closing(k) => r == ReleaseOnce(k)
    case Establishing(t, _, phase) => phase == Entering && r == TunnelMu(t)
    case Holding(t) => r == TunnelMu(t)
    case GetLocked => r.TunnelMu? && StoredUnder(s, s.gs[g].c, r.t)
    case RemoveLocked => r.TunnelMu? && StoredUnder(s, s.gs[g].c, r.t)
    case IdleClosing(t) => r == TunnelMu(t)
    case CloseAllLocked(todo) => r.TunnelMu? && exists c | c in todo :: StoredUnder(s, c, r.t)
    case _ => false
  }

  predicate WaitsFor(s: State, g: Gid, h: Gid, r: Resource) {
    Wants(s, g, r) && Holds(s, h, r)
  }

  /** Locks are taken in the order release-once, pool, tunnel: whoever holds one waits only for a later one. */
  lemma LockOrder(s: State, h: Gid, r: Resource, r': Resource)
    requires Inv(s) && Holds(s, h, r) && Wants(s, h, r')
    ensures Rank(r) < Rank(r')
  {
    assert r.Notify? ==> ChanOk(s, r.ch, s.chans[r.ch]);
    assert r.ReleaseOnce? ==> ConnOk(s, r.k, s.conns[r.k]);
    assert r.TunnelMu? ==> LockOk(s, r.t, s.tun[r.t]);
  }

  ghost predicate Ordered(s: State) {
    forall h, r, r' | Holds(s, h, r) && Wants(s, h, r') :: Rank(r) < Rank(r')
  }

  lemma OrderedWhenInv(s: State)
    requires Inv(s)
    ensures Ordered(s)
  {
    forall h, r, r' | Holds(s, h, r) && Wants(s, h, r') ensures Rank(r) < Rank(r') {
      LockOrder(s, h, r, r');
    }
  }

  /** A chain of goroutines in which each waits for the next. */
  predicate WaitChain(s: State, chain: seq<Gid>, rs: seq<Resource>) {
    |chain| == |rs| + 1 && forall i | 0 <= i < |rs| :: WaitsFor(s, chain[i], chain[i + 1], rs[i])
  }

  lemma {:induction false} RanksGrow(s: State, chain: seq<Gid>, rs: seq<Resource>, i: nat, j: nat)
    requires Ordered(s) && WaitChain(s, chain, rs) && i <= j < |rs|
    ensures Rank(rs[i]) + (j - i) <= Rank(rs[j])
    decreases j - i
  {
    if i == j {
    } else {
      assert WaitsFor(s, chain[j - 1], chain[j], rs[j - 1]) && WaitsFor(s, chain[j], chain[j + 1], rs[j]);
      RanksGrow(s, chain, rs, i, j - 1);
    }
  }

  lemma NoCycle(s: State, chain: seq<Gid>, rs: seq<Resource>)
    requires Ordered(s) && WaitChain(s, chain, rs)
    ensures |rs| <= 4 && (|rs| > 0 ==> chain[0] != chain[|rs|])
  {
    if |rs| > 0 {
      var last := |rs| - 1;
      RanksGrow(s, chain, rs, 0, last);
      assert WaitsFor(s, chain[last], chain[|rs|], rs[last]) && WaitsFor(s, chain[0], chain[1], rs[0]);
    }
  }

  /** No reachable state has a circular wait, and no wait chain has more than four links. */
  lemma NoCircularWait(s: State, steps: seq<Step>, chain: seq<Gid>, rs: seq<Resource>)
    requires Init(s) && Runnable(s, steps) && WaitChain(Run(s, steps), chain, rs)
    ensures |rs| <= 4
    ensures |rs| > 0 ==> chain[0] != chain[|rs|]
  {
    var x := Run(s, steps);
    Reachable(s, steps);
    OrderedWhenInv(x);
    NoCycle(x, chain, rs);
  }

  /** Whoever holds the pool mutex finds free every tunnel mutex it needs, so it never waits for an `Establish`. */
  lemma PoolHolderNeverBlocks(s: State, steps: seq<Step>, g: Gid, r: Resource)
    requires Init(s) && Runnable(s, steps) && Run(s, steps).mu == Some(g) && Wants(Run(s, steps), g, r)
    ensures r.TunnelMu? && r.t in Run(s, steps).tun && Run(s, steps).tun[r.t].lock == None && Run(s, steps).tun[r.t].ready
  {
    Reachable(s, steps);
    var x := Run(s, steps);
    assert SectionPc(x, x.gs[g]);
    assert LockOk(x, r.t, x.tun[r.t]);
  }
}
