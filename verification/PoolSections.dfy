/**
What each critical section under the pool mutex does to the three maps of the pool.  The
protocol of `PoolMachine` uses these functions on identifiers, the classes of `TunnelPool` on
objects.
*/
module PoolSections {
  type Cluster = string
  type TunnelId = nat
  type TimerId = nat
  type ChanId = nat

  datatype Maps<T, X, N> = Maps(
    tunnels: map<Cluster, T>,
    idleTimers: map<Cluster, X>,
    establishing: map<Cluster, N>)

  datatype GetResult<T, N> =
    | Found(tunnel: T)
    | Await(notify: N)
    | New(tunnel: T, notify: N)

  function ForgetTimer<T, X, N>(m: Maps<T, X, N>, c: Cluster): Maps<T, X, N> {
    m.(idleTimers := m.idleTimers - {c})
  }

  function Forget<T, X, N>(m: Maps<T, X, N>, c: Cluster): Maps<T, X, N> {
    m.(tunnels := m.tunnels - {c})
  }

  function RemoveSection<T, X, N>(m: Maps<T, X, N>, c: Cluster): Maps<T, X, N> {
    Forget(ForgetTimer(m, c), c)
  }

  function ScheduleSection<T, X, N>(m: Maps<T, X, N>, c: Cluster, tm: X): Maps<T, X, N> {
    m.(idleTimers := m.idleTimers[c := tm])
  }

  /** The second section of `doEstablish`. */
  function PublishSection<T, X, N>(m: Maps<T, X, N>, c: Cluster, t: T, ok: bool): Maps<T, X, N> {
    var m1 := m.(establishing := m.establishing - {c});
    if ok then m1.(tunnels := m1.tunnels[c := t]) else m1
  }

  /** The section of `GetOrCreateTunnel`; `open` says that a stored tunnel answered `!IsClosed()`. */
  ghost predicate GetSection<T, X, N>(
    m: Maps<T, X, N>, c: Cluster, open: bool, m': Maps<T, X, N>, r: GetResult<T, N>)
  {
    if c in m.tunnels && open then
      m' == ForgetTimer(m, c) && r == Found(m.tunnels[c])
    else
      var m1 := if c in m.tunnels then RemoveSection(m, c) else m;
      if c in m1.establishing then
        m' == m1 && r == Await(m1.establishing[c])
      else
        r.New? && m' == m1.(establishing := m1.establishing[c := r.notify])
  }

  lemma RemovedTwice<V>(m: map<Cluster, V>, c: Cluster)
    ensures m - {c} - {c} == m - {c}
  {
  }

  lemma Overwritten<V>(m: map<Cluster, V>, c: Cluster, v: V)
    ensures m[c := v] - {c} == m - {c} && (m - {c})[c := v] == m[c := v]
  {
  }

  lemma PutBack<V>(m: map<Cluster, V>, m': map<Cluster, V>, c: Cluster)
    requires c in m && m - {c} == m' - {c}
    ensures m == m'[c := m[c]]
  {
    forall d | d != c ensures d in m <==> d in m' {
      assert d in m - {c} <==> d in m' - {c};
    }
    forall d | d in m && d != c ensures m[d] == m'[d] {
      assert (m - {c})[d] == (m' - {c})[d];
    }
  }
}
