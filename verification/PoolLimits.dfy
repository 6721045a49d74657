/**
What the pool does not give, each with a run that shows it, and which steps can close a tunnel that a
request may be using.
*/
module PoolLimits {
  import opened Options
  import opened PoolSections
  import opened PoolMachine
  import opened PoolFlight
  import opened PoolTunnels
  import opened PoolConns
  import opened PoolTheorems

  // ---------------------------------------------------------------------------------------
  // Who closes an established tunnel
  // ---------------------------------------------------------------------------------------

  predicate Closes(s: State, s': State, t: TunnelId) {
    t in s.tun && !s.tun[t].closed && t in s'.tun && s'.tun[t].closed
  }

  /** The step is of the kind that closes whatever is stored under `c`. */
  predicate ClosesName(s: State, step: DropStep, c: Cluster) {
    match step
    case Remove(g) => g in s.gs && s.gs[g].c == c
    case IdleClose(g) => g in s.gs && s.gs[g].c == c
    case CloseAllOne(_, c') => c' == c
    case _ => false
  }

  /** The establisher gives up after it has started the forwarder. */
  predicate GivesUp(s: State, step: Step, t: TunnelId) {
    step.Make? && step.make.EstablishReturn? && step.make.end.AbortForwarding? &&
    step.make.g in s.gs && s.gs[step.make.g].at.Establishing? && s.gs[step.make.g].at.t == t
  }

  /** The step closes tunnel `t`: its establisher, its monitor, or a step on the name that stores it. */
  predicate Closer(s: State, step: Step, t: TunnelId) {
    t in s.tun && !s.tun[t].closed &&
    (GivesUp(s, step, t) ||
     (step == Use(Monitor(t)) && s.tun[t].forwarder == Exited) ||
     (step.Drop? && StoredUnder(s, s.tun[t].cluster, t) && ClosesName(s, step.drop, s.tun[t].cluster)))
  }

  /** No tunnel is forgotten, a ready one stays ready and a closed one closed. */
  predicate Kept(s: State, s': State, t: TunnelId) {
    t in s.tun ==> t in s'.tun && (s.tun[t].ready ==> s'.tun[t].ready) && (s.tun[t].closed ==> s'.tun[t].closed)
  }

  lemma ClosersGet(s: State, step: GetStep, t: TunnelId)
    requires CanGet(s, step)
    ensures Kept(s, DoGet(s, step), t) && !Closes(s, DoGet(s, step), t)
  {
  }

  lemma ClosersMake(s: State, step: MakeStep, t: TunnelId)
    requires Makers(s) && CanMake(s, step)
    ensures Kept(s, DoMake(s, step), t) && (Closes(s, DoMake(s, step), t) <==> Closer(s, Make(step), t))
  {
  }

  lemma ClosersUse(s: State, step: UseStep, t: TunnelId)
    requires CanUse(s, step)
    ensures Kept(s, DoUse(s, step), t) && (Closes(s, DoUse(s, step), t) <==> Closer(s, Use(step), t))
  {
  }

  lemma ClosersDrop(s: State, step: DropStep, t: TunnelId)
    requires Makers(s) && CanDrop(s, step)
    ensures Kept(s, DoDrop(s, step), t) && (Closes(s, DoDrop(s, step), t) <==> Closer(s, Drop(step), t))
  {
  }

  lemma ClosersStep(s: State, step: Step, t: TunnelId)
    requires Makers(s) && Enabled(s, step)
    ensures Kept(s, Apply(s, step), t) && (Closes(s, Apply(s, step), t) <==> Closer(s, step, t))
  {
    match step
    case Get(x) => ClosersGet(s, x, t);
    case Make(x) => ClosersMake(s, x, t);
    case Use(x) => ClosersUse(s, x, t);
    case Drop(x) => ClosersDrop(s, x, t);
  }

  /**
  A tunnel is closed by a step exactly when that is the failure of its establishment after the forwarder was
  started, its monitor, or a removal, an idle close or a `CloseAll` on the name that stores it.  Whether a
  request holds it plays no part.
  */
  lemma ClosersExactly(s: State, steps: seq<Step>, step: Step, t: TunnelId)
    requires Init(s) && Runnable(s, steps) && Enabled(Run(s, steps), step)
    ensures Closes(Run(s, steps), Apply(Run(s, steps), step), t) <==> Closer(Run(s, steps), step, t)
  {
    Reachable(s, steps);
    ClosersStep(Run(s, steps), step, t);
  }

  /** Step `i` of the run is a closer of `t` where it is taken. */
  predicate CloserAt(s: State, steps: seq<Step>, i: int, t: TunnelId) {
    0 <= i < |steps| && Runnable(s, steps[..i]) && Closer(Run(s, steps[..i]), steps[i], t)
  }

  predicate OpenAt(s: State, steps: seq<Step>, n: nat, t: TunnelId) {
    n <= |steps| && Runnable(s, steps[..n]) &&
    var r := Run(s, steps[..n]); t in r.tun && !r.tun[t].closed
  }

  /** A tunnel that is open after `n` steps of a run is closed at its end exactly when a later step is a closer. */
  lemma {:induction false} ClosedExactly(s: State, steps: seq<Step>, n: nat, t: TunnelId)
    requires Init(s) && Runnable(s, steps) && OpenAt(s, steps, n, t)
    ensures t in Run(s, steps).tun
    ensures Run(s, steps).tun[t].closed <==> exists i :: n <= i && CloserAt(s, steps, i, t)
  {
    if n == |steps| {
      assert steps[..n] == steps;
    } else {
      var last := |steps| - 1;
      var before := steps[..last];
      assert before[..n] == steps[..n];
      ClosedExactly(s, before, n, t);
      Reachable(s, before);
      ClosersStep(Run(s, before), steps[last], t);
      CloserEarlier(s, steps, n, t);
      assert CloserAt(s, steps, last, t) <==> Closer(Run(s, before), steps[last], t);
    }
  }

  /** The closers of a run are those of the run without its last step, and perhaps the last step. */
  lemma CloserEarlier(s: State, steps: seq<Step>, n: nat, t: TunnelId)
    requires steps != []
    ensures var last := |steps| - 1;
      (exists i :: n <= i && CloserAt(s, steps, i, t)) <==>
      (exists i :: n <= i && CloserAt(s, steps[..last], i, t)) || (n <= last && CloserAt(s, steps, last, t))
  {
    var last := |steps| - 1;
    forall i | 0 <= i < last ensures CloserAt(s, steps, i, t) <==> CloserAt(s, steps[..last], i, t) {
      assert steps[..last][..i] == steps[..i];
    }
  }

  // ---------------------------------------------------------------------------------------
  // What a removal and a callback hit
  // ---------------------------------------------------------------------------------------

  /** `RemoveTunnel` closes an open tunnel exactly when the name stores it. */
  lemma RemovalHits(s: State, steps: seq<Step>, g: Gid, t: TunnelId)
    requires Init(s) && Runnable(s, steps) && CanRemove(Run(s, steps), g)
    ensures var r := Run(s, steps);
      Closes(r, DoRemove(r, g), t) <==> StoredUnder(r, r.gs[g].c, t) && t in r.tun && !r.tun[t].closed
  {
    Reachable(s, steps);
  }

  /** So nothing but the tunnel that failed is hit exactly when the name stores that one, a closed one or none. */
  lemma RemovalHitsOnlyFailed(s: State, steps: seq<Step>, g: Gid, failed: TunnelId)
    requires Init(s) && Runnable(s, steps) && CanRemove(Run(s, steps), g)
    ensures var r := Run(s, steps); var c := r.gs[g].c;
      (forall t | Closes(r, DoRemove(r, g), t) :: t == failed) <==>
      (c in r.pool.tunnels ==>
        r.pool.tunnels[c] == failed || (r.pool.tunnels[c] in r.tun && r.tun[r.pool.tunnels[c]].closed))
  {
    var r := Run(s, steps);
    Reachable(s, steps);
    forall t ensures Closes(r, DoRemove(r, g), t) <==> StoredUnder(r, r.gs[g].c, t) && t in r.tun && !r.tun[t].closed {
      RemovalHits(s, steps, g, t);
    }
    if r.gs[g].c in r.pool.tunnels {
      assert StoredOk(r, r.gs[g].c, r.pool.tunnels[r.gs[g].c]);
    }
  }

  /** A callback goes on to close `t` exactly when its name stores `t` and no connection is live; a holder does not count. */
  lemma CallbackHits(s: State, steps: seq<Step>, g: Gid, t: TunnelId)
    requires Init(s) && Runnable(s, steps) && CanCallback(Run(s, steps), g)
    ensures var r := Run(s, steps);
      DoCallback(r, g).gs[g].at == IdleClosing(t) <==> StoredUnder(r, r.gs[g].c, t) && Live(r, t) == {}
  {
    var r := Run(s, steps);
    Reachable(s, steps);
    if StoredUnder(r, r.gs[g].c, t) {
      assert StoredOk(r, r.gs[g].c, t);
      assert r.tun[t].activeConns == |Live(r, t)|;
    }
  }

  // ---------------------------------------------------------------------------------------
  // Runs, piece by piece
  // ---------------------------------------------------------------------------------------

  ghost predicate Reaches(s: State, r: State) {
    exists steps :: Runnable(s, steps) && Run(s, steps) == r
  }

  lemma Still(s: State)
    ensures Reaches(s, s)
  {
    assert Runnable(s, []) && Run(s, []) == s;
  }

  lemma Then(s: State, r: State, step: Step)
    requires Reaches(s, r) && Enabled(r, step)
    ensures Reaches(s, Apply(r, step))
  {
    var steps :| Runnable(s, steps) && Run(s, steps) == r;
    var more := steps + [step];
    assert more[..|more| - 1] == steps;
    assert Runnable(s, more) && Run(s, more) == Apply(r, step);
  }

  function Unready(c: Cluster, g: Gid): Tunnel {
    Tunnel(c, g, false, None, false, 0, 0, 0, NotStarted, false)
  }

  function Made(c: Cluster, g: Gid): Tunnel {
    Tunnel(c, g, true, None, false, 0, 1, 0, Forwards, true)
  }

  /** A request arrives and takes the pool mutex for its first look-up. */
  lemma Arrives(s: State, r: State, g: Gid, c: Cluster) returns (r': State)
    requires Reaches(s, r) && r.mu == None && g !in r.gs && 1 <= r.maxRetries
    ensures Reaches(s, r') && r' == r.(mu := Some(g), gs := r.gs[g := Go(c, 1, true, GetLocked)])
  {
    var x := Go(c, 1, true, NextAttempt);
    Then(s, r, Get(Spawn(g, x)));
    var r1 := DoSpawn(r, g, x);
    Then(s, r1, Get(Local(g, GetWant)));
    var r2 := Move(r1, g, GetWant);
    Then(s, r2, Get(PoolLock(g)));
    r' := DoPoolLock(r2, g);
    assert r'.gs == r.gs[g := Go(c, 1, true, GetLocked)];
  }

  /** A request finds nothing and begins to establish. */
  lemma Registers(s: State, r: State, g: Gid, c: Cluster, t: TunnelId, ch: ChanId) returns (r': State)
    requires Reaches(s, r) && r.mu == None && g !in r.gs && 1 <= r.maxRetries && t !in r.tun && ch !in r.chans
    requires c !in r.pool.tunnels && c !in r.pool.establishing
    ensures Reaches(s, r')
    ensures r' == r.(pool := r.pool.(establishing := r.pool.establishing[c := ch]), tun := r.tun[t := Unready(c, g)],
                     chans := r.chans[ch := Chan(c, g, 0)], gs := r.gs[g := Go(c, 1, true, Establishing(t, ch, Entering))])
  {
    var r1 := Arrives(s, r, g, c);
    Then(s, r1, Make(Create(g, t, ch)));
    r' := DoCreate(r1, g, t, ch);
    assert r'.gs == r.gs[g := Go(c, 1, true, Establishing(t, ch, Entering))];
  }

  /** It establishes, publishes, and holds the tunnel. */
  lemma Publishes(s: State, r: State, g: Gid, c: Cluster, t: TunnelId, ch: ChanId) returns (r': State)
    requires Reaches(s, r) && r.mu == None && g in r.gs && r.gs[g] == Go(c, 1, true, Establishing(t, ch, Entering))
    requires t in r.tun && r.tun[t] == Unready(c, g) && ch in r.chans && r.chans[ch] == Chan(c, g, 0)
    ensures Reaches(s, r')
    ensures r' == r.(pool := PublishSection(r.pool, c, t, true), tun := r.tun[t := Made(c, g)],
                     chans := r.chans[ch := Chan(c, g, 1)], gs := r.gs[g := Go(c, 1, true, Holding(t))])
  {
    Then(s, r, Make(EstablishLock(g)));
    var r1 := DoEstablishLock(r, g);
    Then(s, r1, Make(EstablishForward(g)));
    var r2 := DoEstablishForward(r1, g);
    Then(s, r2, Make(EstablishReturn(g, Ready(1))));
    var r3 := DoEstablishReturn(r2, g, Ready(1));
    Then(s, r3, Make(Publish(g)));
    r' := DoPublish(r3, g);
    assert r'.gs == r.gs[g := Go(c, 1, true, Holding(t))];
    assert r'.tun == r.tun[t := Made(c, g)];
  }

  lemma Overwrites<K, V>(m: map<K, V>, k: K, v: V, w: V)
    ensures m[k := v][k := w] == m[k := w]
  {
  }

  /** A tunnel for `c` is made, stored and held by its request. */
  lemma Opens(s: State, r: State, g: Gid, c: Cluster, t: TunnelId, ch: ChanId) returns (r': State)
    requires Reaches(s, r) && r.mu == None && g !in r.gs && 1 <= r.maxRetries && t !in r.tun && ch !in r.chans
    requires c !in r.pool.tunnels && c !in r.pool.establishing
    ensures Reaches(s, r')
    ensures r' == r.(pool := r.pool.(tunnels := r.pool.tunnels[c := t]), tun := r.tun[t := Made(c, g)],
                     chans := r.chans[ch := Chan(c, g, 1)], gs := r.gs[g := Go(c, 1, true, Holding(t))])
  {
    var r1 := Registers(s, r, g, c, t, ch);
    r' := Publishes(s, r1, g, c, t, ch);
    assert r.pool.establishing[c := ch] - {c} == r.pool.establishing;
    Overwrites(r.gs, g, r1.gs[g], r'.gs[g]);
    Overwrites(r.tun, t, Unready(c, g), Made(c, g));
    Overwrites(r.chans, ch, Chan(c, g, 0), Chan(c, g, 1));
  }

  // ---------------------------------------------------------------------------------------
  // An establishment in flight outlives CloseAll
  // ---------------------------------------------------------------------------------------

  /** `CloseAll` takes its last step in `y` and leaves the pool empty; it is filled again without another request. */
  lemma StoredAfterCloseAll(s: State) returns (y: State, r: State)
    requires Init(s) && 1 <= s.maxRetries
    ensures Reaches(s, y) && CanCloseAllEnd(y, 1) && y.gs.Keys == r.gs.Keys
    ensures Reaches(DoCloseAllEnd(y, 1), r) && DoCloseAllEnd(y, 1).pool.tunnels == map[]
    ensures "c" in r.pool.tunnels && r.pool.tunnels["c"] in r.tun && !r.tun[r.pool.tunnels["c"]].closed
  {
    Still(s);
    var r1 := Registers(s, s, 0, "c", 0, 0);
    var x := Go("", 0, false, CloseAllWant);
    Then(s, r1, Get(Spawn(1, x)));
    var r2 := DoSpawn(r1, 1, x);
    Then(s, r2, Drop(CloseAllBegin(1)));
    y := DoCloseAllBegin(r2, 1);
    assert y.gs[1].at == CloseAllLocked({});
    var z := DoCloseAllEnd(y, 1);
    Still(z);
    r := Publishes(z, z, 0, "c", 0, 0);
  }

  /** `h` is on its way to store a tunnel. */
  predicate StillStores(s: State, h: Gid) {
    h in s.gs && (s.gs[h].at.Establishing? || (s.gs[h].at.Returned? && s.gs[h].at.ok))
  }

  predicate Creates(step: Step) {
    step.Make? && step.make.Create?
  }

  /** The run goes from `s` to `r`, and no new establishment begins in it. */
  ghost predicate Settles(s: State, steps: seq<Step>, r: State) {
    Runnable(s, steps) && Run(s, steps) == r && forall step | step in steps :: !Creates(step)
  }

  ghost predicate Refills(s: State) {
    exists steps, r :: Settles(s, steps, r) && r.pool.tunnels != map[]
  }

  /** Empty, and nobody is on the way to change that. */
  ghost predicate Barren(s: State) {
    s.pool.tunnels == map[] && forall h :: !StillStores(s, h)
  }

  lemma BarrenGet(s: State, step: GetStep)
    requires Barren(s) && CanGet(s, step)
    ensures Barren(DoGet(s, step))
  {
    forall h ensures !StillStores(DoGet(s, step), h) { assert !StillStores(s, h); }
  }

  lemma BarrenMake(s: State, step: MakeStep)
    requires Barren(s) && CanMake(s, step) && !step.Create?
    ensures Barren(DoMake(s, step))
  {
    assert !StillStores(s, step.g);
    forall h ensures !StillStores(DoMake(s, step), h) { assert !StillStores(s, h); }
  }

  lemma BarrenUse(s: State, step: UseStep)
    requires Barren(s) && CanUse(s, step)
    ensures Barren(DoUse(s, step))
  {
    forall h ensures !StillStores(DoUse(s, step), h) { assert !StillStores(s, h); }
  }

  lemma BarrenDrop(s: State, step: DropStep)
    requires Barren(s) && CanDrop(s, step)
    ensures Barren(DoDrop(s, step))
  {
    forall h ensures !StillStores(DoDrop(s, step), h) { assert !StillStores(s, h); }
  }

  lemma BarrenStep(s: State, step: Step)
    requires Barren(s) && Enabled(s, step) && !Creates(step)
    ensures Barren(Apply(s, step))
  {
    match step
    case Get(x) => BarrenGet(s, x);
    case Make(x) => BarrenMake(s, x);
    case Use(x) => BarrenUse(s, x);
    case Drop(x) => BarrenDrop(s, x);
  }

  lemma {:induction false} BarrenRun(s: State, steps: seq<Step>, r: State)
    requires Barren(s) && Settles(s, steps, r)
    ensures Barren(r)
  {
    if steps == [] {
    } else {
      var before := steps[..|steps| - 1];
      assert forall step | step in before :: step in steps;
      BarrenRun(s, before, Run(s, before));
      BarrenStep(Run(s, before), steps[|steps| - 1]);
    }
  }

  lemma SettlesMore(s: State, steps: seq<Step>, r: State, step: Step)
    requires Settles(s, steps, r) && Enabled(r, step) && !Creates(step)
    ensures Settles(s, steps + [step], Apply(r, step))
  {
    var more := steps + [step];
    assert more[..|more| - 1] == steps;
  }

  function NextTowardsPublication(at: Pc, h: Gid): MakeStep
    requires at.Establishing? || at.Returned?
  {
    if at.Returned? then Publish(h)
    else match at.phase
      case Entering => EstablishLock(h)
      case Locked => EstablishForward(h)
      case Forwarding => EstablishReturn(h, Ready(1))
  }

  function StepsToGo(at: Pc): nat
    requires at.Establishing? || at.Returned?
  {
    if at.Returned? then 0 else match at.phase case Entering => 3 case Locked => 2 case Forwarding => 1
  }

  lemma OneStepTowards(r: State, h: Gid)
    requires Flight(r) && Makers(r) && r.mu == None && StillStores(r, h)
    ensures var step := NextTowardsPublication(r.gs[h].at, h);
      CanMake(r, step) &&
      var r' := DoMake(r, step);
      if r.gs[h].at.Returned? then r.gs[h].c in r'.pool.tunnels
      else r'.mu == None && StillStores(r', h) && StepsToGo(r'.gs[h].at) < StepsToGo(r.gs[h].at)
  {
    assert FlightPc(r, h, r.gs[h]) && MakerPc(r, h, r.gs[h]);
  }

  /** Where `h` stands decides how many of the four steps to publication are left. */
  lemma PublicationFollows(z: State, steps: seq<Step>, r: State, h: Gid)
    requires Settles(z, steps, r) && Flight(r) && Makers(r) && r.mu == None && StillStores(r, h)
    ensures Refills(z)
    decreases StepsToGo(r.gs[h].at)
  {
    var step := NextTowardsPublication(r.gs[h].at, h);
    OneStepTowards(r, h);
    SettlesMore(z, steps, r, Make(step));
    if r.gs[h].at.Establishing? {
      FlightMake(r, step);
      MakersMake(r, step);
      PublicationFollows(z, steps + [Make(step)], DoMake(r, step), h);
    }
  }

  /**
  When `CloseAll` ends, the pool can be filled again without a new establishment exactly when some
  goroutine is still inside `Establish`, or has come out of it successfully and not published yet.
  */
  lemma EmptyAfterCloseAllExactly(s: State, steps: seq<Step>, g: Gid)
    requires Init(s) && Runnable(s, steps) && CanCloseAllEnd(Run(s, steps), g)
    ensures var z := DoCloseAllEnd(Run(s, steps), g); Refills(z) <==> exists h :: StillStores(z, h)
  {
    var z := DoCloseAllEnd(Run(s, steps), g);
    Reachable(s, steps);
    InvStep(Run(s, steps), Drop(CloseAllEnd(g)));
    if h :| StillStores(z, h) {
      assert Settles(z, [], z);
      PublicationFollows(z, [], z, h);
    } else {
      forall more, r | Settles(z, more, r) ensures r.pool.tunnels == map[] {
        BarrenRun(z, more, r);
      }
    }
  }

  // ---------------------------------------------------------------------------------------
  // RemoveTunnel removes whatever the name stores
  // ---------------------------------------------------------------------------------------

  /** Goroutine `g`, at `RemoveTunnel`, removes and closes the tunnel stored under its name. */
  lemma Removes(s: State, r: State, g: Gid, t: TunnelId) returns (r': State)
    requires Reaches(s, r) && r.mu == None && g in r.gs && r.gs[g].at == RemoveWant
    requires StoredUnder(r, r.gs[g].c, t) && TunnelFree(r, t) && r.pool.idleTimers == map[]
    ensures Reaches(s, r') && r'.mu == None && r'.pool.tunnels == r.pool.tunnels - {r.gs[g].c}
    ensures r'.pool.idleTimers == map[] && r'.pool.establishing == r.pool.establishing
    ensures r'.tun == r.tun[t := MarkClosed(r.tun[t])] && r'.chans == r.chans && r'.maxRetries == r.maxRetries
    ensures g in r'.gs && r'.gs == r.gs[g := r'.gs[g]] && r'.gs[g].c == r.gs[g].c
    ensures r'.gs[g].at == if r.gs[g].retry then NextAttempt else Finished
  {
    Then(s, r, Get(PoolLock(g)));
    var r1 := DoPoolLock(r, g);
    Then(s, r1, Drop(Remove(g)));
    r' := DoRemove(r1, g);
  }

  /** Request 0 fails on tunnel 0 in `x`; tunnel 1, which request 2 has just been handed, is closed for it. */
  lemma RemovesNewerTunnel(s: State) returns (x: State, r: State)
    requires Init(s) && 1 <= s.maxRetries
    ensures Reaches(s, x) && 0 in x.gs && x.gs[0].at == Dialing(0) && 1 !in x.tun
    ensures Reaches(x, r) && 2 in r.gs && r.gs[2].at == Holding(1) && 1 in r.tun && r.tun[1].closed
    ensures r.tun[1].forwarder == Forwards && 0 in r.gs && r.gs[0].at == NextAttempt
  {
    Still(s);
    var r1 := Opens(s, s, 0, "c", 0, 0);
    Then(s, r1, Get(Local(0, Dialing(0))));
    x := Move(r1, 0, Dialing(0));
    r := FailsLate(x);
  }

  /** Meanwhile the cluster is deregistered and comes back with a new tunnel. */
  lemma FailsLate(x: State) returns (r: State)
    requires x.mu == None && 0 in x.gs && x.gs[0] == Go("c", 1, true, Dialing(0)) && x.gs.Keys == {0}
    requires x.pool == Maps(map["c" := 0], map[], map[]) && 1 <= x.maxRetries && x.chans.Keys == {0}
    requires x.tun == map[0 := Made("c", 0)]
    ensures Reaches(x, r) && 2 in r.gs && r.gs[2].at == Holding(1) && 1 in r.tun && r.tun[1].closed
    ensures r.tun[1].forwarder == Forwards && 0 in r.gs && r.gs[0].at == NextAttempt
  {
    Still(x);
    Then(x, x, Get(Local(0, RemoveWant)));
    var r1 := Move(x, 0, RemoveWant);
    var d := Go("c", 0, false, RemoveWant);
    Then(x, r1, Get(Spawn(1, d)));
    var r2 := DoSpawn(r1, 1, d);
    var r3 := Removes(x, r2, 1, 0);
    var r4 := Opens(x, r3, 2, "c", 1, 1);
    r := Removes(x, r4, 0, 1);
  }

  // ---------------------------------------------------------------------------------------
  // An idle callback closes a tunnel that was just handed out
  // ---------------------------------------------------------------------------------------

  /** The request that holds `t` dials, pipes and hangs up. */
  lemma Uses(s: State, r: State, g: Gid, c: Cluster, t: TunnelId, k: ConnId) returns (r': State)
    requires Reaches(s, r) && g in r.gs && r.gs[g] == Go(c, 1, true, Holding(t)) && k !in r.conns
    requires t in r.tun && r.tun[t] == Made(c, g)
    ensures Reaches(s, r')
    ensures r' == r.(tun := r.tun[t := Made(c, g).(activeConns := 1)], conns := r.conns[k := Conn(t, g, Unused, false)],
                     gs := r.gs[g := Go(c, 1, false, Closing(k))])
  {
    Then(s, r, Get(Local(g, Dialing(t))));
    var r1 := Move(r, g, Dialing(t));
    Then(s, r1, Use(DialOk(g, k)));
    var r2 := DoDialOk(r1, g, k);
    Then(s, r2, Get(Local(g, Piping(k))));
    var r3 := Move(r2, g, Piping(k));
    Then(s, r3, Get(HangUp(g)));
    r' := DoHangUp(r3, g);
    assert r'.gs == r.gs[g := Go(c, 1, false, Closing(k))];
  }

  /** It gives the last reference back. */
  lemma Releases(s: State, r: State, g: Gid, c: Cluster, t: TunnelId, k: ConnId) returns (r': State)
    requires Reaches(s, r) && g in r.gs && r.gs[g] == Go(c, 1, false, Closing(k))
    requires t in r.tun && r.tun[t] == Made(c, g).(activeConns := 1)
    requires k in r.conns && r.conns[k] == Conn(t, g, Unused, false)
    ensures Reaches(s, r')
    ensures r' == r.(tun := r.tun[t := Made(c, g)], conns := r.conns[k := Conn(t, g, Running(g), true)],
                     gs := r.gs[g := Go(c, 1, false, OnIdle(k, c))])
  {
    Then(s, r, Use(CloseEnter(g)));
    var r1 := DoCloseEnter(r, g);
    Then(s, r1, Use(Release(g)));
    r' := DoRelease(r1, g);
    Overwrites(r.gs, g, r1.gs[g], r'.gs[g]);
    Overwrites(r.conns, k, r1.conns[k], r'.conns[k]);
  }

  /** It arms the timer, which fires. */
  lemma Fires(s: State, r: State, g: Gid, c: Cluster, k: ConnId, tm: TimerId, h: Gid) returns (r': State)
    requires Reaches(s, r) && r.mu == None && g in r.gs && r.gs[g] == Go(c, 1, false, OnIdle(k, c)) && h !in r.gs
    requires c !in r.pool.idleTimers && tm !in r.timers && k in r.conns
    ensures Reaches(s, r') && r'.mu == None && r'.tun == r.tun && r'.maxRetries == r.maxRetries
    ensures r'.pool == r.pool.(idleTimers := r.pool.idleTimers[c := tm])
    ensures r'.timers == r.timers[tm := Timer(c, Fired(h))]
    ensures r'.gs == r.gs[g := Go(c, 1, false, Finished)][h := Go(c, 0, false, CallbackWant(tm))]
  {
    Then(s, r, Use(Schedule(g, tm)));
    var r1 := DoSchedule(r, g, tm);
    Then(s, r1, Use(Fire(tm, h)));
    r' := DoFire(r1, tm, h);
  }

  /** Request 2 is handed tunnel 0, which the callback of a timer that fired before then closes. */
  lemma ClosedWhileHeld(s: State) returns (x: State, r: State)
    requires Init(s) && 1 <= s.maxRetries
    ensures Reaches(s, x) && 2 in x.gs && x.gs[2].at == Holding(0) && 0 in x.tun && !x.tun[0].closed
    ensures 1 in x.gs && x.gs[1].at.CallbackWant?
    ensures Reaches(x, r) && 2 in r.gs && r.gs[2].at == Holding(0) && 0 in r.tun && r.tun[0].closed
    ensures r.tun[0].forwarder == Forwards && r.pool.tunnels == map[]
  {
    Still(s);
    var r1 := Opens(s, s, 0, "c", 0, 0);
    var r2 := Uses(s, r1, 0, "c", 0, 0);
    var r3 := Releases(s, r2, 0, "c", 0, 0);
    r3 := Fires(s, r3, 0, "c", 0, 0, 1);
    var r4 := Arrives(s, r3, 2, "c");
    Then(s, r4, Get(Reuse(2)));
    x := DoReuse(r4, 2);
    r := CallsBack(x);
  }

  lemma CallsBack(x: State) returns (r: State)
    requires x.mu == None && 1 in x.gs && x.gs[1] == Go("c", 0, false, CallbackWant(0)) && 0 in x.timers
    requires x.pool.tunnels == map["c" := 0] && 0 in x.tun && x.tun[0].activeConns == 0 && x.tun[0].lock == None
    ensures Reaches(x, r) && r.pool.tunnels == map[] && r.tun == x.tun[0 := MarkClosed(x.tun[0])]
    ensures r.gs == x.gs[1 := Go("c", 0, false, Finished)]
  {
    Still(x);
    Then(x, x, Get(PoolLock(1)));
    var r1 := DoPoolLock(x, 1);
    Then(x, r1, Drop(Callback(1)));
    var r2 := DoCallback(r1, 1);
    Then(x, r2, Drop(IdleClose(1)));
    r := DoIdleClose(r2, 1);
    assert r.gs == x.gs[1 := Go("c", 0, false, Finished)];
  }
}
