/** The way of one request through its attempts: what follows a success, and what a failure. */
module PoolRequests {
  import opened PoolSections
  import opened PoolMachine

  predicate Hangs(pc: Pc) {
    pc.Closing? || pc.Releasing? || pc.OnIdle?
  }

  /** The connection is piped, or was and is being closed, or the request has ended. */
  predicate Served(x: Go) {
    x.at.Piping? || (!x.retry && Hangs(x.at)) || x.at.Finished?
  }

  /** The attempt has failed; its connection, if any, is being closed, or the tunnel removed. */
  predicate Failing(x: Go) {
    x.retry && (Hangs(x.at) || x.at.RemoveWant? || x.at.RemoveLocked?)
  }

  /** A served request stays served: it removes no tunnel and makes no further attempt. */
  predicate StaysServed(x: Go, y: Go) {
    Served(x) ==> Served(y) && y.attempt == x.attempt
  }

  /** A failing attempt leads to the next attempt and to nothing else. */
  predicate LeadsOn(x: Go, y: Go) {
    Failing(x) ==> (Failing(y) && y.attempt == x.attempt) || (y.at.NextAttempt? && y.retry && y.attempt == x.attempt + 1)
  }

  /** A request goes on exactly while attempts are left. */
  predicate Tries(maxRetries: int, x: Go, y: Go) {
    x.at.NextAttempt? && y != x ==> y == x.(at := if x.attempt <= maxRetries then GetWant else Finished)
  }

  /** A tunnel that was handed out is dialled exactly when it is open and listens; else the attempt fails. */
  predicate DialsOpen(s: State, x: Go, y: Go) {
    x.at.Holding? && y != x && x.at.t in s.tun ==>
      y == x.(at := if s.tun[x.at.t].closed || s.tun[x.at.t].port == 0 then RemoveWant else Dialing(x.at.t))
  }

  predicate Proceeds(s: State, s': State, g: Gid) {
    g in s.gs ==>
      g in s'.gs && s'.gs[g].c == s.gs[g].c && StaysServed(s.gs[g], s'.gs[g]) && LeadsOn(s.gs[g], s'.gs[g]) &&
      Tries(s.maxRetries, s.gs[g], s'.gs[g]) && DialsOpen(s, s.gs[g], s'.gs[g])
  }

  lemma ProceedsLocal(s: State, h: Gid, to: Pc, g: Gid)
    requires CanLocal(s, h, to)
    ensures Proceeds(s, Move(s, h, to), g)
  {
  }

  lemma ProceedsGet(s: State, step: GetStep, g: Gid)
    requires CanGet(s, step)
    ensures Proceeds(s, DoGet(s, step), g)
  {
    if step.Local? {
      ProceedsLocal(s, step.g, step.to, g);
    }
  }

  lemma ProceedsCreate(s: State, h: Gid, t: TunnelId, ch: ChanId, g: Gid)
    requires CanCreate(s, h, t, ch)
    ensures Proceeds(s, DoCreate(s, h, t, ch), g)
  {
  }

  lemma ProceedsReturn(s: State, h: Gid, end: EstablishEnd, g: Gid)
    requires CanEstablishReturn(s, h, end)
    ensures Proceeds(s, DoEstablishReturn(s, h, end), g)
  {
  }

  lemma ProceedsPublish(s: State, h: Gid, g: Gid)
    requires CanPublish(s, h)
    ensures Proceeds(s, DoPublish(s, h), g)
  {
  }

  lemma ProceedsMake(s: State, step: MakeStep, g: Gid)
    requires CanMake(s, step)
    ensures Proceeds(s, DoMake(s, step), g)
  {
    match step
    case Create(h, t, ch) => ProceedsCreate(s, h, t, ch, g);
    case Publish(h) => ProceedsPublish(s, h, g);
    case EstablishReturn(h, end) => ProceedsReturn(s, h, end, g);
    case _ =>
  }

  lemma ProceedsUse(s: State, step: UseStep, g: Gid)
    requires CanUse(s, step)
    ensures Proceeds(s, DoUse(s, step), g)
  {
  }

  lemma ProceedsRemove(s: State, h: Gid, g: Gid)
    requires CanRemove(s, h)
    ensures Proceeds(s, DoRemove(s, h), g)
  {
  }

  lemma ProceedsCallback(s: State, h: Gid, g: Gid)
    requires CanCallback(s, h)
    ensures Proceeds(s, DoCallback(s, h), g)
  {
  }

  lemma ProceedsDrop(s: State, step: DropStep, g: Gid)
    requires CanDrop(s, step)
    ensures Proceeds(s, DoDrop(s, step), g)
  {
    match step
    case Remove(h) => ProceedsRemove(s, h, g);
    case Callback(h) => ProceedsCallback(s, h, g);
    case _ =>
  }

  lemma ProceedsStep(s: State, step: Step, g: Gid)
    requires Enabled(s, step)
    ensures Proceeds(s, Apply(s, step), g)
  {
    match step
    case Get(x) => ProceedsGet(s, x, g);
    case Make(x) => ProceedsMake(s, x, g);
    case Use(x) => ProceedsUse(s, x, g);
    case Drop(x) => ProceedsDrop(s, x, g);
  }

  predicate ServedAt(s: State, steps: seq<Step>, n: nat, g: Gid) {
    n <= |steps| && Runnable(s, steps[..n]) && g in Run(s, steps[..n]).gs && Served(Run(s, steps[..n]).gs[g])
  }

  /** Once its connection is piped, a request removes no tunnel and retries nothing, however the run goes on. */
  lemma {:induction false} ServedForGood(s: State, steps: seq<Step>, n: nat, g: Gid)
    requires Runnable(s, steps) && ServedAt(s, steps, n, g)
    ensures g in Run(s, steps).gs && Served(Run(s, steps).gs[g])
    ensures Run(s, steps).gs[g].attempt == Run(s, steps[..n]).gs[g].attempt
  {
    if n == |steps| {
      assert steps[..n] == steps;
    } else {
      var before := steps[..|steps| - 1];
      assert before[..n] == steps[..n];
      ServedForGood(s, before, n, g);
      ProceedsStep(Run(s, before), steps[|steps| - 1], g);
    }
  }

  /** After `n` steps `g` is giving up attempt `a`. */
  predicate FailingAt(s: State, steps: seq<Step>, n: nat, g: Gid, a: nat) {
    n <= |steps| && Runnable(s, steps[..n]) && g in Run(s, steps[..n]).gs &&
    Failing(Run(s, steps[..n]).gs[g]) && Run(s, steps[..n]).gs[g].attempt == a
  }

  /** After `n` steps `g` is about to begin the attempt after `a`. */
  predicate NextAt(s: State, steps: seq<Step>, n: nat, g: Gid, a: nat) {
    n <= |steps| && Runnable(s, steps[..n]) && g in Run(s, steps[..n]).gs &&
    Run(s, steps[..n]).gs[g].at.NextAttempt? && Run(s, steps[..n]).gs[g].attempt == a + 1
  }

  /** A failed attempt is still being given up at the end of the run, or the next one was reached on the way. */
  lemma {:induction false} FailureLeadsOn(s: State, steps: seq<Step>, n: nat, g: Gid, a: nat)
    requires Runnable(s, steps) && FailingAt(s, steps, n, g, a)
    ensures FailingAt(s, steps, |steps|, g, a) || exists i :: n < i && NextAt(s, steps, i, g, a)
  {
    var end := |steps|;
    assert steps[..end] == steps;
    if n < end {
      var before := steps[..end - 1];
      assert before[..n] == steps[..n] && before[..end - 1] == before;
      FailureLeadsOn(s, before, n, g, a);
      if i :| n < i && NextAt(s, before, i, g, a) {
        assert before[..i] == steps[..i];
        assert NextAt(s, steps, i, g, a);
      } else {
        ProceedsStep(Run(s, before), steps[end - 1], g);
        assert FailingAt(s, steps, end, g, a) || NextAt(s, steps, end, g, a);
      }
    }
  }
}
