/**
The webhook serving certificate: racing callers of `getOrCreateWebhookServingCert` over one
Secret that may be absent, malformed or well-formed when they start.
*/
module WebhookCert {
  import opened Options
  import opened ObjectStore

  const NAME := "webhook-serving-cert"
  const TLS_CERT := "tls.crt"
  const TLS_KEY := "tls.key"

  datatype Pair = Pair(cert: Bytes, key: Bytes)

  /** `webhookCertDataFromSecret`: both entries present and not empty. */
  function CertData(data: Data): Option<Pair> {
    if TLS_CERT in data && TLS_KEY in data && data[TLS_CERT] != "" && data[TLS_KEY] != ""
    then Some(Pair(data[TLS_CERT], data[TLS_KEY]))
    else None
  }

  function WithPair(data: Data, p: Pair): Data {
    data[TLS_CERT := p.cert][TLS_KEY := p.key]
  }

  /** A pair is read exactly from its two entries, neither of them empty. */
  lemma CertDataExactly(data: Data, p: Pair)
    ensures CertData(data) == Some(p) <==>
      "tls.crt" in data && data["tls.crt"] == p.cert && p.cert != "" &&
      "tls.key" in data && data["tls.key"] == p.key && p.key != ""
  {
  }

  /** A repair writes exactly the two entries. */
  lemma WithPairExactly(data: Data, p: Pair, name: string)
    ensures var data' := WithPair(data, p);
      (name in data' <==> name in data || name == "tls.crt" || name == "tls.key") &&
      data'["tls.crt"] == p.cert && data'["tls.key"] == p.key &&
      (name in data && name != "tls.crt" && name != "tls.key" ==> data'[name] == data[name])
  {
  }

  /** PEM encodings are not empty. */
  predicate Generated(p: Pair) {
    p.cert != "" && p.key != ""
  }

  datatype Pc = Start | NotFound | Malformed(seen: Obj) | ReRead | Done(pair: Pair) | Failed

  type CallerId = nat

  datatype State = State(store: Store, callers: map<CallerId, Pc>)

  predicate Init(s: State) {
    Valid(s.store) && s.callers == map[]
  }

  /** `answered` is false where the write took effect and its answer was lost. */
  datatype Step =
    | Begin(id: CallerId)
    | Get(id: CallerId)
    | CreateSecret(id: CallerId, pair: Pair, answered: bool)
    | GetAgain(id: CallerId)
    | UpdateSecret(id: CallerId, pair: Pair, answered: bool)
    | Fail(id: CallerId)

  predicate Enabled(s: State, step: Step) {
    match step
    case Begin(id) => id !in s.callers
    case Get(id) => id in s.callers && s.callers[id] == Start
    case CreateSecret(id, pair, _) => id in s.callers && s.callers[id] == NotFound && Generated(pair)
    case GetAgain(id) => id in s.callers && s.callers[id] == ReRead
    case UpdateSecret(id, pair, _) => id in s.callers && s.callers[id].Malformed? && Generated(pair)
    case Fail(id) => id in s.callers && !s.callers[id].Done?
  }

  function Stored(s: State): Option<Pair> {
    if NAME in s.store.objects then CertData(s.store.objects[NAME].data) else None
  }

  function Goto(s: State, id: CallerId, pc: Pc): State {
    s.(callers := s.callers[id := pc])
  }

  function Apply(s: State, step: Step): State
    requires Enabled(s, step)
  {
    match step
    case Begin(id) => Goto(s, id, Start)
    case Get(id) =>
      Goto(s, id,
           if NAME !in s.store.objects then NotFound
           else if Stored(s).Some? then Done(Stored(s).value)
           else Malformed(s.store.objects[NAME]))
    case CreateSecret(id, pair, answered) =>
      (match Create(s.store, NAME, WithPair(map[], pair))
       case None => Goto(s, id, ReRead)
       case Some(store) => Goto(s, id, if answered then Done(pair) else Failed).(store := store))
    case GetAgain(id) =>
      Goto(s, id, if Stored(s).Some? then Done(Stored(s).value) else Failed)
    case UpdateSecret(id, pair, answered) =>
      (match Update(s.store, NAME, s.callers[id].seen, WithPair(s.callers[id].seen.data, pair))
       case None => Goto(s, id, Failed)
       case Some(store) => Goto(s, id, if answered then Done(pair) else Failed).(store := store))
    case Fail(id) => Goto(s, id, Failed)
  }

  predicate Runnable(s: State, steps: seq<Step>)
    decreases steps, 0
  {
    steps == [] ||
    (Runnable(s, steps[..|steps| - 1]) && Enabled(Run(s, steps[..|steps| - 1]), steps[|steps| - 1]))
  }

  function Run(s: State, steps: seq<Step>): State
    requires Runnable(s, steps)
    decreases steps, 1
  {
    if steps == [] then s
    else Apply(Run(s, steps[..|steps| - 1]), steps[|steps| - 1])
  }

  /**
  Whoever returned has the stored pair; whoever is about to repair saw a malformed Secret; whoever found no
  Secret will find none or a well-formed one.
  */
  predicate CallerOk(s: State, pc: Pc) {
    (pc.Done? ==> Stored(s) == Some(pc.pair)) &&
    (pc.Malformed? ==> Seen(s.store, NAME, pc.seen) && CertData(pc.seen.data) == None) &&
    (pc.NotFound? || pc.ReRead? ==> NAME !in s.store.objects || Stored(s).Some?) &&
    (pc.ReRead? ==> NAME in s.store.objects)
  }

  predicate Inv(s: State) {
    Valid(s.store) && forall id | id in s.callers :: CallerOk(s, s.callers[id])
  }

  /** A step keeps a well-formed pair: only an absent or a malformed Secret is ever written. */
  lemma InvStep(s: State, step: Step)
    requires Inv(s) && Enabled(s, step)
    ensures Inv(Apply(s, step))
    ensures Stored(s).Some? ==> Apply(s, step).store == s.store
  {
    var s' := Apply(s, step);
    assert step.UpdateSecret? ==> CallerOk(s, s.callers[step.id]);
    forall id | id in s'.callers ensures CallerOk(s', s'.callers[id]) {
      assert id in s.callers ==> CallerOk(s, s.callers[id]);
    }
  }

  lemma {:induction false} Reachable(s: State, steps: seq<Step>)
    requires Init(s) && Runnable(s, steps)
    ensures Inv(Run(s, steps))
  {
    if steps == [] {
    } else {
      Reachable(s, steps[..|steps| - 1]);
      InvStep(Run(s, steps[..|steps| - 1]), steps[|steps| - 1]);
    }
  }

  /** All callers that succeed return one pair, and it is the stored one. */
  lemma CertificateAgreement(s: State, steps: seq<Step>, id: CallerId, id': CallerId)
    requires Init(s) && Runnable(s, steps)
    requires var r := Run(s, steps);
      id in r.callers && id' in r.callers && r.callers[id].Done? && r.callers[id'].Done?
    ensures var r := Run(s, steps);
      r.callers[id].pair == r.callers[id'].pair && Stored(r) == Some(r.callers[id].pair)
  {
    Reachable(s, steps);
    var r := Run(s, steps);
    assert CallerOk(r, r.callers[id]) && CallerOk(r, r.callers[id']);
  }

  /** Once a well-formed pair is stored, no later step of the run writes the Secret. */
  lemma {:induction false} WellFormedPairStays(s: State, steps: seq<Step>, n: nat)
    requires Init(s) && Runnable(s, steps) && n <= |steps| && Runnable(s, steps[..n])
    requires Stored(Run(s, steps[..n])).Some?
    ensures Run(s, steps).store == Run(s, steps[..n]).store
  {
    if n == |steps| {
      assert steps[..n] == steps;
    } else {
      var before := steps[..|steps| - 1];
      assert before[..n] == steps[..n];
      WellFormedPairStays(s, before, n);
      Reachable(s, before);
      InvStep(Run(s, before), steps[|steps| - 1]);
    }
  }

  /** The first read: the stored pair exactly if it is well-formed, else creation or repair. */
  lemma GetExactly(s: State, steps: seq<Step>, id: CallerId)
    requires Runnable(s, steps) && Enabled(Run(s, steps), Get(id))
    ensures var r := Run(s, steps); var pc := Apply(r, Get(id)).callers[id];
      (forall pair :: pc == Done(pair) <==> Stored(r) == Some(pair)) &&
      (pc == NotFound <==> NAME !in r.store.objects) &&
      (forall seen :: pc == Malformed(seen) <==> NAME in r.store.objects && Stored(r) == None && seen == r.store.objects[NAME])
  {
  }

  /** Whoever loses the race to create the Secret reads the pair of the winner, always. */
  lemma LoserGetsThePair(s: State, steps: seq<Step>, id: CallerId)
    requires Init(s) && Runnable(s, steps) && Enabled(Run(s, steps), GetAgain(id))
    ensures var r := Run(s, steps); Stored(r).Some? && Apply(r, GetAgain(id)).callers[id] == Done(Stored(r).value)
  {
    Reachable(s, steps);
    assert CallerOk(Run(s, steps), Run(s, steps).callers[id]);
  }

  /** The creation succeeds exactly where there was no Secret; it fails only if the answer is lost. */
  lemma CreateExactly(s: State, steps: seq<Step>, id: CallerId, pair: Pair, answered: bool)
    requires Runnable(s, steps) && Enabled(Run(s, steps), CreateSecret(id, pair, answered))
    ensures var r := Run(s, steps); var r' := Apply(r, CreateSecret(id, pair, answered)); var pc := r'.callers[id];
      if NAME in r.store.objects then pc == ReRead && r'.store == r.store
      else Stored(r') == Some(pair) && pc == if answered then Done(pair) else Failed
  {
  }

  /** A malformed Secret is healed exactly if nobody has written it since it was read; its other entries stay. */
  lemma HealsExactly(s: State, steps: seq<Step>, id: CallerId, pair: Pair, answered: bool, name: string)
    requires Init(s) && Runnable(s, steps) && Enabled(Run(s, steps), UpdateSecret(id, pair, answered))
    ensures var r := Run(s, steps); var r' := Apply(r, UpdateSecret(id, pair, answered)); var pc := r'.callers[id];
      NAME in r.store.objects &&
      if r.store.objects[NAME] == r.callers[id].seen
      then
        Stored(r') == Some(pair) && pc == (if answered then Done(pair) else Failed) &&
        (name in r.store.objects[NAME].data && name != "tls.crt" && name != "tls.key" ==>
          name in r'.store.objects[NAME].data && r'.store.objects[NAME].data[name] == r.store.objects[NAME].data[name])
      else r'.store == r.store && pc == Failed
  {
    Reachable(s, steps);
    assert CallerOk(Run(s, steps), Run(s, steps).callers[id]);
  }
}
