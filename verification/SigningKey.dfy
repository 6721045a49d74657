/** The signing key: replicas of `LoadOrCreateSigningKey` over one Secret. */
module SigningKey {
  import opened Options
  import opened ObjectStore

  const DATA_KEY := "key"

  /** PEM encoding and decoding of private keys, which are represented by values of type `K`. */
  datatype Pem<!K> = Pem(encode: K -> Bytes, decode: Bytes -> Option<K>)

  ghost predicate Faithful<K(!new)>(p: Pem<K>) {
    forall k :: p.decode(p.encode(k)) == Some(k)
  }

  datatype Pc<K> = Start | NotFound | Exists | Done(key: K) | Failed

  type ReplicaId = nat

  datatype State<!K> = State(pem: Pem<K>, name: string, store: Store, replicas: map<ReplicaId, Pc<K>>)

  ghost predicate Init<K(!new)>(s: State<K>) {
    Valid(s.store) && Faithful(s.pem) && s.replicas == map[]
  }

  datatype Step<K> =
    | Begin(id: ReplicaId)
    | Load(id: ReplicaId)
    | CreateSecret(id: ReplicaId, key: K, answered: bool)
    | LoadAgain(id: ReplicaId)
    | Fail(id: ReplicaId)

  predicate Enabled<K>(s: State<K>, step: Step<K>) {
    match step
    case Begin(id) => id !in s.replicas
    case Load(id) => id in s.replicas && s.replicas[id].Start?
    case CreateSecret(id, _, _) => id in s.replicas && s.replicas[id].NotFound?
    case LoadAgain(id) => id in s.replicas && s.replicas[id].Exists?
    case Fail(id) => id in s.replicas && !s.replicas[id].Done?
  }

  /** `LoadSigningKeyFromSecret` on the stored object: the entry must be there and decode. */
  function Stored<K>(s: State<K>): Option<K> {
    if s.name in s.store.objects && DATA_KEY in s.store.objects[s.name].data
    then s.pem.decode(s.store.objects[s.name].data[DATA_KEY])
    else None
  }

  function Goto<K>(s: State<K>, id: ReplicaId, pc: Pc<K>): State<K> {
    s.(replicas := s.replicas[id := pc])
  }

  /** The answer to a load of an existing Secret. */
  function Loaded<K>(s: State<K>): Pc<K> {
    if Stored(s).Some? then Done(Stored(s).value) else Failed
  }

  function Apply<K>(s: State<K>, step: Step<K>): State<K>
    requires Enabled(s, step)
  {
    match step
    case Begin(id) => Goto(s, id, Start)
    case Load(id) => Goto(s, id, if s.name in s.store.objects then Loaded(s) else NotFound)
    case CreateSecret(id, key, answered) =>
      (match Create(s.store, s.name, map[DATA_KEY := s.pem.encode(key)])
       case None => Goto(s, id, Exists)
       case Some(store) => Goto(s, id, if answered then Done(key) else Failed).(store := store))
    case LoadAgain(id) => Goto(s, id, Loaded(s))
    case Fail(id) => Goto(s, id, Failed)
  }

  predicate Runnable<K>(s: State<K>, steps: seq<Step<K>>)
    decreases steps, 0
  {
    steps == [] ||
    (Runnable(s, steps[..|steps| - 1]) && Enabled(Run(s, steps[..|steps| - 1]), steps[|steps| - 1]))
  }

  function Run<K>(s: State<K>, steps: seq<Step<K>>): State<K>
    requires Runnable(s, steps)
    decreases steps, 1
  {
    if steps == [] then s
    else Apply(Run(s, steps[..|steps| - 1]), steps[|steps| - 1])
  }

  /** Whoever returned has the stored key; whoever found no Secret will find none or one with a key in it. */
  predicate ReplicaOk<K(==)>(s: State<K>, pc: Pc<K>) {
    (pc.Done? ==> Stored(s) == Some(pc.key)) &&
    (pc.NotFound? || pc.Exists? ==> s.name !in s.store.objects || Stored(s).Some?) &&
    (pc.Exists? ==> s.name in s.store.objects)
  }

  ghost predicate Inv<K(!new)>(s: State<K>) {
    Faithful(s.pem) && forall id | id in s.replicas :: ReplicaOk(s, s.replicas[id])
  }

  /** Only an absent Secret is written, so the first key stays. */
  lemma InvStep<K(!new)>(s: State<K>, step: Step<K>)
    requires Inv(s) && Enabled(s, step)
    ensures Inv(Apply(s, step)) && Apply(s, step).name == s.name && Apply(s, step).pem == s.pem
    ensures s.name in s.store.objects ==> Apply(s, step).store == s.store
  {
  }

  lemma {:induction false} Reachable<K(!new)>(s: State<K>, steps: seq<Step<K>>)
    requires Init(s) && Runnable(s, steps)
    ensures Inv(Run(s, steps)) && Run(s, steps).name == s.name
  {
    if steps == [] {
    } else {
      Reachable(s, steps[..|steps| - 1]);
      InvStep(Run(s, steps[..|steps| - 1]), steps[|steps| - 1]);
    }
  }

  /** All replicas that succeed return one key, and it is the stored one. */
  lemma KeyAgreement<K(!new)>(s: State<K>, steps: seq<Step<K>>, id: ReplicaId, id': ReplicaId)
    requires Init(s) && Runnable(s, steps)
    requires var r := Run(s, steps);
      id in r.replicas && id' in r.replicas && r.replicas[id].Done? && r.replicas[id'].Done?
    ensures var r := Run(s, steps);
      r.replicas[id].key == r.replicas[id'].key && Stored(r) == Some(r.replicas[id].key)
  {
    Reachable(s, steps);
    var r := Run(s, steps);
    assert ReplicaOk(r, r.replicas[id]) && ReplicaOk(r, r.replicas[id']);
  }

  /** A load gives the stored key where there is one, and fails exactly for a Secret that holds none. */
  lemma LoadExactly<K(!new)>(s: State<K>, steps: seq<Step<K>>, id: ReplicaId)
    requires Runnable(s, steps) && Enabled(Run(s, steps), Load(id))
    ensures var r := Run(s, steps); var pc := Apply(r, Load(id)).replicas[id];
      (forall key :: pc == Done(key) <==> Stored(r) == Some(key)) &&
      (pc == NotFound <==> r.name !in r.store.objects) &&
      (pc == Failed <==> r.name in r.store.objects && Stored(r) == None)
  {
  }

  /** Whoever loses the race to create the Secret loads the key of the winner, always. */
  lemma LoserGetsTheKey<K(!new)>(s: State<K>, steps: seq<Step<K>>, id: ReplicaId)
    requires Init(s) && Runnable(s, steps) && Enabled(Run(s, steps), LoadAgain(id))
    ensures var r := Run(s, steps);
      Stored(r).Some? && Apply(r, LoadAgain(id)).replicas[id] == Done(Stored(r).value)
  {
    Reachable(s, steps);
    assert ReplicaOk(Run(s, steps), Run(s, steps).replicas[id]);
  }

  /** The creation gives out the new key exactly where there was no Secret and the answer came; it fails only if that is lost. */
  lemma CreateExactly<K(!new)>(s: State<K>, steps: seq<Step<K>>, id: ReplicaId, key: K, answered: bool)
    requires Init(s) && Runnable(s, steps) && Enabled(Run(s, steps), CreateSecret(id, key, answered))
    ensures var r := Run(s, steps); var r' := Apply(r, CreateSecret(id, key, answered)); var pc := r'.replicas[id];
      if r.name in r.store.objects then pc == Exists && r'.store == r.store
      else Stored(r') == Some(key) && pc == if answered then Done(key) else Failed
  {
    Reachable(s, steps);
  }

  /** The first stored Secret survives every later step. */
  lemma {:induction false} FirstKeySurvives<K(!new)>(s: State<K>, steps: seq<Step<K>>, n: nat)
    requires Init(s) && Runnable(s, steps) && n <= |steps| && Runnable(s, steps[..n])
    requires s.name in Run(s, steps[..n]).store.objects
    ensures Run(s, steps).store == Run(s, steps[..n]).store
  {
    if n == |steps| {
      assert steps[..n] == steps;
    } else {
      var before := steps[..|steps| - 1];
      assert before[..n] == steps[..n];
      FirstKeySurvives(s, before, n);
      Reachable(s, before);
      Reachable(s, steps[..n]);
      InvStep(Run(s, before), steps[|steps| - 1]);
    }
  }
}
