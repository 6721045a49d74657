/**
Any number of concurrent `Seal` calls against one API server.  Calls read the Secret of their
node, then create it or write it back with one more volume group; a write is refused unless the
version read is still current, and an answer may be lost after the write took effect.
*/
module KmsProtocol {
  import opened Options
  import opened ObjectStore
  import opened Kms

  type CallId = nat

  datatype Pc =
    | Start
    | Absent
    | Present(seen: Obj)
    | Sealed(volume: Volume, gcmNonce: Bytes)
    | Failed

  /** `uuid` is the validated, lower-cased one. */
  datatype Call = Call(uuid: string, ip: string, text: Bytes, pc: Pc)

  /** A volume group that was written, and what it was made for. */
  datatype Made = Made(volume: Volume, uuid: string, ip: string, text: Bytes, gcmNonce: Bytes)

  /** `made` is history: every volume group ever written, by prefix. */
  datatype State = State(aead: Aead, store: Store, calls: map<CallId, Call>, made: map<string, Made>)

  predicate Init(s: State) {
    s.store.objects == map[] && s.calls == map[] && s.made == map[]
  }

  datatype Random = Random(prefix: string, key: Bytes, aadNonce: Bytes, gcmNonce: Bytes)

  /** Sizes are those the code asks for; the prefix has not come up before. */
  predicate Fresh(s: State, r: Random) {
    r.prefix != "" && r.prefix !in s.made && |r.key| == KEY_SIZE && |r.aadNonce| == AAD_NONCE_SIZE &&
    |r.gcmNonce| == GCM_NONCE_SIZE
  }

  function Name(c: Call): string {
    SecretName(c.uuid)
  }

  function NewVolume(a: Aead, c: Call, r: Random): Volume
    requires |r.key| == KEY_SIZE
  {
    Volume(r.prefix, r.key, r.aadNonce, Encrypt(a, r.key, r.gcmNonce, c.text, BuildAAD(c.uuid, r.aadNonce, c.ip)).value)
  }

  function MadeFor(c: Call, v: Volume, gcmNonce: Bytes): Made {
    Made(v, c.uuid, c.ip, c.text, gcmNonce)
  }

  datatype Step =
    | Begin(id: CallId, uuid: string, ip: string, text: Bytes)
    | Read(id: CallId)
    | WriteNew(id: CallId, r: Random, answered: bool)
    | WriteBack(id: CallId, r: Random, answered: bool)
    | Fail(id: CallId)

  predicate Enabled(s: State, step: Step) {
    match step
    case Begin(id, _, _, text) => id !in s.calls && text != ""
    case Read(id) => id in s.calls && s.calls[id].pc == Start
    case WriteNew(id, r, _) => id in s.calls && s.calls[id].pc == Absent && Fresh(s, r)
    case WriteBack(id, r, _) => id in s.calls && s.calls[id].pc.Present? && Fresh(s, r)
    case Fail(id) => id in s.calls && !s.calls[id].pc.Sealed?
  }

  function Goto(s: State, id: CallId, pc: Pc): State
    requires id in s.calls
  {
    s.(calls := s.calls[id := s.calls[id].(pc := pc)])
  }

  /** The outcome of a write that the server accepted (`Some`) or refused. */
  function Written(s: State, id: CallId, v: Volume, gcmNonce: Bytes, store: Option<Store>, answered: bool): State
    requires id in s.calls
  {
    if store.None? then Goto(s, id, Failed)
    else
      Goto(s, id, if answered then Sealed(v, gcmNonce) else Failed)
      .(store := store.value, made := s.made[v.prefix := MadeFor(s.calls[id], v, gcmNonce)])
  }

  function Apply(s: State, step: Step): State
    requires Enabled(s, step)
  {
    match step
    case Begin(id, uuid, ip, text) => s.(calls := s.calls[id := Call(uuid, ip, text, Start)])
    case Read(id) =>
      var n := Name(s.calls[id]);
      Goto(s, id, if n in s.store.objects then Present(s.store.objects[n]) else Absent)
    case WriteNew(id, r, answered) =>
      var c := s.calls[id];
      var v := NewVolume(s.aead, c, r);
      Written(s, id, v, r.gcmNonce, Create(s.store, Name(c), NewSecret(c.ip, v)), answered)
    case WriteBack(id, r, answered) =>
      var c := s.calls[id];
      var v := NewVolume(s.aead, c, r);
      if Field(c.pc.seen.data, SEALED_FROM_IP) != c.ip then Goto(s, id, Failed)
      else Written(s, id, v, r.gcmNonce, Update(s.store, Name(c), c.pc.seen, WithVolume(c.pc.seen.data, v)), answered)
    case Fail(id) => Goto(s, id, Failed)
  }

  predicate Runnable(s: State, steps: seq<Step>)
    decreases steps, 0
  {
    steps == [] ||
    (Runnable(s, steps[..|steps| - 1]) && Enabled(Run(s, steps[..|steps| - 1]), steps[|steps| - 1]))
  }

  function Run(s: State, steps: seq<Step>): State
    requires Runnable(s, steps)
    decreases steps, 1
  {
    if steps == [] then s
    else Apply(Run(s, steps[..|steps| - 1]), steps[|steps| - 1])
  }

  // ---------------------------------------------------------------------------------------
  // The invariant
  // ---------------------------------------------------------------------------------------

  /** The group is the encryption of its text for its node and IP. */
  predicate MadeOk(a: Aead, p: string, m: Made) {
    m.volume.prefix == p && p != "" && |m.volume.key| == KEY_SIZE && |m.volume.aadNonce| == AAD_NONCE_SIZE &&
    |m.gcmNonce| == GCM_NONCE_SIZE &&
    m.volume.luksKey == Encrypt(a, m.volume.key, m.gcmNonce, m.text, BuildAAD(m.uuid, m.volume.aadNonce, m.ip)).value
  }

  predicate AllMadeOk(a: Aead, made: map<string, Made>) {
    forall p | p in made :: MadeOk(a, p, made[p])
  }

  /** Group `p` of the Secret is as it was made, for this Secret's node and IP. */
  predicate GroupOk(made: map<string, Made>, name: string, data: Data, p: string) {
    p in made && HasVolume(data, made[p].volume) && SecretName(made[p].uuid) == name &&
    made[p].ip == Field(data, SEALED_FROM_IP)
  }

  /** A Secret holds its IP entry and whole groups of `made`, unchanged. */
  ghost predicate SecretOk(made: map<string, Made>, name: string, data: Data) {
    SEALED_FROM_IP in data && forall p | p + KEY in data :: GroupOk(made, name, data, p)
  }

  predicate SealedOk(s: State, c: Call) {
    c.pc.Sealed? ==>
      Name(c) in s.store.objects && HasVolume(s.store.objects[Name(c)].data, c.pc.volume) &&
      Field(s.store.objects[Name(c)].data, SEALED_FROM_IP) == c.ip &&
      c.pc.volume.prefix in s.made && s.made[c.pc.volume.prefix] == MadeFor(c, c.pc.volume, c.pc.gcmNonce)
  }

  predicate CallOk(s: State, c: Call) {
    c.text != "" && (c.pc.Present? ==> Seen(s.store, Name(c), c.pc.seen)) && SealedOk(s, c)
  }

  ghost predicate Inv(s: State) {
    Valid(s.store) && AllMadeOk(s.aead, s.made) &&
    (forall n | n in s.store.objects :: SecretOk(s.made, n, s.store.objects[n].data)) &&
    (forall id | id in s.calls :: CallOk(s, s.calls[id]))
  }

  /** The new group stands beside the old ones. */
  lemma SecretGrows(a: Aead, made: map<string, Made>, name: string, data: Data, v: Volume, m: Made)
    requires SecretOk(made, name, data) && AllMadeOk(a, made) && v.prefix !in made
    requires m.volume == v && SecretName(m.uuid) == name && m.ip == Field(data, SEALED_FROM_IP)
    ensures SecretOk(made[v.prefix := m], name, WithVolume(data, v))
  {
    var data' := WithVolume(data, v);
    NamesApart(v.prefix, v.prefix);
    forall p | p + KEY in data' ensures GroupOk(made[v.prefix := m], name, data', p) {
      NamesApart(p, v.prefix);
      if p == v.prefix {
        WithVolumeKeeps(data, v, v);
      } else {
        assert GroupOk(made, name, data, p) && MadeOk(a, p, made[p]);
        WithVolumeKeeps(data, v, made[p].volume);
      }
    }
  }

  /** Other Secrets do not notice a new prefix. */
  lemma SecretStays(made: map<string, Made>, name: string, data: Data, p: string, m: Made)
    requires SecretOk(made, name, data) && p !in made
    ensures SecretOk(made[p := m], name, data)
  {
    forall q | q + KEY in data ensures GroupOk(made[p := m], name, data, q) {
      assert GroupOk(made, name, data, q);
    }
  }

  /** A group written on top of the current Secret, or into a new one, disturbs no call. */
  lemma OthersKeep(s: State, s': State, c: Call, name: string, base: Data, v: Volume, m: Made)
    requires Inv(s) && CallOk(s, c) && v.prefix !in s.made
    requires name in s.store.objects ==> base == s.store.objects[name].data
    requires s'.made == s.made[v.prefix := m] && s'.store == Write(s.store, name, WithVolume(base, v))
    ensures CallOk(s', c)
  {
    if c.pc.Present? {
      SeenAfterWrite(s.store, Name(c), c.pc.seen, name, WithVolume(base, v));
    }
    if c.pc.Sealed? {
      WithVolumeKeeps(base, v, c.pc.volume);
    }
  }

  /** What a write starts from: the current Secret of the call's node and IP, or an empty one. */
  predicate Base(s: State, c: Call, base: Data) {
    if Name(c) in s.store.objects
    then base == s.store.objects[Name(c)].data && Field(base, SEALED_FROM_IP) == c.ip
    else base == map[SEALED_FROM_IP := c.ip]
  }

  lemma BaseIsOk(s: State, c: Call, base: Data)
    requires Inv(s) && Base(s, c, base)
    ensures SecretOk(s.made, Name(c), base) && Field(base, SEALED_FROM_IP) == c.ip
  {
    if Name(c) !in s.store.objects {
      forall p | p + KEY in base ensures false {
        NamesApart(p, p);
      }
    }
  }

  lemma WriteKeeps(s: State, id: CallId, r: Random, base: Data, answered: bool)
    requires Inv(s) && id in s.calls && !s.calls[id].pc.Sealed? && Fresh(s, r) && Base(s, s.calls[id], base)
    ensures var c := s.calls[id]; var v := NewVolume(s.aead, c, r);
      Inv(Written(s, id, v, r.gcmNonce, Some(Write(s.store, Name(c), WithVolume(base, v))), answered))
  {
    var c := s.calls[id];
    var v := NewVolume(s.aead, c, r);
    var m := MadeFor(c, v, r.gcmNonce);
    var s' := Written(s, id, v, r.gcmNonce, Some(Write(s.store, Name(c), WithVolume(base, v))), answered);
    BaseIsOk(s, c, base);
    SecretGrows(s.aead, s.made, Name(c), base, v, m);
    WithVolumeKeeps(base, v, v);
    forall n | n in s'.store.objects ensures SecretOk(s'.made, n, s'.store.objects[n].data) {
      if n != Name(c) {
        SecretStays(s.made, n, s.store.objects[n].data, v.prefix, m);
      }
    }
    forall i | i in s'.calls ensures CallOk(s', s'.calls[i]) {
      if i != id {
        OthersKeep(s, s', s.calls[i], Name(c), base, v, m);
      }
    }
  }

  lemma InvStep(s: State, step: Step)
    requires Inv(s) && Enabled(s, step)
    ensures Inv(Apply(s, step))
  {
    match step
    case WriteNew(id, r, answered) =>
      var c := s.calls[id];
      if Name(c) !in s.store.objects {
        WriteKeeps(s, id, r, map[SEALED_FROM_IP := c.ip], answered);
      }
    case WriteBack(id, r, answered) =>
      var c := s.calls[id];
      if Name(c) in s.store.objects && s.store.objects[Name(c)].version == c.pc.seen.version &&
        Field(c.pc.seen.data, SEALED_FROM_IP) == c.ip {
        WriteKeeps(s, id, r, c.pc.seen.data, answered);
      }
    case _ =>
  }

  lemma {:induction false} Reachable(s: State, steps: seq<Step>)
    requires Init(s) && Runnable(s, steps)
    ensures Inv(Run(s, steps)) && Run(s, steps).aead == s.aead
  {
    if steps == [] {
    } else {
      Reachable(s, steps[..|steps| - 1]);
      InvStep(Run(s, steps[..|steps| - 1]), steps[|steps| - 1]);
    }
  }

  // ---------------------------------------------------------------------------------------
  // Theorems
  // ---------------------------------------------------------------------------------------

  /** Whatever calls came in between, a group whose `Seal` returned success is stored, unchanged. */
  lemma NoSealedVolumeLost(s: State, steps: seq<Step>, id: CallId)
    requires Init(s) && Runnable(s, steps) && id in Run(s, steps).calls && Run(s, steps).calls[id].pc.Sealed?
    ensures var r := Run(s, steps); var c := r.calls[id];
      Name(c) in r.store.objects && HasVolume(r.store.objects[Name(c)].data, c.pc.volume) &&
      Field(r.store.objects[Name(c)].data, SEALED_FROM_IP) == c.ip
  {
    Reachable(s, steps);
    assert CallOk(Run(s, steps), Run(s, steps).calls[id]);
  }

  /** A Secret is never dropped, and neither its IP nor a group in it ever changes. */
  lemma SecretsOnlyGrow(s: State, steps: seq<Step>, step: Step, name: string, v: Volume)
    requires Init(s) && Runnable(s, steps) && Enabled(Run(s, steps), step) && name in Run(s, steps).store.objects
    ensures var r := Run(s, steps); var r' := Apply(r, step);
      name in r'.store.objects &&
      Field(r'.store.objects[name].data, SEALED_FROM_IP) == Field(r.store.objects[name].data, SEALED_FROM_IP) &&
      (HasVolume(r.store.objects[name].data, v) ==> HasVolume(r'.store.objects[name].data, v))
  {
    Reachable(s, steps);
    var r := Run(s, steps);
    if step.WriteBack? {
      WithVolumeKeeps(r.store.objects[name].data, NewVolume(r.aead, r.calls[step.id], step.r), v);
    }
  }

  function SealingOf(m: Made): Sealing {
    Sealing(m.volume.key, m.gcmNonce, m.text, BuildAAD(m.uuid, m.volume.aadNonce, m.ip))
  }

  /** The encryptions behind the groups that were written. */
  ghost function Sealings(made: map<string, Made>): set<Sealing> {
    set p | p in made :: SealingOf(made[p])
  }

  lemma SameNode(uuid: string, uuid': string)
    requires SecretName(uuid) == SecretName(uuid')
    ensures uuid == uuid'
  {
    assert SecretName(uuid)[|"talos-kms-"|..] == uuid;
    assert SecretName(uuid')[|"talos-kms-"|..] == uuid';
  }

  /** A group that `Unseal` tries for this call's node and IP was itself sealed with the associated data it is tried with. */
  lemma TriedAsMade(r: State, c: Call, sets: seq<Volume>, v: Volume)
    requires Inv(r) && CallOk(r, c) && c.pc.Sealed? && Parsed(r.store.objects[Name(c)].data, sets) && v in sets
    ensures v.prefix in r.made && r.made[v.prefix].volume == v
    ensures SealingOf(r.made[v.prefix]).aad == BuildAAD(c.uuid, v.aadNonce, c.ip)
  {
    var data := r.store.objects[Name(c)].data;
    assert v.prefix + KEY in data;
    assert GroupOk(r.made, Name(c), data, v.prefix) && MadeOk(r.aead, v.prefix, r.made[v.prefix]);
    SameNode(r.made[v.prefix].uuid, c.uuid);
  }

  lemma OwnGroup(r: State, c: Call, sets: seq<Volume>)
    requires Inv(r) && CallOk(r, c) && c.pc.Sealed? && Parsed(r.store.objects[Name(c)].data, sets)
    ensures c.pc.volume in sets && MadeOk(r.aead, c.pc.volume.prefix, MadeFor(c, c.pc.volume, c.pc.gcmNonce))
  {
    var data := r.store.objects[Name(c)].data;
    var own := c.pc.volume;
    assert MadeOk(r.aead, own.prefix, r.made[own.prefix]);
    assert Complete(data, own.prefix) && Group(data, own.prefix) == own;
  }

  /**
  What a successful `Seal` returned is unsealed to the original text for the same node, written in
  any case, and the same IP, after any further calls and in whatever order the groups are visited.
  */
  lemma SealUnsealRoundTrip(
    s: State, steps: seq<Step>, id: CallId, raw: string, parses: string -> bool, sets: seq<Volume>)
    requires Init(s) && Runnable(s, steps) && id in Run(s, steps).calls && Run(s, steps).calls[id].pc.Sealed?
    requires Correct(s.aead) && Authentic(s.aead, Sealings(Run(s, steps).made))
    requires var r := Run(s, steps); var c := r.calls[id];
      ValidateNodeUUID(raw, parses) == Some(c.uuid) &&
      Visits(parses, r.store.objects, raw, c.ip, c.pc.volume.luksKey, sets)
    ensures var r := Run(s, steps); var c := r.calls[id];
      UnsealWith(s.aead, parses, r.store.objects, raw, c.ip, c.pc.volume.luksKey, sets) == Ok(c.text)
  {
    Reachable(s, steps);
    var r := Run(s, steps);
    var c := r.calls[id];
    assert CallOk(r, c);
    SealedOpens(r, c, sets);
  }

  /** Every group tried gives the text back or fails, and the own group gives it back. */
  lemma SealedOpens(r: State, c: Call, sets: seq<Volume>)
    requires Inv(r) && CallOk(r, c) && c.pc.Sealed? && Parsed(r.store.objects[Name(c)].data, sets)
    requires Correct(r.aead) && Authentic(r.aead, Sealings(r.made))
    ensures FirstOpen(r.aead, c.uuid, c.ip, c.pc.volume.luksKey, sets) == Some(c.text)
    ensures c.pc.volume.luksKey != "" && sets != []
  {
    var own := c.pc.volume;
    var u := SealingOf(MadeFor(c, own, c.pc.gcmNonce));
    OwnGroup(r, c, sets);
    assert u in Sealings(r.made);
    forall v | v in sets
      ensures Open(r.aead, c.uuid, c.ip, own.luksKey, v).Err? || Open(r.aead, c.uuid, c.ip, own.luksKey, v) == Ok(c.text)
    {
      TriedAsMade(r, c, sets, v);
      DecryptForeign(r.aead, Sealings(r.made), u, SealingOf(r.made[v.prefix]));
    }
    DecryptEncrypt(r.aead, own.key, c.pc.gcmNonce, c.text, u.aad);
    FirstOpenFinds(r.aead, c.uuid, c.ip, own.luksKey, sets, own, c.text);
  }

  // ---------------------------------------------------------------------------------------
  // Refusals
  // ---------------------------------------------------------------------------------------

  /** Whoever asks from another address than the node was sealed from is refused before any key is tried. */
  lemma OtherAddressRefused(
    s: State, steps: seq<Step>, id: CallId, raw: string, parses: string -> bool, ip: string, data: Bytes, sets: seq<Volume>)
    requires Init(s) && Runnable(s, steps) && id in Run(s, steps).calls && Run(s, steps).calls[id].pc.Sealed?
    requires ValidateNodeUUID(raw, parses) == Some(Run(s, steps).calls[id].uuid)
    requires ip != Run(s, steps).calls[id].ip && data != ""
    ensures UnsealWith(s.aead, parses, Run(s, steps).store.objects, raw, ip, data, sets) == Err(IpMismatch)
  {
    NoSealedVolumeLost(s, steps, id);
  }

  predicate MadeNode(made: map<string, Made>, p: string, name: string) {
    p in made && SecretName(made[p].uuid) == name
  }

  /** A node has a Secret exactly when a group was written for it. */
  ghost predicate Nodes(s: State) {
    forall name :: name in s.store.objects <==> exists p :: MadeNode(s.made, p, name)
  }

  lemma NodesWritten(s: State, id: CallId, v: Volume, gcmNonce: Bytes, data: Data, answered: bool)
    requires Nodes(s) && id in s.calls && v.prefix !in s.made
    ensures Nodes(Written(s, id, v, gcmNonce, Some(Write(s.store, Name(s.calls[id]), data)), answered))
  {
    var s' := Written(s, id, v, gcmNonce, Some(Write(s.store, Name(s.calls[id]), data)), answered);
    forall name ensures name in s'.store.objects <==> exists p :: MadeNode(s'.made, p, name) {
      assert MadeNode(s'.made, v.prefix, Name(s.calls[id]));
      if p :| MadeNode(s.made, p, name) {
        assert MadeNode(s'.made, p, name);
      }
      if p :| MadeNode(s'.made, p, name) && p != v.prefix {
        assert MadeNode(s.made, p, name);
      }
    }
  }

  lemma NodesStep(s: State, step: Step)
    requires Nodes(s) && Enabled(s, step)
    ensures Nodes(Apply(s, step))
  {
    match step
    case WriteNew(id, r, answered) =>
      var v := NewVolume(s.aead, s.calls[id], r);
      NodesWritten(s, id, v, r.gcmNonce, NewSecret(s.calls[id].ip, v), answered);
    case WriteBack(id, r, answered) =>
      var v := NewVolume(s.aead, s.calls[id], r);
      NodesWritten(s, id, v, r.gcmNonce, WithVolume(s.calls[id].pc.seen.data, v), answered);
    case _ =>
  }

  lemma {:induction false} NodesRun(s: State, steps: seq<Step>)
    requires Init(s) && Runnable(s, steps)
    ensures Nodes(Run(s, steps))
  {
    if steps == [] {
    } else {
      NodesRun(s, steps[..|steps| - 1]);
      NodesStep(Run(s, steps[..|steps| - 1]), steps[|steps| - 1]);
    }
  }

  /** `Unseal` finds no Secret exactly for a node for which no group was ever written. */
  lemma UnknownNodeExactly(
    s: State, steps: seq<Step>, raw: string, parses: string -> bool, ip: string, data: Bytes, sets: seq<Volume>)
    requires Init(s) && Runnable(s, steps) && NamesNode(raw, parses) && data != ""
    ensures var r := Run(s, steps);
      UnsealWith(s.aead, parses, r.store.objects, raw, ip, data, sets) == Err(SecretNotFound) <==>
      forall p | p in r.made :: r.made[p].uuid != ToLower(raw)
  {
    var r := Run(s, steps);
    var name := SecretName(ToLower(raw));
    NodesRun(s, steps);
    RefusalsExactly(s.aead, parses, r.store.objects, raw, ip, data, sets);
    if p :| MadeNode(r.made, p, name) {
      SameNode(r.made[p].uuid, ToLower(raw));
    }
    forall p | p in r.made && r.made[p].uuid == ToLower(raw) ensures MadeNode(r.made, p, name) {
    }
  }

  // ---------------------------------------------------------------------------------------
  // The code of one call
  // ---------------------------------------------------------------------------------------

  datatype SealError = InvalidUuid | NoData | SealedElsewhere | AlreadyExists | Conflict

  /** The answer and the store are those of call `id` in `s`. */
  predicate Agrees(s: State, id: CallId, out: Result<Bytes, SealError>, store: Store) {
    store == s.store && id in s.calls &&
    match s.calls[id].pc
    case Sealed(volume, _) => out == Ok(volume.luksKey)
    case Failed => out.Err?
    case _ => false
  }

  /** The volume is new in a new Secret; the server decides whether there is one already. */
  method CreateNodeSecret(a: Aead, store: Store, c: Call, r: Random, ghost s: State, ghost id: CallId)
    returns (out: Result<Bytes, SealError>, store': Store)
    requires Enabled(s, WriteNew(id, r, true)) && s.aead == a && s.store == store && s.calls[id] == c
    ensures Agrees(Apply(s, WriteNew(id, r, true)), id, out, store')
    ensures out.Err? ==> out.error == AlreadyExists && Name(c) in store.objects
  {
    var v := NewVolume(a, c, r);
    var written := Create(store, Name(c), NewSecret(c.ip, v));
    if written.None? {
      return Err(AlreadyExists), store;
    }
    return Ok(v.luksKey), written.value;
  }

  /** The Secret that was read is changed in place and written back. */
  method AddVolumeToSecret(a: Aead, store: Store, c: Call, r: Random, ghost s: State, ghost id: CallId)
    returns (out: Result<Bytes, SealError>, store': Store)
    requires Enabled(s, WriteBack(id, r, true)) && s.aead == a && s.store == store && s.calls[id] == c
    ensures Agrees(Apply(s, WriteBack(id, r, true)), id, out, store')
    ensures out == Err(SealedElsewhere) <==> Field(c.pc.seen.data, SEALED_FROM_IP) != c.ip
    ensures out.Err? ==> out.error.SealedElsewhere? || out.error.Conflict?
  {
    var secret := new Secret(c.pc.seen);
    if Field(secret.data, SEALED_FROM_IP) != c.ip {
      return Err(SealedElsewhere), store;
    }
    var v := NewVolume(a, c, r);
    secret.AddVolume(v);
    var written := Update(store, Name(c), c.pc.seen, secret.data);
    if written.None? {
      return Err(Conflict), store;
    }
    return Ok(v.luksKey), written.value;
  }

  /** A call that nobody else interrupts: begin, read, write. */
  function Alone(s: State, id: CallId, uuid: string, ip: string, text: Bytes, r: Random): State
    requires id !in s.calls && text != "" && Fresh(s, r)
  {
    var s1 := Apply(s, Begin(id, uuid, ip, text));
    var s2 := Apply(s1, Read(id));
    Apply(s2, if s2.calls[id].pc == Absent then WriteNew(id, r, true) else WriteBack(id, r, true))
  }

  /** `Seal` performs the steps of the protocol; uninterrupted it fails only for a Secret sealed from another IP. */
  method Seal(
    a: Aead, parses: string -> bool, store: Store, raw: string, ip: string, text: Bytes, r: Random,
    ghost s: State, ghost id: CallId) returns (out: Result<Bytes, SealError>, store': Store)
    requires s.aead == a && s.store == store && id !in s.calls && Fresh(s, r)
    ensures ValidateNodeUUID(raw, parses).None? ==> out == Err(InvalidUuid) && store' == store
    ensures ValidateNodeUUID(raw, parses).Some? && text == "" ==> out == Err(NoData) && store' == store
    ensures ValidateNodeUUID(raw, parses).Some? && text != "" ==>
      var uuid := ValidateNodeUUID(raw, parses).value; var name := SecretName(uuid);
      Agrees(Alone(s, id, uuid, ip, text, r), id, out, store') &&
      (out.Err? <==> name in store.objects && Field(store.objects[name].data, SEALED_FROM_IP) != ip) &&
      (out.Err? ==> out.error == SealedElsewhere)
  {
    var uuid := ValidateNodeUUID(raw, parses);
    if uuid.None? {
      return Err(InvalidUuid), store;
    }
    if text == "" {
      return Err(NoData), store;
    }
    ghost var s1 := Apply(s, Begin(id, uuid.value, ip, text));
    ghost var s2 := Apply(s1, Read(id));
    var name := SecretName(uuid.value);
    if name !in store.objects {
      out, store' := CreateNodeSecret(a, store, Call(uuid.value, ip, text, Absent), r, s2, id);
    } else {
      out, store' := AddVolumeToSecret(a, store, Call(uuid.value, ip, text, Present(store.objects[name])), r, s2, id);
    }
  }
}
