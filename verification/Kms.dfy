/** Sealing data of a node: encryption, the volume groups of a Secret, and the search that unseals. */
module Kms {
  import opened Options
  import opened ObjectStore

  // ---------------------------------------------------------------------------------------
  // Encryption
  // ---------------------------------------------------------------------------------------

  const KEY_SIZE := 32
  const AAD_NONCE_SIZE := 32
  const GCM_NONCE_SIZE := 12

  /** Authenticated encryption: key, nonce, text and associated data, in this order. */
  datatype Aead = Aead(
    seal: (Bytes, Bytes, Bytes, Bytes) -> Bytes,
    open: (Bytes, Bytes, Bytes, Bytes) -> Option<Bytes>)

  /** Sections 7.1 and 7.2 of NIST SP 800-38D: what was encrypted decrypts to itself. */
  ghost predicate Correct(a: Aead) {
    forall k, n, p, d :: a.open(k, n, a.seal(k, n, p, d), d) == Some(p)
  }

  /** One encryption that took place. */
  datatype Sealing = Sealing(key: Bytes, nonce: Bytes, text: Bytes, aad: Bytes)

  /**
  Among the encryptions that took place, none opens under the key and associated data of another that has
  a different key or different associated data.  Nothing is said about associated data that was not used.
  */
  ghost predicate Authentic(a: Aead, sealings: set<Sealing>) {
    forall u, v | u in sealings && v in sealings && (u.key != v.key || u.aad != v.aad) ::
      a.open(v.key, u.nonce, a.seal(u.key, u.nonce, u.text, u.aad), v.aad) == None
  }

  datatype CryptoError = BadKey | CipherTooShort | NotAuthentic

  predicate AesKey(key: Bytes) {
    |key| == 16 || |key| == 24 || |key| == 32
  }

  /** The random nonce, then the ciphertext. */
  function Encrypt(a: Aead, key: Bytes, nonce: Bytes, text: Bytes, aad: Bytes): Result<Bytes, CryptoError> {
    if !AesKey(key) then Err(BadKey) else Ok(nonce + a.seal(key, nonce, text, aad))
  }

  function Decrypt(a: Aead, key: Bytes, data: Bytes, aad: Bytes): Result<Bytes, CryptoError> {
    if !AesKey(key) then Err(BadKey)
    else if |data| < GCM_NONCE_SIZE then Err(CipherTooShort)
    else
      match a.open(key, data[..GCM_NONCE_SIZE], data[GCM_NONCE_SIZE..], aad)
      case Some(text) => Ok(text)
      case None => Err(NotAuthentic)
  }

  /** On the wire the nonce comes first and the ciphertext follows; a key of another size is refused. */
  lemma EncryptFrames(a: Aead, key: Bytes, nonce: Bytes, text: Bytes, aad: Bytes)
    requires |nonce| == GCM_NONCE_SIZE
    ensures var r := Encrypt(a, key, nonce, text, aad);
      (r.Ok? <==> |key| in {16, 24, 32}) &&
      (r.Ok? ==> |r.value| >= 12 && r.value[..12] == nonce && r.value[12..] == a.seal(key, nonce, text, aad))
  {
  }

  /** Every answer of the decryption, each exactly. */
  lemma DecryptExactly(a: Aead, key: Bytes, data: Bytes, aad: Bytes, text: Bytes)
    ensures var r := Decrypt(a, key, data, aad);
      (r == Err(BadKey) <==> |key| !in {16, 24, 32}) &&
      (r == Err(CipherTooShort) <==> |key| in {16, 24, 32} && |data| < 12) &&
      (r == Ok(text) <==> |key| in {16, 24, 32} && |data| >= 12 && a.open(key, data[..12], data[12..], aad) == Some(text))
  {
  }

  lemma DecryptEncrypt(a: Aead, key: Bytes, nonce: Bytes, text: Bytes, aad: Bytes)
    requires Correct(a) && AesKey(key) && |nonce| == GCM_NONCE_SIZE
    ensures Decrypt(a, key, Encrypt(a, key, nonce, text, aad).value, aad) == Ok(text)
  {
    var data := Encrypt(a, key, nonce, text, aad).value;
    assert data[..GCM_NONCE_SIZE] == nonce && data[GCM_NONCE_SIZE..] == a.seal(key, nonce, text, aad);
  }

  /** Under the key and associated data of any encryption in use, the data opens to its own text or not at all. */
  lemma DecryptForeign(a: Aead, sealings: set<Sealing>, u: Sealing, v: Sealing)
    requires Correct(a) && Authentic(a, sealings) && u in sealings && v in sealings
    requires AesKey(u.key) && |u.nonce| == GCM_NONCE_SIZE
    ensures var r := Decrypt(a, v.key, Encrypt(a, u.key, u.nonce, u.text, u.aad).value, v.aad);
      if u.key == v.key && u.aad == v.aad then r == Ok(u.text) else r.Err?
  {
    var data := Encrypt(a, u.key, u.nonce, u.text, u.aad).value;
    assert data[..GCM_NONCE_SIZE] == u.nonce && data[GCM_NONCE_SIZE..] == a.seal(u.key, u.nonce, u.text, u.aad);
  }

  // An encryption that satisfies both assumptions, whatever was sealed: they do not contradict each other.

  function Frame(s: Bytes): Bytes {
    seq(|s|, _ => '1') + "0" + s
  }

  lemma FrameIsUnique(s: Bytes, s': Bytes, rest: Bytes, rest': Bytes)
    requires Frame(s) + rest == Frame(s') + rest'
    ensures s == s' && rest == rest'
  {
    var x, y := Frame(s) + rest, Frame(s') + rest';
    assert x[|s|] == '0' && y[|s'|] == '0';
    assert forall i | 0 <= i < |s| :: x[i] == '1';
    assert forall i | 0 <= i < |s'| :: y[i] == '1';
    assert |s| == |s'|;
    assert x[|s| + 1..][..|s|] == s && y[|s'| + 1..][..|s'|] == s';
    assert x[2 * |s| + 1..] == rest && y[2 * |s'| + 1..] == rest';
  }

  function Framed(): Aead {
    Aead((key, nonce, text, aad) => Frame(key) + Frame(aad) + text,
         (key, nonce, data, aad) =>
           var head := Frame(key) + Frame(aad);
           if head <= data then Some(data[|head|..]) else None)
  }

  lemma AssumptionsCanHold(sealings: set<Sealing>)
    ensures Correct(Framed()) && Authentic(Framed(), sealings)
  {
    var a := Framed();
    forall u, v | u in sealings && v in sealings && (u.key != v.key || u.aad != v.aad)
      ensures a.open(v.key, u.nonce, a.seal(u.key, u.nonce, u.text, u.aad), v.aad) == None
    {
      var data, head := Frame(u.key) + Frame(u.aad) + u.text, Frame(v.key) + Frame(v.aad);
      if head <= data {
        var rest := data[|head|..];
        assert Frame(u.key) + (Frame(u.aad) + u.text) == data == Frame(v.key) + (Frame(v.aad) + rest);
        FrameIsUnique(u.key, v.key, Frame(u.aad) + u.text, Frame(v.aad) + rest);
        FrameIsUnique(u.aad, v.aad, u.text, rest);
      }
    }
  }

  function BuildAAD(uuid: string, aadNonce: Bytes, ip: string): Bytes {
    uuid + aadNonce + ip
  }

  /** The associated data is the node, then the nonce, then the address, each to its last byte. */
  lemma AadParts(uuid: string, aadNonce: Bytes, ip: string)
    ensures var aad := BuildAAD(uuid, aadNonce, ip); var n := |uuid| + |aadNonce|;
      |aad| == n + |ip| && aad[..|uuid|] == uuid && aad[|uuid|..n] == aadNonce && aad[n..] == ip
  {
  }

  /** Two uses agree on it only if they agree on all three. */
  lemma AadBinds(uuid: string, aadNonce: Bytes, ip: string, uuid': string, aadNonce': Bytes, ip': string)
    requires |uuid| == |uuid'| && |aadNonce| == |aadNonce'|
    ensures BuildAAD(uuid, aadNonce, ip) == BuildAAD(uuid', aadNonce', ip') <==>
            uuid == uuid' && aadNonce == aadNonce' && ip == ip'
  {
    AadParts(uuid, aadNonce, ip);
    AadParts(uuid', aadNonce', ip');
  }

  // ---------------------------------------------------------------------------------------
  // Volume groups in a Secret
  // ---------------------------------------------------------------------------------------

  const SEALED_FROM_IP := "sealedFromIP"
  const KEY := ".key"
  const NONCE := ".nonce"
  const LUKS_KEY := ".luksKey"

  datatype Volume = Volume(prefix: string, key: Bytes, aadNonce: Bytes, luksKey: Bytes)

  function Field(data: Data, name: string): Bytes {
    if name in data then data[name] else ""
  }

  function WithVolume(data: Data, v: Volume): Data {
    data[v.prefix + KEY := v.key][v.prefix + NONCE := v.aadNonce][v.prefix + LUKS_KEY := v.luksKey]
  }

  function NewSecret(ip: string, v: Volume): Data {
    WithVolume(map[SEALED_FROM_IP := ip], v)
  }

  predicate HasVolume(data: Data, v: Volume) {
    v.prefix + KEY in data && data[v.prefix + KEY] == v.key &&
    v.prefix + NONCE in data && data[v.prefix + NONCE] == v.aadNonce &&
    v.prefix + LUKS_KEY in data && data[v.prefix + LUKS_KEY] == v.luksKey
  }

  /** The names of a group determine its prefix, and no two suffixes or the IP entry can be confused. */
  lemma NamesApart(p: string, q: string)
    ensures p + KEY != q + NONCE && p + KEY != q + LUKS_KEY && p + NONCE != q + LUKS_KEY
    ensures p + KEY != SEALED_FROM_IP && p + NONCE != SEALED_FROM_IP && p + LUKS_KEY != SEALED_FROM_IP
    ensures p != q ==> p + KEY != q + KEY && p + NONCE != q + NONCE && p + LUKS_KEY != q + LUKS_KEY
  {
    Suffixes(p, KEY);
    Suffixes(q, KEY);
    Suffixes(p, NONCE);
    Suffixes(q, NONCE);
    Suffixes(p, LUKS_KEY);
    Suffixes(q, LUKS_KEY);
  }

  lemma Suffixes(p: string, suffix: string)
    requires |suffix| >= 4
    ensures |p + suffix| == |p| + |suffix|
    ensures (p + suffix)[..|p|] == p
    ensures (p + suffix)[|p| + |suffix| - 1] == suffix[|suffix| - 1]
    ensures (p + suffix)[|p| + |suffix| - 3] == suffix[|suffix| - 3]
  {
  }

  /** Writing a group keeps the IP, and keeps another group exactly when the prefixes differ or nothing changes. */
  lemma WithVolumeKeeps(data: Data, v: Volume, w: Volume)
    ensures HasVolume(WithVolume(data, v), v)
    ensures HasVolume(data, w) ==> (HasVolume(WithVolume(data, v), w) <==> w.prefix != v.prefix || w == v)
    ensures Field(WithVolume(data, v), SEALED_FROM_IP) == Field(data, SEALED_FROM_IP)
  {
    NamesApart(v.prefix, v.prefix);
    NamesApart(v.prefix, w.prefix);
    NamesApart(w.prefix, v.prefix);
  }

  /** Exactly the three entries of the group are written. */
  lemma WithVolumeExactly(data: Data, v: Volume, name: string)
    ensures var data' := WithVolume(data, v); var own := {v.prefix + ".key", v.prefix + ".nonce", v.prefix + ".luksKey"};
      (name in data' <==> name in data || name in own) && (name in data && name !in own ==> data'[name] == data[name])
  {
  }

  /** A Secret that the client has read and changes in place before it writes it back. */
  class Secret {
    var data: Data
    const version: nat

    constructor (o: Obj)
      ensures data == o.data && version == o.version
    {
      data, version := o.data, o.version;
    }

    /** The three writes of `addVolumeToSecret`. */
    method AddVolume(v: Volume)
      modifies this
      ensures data == WithVolume(old(data), v)
    {
      data := data[v.prefix + KEY := v.key];
      data := data[v.prefix + NONCE := v.aadNonce];
      data := data[v.prefix + LUKS_KEY := v.luksKey];
    }
  }

  function Group(data: Data, p: string): Volume {
    Volume(p, Field(data, p + KEY), Field(data, p + NONCE), Field(data, p + LUKS_KEY))
  }

  /** A group that `Unseal` will try. */
  predicate Complete(data: Data, p: string) {
    p != "" && p + KEY in data &&
    |Group(data, p).key| == KEY_SIZE && |Group(data, p).aadNonce| == AAD_NONCE_SIZE && |Group(data, p).luksKey| > 0
  }

  /** What a complete group is, entry by entry. */
  lemma CompleteExactly(data: Data, p: string)
    ensures Complete(data, p) <==>
      p != "" && p + ".key" in data && |data[p + ".key"]| == 32 && p + ".nonce" in data && |data[p + ".nonce"]| == 32 &&
      p + ".luksKey" in data && data[p + ".luksKey"] != ""
    ensures Complete(data, p) ==> Group(data, p) == Volume(p, data[p + ".key"], data[p + ".nonce"], data[p + ".luksKey"])
  {
  }

  /** `sets` holds the complete groups of `data`, each once, in some order. */
  ghost predicate Parsed(data: Data, sets: seq<Volume>) {
    (forall v | v in sets :: Complete(data, v.prefix) && v == Group(data, v.prefix)) &&
    (forall p | Complete(data, p) :: Group(data, p) in sets) &&
    (forall i, j | 0 <= i < j < |sets| :: sets[i].prefix != sets[j].prefix)
  }

  predicate HasSuffix(s: string, suffix: string) {
    |suffix| <= |s| && s[|s| - |suffix|..] == suffix
  }

  /** `strings.TrimSuffix(k, ".key")` for a name that has the suffix. */
  function PrefixOf(k: string): (p: string)
    requires HasSuffix(k, KEY)
    ensures p + KEY == k
  {
    k[..|k| - |KEY|]
  }

  lemma PrefixOfName(p: string)
    ensures HasSuffix(p + KEY, KEY) && PrefixOf(p + KEY) == p
  {
    assert (p + KEY)[|p|..] == KEY;
  }

  /** Visits the names in any order. */
  method ParseVolumeKeySets(data: Data) returns (sets: seq<Volume>)
    ensures Parsed(data, sets)
  {
    sets := [];
    var seen: set<string> := {};
    var todo := data.Keys;
    while todo != {}
      invariant todo <= data.Keys
      invariant forall p | p in seen :: p + KEY in data && p + KEY !in todo
      invariant forall v | v in sets :: v.prefix in seen && Complete(data, v.prefix) && v == Group(data, v.prefix)
      invariant forall p | Complete(data, p) && p + KEY !in todo :: Group(data, p) in sets
      invariant forall i, j | 0 <= i < j < |sets| :: sets[i].prefix != sets[j].prefix
    {
      var k :| k in todo;
      todo := todo - {k};
      forall p | p + KEY == k ensures HasSuffix(k, KEY) && PrefixOf(k) == p {
        PrefixOfName(p);
      }
      if !HasSuffix(k, KEY) {
        continue;
      }
      var prefix := PrefixOf(k);
      if prefix == "" || prefix in seen {
        continue;
      }
      seen := seen + {prefix};
      var v := Group(data, prefix);
      if |v.key| != KEY_SIZE || |v.aadNonce| != AAD_NONCE_SIZE || |v.luksKey| == 0 {
        continue;
      }
      sets := sets + [v];
    }
  }

  // ---------------------------------------------------------------------------------------
  // Unseal
  // ---------------------------------------------------------------------------------------

  function Open(a: Aead, uuid: string, ip: string, data: Bytes, v: Volume): Result<Bytes, CryptoError> {
    Decrypt(a, v.key, data, BuildAAD(uuid, v.aadNonce, ip))
  }

  /** The first group that opens the data. */
  function FirstOpen(a: Aead, uuid: string, ip: string, data: Bytes, sets: seq<Volume>): Option<Bytes> {
    if sets == [] then None
    else
      match Open(a, uuid, ip, data, sets[0])
      case Ok(text) => Some(text)
      case Err(_) => FirstOpen(a, uuid, ip, data, sets[1..])
  }

  datatype UnsealError = BadUuid | DataRequired | SecretNotFound | IpMismatch | NoVolumeKeySets | NoMatchingSecret

  function LowerChar(c: char): char {
    if 'A' <= c <= 'Z' then c - 'A' + 'a' else c
  }

  function ToLower(s: string): string {
    seq(|s|, i requires 0 <= i < |s| => LowerChar(s[i]))
  }

  /** The same letter, or the capital and the small form of one. */
  predicate SameLetter(a: char, b: char) {
    a == b ||
    ('A' <= a <= 'Z' && b as int == a as int + 32) ||
    ('A' <= b <= 'Z' && a as int == b as int + 32)
  }

  predicate SameSpelling(s: string, t: string) {
    |s| == |t| && forall i | 0 <= i < |s| :: SameLetter(s[i], t[i])
  }

  lemma LowerLetter(a: char, b: char)
    ensures LowerChar(a) == LowerChar(b) <==> SameLetter(a, b)
    ensures !('A' <= LowerChar(a) <= 'Z')
  {
  }

  /** Spellings are lowered to the same exactly when they differ only in case, and nothing stays a capital. */
  lemma LowerExactly(s: string, t: string)
    ensures ToLower(s) == ToLower(t) <==> SameSpelling(s, t)
    ensures forall i | 0 <= i < |ToLower(s)| :: !('A' <= ToLower(s)[i] <= 'Z')
  {
    forall i | 0 <= i < |s| ensures !('A' <= ToLower(s)[i] <= 'Z') {
      LowerLetter(s[i], s[i]);
    }
    if |s| == |t| {
      forall i | 0 <= i < |s| ensures ToLower(s)[i] == ToLower(t)[i] <==> SameLetter(s[i], t[i]) {
        LowerLetter(s[i], t[i]);
      }
    }
  }

  /** `parses` stands for `uuid.Parse`. */
  function ValidateNodeUUID(raw: string, parses: string -> bool): Option<string> {
    var uuid := ToLower(raw);
    if uuid == "" || !parses(uuid) then None else Some(uuid)
  }

  /** Two spellings that differ only in case name the same node, or neither names one. */
  lemma SpellingsNameOneNode(raw: string, raw': string, parses: string -> bool)
    requires SameSpelling(raw, raw')
    ensures ValidateNodeUUID(raw, parses) == ValidateNodeUUID(raw', parses)
    ensures ValidateNodeUUID(raw, parses).Some? <==> raw != "" && parses(ToLower(raw))
  {
    LowerExactly(raw, raw');
  }

  function SecretName(uuid: string): string {
    "talos-kms-" + uuid
  }

  /** What `Unseal` answers when it visits the groups of the node's Secret in the order `sets`. */
  function UnsealWith(
    a: Aead, parses: string -> bool, objects: map<string, Obj>, raw: string, ip: string, data: Bytes, sets: seq<Volume>
  ): Result<Bytes, UnsealError> {
    var uuid := ValidateNodeUUID(raw, parses);
    if uuid.None? then Err(BadUuid)
    else if data == "" then Err(DataRequired)
    else if SecretName(uuid.value) !in objects then Err(SecretNotFound)
    else if Field(objects[SecretName(uuid.value)].data, SEALED_FROM_IP) != ip then Err(IpMismatch)
    else if sets == [] then Err(NoVolumeKeySets)
    else
      match FirstOpen(a, uuid.value, ip, data, sets)
      case Some(text) => Ok(text)
      case None => Err(NoMatchingSecret)
  }

  /** If the request passes the checks, `sets` are the groups of the node's Secret, in whatever order. */
  ghost predicate Visits(
    parses: string -> bool, objects: map<string, Obj>, raw: string, ip: string, data: Bytes, sets: seq<Volume>)
  {
    var uuid := ValidateNodeUUID(raw, parses);
    uuid.Some? && data != "" && SecretName(uuid.value) in objects &&
    Field(objects[SecretName(uuid.value)].data, SEALED_FROM_IP) == ip
    ==> Parsed(objects[SecretName(uuid.value)].data, sets)
  }

  /** The answer is the one for some order of the groups. */
  method Unseal(a: Aead, parses: string -> bool, objects: map<string, Obj>, raw: string, ip: string, data: Bytes)
    returns (r: Result<Bytes, UnsealError>)
    ensures exists sets :: Visits(parses, objects, raw, ip, data, sets) &&
                           r == UnsealWith(a, parses, objects, raw, ip, data, sets)
  {
    var uuid := ValidateNodeUUID(raw, parses);
    if uuid.None? {
      assert Visits(parses, objects, raw, ip, data, []);
      return Err(BadUuid);
    }
    if data == "" {
      assert Visits(parses, objects, raw, ip, data, []);
      return Err(DataRequired);
    }
    var name := SecretName(uuid.value);
    if name !in objects {
      assert Visits(parses, objects, raw, ip, data, []);
      return Err(SecretNotFound);
    }
    if Field(objects[name].data, SEALED_FROM_IP) != ip {
      assert Visits(parses, objects, raw, ip, data, []);
      return Err(IpMismatch);
    }
    var keySets := ParseVolumeKeySets(objects[name].data);
    assert Visits(parses, objects, raw, ip, data, keySets);
    if |keySets| == 0 {
      return Err(NoVolumeKeySets);
    }
    for i := 0 to |keySets|
      invariant FirstOpen(a, uuid.value, ip, data, keySets) == FirstOpen(a, uuid.value, ip, data, keySets[i..])
    {
      assert keySets[i..][1..] == keySets[i + 1..];
      var attempt := Open(a, uuid.value, ip, data, keySets[i]);
      if attempt.Ok? {
        return Ok(attempt.value);
      }
    }
    r := Err(NoMatchingSecret);
  }

  /** The group that sealed the data is found, wherever it stands among groups that give its text or cannot open it. */
  lemma {:induction false} FirstOpenFinds(a: Aead, uuid: string, ip: string, data: Bytes, sets: seq<Volume>, own: Volume, text: Bytes)
    requires own in sets && Open(a, uuid, ip, data, own) == Ok(text)
    requires forall v | v in sets :: Open(a, uuid, ip, data, v).Err? || Open(a, uuid, ip, data, v) == Ok(text)
    ensures FirstOpen(a, uuid, ip, data, sets) == Some(text)
  {
    if Open(a, uuid, ip, data, sets[0]).Ok? {
    } else {
      assert sets == [sets[0]] + sets[1..];
      FirstOpenFinds(a, uuid, ip, data, sets[1..], own, text);
    }
  }

  predicate OpensFirst(a: Aead, uuid: string, ip: string, data: Bytes, sets: seq<Volume>, i: int) {
    0 <= i < |sets| && Open(a, uuid, ip, data, sets[i]).Ok? && forall j | 0 <= j < i :: Open(a, uuid, ip, data, sets[j]).Err?
  }

  /** The answer of the search is that of the first group that opens the data, and none if no group does. */
  lemma {:induction false} FirstOpenExactly(a: Aead, uuid: string, ip: string, data: Bytes, sets: seq<Volume>)
    ensures FirstOpen(a, uuid, ip, data, sets).None? <==> forall v | v in sets :: Open(a, uuid, ip, data, v).Err?
    ensures forall i | OpensFirst(a, uuid, ip, data, sets, i) ::
      FirstOpen(a, uuid, ip, data, sets) == Some(Open(a, uuid, ip, data, sets[i]).value)
  {
    if sets == [] {
    } else {
      assert sets == [sets[0]] + sets[1..];
      FirstOpenExactly(a, uuid, ip, data, sets[1..]);
      forall i | OpensFirst(a, uuid, ip, data, sets, i)
        ensures FirstOpen(a, uuid, ip, data, sets) == Some(Open(a, uuid, ip, data, sets[i]).value)
      {
        if i > 0 {
          assert OpensFirst(a, uuid, ip, data, sets[1..], i - 1);
        }
      }
    }
  }

  predicate NamesNode(raw: string, parses: string -> bool) {
    raw != "" && parses(ToLower(raw))
  }

  /** The request names a node, brings data and comes from the address the node's Secret was sealed from. */
  predicate Admitted(parses: string -> bool, objects: map<string, Obj>, raw: string, ip: string, data: Bytes) {
    NamesNode(raw, parses) && data != "" && "talos-kms-" + ToLower(raw) in objects &&
    Field(objects["talos-kms-" + ToLower(raw)].data, "sealedFromIP") == ip
  }

  /** Every refusal of `Unseal`, each exactly, whatever the order of the groups. */
  lemma RefusalsExactly(
    a: Aead, parses: string -> bool, objects: map<string, Obj>, raw: string, ip: string, data: Bytes, sets: seq<Volume>)
    ensures var r := UnsealWith(a, parses, objects, raw, ip, data, sets); var name := "talos-kms-" + ToLower(raw);
      (r == Err(BadUuid) <==> !NamesNode(raw, parses)) &&
      (r == Err(DataRequired) <==> NamesNode(raw, parses) && data == "") &&
      (r == Err(SecretNotFound) <==> NamesNode(raw, parses) && data != "" && name !in objects) &&
      (r == Err(IpMismatch) <==>
        NamesNode(raw, parses) && data != "" && name in objects && Field(objects[name].data, "sealedFromIP") != ip) &&
      (r == Err(NoVolumeKeySets) <==> Admitted(parses, objects, raw, ip, data) && sets == []) &&
      (r == Err(NoMatchingSecret) <==>
        Admitted(parses, objects, raw, ip, data) && sets != [] &&
        forall v | v in sets :: Open(a, ToLower(raw), ip, data, v).Err?)
  {
    FirstOpenExactly(a, ToLower(raw), ip, data, sets);
  }
}
