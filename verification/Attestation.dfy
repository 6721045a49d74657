/** Acceptance of an attestation report against a policy. */
module Attestation {
  import opened Options

  type Bytes = string

  // ---------------------------------------------------------------------------------------
  // The PCR selection bitmap (TPMS_PCR_SELECTION, section 10.6.2 of Part 2 of the TPM 2.0 Library)
  // ---------------------------------------------------------------------------------------

  /** `1 << bit` */
  function LowBit(bit: nat): bv8
    requires bit < 8
  {
    match bit
    case 0 => 0x01 case 1 => 0x02 case 2 => 0x04 case 3 => 0x08
    case 4 => 0x10 case 5 => 0x20 case 6 => 0x40 case 7 => 0x80
  }

  predicate BitSet(b: bv8, bit: nat)
    requires bit < 8
  {
    b & LowBit(bit) != 0
  }

  /** The table of masks is that of the shifts. */
  lemma LowBitIsShift(bit: nat)
    requires bit < 8
    ensures LowBit(bit) == 1 as bv8 << bit
  {
  }

  /** PCR `k` is bit `k % 8` of byte `k / 8`, the least significant bit first. */
  predicate Selected(bitmap: seq<bv8>, k: int) {
    0 <= k < 8 * |bitmap| && BitSet(bitmap[k / 8], k % 8)
  }

  predicate Increasing(xs: seq<int>) {
    forall i, j | 0 <= i < j < |xs| :: xs[i] < xs[j]
  }

  /** The bitmap as one list of bits. */
  function Bits(bitmap: seq<bv8>): (bits: seq<bool>)
    ensures |bits| == 8 * |bitmap|
  {
    seq(8 * |bitmap|, k requires 0 <= k < 8 * |bitmap| => Selected(bitmap, k))
  }

  /** The positions of the bits that are set, in order. */
  function Indices(bits: seq<bool>): (xs: seq<int>) {
    if bits == [] then []
    else
      var n := |bits| - 1;
      if bits[n] then Indices(bits[..n]) + [n] else Indices(bits[..n])
  }

  lemma {:induction false} IndicesExact(bits: seq<bool>, k: int)
    ensures k in Indices(bits) <==> 0 <= k < |bits| && bits[k]
  {
    if bits == [] {
    } else {
      IndicesExact(bits[..|bits| - 1], k);
    }
  }

  lemma {:induction false} IndicesIncrease(bits: seq<bool>)
    ensures Increasing(Indices(bits)) && forall i | 0 <= i < |Indices(bits)| :: 0 <= Indices(bits)[i] < |bits|
  {
    if bits == [] {
    } else {
      IndicesIncrease(bits[..|bits| - 1]);
    }
  }

  /** An increasing list is determined by its elements. */
  lemma {:induction false} IncreasingIsUnique(xs: seq<int>, ys: seq<int>)
    requires Increasing(xs) && Increasing(ys) && forall k :: k in xs <==> k in ys
    ensures xs == ys
  {
    assert |xs| > 0 ==> xs[0] in xs;
    assert |ys| > 0 ==> ys[0] in ys;
    assert |xs| > 0 <==> |ys| > 0;
    if |xs| > 0 {
      assert xs[0] == ys[0];
      forall k ensures k in xs[1..] <==> k in ys[1..] {
        assert k in xs[1..] ==> k in xs && k != xs[0];
        assert k in ys[1..] ==> k in ys && k != ys[0];
      }
      IncreasingIsUnique(xs[1..], ys[1..]);
    }
  }

  lemma BitAt(bitmap: seq<bv8>, byteIdx: nat, bit: nat)
    requires byteIdx < |bitmap| && bit < 8
    ensures Bits(bitmap)[byteIdx * 8 + bit] == BitSet(bitmap[byteIdx], bit)
  {
    var k := byteIdx * 8 + bit;
    assert k / 8 == byteIdx;
    assert k % 8 == bit;
  }

  lemma NextIndex(bitmap: seq<bv8>, byteIdx: nat, bit: nat)
    requires byteIdx < |bitmap| && bit < 8
    ensures var (bits, k) := (Bits(bitmap), byteIdx * 8 + bit);
            Indices(bits[..k + 1]) == Indices(bits[..k]) + if BitSet(bitmap[byteIdx], bit) then [k] else []
  {
    var bits, k := Bits(bitmap), byteIdx * 8 + bit;
    BitAt(bitmap, byteIdx, bit);
    assert bits[..k + 1][..k] == bits[..k];
  }

  function Insert(x: int, xs: seq<int>): (r: seq<int>)
    ensures multiset(r) == multiset(xs) + multiset{x}
  {
    if xs == [] || x <= xs[0] then [x] + xs
    else
      assert xs == [xs[0]] + xs[1..];
      [xs[0]] + Insert(x, xs[1..])
  }

  /** `sort.Ints` */
  function SortInts(xs: seq<int>): (r: seq<int>)
    ensures multiset(r) == multiset(xs)
  {
    if xs == [] then []
    else
      assert xs == [xs[0]] + xs[1..];
      Insert(xs[0], SortInts(xs[1..]))
  }

  lemma SortOfIncreasing(xs: seq<int>)
    requires Increasing(xs)
    ensures SortInts(xs) == xs
  {
    if xs != [] {
      SortOfIncreasing(xs[1..]);
    }
  }

  /** The indices that the lowest `n` bits of byte `byteIdx` select. */
  function OfByte(b: bv8, byteIdx: nat, n: nat): seq<int>
    requires n <= 8
  {
    if n == 0 then []
    else OfByte(b, byteIdx, n - 1) + if BitSet(b, n - 1) then [byteIdx * 8 + n - 1] else []
  }

  lemma {:induction false} ByteByByte(bitmap: seq<bv8>, byteIdx: nat, n: nat)
    requires byteIdx < |bitmap| && n <= 8
    ensures Indices(Bits(bitmap)[..byteIdx * 8 + n]) ==
            Indices(Bits(bitmap)[..byteIdx * 8]) + OfByte(bitmap[byteIdx], byteIdx, n)
  {
    if n == 0 {
    } else {
      ByteByByte(bitmap, byteIdx, n - 1);
      NextIndex(bitmap, byteIdx, n - 1);
    }
  }

  /** The inner loop: the bits of one byte. */
  method IndicesOfByte(b: bv8, byteIdx: nat, before: seq<int>) returns (indices: seq<int>)
    ensures indices == before + OfByte(b, byteIdx, 8)
  {
    indices := before;
    for bit := 0 to 8
      invariant indices == before + OfByte(b, byteIdx, bit)
    {
      if BitSet(b, bit) {
        indices := indices + [byteIdx * 8 + bit];
      }
    }
  }

  /** The result is the increasing list of the selected indices. */
  method PcrIndicesFromSelection(bitmap: seq<bv8>) returns (indices: seq<int>)
    ensures indices == Indices(Bits(bitmap))
  {
    indices := [];
    for byteIdx := 0 to |bitmap|
      invariant indices == Indices(Bits(bitmap)[..byteIdx * 8])
    {
      indices := IndicesOfByte(bitmap[byteIdx], byteIdx, indices);
      ByteByByte(bitmap, byteIdx, 8);
    }
    assert Bits(bitmap)[..|bitmap| * 8] == Bits(bitmap);
    IndicesIncrease(Bits(bitmap));
    SortOfIncreasing(indices);
    indices := SortInts(indices);
  }

  /** The result is the only increasing list that holds exactly the selected indices. */
  lemma IndicesAreTheSelected(bitmap: seq<bv8>, xs: seq<int>)
    ensures xs == Indices(Bits(bitmap)) <==> Increasing(xs) && forall k :: k in xs <==> Selected(bitmap, k)
  {
    var ys := Indices(Bits(bitmap));
    IndicesIncrease(Bits(bitmap));
    forall k ensures k in ys <==> Selected(bitmap, k) {
      IndicesExact(Bits(bitmap), k);
    }
    if Increasing(xs) && forall k :: k in xs <==> Selected(bitmap, k) {
      assert forall k :: k in xs <==> k in ys;
      IncreasingIsUnique(xs, ys);
    }
  }

  // ---------------------------------------------------------------------------------------
  // Reports, and the libraries that decode and check their parts
  // ---------------------------------------------------------------------------------------

  datatype Component = Component(name: string, measurement: string)

  datatype Report = Report(
    components: seq<Component>,
    pcrs: map<int, string>,
    quote: string,
    signature: string,
    tpmPublicKey: string)

  datatype Algorithm = Sha256 | Ecdsa | OtherAlgorithm(id: nat)
  datatype AttestType = Quote | OtherType(id: nat)
  datatype Selection = Selection(hash: Algorithm, bitmap: seq<bv8>)
  datatype QuoteInfo = QuoteInfo(selections: seq<Selection>, pcrDigest: Bytes)
  datatype Attest = Attest(kind: AttestType, extraData: Bytes, quote: Option<QuoteInfo>)
  datatype Ecc = Ecc(r: Bytes, s: Bytes)
  datatype Signature = Signature(algorithm: Algorithm, ecc: Option<Ecc>)
  datatype PublicKey = EcdsaKey(point: Bytes) | OtherKey(der: Bytes)

  /** The hex, TPM, PEM and hashing libraries: any functions at all. */
  datatype Libraries = Libraries(
    hex: string -> Option<Bytes>,
    sha256: Bytes -> Bytes,
    attest: Bytes -> Option<Attest>,
    publicKey: Bytes -> Option<PublicKey>,
    signature: Bytes -> Option<Signature>,
    verify: (PublicKey, Bytes, Ecc) -> bool)

  datatype Error =
    | BadQuoteHex | BadAttest | UnexpectedAttestationType | NonceMismatch | NotAQuote
    | NoPcrSelection | MissingPcr(idx: int) | BadPcrHex(idx: int) | PcrDigestMismatch
    | BadSignatureHex | BadKeyHex | BadPublicKey | BadSignature | UnexpectedSignatureAlgorithm
    | NoEccSignature | TpmSignatureInvalid
    | MissingComponent(name: string) | ComponentMismatch(name: string) | PcrMismatch(idx: int)

  datatype Check = QuoteCheck | DigestCheck | SignatureCheck | ComponentCheck | PcrCheck

  /** The check that an error comes from. */
  function CheckOf(e: Error): Check {
    match e
    case BadQuoteHex | BadAttest | UnexpectedAttestationType | NonceMismatch | NotAQuote => QuoteCheck
    case NoPcrSelection | MissingPcr(_) | BadPcrHex(_) | PcrDigestMismatch => DigestCheck
    case MissingComponent(_) | ComponentMismatch(_) => ComponentCheck
    case PcrMismatch(_) => PcrCheck
    case _ => SignatureCheck
  }

  // ---------------------------------------------------------------------------------------
  // The digest of the selected PCRs
  // ---------------------------------------------------------------------------------------

  function StripHexPrefix(value: string): string {
    if |value| >= 2 && (value[..2] == "0x" || value[..2] == "0X") then value[2..] else value
  }

  /** PCR `idx` as bytes. */
  function PcrValue(lib: Libraries, pcrs: map<int, string>, idx: int): Result<Bytes, Error> {
    if idx !in pcrs then Err(MissingPcr(idx))
    else
      var raw := lib.hex(StripHexPrefix(pcrs[idx]));
      if raw.None? then Err(BadPcrHex(idx)) else Ok(raw.value)
  }

  /** The values of the PCRs in `indices` one after the other, or the error of the first that has none. */
  function PcrBytes(lib: Libraries, pcrs: map<int, string>, indices: seq<int>): Result<Bytes, Error> {
    if indices == [] then Ok([])
    else
      var n := |indices| - 1;
      var before := PcrBytes(lib, pcrs, indices[..n]);
      var last := PcrValue(lib, pcrs, indices[n]);
      if before.Err? then before else if last.Err? then last else Ok(before.value + last.value)
  }

  predicate Known(lib: Libraries, pcrs: map<int, string>, indices: seq<int>) {
    forall i | 0 <= i < |indices| :: PcrValue(lib, pcrs, indices[i]).Ok?
  }

  lemma {:induction false} PcrBytesKnown(lib: Libraries, pcrs: map<int, string>, indices: seq<int>)
    ensures PcrBytes(lib, pcrs, indices).Ok? <==> Known(lib, pcrs, indices)
  {
    if indices == [] {
    } else {
      var n := |indices| - 1;
      PcrBytesKnown(lib, pcrs, indices[..n]);
      assert indices == indices[..n] + [indices[n]];
    }
  }

  /** An error among the first PCRs is the error of all. */
  lemma {:induction false} PcrBytesStops(lib: Libraries, pcrs: map<int, string>, indices: seq<int>, n: nat)
    requires n <= |indices| && PcrBytes(lib, pcrs, indices[..n]).Err?
    ensures PcrBytes(lib, pcrs, indices) == PcrBytes(lib, pcrs, indices[..n])
    decreases |indices|
  {
    if n == |indices| {
      assert indices[..n] == indices;
    } else {
      var m := |indices| - 1;
      assert indices[..m][..n] == indices[..n];
      PcrBytesStops(lib, pcrs, indices[..m], n);
    }
  }

  /** A prefix `0x` or `0X` is dropped, once, and nothing else is. */
  lemma StripExactly(value: string, rest: string)
    ensures StripHexPrefix("0x" + rest) == rest && StripHexPrefix("0X" + rest) == rest
    ensures !("0x" <= value) && !("0X" <= value) ==> StripHexPrefix(value) == value
  {
    assert ("0x" + rest)[..2] == "0x" && ("0x" + rest)[2..] == rest;
    assert ("0X" + rest)[..2] == "0X" && ("0X" + rest)[2..] == rest;
    if |value| >= 2 && (value[..2] == "0x" || value[..2] == "0X") {
      assert value[..2] <= value;
    }
  }

  /** Each answer about one PCR, exactly. */
  lemma PcrValueExactly(lib: Libraries, pcrs: map<int, string>, idx: int, raw: Bytes)
    ensures var r := PcrValue(lib, pcrs, idx);
      (r == Ok(raw) <==> idx in pcrs && lib.hex(StripHexPrefix(pcrs[idx])) == Some(raw)) &&
      (r == Err(MissingPcr(idx)) <==> idx !in pcrs) &&
      (r == Err(BadPcrHex(idx)) <==> idx in pcrs && lib.hex(StripHexPrefix(pcrs[idx])) == None)
  {
  }

  lemma PcrBytesOne(lib: Libraries, pcrs: map<int, string>, idx: int)
    ensures PcrBytes(lib, pcrs, [idx]) == PcrValue(lib, pcrs, idx)
  {
    var v := PcrValue(lib, pcrs, idx);
    assert [idx][..0] == [];
    assert v.Ok? ==> [] + v.value == v.value;
  }

  lemma {:induction false} PcrBytesJoin(lib: Libraries, pcrs: map<int, string>, xs: seq<int>, ys: seq<int>)
    requires PcrBytes(lib, pcrs, xs).Ok? && PcrBytes(lib, pcrs, ys).Ok?
    ensures PcrBytes(lib, pcrs, xs + ys) == Ok(PcrBytes(lib, pcrs, xs).value + PcrBytes(lib, pcrs, ys).value)
  {
    var a := PcrBytes(lib, pcrs, xs).value;
    if ys == [] {
      assert xs + ys == xs && a + [] == a;
    } else {
      var n := |ys| - 1;
      PcrBytesJoin(lib, pcrs, xs, ys[..n]);
      assert (xs + ys)[..|xs| + n] == xs + ys[..n] && (xs + ys)[|xs| + n] == ys[n];
      var b, c := PcrBytes(lib, pcrs, ys[..n]).value, PcrValue(lib, pcrs, ys[n]).value;
      assert a + b + c == a + (b + c);
    }
  }

  /** The values stand in the order of the indices. */
  lemma PcrBytesInOrder(lib: Libraries, pcrs: map<int, string>, xs: seq<int>, ys: seq<int>)
    requires Known(lib, pcrs, xs) && Known(lib, pcrs, ys)
    ensures PcrBytes(lib, pcrs, xs).Ok? && PcrBytes(lib, pcrs, ys).Ok?
    ensures PcrBytes(lib, pcrs, xs + ys) == Ok(PcrBytes(lib, pcrs, xs).value + PcrBytes(lib, pcrs, ys).value)
  {
    PcrBytesKnown(lib, pcrs, xs);
    PcrBytesKnown(lib, pcrs, ys);
    PcrBytesJoin(lib, pcrs, xs, ys);
  }

  /** PCR number `i` of the list is the first without a value. */
  predicate FirstUnknown(lib: Libraries, pcrs: map<int, string>, indices: seq<int>, i: int) {
    0 <= i < |indices| && Known(lib, pcrs, indices[..i]) && PcrValue(lib, pcrs, indices[i]).Err?
  }

  /** The error is that of the first PCR without a value. */
  lemma PcrBytesFirstError(lib: Libraries, pcrs: map<int, string>, indices: seq<int>, i: nat)
    requires FirstUnknown(lib, pcrs, indices, i)
    ensures PcrBytes(lib, pcrs, indices) == PcrValue(lib, pcrs, indices[i])
  {
    PcrBytesKnown(lib, pcrs, indices[..i]);
    assert indices[..i + 1][..i] == indices[..i];
    PcrBytesStops(lib, pcrs, indices, i + 1);
  }

  /** The digest written one PCR at a time is the hash of the whole. */
  method PcrDigest(lib: Libraries, pcrs: map<int, string>, indices: seq<int>) returns (r: Result<Bytes, Error>)
    ensures var all := PcrBytes(lib, pcrs, indices);
            r == if all.Ok? then Ok(lib.sha256(all.value)) else all
  {
    var written: Bytes := [];
    for i := 0 to |indices|
      invariant PcrBytes(lib, pcrs, indices[..i]) == Ok(written)
    {
      assert indices[..i + 1][..i] == indices[..i];
      var value := PcrValue(lib, pcrs, indices[i]);
      if value.Err? {
        PcrBytesStops(lib, pcrs, indices, i + 1);
        return value;
      }
      written := written + value.value;
    }
    assert indices[..|indices|] == indices;
    return Ok(lib.sha256(written));
  }

  /** `i` is the first selection made with SHA-256. */
  predicate FirstSha256(selections: seq<Selection>, i: int) {
    0 <= i < |selections| && selections[i].hash == Sha256 && forall j | 0 <= j < i :: selections[j].hash != Sha256
  }

  /** The quote's digest is the one of the reported PCRs that its SHA-256 selection names. */
  ghost predicate DigestAgrees(lib: Libraries, info: QuoteInfo, pcrs: map<int, string>) {
    exists i | FirstSha256(info.selections, i) ::
      PcrBytesOf(lib, info.selections[i], pcrs).Ok? &&
      info.pcrDigest == lib.sha256(PcrBytesOf(lib, info.selections[i], pcrs).value)
  }

  function PcrBytesOf(lib: Libraries, selection: Selection, pcrs: map<int, string>): Result<Bytes, Error> {
    PcrBytes(lib, pcrs, Indices(Bits(selection.bitmap)))
  }

  method ComputePcrDigest(lib: Libraries, info: QuoteInfo, pcrs: map<int, string>) returns (r: Result<Bytes, Error>)
    ensures r == Err(NoPcrSelection) <==> forall i | 0 <= i < |info.selections| :: info.selections[i].hash != Sha256
    ensures forall i | FirstSha256(info.selections, i) ::
              var all := PcrBytesOf(lib, info.selections[i], pcrs);
              r == if all.Ok? then Ok(lib.sha256(all.value)) else all
    ensures DigestAgrees(lib, info, pcrs) <==> r == Ok(info.pcrDigest)
    ensures r.Err? ==> CheckOf(r.error) == DigestCheck
  {
    if |info.selections| == 0 {
      return Err(NoPcrSelection);
    }
    var i := 0;
    while i < |info.selections| && info.selections[i].hash != Sha256
      invariant i <= |info.selections|
      invariant forall j | 0 <= j < i :: info.selections[j].hash != Sha256
    {
      i := i + 1;
    }
    if i == |info.selections| {
      return Err(NoPcrSelection);
    }
    assert FirstSha256(info.selections, i);
    assert forall j | FirstSha256(info.selections, j) :: j == i;
    var indices := PcrIndicesFromSelection(info.selections[i].bitmap);
    PcrErrors(lib, pcrs, indices);
    r := PcrDigest(lib, pcrs, indices);
  }

  /** What PcrBytes fails with: never the lack of a selection. */
  lemma {:induction false} PcrErrors(lib: Libraries, pcrs: map<int, string>, indices: seq<int>)
    ensures var r := PcrBytes(lib, pcrs, indices); r.Err? ==> r.error.MissingPcr? || r.error.BadPcrHex?
  {
    if indices == [] {
    } else {
      PcrErrors(lib, pcrs, indices[..|indices| - 1]);
    }
  }

  // ---------------------------------------------------------------------------------------
  // The quote and its signature
  // ---------------------------------------------------------------------------------------

  function ParseAttest(lib: Libraries, hexQuote: string, nonce: string): (r: Result<(QuoteInfo, Bytes), Error>)
    ensures r.Ok? <==> Quotes(lib, hexQuote, nonce)
    ensures r.Ok? ==> r.value == (QuoteOf(lib, hexQuote, nonce), lib.sha256(lib.hex(hexQuote).value))
    ensures r == Err(NonceMismatch) <==> exists other | other != nonce :: Dated(lib, hexQuote, other)
    ensures r.Err? ==> CheckOf(r.error) == QuoteCheck
  {
    var raw := lib.hex(hexQuote);
    if raw.None? then Err(BadQuoteHex)
    else
      var att := lib.attest(raw.value);
      if att.None? then Err(BadAttest)
      else if att.value.kind != Quote then Err(UnexpectedAttestationType)
      else if att.value.extraData != nonce then assert Dated(lib, hexQuote, att.value.extraData); Err(NonceMismatch)
      else if att.value.quote.None? then Err(NotAQuote)
      else Ok((att.value.quote.value, lib.sha256(raw.value)))
  }

  /** `hexQuote` says it is a quote, and it holds `nonce`. */
  predicate Dated(lib: Libraries, hexQuote: string, nonce: string) {
    lib.hex(hexQuote).Some? &&
    var att := lib.attest(lib.hex(hexQuote).value);
    att.Some? && att.value.kind == Quote && att.value.extraData == nonce
  }

  /** `hexQuote` is a quote made for `nonce`. */
  predicate Quotes(lib: Libraries, hexQuote: string, nonce: string) {
    Dated(lib, hexQuote, nonce) && lib.attest(lib.hex(hexQuote).value).value.quote.Some?
  }

  function QuoteOf(lib: Libraries, hexQuote: string, nonce: string): QuoteInfo
    requires Quotes(lib, hexQuote, nonce)
  {
    lib.attest(lib.hex(hexQuote).value).value.quote.value
  }

  /** The report's signature and key stand for `ecc` and `key`, both of ECDSA. */
  predicate Decodes(lib: Libraries, hexSignature: string, hexKey: string, ecc: Ecc, key: PublicKey) {
    && lib.hex(hexSignature).Some? && lib.hex(hexKey).Some?
    && lib.signature(lib.hex(hexSignature).value) == Some(Signature(Ecdsa, Some(ecc)))
    && lib.publicKey(lib.hex(hexKey).value) == Some(key) && key.EcdsaKey?
  }

  function ParseSignature(lib: Libraries, hexSignature: string, hexKey: string): (r: Result<(Ecc, PublicKey), Error>)
    ensures r.Err? ==> CheckOf(r.error) == SignatureCheck
  {
    var sig := lib.hex(hexSignature);
    if sig.None? then Err(BadSignatureHex)
    else
      var pem := lib.hex(hexKey);
      if pem.None? then Err(BadKeyHex)
      else
        var key := lib.publicKey(pem.value);
        if key.None? then Err(BadPublicKey)
        else
          var tpm := lib.signature(sig.value);
          if tpm.None? then Err(BadSignature)
          else if tpm.value.algorithm != Ecdsa then Err(UnexpectedSignatureAlgorithm)
          else if tpm.value.ecc.None? then Err(NoEccSignature)
          else if !key.value.EcdsaKey? then Err(TpmSignatureInvalid)
          else Ok((tpm.value.ecc.value, key.value))
  }

  lemma ParsesExactly(lib: Libraries, hexSignature: string, hexKey: string, ecc: Ecc, key: PublicKey)
    ensures ParseSignature(lib, hexSignature, hexKey) == Ok((ecc, key)) <==>
            Decodes(lib, hexSignature, hexKey, ecc, key)
  {
  }

  // ---------------------------------------------------------------------------------------
  // Components and PCRs against the policy
  // ---------------------------------------------------------------------------------------

  /** Component `c` is the last one called `name`. */
  predicate LastNamed(components: seq<Component>, name: string, c: Component) {
    exists i :: 0 <= i < |components| && components[i] == c && c.name == name &&
                forall j | i < j < |components| :: components[j].name != name
  }

  predicate Named(components: seq<Component>, name: string) {
    exists i :: 0 <= i < |components| && components[i].name == name
  }

  predicate ComponentMatches(reported: seq<Component>, want: Component) {
    exists c :: c in reported && LastNamed(reported, want.name, c) && c.measurement == want.measurement
  }

  /** The report's last component of each of the first `n` policy names is as measured. */
  predicate ComponentsMatch(reported: seq<Component>, policy: seq<Component>, n: nat)
    requires n <= |policy|
  {
    forall i | 0 <= i < n :: ComponentMatches(reported, policy[i])
  }

  predicate PcrsMatch(reported: map<int, string>, policy: map<int, string>) {
    forall idx | idx in policy :: idx in reported && reported[idx] == policy[idx]
  }

  /** `byName` holds the last component of each name. */
  ghost predicate Tabulates(byName: map<string, Component>, components: seq<Component>) {
    && (forall name :: name in byName <==> Named(components, name))
    && (forall name | name in byName :: LastNamed(components, name, byName[name]))
  }

  lemma LastIsUnique(components: seq<Component>, name: string, c: Component, d: Component)
    requires LastNamed(components, name, c) && LastNamed(components, name, d)
    ensures c == d && c in components
  {}

  lemma TabulateOne(byName: map<string, Component>, components: seq<Component>, c: Component)
    requires Tabulates(byName, components)
    ensures Tabulates(byName[c.name := c], components + [c])
  {
    var longer := components + [c];
    assert longer[|components|] == c;
    forall name ensures Named(longer, name) <==> name == c.name || Named(components, name) {
      if i :| 0 <= i < |components| && components[i].name == name {
        assert longer[i].name == name;
      }
    }
    forall name | name in byName && name != c.name ensures LastNamed(longer, name, byName[name]) {
      var i :| 0 <= i < |components| && components[i] == byName[name] && byName[name].name == name &&
               forall j | i < j < |components| :: components[j].name != name;
      assert longer[i] == byName[name];
    }
    assert LastNamed(longer, c.name, c);
  }

  method TabulateComponents(reported: seq<Component>) returns (byName: map<string, Component>)
    ensures Tabulates(byName, reported)
  {
    byName := map[];
    for i := 0 to |reported|
      invariant Tabulates(byName, reported[..i])
    {
      TabulateOne(byName, reported[..i], reported[i]);
      assert reported[..i + 1] == reported[..i] + [reported[i]];
      byName := byName[reported[i].name := reported[i]];
    }
    assert reported[..|reported|] == reported;
  }

  lemma MatchesByTable(byName: map<string, Component>, reported: seq<Component>, want: Component)
    requires Tabulates(byName, reported)
    ensures ComponentMatches(reported, want) <==>
            want.name in byName && byName[want.name].measurement == want.measurement
  {
    if c :| c in reported && LastNamed(reported, want.name, c) && c.measurement == want.measurement {
      assert Named(reported, want.name);
      LastIsUnique(reported, want.name, c, byName[want.name]);
    }
    if want.name in byName {
      LastIsUnique(reported, want.name, byName[want.name], byName[want.name]);
    }
  }

  /** One policy component, checked against the table of the reported ones. */
  method ValidateComponent(ghost reported: seq<Component>, byName: map<string, Component>, want: Component)
    returns (err: Option<Error>)
    requires Tabulates(byName, reported)
    ensures err.None? <==> ComponentMatches(reported, want)
    ensures err.Some? ==> err.value == ComponentError(reported, want)
  {
    MatchesByTable(byName, reported, want);
    if want.name !in byName {
      return Some(MissingComponent(want.name));
    }
    if byName[want.name].measurement != want.measurement {
      return Some(ComponentMismatch(want.name));
    }
    return None;
  }

  function ComponentError(reported: seq<Component>, want: Component): Error {
    if Named(reported, want.name) then ComponentMismatch(want.name) else MissingComponent(want.name)
  }

  /** Policy component `i` is the first the report fails. */
  predicate FailsAt(reported: seq<Component>, policy: seq<Component>, i: int) {
    0 <= i < |policy| && ComponentsMatch(reported, policy, i) && !ComponentMatches(reported, policy[i])
  }

  method ValidateComponents(reported: seq<Component>, policy: seq<Component>) returns (err: Option<Error>)
    ensures err.None? <==> ComponentsMatch(reported, policy, |policy|)
    ensures err.Some? ==> exists i :: FailsAt(reported, policy, i) && err.value == ComponentError(reported, policy[i])
  {
    var byName := TabulateComponents(reported);
    for i := 0 to |policy|
      invariant ComponentsMatch(reported, policy, i)
    {
      err := ValidateComponent(reported, byName, policy[i]);
      if err.Some? {
        assert FailsAt(reported, policy, i);
        return;
      }
    }
    return None;
  }

  /** The policy's PCRs are visited in any order, so any one that fails may be reported. */
  method ValidatePcrs(reported: map<int, string>, policy: map<int, string>) returns (err: Option<Error>)
    ensures err.None? <==> PcrsMatch(reported, policy)
    ensures err.Some? ==> err.value.PcrMismatch? && err.value.idx in policy &&
                          !(err.value.idx in reported && reported[err.value.idx] == policy[err.value.idx])
  {
    var left := policy.Items;
    while left != {}
      invariant left <= policy.Items
      invariant forall idx | idx in policy && (idx, policy[idx]) !in left :: idx in reported && reported[idx] == policy[idx]
      decreases |left|
    {
      var item :| item in left;
      var (idx, want) := item;
      if idx !in reported || reported[idx] != want {
        return Some(PcrMismatch(idx));
      }
      left := left - {item};
    }
    return None;
  }

  // ---------------------------------------------------------------------------------------
  // Acceptance
  // ---------------------------------------------------------------------------------------

  /** The report's signature is one over the hash of its quote. */
  ghost predicate Signed(lib: Libraries, r: Report) {
    var quote, s := lib.hex(r.quote), ParseSignature(lib, r.signature, r.tpmPublicKey);
    quote.Some? && s.Ok? && lib.verify(s.value.1, lib.sha256(quote.value), s.value.0)
  }

  ghost predicate Passes(lib: Libraries, r: Report, nonce: string, policy: Report, check: Check) {
    match check
    case QuoteCheck => Quotes(lib, r.quote, nonce)
    case DigestCheck => Quotes(lib, r.quote, nonce) && DigestAgrees(lib, QuoteOf(lib, r.quote, nonce), r.pcrs)
    case SignatureCheck => Signed(lib, r)
    case ComponentCheck => ComponentsMatch(r.components, policy.components, |policy.components|)
    case PcrCheck => PcrsMatch(r.pcrs, policy.pcrs)
  }

  function Before(check: Check): seq<Check> {
    match check
    case QuoteCheck => []
    case DigestCheck => [QuoteCheck]
    case SignatureCheck => [QuoteCheck, DigestCheck]
    case ComponentCheck => [QuoteCheck, DigestCheck, SignatureCheck]
    case PcrCheck => [QuoteCheck, DigestCheck, SignatureCheck, ComponentCheck]
  }

  /** The report is accepted exactly when it passes every check, and is refused for the first that it fails. */
  method CompliantWith(lib: Libraries, r: Report, nonce: string, policy: Report)
    returns (ok: bool, err: Option<Error>)
    ensures ok <==> err.None?
    ensures err.Some? ==> !Passes(lib, r, nonce, policy, CheckOf(err.value))
    ensures ok <==> forall check :: Passes(lib, r, nonce, policy, check)
    ensures err.Some? ==> forall check | check in Before(CheckOf(err.value)) :: Passes(lib, r, nonce, policy, check)
    ensures err == Some(NonceMismatch) <==> exists other | other != nonce :: Dated(lib, r.quote, other)
  {
    var attest := ParseAttest(lib, r.quote, nonce);
    if attest.Err? {
      return false, Some(attest.error);
    }
    var (info, quoteDigest) := attest.value;
    var digest := ComputePcrDigest(lib, info, r.pcrs);
    if digest.Err? {
      return false, Some(digest.error);
    }
    if digest.value != info.pcrDigest {
      return false, Some(PcrDigestMismatch);
    }
    var signature := ParseSignature(lib, r.signature, r.tpmPublicKey);
    if signature.Err? {
      return false, Some(signature.error);
    }
    if !lib.verify(signature.value.1, quoteDigest, signature.value.0) {
      return false, Some(TpmSignatureInvalid);
    }
    err := ValidateComponents(r.components, policy.components);
    if err.None? {
      err := ValidatePcrs(r.pcrs, policy.pcrs);
    }
    ok := err.None?;
  }

  /** The bytes depend on the listed PCRs alone. */
  lemma {:induction false} PcrBytesLocal(
    lib: Libraries, pcrs: map<int, string>, others: map<int, string>, indices: seq<int>)
    requires forall i | 0 <= i < |indices| ::
               indices[i] in pcrs && indices[i] in others && pcrs[indices[i]] == others[indices[i]]
    ensures PcrBytes(lib, pcrs, indices) == PcrBytes(lib, others, indices)
  {
    if indices == [] {
    } else {
      PcrBytesLocal(lib, pcrs, others, indices[..|indices| - 1]);
    }
  }

  /**
   * A signed quote that is accepted vouches for the policy: where the policy names every PCR the quote selects, the
   * digest in the quote is the digest of the policy's own values.
   */
  lemma QuoteVouchesForPolicy(lib: Libraries, r: Report, nonce: string, policy: Report, i: nat)
    requires forall check :: Passes(lib, r, nonce, policy, check)
    requires Quotes(lib, r.quote, nonce) && FirstSha256(QuoteOf(lib, r.quote, nonce).selections, i)
    requires var selection := QuoteOf(lib, r.quote, nonce).selections[i];
             forall k | Selected(selection.bitmap, k) :: k in policy.pcrs
    ensures DigestAgrees(lib, QuoteOf(lib, r.quote, nonce), policy.pcrs)
  {
    assert Passes(lib, r, nonce, policy, DigestCheck) && Passes(lib, r, nonce, policy, PcrCheck);
    var selection := QuoteOf(lib, r.quote, nonce).selections[i];
    var indices := Indices(Bits(selection.bitmap));
    forall j | 0 <= j < |indices|
      ensures indices[j] in r.pcrs && indices[j] in policy.pcrs && r.pcrs[indices[j]] == policy.pcrs[indices[j]]
    {
      assert indices[j] in indices;
      IndicesExact(Bits(selection.bitmap), indices[j]);
    }
    PcrBytesLocal(lib, r.pcrs, policy.pcrs, indices);
  }
}
