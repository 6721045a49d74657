/** Attestation nonces: bound to an address, used once, dropped after they expire. */
module NonceStore {
  import opened Options

  datatype Record = Record(expiresAt: int, ip: string)

  type Table = map<string, Record>

  datatype UseError = BadAddress | InvalidNonce | IpMismatch | ExpiredNonce

  /** `canonicalIP`: `None` where the address does not parse. */
  type Canon = string -> Option<string>

  function Generated(canon: Canon, ttl: int, t: Table, ip: string, nonce: string, now: int): Table {
    match canon(ip)
    case None => t
    case Some(addr) => t[nonce := Record(now + ttl, addr)]
  }

  function UseResult(canon: Canon, t: Table, ip: string, nonce: string, now: int): Option<UseError> {
    match canon(ip)
    case None => Some(BadAddress)
    case Some(addr) =>
      if nonce !in t then Some(InvalidNonce)
      else if addr != t[nonce].ip then Some(IpMismatch)
      else if now > t[nonce].expiresAt then Some(ExpiredNonce)
      else None
  }

  /** A use from the right address consumes the nonce, expired or not. */
  function Consumed(canon: Canon, t: Table, ip: string, nonce: string, now: int): Table {
    var r := UseResult(canon, t, ip, nonce, now);
    if r.None? || r.value.ExpiredNonce? then t - {nonce} else t
  }

  function Reaped(t: Table, now: int): Table {
    map n | n in t && !(now > t[n].expiresAt) :: t[n]
  }

  class Store {
    const ttl: int
    const canon: Canon
    var data: Table

    constructor (ttl: int, canon: Canon)
      ensures this.ttl == ttl && this.canon == canon && data == map[]
    {
      this.ttl, this.canon, data := ttl, canon, map[];
    }

    /** `nonce` is the random one; `now` is the clock as it was read before the lock. */
    method Generate(ip: string, nonce: string, now: int) returns (r: Option<int>)
      modifies this
      ensures data == Generated(canon, ttl, old(data), ip, nonce, now)
      ensures r == if canon(ip).None? then None else Some(now + ttl)
    {
      var addr := canon(ip);
      if addr.None? {
        return None;
      }
      data := data[nonce := Record(now + ttl, addr.value)];
      r := Some(now + ttl);
    }

    method Use(ip: string, nonce: string, now: int) returns (err: Option<UseError>)
      modifies this
      ensures err == UseResult(canon, old(data), ip, nonce, now)
      ensures data == Consumed(canon, old(data), ip, nonce, now)
    {
      var addr := canon(ip);
      if addr.None? {
        return Some(BadAddress);
      }
      if nonce !in data {
        return Some(InvalidNonce);
      }
      if addr.value != data[nonce].ip {
        return Some(IpMismatch);
      }
      if now > data[nonce].expiresAt {
        data := data - {nonce};
        return Some(ExpiredNonce);
      }
      data := data - {nonce};
      err := None;
    }

    /** One round of the reaper; entries are visited in any order and deleted on the way. */
    method Reap(now: int)
      modifies this
      ensures data == Reaped(old(data), now)
    {
      var todo := data.Keys;
      while todo != {}
        invariant todo <= data.Keys <= old(data).Keys
        invariant forall n | n in data :: data[n] == old(data)[n]
        invariant forall n | n in old(data) && n !in todo :: n in data <==> !(now > old(data)[n].expiresAt)
      {
        var n :| n in todo;
        todo := todo - {n};
        if now > data[n].expiresAt {
          data := data - {n};
        }
      }
    }
  }

  // ---------------------------------------------------------------------------------------
  // Runs
  // ---------------------------------------------------------------------------------------

  /** Calls in the order in which they took the lock; clock readings may come in any order. */
  datatype Call =
    | Generate(ip: string, nonce: string, now: int)
    | Use(ip: string, nonce: string, now: int)
    | Reap(now: int)

  function Apply(canon: Canon, ttl: int, t: Table, call: Call): Table {
    match call
    case Generate(ip, nonce, now) => Generated(canon, ttl, t, ip, nonce, now)
    case Use(ip, nonce, now) => Consumed(canon, t, ip, nonce, now)
    case Reap(now) => Reaped(t, now)
  }

  function Run(canon: Canon, ttl: int, calls: seq<Call>): Table {
    if calls == [] then map[] else Apply(canon, ttl, Run(canon, ttl, calls[..|calls| - 1]), calls[|calls| - 1])
  }

  predicate Issues(canon: Canon, call: Call, nonce: string) {
    call.Generate? && call.nonce == nonce && canon(call.ip).Some?
  }

  predicate Succeeds(canon: Canon, t: Table, call: Call, nonce: string) {
    call.Use? && call.nonce == nonce && UseResult(canon, t, call.ip, nonce, call.now).None?
  }

  function Issued(canon: Canon, calls: seq<Call>, nonce: string): nat {
    if calls == [] then 0
    else Issued(canon, calls[..|calls| - 1], nonce) + if Issues(canon, calls[|calls| - 1], nonce) then 1 else 0
  }

  function Successes(canon: Canon, ttl: int, calls: seq<Call>, nonce: string): nat {
    if calls == [] then 0
    else
      Successes(canon, ttl, calls[..|calls| - 1], nonce) +
      if Succeeds(canon, Run(canon, ttl, calls[..|calls| - 1]), calls[|calls| - 1], nonce) then 1 else 0
  }

  /** What the latest generation of the nonce recorded. */
  function LastIssue(canon: Canon, ttl: int, calls: seq<Call>, nonce: string): Option<Record> {
    if calls == [] then None
    else
      var c := calls[|calls| - 1];
      if Issues(canon, c, nonce) then Some(Record(c.now + ttl, canon(c.ip).value))
      else LastIssue(canon, ttl, calls[..|calls| - 1], nonce)
  }

  /** Uses and a record still held never outnumber the generations, and the record is of the latest one. */
  lemma {:induction false} SingleUse(canon: Canon, ttl: int, calls: seq<Call>, nonce: string)
    ensures var t := Run(canon, ttl, calls);
      Successes(canon, ttl, calls, nonce) + (if nonce in t then 1 else 0) <= Issued(canon, calls, nonce) &&
      (nonce in t ==> LastIssue(canon, ttl, calls, nonce) == Some(t[nonce]))
  {
    if calls == [] {
    } else {
      SingleUse(canon, ttl, calls[..|calls| - 1], nonce);
    }
  }

  /** A use that succeeds comes from the address of the latest generation, not after its expiry. */
  lemma SuccessIsGenuine(canon: Canon, ttl: int, calls: seq<Call>, call: Call, nonce: string)
    requires Succeeds(canon, Run(canon, ttl, calls), call, nonce)
    ensures Successes(canon, ttl, calls, nonce) < Issued(canon, calls, nonce)
    ensures var issue := LastIssue(canon, ttl, calls, nonce);
      issue.Some? && canon(call.ip) == Some(issue.value.ip) && call.now <= issue.value.expiresAt
  {
    SingleUse(canon, ttl, calls, nonce);
  }

  /** The reaper drops a record exactly when no use with a reading from now on could succeed. */
  lemma ReapsTheHopeless(canon: Canon, t: Table, now: int, nonce: string, ip: string)
    requires nonce in t && canon(ip) == Some(t[nonce].ip)
    ensures nonce !in Reaped(t, now) <==> forall later | later >= now :: UseResult(canon, t, ip, nonce, later).Some?
  {
    assert now >= now;
    if nonce in Reaped(t, now) {
      assert UseResult(canon, t, ip, nonce, now).None?;
    }
  }

  /** A use comes from the address that the record names. */
  predicate Rightful(canon: Canon, issue: Record, call: Call, nonce: string) {
    call.Use? && call.nonce == nonce && canon(call.ip) == Some(issue.ip)
  }

  /** Every answer of a use, each exactly. */
  lemma AnswersExactly(canon: Canon, t: Table, ip: string, nonce: string, now: int)
    ensures var r := UseResult(canon, t, ip, nonce, now);
      (r == Some(BadAddress) <==> canon(ip) == None) &&
      (r == Some(InvalidNonce) <==> canon(ip) != None && nonce !in t) &&
      (r == Some(IpMismatch) <==> canon(ip) != None && nonce in t && canon(ip) != Some(t[nonce].ip)) &&
      (r == Some(ExpiredNonce) <==> nonce in t && canon(ip) == Some(t[nonce].ip) && now > t[nonce].expiresAt) &&
      (r == None <==> nonce in t && canon(ip) == Some(t[nonce].ip) && now <= t[nonce].expiresAt)
  {
  }

  /** A use takes away its record exactly if it comes from the right address; no other record is touched. */
  lemma ConsumesExactly(canon: Canon, t: Table, ip: string, nonce: string, now: int, other: string)
    ensures var t' := Consumed(canon, t, ip, nonce, now);
      (other in t' <==> other in t && !(other == nonce && canon(ip) == Some(t[nonce].ip))) &&
      (other in t' ==> t'[other] == t[other])
  {
  }

  /** A use from another address changes nothing, so the rightful caller can still use the nonce. */
  lemma StrangersChangeNothing(canon: Canon, ttl: int, calls: seq<Call>, call: Call)
    requires call.Use?
    requires call.nonce in Run(canon, ttl, calls) ==> canon(call.ip) != Some(Run(canon, ttl, calls)[call.nonce].ip)
    ensures Run(canon, ttl, calls + [call]) == Run(canon, ttl, calls)
  {
    assert (calls + [call])[..|calls|] == calls;
  }

  /** Since the latest generation of the nonce, it was used from the right address, or reaped. */
  predicate GoneSince(canon: Canon, ttl: int, calls: seq<Call>, nonce: string) {
    calls != [] &&
    var before, last := calls[..|calls| - 1], calls[|calls| - 1];
    var issue := LastIssue(canon, ttl, before, nonce);
    !Issues(canon, last, nonce) &&
    (GoneSince(canon, ttl, before, nonce) ||
     (issue.Some? && (Rightful(canon, issue.value, last, nonce) || (last.Reap? && last.now > issue.value.expiresAt))))
  }

  lemma HeldStep(canon: Canon, ttl: int, t: Table, issue: Option<Record>, gone: bool, call: Call, nonce: string)
    requires nonce in t <==> issue.Some? && !gone
    requires nonce in t ==> t[nonce] == issue.value
    ensures var t' := Apply(canon, ttl, t, call);
      if Issues(canon, call, nonce) then nonce in t' && t'[nonce] == Record(call.now + ttl, canon(call.ip).value)
      else
        (nonce in t' <==>
          issue.Some? && !gone && !Rightful(canon, issue.value, call, nonce) && !(call.Reap? && call.now > issue.value.expiresAt)) &&
        (nonce in t' ==> t'[nonce] == issue.value)
  {
  }

  /** What the store holds, told from the calls alone. */
  lemma {:induction false} HeldExactly(canon: Canon, ttl: int, calls: seq<Call>, nonce: string)
    ensures var t := Run(canon, ttl, calls); var issue := LastIssue(canon, ttl, calls, nonce);
      (nonce in t <==> issue.Some? && !GoneSince(canon, ttl, calls, nonce)) && (nonce in t ==> issue == Some(t[nonce]))
  {
    if calls == [] {
    } else {
      var before, last := calls[..|calls| - 1], calls[|calls| - 1];
      HeldExactly(canon, ttl, before, nonce);
      HeldStep(canon, ttl, Run(canon, ttl, before), LastIssue(canon, ttl, before, nonce),
               GoneSince(canon, ttl, before, nonce), last, nonce);
    }
  }

  /**
  On every run a use succeeds exactly when the nonce was issued, to its address, has not been used from there or
  reaped since, and is not expired by the clock of the use.
  */
  lemma UseSucceedsExactly(canon: Canon, ttl: int, calls: seq<Call>, call: Call, nonce: string)
    requires call.Use? && call.nonce == nonce
    ensures Succeeds(canon, Run(canon, ttl, calls), call, nonce) <==>
      var issue := LastIssue(canon, ttl, calls, nonce);
      issue.Some? && !GoneSince(canon, ttl, calls, nonce) && Rightful(canon, issue.value, call, nonce) &&
      call.now <= issue.value.expiresAt
  {
    HeldExactly(canon, ttl, calls, nonce);
  }

  // ---------------------------------------------------------------------------------------
  // The reaper does not show
  // ---------------------------------------------------------------------------------------

  function WithoutReaps(calls: seq<Call>): seq<Call> {
    if calls == [] then []
    else WithoutReaps(calls[..|calls| - 1]) + if calls[|calls| - 1].Reap? then [] else [calls[|calls| - 1]]
  }

  /** The latest clock reading of a reaper round. */
  function LatestReap(calls: seq<Call>): Option<int> {
    if calls == [] then None
    else
      var m := LatestReap(calls[..|calls| - 1]);
      var c := calls[|calls| - 1];
      if !c.Reap? then m else if m.Some? && m.value > c.now then m else Some(c.now)
  }

  /** The tables differ only in records that had expired when the reaper last looked. */
  predicate Behind(t: Table, full: Table, latest: Option<int>) {
    (forall n | n in t :: n in full && full[n] == t[n]) &&
    (forall n | n in full && n !in t :: latest.Some? && latest.value > full[n].expiresAt)
  }

  lemma BehindStep(canon: Canon, ttl: int, t: Table, full: Table, calls: seq<Call>, call: Call)
    requires Behind(t, full, LatestReap(calls))
    ensures Behind(Apply(canon, ttl, t, call), if call.Reap? then full else Apply(canon, ttl, full, call),
                   LatestReap(calls + [call]))
  {
    assert (calls + [call])[..|calls|] == calls;
  }

  lemma RunWithoutReaps(canon: Canon, ttl: int, calls: seq<Call>)
    requires calls != []
    ensures var before := calls[..|calls| - 1]; var last := calls[|calls| - 1];
      var full := Run(canon, ttl, WithoutReaps(before));
      Run(canon, ttl, WithoutReaps(calls)) == if last.Reap? then full else Apply(canon, ttl, full, last)
  {
    var w := WithoutReaps(calls[..|calls| - 1]);
    if calls[|calls| - 1].Reap? {
      assert WithoutReaps(calls) == w;
    } else {
      assert WithoutReaps(calls)[..|w|] == w;
    }
  }

  /** On every run, overtaken uses included, the reaper has only taken records that were expired by its latest reading. */
  lemma {:induction false} RunIsBehind(canon: Canon, ttl: int, calls: seq<Call>)
    ensures Behind(Run(canon, ttl, calls), Run(canon, ttl, WithoutReaps(calls)), LatestReap(calls))
  {
    if calls == [] {
    } else {
      var before, last := calls[..|calls| - 1], calls[|calls| - 1];
      RunIsBehind(canon, ttl, before);
      BehindStep(canon, ttl, Run(canon, ttl, before), Run(canon, ttl, WithoutReaps(before)), before, last);
      RunWithoutReaps(canon, ttl, calls);
      assert before + [last] == calls;
    }
  }

  /** Since the latest generation of the nonce, a reaper round read a clock after that record's expiry. */
  predicate ReapedSince(canon: Canon, ttl: int, calls: seq<Call>, nonce: string) {
    calls != [] &&
    var before, last := calls[..|calls| - 1], calls[|calls| - 1];
    ReapedNext(canon, ReapedSince(canon, ttl, before, nonce), LastIssue(canon, ttl, before, nonce), last, nonce)
  }

  /** The tables agree on a nonce up to that: the reaper took the record, or both hold it, or neither does. */
  predicate Alike(t: Table, full: Table, nonce: string, reaped: bool, issue: Option<Record>) {
    (nonce in t <==> nonce in full && !reaped) &&
    (nonce in full ==> issue == Some(full[nonce])) && (nonce in t ==> t[nonce] == full[nonce])
  }

  /** What one call does to the two facts about its nonce. */
  predicate ReapedNext(canon: Canon, reaped: bool, issue: Option<Record>, call: Call, nonce: string) {
    !Issues(canon, call, nonce) && (reaped || (call.Reap? && issue.Some? && call.now > issue.value.expiresAt))
  }

  function IssueNext(canon: Canon, ttl: int, issue: Option<Record>, call: Call, nonce: string): Option<Record> {
    if Issues(canon, call, nonce) then Some(Record(call.now + ttl, canon(call.ip).value)) else issue
  }

  lemma AlikeStep(canon: Canon, ttl: int, t: Table, full: Table, call: Call, nonce: string, reaped: bool, issue: Option<Record>)
    requires Alike(t, full, nonce, reaped, issue)
    ensures Alike(Apply(canon, ttl, t, call), if call.Reap? then full else Apply(canon, ttl, full, call), nonce,
                  ReapedNext(canon, reaped, issue, call, nonce), IssueNext(canon, ttl, issue, call, nonce))
  {
  }

  lemma {:induction false} RunIsAlike(canon: Canon, ttl: int, calls: seq<Call>, nonce: string)
    ensures Alike(Run(canon, ttl, calls), Run(canon, ttl, WithoutReaps(calls)), nonce,
                  ReapedSince(canon, ttl, calls, nonce), LastIssue(canon, ttl, calls, nonce))
  {
    if calls == [] {
    } else {
      var before, last := calls[..|calls| - 1], calls[|calls| - 1];
      RunIsAlike(canon, ttl, before, nonce);
      RunWithoutReaps(canon, ttl, calls);
      AlikeStep(canon, ttl, Run(canon, ttl, before), Run(canon, ttl, WithoutReaps(before)), last, nonce,
                ReapedSince(canon, ttl, before, nonce), LastIssue(canon, ttl, before, nonce));
    }
  }

  /** Exactly what the reaper changes: a use succeeds as without it unless its record was reaped since it was issued. */
  lemma ReaperShowsExactly(canon: Canon, ttl: int, calls: seq<Call>, call: Call, nonce: string)
    ensures Succeeds(canon, Run(canon, ttl, calls), call, nonce) <==>
            Succeeds(canon, Run(canon, ttl, WithoutReaps(calls)), call, nonce) && !ReapedSince(canon, ttl, calls, nonce)
  {
    RunIsAlike(canon, ttl, calls, nonce);
  }

  /** The use reads a clock that is not behind any reaper round of `calls`. */
  predicate InTime(calls: seq<Call>, call: Call) {
    LatestReap(calls).Some? ==> LatestReap(calls).value <= call.now
  }

  /** So with a clock not behind the reaper's, which uses succeed does not depend on the reaper at all. */
  lemma ReaperIsInvisible(canon: Canon, ttl: int, calls: seq<Call>, call: Call, nonce: string)
    requires call.Use? && InTime(calls, call)
    ensures Succeeds(canon, Run(canon, ttl, calls), call, nonce) <==>
            Succeeds(canon, Run(canon, ttl, WithoutReaps(calls)), call, nonce)
  {
    RunIsBehind(canon, ttl, calls);
  }

  /** The condition is needed: a use that read its clock in time is refused when the reaper overtakes it. */
  lemma OvertakenByTheReaper(canon: Canon)
    requires canon("10.0.0.1") == Some("10.0.0.1")
    ensures var calls := [Generate("10.0.0.1", "n", 0), Reap(11)]; var call := Use("10.0.0.1", "n", 10);
      !Succeeds(canon, Run(canon, 10, calls), call, "n") && Succeeds(canon, Run(canon, 10, WithoutReaps(calls)), call, "n")
  {
    var calls := [Generate("10.0.0.1", "n", 0), Reap(11)];
    assert calls[..1] == [calls[0]] && calls[..1][..0] == [];
    assert Run(canon, 10, calls[..1]) == map["n" := Record(10, "10.0.0.1")];
    assert WithoutReaps(calls[..1]) == [calls[0]];
    assert WithoutReaps(calls) == calls[..1];
  }
}
