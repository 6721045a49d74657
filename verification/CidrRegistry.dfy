/** The routing table: blocks of distinct clusters never meet, so a look-up has at most one answer. */
module CidrRegistry {
  import opened Options
  import opened Cidr

  datatype Entry = Entry(clusterName: string, namespace: string, cidr: IPNet)

  type Entries = map<string, Entry>

  datatype RegisterError = NameConflict(namespace: string) | Overlap(cluster: string)

  /** The name is taken in another namespace. */
  predicate Taken(es: Entries, name: string, namespace: string) {
    name in es && es[name].namespace != namespace
  }

  predicate Clash(es: Entries, name: string, cidr: IPNet, other: string) {
    other in es && other != name && CidrsOverlap(es[other].cidr, cidr)
  }

  ghost predicate Refused(es: Entries, name: string, namespace: string, cidr: IPNet) {
    Taken(es, name, namespace) || exists other :: Clash(es, name, cidr, other)
  }

  ghost function Registered(es: Entries, name: string, namespace: string, cidr: IPNet): Entries {
    if Refused(es, name, namespace, cidr) then es else es[name := Entry(name, namespace, cidr)]
  }

  class Registry {
    var entries: Entries

    constructor ()
      ensures entries == map[]
    {
      entries := map[];
    }

    /** Visits the entries in any order; the first offence found is reported and nothing is changed. */
    method Register(name: string, namespace: string, cidr: IPNet) returns (err: Option<RegisterError>)
      modifies this
      ensures entries == Registered(old(entries), name, namespace, cidr)
      ensures err.Some? <==> Refused(old(entries), name, namespace, cidr)
      ensures err.Some? && err.value.NameConflict? ==>
        Taken(old(entries), name, namespace) && err.value.namespace == old(entries)[name].namespace
      ensures err.Some? && err.value.Overlap? ==> Clash(old(entries), name, cidr, err.value.cluster)
    {
      var todo := entries.Keys;
      while todo != {}
        invariant todo <= entries.Keys && entries == old(entries)
        invariant name in entries && name !in todo ==> !Taken(entries, name, namespace)
        invariant forall other | other in entries && other !in todo :: !Clash(entries, name, cidr, other)
      {
        var existing :| existing in todo;
        todo := todo - {existing};
        var entry := entries[existing];
        if existing == name {
          if entry.namespace == namespace {
            continue;
          }
          return Some(NameConflict(entry.namespace));
        }
        if CidrsOverlap(entry.cidr, cidr) {
          assert Clash(entries, name, cidr, existing);
          return Some(Overlap(existing));
        }
      }
      entries := entries[name := Entry(name, namespace, cidr)];
      err := None;
    }

    method Deregister(name: string)
      modifies this
      ensures entries == old(entries) - {name}
    {
      entries := entries - {name};
    }

    /** Visits the entries in any order; where blocks do not meet the answer does not depend on it. */
    method Lookup(ip: IP) returns (r: Option<Entry>)
      ensures r.None? <==> forall c | c in entries :: !Contains(entries[c].cidr, ip)
      ensures r.Some? ==> exists c :: c in entries && r.value == entries[c] && Contains(entries[c].cidr, ip)
      ensures Disjoint(entries) ==>
        forall c | c in entries && Contains(entries[c].cidr, ip) :: r == Some(entries[c])
    {
      var todo := entries.Keys;
      while todo != {}
        invariant todo <= entries.Keys
        invariant forall c | c in entries && c !in todo :: !Contains(entries[c].cidr, ip)
      {
        var c :| c in todo;
        todo := todo - {c};
        if Contains(entries[c].cidr, ip) {
          if Disjoint(entries) {
            OnlyOneContains(entries, c, ip);
          }
          return Some(entries[c]);
        }
      }
      r := None;
    }
  }

  /** Every entry is a prefix block, and no address lies in the blocks of two clusters. */
  ghost predicate Disjoint(es: Entries) {
    (forall c | c in es :: Block(es[c].cidr)) &&
    (forall c, d | c in es && d in es && c != d :: !Meet(es[c].cidr, es[d].cidr))
  }

  lemma OnlyOneContains(es: Entries, c: string, ip: IP)
    requires Disjoint(es) && c in es && Contains(es[c].cidr, ip)
    ensures forall d | d in es && Contains(es[d].cidr, ip) :: d == c
  {
    forall d | d in es && Contains(es[d].cidr, ip) ensures d == c {
      assert Meet(es[c].cidr, es[d].cidr);
    }
  }

  /** `Register` accepts a block exactly when the name is free to use and it meets no other cluster's block. */
  lemma AcceptedExactly(es: Entries, name: string, namespace: string, cidr: IPNet)
    requires Disjoint(es) && Block(cidr)
    ensures Refused(es, name, namespace, cidr) <==>
      Taken(es, name, namespace) || exists c :: c in es && c != name && Meet(es[c].cidr, cidr)
    ensures Disjoint(Registered(es, name, namespace, cidr))
  {
    forall c | c in es ensures CidrsOverlap(es[c].cidr, cidr) <==> Meet(es[c].cidr, cidr) {
      OverlapIsMeeting(es[c].cidr, cidr);
    }
    if other :| Clash(es, name, cidr, other) {
      assert Meet(es[other].cidr, cidr);
    }
    if c :| c in es && c != name && Meet(es[c].cidr, cidr) {
      assert Clash(es, name, cidr, c);
    }
    forall c | c in es && c != name && !Meet(es[c].cidr, cidr) ensures !Meet(cidr, es[c].cidr) {
    }
  }

  datatype Op = RegisterOp(name: string, namespace: string, cidr: IPNet) | DeregisterOp(name: string)

  ghost function Apply(es: Entries, op: Op): Entries {
    match op
    case RegisterOp(name, namespace, cidr) => Registered(es, name, namespace, cidr)
    case DeregisterOp(name) => es - {name}
  }

  ghost function Run(ops: seq<Op>): Entries {
    if ops == [] then map[] else Apply(Run(ops[..|ops| - 1]), ops[|ops| - 1])
  }

  /** After any calls, accepted or refused, the blocks of distinct clusters do not meet. */
  lemma {:induction false} RunIsDisjoint(ops: seq<Op>)
    requires forall op | op in ops && op.RegisterOp? :: Block(op.cidr)
    ensures Disjoint(Run(ops))
  {
    if ops == [] {
    } else {
      RunIsDisjoint(ops[..|ops| - 1]);
      match ops[|ops| - 1]
      case RegisterOp(name, namespace, cidr) => AcceptedExactly(Run(ops[..|ops| - 1]), name, namespace, cidr);
      case DeregisterOp(_) =>
    }
  }

  /** Routing is unambiguous on every run: one cluster at most answers for an address. */
  lemma RoutingIsUnambiguous(ops: seq<Op>, ip: IP, c: string, d: string)
    requires forall op | op in ops && op.RegisterOp? :: Block(op.cidr)
    requires c in Run(ops) && d in Run(ops)
    requires Contains(Run(ops)[c].cidr, ip) && Contains(Run(ops)[d].cidr, ip)
    ensures c == d
  {
    RunIsDisjoint(ops);
    OnlyOneContains(Run(ops), c, ip);
  }

  /** Call `i` registered `c`: the name was free to use, and the block met no other cluster's block. */
  ghost predicate Accepted(ops: seq<Op>, i: int, c: string) {
    0 <= i < |ops| && ops[i].RegisterOp? && ops[i].name == c &&
    var es := Run(ops[..i]);
    !Taken(es, c, ops[i].namespace) && forall d | d in es && d != c :: !Meet(es[d].cidr, ops[i].cidr)
  }

  ghost predicate Ends(ops: seq<Op>, i: int, c: string) {
    Accepted(ops, i, c) || (0 <= i < |ops| && ops[i] == DeregisterOp(c))
  }

  /** Call `i` registered `c`, and no later call registered it anew or removed it. */
  ghost predicate Stands(ops: seq<Op>, i: int, c: string) {
    Accepted(ops, i, c) && forall j | i < j < |ops| :: !Ends(ops, j, c)
  }

  lemma EarlierCalls(ops: seq<Op>, i: int, c: string)
    requires 0 <= i < |ops| - 1
    ensures Accepted(ops[..|ops| - 1], i, c) <==> Accepted(ops, i, c)
    ensures Ends(ops[..|ops| - 1], i, c) <==> Ends(ops, i, c)
  {
    assert ops[..|ops| - 1][..i] == ops[..i];
  }

  /** What the last call did to the entry of `c`. */
  lemma LastCall(ops: seq<Op>, c: string)
    requires ops != [] && forall op | op in ops && op.RegisterOp? :: Block(op.cidr)
    ensures var n := |ops| - 1; var es := Run(ops[..n]);
      if Accepted(ops, n, c) then c in Run(ops) && Run(ops)[c] == Entry(c, ops[n].namespace, ops[n].cidr)
      else if ops[n] == DeregisterOp(c) then c !in Run(ops)
      else (c in Run(ops) <==> c in es) && (c in es ==> Run(ops)[c] == es[c])
  {
    var n := |ops| - 1;
    RunIsDisjoint(ops[..n]);
    if ops[n].RegisterOp? {
      AcceptedExactly(Run(ops[..n]), ops[n].name, ops[n].namespace, ops[n].cidr);
    }
  }

  lemma StandsBefore(ops: seq<Op>, i: int, c: string)
    requires 0 <= i < |ops| - 1
    ensures Stands(ops, i, c) <==> Stands(ops[..|ops| - 1], i, c) && !Ends(ops, |ops| - 1, c)
  {
    var n := |ops| - 1;
    EarlierCalls(ops, i, c);
    forall j | i < j < n ensures Ends(ops[..n], j, c) <==> Ends(ops, j, c) {
      EarlierCalls(ops, j, c);
    }
    if Stands(ops[..n], i, c) && !Ends(ops, n, c) {
      forall j | i < j < |ops| ensures !Ends(ops, j, c) {
        assert j < n ==> !Ends(ops[..n], j, c);
      }
    }
  }

  lemma {:induction false} StandingIsStored(ops: seq<Op>, i: int, c: string)
    requires (forall op | op in ops && op.RegisterOp? :: Block(op.cidr)) && Stands(ops, i, c)
    ensures c in Run(ops) && Run(ops)[c] == Entry(c, ops[i].namespace, ops[i].cidr)
  {
    var n := |ops| - 1;
    LastCall(ops, c);
    if i < n {
      StandsBefore(ops, i, c);
      StandingIsStored(ops[..n], i, c);
    }
  }

  lemma {:induction false} StoredStands(ops: seq<Op>, c: string) returns (i: int)
    requires (forall op | op in ops && op.RegisterOp? :: Block(op.cidr)) && c in Run(ops)
    ensures Stands(ops, i, c)
  {
    var n := |ops| - 1;
    LastCall(ops, c);
    if Accepted(ops, n, c) {
      i := n;
    } else {
      i := StoredStands(ops[..n], c);
      StandsBefore(ops, i, c);
    }
  }

  /**
  A cluster is routed exactly when some accepted registration of it still stands, and its entry is what that
  call asked for: its own name, its namespace and its block.
  */
  lemma EntriesExactly(ops: seq<Op>, c: string)
    requires forall op | op in ops && op.RegisterOp? :: Block(op.cidr)
    ensures c in Run(ops) <==> exists i :: Stands(ops, i, c)
    ensures forall i | Stands(ops, i, c) :: c in Run(ops) && Run(ops)[c] == Entry(c, ops[i].namespace, ops[i].cidr)
  {
    forall i | Stands(ops, i, c) ensures c in Run(ops) && Run(ops)[c] == Entry(c, ops[i].namespace, ops[i].cidr) {
      StandingIsStored(ops, i, c);
    }
    if c in Run(ops) {
      var i := StoredStands(ops, c);
    }
  }
}
