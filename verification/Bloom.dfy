/** The Bloom filter over addresses, and the Tron filter that asks it before
    the exact check. Hashing and lower-casing are parameters: the results need
    only that they are functions. */
module Bloom {

  /** Lower-casing, hash `i` of a lower-cased address, number of bits, number
      of hash functions. */
  datatype Scheme = Scheme(lower: string -> string, hash: (string, nat) -> nat, size: nat, hashes: nat)

  /** What the filter was told, in order. */
  datatype Op = BuildOp(addresses: seq<string>) | AddOp(address: string) | ClearOp

  /** The addresses told since the last Build (included) or Clear. */
  function Told(ops: seq<Op>): seq<string> {
    if ops == [] then []
    else
      match ops[|ops| - 1]
      case BuildOp(addresses) => addresses
      case AddOp(a) => Told(ops[..|ops| - 1]) + [a]
      case ClearOp => []
  }

  /** Whether anything was built or added since the last Clear. */
  predicate Begun(ops: seq<Op>) {
    ops != [] && !ops[|ops| - 1].ClearOp?
  }

  function Bit(s: Scheme, lowered: string, i: nat): (b: nat)
    requires s.size > 0
    ensures b < s.size
  {
    s.hash(lowered, i) % s.size
  }

  /** `b` is the bit of one of the first `n` hashes. */
  ghost predicate BitAmong(s: Scheme, lowered: string, n: nat, b: nat)
    requires s.size > 0
  {
    exists i: nat :: i < n && Bit(s, lowered, i) == b
  }

  /** `b` is a bit of an address told. */
  ghost predicate Marked(s: Scheme, told: seq<string>, b: nat)
    requires s.size > 0
  {
    exists k: nat :: k < |told| && BitAmong(s, s.lower(told[k]), s.hashes, b)
  }

  ghost predicate Mirrors(s: Scheme, bits: seq<bool>, told: seq<string>)
    requires s.size > 0
  {
    |bits| == s.size && forall b: nat :: b < s.size ==> (bits[b] <==> Marked(s, told, b))
  }

  /** Every bit of the address is a bit of some address told. */
  ghost predicate Covered(s: Scheme, told: seq<string>, a: string)
    requires s.size > 0
  {
    forall i: nat :: i < s.hashes ==> Marked(s, told, Bit(s, s.lower(a), i))
  }

  lemma MarkedSnoc(s: Scheme, told: seq<string>, a: string, b: nat)
    requires s.size > 0
    ensures Marked(s, told + [a], b) <==> Marked(s, told, b) || BitAmong(s, s.lower(a), s.hashes, b)
  {
    var longer := told + [a];
    if Marked(s, told, b) {
      var k: nat :| k < |told| && BitAmong(s, s.lower(told[k]), s.hashes, b);
      assert longer[k] == told[k];
    }
    assert longer[|told|] == a;
  }

  /** No false negatives: an address told, in whatever letter case, is covered. */
  lemma ToldIsCovered(s: Scheme, told: seq<string>, k: nat, a: string)
    requires s.size > 0 && k < |told| && s.lower(told[k]) == s.lower(a)
    ensures Covered(s, told, a)
  {
    forall i: nat | i < s.hashes ensures Marked(s, told, Bit(s, s.lower(a), i)) {
      assert BitAmong(s, s.lower(told[k]), s.hashes, Bit(s, s.lower(a), i));
    }
  }

  /** Some hash of some address told is `b` modulo the number of bits. */
  ghost predicate HashedTo(s: Scheme, told: seq<string>, b: nat)
    requires s.size > 0
  {
    exists k: nat, j: nat :: k < |told| && j < s.hashes && s.hash(s.lower(told[k]), j) % s.size == b
  }

  lemma MarkedExact(s: Scheme, told: seq<string>, b: nat)
    requires s.size > 0
    ensures Marked(s, told, b) <==> HashedTo(s, told, b)
  {
    if Marked(s, told, b) {
      var k: nat :| k < |told| && BitAmong(s, s.lower(told[k]), s.hashes, b);
      var j: nat :| j < s.hashes && Bit(s, s.lower(told[k]), j) == b;
      assert s.hash(s.lower(told[k]), j) % s.size == b;
    }
    if HashedTo(s, told, b) {
      var k: nat, j: nat :| k < |told| && j < s.hashes && s.hash(s.lower(told[k]), j) % s.size == b;
      assert Bit(s, s.lower(told[k]), j) == b;
      assert BitAmong(s, s.lower(told[k]), s.hashes, b);
    }
  }

  /** Covered, spelled out in hashes: each hash of the address agrees, modulo the
      number of bits, with some hash of some address told. */
  lemma CoveredExact(s: Scheme, told: seq<string>, a: string)
    requires s.size > 0
    ensures Covered(s, told, a) <==>
              forall i: nat :: i < s.hashes ==> HashedTo(s, told, s.hash(s.lower(a), i) % s.size)
  {
    forall i: nat | i < s.hashes
      ensures Marked(s, told, Bit(s, s.lower(a), i)) <==> HashedTo(s, told, s.hash(s.lower(a), i) % s.size)
    {
      MarkedExact(s, told, s.hash(s.lower(a), i) % s.size);
    }
  }

  /** What the filter was told: Build starts over with its list, Add adds one,
      Clear forgets all, and only after Clear or at first nothing was told. */
  lemma ToldExact(ops: seq<Op>, addresses: seq<string>, a: string)
    ensures Told([]) == [] && !Begun([])
    ensures Told(ops + [BuildOp(addresses)]) == addresses && Begun(ops + [BuildOp(addresses)])
    ensures Told(ops + [AddOp(a)]) == Told(ops) + [a] && Begun(ops + [AddOp(a)])
    ensures Told(ops + [ClearOp]) == [] && !Begun(ops + [ClearOp])
  {
    assert (ops + [AddOp(a)])[..|ops|] == ops;
  }

  class BloomFilter {
    const scheme: Scheme
    var bits: array<bool>
    var initialized: bool
    ghost var ops: seq<Op>

    ghost predicate Valid()
      reads this, bits
    {
      && scheme.size > 0
      && Mirrors(scheme, bits[..], Told(ops))
      && initialized == Begun(ops)
    }

    constructor (s: Scheme)
      requires s.size > 0
      ensures Valid() && scheme == s && ops == [] && fresh(bits)
    {
      scheme := s;
      bits := new bool[s.size](_ => false);
      initialized, ops := false, [];
    }

    method Build(addresses: seq<string>)
      requires Valid()
      modifies this
      ensures Valid() && ops == old(ops) + [BuildOp(addresses)] && fresh(bits)
    {
      bits := new bool[scheme.size](_ => false);
      for k := 0 to |addresses|
        invariant fresh(bits) && ops == old(ops)
        invariant Mirrors(scheme, bits[..], addresses[..k])
      {
        assert addresses[..k + 1] == addresses[..k] + [addresses[k]];
        Mark(addresses[..k], addresses[k]);
      }
      assert addresses[..|addresses|] == addresses;
      initialized := true;
      ops := ops + [BuildOp(addresses)];
    }

    method Add(a: string)
      requires Valid()
      modifies this, bits
      ensures Valid() && ops == old(ops) + [AddOp(a)] && bits == old(bits)
    {
      Mark(Told(ops), a);
      initialized := true;
      assert (ops + [AddOp(a)])[..|ops|] == ops;
      ops := ops + [AddOp(a)];
    }

    /** Sets the bits of one more address. */
    method Mark(ghost told: seq<string>, a: string)
      requires scheme.size > 0 && Mirrors(scheme, bits[..], told)
      modifies bits
      ensures Mirrors(scheme, bits[..], told + [a])
    {
      var lowered := scheme.lower(a);
      for i := 0 to scheme.hashes
        invariant |bits[..]| == scheme.size
        invariant forall b: nat :: b < scheme.size ==>
            (bits[b] <==> Marked(scheme, told, b) || BitAmong(scheme, lowered, i, b))
      {
        bits[Bit(scheme, lowered, i)] := true;
      }
      forall b: nat | b < scheme.size ensures bits[..][b] <==> Marked(scheme, told + [a], b) {
        MarkedSnoc(scheme, told, a, b);
      }
    }

    /** Over every run: yes before anything was told, and otherwise exactly
        when all bits of the address were set for addresses told. */
    method MayContain(a: string) returns (maybe: bool)
      requires Valid()
      ensures maybe <==> !Begun(ops) || Covered(scheme, Told(ops), a)
    {
      if !initialized {
        return true;
      }
      var lowered := scheme.lower(a);
      for i := 0 to scheme.hashes
        invariant forall j: nat :: j < i ==> Marked(scheme, Told(ops), Bit(scheme, lowered, j))
      {
        var b := Bit(scheme, lowered, i);
        assert bits[..][b] <==> Marked(scheme, Told(ops), b);
        if !bits[b] {
          return false;
        }
      }
      return true;
    }

    method Clear()
      requires Valid()
      modifies this
      ensures Valid() && ops == old(ops) + [ClearOp] && fresh(bits)
    {
      bits := new bool[scheme.size](_ => false);
      initialized := false;
      ops := ops + [ClearOp];
    }
  }

  // ---------------------------------------------------------------------
  // The Tron adapter
  // ---------------------------------------------------------------------

  datatype Tx = Tx(hash: string, from: string, to: string)

  /** The plain filter: transactions that touch a watched address. */
  function Watched(txs: seq<Tx>, addresses: seq<string>): seq<Tx> {
    if txs == [] then []
    else
      var tx := txs[|txs| - 1];
      Watched(txs[..|txs| - 1], addresses) + if tx.from in addresses || tx.to in addresses then [tx] else []
  }

  ghost predicate Passes(s: Scheme, built: seq<string>, tx: Tx)
    requires s.size > 0
  {
    Covered(s, built, tx.from) || Covered(s, built, tx.to)
  }

  /** The two-stage filter, with the Bloom filter built from `built`. */
  ghost function TwoStage(s: Scheme, built: seq<string>, txs: seq<Tx>, addresses: seq<string>): seq<Tx>
    requires s.size > 0
  {
    if txs == [] then []
    else
      var tx := txs[|txs| - 1];
      TwoStage(s, built, txs[..|txs| - 1], addresses)
      + if Passes(s, built, tx) && (tx.from in addresses || tx.to in addresses) then [tx] else []
  }

  /** The plain filter keeps a transaction as often as it occurs, if its sender or
      its recipient is watched, and no other; and it works list by list. */
  lemma {:induction false} WatchedExact(txs: seq<Tx>, addresses: seq<string>, tx: Tx)
    ensures multiset(Watched(txs, addresses))[tx]
            == if tx.from in addresses || tx.to in addresses then multiset(txs)[tx] else 0
  {
    if txs != [] {
      var init, t := txs[..|txs| - 1], txs[|txs| - 1];
      WatchedExact(init, addresses, tx);
      assert txs == init + [t];
    }
  }

  lemma {:induction false} WatchedConcat(a: seq<Tx>, b: seq<Tx>, addresses: seq<string>)
    ensures Watched(a + b, addresses) == Watched(a, addresses) + Watched(b, addresses)
  {
    if b == [] {
      assert a + b == a;
    } else {
      assert (a + b)[..|a + b| - 1] == a + b[..|b| - 1];
      WatchedConcat(a, b[..|b| - 1], addresses);
    }
  }

  /** The two-stage filter is the plain one on what passes the Bloom filter. */
  lemma {:induction false} TwoStageExact(s: Scheme, built: seq<string>, txs: seq<Tx>, addresses: seq<string>, tx: Tx)
    requires s.size > 0
    ensures multiset(TwoStage(s, built, txs, addresses))[tx]
            == if (Covered(s, built, tx.from) || Covered(s, built, tx.to)) && (tx.from in addresses || tx.to in addresses)
               then multiset(txs)[tx] else 0
  {
    if txs != [] {
      var init, t := txs[..|txs| - 1], txs[|txs| - 1];
      TwoStageExact(s, built, init, addresses, tx);
      assert txs == init + [t];
    }
  }

  lemma {:induction false} CoveredIsExact(s: Scheme, built: seq<string>, txs: seq<Tx>, addresses: seq<string>)
    requires s.size > 0 && forall a :: a in addresses ==> Covered(s, built, a)
    ensures TwoStage(s, built, txs, addresses) == Watched(txs, addresses)
  {
    if txs != [] {
      CoveredIsExact(s, built, txs[..|txs| - 1], addresses);
    }
  }

  /** Whatever the address list of a later call: the two-stage filter loses
      nothing, on any transactions, exactly when every address of the list is
      covered by the list the Bloom filter was built from. */
  lemma ExactOnAllIffCovered(s: Scheme, built: seq<string>, addresses: seq<string>)
    requires s.size > 0
    ensures (forall txs :: TwoStage(s, built, txs, addresses) == Watched(txs, addresses))
        <==> forall a :: a in addresses ==> Covered(s, built, a)
  {
    if forall a :: a in addresses ==> Covered(s, built, a) {
      forall txs ensures TwoStage(s, built, txs, addresses) == Watched(txs, addresses) {
        CoveredIsExact(s, built, txs, addresses);
      }
    } else {
      var a :| a in addresses && !Covered(s, built, a);
      UncoveredIsLost(s, built, addresses, Tx("", a, a));
    }
  }

  /** A watched transaction none of whose addresses is covered is dropped. */
  lemma UncoveredIsLost(s: Scheme, built: seq<string>, addresses: seq<string>, tx: Tx)
    requires s.size > 0 && tx.from in addresses && !Passes(s, built, tx)
    ensures TwoStage(s, built, [tx], addresses) == [] && Watched([tx], addresses) == [tx]
    ensures TwoStage(s, built, [tx], addresses) != Watched([tx], addresses)
  {
    assert [tx][..0] == [];
    assert TwoStage(s, built, [], addresses) == [] && Watched([], addresses) == [];
  }

  /** The list of a call that lies, up to letter case, within the list of the
      first call is filtered exactly. */
  lemma ContainedIsExact(s: Scheme, built: seq<string>, txs: seq<Tx>, addresses: seq<string>)
    requires s.size > 0
    requires forall a :: a in addresses ==> exists k: nat :: k < |built| && s.lower(built[k]) == s.lower(a)
    ensures TwoStage(s, built, txs, addresses) == Watched(txs, addresses)
  {
    forall a | a in addresses ensures Covered(s, built, a) {
      var k: nat :| k < |built| && s.lower(built[k]) == s.lower(a);
      ToldIsCovered(s, built, k, a);
    }
    CoveredIsExact(s, built, txs, addresses);
  }

  class TronAdapter {
    const bloom: BloomFilter
    /** The address list of every call so far. */
    ghost var calls: seq<seq<string>>

    ghost predicate Valid()
      reads this, bloom, bloom.bits
    {
      && bloom.Valid()
      && bloom.ops == if calls == [] then [] else [BuildOp(calls[0])]
    }

    constructor (s: Scheme)
      requires s.size > 0
      ensures Valid() && calls == [] && bloom.scheme == s && fresh(bloom) && fresh(bloom.bits)
    {
      bloom := new BloomFilter(s);
      calls := [];
    }

    /** Filters by the list of this call, through the bits of the first call. */
    method FilterTransactions(txs: seq<Tx>, addresses: seq<string>) returns (filtered: seq<Tx>)
      requires Valid()
      modifies this, bloom
      ensures Valid() && calls == old(calls) + [addresses]
      ensures filtered == TwoStage(bloom.scheme, calls[0], txs, addresses)
    {
      if !bloom.initialized {
        bloom.Build(addresses);
      }
      calls := calls + [addresses];
      filtered := Scan(txs, addresses);
    }

    method Scan(txs: seq<Tx>, addresses: seq<string>) returns (filtered: seq<Tx>)
      requires Valid() && calls != []
      ensures filtered == TwoStage(bloom.scheme, calls[0], txs, addresses)
    {
      var addressMap: set<string> := {};
      for i := 0 to |addresses|
        invariant forall a :: a in addressMap <==> a in addresses[..i]
      {
        addressMap := addressMap + {addresses[i]};
      }
      assert addresses[..|addresses|] == addresses;
      filtered := [];
      for i := 0 to |txs|
        invariant filtered == TwoStage(bloom.scheme, calls[0], txs[..i], addresses)
      {
        assert txs[..i + 1][..i] == txs[..i];
        var mayMatchFrom := bloom.MayContain(txs[i].from);
        var mayMatchTo := bloom.MayContain(txs[i].to);
        if !mayMatchFrom && !mayMatchTo {
          continue;
        }
        if txs[i].from in addressMap || txs[i].to in addressMap {
          filtered := filtered + [txs[i]];
        }
      }
      assert txs[..|txs|] == txs;
    }
  }
}
