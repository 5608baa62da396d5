/** The Sui adapter's pre-filter against its real filter, on one checkpoint. */
module Sui {
  import opened Options

  datatype Kind = Address | OtherKind
  datatype Owner = Owner(kind: Kind, address: string)

  /** An executed transaction: the sender when it carries a transaction, and
      the output owner of each changed object when it carries effects. */
  datatype ExecutedTx = ExecutedTx(digest: string, sender: Option<string>, owners: Option<seq<Option<Owner>>>)

  /** The indexed form. `raw` is the recipient list kept as JSON; absent when
      it is empty or does not parse. */
  datatype Tx = Tx(hash: string, from: string, to: string, raw: Option<seq<string>>)

  /** Lower-casing, of which only this is used: no letter disappears. */
  ghost predicate KeepsEmpty(lower: string -> string) {
    forall s :: lower(s) == "" <==> s == ""
  }

  // ---------------------------------------------------------------------
  // Mapping
  // ---------------------------------------------------------------------

  function Sender(e: ExecutedTx): string {
    if e.sender.Some? then e.sender.value else ""
  }

  function Owners(e: ExecutedTx): seq<Option<Owner>> {
    if e.owners.Some? then e.owners.value else []
  }

  predicate IsRecipient(o: Option<Owner>, sender: string) {
    o.Some? && o.value.kind == Address && o.value.address != "" && o.value.address != sender
  }

  function Recipients(owners: seq<Option<Owner>>, sender: string): seq<string> {
    if owners == [] then []
    else
      var o := owners[|owners| - 1];
      Recipients(owners[..|owners| - 1], sender) + if IsRecipient(o, sender) then [o.value.address] else []
  }

  function Mapped(e: ExecutedTx): Tx {
    var rs := Recipients(Owners(e), Sender(e));
    Tx(e.digest, Sender(e), if rs == [] then "" else rs[0], Some(rs))
  }

  function MappedAll(cp: seq<ExecutedTx>): (txs: seq<Tx>)
    ensures |txs| == |cp| && forall i :: 0 <= i < |cp| ==> txs[i] == Mapped(cp[i])
  {
    seq(|cp|, i requires 0 <= i < |cp| => Mapped(cp[i]))
  }

  lemma {:induction false} RecipientsExact(owners: seq<Option<Owner>>, sender: string)
    ensures forall a ::
              a in Recipients(owners, sender) <==> a != "" && a != sender && Some(Owner(Address, a)) in owners
  {
    if owners != [] {
      var init, o := owners[..|owners| - 1], owners[|owners| - 1];
      RecipientsExact(init, sender);
      assert owners == init + [o];
    }
  }

  method MapTransaction(e: ExecutedTx) returns (tx: Tx)
    ensures tx == Mapped(e)
  {
    var sender := "";
    if e.sender.Some? {
      sender := e.sender.value;
    }
    var to, recipients := "", [];
    if e.owners.Some? {
      var owners := e.owners.value;
      for i := 0 to |owners|
        invariant recipients == Recipients(owners[..i], sender)
        invariant to == if recipients == [] then "" else recipients[0]
        invariant recipients != [] ==> to != ""
      {
        assert owners[..i + 1][..i] == owners[..i];
        var o := owners[i];
        if o.Some? && o.value.kind == Address {
          var address := o.value.address;
          if address != "" && address != sender {
            recipients := recipients + [address];
            if to == "" {
              to := address;
            }
          }
        }
      }
      assert owners[..|owners|] == owners;
    }
    return Tx(e.digest, sender, to, Some(recipients));
  }

  // ---------------------------------------------------------------------
  // The filter
  // ---------------------------------------------------------------------

  /** The first recipient whose lower-case form is tracked, in that form. */
  function FirstTracked(lower: string -> string, rs: seq<string>, tracked: seq<string>): Option<string> {
    if rs == [] then None
    else if lower(rs[0]) in tracked then Some(lower(rs[0]))
    else FirstTracked(lower, rs[1..], tracked)
  }

  /** The transaction as it is kept, or nothing. */
  function Keep(lower: string -> string, tx: Tx, tracked: seq<string>): Option<Tx> {
    if lower(tx.from) in tracked then Some(tx)
    else
      var hit := if tx.raw.Some? then FirstTracked(lower, tx.raw.value, tracked) else None;
      if hit.Some? then Some(tx.(to := hit.value))
      else if tx.to != "" && lower(tx.to) in tracked then Some(tx)
      else None
  }

  function Filtered(lower: string -> string, txs: seq<Tx>, tracked: seq<string>): seq<Tx> {
    if txs == [] then []
    else
      var k := Keep(lower, txs[|txs| - 1], tracked);
      Filtered(lower, txs[..|txs| - 1], tracked) + if k.Some? then [k.value] else []
  }

  method FilterTransactions(lower: string -> string, txs: seq<Tx>, tracked: seq<string>) returns (filtered: seq<Tx>)
    ensures filtered == Filtered(lower, txs, tracked)
  {
    var addressSet := set a | a in tracked;
    filtered := [];
    for i := 0 to |txs|
      invariant filtered == Filtered(lower, txs[..i], tracked)
    {
      assert txs[..i + 1][..i] == txs[..i];
      var tx := txs[i];
      if lower(tx.from) in addressSet {
        filtered := filtered + [tx];
        continue;
      }
      if tx.raw.Some? {
        var hit := FindRecipient(lower, tx.raw.value, addressSet, tracked);
        if hit.Some? {
          filtered := filtered + [tx.(to := hit.value)];
          continue;
        }
      }
      if tx.to != "" && lower(tx.to) in addressSet {
        filtered := filtered + [tx];
      }
    }
    assert txs[..|txs|] == txs;
  }

  method FindRecipient(lower: string -> string, rs: seq<string>, addressSet: set<string>, ghost tracked: seq<string>)
    returns (hit: Option<string>)
    requires forall a :: a in addressSet <==> a in tracked
    ensures hit == FirstTracked(lower, rs, tracked)
  {
    for i := 0 to |rs|
      invariant FirstTracked(lower, rs, tracked) == FirstTracked(lower, rs[i..], tracked)
    {
      var lowered := lower(rs[i]);
      if lowered in addressSet {
        return Some(lowered);
      }
      assert rs[i..][1..] == rs[i + 1..];
    }
    return None;
  }

  lemma {:induction false} FirstTrackedExact(lower: string -> string, rs: seq<string>, tracked: seq<string>)
    ensures FirstTracked(lower, rs, tracked).Some? <==> exists r :: r in rs && lower(r) in tracked
    ensures FirstTracked(lower, rs, tracked).Some? ==> FirstTracked(lower, rs, tracked).value in tracked
  {
    if rs != [] {
      FirstTrackedExact(lower, rs[1..], tracked);
      assert rs[0] in rs && forall r :: r in rs <==> r == rs[0] || r in rs[1..];
    }
  }

  /** The checkpoint's own word for a transaction worth keeping: its sender, or
      an address that owns one of its outputs and is not the sender, is tracked. */
  ghost predicate Touches(lower: string -> string, e: ExecutedTx, tracked: seq<string>) {
    || lower(Sender(e)) in tracked
    || exists a :: a != "" && a != Sender(e) && Some(Owner(Address, a)) in Owners(e) && lower(a) in tracked
  }

  lemma KeepExact(lower: string -> string, e: ExecutedTx, tracked: seq<string>)
    ensures Keep(lower, Mapped(e), tracked).Some? <==> Touches(lower, e, tracked)
    ensures Keep(lower, Mapped(e), tracked).Some? ==>
              var tx := Keep(lower, Mapped(e), tracked).value;
              tx.hash == e.digest && tx.from == Sender(e) && (lower(tx.from) in tracked || tx.to in tracked)
  {
    var rs := Recipients(Owners(e), Sender(e));
    RecipientsExact(Owners(e), Sender(e));
    FirstTrackedExact(lower, rs, tracked);
    assert rs != [] ==> rs[0] in rs;
  }

  /** Owner `i` is the first recipient that satisfies the condition. */
  ghost predicate FirstOwner(e: ExecutedTx, i: int, good: string -> bool) {
    && 0 <= i < |Owners(e)| && IsOwned(e, i) && good(Owners(e)[i].value.address)
    && forall j :: 0 <= j < i && IsOwned(e, j) ==> !good(Owners(e)[j].value.address)
  }

  /** Owner `i` is an address, not empty, and not the sender. */
  ghost predicate IsOwned(e: ExecutedTx, i: int)
    requires 0 <= i < |Owners(e)|
  {
    var o := Owners(e)[i];
    o.Some? && o.value.kind == Address && o.value.address != "" && o.value.address != Sender(e)
  }

  lemma {:induction false} RecipientsConcat(a: seq<Option<Owner>>, b: seq<Option<Owner>>, sender: string)
    ensures Recipients(a + b, sender) == Recipients(a, sender) + Recipients(b, sender)
  {
    if b == [] {
      assert a + b == a;
    } else {
      assert (a + b)[..|a + b| - 1] == a + b[..|b| - 1];
      RecipientsConcat(a, b[..|b| - 1], sender);
    }
  }

  lemma {:induction false} FirstTrackedConcat(lower: string -> string, a: seq<string>, b: seq<string>, tracked: seq<string>)
    ensures FirstTracked(lower, a + b, tracked)
            == if FirstTracked(lower, a, tracked).Some? then FirstTracked(lower, a, tracked) else FirstTracked(lower, b, tracked)
  {
    if a == [] {
      assert a + b == b;
    } else {
      assert (a + b)[1..] == a[1..] + b;
      FirstTrackedConcat(lower, a[1..], b, tracked);
    }
  }

  /** Recipients before `i`, then owner `i`, then the rest. */
  lemma SplitAtOwner(e: ExecutedTx, i: int)
    requires 0 <= i < |Owners(e)| && IsOwned(e, i)
    ensures var os, s := Owners(e), Sender(e);
            Recipients(os, s) == Recipients(os[..i], s) + [os[i].value.address] + Recipients(os[i + 1..], s)
  {
    var os, s := Owners(e), Sender(e);
    assert os == os[..i] + ([os[i]] + os[i + 1..]);
    RecipientsConcat(os[..i], [os[i]] + os[i + 1..], s);
    RecipientsConcat([os[i]], os[i + 1..], s);
    assert [os[i]][..0] == [] && Recipients([os[i]], s) == [os[i].value.address];
  }

  /** The guessed recipient is the address of the first output owner that is an
      address, not empty and not the sender; empty if there is none. */
  lemma MappedTo(e: ExecutedTx)
    ensures forall i :: FirstOwner(e, i, _ => true) ==> Mapped(e).to == Owners(e)[i].value.address
    ensures (forall i :: 0 <= i < |Owners(e)| ==> !IsOwned(e, i)) ==> Mapped(e).to == ""
  {
    var os, s := Owners(e), Sender(e);
    forall i | FirstOwner(e, i, _ => true) ensures Mapped(e).to == os[i].value.address {
      SplitAtOwner(e, i);
      NoneBefore(e, i);
    }
    if forall i :: 0 <= i < |os| ==> !IsOwned(e, i) {
      NoneBefore(e, |os|);
      assert os[..|os|] == os;
    }
  }

  lemma NoneBefore(e: ExecutedTx, i: int)
    requires 0 <= i <= |Owners(e)| && forall j :: 0 <= j < i ==> !IsOwned(e, j)
    ensures Recipients(Owners(e)[..i], Sender(e)) == []
  {
    RecipientsExact(Owners(e)[..i], Sender(e));
    var rs := Recipients(Owners(e)[..i], Sender(e));
    if rs != [] {
      assert rs[0] in rs;
      var j :| 0 <= j < i && Owners(e)[..i][j] == Some(Owner(Address, rs[0]));
      assert IsOwned(e, j);
    }
  }

  /** A transaction kept for its sender is kept as mapped; otherwise its
      recipient becomes the lower-case form of the first output owner that is
      tracked. */
  lemma KeptTo(lower: string -> string, e: ExecutedTx, tracked: seq<string>)
    ensures lower(Sender(e)) in tracked ==> Keep(lower, Mapped(e), tracked) == Some(Mapped(e))
    ensures lower(Sender(e)) !in tracked ==>
              forall i :: FirstOwner(e, i, a => lower(a) in tracked) ==>
                Keep(lower, Mapped(e), tracked) == Some(Mapped(e).(to := lower(Owners(e)[i].value.address)))
  {
    var os, s := Owners(e), Sender(e);
    if lower(s) !in tracked {
      forall i | FirstOwner(e, i, a => lower(a) in tracked)
        ensures FirstTracked(lower, Recipients(os, s), tracked) == Some(lower(os[i].value.address))
      {
        var address := os[i].value.address;
        SplitAtOwner(e, i);
        UntrackedBefore(lower, e, i, tracked);
        FirstTrackedConcat(lower, Recipients(os[..i], s) + [address], Recipients(os[i + 1..], s), tracked);
        FirstTrackedConcat(lower, Recipients(os[..i], s), [address], tracked);
      }
    }
  }

  lemma UntrackedBefore(lower: string -> string, e: ExecutedTx, i: int, tracked: seq<string>)
    requires 0 <= i < |Owners(e)|
    requires forall j :: 0 <= j < i && IsOwned(e, j) ==> lower(Owners(e)[j].value.address) !in tracked
    ensures FirstTracked(lower, Recipients(Owners(e)[..i], Sender(e)), tracked).None?
  {
    RecipientsExact(Owners(e)[..i], Sender(e));
    var rs := Recipients(Owners(e)[..i], Sender(e));
    FirstTrackedExact(lower, rs, tracked);
    forall r | r in rs ensures lower(r) !in tracked {
      var j :| 0 <= j < i && Owners(e)[..i][j] == Some(Owner(Address, r));
      assert IsOwned(e, j);
    }
  }

  /** The digests of the transactions worth keeping, in order. */
  ghost function Touching(lower: string -> string, cp: seq<ExecutedTx>, tracked: seq<string>): seq<string> {
    if cp == [] then []
    else
      var e := cp[|cp| - 1];
      Touching(lower, cp[..|cp| - 1], tracked) + if Touches(lower, e, tracked) then [e.digest] else []
  }

  function Hashes(txs: seq<Tx>): seq<string> {
    if txs == [] then [] else Hashes(txs[..|txs| - 1]) + [txs[|txs| - 1].hash]
  }

  /** Mapping and filtering a whole checkpoint keeps exactly the transactions
      that touch a tracked address, in order; the fallback on the guessed
      recipient adds none. */
  lemma {:induction false} FilterExact(lower: string -> string, cp: seq<ExecutedTx>, tracked: seq<string>)
    ensures Hashes(Filtered(lower, MappedAll(cp), tracked)) == Touching(lower, cp, tracked)
  {
    if cp != [] {
      var init, e := cp[..|cp| - 1], cp[|cp| - 1];
      FilterExact(lower, init, tracked);
      KeepExact(lower, e, tracked);
      assert MappedAll(cp)[..|cp| - 1] == MappedAll(init);
      var kept, k := Filtered(lower, MappedAll(init), tracked), Keep(lower, Mapped(e), tracked);
      assert k.Some? ==> (kept + [k.value])[..|kept|] == kept;
      assert kept + [] == kept;
    }
  }

  // ---------------------------------------------------------------------
  // The pre-filter
  // ---------------------------------------------------------------------

  ghost predicate OwnerHit(lower: string -> string, o: Option<Owner>, tracked: seq<string>) {
    o.Some? && lower(o.value.address) != "" && lower(o.value.address) in tracked
  }

  ghost predicate Hit(lower: string -> string, e: ExecutedTx, tracked: seq<string>) {
    || (e.sender.Some? && lower(e.sender.value) in tracked)
    || exists o :: o in Owners(e) && OwnerHit(lower, o, tracked)
  }

  method HasRelevantTransactions(lower: string -> string, cp: seq<ExecutedTx>, tracked: seq<string>)
    returns (relevant: bool)
    ensures relevant <==> exists e :: e in cp && Hit(lower, e, tracked)
  {
    var addrMap := set a | a in tracked;
    for i := 0 to |cp|
      invariant forall e :: e in cp[..i] ==> !Hit(lower, e, tracked)
    {
      var e := cp[i];
      if e.sender.Some? && lower(e.sender.value) in addrMap {
        assert Hit(lower, e, tracked);
        return true;
      }
      if e.owners.Some? {
        var owners := e.owners.value;
        for j := 0 to |owners|
          invariant forall o :: o in owners[..j] ==> !OwnerHit(lower, o, tracked)
        {
          if owners[j].Some? {
            var address := lower(owners[j].value.address);
            if address != "" && address in addrMap {
              assert OwnerHit(lower, owners[j], tracked) && Hit(lower, e, tracked);
              return true;
            }
          }
        }
        assert owners[..|owners|] == owners;
      }
    }
    assert cp[..|cp|] == cp;
    return false;
  }

  /** A touching transaction that the pre-filter overlooks has no sender of
      its own, and the empty string is tracked. */
  lemma OverlookedExact(lower: string -> string, e: ExecutedTx, tracked: seq<string>)
    requires KeepsEmpty(lower) && !Hit(lower, e, tracked)
    ensures Touches(lower, e, tracked) <==> e.sender.None? && "" in tracked
  {
    forall a | a != "" && Some(Owner(Address, a)) in Owners(e) ensures lower(a) !in tracked {
      var o := Some(Owner(Address, a));
      assert !OwnerHit(lower, o, tracked);
    }
  }

  /** And what it takes in for nothing: a transaction that does not touch counts
      if and only if an output owner of another kind than address is tracked. */
  lemma TakenForNothingIff(lower: string -> string, e: ExecutedTx, tracked: seq<string>)
    requires KeepsEmpty(lower) && !Touches(lower, e, tracked)
    ensures Hit(lower, e, tracked) <==>
              exists a :: a != "" && Some(Owner(OtherKind, a)) in Owners(e) && lower(a) in tracked
  {
    if Hit(lower, e, tracked) {
      assert !(e.sender.Some? && lower(e.sender.value) in tracked);
      var o :| o in Owners(e) && OwnerHit(lower, o, tracked);
      var a := o.value.address;
      assert o == Some(Owner(o.value.kind, a));
      assert o.value.kind == OtherKind;
    }
    forall a | a != "" && Some(Owner(OtherKind, a)) in Owners(e) && lower(a) in tracked ensures Hit(lower, e, tracked) {
      assert OwnerHit(lower, Some(Owner(OtherKind, a)), tracked);
    }
  }

  lemma {:induction false} TouchingEmpty(lower: string -> string, cp: seq<ExecutedTx>, tracked: seq<string>)
    ensures Touching(lower, cp, tracked) == [] <==> forall e :: e in cp ==> !Touches(lower, e, tracked)
  {
    if cp != [] {
      var init, e := cp[..|cp| - 1], cp[|cp| - 1];
      TouchingEmpty(lower, init, tracked);
      assert cp == init + [e];
      assert e in cp;
    }
  }

  /** What the indexer persists of a checkpoint when it consults the
      pre-filter's answer first. */
  function Persisted(lower: string -> string, cp: seq<ExecutedTx>, tracked: seq<string>, relevant: bool): seq<Tx> {
    Filtered(lower, if relevant then MappedAll(cp) else [], tracked)
  }

  /** Skipping the fetch changes nothing, exactly unless the empty string is
      tracked and some transaction carries no sender. */
  lemma SkippingIsSoundIff(lower: string -> string, cp: seq<ExecutedTx>, tracked: seq<string>, relevant: bool)
    requires KeepsEmpty(lower) && (relevant <==> exists e :: e in cp && Hit(lower, e, tracked))
    ensures Persisted(lower, cp, tracked, relevant) == Filtered(lower, MappedAll(cp), tracked)
        <==> relevant || "" !in tracked || forall e :: e in cp ==> e.sender.Some?
  {
    if !relevant {
      forall e | e in cp ensures Touches(lower, e, tracked) <==> e.sender.None? && "" in tracked {
        OverlookedExact(lower, e, tracked);
      }
      FilterExact(lower, cp, tracked);
      TouchingEmpty(lower, cp, tracked);
      var kept := Filtered(lower, MappedAll(cp), tracked);
      assert kept == [] <==> Hashes(kept) == [];
    }
  }
}
