/** The tables one chain's indexer works on (PostgreSQL), as values and as an
    object.  Block numbers are natural numbers; rows are keyed by them. */
module Stores {
  import opened Options
  import opened Cursors

  datatype BlockStatus = Pending | Processed | Orphaned

  /** A row of `blocks`, keyed by its number. */
  datatype Block = Block(hash: string, parent: string, time: nat, status: BlockStatus)

  /** What a chain adapter returns for a block number. */
  datatype Header = Header(hash: string, parent: string, time: nat)

  datatype TxStatus = Success | Reverted | Invalid

  /** A row of `transactions`; (hash, number) is the key. */
  datatype Tx = Tx(hash: string, number: nat, status: TxStatus)

  datatype RangeStatus = Waiting | Processing | Completed

  /** A row of `missing_blocks`; its index in the table is its id. */
  datatype Missing = Missing(from: nat, to: nat, status: RangeStatus)

  datatype Store = Store(
    book: Book,
    blocks: map<nat, Block>,
    txs: seq<Tx>,
    missing: seq<Missing>,
    failed: seq<nat>)

  const EMPTY := Store(Book(None, []), map[], [], [], [])

  function Row(h: Header, status: BlockStatus): Block {
    Block(h.hash, h.parent, h.time, status)
  }

  /** The unique index on (chain, hash): another number already has it. */
  predicate HashTaken(blocks: map<nat, Block>, number: nat, hash: string) {
    exists n :: n in blocks && n != number && blocks[n].hash == hash
  }

  /** UPDATE ... SET status: no row, no effect. */
  function MarkBlock(blocks: map<nat, Block>, number: nat, status: BlockStatus): map<nat, Block> {
    if number in blocks then blocks[number := blocks[number].(status := status)] else blocks
  }

  /** UPDATE ... WHERE tx_hash: every row with that hash. */
  function MarkTx(txs: seq<Tx>, hash: string, status: TxStatus): (r: seq<Tx>)
    ensures |r| == |txs|
    ensures forall i :: 0 <= i < |txs| ==>
              r[i] == if txs[i].hash == hash then txs[i].(status := status) else txs[i]
  {
    seq(|txs|, i requires 0 <= i < |txs| =>
          if txs[i].hash == hash then txs[i].(status := status) else txs[i])
  }

  /** SELECT ... WHERE block_number, as the list of hashes found. */
  function HashesAt(txs: seq<Tx>, number: nat): (r: seq<string>)
    ensures forall h :: h in r <==> exists i :: 0 <= i < |txs| && txs[i].number == number && txs[i].hash == h
  {
    if txs == [] then []
    else
      var rest := HashesAt(txs[1..], number);
      assert txs == [txs[0]] + txs[1..];
      if txs[0].number == number then [txs[0].hash] + rest else rest
  }

  /** INSERT ... ON CONFLICT (tx_hash, block_number) DO NOTHING, row by row. */
  function InsertTxs(txs: seq<Tx>, added: seq<Tx>): (r: seq<Tx>)
    ensures txs <= r
    ensures forall i :: |txs| <= i < |r| ==> r[i] in added
    decreases |added|
  {
    if added == [] then txs
    else InsertTxs(if HasKey(txs, added[0].hash, added[0].number) then txs else txs + [added[0]], added[1..])
  }

  predicate HasKey(txs: seq<Tx>, hash: string, number: nat) {
    exists i :: 0 <= i < |txs| && txs[i].hash == hash && txs[i].number == number
  }

  predicate UniqueKeys(txs: seq<Tx>) {
    forall i, j :: 0 <= i < j < |txs| ==> !(txs[i].hash == txs[j].hash && txs[i].number == txs[j].number)
  }

  lemma HasKeySnoc(txs: seq<Tx>, t: Tx, hash: string, number: nat)
    ensures HasKey(txs + [t], hash, number) <==> HasKey(txs, hash, number) || (t.hash == hash && t.number == number)
  {
    var longer := txs + [t];
    if HasKey(txs, hash, number) {
      var i :| 0 <= i < |txs| && txs[i].hash == hash && txs[i].number == number;
      assert longer[i] == txs[i];
    }
    assert longer[|txs|] == t;
  }

  /** Exactly the given keys are added, each once. */
  lemma {:induction false} InsertTxsExact(txs: seq<Tx>, added: seq<Tx>, hash: string, number: nat)
    ensures HasKey(InsertTxs(txs, added), hash, number) <==> HasKey(txs, hash, number) || HasKey(added, hash, number)
    ensures UniqueKeys(txs) ==> UniqueKeys(InsertTxs(txs, added))
    decreases |added|
  {
    if added != [] {
      var t := added[0];
      HasKeySnoc(txs, t, hash, number);
      assert added == [t] + added[1..];
      assert HasKey(added, hash, number) <==> (t.hash == hash && t.number == number) || HasKey(added[1..], hash, number) by {
        if HasKey(added[1..], hash, number) {
          var i :| 0 <= i < |added[1..]| && added[1..][i].hash == hash && added[1..][i].number == number;
          assert added[i + 1] == added[1..][i];
        }
      }
      InsertTxsExact(if HasKey(txs, t.hash, t.number) then txs else txs + [t], added[1..], hash, number);
    }
  }

  /** The status of the first row with the key. */
  function StatusOf(txs: seq<Tx>, hash: string, number: nat): (r: Option<TxStatus>)
    ensures r.Some? <==> HasKey(txs, hash, number)
  {
    if txs == [] then None
    else if txs[0].hash == hash && txs[0].number == number then Some(txs[0].status)
    else
      assert txs == [txs[0]] + txs[1..];
      StatusOf(txs[1..], hash, number)
  }

  lemma {:induction false} StatusConcat(a: seq<Tx>, b: seq<Tx>, hash: string, number: nat)
    ensures StatusOf(a + b, hash, number)
            == if HasKey(a, hash, number) then StatusOf(a, hash, number) else StatusOf(b, hash, number)
  {
    if a == [] {
      assert a + b == b;
    } else {
      assert (a + b)[1..] == a[1..] + b;
      StatusConcat(a[1..], b, hash, number);
      assert a == [a[0]] + a[1..];
    }
  }

  /** A row that is there keeps its status; otherwise the first of the new rows
      with the key decides. */
  lemma {:induction false} InsertStatus(txs: seq<Tx>, added: seq<Tx>, hash: string, number: nat)
    ensures StatusOf(InsertTxs(txs, added), hash, number)
            == if HasKey(txs, hash, number) then StatusOf(txs, hash, number) else StatusOf(added, hash, number)
    decreases |added|
  {
    if added != [] {
      var t := added[0];
      var next := if HasKey(txs, t.hash, t.number) then txs else txs + [t];
      InsertStatus(next, added[1..], hash, number);
      StatusConcat(txs, [t], hash, number);
      HasKeySnoc(txs, t, hash, number);
      assert StatusOf([t], hash, number) == if t.hash == hash && t.number == number then Some(t.status) else None;
    }
  }

  class Database {
    var blocks: map<nat, Block>
    var txs: seq<Tx>
    var missing: seq<Missing>
    var failed: seq<nat>

    constructor ()
      ensures blocks == map[] && txs == [] && missing == [] && failed == []
    {
      blocks := map[];
      txs, missing, failed := [], [], [];
    }
  }

  /** The tables and the cursor row as one value. */
  ghost function Snapshot(db: Database, mgr: Manager): Store
    reads db, mgr
  {
    Store(mgr.View(), db.blocks, db.txs, db.missing, db.failed)
  }
}
