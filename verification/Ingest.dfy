/**
 Writing balance changes (apps/indexer/src/decode/ingest.ts): every transaction inside a savepoint, events
 inserted once per (pool, wallet, signature), and running balances.

 Whatever is delivered, in whatever order and however often, and however many attempts fail half way, the
 balances are a plain sum over the distinct transactions that got in.
 */
module Ingest {
  import opened Ledger
  import opened Sequences

  datatype Tx = Tx(sig: string, ts: int, failed: bool, deltas: seq<TokenDelta>)

  /** What a transaction adds to a wallet's balance in a pool. */
  function Contribution(tx: Tx, pool: PoolRef, wallet: string): int {
    if tx.failed then 0 else Net(tx.deltas, pool, wallet)
  }

  /** Each signature has one normalized form. */
  ghost predicate OneForm(txs: seq<Tx>) {
    forall i, j :: 0 <= i < |txs| && 0 <= j < |txs| && txs[i].sig == txs[j].sig ==> txs[i] == txs[j]
  }

  /** The sum over the distinct transactions. */
  function Balance(txs: seq<Tx>, pool: PoolRef, wallet: string): int {
    if txs == [] then 0 else
    var front, last := txs[..|txs| - 1], txs[|txs| - 1];
    Balance(front, pool, wallet) + if last in front then 0 else Contribution(last, pool, wallet)
  }

  // ----- order and repeats do not matter -----

  function Distinct(txs: seq<Tx>): seq<Tx> {
    if txs == [] then [] else
    var front, last := txs[..|txs| - 1], txs[|txs| - 1];
    if last in front then Distinct(front) else Distinct(front) + [last]
  }

  function Sum(txs: seq<Tx>, pool: PoolRef, wallet: string): int {
    if txs == [] then 0 else Contribution(txs[0], pool, wallet) + Sum(txs[1..], pool, wallet)
  }

  lemma {:induction false} SumConcat(a: seq<Tx>, b: seq<Tx>, pool: PoolRef, wallet: string)
    ensures Sum(a + b, pool, wallet) == Sum(a, pool, wallet) + Sum(b, pool, wallet)
  {
    if a == [] {
      assert a + b == b;
    } else {
      SumConcat(a[1..], b, pool, wallet);
      assert (a + b)[1..] == a[1..] + b;
    }
  }

  lemma {:induction false} DistinctFacts(txs: seq<Tx>, pool: PoolRef, wallet: string)
    ensures Balance(txs, pool, wallet) == Sum(Distinct(txs), pool, wallet)
    ensures multiset(Distinct(txs)) == multiset(set x | x in txs)
  {
    if txs != [] {
      var front, last := txs[..|txs| - 1], txs[|txs| - 1];
      assert txs == front + [last];
      DistinctFacts(front, pool, wallet);
      SetAppend(front, last);
      if last !in front {
        SumConcat(Distinct(front), [last], pool, wallet);
      }
    }
  }

  lemma SetAppend(front: seq<Tx>, last: Tx)
    ensures var all, before := set x | x in front + [last], set x | x in front;
      multiset(all) == if last in front then multiset(before) else multiset(before) + multiset{last}
  {
    var all, before := set x | x in front + [last], set x | x in front;
    assert all == before + {last};
  }

  lemma {:induction false} SumIgnoresOrder(a: seq<Tx>, b: seq<Tx>, pool: PoolRef, wallet: string)
    requires multiset(a) == multiset(b)
    ensures Sum(a, pool, wallet) == Sum(b, pool, wallet)
  {
    if a == [] {
      SameElements(a, b);
    } else {
      var i := DropFirst(a, b);
      SumIgnoresOrder(a[1..], b[..i] + b[i + 1..], pool, wallet);
      SumConcat(b[..i], b[i + 1..], pool, wallet);
      SumConcat(b[..i], b[i..], pool, wallet);
      assert b == b[..i] + b[i..] && b[i..][1..] == b[i + 1..];
    }
  }

  /** Two deliveries of the same transactions, in any order and with any repeats, leave the same balance. */
  lemma Confluence(a: seq<Tx>, b: seq<Tx>, pool: PoolRef, wallet: string)
    requires forall x :: x in a <==> x in b
    ensures Balance(a, pool, wallet) == Balance(b, pool, wallet)
  {
    DistinctFacts(a, pool, wallet);
    DistinctFacts(b, pool, wallet);
    assert (set x | x in a) == (set x | x in b);
    SumIgnoresOrder(Distinct(a), Distinct(b), pool, wallet);
  }

  // ----- the tables -----

  type Key3 = (string, string, string)  // pool, wallet, signature

  datatype EventRow = EventRow(delta: int, ts: int)

  function Get(balances: map<(string, string), int>, pool: string, wallet: string): int {
    if (pool, wallet) in balances then balances[(pool, wallet)] else 0
  }

  ghost predicate Recorded(txs: seq<Tx>, pool: PoolRef, wallet: string, sig: string) {
    exists i :: 0 <= i < |txs| && txs[i].sig == sig && Contribution(txs[i], pool, wallet) != 0
  }

  /** What is stored for a transaction that changes a wallet's balance. */
  function RowFor(tx: Tx, pool: PoolRef, wallet: string): EventRow {
    EventRow(Contribution(tx, pool, wallet), tx.ts)
  }

  /** Some transaction with this signature makes exactly this row. */
  ghost predicate ChangedBy(txs: seq<Tx>, pool: PoolRef, wallet: string, sig: string, row: EventRow) {
    exists i :: 0 <= i < |txs| && txs[i].sig == sig && RowFor(txs[i], pool, wallet) == row
  }

  /** The rows of one wallet in one pool, and their deltas, are what the transactions say. */
  ghost predicate WalletOk(events: map<Key3, EventRow>, balances: map<(string, string), int>, txs: seq<Tx>, pool: PoolRef, wallet: string) {
    && (forall sig :: (pool.dbcPool, wallet, sig) in events <==> Recorded(txs, pool, wallet, sig))
    && (forall sig :: (pool.dbcPool, wallet, sig) in events ==>
          ChangedBy(txs, pool, wallet, sig, events[(pool.dbcPool, wallet, sig)]))
    && Get(balances, pool.dbcPool, wallet) == Balance(txs, pool, wallet)
  }

  lemma RecordedAppend(txs: seq<Tx>, tx: Tx, pool: PoolRef, wallet: string, sig: string)
    ensures Recorded(txs + [tx], pool, wallet, sig) <==>
      Recorded(txs, pool, wallet, sig) || (tx.sig == sig && Contribution(tx, pool, wallet) != 0)
  {
    var all := txs + [tx];
    if Recorded(txs, pool, wallet, sig) {
      var i :| 0 <= i < |txs| && txs[i].sig == sig && Contribution(txs[i], pool, wallet) != 0;
      assert all[i] == txs[i];
    }
    if tx.sig == sig && Contribution(tx, pool, wallet) != 0 {
      assert all[|txs|] == tx;
    }
    if Recorded(all, pool, wallet, sig) {
      var i :| 0 <= i < |all| && all[i].sig == sig && Contribution(all[i], pool, wallet) != 0;
      assert i < |txs| ==> txs[i] == all[i];
    }
  }

  lemma ChangedByAppend(txs: seq<Tx>, tx: Tx, pool: PoolRef, wallet: string, sig: string, row: EventRow)
    ensures ChangedBy(txs, pool, wallet, sig, row) ==> ChangedBy(txs + [tx], pool, wallet, sig, row)
    ensures tx.sig == sig && RowFor(tx, pool, wallet) == row ==> ChangedBy(txs + [tx], pool, wallet, sig, row)
  {
    var all := txs + [tx];
    if i :| 0 <= i < |txs| && txs[i].sig == sig && RowFor(txs[i], pool, wallet) == row {
      assert all[i] == txs[i];
    }
    assert all[|txs|] == tx;
  }

  /** A wallet the transaction does not touch, or touched when it first came, needs no write. */
  lemma NothingToWrite(events: map<Key3, EventRow>, balances: map<(string, string), int>, txs: seq<Tx>, tx: Tx, pool: PoolRef, wallet: string)
    requires WalletOk(events, balances, txs, pool, wallet) && OneForm(txs + [tx])
    requires Contribution(tx, pool, wallet) == 0 || (pool.dbcPool, wallet, tx.sig) in events
    ensures WalletOk(events, balances, txs + [tx], pool, wallet)
  {
    forall sig ensures Recorded(txs + [tx], pool, wallet, sig) <==> Recorded(txs, pool, wallet, sig) {
      RecordedAppend(txs, tx, pool, wallet, sig);
    }
    forall sig | (pool.dbcPool, wallet, sig) in events
      ensures ChangedBy(txs + [tx], pool, wallet, sig, events[(pool.dbcPool, wallet, sig)])
    {
      ChangedByAppend(txs, tx, pool, wallet, sig, events[(pool.dbcPool, wallet, sig)]);
    }
    assert (txs + [tx])[..|txs|] == txs;
    if Contribution(tx, pool, wallet) != 0 {
      SeenBefore(txs, tx, pool, wallet);
    }
  }

  lemma SeenBefore(txs: seq<Tx>, tx: Tx, pool: PoolRef, wallet: string)
    requires OneForm(txs + [tx]) && Recorded(txs, pool, wallet, tx.sig)
    ensures tx in txs
  {
    var i :| 0 <= i < |txs| && txs[i].sig == tx.sig && Contribution(txs[i], pool, wallet) != 0;
    assert (txs + [tx])[i] == (txs + [tx])[|txs|];
  }

  /** The insert-and-add of a new event. */
  lemma WriteNew(events: map<Key3, EventRow>, balances: map<(string, string), int>, txs: seq<Tx>, tx: Tx, pool: PoolRef, wallet: string)
    requires WalletOk(events, balances, txs, pool, wallet)
    requires Contribution(tx, pool, wallet) != 0 && (pool.dbcPool, wallet, tx.sig) !in events
    ensures var delta := Contribution(tx, pool, wallet);
      WalletOk(events[(pool.dbcPool, wallet, tx.sig) := RowFor(tx, pool, wallet)],
               balances[(pool.dbcPool, wallet) := Get(balances, pool.dbcPool, wallet) + delta], txs + [tx], pool, wallet)
  {
    forall sig ensures Recorded(txs + [tx], pool, wallet, sig) <==> (Recorded(txs, pool, wallet, sig) || sig == tx.sig) {
      RecordedAppend(txs, tx, pool, wallet, sig);
    }
    assert !Recorded(txs, pool, wallet, tx.sig);
    var after := events[(pool.dbcPool, wallet, tx.sig) := RowFor(tx, pool, wallet)];
    forall sig | (pool.dbcPool, wallet, sig) in after
      ensures ChangedBy(txs + [tx], pool, wallet, sig, after[(pool.dbcPool, wallet, sig)])
    {
      ChangedByAppend(txs, tx, pool, wallet, sig, after[(pool.dbcPool, wallet, sig)]);
    }
    assert (txs + [tx])[..|txs|] == txs;
  }

  /** Sum of the stored deltas of a wallet in a pool, transaction by transaction. */
  function StoredSum(events: map<Key3, EventRow>, txs: seq<Tx>, pool: string, wallet: string): int {
    if txs == [] then 0 else
    (if (pool, wallet, txs[0].sig) in events then events[(pool, wallet, txs[0].sig)].delta else 0) + StoredSum(events, txs[1..], pool, wallet)
  }

  /** What is stored for a transaction is what it changed, and nothing is stored for one that changed nothing. */
  lemma StoredIs(events: map<Key3, EventRow>, balances: map<(string, string), int>, txs: seq<Tx>, tx: Tx, pool: PoolRef, wallet: string)
    requires WalletOk(events, balances, txs, pool, wallet) && OneForm(txs) && tx in txs
    ensures var key := (pool.dbcPool, wallet, tx.sig);
      if key in events then events[key] == RowFor(tx, pool, wallet) else Contribution(tx, pool, wallet) == 0
  {
    var key := (pool.dbcPool, wallet, tx.sig);
    var n :| 0 <= n < |txs| && txs[n] == tx;
    if key in events {
      var i :| 0 <= i < |txs| && txs[i].sig == tx.sig && RowFor(txs[i], pool, wallet) == events[key];
      assert txs[i] == txs[n];
    } else {
      assert !Recorded(txs, pool, wallet, tx.sig);
    }
  }

  /** In plain terms: a row for every transaction that succeeded and changed the wallet's balance, with the change and the time. */
  lemma StoredOf(events: map<Key3, EventRow>, balances: map<(string, string), int>, txs: seq<Tx>, tx: Tx, pool: PoolRef, wallet: string)
    requires WalletOk(events, balances, txs, pool, wallet) && OneForm(txs) && tx in txs
    ensures var key := (pool.dbcPool, wallet, tx.sig);
      && (key in events <==> !tx.failed && Net(tx.deltas, pool, wallet) != 0)
      && (key in events ==> events[key].delta == Net(tx.deltas, pool, wallet) && events[key].ts == tx.ts)
  {
    StoredIs(events, balances, txs, tx, pool, wallet);
    if (pool.dbcPool, wallet, tx.sig) in events {
      var i :| 0 <= i < |txs| && txs[i].sig == tx.sig && Contribution(txs[i], pool, wallet) != 0;
      assert txs[i] == tx;
    }
  }

  lemma {:induction false} StoredSumIs(events: map<Key3, EventRow>, balances: map<(string, string), int>, txs: seq<Tx>, part: seq<Tx>,
                                       pool: PoolRef, wallet: string)
    requires WalletOk(events, balances, txs, pool, wallet) && OneForm(txs) && forall x :: x in part ==> x in txs
    ensures StoredSum(events, part, pool.dbcPool, wallet) == Sum(part, pool, wallet)
  {
    if part != [] {
      StoredIs(events, balances, txs, part[0], pool, wallet);
      StoredSumIs(events, balances, txs, part[1..], pool, wallet);
    }
  }

  /** Net memecoin change per owner, vaults and zero changes left out (swaps.ts). */
  method OwnerBaseDeltas(tx: Tx, pool: PoolRef) returns (byOwner: map<string, int>)
    ensures forall w :: w in byOwner <==> Net(tx.deltas, pool, w) != 0
    ensures forall w :: w in byOwner ==> byOwner[w] == Net(tx.deltas, pool, w)
  {
    var sums: map<string, int> := map[];
    for i := 0 to |tx.deltas|
      invariant forall w :: w in sums ==> sums[w] == Net(tx.deltas[..i], pool, w)
      invariant forall w :: w !in sums ==> Net(tx.deltas[..i], pool, w) == 0
    {
      var d := tx.deltas[i];
      assert tx.deltas[..i + 1] == tx.deltas[..i] + [d];
      NetAppend(tx.deltas[..i], d);
      if !(d.mint != pool.baseMint || IsVault(pool, d.account) || d.owner == "") {
        sums := sums[d.owner := (if d.owner in sums then sums[d.owner] else 0) + d.delta];
      }
    }
    assert tx.deltas[..|tx.deltas|] == tx.deltas;
    byOwner := map w | w in sums && sums[w] != 0 :: sums[w];
  }

  predicate Touched(tx: Tx, mint: string) {
    exists i :: 0 <= i < |tx.deltas| && tx.deltas[i].mint == mint
  }

  lemma {:induction false} UntouchedPool(deltas: seq<TokenDelta>, pool: PoolRef, wallet: string)
    requires forall i :: 0 <= i < |deltas| ==> deltas[i].mint != pool.baseMint
    ensures Net(deltas, pool, wallet) == 0
  {
    if deltas != [] {
      UntouchedPool(deltas[..|deltas| - 1], pool, wallet);
    }
  }

  ghost predicate DistinctPools(pools: seq<PoolRef>) {
    forall i, j :: 0 <= i < j < |pools| ==> pools[i].dbcPool != pools[j].dbcPool
  }

  ghost predicate PoolOk(events: map<Key3, EventRow>, balances: map<(string, string), int>, txs: seq<Tx>, pool: PoolRef) {
    forall w :: WalletOk(events, balances, txs, pool, w)
  }

  ghost predicate PoolsOk(events: map<Key3, EventRow>, balances: map<(string, string), int>, txs: seq<Tx>, pools: seq<PoolRef>) {
    forall p :: p in pools ==> PoolOk(events, balances, txs, p)
  }

  /** In the middle of a pool: the wallets in `todo` do not have the transaction yet, the others do. */
  ghost predicate WalletMixed(events: map<Key3, EventRow>, balances: map<(string, string), int>, txs: seq<Tx>, tx: Tx, pool: PoolRef, todo: set<string>, w: string) {
    if w in todo then WalletOk(events, balances, txs, pool, w) else WalletOk(events, balances, txs + [tx], pool, w)
  }

  ghost predicate PoolMixed(events: map<Key3, EventRow>, balances: map<(string, string), int>, txs: seq<Tx>, tx: Tx, pool: PoolRef, todo: set<string>) {
    forall w :: WalletMixed(events, balances, txs, tx, pool, todo, w)
  }

  /** Writing one wallet of one pool leaves every other wallet's rows alone. */
  lemma Elsewhere(events: map<Key3, EventRow>, balances: map<(string, string), int>, txs: seq<Tx>, pool: PoolRef, wallet: string,
                  written: PoolRef, w: string, sig: string, row: EventRow)
    requires WalletOk(events, balances, txs, pool, wallet)
    requires pool.dbcPool != written.dbcPool || wallet != w
    ensures WalletOk(events[(written.dbcPool, w, sig) := row],
                     balances[(written.dbcPool, w) := Get(balances, written.dbcPool, w) + row.delta], txs, pool, wallet)
  {}

  lemma OtherPools(events: map<Key3, EventRow>, balances: map<(string, string), int>, txs: seq<Tx>, pools: seq<PoolRef>,
                   written: PoolRef, w: string, sig: string, row: EventRow)
    requires PoolsOk(events, balances, txs, pools) && forall p :: p in pools ==> p.dbcPool != written.dbcPool
    ensures PoolsOk(events[(written.dbcPool, w, sig) := row],
                    balances[(written.dbcPool, w) := Get(balances, written.dbcPool, w) + row.delta], txs, pools)
  {
    var newEvents := events[(written.dbcPool, w, sig) := row];
    var newBalances := balances[(written.dbcPool, w) := Get(balances, written.dbcPool, w) + row.delta];
    forall p | p in pools ensures PoolOk(newEvents, newBalances, txs, p) {
      assert PoolOk(events, balances, txs, p);
      forall v ensures WalletOk(newEvents, newBalances, txs, p, v) {
        Elsewhere(events, balances, txs, p, v, written, w, sig, row);
      }
    }
  }

  /** The rest of the pool after one wallet has been written. */
  lemma RestOfPool(events: map<Key3, EventRow>, balances: map<(string, string), int>, txs: seq<Tx>, tx: Tx, pool: PoolRef, todo: set<string>, w: string)
    requires PoolMixed(events, balances, txs, tx, pool, todo) && w in todo && OneForm(txs + [tx]) && Contribution(tx, pool, w) != 0
    ensures var key, delta := (pool.dbcPool, w, tx.sig), Contribution(tx, pool, w);
      if key in events then PoolMixed(events, balances, txs, tx, pool, todo - {w})
      else PoolMixed(events[key := RowFor(tx, pool, w)], balances[(pool.dbcPool, w) := Get(balances, pool.dbcPool, w) + delta], txs, tx, pool, todo - {w})
  {
    var key, delta := (pool.dbcPool, w, tx.sig), Contribution(tx, pool, w);
    assert WalletMixed(events, balances, txs, tx, pool, todo, w);
    if key in events {
      NothingToWrite(events, balances, txs, tx, pool, w);
      forall v ensures WalletMixed(events, balances, txs, tx, pool, todo - {w}, v) {
        assert WalletMixed(events, balances, txs, tx, pool, todo, v);
      }
    } else {
      WriteNew(events, balances, txs, tx, pool, w);
      var newEvents, newBalances := events[key := RowFor(tx, pool, w)], balances[(pool.dbcPool, w) := Get(balances, pool.dbcPool, w) + delta];
      forall v ensures WalletMixed(newEvents, newBalances, txs, tx, pool, todo - {w}, v) {
        assert WalletMixed(events, balances, txs, tx, pool, todo, v);
        if v != w {
          Elsewhere(events, balances, if v in todo then txs else txs + [tx], pool, v, pool, w, tx.sig, RowFor(tx, pool, w));
        }
      }
    }
  }

  /** Before anything of a pool is written, the wallets the transaction does not change are up to date. */
  lemma StartPool(events: map<Key3, EventRow>, balances: map<(string, string), int>, txs: seq<Tx>, tx: Tx, pool: PoolRef, todo: set<string>)
    requires PoolOk(events, balances, txs, pool) && OneForm(txs + [tx])
    requires forall w :: w !in todo ==> Contribution(tx, pool, w) == 0
    ensures PoolMixed(events, balances, txs, tx, pool, todo)
  {
    forall w ensures WalletMixed(events, balances, txs, tx, pool, todo, w) {
      assert WalletOk(events, balances, txs, pool, w);
      if w !in todo {
        NothingToWrite(events, balances, txs, tx, pool, w);
      }
    }
  }

  lemma EndPool(events: map<Key3, EventRow>, balances: map<(string, string), int>, txs: seq<Tx>, tx: Tx, pool: PoolRef)
    requires PoolMixed(events, balances, txs, tx, pool, {})
    ensures PoolOk(events, balances, txs + [tx], pool)
  {
    forall w ensures WalletOk(events, balances, txs + [tx], pool, w) {
      assert WalletMixed(events, balances, txs, tx, pool, {}, w);
    }
  }

  class Tables {
    const pools: seq<PoolRef>                  // registered pools; fixed
    var events: map<Key3, EventRow>                 // balance_events, unique on (pool, wallet, sig)
    var balances: map<(string, string), int>   // balances, by (pool, wallet)
    ghost var done: seq<Tx>                    // transactions ingested without error, in order, repeats included
    ghost var failures: nat                    // statements that failed

    ghost predicate Valid()
      reads this
    {
      DistinctPools(pools) && OneForm(done) && PoolsOk(events, balances, done, pools)
    }

    constructor (pools: seq<PoolRef>)
      requires DistinctPools(pools)
      ensures Valid() && done == [] && this.pools == pools
    {
      this.pools := pools;
      events, balances, done, failures := map[], map[], [], 0;
    }

    /**
     Ingests one transaction. An error anywhere rolls back to the savepoint and leaves every row as it was;
     otherwise the tables describe the history with this transaction added.
     */
    method IngestTransaction(tx: Tx) returns (ok: bool)
      requires Valid() && OneForm(done + [tx])
      modifies this
      ensures Valid()
      ensures done == if ok then old(done) + [tx] else old(done)
      ensures !ok || tx.failed ==> events == old(events) && balances == old(balances)
      ensures !ok ==> failures > old(failures)
    {
      var savedEvents, savedBalances := events, balances;
      if !tx.failed {
        assert pools[..0] == [] && pools[0..] == pools;
        for i := 0 to |pools|
          invariant done == old(done) && failures == old(failures)
          invariant PoolsOk(events, balances, done + [tx], pools[..i])
          invariant PoolsOk(events, balances, done, pools[i..])
        {
          ok := WriteBalanceDeltas(tx, i);
          if !ok {
            events, balances := savedEvents, savedBalances;
            return false;
          }
        }
        assert pools[..|pools|] == pools;
      } else {
        forall p | p in pools ensures PoolOk(events, balances, done + [tx], p) {
          StartPool(events, balances, done, tx, p, {});
          EndPool(events, balances, done, tx, p);
        }
      }
      done := done + [tx];
      return true;
    }

    /** Rows of pool `i`. Any statement may fail. */
    method WriteBalanceDeltas(tx: Tx, i: nat) returns (ok: bool)
      requires DistinctPools(pools) && OneForm(done + [tx]) && i < |pools| && !tx.failed
      requires PoolsOk(events, balances, done + [tx], pools[..i]) && PoolsOk(events, balances, done, pools[i..])
      modifies this`events, this`balances, this`failures
      ensures failures == if ok then old(failures) else old(failures) + 1
      ensures ok ==> PoolsOk(events, balances, done + [tx], pools[..i + 1]) && PoolsOk(events, balances, done, pools[i + 1..])
    {
      var pool := pools[i];
      var byOwner: map<string, int> := map[];
      if Touched(tx, pool.baseMint) {
        byOwner := OwnerBaseDeltas(tx, pool);
      } else {
        forall w ensures Net(tx.deltas, pool, w) == 0 {
          UntouchedPool(tx.deltas, pool, w);
        }
      }
      assert pools[i..] == [pool] + pools[i + 1..] && pools[..i + 1] == pools[..i] + [pool];
      StartPool(events, balances, done, tx, pool, byOwner.Keys);
      var todo := byOwner.Keys;
      while todo != {}
        invariant todo <= byOwner.Keys
        invariant PoolsOk(events, balances, done + [tx], pools[..i]) && PoolsOk(events, balances, done, pools[i + 1..])
        invariant PoolMixed(events, balances, done, tx, pool, todo) && failures == old(failures)
        decreases todo
      {
        var fails: bool := *;
        if fails {
          failures := failures + 1;
          return false;
        }
        var w :| w in todo;
        WriteOne(tx, i, w, byOwner[w], todo);
        todo := todo - {w};
      }
      EndPool(events, balances, done, tx, pool);
      return true;
    }

    /** insert into balance_events ... on conflict do nothing; if a row was inserted, add it to the balance. */
    method WriteOne(tx: Tx, i: nat, w: string, delta: int, ghost todo: set<string>)
      requires DistinctPools(pools) && OneForm(done + [tx]) && i < |pools| && w in todo
      requires delta == Contribution(tx, pools[i], w) != 0
      requires PoolsOk(events, balances, done + [tx], pools[..i]) && PoolsOk(events, balances, done, pools[i + 1..])
      requires PoolMixed(events, balances, done, tx, pools[i], todo)
      modifies this`events, this`balances
      ensures PoolsOk(events, balances, done + [tx], pools[..i]) && PoolsOk(events, balances, done, pools[i + 1..])
      ensures PoolMixed(events, balances, done, tx, pools[i], todo - {w})
    {
      var pool := pools[i];
      RestOfPool(events, balances, done, tx, pool, todo, w);
      var row := EventRow(delta, tx.ts);
      if (pool.dbcPool, w, tx.sig) !in events {
        OtherPools(events, balances, done + [tx], pools[..i], pool, w, tx.sig, row);
        OtherPools(events, balances, done, pools[i + 1..], pool, w, tx.sig, row);
        events, balances := events[(pool.dbcPool, w, tx.sig) := row],
                            balances[(pool.dbcPool, w) := Get(balances, pool.dbcPool, w) + delta];
      }
    }

    /** The balance shown for a wallet: its sum over the distinct transactions ingested. */
    lemma Shown(p: PoolRef, w: string)
      requires Valid() && p in pools
      ensures Get(balances, p.dbcPool, w) == Balance(done, p, w)
    {
      assert PoolOk(events, balances, done, p);
      assert WalletOk(events, balances, done, p, w);
    }

    /**
     The rows computeTwab reads: every row has the change its transaction made to that wallet, and its time; over
     the distinct transactions the stored deltas add up to the balance.
     */
    lemma StoredDeltasAddUp(p: PoolRef, w: string)
      requires Valid() && p in pools
      ensures forall sig :: (p.dbcPool, w, sig) in events ==> exists tx :: tx in done && tx.sig == sig
      ensures forall tx :: tx in done ==> ((p.dbcPool, w, tx.sig) in events <==> !tx.failed && Net(tx.deltas, p, w) != 0)
      ensures forall tx :: tx in done && (p.dbcPool, w, tx.sig) in events ==>
        var row := events[(p.dbcPool, w, tx.sig)]; row.delta == Net(tx.deltas, p, w) && row.ts == tx.ts
      ensures StoredSum(events, Distinct(done), p.dbcPool, w) == Get(balances, p.dbcPool, w)
    {
      assert PoolOk(events, balances, done, p);
      assert WalletOk(events, balances, done, p, w);
      DistinctFacts(done, p, w);
      forall x | x in Distinct(done) ensures x in done {
        assert x in multiset(Distinct(done));
      }
      StoredSumIs(events, balances, done, Distinct(done), p, w);
      forall tx | tx in done
        ensures (p.dbcPool, w, tx.sig) in events <==> !tx.failed && Net(tx.deltas, p, w) != 0
        ensures (p.dbcPool, w, tx.sig) in events ==>
          var row := events[(p.dbcPool, w, tx.sig)]; row.delta == Net(tx.deltas, p, w) && row.ts == tx.ts
      {
        StoredOf(events, balances, done, tx, p, w);
      }
    }
  }
}
