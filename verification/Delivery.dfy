/**
 From delivery to payout: the rows of `balance_events` that the keeper reads (apps/keeper/src/db.ts), and what
 is computed from them, depend on which transactions were ingested and not on when or how often.
 */
module Delivery {
  import opened Ingest
  import opened Items
  import opened Ledger
  import opened Merkle
  import opened Plans
  import opened Sequences
  import opened Shares

  /** The rows of a pool do not depend on the order or the repeats of the transactions. */
  lemma SameRows(e: map<Key3, EventRow>, b: map<(string, string), int>, txs: seq<Tx>,
                 e': map<Key3, EventRow>, b': map<(string, string), int>, txs': seq<Tx>, pool: PoolRef, wallet: string, sig: string)
    requires WalletOk(e, b, txs, pool, wallet) && WalletOk(e', b', txs', pool, wallet)
    requires OneForm(txs) && OneForm(txs') && forall x :: x in txs <==> x in txs'
    ensures var key := (pool.dbcPool, wallet, sig);
      (key in e <==> key in e') && (key in e ==> e[key] == e'[key])
  {
    var key := (pool.dbcPool, wallet, sig);
    if key in e {
      RowCarriesOver(e, b, txs, e', b', txs', pool, wallet, sig);
    }
    if key in e' {
      RowCarriesOver(e', b', txs', e, b, txs, pool, wallet, sig);
    }
  }

  lemma RowCarriesOver(e: map<Key3, EventRow>, b: map<(string, string), int>, txs: seq<Tx>,
                       e': map<Key3, EventRow>, b': map<(string, string), int>, txs': seq<Tx>, pool: PoolRef, wallet: string, sig: string)
    requires WalletOk(e, b, txs, pool, wallet) && WalletOk(e', b', txs', pool, wallet)
    requires OneForm(txs) && OneForm(txs') && forall x :: x in txs <==> x in txs'
    requires (pool.dbcPool, wallet, sig) in e
    ensures (pool.dbcPool, wallet, sig) in e' && e'[(pool.dbcPool, wallet, sig)] == e[(pool.dbcPool, wallet, sig)]
  {
    var i :| 0 <= i < |txs| && txs[i].sig == sig && Contribution(txs[i], pool, wallet) != 0;
    var tx := txs[i];
    assert tx in txs && tx in txs';
    StoredIs(e, b, txs, tx, pool, wallet);
    StoredIs(e', b', txs', tx, pool, wallet);
  }

  // ----- what the keeper reads -----

  /** `rows` lists the rows of a pool before `end`, each once, in some order. */
  ghost predicate IsReading(rows: seq<Key3>, events: map<Key3, EventRow>, pool: string, end: int) {
    && (forall i, j :: 0 <= i < j < |rows| ==> rows[i] != rows[j])
    && forall key :: key in rows <==> key in events && key.0 == pool && events[key].ts < end
  }

  /** The events handed to computeTwab, with wallets numbered as the keeper's keys are. */
  function EventsOf(rows: seq<Key3>, events: map<Key3, EventRow>, number: string -> Key): seq<Twab.Event>
    requires forall i :: 0 <= i < |rows| ==> rows[i] in events
  {
    seq(|rows|, i requires 0 <= i < |rows| => Twab.Event(number(rows[i].1), events[rows[i]].delta, events[rows[i]].ts))
  }

  lemma {:induction false} OnceEach<T>(a: seq<T>, b: seq<T>)
    requires forall i, j :: 0 <= i < j < |a| ==> a[i] != a[j]
    requires forall i, j :: 0 <= i < j < |b| ==> b[i] != b[j]
    requires forall x :: x in a <==> x in b
    ensures multiset(a) == multiset(b)
  {
    forall x ensures multiset(a)[x] == multiset(b)[x] {
      if x in a {
        Once(a, x);
        Once(b, x);
      } else {
        assert x !in multiset(a) && x !in multiset(b);
      }
    }
  }

  lemma {:induction false} Once<T>(a: seq<T>, x: T)
    requires x in a && forall i, j :: 0 <= i < j < |a| ==> a[i] != a[j]
    ensures multiset(a)[x] == 1
  {
    assert a == [a[0]] + a[1..];
    if a[0] == x {
      assert x !in a[1..];
    } else {
      assert x in a[1..];
      Once(a[1..], x);
    }
  }

  /** Reordering the rows reorders the events. */
  lemma {:induction false} EventsReorder(rows: seq<Key3>, rows': seq<Key3>, events: map<Key3, EventRow>, number: string -> Key)
    requires multiset(rows) == multiset(rows')
    requires (forall i :: 0 <= i < |rows| ==> rows[i] in events) && forall i :: 0 <= i < |rows'| ==> rows'[i] in events
    ensures Reorders(EventsOf(rows, events, number), EventsOf(rows', events, number))
  {
    if rows == [] {
      SameElements(rows, rows');
    } else {
      var i := DropFirst(rows, rows');
      var all, all' := EventsOf(rows, events, number), EventsOf(rows', events, number);
      var rest := rows'[..i] + rows'[i + 1..];
      EventsReorder(rows[1..], rest, events, number);
      assert all == [all[0]] + EventsOf(rows[1..], events, number);
      assert EventsOf(rest, events, number) == all'[..i] + all'[i + 1..];
      WithoutOne(all', i);
      assert all'[i] == all[0];
      assert all'[i] in multiset(all');
    }
  }

  /**
   Delivery does not matter: two tables fed the same transactions, in any order and with any repeats, and read in
   any order, hand the keeper the same events; so everybody has the same average, and unless dust meets a tie for
   the largest average, everybody has the same share.
   */
  lemma SharesIgnoreDelivery(one: Tables, two: Tables, pool: PoolRef, rows: seq<Key3>, rows': seq<Key3>, number: string -> Key,
                             exclude: set<Key>, heldEnough: set<Key>, start: int, end: int, total: nat, it: Item)
    requires one.Valid() && two.Valid() && pool in one.pools && pool in two.pools && forall x :: x in one.done <==> x in two.done
    requires IsReading(rows, one.events, pool.dbcPool, end) && IsReading(rows', two.events, pool.dbcPool, end) && start < end
    ensures var a, b := EventsOf(rows, one.events, number), EventsOf(rows', two.events, number);
      && Reorders(a, b)
      && (it in Averages(FirstSeen(a, exclude), a, start, end) <==> it in Averages(FirstSeen(b, exclude), b, start, end))
      && (TiesHarmless(EligibleFor(Basis(a, exclude, heldEnough), start, end), total) ==>
            SameShares(Basis(a, exclude, heldEnough), Basis(b, exclude, heldEnough), start, end, total))
  {
    SameReading(one, two, pool, rows, rows', end);
    var a, b := EventsOf(rows, one.events, number), EventsOf(rows', two.events, number);
    EventsReorder(rows, rows', one.events, number);
    assert b == EventsOf(rows', one.events, number);
    AveragesIgnoreOrder(a, b, start, end, exclude, it);
    if TiesHarmless(EligibleFor(Basis(a, exclude, heldEnough), start, end), total) {
      HarmlessOrder(Basis(a, exclude, heldEnough), b, start, end, total);
    }
  }

  lemma SameReading(one: Tables, two: Tables, pool: PoolRef, rows: seq<Key3>, rows': seq<Key3>, end: int)
    requires one.Valid() && two.Valid() && pool in one.pools && pool in two.pools && forall x :: x in one.done <==> x in two.done
    requires IsReading(rows, one.events, pool.dbcPool, end) && IsReading(rows', two.events, pool.dbcPool, end)
    ensures multiset(rows) == multiset(rows')
    ensures forall i :: 0 <= i < |rows'| ==> rows'[i] in one.events && one.events[rows'[i]] == two.events[rows'[i]]
  {
    forall key: Key3 | key.0 == pool.dbcPool
      ensures (key in one.events <==> key in two.events) && (key in one.events ==> one.events[key] == two.events[key])
    {
      assert PoolOk(one.events, one.balances, one.done, pool) && PoolOk(two.events, two.balances, two.done, pool);
      assert WalletOk(one.events, one.balances, one.done, pool, key.1) && WalletOk(two.events, two.balances, two.done, pool, key.1);
      SameRows(one.events, one.balances, one.done, two.events, two.balances, two.done, pool, key.1, key.2);
    }
    OnceEach(rows, rows');
  }
}
