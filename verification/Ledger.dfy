/**
 The indexer's memecoin ledger (apps/indexer/src/decode/normalize.ts, swaps.ts, ingest.ts): balance changes
 per owner in one transaction, and the idempotent tables they are written to.
 */
module Ledger {

  // ----- token balances of one transaction (normalize.ts) -----

  datatype TokenBalance = TokenBalance(index: nat, mint: string, owner: string, amount: nat)  // owner "" when absent

  datatype TokenDelta = TokenDelta(account: string, owner: string, mint: string, delta: int)

  datatype Entry = Entry(mint: string, owner: string, pre: nat, post: nat)

  function Digits(n: nat): string {
    if n < 10 then [('0' as int + n) as char] else Digits(n / 10) + [('0' as int + n % 10) as char]
  }

  /** A decimal text, read. */
  function Decimal(text: string): int {
    if text == "" then 0 else 10 * Decimal(text[..|text| - 1]) + (text[|text| - 1] as int - '0' as int)
  }

  lemma {:induction false} DigitsRead(n: nat)
    ensures Digits(n) != "" && Decimal(Digits(n)) == n
    ensures forall i :: 0 <= i < |Digits(n)| ==> '0' <= Digits(n)[i] <= '9'
  {
    if n < 10 {
      assert Digits(n)[..0] == "";
    } else {
      DigitsRead(n / 10);
      assert Digits(n)[..|Digits(n)| - 1] == Digits(n / 10);
    }
  }

  function AccountAt(keys: seq<string>, index: nat): string {
    if index < |keys| then keys[index] else "#" + Digits(index)
  }

  /** Account indexes in the order in which they are first listed. */
  function Indexes(bs: seq<TokenBalance>): seq<nat> {
    if bs == [] then [] else
    var before, last := Indexes(bs[..|bs| - 1]), bs[|bs| - 1].index;
    if last in before then before else before + [last]
  }

  /** The amount listed last for an account; 0 when it is not listed. */
  function Amount(bs: seq<TokenBalance>, index: nat): nat {
    if bs == [] then 0
    else if bs[|bs| - 1].index == index then bs[|bs| - 1].amount
    else Amount(bs[..|bs| - 1], index)
  }

  function MintOf(bs: seq<TokenBalance>, index: nat): string {
    if bs == [] then "" else if bs[0].index == index then bs[0].mint else MintOf(bs[1..], index)
  }

  /** The first owner that is named for an account, or "". */
  function OwnerOf(bs: seq<TokenBalance>, index: nat): string {
    if bs == [] then "" else if bs[0].index == index && bs[0].owner != "" then bs[0].owner else OwnerOf(bs[1..], index)
  }

  datatype PoolRef = PoolRef(dbcPool: string, baseMint: string, baseVault: string, dammBaseVault: string)  // "" when absent

  predicate IsVault(pool: PoolRef, account: string) {
    account != "" && (account == pool.baseVault || account == pool.dammBaseVault)
  }

  /** This account's change counts for this wallet: the pool's memecoin, not in a vault of the pool. */
  predicate Counts(pool: PoolRef, wallet: string, account: string, owner: string, mint: string) {
    mint == pool.baseMint && !IsVault(pool, account) && owner == wallet && wallet != ""
  }

  /** Net memecoin change of a wallet in a list of account changes. */
  function Net(deltas: seq<TokenDelta>, pool: PoolRef, wallet: string): int {
    if deltas == [] then 0 else
    var d := deltas[|deltas| - 1];
    Net(deltas[..|deltas| - 1], pool, wallet) + if Counts(pool, wallet, d.account, d.owner, d.mint) then d.delta else 0
  }

  /** The same from the balances before and after: post minus pre, over the wallet's accounts. */
  function NetChange(order: seq<nat>, keys: seq<string>, pre: seq<TokenBalance>, post: seq<TokenBalance>, pool: PoolRef, wallet: string): int {
    if order == [] then 0 else
    var i := order[|order| - 1];
    NetChange(order[..|order| - 1], keys, pre, post, pool, wallet) +
    if Counts(pool, wallet, AccountAt(keys, i), OwnerOf(pre + post, i), MintOf(pre + post, i)) then Amount(post, i) - Amount(pre, i) else 0
  }

  // ----- in other words -----

  /** What an account holds is what was listed for it last. */
  lemma {:induction false} AmountIs(bs: seq<TokenBalance>, j: nat)
    requires j < |bs| && forall x :: j < x < |bs| ==> bs[x].index != bs[j].index
    ensures Amount(bs, bs[j].index) == bs[j].amount
  {
    if j < |bs| - 1 {
      AmountIs(bs[..|bs| - 1], j);
    }
  }

  /** Its mint is the one listed first, its owner the first one that is named. */
  lemma {:induction false} FirstIs(bs: seq<TokenBalance>, j: nat)
    requires j < |bs|
    ensures (forall x :: 0 <= x < j ==> bs[x].index != bs[j].index) ==> MintOf(bs, bs[j].index) == bs[j].mint
    ensures bs[j].owner != "" && (forall x :: 0 <= x < j ==> bs[x].index != bs[j].index || bs[x].owner == "") ==>
      OwnerOf(bs, bs[j].index) == bs[j].owner
  {
    if j > 0 {
      assert bs[1..][j - 1] == bs[j];
      FirstIs(bs[1..], j - 1);
      if forall x :: 0 <= x < j ==> bs[x].index != bs[j].index {
        assert bs[0].index != bs[j].index && forall x :: 0 <= x < j - 1 ==> bs[1..][x] == bs[x + 1];
      }
      if forall x :: 0 <= x < j ==> bs[x].index != bs[j].index || bs[x].owner == "" {
        assert (bs[0].index != bs[j].index || bs[0].owner == "") && forall x :: 0 <= x < j - 1 ==> bs[1..][x] == bs[x + 1];
      }
    }
  }

  /**
   Whom one account change counts for: the owner alone, in full, if it is the pool's memecoin. A change in either
   vault of the pool, or without an owner, counts for nobody.
   */
  lemma DeltaCounts(deltas: seq<TokenDelta>, d: TokenDelta, pool: PoolRef, wallet: string)
    ensures d.mint == pool.baseMint && d.owner == wallet != "" && d.account != pool.baseVault && d.account != pool.dammBaseVault ==>
      Net(deltas + [d], pool, wallet) == Net(deltas, pool, wallet) + d.delta
    ensures d.account != "" && (d.account == pool.baseVault || d.account == pool.dammBaseVault) ==>
      Net(deltas + [d], pool, wallet) == Net(deltas, pool, wallet)
    ensures d.mint != pool.baseMint || d.owner != wallet || wallet == "" ==> Net(deltas + [d], pool, wallet) == Net(deltas, pool, wallet)
  {
    NetAppend(deltas, d);
  }

  /** What the wallet's accounts of the pool's memecoin hold, vaults left out. `listed` tells who owns what. */
  function Held(order: seq<nat>, keys: seq<string>, listed: seq<TokenBalance>, bs: seq<TokenBalance>, pool: PoolRef, wallet: string): nat {
    if order == [] then 0 else
    var i, account := order[0], AccountAt(keys, order[0]);
    Held(order[1..], keys, listed, bs, pool, wallet) +
    if wallet != "" && OwnerOf(listed, i) == wallet && MintOf(listed, i) == pool.baseMint
       && (account == "" || account !in {pool.baseVault, pool.dammBaseVault})
    then Amount(bs, i) else 0
  }

  lemma {:induction false} HeldLast(order: seq<nat>, i: nat, keys: seq<string>, listed: seq<TokenBalance>, bs: seq<TokenBalance>, pool: PoolRef, wallet: string)
    ensures Held(order + [i], keys, listed, bs, pool, wallet) ==
      Held(order, keys, listed, bs, pool, wallet) + Held([i], keys, listed, bs, pool, wallet)
  {
    if order == [] {
      assert order + [i] == [i];
    } else {
      HeldLast(order[1..], i, keys, listed, bs, pool, wallet);
      assert (order + [i])[1..] == order[1..] + [i];
    }
  }

  /** The net change is what is held afterwards minus what was held before. */
  lemma {:induction false} NetChangeIs(order: seq<nat>, keys: seq<string>, pre: seq<TokenBalance>, post: seq<TokenBalance>, pool: PoolRef, wallet: string)
    ensures NetChange(order, keys, pre, post, pool, wallet) ==
      Held(order, keys, pre + post, post, pool, wallet) - Held(order, keys, pre + post, pre, pool, wallet)
  {
    if order != [] {
      var front, i := order[..|order| - 1], order[|order| - 1];
      assert order == front + [i] && [i][1..] == [];
      NetChangeIs(front, keys, pre, post, pool, wallet);
      HeldLast(front, i, keys, pre + post, post, pool, wallet);
      HeldLast(front, i, keys, pre + post, pre, pool, wallet);
    }
  }

  /** No account is counted twice. */
  lemma {:induction false} IndexesDistinct(bs: seq<TokenBalance>)
    ensures forall i, j :: 0 <= i < j < |Indexes(bs)| ==> Indexes(bs)[i] != Indexes(bs)[j]
  {
    if bs != [] {
      IndexesDistinct(bs[..|bs| - 1]);
    }
  }

  lemma {:induction false} IndexesAre(bs: seq<TokenBalance>)
    ensures forall i :: i in Indexes(bs) <==> exists j :: 0 <= j < |bs| && bs[j].index == i
  {
    if bs != [] {
      var front := bs[..|bs| - 1];
      IndexesAre(front);
      forall i ensures i in Indexes(bs) <==> exists j :: 0 <= j < |bs| && bs[j].index == i {
        if j :| 0 <= j < |bs| && bs[j].index == i {
          assert j < |front| ==> front[j].index == i;
        }
      }
    }
  }

  lemma {:induction false} MintOfAppend(bs: seq<TokenBalance>, b: TokenBalance, i: nat)
    ensures MintOf(bs + [b], i) ==
      if exists j :: 0 <= j < |bs| && bs[j].index == i then MintOf(bs, i) else if b.index == i then b.mint else ""
  {
    if bs == [] {
      assert bs + [b] == [b];
    } else {
      assert (bs + [b])[1..] == bs[1..] + [b];
      MintOfAppend(bs[1..], b, i);
      if j :| 0 <= j < |bs| && bs[j].index == i {
        assert j > 0 ==> bs[1..][j - 1].index == i;
      }
    }
  }

  lemma {:induction false} OwnerOfAppend(bs: seq<TokenBalance>, b: TokenBalance, i: nat)
    ensures OwnerOf(bs + [b], i) == if OwnerOf(bs, i) != "" then OwnerOf(bs, i) else if b.index == i then b.owner else ""
  {
    if bs == [] {
      assert bs + [b] == [b];
    } else {
      assert (bs + [b])[1..] == bs[1..] + [b];
      OwnerOfAppend(bs[1..], b, i);
    }
  }

  /** What has been noted about the accounts listed so far in `pre` and `post`. */
  ghost predicate Noted(order: seq<nat>, byIndex: map<nat, Entry>, pre: seq<TokenBalance>, post: seq<TokenBalance>) {
    && order == Indexes(pre + post)
    && (forall i :: i in byIndex <==> i in order)
    && forall i :: i in byIndex ==> byIndex[i] == Entry(MintOf(pre + post, i), OwnerOf(pre + post, i), Amount(pre, i), Amount(post, i))
  }

  /** Entry of an account after `b` has been seen: created on first sight, its owner filled in when missing. */
  function Touch(byIndex: map<nat, Entry>, b: TokenBalance): Entry {
    if b.index !in byIndex then Entry(b.mint, b.owner, 0, 0)
    else if byIndex[b.index].owner == "" && b.owner != "" then byIndex[b.index].(owner := b.owner)
    else byIndex[b.index]
  }

  /** Where `b` leaves the list of accounts, and how far each account's amounts are known. */
  lemma NoteOrder(order: seq<nat>, byIndex: map<nat, Entry>, pre: seq<TokenBalance>, post: seq<TokenBalance>, b: TokenBalance)
    requires Noted(order, byIndex, pre, post)
    ensures Indexes(pre + post + [b]) == if b.index in byIndex then order else order + [b.index]
  {
    assert (pre + post + [b])[..|pre + post|] == pre + post;
  }

  /** What is noted about account `i` once `b` has been seen, apart from the amount `b` brings. */
  lemma NoteOne(order: seq<nat>, byIndex: map<nat, Entry>, pre: seq<TokenBalance>, post: seq<TokenBalance>, b: TokenBalance, i: nat)
    requires Noted(order, byIndex, pre, post) && (i in byIndex || i == b.index)
    ensures var e := if i == b.index then Touch(byIndex, b) else byIndex[i];
      e == Entry(MintOf(pre + post + [b], i), OwnerOf(pre + post + [b], i), Amount(pre, i), Amount(post, i))
  {
    IndexesAre(pre + post);
    MintOfAppend(pre + post, b, i);
    OwnerOfAppend(pre + post, b, i);
    NotListed(pre, post, i);
  }

  lemma AmountAppend(bs: seq<TokenBalance>, b: TokenBalance, i: nat)
    ensures Amount(bs + [b], i) == if i == b.index then b.amount else Amount(bs, i)
  {
    assert (bs + [b])[..|bs|] == bs;
  }

  lemma NotePost(order: seq<nat>, byIndex: map<nat, Entry>, pre: seq<TokenBalance>, post: seq<TokenBalance>, b: TokenBalance)
    requires Noted(order, byIndex, pre, post)
    ensures var next := if b.index in byIndex then order else order + [b.index];
      Noted(next, byIndex[b.index := Touch(byIndex, b).(post := b.amount)], pre, post + [b])
  {
    NoteOrder(order, byIndex, pre, post, b);
    assert pre + (post + [b]) == pre + post + [b];
    var noted := byIndex[b.index := Touch(byIndex, b).(post := b.amount)];
    forall i | i in noted
      ensures noted[i] == Entry(MintOf(pre + post + [b], i), OwnerOf(pre + post + [b], i), Amount(pre, i), Amount(post + [b], i))
    {
      NoteOne(order, byIndex, pre, post, b, i);
      AmountAppend(post, b, i);
    }
  }

  lemma NotePre(order: seq<nat>, byIndex: map<nat, Entry>, pre: seq<TokenBalance>, b: TokenBalance)
    requires Noted(order, byIndex, pre, [])
    ensures var next := if b.index in byIndex then order else order + [b.index];
      Noted(next, byIndex[b.index := Touch(byIndex, b).(pre := b.amount)], pre + [b], [])
  {
    NoteOrder(order, byIndex, pre, [], b);
    assert pre + [] == pre && pre + [b] + [] == pre + [b];
    var noted := byIndex[b.index := Touch(byIndex, b).(pre := b.amount)];
    forall i | i in noted
      ensures noted[i] == Entry(MintOf(pre + [b], i), OwnerOf(pre + [b], i), Amount(pre + [b], i), 0)
    {
      NoteOne(order, byIndex, pre, [], b, i);
      AmountAppend(pre, b, i);
    }
  }

  lemma NotePreAt(order: seq<nat>, byIndex: map<nat, Entry>, pre: seq<TokenBalance>, i: nat)
    requires i < |pre| && Noted(order, byIndex, pre[..i], [])
    ensures var b := pre[i];
      Noted(if b.index in byIndex then order else order + [b.index], byIndex[b.index := Touch(byIndex, b).(pre := b.amount)], pre[..i + 1], [])
  {
    assert pre[..i + 1] == pre[..i] + [pre[i]];
    NotePre(order, byIndex, pre[..i], pre[i]);
  }

  lemma NotePostAt(order: seq<nat>, byIndex: map<nat, Entry>, pre: seq<TokenBalance>, post: seq<TokenBalance>, i: nat)
    requires i < |post| && Noted(order, byIndex, pre, post[..i])
    ensures var b := post[i];
      Noted(if b.index in byIndex then order else order + [b.index], byIndex[b.index := Touch(byIndex, b).(post := b.amount)], pre, post[..i + 1])
  {
    assert post[..i + 1] == post[..i] + [post[i]];
    NotePost(order, byIndex, pre, post[..i], post[i]);
  }

  /** An account that is not listed has amount 0. */
  lemma NotListed(pre: seq<TokenBalance>, post: seq<TokenBalance>, i: nat)
    ensures i !in Indexes(pre + post) ==> Amount(pre, i) == 0 && Amount(post, i) == 0 && OwnerOf(pre + post, i) == "" && MintOf(pre + post, i) == ""
  {
    IndexesAre(pre + post);
    if i !in Indexes(pre + post) {
      forall j | 0 <= j < |pre| ensures pre[j].index != i {
        assert (pre + post)[j] == pre[j];
      }
      forall j | 0 <= j < |post| ensures post[j].index != i {
        assert (pre + post)[|pre| + j] == post[j];
      }
      AbsentAmount(pre, i);
      AbsentAmount(post, i);
      AbsentFirst(pre + post, i);
    }
  }

  lemma {:induction false} AbsentAmount(bs: seq<TokenBalance>, i: nat)
    requires forall j :: 0 <= j < |bs| ==> bs[j].index != i
    ensures Amount(bs, i) == 0
  {
    if bs != [] {
      AbsentAmount(bs[..|bs| - 1], i);
    }
  }

  lemma {:induction false} AbsentFirst(bs: seq<TokenBalance>, i: nat)
    requires forall j :: 0 <= j < |bs| ==> bs[j].index != i
    ensures OwnerOf(bs, i) == "" && MintOf(bs, i) == ""
  {
    if bs != [] {
      AbsentFirst(bs[1..], i);
    }
  }

  method CollectPre(pre: seq<TokenBalance>) returns (order: seq<nat>, byIndex: map<nat, Entry>)
    ensures Noted(order, byIndex, pre, [])
  {
    order, byIndex := [], map[];
    for i := 0 to |pre|
      invariant Noted(order, byIndex, pre[..i], [])
    {
      var b := pre[i];
      NotePreAt(order, byIndex, pre, i);
      order, byIndex := if b.index in byIndex then order else order + [b.index],
                        byIndex[b.index := Touch(byIndex, b).(pre := b.amount)];
    }
    assert pre[..|pre|] == pre;
  }

  /** The two passes over the balances: what was noted about every listed account, in order of first sight. */
  method CollectBalances(pre: seq<TokenBalance>, post: seq<TokenBalance>) returns (order: seq<nat>, byIndex: map<nat, Entry>)
    ensures Noted(order, byIndex, pre, post)
  {
    order, byIndex := CollectPre(pre);
    for i := 0 to |post|
      invariant Noted(order, byIndex, pre, post[..i])
    {
      var b := post[i];
      NotePostAt(order, byIndex, pre, post, i);
      order, byIndex := if b.index in byIndex then order else order + [b.index],
                        byIndex[b.index := Touch(byIndex, b).(post := b.amount)];
    }
    assert post[..|post|] == post;
  }

  lemma NetAppend(deltas: seq<TokenDelta>, d: TokenDelta)
    ensures forall pool, wallet ::
      Net(deltas + [d], pool, wallet) == Net(deltas, pool, wallet) + if Counts(pool, wallet, d.account, d.owner, d.mint) then d.delta else 0
  {
    assert (deltas + [d])[..|deltas|] == deltas;
  }

  /** `d` is the change of account number `i`: not zero, and with what is known of the account. */
  predicate IsChange(d: TokenDelta, i: nat, keys: seq<string>, pre: seq<TokenBalance>, post: seq<TokenBalance>) {
    && d.account == AccountAt(keys, i) && d.owner == OwnerOf(pre + post, i) && d.mint == MintOf(pre + post, i)
    && d.delta == Amount(post, i) - Amount(pre, i) != 0
  }

  function ChangeOf(i: nat, keys: seq<string>, pre: seq<TokenBalance>, post: seq<TokenBalance>): TokenDelta {
    TokenDelta(AccountAt(keys, i), OwnerOf(pre + post, i), MintOf(pre + post, i), Amount(post, i) - Amount(pre, i))
  }

  /** `out` has the changes of the accounts in `order`, and nothing else. */
  ghost predicate Lists(out: seq<TokenDelta>, order: seq<nat>, keys: seq<string>, pre: seq<TokenBalance>, post: seq<TokenBalance>) {
    forall d :: d in out <==> exists n :: 0 <= n < |order| && IsChange(d, order[n], keys, pre, post)
  }

  lemma ListsOneMore(out: seq<TokenDelta>, order: seq<nat>, i: nat, keys: seq<string>, pre: seq<TokenBalance>, post: seq<TokenBalance>)
    requires Lists(out, order, keys, pre, post)
    ensures Lists(if Amount(post, i) != Amount(pre, i) then out + [ChangeOf(i, keys, pre, post)] else out, order + [i], keys, pre, post)
  {
    var after := if Amount(post, i) != Amount(pre, i) then out + [ChangeOf(i, keys, pre, post)] else out;
    forall d ensures d in after <==> exists n :: 0 <= n < |order + [i]| && IsChange(d, (order + [i])[n], keys, pre, post) {
      if n :| 0 <= n < |order| && IsChange(d, order[n], keys, pre, post) {
        assert (order + [i])[n] == order[n];
      }
      if IsChange(d, i, keys, pre, post) {
        assert (order + [i])[|order|] == i;
      }
    }
  }

  /** For every pool and wallet the changes come to the net change over the accounts in `order`. */
  ghost predicate NetsTo(out: seq<TokenDelta>, order: seq<nat>, keys: seq<string>, pre: seq<TokenBalance>, post: seq<TokenBalance>) {
    forall pool, wallet :: Net(out, pool, wallet) == NetChange(order, keys, pre, post, pool, wallet)
  }

  lemma NetsOneMore(out: seq<TokenDelta>, order: seq<nat>, i: nat, keys: seq<string>, pre: seq<TokenBalance>, post: seq<TokenBalance>)
    requires NetsTo(out, order, keys, pre, post)
    ensures NetsTo(if Amount(post, i) != Amount(pre, i) then out + [ChangeOf(i, keys, pre, post)] else out, order + [i], keys, pre, post)
  {
    assert (order + [i])[..|order|] == order;
    NetAppend(out, ChangeOf(i, keys, pre, post));
  }

  /** For every pool and wallet the changes come to what is held afterwards minus what was held before. */
  ghost predicate PostMinusPre(out: seq<TokenDelta>, keys: seq<string>, pre: seq<TokenBalance>, post: seq<TokenBalance>) {
    var order, listed := Indexes(pre + post), pre + post;
    forall pool, wallet ::
      Net(out, pool, wallet) == Held(order, keys, listed, post, pool, wallet) - Held(order, keys, listed, pre, pool, wallet)
  }

  lemma NetsUp(out: seq<TokenDelta>, keys: seq<string>, pre: seq<TokenBalance>, post: seq<TokenBalance>)
    requires NetsTo(out, Indexes(pre + post), keys, pre, post)
    ensures PostMinusPre(out, keys, pre, post)
  {
    forall pool, wallet ensures Net(out, pool, wallet) ==
      Held(Indexes(pre + post), keys, pre + post, post, pool, wallet) - Held(Indexes(pre + post), keys, pre + post, pre, pool, wallet)
    {
      NetChangeIs(Indexes(pre + post), keys, pre, post, pool, wallet);
    }
  }

  /**
   Account changes of a transaction, one for each account whose amount changed. For every pool and wallet they add up to post minus pre over the
   wallet's accounts, with accounts created or closed by the transaction counted from or to zero.
   */
  method DiffTokenBalances(keys: seq<string>, pre: seq<TokenBalance>, post: seq<TokenBalance>) returns (out: seq<TokenDelta>)
    ensures NetsTo(out, Indexes(pre + post), keys, pre, post)
    ensures PostMinusPre(out, keys, pre, post)
    ensures Lists(out, Indexes(pre + post), keys, pre, post) && |out| <= |Indexes(pre + post)|
  {
    var order, byIndex := CollectBalances(pre, post);
    out := [];
    for n := 0 to |order|
      invariant NetsTo(out, order[..n], keys, pre, post)
      invariant Lists(out, order[..n], keys, pre, post) && |out| <= n
    {
      assert order[..n + 1][..n] == order[..n] && order[..n + 1] == order[..n] + [order[n]];
      ListsOneMore(out, order[..n], order[n], keys, pre, post);
      NetsOneMore(out, order[..n], order[n], keys, pre, post);
      assert order[n] in byIndex;
      var e := byIndex[order[n]];
      assert e.post == Amount(post, order[n]) && e.pre == Amount(pre, order[n]);
      if e.post != e.pre {
        var d := TokenDelta(AccountAt(keys, order[n]), e.owner, e.mint, e.post - e.pre);
        assert d == ChangeOf(order[n], keys, pre, post);
        out := out + [d];
      }
    }
    assert order[..|order|] == order;
    NetsUp(out, keys, pre, post);
  }
}
