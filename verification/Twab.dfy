/**
 Time-weighted average balances (packages/sdk/src/twab.ts, computeTwab).

 The reference meaning of a wallet's weight is the sum of its balance over every second of
 [start, end). The loop that walks the sorted events is proved to compute exactly that, and the sum
 is shown not to depend on the order in which the events arrive.
 */
module Twab {
  import opened Arith
  import opened Merkle
  import opened Sequences

  datatype Event = Event(wallet: Key, delta: int, ts: int)

  function Max(a: int, b: int): int {
    if a >= b then a else b
  }

  // ----- the meaning -----

  /** Balance in force during second `t`. */
  function BalanceAt(events: seq<Event>, t: int): int {
    if events == [] then 0 else (if events[0].ts <= t then events[0].delta else 0) + BalanceAt(events[1..], t)
  }

  /** Sum of the balance over every second of [start, end). */
  function Integral(events: seq<Event>, start: int, end: int): int
    decreases end - start
  {
    if end <= start then 0 else BalanceAt(events, start) + Integral(events, start + 1, end)
  }

  /** Weight of holding `balance`, counted once for every second. */
  function Weigh(balance: int, secs: int): int
    decreases secs
  {
    if secs <= 0 then 0 else balance + Weigh(balance, secs - 1)
  }

  lemma {:induction false} WeighIs(balance: int, secs: nat)
    ensures Weigh(balance, secs) == balance * secs
  {
    if secs > 0 {
      WeighIs(balance, secs - 1);
      MulSplit(balance, 0, secs - 1, secs);
    }
  }

  lemma {:induction false} WeighSplit(balance: int, m: nat, n: nat)
    ensures Weigh(balance, m + n) == Weigh(balance, m) + Weigh(balance, n)
    decreases n
  {
    if n > 0 {
      WeighSplit(balance, m, n - 1);
    }
  }

  lemma {:induction false} WeighBoth(a: int, b: int, secs: nat)
    ensures Weigh(a + b, secs) == Weigh(a, secs) + Weigh(b, secs)
  {
    if secs > 0 {
      WeighBoth(a, b, secs - 1);
    }
  }

  /** What one event contributes: its delta, for as long as it is in force inside the window. */
  function Contribution(e: Event, start: int, end: int): int {
    if e.ts < end then Weigh(e.delta, end - Max(e.ts, start)) else 0
  }

  lemma ContributionIs(e: Event, start: int, end: int)
    requires start <= end
    ensures Contribution(e, start, end) == if e.ts < end then e.delta * (end - Max(e.ts, start)) else 0
  {
    if e.ts < end {
      WeighIs(e.delta, end - Max(e.ts, start));
    }
  }

  function Contributions(events: seq<Event>, start: int, end: int): int {
    if events == [] then 0 else Contribution(events[0], start, end) + Contributions(events[1..], start, end)
  }

  /** The per-second sum has a closed form: each event counts for the seconds left after it. */
  lemma {:induction false} IntegralIsContributions(events: seq<Event>, start: int, end: int)
    requires start <= end
    ensures Integral(events, start, end) == Contributions(events, start, end)
    decreases end - start
  {
    if start == end {
      NoSeconds(events, start);
    } else {
      IntegralIsContributions(events, start + 1, end);
      FirstSecond(events, start, end);
    }
  }

  lemma {:induction false} NoSeconds(events: seq<Event>, start: int)
    ensures Contributions(events, start, start) == 0
  {
    if events != [] {
      NoSeconds(events[1..], start);
    }
  }

  lemma {:induction false} FirstSecond(events: seq<Event>, start: int, end: int)
    requires start < end
    ensures Contributions(events, start, end) == BalanceAt(events, start) + Contributions(events, start + 1, end)
  {
    if events != [] {
      FirstSecond(events[1..], start, end);
    }
  }

  /** Windows that join up: their integrals add up to the integral over the whole. */
  lemma {:induction false} IntegralComposes(events: seq<Event>, start: int, mid: int, end: int)
    requires start <= mid <= end
    ensures Integral(events, start, mid) + Integral(events, mid, end) == Integral(events, start, end)
    decreases mid - start
  {
    if start < mid {
      IntegralComposes(events, start + 1, mid, end);
    }
  }

  lemma {:induction false} ContributionsConcat(a: seq<Event>, b: seq<Event>, start: int, end: int)
    ensures Contributions(a + b, start, end) == Contributions(a, start, end) + Contributions(b, start, end)
  {
    if a == [] {
      assert a + b == b;
    } else {
      ContributionsConcat(a[1..], b, start, end);
      assert (a + b)[1..] == a[1..] + b;
    }
  }

  /** Any order of the same events, ties included, has the same weight. */
  lemma {:induction false} OrderDoesNotMatter(a: seq<Event>, b: seq<Event>, start: int, end: int)
    requires multiset(a) == multiset(b)
    ensures Contributions(a, start, end) == Contributions(b, start, end)
  {
    if a == [] {
      SameElements(a, b);
    } else {
      var i := DropFirst(a, b);
      OrderDoesNotMatter(a[1..], b[..i] + b[i + 1..], start, end);
      ContributionsConcat(b[..i], b[i + 1..], start, end);
      ContributionsConcat(b[..i], b[i..], start, end);
      assert b == b[..i] + b[i..] && b[i..][1..] == b[i + 1..];
    }
  }

  // ----- one wallet -----

  ghost predicate Chronological(events: seq<Event>) {
    forall i, j :: 0 <= i < j < |events| ==> events[i].ts <= events[j].ts
  }

  /** Stable insertion by timestamp. */
  function InsertByTs(e: Event, sorted: seq<Event>): seq<Event> {
    if sorted == [] || e.ts <= sorted[0].ts then [e] + sorted else [sorted[0]] + InsertByTs(e, sorted[1..])
  }

  function SortByTs(events: seq<Event>): seq<Event> {
    if events == [] then [] else InsertByTs(events[0], SortByTs(events[1..]))
  }

  lemma {:induction false} InsertHolds(e: Event, sorted: seq<Event>)
    ensures multiset(InsertByTs(e, sorted)) == multiset{e} + multiset(sorted)
  {
    if sorted != [] && e.ts > sorted[0].ts {
      InsertHolds(e, sorted[1..]);
      assert sorted == [sorted[0]] + sorted[1..];
    }
  }

  lemma PrependChronological(head: Event, r: seq<Event>)
    requires Chronological(r) && forall x :: x in r ==> head.ts <= x.ts
    ensures Chronological([head] + r)
  {}

  lemma {:induction false} InsertSorted(e: Event, sorted: seq<Event>)
    requires Chronological(sorted)
    ensures Chronological(InsertByTs(e, sorted))
  {
    if sorted != [] {
      var head, tail := sorted[0], sorted[1..];
      assert forall x :: x in tail ==> head.ts <= x.ts;
      if e.ts > head.ts {
        InsertSorted(e, tail);
        InsertHolds(e, tail);
        var r := InsertByTs(e, tail);
        SameElements(r, [e] + tail);
        PrependChronological(head, r);
      } else {
        PrependChronological(e, sorted);
      }
    }
  }

  lemma {:induction false} SortByTsSorts(events: seq<Event>)
    ensures multiset(SortByTs(events)) == multiset(events)
    ensures Chronological(SortByTs(events))
  {
    if events != [] {
      SortByTsSorts(events[1..]);
      InsertSorted(events[0], SortByTs(events[1..]));
      InsertHolds(events[0], SortByTs(events[1..]));
      assert events == [events[0]] + events[1..];
    }
  }

  function Total(events: seq<Event>): int {
    if events == [] then 0 else events[0].delta + Total(events[1..])
  }

  lemma {:induction false} TotalConcat(a: seq<Event>, b: seq<Event>)
    ensures Total(a + b) == Total(a) + Total(b)
  {
    if a == [] {
      assert a + b == b;
    } else {
      TotalConcat(a[1..], b);
      assert (a + b)[1..] == a[1..] + b;
    }
  }

  /** While nothing happens, the weight grows by the balance every second. */
  lemma {:induction false} Advance(events: seq<Event>, start: int, cursor: int, to: int)
    requires start <= cursor <= to && forall i :: 0 <= i < |events| ==> events[i].ts <= cursor
    ensures Contributions(events, start, to) == Contributions(events, start, cursor) + Weigh(Total(events), to - cursor)
  {
    if events != [] {
      var e, rest := events[0], events[1..];
      Advance(rest, start, cursor, to);
      if e.ts < to {
        WeighSplit(e.delta, cursor - Max(e.ts, start), to - cursor);
      }
      WeighBoth(e.delta, Total(rest), to - cursor);
    } else {
      WeighIs(0, to - cursor);
    }
  }

  lemma AdvanceBy(events: seq<Event>, start: int, cursor: int, to: int)
    requires start <= cursor <= to && forall i :: 0 <= i < |events| ==> events[i].ts <= cursor
    ensures Contributions(events, start, to) == Contributions(events, start, cursor) + Total(events) * (to - cursor)
  {
    Advance(events, start, cursor, to);
    WeighIs(Total(events), to - cursor);
  }

  lemma {:induction false} NotYet(events: seq<Event>, start: int, end: int)
    requires forall i :: 0 <= i < |events| ==> events[i].ts >= end
    ensures Contributions(events, start, end) == 0
  {
    if events != [] {
      NotYet(events[1..], start, end);
    }
  }

  /** First stretch of the walk: the balance when the window opens. */
  method BalanceBefore(walletEvents: seq<Event>, start: int) returns (balance: int, i: nat)
    ensures i <= |walletEvents| && balance == Total(walletEvents[..i])
    ensures forall j :: 0 <= j < i ==> walletEvents[j].ts < start
    ensures i < |walletEvents| ==> walletEvents[i].ts >= start
  {
    balance, i := 0, 0;
    while i < |walletEvents| && walletEvents[i].ts < start
      invariant 0 <= i <= |walletEvents|
      invariant balance == Total(walletEvents[..i])
      invariant forall j :: 0 <= j < i ==> walletEvents[j].ts < start
    {
      TakeOne(walletEvents, i, start, start);
      balance := balance + walletEvents[i].delta;
      i := i + 1;
    }
  }

  /** The next event: the weight up to it grows by the balance before it, its own delta counts from then on. */
  lemma WalkStep(whole: seq<Event>, i: nat, start: int, cursor: int)
    requires i < |whole| && start <= cursor <= whole[i].ts
    requires forall j :: 0 <= j < i ==> whole[j].ts <= cursor
    ensures Total(whole[..i + 1]) == Total(whole[..i]) + whole[i].delta
    ensures Contributions(whole[..i + 1], start, whole[i].ts)
         == Contributions(whole[..i], start, cursor) + Total(whole[..i]) * (whole[i].ts - cursor)
    ensures whole[i].ts == cursor ==> Total(whole[..i]) * (whole[i].ts - cursor) == 0
  {
    AdvanceBy(whole[..i], start, cursor, whole[i].ts);
    TakeOne(whole, i, start, whole[i].ts);
  }

  /** Second stretch: up to the end of the window, from event to event. */
  method WeightInside(walletEvents: seq<Event>, first: nat, opening: int, start: int, end: int) returns (weightedSum: int, i: nat)
    requires start < end && Chronological(walletEvents)
    requires first <= |walletEvents| && opening == Total(walletEvents[..first])
    requires forall j :: 0 <= j < first ==> walletEvents[j].ts < start
    requires first < |walletEvents| ==> walletEvents[first].ts >= start
    ensures i <= |walletEvents| && (i < |walletEvents| ==> walletEvents[i].ts >= end)
    ensures weightedSum == Contributions(walletEvents[..i], start, end)
  {
    i, weightedSum := first, 0;
    var balance, cursor := opening, start;
    NoSeconds(walletEvents[..i], start);
    while i < |walletEvents| && walletEvents[i].ts < end
      invariant 0 <= i <= |walletEvents|
      invariant start <= cursor < end
      invariant balance == Total(walletEvents[..i])
      invariant forall j :: 0 <= j < i ==> walletEvents[j].ts <= cursor
      invariant i < |walletEvents| ==> cursor <= walletEvents[i].ts
      invariant weightedSum == Contributions(walletEvents[..i], start, cursor)
    {
      var ev := walletEvents[i];
      var evTs := Max(ev.ts, start);
      WalkStep(walletEvents, i, start, cursor);
      if evTs > cursor {
        weightedSum := weightedSum + balance * (evTs - cursor);
        cursor := evTs;
      }
      assert cursor == ev.ts && weightedSum == Contributions(walletEvents[..i + 1], start, cursor);
      balance := balance + ev.delta;
      i := i + 1;
    }
    AdvanceBy(walletEvents[..i], start, cursor, end);
    if cursor < end {
      weightedSum := weightedSum + balance * (end - cursor);
    }
  }

  /** The walk over one wallet's events: the running integral, clamped to the window. */
  method WalletWeight(events: seq<Event>, start: int, end: int) returns (weightedSum: int)
    requires start < end
    ensures weightedSum == Integral(events, start, end)
  {
    var walletEvents := SortByTs(events);
    SortByTsSorts(events);
    var balance, first := BalanceBefore(walletEvents, start);
    var last;
    weightedSum, last := WeightInside(walletEvents, first, balance, start, end);
    RestIsLater(walletEvents, events, last, start, end);
  }

  lemma RestIsLater(whole: seq<Event>, events: seq<Event>, i: nat, start: int, end: int)
    requires multiset(whole) == multiset(events) && i <= |whole| && start <= end
    requires Chronological(whole) && (i < |whole| ==> whole[i].ts >= end)
    ensures Contributions(whole[..i], start, end) == Integral(events, start, end)
  {
    NotYet(whole[i..], start, end);
    assert whole == whole[..i] + whole[i..];
    ContributionsConcat(whole[..i], whole[i..], start, end);
    OrderDoesNotMatter(whole, events, start, end);
    IntegralIsContributions(events, start, end);
  }

  lemma TakeOne(events: seq<Event>, i: nat, start: int, end: int)
    requires i < |events|
    ensures Total(events[..i + 1]) == Total(events[..i]) + events[i].delta
    ensures Contributions(events[..i + 1], start, end) == Contributions(events[..i], start, end) + Contribution(events[i], start, end)
  {
    assert events[..i + 1] == events[..i] + [events[i]];
    TotalConcat(events[..i], [events[i]]);
    ContributionsConcat(events[..i], [events[i]], start, end);
  }
}
