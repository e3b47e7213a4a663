/**
 The rolling daily cap (programs/peg_desk/src/pricing.rs, window_add and window_release): one counter,
 fixed buckets opened by the first trade after expiry, and net flow inside a bucket.
 */
module DailyCap {
  import opened Breakers
  import opened Prelude
  import opened Pricing

  datatype Counter = Counter(start: i64, used: u64)

  function WindowAdd(c: Counter, now: i64, windowSecs: i64, cap: u64, amount: u64): Option<Counter> {
    var (start, used) := if SaturatingSub(now, c.start) >= windowSecs then (now, 0) else (c.start, c.used);
    var newUsed: int := used + amount;
    if newUsed > U64_MAX then None
    else if cap > 0 && newUsed > cap then None
    else Some(Counter(start, newUsed))
  }

  function WindowRelease(used: u64, amount: u64): u64 {
    if amount <= used then used - amount else 0
  }

  datatype Flow = Add(now: i64, amount: u64) | Release(amount: u64)

  function ApplyFlow(c: Counter, f: Flow, windowSecs: i64, cap: u64): Option<Counter> {
    match f
    case Add(now, amount) => WindowAdd(c, now, windowSecs, cap, amount)
    case Release(amount) => Some(c.(used := WindowRelease(c.used, amount)))
  }

  /** The counter after a run of flows, or `None` if one of them was refused. */
  function Run(c: Counter, flows: seq<Flow>, windowSecs: i64, cap: u64): Option<Counter> {
    if flows == [] then Some(c) else
    var before :- Run(c, flows[..|flows| - 1], windowSecs, cap);
    ApplyFlow(before, flows[|flows| - 1], windowSecs, cap)
  }

  /** What a run lets through on balance: added minus released. */
  function Net(flows: seq<Flow>): int {
    if flows == [] then 0 else
    var f := flows[|flows| - 1];
    Net(flows[..|flows| - 1]) + Signed(f)
  }

  lemma {:induction false} NetConcat(a: seq<Flow>, b: seq<Flow>)
    ensures Net(a + b) == Net(a) + Net(b)
  {
    if b == [] {
      assert a + b == a;
    } else {
      NetConcat(a, b[..|b| - 1]);
      assert (a + b)[..|a + b| - 1] == a + b[..|b| - 1];
    }
  }

  // ----- what is accepted -----

  /** A window has passed since `start`. (The clocks of the program are 64 bits; a window is never the least of those.) */
  predicate Expired(start: i64, now: i64, windowSecs: i64) {
    now - start >= windowSecs || windowSecs == -0x8000_0000_0000_0000
  }

  /** What has been used of the current bucket: nothing once a window has passed since it started. */
  function UsedBefore(c: Counter, now: i64, windowSecs: i64): u64 {
    if Expired(c.start, now, windowSecs) then 0 else c.used
  }

  /**
   An addition is accepted if and only if the counter stays within 64 bits and within the cap; a cap of 0 is no
   cap. It is then counted, in a new bucket when the old one has expired.
   */
  lemma AddIff(c: Counter, now: i64, windowSecs: i64, cap: u64, amount: u64)
    ensures var r, sum := WindowAdd(c, now, windowSecs, cap, amount), UsedBefore(c, now, windowSecs) + amount;
      && (r.Some? <==> sum <= U64_MAX && (cap == 0 || sum <= cap))
      && (r.Some? ==> r.value == Counter(if Expired(c.start, now, windowSecs) then now else c.start, sum))
  {}

  /** A release always succeeds, gives back at most what is used, and leaves the bucket. */
  lemma ReleaseIs(c: Counter, amount: u64, windowSecs: i64, cap: u64)
    ensures var r := ApplyFlow(c, Release(amount), windowSecs, cap);
      r.Some? && r.value.start == c.start && r.value.used == if amount <= c.used then c.used - amount else 0
  {}

  /** The addition `flows[i]` is the first to be refused: it does not fit in 64 bits, or in a cap that is set. */
  ghost predicate RefusedAt(c: Counter, flows: seq<Flow>, windowSecs: i64, cap: u64, i: nat) {
    && i < |flows| && flows[i].Add? && Run(c, flows[..i], windowSecs, cap).Some?
    && var sum := UsedBefore(Run(c, flows[..i], windowSecs, cap).value, flows[i].now, windowSecs) + flows[i].amount;
       sum > U64_MAX || (cap > 0 && sum > cap)
  }

  /** A run is refused exactly at such an addition; without a cap, only when 64 bits are exceeded. */
  lemma {:induction false} RefusedIff(c: Counter, flows: seq<Flow>, windowSecs: i64, cap: u64)
    ensures Run(c, flows, windowSecs, cap).None? <==> exists i: nat :: RefusedAt(c, flows, windowSecs, cap, i)
  {
    if flows != [] {
      var n := |flows| - 1;
      RefusedIff(c, flows[..n], windowSecs, cap);
      if i: nat :| RefusedAt(c, flows[..n], windowSecs, cap, i) {
        assert flows[..n][..i] == flows[..i];
        assert RefusedAt(c, flows, windowSecs, cap, i);
      }
      if i: nat :| RefusedAt(c, flows, windowSecs, cap, i) {
        if i < n {
          assert flows[..n][..i] == flows[..i];
          assert RefusedAt(c, flows[..n], windowSecs, cap, i);
        }
      }
      if Run(c, flows[..n], windowSecs, cap).Some? && Run(c, flows, windowSecs, cap).None? {
        AddIff(Run(c, flows[..n], windowSecs, cap).value, flows[n].now, windowSecs, cap, flows[n].amount);
        assert RefusedAt(c, flows, windowSecs, cap, n);
      }
    }
  }

  function Added(flows: seq<Flow>): nat {
    if flows == [] then 0 else
    var f := flows[|flows| - 1];
    Added(flows[..|flows| - 1]) + if f.Add? then f.amount else 0
  }

  /** With the cap off, or never reached by all additions together, no trade is refused. */
  lemma {:induction false} NeverRefused(c: Counter, flows: seq<Flow>, windowSecs: i64, cap: u64)
    requires c.used + Added(flows) <= U64_MAX && (cap == 0 || c.used + Added(flows) <= cap)
    ensures Run(c, flows, windowSecs, cap).Some? && Run(c, flows, windowSecs, cap).value.used <= c.used + Added(flows)
  {
    if flows != [] {
      NeverRefused(c, flows[..|flows| - 1], windowSecs, cap);
    }
  }

  /** Index of the trade that opened the current bucket; 0 while nothing has expired. */
  function Bucket(c: Counter, flows: seq<Flow>, windowSecs: i64, cap: u64): (i: nat)
    ensures i <= |flows| && (flows != [] ==> i < |flows|)
  {
    if flows == [] then 0 else
    var n := |flows| - 1;
    var before := Run(c, flows[..n], windowSecs, cap);
    if before.Some? && flows[n].Add? && SaturatingSub(flows[n].now, before.value.start) >= windowSecs then n
    else Bucket(c, flows[..n], windowSecs, cap)
  }

  function Signed(f: Flow): int {
    if f.Add? then f.amount else -(f.amount as int)
  }

  lemma SuffixStep(flows: seq<Flow>, i: nat)
    requires i < |flows|
    ensures Net(flows[i..]) == Net(flows[..|flows| - 1][i..]) + Signed(flows[|flows| - 1])
  {
    var tail := flows[i..];
    assert tail[..|tail| - 1] == flows[..|flows| - 1][i..];
  }

  /** No stretch from inside the current bucket up to now lets more through than `used`. */
  lemma {:induction false} UsedBoundsSuffix(c: Counter, flows: seq<Flow>, windowSecs: i64, cap: u64, i: nat)
    requires c.used == 0 && Run(c, flows, windowSecs, cap).Some? && Bucket(c, flows, windowSecs, cap) <= i <= |flows|
    ensures Net(flows[i..]) <= Run(c, flows, windowSecs, cap).value.used
  {
    if i == |flows| {
      assert flows[i..] == [];
    } else {
      var n := |flows| - 1;
      SuffixStep(flows, i);
      if Bucket(c, flows, windowSecs, cap) == n && i == n && flows[n].Add? {
        assert flows[..n][n..] == [];
      } else {
        UsedBoundsSuffix(c, flows[..n], windowSecs, cap, i);
      }
    }
  }

  /** One such stretch lets exactly `used` through. */
  lemma {:induction false} UsedIsSuffix(c: Counter, flows: seq<Flow>, windowSecs: i64, cap: u64) returns (i: nat)
    requires c.used == 0 && Run(c, flows, windowSecs, cap).Some?
    ensures Bucket(c, flows, windowSecs, cap) <= i <= |flows|
    ensures Net(flows[i..]) == Run(c, flows, windowSecs, cap).value.used
  {
    i := |flows|;
    assert flows[i..] == [];
    if Run(c, flows, windowSecs, cap).value.used > 0 {
      var n := |flows| - 1;
      i := UsedIsSuffix(c, flows[..n], windowSecs, cap);
      if Bucket(c, flows, windowSecs, cap) > i {
        i := n;
        assert flows[..n][n..] == [];
      }
      SuffixStep(flows, i);
    }
  }

  /**
   The counter is exact: `used` is the largest net flow of any stretch that reaches from inside the current
   bucket up to now, the empty stretch included.
   */
  lemma UsedIsLargestSuffix(c: Counter, flows: seq<Flow>, windowSecs: i64, cap: u64)
    requires c.used == 0 && Run(c, flows, windowSecs, cap).Some?
    ensures var used := Run(c, flows, windowSecs, cap).value.used; var b := Bucket(c, flows, windowSecs, cap);
      && (forall i :: b <= i <= |flows| ==> Net(flows[i..]) <= used)
      && (exists i :: b <= i <= |flows| && Net(flows[i..]) == used)
  {
    forall i | Bucket(c, flows, windowSecs, cap) <= i <= |flows| ensures Net(flows[i..]) <= Run(c, flows, windowSecs, cap).value.used {
      UsedBoundsSuffix(c, flows, windowSecs, cap, i);
    }
    var i := UsedIsSuffix(c, flows, windowSecs, cap);
  }

  // ----- any span of one window -----

  /** The clock never goes back. */
  ghost predicate Clocked(flows: seq<Flow>) {
    forall i, j :: 0 <= i < j < |flows| && flows[i].Add? && flows[j].Add? ==> flows[i].now <= flows[j].now
  }

  /** All additions of flows[i..j] happen within `span` seconds. */
  ghost predicate SpanWithin(flows: seq<Flow>, i: nat, j: nat, span: int)
    requires i <= j <= |flows|
  {
    forall x, y :: i <= x < y < j && flows[x].Add? && flows[y].Add? ==> flows[y].now - flows[x].now <= span
  }

  lemma {:induction false} PrefixRuns(c: Counter, flows: seq<Flow>, windowSecs: i64, cap: u64, j: nat)
    requires Run(c, flows, windowSecs, cap).Some? && j <= |flows|
    ensures Run(c, flows[..j], windowSecs, cap).Some?
  {
    if j < |flows| {
      PrefixRuns(c, flows[..|flows| - 1], windowSecs, cap, j);
      assert flows[..|flows| - 1][..j] == flows[..j];
    } else {
      assert flows[..j] == flows;
    }
  }

  lemma {:induction false} UsedWithinCap(c: Counter, flows: seq<Flow>, windowSecs: i64, cap: u64)
    requires c.used == 0 && cap > 0 && Run(c, flows, windowSecs, cap).Some?
    ensures Run(c, flows, windowSecs, cap).value.used <= cap
  {
    if flows != [] {
      UsedWithinCap(c, flows[..|flows| - 1], windowSecs, cap);
    }
  }

  /** A bucket past the first one was opened by an addition, a window after the bucket before it, and starts there. */
  lemma {:induction false} BucketFacts(c: Counter, flows: seq<Flow>, windowSecs: i64, cap: u64)
    requires Run(c, flows, windowSecs, cap).Some? && Bucket(c, flows, windowSecs, cap) > 0
    ensures var b := Bucket(c, flows, windowSecs, cap);
      && b < |flows| && flows[b].Add?
      && Run(c, flows[..b], windowSecs, cap).Some?
      && SaturatingSub(flows[b].now, Run(c, flows[..b], windowSecs, cap).value.start) >= windowSecs
      && Run(c, flows, windowSecs, cap).value.start == flows[b].now
  {
    var n := |flows| - 1;
    var b := Bucket(c, flows, windowSecs, cap);
    if b < n || !flows[n].Add? || SaturatingSub(flows[n].now, Run(c, flows[..n], windowSecs, cap).value.start) < windowSecs {
      BucketFacts(c, flows[..n], windowSecs, cap);
      assert flows[..n][..b] == flows[..b];
    }
  }

  /** Every addition so far is younger than a window, measured from the start of the current bucket. */
  lemma {:induction false} AddsAreRecent(c: Counter, flows: seq<Flow>, windowSecs: i64, cap: u64, x: nat)
    requires windowSecs > 0 && Run(c, flows, windowSecs, cap).Some? && Clocked(flows) && x < |flows| && flows[x].Add?
    ensures SaturatingSub(flows[x].now, Run(c, flows, windowSecs, cap).value.start) < windowSecs
  {
    var n := |flows| - 1;
    if x < n {
      AddsAreRecent(c, flows[..n], windowSecs, cap, x);
    }
  }

  lemma EarlierAdd(c: Counter, flows: seq<Flow>, windowSecs: i64, cap: u64, x: nat, now: i64)
    requires windowSecs > 0 && Run(c, flows, windowSecs, cap).Some? && Clocked(flows) && x < |flows| && flows[x].Add?
    requires SaturatingSub(now, Run(c, flows, windowSecs, cap).value.start) >= windowSecs
    ensures flows[x].now < now
  {
    AddsAreRecent(c, flows, windowSecs, cap, x);
  }

  lemma {:induction false} OnlyReleases(flows: seq<Flow>)
    requires forall x :: 0 <= x < |flows| ==> flows[x].Release?
    ensures Net(flows) <= 0
  {
    if flows != [] {
      OnlyReleases(flows[..|flows| - 1]);
    }
  }

  /** A stretch inside the bucket of its end lets at most the cap through. */
  lemma InsideBucket(c: Counter, flows: seq<Flow>, windowSecs: i64, cap: u64, i: nat, j: nat)
    requires c.used == 0 && cap > 0 && Run(c, flows, windowSecs, cap).Some? && i <= j <= |flows|
    requires Bucket(c, flows[..j], windowSecs, cap) <= i
    ensures Net(flows[i..j]) <= cap
  {
    PrefixRuns(c, flows, windowSecs, cap, j);
    UsedIsLargestSuffix(c, flows[..j], windowSecs, cap);
    UsedWithinCap(c, flows[..j], windowSecs, cap);
    assert flows[..j][i..] == flows[i..j];
  }

  /** Nothing was added before an opening that lies a whole window before the next one, if both are in the span. */
  lemma QuietBefore(c: Counter, flows: seq<Flow>, windowSecs: i64, cap: u64, i: nat, j: nat, b: nat, b': nat)
    requires windowSecs > 0 && Run(c, flows, windowSecs, cap).Some? && Clocked(flows) && i < b' < b < j <= |flows|
    requires SpanWithin(flows, i, j, windowSecs) && flows[b].Add? && flows[b'].Add?
    requires b' == Bucket(c, flows[..b], windowSecs, cap) && SaturatingSub(flows[b].now, flows[b'].now) >= windowSecs
    ensures Net(flows[i..b']) <= 0
  {
    PrefixRuns(c, flows, windowSecs, cap, b);
    BucketFacts(c, flows[..b], windowSecs, cap);
    assert flows[..b][..b'] == flows[..b'];
    assert flows[..b][b'] == flows[b'];
    forall x | i <= x < b' ensures flows[x].Release? {
      if flows[x].Add? {
        EarlierAdd(c, flows[..b'], windowSecs, cap, x, flows[b'].now);
      }
    }
    OnlyReleases(flows[i..b']);
  }

  /** A stretch up to the opening of a bucket, inside a span that goes on past it. */
  lemma BeforeBucket(c: Counter, flows: seq<Flow>, windowSecs: i64, cap: u64, i: nat, j: nat, b: nat)
    requires c.used == 0 && cap > 0 && windowSecs > 0
    requires Run(c, flows, windowSecs, cap).Some? && Clocked(flows)
    requires i < b < j <= |flows| && SpanWithin(flows, i, j, windowSecs)
    requires flows[b].Add? && Run(c, flows[..b], windowSecs, cap).Some?
    requires SaturatingSub(flows[b].now, Run(c, flows[..b], windowSecs, cap).value.start) >= windowSecs
    ensures Net(flows[i..b]) <= cap
  {
    var b' := Bucket(c, flows[..b], windowSecs, cap);
    if b' <= i {
      InsideBucket(c, flows, windowSecs, cap, i, b);
    } else {
      BucketFacts(c, flows[..b], windowSecs, cap);
      assert flows[..b][b'] == flows[b'];
      QuietBefore(c, flows, windowSecs, cap, i, j, b, b');
      InsideBucket(c, flows, windowSecs, cap, b', b);
      NetSplit(flows, i, b', b);
    }
  }

  lemma NetSplit(flows: seq<Flow>, i: nat, m: nat, j: nat)
    requires i <= m <= j <= |flows|
    ensures Net(flows[i..j]) == Net(flows[i..m]) + Net(flows[m..j])
  {
    assert flows[i..j] == flows[i..m] + flows[m..j];
    NetConcat(flows[i..m], flows[m..j]);
  }

  /**
   The daily cap in any span, not just in a bucket: whatever the buckets, the net flow of any stretch of
   trades no longer than one window is at most twice the cap.
   */
  lemma TwiceTheCap(c: Counter, flows: seq<Flow>, windowSecs: i64, cap: u64, i: nat, j: nat)
    requires c.used == 0 && cap > 0 && windowSecs > 0
    requires Run(c, flows, windowSecs, cap).Some? && Clocked(flows)
    requires i <= j <= |flows| && SpanWithin(flows, i, j, windowSecs)
    ensures Net(flows[i..j]) <= 2 * cap
  {
    PrefixRuns(c, flows, windowSecs, cap, j);
    var b := Bucket(c, flows[..j], windowSecs, cap);
    if b <= i {
      InsideBucket(c, flows, windowSecs, cap, i, j);
    } else {
      BucketFacts(c, flows[..j], windowSecs, cap);
      assert flows[..j][..b] == flows[..b] && flows[..j][b] == flows[b];
      InsideBucket(c, flows, windowSecs, cap, b, j);
      BeforeBucket(c, flows, windowSecs, cap, i, j, b);
      NetSplit(flows, i, b, j);
    }
  }

  /** And no smaller multiple will do: two full caps can pass within a second, around the end of a bucket. */
  lemma TwiceTheCapIsAttained(windowSecs: i64, cap: u64)
    requires windowSecs > 0
    ensures var flows := [Add(windowSecs - 1, cap), Add(windowSecs, cap)];
      && Run(Counter(0, 0), flows, windowSecs, cap).Some?
      && Clocked(flows) && SpanWithin(flows, 0, 2, 1)
      && Net(flows) == 2 * cap
  {
    var first, second := Add(windowSecs - 1, cap), Add(windowSecs, cap);
    assert [first, second][..1] == [first] && [first][..0] == [];
    assert Run(Counter(0, 0), [first], windowSecs, cap) == Some(Counter(0, cap));
    assert Net([first]) == cap;
  }
}
