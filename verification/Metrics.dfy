/** What both metric collectors compute: bounded windows of samples and the 95th percentile. */
module Metrics {
  /** One recorded call under its normalized name; latencies are whole microseconds. */
  datatype Call = Call(name: string, isError: bool, latency: int)

  function Latencies(log: seq<Call>, name: string): seq<int> {
    if log == [] then []
    else Latencies(log[..|log| - 1], name) + if log[|log| - 1].name == name then [log[|log| - 1].latency] else []
  }

  function Errors(log: seq<Call>, name: string): nat {
    if log == [] then 0
    else Errors(log[..|log| - 1], name) + if log[|log| - 1].name == name && log[|log| - 1].isError then 1 else 0
  }

  function Last<T>(xs: seq<T>, n: nat): (r: seq<T>)
    ensures |r| == if |xs| < n then |xs| else n
  {
    if |xs| <= n then xs else xs[|xs| - n..]
  }

  lemma LogSnoc(log: seq<Call>, c: Call, name: string)
    ensures Latencies(log + [c], name) == Latencies(log, name) + if c.name == name then [c.latency] else []
    ensures Errors(log + [c], name) == Errors(log, name) + if c.name == name && c.isError then 1 else 0
  {
    assert (log + [c])[..|log|] == log;
  }

  /** appendLatencySample of the TypeScript collector: a new window. */
  function AppendSample(samples: seq<int>, latency: int, maxSamples: int): seq<int> {
    if maxSamples <= 0 then [latency]
    else if |samples| < maxSamples then samples + [latency]
    else samples[1..] + [latency]
  }

  /** Appending to the window of the last `n` samples gives the window of the last `n`. */
  lemma AppendKeepsLast(xs: seq<int>, x: int, n: nat)
    requires n > 0
    ensures AppendSample(Last(xs, n), x, n) == Last(xs + [x], n)
  {
    if |xs| >= n {
      assert Last(xs, n) == xs[|xs| - n..];
    }
  }

  /** The counters and the sample window of one name. */
  datatype Window = Window(requestCount: nat, errorCount: nat, samples: seq<int>) {
    function Counting(isError: bool, latency: int, maxSamples: int): Window {
      Window(requestCount + 1, errorCount + if isError then 1 else 0, AppendSample(samples, latency, maxSamples))
    }
  }

  lemma RatioOf(e: real, n: real)
    requires n > 0.0
    ensures e / n * n == e && (0.0 <= e <= n ==> 0.0 <= e / n <= 1.0)
  {
  }

  /** Failed calls over all calls, and 0 before the first. */
  function ErrorRate(w: Window): (r: real)
    ensures w.errorCount <= w.requestCount ==> 0.0 <= r <= 1.0 && r * w.requestCount as real == w.errorCount as real
  {
    if w.requestCount > 0 then
      RatioOf(w.errorCount as real, w.requestCount as real);
      w.errorCount as real / w.requestCount as real
    else 0.0
  }

  /** What a collector of `maxSamples` should hold of `name` after `log`: how many calls, how many
      failed, and the last samples in recording order. */
  function WindowOf(log: seq<Call>, name: string, maxSamples: nat): Window {
    Window(|Latencies(log, name)|, Errors(log, name), Last(Latencies(log, name), maxSamples))
  }

  lemma WindowSnoc(log: seq<Call>, c: Call, name: string, maxSamples: nat)
    requires maxSamples > 0
    ensures WindowOf(log + [c], name, maxSamples)
         == if c.name == name then WindowOf(log, name, maxSamples).Counting(c.isError, c.latency, maxSamples)
            else WindowOf(log, name, maxSamples)
    ensures Latencies(log + [c], name) != [] <==> Latencies(log, name) != [] || c.name == name
  {
    LogSnoc(log, c, name);
    AppendKeepsLast(Latencies(log, name), c.latency, maxSamples);
  }

  lemma WindowLength(log: seq<Call>, name: string, maxSamples: nat)
    ensures |WindowOf(log, name, maxSamples).samples| <= maxSamples
  {
  }

  lemma {:induction false} FewerErrors(log: seq<Call>, name: string)
    ensures Errors(log, name) <= |Latencies(log, name)|
  {
    if log != [] { FewerErrors(log[..|log| - 1], name); }
  }

  lemma NoCallsYet(log: seq<Call>, name: string, maxSamples: nat)
    requires Latencies(log, name) == []
    ensures WindowOf(log, name, maxSamples) == Window(0, 0, [])
  {
    FewerErrors(log, name);
  }

  // ---------------------------------------------------------------- sorting

  ghost predicate Ascending(s: seq<int>) {
    forall i, j | 0 <= i < j < |s| :: s[i] <= s[j]
  }

  function InsertInto(x: int, s: seq<int>): seq<int> {
    if s == [] || x <= s[0] then [x] + s else [s[0]] + InsertInto(x, s[1..])
  }

  /** What a library sort of numbers leaves behind. */
  function Sort(s: seq<int>): (r: seq<int>) {
    if s == [] then [] else InsertInto(s[0], Sort(s[1..]))
  }

  lemma MultisetCons(x: int, s: seq<int>)
    ensures multiset([x] + s) == multiset{x} + multiset(s)
  {
  }

  lemma {:induction false} InsertIntoAscends(x: int, s: seq<int>)
    requires Ascending(s)
    ensures Ascending(InsertInto(x, s))
    ensures InsertInto(x, s) != [] && (InsertInto(x, s)[0] == x || (s != [] && InsertInto(x, s)[0] == s[0]))
  {
    if s != [] && x > s[0] {
      InsertIntoAscends(x, s[1..]);
    }
  }

  lemma {:induction false} InsertIntoAdds(x: int, s: seq<int>)
    ensures multiset(InsertInto(x, s)) == multiset{x} + multiset(s)
  {
    if s == [] || x <= s[0] {
      MultisetCons(x, s);
    } else {
      InsertIntoAdds(x, s[1..]);
      assert s == [s[0]] + s[1..];
      MultisetCons(s[0], s[1..]);
      MultisetCons(s[0], InsertInto(x, s[1..]));
    }
  }

  lemma {:induction false} InsertIntoLength(x: int, s: seq<int>)
    ensures |InsertInto(x, s)| == |s| + 1
  {
    if s != [] && x > s[0] { InsertIntoLength(x, s[1..]); }
  }

  lemma {:induction false} SortAscends(s: seq<int>)
    ensures Ascending(Sort(s)) && |Sort(s)| == |s|
  {
    if s != [] {
      SortAscends(s[1..]);
      InsertIntoAscends(s[0], Sort(s[1..]));
      InsertIntoLength(s[0], Sort(s[1..]));
    }
  }

  lemma {:induction false} SortPermutes(s: seq<int>)
    ensures multiset(Sort(s)) == multiset(s)
  {
    if s != [] {
      SortPermutes(s[1..]);
      InsertIntoAdds(s[0], Sort(s[1..]));
      MultisetCons(s[0], s[1..]);
      assert s == [s[0]] + s[1..];
    }
  }

  lemma LeastInBoth(a: seq<int>, b: seq<int>)
    requires a != [] && b != [] && Ascending(a) && Ascending(b) && multiset(a) == multiset(b)
    ensures a[0] == b[0]
  {
    assert a[0] in multiset(b) && b[0] in multiset(a);
    var i :| 0 <= i < |b| && b[i] == a[0];
    var j :| 0 <= j < |a| && a[j] == b[0];
    assert b[0] <= b[i] && a[0] <= a[j];
  }

  lemma TailsAscend(s: seq<int>)
    requires s != [] && Ascending(s)
    ensures Ascending(s[1..])
  {
  }

  lemma {:induction false} SortedIsUnique(a: seq<int>, b: seq<int>)
    requires Ascending(a) && Ascending(b) && multiset(a) == multiset(b)
    ensures a == b
  {
    assert |multiset(a)| == |a| && |multiset(b)| == |b|;
    if a != [] {
      LeastInBoth(a, b);
      hide Ascending;
      assert a == [a[0]] + a[1..] && b == [b[0]] + b[1..];
      MultisetCons(a[0], a[1..]);
      MultisetCons(b[0], b[1..]);
      assert multiset(a[1..]) == multiset(a) - multiset{a[0]} && multiset(b[1..]) == multiset(b) - multiset{b[0]};
      TailsAscend(a);
      TailsAscend(b);
      SortedIsUnique(a[1..], b[1..]);
    }
  }

  // ---------------------------------------------------------------- percentile

  /** ceil(0.95 n), the rank counted from 1. */
  function Rank(n: nat): (r: nat)
    ensures 20 * r >= 19 * n && 20 * (r - 1) < 19 * n
  {
    (19 * n + 19) / 20
  }

  /** The index the Go collector reads, with its two clamps. */
  function GoIndex(n: nat): int {
    var index := Rank(n) - 1;
    var index := if index < 0 then 0 else index;
    if index >= n then n - 1 else index
  }

  /** The index the TypeScript collector reads. */
  function TsIndex(n: nat): int {
    var index := if Rank(n) - 1 > 0 then Rank(n) - 1 else 0;
    if index < n - 1 then index else n - 1
  }

  /** For a non-empty window the clamps never fire and both collectors read the same index. */
  lemma ClampsNeverFire(n: nat)
    requires n > 0
    ensures GoIndex(n) == TsIndex(n) == Rank(n) - 1 && 0 <= Rank(n) - 1 < n
  {
  }

  /** calculateP95 of the TypeScript collector. */
  function P95(samples: seq<int>): int {
    if samples == [] then 0
    else
      SortAscends(samples);
      ClampsNeverFire(|samples|);
      Sort(samples)[TsIndex(|samples|)]
  }

  function CountAtMost(s: seq<int>, x: int): nat {
    if s == [] then 0 else (if s[0] <= x then 1 else 0) + CountAtMost(s[1..], x)
  }

  function CountBelow(s: seq<int>, x: int): nat {
    if s == [] then 0 else (if s[0] < x then 1 else 0) + CountBelow(s[1..], x)
  }

  lemma {:induction false} InsertCounts(y: int, s: seq<int>, x: int)
    ensures CountAtMost(InsertInto(y, s), x) == CountAtMost(s, x) + if y <= x then 1 else 0
    ensures CountBelow(InsertInto(y, s), x) == CountBelow(s, x) + if y < x then 1 else 0
  {
    if s == [] || y <= s[0] {
      assert ([y] + s)[1..] == s;
    } else {
      InsertCounts(y, s[1..], x);
      assert ([s[0]] + InsertInto(y, s[1..]))[1..] == InsertInto(y, s[1..]);
    }
  }

  lemma {:induction false} SortCounts(s: seq<int>, x: int)
    ensures CountAtMost(Sort(s), x) == CountAtMost(s, x) && CountBelow(Sort(s), x) == CountBelow(s, x)
  {
    if s != [] {
      SortCounts(s[1..], x);
      InsertCounts(s[0], Sort(s[1..]), x);
    }
  }

  lemma {:induction false} NoneBelow(s: seq<int>, x: int)
    requires forall i | 0 <= i < |s| :: s[i] >= x
    ensures CountBelow(s, x) == 0
  {
    if s != [] { NoneBelow(s[1..], x); }
  }

  lemma {:induction false} CountsAtIndex(s: seq<int>, k: nat, x: int)
    requires Ascending(s) && k < |s|
    ensures s[k] <= x ==> CountAtMost(s, x) >= k + 1
    ensures s[k] >= x ==> CountBelow(s, x) <= k
  {
    assert s[0] <= s[k];
    if k > 0 {
      CountsAtIndex(s[1..], k - 1, x);
    } else if s[0] >= x {
      NoneBelow(s, x);
    }
  }

  /** `v` is the nearest-rank 95th percentile: a sample with at least ceil(0.95 n) samples at most
      it and fewer than that below it. */
  ghost predicate IsNearestRank(samples: seq<int>, v: int) {
    v in samples && CountAtMost(samples, v) >= Rank(|samples|) && CountBelow(samples, v) < Rank(|samples|)
  }

  lemma {:induction false} CountsAreMonotone(s: seq<int>, x: int, y: int)
    requires x < y
    ensures CountAtMost(s, x) <= CountBelow(s, y)
  {
    if s != [] { CountsAreMonotone(s[1..], x, y); }
  }

  lemma P95IsSample(samples: seq<int>)
    requires samples != []
    ensures P95(samples) in samples
  {
    SortAscends(samples);
    SortPermutes(samples);
    ClampsNeverFire(|samples|);
    assert P95(samples) in multiset(Sort(samples));
  }

  lemma P95HasRank(samples: seq<int>)
    requires samples != []
    ensures IsNearestRank(samples, P95(samples))
  {
    var k := Rank(|samples|) - 1;
    SortAscends(samples);
    ClampsNeverFire(|samples|);
    P95IsSample(samples);
    SortCounts(samples, P95(samples));
    hide Rank, Ascending, CountAtMost, CountBelow;
    CountsAtIndex(Sort(samples), k, P95(samples));
  }

  /** The computed value is the nearest-rank percentile, and nothing else is. */
  lemma P95IsNearestRank(samples: seq<int>, v: int)
    requires samples != []
    ensures IsNearestRank(samples, v) <==> v == P95(samples)
  {
    P95HasRank(samples);
    hide P95, Rank;
    var r := P95(samples);
    if v < r { CountsAreMonotone(samples, v, r); }
    if r < v { CountsAreMonotone(samples, r, v); }
  }

  /** The order of the samples does not matter. */
  lemma P95IsOrderFree(a: seq<int>, b: seq<int>)
    requires multiset(a) == multiset(b)
    ensures P95(a) == P95(b)
  {
    SortAscends(a);
    SortAscends(b);
    SortPermutes(a);
    SortPermutes(b);
    SortedIsUnique(Sort(a), Sort(b));
  }
}
