/** The Go metrics collector: counters and an in-place sample window per method. */
module Collector {
  import opened Domain
  import opened Metrics
  import Text

  const DefaultMaxLatencySamples := 512

  /** `strings.TrimSpace`, and "unknown" for what is left of a blank name. */
  function NormalizeMethodName(method_: string): string {
    var trimmed := Text.Trim(method_, IsGoSpace);
    if trimmed == "" then "unknown" else trimmed
  }

  /** A blank name becomes "unknown"; any other loses the space at its ends and no more. */
  lemma MethodNameIsTrimmed(text: string)
    ensures if IsBlank(text) then NormalizeMethodName(text) == "unknown"
            else Text.IsTrimmed(text, NormalizeMethodName(text), IsGoSpace)
  {
    Text.TrimIsTrimmed(text, IsGoSpace);
    var r := Text.Trim(text, IsGoSpace);
    var before, after :| text == before + r + after && Text.AllSpace(before, IsGoSpace)
        && Text.AllSpace(after, IsGoSpace);
    Text.BlankIff(before, r, after, IsGoSpace);
  }

  /** Every gRPC code but OK, which is 0. */
  predicate IsErrorCode(code: nat) {
    code != 0
  }

  /** `Duration.Microseconds()`: whole microseconds, truncated toward zero. */
  function Microseconds(nanoseconds: int): int {
    if nanoseconds >= 0 then nanoseconds / 1000 else -(-nanoseconds / 1000)
  }

  lemma MicrosecondsAreWhole(nanoseconds: int)
    ensures var m := Microseconds(nanoseconds);
            if nanoseconds >= 0 then 1000 * m <= nanoseconds < 1000 * (m + 1)
            else 1000 * (m - 1) < nanoseconds <= 1000 * m
  {
  }

  /** appendLatencySample on the slice `data[..len]`: below the limit `append` writes behind the
      slice while the array has room there and moves to a larger array otherwise; at the limit the
      window is shifted in place. */
  method AppendLatencySample(data: array<int>, len: nat, latency: int, maxSamples: int)
    returns (data': array<int>, len': nat)
    requires len <= data.Length && (maxSamples > 0 ==> len <= maxSamples)
    modifies data
    ensures len' <= data'.Length && data'[..len'] == AppendSample(old(data[..len]), latency, maxSamples)
    ensures data' == data || (fresh(data') && data[..] == old(data[..]))
  {
    if maxSamples <= 0 {
      data' := new int[1](_ => latency);
      return data', 1;
    }
    if len < maxSamples {
      if len < data.Length {
        data[len] := latency;
        return data, len + 1;
      }
      var capacity: nat :| capacity > len;
      data' := new int[capacity](i requires 0 <= i < capacity reads data =>
        if i < data.Length then data[i] else latency);
      return data', len + 1;
    }
    for i := 0 to len - 1
      invariant forall k | 0 <= k < i :: data[k] == old(data[k + 1])
      invariant forall k | i <= k < len :: data[k] == old(data[k])
    {
      data[i] := data[i + 1];
    }
    data[len - 1] := latency;
    return data, len;
  }

  /** sort.Float64s. */
  method SortInPlace(a: array<int>)
    modifies a
    ensures a[..] == Sort(old(a[..]))
  {
    var sorted := Sort(a[..]);
    SortAscends(a[..]);
    forall i | 0 <= i < a.Length {
      a[i] := sorted[i];
    }
    assert a[..] == sorted;
  }

  /** calculateP95: sorts a copy in place, so the argument is untouched. */
  method CalculateP95(samples: seq<int>) returns (p95: int)
    ensures p95 == P95(samples)
  {
    if samples == [] {
      return 0;
    }
    var copied := new int[|samples|](i requires 0 <= i < |samples| => samples[i]);
    assert copied[..] == samples;
    SortInPlace(copied);
    SortAscends(samples);
    ClampsNeverFire(|samples|);
    assert copied[GoIndex(|samples|)] == copied[..][GoIndex(|samples|)];
    return copied[GoIndex(copied.Length)];
  }

  class MethodState {
    var requestCount: nat
    var errorCount: nat
    /** The backing array of the slice `latencySamples`, and the slice's length. */
    var samples: array<int>
    var length: nat

    constructor ()
      ensures Valid() && fresh(samples) && View() == Window(0, 0, [])
    {
      requestCount, errorCount := 0, 0;
      samples, length := new int[0], 0;
    }

    ghost predicate Valid()
      reads this
    {
      length <= samples.Length
    }

    ghost function View(): Window
      requires Valid()
      reads this, samples
    {
      Window(requestCount, errorCount, samples[..length])
    }

    /** Counts one call in place. */
    method Record(isError: bool, latency: int, maxSamples: nat)
      requires Valid() && 0 < maxSamples && length <= maxSamples
      modifies this, samples
      ensures Valid() && View() == old(View()).Counting(isError, latency, maxSamples)
      ensures samples == old(samples) || fresh(samples)
    {
      requestCount := requestCount + 1;
      if isError {
        errorCount := errorCount + 1;
      }
      samples, length := AppendLatencySample(samples, length, latency, maxSamples);
    }
  }

  datatype MethodMetrics = MethodMetrics(name: string, requestCount: nat, errorCount: nat, errorRate: real, p95: int)

  function MetricsIn(name: string, w: Window): MethodMetrics {
    MethodMetrics(name, w.requestCount, w.errorCount, ErrorRate(w), P95(w.samples))
  }

  /** What a snapshot shows of `name` after `log`. */
  function MetricsOf(log: seq<Call>, name: string, maxSamples: nat): MethodMetrics {
    MetricsIn(name, WindowOf(log, name, maxSamples))
  }

  // ---------------------------------------------------------------- order by name

  /** Go's `<` on strings; byte order of UTF-8 is code point order. */
  predicate NameLess(a: string, b: string) {
    b != "" && (a == "" || a[0] < b[0] || (a[0] == b[0] && NameLess(a[1..], b[1..])))
  }

  /** `a` ends, or goes on with a smaller character, where `b` goes on after `k` shared ones. */
  predicate PartsAt(a: string, b: string, k: nat) {
    k <= |a| && k < |b| && a[..k] == b[..k] && (k == |a| || a[k] < b[k])
  }

  lemma PartsLater(a: string, b: string, k: nat)
    requires a != "" && b != "" && a[0] == b[0]
    ensures PartsAt(a, b, k + 1) <==> PartsAt(a[1..], b[1..], k)
  {
    if k < |a| && k + 1 < |b| {
      assert a[..k + 1] == [a[0]] + a[1..][..k] && b[..k + 1] == [b[0]] + b[1..][..k];
      assert a[1..][..k] == a[..k + 1][1..] && b[1..][..k] == b[..k + 1][1..];
    }
  }

  lemma {:induction false} LessParts(a: string, b: string) returns (k: nat)
    requires NameLess(a, b)
    ensures PartsAt(a, b, k)
  {
    if a == "" || a[0] != b[0] {
      return 0;
    }
    k := LessParts(a[1..], b[1..]);
    PartsLater(a, b, k);
    k := k + 1;
  }

  lemma {:induction false} PartedIsLess(a: string, b: string, k: nat)
    requires PartsAt(a, b, k)
    ensures NameLess(a, b)
    decreases k
  {
    if k > 0 {
      assert a[0] == a[..k][0] == b[..k][0] == b[0];
      PartsLater(a, b, k - 1);
      PartedIsLess(a[1..], b[1..], k - 1);
    }
  }

  /** A name comes before another one exactly if, behind what they share in front, it ends first or
      goes on with the smaller character. */
  lemma NameLessIff(a: string, b: string)
    ensures NameLess(a, b) <==>
              exists k | 0 <= k <= |a| && k < |b| :: a[..k] == b[..k] && (k == |a| || a[k] < b[k])
  {
    if NameLess(a, b) {
      var k := LessParts(a, b);
      assert PartsAt(a, b, k);
    }
    hide NameLess;
    if k :| 0 <= k <= |a| && k < |b| && a[..k] == b[..k] && (k == |a| || a[k] < b[k]) {
      PartedIsLess(a, b, k);
    }
  }

  lemma {:induction false} NamesCompare(a: string, b: string)
    ensures NameLess(a, b) || a == b || NameLess(b, a)
    ensures !(NameLess(a, b) && NameLess(b, a)) && !NameLess(a, a)
  {
    if a != "" && b != "" && a[0] == b[0] {
      NamesCompare(a[1..], b[1..]);
      assert a == [a[0]] + a[1..] && b == [b[0]] + b[1..];
    }
    if a != "" { NamesCompare(a[1..], a[1..]); }
  }

  lemma {:induction false} NamesChain(a: string, b: string, c: string)
    requires NameLess(a, b) && NameLess(b, c)
    ensures NameLess(a, c)
  {
    if a != "" && a[0] == b[0] && b[0] == c[0] {
      NamesChain(a[1..], b[1..], c[1..]);
    }
  }

  ghost predicate ByName(s: seq<MethodMetrics>) {
    forall i, j | 0 <= i < j < |s| :: NameLess(s[i].name, s[j].name)
  }

  function InsertByName(e: MethodMetrics, s: seq<MethodMetrics>): (r: seq<MethodMetrics>)
    ensures forall x :: x in r <==> x == e || x in s
  {
    if s == [] || NameLess(e.name, s[0].name) then [e] + s else [s[0]] + InsertByName(e, s[1..])
  }

  lemma {:induction false} InsertKeepsByName(e: MethodMetrics, s: seq<MethodMetrics>)
    requires ByName(s) && forall x | x in s :: x.name != e.name
    ensures ByName(InsertByName(e, s))
  {
    if s == [] {
    } else if NameLess(e.name, s[0].name) {
      forall j | 0 < j < |s| ensures NameLess(e.name, s[j].name) {
        NamesChain(e.name, s[0].name, s[j].name);
      }
    } else {
      InsertKeepsByName(e, s[1..]);
      NamesCompare(e.name, s[0].name);
      var r := InsertByName(e, s[1..]);
      forall j | 0 <= j < |r| ensures NameLess(s[0].name, r[j].name) {
        assert r[j] == e || r[j] in s[1..];
      }
    }
  }

  /** What `sort.Slice` by name leaves behind. */
  function SortByName(s: seq<MethodMetrics>): (r: seq<MethodMetrics>)
    ensures forall x :: x in r <==> x in s
  {
    if s == [] then [] else InsertByName(s[0], SortByName(s[1..]))
  }

  function NamesOf(s: seq<MethodMetrics>): set<string> {
    set e | e in s :: e.name
  }

  ghost predicate DistinctNames(s: seq<MethodMetrics>) {
    forall i, j | 0 <= i < j < |s| :: s[i].name != s[j].name
  }

  lemma {:induction false} SortByNameSorts(s: seq<MethodMetrics>)
    requires DistinctNames(s)
    ensures ByName(SortByName(s))
  {
    if s != [] {
      SortByNameSorts(s[1..]);
      InsertKeepsByName(s[0], SortByName(s[1..]));
    }
  }

  lemma ByNameIsDistinct(s: seq<MethodMetrics>)
    requires ByName(s)
    ensures DistinctNames(s)
  {
    forall i, j | 0 <= i < j < |s| ensures s[i].name != s[j].name {
      NamesCompare(s[i].name, s[i].name);
    }
  }

  // ---------------------------------------------------------------- totals

  function TotalRequests(s: seq<MethodMetrics>): nat {
    if s == [] then 0 else s[0].requestCount + TotalRequests(s[1..])
  }

  function CallsTo(log: seq<Call>, names: set<string>): nat {
    if log == [] then 0
    else CallsTo(log[..|log| - 1], names) + if log[|log| - 1].name in names then 1 else 0
  }

  lemma {:induction false} CallsToMore(log: seq<Call>, names: set<string>, name: string)
    requires name !in names
    ensures CallsTo(log, names + {name}) == CallsTo(log, names) + |Latencies(log, name)|
  {
    if log != [] { CallsToMore(log[..|log| - 1], names, name); }
  }

  lemma {:induction false} CallsToAll(log: seq<Call>, names: set<string>)
    requires forall c | c in log :: c.name in names
    ensures CallsTo(log, names) == |log|
  {
    if log != [] { CallsToAll(log[..|log| - 1], names); }
  }

  lemma {:induction false} CallsToNone(log: seq<Call>)
    ensures CallsTo(log, {}) == 0
  {
    if log != [] { CallsToNone(log[..|log| - 1]); }
  }

  lemma {:induction false} TotalIsCallsTo(log: seq<Call>, s: seq<MethodMetrics>)
    requires DistinctNames(s) && forall i | 0 <= i < |s| :: s[i].requestCount == |Latencies(log, s[i].name)|
    ensures TotalRequests(s) == CallsTo(log, NamesOf(s))
  {
    if s == [] {
      assert NamesOf(s) == {};
      CallsToNone(log);
    } else {
      TotalIsCallsTo(log, s[1..]);
      var rest := NamesOf(s[1..]);
      assert NamesOf(s) == rest + {s[0].name};
      CallsToMore(log, rest, s[0].name);
    }
  }

  lemma {:induction false} RecordedCallsHaveLatencies(log: seq<Call>, c: Call)
    requires c in log
    ensures Latencies(log, c.name) != []
  {
    if c != log[|log| - 1] {
      assert c in log[..|log| - 1];
      RecordedCallsHaveLatencies(log[..|log| - 1], c);
    }
  }

  /** A snapshot of every recorded name accounts for every call. */
  lemma SnapshotTotals(log: seq<Call>, maxSamples: nat, s: seq<MethodMetrics>)
    requires DistinctNames(s) && forall e | e in s :: e == MetricsOf(log, e.name, maxSamples)
    requires forall m | Latencies(log, m) != [] :: m in NamesOf(s)
    ensures TotalRequests(s) == |log|
  {
    TotalIsCallsTo(log, s);
    forall c | c in log ensures c.name in NamesOf(s) {
      RecordedCallsHaveLatencies(log, c);
    }
    CallsToAll(log, NamesOf(s));
  }

  // ---------------------------------------------------------------- the collector

  lemma NamedOnce(s: seq<MethodMetrics>, e: MethodMetrics)
    requires DistinctNames(s) && e.name !in NamesOf(s)
    ensures DistinctNames(s + [e]) && NamesOf(s + [e]) == NamesOf(s) + {e.name}
  {
    forall i | 0 <= i < |s| ensures s[i].name != e.name {
      assert s[i].name in NamesOf(s);
    }
    forall m ensures m in NamesOf(s + [e]) <==> m in NamesOf(s) + {e.name} {
      if m == e.name { assert e in s + [e]; }
      if m in NamesOf(s) {
        var x :| x in s && x.name == m;
        assert x in s + [e];
      }
    }
  }

  class Collector {
    const maxLatencySamples: nat
    var byMethod: map<string, MethodState>
    /** Every call recorded so far. */
    ghost var log: seq<Call>

    ghost function Arrays(): set<array<int>>
      reads this, byMethod.Values
    {
      set m | m in byMethod :: byMethod[m].samples
    }

    /** The windows are the last samples of their methods, the counters count them, and no two
        methods share a state or an array. */
    ghost predicate Valid()
      reads this, byMethod.Values, Arrays()
    {
      Consistent() && forall m :: m in byMethod <==> Latencies(log, m) != []
    }

    ghost predicate Distinct()
      reads this, byMethod.Values
    {
      forall m, n | m in byMethod && n in byMethod && m != n ::
        byMethod[m] != byMethod[n] && byMethod[m].samples != byMethod[n].samples
    }

    ghost predicate Consistent()
      reads this, byMethod.Values, Arrays()
    {
      && maxLatencySamples > 0
      && Distinct()
      && (forall m | m in byMethod :: byMethod[m].Valid() && byMethod[m].View() == WindowOf(log, m, maxLatencySamples))
    }

    constructor (maxLatencySamples: int)
      ensures Valid() && log == [] && byMethod == map[]
      ensures this.maxLatencySamples == if maxLatencySamples <= 0 then 512 else maxLatencySamples
    {
      this.maxLatencySamples := if maxLatencySamples <= 0 then DefaultMaxLatencySamples else maxLatencySamples;
      byMethod := map[];
      log := [];
    }

    /** The state of a method, made when it is first recorded. */
    method StateFor(name: string) returns (state: MethodState)
      requires Consistent() && (name !in byMethod ==> Latencies(log, name) == [])
      modifies this`byMethod
      ensures Consistent() && name in byMethod && byMethod[name] == state
      ensures byMethod.Keys == old(byMethod.Keys) + {name}
      ensures forall m | m in byMethod :: if m in old(byMethod) then byMethod[m] == old(byMethod[m])
                                          else m == name && fresh(byMethod[m]) && fresh(byMethod[m].samples)
    {
      hide WindowOf, Latencies;
      if name in byMethod {
        return byMethod[name];
      }
      NoCallsYet(log, name, maxLatencySamples);
      state := new MethodState();
      ghost var was := byMethod;
      byMethod := byMethod[name := state];
      forall m | m in byMethod && m != name
        ensures byMethod[m].Valid() && byMethod[m].View() == WindowOf(log, m, maxLatencySamples)
        ensures byMethod[m] != state && byMethod[m].samples != state.samples
      {
        assert m in was && byMethod[m] == was[m];
      }
      assert Distinct();
    }

    /** Counts one call of a method that has a state; the other methods' windows stay as they are. */
    method Count(name: string, isError: bool, latency: int)
      requires Consistent() && name in byMethod
      modifies byMethod[name], byMethod[name].samples
      ensures Distinct()
      ensures forall m | m in byMethod :: byMethod[m].Valid() && byMethod[m].View()
                == if m == name then old(byMethod[m].View()).Counting(isError, latency, maxLatencySamples)
                    else old(byMethod[m].View())
      ensures byMethod[name].samples == old(byMethod[name].samples) || fresh(byMethod[name].samples)
    {
      WindowLength(log, name, maxLatencySamples);
      var state := byMethod[name];
      state.Record(isError, latency, maxLatencySamples);
      forall m | m in byMethod && m != name
        ensures byMethod[m].Valid() && byMethod[m].View() == old(byMethod[m].View())
      {
        assert byMethod[m] != state && byMethod[m].samples != old(state.samples);
      }
    }

    /** Counts the call and notes it. */
    method Note(name: string, isError: bool, latency: int)
      requires Consistent() && name in byMethod
      modifies this`log, byMethod[name], byMethod[name].samples
      ensures Consistent() && log == old(log) + [Call(name, isError, latency)]
    {
      hide WindowOf, Latencies;
      Count(name, isError, latency);
      log := log + [Call(name, isError, latency)];
      forall m | m in byMethod ensures byMethod[m].View() == WindowOf(log, m, maxLatencySamples) {
        WindowSnoc(old(log), Call(name, isError, latency), m, maxLatencySamples);
      }
    }

    /** RecordRPC: the call is noted under its normalized name, as a failure unless its code is 0,
        with its latency in whole microseconds, truncated toward zero. */
    method RecordRPC(method_: string, code: nat, nanoseconds: int)
      requires Valid()
      modifies this, byMethod.Values, Arrays()
      ensures Valid()
      ensures |log| == |old(log)| + 1 && log[..|old(log)|] == old(log)
      ensures log[|log| - 1].name == NormalizeMethodName(method_)
      ensures log[|log| - 1].isError <==> code != 0
      ensures var m := log[|log| - 1].latency;
              if nanoseconds >= 0 then 1000 * m <= nanoseconds < 1000 * (m + 1)
              else 1000 * (m - 1) < nanoseconds <= 1000 * m
    {
      var isError := IsErrorCode(code);
      MicrosecondsAreWhole(nanoseconds);
      hide WindowOf, NormalizeMethodName, Microseconds, Latencies;
      var name := NormalizeMethodName(method_);
      var latency := Microseconds(nanoseconds);
      var _ := StateFor(name);
      Note(name, isError, latency);
      forall m ensures m in byMethod <==> Latencies(log, m) != [] {
        WindowSnoc(old(log), Call(name, isError, latency), m, maxLatencySamples);
      }
    }

    /** Snapshot: one entry per recorded method, sorted by name, computed on copies. It changes
        nothing (it has no `modifies` clause), and its counts add up to the calls recorded. */
    method Snapshot() returns (methods: seq<MethodMetrics>)
      requires Valid()
      ensures ByName(methods)
      ensures NamesOf(methods) == byMethod.Keys
      ensures forall e | e in methods :: e == MetricsOf(log, e.name, maxLatencySamples)
      ensures TotalRequests(methods) == |log|
    {
      hide WindowOf, P95, Latencies;
      var unsorted: seq<MethodMetrics> := [];
      var rest := byMethod.Keys;
      while rest != {}
        invariant rest <= byMethod.Keys && DistinctNames(unsorted)
        invariant NamesOf(unsorted) == byMethod.Keys - rest
        invariant forall e | e in unsorted :: e == MetricsOf(log, e.name, maxLatencySamples)
        decreases rest
      {
        var m :| m in rest;
        var state := byMethod[m];
        var p95 := CalculateP95(state.samples[..state.length]);
        var errorRate := if state.requestCount > 0 then state.errorCount as real / state.requestCount as real else 0.0;
        var e := MethodMetrics(m, state.requestCount, state.errorCount, errorRate, p95);
        assert state.View() == WindowOf(log, m, maxLatencySamples) && e == MetricsIn(m, state.View());
        NamedOnce(unsorted, e);
        unsorted, rest := unsorted + [e], rest - {m};
      }
      SortByNameSorts(unsorted);
      methods := SortByName(unsorted);
      ByNameIsDistinct(methods);
      assert NamesOf(methods) == NamesOf(unsorted);
      SnapshotTotals(log, maxLatencySamples, methods);
    }
  }
}
