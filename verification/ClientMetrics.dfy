/** The TypeScript metrics store: windows under "scope:name" keys, and normalized path names. */
module ClientMetrics {
  import opened Metrics

  const MaxLatencySamples := 512

  // ---------------------------------------------------------------- split and join

  /** `s.split(c)`. */
  function Split(s: string, c: char): (parts: seq<string>)
    ensures parts != []
  {
    if s == "" then [""]
    else if s[0] == c then [""] + Split(s[1..], c)
    else var rest := Split(s[1..], c); [[s[0]] + rest[0]] + rest[1..]
  }

  /** `parts.join(c)`. */
  function Join(parts: seq<string>, c: char): string {
    if parts == [] then ""
    else if |parts| == 1 then parts[0]
    else parts[0] + [c] + Join(parts[1..], c)
  }

  lemma {:induction false} JoinSplit(s: string, c: char)
    ensures Join(Split(s, c), c) == s
  {
    if s != "" {
      JoinSplit(s[1..], c);
      var rest := Split(s[1..], c);
      if s[0] == c {
        assert ([""] + rest)[1..] == rest;
      } else {
        assert ([[s[0]] + rest[0]] + rest[1..])[1..] == rest[1..];
      }
      assert s == [s[0]] + s[1..];
    }
  }

  lemma {:induction false} SplitFirst(a: string, b: string, c: char)
    requires c !in a
    ensures Split(a + [c] + b, c) == [a] + Split(b, c)
  {
    var s := a + [c] + b;
    if a == "" {
      assert s[1..] == b;
    } else {
      assert s[1..] == a[1..] + [c] + b;
      SplitFirst(a[1..], b, c);
      assert a == [a[0]] + a[1..];
    }
  }

  lemma {:induction false} SplitWhole(a: string, c: char)
    requires c !in a
    ensures Split(a, c) == [a]
  {
    if a != "" {
      SplitWhole(a[1..], c);
      assert a == [a[0]] + a[1..];
    }
  }

  lemma {:induction false} SplitJoin(parts: seq<string>, c: char)
    requires parts != [] && forall p | p in parts :: c !in p
    ensures Split(Join(parts, c), c) == parts
  {
    if |parts| == 1 {
      SplitWhole(parts[0], c);
    } else {
      SplitJoin(parts[1..], c);
      SplitFirst(parts[0], Join(parts[1..], c), c);
    }
  }

  lemma {:induction false} SplitParts(s: string, c: char)
    ensures forall p | p in Split(s, c) :: c !in p
  {
    if s != "" {
      SplitParts(s[1..], c);
      var rest := Split(s[1..], c);
      assert rest[0] in rest;
      forall p | p in Split(s, c) ensures c !in p {
        if s[0] != c && p in rest[1..] { assert p in rest; }
      }
    }
  }

  // ---------------------------------------------------------------- metric keys

  datatype Scope = Grpc | Http

  function ScopeText(scope: Scope): string {
    if scope.Grpc? then "grpc" else "http"
  }

  function MetricKey(scope: Scope, name: string): string {
    ScopeText(scope) + ":" + name
  }

  /** What getMetricSnapshots makes of a key: the first part, and the others joined again. */
  function DecodeKey(key: string): (string, string) {
    var parts := Split(key, ':');
    (parts[0], Join(parts[1..], ':'))
  }

  /** A key decodes to the scope and the name it was made of, colons in the name included. */
  lemma DecodeUndoesKey(scope: Scope, name: string)
    ensures DecodeKey(MetricKey(scope, name)) == (if scope.Grpc? then "grpc" else "http", name)
  {
    assert MetricKey(scope, name) == ScopeText(scope) + [':'] + name;
    SplitFirst(ScopeText(scope), name, ':');
    JoinSplit(name, ':');
    assert ([ScopeText(scope)] + Split(name, ':'))[1..] == Split(name, ':');
  }

  /** So different metrics never share a window. */
  lemma KeysAreInjective(s1: Scope, n1: string, s2: Scope, n2: string)
    requires MetricKey(s1, n1) == MetricKey(s2, n2)
    ensures s1 == s2 && n1 == n2
  {
    DecodeUndoesKey(s1, n1);
    DecodeUndoesKey(s2, n2);
  }

  datatype Snapshot =
    Snapshot(scope: string, name: string, requestCount: nat, errorCount: nat, errorRate: real, p95: int)
  {
    function Key(): string {
      scope + ":" + name
    }
  }

  lemma KeysGrow(before: seq<Snapshot>, s: Snapshot)
    ensures (set x | x in before + [s] :: x.Key()) == (set x | x in before :: x.Key()) + {s.Key()}
  {
    assert s in before + [s];
    forall x | x in before ensures x in before + [s] {}
  }

  lemma NoCallsIf(log: seq<Call>, key: string)
    ensures Latencies(log, key) == [] ==> WindowOf(log, key, MaxLatencySamples) == Window(0, 0, [])
  {
    if Latencies(log, key) == [] { NoCallsYet(log, key, MaxLatencySamples); }
  }

  lemma KeyIsDecoded(key: string)
    requires exists scope, name :: key == MetricKey(scope, name)
    ensures DecodeKey(key).0 + ":" + DecodeKey(key).1 == key
            && (DecodeKey(key).0 == "grpc" || DecodeKey(key).0 == "http")
  {
    var scope, name :| key == MetricKey(scope, name);
    DecodeUndoesKey(scope, name);
  }

  /** Each key that was recorded holds its window. */
  ghost predicate Holds(store: map<string, Window>, log: seq<Call>) {
    && (forall key :: key in store <==> Latencies(log, key) != [])
    && (forall key | key in store :: store[key] == WindowOf(log, key, MaxLatencySamples))
  }

  lemma RecordKeeps(store: map<string, Window>, log: seq<Call>, c: Call, current: Window)
    requires Holds(store, log) && current == (if c.name in store then store[c.name] else Window(0, 0, []))
    ensures Holds(store[c.name := current.Counting(c.isError, c.latency, MaxLatencySamples)], log + [c])
  {
    NoCallsIf(log, c.name);
    hide WindowOf, Latencies, AppendSample;
    var store' := store[c.name := current.Counting(c.isError, c.latency, MaxLatencySamples)];
    forall key
      ensures key in store' <==> Latencies(log + [c], key) != []
      ensures key in store' ==> store'[key] == WindowOf(log + [c], key, MaxLatencySamples)
    {
      WindowSnoc(log, c, key, MaxLatencySamples);
    }
  }

  class MetricStore {
    var store: map<string, Window>
    /** Every call recorded so far, under its key. */
    ghost var log: seq<Call>

    ghost predicate Valid()
      reads this
    {
      Holds(store, log) && (forall key | key in store :: exists scope, name :: key == MetricKey(scope, name))
    }

    constructor ()
      ensures Valid() && log == []
    {
      store, log := map[], [];
    }

    /** recordMetric. */
    method RecordMetric(isError: bool, latency: int, name: string, scope: Scope)
      requires Valid()
      modifies this
      ensures Valid()
      ensures log == old(log) + [Call(MetricKey(scope, name), isError, latency)]
    {
      hide Holds, MetricKey, AppendSample;
      var key := MetricKey(scope, name);
      var current := if key in store then store[key] else Window(0, 0, []);
      RecordKeeps(store, log, Call(key, isError, latency), current);
      current := current.(requestCount := current.requestCount + 1);
      if isError {
        current := current.(errorCount := current.errorCount + 1);
      }
      current := current.(samples := AppendSample(current.samples, latency, MaxLatencySamples));
      store := store[key := current];
      log := log + [Call(key, isError, latency)];
    }

    /** getMetricSnapshots, before its sort by locale: one entry per key, decoded. */
    method GetMetricSnapshots() returns (snapshots: seq<Snapshot>)
      requires Valid()
      ensures |snapshots| == |store|
      ensures forall s | s in snapshots ::
                var w := WindowOf(log, s.Key(), 512);
                && s.Key() in store
                && (s.scope == "grpc" || s.scope == "http")
                && s.requestCount == w.requestCount && s.errorCount == w.errorCount && s.p95 == P95(w.samples)
                && s.errorRate == ErrorRate(w)
      ensures (set s | s in snapshots :: s.Key()) == store.Keys
    {
      hide WindowOf, P95, MetricKey, DecodeKey, Latencies, ErrorRate;
      snapshots := [];
      var rest := store.Keys;
      while rest != {}
        invariant rest <= store.Keys && |snapshots| + |rest| == |store|
        invariant forall s | s in snapshots :: IsSnapshot(s, s.Key())
        invariant (set s | s in snapshots :: s.Key()) == store.Keys - rest
        decreases rest
      {
        var key :| key in rest;
        var w := store[key];
        var (scope, name) := DecodeKey(key);
        KeyIsDecoded(key);
        var s := Snapshot(scope, name, w.requestCount, w.errorCount, ErrorRate(w), P95(w.samples));
        KeysGrow(snapshots, s);
        snapshots, rest := snapshots + [s], rest - {key};
      }
    }

    ghost predicate IsSnapshot(s: Snapshot, key: string)
      reads this
    {
      && key in store && (s.scope == "grpc" || s.scope == "http")
      && s.requestCount == store[key].requestCount && s.errorCount == store[key].errorCount
      && s.p95 == P95(store[key].samples)
      && s.errorRate == ErrorRate(store[key])
    }
  }

  // ---------------------------------------------------------------- path names

  predicate IsDigit(c: char) {
    '0' <= c <= '9'
  }

  predicate IsHex(c: char) {
    IsDigit(c) || 'a' <= c <= 'f' || 'A' <= c <= 'F'
  }

  predicate IsNumeric(s: string) {
    s != "" && forall c | c in s :: IsDigit(c)
  }

  /** 8-4-4-4-12 hexadecimal digits in either case, of version 1..5 and variant 8, 9, a or b. */
  predicate IsUuidSegment(s: string) {
    && |s| == 36
    && (forall i | 0 <= i < 36 :: if i in {8, 13, 18, 23} then s[i] == '-' else IsHex(s[i]))
    && '1' <= s[14] <= '5'
    && s[19] in {'8', '9', 'a', 'b', 'A', 'B'}
  }

  predicate IsDynamic(s: string) {
    IsUuidSegment(s) || IsNumeric(s)
  }

  /** A pattern for uuids: `h` stands for a hexadecimal digit, `v` for a version and `r` for a
      variant. */
  const UuidPattern := "hhhhhhhh-hhhh-vhhh-rhhh-hhhhhhhhhhhh"

  function CharsOf(class_: char): string {
    match class_
    case 'h' => "0123456789abcdefABCDEF"
    case 'v' => "12345"
    case 'r' => "89abAB"
    case _ => [class_]
  }

  lemma PatternAt(i: nat)
    requires i < 36
    ensures |UuidPattern| == 36
    ensures UuidPattern[i]
         == if i in {8, 13, 18, 23} then '-' else if i == 14 then 'v' else if i == 19 then 'r' else 'h'
  {
  }

  lemma HexChars(c: char)
    ensures c in "0123456789abcdefABCDEF" <==> IsHex(c)
    ensures c in "0123456789" <==> IsDigit(c)
    ensures c in "12345" <==> '1' <= c <= '5'
    ensures c in "89abAB" <==> c in {'8', '9', 'a', 'b', 'A', 'B'}
    ensures c in "12345" || c in "89abAB" ==> IsHex(c)
  {
  }

  /** A segment is dynamic exactly if it fits the pattern for uuids or consists of digits. */
  lemma DynamicIff(s: string)
    ensures IsDynamic(s) <==>
              || (|s| == 36 && forall i | 0 <= i < 36 :: s[i] in CharsOf(UuidPattern[i]))
              || (s != "" && forall i | 0 <= i < |s| :: s[i] in "0123456789")
  {
    if |s| == 36 {
      forall i | 0 <= i < 36
        ensures s[i] in CharsOf(UuidPattern[i]) <==>
                  if i in {8, 13, 18, 23} then s[i] == '-'
                  else IsHex(s[i]) && (i == 14 ==> '1' <= s[i] <= '5')
                       && (i == 19 ==> s[i] in {'8', '9', 'a', 'b', 'A', 'B'})
      {
        PatternAt(i);
        HexChars(s[i]);
      }
    }
    forall i | 0 <= i < |s| ensures s[i] in "0123456789" <==> IsDigit(s[i]) {
      HexChars(s[i]);
    }
    hide CharsOf, IsHex, IsDigit;
    assert IsNumeric(s) <==> s != "" && forall i | 0 <= i < |s| :: IsDigit(s[i]);
  }

  function Segment(s: string): string {
    if IsDynamic(s) then ":id" else s
  }

  /** The non-empty parts, dynamic ones replaced. */
  function Segments(parts: seq<string>): (segments: seq<string>)
    ensures forall s | s in segments :: s != ""
  {
    if parts == [] then []
    else if parts[0] == "" then Segments(parts[1..])
    else [Segment(parts[0])] + Segments(parts[1..])
  }

  function NormalizePathname(pathname: string): string {
    "/" + Join(Segments(Split(pathname, '/')), '/')
  }

  lemma PlaceholderIsStatic()
    ensures !IsDynamic(":id")
  {
    assert ':' in ":id";
  }

  lemma {:induction false} SegmentsAreStatic(parts: seq<string>)
    requires forall p | p in parts :: '/' !in p
    ensures forall s | s in Segments(parts) :: !IsDynamic(s) && '/' !in s
  {
    PlaceholderIsStatic();
    if parts != [] { SegmentsAreStatic(parts[1..]); }
  }

  lemma {:induction false} StaticSegmentsStay(parts: seq<string>)
    requires forall p | p in parts :: p != "" && !IsDynamic(p)
    ensures Segments(parts) == parts
  {
    if parts != [] {
      assert forall p | p in parts[1..] :: p in parts;
      StaticSegmentsStay(parts[1..]);
      assert parts[0] in parts && parts == [parts[0]] + parts[1..];
    }
  }

  lemma SplitOfNormalized(segments: seq<string>)
    requires forall s | s in segments :: s != "" && !IsDynamic(s) && '/' !in s
    ensures Segments(Split("/" + Join(segments, '/'), '/')) == segments
  {
    var path := Join(segments, '/');
    assert ("/" + path)[1..] == path;
    assert Split("/" + path, '/') == [""] + Split(path, '/');
    assert ([""] + Split(path, '/'))[1..] == Split(path, '/');
    assert Segments(Split("/" + path, '/')) == Segments(Split(path, '/'));
    if segments == [] {
      assert Split(path, '/') == [""] && [""][1..] == [];
    } else {
      SplitJoin(segments, '/');
      StaticSegmentsStay(segments);
    }
  }

  lemma SplitPath(parts: seq<string>)
    requires parts != [] && forall p | p in parts :: '/' !in p
    ensures Split("/" + Join(parts, '/'), '/') == [""] + parts
  {
    SplitJoin(parts, '/');
    var path := Join(parts, '/');
    assert ("/" + path)[1..] == path;
  }

  /** The parts between the slashes, without the empty ones that double, leading and trailing
      slashes make. */
  function NonEmptyParts(parts: seq<string>): (r: seq<string>)
    ensures forall p | p in r :: p != "" && p in parts
  {
    if parts == [] then []
    else (if parts[0] == "" then [] else [parts[0]]) + NonEmptyParts(parts[1..])
  }

  lemma {:induction false} SegmentsCount(parts: seq<string>)
    ensures |Segments(parts)| == |NonEmptyParts(parts)|
  {
    hide IsDynamic;
    if parts != [] { SegmentsCount(parts[1..]); }
  }

  lemma {:induction false} SegmentOf(parts: seq<string>, i: nat)
    requires i < |NonEmptyParts(parts)|
    ensures |Segments(parts)| == |NonEmptyParts(parts)|
    ensures Segments(parts)[i] == if IsDynamic(NonEmptyParts(parts)[i]) then ":id" else NonEmptyParts(parts)[i]
  {
    hide IsDynamic;
    if parts[0] == "" {
      SegmentOf(parts[1..], i);
    } else if i > 0 {
      SegmentOf(parts[1..], i - 1);
    } else {
      SegmentsCount(parts[1..]);
    }
  }

  /** Any path becomes its non-empty parts in order, the dynamic ones replaced, each after one
      slash; a path without any becomes "/". */
  lemma NormalizeIsSegmentwise(pathname: string, i: nat)
    ensures var parts, normalized := NonEmptyParts(Split(pathname, '/')), NormalizePathname(pathname);
            && (parts == [] ==> normalized == "/")
            && (i < |parts| ==>
                  && |Split(normalized, '/')| == |parts| + 1 && Split(normalized, '/')[0] == ""
                  && Split(normalized, '/')[i + 1] == if IsDynamic(parts[i]) then ":id" else parts[i])
  {
    var parts := Split(pathname, '/');
    SplitParts(pathname, '/');
    SegmentsAreStatic(parts);
    SegmentsCount(parts);
    hide IsDynamic, Segments, NonEmptyParts;
    if i < |NonEmptyParts(parts)| {
      SegmentOf(parts, i);
      SplitPath(Segments(parts));
    }
  }

  /** A normalized path has no dynamic segment left, and normalizing it again changes nothing. */
  lemma NormalizeIsIdempotent(pathname: string)
    ensures forall s | s in Segments(Split(NormalizePathname(pathname), '/')) :: !IsDynamic(s)
    ensures NormalizePathname(NormalizePathname(pathname)) == NormalizePathname(pathname)
  {
    SplitParts(pathname, '/');
    SegmentsAreStatic(Split(pathname, '/'));
    SplitOfNormalized(Segments(Split(pathname, '/')));
  }
}
