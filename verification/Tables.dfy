/** What a state store holds, as values: the effect of every store operation, and the merge a
    ResilientStore performs over two snapshots.  Source: amiweak/store.py. */
module Tables {
  import opened Wrappers

  type Labels = map<string, int>
  type Counters = map<string, Labels>

  datatype Latency = Latency(count: int, sum: real, max: real)

  datatype Health = Health(lastOk: Option<string>, lastError: Option<string>)

  datatype Snapshot = Snapshot(counters: Counters, latency: map<string, Latency>, health: map<string, Health>)

  const EMPTY := Snapshot(map[], map[], map[])

  datatype Op =
    | Incr(name: string, tag: string, amount: int)
    | Observe(name: string, seconds: real)
    | SetHealth(name: string, lastOk: Option<string>, lastError: Option<string>)

  /** MemoryStore seeds a new latency entry with zeros, SqliteStore with the first observation. */
  datatype Backing = Memory | Sqlite

  function LabelsOf(c: Counters, name: string): Labels {
    if name in c then c[name] else map[]
  }

  function Value(labels: Labels, tag: string): int {
    if tag in labels then labels[tag] else 0
  }

  /** One labelled counter, zero when absent. */
  function Count(s: Snapshot, name: string, tag: string): int {
    Value(LabelsOf(s.counters, name), tag)
  }

  function Bumped(c: Counters, name: string, tag: string, amount: int): Counters {
    c[name := AddTo(LabelsOf(c, name), tag, amount)]
  }

  function AddTo(labels: Labels, tag: string, amount: int): Labels {
    labels[tag := Value(labels, tag) + amount]
  }

  function Timed(entry: Option<Latency>, seconds: real, backing: Backing): Latency {
    if entry.Some? then
      Latency(entry.value.count + 1, entry.value.sum + seconds, Max(entry.value.max, seconds))
    else
      Latency(1, seconds, if backing.Memory? then Max(0.0, seconds) else seconds)
  }

  function Recorded(s: Snapshot, op: Op, backing: Backing): Snapshot {
    match op
    case Incr(name, tag, amount) => s.(counters := Bumped(s.counters, name, tag, amount))
    case Observe(name, seconds) => s.(latency := s.latency[name := Timed(Lookup(s.latency, name), seconds, backing)])
    case SetHealth(name, lastOk, lastError) => s.(health := s.health[name := Health(lastOk, lastError)])
  }

  function Replay(ops: seq<Op>, backing: Backing): Snapshot {
    if ops == [] then EMPTY
    else Recorded(Replay(ops[..|ops| - 1], backing), ops[|ops| - 1], backing)
  }

  // ----- Merging -----

  function MergeLabels(a: Labels, b: Labels): Labels {
    map tag | tag in a.Keys + b.Keys :: Value(a, tag) + Value(b, tag)
  }

  function MergeCounters(a: Counters, b: Counters): Counters {
    map name | name in a.Keys + b.Keys :: MergeLabels(LabelsOf(a, name), LabelsOf(b, name))
  }

  function AddLatency(a: Option<Latency>, b: Latency): Latency {
    var start := a.GetOr(Latency(0, 0.0, 0.0));
    Latency(start.count + b.count, start.sum + b.sum, Max(start.max, b.max))
  }

  function MergeLatency(a: map<string, Latency>, b: map<string, Latency>): map<string, Latency> {
    map name | name in a.Keys + b.Keys :: if name in b then AddLatency(Lookup(a, name), b[name]) else a[name]
  }

  function Merge(primary: Snapshot, fallback: Snapshot): Snapshot {
    Snapshot(MergeCounters(primary.counters, fallback.counters),
             MergeLatency(primary.latency, fallback.latency),
             fallback.health + primary.health)
  }

  // ----- Merging commutes with recording, on either side -----

  ghost predicate NonNegative(s: Snapshot) {
    forall name :: name in s.latency ==> s.latency[name].max >= 0.0
  }

  predicate Plausible(op: Op) { op.Observe? ==> op.seconds >= 0.0 }

  ghost predicate SameSums(a: Snapshot, b: Snapshot) {
    a.counters == b.counters && a.latency == b.latency
  }

  lemma AddLeft(a: Labels, b: Labels, tag: string, amount: int)
    ensures MergeLabels(AddTo(a, tag, amount), b) == AddTo(MergeLabels(a, b), tag, amount)
  {
  }

  lemma MergeCommutes(a: Counters, b: Counters)
    ensures MergeCounters(a, b) == MergeCounters(b, a)
  {
    forall name | name in a.Keys + b.Keys
      ensures MergeLabels(LabelsOf(a, name), LabelsOf(b, name)) == MergeLabels(LabelsOf(b, name), LabelsOf(a, name))
    {
    }
    hide MergeLabels;
    assert MergeCounters(a, b).Keys == MergeCounters(b, a).Keys;
  }

  lemma MergedLabels(a: Counters, b: Counters, name: string)
    ensures LabelsOf(MergeCounters(a, b), name) == MergeLabels(LabelsOf(a, name), LabelsOf(b, name))
  {
    assert MergeLabels(map[], map[]) == map[];
    hide MergeLabels;
  }

  lemma BumpLeft(a: Counters, b: Counters, name: string, tag: string, amount: int)
    ensures MergeCounters(Bumped(a, name, tag, amount), b) == Bumped(MergeCounters(a, b), name, tag, amount)
  {
    var a', merged := Bumped(a, name, tag, amount), MergeCounters(a, b);
    var left, right := MergeCounters(a', b), Bumped(merged, name, tag, amount);
    assert left.Keys == right.Keys;
    AddLeft(LabelsOf(a, name), LabelsOf(b, name), tag, amount);
    forall n | n in left
      ensures left[n] == right[n]
    {
      hide MergeCounters, MergeLabels, AddTo;
      MergedLabels(a, b, n);
      MergedLabels(a', b, n);
      if n == name {
      } else {
        BumpElsewhere(a, name, tag, amount, n);
        BumpElsewhere(merged, name, tag, amount, n);
      }
    }
  }

  lemma BumpElsewhere(c: Counters, name: string, tag: string, amount: int, other: string)
    requires other != name
    ensures LabelsOf(Bumped(c, name, tag, amount), other) == LabelsOf(c, other)
  {
  }

  lemma BumpRight(a: Counters, b: Counters, name: string, tag: string, amount: int)
    ensures MergeCounters(a, Bumped(b, name, tag, amount)) == Bumped(MergeCounters(a, b), name, tag, amount)
  {
    MergeCommutes(a, b);
    MergeCommutes(a, Bumped(b, name, tag, amount));
    BumpLeft(b, a, name, tag, amount);
  }

  lemma TimedLeft(a: map<string, Latency>, b: map<string, Latency>, name: string, seconds: real)
    requires seconds >= 0.0 && (name in b ==> b[name].max >= 0.0)
    ensures MergeLatency(a[name := Timed(Lookup(a, name), seconds, Sqlite)], b) ==
            MergeLatency(a, b)[name := Timed(Lookup(MergeLatency(a, b), name), seconds, Memory)]
  {
    var left := MergeLatency(a[name := Timed(Lookup(a, name), seconds, Sqlite)], b);
    var right := MergeLatency(a, b)[name := Timed(Lookup(MergeLatency(a, b), name), seconds, Memory)];
    assert left.Keys == right.Keys;
    assert left[name] == right[name];
    hide Timed, AddLatency;
    assert forall n :: n in left && n != name ==> left[n] == right[n];
  }

  lemma TimedRight(a: map<string, Latency>, b: map<string, Latency>, name: string, seconds: real)
    requires seconds >= 0.0 && (name in a ==> a[name].max >= 0.0) && (name in b ==> b[name].max >= 0.0)
    ensures MergeLatency(a, b[name := Timed(Lookup(b, name), seconds, Memory)]) ==
            MergeLatency(a, b)[name := Timed(Lookup(MergeLatency(a, b), name), seconds, Memory)]
  {
    var left := MergeLatency(a, b[name := Timed(Lookup(b, name), seconds, Memory)]);
    var right := MergeLatency(a, b)[name := Timed(Lookup(MergeLatency(a, b), name), seconds, Memory)];
    assert left.Keys == right.Keys;
    assert left[name] == right[name];
    hide Timed, AddLatency;
    assert forall n :: n in left && n != name ==> left[n] == right[n];
  }

  lemma RecordKeepsNonNegative(s: Snapshot, op: Op, backing: Backing)
    requires NonNegative(s) && Plausible(op)
    ensures NonNegative(Recorded(s, op, backing))
  {
  }

  lemma RecordLeft(p: Snapshot, f: Snapshot, op: Op)
    requires NonNegative(p) && NonNegative(f) && Plausible(op)
    ensures SameSums(Merge(Recorded(p, op, Sqlite), f), Recorded(Merge(p, f), op, Memory))
  {
    hide MergeCounters, MergeLatency, Bumped, Timed;
    match op
    case Incr(name, tag, amount) => BumpLeft(p.counters, f.counters, name, tag, amount);
    case Observe(name, seconds) => TimedLeft(p.latency, f.latency, name, seconds);
    case SetHealth(_, _, _) =>
  }

  lemma RecordRight(p: Snapshot, f: Snapshot, op: Op)
    requires NonNegative(p) && NonNegative(f) && Plausible(op)
    ensures SameSums(Merge(p, Recorded(f, op, Memory)), Recorded(Merge(p, f), op, Memory))
  {
    hide MergeCounters, MergeLatency, Bumped, Timed;
    match op
    case Incr(name, tag, amount) => BumpRight(p.counters, f.counters, name, tag, amount);
    case Observe(name, seconds) => TimedRight(p.latency, f.latency, name, seconds);
    case SetHealth(_, _, _) =>
  }

  // ----- Totals, as independent references -----

  function AmountOf(op: Op, name: string, tag: string): int {
    if op.Incr? && op.name == name && op.tag == tag then op.amount else 0
  }

  function Total(ops: seq<Op>, name: string, tag: string): int {
    if ops == [] then 0 else Total(ops[..|ops| - 1], name, tag) + AmountOf(ops[|ops| - 1], name, tag)
  }

  function SecondsOf(ops: seq<Op>, name: string): seq<real> {
    if ops == [] then []
    else
      var op := ops[|ops| - 1];
      SecondsOf(ops[..|ops| - 1], name) + if op.Observe? && op.name == name then [op.seconds] else []
  }

  function SumOf(xs: seq<real>): real {
    if xs == [] then 0.0 else SumOf(xs[..|xs| - 1]) + xs[|xs| - 1]
  }

  lemma {:induction false} CountIsTotal(ops: seq<Op>, name: string, tag: string, backing: Backing)
    ensures Count(Replay(ops, backing), name, tag) == Total(ops, name, tag)
  {
    if ops != [] {
      CountIsTotal(ops[..|ops| - 1], name, tag, backing);
    }
  }

  ghost predicate IsMaximum(m: real, xs: seq<real>) {
    m in xs && forall x :: x in xs ==> x <= m
  }

  lemma {:induction false} PlausibleSeconds(ops: seq<Op>, name: string)
    requires forall op :: op in ops ==> Plausible(op)
    ensures forall x :: x in SecondsOf(ops, name) ==> x >= 0.0
  {
    if ops != [] {
      assert ops[|ops| - 1] in ops;
      PlausibleSeconds(ops[..|ops| - 1], name);
    }
  }

  /** A memory entry starts from a maximum of zero, a SQLite row from its first observation. */
  function Floored(xs: seq<real>, backing: Backing): seq<real> {
    match backing
    case Memory => [0.0] + xs
    case Sqlite => xs
  }

  lemma {:induction false} LatencySummarises(ops: seq<Op>, name: string, backing: Backing)
    ensures var xs, entry := SecondsOf(ops, name), Lookup(Replay(ops, backing).latency, name);
            && (entry.None? <==> xs == [])
            && (entry.Some? ==>
                  && entry.value.count == |xs| && entry.value.sum == SumOf(xs)
                  && IsMaximum(entry.value.max, Floored(xs, backing))
                  && ((forall x :: x in xs ==> x >= 0.0) ==> IsMaximum(entry.value.max, xs)))
  {
    if ops != [] {
      var before, op := ops[..|ops| - 1], ops[|ops| - 1];
      LatencySummarises(before, name, backing);
      if op.Observe? && op.name == name {
        var xs, entry := SecondsOf(before, name), Lookup(Replay(before, backing).latency, name);
        assert SecondsOf(ops, name) == xs + [op.seconds];
        assert Lookup(Replay(ops, backing).latency, name) == Some(Timed(entry, op.seconds, backing));
        hide SecondsOf, Replay, Timed;
        AppendSummary(xs, op.seconds, entry, backing);
      } else {
        assert SecondsOf(ops, name) == SecondsOf(before, name);
      }
    }
  }

  lemma AppendSummary(xs: seq<real>, x: real, entry: Option<Latency>, backing: Backing)
    requires entry.None? <==> xs == []
    requires entry.Some? ==>
               && entry.value.count == |xs| && entry.value.sum == SumOf(xs)
               && IsMaximum(entry.value.max, Floored(xs, backing))
    ensures var next := Timed(entry, x, backing);
            && next.count == |xs + [x]| && next.sum == SumOf(xs + [x])
            && IsMaximum(next.max, Floored(xs + [x], backing))
            && ((forall y :: y in xs + [x] ==> y >= 0.0) ==> IsMaximum(next.max, xs + [x]))
  {
    assert (xs + [x])[..|xs|] == xs;
    assert xs == [] ==> SumOf(xs) == 0.0;
    assert Floored(xs + [x], backing) == Floored(xs, backing) + [x];
    var next := Timed(entry, x, backing);
    if entry.Some? {
      MaximumAppend(entry.value.max, Floored(xs, backing), x);
    }
    hide SumOf;
    assert IsMaximum(next.max, Floored(xs + [x], backing));
    hide Timed;
    if backing.Memory? && forall y :: y in xs + [x] ==> y >= 0.0 {
      MaximumAbove(next.max, xs + [x]);
    }
  }

  lemma MaximumAppend(m: real, xs: seq<real>, x: real)
    requires IsMaximum(m, xs)
    ensures IsMaximum(Max(m, x), xs + [x])
  {
    assert forall y :: y in xs + [x] <==> y in xs || y == x;
  }

  lemma MaximumAbove(m: real, xs: seq<real>)
    requires IsMaximum(m, [0.0] + xs) && xs != [] && forall y :: y in xs ==> y >= 0.0
    ensures IsMaximum(m, xs)
  {
    assert forall y :: y in xs ==> y in [0.0] + xs;
    assert xs[0] in xs && 0.0 <= xs[0] <= m;
  }
}
