/** The three state stores as objects: MemoryStore, SqliteStore and ResilientStore of amiweak/store.py.
    A method that can raise takes the fault as a parameter; a raising SQLite call leaves the file unchanged. */
module Stores {
  import opened Wrappers
  import opened Buckets
  import opened Ledger
  import opened Tables
  import opened Resilience

  const SWEEP_THRESHOLD := 1024

  ghost function StaleIn(rows: Rows, ns: string, cutoff: real): set<string> {
    set k | k in rows && InNamespace(k, ns) && rows[k].seen < cutoff
  }

  lemma SweptDropsStale(rows: Rows, ns: string, cutoff: real)
    ensures Swept(rows, ns, cutoff) == rows - StaleIn(rows, ns, cutoff) && StaleIn(rows, ns, cutoff) <= rows.Keys
  {
  }

  class MemoryStore {
    var counters: Counters
    var latency: map<string, Latency>
    var health: map<string, Health>
    var buckets: Rows
    /** Every bucket operation so far. */
    ghost var trail: seq<BucketOp>

    ghost predicate Valid()
      reads this
    {
      buckets == RowsAfter(trail)
    }

    ghost function View(): Snapshot
      reads this
    {
      Snapshot(counters, latency, health)
    }

    constructor ()
      ensures Valid() && View() == EMPTY && trail == []
    {
      counters, latency, health, buckets, trail := map[], map[], map[], map[], [];
    }

    method Incr(name: string, tag: string, amount: int)
      modifies this`counters
      ensures View() == Recorded(old(View()), Tables.Incr(name, tag, amount), Memory)
    {
      var bucket := if name in counters then counters[name] else map[];
      bucket := bucket[tag := (if tag in bucket then bucket[tag] else 0) + amount];
      counters := counters[name := bucket];
    }

    method Observe(name: string, seconds: real)
      modifies this`latency
      ensures View() == Recorded(old(View()), Tables.Observe(name, seconds), Memory)
    {
      var entry := if name in latency then latency[name] else Latency(0, 0.0, 0.0);
      entry := entry.(count := entry.count + 1);
      entry := entry.(sum := entry.sum + seconds);
      entry := entry.(max := Max(entry.max, seconds));
      latency := latency[name := entry];
    }

    method SetHealth(name: string, lastOk: Option<string>, lastError: Option<string>)
      modifies this`health
      ensures View() == Recorded(old(View()), Tables.SetHealth(name, lastOk, lastError), Memory)
    {
      health := health[name := Health(lastOk, lastError)];
    }

    method Spend(key: string, cost: real, capacity: real, rate: real, now: real) returns (allowed: bool)
      requires Valid()
      modifies this`buckets, this`trail
      ensures Valid() && trail == old(trail) + [SpendOn(key, cost, capacity, rate, now)]
      ensures allowed == Allows(RowsAfter(old(trail)), SpendOn(key, cost, capacity, rate, now))
    {
      hide Gain, RowsAfter;
      var row := if key in buckets then buckets[key] else Row(capacity, now);
      var tokens := Min(capacity, row.tokens + Gain(rate, now - row.seen));
      if tokens < cost {
        buckets := buckets[key := Row(tokens, now)];
        allowed := false;
      } else {
        buckets := buckets[key := Row(tokens - cost, now)];
        allowed := true;
      }
      RowsAppend(trail, SpendOn(key, cost, capacity, rate, now));
      trail := trail + [SpendOn(key, cost, capacity, rate, now)];
    }

    /** Sweeps only a table of at least 1024 buckets; the trail says which it was. */
    method EvictBuckets(ns: string, cutoff: real)
      requires Valid()
      modifies this`buckets, this`trail
      ensures Valid() && trail == old(trail) + [SweepOf(ns, cutoff, |old(buckets)| >= 1024)]
    {
      hide RowsAfter, Swept, InNamespace;
      ghost var op := SweepOf(ns, cutoff, |buckets| >= SWEEP_THRESHOLD);
      RowsAppend(trail, op);
      if |buckets| >= SWEEP_THRESHOLD {
        var stale := StaleKeys(ns, cutoff);
        DeleteStale(ns, cutoff, stale);
      }
      trail := trail + [op];
    }

    method StaleKeys(ns: string, cutoff: real) returns (stale: set<string>)
      ensures stale == StaleIn(buckets, ns, cutoff)
    {
      var keys := buckets.Keys;
      stale := {};
      while keys != {}
        invariant keys <= buckets.Keys
        invariant forall k :: k in stale <==> k in buckets.Keys - keys && k in StaleIn(buckets, ns, cutoff)
        decreases |keys|
      {
        var k :| k in keys;
        if InNamespace(k, ns) && buckets[k].seen < cutoff {
          stale := stale + {k};
        }
        keys := keys - {k};
      }
    }

    method DeleteStale(ns: string, cutoff: real, keys: set<string>)
      requires keys == StaleIn(buckets, ns, cutoff)
      modifies this`buckets
      ensures buckets == Swept(old(buckets), ns, cutoff)
    {
      SweptDropsStale(buckets, ns, cutoff);
      hide Swept, StaleIn;
      ghost var before := buckets;
      var stale := keys;
      while stale != {}
        invariant stale <= keys && buckets == before - (keys - stale)
        decreases |stale|
      {
        var key :| key in stale;
        buckets := buckets - {key};
        stale := stale - {key};
      }
    }

    method TakeSnapshot() returns (s: Snapshot)
      ensures s == View()
    {
      s := Snapshot(counters, latency, health);
    }
  }

  // ----- The SQLite tables -----

  /** The counters table: one row per (name, label). */
  type CounterRows = map<(string, string), int>

  function NamesIn(rows: CounterRows): set<string> { set k | k in rows :: k.0 }

  function LabelsIn(rows: CounterRows, name: string): Labels {
    map tag | tag in (set k | k in rows && k.0 == name :: k.1) :: rows[(name, tag)]
  }

  function Nested(rows: CounterRows): Counters {
    map name | name in NamesIn(rows) :: LabelsIn(rows, name)
  }

  lemma NestedUpsert(rows: CounterRows, name: string, tag: string, value: int)
    ensures Nested(rows[(name, tag) := value]) == Nested(rows)[name := LabelsOf(Nested(rows), name)[tag := value]]
  {
    var rows' := rows[(name, tag) := value];
    assert NamesIn(rows') == NamesIn(rows) + {name} by {
      assert (name, tag) in rows';
      forall n | n in NamesIn(rows)
        ensures n in NamesIn(rows')
      {
        var k :| k in rows && k.0 == n;
        assert k in rows';
      }
    }
    forall n | n in NamesIn(rows')
      ensures LabelsIn(rows', n) == if n == name then LabelsOf(Nested(rows), name)[tag := value] else LabelsIn(rows, n)
    {
      UpsertLabels(rows, name, tag, value, n);
      if name !in NamesIn(rows) {
        assert LabelsIn(rows, name) == map[] by {
          assert forall k :: k in rows && k.0 == name ==> k.0 in NamesIn(rows);
        }
      }
    }
  }

  lemma UpsertLabels(rows: CounterRows, name: string, tag: string, value: int, n: string)
    ensures LabelsIn(rows[(name, tag) := value], n) ==
            if n == name then LabelsIn(rows, name)[tag := value] else LabelsIn(rows, n)
  {
    var rows' := rows[(name, tag) := value];
    forall t | t in LabelsIn(rows, n)
      ensures t in LabelsIn(rows', n)
    {
      assert (n, t) in rows && (n, t) in rows';
    }
    if n == name {
      assert (name, tag) in rows';
      assert tag in LabelsIn(rows', name);
    }
  }

  lemma NestedValue(rows: CounterRows, name: string, tag: string)
    ensures Value(LabelsOf(Nested(rows), name), tag) == if (name, tag) in rows then rows[(name, tag)] else 0
  {
    if (name, tag) in rows {
      assert name in NamesIn(rows) && tag in LabelsIn(rows, name);
    }
  }

  lemma UpsertRecords(rows: CounterRows, latency: map<string, Latency>, health: map<string, Health>,
                      name: string, tag: string, amount: int)
    ensures var value := if (name, tag) in rows then rows[(name, tag)] + amount else amount;
            Snapshot(Nested(rows[(name, tag) := value]), latency, health) ==
            Recorded(Snapshot(Nested(rows), latency, health), Tables.Incr(name, tag, amount), Sqlite)
  {
    var value := if (name, tag) in rows then rows[(name, tag)] + amount else amount;
    NestedUpsert(rows, name, tag, value);
    NestedValue(rows, name, tag);
    hide Nested;
  }

  lemma ObserveRecords(was: Snapshot, now: Snapshot, name: string, seconds: real)
    requires now.counters == was.counters && now.health == was.health
    requires now.latency == was.latency[name := Timed(Lookup(was.latency, name), seconds, Sqlite)]
    ensures now == Recorded(was, Tables.Observe(name, seconds), Sqlite)
  {
  }

  /** One database file.  Every worker's wrapper may hold it, so the operations it has taken, whoever sent them and
      whenever, are kept with it. */
  class SqliteStore {
    var counters: CounterRows
    var latency: map<string, Latency>
    var health: map<string, Health>
    var buckets: Rows
    /** Every metric operation and every bucket operation committed so far. */
    ghost var log: seq<Op>
    ghost var trail: seq<BucketOp>

    ghost predicate Tallied()
      reads this
    {
      View() == Replay(log, Sqlite)
    }

    ghost predicate Bucketed()
      reads this
    {
      buckets == RowsAfter(trail)
    }

    ghost predicate Valid()
      reads this
    {
      Tallied() && Bucketed()
    }

    ghost function View(): Snapshot
      reads this
    {
      Snapshot(Nested(counters), latency, health)
    }

    constructor ()
      ensures Valid() && log == [] && trail == []
    {
      counters, latency, health, buckets, log, trail := map[], map[], map[], map[], [], [];
    }

    method Incr(name: string, tag: string, amount: int, raises: bool) returns (ok: bool)
      requires Tallied()
      modifies this`counters, this`log
      ensures Tallied() && ok == !raises
      ensures log == if ok then old(log) + [Tables.Incr(name, tag, amount)] else old(log)
      ensures View() == if ok then Recorded(old(View()), Tables.Incr(name, tag, amount), Sqlite) else old(View())
    {
      hide Replay, Nested, Recorded;
      if raises {
        return false;
      }
      var value := if (name, tag) in counters then counters[(name, tag)] + amount else amount;
      UpsertRecords(counters, latency, health, name, tag, amount);
      counters := counters[(name, tag) := value];
      ReplayOne(log, Tables.Incr(name, tag, amount), Sqlite);
      log := log + [Tables.Incr(name, tag, amount)];
      ok := true;
    }

    method Observe(name: string, seconds: real, raises: bool) returns (ok: bool)
      requires Tallied()
      modifies this`latency, this`log
      ensures Tallied() && ok == !raises
      ensures log == if ok then old(log) + [Tables.Observe(name, seconds)] else old(log)
      ensures View() == if ok then Recorded(old(View()), Tables.Observe(name, seconds), Sqlite) else old(View())
    {
      hide Replay, Nested, Recorded;
      if raises {
        return false;
      }
      ghost var was := View();
      if name in latency {
        var entry := latency[name];
        latency := latency[name := Latency(entry.count + 1, entry.sum + seconds, Max(entry.max, seconds))];
      } else {
        latency := latency[name := Latency(1, seconds, seconds)];
      }
      ObserveRecords(was, View(), name, seconds);
      ReplayOne(log, Tables.Observe(name, seconds), Sqlite);
      log := log + [Tables.Observe(name, seconds)];
      ok := true;
    }

    method SetHealth(name: string, lastOk: Option<string>, lastError: Option<string>, raises: bool) returns (ok: bool)
      requires Tallied()
      modifies this`health, this`log
      ensures Tallied() && ok == !raises
      ensures log == if ok then old(log) + [Tables.SetHealth(name, lastOk, lastError)] else old(log)
      ensures View() == if ok then Recorded(old(View()), Tables.SetHealth(name, lastOk, lastError), Sqlite)
                else old(View())
    {
      if raises {
        return false;
      }
      health := health[name := Health(lastOk, lastError)];
      ReplayOne(log, Tables.SetHealth(name, lastOk, lastError), Sqlite);
      log := log + [Tables.SetHealth(name, lastOk, lastError)];
      ok := true;
    }

    /** One transaction; module Workers models its steps. */
    method Spend(key: string, cost: real, capacity: real, rate: real, now: real, raises: bool)
      returns (answer: Option<bool>)
      requires Bucketed()
      modifies this`buckets, this`trail
      ensures Bucketed() && answer.None? == raises
      ensures raises ==> trail == old(trail)
      ensures !raises ==> trail == old(trail) + [SpendOn(key, cost, capacity, rate, now)]
                          && answer == Some(Allows(RowsAfter(old(trail)), SpendOn(key, cost, capacity, rate, now)))
    {
      hide Gain, RowsAfter;
      if raises {
        return None;
      }
      var row := if key in buckets then buckets[key] else Row(capacity, now);
      var tokens := Min(capacity, row.tokens + Gain(rate, now - row.seen));
      var allowed := tokens >= cost;
      if allowed {
        tokens := tokens - cost;
      }
      buckets := buckets[key := Row(tokens, now)];
      RowsAppend(trail, SpendOn(key, cost, capacity, rate, now));
      trail := trail + [SpendOn(key, cost, capacity, rate, now)];
      answer := Some(allowed);
    }

    method EvictBuckets(ns: string, cutoff: real, raises: bool) returns (ok: bool)
      requires Bucketed()
      modifies this`buckets, this`trail
      ensures Bucketed() && ok == !raises
      ensures trail == if ok then old(trail) + [SweepOf(ns, cutoff, true)] else old(trail)
    {
      if raises {
        return false;
      }
      buckets := map key | key in buckets && !(InNamespace(key, ns) && buckets[key].seen < cutoff) :: buckets[key];
      RowsAppend(trail, SweepOf(ns, cutoff, true));
      trail := trail + [SweepOf(ns, cutoff, true)];
      ok := true;
    }

    method TakeSnapshot(raises: bool) returns (s: Option<Snapshot>)
      ensures s == if raises then None else Some(View())
    {
      if raises {
        return None;
      }
      var nested: Counters := map[];
      var todo := counters.Keys;
      ghost var done: CounterRows := map[];
      while todo != {}
        invariant todo <= counters.Keys
        invariant done == counters - todo
        invariant nested == Nested(done)
        decreases |todo|
      {
        var k :| k in todo;
        NestedUpsert(done, k.0, k.1, counters[k]);
        nested := nested[k.0 := (if k.0 in nested then nested[k.0] else map[])[k.1 := counters[k]]];
        done := done[k := counters[k]];
        todo := todo - {k};
      }
      assert done == counters;
      s := Some(Snapshot(nested, latency, health));
    }
  }

  // ----- Falling back -----

  /** One worker's wrapper: the file it shares with the other workers, and a fallback of its own. */
  class ResilientStore {
    const primary: SqliteStore
    const fallback: MemoryStore
    /** Every call of this worker so far and whether its primary call raised. */
    ghost var calls: seq<Call>

    ghost predicate Local()
      reads this, fallback
    {
      fallback.Valid() && fallback.View() == Replay(FallbackOps(calls), Memory)
    }

    /** Nothing is asked of what the primary holds: other workers, and earlier runs, write to it too. */
    ghost predicate Valid()
      reads this, primary, fallback
    {
      primary.Valid() && Local()
    }

    constructor (primary: SqliteStore, fallback: MemoryStore)
      requires primary.Valid() && fallback.Valid() && fallback.View() == EMPTY
      ensures Valid() && calls == [] && this.primary == primary && this.fallback == fallback
    {
      this.primary, this.fallback, calls := primary, fallback, [];
    }

    lemma CallAppends(c: Call)
      ensures var f := Replay(FallbackOps(calls), Memory);
              Replay(FallbackOps(calls + [c]), Memory) ==
              if !c.raised then f
              else if c.Write? then Recorded(Recorded(f, NOTE, Memory), c.op, Memory)
              else Recorded(f, NOTE, Memory)
    {
      hide Recorded;
      assert (calls + [c])[..|calls|] == calls;
      var fs := FallbackOps(calls);
      assert fs + [] == fs;
      ReplayOne(fs, NOTE, Memory);
      if c.Write? {
        ReplayTwo(fs, NOTE, c.op, Memory);
      }
    }

    method Note()
      modifies fallback`counters
      ensures fallback.View() == Recorded(old(fallback.View()), NOTE, Memory)
    {
      fallback.Incr(STORE_ERRORS, "", 1);
    }

    method Incr(name: string, tag: string, amount: int, raises: bool)
      requires Valid()
      modifies this`calls, primary`counters, primary`log, fallback`counters
      ensures Valid() && calls == old(calls) + [Write(Tables.Incr(name, tag, amount), raises)]
      ensures primary.log == old(primary.log) + ToPrimary(Write(Tables.Incr(name, tag, amount), raises))
    {
      CallAppends(Write(Tables.Incr(name, tag, amount), raises));
      hide Recorded, Replay, FallbackOps, RowsAfter;
      var ok := primary.Incr(name, tag, amount, raises);
      if !ok {
        Note();
        fallback.Incr(name, tag, amount);
      }
      calls := calls + [Write(Tables.Incr(name, tag, amount), raises)];
    }

    method Observe(name: string, seconds: real, raises: bool)
      requires Valid()
      modifies this`calls, primary`latency, primary`log, fallback`latency, fallback`counters
      ensures Valid() && calls == old(calls) + [Write(Tables.Observe(name, seconds), raises)]
      ensures primary.log == old(primary.log) + ToPrimary(Write(Tables.Observe(name, seconds), raises))
    {
      CallAppends(Write(Tables.Observe(name, seconds), raises));
      hide Recorded, Replay, FallbackOps, RowsAfter;
      var ok := primary.Observe(name, seconds, raises);
      if !ok {
        Note();
        fallback.Observe(name, seconds);
      }
      calls := calls + [Write(Tables.Observe(name, seconds), raises)];
    }

    method SetHealth(name: string, lastOk: Option<string>, lastError: Option<string>, raises: bool)
      requires Valid()
      modifies this`calls, primary`health, primary`log, fallback`health, fallback`counters
      ensures Valid() && calls == old(calls) + [Write(Tables.SetHealth(name, lastOk, lastError), raises)]
      ensures primary.log == old(primary.log) + ToPrimary(Write(Tables.SetHealth(name, lastOk, lastError), raises))
    {
      CallAppends(Write(Tables.SetHealth(name, lastOk, lastError), raises));
      hide Recorded, Replay, FallbackOps, RowsAfter;
      var ok := primary.SetHealth(name, lastOk, lastError, raises);
      if !ok {
        Note();
        fallback.SetHealth(name, lastOk, lastError);
      }
      calls := calls + [Write(Tables.SetHealth(name, lastOk, lastError), raises)];
    }

    /** Exactly one of the two trails grows, and that store's answer is the answer. */
    method Spend(key: string, cost: real, capacity: real, rate: real, now: real, raises: bool) returns (allowed: bool)
      requires Valid()
      modifies this`calls, primary`buckets, primary`trail, fallback`buckets, fallback`trail, fallback`counters
      ensures Valid() && calls == old(calls) + [Limit(raises)]
      ensures var op := SpendOn(key, cost, capacity, rate, now);
              if raises then
                primary.trail == old(primary.trail) && fallback.trail == old(fallback.trail) + [op] &&
                allowed == Allows(RowsAfter(old(fallback.trail)), op)
              else
                primary.trail == old(primary.trail) + [op] && fallback.trail == old(fallback.trail) &&
                allowed == Allows(RowsAfter(old(primary.trail)), op)
    {
      CallAppends(Limit(raises));
      hide Recorded, Replay, FallbackOps, RowsAfter, Allows;
      var answer := primary.Spend(key, cost, capacity, rate, now, raises);
      if answer.Some? {
        allowed := answer.value;
      } else {
        Note();
        allowed := fallback.Spend(key, cost, capacity, rate, now);
      }
      calls := calls + [Limit(raises)];
    }

    method EvictBuckets(ns: string, cutoff: real, raises: bool)
      requires Valid()
      modifies this`calls, primary`buckets, primary`trail, fallback`buckets, fallback`trail, fallback`counters
      ensures Valid() && calls == old(calls) + [Limit(raises)]
      ensures if raises then
                primary.trail == old(primary.trail) &&
                fallback.trail ==
                    old(fallback.trail) + [SweepOf(ns, cutoff, |old(fallback.buckets)| >= 1024)]
              else
                primary.trail == old(primary.trail) + [SweepOf(ns, cutoff, true)]
                    && fallback.trail == old(fallback.trail)
    {
      CallAppends(Limit(raises));
      hide Recorded, Replay, FallbackOps, RowsAfter;
      var ok := primary.EvictBuckets(ns, cutoff, raises);
      if !ok {
        Note();
        fallback.EvictBuckets(ns, cutoff);
      }
      calls := calls + [Limit(raises)];
    }

    /** Merge both views; with the primary unreadable the fallback's alone is shown.  With it readable the sums are
        those of one store that received whatever the primary took, from any worker, and all this worker replayed. */
    method TakeSnapshot(raises: bool) returns (s: Snapshot)
      requires Valid()
      modifies this`calls, fallback`counters
      ensures Valid() && calls == old(calls) + [Read(raises)]
      ensures s == Merge(if raises then EMPTY else Replay(primary.log, Sqlite), Replay(FallbackOps(calls), Memory))
      ensures !raises && AllPlausible(primary.log) && AllPlausible(FallbackOps(calls)) ==>
                SameSums(s, Replay(primary.log + FallbackOps(calls), Memory))
    {
      CallAppends(Read(raises));
      hide Recorded, Replay, FallbackOps, RowsAfter, Merge;
      var view := primary.TakeSnapshot(raises);
      var shown := EMPTY;
      if view.Some? {
        shown := view.value;
      } else {
        Note();
      }
      var other := fallback.TakeSnapshot();
      calls := calls + [Read(raises)];
      var counters := AddCounters(shown.counters, other.counters);
      var latency := AddLatencies(shown.latency, other.latency);
      var health := FillHealth(shown.health, other.health);
      s := Snapshot(counters, latency, health);
      assert s == Merge(shown, other) by {
        MergeParts(shown, other);
      }
      if !raises && AllPlausible(primary.log) && AllPlausible(FallbackOps(calls)) {
        MergeIsOneStore(primary.log, FallbackOps(calls));
      }
    }
  }

  // ----- The loops of ResilientStore.snapshot -----

  method AddCounters(primary: Counters, fallback: Counters) returns (counters: Counters)
    ensures counters == MergeCounters(primary, fallback)
  {
    counters := primary;
    var names := fallback.Keys;
    MergeNothing(primary);
    hide MergeCounters, MergeLabels;
    assert fallback - names == map[];
    while names != {}
      invariant names <= fallback.Keys
      invariant counters == MergeCounters(primary, fallback - names)
      decreases |names|
    {
      var name :| name in names;
      var target := if name in counters then counters[name] else map[];
      var labels := AddLabels(target, fallback[name]);
      MergeOneMore(primary, fallback - names, name, fallback[name]);
      assert (fallback - names)[name := fallback[name]] == fallback - (names - {name});
      counters := counters[name := labels];
      names := names - {name};
    }
    assert fallback - {} == fallback;
  }

  method AddLabels(target: Labels, labels: Labels) returns (r: Labels)
    ensures r == MergeLabels(target, labels)
  {
    r := target;
    var tags := labels.Keys;
    assert labels - tags == map[] && MergeLabels(target, map[]) == target;
    hide MergeLabels;
    while tags != {}
      invariant tags <= labels.Keys
      invariant r == MergeLabels(target, labels - tags)
      decreases |tags|
    {
      var tag :| tag in tags;
      OneMoreLabel(target, labels, tags, tag);
      r := r[tag := (if tag in r then r[tag] else 0) + labels[tag]];
      tags := tags - {tag};
    }
    assert labels - {} == labels;
  }

  lemma OneMoreLabel(target: Labels, labels: Labels, tags: set<string>, tag: string)
    requires tag in tags && tag in labels
    ensures var before := MergeLabels(target, labels - tags);
            MergeLabels(target, labels - (tags - {tag})) == before[tag := Value(before, tag) + labels[tag]]
  {
    var before, after := MergeLabels(target, labels - tags), MergeLabels(target, labels - (tags - {tag}));
    assert after.Keys == before.Keys + {tag};
  }

  lemma MergeNothing(a: Counters)
    ensures MergeCounters(a, map[]) == a
  {
    forall name | name in a
      ensures MergeLabels(a[name], map[]) == a[name]
    {
    }
  }

  lemma MergeOneMore(a: Counters, b: Counters, name: string, labels: Labels)
    requires name !in b
    ensures MergeCounters(a, b[name := labels]) ==
            MergeCounters(a, b)[name := MergeLabels(LabelsOf(MergeCounters(a, b), name), labels)]
  {
    var merged := MergeCounters(a, b);
    var left, right := MergeCounters(a, b[name := labels]), merged[name := MergeLabels(LabelsOf(merged, name), labels)];
    assert left.Keys == right.Keys;
    hide MergeCounters, MergeLabels, LabelsOf;
    forall n | n in left
      ensures left[n] == right[n]
    {
      OneMoreAt(a, b, name, labels, n);
    }
  }

  lemma OneMoreAt(a: Counters, b: Counters, name: string, labels: Labels, n: string)
    requires name !in b && n in MergeCounters(a, b[name := labels])
    ensures var merged := MergeCounters(a, b);
            MergeCounters(a, b[name := labels])[n] ==
            if n == name then MergeLabels(LabelsOf(merged, name), labels) else LabelsOf(merged, n)
    ensures n != name ==> n in MergeCounters(a, b)
    ensures n != name ==> LabelsOf(MergeCounters(a, b), n) == MergeCounters(a, b)[n]
  {
    assert MergeLabels(LabelsOf(a, name), map[]) == LabelsOf(a, name);
    MergedLabels(a, b, n);
    MergedLabels(a, b[name := labels], n);
    hide MergeLabels;
  }

  lemma MergeParts(a: Snapshot, b: Snapshot)
    ensures Merge(a, b) ==
            Snapshot(MergeCounters(a.counters, b.counters), MergeLatency(a.latency, b.latency), b.health + a.health)
  {
  }

  lemma OneMoreLatency(primary: map<string, Latency>, fallback: map<string, Latency>, names: set<string>, name: string)
    requires name in names && name in fallback
    ensures var before := MergeLatency(primary, fallback - names);
            MergeLatency(primary, fallback - (names - {name})) ==
            before[name := AddLatency(Lookup(before, name), fallback[name])]
  {
    var before, after := MergeLatency(primary, fallback - names), MergeLatency(primary, fallback - (names - {name}));
    assert after.Keys == before.Keys + {name};
    hide AddLatency;
    assert Lookup(before, name) == Lookup(primary, name);
    assert forall n :: n in after && n != name ==> after[n] == before[n];
  }

  method AddLatencies(primary: map<string, Latency>, fallback: map<string, Latency>)
    returns (latency: map<string, Latency>)
    ensures latency == MergeLatency(primary, fallback)
  {
    latency := primary;
    var names := fallback.Keys;
    assert fallback - names == map[] && MergeLatency(primary, map[]) == primary;
    hide MergeLatency;
    while names != {}
      invariant names <= fallback.Keys
      invariant latency == MergeLatency(primary, fallback - names)
      decreases |names|
    {
      var name :| name in names;
      var existing := if name in latency then latency[name] else Latency(0, 0.0, 0.0);
      var entry := fallback[name];
      existing := Latency(existing.count + entry.count, existing.sum + entry.sum, Max(existing.max, entry.max));
      OneMoreLatency(primary, fallback, names, name);
      latency := latency[name := existing];
      names := names - {name};
    }
    assert fallback - {} == fallback;
  }

  method FillHealth(primary: map<string, Health>, fallback: map<string, Health>) returns (health: map<string, Health>)
    ensures health == fallback + primary
  {
    health := primary;
    var names := fallback.Keys;
    while names != {}
      invariant names <= fallback.Keys
      invariant health == (fallback - names) + primary
      decreases |names|
    {
      var name :| name in names;
      if name !in health {
        health := health[name := fallback[name]];
      }
      names := names - {name};
    }
    assert fallback - {} == fallback;
  }
}
