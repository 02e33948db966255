/** What whole runs of a prefix cache guarantee: agreement, the LRU guarantee, and inclusion between sizes. */
module CacheLaws {
  import opened Wrappers
  import opened CheckBase
  import opened Cache

  /** One call, with the clock reading it took.  `contains` changes nothing and is not an operation here. */
  datatype CacheOp =
    | Get(key: CacheKey, now: real)
    | Put(key: CacheKey, data: RangeData, now: real)

  function After(es: Entries, op: CacheOp, max: nat, ttl: real): Entries {
    match op
    case Get(key, now) => AfterGet(es, key, now)
    case Put(key, data, now) => AfterPut(es, Entry(key, data, now + ttl), max)
  }

  function Run(es: Entries, ops: seq<CacheOp>, max: nat, ttl: real): Entries
    decreases |ops|
  {
    if ops == [] then es else Run(After(es, ops[0], max, ttl), ops[1..], max, ttl)
  }

  predicate WellFormed(es: Entries, max: nat) { Distinct(es) && |es| <= max }

  lemma StepKeepsForm(es: Entries, op: CacheOp, max: nat, ttl: real)
    requires WellFormed(es, max)
    ensures WellFormed(After(es, op, max, ttl), max)
    ensures Keys(After(es, op, max, ttl)) <= Keys(es) + {op.key}
  {
    hide Distinct;
    match op
    case Get(key, now) => GetForm(es, key, now);
    case Put(key, data, now) => PutForm(es, Entry(key, data, now + ttl), max);
  }

  lemma GetForm(es: Entries, key: CacheKey, now: real)
    requires Distinct(es)
    ensures Distinct(AfterGet(es, key, now)) && |AfterGet(es, key, now)| <= |es|
    ensures Keys(AfterGet(es, key, now)) <= Keys(es)
    ensures forall e :: e in AfterGet(es, key, now) ==> e in es
  {
    WithoutShrinks(es, key);
    FindLocates(es, key);
    if Find(es, key).Some? {
      AppendForm(Without(es, key), Find(es, key).value);
    }
    hide Distinct, Without, Find;
  }

  /** A lookup forgets its entry exactly when it has expired, keeps every other, and makes a live one the newest. */
  lemma GetIsExact(es: Entries, key: CacheKey, now: real)
    requires Distinct(es)
    ensures forall e :: e in AfterGet(es, key, now) <==> e in es && (e.key != key || e.expires > now)
    ensures Live(es, key, now) ==>
              AfterGet(es, key, now) != [] && AfterGet(es, key, now)[|AfterGet(es, key, now)| - 1].key == key
  {
    WithoutShrinks(es, key);
    FindLocates(es, key);
    if Find(es, key).Some? {
      AppendForm(Without(es, key), Find(es, key).value);
      assert forall e :: e in es && e.key == key ==> e == Find(es, key).value;
    }
    hide Without, Find;
  }

  lemma PutForm(es: Entries, e: Entry, max: nat)
    requires Distinct(es)
    ensures Distinct(AfterPut(es, e, max)) && |AfterPut(es, e, max)| <= max
    ensures Keys(AfterPut(es, e, max)) <= Keys(es) + {e.key}
    ensures forall x :: x in AfterPut(es, e, max) ==> x == e || (x in es && x.key != e.key)
  {
    WithoutShrinks(es, e.key);
    AppendForm(Without(es, e.key), e);
    NewestForm(Without(es, e.key) + [e], max);
    hide Distinct, Without, Newest;
  }

  lemma NewestForm(es: Entries, max: nat)
    requires Distinct(es)
    ensures Distinct(Newest(es, max)) && |Newest(es, max)| <= max && Keys(Newest(es, max)) <= Keys(es)
    ensures forall e :: e in Newest(es, max) ==> e in es
  {
  }

  lemma AppendForm(es: Entries, e: Entry)
    requires Distinct(es) && e.key !in Keys(es)
    ensures Distinct(es + [e]) && Keys(es + [e]) == Keys(es) + {e.key}
    ensures forall x :: x in es + [e] <==> x in es || x == e
  {
    forall j | 0 <= j < |es|
      ensures es[j].key != e.key
    {
      assert es[j] in es;
    }
    assert forall x :: x in es + [e] <==> x in es || x == e;
  }

  // ----- Agreement: what is returned was the last thing put, less than a ttl ago -----

  function LastPut(ops: seq<CacheOp>, key: CacheKey): (put: Option<CacheOp>)
    ensures put.Some? ==> put.value.Put? && put.value.key == key
  {
    if ops == [] then None
    else
      var op := ops[|ops| - 1];
      if op.Put? && op.key == key then Some(op) else LastPut(ops[..|ops| - 1], key)
  }

  ghost predicate Agrees(es: Entries, ops: seq<CacheOp>, ttl: real) {
    forall e :: e in es ==>
      && LastPut(ops, e.key).Some?
      && LastPut(ops, e.key).value.data == e.data
      && LastPut(ops, e.key).value.now + ttl == e.expires
  }

  lemma AgreesStep(es: Entries, ops: seq<CacheOp>, op: CacheOp, max: nat, ttl: real)
    requires WellFormed(es, max) && Agrees(es, ops, ttl)
    ensures Agrees(After(es, op, max, ttl), ops + [op], ttl)
  {
    hide Distinct, AfterGet, AfterPut;
    assert (ops + [op])[..|ops|] == ops;
    match op
    case Get(key, now) => GetForm(es, key, now);
    case Put(key, data, now) => PutForm(es, Entry(key, data, now + ttl), max);
  }

  lemma RunAppend(es: Entries, ops: seq<CacheOp>, op: CacheOp, max: nat, ttl: real)
    ensures Run(es, ops + [op], max, ttl) == After(Run(es, ops, max, ttl), op, max, ttl)
    decreases |ops|
  {
    if ops != [] {
      assert (ops + [op])[1..] == ops[1..] + [op];
      RunAppend(After(es, ops[0], max, ttl), ops[1..], op, max, ttl);
    } else {
      assert (ops + [op])[1..] == [];
      assert Run(After(es, op, max, ttl), [], max, ttl) == After(es, op, max, ttl);
    }
  }

  lemma {:induction false} RunAgrees(ops: seq<CacheOp>, max: nat, ttl: real)
    ensures WellFormed(Run([], ops, max, ttl), max) && Agrees(Run([], ops, max, ttl), ops, ttl)
  {
    if ops != [] {
      var before, op := ops[..|ops| - 1], ops[|ops| - 1];
      RunAgrees(before, max, ttl);
      assert before + [op] == ops;
      RunAppend([], before, op, max, ttl);
      StepKeepsForm(Run([], before, max, ttl), op, max, ttl);
      AgreesStep(Run([], before, max, ttl), before, op, max, ttl);
    }
  }

  /** Never more than `max` entries, and a hit is the data last put for that key, less than `ttl` before. */
  lemma HitsAreFreshPuts(ops: seq<CacheOp>, max: nat, ttl: real, key: CacheKey, now: real)
    ensures var es, put := Run([], ops, max, ttl), LastPut(ops, key);
            && |es| <= max
            && (Got(es, key, now).Some? ==>
                  put.Some? && Got(es, key, now).value == put.value.data && now < put.value.now + ttl)
  {
    RunAgrees(ops, max, ttl);
    FindLocates(Run([], ops, max, ttl), key);
  }

  // ----- The LRU guarantee -----

  /** The keys a run puts or hits. */
  function Used(es: Entries, ops: seq<CacheOp>, max: nat, ttl: real): set<CacheKey>
    decreases |ops|
  {
    if ops == [] then {}
    else
      var op := ops[0];
      (if op.Put? || Live(es, op.key, op.now) then {op.key} else {}) + Used(After(es, op, max, ttl), ops[1..], max, ttl)
  }

  predicate Avoids(ops: seq<CacheOp>, key: CacheKey) { forall op :: op in ops ==> op.key != key }

  /** The entries used after the one for `key`. */
  function Behind(es: Entries, key: CacheKey): Entries {
    if es == [] then [] else if es[0].key == key then es[1..] else Behind(es[1..], key)
  }

  lemma {:induction false} BehindAppend(es: Entries, e: Entry, key: CacheKey)
    requires key in Keys(es)
    ensures Behind(es + [e], key) == Behind(es, key) + [e]
  {
    if es[0].key == key {
      assert (es + [e])[1..] == es[1..] + [e];
    } else {
      assert (es + [e])[1..] == es[1..] + [e] && key in Keys(es[1..]);
      BehindAppend(es[1..], e, key);
    }
  }

  lemma {:induction false} BehindWithout(es: Entries, other: CacheKey, key: CacheKey)
    requires other != key && key in Keys(es)
    ensures Behind(Without(es, other), key) == Without(Behind(es, key), other)
  {
    if es[0].key == key {
      assert Without(es, other)[1..] == Without(es[1..], other);
    } else {
      assert key in Keys(es[1..]);
      BehindWithout(es[1..], other, key);
      if es[0].key == other {
        assert Without(es, other) == Without(es[1..], other);
      } else {
        assert Without(es, other)[1..] == Without(es[1..], other);
      }
    }
  }

  lemma {:induction false} BehindShape(es: Entries, key: CacheKey)
    requires Distinct(es) && key in Keys(es)
    ensures |Behind(es, key)| < |es| && Behind(es, key) == es[|es| - |Behind(es, key)|..]
    ensures es[|es| - |Behind(es, key)| - 1].key == key
    ensures Distinct(Behind(es, key)) && key !in Keys(Behind(es, key))
  {
    if es[0].key != key {
      assert key in Keys(es[1..]);
      BehindShape(es[1..], key);
    } else {
      assert Behind(es, key) == es[1..];
    }
  }

  lemma {:induction false} DistinctCount(es: Entries)
    requires Distinct(es)
    ensures |Keys(es)| == |es|
  {
    if es != [] {
      DistinctCount(es[1..]);
      assert Keys(es) == {es[0].key} + Keys(es[1..]) by {
        assert forall e :: e in es <==> e == es[0] || e in es[1..];
      }
      assert es[0].key !in Keys(es[1..]);
    }
  }

  /** What one operation on another key makes used. */
  function Uses(es: Entries, op: CacheOp): set<CacheKey> {
    if op.Put? || Live(es, op.key, op.now) then {op.key} else {}
  }

  predicate Expires(es: Entries, op: CacheOp) {
    op.Get? && Find(es, op.key).Some? && Find(es, op.key).value.expires <= op.now
  }

  /** Before trimming: the tracked entry stays, and what is behind it gains exactly what the operation uses. */
  lemma Shuffled(es: Entries, op: CacheOp, e: Entry, added: Entry)
    requires Distinct(es) && e in es && op.key != e.key && added.key == op.key
    ensures var left := Without(es, op.key);
            && e in left && e in left + [added] && Distinct(left + [added])
            && Keys(Behind(left, e.key)) == Keys(Behind(es, e.key)) - {op.key}
            && Keys(Behind(left + [added], e.key)) == Keys(Behind(es, e.key)) + {op.key}
  {
    var left, behind := Without(es, op.key), Behind(es, e.key);
    WithoutShrinks(es, op.key);
    BehindShape(es, e.key);
    WithoutShrinks(behind, op.key);
    BehindWithout(es, op.key, e.key);
    BehindAppend(left, added, e.key);
    AppendForm(left, added);
    AppendForm(Without(behind, op.key), added);
  }

  /** Trimming one entry drops the tracked one exactly when `max` others are behind it. */
  lemma Trimmed(es: Entries, e: Entry, max: nat)
    requires Distinct(es) && e in es && |es| <= max + 1 && max > 0
    ensures |Keys(Behind(es, e.key))| < max ==>
              e in Newest(es, max) && Behind(Newest(es, max), e.key) == Behind(es, e.key)
    ensures |Keys(Behind(es, e.key))| >= max ==> e.key !in Keys(Newest(es, max))
  {
    BehindShape(es, e.key);
    DistinctCount(Behind(es, e.key));
    if |es| > max {
      assert Newest(es, max) == es[1..];
      assert forall x :: x in es <==> x == es[0] || x in es[1..];
      if es[0].key == e.key {
        assert Behind(es, e.key) == es[1..];
      }
    }
  }

  /** What `UsedStep` claims of a step from `es` to `es'`. */
  ghost predicate Tracks(es: Entries, op: CacheOp, e: Entry, max: nat, es': Entries) {
    var u := Keys(Behind(es, e.key)) + Uses(es, op);
    && (|u| < max ==> e in es' && Keys(Behind(es', e.key)) <= u)
    && (|u| < max && !Expires(es, op) ==> Keys(Behind(es', e.key)) == u)
    && (|u| >= max && !Expires(es, op) ==> e.key !in Keys(es'))
  }

  lemma UsedStep(es: Entries, op: CacheOp, e: Entry, max: nat, ttl: real)
    requires WellFormed(es, max) && max > 0 && e in es && op.key != e.key
    ensures Tracks(es, op, e, max, After(es, op, max, ttl))
  {
    hide Tracks, AfterGet, AfterPut, Distinct;
    match op
    case Get(key, now) => UsedByGet(es, op, e, max);
    case Put(key, data, now) => UsedByPut(es, op, e, Entry(key, data, now + ttl), max);
  }

  lemma UsedByPut(es: Entries, op: CacheOp, e: Entry, added: Entry, max: nat)
    requires WellFormed(es, max) && max > 0 && e in es && op.key != e.key && op.Put? && added.key == op.key
    ensures Tracks(es, op, e, max, AfterPut(es, added, max))
  {
    var put := Without(es, op.key) + [added];
    Shuffled(es, op, e, added);
    WithoutShrinks(es, op.key);
    Trimmed(put, e, max);
    hide Distinct, Behind, Newest, Without;
    assert Keys(Behind(put, e.key)) == Keys(Behind(es, e.key)) + Uses(es, op);
  }

  lemma UsedByGet(es: Entries, op: CacheOp, e: Entry, max: nat)
    requires WellFormed(es, max) && max > 0 && e in es && op.key != e.key && op.Get?
    ensures Tracks(es, op, e, max, AfterGet(es, op.key, op.now))
  {
    FindLocates(es, op.key);
    if Find(es, op.key).Some? {
      hide Tracks;
      UsedByHit(es, op, e, Find(es, op.key).value, max);
    } else {
      BehindShape(es, e.key);
      DistinctCount(Behind(es, e.key));
      assert Keys(Behind(es, e.key)) + {} == Keys(Behind(es, e.key));
      hide Distinct, Behind;
    }
  }

  lemma UsedByHit(es: Entries, op: CacheOp, e: Entry, found: Entry, max: nat)
    requires WellFormed(es, max) && max > 0 && e in es && op.key != e.key && op.Get?
    requires Find(es, op.key) == Some(found) && found.key == op.key
    ensures Tracks(es, op, e, max, AfterGet(es, op.key, op.now))
  {
    Shuffled(es, op, e, found);
    if found.expires > op.now {
      MovedToEnd(es, op, e, found, max);
    } else {
      BehindShape(es, e.key);
      DistinctCount(Behind(es, e.key));
      assert Keys(Behind(es, e.key)) + {} == Keys(Behind(es, e.key));
    }
    hide Distinct, Behind, Without, WellFormed;
  }

  /** A hit adds nothing to the cache, so what is behind any entry stays below the size. */
  lemma MovedToEnd(es: Entries, op: CacheOp, e: Entry, found: Entry, max: nat)
    requires WellFormed(es, max) && e in es && op.key != e.key && found.key == op.key && Find(es, op.key) == Some(found)
    ensures |Keys(Behind(es, e.key)) + {op.key}| < max
  {
    Shuffled(es, op, e, found);
    WithoutShrinks(es, op.key);
    var moved := Without(es, op.key) + [found];
    BehindShape(moved, e.key);
    DistinctCount(Behind(moved, e.key));
  }

  lemma {:induction false} TrackedSurvives(es: Entries, ops: seq<CacheOp>, e: Entry, max: nat, ttl: real)
    requires WellFormed(es, max) && max > 0 && e in es && Avoids(ops, e.key)
    requires |Keys(Behind(es, e.key)) + Used(es, ops, max, ttl)| < max
    ensures e in Run(es, ops, max, ttl)
    decreases |ops|
  {
    if ops != [] {
      var op, es' := ops[0], After(es, ops[0], max, ttl);
      assert op in ops;
      var all := Keys(Behind(es, e.key)) + Used(es, ops, max, ttl);
      assert Used(es, ops, max, ttl) == Uses(es, op) + Used(es', ops[1..], max, ttl);
      Fewer(Keys(Behind(es, e.key)) + Uses(es, op), all);
      UsedStep(es, op, e, max, ttl);
      StepKeepsForm(es, op, max, ttl);
      Fewer(Keys(Behind(es', e.key)) + Used(es', ops[1..], max, ttl), all);
      assert forall x :: x in ops[1..] ==> x in ops;
      TrackedSurvives(es', ops[1..], e, max, ttl);
    }
  }

  lemma Fewer<T>(a: set<T>, b: set<T>)
    requires a <= b
    ensures |a| <= |b|
  {
    assert b == a + (b - a);
  }

  /** The LRU guarantee: the entry used last is still there as long as fewer than `max` distinct other keys
      have been put or hit since. */
  lemma LruGuarantee(es: Entries, ops: seq<CacheOp>, e: Entry, max: nat, ttl: real)
    requires WellFormed(es, max) && max > 0 && es != [] && e == es[|es| - 1] && Avoids(ops, e.key)
    requires |Used(es, ops, max, ttl)| < max
    ensures e in Run(es, ops, max, ttl)
  {
    NothingBehindLast(es);
    TrackedSurvives(es, ops, e, max, ttl);
  }

  /** A range that was put is served until it is a ttl old, and not after, as long as fewer than `max` distinct other
      keys have been put or hit since. */
  lemma PutIsServed(es: Entries, key: CacheKey, data: RangeData, now: real, ops: seq<CacheOp>, max: nat, ttl: real,
                    later: real)
    requires WellFormed(es, max) && max > 0 && Avoids(ops, key)
    requires |Used(After(es, Put(key, data, now), max, ttl), ops, max, ttl)| < max
    ensures Got(Run(After(es, Put(key, data, now), max, ttl), ops, max, ttl), key, later) ==
            if later < now + ttl then Some(data) else None
  {
    var e, put := Entry(key, data, now + ttl), After(es, Put(key, data, now), max, ttl);
    StepKeepsForm(es, Put(key, data, now), max, ttl);
    assert put[|put| - 1] == e;
    LruGuarantee(put, ops, e, max, ttl);
    RunForm(put, ops, max, ttl);
    FindLocates(Run(put, ops, max, ttl), key);
  }

  lemma {:induction false} RunForm(es: Entries, ops: seq<CacheOp>, max: nat, ttl: real)
    requires WellFormed(es, max)
    ensures WellFormed(Run(es, ops, max, ttl), max)
    decreases |ops|
  {
    if ops != [] {
      StepKeepsForm(es, ops[0], max, ttl);
      RunForm(After(es, ops[0], max, ttl), ops[1..], max, ttl);
    }
  }

  lemma NothingBehindLast(es: Entries)
    requires Distinct(es) && es != []
    ensures Behind(es, es[|es| - 1].key) == [] && Keys(Behind(es, es[|es| - 1].key)) == {}
  {
    var last := es[|es| - 1];
    BehindShape(es, last.key);
  }

  /** No `get` of the run finds an entry past its expiry. */
  predicate NothingExpires(es: Entries, ops: seq<CacheOp>, max: nat, ttl: real)
    decreases |ops|
  {
    ops == [] || (!Expires(es, ops[0]) && NothingExpires(After(es, ops[0], max, ttl), ops[1..], max, ttl))
  }

  lemma {:induction false} GoneStaysGone(es: Entries, ops: seq<CacheOp>, key: CacheKey, max: nat, ttl: real)
    requires WellFormed(es, max) && key !in Keys(es) && Avoids(ops, key)
    ensures key !in Keys(Run(es, ops, max, ttl))
    decreases |ops|
  {
    if ops != [] {
      assert ops[0] in ops && forall x :: x in ops[1..] ==> x in ops;
      StepKeepsForm(es, ops[0], max, ttl);
      GoneStaysGone(After(es, ops[0], max, ttl), ops[1..], key, max, ttl);
    }
  }

  lemma {:induction false} TrackedGoes(es: Entries, ops: seq<CacheOp>, e: Entry, max: nat, ttl: real)
    requires WellFormed(es, max) && max > 0 && e in es && Avoids(ops, e.key) && NothingExpires(es, ops, max, ttl)
    requires |Keys(Behind(es, e.key)) + Used(es, ops, max, ttl)| >= max
    ensures e.key !in Keys(Run(es, ops, max, ttl))
    decreases |ops|
  {
    var behind := Keys(Behind(es, e.key));
    assert |behind| < max by {
      BehindShape(es, e.key);
      DistinctCount(Behind(es, e.key));
    }
    assert behind + {} == behind;
    hide Distinct, Behind, Expires, Uses;
    if ops != [] {
      var op, es' := ops[0], After(es, ops[0], max, ttl);
      assert op in ops && forall x :: x in ops[1..] ==> x in ops;
      UsedStep(es, op, e, max, ttl);
      StepKeepsForm(es, op, max, ttl);
      var u := behind + Uses(es, op);
      if |u| < max {
        assert u + Used(es', ops[1..], max, ttl) == behind + Used(es, ops, max, ttl) by {
          UsedUnfolds(es, ops, max, ttl);
        }
        TrackedGoes(es', ops[1..], e, max, ttl);
      } else {
        GoneStaysGone(es', ops[1..], e.key, max, ttl);
      }
    }
  }

  lemma UsedUnfolds(es: Entries, ops: seq<CacheOp>, max: nat, ttl: real)
    requires ops != []
    ensures Used(es, ops, max, ttl) == Uses(es, ops[0]) + Used(After(es, ops[0], max, ttl), ops[1..], max, ttl)
  {
  }

  /** With nothing expiring the guarantee is exact: it is there if and only if fewer than `max` others were used. */
  lemma LruExactly(es: Entries, ops: seq<CacheOp>, e: Entry, max: nat, ttl: real)
    requires WellFormed(es, max) && max > 0 && es != [] && e == es[|es| - 1] && Avoids(ops, e.key)
    requires NothingExpires(es, ops, max, ttl)
    ensures e in Run(es, ops, max, ttl) <==> |Used(es, ops, max, ttl)| < max
  {
    NothingBehindLast(es);
    if |Used(es, ops, max, ttl)| < max {
      LruGuarantee(es, ops, e, max, ttl);
    } else {
      assert {} + Used(es, ops, max, ttl) == Used(es, ops, max, ttl);
      TrackedGoes(es, ops, e, max, ttl);
    }
  }

  // ----- Inclusion: a larger cache holds everything a smaller one does, in the same order -----

  /** `a` is what remains of `b` when some keys are left out. */
  predicate Inside(a: Entries, b: Entries) { a == Only(b, Keys(a)) }

  lemma OnlyHead(es: Entries, keep: set<CacheKey>)
    requires es != []
    ensures Only(es, keep) == if es[0].key in keep then [es[0]] + Only(es[1..], keep) else Only(es[1..], keep)
  {
  }

  lemma WithoutHead(e: Entry, rest: Entries, key: CacheKey)
    ensures Without([e] + rest, key) == if e.key == key then Without(rest, key) else [e] + Without(rest, key)
  {
    assert ([e] + rest)[1..] == rest;
  }

  lemma {:induction false} OnlyWithout(es: Entries, keep: set<CacheKey>, key: CacheKey)
    ensures Without(Only(es, keep), key) == Only(Without(es, key), keep) == Only(es, keep - {key})
  {
    if es != [] {
      var e, rest := es[0], es[1..];
      OnlyWithout(rest, keep, key);
      OnlyHead(es, keep);
      OnlyHead(es, keep - {key});
      assert es == [e] + rest;
      WithoutHead(e, rest, key);
      WithoutHead(e, Only(rest, keep), key);
      OnlyHead([e] + Without(rest, key), keep);
      assert ([e] + Without(rest, key))[1..] == Without(rest, key);
    }
  }

  lemma {:induction false} OnlyAppend(es: Entries, keep: set<CacheKey>, e: Entry)
    ensures Only(es + [e], keep) == Only(es, keep) + if e.key in keep then [e] else []
  {
    if es != [] {
      assert (es + [e])[1..] == es[1..] + [e];
      OnlyAppend(es[1..], keep, e);
    }
  }

  lemma {:induction false} OnlyIgnores(es: Entries, keep: set<CacheKey>, key: CacheKey)
    requires key !in Keys(es)
    ensures Only(es, keep + {key}) == Only(es, keep) == Only(es, keep - {key})
  {
    if es != [] {
      assert es[0] in es && forall e :: e in es[1..] ==> e in es;
      OnlyIgnores(es[1..], keep, key);
    }
  }

  lemma {:induction false} OnlyMembers(es: Entries, keep: set<CacheKey>)
    ensures forall e :: e in Only(es, keep) <==> e in es && e.key in keep
  {
    if es != [] {
      OnlyMembers(es[1..], keep);
      assert forall e :: e in es <==> e == es[0] || e in es[1..];
    }
  }

  lemma InsideWithout(a: Entries, b: Entries, key: CacheKey)
    requires Distinct(a) && Distinct(b) && Inside(a, b)
    ensures Inside(Without(a, key), Without(b, key))
  {
    WithoutShrinks(a, key);
    OnlyWithout(b, Keys(a), key);
    OnlyWithout(Without(b, key), Keys(a), key);
    WithoutTwice(b, key);
  }

  lemma {:induction false} WithoutTwice(es: Entries, key: CacheKey)
    ensures Without(Without(es, key), key) == Without(es, key)
  {
    if es != [] {
      WithoutTwice(es[1..], key);
      if es[0].key == key {
        assert Without(es, key) == Without(es[1..], key);
      } else {
        assert Without(es, key)[1..] == Without(es[1..], key);
      }
    }
  }

  lemma InsideAppend(a: Entries, b: Entries, e: Entry)
    requires Inside(a, b) && e.key !in Keys(a) && e.key !in Keys(b)
    ensures Inside(a + [e], b + [e])
  {
    assert Keys(a + [e]) == Keys(a) + {e.key} by {
      assert forall x :: x in a + [e] <==> x in a || x == e;
    }
    OnlyAppend(b, Keys(a) + {e.key}, e);
    OnlyIgnores(b, Keys(a), e.key);
  }

  /** Dropping the oldest of both, or of the smaller alone, keeps inclusion. */
  lemma InsideTrim(a: Entries, b: Entries)
    requires Distinct(a) && Distinct(b) && Inside(a, b) && a != []
    ensures Inside(a[1..], b) && Inside(a[1..], b[1..])
  {
    OnlyMembers(b, Keys(a));
    var x, y := a[0], b[0];
    assert x in a;
    DropIsWithout(a);
    DropIsWithout(b);
    WithoutShrinks(a, x.key);
    OnlyWithout(b, Keys(a), x.key);
    assert Inside(a[1..], b);
    OnlyHead(b, Keys(a));
    if y.key in Keys(a) {
      assert a == [y] + Only(b[1..], Keys(a));
      assert x == y;
      OnlyWithout(b[1..], Keys(a), y.key);
      WithoutTwice(b, y.key);
    } else {
      OnlyHead(b, Keys(a[1..]));
      assert y.key !in Keys(a[1..]);
    }
  }

  lemma DropIsWithout(es: Entries)
    requires Distinct(es) && es != []
    ensures es[1..] == Without(es, es[0].key)
  {
    WithoutShrinks(es[1..], es[0].key);
    FindLocates(es[1..], es[0].key);
  }

  /** How far apart the two caches may be. */
  predicate Nested(a: Entries, b: Entries, n: nat, m: nat) {
    WellFormed(a, n) && WellFormed(b, m) && Inside(a, b) && |b| - |a| <= m - n
  }

  lemma FindInside(a: Entries, b: Entries, key: CacheKey)
    requires Distinct(a) && Distinct(b) && Inside(a, b)
    ensures Find(a, key).Some? ==> Find(b, key) == Find(a, key)
    ensures Find(b, key).Some? && Find(a, key).None? ==> key !in Keys(a)
  {
    FindLocates(a, key);
    FindLocates(b, key);
    OnlyMembers(b, Keys(a));
  }

  lemma NestedStep(a: Entries, b: Entries, op: CacheOp, n: nat, m: nat, ttl: real)
    requires n <= m && Nested(a, b, n, m)
    ensures Nested(After(a, op, n, ttl), After(b, op, m, ttl), n, m)
  {
    hide Nested, AfterGet, AfterPut;
    match op
    case Get(key, now) => NestedGet(a, b, key, now, n, m);
    case Put(key, data, now) => NestedPut(a, b, Entry(key, data, now + ttl), n, m);
  }

  lemma NestedPut(a: Entries, b: Entries, e: Entry, n: nat, m: nat)
    requires n <= m && Nested(a, b, n, m)
    ensures Nested(AfterPut(a, e, n), AfterPut(b, e, m), n, m)
  {
    PutForm(a, e, n);
    PutForm(b, e, m);
    InsideWithout(a, b, e.key);
    WithoutShrinks(a, e.key);
    WithoutShrinks(b, e.key);
    FindInside(a, b, e.key);
    hide Distinct, Inside, Newest, Without, Find;
    AppendForm(Without(a, e.key), e);
    AppendForm(Without(b, e.key), e);
    InsideAppend(Without(a, e.key), Without(b, e.key), e);
    PutTrims(Without(a, e.key) + [e], Without(b, e.key) + [e], n, m);
  }

  lemma NestedGet(a: Entries, b: Entries, key: CacheKey, now: real, n: nat, m: nat)
    requires n <= m && Nested(a, b, n, m)
    ensures Nested(AfterGet(a, key, now), AfterGet(b, key, now), n, m)
  {
    GetForm(a, key, now);
    GetForm(b, key, now);
    FindInside(a, b, key);
    WithoutShrinks(a, key);
    WithoutShrinks(b, key);
    InsideWithout(a, b, key);
    FindLocates(a, key);
    FindLocates(b, key);
    var found := Find(b, key);
    hide Distinct;
    if found.Some? && found.value.expires > now {
      if Find(a, key).Some? {
        InsideAppend(Without(a, key), Without(b, key), found.value);
      } else {
        OnlyAppend(Without(b, key), Keys(a), found.value);
        assert Inside(a, Without(b, key));
      }
    }
  }

  lemma PutTrims(a: Entries, b: Entries, n: nat, m: nat)
    requires n <= m && Distinct(a) && Distinct(b) && Inside(a, b)
    requires |a| <= n + 1 && |b| <= m + 1 && |b| - |a| <= m - n
    ensures Inside(Newest(a, n), Newest(b, m)) && |Newest(b, m)| - |Newest(a, n)| <= m - n
  {
    if |a| > n {
      assert Newest(a, n) == a[1..];
      InsideTrim(a, b);
      if |b| > m {
        assert Newest(b, m) == b[1..];
      }
    }
  }

  lemma {:induction false} Inclusion(a: Entries, b: Entries, ops: seq<CacheOp>, n: nat, m: nat, ttl: real)
    requires n <= m && Nested(a, b, n, m)
    ensures Nested(Run(a, ops, n, ttl), Run(b, ops, m, ttl), n, m)
    decreases |ops|
  {
    if ops != [] {
      NestedStep(a, b, ops[0], n, m, ttl);
      Inclusion(After(a, ops[0], n, ttl), After(b, ops[0], m, ttl), ops[1..], n, m, ttl);
    }
  }

  /** For any run of gets and puts and any clock readings: the smaller cache is the larger one with some entries
      left out, so whatever the smaller returns the larger returns too. */
  lemma LargerHoldsMore(ops: seq<CacheOp>, n: nat, m: nat, ttl: real, key: CacheKey, now: real)
    requires n <= m
    ensures var small, large := Run([], ops, n, ttl), Run([], ops, m, ttl);
            && Inside(small, large)
            && (Got(small, key, now).Some? ==> Got(large, key, now) == Got(small, key, now))
  {
    assert Nested([], [], n, m);
    Inclusion([], [], ops, n, m, ttl);
    FindInside(Run([], ops, n, ttl), Run([], ops, m, ttl), key);
  }
}
