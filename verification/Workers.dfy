/** N workers spending from one SQLite file, as a step system: every worker reads the clock, takes the writer
    lock (`BEGIN IMMEDIATE`), reads the row, writes it and commits, or rolls back; sweeps are statements of their own.
    Source: amiweak/store.py:219-262, amiweak/rate_limit.py:39-69. */
module Workers {
  import opened Wrappers
  import opened Buckets
  import opened Ledger

  /** Where one call of `TokenBucket.allow` stands. */
  datatype Phase =
    | Idle
    | Clocked(ns: string, client: string, cost: real, now: real)
    | Begun(ns: string, client: string, cost: real, now: real)
    | Fetched(ns: string, client: string, cost: real, now: real, row: Option<Row>)
    | Stored(ns: string, client: string, cost: real, now: real, allowed: bool, next: Row)

  /** A committed statement and the answer its caller got. */
  datatype Entry = Entry(op: BucketOp, reply: bool)

  datatype System = System(rows: Rows, lock: Option<nat>, phases: seq<Phase>, log: seq<Entry>)

  datatype Step =
    | ReadClock(w: nat, ns: string, client: string, cost: real, now: real)
    | Sweep(w: nat)
    | Begin(w: nat)
    | Select(w: nat)
    | Upsert(w: nat)
    | Commit(w: nat)
    | Rollback(w: nat)

  predicate InTransaction(p: Phase) { p.Begun? || p.Fetched? || p.Stored? }

  function SpendOp(lims: Limiters, ns: string, client: string, cost: real, now: real): BucketOp
    requires ns in lims
  {
    SpendOn(BucketKey(ns, client), cost, lims[ns].capacity, lims[ns].rate, now)
  }

  predicate Enabled(s: System, lims: Limiters, step: Step) {
    && step.w < |s.phases|
    && var p := s.phases[step.w];
       match step
       case ReadClock(_, ns, _, _, _) => p.Idle? && ns in lims
       case Sweep(_) => p.Clocked? && p.ns in lims && s.lock.None?
       case Begin(_) => p.Clocked? && s.lock.None?
       case Select(_) => p.Begun?
       case Upsert(_) => p.Fetched? && p.ns in lims
       case Commit(_) => p.Stored? && p.ns in lims
       case Rollback(_) => InTransaction(p)
  }

  function Next(s: System, lims: Limiters, step: Step): System
    requires Enabled(s, lims, step)
  {
    var w, p := step.w, s.phases[step.w];
    match step
    case ReadClock(_, ns, client, cost, now) =>
      s.(phases := s.phases[w := Clocked(ns, client, cost, now)])
    case Sweep(_) =>
      var op := SweepOf(p.ns, p.now - lims[p.ns].IdleTtl(), true);
      s.(rows := Committed(s.rows, op), log := s.log + [Entry(op, false)])
    case Begin(_) =>
      s.(lock := Some(w), phases := s.phases[w := Begun(p.ns, p.client, p.cost, p.now)])
    case Select(_) =>
      var row := Lookup(s.rows, BucketKey(p.ns, p.client));
      s.(phases := s.phases[w := Fetched(p.ns, p.client, p.cost, p.now, row)])
    case Upsert(_) =>
      var (allowed, row) := Spent(p.row, p.cost, lims[p.ns].capacity, lims[p.ns].rate, p.now);
      s.(phases := s.phases[w := Stored(p.ns, p.client, p.cost, p.now, allowed, row)])
    case Commit(_) =>
      System(s.rows[BucketKey(p.ns, p.client) := p.next], None, s.phases[w := Idle],
             s.log + [Entry(SpendOp(lims, p.ns, p.client, p.cost, p.now), p.allowed)])
    case Rollback(_) =>
      s.(lock := None, phases := s.phases[w := Idle])
  }

  function Start(workers: nat): System {
    System(map[], None, seq(workers, _ => Idle), [])
  }

  /** The system after `steps`, or None when some step was not possible. */
  function Run(workers: nat, lims: Limiters, steps: seq<Step>): Option<System> {
    if steps == [] then Some(Start(workers))
    else
      var last := |steps| - 1;
      var before := Run(workers, lims, steps[..last]);
      if before.Some? && Enabled(before.value, lims, steps[last]) then Some(Next(before.value, lims, steps[last]))
          else None
  }

  function OpsOf(log: seq<Entry>): (ops: seq<BucketOp>)
    ensures |ops| == |log|
  {
    seq(|log|, k requires 0 <= k < |log| => log[k].op)
  }

  /** What a worker in a transaction has read or is about to write agrees with the committed table. */
  predicate Fresh(rows: Rows, lims: Limiters, p: Phase) {
    match p
    case Fetched(ns, client, _, _, row) => row == Lookup(rows, BucketKey(ns, client))
    case Stored(ns, client, cost, now, allowed, next) =>
      ns in lims &&
      (allowed, next) == Spent(Lookup(rows, BucketKey(ns, client)), cost, lims[ns].capacity, lims[ns].rate, now)
    case _ => true
  }

  /** The invariant: the table is the log replayed, one transaction at a time is open, and it is fresh. */
  ghost predicate Inv(s: System, lims: Limiters) {
    && s.rows == RowsAfter(OpsOf(s.log))
    && (forall w :: 0 <= w < |s.phases| ==> (InTransaction(s.phases[w]) <==> s.lock == Some(w)))
    && (forall w :: 0 <= w < |s.phases| ==> Fresh(s.rows, lims, s.phases[w]))
    && (forall k :: 0 <= k < |s.log| ==> Issued(s.log, lims, k))
  }

  /** Entry k is a limiter's own operation, and its reply is what a store replaying the log in order answers. */
  ghost predicate Issued(log: seq<Entry>, lims: Limiters, k: nat)
    requires k < |log|
  {
    && log[k].reply == Allows(RowsAfter(OpsOf(log[..k])), log[k].op)
    && FromLimiter(log[k].op, lims)
  }

  lemma LogGrows(log: seq<Entry>, lims: Limiters, e: Entry)
    requires forall k :: 0 <= k < |log| ==> Issued(log, lims, k)
    requires e.reply == Allows(RowsAfter(OpsOf(log)), e.op) && FromLimiter(e.op, lims)
    ensures OpsOf(log + [e]) == OpsOf(log) + [e.op]
    ensures RowsAfter(OpsOf(log + [e])) == Committed(RowsAfter(OpsOf(log)), e.op)
    ensures forall k :: 0 <= k < |log + [e]| ==> Issued(log + [e], lims, k)
  {
    hide Allows, Committed;
    RowsAppend(OpsOf(log), e.op);
    forall k | 0 <= k < |log + [e]|
      ensures Issued(log + [e], lims, k)
    {
      if k < |log| {
        assert Issued(log, lims, k);
        assert (log + [e])[..k] == log[..k];
      } else {
        assert (log + [e])[..k] == log;
      }
    }
  }

  lemma StepKeepsInv(s: System, lims: Limiters, step: Step)
    requires Inv(s, lims) && Enabled(s, lims, step)
    ensures Inv(Next(s, lims, step), lims)
  {
    hide Spent, RowsAfter;
    var p := s.phases[step.w];
    assert Fresh(s.rows, lims, p);
    match step
    case Sweep(_) =>
      LogGrows(s.log, lims, Entry(SweepOf(p.ns, p.now - lims[p.ns].IdleTtl(), true), false));
    case Commit(w) =>
      var op := SpendOp(lims, p.ns, p.client, p.cost, p.now);
      assert Allows(s.rows, op) == p.allowed;
      LogGrows(s.log, lims, Entry(op, p.allowed));
      assert Next(s, lims, step).rows == Committed(s.rows, op);
    case _ =>
  }

  lemma {:induction false} RunsKeepInv(workers: nat, lims: Limiters, steps: seq<Step>)
    requires Run(workers, lims, steps).Some?
    ensures Inv(Run(workers, lims, steps).value, lims)
  {
    if steps == [] {
      assert OpsOf([]) == [];
    } else {
      var before := steps[..|steps| - 1];
      RunsKeepInv(workers, lims, before);
      StepKeepsInv(Run(workers, lims, before).value, lims, steps[|steps| - 1]);
    }
  }

  // ----- What was asked for -----

  /** The request worker w made last, in the state after `steps`. */
  function LastRequest(steps: seq<Step>, w: nat): (r: Option<Step>)
    ensures r.Some? ==> r.value.ReadClock? && r.value.w == w
  {
    if steps == [] then None
    else
      var step := steps[|steps| - 1];
      if step.ReadClock? && step.w == w then Some(step) else LastRequest(steps[..|steps| - 1], w)
  }

  /** What a step is for the client, when its worker was asked for `asked`. */
  function Seen(step: Step, asked: Option<Step>, ns: string, client: string): seq<Event>
    requires asked.Some? ==> asked.value.ReadClock?
  {
    if asked.None? || asked.value.ns != ns then []
    else if step.Commit? && asked.value.client == client then [Spend(asked.value.cost, asked.value.now)]
    else if step.Sweep? then [Evict(asked.value.now, true)]
    else []
  }

  /** What the requests in `steps` do to one client's bucket, in commit order: a commit spends the cost its worker was
      asked for under the reading it took, and a sweep goes by that reading too. */
  function ClientEvents(steps: seq<Step>, ns: string, client: string): seq<Event> {
    if steps == [] then []
    else
      var before, step := steps[..|steps| - 1], steps[|steps| - 1];
      ClientEvents(before, ns, client) + Seen(step, LastRequest(before, step.w), ns, client)
  }

  /** What the client's callers were told at those events; a sweep tells nobody anything and reads false. */
  function ClientReplies(workers: nat, lims: Limiters, steps: seq<Step>, ns: string, client: string): seq<bool>
    requires Run(workers, lims, steps).Some?
  {
    if steps == [] then []
    else
      var before, step := steps[..|steps| - 1], steps[|steps| - 1];
      var phase := Run(workers, lims, before).value.phases[step.w];
      var evs := Seen(step, LastRequest(before, step.w), ns, client);
      ClientReplies(workers, lims, before, ns, client) + seq(|evs|, i => step.Commit? && phase.allowed)
  }

  /** A worker that is not idle is at work on its last request. */
  predicate AtWork(p: Phase, asked: Option<Step>) {
    !p.Idle? ==>
      && asked.Some? && asked.value.ReadClock?
      && p.ns == asked.value.ns && p.client == asked.value.client
      && p.cost == asked.value.cost && p.now == asked.value.now
  }

  lemma {:induction false} AllAtWork(workers: nat, lims: Limiters, steps: seq<Step>)
    requires Run(workers, lims, steps).Some?
    ensures |Run(workers, lims, steps).value.phases| == workers
    ensures forall w :: 0 <= w < workers ==>
              AtWork(Run(workers, lims, steps).value.phases[w], LastRequest(steps, w))
    ensures forall w :: 0 <= w < workers && !Run(workers, lims, steps).value.phases[w].Idle? ==>
              Run(workers, lims, steps).value.phases[w].ns in lims
  {
    if steps != [] {
      var last := |steps| - 1;
      AllAtWork(workers, lims, steps[..last]);
      hide Spent;
    }
  }

  lemma LogKeeps(log: seq<Entry>, e: Entry, key: string, lim: Limits)
    ensures OpsOf(log + [e]) == OpsOf(log) + [e.op]
    ensures View(OpsOf(log + [e]), key, lim) == View(OpsOf(log), key, lim) + Touches(e.op, key, lim)
    ensures Replies(log + [e], key, lim) == Replies(log, key, lim) + seq(|Touches(e.op, key, lim)|, i => e.reply)
  {
    assert OpsOf(log + [e]) == OpsOf(log) + [e.op];
    AnswerAppends(OpsOf(log), e.op, key, lim);
    assert (log + [e])[..|log|] == log;
    hide Touches;
  }

  /** One step's entry in the log is what its worker was asked for. */
  lemma StepLogs(s: System, lims: Limiters, step: Step, asked: Option<Step>, ns: string, client: string)
    requires ValidLimiters(lims) && ns in lims && Enabled(s, lims, step)
    requires (asked.Some? ==> asked.value.ReadClock?) && AtWork(s.phases[step.w], asked)
    ensures var key, lim, after := BucketKey(ns, client), lims[ns], Next(s, lims, step).log;
            var evs := Seen(step, asked, ns, client);
            && View(OpsOf(after), key, lim) == View(OpsOf(s.log), key, lim) + evs
            && Replies(after, key, lim) ==
               Replies(s.log, key, lim) + seq(|evs|, i => step.Commit? && s.phases[step.w].allowed)
  {
    var key, lim, p := BucketKey(ns, client), lims[ns], s.phases[step.w];
    hide Spent;
    if step.Commit? || step.Sweep? {
      var e := Next(s, lims, step).log[|s.log|];
      assert Next(s, lims, step).log == s.log + [e];
      EntryTouches(s, lims, step, asked, ns, client);
      hide View, Replies, Next, Enabled, Touches, Seen;
      LogKeeps(s.log, e, key, lim);
    } else {
      assert Next(s, lims, step).log == s.log && Seen(step, asked, ns, client) == [];
      hide View, Replies, Next, Enabled;
      assert Replies(s.log, key, lim) + [] == Replies(s.log, key, lim);
      assert View(OpsOf(s.log), key, lim) + [] == View(OpsOf(s.log), key, lim);
    }
  }

  lemma EntryTouches(s: System, lims: Limiters, step: Step, asked: Option<Step>, ns: string, client: string)
    requires ValidLimiters(lims) && ns in lims && Enabled(s, lims, step) && (step.Commit? || step.Sweep?)
    requires (asked.Some? ==> asked.value.ReadClock?) && AtWork(s.phases[step.w], asked)
    ensures var after := Next(s, lims, step).log;
            && |after| == |s.log| + 1
            && Touches(after[|s.log|].op, BucketKey(ns, client), lims[ns]) == Seen(step, asked, ns, client)
            && after[|s.log|].reply == (step.Commit? && s.phases[step.w].allowed)
  {
    var p := s.phases[step.w];
    hide Spent, BucketKey, InNamespace;
    assert p.now - lims[p.ns].IdleTtl() + lims[p.ns].IdleTtl() == p.now;
    SameKey(ns, client, p.ns, if step.Commit? then p.client else "");
  }

  /** The log's view of a client is what the requests ask for, and its replies are what their callers are told. */
  lemma {:induction false} LogIsAsked(workers: nat, lims: Limiters, steps: seq<Step>, s: System, ns: string,
                                      client: string)
    requires ValidLimiters(lims) && ns in lims && Run(workers, lims, steps) == Some(s)
    ensures View(OpsOf(s.log), BucketKey(ns, client), lims[ns]) == ClientEvents(steps, ns, client)
    ensures Replies(s.log, BucketKey(ns, client), lims[ns]) == ClientReplies(workers, lims, steps, ns, client)
  {
    if steps != [] {
      var last := |steps| - 1;
      var before := Run(workers, lims, steps[..last]).value;
      LogIsAsked(workers, lims, steps[..last], before, ns, client);
      AllAtWork(workers, lims, steps[..last]);
      hide View, Replies, Next, AtWork;
      StepLogs(before, lims, steps[last], LastRequest(steps[..last], steps[last].w), ns, client);
    } else {
      assert OpsOf([]) == [];
    }
  }

  // ----- What one client sees -----

  /** The replies at the events of a key's view. */
  function Replies(log: seq<Entry>, key: string, lim: Limits): seq<bool> {
    if log == [] then []
    else
      var e := log[|log| - 1];
      Replies(log[..|log| - 1], key, lim) + seq(|Touches(e.op, key, lim)|, i => e.reply)
  }

  lemma {:induction false} RepliesAreAnswers(log: seq<Entry>, lims: Limiters, key: string, lim: Limits)
    requires forall k :: 0 <= k < |log| ==> Issued(log, lims, k)
    ensures Replies(log, key, lim) == Answers(OpsOf(log), key, lim)
  {
    if log != [] {
      hide Touches, Allows, RowsAfter, FromLimiter;
      var n := |log| - 1;
      forall k | 0 <= k < n
        ensures Issued(log[..n], lims, k)
      {
        assert Issued(log, lims, k);
        assert log[..n][..k] == log[..k];
      }
      RepliesAreAnswers(log[..n], lims, key, lim);
      assert Issued(log, lims, n);
      var ops, op := OpsOf(log), log[n].op;
      assert ops[..n] == OpsOf(log[..n]) && ops[n] == op;
      var replies := seq(|Touches(op, key, lim)|, i => log[n].reply);
      assert replies == seq(|Touches(op, key, lim)|, i => Allows(RowsAfter(ops[..n]), op));
    }
  }

  lemma OwnLog(s: System, lims: Limiters, ns: string, client: string)
    requires ValidLimiters(lims) && Inv(s, lims) && ns in lims
    ensures OneLimiter(OpsOf(s.log), BucketKey(ns, client), lims[ns])
  {
    forall op | op in OpsOf(s.log)
      ensures FromLimiter(op, lims)
    {
      var k :| 0 <= k < |s.log| && OpsOf(s.log)[k] == op;
      assert Issued(s.log, lims, k);
    }
    OwnLimiter(OpsOf(s.log), lims, ns, client);
  }

  /** In every interleaving a client's callers are told what a single bucket decides that is asked, in commit order, for
      exactly what they asked. */
  lemma WorkersAreSerializable(workers: nat, lims: Limiters, steps: seq<Step>, ns: string, client: string)
    requires ValidLimiters(lims) && ns in lims && Run(workers, lims, steps).Some?
    ensures ClientReplies(workers, lims, steps, ns, client) ==
            Decisions(None, ClientEvents(steps, ns, client), lims[ns])
  {
    var s := Run(workers, lims, steps).value;
    RunsKeepInv(workers, lims, steps);
    OwnLog(s, lims, ns, client);
    RepliesAreAnswers(s.log, lims, BucketKey(ns, client), lims[ns]);
    ViewIsExact(OpsOf(s.log), BucketKey(ns, client), lims[ns]);
    LogIsAsked(workers, lims, steps, s, ns, client);
  }

  /** The rate bound over every interleaving and any clock readings at most 4.5 windows behind the largest seen:
      from a spend to a granted spend, in commit order, no more than the capacity plus what refills. */
  lemma WorkersRateBound(workers: nat, lims: Limiters, steps: seq<Step>, ns: string, client: string,
                         peak: real, i: nat, j: nat)
    requires ValidLimiters(lims) && ns in lims && Run(workers, lims, steps).Some?
    requires Steady(ClientEvents(steps, ns, client), peak, 4.5 * lims[ns].per)
    requires i <= j < |ClientEvents(steps, ns, client)| == |ClientReplies(workers, lims, steps, ns, client)|
    requires ClientEvents(steps, ns, client)[i].Spend? && ClientReplies(workers, lims, steps, ns, client)[j]
    ensures var evs, ds := ClientEvents(steps, ns, client), ClientReplies(workers, lims, steps, ns, client);
            && ds == Decisions(None, evs, lims[ns])
            && GrantedIn(evs, ds, i, j + 1) <= lims[ns].capacity + Gain(lims[ns].rate, evs[j].now - evs[i].now)
  {
    hide Gain;
    WorkersAreSerializable(workers, lims, steps, ns, client);
    SweptRateBound(ClientEvents(steps, ns, client), peak, i, j, lims[ns]);
  }

  /** And exactly that: in every interleaving a request is granted if and only if no window of the client's committed
      requests that ends with it would exceed the capacity plus the refill. */
  lemma WorkersGrantExactly(workers: nat, lims: Limiters, steps: seq<Step>, ns: string, client: string, peak: real,
                            j: nat)
    requires ValidLimiters(lims) && ns in lims && Run(workers, lims, steps).Some?
    requires Steady(ClientEvents(steps, ns, client), peak, 4.5 * lims[ns].per)
    requires j < |ClientEvents(steps, ns, client)| && ClientEvents(steps, ns, client)[j].Spend?
    ensures var evs, ds := ClientEvents(steps, ns, client), ClientReplies(workers, lims, steps, ns, client);
            && ds == Decisions(None, evs, lims[ns])
            && (ds[j] <==> Fits(evs, ds, j, evs[j].cost, evs[j].now, lims[ns]))
  {
    hide Gain, Fits;
    WorkersAreSerializable(workers, lims, steps, ns, client);
    SweptGrantedExactly(ClientEvents(steps, ns, client), peak, j, lims[ns]);
  }

  /** In true time, over every interleaving, with sweeps and with any steps back of the clock: what a client is granted
      between two of its commits stays within the capacity plus what refills between their true times, as long as no
      reading gains on true time over one committed before it. */
  lemma WorkersBoundInTrueTime(workers: nat, lims: Limiters, steps: seq<Step>, ns: string, client: string,
                               truth: seq<real>, i: nat, j: nat)
    requires ValidLimiters(lims) && ns in lims && Run(workers, lims, steps).Some?
    requires KeepsTime(ClientEvents(steps, ns, client), truth, 0.0)
    requires i <= j < |ClientEvents(steps, ns, client)| == |truth|
    ensures var evs, ds := ClientEvents(steps, ns, client), ClientReplies(workers, lims, steps, ns, client);
            && ds == Decisions(None, evs, lims[ns])
            && GrantedIn(evs, ds, i, j + 1) <= lims[ns].capacity + Gain(lims[ns].rate, truth[j] - truth[i])
  {
    hide Gain, KeepsTime;
    WorkersAreSerializable(workers, lims, steps, ns, client);
    TrueTimeWindow(ClientEvents(steps, ns, client), truth, i, j, lims[ns]);
  }

  predicate NoSweep(step: Step) { !step.Sweep? }

  /** Without sweeps the bound needs no assumption on the clock at all. */
  lemma WorkersRateBoundAnyClock(workers: nat, lims: Limiters, steps: seq<Step>, ns: string, client: string, i: nat,
                                 j: nat)
    requires ValidLimiters(lims) && ns in lims && Run(workers, lims, steps).Some?
    requires forall step :: step in steps ==> NoSweep(step)
    requires i <= j < |ClientEvents(steps, ns, client)| == |ClientReplies(workers, lims, steps, ns, client)|
    requires ClientEvents(steps, ns, client)[i].Spend? && ClientReplies(workers, lims, steps, ns, client)[j]
    ensures var evs, ds := ClientEvents(steps, ns, client), ClientReplies(workers, lims, steps, ns, client);
            && ds == Decisions(None, evs, lims[ns])
            && GrantedIn(evs, ds, i, j + 1) <= lims[ns].capacity + Gain(lims[ns].rate, evs[j].now - evs[i].now)
  {
    hide Gain, Run;
    WorkersAreSerializable(workers, lims, steps, ns, client);
    OnlySpends(steps, ns, client);
    WindowRateBound(ClientEvents(steps, ns, client), i, j, lims[ns]);
  }

  lemma {:induction false} OnlySpends(steps: seq<Step>, ns: string, client: string)
    requires forall step :: step in steps ==> NoSweep(step)
    ensures NeverSweeps(ClientEvents(steps, ns, client))
  {
    if steps != [] {
      var last := |steps| - 1;
      assert NoSweep(steps[last]) && forall step :: step in steps[..last] ==> step in steps;
      OnlySpends(steps[..last], ns, client);
    }
  }

  // ----- Requests complete -----

  lemma RunOn(workers: nat, lims: Limiters, steps: seq<Step>, step: Step)
    requires Run(workers, lims, steps).Some? && Enabled(Run(workers, lims, steps).value, lims, step)
    ensures Run(workers, lims, steps + [step]) == Some(Next(Run(workers, lims, steps).value, lims, step))
  {
    assert (steps + [step])[..|steps|] == steps;
    hide Enabled, Next;
  }

  /** From every state of every run: whoever holds the lock can give it back by steps of its own. */
  lemma LockCanBeFreed(workers: nat, lims: Limiters, steps: seq<Step>) returns (more: seq<Step>)
    requires Run(workers, lims, steps).Some?
    ensures forall step :: step in more ==> Run(workers, lims, steps).value.lock == Some(step.w)
    ensures Run(workers, lims, steps + more).Some? && Run(workers, lims, steps + more).value.lock == None
  {
    var s := Run(workers, lims, steps).value;
    if s.lock == None {
      more := [];
      assert steps + [] == steps;
    } else {
      HolderInTransaction(workers, lims, steps);
      more := [Rollback(s.lock.value)];
      RunOn(workers, lims, steps, more[0]);
    }
  }

  lemma {:induction false} HolderInTransaction(workers: nat, lims: Limiters, steps: seq<Step>)
    requires Run(workers, lims, steps).Some?
    ensures var s := Run(workers, lims, steps).value;
            s.lock.Some? ==> s.lock.value < |s.phases| && InTransaction(s.phases[s.lock.value])
  {
    if steps != [] {
      var last := |steps| - 1;
      HolderInTransaction(workers, lims, steps[..last]);
      RunsKeepInv(workers, lims, steps[..last]);
      hide Spent, RowsAfter;
    }
  }

  function WithTransaction(steps: seq<Step>, w: nat): seq<Step> {
    steps + [Begin(w)] + [Select(w)] + [Upsert(w)] + [Commit(w)]
  }

  /** A run and then one request, swept before its spend or not. */
  function WithRequest(steps: seq<Step>, w: nat, ns: string, client: string, cost: real, now: real,
                       sweep: bool): seq<Step>
  {
    var clocked := steps + [ReadClock(w, ns, client, cost, now)];
    WithTransaction(if sweep then clocked + [Sweep(w)] else clocked, w)
  }

  /** From every state of every run in which the lock is free, an idle worker's request completes, swept before or not,
      and its caller is told what the bucket decides after everything committed before. */
  lemma RequestCompletes(workers: nat, lims: Limiters, steps: seq<Step>, w: nat, ns: string, client: string,
                         cost: real, now: real, sweep: bool)
    requires ValidLimiters(lims) && ns in lims && Run(workers, lims, steps).Some?
    requires Run(workers, lims, steps).value.lock == None
    requires w < |Run(workers, lims, steps).value.phases| && Run(workers, lims, steps).value.phases[w] == Idle
    ensures var all := WithRequest(steps, w, ns, client, cost, now, sweep);
            var asked := ClientEvents(steps, ns, client) + (if sweep then [Evict(now, true)] else []) +
                         [Spend(cost, now)];
            && Run(workers, lims, all).Some?
            && ClientEvents(all, ns, client) == asked
            && ClientReplies(workers, lims, all, ns, client) == Decisions(None, asked, lims[ns])
  {
    var all := WithRequest(steps, w, ns, client, cost, now, sweep);
    RequestRuns(workers, lims, steps, w, ns, client, cost, now, sweep);
    RequestEvents(steps, w, ns, client, cost, now, sweep);
    hide Run, Decisions, ClientEvents, ClientReplies, WithRequest;
    WorkersAreSerializable(workers, lims, all, ns, client);
  }

  lemma RequestRuns(workers: nat, lims: Limiters, steps: seq<Step>, w: nat, ns: string, client: string,
                    cost: real, now: real, sweep: bool)
    requires ns in lims && Run(workers, lims, steps).Some? && Run(workers, lims, steps).value.lock == None
    requires w < |Run(workers, lims, steps).value.phases| && Run(workers, lims, steps).value.phases[w] == Idle
    ensures Run(workers, lims, WithRequest(steps, w, ns, client, cost, now, sweep)).Some?
  {
    var clocked := steps + [ReadClock(w, ns, client, cost, now)];
    RunOn(workers, lims, steps, ReadClock(w, ns, client, cost, now));
    if sweep {
      RunOn(workers, lims, clocked, Sweep(w));
    }
    hide Run, WithTransaction, Committed;
    TransactionCompletes(workers, lims, if sweep then clocked + [Sweep(w)] else clocked, w);
  }

  lemma TransactionCompletes(workers: nat, lims: Limiters, steps: seq<Step>, w: nat)
    requires Run(workers, lims, steps).Some? && Run(workers, lims, steps).value.lock == None
    requires w < |Run(workers, lims, steps).value.phases| && Run(workers, lims, steps).value.phases[w].Clocked?
    requires Run(workers, lims, steps).value.phases[w].ns in lims
    ensures Run(workers, lims, WithTransaction(steps, w)).Some?
  {
    hide Spent, Run;
    RunOn(workers, lims, steps, Begin(w));
    RunOn(workers, lims, steps + [Begin(w)], Select(w));
    RunOn(workers, lims, steps + [Begin(w)] + [Select(w)], Upsert(w));
    RunOn(workers, lims, steps + [Begin(w)] + [Select(w)] + [Upsert(w)], Commit(w));
  }

  lemma EventsAppend(steps: seq<Step>, step: Step, ns: string, client: string)
    ensures ClientEvents(steps + [step], ns, client) ==
            ClientEvents(steps, ns, client) + Seen(step, LastRequest(steps, step.w), ns, client)
    ensures LastRequest(steps + [step], step.w) == if step.ReadClock? then Some(step) else LastRequest(steps, step.w)
  {
    assert (steps + [step])[..|steps|] == steps;
  }

  lemma TransactionEvents(steps: seq<Step>, w: nat, ns: string, client: string)
    ensures ClientEvents(WithTransaction(steps, w), ns, client) ==
            ClientEvents(steps, ns, client) + Seen(Commit(w), LastRequest(steps, w), ns, client)
  {
    hide ClientEvents, LastRequest;
    EventsAppend(steps, Begin(w), ns, client);
    EventsAppend(steps + [Begin(w)], Select(w), ns, client);
    EventsAppend(steps + [Begin(w)] + [Select(w)], Upsert(w), ns, client);
    EventsAppend(steps + [Begin(w)] + [Select(w)] + [Upsert(w)], Commit(w), ns, client);
    assert ClientEvents(steps, ns, client) + [] == ClientEvents(steps, ns, client);
  }

  lemma RequestEvents(steps: seq<Step>, w: nat, ns: string, client: string, cost: real, now: real, sweep: bool)
    ensures ClientEvents(WithRequest(steps, w, ns, client, cost, now, sweep), ns, client) ==
            ClientEvents(steps, ns, client) + (if sweep then [Evict(now, true)] else []) + [Spend(cost, now)]
  {
    var clocked := steps + [ReadClock(w, ns, client, cost, now)];
    hide ClientEvents, LastRequest, WithTransaction;
    EventsAppend(steps, ReadClock(w, ns, client, cost, now), ns, client);
    if sweep {
      EventsAppend(clocked, Sweep(w), ns, client);
    }
    TransactionEvents(if sweep then clocked + [Sweep(w)] else clocked, w, ns, client);
    assert ClientEvents(steps, ns, client) + [] == ClientEvents(steps, ns, client);
  }
}
