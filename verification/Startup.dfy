/** Workers starting up against one digest cache file: `_load_or_generate` of amiweak/denylist.py:141-168 as a step
    system over the shared file, the file lock, and each worker's own temporary file.  A read sees one whole version
    of the file, because the only thing that ever changes it is an atomic replace. */
module Startup {
  import opened Wrappers
  import opened DigestStore

  /** What one worker was started with: its fingerprint, the digests its inputs generate, and its cap. */
  datatype Job = Job(fingerprint: Bytes, digests: seq<Bytes>, maxDigests: nat) {
    function File(): CacheFile { CacheFile(fingerprint, digests) }
  }

  datatype Phase =
    | Starting                        // nothing read yet
    | Missed                          // first check failed; waiting for the lock
    | Locked                          // holding the lock, second check to come
    | Generating                      // second check failed
    | Writing(tmp: Bytes)             // temporary file as written so far
    | Replaced                        // file in place, lock still held
    | Hit(found: seq<Bytes>)          // second check succeeded, lock still held
    | Done(result: seq<Bytes>)
    | Failed
    | Crashed

  datatype System = System(file: Option<Bytes>, lock: Option<nat>, phases: seq<Phase>, generations: nat)

  datatype Step =
    | FirstRead(w: nat)
    | Acquire(w: nat)
    | TimeOut(w: nat)
    | SecondRead(w: nat)
    | Generate(w: nat)
    | WriteMore(w: nat, bytes: nat)
    | Replace(w: nat)
    | Release(w: nat)
    | WriteFails(w: nat)
    | Crash(w: nat)

  predicate HoldsLock(p: Phase) {
    p.Locked? || p.Generating? || p.Writing? || p.Replaced? || p.Hit?
  }

  /** read_cache plus the fingerprint comparison. */
  function Matching(file: Option<Bytes>, fingerprint: Bytes): Option<seq<Bytes>> {
    if file.None? || Decoded(file.value).None? || Decoded(file.value).value.fingerprint != fingerprint then None
    else Some(Decoded(file.value).value.digests)
  }

  predicate Enabled(s: System, jobs: seq<Job>, step: Step) {
    && step.w < |s.phases| == |jobs|
    && var p := s.phases[step.w];
       match step
       case FirstRead(_) => p.Starting?
       case Acquire(_) => p.Missed? && s.lock.None?
       case TimeOut(_) => p.Missed?
       case SecondRead(_) => p.Locked?
       case Generate(_) => p.Generating?
       case WriteMore(w, bytes) => p.Writing? && |p.tmp| + bytes <= |Encoded(jobs[w].File())|
       case Replace(w) => p.Writing? && |p.tmp| == |Encoded(jobs[w].File())|
       case Release(_) => p.Replaced? || p.Hit?
       case WriteFails(_) => p.Writing?
       case Crash(_) => !p.Done? && !p.Failed? && !p.Crashed?
  }

  function Move(s: System, w: nat, p: Phase): System
    requires w < |s.phases|
  {
    s.(phases := s.phases[w := p])
  }

  /** Leaving the lock's block, if in it. */
  function Leave(s: System, w: nat, p: Phase): System
    requires w < |s.phases|
  {
    Move(s, w, p).(lock := if HoldsLock(s.phases[w]) then None else s.lock)
  }

  function Next(s: System, jobs: seq<Job>, step: Step): System
    requires Enabled(s, jobs, step)
  {
    var w, p, job := step.w, s.phases[step.w], jobs[step.w];
    match step
    case FirstRead(_) =>
      var found := Matching(s.file, job.fingerprint);
      Move(s, w, if found.Some? then Done(found.value) else Missed)
    case Acquire(_) => Move(s, w, Locked).(lock := Some(w))
    case TimeOut(_) => Move(s, w, Failed)
    case SecondRead(_) =>
      var found := Matching(s.file, job.fingerprint);
      Move(s, w, if found.Some? then Hit(found.value) else Generating)
    case Generate(_) =>
      if |job.digests| > job.maxDigests then Leave(s, w, Failed)
      else Move(s, w, Writing([])).(generations := s.generations + 1)
    case WriteMore(_, bytes) => Move(s, w, Writing(Encoded(job.File())[..|p.tmp| + bytes]))
    case Replace(_) => Move(s, w, Replaced).(file := Some(p.tmp))
    case Release(_) => Leave(s, w, Done(if p.Hit? then p.found else job.digests))
    case WriteFails(_) => Leave(s, w, Failed)
    case Crash(_) => Leave(s, w, Crashed)
  }

  function Start(file: Option<Bytes>, jobs: seq<Job>): System {
    System(file, None, seq(|jobs|, _ => Starting), 0)
  }

  function Run(file: Option<Bytes>, jobs: seq<Job>, steps: seq<Step>): Option<System> {
    if steps == [] then Some(Start(file, jobs))
    else
      var last := |steps| - 1;
      var before := Run(file, jobs, steps[..last]);
      if before.Some? && Enabled(before.value, jobs, steps[last]) then Some(Next(before.value, jobs, steps[last]))
          else None
  }

  /** Sizes the writer produces, and one digest set per fingerprint: the fingerprint covers every input. */
  ghost predicate Sound(jobs: seq<Job>) {
    && (forall w :: 0 <= w < |jobs| ==> jobs[w].File().WellSized())
    && (forall v, w :: 0 <= v < |jobs| && 0 <= w < |jobs| && jobs[v].fingerprint == jobs[w].fingerprint ==>
          jobs[v].digests == jobs[w].digests)
  }

  /** A file no worker here would be misled by: rejected, of other inputs, or truthful. */
  ghost predicate Truthful(file: Option<Bytes>, jobs: seq<Job>) {
    forall w :: 0 <= w < |jobs| && Matching(file, jobs[w].fingerprint).Some? ==>
      Matching(file, jobs[w].fingerprint).value == jobs[w].digests
  }

  // ----- Safety, whatever crashes -----

  /** The file is the original one or some worker's whole writing. */
  ghost predicate WholeFile(s: System, original: Option<Bytes>, jobs: seq<Job>) {
    s.file == original || exists w :: 0 <= w < |jobs| && s.file == Some(Encoded(jobs[w].File()))
  }

  predicate PhaseFits(p: Phase, job: Job) {
    && (p.Writing? ==> p.tmp <= Encoded(job.File()))
    && (p.Hit? ==> p.found == job.digests)
    && (p.Done? ==> p.result == job.digests)
  }

  ghost predicate Inv(s: System, original: Option<Bytes>, jobs: seq<Job>) {
    && |s.phases| == |jobs|
    && WholeFile(s, original, jobs)
    && Truthful(s.file, jobs)
    && (forall w :: 0 <= w < |jobs| ==> PhaseFits(s.phases[w], jobs[w]))
    && (forall w :: 0 <= w < |jobs| ==> (HoldsLock(s.phases[w]) <==> s.lock == Some(w)))
  }

  lemma WrittenIsTruthful(jobs: seq<Job>, w: nat)
    requires Sound(jobs) && w < |jobs|
    ensures Truthful(Some(Encoded(jobs[w].File())), jobs)
    ensures Matching(Some(Encoded(jobs[w].File())), jobs[w].fingerprint) == Some(jobs[w].digests)
  {
    hide Encoded, Decoded;
    ReadUndoesWrite(jobs[w].File());
  }

  lemma ReplaceKeepsInv(s: System, original: Option<Bytes>, jobs: seq<Job>, w: nat)
    requires Sound(jobs) && Inv(s, original, jobs) && Enabled(s, jobs, Replace(w))
    ensures Inv(Next(s, jobs, Replace(w)), original, jobs)
  {
    hide Encoded, Decoded;
    assert PhaseFits(s.phases[w], jobs[w]);
    var tmp := s.phases[w].tmp;
    assert tmp == Encoded(jobs[w].File()) by {
      assert tmp == Encoded(jobs[w].File())[..|tmp|];
    }
    WrittenIsTruthful(jobs, w);
    hide Matching, Truthful, Sound;
    assert WholeFile(Next(s, jobs, Replace(w)), original, jobs);
  }

  lemma StepKeepsInv(s: System, original: Option<Bytes>, jobs: seq<Job>, step: Step)
    requires Sound(jobs) && Inv(s, original, jobs) && Enabled(s, jobs, step)
    ensures Inv(Next(s, jobs, step), original, jobs)
  {
    hide Encoded, Decoded;
    if step.Replace? {
      ReplaceKeepsInv(s, original, jobs, step.w);
    } else {
      OtherSteps(s, jobs, step);
      hide Truthful, Sound, Matching, Next, PhaseFits;
    }
  }

  /** Every other step leaves the file alone, fits its worker's phase to its job, and keeps the lock exclusive. */
  lemma OtherSteps(s: System, jobs: seq<Job>, step: Step)
    requires Enabled(s, jobs, step) && !step.Replace? && PhaseFits(s.phases[step.w], jobs[step.w])
    requires Truthful(s.file, jobs)
    requires forall w :: 0 <= w < |jobs| ==> (HoldsLock(s.phases[w]) <==> s.lock == Some(w))
    ensures var s' := Next(s, jobs, step);
            && s'.file == s.file && |s'.phases| == |jobs|
            && (forall w :: 0 <= w < |jobs| && w != step.w ==> s'.phases[w] == s.phases[w])
            && PhaseFits(s'.phases[step.w], jobs[step.w])
            && forall w :: 0 <= w < |jobs| ==> (HoldsLock(s'.phases[w]) <==> s'.lock == Some(w))
  {
    hide Encoded, Decoded;
    TruthfulRead(s.file, jobs, step.w);
    hide Matching, Truthful;
  }

  lemma TruthfulRead(file: Option<Bytes>, jobs: seq<Job>, w: nat)
    requires w < |jobs|
    ensures Truthful(file, jobs) ==> Matching(file, jobs[w].fingerprint) in {None, Some(jobs[w].digests)}
  {
  }

  lemma {:induction false} RunsKeepInv(file: Option<Bytes>, jobs: seq<Job>, steps: seq<Step>)
    requires Sound(jobs) && Truthful(file, jobs) && Run(file, jobs, steps).Some?
    ensures Inv(Run(file, jobs, steps).value, file, jobs)
  {
    if steps != [] {
      var before := steps[..|steps| - 1];
      RunsKeepInv(file, jobs, before);
      StepKeepsInv(Run(file, jobs, before).value, file, jobs, steps[|steps| - 1]);
    }
  }

  /** Every worker that returns, returns exactly its own inputs' digests, and at every moment the file is the
      original or one complete writing, whoever crashed where and whatever the mix of fingerprints. */
  lemma StartupIsSafe(file: Option<Bytes>, jobs: seq<Job>, steps: seq<Step>, s: System)
    requires Sound(jobs) && Truthful(file, jobs) && Run(file, jobs, steps) == Some(s)
    ensures forall w :: 0 <= w < |jobs| && s.phases[w].Done? ==> s.phases[w].result == jobs[w].digests
    ensures s.file == file || exists w :: 0 <= w < |jobs| && s.file == Some(Encoded(jobs[w].File()))
                                          && Decoded(s.file.value) == Some(jobs[w].File())
    ensures forall v, w :: 0 <= v < w < |jobs| ==> !(HoldsLock(s.phases[v]) && HoldsLock(s.phases[w]))
  {
    RunsKeepInv(file, jobs, steps);
    assert forall w :: 0 <= w < |jobs| ==> PhaseFits(s.phases[w], jobs[w]);
    hide Encoded, Decoded;
    if s.file != file {
      var w :| 0 <= w < |jobs| && s.file == Some(Encoded(jobs[w].File()));
      ReadUndoesWrite(jobs[w].File());
    }
  }

  /** A temporary file abandoned part-way would be rejected even by a reader that opened it. */
  lemma AbandonedFileIsRejected(file: Option<Bytes>, jobs: seq<Job>, steps: seq<Step>, s: System, w: nat)
    requires Sound(jobs) && Truthful(file, jobs) && Run(file, jobs, steps) == Some(s)
    requires w < |s.phases| && s.phases[w].Writing?
    ensures w < |jobs| && (s.phases[w].tmp == Encoded(jobs[w].File()) || Decoded(s.phases[w].tmp).None?)
  {
    RunsKeepInv(file, jobs, steps);
    assert PhaseFits(s.phases[w], jobs[w]);
    hide Encoded, Decoded;
    if s.phases[w].tmp != Encoded(jobs[w].File()) {
      PartialAndExtendedRejected(jobs[w].File(), s.phases[w].tmp);
    }
  }

  // ----- Counting generations -----

  predicate OneFingerprint(jobs: seq<Job>, fingerprint: Bytes) {
    forall w :: 0 <= w < |jobs| ==> jobs[w].fingerprint == fingerprint
  }

  /** A step that throws generated digests away: a crash, or a failed write, of a worker that is writing them. */
  predicate Loses(s: System, step: Step) {
    step.w < |s.phases| && s.phases[step.w].Writing? && (step.Crash? || step.WriteFails?)
  }

  function Losses(file: Option<Bytes>, jobs: seq<Job>, steps: seq<Step>): nat {
    if steps == [] then 0
    else
      var last := |steps| - 1;
      var before := Run(file, jobs, steps[..last]);
      Losses(file, jobs, steps[..last]) + if before.Some? && Loses(before.value, steps[last]) then 1 else 0
  }

  /** Generated, and in the file. */
  predicate Won(s: System, fingerprint: Bytes) { Matching(s.file, fingerprint).Some? }

  /** Generated, and being written by the lock's holder. */
  predicate InHand(s: System) {
    s.lock.Some? && s.lock.value < |s.phases| && s.phases[s.lock.value].Writing?
  }

  /** Every generation is lost, in the file or in hand; nobody generates once it is in the file, and nobody returns
      before. */
  ghost predicate CountInv(s: System, fingerprint: Bytes, losses: nat) {
    && (forall w :: 0 <= w < |s.phases| ==> (HoldsLock(s.phases[w]) <==> s.lock == Some(w)))
    && s.generations == losses + (if Won(s, fingerprint) || InHand(s) then 1 else 0)
    && !(Won(s, fingerprint) && InHand(s))
    && (forall w :: 0 <= w < |s.phases| && s.phases[w].Generating? ==> !Won(s, fingerprint))
    && (forall w :: 0 <= w < |s.phases| && (s.phases[w].Done? || s.phases[w].Hit? || s.phases[w].Replaced?) ==>
          Won(s, fingerprint))
  }

  lemma StepCounts(s: System, original: Option<Bytes>, jobs: seq<Job>, step: Step, fingerprint: Bytes, losses: nat)
    requires Sound(jobs) && OneFingerprint(jobs, fingerprint) && Inv(s, original, jobs)
    requires CountInv(s, fingerprint, losses) && Enabled(s, jobs, step)
    ensures CountInv(Next(s, jobs, step), fingerprint, losses + if Loses(s, step) then 1 else 0)
  {
    hide Encoded, Decoded, Truthful, WholeFile;
    var w := step.w;
    assert PhaseFits(s.phases[w], jobs[w]) && jobs[w].fingerprint == fingerprint;
    if step.Replace? {
      var tmp := s.phases[w].tmp;
      assert tmp == Encoded(jobs[w].File()) by {
        assert tmp == Encoded(jobs[w].File())[..|tmp|];
      }
      WrittenIsTruthful(jobs, w);
      assert Won(Next(s, jobs, step), fingerprint);
    }
    hide Matching;
  }

  lemma {:induction false} RunsCount(file: Option<Bytes>, jobs: seq<Job>, steps: seq<Step>, fingerprint: Bytes)
    requires Sound(jobs) && OneFingerprint(jobs, fingerprint) && Matching(file, fingerprint).None?
    requires Run(file, jobs, steps).Some?
    ensures Inv(Run(file, jobs, steps).value, file, jobs)
    ensures CountInv(Run(file, jobs, steps).value, fingerprint, Losses(file, jobs, steps))
  {
    assert Truthful(file, jobs) by {
      assert forall w :: 0 <= w < |jobs| ==> jobs[w].fingerprint == fingerprint;
    }
    RunsKeepInv(file, jobs, steps);
    if steps != [] {
      var last := |steps| - 1;
      RunsKeepInv(file, jobs, steps[..last]);
      RunsCount(file, jobs, steps[..last], fingerprint);
      hide Inv, CountInv, Enabled, Next, Loses;
      StepCounts(Run(file, jobs, steps[..last]).value, file, jobs, steps[last], fingerprint,
          Losses(file, jobs, steps[..last]));
    }
  }

  /** From a missing, corrupt or outdated file, whatever fails: workers that share one fingerprint generate once for
      every time a writer crashed or its write failed, at most once more, and exactly once more if any returns. */
  lemma GenerationsAreCounted(file: Option<Bytes>, jobs: seq<Job>, steps: seq<Step>, s: System, fingerprint: Bytes)
    requires Sound(jobs) && OneFingerprint(jobs, fingerprint) && Matching(file, fingerprint).None?
    requires Run(file, jobs, steps) == Some(s)
    ensures Losses(file, jobs, steps) <= s.generations <= Losses(file, jobs, steps) + 1
    ensures |s.phases| == |jobs|
    ensures (exists w :: 0 <= w < |jobs| && s.phases[w].Done?) ==> s.generations == Losses(file, jobs, steps) + 1
  {
    RunsCount(file, jobs, steps, fingerprint);
  }

  /** So, while no worker crashes in the middle of writing and no write fails, they generate at most once. */
  lemma GeneratesAtMostOnce(file: Option<Bytes>, jobs: seq<Job>, steps: seq<Step>, s: System, fingerprint: Bytes)
    requires Sound(jobs) && OneFingerprint(jobs, fingerprint) && Matching(file, fingerprint).None?
    requires Run(file, jobs, steps) == Some(s) && Losses(file, jobs, steps) == 0
    ensures s.generations <= 1 && |s.phases| == |jobs|
    ensures (exists w :: 0 <= w < |jobs| && s.phases[w].Done?) ==> s.generations == 1
  {
    GenerationsAreCounted(file, jobs, steps, s, fingerprint);
  }

  // ----- Workers get their digests -----

  /** A holder that found the file matching, or has just replaced it, still has it so: nobody else can touch it. */
  ghost predicate HeldFile(s: System, jobs: seq<Job>) {
    forall w :: 0 <= w < |s.phases| == |jobs| && (s.phases[w].Hit? || s.phases[w].Replaced?) ==>
      Matching(s.file, jobs[w].fingerprint) == Some(jobs[w].digests)
  }

  lemma StepKeepsHeldFile(s: System, original: Option<Bytes>, jobs: seq<Job>, step: Step)
    requires Sound(jobs) && Inv(s, original, jobs) && HeldFile(s, jobs) && Enabled(s, jobs, step)
    ensures HeldFile(Next(s, jobs, step), jobs)
  {
    hide Encoded, Decoded, WholeFile;
    var w, s' := step.w, Next(s, jobs, step);
    assert PhaseFits(s.phases[w], jobs[w]);
    if step.Replace? {
      var tmp := s.phases[w].tmp;
      assert tmp == Encoded(jobs[w].File()) by {
        assert tmp == Encoded(jobs[w].File())[..|tmp|];
      }
      WrittenIsTruthful(jobs, w);
      hide Matching, Truthful, Sound;
      assert forall v :: 0 <= v < |jobs| && v != w ==> !HoldsLock(s'.phases[v]);
    } else {
      TruthfulRead(s.file, jobs, w);
      hide Matching, Truthful, Sound;
      assert s'.file == s.file;
    }
  }

  lemma {:induction false} RunsKeepHeldFile(file: Option<Bytes>, jobs: seq<Job>, steps: seq<Step>)
    requires Sound(jobs) && Truthful(file, jobs) && Run(file, jobs, steps).Some?
    ensures HeldFile(Run(file, jobs, steps).value, jobs)
  {
    if steps != [] {
      var before := steps[..|steps| - 1];
      RunsKeepInv(file, jobs, before);
      RunsKeepHeldFile(file, jobs, before);
      hide Inv, HeldFile, Enabled, Next;
      StepKeepsHeldFile(Run(file, jobs, before).value, file, jobs, steps[|steps| - 1]);
    }
  }

  lemma RunOn(file: Option<Bytes>, jobs: seq<Job>, steps: seq<Step>, step: Step)
    requires Run(file, jobs, steps).Some? && Enabled(Run(file, jobs, steps).value, jobs, step)
    ensures Run(file, jobs, steps + [step]) == Some(Next(Run(file, jobs, steps).value, jobs, step))
  {
    assert (steps + [step])[..|steps|] == steps;
    hide Enabled, Next;
  }

  /** How many more steps a worker needs at most. */
  function Ahead(p: Phase, job: Job): nat {
    match p
    case Starting => 7
    case Missed => 6
    case Locked => 5
    case Generating => 4
    case Writing(tmp) => if |tmp| < |Encoded(job.File())| then 3 else 2
    case Replaced => 1
    case Hit(_) => 1
    case _ => 0
  }

  /** Its own next step, if nothing goes wrong. */
  function Onward(p: Phase, w: nat, job: Job): Step {
    match p
    case Starting => FirstRead(w)
    case Missed => Acquire(w)
    case Locked => SecondRead(w)
    case Generating => Generate(w)
    case Writing(tmp) =>
      if |tmp| < |Encoded(job.File())| then WriteMore(w, |Encoded(job.File())| - |tmp|) else Replace(w)
    case _ => Release(w)
  }

  /** A worker that is under way, and can have the lock when it needs it. */
  predicate UnderWay(s: System, w: nat) {
    w < |s.phases| && !s.phases[w].Done? && !s.phases[w].Failed? && !s.phases[w].Crashed?
    && (HoldsLock(s.phases[w]) || s.lock.None?)
  }

  ghost predicate OwnStep(step: Step, w: nat) { step.w == w && !step.Crash? && !step.WriteFails? && !step.TimeOut? }

  /** What its next step makes of a worker within its cap. */
  lemma OnwardStep(s: System, original: Option<Bytes>, jobs: seq<Job>, w: nat)
    requires Sound(jobs) && Inv(s, original, jobs) && HeldFile(s, jobs) && UnderWay(s, w)
    requires |jobs[w].digests| <= jobs[w].maxDigests
    ensures var step := Onward(s.phases[w], w, jobs[w]);
            && OwnStep(step, w) && Enabled(s, jobs, step)
            && var s' := Next(s, jobs, step);
               if s'.phases[w].Done?
               then Matching(s'.file, jobs[w].fingerprint) == Some(jobs[w].digests)
                    && s'.phases[w].result == jobs[w].digests
               else UnderWay(s', w) && Ahead(s'.phases[w], jobs[w]) < Ahead(s.phases[w], jobs[w])
  {
    hide Encoded, Decoded, WholeFile, Sound;
    assert PhaseFits(s.phases[w], jobs[w]);
    TruthfulRead(s.file, jobs, w);
    hide Matching, Truthful;
    if s.phases[w].Writing? {
      var tmp, full := s.phases[w].tmp, Encoded(jobs[w].File());
      assert full[..|full|] == full && |tmp| <= |full|;
    }
  }

  /** Returned its own digests, which are now in the file. */
  predicate Finished(s: System, w: nat, job: Job) {
    w < |s.phases| && s.phases[w] == Done(job.digests) && s.file == Some(Encoded(job.File()))
  }

  lemma OneStepOn(file: Option<Bytes>, jobs: seq<Job>, steps: seq<Step>, w: nat) returns (step: Step)
    requires Sound(jobs) && Truthful(file, jobs) && Run(file, jobs, steps).Some? && w < |jobs|
    requires UnderWay(Run(file, jobs, steps).value, w) && |jobs[w].digests| <= jobs[w].maxDigests
    ensures OwnStep(step, w) && Run(file, jobs, steps + [step]).Some?
    ensures var s, s' := Run(file, jobs, steps).value, Run(file, jobs, steps + [step]).value;
            || Finished(s', w, jobs[w])
            || (UnderWay(s', w) && Ahead(s'.phases[w], jobs[w]) < Ahead(s.phases[w], jobs[w]))
  {
    var s := Run(file, jobs, steps).value;
    RunsKeepInv(file, jobs, steps);
    RunsKeepHeldFile(file, jobs, steps);
    OnwardStep(s, file, jobs, w);
    step := Onward(s.phases[w], w, jobs[w]);
    RunOn(file, jobs, steps, step);
    hide Encoded, Run, Ahead, Onward, Inv, HeldFile, Enabled;
    var s' := Next(s, jobs, step);
    hide Next;
    if s'.phases[w].Done? {
      MatchingIsWriting(s'.file, jobs[w]);
    }
  }

  /** From every state of every run, a worker within its cap that is under way and can have the lock has a run of its
      own steps that ends with its digests in hand and in the file. */
  lemma WorkerFinishes(file: Option<Bytes>, jobs: seq<Job>, steps: seq<Step>, w: nat) returns (more: seq<Step>)
    requires Sound(jobs) && Truthful(file, jobs) && Run(file, jobs, steps).Some? && w < |jobs|
    requires UnderWay(Run(file, jobs, steps).value, w) && |jobs[w].digests| <= jobs[w].maxDigests
    ensures forall step :: step in more ==> OwnStep(step, w)
    ensures Run(file, jobs, steps + more).Some? && Finished(Run(file, jobs, steps + more).value, w, jobs[w])
    decreases Ahead(Run(file, jobs, steps).value.phases[w], jobs[w])
  {
    hide Encoded, Run, Ahead, Finished;
    var step := OneStepOn(file, jobs, steps, w);
    if Finished(Run(file, jobs, steps + [step]).value, w, jobs[w]) {
      more := [step];
    } else {
      var rest := WorkerFinishes(file, jobs, steps + [step], w);
      more := [step] + rest;
      assert steps + more == steps + [step] + rest;
    }
  }

  /** A file that matches a job is its writing, byte for byte. */
  lemma MatchingIsWriting(file: Option<Bytes>, job: Job)
    requires Matching(file, job.fingerprint) == Some(job.digests)
    ensures file == Some(Encoded(job.File()))
  {
    hide Encoded, Decoded;
    AcceptedIsWritten(file.value);
  }

  /** In every reachable state generation fails if and only if there are more digests than the cap allows; then the lock
      is free again and the file is as it was. */
  lemma GenerateFailsExactly(file: Option<Bytes>, jobs: seq<Job>, steps: seq<Step>, w: nat)
    requires Run(file, jobs, steps).Some? && Enabled(Run(file, jobs, steps).value, jobs, Generate(w))
    ensures Run(file, jobs, steps + [Generate(w)]).Some?
    ensures var s, s' := Run(file, jobs, steps).value, Run(file, jobs, steps + [Generate(w)]).value;
            && w < |s'.phases|
            && (s'.phases[w] == Failed <==> |jobs[w].digests| > jobs[w].maxDigests)
            && (s'.phases[w] == Failed ==> s'.lock == None && s'.file == s.file && s'.generations == s.generations)
            && (s'.phases[w] != Failed ==> s'.phases[w] == Writing([]) && s'.generations == s.generations + 1)
  {
    RunOn(file, jobs, steps, Generate(w));
  }

  /** Whatever any worker does, only its own phase moves; and only a replacement changes the file, to a whole one of its
      own. */
  lemma OthersUntouched(file: Option<Bytes>, jobs: seq<Job>, steps: seq<Step>, step: Step)
    requires Sound(jobs) && Truthful(file, jobs)
    requires Run(file, jobs, steps).Some? && Enabled(Run(file, jobs, steps).value, jobs, step)
    ensures Run(file, jobs, steps + [step]).Some?
    ensures var s, s', w := Run(file, jobs, steps).value, Run(file, jobs, steps + [step]).value, step.w;
            && |s'.phases| == |s.phases| && (forall v :: 0 <= v < |s.phases| && v != w ==> s'.phases[v] == s.phases[v])
            && s'.file == (if step.Replace? then Some(Encoded(jobs[w].File())) else s.file)
  {
    RunOn(file, jobs, steps, step);
    RunsKeepInv(file, jobs, steps);
    hide Run, Encoded, Decoded, WholeFile, Truthful, Sound;
    var p, all := Run(file, jobs, steps).value.phases[step.w], Encoded(jobs[step.w].File());
    assert PhaseFits(p, jobs[step.w]);
    if step.Replace? {
      assert p.tmp == all[..|p.tmp|] == all;
    }
  }

  /** A worker that gives up, or dies, hands the lock back if it had it, and has nothing to return. */
  lemma GivingUp(file: Option<Bytes>, jobs: seq<Job>, steps: seq<Step>, step: Step)
    requires Run(file, jobs, steps).Some? && Enabled(Run(file, jobs, steps).value, jobs, step)
    requires step.TimeOut? || step.WriteFails? || step.Crash?
    ensures var s := Run(file, jobs, steps).value;
            && step.w < |s.phases|
            && Run(file, jobs, steps + [step]) ==
               Some(System(s.file, if HoldsLock(s.phases[step.w]) then None else s.lock,
                           s.phases[step.w := if step.Crash? then Crashed else Failed], s.generations))
  {
    RunOn(file, jobs, steps, step);
  }

  /** A worker that is waiting can give up, one that is writing can fail to, and any that has not ended can die. */
  lemma AnyoneCanFail(s: System, jobs: seq<Job>, w: nat)
    requires w < |s.phases| == |jobs|
    ensures Enabled(s, jobs, TimeOut(w)) <==> s.phases[w] == Missed
    ensures Enabled(s, jobs, WriteFails(w)) <==> exists tmp :: s.phases[w] == Writing(tmp)
    ensures !Enabled(s, jobs, Crash(w)) <==>
              s.phases[w] == Failed || s.phases[w] == Crashed || exists digests :: s.phases[w] == Done(digests)
  {
  }

  /** A file with the worker's fingerprint is returned as it is: at once, or to one that had to wait for the lock. */
  lemma ReadyFileIsReturned(file: Option<Bytes>, jobs: seq<Job>, steps: seq<Step>, w: nat, f: CacheFile)
    requires Run(file, jobs, steps).Some? && w < |jobs| == |Run(file, jobs, steps).value.phases|
    requires f.WellSized() && f.fingerprint == jobs[w].fingerprint
    requires Run(file, jobs, steps).value.file == Some(Encoded(f))
    ensures var s := Run(file, jobs, steps).value;
            && (s.phases[w].Starting? ==>
                  Run(file, jobs, steps + [FirstRead(w)]) == Some(s.(phases := s.phases[w := Done(f.digests)])))
            && (s.phases[w].Locked? ==>
                  Run(file, jobs, steps + [SecondRead(w)] + [Release(w)]) ==
                  Some(s.(lock := None, phases := s.phases[w := Done(f.digests)])))
  {
    ReadUndoesWrite(f);
    hide Encoded, Decoded, Run;
    var s := Run(file, jobs, steps).value;
    if s.phases[w].Starting? {
      RunOn(file, jobs, steps, FirstRead(w));
    }
    if s.phases[w].Locked? {
      RunOn(file, jobs, steps, SecondRead(w));
      RunOn(file, jobs, steps + [SecondRead(w)], Release(w));
      assert s.phases[w := Hit(f.digests)][w := Done(f.digests)] == s.phases[w := Done(f.digests)];
    }
  }

  /** Any other file is a miss: the worker goes on to wait for the lock, or with the lock to generate. */
  lemma OtherFileIsMissed(file: Option<Bytes>, jobs: seq<Job>, steps: seq<Step>, w: nat)
    requires Run(file, jobs, steps).Some? && w < |jobs| == |Run(file, jobs, steps).value.phases|
    requires forall f: CacheFile :: f.WellSized() && f.fingerprint == jobs[w].fingerprint ==>
               Run(file, jobs, steps).value.file != Some(Encoded(f))
    ensures var s := Run(file, jobs, steps).value;
            && (s.phases[w].Starting? ==>
                  Run(file, jobs, steps + [FirstRead(w)]) == Some(s.(phases := s.phases[w := Missed])))
            && (s.phases[w].Locked? ==>
                  Run(file, jobs, steps + [SecondRead(w)]) == Some(s.(phases := s.phases[w := Generating])))
  {
    var s := Run(file, jobs, steps).value;
    if s.file.Some? && Decoded(s.file.value).Some? {
      AcceptedIsWritten(s.file.value);
      var f := Decoded(s.file.value).value;
      assert f.WellSized() && s.file == Some(Encoded(f));
    }
    hide Encoded, Decoded, Run;
    if s.phases[w].Starting? {
      RunOn(file, jobs, steps, FirstRead(w));
    }
    if s.phases[w].Locked? {
      RunOn(file, jobs, steps, SecondRead(w));
    }
  }
}
