/** The strength scorer and its child processes.  Source: amiweak/strength.py.
    Children are kept forever, with the queue their reader thread fills, so that a line arriving late from a killed
    child is part of the model.  What children and the operating system do is a script of moves given to each call. */
module Strength {
  import opened Wrappers
  import opened CheckBase

  const RESPAWN_BACKOFF_SECONDS := 5.0

  /** A spawned process: requests written to it, how many it has dealt with, and its own output queue. */
  datatype Child = Child(alive: bool, requests: seq<string>, handled: nat, queue: seq<string>) {
    predicate Fits() { handled <= |requests| }

    /** Nothing outstanding and nothing unread. */
    predicate Quiet() { handled == |requests| && queue == [] }
  }

  /** What child i may do at any moment: answer its oldest open request, drop it, or die.  Answers already under
      way may still arrive after death. */
  datatype Move =
    | Reply(i: nat)
    | Skip(i: nat)
    | Die(i: nat)

  /** The answer line a worker gives to a password. */
  type Worker = string -> string

  function Moved(c: Child, m: Move, answer: Worker): Child {
    match m
    case Die(_) => c.(alive := false)
    case Skip(_) => if c.handled < |c.requests| then c.(handled := c.handled + 1) else c
    case Reply(_) =>
      if c.handled < |c.requests|
          then c.(handled := c.handled + 1, queue := c.queue + [answer(c.requests[c.handled])]) else c
  }

  function Happened(children: seq<Child>, moves: seq<Move>, answer: Worker): (r: seq<Child>)
    ensures |r| == |children|
  {
    if moves == [] then children
    else
      var before, m := Happened(children, moves[..|moves| - 1], answer), moves[|moves| - 1];
      if m.i < |before| then before[m.i := Moved(before[m.i], m, answer)] else before
  }

  /** How child i deals with its requests, oldest first: answered or dropped. */
  function Dealings(moves: seq<Move>, i: nat): (r: seq<Move>)
    ensures forall m :: m in r <==> m in moves && m.i == i && !m.Die?
  {
    if moves == [] then []
    else
      var m := moves[|moves| - 1];
      Dealings(moves[..|moves| - 1], i) + if m.i == i && !m.Die? then [m] else []
  }

  /** The answers to those of the requests that were answered, in the order they were asked. */
  function Answered(requests: seq<string>, dealings: seq<Move>, answer: Worker): seq<string>
    requires |dealings| <= |requests|
  {
    if dealings == [] then []
    else
      var n := |dealings| - 1;
      Answered(requests, dealings[..n], answer) + if dealings[n].Reply? then [answer(requests[n])] else []
  }

  /** The child after dealing with as many of its open requests as it has, and after dying if it did. */
  function Dealt(was: Child, dealings: seq<Move>, died: bool, answer: Worker): Child
    requires was.Fits()
  {
    var room := |was.requests| - was.handled;
    var done := if |dealings| <= room then dealings else dealings[..room];
    Child(was.alive && !died, was.requests, was.handled + |done|,
          was.queue + Answered(was.requests[was.handled..], done, answer))
  }

  lemma OneMoreDealt(was: Child, dealings: seq<Move>, m: Move, died: bool, answer: Worker)
    requires was.Fits() && !m.Die?
    ensures Moved(Dealt(was, dealings, died, answer), m, answer) == Dealt(was, dealings + [m], died, answer)
  {
    var room, more, open := |was.requests| - was.handled, dealings + [m], was.requests[was.handled..];
    assert more[..|dealings|] == dealings;
    if |dealings| < room {
      assert open[|dealings|] == was.requests[was.handled + |dealings|];
      assert Answered(open, dealings, answer) + [] == Answered(open, dealings, answer);
      hide Answered;
      AnsweredOneMore(open, dealings, m, answer);
    } else {
      assert more[..room] == dealings[..room];
      hide Answered;
    }
  }

  lemma AnsweredOneMore(open: seq<string>, dealings: seq<Move>, m: Move, answer: Worker)
    requires |dealings| < |open|
    ensures Answered(open, dealings + [m], answer) ==
            Answered(open, dealings, answer) + if m.Reply? then [answer(open[|dealings|])] else []
  {
    assert (dealings + [m])[..|dealings|] == dealings;
  }

  /** A child deals with its open requests one at a time and in order, whatever else happens; its queue gains exactly
      the answers, and it is alive until it dies. */
  lemma {:induction false} ChildrenKeepOrder(children: seq<Child>, moves: seq<Move>, answer: Worker, i: nat)
    requires i < |children| && children[i].Fits()
    ensures Happened(children, moves, answer)[i] == Dealt(children[i], Dealings(moves, i), Die(i) in moves, answer)
  {
    var was, open := children[i], Dealings(moves, i);
    if moves == [] {
      assert was.queue + [] == was.queue;
    } else {
      var n := |moves| - 1;
      var m, before := moves[n], Dealings(moves[..n], i);
      ChildrenKeepOrder(children, moves[..n], answer, i);
      assert moves == moves[..n] + [m];
      if m.i == i && !m.Die? {
        OneMoreDealt(was, before, m, Die(i) in moves[..n], answer);
        hide Dealt, Moved;
      } else {
        assert open == before + [] == before;
      }
    }
  }

  /** json.loads of a line, as far as `score` looks at it. */
  datatype Payload = NotJson | Scored(score: int) | Unscored

  type Parser = string -> Payload

  /** Exactly one of the two is set. */
  datatype ScoreResult = ScoreResult(score: Option<int>, error: Option<string>)

  function Interpreted(line: string, parse: Parser): ScoreResult {
    match parse(line)
    case NotJson => ScoreResult(None, Some(ERROR_INTERNAL))
    case Scored(n) => ScoreResult(Some(n), None)
    case Unscored => ScoreResult(None, Some(ERROR_INTERNAL))
  }

  /** What a caller must be told of a reply: its score, or that there is none. */
  ghost predicate Graded(r: ScoreResult, reply: Payload) {
    && (forall n :: reply == Scored(n) ==> r == ScoreResult(Some(n), None))
    && (reply.NotJson? || reply.Unscored? ==> r == ScoreResult(None, Some("internal")))
  }

  /** One call and everything that happens around it.  The two clock readings never run backwards. */
  datatype Call = Call(password: string, before: seq<Move>, now: real, spawns: bool, writes: bool, during: seq<Move>,
      later: real)

  class StrengthScorer {
    const answer: Worker
    const parse: Parser
    var children: seq<Child>
    var process: Option<nat>
    var outQueue: nat
    var lastSpawnFailure: Option<real>
    /** The latest clock reading, and every time recorded in `lastSpawnFailure`. */
    ghost var clock: real
    ghost var failures: seq<real>

    ghost predicate Valid()
      reads this
    {
      && AllFit() && Recorded()
      && (process.Some? ==> process.value < |children| && outQueue == process.value && children[process.value].Quiet())
      && (process.Some? && children[process.value].alive ==> BackedOff())
    }

    ghost predicate AllFit()
      reads this`children
    {
      forall i :: 0 <= i < |children| ==> children[i].Fits()
    }

    ghost predicate Recorded()
      reads this`failures, this`lastSpawnFailure, this`clock
    {
      && Spaced(failures)
      && (lastSpawnFailure.None? <==> failures == [])
      && (lastSpawnFailure.Some? ==> lastSpawnFailure.value == failures[|failures| - 1] <= clock)
    }

    ghost predicate BackedOff()
      reads this`lastSpawnFailure, this`clock
    {
      lastSpawnFailure.Some? ==> clock - lastSpawnFailure.value >= RESPAWN_BACKOFF_SECONDS
    }

    constructor (answer: Worker, parse: Parser)
      ensures Valid() && this.answer == answer && this.parse == parse && failures == [] && children == []
    {
      this.answer, this.parse := answer, parse;
      children, process, outQueue, lastSpawnFailure := [], None, 0, None;
      clock, failures := 0.0, [];
    }

    /** Let the moves happen.  A quiet child stays quiet; one with a single open request ends up with at most that
        request's answer. */
    method Happen(moves: seq<Move>)
      requires forall i :: 0 <= i < |children| ==> children[i].Fits()
      modifies this`children
      ensures children == Happened(old(children), moves, answer)
      ensures forall i :: 0 <= i < |children| ==> children[i].Fits() && After(old(children)[i], children[i])
    {
      for k := 0 to |moves|
        invariant children == Happened(old(children), moves[..k], answer)
        invariant forall i :: 0 <= i < |children| ==>
                  old(children)[i].Fits() && children[i].Fits() && After(old(children)[i], children[i])
      {
        assert moves[..k + 1][..k] == moves[..k];
        var i := moves[k].i;
        if i < |children| {
          OneMove(old(children)[i], children[i], moves[k]);
          children := children[i := Moved(children[i], moves[k], answer)];
        }
      }
      assert moves[..|moves|] == moves;
    }

    /** What moves can make of a child that was quiet, or quiet but for one request. */
    ghost predicate After(was: Child, now: Child) {
      && now.requests == was.requests && now.handled >= was.handled
      && (now.alive ==> was.alive)
      && (was.Quiet() ==> now.Quiet())
      && (was.queue == [] && was.handled + 1 == |was.requests| ==>
            (now.queue == [] || (now.queue == [answer(was.requests[was.handled])] && now.handled == |now.requests|)))
    }

    lemma OneMove(was: Child, mid: Child, m: Move)
      requires was.Fits() && mid.Fits() && After(was, mid)
      ensures Moved(mid, m, answer).Fits() && After(was, Moved(mid, m, answer))
    {
      if was.queue == [] && was.handled + 1 == |was.requests| && mid.queue == [] && m.Reply?
          && mid.handled < |mid.requests| {
        assert mid.handled == was.handled;
        assert [] + [answer(mid.requests[mid.handled])] == [answer(was.requests[was.handled])];
      }
    }

    /** The child the next call talks to when nothing happens before it. */
    ghost function Target(): nat
      requires Valid()
      reads this
    {
      if process.Some? && children[process.value].alive then process.value else |children|
    }

    method EnsureRunning(now: real, spawns: bool) returns (running: bool)
      requires Valid() && now >= clock
      modifies this`children, this`process, this`outQueue, this`lastSpawnFailure, this`clock, this`failures
      ensures Valid() && old(clock) <= clock <= now
      ensures running ==> process == Some(old(Target())) && children[process.value].alive && BackedOff()
      ensures running <==> (old(process).Some? && old(children)[old(process).value].alive)
                           || (spawns && (old(lastSpawnFailure).Some? ==>
                               now - old(lastSpawnFailure).value >= 5.0))
      ensures |children| >= |old(children)| && children[..|old(children)|] == old(children)
      ensures running && |children| > |old(children)| ==>
                process == Some(|old(children)|) && children == old(children) + [Child(true, [], 0, [])]
                    && failures == old(failures)
      ensures !running ==>
                && process == old(process) && children == old(children)
                && failures == if old(lastSpawnFailure).Some? && now - old(lastSpawnFailure).value < 5.0
                               then old(failures) else old(failures) + [now]
      ensures running && |children| == |old(children)| ==> process == old(process) && failures == old(failures)
    {
      if process.Some? && children[process.value].alive {
        return true;
      }
      clock := now;
      if lastSpawnFailure.Some? && now - lastSpawnFailure.value < RESPAWN_BACKOFF_SECONDS {
        return false;
      }
      if !spawns {
        lastSpawnFailure := Some(now);
        failures := failures + [now];
        return false;
      }
      process := Some(|children|);
      outQueue := |children|;
      children := children + [Child(true, [], 0, [])];
      running := true;
    }

    method Kill()
      requires process.Some? ==> process.value < |children|
      modifies this`children, this`process
      ensures process == None && |children| == |old(children)|
      ensures forall i :: 0 <= i < |children| ==>
                children[i] == if old(process) == Some(i) then old(children)[i].(alive := false) else old(children)[i]
    {
      if process.Some? {
        children := children[process.value := children[process.value].(alive := false)];
        process := None;
      }
    }

    /** Nothing stands in the way of this call: the pipe works, and a child can be spawned if need be. */
    ghost predicate Able(call: Call)
      reads this`lastSpawnFailure
    {
      call.writes && call.spawns
          && (lastSpawnFailure.Some? ==> call.now - lastSpawnFailure.value >= 5.0)
    }

    /** A score returned for a password is what the worker's own answer to that password says; and two times recorded
        as spawn failure or timeout are at least the backoff apart. */
    method Score(call: Call) returns (r: ScoreResult)
      requires Valid() && clock <= call.now <= call.later
      modifies this
      ensures Valid() && clock <= call.later && old(failures) <= failures
      ensures r.score.Some? != r.error.Some?
      ensures r.score.Some? ==> parse(answer(call.password)) == Scored(r.score.value)
      ensures old(Able(call)) ==> Graded(r, parse(answer(call.password))) || r == ScoreResult(None, Some("timeout"))
      ensures old(Able(call) && call.before == [] && call.during == [Reply(Target())]) ==>
                && Graded(r, parse(answer(call.password))) && Target() == old(Target()) && BackedOff()
                && process == Some(old(Target())) && failures == old(failures)
      ensures r.error == Some("timeout") ==> process == None && failures == old(failures) + [call.later]
      ensures !old(Able(call)) && call.before == [] && old(Target()) == |old(children)| ==>
                r == ScoreResult(None, Some("internal"))
      ensures !call.writes ==> r == ScoreResult(None, Some("internal"))
    {
      Happen(call.before);
      var running := EnsureRunning(call.now, call.spawns);
      if !running {
        return ScoreResult(None, Some(ERROR_INTERNAL));
      }
      r := Ask(call);
    }

    /** One round trip with the running child. */
    method Ask(call: Call) returns (r: ScoreResult)
      requires Valid() && process.Some? && BackedOff() && clock <= call.later
      modifies this
      ensures Valid() && clock <= call.later && old(failures) <= failures
      ensures r.score.Some? != r.error.Some?
      ensures r.score.Some? ==> parse(answer(call.password)) == Scored(r.score.value)
      ensures r.error == Some("timeout") ==> process == None && failures == old(failures) + [call.later]
      ensures call.writes ==> Graded(r, parse(answer(call.password))) || r == ScoreResult(None, Some("timeout"))
      ensures !call.writes ==> r == ScoreResult(None, Some("internal"))
      ensures call.writes && call.during == [Reply(old(process).value)] ==>
                && Graded(r, parse(answer(call.password))) && failures == old(failures)
                && lastSpawnFailure == old(lastSpawnFailure) && clock == old(clock)
                && process == old(process) && |children| == |old(children)|
                && children[process.value].alive == old(children)[process.value].alive
    {
      var i := process.value;
      children := children[i := children[i].(requests := children[i].requests + [call.password])];
      if !call.writes {
        Kill();
        return ScoreResult(None, Some(ERROR_INTERNAL));
      }
      ghost var asked := children;
      Happen(call.during);
      assert After(asked[i], children[i]);
      if call.during == [Reply(i)] {
        PromptReply(asked, i, answer);
      }
      r := Collect(call.password, call.later);
    }

    /** The queue read: the one line there, or a timeout. */
    method Collect(password: string, later: real) returns (r: ScoreResult)
      requires AllFit() && Recorded() && BackedOff() && clock <= later
      requires process == Some(outQueue) && outQueue < |children|
      requires children[outQueue].queue == [] ||
               (children[outQueue].queue == [answer(password)]
                   && children[outQueue].handled == |children[outQueue].requests|)
      modifies this
      ensures Valid() && clock <= later && old(failures) <= failures
      ensures r.score.Some? != r.error.Some?
      ensures r.score.Some? ==> parse(answer(password)) == Scored(r.score.value)
      ensures r.error == Some("timeout") ==> process == None && failures == old(failures) + [later]
      ensures old(children[outQueue].queue) == [] ==> r == ScoreResult(None, Some("timeout"))
      ensures old(children[outQueue].queue) != [] ==>
                && Graded(r, parse(answer(password))) && failures == old(failures)
                && lastSpawnFailure == old(lastSpawnFailure) && clock == old(clock)
                && process == old(process) && |children| == |old(children)|
                && children[outQueue].alive == old(children)[outQueue].alive && outQueue == old(outQueue)
    {
      if children[outQueue].queue == [] {
        Kill();
        clock := later;
        lastSpawnFailure := Some(later);
        failures := failures + [later];
        return ScoreResult(None, Some(ERROR_TIMEOUT));
      }
      var line := children[outQueue].queue[0];
      children := children[outQueue := children[outQueue].(queue := children[outQueue].queue[1..])];
      r := Interpreted(line, parse);
    }

    method Close()
      requires Valid()
      modifies this`children, this`process
      ensures Valid() && process == None
    {
      Kill();
    }

    /** Calls to a healthy worker: nothing happens but one reply to each, from the child it went to. */
    ghost predicate AllPrompt(calls: seq<Call>, target: nat) {
      forall k :: 0 <= k < |calls| ==>
        calls[k].before == [] && calls[k].spawns && calls[k].writes && calls[k].during == [Reply(target)]
    }

    /** Any run of calls: every score is the worker's answer to that very password; and from any state in which a child
        runs or may be spawned, calls to a healthy worker are all graded by its answers. */
    method Serve(calls: seq<Call>) returns (results: seq<ScoreResult>)
      requires Valid()
      requires forall k :: 0 <= k < |calls| ==> calls[k].now <= calls[k].later && clock <= calls[k].now
      requires forall j, k :: 0 <= j < k < |calls| ==> calls[j].later <= calls[k].now
      modifies this
      ensures Valid() && |results| == |calls| && old(failures) <= failures && Spaced(failures)
      ensures forall k :: 0 <= k < |calls| && results[k].score.Some? ==>
                parse(answer(calls[k].password)) == Scored(results[k].score.value)
      ensures calls != [] && old(Able(calls[0])) && old(AllPrompt(calls, Target())) ==>
                && failures == old(failures)
                && forall k :: 0 <= k < |calls| ==> Graded(results[k], parse(answer(calls[k].password)))
    {
      ghost var prompt := calls != [] && Able(calls[0]) && AllPrompt(calls, Target());
      ghost var target := Target();
      results := [];
      for k := 0 to |calls|
        invariant Valid() && |results| == k && old(failures) <= failures
        invariant forall j :: k <= j < |calls| ==> clock <= calls[j].now
        invariant forall j :: 0 <= j < k && results[j].score.Some? ==>
                    parse(answer(calls[j].password)) == Scored(results[j].score.value)
        invariant prompt ==> failures == old(failures) && Target() == target && (k > 0 ==> BackedOff())
        invariant prompt && k == 0 ==> Able(calls[0])
        invariant prompt ==> forall j :: 0 <= j < k ==> Graded(results[j], parse(answer(calls[j].password)))
      {
        var r := Score(calls[k]);
        results := results + [r];
      }
    }
  }

  lemma PromptReply(children: seq<Child>, i: nat, answer: Worker)
    requires i < |children| && children[i].handled < |children[i].requests| && children[i].queue == []
    ensures Happened(children, [Reply(i)], answer)[i].queue == [answer(children[i].requests[children[i].handled])]
  {
    assert [Reply(i)][..0] == [];
    assert Happened(children, [Reply(i)][..0], answer) == children;
  }

  /** Consecutive recorded failures lie at least the backoff apart. */
  predicate Spaced(failures: seq<real>) {
    forall k :: 0 < k < |failures| ==> failures[k] - failures[k - 1] >= 5.0
  }

  /** So n failures in a row take at least (n - 1) backoffs. */
  lemma {:induction false} FailuresTakeTime(failures: seq<real>, i: nat, j: nat)
    requires Spaced(failures) && i <= j < |failures|
    ensures failures[j] - failures[i] >= (j - i) as real * 5.0
    decreases j
  {
    if i < j {
      FailuresTakeTime(failures, i, j - 1);
    }
  }
}
