/** The caller's side of the comparison mode as the object it is: its counters and lists are
    updated step by step, and each method is a step of the protocol. */
module ComparisonCaller {
  import opened Comparison
  import Protocol = ComparisonRuns
  import opened SeqLaws
  import opened Wrappers

  function NotDone(futures: seq<nat>, done: set<nat>): (kept: seq<nat>)
    ensures forall f :: f in kept <==> f in futures && f !in done
  {
    if futures == [] then []
    else
      HeadTail(futures);
      (if futures[0] in done then [] else [futures[0]]) + NotDone(futures[1..], done)
  }

  lemma {:induction false} NoneKept(futures: seq<nat>, done: set<nat>)
    requires forall f <- futures :: f in done
    ensures NotDone(futures, done) == []
  {
    if futures != [] {
      assert futures[0] in futures;
      NoneKept(futures[1..], done);
    }
  }

  /** What the caller of a command gets: the answer or exception of the primary side as it is, or
      the error of an executor that takes no more work. */
  datatype Answer = Given(primary: Protocol.Primary) | Refused

  class ComparisonMode {
    const strategy: Protocol.Strategy
    var counters: map<string, nat>
    var jobs: seq<Job>
    var queue: seq<nat>
    var pending: seq<nat>
    /** The executor has been shut down. */
    var closed: bool
    /** The futures that are done, and those that are done with an exception. */
    var done: set<nat>
    var torn: set<nat>
    ghost var calls: seq<Protocol.Call>
    ghost var running: set<nat>
    ghost var log: seq<Protocol.Entry>
    ghost var offered: nat

    ghost function View(): Protocol.State
      reads this
    {
      Protocol.State(counters, calls, jobs, queue, running, done, torn, pending, log,
                     if closed then Some(offered) else None)
    }

    constructor (strategy: Protocol.Strategy)
      ensures this.strategy == strategy && View() == Protocol.Initial()
    {
      this.strategy := strategy;
      counters, jobs, queue, pending, closed, done, torn := map[], [], [], [], false, {}, {};
      calls, running, log, offered := [], {}, [], 0;
    }

    /** Counts the call of `command`; the first is number 0. */
    method NextOccurrence(command: string) returns (n: nat)
      modifies this`counters
      ensures n == Protocol.NextOccurrence(old(View()), command)
      ensures counters == old(counters)[command := n + 1]
    {
      n := if command in counters then counters[command] else 0;
      counters := counters[command := n + 1];
    }

    /** Submits the comparison to the executor and remembers its future, unless the executor takes
        no more work. */
    method Schedule(command: string, params: string, now: Option<Fields>) returns (taken: bool)
      modifies this`jobs, this`queue, this`pending
      ensures taken <==> !closed
      ensures if taken then
                && jobs == old(jobs) + [Job(command, params, now)]
                && queue == old(queue) + [|old(jobs)|] && pending == old(pending) + [|old(jobs)|]
              else jobs == old(jobs) && queue == old(queue) && pending == old(pending)
    {
      if closed {
        return false;
      }
      queue, pending := queue + [|jobs|], pending + [|jobs|];
      jobs := jobs + [Job(command, params, now)];
      return true;
    }

    /** Runs one command on the new engine. The caller gets the primary's answer or exception if and
        only if the mode is open, the call is not sampled, or the primary was torn down: after
        closing, scheduling fails in place of a sampled call's answer. */
    method Run(call: Protocol.Call) returns (answer: Answer)
      modifies this
      ensures View() == Protocol.Next(old(View()), strategy, Protocol.RunCall(call))
      ensures answer.Given? ==> answer.primary == call.primary
      ensures answer.Given? <==>
                || !old(closed)
                || !Protocol.EnabledFor(strategy, call.command, Protocol.NextOccurrence(old(View()), call.command))
                || call.primary.TornDown?
    {
      var occurrence := NextOccurrence(call.command);
      var compare := Protocol.EnabledFor(strategy, call.command, occurrence);
      calls := calls + [call];
      answer := Given(call.primary);
      var taken := true;
      match call.primary {
        case Answers(e) =>
          if compare {
            taken := Schedule(call.command, call.params, Normalize(call.command, e));
          }
        case Raises(text) =>
          if compare {
            taken := Schedule(call.command, call.params, Some(FromException(text)));
          }
        case TornDown =>
      }
      if !taken {
        answer := Refused;
      }
    }

    /** Every future is done by the time the wait has come to it. */
    ghost predicate InTime()
      reads this
    {
      forall i :: 0 <= i <= |pending| && Protocol.WellBefore(View(), i) ==> i == |pending| || pending[i] in done
    }

    /** Blocks on the futures one after another; the first that failed raises and leaves all of them
        pending, otherwise none is left. */
    method Wait() returns (raised: bool)
      requires InTime()
      modifies this`pending
      ensures raised <==> Protocol.Enabled(old(View()), 1, Protocol.WaitRaises)
      ensures !raised <==> Protocol.Enabled(old(View()), 1, Protocol.WaitReturns)
      ensures View() == Protocol.Next(old(View()), strategy, if raised then Protocol.WaitRaises else Protocol.WaitReturns)
    {
      var i := 0;
      while i < |pending|
        invariant 0 <= i <= |pending| && pending == old(pending) && Protocol.WellBefore(View(), i)
      {
        assert pending[i] in done;
        if pending[i] in torn {
          assert !Protocol.WellBefore(View(), i + 1);
          return true;
        }
        i := i + 1;
      }
      forall f | f in pending ensures f in done {
        var k :| 0 <= k < |pending| && pending[k] == f;
      }
      NoneKept(pending, done);
      pending := NotDone(pending, done);
      return false;
    }

    /** Waits, and only when that succeeds shuts the executor down. */
    method Close() returns (raised: bool)
      requires InTime()
      modifies this
      ensures raised <==> Protocol.Enabled(old(View()), 1, Protocol.WaitRaises)
      ensures View() == if raised then old(View()) else Protocol.Next(old(View()), strategy, Protocol.Close)
    {
      raised := Wait();
      if !raised {
        offered := if closed then offered else |calls|;
        closed := true;
      }
    }
  }

  /** The error does take the answer's place: a mode is opened and closed, and then a command that
      is compared is run. */
  method RunAfterClose(strategy: Protocol.Strategy, call: Protocol.Call) returns (answer: Answer)
    requires Protocol.On(strategy, call.command) && !call.primary.TornDown?
    ensures answer == Refused
  {
    var mode := new ComparisonMode(strategy);
    var raised := mode.Close();
    answer := mode.Run(call);
  }
}
