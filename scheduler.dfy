/**
 * The work queues of `MainLoop` and one pass of the loop in `MainLoop::run`, on values: two FIFO
 * queues (inbound messages, asynchronous calls) and the exit flag. Locking, waiting and waking
 * are left out; a pass runs as one sequential step.
 */
module Scheduler {
  import opened Optional
  import opened Messages

  /** A deferred call scheduled by a plugin thread: the function and its data, both opaque. */
  datatype AsyncCall = AsyncCall(fn: nat, data: nat)

  /** `m_messagesIn`, `m_AsyncCalls` and `m_needsToExit`. */
  datatype Queues = Queues(messagesIn: seq<MessageInfo>, asyncCalls: seq<AsyncCall>, exit: bool)

  /** How a pass ends: the loop returns, blocks waiting for work, or did some work. */
  datatype Iteration = Exited | Blocked | Worked

  /** One pass: the queues afterwards, the call invoked and the message dispatched, if any. */
  datatype StepResult = StepResult(
    next: Queues,
    invoked: Option<AsyncCall>,
    dispatched: Option<MessageInfo>,
    outcome: Iteration)

  /**
   * A pass is defined unless it pops an empty deque: with an inbound message waiting, line 228
   * pops `m_AsyncCalls` once more after the call it may already have taken.
   */
  predicate StepDefined(q: Queues)
  {
    q.exit || q.messagesIn == [] || |q.asyncCalls| >= 2
  }

  /**
   * One pass of `run`, as written: stop if exit is set; otherwise invoke the front async call,
   * if any; then read the front inbound message without removing it and pop `m_AsyncCalls` again.
   */
  function Step(q: Queues): (s: StepResult)
    requires StepDefined(q)
    ensures s.dispatched.Some? ==> q.messagesIn != [] && s.dispatched.value == q.messagesIn[0]
    ensures s.next.messagesIn == q.messagesIn && s.next.exit == q.exit
    ensures !q.exit && q.messagesIn == [] && q.asyncCalls != [] ==>
      s == StepResult(Queues(q.messagesIn, q.asyncCalls[1..], q.exit), Some(q.asyncCalls[0]), None, Worked)
    ensures !q.exit && q.messagesIn == [] && q.asyncCalls == [] ==> s == StepResult(q, None, None, Blocked)
    ensures !q.exit && q.messagesIn != [] ==> s.outcome == Worked
  {
    if q.exit then StepResult(q, None, None, Exited)
    else if q.messagesIn == [] && q.asyncCalls == [] then StepResult(q, None, None, Blocked)
    else
      var invoked := if q.asyncCalls != [] then Some(q.asyncCalls[0]) else None;
      var calls := if q.asyncCalls != [] then q.asyncCalls[1..] else q.asyncCalls;
      if q.messagesIn != [] then
        StepResult(Queues(q.messagesIn, calls[1..], q.exit), invoked, Some(q.messagesIn[0]), Worked)
      else
        StepResult(Queues(q.messagesIn, calls, q.exit), invoked, None, Worked)
  }

  /**
   * With exit set, a pass stops without draining anything; otherwise it invokes at most one
   * call, and it never consumes an inbound message.
   */
  lemma StepSummary(q: Queues)
    requires StepDefined(q)
    ensures var s := Step(q);
      && (q.exit ==> s.next == q && s.invoked.None? && s.dispatched.None? && s.outcome == Exited)
      && (!q.exit && q.asyncCalls != [] ==> s.invoked == Some(q.asyncCalls[0]))
      && (!q.exit && q.messagesIn != [] ==> s.dispatched == Some(q.messagesIn[0]))
      && s.next.messagesIn == q.messagesIn
  {
  }

  /** With a message waiting, the second async call is popped without ever being invoked. */
  lemma SecondCallDropped(q: Queues)
    requires !q.exit && q.messagesIn != [] && |q.asyncCalls| >= 2
    ensures Step(q).invoked == Some(q.asyncCalls[0])
    ensures Step(q).next.asyncCalls == q.asyncCalls[2..]
  {
  }

  /** A lone inbound message with no async call makes the pass pop an empty deque. */
  lemma LoneMessageUndefined(m: MessageInfo)
    ensures !StepDefined(Queues([m], [], false))
  {
  }

  /**
   * `k` passes of the written loop, as long as they stay defined: with no inbound message every
   * pass is; with one waiting, each pass pops two deferred calls.
   */
  function Run(q: Queues, k: nat): (t: seq<StepResult>)
    requires !q.exit && (q.messagesIn == [] || |q.asyncCalls| >= 2 * k)
    ensures |t| == k
    decreases k
  {
    if k == 0 then [] else var s := Step(q); [s] + Run(s.next, k - 1)
  }

  /** The first written pass, then the passes that follow from its queues. */
  lemma RunUnfold(q: Queues, k: nat, i: nat)
    requires !q.exit && (q.messagesIn == [] || |q.asyncCalls| >= 2 * k)
    requires 0 < i < k
    ensures Run(q, k)[0] == Step(q)
    ensures Run(q, k)[i] == Run(Step(q).next, k - 1)[i - 1]
  {
  }

  /**
   * The written loop dispatches the same front message on every pass and invokes only every
   * other async call: the calls at odd positions are discarded.
   */
  lemma {:induction false} RunRepeatsHead(q: Queues, k: nat)
    requires !q.exit && q.messagesIn != [] && |q.asyncCalls| >= 2 * k
    ensures forall i :: 0 <= i < k ==>
      Run(q, k)[i].dispatched == Some(q.messagesIn[0])
      && Run(q, k)[i].invoked == Some(q.asyncCalls[2 * i])
    decreases k
  {
    if k > 0 {
      var s := Step(q);
      SecondCallDropped(q);
      assert Run(q, k)[0] == s;
      RunRepeatsHead(s.next, k - 1);
      forall i | 0 <= i < k
        ensures Run(q, k)[i].dispatched == Some(q.messagesIn[0])
        ensures Run(q, k)[i].invoked == Some(q.asyncCalls[2 * i])
      {
        if i > 0 {
          RunUnfold(q, k, i);
          assert q.asyncCalls[2..][2 * (i - 1)] == q.asyncCalls[2 * i];
        }
      }
    }
  }

  /**
   * With no inbound message the written loop invokes the waiting deferred calls one per pass,
   * in order, and then blocks; it never dispatches anything.
   */
  lemma {:induction false} RunWithoutMessages(q: Queues, k: nat)
    requires !q.exit && q.messagesIn == []
    ensures forall i :: 0 <= i < k ==>
      && Run(q, k)[i].dispatched.None?
      && (i < |q.asyncCalls| ==> Run(q, k)[i].invoked == Some(q.asyncCalls[i]) && Run(q, k)[i].outcome == Worked)
      && (i >= |q.asyncCalls| ==> Run(q, k)[i].invoked.None? && Run(q, k)[i].outcome == Blocked)
    decreases k
  {
    if k > 0 {
      var s := Step(q);
      assert Run(q, k)[0] == s;
      RunWithoutMessages(s.next, k - 1);
      forall i | 0 < i < k
        ensures Run(q, k)[i] == Run(s.next, k - 1)[i - 1]
      {
        RunUnfold(q, k, i);
      }
      if q.asyncCalls != [] {
        assert s.next.asyncCalls == q.asyncCalls[1..];
        forall i | 0 < i < |q.asyncCalls|
          ensures s.next.asyncCalls[i - 1] == q.asyncCalls[i]
        {
        }
      } else {
        assert s.next == q;
      }
    }
  }

  /** One pass as intended: line 228 pops the inbound queue, so the message read is consumed. */
  function IntendedStep(q: Queues): (s: StepResult)
    ensures s.dispatched.Some? ==> q.messagesIn != [] && s.dispatched.value == q.messagesIn[0]
  {
    if q.exit then StepResult(q, None, None, Exited)
    else if q.messagesIn == [] && q.asyncCalls == [] then StepResult(q, None, None, Blocked)
    else
      var invoked := if q.asyncCalls != [] then Some(q.asyncCalls[0]) else None;
      var calls := if q.asyncCalls != [] then q.asyncCalls[1..] else q.asyncCalls;
      if q.messagesIn != [] then
        StepResult(Queues(q.messagesIn[1..], calls, q.exit), invoked, Some(q.messagesIn[0]), Worked)
      else
        StepResult(Queues(q.messagesIn, calls, q.exit), invoked, None, Worked)
  }

  /**
   * Passes of the intended loop while plugin threads keep scheduling: before pass i the calls
   * `arrivals[i]` join the back of the async queue.
   */
  function RunIntended(q: Queues, arrivals: seq<seq<AsyncCall>>): (t: seq<StepResult>)
    ensures |t| == |arrivals|
    decreases |arrivals|
  {
    if arrivals == [] then []
    else
      var s := IntendedStep(q.(asyncCalls := q.asyncCalls + arrivals[0]));
      [s] + RunIntended(s.next, arrivals[1..])
  }

  /** An intended pass that does not exit takes the front of each non-empty queue. */
  lemma IntendedStepFronts(q: Queues)
    requires !q.exit
    ensures var s := IntendedStep(q);
      && !s.next.exit
      && (q.messagesIn != [] ==>
            s.dispatched == Some(q.messagesIn[0]) && s.next.messagesIn == q.messagesIn[1..])
      && (q.asyncCalls != [] ==>
            s.invoked == Some(q.asyncCalls[0]) && s.next.asyncCalls == q.asyncCalls[1..])
  {
  }

  /** The first intended pass, then the passes that follow from its queues. */
  lemma RunIntendedUnfold(q: Queues, arrivals: seq<seq<AsyncCall>>, i: nat)
    requires 0 < i < |arrivals|
    ensures var s := IntendedStep(q.(asyncCalls := q.asyncCalls + arrivals[0]));
      && RunIntended(q, arrivals)[0] == s
      && RunIntended(q, arrivals)[i] == RunIntended(s.next, arrivals[1..])[i - 1]
  {
  }

  /**
   * Fairness of the intended loop: however many calls arrive, pass i dispatches the i-th waiting
   * message and invokes the i-th waiting call, so neither queue starves the other.
   */
  lemma {:induction false} IntendedRunIsFair(q: Queues, arrivals: seq<seq<AsyncCall>>)
    requires !q.exit
    ensures var t := RunIntended(q, arrivals);
      && (forall i :: 0 <= i < |arrivals| && i < |q.messagesIn| ==> t[i].dispatched == Some(q.messagesIn[i]))
      && (forall i :: 0 <= i < |arrivals| && i < |q.asyncCalls| ==> t[i].invoked == Some(q.asyncCalls[i]))
    decreases |arrivals|
  {
    if arrivals != [] {
      var q0 := q.(asyncCalls := q.asyncCalls + arrivals[0]);
      var s := IntendedStep(q0);
      var t := RunIntended(q, arrivals);
      assert t[0] == s;
      IntendedStepFronts(q0);
      IntendedRunIsFair(s.next, arrivals[1..]);
      forall i | 0 <= i < |arrivals| && i < |q.messagesIn|
        ensures t[i].dispatched == Some(q.messagesIn[i])
      {
        if i > 0 {
          RunIntendedUnfold(q, arrivals, i);
          assert q.messagesIn[1..][i - 1] == q.messagesIn[i];
        }
      }
      forall i | 0 <= i < |arrivals| && i < |q.asyncCalls|
        ensures t[i].invoked == Some(q.asyncCalls[i])
      {
        if i > 0 {
          RunIntendedUnfold(q, arrivals, i);
          assert q0.asyncCalls[1..][i - 1] == q.asyncCalls[i];
        }
      }
    }
  }
}
