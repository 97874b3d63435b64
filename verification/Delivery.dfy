/** The sender of src/communicate.cpp gets done: left alone, the worker writes all that was
    pushed and runs what was attached, and then waiting ends. */
module Delivery {
  import opened Communicators

  /** The state after the steps, one after the other. */
  function After(s: State, steps: seq<Step>, batchSize: nat): State
    decreases |steps|
  {
    if steps == [] then s else After(Next(s, steps[0], batchSize), steps[1..], batchSize)
  }

  predicate CanTake(s: State, steps: seq<Step>, batchSize: nat)
    decreases |steps|
  {
    steps == [] || (Enabled(s, steps[0]) && CanTake(Next(s, steps[0], batchSize), steps[1..], batchSize))
  }

  lemma {:induction false} TakeMore(s: State, steps: seq<Step>, more: seq<Step>, batchSize: nat)
    requires CanTake(s, steps, batchSize) && CanTake(After(s, steps, batchSize), more, batchSize)
    ensures CanTake(s, steps + more, batchSize)
    ensures After(s, steps + more, batchSize) == After(After(s, steps, batchSize), more, batchSize)
    decreases |steps|
  {
    hide Next, Enabled;
    if steps == [] {
      assert [] + more == more;
    } else {
      TakeMore(Next(s, steps[0], batchSize), steps[1..], more, batchSize);
      assert (steps + more)[0] == steps[0] && (steps + more)[1..] == steps[1..] + more;
    }
  }

  /** How far the worker is from being done with what it has in hand. */
  function Rank(s: State): nat {
    match s.worker
    case Writing(_) => 5
    case Completing(_) => 4
    case Top => if s.queue == [] then 0 else 3
    case Entered => 2
    case Locking => 1
    case Finished => 0
  }

  function Left(s: State): nat {
    match s.worker
    case Writing(i) => if i <= |s.staged| then |s.staged| - i else 0
    case Completing(i) => if i <= |s.staged| then |s.staged| - i else 0
    case _ => 0
  }

  function Tokens(s: State): nat {
    if s.worker.Completing? && s.worker.done < |s.staged| then |Of(s.tokens, s.staged[s.worker.done])| else 0
  }

  lemma WorkGoesDown(s: State, batchSize: nat)
    requires BlocksInv(s) && s.needed && batchSize > 0 && s.worker != Finished
    requires s.worker != Top || s.queue != []
    ensures
      var s' := WorkerNext(s, batchSize);
      && s'.needed && s'.worker != Finished && s'.pushed == s.pushed && s'.waiter == s.waiter
      && (|s'.queue| < |s.queue|
          || (|s'.queue| == |s.queue|
              && (Rank(s') < Rank(s)
                  || (Rank(s') == Rank(s)
                      && (Left(s') < Left(s) || (Left(s') == Left(s) && Tokens(s') < Tokens(s)))))))
  {
  }

  /** The worker alone: as long as it is needed, so many of its steps write every block that was
      pushed, once and in order, and run each token that a block had been given before. */
  lemma {:induction false} WorkerDelivers(s: State, batchSize: nat) returns (steps: seq<Step>)
    requires Inv(s) && s.needed && batchSize > 0
    ensures CanTake(s, steps, batchSize) && forall e :: e in steps ==> e == Work
    ensures
      var s' := After(s, steps, batchSize);
      && Inv(s') && s'.needed && s'.pushed == s.pushed && s'.waiter == s.waiter && s'.worker == Top && s'.queue == []
      && s'.written == s.pushed && |s'.due| == |s.pushed|
      && forall k | 0 <= k < |s.pushed| :: s'.due[k] <= |Of(s'.ran, s.pushed[k])|
    decreases |s.queue|, Rank(s), Left(s), Tokens(s)
  {
    hide Next, WorkerNext, TokensInv;
    if s.worker == Top && s.queue == [] {
      steps := [];
      assert s.completed + [] + [] == s.completed;
    } else {
      WorkGoesDown(s, batchSize);
      NextWork(s, batchSize);
      StepKeeps(s, Work, batchSize);
      var rest := WorkerDelivers(WorkerNext(s, batchSize), batchSize);
      steps := [Work] + rest;
      assert steps[1..] == rest;
    }
  }

  lemma NextWork(s: State, batchSize: nat)
    ensures Next(s, Work, batchSize) == WorkerNext(s, batchSize)
  {
  }

  /** From any reached state in which waiting has not seen the queue empty there are steps by
      which it ends, with everything written. */
  lemma WaitEnds(states: seq<State>, taken: seq<Step>, batchSize: nat, n: nat) returns (steps: seq<Step>)
    requires IsRun(states, taken, batchSize) && n <= |taken| && batchSize > 0
    requires states[n].waiter in {Elsewhere, Looking, SawBlocks}
    ensures CanTake(states[n], steps, batchSize) && forall e :: e in steps ==> e == Work || e == Wait
    ensures
      var s' := After(states[n], steps, batchSize);
      && s'.waiter.Joined? && s'.worker == Finished && s'.pushed == states[n].pushed == s'.written
  {
    hide Inv, After, CanTake, WorkerNext, Next, Enabled;
    RunKeeps(states, taken, batchSize, n);
    NeverGivesUp(states, taken, batchSize, n);
    var s := states[n];
    var work := WorkerDelivers(s, batchSize);
    var s1 := After(s, work, batchSize);
    var end := Ending(s1, batchSize);
    TakeMore(s, work, end, batchSize);
    steps := work + end;
  }

  /** The worker has nothing in hand and the queue is empty: waiting looks, tells the worker, and
      joins it. */
  lemma Ending(s: State, batchSize: nat) returns (steps: seq<Step>)
    requires s.needed && s.worker == Top && s.queue == [] && s.waiter in {Elsewhere, Looking, SawBlocks}
    ensures CanTake(s, steps, batchSize) && forall e :: e in steps ==> e == Work || e == Wait
    ensures
      var s' := After(s, steps, batchSize);
      s'.waiter.Joined? && s'.worker == Finished && s'.pushed == s.pushed && s'.written == s.written
  {
    if s.waiter == Looking {
      steps := JoinedFrom(s, batchSize);
    } else {
      var s1 := Next(s, Wait, batchSize);
      var rest := JoinedFrom(s1, batchSize);
      steps := [Wait] + rest;
      assert steps[1..] == rest;
    }
  }

  lemma JoinedFrom(s: State, batchSize: nat) returns (steps: seq<Step>)
    requires s.needed && s.worker == Top && s.queue == [] && s.waiter == Looking
    ensures CanTake(s, steps, batchSize) && forall e :: e in steps ==> e == Work || e == Wait
    ensures
      var s' := After(s, steps, batchSize);
      s'.waiter.Joined? && s'.worker == Finished && s'.pushed == s.pushed && s'.written == s.written
  {
    steps := [Wait, Wait, Work, Wait];
    var s1 := Next(s, Wait, batchSize);
    var s2 := Next(s1, Wait, batchSize);
    var s3 := Next(s2, Work, batchSize);
    var s4 := Next(s3, Wait, batchSize);
    Unfolds(s, s1, s2, s3, s4, batchSize);
  }

  lemma Unfolds(s: State, s1: State, s2: State, s3: State, s4: State, batchSize: nat)
    requires Enabled(s, Wait) && s1 == Next(s, Wait, batchSize) && Enabled(s1, Wait) && s2 == Next(s1, Wait, batchSize)
    requires Enabled(s2, Work) && s3 == Next(s2, Work, batchSize)
    requires Enabled(s3, Wait) && s4 == Next(s3, Wait, batchSize)
    ensures CanTake(s, [Wait, Wait, Work, Wait], batchSize) && After(s, [Wait, Wait, Work, Wait], batchSize) == s4
  {
    hide Next, Enabled;
    var a: seq<Step>, b: seq<Step>, c: seq<Step>, d: seq<Step> :=
      [Wait, Wait, Work, Wait], [Wait, Work, Wait], [Work, Wait], [Wait];
    assert a[1..] == b && b[1..] == c && c[1..] == d && d[1..] == [];
    assert After(s3, d, batchSize) == s4 && CanTake(s3, d, batchSize);
    assert After(s2, c, batchSize) == s4 && CanTake(s2, c, batchSize);
    assert After(s1, b, batchSize) == s4 && CanTake(s1, b, batchSize);
  }
}
