/** The batched sender of src/communicate.cpp and the completion tokens of src/block.cpp:
    first one batch, as the code that a single thread runs; then, over all interleavings, the
    worker thread, the thread that waits for it, and those that push blocks and attach
    tokens. */
module Communicators {
  import opened Bytes

  type Token = nat

  // ---- one batch ----

  class QueuedBlock {
    var actQueue: seq<Token>
    ghost var ran: seq<Token>

    constructor ()
      ensures actQueue == [] && ran == []
    {
      actQueue, ran := [], [];
    }

    method Attach(act: Token)
      modifies `actQueue
      ensures actQueue == old(actQueue) + [act]
    {
      actQueue := actQueue + [act];
    }

    /** `completion_action`: runs the tokens in the order in which they were attached. */
    method CompletionAction()
      modifies this
      ensures actQueue == [] && ran == old(ran) + old(actQueue)
    {
      while actQueue != []
        invariant ran + actQueue == old(ran) + old(actQueue)
        decreases |actQueue|
      {
        ran := ran + [actQueue[0]];
        actQueue := actQueue[1..];
      }
    }
  }

  class Communicator {
    const batchSize: nat
    var queue: seq<QueuedBlock>
    ghost var written: seq<QueuedBlock>

    constructor (testing: bool)
      ensures batchSize == (if testing then 3 else 100) && queue == [] && written == []
    {
      batchSize := if testing then 3 else 100;
      queue, written := [], [];
    }

    method Push(b: QueuedBlock)
      modifies `queue
      ensures queue == old(queue) + [b]
    {
      queue := queue + [b];
    }

    /** `comm_batch`, undisturbed: the first blocks are written in the order in which they were
        pushed, each as often as it was pushed; then all their tokens have run, in order. */
    method CommBatch()
      modifies this, queue
      ensures
        var n := Min(|old(queue)|, batchSize);
        queue == old(queue)[n..] && written == old(written) + old(queue)[..n]
      ensures forall b | b in old(queue) ::
        if b in old(queue)[..Min(|old(queue)|, batchSize)]
        then b.actQueue == [] && b.ran == old(b.ran) + old(b.actQueue)
        else b.actQueue == old(b.actQueue) && b.ran == old(b.ran)
    {
      var n := Min(|queue|, batchSize);
      var staged: seq<QueuedBlock> := [];
      ghost var q := queue;
      var i := 0;
      while i < n
        invariant 0 <= i <= n && staged == q[..i] && queue == q[i..] && written == old(written)
        invariant forall b | b in q :: b.actQueue == old(b.actQueue) && b.ran == old(b.ran)
      {
        staged := staged + [queue[0]];
        queue := queue[1..];
        i := i + 1;
      }
      i := 0;
      while i < |staged|
        invariant 0 <= i <= |staged| && written == old(written) + staged[..i] && queue == q[n..]
        invariant forall b | b in q :: b.actQueue == old(b.actQueue) && b.ran == old(b.ran)
      {
        written := written + [staged[i]];
        i := i + 1;
      }
      i := 0;
      while i < |staged|
        invariant 0 <= i <= |staged| && written == old(written) + staged && queue == q[n..]
        invariant forall b | b in q ::
          if b in staged[..i] then b.actQueue == [] && b.ran == old(b.ran) + old(b.actQueue)
          else b.actQueue == old(b.actQueue) && b.ran == old(b.ran)
      {
        assert staged[i] in staged && staged[..i + 1] == staged[..i] + [staged[i]];
        staged[i].CompletionAction();
        i := i + 1;
      }
      assert staged[..i] == staged;
    }
  }

  // ---- all interleavings ----

  type BlockId = nat

  datatype Worker =
    | Top                    // before the test of `m_needed`
    | Entered                // before the first look at the queue, without the lock
    | Locking
    | Writing(done: nat)
    | Completing(done: nat)
    | Finished

  /** `tested` is the number of blocks that were pushed before the queue was seen empty. */
  datatype Waiter =
    | Elsewhere
    | Looking
    | SawBlocks
    | SawEmpty(tested: nat)
    | Joining(tested: nat)
    | Joined(tested: nat)
    | GaveUp

  /** `pushed`, `completed`, `written`, `attached`, `ran` and `due` are history; `due` is, for
      each push, how many tokens the block had been given before. */
  datatype State = State(
    queue: seq<BlockId>, staged: seq<BlockId>, needed: bool, worker: Worker, waiter: Waiter,
    tokens: map<BlockId, seq<Token>>,
    pushed: seq<BlockId>, completed: seq<BlockId>, written: seq<BlockId>,
    attached: map<BlockId, seq<Token>>, ran: map<BlockId, seq<Token>>, due: seq<nat>)

  function Of(m: map<BlockId, seq<Token>>, b: BlockId): seq<Token> {
    if b in m then m[b] else []
  }

  datatype Step =
    | Push(b: BlockId)
    | Attach(b: BlockId, act: Token)
    | Work                   // the next action of the worker
    | Wait                   // the next action of the thread that waits

  predicate Enabled(s: State, e: Step) {
    match e
    case Push(_) => true
    case Attach(_, _) => true
    case Work => s.worker != Finished
    case Wait => !s.waiter.Joined? && !s.waiter.GaveUp? && (s.waiter.Joining? ==> s.worker == Finished)
  }

  function WorkerNext(s: State, batchSize: nat): State {
    match s.worker
    case Top => s.(worker := if s.needed then Entered else Finished)
    case Entered => s.(worker := if s.queue == [] then Top else Locking)
    case Locking =>
      if s.queue == [] then s.(worker := Top)
      else
        var n := Min(|s.queue|, batchSize);
        s.(staged := s.queue[..n], queue := s.queue[n..], worker := Writing(0))
    case Writing(i) =>
      if i < |s.staged| then s.(written := s.written + [s.staged[i]], worker := Writing(i + 1))
      else s.(worker := Completing(0))
    case Completing(i) =>
      if i >= |s.staged| then s.(completed := s.completed + s.staged, staged := [], worker := Top)
      else
        var b := s.staged[i];
        var acts := Of(s.tokens, b);
        if acts == [] then s.(worker := Completing(i + 1))
        else s.(tokens := s.tokens[b := acts[1..]], ran := s.ran[b := Of(s.ran, b) + [acts[0]]])
    case Finished => s
  }

  function WaiterNext(s: State): State {
    match s.waiter
    case Elsewhere => s.(waiter := Looking)
    case Looking => s.(waiter := if s.queue == [] then SawEmpty(|s.pushed|) else SawBlocks)
    case SawBlocks => s.(waiter := if s.needed then Looking else GaveUp)
    case SawEmpty(n) => s.(needed := false, waiter := Joining(n))
    case Joining(n) => s.(waiter := Joined(n))
    case _ => s
  }

  function Next(s: State, e: Step, batchSize: nat): State {
    match e
    case Push(b) =>
      s.(queue := s.queue + [b], pushed := s.pushed + [b], due := s.due + [|Of(s.attached, b)|])
    case Attach(b, act) =>
      s.(tokens := s.tokens[b := Of(s.tokens, b) + [act]], attached := s.attached[b := Of(s.attached, b) + [act]])
    case Work => WorkerNext(s, batchSize)
    case Wait => WaiterNext(s)
  }

  const INITIAL: State := State([], [], true, Top, Elsewhere, map[], [], [], [], map[], map[], [])

  ghost predicate IsRun(states: seq<State>, steps: seq<Step>, batchSize: nat) {
    && |states| == |steps| + 1 && states[0] == INITIAL
    && forall i | 0 <= i < |steps| ::
         Enabled(states[i], steps[i]) && states[i + 1] == Next(states[i], steps[i], batchSize)
  }

  /** How many staged blocks are written, and how many have no token left. */
  function WrittenOf(s: State): nat {
    match s.worker
    case Writing(i) => i
    case Completing(_) => |s.staged|
    case _ => 0
  }

  function CompletedOf(s: State): nat {
    if s.worker.Completing? then s.worker.done else 0
  }

  /** Each push is completed, staged or queued, in order; written are the completed ones and
      a beginning of the staged ones. */
  ghost predicate BlocksInv(s: State) {
    && s.pushed == s.completed + s.staged + s.queue
    && WrittenOf(s) <= |s.staged| && CompletedOf(s) <= |s.staged|
    && s.written == s.completed + s.staged[..WrittenOf(s)]
    && (!s.worker.Writing? && !s.worker.Completing? ==> s.staged == [])
  }

  /** Each token has run or is waiting, in the order of attaching; tokens run only on blocks
      that are written. */
  ghost predicate TokensInv(s: State) {
    && (forall b: BlockId :: Of(s.attached, b) == Of(s.ran, b) + Of(s.tokens, b))
    && (forall b: BlockId :: Of(s.ran, b) != [] ==> b in s.written)
  }

  /** The tokens attached before a push that is completed, or about to be, have run. */
  ghost predicate DueInv(s: State) {
    && |s.due| == |s.pushed| && |s.completed| + CompletedOf(s) <= |s.pushed|
    && (forall k | 0 <= k < |s.pushed| :: s.due[k] <= |Of(s.attached, s.pushed[k])|)
    && (forall k | 0 <= k < |s.completed| + CompletedOf(s) :: s.due[k] <= |Of(s.ran, s.pushed[k])|)
  }

  /** The worker ends only when it is told to, between two batches; what had been pushed when
      the queue was seen empty is then in hand.  Only the waiting thread tells it, on its way to
      the join, so that it never finds the worker told by anybody else. */
  ghost predicate WaitInv(s: State) {
    && (s.needed <==> !s.waiter.Joining? && !s.waiter.Joined?) && !s.waiter.GaveUp?
    && (s.worker == Finished ==> !s.needed)
    && (s.waiter.Joined? ==> s.worker == Finished)
    && (s.waiter.SawEmpty? || s.waiter.Joining? || s.waiter.Joined? ==>
          s.waiter.tested <= |s.completed| + |s.staged|)
  }

  ghost predicate Inv(s: State) {
    BlocksInv(s) && TokensInv(s) && DueInv(s) && WaitInv(s)
  }

  /** A batch is staged. */
  lemma StageKeeps(s: State, batchSize: nat)
    requires BlocksInv(s) && s.worker == Locking && s.queue != []
    ensures BlocksInv(WorkerNext(s, batchSize))
  {
    var n := Min(|s.queue|, batchSize);
    assert s.queue[..n] + s.queue[n..] == s.queue;
    assert s.completed + [] + s.queue == s.completed + s.queue[..n] + s.queue[n..];
    assert s.queue[..n][..0] == [];
  }

  lemma WriteKeeps(s: State, batchSize: nat)
    requires BlocksInv(s) && s.worker.Writing?
    ensures BlocksInv(WorkerNext(s, batchSize))
  {
    var i := s.worker.done;
    if i < |s.staged| {
      assert s.staged[..i + 1] == s.staged[..i] + [s.staged[i]];
      assert s.completed + s.staged[..i + 1] == s.completed + s.staged[..i] + [s.staged[i]];
    }
  }

  lemma CompleteKeeps(s: State, batchSize: nat)
    requires BlocksInv(s) && s.worker.Completing?
    ensures BlocksInv(WorkerNext(s, batchSize))
  {
    assert s.staged[..|s.staged|] == s.staged;
    var all := s.completed + s.staged;
    assert all + [] == all;
  }

  lemma WorkKeepsBlocks(s: State, batchSize: nat)
    requires BlocksInv(s)
    ensures BlocksInv(WorkerNext(s, batchSize))
  {
    match s.worker {
      case Locking =>
        if s.queue != [] {
          hide BlocksInv, WorkerNext;
          StageKeeps(s, batchSize);
        }
      case Writing(_) =>
        hide BlocksInv, WorkerNext;
        WriteKeeps(s, batchSize);
      case Completing(_) =>
        hide BlocksInv, WorkerNext;
        CompleteKeeps(s, batchSize);
      case _ =>
    }
  }

  lemma Updated(m: map<BlockId, seq<Token>>, b: BlockId, acts: seq<Token>)
    ensures forall c: BlockId :: Of(m[b := acts], c) == if c == b then acts else Of(m, c)
  {
    forall c: BlockId ensures Of(m[b := acts], c) == if c == b then acts else Of(m, c) {
    }
  }

  /** The worker runs the first token of the block it is at. */
  predicate RunsToken(s: State) {
    s.worker.Completing? && s.worker.done < |s.staged| && Of(s.tokens, s.staged[s.worker.done]) != []
  }

  /** What the invariants of the tokens speak of. */
  predicate SameTokens(s: State, s': State) {
    s'.tokens == s.tokens && s'.ran == s.ran && s'.attached == s.attached && s.written <= s'.written
  }

  lemma SameKeepsTokens(s: State, s': State)
    requires TokensInv(s) && SameTokens(s, s')
    ensures TokensInv(s')
  {
    forall b: BlockId | Of(s'.ran, b) != [] ensures b in s'.written {
      assert b in s.written;
    }
  }

  lemma WorkKeepsTokens(s: State, batchSize: nat)
    requires BlocksInv(s) && TokensInv(s)
    ensures TokensInv(WorkerNext(s, batchSize))
  {
    hide TokensInv, BlocksInv;
    if RunsToken(s) {
      RunKeepsTokens(s, batchSize);
    } else {
      LeavesTokens(s, batchSize);
      hide WorkerNext;
      SameKeepsTokens(s, WorkerNext(s, batchSize));
    }
  }

  lemma LeavesTokens(s: State, batchSize: nat)
    requires !RunsToken(s)
    ensures SameTokens(s, WorkerNext(s, batchSize))
  {
  }

  lemma RunKeepsTokens(s: State, batchSize: nat)
    requires BlocksInv(s) && TokensInv(s) && RunsToken(s)
    ensures TokensInv(WorkerNext(s, batchSize))
  {
    hide Of;
    var i := s.worker.done;
    var b := s.staged[i];
    var acts, ran := Of(s.tokens, b), Of(s.ran, b);
    WrittenHas(s, i);
    Updated(s.tokens, b, acts[1..]);
    Updated(s.ran, b, ran + [acts[0]]);
    assert ran + acts == ran + [acts[0]] + acts[1..];
  }

  lemma WrittenHas(s: State, i: nat)
    requires BlocksInv(s) && s.worker.Completing? && i < |s.staged|
    ensures s.staged[i] in s.written && |s.completed| + i < |s.pushed| && s.pushed[|s.completed| + i] == s.staged[i]
  {
    assert s.written[|s.completed| + i] == s.staged[i];
  }

  /** A block whose tokens have all run has had those run that were attached before its push. */
  lemma WorkKeepsDue(s: State, batchSize: nat)
    requires BlocksInv(s) && TokensInv(s) && DueInv(s)
    ensures DueInv(WorkerNext(s, batchSize))
  {
    hide Of;
    if RunsToken(s) {
      var b := s.staged[s.worker.done];
      Updated(s.ran, b, Of(s.ran, b) + [Of(s.tokens, b)[0]]);
    } else if s.worker.Completing? && s.worker.done < |s.staged| {
      WrittenHas(s, s.worker.done);
      var b := s.staged[s.worker.done];
      assert |Of(s.attached, b)| == |Of(s.ran, b)| + |Of(s.tokens, b)|;
    }
  }

  lemma AttachKeeps(s: State, b: BlockId, act: Token)
    requires TokensInv(s) && DueInv(s)
    ensures TokensInv(Next(s, Attach(b, act), 0)) && DueInv(Next(s, Attach(b, act), 0))
  {
    hide Of;
    var tokens, attached := Of(s.tokens, b), Of(s.attached, b);
    Updated(s.tokens, b, tokens + [act]);
    Updated(s.attached, b, attached + [act]);
    assert attached + [act] == Of(s.ran, b) + (tokens + [act]);
  }

  lemma PushKeeps(s: State, b: BlockId)
    requires Inv(s)
    ensures Inv(Next(s, Push(b), 0))
  {
    PushKeepsBlocks(s, b);
    var s' := Next(s, Push(b), 0);
    hide BlocksInv;
    PushKeepsDue(s, b);
    hide DueInv;
    assert TokensInv(s') && WaitInv(s') by {
      hide Of;
    }
  }

  lemma PushKeepsBlocks(s: State, b: BlockId)
    requires BlocksInv(s)
    ensures BlocksInv(Next(s, Push(b), 0))
  {
    assert s.pushed + [b] == s.completed + s.staged + (s.queue + [b]);
  }

  lemma PushKeepsDue(s: State, b: BlockId)
    requires DueInv(s)
    ensures DueInv(Next(s, Push(b), 0))
  {
    hide Of;
  }

  lemma WaitKeeps(s: State)
    requires Inv(s) && Enabled(s, Wait)
    ensures Inv(WaiterNext(s))
  {
    var s' := WaiterNext(s);
    OnlyWaits(s);
    WaitKeepsWait(s);
    hide WaiterNext, WaitInv;
    assert DueInv(s') && BlocksInv(s');
    hide BlocksInv, DueInv;
    SameKeepsTokens(s, s');
  }

  lemma OnlyWaits(s: State)
    ensures WaiterNext(s) == s.(needed := WaiterNext(s).needed, waiter := WaiterNext(s).waiter)
  {
  }

  lemma WaitKeepsWait(s: State)
    requires BlocksInv(s) && WaitInv(s) && Enabled(s, Wait)
    ensures WaitInv(WaiterNext(s))
  {
  }

  lemma StepKeeps(s: State, e: Step, batchSize: nat)
    requires Inv(s) && Enabled(s, e)
    ensures Inv(Next(s, e, batchSize))
  {
    match e {
      case Push(b) =>
        PushKeeps(s, b);
      case Attach(b, act) =>
        hide TokensInv, DueInv;
        AttachKeeps(s, b, act);
      case Work =>
        hide TokensInv, DueInv, BlocksInv, WaitInv, WorkerNext;
        WorkKeepsBlocks(s, batchSize);
        WorkKeepsTokens(s, batchSize);
        WorkKeepsDue(s, batchSize);
        WorkKeepsWait(s, batchSize);
      case Wait =>
        WaitKeeps(s);
    }
  }

  lemma WorkKeepsWait(s: State, batchSize: nat)
    requires BlocksInv(s) && WaitInv(s) && s.worker != Finished
    ensures WaitInv(WorkerNext(s, batchSize))
  {
  }

  lemma {:induction false} RunKeeps(states: seq<State>, steps: seq<Step>, batchSize: nat, n: nat)
    requires IsRun(states, steps, batchSize) && n <= |steps|
    ensures Inv(states[n])
  {
    hide Inv, Enabled, Next;
    if n == 0 {
      InitialInv();
    } else {
      RunKeeps(states, steps, batchSize, n - 1);
      StepKeeps(states[n - 1], steps[n - 1], batchSize);
    }
  }

  lemma InitialInv()
    ensures Inv(INITIAL)
  {
  }

  /** At any time, whatever the interleaving: what is written is a beginning of what was
      pushed, so that each push is written once and in order; on each block a beginning of the
      attached tokens has run, and none before the block was written. */
  lemma WrittenInOrder(states: seq<State>, steps: seq<Step>, batchSize: nat, n: nat)
    requires IsRun(states, steps, batchSize) && n <= |steps|
    ensures states[n].written <= states[n].pushed
    ensures forall b: BlockId :: Of(states[n].ran, b) <= Of(states[n].attached, b)
    ensures forall b: BlockId :: Of(states[n].ran, b) != [] ==> b in states[n].written
  {
    RunKeeps(states, steps, batchSize, n);
    var s := states[n];
    assert s.completed + s.staged[..WrittenOf(s)] <= s.completed + s.staged + s.queue;
  }

  /** When waiting ends by joining, every block pushed before the queue was seen empty is
      written, and every token attached before its push has run; the worker is done. */
  lemma WaitDone(states: seq<State>, steps: seq<Step>, batchSize: nat, n: nat)
    requires IsRun(states, steps, batchSize) && n <= |steps| && states[n].waiter.Joined?
    ensures
      var s := states[n];
      && s.waiter.tested <= |s.written| && s.written == s.completed && s.pushed == s.written + s.queue
      && |s.due| == |s.pushed| && (forall k | 0 <= k < |s.written| :: s.due[k] <= |Of(s.ran, s.pushed[k])|)
  {
    RunKeeps(states, steps, batchSize, n);
    var s := states[n];
    assert s.staged == [] && s.pushed == s.completed + s.queue;
  }

  /** Waiting never gives up, whatever the interleaving: the worker is needed until the queue
      has been seen empty.  So waiting ends by joining only, with what `WaitDone` says; and as
      long as it has not ended, it looks again when it has seen a block. */
  lemma NeverGivesUp(states: seq<State>, steps: seq<Step>, batchSize: nat, n: nat)
    requires IsRun(states, steps, batchSize) && n <= |steps|
    ensures !states[n].waiter.GaveUp?
    ensures states[n].needed <==> !states[n].waiter.Joining? && !states[n].waiter.Joined?
    ensures n < |steps| && steps[n] == Wait && states[n].waiter == SawBlocks ==> states[n + 1].waiter == Looking
    ensures !Enabled(states[n], Wait) ==>
      states[n].waiter.Joined? || (states[n].waiter.Joining? && states[n].worker != Finished)
  {
    RunKeeps(states, steps, batchSize, n);
    if n < |steps| {
      RunKeeps(states, steps, batchSize, n + 1);
    }
  }

  /** Step `j` is the worker taking a batch from the queue, or finding none, under the lock. */
  predicate TakesBatch(states: seq<State>, steps: seq<Step>, j: nat) {
    j < |steps| && j < |states| && steps[j] == Work && states[j].worker == Locking
  }

  predicate NoPush(steps: seq<Step>, i: nat, j: nat) {
    i <= j <= |steps| && forall k | i <= k < j :: !steps[k].Push?
  }

  /** While no batch is taken the queue only grows. */
  lemma {:induction false} QueueGrows(states: seq<State>, steps: seq<Step>, batchSize: nat, j: nat, n: nat)
    requires IsRun(states, steps, batchSize) && j <= n <= |steps|
    requires forall k: nat | j <= k < n :: !TakesBatch(states, steps, k)
    ensures |states[n].queue| >= |states[j].queue|
    ensures states[n].queue == [] <==> states[j].queue == [] && NoPush(steps, j, n)
  {
    if j < n {
      QueueGrows(states, steps, batchSize, j, n - 1);
      assert !TakesBatch(states, steps, n - 1);
      QueueStep(states[n - 1], steps[n - 1], batchSize);
    }
  }

  lemma QueueStep(s: State, e: Step, batchSize: nat)
    requires e == Work ==> s.worker != Locking
    ensures Next(s, e, batchSize).queue == s.queue + if e.Push? then [e.b] else []
  {
    assert s.queue + [] == s.queue;
  }

  lemma {:induction false} LastBatch(states: seq<State>, steps: seq<Step>, n: nat) returns (j: nat)
    requires n <= |steps| < |states|
    ensures j <= n && (j == 0 || TakesBatch(states, steps, j - 1))
    ensures forall k: nat | j <= k < n :: !TakesBatch(states, steps, k)
  {
    j := n;
    if n > 0 && !TakesBatch(states, steps, n - 1) {
      j := LastBatch(states, steps, n - 1);
    }
  }

  /** Waiting, exactly.  Let the worker have taken its last batch, if any, just before state
      `j`.  When waiting has ended by joining, all blocks are written if and only if that batch
      was not smaller than the queue and no block was pushed after it. */
  lemma WaitExact(states: seq<State>, steps: seq<Step>, batchSize: nat, j: nat, n: nat)
    requires IsRun(states, steps, batchSize) && j <= n <= |steps| && states[n].waiter.Joined?
    requires j == 0 || TakesBatch(states, steps, j - 1)
    requires forall k: nat | j <= k < n :: !TakesBatch(states, steps, k)
    ensures states[n].written == states[n].pushed <==>
      (j == 0 || |states[j - 1].queue| <= batchSize) && NoPush(steps, j, n)
  {
    WaitDone(states, steps, batchSize, n);
    QueueGrows(states, steps, batchSize, j, n);
    if j > 0 {
      BatchLeaves(states[j - 1], batchSize);
      assert states[j - 1 + 1] == Next(states[j - 1], steps[j - 1], batchSize);
    }
  }

  lemma BatchLeaves(s: State, batchSize: nat)
    requires s.worker == Locking
    ensures WorkerNext(s, batchSize).queue == [] <==> |s.queue| <= batchSize
  {
  }

  /** Step `i` sees the queue empty. */
  predicate SeesEmpty(states: seq<State>, steps: seq<Step>, i: nat) {
    i < |steps| && i < |states| && steps[i] == Wait && states[i].waiter == Looking && states[i].queue == []
  }

  lemma {:induction false} SeenStays(states: seq<State>, steps: seq<Step>, batchSize: nat, i: nat, n: nat)
    requires IsRun(states, steps, batchSize) && SeesEmpty(states, steps, i) && i < n <= |steps|
    requires NoPush(steps, i, n)
    ensures states[n].pushed == states[i].pushed
    ensures states[n].waiter in
      {SawEmpty(|states[i].pushed|), Joining(|states[i].pushed|), Joined(|states[i].pushed|)}
  {
    hide Next, Enabled;
    if i + 1 < n {
      SeenStays(states, steps, batchSize, i, n - 1);
      assert states[n - 1 + 1] == Next(states[n - 1], steps[n - 1], batchSize);
      SeenStep(states[n - 1], steps[n - 1], batchSize);
    } else {
      assert states[i + 1] == Next(states[i], steps[i], batchSize);
      LookStep(states[i], batchSize);
    }
  }

  lemma LookStep(s: State, batchSize: nat)
    requires s.waiter == Looking && s.queue == []
    ensures Next(s, Wait, batchSize).pushed == s.pushed && Next(s, Wait, batchSize).waiter == SawEmpty(|s.pushed|)
  {
  }

  lemma SeenStep(s: State, e: Step, batchSize: nat)
    requires !e.Push? && (s.waiter.SawEmpty? || s.waiter.Joining? || s.waiter.Joined?)
    ensures
      var s' := Next(s, e, batchSize);
      && s'.pushed == s.pushed && (s'.waiter.SawEmpty? || s'.waiter.Joining? || s'.waiter.Joined?)
      && s'.waiter.tested == s.waiter.tested
  {
    hide WorkerNext;
    WorkerLeavesWaiter(s, batchSize);
  }

  lemma WorkerLeavesWaiter(s: State, batchSize: nat)
    ensures WorkerNext(s, batchSize).pushed == s.pushed && WorkerNext(s, batchSize).waiter == s.waiter
  {
    hide Of;
    match s.worker {
      case Completing(i) =>
      case _ =>
    }
  }

  /** For a caller: when waiting has ended by joining and no block was pushed since the queue
      was seen empty, all blocks are written and their tokens have run. */
  lemma WaitSuffices(states: seq<State>, steps: seq<Step>, batchSize: nat, i: nat, n: nat)
    requires IsRun(states, steps, batchSize) && SeesEmpty(states, steps, i) && i < n <= |steps|
    requires NoPush(steps, i, n) && states[n].waiter.Joined?
    ensures
      var s := states[n];
      && s.written == s.pushed && |s.due| == |s.pushed|
      && (forall k | 0 <= k < |s.pushed| :: s.due[k] <= |Of(s.ran, s.pushed[k])|)
  {
    SeenStays(states, steps, batchSize, i, n);
    WaitDone(states, steps, batchSize, n);
  }

  /** A block pushed between the look at the queue and the end of the worker is left behind. */
  lemma LeftBehind(batchSize: nat) returns (states: seq<State>, steps: seq<Step>)
    ensures IsRun(states, steps, batchSize)
    ensures states[|steps|].waiter.Joined? && states[|steps|].queue == [7] && states[|steps|].written == []
  {
    steps := [Wait, Wait, Push(7), Wait, Work, Wait];
    var s1 := Next(INITIAL, Wait, batchSize);
    var s2 := Next(s1, Wait, batchSize);
    var s3 := Next(s2, Push(7), batchSize);
    var s4 := Next(s3, Wait, batchSize);
    var s5 := Next(s4, Work, batchSize);
    var s6 := Next(s5, Wait, batchSize);
    states := [INITIAL, s1, s2, s3, s4, s5, s6];
  }
}
