/** The queue of synchronisation runs.

Two channels of capacity one work as semaphores: `semaphore` is full while a run owns the machine, and
`isWaiting` is full while a queued run waits for it. QueueRun returns at once when somebody waits already,
because that waiter's run will pick up the same state.
*/
module SyncQueue {

  datatype Kind = QueueRun | Run

  /** Ready: the semaphore is taken and the run is about to start. Ran: the run is over, and the semaphore is
  still full. QueueRun returns to its caller when it is Ready, Run when it is Done. */
  datatype Phase = Called | Waiting | Holding | Ready | Running | Ran | Done | Coalesced

  datatype Thread = Thread(kind: Kind, calledAt: nat, phase: Phase)

  /** A run that was started: by which thread, and when. */
  datatype Start = Start(thread: nat, at: nat)

  /** `now` counts steps, and `starts` is the history of the runs that started. */
  datatype State = State(now: nat, semaphore: bool, isWaiting: bool, threads: seq<Thread>, starts: seq<Start>)

  datatype Step = Call(kind: Kind) | Advance(i: nat)

  const START := State(0, false, false, [], [])

  /** A send needs an empty channel and a receive a full one; the select of QueueRun never blocks. */
  predicate Enabled(s: State, step: Step) {
    match step
    case Call(_) => true
    case Advance(i) =>
      && i < |s.threads|
      && match s.threads[i].phase
         case Called => s.threads[i].kind.QueueRun? || !s.semaphore
         case Waiting => !s.semaphore
         case Holding => s.isWaiting
         case Ready => true
         case Running => true
         case Ran => s.semaphore
         case _ => false
  }

  function SetPhase(s: State, i: nat, phase: Phase): State
    requires i < |s.threads|
  {
    s.(now := s.now + 1, threads := s.threads[i := s.threads[i].(phase := phase)])
  }

  function Do(s: State, step: Step): State
    requires Enabled(s, step)
  {
    match step
    case Call(kind) => s.(now := s.now + 1, threads := s.threads + [Thread(kind, s.now, Called)])
    case Advance(i) =>
      match s.threads[i].phase
      case Called =>
        if s.threads[i].kind.Run? then SetPhase(s, i, Ready).(semaphore := true)
        else if s.isWaiting then SetPhase(s, i, Coalesced)
        else SetPhase(s, i, Waiting).(isWaiting := true)
      case Waiting => SetPhase(s, i, Holding).(semaphore := true)
      case Holding => SetPhase(s, i, Ready).(isWaiting := false)
      case Ready => SetPhase(s, i, Running).(starts := s.starts + [Start(i, s.now)])
      case Running => SetPhase(s, i, Ran)
      case Ran => SetPhase(s, i, Done).(semaphore := false)
  }

  ghost predicate NextStep(s: State, s': State, step: Step) {
    Enabled(s, step) && s' == Do(s, step)
  }

  ghost predicate Next(s: State, s': State) {
    exists step :: NextStep(s, s', step)
  }

  ghost predicate IsRun(run: seq<State>) {
    && |run| > 0 && run[0] == START
    && forall i | 0 < i < |run| :: Next(run[i - 1], run[i])
  }

  predicate OwnsSemaphore(t: Thread) {
    t.phase.Holding? || t.phase.Ready? || t.phase.Running? || t.phase.Ran?
  }

  predicate OwnsWaiting(t: Thread) {
    t.phase.Waiting? || t.phase.Holding?
  }

  /** The thread's run is still to start. */
  predicate WillRun(t: Thread) {
    t.phase.Waiting? || t.phase.Holding? || t.phase.Ready?
  }

  predicate Over(t: Thread) {
    t.phase.Done? || t.phase.Coalesced?
  }

  /** A run started after the call was made. */
  ghost predicate ServedBy(starts: seq<Start>, t: Thread) {
    exists r :: 0 <= r < |starts| && starts[r].at > t.calledAt
  }

  ghost predicate Covered(s: State, t: Thread) {
    ServedBy(s.starts, t) || exists w :: 0 <= w < |s.threads| && WillRun(s.threads[w])
  }

  ghost predicate Inv(s: State) {
    && (forall i, j | 0 <= i < |s.threads| && 0 <= j < |s.threads| ::
          OwnsSemaphore(s.threads[i]) && OwnsSemaphore(s.threads[j]) ==> i == j)
    && (s.semaphore <==> exists i :: 0 <= i < |s.threads| && OwnsSemaphore(s.threads[i]))
    && (forall i, j | 0 <= i < |s.threads| && 0 <= j < |s.threads| ::
          OwnsWaiting(s.threads[i]) && OwnsWaiting(s.threads[j]) ==> i == j)
    && (s.isWaiting <==> exists i :: 0 <= i < |s.threads| && OwnsWaiting(s.threads[i]))
    && (forall i | 0 <= i < |s.threads| :: s.threads[i].calledAt < s.now)
    && (forall i | 0 <= i < |s.threads| && !s.threads[i].phase.Called? :: Covered(s, s.threads[i]))
  }

  /** One channel: when a single thread changes, the owner and the content of the channel stay in step. */
  lemma ChannelsAfter(s: State, s': State, i: nat)
    requires Inv(s) && Enabled(s, Advance(i)) && s' == Do(s, Advance(i))
    ensures s'.semaphore <==> exists j :: 0 <= j < |s'.threads| && OwnsSemaphore(s'.threads[j])
    ensures s'.isWaiting <==> exists j :: 0 <= j < |s'.threads| && OwnsWaiting(s'.threads[j])
  {
    assert forall j | 0 <= j < |s.threads| && j != i :: s'.threads[j] == s.threads[j];
    var own, wait := OwnsSemaphore(s'.threads[i]), OwnsWaiting(s'.threads[i]);
    if s.semaphore {
      var j :| 0 <= j < |s.threads| && OwnsSemaphore(s.threads[j]);
      assert OwnsSemaphore(s'.threads[j]) || j == i;
    }
    if s.isWaiting {
      var j :| 0 <= j < |s.threads| && OwnsWaiting(s.threads[j]);
      assert OwnsWaiting(s'.threads[j]) || j == i;
    }
  }

  /** A call stays covered: its waiter keeps waiting, or starts a run that is later than the call. */
  lemma CoverageAfter(s: State, s': State, i: nat, k: nat)
    requires Inv(s) && Enabled(s, Advance(i)) && s' == Do(s, Advance(i))
    requires k < |s.threads| && !s'.threads[k].phase.Called?
    ensures Covered(s', s'.threads[k])
  {
    var t := s'.threads[k];
    if s.threads[i].phase.Ready? {
      assert s'.starts[|s.starts|].at > t.calledAt;
    } else if WillRun(s'.threads[i]) {
    } else if s.threads[k].phase.Called? {
      var w :| 0 <= w < |s.threads| && OwnsWaiting(s.threads[w]);
      assert WillRun(s'.threads[w]);
    } else if !ServedBy(s.starts, t) {
      assert Covered(s, s.threads[k]);
      var w :| 0 <= w < |s.threads| && WillRun(s.threads[w]);
      assert WillRun(s'.threads[w]);
    }
  }

  lemma OwnersAfter(s: State, s': State, i: nat)
    requires Inv(s) && Enabled(s, Advance(i)) && s' == Do(s, Advance(i))
    ensures forall a, b | 0 <= a < |s'.threads| && 0 <= b < |s'.threads| ::
              OwnsSemaphore(s'.threads[a]) && OwnsSemaphore(s'.threads[b]) ==> a == b
    ensures forall a, b | 0 <= a < |s'.threads| && 0 <= b < |s'.threads| ::
              OwnsWaiting(s'.threads[a]) && OwnsWaiting(s'.threads[b]) ==> a == b
  {
    assert forall j | 0 <= j < |s.threads| && j != i :: s'.threads[j] == s.threads[j];
  }

  lemma AdvanceKeepsInv(s: State, s': State, i: nat)
    requires Inv(s) && Enabled(s, Advance(i)) && s' == Do(s, Advance(i))
    ensures Inv(s')
  {
    OwnersAfter(s, s', i);
    ChannelsAfter(s, s', i);
    forall k | 0 <= k < |s'.threads| && !s'.threads[k].phase.Called? ensures Covered(s', s'.threads[k]) {
      CoverageAfter(s, s', i, k);
    }
  }

  lemma CoverageAfterCall(s: State, s': State, kind: Kind, k: nat)
    requires s' == Do(s, Call(kind)) && k < |s.threads| && Covered(s, s.threads[k])
    ensures Covered(s', s'.threads[k])
  {
    if !ServedBy(s.starts, s.threads[k]) {
      var w :| 0 <= w < |s.threads| && WillRun(s.threads[w]);
      assert WillRun(s'.threads[w]);
    }
  }

  lemma CallKeepsInv(s: State, s': State, kind: Kind)
    requires Inv(s) && s' == Do(s, Call(kind))
    ensures Inv(s')
  {
    assert forall j | 0 <= j < |s.threads| :: s'.threads[j] == s.threads[j];
    forall k | 0 <= k < |s'.threads| && !s'.threads[k].phase.Called? ensures Covered(s', s'.threads[k]) {
      CoverageAfterCall(s, s', kind, k);
    }
    if s.semaphore {
      var j :| 0 <= j < |s.threads| && OwnsSemaphore(s.threads[j]);
      assert OwnsSemaphore(s'.threads[j]);
    }
    if s.isWaiting {
      var j :| 0 <= j < |s.threads| && OwnsWaiting(s.threads[j]);
      assert OwnsWaiting(s'.threads[j]);
    }
  }

  lemma NextKeepsInv(s: State, s': State)
    requires Inv(s) && Next(s, s')
    ensures Inv(s')
  {
    var step :| NextStep(s, s', step);
    match step
    case Call(kind) => CallKeepsInv(s, s', kind);
    case Advance(i) => AdvanceKeepsInv(s, s', i);
  }

  lemma {:induction false} RunKeepsInv(run: seq<State>, i: nat)
    requires IsRun(run) && i < |run|
    ensures Inv(run[i])
  {
    if i > 0 {
      RunKeepsInv(run, i - 1);
      NextKeepsInv(run[i - 1], run[i]);
    }
  }

  /** Never more than one run at a time: from before it starts until after it is over nobody else is so far. */
  lemma OneRunner(run: seq<State>, i: nat, a: nat, b: nat)
    requires IsRun(run) && i < |run| && a < |run[i].threads| && b < |run[i].threads|
    requires OwnsSemaphore(run[i].threads[a]) && OwnsSemaphore(run[i].threads[b])
    ensures a == b && run[i].semaphore
  {
    RunKeepsInv(run, i);
  }

  /** Every call that got past its first step, including one that returned at once, is followed by a run that
  starts after the call, or there is a thread whose run is still to start. */
  lemma EveryCallIsCovered(run: seq<State>, i: nat, k: nat)
    requires IsRun(run) && i < |run| && k < |run[i].threads| && !run[i].threads[k].phase.Called?
    ensures Covered(run[i], run[i].threads[k])
  {
    RunKeepsInv(run, i);
  }

  predicate HasStarted(t: Thread) {
    t.phase.Running? || t.phase.Ran? || t.phase.Done?
  }

  ghost predicate StartedItself(s: State, i: nat) {
    exists r :: 0 <= r < |s.starts| && s.starts[r].thread == i
  }

  /** A direct call neither waits in the queue nor returns at once. */
  predicate KindsInv(s: State) {
    forall i | 0 <= i < |s.threads| && s.threads[i].kind.Run? ::
      !OwnsWaiting(s.threads[i]) && !s.threads[i].phase.Coalesced?
  }

  /** Each thread starts one run of its own when it gets to it, and never another. */
  ghost predicate StartsInv(s: State) {
    && (forall i | 0 <= i < |s.threads| && HasStarted(s.threads[i]) :: StartedItself(s, i))
    && (forall r | 0 <= r < |s.starts| :: IsOf(s.starts[r], s.threads))
    && (forall q, r | 0 <= q < r < |s.starts| :: s.starts[q].thread != s.starts[r].thread)
  }

  /** The run is that of a thread that has come so far, and it began after the thread's call. */
  predicate IsOf(start: Start, threads: seq<Thread>) {
    start.thread < |threads| && HasStarted(threads[start.thread]) && start.at > threads[start.thread].calledAt
  }

  lemma KindsAfter(s: State, step: Step)
    requires KindsInv(s) && Enabled(s, step)
    ensures KindsInv(Do(s, step))
  {
  }

  lemma BeginKeepsStarts(s: State, i: nat)
    requires Inv(s) && StartsInv(s) && i < |s.threads| && s.threads[i].phase.Ready?
    ensures StartsInv(Do(s, Advance(i)))
  {
    var s' := Do(s, Advance(i));
    assert s'.starts[|s.starts|].thread == i;
    forall k | 0 <= k < |s'.threads| && HasStarted(s'.threads[k])
      ensures StartedItself(s', k)
    {
      if k != i {
        StillStarted(s, s', k);
      }
    }
    forall r | 0 <= r < |s'.starts|
      ensures IsOf(s'.starts[r], s'.threads)
    {
      if r < |s.starts| {
        assert IsOf(s.starts[r], s.threads) && s.starts[r].thread != i;
      }
    }
  }

  lemma StillStarted(s: State, s': State, k: nat)
    requires StartedItself(s, k) && s.starts <= s'.starts
    ensures StartedItself(s', k)
  {
    var r :| 0 <= r < |s.starts| && s.starts[r].thread == k;
    assert s'.starts[r].thread == k;
  }

  lemma OtherStepKeepsStarts(s: State, i: nat)
    requires StartsInv(s) && Enabled(s, Advance(i)) && !s.threads[i].phase.Ready?
    ensures StartsInv(Do(s, Advance(i)))
  {
    var s' := Do(s, Advance(i));
    assert s'.starts == s.starts && (HasStarted(s'.threads[i]) <==> HasStarted(s.threads[i]));
    forall k | 0 <= k < |s'.threads| && HasStarted(s'.threads[k])
      ensures StartedItself(s', k)
    {
      assert HasStarted(s.threads[k]);
      StillStarted(s, s', k);
    }
    forall r | 0 <= r < |s'.starts|
      ensures IsOf(s'.starts[r], s'.threads)
    {
      assert IsOf(s.starts[r], s.threads);
    }
  }

  lemma CallKeepsStarts(s: State, kind: Kind)
    requires StartsInv(s)
    ensures StartsInv(Do(s, Call(kind)))
  {
    var s' := Do(s, Call(kind));
    forall k | 0 <= k < |s'.threads| && HasStarted(s'.threads[k])
      ensures StartedItself(s', k)
    {
      StillStarted(s, s', k);
    }
    forall r | 0 <= r < |s'.starts|
      ensures IsOf(s'.starts[r], s'.threads)
    {
      assert IsOf(s.starts[r], s.threads);
    }
  }

  lemma {:induction false} RunKeepsStarts(run: seq<State>, i: nat)
    requires IsRun(run) && i < |run|
    ensures StartsInv(run[i]) && KindsInv(run[i])
  {
    if i > 0 {
      RunKeepsStarts(run, i - 1);
      RunKeepsInv(run, i - 1);
      assert Next(run[i - 1], run[i]);
      var step :| NextStep(run[i - 1], run[i], step);
      KindsAfter(run[i - 1], step);
      match step
      case Call(kind) => CallKeepsStarts(run[i - 1], kind);
      case Advance(j) =>
        if run[i - 1].threads[j].phase.Ready? {
          BeginKeepsStarts(run[i - 1], j);
        } else {
          OtherStepKeepsStarts(run[i - 1], j);
        }
    }
  }

  /** A call that is over has had exactly one run of its own, which began after the call, unless it is a queued call
  that returned at once; that one has had none. A direct call is never of that kind. */
  lemma OverHasRunItself(run: seq<State>, i: nat, k: nat)
    requires IsRun(run) && i < |run| && k < |run[i].threads| && Over(run[i].threads[k])
    ensures var s := run[i];
            && (s.threads[k].kind.Run? ==> s.threads[k].phase.Done?)
            && (s.threads[k].phase.Done? <==> StartedItself(s, k))
            && (forall r | 0 <= r < |s.starts| && s.starts[r].thread == k :: s.starts[r].at > s.threads[k].calledAt)
            && (forall q, r | 0 <= q < r < |s.starts| :: !(s.starts[q].thread == s.starts[r].thread == k))
  {
    RunKeepsStarts(run, i);
  }

  /** A queued call returns at once only if another one waits, whose run is still to start. */
  lemma CoalescedHasWaiter(run: seq<State>, i: nat, k: nat, s': State)
    requires IsRun(run) && i < |run| && NextStep(run[i], s', Advance(k)) && s'.threads[k].phase.Coalesced?
    ensures exists w :: 0 <= w < |s'.threads| && w != k && OwnsWaiting(s'.threads[w])
  {
    RunKeepsInv(run, i);
    RunKeepsStarts(run, i);
    var w :| 0 <= w < |run[i].threads| && OwnsWaiting(run[i].threads[w]);
    assert s'.threads[w] == run[i].threads[w];
  }

  /** No reachable state is stuck: while some thread is not over, some thread can take a step. */
  lemma NeverStuck(run: seq<State>, i: nat, k: nat) returns (j: nat)
    requires IsRun(run) && i < |run| && k < |run[i].threads| && !Over(run[i].threads[k])
    ensures Enabled(run[i], Advance(j))
  {
    RunKeepsInv(run, i);
    var s := run[i];
    if s.semaphore {
      j :| 0 <= j < |s.threads| && OwnsSemaphore(s.threads[j]);
    } else {
      j := k;
    }
  }

  function Remaining(phase: Phase): nat {
    match phase
    case Called => 6
    case Waiting => 5
    case Holding => 4
    case Ready => 3
    case Running => 2
    case Ran => 1
    case _ => 0
  }

  /** The number of steps that the calls made so far can still take. */
  function Work(threads: seq<Thread>): (w: nat)
    ensures w <= 6 * |threads|
    ensures w == 0 <==> forall i | 0 <= i < |threads| :: Over(threads[i])
  {
    if threads == [] then 0 else Work(threads[..|threads| - 1]) + Remaining(threads[|threads| - 1].phase)
  }

  lemma {:induction false} WorkAfter(threads: seq<Thread>, i: nat, t: Thread)
    requires i < |threads|
    ensures Work(threads[i := t]) == Work(threads) - Remaining(threads[i].phase) + Remaining(t.phase)
    decreases |threads|
  {
    var n := |threads| - 1;
    if i == n {
      assert threads[i := t][..n] == threads[..n];
    } else {
      assert threads[i := t][..n] == threads[..n][i := t];
      WorkAfter(threads[..n], i, t);
    }
  }

  /** Every step of a call that was already made leaves less to do, whoever takes it. */
  lemma AdvanceMakesProgress(s: State, i: nat)
    requires Enabled(s, Advance(i))
    ensures Work(Do(s, Advance(i)).threads) < Work(s.threads)
  {
    var t := Do(s, Advance(i)).threads[i];
    WorkAfter(s.threads, i, t);
  }

  ghost predicate Moves(s: State, s': State) {
    exists j :: NextStep(s, s', Advance(j))
  }

  ghost predicate MovesAt(run: seq<State>, i: nat)
    requires 0 < i < |run|
  {
    Moves(run[i - 1], run[i])
  }

  /** A stretch of a run in which nobody makes a new call. */
  ghost predicate NoNewCalls(run: seq<State>, from: nat) {
    && from < |run|
    && forall i: nat | from < i < |run| :: MovesAt(run, i)
  }

  lemma MoveMakesProgress(s: State, s': State)
    requires Moves(s, s')
    ensures Work(s'.threads) < Work(s.threads)
  {
    var j :| NextStep(s, s', Advance(j));
    AdvanceMakesProgress(s, j);
  }

  lemma {:induction false} WorkBounds(run: seq<State>, from: nat, until: nat)
    requires NoNewCalls(run, from) && from <= until < |run|
    ensures Work(run[until].threads) + (until - from) <= Work(run[from].threads)
    decreases until
  {
    if until > from {
      WorkBounds(run, from, until - 1);
      assert MovesAt(run, until);
      MoveMakesProgress(run[until - 1], run[until]);
    }
  }

  /** Without new calls the queue drains: it takes at most six steps per call, and when no step is left both
  channels are empty and every call was served by a run that started after it. */
  lemma QueueDrains(run: seq<State>, from: nat)
    requires IsRun(run) && NoNewCalls(run, from)
    ensures |run| - 1 - from <= 6 * |run[from].threads|
    ensures var s := run[|run| - 1];
            (forall j :: !Enabled(s, Advance(j))) ==>
              && !s.semaphore && !s.isWaiting
              && (forall k | 0 <= k < |s.threads| :: Over(s.threads[k]) && ServedBy(s.starts, s.threads[k]))
  {
    var last := |run| - 1;
    WorkBounds(run, from, last);
    RunKeepsInv(run, last);
    var s := run[last];
    if forall j :: !Enabled(s, Advance(j)) {
      forall k | 0 <= k < |s.threads| ensures Over(s.threads[k]) {
        if !Over(s.threads[k]) {
          var j := NeverStuck(run, last, k);
          assert false;
        }
      }
      forall k | 0 <= k < |s.threads| ensures ServedBy(s.starts, s.threads[k]) {
        assert Covered(s, s.threads[k]);
      }
    }
  }

  lemma ExtendRun(run: seq<State>, step: Step) returns (longer: seq<State>)
    requires IsRun(run) && Enabled(run[|run| - 1], step)
    ensures IsRun(longer) && longer == run + [Do(run[|run| - 1], step)]
  {
    longer := run + [Do(run[|run| - 1], step)];
    assert NextStep(run[|run| - 1], longer[|run|], step);
  }

  /** A call starts its run. */
  lemma FirstCallRuns() returns (run: seq<State>)
    ensures IsRun(run)
    ensures run[|run| - 1] == State(5, true, false, [Thread(QueueRun, 0, Running)], [Start(0, 4)])
  {
    run := [START];
    run := ExtendRun(run, Call(QueueRun));
    run := ExtendRun(run, Advance(0));
    run := ExtendRun(run, Advance(0));
    run := ExtendRun(run, Advance(0));
    run := ExtendRun(run, Advance(0));
  }

  /** Of two more calls during that run, one waits and the other returns at once, while a direct call can only wait for
  the semaphore. */
  lemma BurstIsCoalesced() returns (run: seq<State>)
    ensures IsRun(run)
    ensures var s := run[|run| - 1];
            && s.threads == [Thread(QueueRun, 0, Running), Thread(QueueRun, 5, Waiting), Thread(QueueRun, 6, Coalesced),
                             Thread(Run, 7, Called)]
            && |s.starts| == 1 && !Enabled(s, Advance(3))
  {
    run := FirstCallRuns();
    run := ExtendRun(run, Call(QueueRun));
    run := ExtendRun(run, Call(QueueRun));
    run := ExtendRun(run, Call(Run));
    run := ExtendRun(run, Advance(1));
    run := ExtendRun(run, Advance(2));
  }
}
