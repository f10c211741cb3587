/** The leadership manager: it starts and stops the workers that only a leader runs.

setLeader changes the shared flag and then sends on an unbuffered channel, so the sender waits until the
manager takes the message. The manager ignores the message itself: it cancels the context it has, and
creates a new one if the shared flag says so at that moment.
*/
module LeadershipManager {
  import opened Options

  /** The goroutines that call setLeader: one at startup, one in the watch on the leader key. */
  datatype Caller = Startup | Watcher

  datatype Phase = Waiting | Received | Cancelled

  /** `unsent` holds what each caller has stored in the flag and not handed over yet; `live` are the contexts
  that were not cancelled; `messages` is the history of what the manager received. */
  datatype State = State(
    isLeader: bool,
    unsent: map<Caller, bool>,
    phase: Phase,
    current: Option<nat>,
    live: set<nat>,
    nextContext: nat,
    messages: seq<bool>)

  datatype Step = SetLeader(c: Caller, value: bool) | Receive(c: Caller) | CancelContext | ReadFlag

  const START := State(false, map[], Waiting, None, {}, 0, [])

  predicate Enabled(s: State, step: Step) {
    match step
    case SetLeader(c, value) => c !in s.unsent && s.isLeader != value
    case Receive(c) => s.phase.Waiting? && c in s.unsent
    case CancelContext => s.phase.Received?
    case ReadFlag => s.phase.Cancelled?
  }

  function Do(s: State, step: Step): State
    requires Enabled(s, step)
  {
    match step
    case SetLeader(c, value) => s.(isLeader := value, unsent := s.unsent[c := value])
    case Receive(c) => s.(phase := Received, messages := s.messages + [s.unsent[c]], unsent := s.unsent - {c})
    case CancelContext =>
      s.(phase := Cancelled, live := if s.current.Some? then s.live - {s.current.value} else s.live, current := None)
    case ReadFlag =>
      if s.isLeader
      then s.(phase := Waiting, current := Some(s.nextContext), live := s.live + {s.nextContext},
              nextContext := s.nextContext + 1)
      else s.(phase := Waiting)
  }

  ghost predicate NextStep(s: State, s': State, step: Step) {
    Enabled(s, step) && s' == Do(s, step)
  }

  ghost predicate Next(s: State, s': State) {
    exists step :: NextStep(s, s', step)
  }

  ghost predicate IsRun(run: seq<State>) {
    && |run| > 0 && run[0] == START
    && forall i | 0 < i < |run| :: Next(run[i - 1], run[i])
  }

  ghost predicate Inv(s: State) {
    && s.live == (if s.current.Some? then {s.current.value} else {})
    && (s.current.Some? ==> s.current.value < s.nextContext)
    && (s.phase.Cancelled? ==> s.current.None?)
    && (s.phase.Waiting? && s.unsent == map[] ==> (s.current.Some? <==> s.isLeader))
  }

  lemma {:induction false} RunKeepsInv(run: seq<State>, i: nat)
    requires IsRun(run) && i < |run|
    ensures Inv(run[i])
  {
    if i > 0 {
      RunKeepsInv(run, i - 1);
      var step :| NextStep(run[i - 1], run[i], step);
      if step.SetLeader? {
        assert step.c in run[i].unsent;
      }
    }
  }

  /** In every reachable state at most one worker context is not cancelled; and once the manager waits and no
  message is pending, a context is live exactly when the node leads. It does not matter how many goroutines
  call setLeader, or in which order their messages arrive. */
  lemma WorkersFollowTheFlag(run: seq<State>, i: nat)
    requires IsRun(run) && i < |run|
    ensures |run[i].live| <= 1
    ensures run[i].phase.Waiting? && run[i].unsent == map[] ==> (run[i].live != {} <==> run[i].isLeader)
  {
    RunKeepsInv(run, i);
  }

  /** A context that is cancelled stays so: the workers of an earlier leadership never come back. */
  lemma {:induction false} CancelledForGood(run: seq<State>, j: nat, k: nat, i: nat, c: nat)
    requires IsRun(run) && j <= k <= i < |run| && c in run[j].live && c !in run[k].live
    ensures c !in run[i].live && c < run[i].nextContext
  {
    if i > k {
      CancelledForGood(run, j, k, i - 1, c);
      assert Next(run[i - 1], run[i]);
    } else {
      ContextsAreUsed(run, j, k, c);
    }
  }

  lemma {:induction false} ContextsAreUsed(run: seq<State>, j: nat, i: nat, c: nat)
    requires IsRun(run) && j <= i < |run| && c in run[j].live
    ensures c < run[i].nextContext
  {
    if i > j {
      ContextsAreUsed(run, j, i - 1, c);
      assert Next(run[i - 1], run[i]);
    } else {
      RunKeepsInv(run, i);
    }
  }

  /** The messages strictly alternate, and the first one is true. */
  predicate Alternates(messages: seq<bool>) {
    forall k | 0 <= k < |messages| :: messages[k] <==> k % 2 == 0
  }

  predicate BothPending(s: State) {
    Startup in s.unsent && Watcher in s.unsent
  }

  function Pending(s: State): nat {
    (if Startup in s.unsent then 1 else 0) + if Watcher in s.unsent then 1 else 0
  }

  /** Both goroutines wait with a message, and the manager takes the newer one, which says what the flag says. */
  ghost predicate Overtakes(s: State, s': State) {
    BothPending(s) && exists c :: NextStep(s, s', Receive(c)) && s.unsent[c] == s.isLeader
  }

  /** As long as no message was overtaken, the messages on their way say what comes next: one says what the flag
  says, and of two the older says the opposite. */
  ghost predicate InOrder(s: State) {
    && Alternates(s.messages)
    && (BothPending(s) ==> s.unsent[Startup] != s.unsent[Watcher])
    && (Startup in s.unsent && !BothPending(s) ==> s.unsent[Startup] == s.isLeader)
    && (Watcher in s.unsent && !BothPending(s) ==> s.unsent[Watcher] == s.isLeader)
    && (s.isLeader <==> (|s.messages| + Pending(s)) % 2 == 1)
  }

  lemma SetLeaderKeepsOrder(s: State, c: Caller, value: bool)
    requires InOrder(s) && Enabled(s, SetLeader(c, value))
    ensures InOrder(Do(s, SetLeader(c, value)))
  {
    var s' := Do(s, SetLeader(c, value));
    assert Pending(s') == Pending(s) + 1;
  }

  lemma ReceiveKeepsOrder(s: State, c: Caller)
    requires InOrder(s) && Enabled(s, Receive(c))
    ensures var s' := Do(s, Receive(c));
            if BothPending(s) && s.unsent[c] == s.isLeader then !Alternates(s'.messages) else InOrder(s')
  {
    var s', n := Do(s, Receive(c)), |s.messages|;
    assert Pending(s') == Pending(s) - 1;
    assert s'.messages[n] == s.unsent[c];
    assert s'.messages[..n] == s.messages;
    if BothPending(s) && s.unsent[c] == s.isLeader {
      assert s'.messages[n] != (n % 2 == 0);
    } else {
      assert forall k | 0 <= k < n :: s'.messages[k] == s.messages[k];
    }
  }

  lemma StepKeepsOrder(s: State, s': State)
    requires InOrder(s) && Next(s, s')
    ensures if Overtakes(s, s') then !Alternates(s'.messages) else InOrder(s')
  {
    var step :| NextStep(s, s', step);
    if step.SetLeader? {
      SetLeaderKeepsOrder(s, step.c, step.value);
      assert s'.messages == s.messages;
    } else if step.Receive? {
      ReceiveKeepsOrder(s, step.c);
      if Overtakes(s, s') {
        var c :| NextStep(s, s', Receive(c)) && s.unsent[c] == s.isLeader;
        ReceiveKeepsOrder(s, c);
      }
    }
  }

  /** The history of messages only grows, so a wrong message stays. */
  lemma MessagesGrow(s: State, s': State)
    requires Next(s, s')
    ensures s.messages <= s'.messages
    ensures Alternates(s'.messages) ==> Alternates(s.messages)
  {
    var step :| NextStep(s, s', step);
    assert forall k | 0 <= k < |s.messages| :: s.messages[k] == s'.messages[k];
  }

  ghost predicate NoOvertaking(run: seq<State>, i: nat)
    requires i < |run|
  {
    forall k | 0 < k <= i :: !Overtakes(run[k - 1], run[k])
  }

  /** Exactly as long as no message overtakes an older one, the messages strictly alternate starting with true. */
  lemma {:induction false} MessagesAlternate(run: seq<State>, i: nat)
    requires IsRun(run) && i < |run|
    ensures Alternates(run[i].messages) <==> NoOvertaking(run, i)
    ensures NoOvertaking(run, i) ==> InOrder(run[i])
  {
    if i > 0 {
      var s, s' := run[i - 1], run[i];
      MessagesAlternate(run, i - 1);
      assert NoOvertaking(run, i) <==> NoOvertaking(run, i - 1) && !Overtakes(s, s');
      MessagesGrow(s, s');
      if NoOvertaking(run, i - 1) {
        StepKeepsOrder(s, s');
      }
    }
  }

  /** With both goroutines sending, a message can overtake another: here the first message received is false. */
  lemma TwoSendersCanSwap() returns (run: seq<State>)
    ensures IsRun(run) && run[|run| - 1].messages == [false, true]
  {
    var s1 := Do(START, SetLeader(Watcher, true));
    var s2 := Do(s1, SetLeader(Startup, false));
    var s3 := Do(s2, Receive(Startup));
    var s4 := Do(s3, CancelContext);
    var s5 := Do(s4, ReadFlag);
    var s6 := Do(s5, Receive(Watcher));
    run := [START, s1, s2, s3, s4, s5, s6];
    assert NextStep(run[0], run[1], SetLeader(Watcher, true));
    assert NextStep(run[1], run[2], SetLeader(Startup, false));
    assert NextStep(run[2], run[3], Receive(Startup));
    assert NextStep(run[3], run[4], CancelContext);
    assert NextStep(run[4], run[5], ReadFlag);
    assert NextStep(run[5], run[6], Receive(Watcher));
  }
}
