/** Whether a vacant cluster gets a leader again.

A node tries when it starts and once after every vacancy that its watcher sees. An attempt that fails with an error is
given up: the watcher logs it and waits for the next event.
*/
module LeaderRecovery {
  import opened LeaderElection
  import opened Options

  /** The attempt can still put the key. */
  predicate IsAlive(s: State, a: Attempt) {
    a.Wanted? || (a.Leased? && a.lease in s.leases)
  }

  /** The node is trying, or its watcher has an event to read. */
  predicate MayBeElected(s: State, n: Member) {
    && n in s.nodes
    && (|| IsAlive(s, s.nodes[n].startup) || IsAlive(s, s.nodes[n].watcher)
        || (s.nodes[n].watch.Some? && s.nodes[n].cursor < |s.changes|))
  }

  ghost predicate HasCandidate(s: State) {
    exists n :: MayBeElected(s, n)
  }

  /** The run goes on, and no further node is started. */
  ghost predicate Continues(run: seq<State>, steps: seq<Step>, run': seq<State>, steps': seq<Step>) {
    && IsRun(run', steps') && run <= run' && steps <= steps'
    && forall j {:trigger steps'[j]} | |steps| <= j < |steps'| :: !steps'[j].StartNode?
  }

  lemma VacantStays(s: State, step: Step)
    requires !Occupied(s) && !HasCandidate(s) && Enabled(s, step) && !step.StartNode?
    ensures !Occupied(Do(s, step)) && !HasCandidate(Do(s, step))
  {
    var s' := Do(s, step);
    assert step.Expire? || !MayBeElected(s, step.n);
    assert s'.changes == s.changes;
    forall n
      ensures !MayBeElected(s', n)
    {
      assert !MayBeElected(s, n);
    }
  }

  lemma {:induction false} VacantForever(run: seq<State>, steps: seq<Step>, k: nat, i: nat)
    requires IsRun(run, steps) && k <= i < |run|
    requires !Occupied(run[k]) && !HasCandidate(run[k])
    requires forall j {:trigger steps[j]} | k <= j < |steps| :: !steps[j].StartNode?
    ensures !Occupied(run[i]) && !HasCandidate(run[i])
  {
    if k < i {
      VacantForever(run, steps, k, i - 1);
      assert Enabled(run[i - 1], steps[i - 1]);
      VacantStays(run[i - 1], steps[i - 1]);
    }
  }

  lemma OneMore(run: seq<State>, steps: seq<Step>, step: Step) returns (run': seq<State>, steps': seq<Step>)
    requires IsRun(run, steps) && Enabled(run[|steps|], step) && !step.StartNode?
    ensures Continues(run, steps, run', steps') && |steps'| == |steps| + 1
    ensures run'[|steps'|] == Do(run[|steps|], step)
  {
    run', steps' := run + [Do(run[|steps|], step)], steps + [step];
  }

  lemma ContinuesOn(run: seq<State>, steps: seq<Step>, run': seq<State>, steps': seq<Step>, run'': seq<State>,
                    steps'': seq<Step>)
    requires Continues(run, steps, run', steps') && Continues(run', steps', run'', steps'')
    ensures Continues(run, steps, run'', steps'')
  {
    forall j {:trigger steps''[j]} | |steps| <= j < |steps''|
      ensures !steps''[j].StartNode?
    {
      assert j < |steps'| ==> steps''[j] == steps'[j];
    }
  }

  /** An attempt that is alive ends with the election of its node, if nobody else does anything. */
  lemma AliveIsElected(run: seq<State>, steps: seq<Step>, n: Member, who: Who)
      returns (run': seq<State>, steps': seq<Step>)
    requires IsRun(run, steps) && !Occupied(run[|steps|])
    requires n in run[|steps|].nodes && IsAlive(run[|steps|], run[|steps|].nodes[n].Attempt(who))
    ensures Continues(run, steps, run', steps') && Occupied(run'[|steps'|])
    ensures run'[|steps'|].changes[|run'[|steps'|].changes| - 1].member == n
    decreases run[|steps|].nodes[n].Attempt(who).Wanted?
  {
    if run[|steps|].nodes[n].Attempt(who).Wanted? {
      var run1, steps1 := OneMore(run, steps, GrantLease(n, who));
      run', steps' := AliveIsElected(run1, steps1, n, who);
      ContinuesOn(run, steps, run1, steps1, run', steps');
    } else {
      run', steps' := OneMore(run, steps, Transaction(n, who));
    }
  }

  /** A watcher that is done with its attempt reads the vacancy, and tries. */
  lemma RestingIsElected(run: seq<State>, steps: seq<Step>, n: Member) returns (run': seq<State>, steps': seq<Step>)
    requires IsRun(run, steps) && !Occupied(run[|steps|]) && n in run[|steps|].nodes
    requires var node := run[|steps|].nodes[n];
             node.watcher.Resting? && node.watch.Some? && node.cursor < |run[|steps|].changes|
    ensures Continues(run, steps, run', steps') && Occupied(run'[|steps'|])
  {
    var run1, steps1 := OneMore(run, steps, Deliver(n, |run[|steps|].changes|));
    run', steps' := AliveIsElected(run1, steps1, n, Watcher);
    ContinuesOn(run, steps, run1, steps1, run', steps');
  }

  lemma PendingIsElected(run: seq<State>, steps: seq<Step>, n: Member) returns (run': seq<State>, steps': seq<Step>)
    requires IsRun(run, steps) && !Occupied(run[|steps|]) && n in run[|steps|].nodes
    requires run[|steps|].nodes[n].watch.Some? && run[|steps|].nodes[n].cursor < |run[|steps|].changes|
    ensures Continues(run, steps, run', steps') && Occupied(run'[|steps'|])
  {
    var s := run[|steps|];
    var a := s.nodes[n].watcher;
    if IsAlive(s, a) {
      run', steps' := AliveIsElected(run, steps, n, Watcher);
    } else if a.Resting? {
      run', steps' := RestingIsElected(run, steps, n);
    } else {
      var step := if a.Leased? then Transaction(n, Watcher) else ReportRefusal(n, Watcher);
      var run1, steps1 := OneMore(run, steps, step);
      run', steps' := RestingIsElected(run1, steps1, n);
      ContinuesOn(run, steps, run1, steps1, run', steps');
    }
  }

  ghost predicate CanRecover(run: seq<State>, steps: seq<Step>) {
    exists run', steps' :: Continues(run, steps, run', steps') && Occupied(run'[|steps'|])
  }

  /** While the key is vacant and no further node is started, somebody can be elected again if and only if some node is
  trying or its watcher has an event to read. */
  lemma RecoversIffCandidate(run: seq<State>, steps: seq<Step>)
    requires IsRun(run, steps) && !Occupied(run[|steps|])
    ensures CanRecover(run, steps) <==> HasCandidate(run[|steps|])
  {
    var s := run[|steps|];
    if HasCandidate(s) {
      var n :| MayBeElected(s, n);
      var run', steps';
      if IsAlive(s, s.nodes[n].startup) {
        run', steps' := AliveIsElected(run, steps, n, Startup);
      } else if IsAlive(s, s.nodes[n].watcher) {
        run', steps' := AliveIsElected(run, steps, n, Watcher);
      } else {
        run', steps' := PendingIsElected(run, steps, n);
      }
      assert CanRecover(run, steps);
    } else {
      forall run', steps' | Continues(run, steps, run', steps')
        ensures !Occupied(run'[|steps'|])
      {
        assert run'[|steps|] == s;
        VacantForever(run', steps', |steps|, |steps'|);
      }
    }
  }

  /** The only node has its lease, and is about to put the key. */
  lemma TriesAlone() returns (steps: seq<Step>, s: State)
    ensures Reaches(steps, s) && |steps| == 3
    ensures s == State([], {0}, 1, map[0 := Node(false, Some(0), 0, Leased(0), Resting)])
  {
    steps, s := Begin();
    steps, s := Then(steps, s, StartNode(0));
    steps, s := Then(steps, s, EstablishWatch(0));
    steps, s := Then(steps, s, GrantLease(0, Startup));
  }

  /** It leads and knows it, also if the reply to its transaction is lost: it learns from its watch. */
  lemma LeadsAlone(lost: bool) returns (steps: seq<Step>, s: State)
    ensures Reaches(steps, s) && |steps| == 5
    ensures steps[3] == if lost then RequestFails(0, Startup, true) else Transaction(0, Startup)
    ensures s == State([Elected(0, 0)], {0}, 1, map[0 := Node(true, Some(0), 1, Resting, Resting)])
  {
    steps, s := TriesAlone();
    if lost {
      steps, s := Then(steps, s, RequestFails(0, Startup, true));
    } else {
      steps, s := Then(steps, s, Transaction(0, Startup));
    }
    steps, s := Then(steps, s, Deliver(0, 1));
  }

  /** So one failed request can leave the cluster without a leader for good: the leader's lease expires, the only node
  tries again, and its request fails. It even keeps its flag. */
  lemma FailedAttemptIsFinal() returns (steps: seq<Step>, s: State)
    ensures Reaches(steps, s)
    ensures s.changes == [Elected(0, 0), Vacated] && !HasCandidate(s)
    ensures CaughtUp(s, 0) && s.nodes[0].isLeader
  {
    steps, s := LeadsAlone(false);
    steps, s := Then(steps, s, Expire(0));
    steps, s := Then(steps, s, Deliver(0, 2));
    steps, s := Then(steps, s, RequestFails(0, Watcher, false));
    assert s.nodes.Keys == {0};
  }
}
