/** Whether a caller that waits for a job is ever answered.

WaitForJob starts its watcher and reads the key at the same time. The watcher sees what is deleted after it was
established, and the read sees what was deleted before it; a deletion between the two is seen by neither if the read
comes first.
*/
module JobAnswers {
  import opened Etcd
  import opened Options
  import opened JobWait

  /** The step answers the waiter: its read does not find the key, its watcher sees a deletion, or one of them fails. */
  predicate GivesAnswer(s: State, step: Step, w: nat) {
    && w in s.waiters
    && match step
       case CheckKey(v) => v == w && !Exists(s.log, s.waiters[w].id)
       case WatchEvent(v) =>
         && v == w && Enabled(s, step) && s.log[s.waiters[w].watch.value] == Delete(s.waiters[w].id)
       case ReportError(v) => v == w
       case _ => false
  }

  lemma AnswerAfter(s: State, step: Step, w: nat)
    requires Enabled(s, step) && w in s.waiters
    ensures w in Do(s, step).waiters && Do(s, step).waiters[w].id == s.waiters[w].id
    ensures Do(s, step).waiters[w].answer.Some? <==> s.waiters[w].answer.Some? || GivesAnswer(s, step, w)
    ensures s.log <= Do(s, step).log
  {
  }

  lemma AddedFresh(s: State, w: nat, id: string, message: string)
    requires Enabled(s, AddJob(w, id, message))
    ensures var s' := Do(s, AddJob(w, id, message));
            w in s'.waiters && s'.waiters[w].id == id && s'.waiters[w].answer.None? && s'.waiters[w].watch.None?
  {
  }

  /** Some step from `from` on has answered the waiter. */
  ghost predicate Answered(run: seq<State>, steps: seq<Step>, w: nat, from: nat, i: nat)
    requires |run| == |steps| + 1 && i < |run|
  {
    exists c {:trigger steps[c]} :: from <= c < i && GivesAnswer(run[c], steps[c], w)
  }

  lemma AnsweredNext(run: seq<State>, steps: seq<Step>, w: nat, from: nat, i: nat)
    requires |run| == |steps| + 1 && from <= i < |run| - 1
    ensures Answered(run, steps, w, from, i + 1) <==>
            Answered(run, steps, w, from, i) || GivesAnswer(run[i], steps[i], w)
  {
  }

  /** A waiter has an answer exactly if one of these steps has happened since its AddJob. */
  lemma {:induction false} AnsweredIff(run: seq<State>, steps: seq<Step>, a: nat, i: nat, w: nat, id: string,
                                       message: string)
    requires IsRun(run, steps) && a < i < |run| && steps[a] == AddJob(w, id, message)
    ensures w in run[i].waiters && run[i].waiters[w].id == id
    ensures run[i].waiters[w].answer.Some? <==> Answered(run, steps, w, a + 1, i)
  {
    if i == a + 1 {
      assert Enabled(run[a], steps[a]);
      AddedFresh(run[a], w, id, message);
    } else {
      AnsweredIff(run, steps, a, i - 1, w, id, message);
      assert Enabled(run[i - 1], steps[i - 1]);
      AnswerAfter(run[i - 1], steps[i - 1], w);
      AnsweredNext(run, steps, w, a + 1, i - 1);
    }
  }

  lemma {:induction false} LogGrows(run: seq<State>, steps: seq<Step>, j: nat, i: nat)
    requires IsRun(run, steps) && j <= i < |run|
    ensures run[j].log <= run[i].log
  {
    if j < i {
      LogGrows(run, steps, j, i - 1);
      assert Enabled(run[i - 1], steps[i - 1]);
    }
  }

  /** The watcher has seen every event from its start up to its cursor. */
  ghost predicate SawEvent(run: seq<State>, steps: seq<Step>, w: nat, k: nat, i: nat, d: nat)
    requires |run| == |steps| + 1 && i < |run|
  {
    exists c {:trigger steps[c]} ::
      k < c < i && w in run[c].waiters && run[c].waiters[w].watch == Some(d - 1) && steps[c] == WatchEvent(w)
  }

  lemma WatchAfter(s: State, step: Step, w: nat)
    requires Enabled(s, step) && w in s.waiters && s.waiters[w].watch.Some?
    ensures w in Do(s, step).waiters
    ensures Do(s, step).waiters[w].watch ==
            Some(s.waiters[w].watch.value + if step == WatchEvent(w) then 1 else 0)
  {
  }

  lemma {:induction false} WatcherSeesAll(run: seq<State>, steps: seq<Step>, k: nat, i: nat, w: nat)
    requires IsRun(run, steps) && k < i < |run| && steps[k] == WatchKey(w)
    ensures w in run[i].waiters && run[i].waiters[w].watch.Some?
    ensures |run[k].log| <= run[i].waiters[w].watch.value
    ensures forall d: nat | |run[k].log| < d <= run[i].waiters[w].watch.value :: SawEvent(run, steps, w, k, i, d)
  {
    assert Enabled(run[i - 1], steps[i - 1]);
    if i > k + 1 {
      WatcherSeesAll(run, steps, k, i - 1, w);
      WatchAfter(run[i - 1], steps[i - 1], w);
      forall d: nat | |run[k].log| < d <= run[i].waiters[w].watch.value
        ensures SawEvent(run, steps, w, k, i, d)
      {
        if d <= run[i - 1].waiters[w].watch.value {
          assert SawEvent(run, steps, w, k, i - 1, d);
        }
      }
    }
  }

  lemma SeenDeletionAnswers(run: seq<State>, steps: seq<Step>, a: nat, c: nat, i: nat, w: nat, id: string,
                            message: string, d: nat)
    requires IsRun(run, steps) && a < c < i < |run| && steps[a] == AddJob(w, id, message)
    requires w in run[c].waiters && run[c].waiters[w].watch == Some(d - 1) && steps[c] == WatchEvent(w)
    requires 0 < d && DeletedAt(run[i].log, id, d)
    ensures w in run[i].waiters && run[i].waiters[w].answer.Some?
  {
    AnsweredIff(run, steps, a, c, w, id, message);
    assert Enabled(run[c], steps[c]) && d - 1 < |run[c].log|;
    LogGrows(run, steps, c, i);
    assert run[c].log[d - 1] == run[i].log[d - 1];
    assert GivesAnswer(run[c], steps[c], w);
    assert Answered(run, steps, w, a + 1, i);
    AnsweredIff(run, steps, a, i, w, id, message);
  }

  /** A waiter whose watcher has passed a deletion of its key has an answer. */
  lemma PassedDeletionAnswers(run: seq<State>, steps: seq<Step>, a: nat, k: nat, i: nat, w: nat, id: string,
                              message: string, d: nat)
    requires IsRun(run, steps) && a < k < i < |run|
    requires steps[a] == AddJob(w, id, message) && steps[k] == WatchKey(w)
    requires w in run[i].waiters && run[i].waiters[w].watch.Some?
    requires |run[k].log| < d <= run[i].waiters[w].watch.value && DeletedAt(run[i].log, id, d)
    ensures run[i].waiters[w].answer.Some?
  {
    WatcherSeesAll(run, steps, k, i, w);
    assert SawEvent(run, steps, w, k, i, d);
    var c :| k < c < i && w in run[c].waiters && run[c].waiters[w].watch == Some(d - 1) && steps[c] == WatchEvent(w);
    SeenDeletionAnswers(run, steps, a, c, i, w, id, message, d);
  }

  /** The watcher was established at step k, has read everything, and the key was read at step c. */
  ghost predicate Waits(run: seq<State>, steps: seq<Step>, a: nat, k: nat, c: nat, w: nat, id: string,
                        message: string)
  {
    && IsRun(run, steps) && a < k < |steps| && a < c < |steps|
    && steps[a] == AddJob(w, id, message) && steps[k] == WatchKey(w) && steps[c] == CheckKey(w)
    && var s := run[|steps|]; w in s.waiters && s.waiters[w].watch == Some(|s.log|)
  }

  lemma DeletedSince(log: seq<Event<string>>, n: nat, id: string)
    requires n <= |log| && Exists(log[..n], id) && !Exists(log, id)
    ensures LastRev(log, id) > n && DeletedAt(log, id, LastRev(log, id))
  {
    PrefixLastRev(log, id, n);
    var p := LastRev(log[..n], id);
    assert log[..n][p - 1] == log[p - 1];
  }

  /** If the watcher was there before the read, nobody waits in vain: when it has caught up and the key is gone, the
  caller has its answer. */
  lemma CaughtUpWaiterIsAnswered(run: seq<State>, steps: seq<Step>, a: nat, k: nat, c: nat, w: nat, id: string,
                                 message: string)
    requires Waits(run, steps, a, k, c, w, id, message) && k < c
    requires !Exists(run[|steps|].log, id)
    ensures run[|steps|].waiters[w].answer.Some?
  {
    var i := |steps|;
    LogGrows(run, steps, k, c);
    LogGrows(run, steps, c, i);
    AnsweredIff(run, steps, a, c, w, id, message);
    if Exists(run[c].log, id) {
      assert run[i].log[..|run[c].log|] == run[c].log;
      DeletedSince(run[i].log, |run[c].log|, id);
      PassedDeletionAnswers(run, steps, a, k, i, w, id, message, LastRev(run[i].log, id));
    } else {
      assert GivesAnswer(run[c], steps[c], w);
      AnsweredIff(run, steps, a, i, w, id, message);
    }
  }

  /** The waiter's read and its watcher have not failed, and there is no other read. */
  predicate ReadsOnce(steps: seq<Step>, c: nat, w: nat) {
    forall j | 0 <= j < |steps| :: steps[j] != ReportError(w) && (steps[j] == CheckKey(w) ==> j == c)
  }

  /** Whichever comes first: a caller whose watcher has caught up is still without an answer if and only if its read
  found the key, and no deletion came after the watcher was there. */
  lemma UnansweredIff(run: seq<State>, steps: seq<Step>, a: nat, k: nat, c: nat, w: nat, id: string, message: string)
    requires Waits(run, steps, a, k, c, w, id, message) && ReadsOnce(steps, c, w)
    ensures run[|steps|].waiters[w].answer.None? <==>
            Exists(run[c].log, id) &&
            forall d: nat | |run[k].log| < d :: !DeletedAt(run[|steps|].log, id, d)
  {
    var i := |steps|;
    AnsweredIff(run, steps, a, i, w, id, message);
    AnsweredIff(run, steps, a, c, w, id, message);
    if !Exists(run[c].log, id) {
      assert GivesAnswer(run[c], steps[c], w);
    }
    forall d: nat | |run[k].log| < d && DeletedAt(run[i].log, id, d)
      ensures run[i].waiters[w].answer.Some?
    {
      PassedDeletionAnswers(run, steps, a, k, i, w, id, message, d);
    }
    if Answered(run, steps, w, a + 1, i) && Exists(run[c].log, id) {
      var j :| a + 1 <= j < i && GivesAnswer(run[j], steps[j], w);
      AnsweredIff(run, steps, a, j, w, id, message);
      WatchEventAfterWatch(run, steps, a, k, j, w, id, message);
      LogGrows(run, steps, j, i);
      assert DeletedAt(run[i].log, id, run[j].waiters[w].watch.value + 1);
    }
  }

  /** An event is only seen once the watcher is there. */
  lemma WatchEventAfterWatch(run: seq<State>, steps: seq<Step>, a: nat, k: nat, j: nat, w: nat, id: string,
                             message: string)
    requires IsRun(run, steps) && a < k < |steps| && a < j < |steps|
    requires steps[a] == AddJob(w, id, message) && steps[k] == WatchKey(w) && steps[j] == WatchEvent(w)
    ensures k < j && w in run[j].waiters && run[j].waiters[w].watch.Some?
    ensures |run[k].log| <= run[j].waiters[w].watch.value < |run[j].log|
  {
    assert Enabled(run[j], steps[j]) && Enabled(run[k], steps[k]);
    if j < k {
      WatchStays(run, steps, j, k, w);
    }
    WatcherSeesAll(run, steps, k, j, w);
  }

  lemma {:induction false} WatchStays(run: seq<State>, steps: seq<Step>, j: nat, i: nat, w: nat)
    requires IsRun(run, steps) && j <= i < |run| && w in run[j].waiters && run[j].waiters[w].watch.Some?
    ensures w in run[i].waiters && run[i].waiters[w].watch.Some?
  {
    if j < i {
      WatchStays(run, steps, j, i - 1, w);
      assert Enabled(run[i - 1], steps[i - 1]);
      WatchAfter(run[i - 1], steps[i - 1], w);
    }
  }

  /** The caller's read finds the key while the job is still being processed, and then the job is done. */
  lemma ReadWhileProcessing(id: string, message: string) returns (steps: seq<Step>, s: State)
    ensures Reaches(steps, s)
    ensures steps == [AddJob(0, id, message), StartProcessing(0, id), CheckKey(0), ProcessJob(0, true)]
    ensures s == State([Put(id, message)], map[0 := Succeeded(id)], map[0 := Waiter(id, 1, None, None)],
                       {Success(id, 1)})
    ensures Exists(s.log, id)
  {
    steps, s := [], START;
    assert IsRun([START], steps) && [START][|steps|] == s;
    steps, s := Then(steps, s, AddJob(0, id, message));
    Append([], Put(id, message), id);
    assert s.log == [] + [Put(id, message)] && s.log[0].key == id;
    steps, s := Then(steps, s, StartProcessing(0, id));
    steps, s := Then(steps, s, CheckKey(0));
    steps, s := Then(steps, s, ProcessJob(0, true));
  }

  /** So a caller can wait in vain: its read comes first and finds the key, the job is done and its key deleted, and
  only then is the watcher there. */
  lemma MissedDeletion(id: string, message: string) returns (steps: seq<Step>, s: State)
    ensures Reaches(steps, s)
    ensures !Exists(s.log, id) && s.waiters == map[0 := Waiter(id, 1, Some(|s.log|), None)] && s.handlers == map[]
  {
    steps, s := ReadWhileProcessing(id, message);
    Append(s.log, Delete(id), id);
    steps, s := Then(steps, s, CompleteJob(0));
    steps, s := Then(steps, s, WatchKey(0));
  }
}
