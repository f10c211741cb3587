/** Adding a job and waiting for it.

A job ID is derived from the job, so two callers that want the same thing share one key. Whoever processes
the job deletes the key after success, and only then.
*/
module JobWait {
  import opened Etcd
  import opened Options

  /** Work on a job by any goroutine of any node: ProcessJob is running, or it returned without an error. */
  datatype Handler = Processing(id: string) | Succeeded(id: string)

  /** A caller of AddJob and WaitForJob. `added` is the revision of its own put; `watch` is the cursor of its
  watcher; `answer` is the first message on its channel, true for nil. */
  datatype Waiter = Waiter(id: string, added: nat, watch: Option<nat>, answer: Option<bool>)

  /** History: a ProcessJob that succeeded, and the revision the store had then. */
  datatype Success = Success(id: string, rev: nat)

  datatype State = State(
    log: seq<Event<string>>,
    handlers: map<nat, Handler>,
    waiters: map<nat, Waiter>,
    successes: set<Success>)

  datatype Step =
    | AddJob(w: nat, id: string, message: string)
    | StartProcessing(h: nat, id: string)
    | ProcessJob(h: nat, success: bool)
    | CompleteJob(h: nat)
    | WatchKey(w: nat)
    | WatchEvent(w: nat)
    | CheckKey(w: nat)
    | ReportError(w: nat)

  const START := State([], map[], map[], {})

  /** ReportError stands for a failed read and for a broken watch. */
  predicate Enabled(s: State, step: Step) {
    match step
    case AddJob(w, _, _) => w !in s.waiters
    case StartProcessing(h, id) =>
      h !in s.handlers && exists i :: 0 <= i < |s.log| && s.log[i].key == id && s.log[i].Put?
    case ProcessJob(h, _) => h in s.handlers && s.handlers[h].Processing?
    case CompleteJob(h) => h in s.handlers && s.handlers[h].Succeeded?
    case WatchKey(w) => w in s.waiters && s.waiters[w].watch.None?
    case WatchEvent(w) =>
      w in s.waiters && s.waiters[w].watch.Some? && s.waiters[w].watch.value < |s.log|
    case CheckKey(w) => w in s.waiters
    case ReportError(w) => w in s.waiters
  }

  /** Only the first message counts: the caller closes the channel after it. */
  function Answer(w: Waiter, nil: bool): Waiter {
    if w.answer.None? then w.(answer := Some(nil)) else w
  }

  function Do(s: State, step: Step): State
    requires Enabled(s, step)
  {
    match step
    case AddJob(w, id, message) =>
      s.(log := s.log + [Put(id, message)], waiters := s.waiters[w := Waiter(id, |s.log| + 1, None, None)])
    case StartProcessing(h, id) => s.(handlers := s.handlers[h := Processing(id)])
    case ProcessJob(h, success) =>
      if success
      then s.(handlers := s.handlers[h := Succeeded(s.handlers[h].id)],
              successes := s.successes + {Success(s.handlers[h].id, |s.log|)})
      else s.(handlers := s.handlers - {h})
    case CompleteJob(h) =>
      s.(log := if Exists(s.log, s.handlers[h].id) then s.log + [Delete(s.handlers[h].id)] else s.log,
         handlers := s.handlers - {h})
    case WatchKey(w) => s.(waiters := s.waiters[w := s.waiters[w].(watch := Some(|s.log|))])
    case WatchEvent(w) =>
      var c := s.waiters[w].watch.value;
      var moved := s.waiters[w].(watch := Some(c + 1));
      s.(waiters := s.waiters[w := if s.log[c] == Delete(moved.id) then Answer(moved, true) else moved])
    case CheckKey(w) =>
      if Exists(s.log, s.waiters[w].id) then s else s.(waiters := s.waiters[w := Answer(s.waiters[w], true)])
    case ReportError(w) => s.(waiters := s.waiters[w := Answer(s.waiters[w], false)])
  }

  predicate IsRun(run: seq<State>, steps: seq<Step>) {
    && |run| == |steps| + 1 && run[0] == START
    && forall i {:trigger steps[i]} | 0 <= i < |steps| ::
         Enabled(run[i], steps[i]) && run[i + 1] == Do(run[i], steps[i])
  }

  /** The job's key was deleted by the event that created revision d. */
  predicate DeletedAt(log: seq<Event<string>>, id: string, d: nat) {
    0 < d <= |log| && log[d - 1] == Delete(id)
  }

  ghost predicate DeletedAfter(log: seq<Event<string>>, id: string, rev: nat) {
    exists d: nat :: rev < d && DeletedAt(log, id, d)
  }

  /** ProcessJob succeeded for the job while the store was still before revision d. */
  ghost predicate SucceededBefore(s: State, id: string, d: nat) {
    exists r: nat :: r < d && Success(id, r) in s.successes
  }

  ghost predicate WaiterInv(log: seq<Event<string>>, w: Waiter) {
    && 0 < w.added <= |log|
    && log[w.added - 1].key == w.id && log[w.added - 1].Put?
    && (w.watch.Some? ==> w.added <= w.watch.value <= |log|)
    && (w.answer == Some(true) ==> DeletedAfter(log, w.id, w.added))
  }

  ghost predicate Inv(s: State) {
    && (forall d: nat, id | DeletedAt(s.log, id, d) :: SucceededBefore(s, id, d))
    && (forall h | h in s.handlers && s.handlers[h].Succeeded? :: SucceededBefore(s, s.handlers[h].id, |s.log| + 1))
    && (forall w | w in s.waiters :: WaiterInv(s.log, s.waiters[w]))
  }

  lemma WaiterInvAppend(log: seq<Event<string>>, e: Event<string>, w: Waiter)
    requires WaiterInv(log, w)
    ensures WaiterInv(log + [e], w)
  {
    if DeletedAfter(log, w.id, w.added) {
      var d :| w.added < d && DeletedAt(log, w.id, d);
      assert DeletedAt(log + [e], w.id, d);
    }
  }

  /** More successes and a longer log keep what is known about deletions. */
  lemma SuccessesGrow(s: State, s': State, id: string, d: nat)
    requires s.successes <= s'.successes && SucceededBefore(s, id, d)
    ensures forall d' | d' >= d :: SucceededBefore(s', id, d')
  {
    var r: nat :| r < d && Success(id, r) in s.successes;
  }

  lemma AppendKeepsInv(s: State, s': State, e: Event<string>)
    requires Inv(s) && s'.log == s.log + [e] && s'.successes == s.successes
    requires forall h | h in s'.handlers :: h in s.handlers && s'.handlers[h] == s.handlers[h]
    requires forall w | w in s'.waiters ::
               (w in s.waiters && s'.waiters[w] == s.waiters[w]) || WaiterInv(s'.log, s'.waiters[w])
    requires e.Delete? ==> SucceededBefore(s, e.key, |s.log| + 1)
    ensures Inv(s')
  {
    forall w | w in s'.waiters ensures WaiterInv(s'.log, s'.waiters[w]) {
      if w in s.waiters {
        WaiterInvAppend(s.log, e, s.waiters[w]);
      }
    }
    forall d: nat, id | DeletedAt(s'.log, id, d) ensures SucceededBefore(s', id, d) {
      if d <= |s.log| {
        assert DeletedAt(s.log, id, d);
        SuccessesGrow(s, s', id, d);
      } else {
        SuccessesGrow(s, s', id, |s.log| + 1);
      }
    }
    forall h | h in s'.handlers && s'.handlers[h].Succeeded?
      ensures SucceededBefore(s', s'.handlers[h].id, |s'.log| + 1)
    {
      SuccessesGrow(s, s', s.handlers[h].id, |s.log| + 1);
    }
  }

  lemma ProcessKeepsInv(s: State, h: nat, success: bool)
    requires Inv(s) && Enabled(s, ProcessJob(h, success))
    ensures Inv(Do(s, ProcessJob(h, success)))
  {
    var s' := Do(s, ProcessJob(h, success));
    forall d: nat, id | DeletedAt(s'.log, id, d) ensures SucceededBefore(s', id, d) {
      SuccessesGrow(s, s', id, d);
    }
    forall k | k in s'.handlers && s'.handlers[k].Succeeded?
      ensures SucceededBefore(s', s'.handlers[k].id, |s'.log| + 1)
    {
      if k == h {
        assert Success(s.handlers[h].id, |s.log|) in s'.successes;
      } else {
        SuccessesGrow(s, s', s.handlers[k].id, |s.log| + 1);
      }
    }
  }

  /** Steps of a waiter look at the log and change only that waiter. */
  lemma WaiterKeepsInv(s: State, w: nat, x: Waiter)
    requires Inv(s) && WaiterInv(s.log, x)
    ensures Inv(s.(waiters := s.waiters[w := x]))
  {
    var s' := s.(waiters := s.waiters[w := x]);
    forall d: nat, id | DeletedAt(s'.log, id, d) ensures SucceededBefore(s', id, d) {
      SuccessesGrow(s, s', id, d);
    }
    forall k | k in s'.handlers && s'.handlers[k].Succeeded?
      ensures SucceededBefore(s', s'.handlers[k].id, |s'.log| + 1)
    {
      SuccessesGrow(s, s', s.handlers[k].id, |s.log| + 1);
    }
  }

  /** A key that was put and does not exist any more was deleted in between. */
  lemma AbsentMeansDeleted(log: seq<Event<string>>, w: Waiter)
    requires WaiterInv(log, w) && !Exists(log, w.id)
    ensures DeletedAfter(log, w.id, w.added)
  {
    var r := LastRev(log, w.id);
    assert DeletedAt(log, w.id, r);
  }

  lemma DoKeepsInv(s: State, step: Step)
    requires Inv(s) && Enabled(s, step)
    ensures Inv(Do(s, step))
  {
    var s' := Do(s, step);
    match step
    case AddJob(w, id, message) => AppendKeepsInv(s, s', Put(id, message));
    case StartProcessing(h, id) => HandlersKeepInv(s, s'.handlers);
    case ProcessJob(h, success) => ProcessKeepsInv(s, h, success);
    case CompleteJob(h) =>
      if Exists(s.log, s.handlers[h].id) {
        AppendKeepsInv(s, s', Delete(s.handlers[h].id));
      } else {
        HandlersKeepInv(s, s'.handlers);
      }
    case WatchEvent(w) =>
      var c := s.waiters[w].watch.value;
      assert s.log[c] == Delete(s.waiters[w].id) ==> DeletedAt(s.log, s.waiters[w].id, c + 1);
      WaiterKeepsInv(s, w, s'.waiters[w]);
    case CheckKey(w) =>
      if !Exists(s.log, s.waiters[w].id) {
        AbsentMeansDeleted(s.log, s.waiters[w]);
        WaiterKeepsInv(s, w, s'.waiters[w]);
      }
    case WatchKey(w) => WaiterKeepsInv(s, w, s'.waiters[w]);
    case ReportError(w) => WaiterKeepsInv(s, w, s'.waiters[w]);
  }

  lemma HandlersKeepInv(s: State, handlers: map<nat, Handler>)
    requires Inv(s)
    requires forall h | h in handlers && handlers[h].Succeeded? :: h in s.handlers && handlers[h] == s.handlers[h]
    ensures Inv(s.(handlers := handlers))
  {
    var s' := s.(handlers := handlers);
    forall d: nat, id | DeletedAt(s'.log, id, d) ensures SucceededBefore(s', id, d) {
      SuccessesGrow(s, s', id, d);
    }
    forall k | k in s'.handlers && s'.handlers[k].Succeeded?
      ensures SucceededBefore(s', s'.handlers[k].id, |s'.log| + 1)
    {
      SuccessesGrow(s, s', s.handlers[k].id, |s.log| + 1);
    }
  }

  lemma {:induction false} RunKeepsInv(run: seq<State>, steps: seq<Step>, i: nat)
    requires IsRun(run, steps) && i < |run|
    ensures Inv(run[i])
  {
    if i > 0 {
      RunKeepsInv(run, steps, i - 1);
      DoKeepsInv(run[i - 1], steps[i - 1]);
    }
  }

  /** WaitForJob answers nil only if the job's key was deleted after the AddJob of the same caller, and such a
  deletion only follows a ProcessJob that succeeded for that ID. */
  lemma NilMeansDone(run: seq<State>, steps: seq<Step>, i: nat, w: nat) returns (d: nat, r: nat)
    requires IsRun(run, steps) && i < |run| && w in run[i].waiters
    requires run[i].waiters[w].answer == Some(true)
    ensures run[i].waiters[w].added < d && DeletedAt(run[i].log, run[i].waiters[w].id, d)
    ensures r < d && Success(run[i].waiters[w].id, r) in run[i].successes
  {
    RunKeepsInv(run, steps, i);
    var s := run[i];
    var waiter := s.waiters[w];
    d :| waiter.added < d && DeletedAt(s.log, waiter.id, d);
    assert SucceededBefore(s, waiter.id, d);
    r :| r < d && Success(waiter.id, r) in s.successes;
  }

  ghost predicate Reaches(steps: seq<Step>, s: State) {
    exists run :: IsRun(run, steps) && run[|steps|] == s
  }

  lemma Then(steps: seq<Step>, s: State, step: Step) returns (steps': seq<Step>, s': State)
    requires Reaches(steps, s) && Enabled(s, step)
    ensures steps' == steps + [step] && s' == Do(s, step) && Reaches(steps', s')
  {
    var run :| IsRun(run, steps) && run[|steps|] == s;
    steps', s' := steps + [step], Do(s, step);
    assert IsRun(run + [s'], steps') && (run + [s'])[|steps'|] == s';
  }

  /** A handler has processed the job, and has not deleted its key yet, when a second caller adds it again. */
  lemma AddedWhileCompleting(id: string, message: string) returns (steps: seq<Step>, s: State)
    ensures Reaches(steps, s)
    ensures s == State([Put(id, message), Put(id, message)], map[0 := Succeeded(id)],
                       map[0 := Waiter(id, 1, None, None), 1 := Waiter(id, 2, None, None)], {Success(id, 1)})
  {
    steps, s := [], START;
    assert IsRun([START], steps) && [START][|steps|] == s;
    steps, s := Then(steps, s, AddJob(0, id, message));
    assert s.log[0].key == id;
    steps, s := Then(steps, s, StartProcessing(0, id));
    steps, s := Then(steps, s, ProcessJob(0, true));
    steps, s := Then(steps, s, AddJob(1, id, message));
  }

  /** The success need not be later than the AddJob: a caller that adds a job whose key still exists can be
  told that it is done although no ProcessJob started after its request. */
  lemma AnswerFromEarlierWork(id: string, message: string) returns (steps: seq<Step>, s: State)
    ensures Reaches(steps, s)
    ensures 1 in s.waiters && s.waiters[1].id == id && s.waiters[1].answer == Some(true)
    ensures s.handlers == map[] && forall x | x in s.successes :: x.rev < s.waiters[1].added
  {
    steps, s := AddedWhileCompleting(id, message);
    steps, s := Then(steps, s, CompleteJob(0));
    steps, s := Then(steps, s, CheckKey(1));
  }

  // When an answer is about work that ended after the request.

  /** Nobody has finished ProcessJob for the job without having deleted its key yet. */
  predicate NobodyDone(s: State, id: string) {
    forall h | h in s.handlers :: s.handlers[h] != Succeeded(id)
  }

  /** ProcessJob succeeded for the job at a revision of the store from `from` on, and before d. */
  ghost predicate SucceededBetween(s: State, id: string, from: nat, d: nat) {
    exists r: nat :: from <= r < d && Success(id, r) in s.successes
  }

  /** Whatever can be taken for the end of the job since revision `from` is work that ended since then. */
  ghost predicate Fresh(s: State, id: string, from: nat) {
    && from <= |s.log|
    && (forall h | h in s.handlers && s.handlers[h] == Succeeded(id) :: SucceededBetween(s, id, from, |s.log| + 1))
    && (forall d: nat | from < d && DeletedAt(s.log, id, d) :: SucceededBetween(s, id, from, d))
  }

  lemma BetweenGrows(s: State, s': State, id: string, from: nat, d: nat, d': nat)
    requires s.successes <= s'.successes && d <= d' && SucceededBetween(s, id, from, d)
    ensures SucceededBetween(s', id, from, d')
  {
    var r: nat :| from <= r < d && Success(id, r) in s.successes;
  }

  lemma DoKeepsFresh(s: State, step: Step, id: string, from: nat)
    requires Fresh(s, id, from) && Enabled(s, step)
    ensures Fresh(Do(s, step), id, from)
  {
    var s' := Do(s, step);
    forall h | h in s'.handlers && s'.handlers[h] == Succeeded(id)
      ensures SucceededBetween(s', id, from, |s'.log| + 1)
    {
      if h in s.handlers && s.handlers[h] == Succeeded(id) {
        BetweenGrows(s, s', id, from, |s.log| + 1, |s'.log| + 1);
      } else {
        assert Success(id, |s.log|) in s'.successes;
      }
    }
    forall d: nat | from < d && DeletedAt(s'.log, id, d)
      ensures SucceededBetween(s', id, from, d)
    {
      if d <= |s.log| {
        assert DeletedAt(s.log, id, d);
        BetweenGrows(s, s', id, from, d, d);
      } else {
        assert step.CompleteJob? && s.handlers[step.h] == Succeeded(id);
        BetweenGrows(s, s', id, from, |s.log| + 1, d);
      }
    }
  }

  /** The run goes on with the same beginning. */
  ghost predicate Extends(run: seq<State>, steps: seq<Step>, run': seq<State>, steps': seq<Step>) {
    IsRun(run', steps') && run <= run' && steps <= steps'
  }

  /** The caller was told that the job is done, so ProcessJob succeeded for it after the caller's own AddJob and
  before the deletion that the answer stands for. */
  ghost predicate AnsweredByNewWork(s: State, w: nat) {
    w in s.waiters && s.waiters[w].answer == Some(true) ==>
      exists d: nat ::
        DeletedAt(s.log, s.waiters[w].id, d) && SucceededBetween(s, s.waiters[w].id, s.waiters[w].added, d)
  }

  lemma WaiterStays(s: State, step: Step, w: nat)
    requires w in s.waiters && Enabled(s, step)
    ensures var s' := Do(s, step);
            w in s'.waiters && s'.waiters[w].id == s.waiters[w].id && s'.waiters[w].added == s.waiters[w].added
  {
  }

  lemma {:induction false} FreshFrom(run: seq<State>, steps: seq<Step>, k: nat, i: nat, w: nat)
    requires IsRun(run, steps) && k <= i < |run|
    requires w in run[k].waiters && Fresh(run[k], run[k].waiters[w].id, run[k].waiters[w].added)
    ensures w in run[i].waiters && run[i].waiters[w].id == run[k].waiters[w].id
    ensures run[i].waiters[w].added == run[k].waiters[w].added
    ensures Fresh(run[i], run[k].waiters[w].id, run[k].waiters[w].added)
  {
    if k < i {
      FreshFrom(run, steps, k, i - 1, w);
      WaiterStays(run[i - 1], steps[i - 1], w);
      DoKeepsFresh(run[i - 1], steps[i - 1], run[k].waiters[w].id, run[k].waiters[w].added);
    }
  }

  lemma {:induction false} SuccessesAreOld(run: seq<State>, steps: seq<Step>, i: nat)
    requires IsRun(run, steps) && i < |run|
    ensures forall x | x in run[i].successes :: x.rev <= |run[i].log|
  {
    if i > 0 {
      SuccessesAreOld(run, steps, i - 1);
      assert Enabled(run[i - 1], steps[i - 1]);
    }
  }

  /** If nobody was done with the job when it was added, a nil answer always comes from later work. */
  lemma NilMeansNewWork(run: seq<State>, steps: seq<Step>, k: nat, i: nat, w: nat, id: string, message: string)
    requires IsRun(run, steps) && k < i < |run| && steps[k] == AddJob(w, id, message)
    requires NobodyDone(run[k + 1], id)
    ensures AnsweredByNewWork(run[i], w)
  {
    var s := run[k + 1];
    assert Enabled(run[k], steps[k]) && s == Do(run[k], steps[k]);
    assert Fresh(s, id, |s.log|);
    FreshFrom(run, steps, k + 1, i, w);
    if run[i].waiters[w].answer == Some(true) {
      var d, r := NilMeansDone(run, steps, i, w);
    }
  }

  lemma OneMore(run: seq<State>, steps: seq<Step>, step: Step) returns (run': seq<State>, steps': seq<Step>)
    requires IsRun(run, steps) && Enabled(run[|run| - 1], step)
    ensures Extends(run, steps, run', steps') && |run'| == |run| + 1 && run'[|run|] == Do(run[|run| - 1], step)
  {
    run', steps' := run + [Do(run[|run| - 1], step)], steps + [step];
  }

  /** If somebody was done with it, two more steps tell the caller that the job is done without any new work. */
  lemma OldWorkAnswers(run: seq<State>, steps: seq<Step>, w: nat, id: string, message: string)
      returns (run': seq<State>, steps': seq<Step>)
    requires IsRun(run, steps) && |steps| > 0 && steps[|steps| - 1] == AddJob(w, id, message)
    requires !NobodyDone(run[|run| - 1], id)
    ensures Extends(run, steps, run', steps')
    ensures run'[|run'| - 1].successes == run[|run| - 1].successes
    ensures w in run'[|run'| - 1].waiters && run'[|run'| - 1].waiters[w].answer == Some(true)
    ensures !AnsweredByNewWork(run'[|run'| - 1], w)
  {
    var before, s := run[|run| - 2], run[|run| - 1];
    assert Enabled(before, steps[|steps| - 1]) && s == Do(before, steps[|steps| - 1]);
    Append(before.log, Put(id, message), id);
    SuccessesAreOld(run, steps, |run| - 2);
    var h :| h in s.handlers && s.handlers[h] == Succeeded(id);
    run', steps' := OneMore(run, steps, CompleteJob(h));
    Append(s.log, Delete(id), id);
    run', steps' := OneMore(run', steps', CheckKey(w));
  }

  /** A caller of AddJob can rely on work that ends after its request if and only if, when it adds the job, no
  handler is between finishing the job and deleting its key. */
  lemma AnswersAreNewIffNobodyDone(run: seq<State>, steps: seq<Step>, w: nat, id: string, message: string)
    requires IsRun(run, steps) && |steps| > 0 && steps[|steps| - 1] == AddJob(w, id, message)
    ensures NobodyDone(run[|run| - 1], id) <==>
            forall run', steps' | Extends(run, steps, run', steps') :: AnsweredByNewWork(run'[|run'| - 1], w)
  {
    if NobodyDone(run[|run| - 1], id) {
      var k := |steps| - 1;
      forall run', steps' | Extends(run, steps, run', steps')
        ensures AnsweredByNewWork(run'[|run'| - 1], w)
      {
        assert steps'[k] == steps[k] && run'[k + 1] == run[k + 1];
        NilMeansNewWork(run', steps', k, |run'| - 1, w, id, message);
      }
    } else {
      var run', steps' := OldWorkAnswers(run, steps, w, id, message);
    }
  }
}
