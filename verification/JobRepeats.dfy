/** When the watcher gives a job to receiveJob that the list has covered: one that was listed, or already gone.

The watcher skips what is not newer than lastJobRevision, which the lister sets to the revision of its list. A watcher
that is in the middle of an older event overwrites it when it is done.
*/
module JobRepeats {
  import opened Etcd
  import opened JobTakeover
  import opened Options

  /** Some job was created between these two revisions. */
  predicate CreatedBetween(log: seq<Event<Job>>, from: nat, to: nat) {
    exists k :: from <= k < to && Creates(log, k)
  }

  lemma BetweenStays(log: seq<Event<Job>>, log': seq<Event<Job>>, from: nat, to: nat)
    requires log <= log' && to <= |log|
    ensures CreatedBetween(log', from, to) <==> CreatedBetween(log, from, to)
  {
    forall k | from <= k < to
      ensures Creates(log', k) <==> Creates(log, k)
    {
      assert log'[..k] == log[..k];
    }
  }

  lemma BetweenNext(log: seq<Event<Job>>, from: nat, to: nat)
    ensures CreatedBetween(log, from, to) <==> CreatedBetween(log, from + 1, to) || (from < to && Creates(log, from))
  {
  }

  /** The watcher gives a job to receiveJob that was created before the list was read. */
  ghost predicate HandsOlderJob(s: State, s': State) {
    NextStep(s, s', Observe) && Accepts(s) && s.cursor + 1 <= s.listRev
  }

  /** The watcher has not seen all jobs from before the list. */
  predicate IsPending(s: State) {
    CreatedBetween(s.log, s.cursor, s.listRev)
  }

  /** The watcher is in the middle of an event from before the list, and behind with others. */
  predicate IsBehind(s: State) {
    s.busy.Some? && s.busy.value < s.listRev && IsPending(s)
  }

  /** Nothing from before the list will be handed over by the watcher any more. */
  predicate Skips(s: State) {
    && (s.lister.Handing? || s.lister.Finished?)
    && ((s.lastJobRevision >= s.listRev && (s.busy.Some? ==> s.busy.value >= s.listRev)) || !IsPending(s))
  }

  lemma ObserveSkips(s: State, s': State)
    requires Skips(s) && NextStep(s, s', Observe)
    ensures Skips(s') && !HandsOlderJob(s, s')
  {
    BetweenNext(s.log, s.cursor, s.listRev);
  }

  lemma WatchSkips(s: State, s': State)
    requires CountersInv(s) && Skips(s) && NextStep(s, s', EstablishWatch)
    ensures Skips(s')
  {
    assert s'.listRev <= s'.cursor;
  }

  lemma ChangeSkips(s: State, s': State, e: Event<Job>)
    requires CountersInv(s) && Skips(s) && NextStep(s, s', Change(e))
    ensures Skips(s')
  {
    BetweenStays(s.log, s'.log, s.cursor, s.listRev);
  }

  lemma SkipsStays(s: State, s': State, step: Step)
    requires CountersInv(s) && Skips(s) && NextStep(s, s', step)
    ensures Skips(s')
  {
    match step
    case Observe => ObserveSkips(s, s');
    case EstablishWatch => WatchSkips(s, s');
    case Change(e) => ChangeSkips(s, s', e);
    case ObserveDone(_) =>
    case HandListed(_) =>
    case FinishList =>
  }

  lemma SkipsNext(run: seq<State>, i: nat)
    requires IsRun(run) && i + 1 < |run| && Skips(run[i])
    ensures Skips(run[i + 1])
  {
    RunKeepsInv(run, i);
    assert Next(run[i], run[i + 1]);
    var step :| NextStep(run[i], run[i + 1], step);
    SkipsStays(run[i], run[i + 1], step);
  }

  lemma {:induction false} SkipsForever(run: seq<State>, j: nat, i: nat)
    requires IsRun(run) && j <= i < |run| && Skips(run[j])
    ensures Skips(run[i])
  {
    if i > j {
      SkipsForever(run, j, i - 1);
      SkipsNext(run, i - 1);
    }
  }

  lemma ExtendRun(run: seq<State>, s': State, step: Step) returns (longer: seq<State>)
    requires IsRun(run) && NextStep(run[|run| - 1], s', step)
    ensures IsRun(longer) && longer == run + [s']
  {
    longer := run + [s'];
    assert Next(run[|run| - 1], s');
  }

  /** What an observation makes of the state. */
  function Observed(s: State): State
    requires s.cursor < |s.log|
  {
    if Accepts(s) then
      s.(cursor := s.cursor + 1, busy := Some(s.cursor + 1),
         handed := s.handed + iset{Created(s.log[s.cursor].key, s.cursor + 1)})
    else s.(cursor := s.cursor + 1)
  }

  /** An idle watcher whose next events may be handed over, with some from before the list among them. */
  ghost predicate CanGoOn(s: State) {
    && CountersInv(s) && s.watch.Some? && s.busy.None? && s.lastJobRevision <= s.cursor && IsPending(s)
  }

  lemma NextObserved(s: State)
    requires CanGoOn(s)
    ensures s.cursor < s.listRev <= |s.log| && NextStep(s, Observed(s), Observe)
    ensures if Creates(s.log, s.cursor) then HandsOlderJob(s, Observed(s)) else CanGoOn(Observed(s))
    ensures Observed(s).cursor == s.cursor + 1 && Observed(s).log == s.log
  {
    BetweenNext(s.log, s.cursor, s.listRev);
  }

  ghost predicate EndsWithRepeat(run: seq<State>) {
    |run| > 1 && HandsOlderJob(run[|run| - 2], run[|run| - 1])
  }

  /** It goes on to the next created job. */
  lemma {:induction false} ReachesCreated(run: seq<State>) returns (longer: seq<State>)
    requires IsRun(run) && CanGoOn(run[|run| - 1])
    ensures IsRun(longer) && run < longer && EndsWithRepeat(longer)
    decreases |run[|run| - 1].log| - run[|run| - 1].cursor
  {
    var s := run[|run| - 1];
    NextObserved(s);
    var next := ExtendRun(run, Observed(s), Observe);
    longer := next;
    if !Creates(s.log, s.cursor) {
      longer := ReachesCreated(next);
    }
  }

  ghost predicate CanRepeat(run: seq<State>) {
    exists longer: seq<State> :: IsRun(longer) && run < longer && EndsWithRepeat(longer)
  }

  lemma BehindCanRepeat(run: seq<State>)
    requires IsRun(run) && CountersInv(run[|run| - 1]) && IsBehind(run[|run| - 1])
    ensures CanRepeat(run)
  {
    var s := run[|run| - 1];
    var done := s.(busy := None, lastJobRevision := s.busy.value);
    var next := ExtendRun(run, done, ObserveDone(true));
    var longer := ReachesCreated(next);
  }

  lemma SkipsHandsNone(s: State, s': State)
    requires Skips(s)
    ensures !HandsOlderJob(s, s')
  {
    if NextStep(s, s', Observe) {
      ObserveSkips(s, s');
    }
  }

  lemma SkipsNeverRepeats(run: seq<State>, longer: seq<State>)
    requires run != [] && IsRun(longer) && run < longer && Skips(run[|run| - 1])
    ensures !EndsWithRepeat(longer)
  {
    var k := |longer| - 2;
    assert longer[|run| - 1] == run[|run| - 1];
    SkipsForever(longer, |run| - 1, k);
    SkipsHandsNone(longer[k], longer[k + 1]);
  }

  /** lastJobRevision keeps the watcher from handing over what the list has covered, except in one case: a continuation
  in which it does so all the same is possible if and only if, when the lister writes lastJobRevision, the watcher is in
  the middle of an older event and behind with others. */
  lemma RepeatsIffBehind(run: seq<State>)
    requires IsRun(run) && |run| > 1 && NextStep(run[|run| - 2], run[|run| - 1], StoreListRevision)
    ensures CanRepeat(run) <==> IsBehind(run[|run| - 1])
  {
    RunKeepsInv(run, |run| - 1);
    if IsBehind(run[|run| - 1]) {
      BehindCanRepeat(run);
    } else {
      assert Skips(run[|run| - 1]);
      forall longer: seq<State> | IsRun(longer) && run < longer
        ensures !EndsWithRepeat(longer)
      {
        SkipsNeverRepeats(run, longer);
      }
    }
  }

  function TwoJobs(a: string, b: string): seq<Event<Job>> {
    [Put(a, "first"), Put(b, "second")]
  }

  lemma TwoJobsCreated(a: string, b: string)
    requires IsJobKey(a) && IsJobKey(b) && a != b
    ensures Creates(TwoJobs(a, b), 0) && Creates(TwoJobs(a, b), 1)
    ensures Created(b, 2) in Live(TwoJobs(a, b))
  {
    var log := TwoJobs(a, b);
    assert log[..0] == [] && log[..1] == [] + [log[0]];
    Append([], log[0], b);
    assert log == log[..1] + [log[1]];
    Append(log[..1], log[1], b);
    CreatedAtIs(log, b, 2);
  }

  /** The case is real: the watcher processes a first job while the list with both is read and its revision written;
  when it is done, it can hand over the second job, which is on the list too. */
  lemma ListedJobCanRepeat(a: string, b: string) returns (run: seq<State>)
    requires IsJobKey(a) && IsJobKey(b) && a != b
    ensures IsRun(run) && IsBehind(run[|run| - 1]) && CanRepeat(run)
    ensures Created(b, 2) in run[|run| - 1].listed
  {
    var log := TwoJobs(a, b);
    TwoJobsCreated(a, b);
    var s := State(log[..0], None, 0, None, NotRead, 0, iset{}, 0, iset{});
    run := [s];
    s := s.(watch := Some(0));
    run := ExtendRun(run, s, EstablishWatch);
    s := s.(log := log[..1]);
    run := ExtendRun(run, s, Change(log[0]));
    s := s.(log := log);
    run := ExtendRun(run, s, Change(log[1]));
    run := ExtendRun(run, Observed(s), Observe);
    s := Observed(s);
    s := s.(lister := Read, listRev := 2, listed := Live(log));
    run := ExtendRun(run, s, ReadList);
    s := s.(lister := Handing, lastJobRevision := 2);
    run := ExtendRun(run, s, StoreListRevision);
    RunKeepsInv(run, |run| - 1);
    BehindCanRepeat(run);
  }
}
