/** Takeovers of one node, term after term.

Every term has its own watcher and its own list read, and they share lastJobRevision. The lister of a term is over
before the next term begins, but its watcher is not: it may be in the middle of a batch, and hand over more jobs and
write lastJobRevision at any time later.
*/
module JobTerms {
  import opened Etcd
  import opened JobTakeover
  import opened Options

  /** `watch` is the cursor at which the watch was established; `busy` the revision of the event being processed. */
  datatype Watcher = Watcher(watch: Option<nat>, cursor: nat, busy: Option<nat>)

  /** The last watcher is that of the current term; `handed` is the history of the jobs given to receiveJob since the
  term began, by any watcher. */
  datatype State = State(
    log: seq<Event<Job>>,
    watchers: seq<Watcher>,
    lister: Lister,
    listRev: nat,
    listed: iset<Created>,
    lastJobRevision: nat,
    handed: iset<Created>)

  datatype Step =
    | Change(e: Event<Job>)
    | BeginTerm
    | EstablishWatch
    | Observe(t: nat)
    | ObserveDone(t: nat, success: bool)
    | ReadList
    | StoreListRevision
    | HandListed(job: Created)
    | FinishList

  function JobAt(log: seq<Event<Job>>, i: nat): Created
    requires i < |log|
  {
    Created(log[i].key, i + 1)
  }

  ghost predicate Enabled(s: State, step: Step) {
    match step
    case Change(_) => true
    case BeginTerm => s.watchers == [] || s.lister.Finished?
    case EstablishWatch => s.watchers != [] && s.watchers[|s.watchers| - 1].watch.None?
    case Observe(t) =>
      && t < |s.watchers| && s.watchers[t].watch.Some? && s.watchers[t].busy.None?
      && s.watchers[t].cursor < |s.log|
    case ObserveDone(t, _) => t < |s.watchers| && s.watchers[t].busy.Some?
    case ReadList => s.watchers != [] && s.lister.NotRead?
    case StoreListRevision => s.lister.Read?
    case HandListed(job) => s.lister.Handing? && job in s.listed
    case FinishList => s.lister.Handing? && s.listed == iset{}
  }

  /** A watcher takes the next event, and hands its job over if it is new by the shared revision. */
  function Observed(s: State, t: nat): State
    requires t < |s.watchers| && s.watchers[t].cursor < |s.log|
  {
    var w := s.watchers[t];
    if w.cursor + 1 > s.lastJobRevision && Creates(s.log, w.cursor) then
      s.(watchers := s.watchers[t := w.(cursor := w.cursor + 1, busy := Some(w.cursor + 1))],
         handed := s.handed + iset{JobAt(s.log, w.cursor)})
    else s.(watchers := s.watchers[t := w.(cursor := w.cursor + 1)])
  }

  ghost function Do(s: State, step: Step): State
    requires Enabled(s, step)
  {
    match step
    case Change(e) => s.(log := s.log + [e])
    case BeginTerm =>
      s.(watchers := s.watchers + [Watcher(None, 0, None)], lister := NotRead, listRev := 0, listed := iset{},
         lastJobRevision := 0, handed := iset{})
    case EstablishWatch =>
      s.(watchers := s.watchers[|s.watchers| - 1 := Watcher(Some(|s.log|), |s.log|, None)])
    case Observe(t) => Observed(s, t)
    case ObserveDone(t, success) =>
      s.(watchers := s.watchers[t := s.watchers[t].(busy := None)],
         lastJobRevision := if success then s.watchers[t].busy.value else s.lastJobRevision)
    case ReadList => s.(lister := Read, listRev := |s.log|, listed := Live(s.log))
    case StoreListRevision => s.(lister := Handing, lastJobRevision := s.listRev)
    case HandListed(job) => s.(listed := s.listed - iset{job}, handed := s.handed + iset{job})
    case FinishList => s.(lister := Finished)
  }

  ghost predicate Next(s: State, s': State) {
    exists step :: Enabled(s, step) && s' == Do(s, step)
  }

  ghost predicate IsRun(run: seq<State>) {
    && run != []
    && run[0] == State.State(run[0].log, [], NotRead, 0, iset{}, 0, iset{})
    && forall i | 0 < i < |run| :: Next(run[i - 1], run[i])
  }

  ghost predicate WatcherInv(s: State, t: nat)
    requires t < |s.watchers|
  {
    var w := s.watchers[t];
    && w.cursor <= |s.log|
    && (if w.watch.Some? then w.watch.value <= w.cursor else w.cursor == 0 && w.busy.None?)
    && (w.busy.Some? ==> w.busy.value <= w.cursor)
  }

  ghost predicate CountersInv(s: State) {
    && s.listRev <= |s.log| && s.lastJobRevision <= |s.log|
    && forall t | 0 <= t < |s.watchers| :: WatcherInv(s, t)
  }

  /** The current term's list was read, and its watch was not established too late for it. */
  predicate InTime(s: State) {
    && s.watchers != [] && !s.lister.NotRead?
    && var w := s.watchers[|s.watchers| - 1]; w.watch.Some? ==> w.watch.value <= s.listRev
  }

  /** The jobs that were created after the list read, up to n, were handed over. */
  ghost predicate HandedUpTo(s: State, n: nat) {
    forall i | s.listRev <= i < n && Creates(s.log, i) :: JobAt(s.log, i) in s.handed
  }

  /** In time, no watcher of any term and no value of the shared revision is ahead of what was handed over. */
  ghost predicate Inv(s: State) {
    && CountersInv(s)
    && (InTime(s) ==>
          && HandedUpTo(s, s.lastJobRevision)
          && (forall t | 0 <= t < |s.watchers| :: HandedUpTo(s, s.watchers[t].cursor))
          && (forall job | job in Live(s.log[..s.listRev]) :: job in s.listed || job in s.handed)
          && (s.lister.Finished? ==> s.listed == iset{}))
  }

  lemma HandedGrows(s: State, s': State, n: nat)
    requires n <= |s.log| && HandedUpTo(s, n)
    requires s.log <= s'.log && s.listRev == s'.listRev && s.handed <= s'.handed
    ensures HandedUpTo(s', n)
  {
    forall i | s'.listRev <= i < n && Creates(s'.log, i)
      ensures JobAt(s'.log, i) in s'.handed
    {
      assert s'.log[..i] == s.log[..i] && s'.log[i] == s.log[i];
      assert JobAt(s.log, i) in s.handed;
    }
  }

  lemma ChangeKeepsInv(s: State, e: Event<Job>)
    requires Inv(s)
    ensures Inv(Do(s, Step.Change(e)))
  {
    var s' := Do(s, Step.Change(e));
    forall t | 0 <= t < |s'.watchers|
      ensures WatcherInv(s', t)
    {
      assert WatcherInv(s, t);
    }
    if InTime(s') {
      HandedGrows(s, s', s.lastJobRevision);
      forall t | 0 <= t < |s'.watchers|
        ensures HandedUpTo(s', s'.watchers[t].cursor)
      {
        assert WatcherInv(s, t);
        HandedGrows(s, s', s.watchers[t].cursor);
      }
      assert s'.log[..s'.listRev] == s.log[..s.listRev];
    }
  }

  /** The watcher hands the job over, or somebody is ahead of it and it was handed over before. */
  lemma ObservedIsHanded(s: State, t: nat)
    requires Enabled(s, Step.Observe(t)) && HandedUpTo(s, s.watchers[t].cursor) && HandedUpTo(s, s.lastJobRevision)
    ensures HandedUpTo(Observed(s, t), s.watchers[t].cursor + 1)
  {
    var s', c := Observed(s, t), s.watchers[t].cursor;
    forall i | s'.listRev <= i < c + 1 && Creates(s'.log, i)
      ensures JobAt(s'.log, i) in s'.handed
    {
      assert i < c || i < s.lastJobRevision ==> JobAt(s.log, i) in s.handed;
    }
  }

  lemma ObserveKeepsInv(s: State, t: nat)
    requires Inv(s) && Enabled(s, Step.Observe(t))
    ensures Inv(Do(s, Step.Observe(t)))
  {
    var s' := Do(s, Step.Observe(t));
    forall u | 0 <= u < |s'.watchers|
      ensures WatcherInv(s', u)
    {
      assert WatcherInv(s, u);
    }
    if InTime(s') {
      assert InTime(s);
      HandedGrows(s, s', s.lastJobRevision);
      ObservedIsHanded(s, t);
      forall u | 0 <= u < |s'.watchers|
        ensures HandedUpTo(s', s'.watchers[u].cursor)
      {
        if u != t {
          assert WatcherInv(s, u);
          HandedGrows(s, s', s.watchers[u].cursor);
        }
      }
    }
  }

  lemma ObserveDoneKeepsInv(s: State, t: nat, success: bool)
    requires Inv(s) && Enabled(s, Step.ObserveDone(t, success))
    ensures Inv(Do(s, Step.ObserveDone(t, success)))
  {
    var s' := Do(s, Step.ObserveDone(t, success));
    assert WatcherInv(s, t);
    forall u | 0 <= u < |s'.watchers|
      ensures WatcherInv(s', u)
    {
      assert WatcherInv(s, u);
    }
    if InTime(s') {
      HandedGrows(s, s', s.lastJobRevision);
      forall u | 0 <= u < |s'.watchers|
        ensures HandedUpTo(s', s'.watchers[u].cursor)
      {
        assert WatcherInv(s, u);
        HandedGrows(s, s', s.watchers[u].cursor);
      }
    }
  }

  lemma ListerKeepsInv(s: State, step: Step)
    requires Inv(s) && Enabled(s, step)
    requires step.ReadList? || step.StoreListRevision? || step.HandListed? || step.FinishList?
    ensures Inv(Do(s, step))
  {
    var s' := Do(s, step);
    forall u | 0 <= u < |s'.watchers|
      ensures WatcherInv(s', u)
    {
      assert WatcherInv(s, u);
    }
    if InTime(s') {
      if step.ReadList? {
        assert s'.log[..s'.listRev] == s.log;
      } else {
        HandedGrows(s, s', s.lastJobRevision);
        forall u | 0 <= u < |s'.watchers|
          ensures HandedUpTo(s', s'.watchers[u].cursor)
        {
          assert WatcherInv(s, u);
          HandedGrows(s, s', s.watchers[u].cursor);
        }
      }
    }
  }

  lemma WatchKeepsInv(s: State, step: Step)
    requires Inv(s) && Enabled(s, step) && (step.BeginTerm? || step.EstablishWatch?)
    ensures Inv(Do(s, step))
  {
    var s' := Do(s, step);
    forall u | 0 <= u < |s'.watchers|
      ensures WatcherInv(s', u)
    {
      assert u < |s.watchers| ==> WatcherInv(s, u);
    }
    if InTime(s') {
      HandedGrows(s, s', s.lastJobRevision);
      forall u | 0 <= u < |s'.watchers|
        ensures HandedUpTo(s', s'.watchers[u].cursor)
      {
        if u < |s.watchers| - 1 {
          assert WatcherInv(s, u);
          HandedGrows(s, s', s.watchers[u].cursor);
        }
      }
    }
  }

  lemma {:induction false} RunKeepsInv(run: seq<State>, i: nat)
    requires IsRun(run) && i < |run|
    ensures Inv(run[i])
  {
    if i > 0 {
      RunKeepsInv(run, i - 1);
      var s := run[i - 1];
      assert Next(s, run[i]);
      var step :| Enabled(s, step) && run[i] == Do(s, step);
      match step
      case Change(e) => ChangeKeepsInv(s, e);
      case Observe(t) => ObserveKeepsInv(s, t);
      case ObserveDone(t, success) => ObserveDoneKeepsInv(s, t, success);
      case BeginTerm => WatchKeepsInv(s, step);
      case EstablishWatch => WatchKeepsInv(s, step);
      case _ => ListerKeepsInv(s, step);
    }
  }

  /** No job is lost in any term, although watchers of earlier terms are still at work and write lastJobRevision: with
  the term's watch established no later than its list was read, every job that was live then was handed over in this
  term, and so was every job that was created afterwards and that the term's watcher has passed. */
  lemma NoJobLostInAnyTerm(run: seq<State>, i: nat)
    requires IsRun(run) && i < |run| && run[i].watchers != [] && run[i].lister.Finished?
    requires var w := run[i].watchers[|run[i].watchers| - 1]; w.watch.Some? && w.watch.value <= run[i].listRev
    ensures var s := run[i];
            var c := s.watchers[|s.watchers| - 1].cursor;
            && s.listRev <= |s.log| && c <= |s.log|
            && (forall job | job in Live(s.log[..s.listRev]) :: job in s.handed)
            && (forall k | s.listRev <= k < c && Creates(s.log, k) :: JobAt(s.log, k) in s.handed)
  {
    RunKeepsInv(run, i);
    assert WatcherInv(run[i], |run[i].watchers| - 1);
  }

  /** Hence in any term a leader that has caught up was handed every job whose key exists. */
  lemma LiveJobsWereHandedInAnyTerm(run: seq<State>, i: nat, key: string)
    requires IsRun(run) && i < |run| && run[i].watchers != [] && run[i].lister.Finished?
    requires var w := run[i].watchers[|run[i].watchers| - 1];
             w.watch.Some? && w.watch.value <= run[i].listRev && w.cursor == |run[i].log|
    requires IsJobKey(key) && Exists(run[i].log, key)
    ensures Created(key, CreatedAt(run[i].log, key)) in run[i].handed
  {
    NoJobLostInAnyTerm(run, i);
    var s := run[i];
    var c := CreatedAt(s.log, key);
    if c <= s.listRev {
      StillLive(s.log, key, s.listRev);
      assert Created(key, c) in Live(s.log[..s.listRev]);
    } else {
      assert Creates(s.log, c - 1);
      assert JobAt(s.log, c - 1) in s.handed;
    }
  }

  lemma HandedWasCreated(s: State, step: Step, job: Created)
    requires Enabled(s, step) && (job in Do(s, step).handed || job in Do(s, step).listed)
    requires job in s.handed || job in s.listed ==> WasCreated(s.log, job)
    ensures WasCreated(Do(s, step).log, job)
  {
    if job in s.handed || job in s.listed {
      CreatedStays(s.log, Do(s, step).log, job);
    } else if step.ReadList? {
      LiveWasCreated(s.log, job);
    }
  }

  /** In no term anything but created jobs is given to receiveJob. */
  lemma {:induction false} OnlyCreatedIsHandedInAnyTerm(run: seq<State>, i: nat)
    requires IsRun(run) && i < |run|
    ensures forall job | job in run[i].handed || job in run[i].listed :: WasCreated(run[i].log, job)
  {
    if i > 0 {
      OnlyCreatedIsHandedInAnyTerm(run, i - 1);
      assert Next(run[i - 1], run[i]);
      var step :| Enabled(run[i - 1], step) && run[i] == Do(run[i - 1], step);
      forall job | job in run[i].handed || job in run[i].listed
        ensures WasCreated(run[i].log, job)
      {
        HandedWasCreated(run[i - 1], step, job);
      }
    }
  }

  /** The current term alone. */
  ghost function Current(s: State): JobTakeover.State
    requires s.watchers != []
  {
    var w := s.watchers[|s.watchers| - 1];
    JobTakeover.State.State(s.log, w.watch, w.cursor, w.busy, s.lister, s.listRev, s.listed, s.lastJobRevision,
                            s.handed)
  }

  function StepOfTerm(step: Step): JobTakeover.Step
    requires !step.BeginTerm?
  {
    match step
    case Change(e) => JobTakeover.Step.Change(e)
    case EstablishWatch => JobTakeover.Step.EstablishWatch
    case Observe(_) => JobTakeover.Step.Observe
    case ObserveDone(_, success) => JobTakeover.Step.ObserveDone(success)
    case ReadList => JobTakeover.Step.ReadList
    case StoreListRevision => JobTakeover.Step.StoreListRevision
    case HandListed(job) => JobTakeover.Step.HandListed(job)
    case FinishList => JobTakeover.Step.FinishList
  }

  predicate IsEarlier(s: State, step: Step) {
    (step.Observe? || step.ObserveDone?) && step.t < |s.watchers| - 1
  }

  /** Every term is a takeover: its own steps are those of one term, and what the watchers of earlier terms do is to
  hand over more jobs and to write lastJobRevision. */
  lemma TermIsTakeover(s: State, step: Step)
    requires CountersInv(s) && s.watchers != [] && Enabled(s, step) && !step.BeginTerm?
    ensures var s' := Do(s, step);
            if IsEarlier(s, step)
            then Current(s') == Current(s).(lastJobRevision := s'.lastJobRevision, handed := s'.handed)
            else JobTakeover.NextStep(Current(s), Current(s'), StepOfTerm(step))
  {
    assert WatcherInv(s, |s.watchers| - 1);
  }

  /** And it begins as one, beside the watchers of earlier terms. */
  lemma TermBeginsAfresh(s: State)
    requires Enabled(s, BeginTerm)
    ensures var s' := Do(s, BeginTerm);
            && s'.watchers != [] && s'.watchers[..|s'.watchers| - 1] == s.watchers
            && JobTakeover.Init(Current(s'))
  {
  }

  lemma ExtendRun(run: seq<State>, step: Step) returns (longer: seq<State>)
    requires IsRun(run) && Enabled(run[|run| - 1], step)
    ensures IsRun(longer) && longer == run + [Do(run[|run| - 1], step)]
  {
    longer := run + [Do(run[|run| - 1], step)];
    assert Next(run[|run| - 1], longer[|run|]);
  }

  /** A first term without jobs, up to the end of its list. */
  lemma QuietTerm() returns (run: seq<State>)
    ensures IsRun(run)
    ensures run[|run| - 1] == State.State([], [Watcher(Some(0), 0, None)], Finished, 0, iset{}, 0, iset{})
  {
    assert Live([]) == iset{};
    run := [State.State([], [], NotRead, 0, iset{}, 0, iset{})];
    run := ExtendRun(run, BeginTerm);
    run := ExtendRun(run, Step.EstablishWatch);
    run := ExtendRun(run, Step.ReadList);
    run := ExtendRun(run, Step.StoreListRevision);
    run := ExtendRun(run, Step.FinishList);
  }

  /** The watcher of an earlier term can be the one that hands a job over: the second term has begun, and its own
  watcher is not there yet. */
  lemma EarlierWatcherHandsOver(id: string, message: string) returns (run: seq<State>)
    ensures IsRun(run)
    ensures var s := run[|run| - 1];
            && |s.watchers| == 2 && s.watchers[1].watch.None? && s.lister.NotRead?
            && s.handed == iset{Created(JOBS_PREFIX + id, 1)}
  {
    run := QuietTerm();
    run := ExtendRun(run, BeginTerm);
    run := ExtendRun(run, Step.Change(Put(JOBS_PREFIX + id, message)));
    assert run[|run| - 1].log == [Put(JOBS_PREFIX + id, message)];
    run := ExtendRun(run, Step.Observe(0));
  }
}
