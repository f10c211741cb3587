/** What a new leader does with the job keys: it watches them and lists them at the same time.

The watcher hands over the keys that are created after lastJobRevision, and the lister hands over the keys
it read. Both goroutines write lastJobRevision, in any order.
*/
module JobTakeover {
  import opened Etcd
  import opened Options

  const JOBS_PREFIX := "statiko/jobs/"

  type Job = string

  predicate IsJobKey(key: string) {
    JOBS_PREFIX <= key
  }

  /** The event at index i created its key: the key did not exist before. Revision i + 1 names the job then. */
  predicate Creates(log: seq<Event<Job>>, i: nat) {
    i < |log| && IsJobKey(log[i].key) && log[i].Put? && !Exists(log[..i], log[i].key)
  }

  /** The revision that created a key, which later puts on the same key do not change. */
  function CreatedAt(log: seq<Event<Job>>, key: string): (c: nat)
    requires Exists(log, key)
    ensures 0 < c <= LastRev(log, key)
    ensures log[c - 1].key == key && log[c - 1].Put? && !Exists(log[..c - 1], key)
    ensures forall i | c <= i < |log| && log[i].key == key :: log[i].Put?
    decreases |log|
  {
    var r := LastRev(log, key);
    var before := log[..r - 1];
    if Exists(before, key) then
      assert forall i | 0 <= i < r - 1 :: before[i] == log[i];
      var c := CreatedAt(before, key);
      assert before[..c - 1] == log[..c - 1];
      c
    else r
  }

  /** One created job: its key and the revision of its creation. */
  datatype Created = Created(key: string, rev: nat)

  /** The jobs whose keys exist. */
  ghost function Live(log: seq<Event<Job>>): iset<Created> {
    iset job: Created | IsJobKey(job.key) && Exists(log, job.key) && job.rev == CreatedAt(log, job.key)
  }

  datatype Lister = NotRead | Read | Handing | Finished

  /** `handed` is the history of the jobs given to receiveJob; `listed` are those the lister still has to give. */
  datatype State = State(
    log: seq<Event<Job>>,
    watch: Option<nat>,
    cursor: nat,
    busy: Option<nat>, // revision of the event the watcher is processing
    lister: Lister,
    listRev: nat,
    listed: iset<Created>,
    lastJobRevision: nat,
    handed: iset<Created>)

  datatype Step =
    | Change(e: Event<Job>)
    | EstablishWatch
    | Observe
    | ObserveDone(success: bool)
    | ReadList
    | StoreListRevision
    | HandListed(job: Created)
    | FinishList

  /** The watcher's filter. */
  predicate Accepts(s: State)
    requires s.cursor < |s.log|
  {
    s.cursor + 1 > s.lastJobRevision && Creates(s.log, s.cursor)
  }

  ghost predicate NextStep(s: State, s': State, step: Step) {
    match step
    case Change(e) => s' == s.(log := s.log + [e])
    case EstablishWatch =>
      s.watch.None? && s' == s.(watch := Some(|s.log|), cursor := |s.log|)
    case Observe =>
      && s.watch.Some? && s.busy.None? && s.cursor < |s.log|
      && s' == if Accepts(s)
               then s.(cursor := s.cursor + 1, busy := Some(s.cursor + 1),
                       handed := s.handed + iset{Created(s.log[s.cursor].key, s.cursor + 1)})
               else s.(cursor := s.cursor + 1)
    case ObserveDone(success) =>
      && s.busy.Some?
      && s' == s.(busy := None, lastJobRevision := if success then s.busy.value else s.lastJobRevision)
    case ReadList =>
      s.lister.NotRead? && s' == s.(lister := Read, listRev := |s.log|, listed := Live(s.log))
    case StoreListRevision =>
      s.lister.Read? && s' == s.(lister := Handing, lastJobRevision := s.listRev)
    case HandListed(job) =>
      && s.lister.Handing? && job in s.listed
      && s' == s.(listed := s.listed - iset{job}, handed := s.handed + iset{job})
    case FinishList =>
      s.lister.Handing? && s.listed == iset{} && s' == s.(lister := Finished)
  }

  /** The new leader starts with an arbitrary history behind it. */
  ghost predicate Init(s: State) {
    s == State(s.log, None, 0, None, NotRead, 0, iset{}, 0, iset{})
  }

  ghost predicate Next(s: State, s': State) {
    exists step :: NextStep(s, s', step)
  }

  ghost predicate IsRun(run: seq<State>) {
    && |run| > 0 && Init(run[0])
    && forall i | 0 < i < |run| :: Next(run[i - 1], run[i])
  }

  ghost predicate CountersInv(s: State) {
    && s.cursor <= |s.log| && s.listRev <= |s.log|
    && (s.watch.Some? ==> s.watch.value <= s.cursor)
    && (s.watch.None? ==> s.cursor == 0 && s.busy.None?)
    && (s.busy.Some? ==> s.busy.value <= s.cursor)
    && (s.lister.NotRead? ==> s.listRev == 0)
    && (s.lastJobRevision <= s.cursor || s.lastJobRevision <= s.listRev)
  }

  /** What the watcher and the lister have given to receiveJob, and nothing else. */
  ghost predicate HandedInv(s: State)
    requires CountersInv(s)
  {
    && (forall i | 0 <= i < s.cursor && s.watch.Some? && s.watch.value <= i && s.listRev <= i && Creates(s.log, i) ::
          Created(s.log[i].key, i + 1) in s.handed)
    && (!s.lister.NotRead? ==> forall job | job in Live(s.log[..s.listRev]) :: job in s.listed || job in s.handed)
    && (forall job | job in s.handed || job in s.listed ::
          job.rev <= s.listRev || (s.watch.Some? && job.rev > s.watch.value))
    && (s.lister.Finished? ==> s.listed == iset{})
  }

  ghost predicate Inv(s: State) {
    CountersInv(s) && HandedInv(s)
  }

  lemma CreatesInPrefix(log: seq<Event<Job>>, e: Event<Job>, i: nat)
    requires i < |log|
    ensures Creates(log + [e], i) <==> Creates(log, i)
  {
    assert (log + [e])[..i] == log[..i];
  }

  lemma ChangeKeepsInv(s: State, s': State, e: Event<Job>)
    requires Inv(s) && NextStep(s, s', Change(e))
    ensures Inv(s')
  {
    assert s'.log[..s'.listRev] == s.log[..s.listRev];
    forall i | 0 <= i < s.cursor && Creates(s'.log, i) ensures Creates(s.log, i) {
      CreatesInPrefix(s.log, e, i);
    }
  }

  /** What the watcher owes: the jobs that were created after the watch and after the list, up to n. */
  ghost predicate WatchedUpTo(s: State, n: nat, handed: iset<Created>)
    requires n <= |s.log|
  {
    forall i | 0 <= i < n && s.watch.Some? && s.watch.value <= i && s.listRev <= i && Creates(s.log, i) ::
      Created(s.log[i].key, i + 1) in handed
  }

  lemma WatchedNext(s: State)
    requires CountersInv(s) && s.watch.Some? && s.cursor < |s.log| && WatchedUpTo(s, s.cursor, s.handed)
    ensures var handed := if Accepts(s) then s.handed + iset{Created(s.log[s.cursor].key, s.cursor + 1)} else s.handed;
            WatchedUpTo(s, s.cursor + 1, handed)
  {
    assert s.watch.value <= s.cursor && s.listRev <= s.cursor && Creates(s.log, s.cursor) ==> Accepts(s);
  }

  lemma ObserveKeepsInv(s: State, s': State)
    requires Inv(s) && NextStep(s, s', Observe)
    ensures Inv(s')
  {
    assert WatchedUpTo(s, s.cursor, s.handed);
    WatchedNext(s);
    assert WatchedUpTo(s, s'.cursor, s'.handed);
    assert CountersInv(s');
    assert Live(s'.log[..s'.listRev]) == Live(s.log[..s.listRev]);
  }

  lemma ListKeepsInv(s: State, s': State, step: Step)
    requires Inv(s) && NextStep(s, s', step)
    requires step.ReadList? || step.StoreListRevision? || step.HandListed? || step.FinishList?
    ensures Inv(s')
  {
    if step.ReadList? {
      assert s.log[..|s.log|] == s.log;
    }
  }

  lemma NextKeepsInv(s: State, s': State)
    requires Inv(s) && Next(s, s')
    ensures Inv(s')
  {
    var step :| NextStep(s, s', step);
    match step
    case Change(e) => ChangeKeepsInv(s, s', e);
    case Observe => ObserveKeepsInv(s, s');
    case EstablishWatch =>
    case ObserveDone(_) =>
    case _ => ListKeepsInv(s, s', step);
  }

  lemma {:induction false} RunKeepsInv(run: seq<State>, i: nat)
    requires IsRun(run) && i < |run|
    ensures Inv(run[i])
  {
    if i > 0 {
      RunKeepsInv(run, i - 1);
      NextKeepsInv(run[i - 1], run[i]);
    }
  }

  /** No job is lost on takeover: with the watch established no later than the list was read, every job that
  was live at the list read, and every job created afterwards that the watcher has reached, was handed to
  receiveJob, however the watcher and the lister raced on lastJobRevision. */
  lemma NoJobLost(run: seq<State>, i: nat)
    requires IsRun(run) && i < |run| && run[i].lister.Finished?
    requires run[i].watch.Some? && run[i].watch.value <= run[i].listRev
    ensures CountersInv(run[i])
    ensures forall job | job in Live(run[i].log[..run[i].listRev]) :: job in run[i].handed
    ensures forall k | run[i].listRev <= k < run[i].cursor && Creates(run[i].log, k) ::
              Created(run[i].log[k].key, k + 1) in run[i].handed
  {
    RunKeepsInv(run, i);
  }

  /** Hence a leader that has caught up was handed every job whose key exists now. */
  lemma LiveJobsWereHanded(run: seq<State>, i: nat, key: string)
    requires IsRun(run) && i < |run| && run[i].lister.Finished?
    requires run[i].watch.Some? && run[i].watch.value <= run[i].listRev && run[i].cursor == |run[i].log|
    requires IsJobKey(key) && Exists(run[i].log, key)
    ensures Created(key, CreatedAt(run[i].log, key)) in run[i].handed
  {
    RunKeepsInv(run, i);
    var s := run[i];
    var c := CreatedAt(s.log, key);
    if c <= s.listRev {
      StillLive(s.log, key, s.listRev);
    } else {
      assert Creates(s.log, c - 1);
    }
  }

  /** From a put on, a key exists as long as only puts concern it. */
  lemma ExistsWhilePut(log: seq<Event<Job>>, key: string, c: nat, n: nat)
    requires 0 < c <= n <= |log| && log[c - 1].key == key && log[c - 1].Put?
    requires forall i | c <= i < n && log[i].key == key :: log[i].Put?
    ensures Exists(log[..n], key)
  {
    var r := LastRev(log[..n], key);
    assert log[..n][c - 1] == log[c - 1];
    assert log[..n][r - 1] == log[r - 1];
  }

  /** CreatedAt is the only revision with the properties in its contract. */
  lemma CreatedAtIs(log: seq<Event<Job>>, key: string, c: nat)
    requires Exists(log, key)
    requires 0 < c <= |log| && log[c - 1].key == key && log[c - 1].Put? && !Exists(log[..c - 1], key)
    requires forall i | c <= i < |log| && log[i].key == key :: log[i].Put?
    ensures CreatedAt(log, key) == c
  {
    var d := CreatedAt(log, key);
    if d < c {
      ExistsWhilePut(log, key, d, c - 1);
    } else if c < d {
      ExistsWhilePut(log, key, c, d - 1);
    }
  }

  /** A key that exists was there at every moment since its creation, as the same job. */
  lemma StillLive(log: seq<Event<Job>>, key: string, n: nat)
    requires Exists(log, key) && CreatedAt(log, key) <= n <= |log|
    ensures Exists(log[..n], key) && CreatedAt(log[..n], key) == CreatedAt(log, key)
  {
    var c := CreatedAt(log, key);
    ExistsWhilePut(log, key, c, n);
    assert log[..n][..c - 1] == log[..c - 1];
    CreatedAtIs(log[..n], key, c);
  }

  /** The condition on the watch is exact: a job created after the list read is handed over by the time the
  watcher reaches it if and only if the watch was established before its creation. */
  lemma HandedIffWatched(run: seq<State>, i: nat, k: nat)
    requires IsRun(run) && i < |run| && run[i].watch.Some?
    requires run[i].listRev <= k < run[i].cursor && Creates(run[i].log, k)
    ensures Created(run[i].log[k].key, k + 1) in run[i].handed <==> run[i].watch.value <= k
  {
    RunKeepsInv(run, i);
  }

  /** The job is one whose key was created at this revision. */
  predicate WasCreated(log: seq<Event<Job>>, job: Created) {
    0 < job.rev <= |log| && Creates(log, job.rev - 1) && log[job.rev - 1].key == job.key
  }

  lemma CreatedStays(log: seq<Event<Job>>, log': seq<Event<Job>>, job: Created)
    requires log <= log' && WasCreated(log, job)
    ensures WasCreated(log', job)
  {
    assert log'[..job.rev - 1] == log[..job.rev - 1];
  }

  /** What is live was created. */
  lemma LiveWasCreated(log: seq<Event<Job>>, job: Created)
    requires job in Live(log)
    ensures WasCreated(log, job)
  {
  }

  /** Nothing but created jobs is given to receiveJob: no update of a key, no deletion, and no key outside the folder of
  the jobs. */
  lemma {:induction false} OnlyCreatedIsHanded(run: seq<State>, i: nat)
    requires IsRun(run) && i < |run|
    ensures forall job | job in run[i].handed || job in run[i].listed :: WasCreated(run[i].log, job)
  {
    if i > 0 {
      OnlyCreatedIsHanded(run, i - 1);
      var s, s' := run[i - 1], run[i];
      assert Next(s, s');
      forall job | job in s'.handed || job in s'.listed
        ensures WasCreated(s'.log, job)
      {
        if job in s.handed || job in s.listed {
          CreatedStays(s.log, s'.log, job);
        } else if job in Live(s.log) {
          LiveWasCreated(s.log, job);
        }
      }
    }
  }
}
