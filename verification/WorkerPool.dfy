/** The pool of three workers behind a jobs channel and a results channel. The health checks and the staging of apps
use it in the same way: the main loop visits the sites, and sends some of them to the workers or deals with them
itself; it closes the jobs, reads as many results as it sent jobs, and finishes. */
module WorkerPool {
  import DomainLists
  import Sorting

  const WORKERS := 3
  const JOBS_CAPACITY := 4

  /** What is known about the site with the index; `checked` by a worker or not. */
  datatype Entry = Entry(index: nat, checked: bool, error: string)

  datatype Worker = Idle | Busy(index: nat) | Stopped

  datatype Phase = Listing | Reading | Finished

  datatype State = State(
    phase: Phase, next: nat, jobs: seq<nat>, workers: seq<Worker>, results: seq<Entry>,
    requested: nat, received: nat, out: seq<Entry>, hasError: bool)

  function Init(): State {
    State(Listing, 0, [], [Idle, Idle, Idle], [], 0, 0, [], false)
  }

  datatype Step =
    | Visit(queue: bool, error: string)
    | Close
    | Take(w: nat)
    | Post(w: nat, error: string)
    | Stop(w: nat)
    | Receive
    | Finish(sorted: seq<Entry>)

  ghost predicate SortedByDomain(entries: seq<Entry>, domains: seq<string>) {
    && (forall e | e in entries :: e.index < |domains|)
    && forall i, j | 0 <= i < j < |entries| :: DomainLists.Leq(domains[entries[i].index], domains[entries[j].index])
  }

  /** A send needs room in its channel; the results channel has room for all sites. A worker stops when the jobs
  channel is closed and empty. */
  ghost predicate Enabled(s: State, domains: seq<string>, step: Step) {
    match step
    case Visit(queue, _) => s.phase.Listing? && s.next < |domains| && (queue ==> |s.jobs| < JOBS_CAPACITY)
    case Close => s.phase.Listing? && s.next == |domains|
    case Take(w) => w < |s.workers| && s.workers[w].Idle? && s.jobs != []
    case Post(w, _) => w < |s.workers| && s.workers[w].Busy? && |s.results| < |domains|
    case Stop(w) => w < |s.workers| && s.workers[w].Idle? && s.jobs == [] && !s.phase.Listing?
    case Receive => s.phase.Reading? && s.received < s.requested && s.results != []
    case Finish(sorted) =>
      && s.phase.Reading? && s.received == s.requested
      && multiset(sorted) == multiset(s.out) && SortedByDomain(sorted, domains)
  }

  function Do(s: State, step: Step): State
    requires step.Take? || step.Post? || step.Stop? ==> step.w < |s.workers|
    requires step.Take? ==> s.jobs != []
    requires step.Post? ==> s.workers[step.w].Busy?
    requires step.Receive? ==> s.results != []
  {
    match step
    case Visit(queue, error) =>
      if queue then s.(next := s.next + 1, jobs := s.jobs + [s.next], requested := s.requested + 1)
      else s.(next := s.next + 1, out := s.out + [Entry(s.next, false, error)])
    case Close => s.(phase := Reading)
    case Take(w) => s.(jobs := s.jobs[1..], workers := s.workers[w := Busy(s.jobs[0])])
    case Post(w, error) =>
      s.(results := s.results + [Entry(s.workers[w].index, true, error)], workers := s.workers[w := Idle])
    case Stop(w) => s.(workers := s.workers[w := Stopped])
    case Receive =>
      s.(results := s.results[1..], received := s.received + 1, out := s.out + [s.results[0]],
         hasError := s.hasError || s.results[0].error != "")
    case Finish(sorted) => s.(phase := Finished, out := sorted)
  }

  ghost predicate NextStep(s: State, domains: seq<string>, s': State, step: Step) {
    Enabled(s, domains, step) && s' == Do(s, step)
  }

  ghost predicate Next(s: State, domains: seq<string>, s': State) {
    exists step :: NextStep(s, domains, s', step)
  }

  ghost predicate IsRun(run: seq<State>, domains: seq<string>) {
    run != [] && run[0] == Init() && forall i | 0 <= i < |run| - 1 :: Next(run[i], domains, run[i + 1])
  }

  // Every site is in exactly one place.

  function Count(entries: seq<Entry>, i: nat): nat {
    if entries == [] then 0
    else Count(entries[..|entries| - 1], i) + if entries[|entries| - 1].index == i then 1 else 0
  }

  lemma CountLast(entries: seq<Entry>, e: Entry, i: nat)
    ensures Count(entries + [e], i) == Count(entries, i) + if e.index == i then 1 else 0
  {
    assert (entries + [e])[..|entries|] == entries;
  }

  lemma {:induction false} CountSplit(a: seq<Entry>, b: seq<Entry>, i: nat)
    ensures Count(a + b, i) == Count(a, i) + Count(b, i)
  {
    if b == [] {
      assert a + b == a;
    } else {
      var n := |b| - 1;
      CountSplit(a, b[..n], i);
      assert b == b[..n] + [b[n]];
      assert a + b == (a + b[..n]) + [b[n]];
      CountLast(a + b[..n], b[n], i);
    }
  }

  lemma CountFirst(entries: seq<Entry>, i: nat)
    requires entries != []
    ensures Count(entries, i) == Count(entries[1..], i) + if entries[0].index == i then 1 else 0
  {
    CountSplit([entries[0]], entries[1..], i);
    assert entries == [entries[0]] + entries[1..];
    CountLast([], entries[0], i);
    assert [] + [entries[0]] == [entries[0]];
  }

  function Without(s: seq<Entry>, k: nat): seq<Entry>
    requires k < |s|
  {
    s[..k] + s[k + 1..]
  }

  lemma RemoveOne(s: seq<Entry>, k: nat, i: nat)
    requires k < |s|
    ensures multiset(Without(s, k)) == multiset(s) - multiset{s[k]}
    ensures Count(s, i) == Count(Without(s, k), i) + if s[k].index == i then 1 else 0
  {
    assert s == s[..k] + [s[k]] + s[k + 1..];
    CountSplit(s[..k] + [s[k]], s[k + 1..], i);
    CountLast(s[..k], s[k], i);
    CountSplit(s[..k], s[k + 1..], i);
  }

  lemma {:induction false} CountPermuted(a: seq<Entry>, b: seq<Entry>, i: nat)
    requires multiset(a) == multiset(b)
    ensures Count(a, i) == Count(b, i)
  {
    if a == [] {
      assert |multiset(b)| == 0;
    } else {
      assert a[0] in multiset(b);
      var k :| 0 <= k < |b| && b[k] == a[0];
      RemoveOne(a, 0, i);
      RemoveOne(b, k, i);
      CountPermuted(Without(a, 0), Without(b, k), i);
    }
  }

  function HeldBy(worker: Worker, i: nat): nat {
    if worker == Busy(i) then 1 else 0
  }

  function Held(workers: seq<Worker>, i: nat): nat
    requires |workers| == WORKERS
  {
    HeldBy(workers[0], i) + HeldBy(workers[1], i) + HeldBy(workers[2], i)
  }

  function BusyOne(worker: Worker): nat {
    if worker.Busy? then 1 else 0
  }

  function BusyWorkers(workers: seq<Worker>): nat
    requires |workers| == WORKERS
  {
    BusyOne(workers[0]) + BusyOne(workers[1]) + BusyOne(workers[2])
  }

  function LiveOne(worker: Worker): nat {
    if worker.Stopped? then 0 else 1
  }

  function LiveWorkers(workers: seq<Worker>): nat
    requires |workers| == WORKERS
  {
    LiveOne(workers[0]) + LiveOne(workers[1]) + LiveOne(workers[2])
  }

  /** One worker's change. */
  lemma WorkerChanges(workers: seq<Worker>, w: nat, new': Worker, i: nat)
    requires |workers| == WORKERS && w < WORKERS
    ensures Held(workers[w := new'], i) == Held(workers, i) - HeldBy(workers[w], i) + HeldBy(new', i)
    ensures BusyWorkers(workers[w := new']) == BusyWorkers(workers) - BusyOne(workers[w]) + BusyOne(new')
    ensures LiveWorkers(workers[w := new']) == LiveWorkers(workers) - LiveOne(workers[w]) + LiveOne(new')
  {
  }

  function Places(s: State, i: nat): nat
    requires |s.workers| == WORKERS
  {
    Count(s.out, i) + Count(s.results, i) + multiset(s.jobs)[i] + Held(s.workers, i)
  }

  ghost predicate Sizes(s: State, n: nat) {
    && |s.workers| == WORKERS && |s.jobs| <= JOBS_CAPACITY
    && s.next <= n && (!s.phase.Listing? ==> s.next == n)
    && s.received + |s.results| + |s.jobs| + BusyWorkers(s.workers) == s.requested
    && |s.out| + s.requested == s.next + s.received
    && (forall w | 0 <= w < WORKERS && s.workers[w].Stopped? :: s.jobs == [] && !s.phase.Listing?)
    && (s.phase.Finished? ==> s.received == s.requested)
  }

  ghost predicate Errors(s: State) {
    && (forall e | e in s.results :: e.checked)
    && (s.hasError <==> exists e :: e in s.out && e.checked && e.error != "")
  }

  ghost predicate OnePlace(s: State)
    requires |s.workers| == WORKERS
  {
    forall i: nat :: Places(s, i) == if i < s.next then 1 else 0
  }

  ghost predicate Inv(s: State, n: nat) {
    Sizes(s, n) && Errors(s) && OnePlace(s)
  }

  lemma InitInv(n: nat)
    ensures Inv(Init(), n)
  {
    var s := Init();
    assert Sizes(s, n) && Errors(s);
    forall i: nat
      ensures Places(s, i) == 0
    {
      assert Count(s.out, i) == 0 && Count(s.results, i) == 0 && Held(s.workers, i) == 0;
      assert s.jobs == [];
    }
  }

  lemma KeepsSizes(s: State, domains: seq<string>, step: Step)
    requires Sizes(s, |domains|) && Enabled(s, domains, step)
    ensures Sizes(Do(s, step), |domains|)
  {
    if step.Finish? {
      assert |step.sorted| == |multiset(step.sorted)| == |s.out|;
    } else if step.Take? {
      WorkerChanges(s.workers, step.w, Busy(s.jobs[0]), 0);
    } else if step.Post? {
      WorkerChanges(s.workers, step.w, Idle, 0);
    } else if step.Stop? {
      WorkerChanges(s.workers, step.w, Stopped, 0);
    }
  }

  lemma KeepsErrors(s: State, domains: seq<string>, step: Step)
    requires Errors(s) && Enabled(s, domains, step)
    ensures Errors(Do(s, step))
  {
    var s' := Do(s, step);
    if step.Receive? {
      assert s.results[0] in s.results;
      assert s'.out == s.out + [s.results[0]];
      assert s.results[0] in s'.out;
    } else if step.Finish? {
      assert forall e :: e in s'.out <==> e in multiset(s'.out);
      assert forall e :: e in s.out <==> e in multiset(s.out);
    }
  }

  lemma KeepsPlaces(s: State, domains: seq<string>, step: Step, i: nat)
    requires |s.workers| == WORKERS && Enabled(s, domains, step)
    ensures |Do(s, step).workers| == WORKERS
    ensures Places(Do(s, step), i) == Places(s, i) + if step.Visit? && i == s.next then 1 else 0
  {
    match step
    case Visit(queue, error) => if !queue { CountLast(s.out, Entry(s.next, false, error), i); }
    case Close =>
    case Take(w) => TakeKeepsPlaces(s, w, i);
    case Post(w, error) =>
      CountLast(s.results, Entry(s.workers[w].index, true, error), i);
      WorkerChanges(s.workers, w, Idle, i);
    case Stop(w) => WorkerChanges(s.workers, w, Stopped, i);
    case Receive =>
      CountFirst(s.results, i);
      CountLast(s.out, s.results[0], i);
    case Finish(sorted) => CountPermuted(sorted, s.out, i);
  }

  lemma TakeKeepsPlaces(s: State, w: nat, i: nat)
    requires |s.workers| == WORKERS && w < WORKERS && s.workers[w].Idle? && s.jobs != []
    ensures Places(Do(s, Take(w)), i) == Places(s, i)
  {
    assert s.jobs == [s.jobs[0]] + s.jobs[1..];
    WorkerChanges(s.workers, w, Busy(s.jobs[0]), i);
  }

  lemma NextKeepsInv(s: State, domains: seq<string>, s': State)
    requires Inv(s, |domains|) && Next(s, domains, s')
    ensures Inv(s', |domains|)
  {
    var step :| NextStep(s, domains, s', step);
    KeepsSizes(s, domains, step);
    KeepsErrors(s, domains, step);
    forall i: nat
      ensures Places(s', i) == if i < s'.next then 1 else 0
    {
      KeepsPlaces(s, domains, step, i);
      assert Places(s, i) == if i < s.next then 1 else 0;
    }
  }

  lemma {:induction false} RunKeepsInv(run: seq<State>, domains: seq<string>, k: nat)
    requires IsRun(run, domains) && k < |run|
    ensures Inv(run[k], |domains|)
  {
    if k == 0 {
      InitInv(|domains|);
    } else {
      RunKeepsInv(run, domains, k - 1);
      NextKeepsInv(run[k - 1], domains, run[k]);
    }
  }

  // What the pool guarantees.

  lemma {:induction false} CountIsMembership(entries: seq<Entry>, i: nat)
    ensures Count(entries, i) > 0 <==> exists k :: 0 <= k < |entries| && entries[k].index == i
    ensures Count(entries, i) <= 1 ==>
              forall j, k | 0 <= j < k < |entries| :: !(entries[j].index == i && entries[k].index == i)
  {
    if entries != [] {
      var n := |entries| - 1;
      CountIsMembership(entries[..n], i);
      assert forall k | 0 <= k < n :: entries[..n][k] == entries[k];
    }
  }

  /** When the main loop is done, the result is sorted and has exactly one entry for each site; nothing is left in the
  channels or with the workers, and an error was reported exactly if a worker found one. */
  lemma ResultIsComplete(run: seq<State>, domains: seq<string>, i: nat)
    requires IsRun(run, domains) && run[|run| - 1].phase.Finished? && i < |domains|
    ensures var s := run[|run| - 1];
            && |s.out| == |domains|
            && (exists k :: 0 <= k < |s.out| && s.out[k].index == i)
            && (forall j, k | 0 <= j < k < |s.out| :: !(s.out[j].index == i && s.out[k].index == i))
            && s.jobs == [] && s.results == [] && |s.workers| == WORKERS && BusyWorkers(s.workers) == 0
            && (s.hasError <==> exists e :: e in s.out && e.checked && e.error != "")
  {
    var s := run[|run| - 1];
    RunKeepsInv(run, domains, |run| - 1);
    assert Places(s, i) == 1;
    CountIsMembership(s.out, i);
  }

  /** A run together with its steps. */
  ghost predicate Follows(run: seq<State>, steps: seq<Step>, domains: seq<string>) {
    && |run| == |steps| + 1 && run[0] == Init()
    && forall j {:trigger steps[j]} | 0 <= j < |steps| :: NextStep(run[j], domains, run[j + 1], steps[j])
  }

  /** The step is where the entry comes from: the main loop's own, or that of the worker that has the job. */
  predicate Adds(s: State, step: Step, e: Entry) {
    match step
    case Visit(queue, error) => !queue && e == Entry(s.next, false, error)
    case Post(w, error) => w < |s.workers| && s.workers[w].Busy? && e == Entry(s.workers[w].index, true, error)
    case _ => false
  }

  lemma NewEntry(s: State, domains: seq<string>, step: Step, e: Entry)
    requires Enabled(s, domains, step) && (e in Do(s, step).results || e in Do(s, step).out)
    ensures e in s.results || e in s.out || Adds(s, step, e)
  {
    if step.Finish? {
      assert e in multiset(step.sorted) ==> e in multiset(s.out);
    }
  }

  ghost predicate Reported(run: seq<State>, steps: seq<Step>, k: nat, e: Entry)
    requires |run| == |steps| + 1 && k <= |steps|
  {
    exists j {:trigger steps[j]} :: 0 <= j < k && Adds(run[j], steps[j], e)
  }

  /** Nothing is made up: every entry of the result says what the worker that had the job reported about its site, or
  what the main loop knew. */
  lemma {:induction false} EntriesAreReported(run: seq<State>, steps: seq<Step>, domains: seq<string>, k: nat, e: Entry)
    requires Follows(run, steps, domains) && k < |run| && (e in run[k].results || e in run[k].out)
    ensures Reported(run, steps, k, e)
  {
    assert NextStep(run[k - 1], domains, run[k], steps[k - 1]);
    NewEntry(run[k - 1], domains, steps[k - 1], e);
    if e in run[k - 1].results || e in run[k - 1].out {
      EntriesAreReported(run, steps, domains, k - 1, e);
    }
  }

  lemma {:induction false} ResultIsSorted(run: seq<State>, domains: seq<string>, k: nat)
    requires IsRun(run, domains) && k < |run| && run[k].phase.Finished?
    ensures SortedByDomain(run[k].out, domains)
  {
    if k > 0 {
      assert Next(run[k - 1], domains, run[k]);
      var step :| NextStep(run[k - 1], domains, run[k], step);
      if run[k - 1].phase.Finished? {
        ResultIsSorted(run, domains, k - 1);
      }
    }
  }

  predicate Distinct(domains: seq<string>) {
    forall i, j | 0 <= i < j < |domains| :: domains[i] != domains[j]
  }

  /** The least domain comes first, so two sorted lists of the same sites begin with the same site. */
  lemma FirstSame(a: seq<Entry>, b: seq<Entry>, domains: seq<string>)
    requires Distinct(domains) && SortedByDomain(a, domains) && SortedByDomain(b, domains)
    requires a != [] && b != [] && Count(b, a[0].index) > 0 && Count(a, b[0].index) > 0
    ensures a[0].index == b[0].index
  {
    CountIsMembership(b, a[0].index);
    CountIsMembership(a, b[0].index);
    HeadIsLeastOf(a, b[0].index, domains);
    HeadIsLeastOf(b, a[0].index, domains);
    DomainLists.LeqTotal(domains[a[0].index], domains[b[0].index]);
  }

  lemma HeadIsLeastOf(entries: seq<Entry>, i: nat, domains: seq<string>)
    requires SortedByDomain(entries, domains) && Count(entries, i) > 0
    ensures entries != [] && entries[0].index < |domains| && i < |domains|
    ensures DomainLists.Leq(domains[entries[0].index], domains[i])
  {
    CountIsMembership(entries, i);
    var k :| 0 <= k < |entries| && entries[k].index == i;
    assert entries[0] in entries && entries[k] in entries;
    DomainLists.LeqTotal(domains[i], domains[i]);
  }

  lemma {:induction false} SortedSame(a: seq<Entry>, b: seq<Entry>, domains: seq<string>)
    requires Distinct(domains) && SortedByDomain(a, domains) && SortedByDomain(b, domains)
    requires |a| == |b| && forall i: nat :: Count(a, i) == Count(b, i)
    ensures forall k | 0 <= k < |a| :: a[k].index == b[k].index
  {
    if a != [] {
      CountIsMembership(a, a[0].index);
      CountIsMembership(b, b[0].index);
      assert Count(b, a[0].index) > 0 && Count(a, b[0].index) > 0;
      FirstSame(a, b, domains);
      forall i: nat
        ensures Count(a[1..], i) == Count(b[1..], i)
      {
        CountFirst(a, i);
        CountFirst(b, i);
        assert Count(a, i) == Count(b, i);
      }
      SortedSame(a[1..], b[1..], domains);
      forall k | 0 < k < |a|
        ensures a[k].index == b[k].index
      {
        assert a[1..][k - 1].index == b[1..][k - 1].index;
      }
    }
  }

  /** The order of the result does not depend on the schedule: with distinct domains, two finished runs list the sites
  in the same order, although the workers may have taken and finished them in any order. */
  lemma EveryScheduleSameOrder(run: seq<State>, other: seq<State>, domains: seq<string>, k: nat)
    requires Distinct(domains) && IsRun(run, domains) && IsRun(other, domains)
    requires run[|run| - 1].phase.Finished? && other[|other| - 1].phase.Finished? && k < |domains|
    ensures k < |run[|run| - 1].out| && k < |other[|other| - 1].out|
    ensures run[|run| - 1].out[k].index == other[|other| - 1].out[k].index
  {
    var s, t := run[|run| - 1], other[|other| - 1];
    RunKeepsInv(run, domains, |run| - 1);
    RunKeepsInv(other, domains, |other| - 1);
    ResultIsSorted(run, domains, |run| - 1);
    ResultIsSorted(other, domains, |other| - 1);
    forall i: nat
      ensures Count(s.out, i) == Count(t.out, i)
    {
      assert Places(s, i) == (if i < |domains| then 1 else 0) == Places(t, i);
      assert s.jobs == [] && s.results == [] && t.jobs == [] && t.results == [];
    }
    SortedSame(s.out, t.out, domains);
  }

  /** The order of the result. */
  function ByDomain(domains: seq<string>): (Entry, Entry) -> bool {
    (e: Entry, f: Entry) => DomainLists.Leq(DomainOf(e, domains), DomainOf(f, domains))
  }

  function DomainOf(e: Entry, domains: seq<string>): string {
    if e.index < |domains| then domains[e.index] else ""
  }

  lemma ByDomainIsOrder(domains: seq<string>)
    ensures Sorting.IsOrder(ByDomain(domains))
  {
    forall e: Entry, f: Entry
      ensures ByDomain(domains)(e, f) || ByDomain(domains)(f, e)
    {
      DomainLists.LeqTotal(DomainOf(e, domains), DomainOf(f, domains));
    }
    forall e: Entry, f: Entry, g: Entry | ByDomain(domains)(e, f) && ByDomain(domains)(f, g)
      ensures ByDomain(domains)(e, g)
    {
      DomainLists.LeqTransitive(DomainOf(e, domains), DomainOf(f, domains), DomainOf(g, domains));
    }
  }

  /** Sorting is possible. */
  lemma SortExists(entries: seq<Entry>, domains: seq<string>) returns (sorted: seq<Entry>)
    requires forall e | e in entries :: e.index < |domains|
    ensures multiset(sorted) == multiset(entries) && SortedByDomain(sorted, domains)
  {
    var leq := ByDomain(domains);
    sorted := Sorting.Sort(entries, leq);
    ByDomainIsOrder(domains);
    Sorting.SortSorts(entries, leq);
    forall e | e in sorted
      ensures e.index < |domains|
    {
      assert e in multiset(sorted);
    }
    forall i, j | 0 <= i < j < |sorted|
      ensures DomainLists.Leq(domains[sorted[i].index], domains[sorted[j].index])
    {
      assert leq(sorted[i], sorted[j]);
    }
  }

  /** No worker ever waits for room in the results channel. */
  lemma SendNeverBlocks(run: seq<State>, domains: seq<string>, k: nat, w: nat, error: string)
    requires IsRun(run, domains) && k < |run| && w < WORKERS
    ensures w < |run[k].workers| && (run[k].workers[w].Busy? ==> Enabled(run[k], domains, Post(w, error)))
  {
    RunKeepsInv(run, domains, k);
  }

  /** As long as the main loop is not done or a worker has not stopped, something can happen. */
  lemma NeverStuck(run: seq<State>, domains: seq<string>) returns (step: Step)
    requires IsRun(run, domains)
    requires var s := run[|run| - 1]; !s.phase.Finished? || exists w :: 0 <= w < |s.workers| && !s.workers[w].Stopped?
    ensures Enabled(run[|run| - 1], domains, step)
  {
    var s := run[|run| - 1];
    RunKeepsInv(run, domains, |run| - 1);
    if w: nat :| w < WORKERS && s.workers[w].Busy? {
      step := Post(w, "");
    } else if s.phase.Listing? && s.next == |domains| {
      step := Close;
    } else if s.phase.Listing? {
      step := Visit(false, "");
    } else if s.jobs != [] {
      assert s.workers[0].Idle?;
      step := Take(0);
    } else if w: nat :| w < WORKERS && s.workers[w].Idle? {
      step := Stop(w);
    } else if s.received < s.requested {
      step := Receive;
    } else {
      forall e | e in s.out
        ensures e.index < |domains|
      {
        var k :| 0 <= k < |s.out| && s.out[k] == e;
        CountIsMembership(s.out, e.index);
        assert Places(s, e.index) > 0;
      }
      var sorted := SortExists(s.out, domains);
      step := Finish(sorted);
    }
  }

  /** The main loop itself is never left waiting: while it cannot send to a full jobs channel, a worker can go on. */
  lemma FullChannelDrains(run: seq<State>, domains: seq<string>) returns (step: Step)
    requires IsRun(run, domains) && |run[|run| - 1].jobs| == JOBS_CAPACITY
    ensures (step.Take? || step.Post?) && Enabled(run[|run| - 1], domains, step)
  {
    var s := run[|run| - 1];
    RunKeepsInv(run, domains, |run| - 1);
    step := if s.workers[0].Busy? then Post(0, "") else Take(0);
  }

  /** How much is left to do. */
  function Work(s: State, n: nat): int
    requires |s.workers| == WORKERS
  {
    4 * (n - s.next) + 3 * |s.jobs| + 2 * BusyWorkers(s.workers) + |s.results|
    + LiveWorkers(s.workers)
    + match s.phase case Listing => 2 case Reading => 1 case Finished => 0
  }

  lemma StepWorks(s: State, domains: seq<string>, step: Step)
    requires Sizes(s, |domains|) && Enabled(s, domains, step)
    ensures Sizes(Do(s, step), |domains|) && 0 <= Work(Do(s, step), |domains|) < Work(s, |domains|)
  {
    KeepsSizes(s, domains, step);
    if step.Take? {
      WorkerChanges(s.workers, step.w, Busy(s.jobs[0]), 0);
    } else if step.Post? {
      WorkerChanges(s.workers, step.w, Idle, 0);
    } else if step.Stop? {
      WorkerChanges(s.workers, step.w, Stopped, 0);
    }
  }

  /** Whatever the schedule, a run over n sites ends after at most 4n + 5 steps. */
  lemma {:induction false} RunEnds(run: seq<State>, domains: seq<string>, k: nat)
    requires IsRun(run, domains) && k < |run|
    ensures |run[k].workers| == WORKERS && 0 <= Work(run[k], |domains|)
    ensures k + Work(run[k], |domains|) <= 4 * |domains| + 5
  {
    if k > 0 {
      RunEnds(run, domains, k - 1);
      RunKeepsInv(run, domains, k - 1);
      assert Next(run[k - 1], domains, run[k]);
      var step :| NextStep(run[k - 1], domains, run[k], step);
      StepWorks(run[k - 1], domains, step);
    }
  }
}
