/** The lease-based lock that serialises the writers of the shared state.

An acquirer gets a lease of LOCK_SECONDS first, then tries to put the lock key with that lease attached, once
a second. The store drops a lease and its key when the lease is revoked, or at some moment after its time is
over; it never drops one earlier.
*/
module EtcdLock {
  import opened Options

  const LOCK_SECONDS := 20
  const MAX_TRIES := 2 * LOCK_SECONDS

  type Acquirer = nat
  type LeaseId = nat

  datatype Phase =
    | Trying(name: string, lease: LeaseId, timeout: bool, tries: nat)
    | Critical(name: string, lease: LeaseId, section: nat)
    | Releasing(name: string, lease: LeaseId, section: nat)
    | Ended(lease: LeaseId)

  /** History: one critical section, from the put of the lock key until its acquirer starts to release it. */
  datatype Section =
    Section(acquirer: Acquirer, name: string, lease: LeaseId, granted: nat, entered: nat, left: Option<nat>)

  datatype State = State(
    now: nat,
    nextLease: LeaseId,
    leases: map<LeaseId, nat>, // the live leases, with the time of their grant
    locks: map<string, LeaseId>, // the lock keys that exist, with the lease they are attached to
    acquirers: map<Acquirer, Phase>,
    sections: seq<Section>)

  datatype Step =
    | AcquireLock(a: Acquirer, name: string, timeout: bool)
    | TryLock(a: Acquirer)
    | TryLockFails(a: Acquirer, applied: bool)
    | LeaveSection(a: Acquirer)
    | ReleaseLock(a: Acquirer)
    | ReleaseFails(a: Acquirer)
    | Expire(l: LeaseId)
    | Tick(seconds: nat)

  /** The store without a lease, and without the key attached to it. Revoking an unknown lease is an error
  that changes nothing. */
  function DropLease(s: State, l: LeaseId): (s': State)
    ensures l !in s.locks.Values ==> s'.locks == s.locks
  {
    s.(leases := s.leases - {l}, locks := map k | k in s.locks && s.locks[k] != l :: s.locks[k])
  }

  /** One attempt: put the key if it does not exist. A put with a dead lease is an error. */
  function Tried(s: State, a: Acquirer): State
    requires a in s.acquirers && s.acquirers[a].Trying?
  {
    var p := s.acquirers[a];
    if p.name !in s.locks then
      if p.lease in s.leases then
        s.(locks := s.locks[p.name := p.lease],
           acquirers := s.acquirers[a := Critical(p.name, p.lease, |s.sections|)],
           sections := s.sections + [Section(a, p.name, p.lease, s.leases[p.lease], s.now, None)])
      else
        s.(acquirers := s.acquirers[a := Ended(p.lease)])
    else if !p.timeout then s
    else if p.tries > 1 then s.(acquirers := s.acquirers[a := p.(tries := p.tries - 1)])
    else s.(acquirers := s.acquirers[a := Ended(p.lease)])
  }

  /** An attempt whose reply is an error. The acquirer gives up without revoking its lease; if the put was applied
  all the same, the key stays until the lease expires. */
  function TriedInVain(s: State, a: Acquirer, applied: bool): State
    requires a in s.acquirers && s.acquirers[a].Trying?
  {
    var p := s.acquirers[a];
    var gone := s.(acquirers := s.acquirers[a := Ended(p.lease)]);
    if applied && p.name !in s.locks && p.lease in s.leases then gone.(locks := s.locks[p.name := p.lease]) else gone
  }

  ghost predicate NextStep(s: State, s': State, step: Step) {
    match step
    case AcquireLock(a, name, timeout) =>
      && a !in s.acquirers
      && s' == s.(nextLease := s.nextLease + 1,
                  leases := s.leases[s.nextLease := s.now],
                  acquirers := s.acquirers[a := Trying(name, s.nextLease, timeout, MAX_TRIES)])
    case TryLock(a) =>
      && a in s.acquirers && s.acquirers[a].Trying?
      && s' == Tried(s, a)
    case TryLockFails(a, applied) =>
      && a in s.acquirers && s.acquirers[a].Trying?
      && s' == TriedInVain(s, a, applied)
    case LeaveSection(a) =>
      && a in s.acquirers && s.acquirers[a].Critical?
      && var p := s.acquirers[a];
      && p.section < |s.sections|
      && s' == s.(acquirers := s.acquirers[a := Releasing(p.name, p.lease, p.section)],
                  sections := s.sections[p.section := s.sections[p.section].(left := Some(s.now))])
    case ReleaseLock(a) =>
      && a in s.acquirers && s.acquirers[a].Releasing?
      && s' == DropLease(s, s.acquirers[a].lease).(acquirers := s.acquirers[a := Ended(s.acquirers[a].lease)])
    case ReleaseFails(a) =>
      && a in s.acquirers && s.acquirers[a].Releasing?
      && s' == s.(acquirers := s.acquirers[a := Ended(s.acquirers[a].lease)])
    case Expire(l) =>
      && l in s.leases && s.leases[l] + LOCK_SECONDS <= s.now
      && s' == DropLease(s, l)
    case Tick(seconds) =>
      s' == s.(now := s.now + seconds)
  }

  ghost predicate Init(s: State) {
    s == State(0, 0, map[], map[], map[], [])
  }

  ghost predicate Next(s: State, s': State) {
    exists step :: NextStep(s, s', step)
  }

  ghost predicate IsRun(run: seq<State>) {
    && |run| > 0 && Init(run[0])
    && forall i | 0 < i < |run| :: Next(run[i - 1], run[i])
  }

  /** The acquirer is in its critical section and its lease has not run out. */
  predicate HoldsLive(s: State, a: Acquirer, name: string) {
    a in s.acquirers && s.acquirers[a].Critical? && s.acquirers[a].name == name && s.acquirers[a].lease in s.leases
  }

  /** The section ended within the lease, counted from the grant. */
  predicate InTime(c: Section) {
    c.left.Some? && c.left.value <= c.granted + LOCK_SECONDS
  }

  ghost predicate LeasesInv(s: State) {
    && (forall l | l in s.leases :: l < s.nextLease && s.leases[l] <= s.now)
    && (forall a | a in s.acquirers :: s.acquirers[a].lease < s.nextLease)
    && (forall a, b | a in s.acquirers && b in s.acquirers && a != b :: s.acquirers[a].lease != s.acquirers[b].lease)
    && (forall k | k in s.locks :: s.locks[k] in s.leases)
  }

  /** What is known about one section, and about the acquirer that recorded it. */
  ghost predicate SectionInv(s: State, i: nat)
    requires i < |s.sections|
  {
    var c := s.sections[i];
    && c.acquirer in s.acquirers && s.acquirers[c.acquirer].lease == c.lease
    && c.granted <= c.entered <= s.now
    && (c.left.Some? ==> c.entered <= c.left.value <= s.now)
    && (c.left.None? ==> s.acquirers[c.acquirer] == Critical(c.name, c.lease, i))
    && (c.lease in s.leases ==> s.leases[c.lease] == c.granted && c.name in s.locks && s.locks[c.name] == c.lease)
    && (c.lease !in s.leases ==> c.left.Some? || c.granted + LOCK_SECONDS <= s.now)
  }

  /** The later of two sections on the same name started after the earlier one was over, or ran out of time. */
  predicate Ordered(c: Section, d: Section) {
    (c.left.Some? && c.left.value <= d.entered) || c.granted + LOCK_SECONDS <= d.entered
  }

  ghost predicate Inv(s: State) {
    && LeasesInv(s)
    && (forall a | a in s.acquirers && s.acquirers[a].Critical? ::
          && s.acquirers[a].section < |s.sections|
          && var c := s.sections[s.acquirers[a].section];
             c.acquirer == a && c.name == s.acquirers[a].name && c.left.None?)
    && (forall a | a in s.acquirers && s.acquirers[a].Releasing? ::
          && s.acquirers[a].section < |s.sections|
          && var c := s.sections[s.acquirers[a].section];
             c.acquirer == a && c.name == s.acquirers[a].name && c.left.Some?)
    && (forall i | 0 <= i < |s.sections| :: SectionInv(s, i))
    && (forall i, j | 0 <= i < j < |s.sections| && s.sections[i].name == s.sections[j].name ::
          Ordered(s.sections[i], s.sections[j]))
  }

  lemma DropLeaseKeepsInv(s: State, l: LeaseId)
    requires Inv(s)
    requires forall a | a in s.acquirers && s.acquirers[a].lease == l && s.acquirers[a].Critical? ::
               l in s.leases && s.leases[l] + LOCK_SECONDS <= s.now
    ensures Inv(DropLease(s, l))
  {
    var s' := DropLease(s, l);
    forall i | 0 <= i < |s.sections| ensures SectionInv(s', i) {
      assert SectionInv(s, i);
    }
  }

  /** The attempt that enters the section. */
  lemma EnterKeepsInv(s: State, a: Acquirer)
    requires Inv(s) && a in s.acquirers && s.acquirers[a].Trying?
    requires s.acquirers[a].name !in s.locks && s.acquirers[a].lease in s.leases
    ensures Inv(Tried(s, a))
  {
    var s' := Tried(s, a);
    var n := |s.sections|;
    forall i | 0 <= i < |s'.sections| ensures SectionInv(s', i) {
      if i < n {
        assert SectionInv(s, i);
        assert s'.sections[i] == s.sections[i];
      }
    }
    forall i, j | 0 <= i < j < |s'.sections| && s'.sections[i].name == s'.sections[j].name
      ensures Ordered(s'.sections[i], s'.sections[j])
    {
      assert s'.sections[i] == s.sections[i];
      if j < n {
        assert s'.sections[j] == s.sections[j];
      } else {
        assert SectionInv(s, i);
      }
    }
  }

  /** Any other attempt changes the phase of its acquirer at most. */
  lemma RefusedKeepsInv(s: State, a: Acquirer, p: Phase)
    requires Inv(s) && a in s.acquirers && s.acquirers[a].Trying?
    requires (p.Trying? || p.Ended?) && p.lease == s.acquirers[a].lease
    ensures Inv(s.(acquirers := s.acquirers[a := p]))
  {
    var s' := s.(acquirers := s.acquirers[a := p]);
    forall i | 0 <= i < |s'.sections| ensures SectionInv(s', i) {
      assert SectionInv(s, i);
    }
  }

  lemma TryLockKeepsInv(s: State, s': State, a: Acquirer)
    requires Inv(s) && NextStep(s, s', TryLock(a))
    ensures Inv(s')
  {
    if s.acquirers[a].name !in s.locks && s.acquirers[a].lease in s.leases {
      EnterKeepsInv(s, a);
    } else {
      var p := s'.acquirers[a];
      assert s' == s.(acquirers := s.acquirers[a := p]);
      RefusedKeepsInv(s, a, p);
    }
  }

  lemma GiveUpKeepsInv(s: State, s': State, a: Acquirer, applied: bool)
    requires Inv(s) && NextStep(s, s', TryLockFails(a, applied))
    ensures Inv(s')
  {
    forall i | 0 <= i < |s.sections| ensures SectionInv(s', i) {
      assert SectionInv(s, i);
    }
  }

  lemma ReleaseFailsKeepsInv(s: State, s': State, a: Acquirer)
    requires Inv(s) && NextStep(s, s', ReleaseFails(a))
    ensures Inv(s')
  {
    forall i | 0 <= i < |s.sections| ensures SectionInv(s', i) {
      assert SectionInv(s, i);
    }
  }

  lemma LeaveKeepsInv(s: State, s': State, a: Acquirer)
    requires Inv(s) && NextStep(s, s', LeaveSection(a))
    ensures Inv(s')
  {
    var k := s.acquirers[a].section;
    forall i | 0 <= i < |s'.sections| ensures SectionInv(s', i) {
      assert SectionInv(s, i);
    }
    forall i, j | 0 <= i < j < |s'.sections| && s'.sections[i].name == s'.sections[j].name
      ensures Ordered(s'.sections[i], s'.sections[j])
    {
      assert Ordered(s.sections[i], s.sections[j]);
      assert SectionInv(s, i) && SectionInv(s, j) && SectionInv(s, k);
    }
  }

  lemma AcquireKeepsInv(s: State, s': State, a: Acquirer, name: string, timeout: bool)
    requires Inv(s) && NextStep(s, s', AcquireLock(a, name, timeout))
    ensures Inv(s')
  {
    forall i | 0 <= i < |s'.sections| ensures SectionInv(s', i) {
      assert SectionInv(s, i);
    }
  }

  lemma ReleaseKeepsInv(s: State, s': State, a: Acquirer)
    requires Inv(s) && NextStep(s, s', ReleaseLock(a))
    ensures Inv(s')
  {
    var d := DropLease(s, s.acquirers[a].lease);
    DropLeaseKeepsInv(s, s.acquirers[a].lease);
    forall i | 0 <= i < |s'.sections| ensures SectionInv(s', i) {
      assert SectionInv(d, i);
    }
  }

  lemma ExpireKeepsInv(s: State, s': State, l: LeaseId)
    requires Inv(s) && NextStep(s, s', Expire(l))
    ensures Inv(s')
  {
    DropLeaseKeepsInv(s, l);
  }

  lemma TickKeepsInv(s: State, s': State, seconds: nat)
    requires Inv(s) && NextStep(s, s', Tick(seconds))
    ensures Inv(s')
  {
    forall i | 0 <= i < |s'.sections| ensures SectionInv(s', i) {
      assert SectionInv(s, i);
    }
  }

  lemma NextKeepsInv(s: State, s': State)
    requires Inv(s) && Next(s, s')
    ensures Inv(s')
  {
    var step :| NextStep(s, s', step);
    StepKeepsInv(s, s', step);
  }

  lemma StepKeepsInv(s: State, s': State, step: Step)
    requires Inv(s) && NextStep(s, s', step)
    ensures Inv(s')
  {
    match step
    case AcquireLock(a, name, timeout) => AcquireKeepsInv(s, s', a, name, timeout);
    case TryLock(a) => TryLockKeepsInv(s, s', a);
    case TryLockFails(a, applied) => GiveUpKeepsInv(s, s', a, applied);
    case ReleaseFails(a) => ReleaseFailsKeepsInv(s, s', a);
    case LeaveSection(a) => LeaveKeepsInv(s, s', a);
    case ReleaseLock(a) => ReleaseKeepsInv(s, s', a);
    case Expire(l) => ExpireKeepsInv(s, s', l);
    case Tick(seconds) => TickKeepsInv(s, s', seconds);
  }

  lemma {:induction false} RunKeepsInv(run: seq<State>, i: nat)
    requires IsRun(run) && i < |run|
    ensures Inv(run[i])
  {
    if i > 0 {
      RunKeepsInv(run, i - 1);
      NextKeepsInv(run[i - 1], run[i]);
    }
  }

  /** In every reachable state at most one acquirer of a name is in its section under a live lease, and the
  lock key is attached to that lease. */
  lemma MutualExclusion(run: seq<State>, i: nat, name: string, a: Acquirer, b: Acquirer)
    requires IsRun(run) && i < |run|
    requires HoldsLive(run[i], a, name) && HoldsLive(run[i], b, name)
    ensures a == b
    ensures name in run[i].locks && run[i].locks[name] == run[i].acquirers[a].lease
  {
    RunKeepsInv(run, i);
    var s := run[i];
    assert SectionInv(s, s.acquirers[a].section) && SectionInv(s, s.acquirers[b].section);
  }

  /** Releasing, early or late, never takes a lock from another acquirer; after expiry it changes no lock at all. */
  lemma LateReleaseIsHarmless(run: seq<State>, i: nat, a: Acquirer, s': State)
    requires IsRun(run) && i < |run| && NextStep(run[i], s', ReleaseLock(a))
    ensures forall b, name | b != a && HoldsLive(run[i], b, name) ::
              HoldsLive(s', b, name) && name in s'.locks && s'.locks[name] == s'.acquirers[b].lease
    ensures run[i].acquirers[a].lease !in run[i].leases ==> s'.locks == run[i].locks
    ensures forall name | name in run[i].locks && run[i].locks[name] != run[i].acquirers[a].lease ::
              name in s'.locks && s'.locks[name] == run[i].locks[name]
  {
    RunKeepsInv(run, i);
    var s := run[i];
    forall b, name | b != a && HoldsLive(s, b, name)
      ensures HoldsLive(s', b, name) && name in s'.locks && s'.locks[name] == s'.acquirers[b].lease
    {
      MutualExclusion(run, i, name, b, b);
    }
  }

  /** Sections that finish within the lease never overlap a later section of the same lock, whether or not the
  later one is in time itself. */
  lemma SectionsInTimeDoNotOverlap(run: seq<State>, k: nat, i: nat, j: nat)
    requires IsRun(run) && k < |run| && i < j < |run[k].sections|
    requires run[k].sections[i].name == run[k].sections[j].name
    requires InTime(run[k].sections[i])
    ensures run[k].sections[i].entered <= run[k].sections[i].left.value <= run[k].sections[j].entered
  {
    RunKeepsInv(run, k);
    assert SectionInv(run[k], i);
    assert Ordered(run[k].sections[i], run[k].sections[j]);
  }

  /** Two sections of one lock overlap in time, if at all, because the earlier one was still going on when its lease
  had run out: the later one was entered at least 20 seconds after the earlier lease was granted. */
  lemma OverlapNeedsOverrun(run: seq<State>, k: nat, i: nat, j: nat)
    requires IsRun(run) && k < |run| && i < j < |run[k].sections|
    requires run[k].sections[i].name == run[k].sections[j].name
    requires var c, d := run[k].sections[i], run[k].sections[j]; c.left.None? || d.entered < c.left.value
    ensures run[k].sections[i].granted + LOCK_SECONDS <= run[k].sections[j].entered
  {
    RunKeepsInv(run, k);
    assert Ordered(run[k].sections[i], run[k].sections[j]);
  }

  lemma ExtendRun(run: seq<State>, s': State, step: Step) returns (longer: seq<State>)
    requires IsRun(run) && NextStep(run[|run| - 1], s', step)
    ensures IsRun(longer) && longer == run + [s']
  {
    longer := run + [s'];
    assert Next(run[|run| - 1], s');
  }

  /** A section that overruns its lease is not protected: two acquirers can be inside at the same time. */
  lemma OverrunOverlaps(name: string) returns (run: seq<State>)
    ensures IsRun(run)
    ensures var s := run[|run| - 1];
            && 0 in s.acquirers && s.acquirers[0].Critical? && s.acquirers[0].name == name
            && 1 in s.acquirers && s.acquirers[1].Critical? && s.acquirers[1].name == name
  {
    var c0, c1 := Section(0, name, 0, 0, 0, None), Section(1, name, 1, 20, 20, None);
    var p0, p1 := Critical(name, 0, 0), Critical(name, 1, 1);
    var t0, t1 := Trying(name, 0, true, MAX_TRIES), Trying(name, 1, true, MAX_TRIES);
    run := [State(0, 0, map[], map[], map[], [])];
    run := ExtendRun(run, State(0, 1, map[0 := 0], map[], map[0 := t0], []), AcquireLock(0, name, true));
    run := ExtendRun(run, State(0, 1, map[0 := 0], map[name := 0], map[0 := p0], [c0]), TryLock(0));
    run := ExtendRun(run, State(20, 1, map[0 := 0], map[name := 0], map[0 := p0], [c0]), Tick(20));
    run := ExtendRun(run, State(20, 1, map[], map[], map[0 := p0], [c0]), Expire(0));
    run := ExtendRun(run, State(20, 2, map[1 := 20], map[], map[0 := p0, 1 := t1], [c0]), AcquireLock(1, name, true));
    run := ExtendRun(run, State(20, 2, map[1 := 20], map[name := 1], map[0 := p0, 1 := p1], [c0, c1]), TryLock(1));
  }

  /** After a release that reaches the store the lease is gone, and no key is attached to it. If it was still live,
  the section's name is free at once, and the next attempt under a live lease enters. */
  lemma ReleaseFreesLock(run: seq<State>, i: nat, a: Acquirer, s': State)
    requires IsRun(run) && i < |run| && NextStep(run[i], s', ReleaseLock(a))
    ensures var p := run[i].acquirers[a];
            && s'.acquirers[a] == Ended(p.lease)
            && s'.leases.Keys == run[i].leases.Keys - {p.lease}
            && (forall name | name in s'.locks :: s'.locks[name] != p.lease)
            && (p.lease in run[i].leases ==> p.name in run[i].locks && p.name !in s'.locks)
            && (p.lease in run[i].leases ==> forall b, s'' | NextStep(s', s'', TryLock(b)) ::
                  s'.acquirers[b].name == p.name && s'.acquirers[b].lease in s'.leases ==> HoldsLive(s'', b, p.name))
  {
    RunKeepsInv(run, i);
    var s, p := run[i], run[i].acquirers[a];
    assert SectionInv(s, p.section);
  }

  /** An attempt enters the section exactly if the key is not there and its own lease is still live. */
  lemma TryEntersIff(run: seq<State>, i: nat, a: Acquirer, s': State)
    requires IsRun(run) && i < |run| && NextStep(run[i], s', TryLock(a))
    ensures var p := run[i].acquirers[a];
            && (s'.acquirers[a].Critical? <==> p.name !in run[i].locks && p.lease in run[i].leases)
            && (s'.acquirers[a].Critical? <==> HoldsLive(s', a, p.name))
            && (!s'.acquirers[a].Critical? ==> s'.locks == run[i].locks && s'.sections == run[i].sections)
  {
    RunKeepsInv(run, i);
  }

  /** Whoever holds a lock, 20 seconds are enough for the store to drop it. */
  lemma LockCanBeFreed(run: seq<State>, name: string) returns (longer: seq<State>)
    requires IsRun(run) && name in run[|run| - 1].locks
    ensures IsRun(longer) && |longer| == |run| + 2
    ensures longer[|run| + 1].now == run[|run| - 1].now + LOCK_SECONDS && name !in longer[|run| + 1].locks
  {
    var s := run[|run| - 1];
    RunKeepsInv(run, |run| - 1);
    var late := s.(now := s.now + LOCK_SECONDS);
    longer := ExtendRun(run, late, Tick(LOCK_SECONDS));
    longer := ExtendRun(longer, DropLease(late, s.locks[name]), Expire(s.locks[name]));
  }

  /** A run together with its steps. */
  ghost predicate Follows(run: seq<State>, steps: seq<Step>) {
    && |run| == |steps| + 1 && Init(run[0])
    && forall i {:trigger steps[i]} | 0 <= i < |steps| :: NextStep(run[i], run[i + 1], steps[i])
  }

  lemma {:induction false} FollowsKeepsInv(run: seq<State>, steps: seq<Step>, i: nat)
    requires Follows(run, steps) && i < |run|
    ensures Inv(run[i])
  {
    if i > 0 {
      FollowsKeepsInv(run, steps, i - 1);
      assert NextStep(run[i - 1], run[i], steps[i - 1]);
      StepKeepsInv(run[i - 1], run[i], steps[i - 1]);
    }
  }

  /** The acquirer's lease is live with the time of its grant, or that time is over. */
  predicate LiveOrLate(s: State, lease: LeaseId, granted: nat) {
    (lease in s.leases && s.leases[lease] == granted) || granted + LOCK_SECONDS <= s.now
  }

  lemma NextKeepsLiveOrLate(s: State, s': State, step: Step, a: Acquirer, granted: nat)
    requires Inv(s) && NextStep(s, s', step)
    requires a in s.acquirers && (!s.acquirers[a].Ended? ==> LiveOrLate(s, s.acquirers[a].lease, granted))
    ensures a in s'.acquirers && s'.acquirers[a].lease == s.acquirers[a].lease
    ensures !s'.acquirers[a].Ended? ==> LiveOrLate(s', s'.acquirers[a].lease, granted)
  {
  }

  /** The store keeps the lock of an acquirer that has not ended for 20 seconds from the grant of its lease,
  whatever the others do. */
  lemma {:induction false} LeaseLasts(run: seq<State>, steps: seq<Step>, g: nat, i: nat, a: Acquirer)
    requires Follows(run, steps) && g < i < |run|
    requires steps[g].AcquireLock? && steps[g].a == a
    ensures a in run[i].acquirers && run[i].acquirers[a].lease == run[g].nextLease
    ensures !run[i].acquirers[a].Ended? && run[i].now < run[g].now + LOCK_SECONDS ==> run[g].nextLease in run[i].leases
    ensures !run[i].acquirers[a].Ended? ==> LiveOrLate(run[i], run[g].nextLease, run[g].now)
  {
    assert NextStep(run[i - 1], run[i], steps[i - 1]);
    if i > g + 1 {
      LeaseLasts(run, steps, g, i - 1, a);
      FollowsKeepsInv(run, steps, i - 1);
      NextKeepsLiveOrLate(run[i - 1], run[i], steps[i - 1], a, run[g].now);
    }
  }

  lemma {:induction false} FollowsIsRun(run: seq<State>, steps: seq<Step>)
    requires Follows(run, steps)
    ensures IsRun(run)
  {
    forall i | 0 < i < |run| ensures Next(run[i - 1], run[i]) {
      assert NextStep(run[i - 1], run[i], steps[i - 1]);
    }
  }

  /** Stated on the steps alone: two acquirers are in their sections of one lock at a time only if one of them asked
  for its lease at least 20 seconds ago. */
  lemma TwoInsideNeedOverrun(run: seq<State>, steps: seq<Step>, g: nat, h: nat, i: nat, name: string)
    requires Follows(run, steps) && g < i < |run| && h < i
    requires steps[g].AcquireLock? && steps[h].AcquireLock? && steps[g].a != steps[h].a
    requires var s, a, b := run[i], steps[g].a, steps[h].a;
             && a in s.acquirers && s.acquirers[a].Critical? && s.acquirers[a].name == name
             && b in s.acquirers && s.acquirers[b].Critical? && s.acquirers[b].name == name
    ensures run[g].now + LOCK_SECONDS <= run[i].now || run[h].now + LOCK_SECONDS <= run[i].now
  {
    LeaseLasts(run, steps, g, i, steps[g].a);
    LeaseLasts(run, steps, h, i, steps[h].a);
    if HoldsLive(run[i], steps[g].a, name) && HoldsLive(run[i], steps[h].a, name) {
      FollowsIsRun(run, steps);
      MutualExclusion(run, i, name, steps[g].a, steps[h].a);
    }
  }

  /** The recorded times are those of the steps: `e` is the attempt that entered the section, and `l` the step by which
  its acquirer left it. */
  lemma {:induction false} SectionIsRecorded(run: seq<State>, steps: seq<Step>, i: nat, k: nat) returns (e: nat, l: nat)
    requires Follows(run, steps) && i < |run| && k < |run[i].sections|
    ensures var c := run[i].sections[k];
            && e < i && steps[e] == TryLock(c.acquirer) && run[e].now == c.entered
            && c.acquirer in run[e + 1].acquirers && run[e + 1].acquirers[c.acquirer] == Critical(c.name, c.lease, k)
            && (c.left.Some? ==> e < l < i && steps[l] == LeaveSection(c.acquirer) && run[l].now == c.left.value)
            && (c.left.Some? ==> c.acquirer in run[l].acquirers)
            && (c.left.Some? ==> run[l].acquirers[c.acquirer] == Critical(c.name, c.lease, k))
  {
    assert NextStep(run[i - 1], run[i], steps[i - 1]);
    FollowsKeepsInv(run, steps, i - 1);
    if k == |run[i - 1].sections| {
      e, l := i - 1, i - 1;
    } else {
      e, l := SectionIsRecorded(run, steps, i - 1, k);
      if run[i].sections[k] != run[i - 1].sections[k] {
        assert SectionInv(run[i - 1], k);
        l := i - 1;
      }
    }
  }

  /** Attempts of one acquirer. */
  function Attempts(steps: seq<Step>, a: Acquirer): nat {
    if steps == [] then 0
    else Attempts(steps[..|steps| - 1], a) + (if steps[|steps| - 1] == TryLock(a) then 1 else 0)
  }

  lemma TriesAfter(s: State, s': State, step: Step, a: Acquirer)
    requires NextStep(s, s', step)
    ensures a !in s'.acquirers ==> a !in s.acquirers && step != TryLock(a)
    ensures a in s'.acquirers && s'.acquirers[a].Trying? ==>
              var p := s'.acquirers[a];
              if a !in s.acquirers then step != TryLock(a) && p.tries == MAX_TRIES
              else
                && s.acquirers[a].Trying? && s.acquirers[a].timeout == p.timeout
                && s.acquirers[a].tries == p.tries + (if step == TryLock(a) && p.timeout then 1 else 0)
                && (s.acquirers[a].tries >= 1 ==> p.tries >= 1)
  {
  }

  /** An acquirer with a timeout that is still waiting has tried exactly as often as its counter says, so that it
  never tries more than MAX_TRIES times; without a timeout it is never the counter that ends the waiting. */
  lemma {:induction false} AttemptsAreCounted(run: seq<State>, steps: seq<Step>, i: nat, a: Acquirer)
    requires Follows(run, steps) && i < |run|
    ensures a !in run[i].acquirers ==> Attempts(steps[..i], a) == 0
    ensures a in run[i].acquirers && run[i].acquirers[a].Trying? ==>
              var p := run[i].acquirers[a];
              && 1 <= p.tries <= MAX_TRIES
              && p.tries == (if p.timeout then MAX_TRIES - Attempts(steps[..i], a) else MAX_TRIES)
  {
    if i > 0 {
      AttemptsAreCounted(run, steps, i - 1, a);
      assert steps[..i][..i - 1] == steps[..i - 1];
      TriesAfter(run[i - 1], run[i], steps[i - 1], a);
    }
  }

  /** An attempt under a live lease ends the waiting only as the last one of an acquirer with a timeout. */
  lemma GivesUpAfterAllTries(run: seq<State>, steps: seq<Step>, i: nat, a: Acquirer)
    requires Follows(run, steps) && i < |steps| && steps[i] == TryLock(a)
    ensures a in run[i].acquirers && run[i].acquirers[a].Trying? && a in run[i + 1].acquirers
    ensures var p := run[i].acquirers[a];
            run[i + 1].acquirers[a].Ended? && p.lease in run[i].leases <==>
            p.name in run[i].locks && p.lease in run[i].leases && p.timeout && Attempts(steps[..i + 1], a) == MAX_TRIES
  {
    assert NextStep(run[i], run[i + 1], steps[i]);
    AttemptsAreCounted(run, steps, i, a);
    assert steps[..i + 1][..i] == steps[..i];
  }

  /** A reply that is lost, or a release that fails, can leave the lock to nobody: a run in which the key is held by
  an acquirer that has ended, so that others wait for the store to drop it. */
  lemma OrphanedLock(name: string, lostReply: bool) returns (run: seq<State>)
    ensures IsRun(run)
    ensures var s := run[|run| - 1];
            name in s.locks && s.acquirers == map[0 := Ended(s.locks[name])] && s.now == 0
            && (s.sections == [] <==> lostReply)
  {
    var c := Section(0, name, 0, 0, 0, None);
    var t, p := Trying(name, 0, true, MAX_TRIES), Critical(name, 0, 0);
    run := [State(0, 0, map[], map[], map[], [])];
    run := ExtendRun(run, State(0, 1, map[0 := 0], map[], map[0 := t], []), AcquireLock(0, name, true));
    if lostReply {
      run := ExtendRun(run, State(0, 1, map[0 := 0], map[name := 0], map[0 := Ended(0)], []), TryLockFails(0, true));
    } else {
      var d, q := c.(left := Some(0)), Releasing(name, 0, 0);
      run := ExtendRun(run, State(0, 1, map[0 := 0], map[name := 0], map[0 := p], [c]), TryLock(0));
      run := ExtendRun(run, State(0, 1, map[0 := 0], map[name := 0], map[0 := q], [d]), LeaveSection(0));
      run := ExtendRun(run, State(0, 1, map[0 := 0], map[name := 0], map[0 := Ended(0)], [d]), ReleaseFails(0));
    }
  }
}
