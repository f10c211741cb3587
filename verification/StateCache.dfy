/** The cached copy of the site list that every node keeps of one etcd key.

A node changes its cache first and stores it afterwards, and a watcher applies what other nodes store.
The watcher must not apply the node's own echoes over a newer cache, so it compares the revision of each
event with the revision of the node's last put; -1 stands for a put that is still under way. The watcher waits for such
a put, but only for a second: then it applies the event, whatever it is.
*/
module StateCache {
  import opened Etcd
  import opened Options
  import PutIfDifferent

  type Sites(==, !new)
  type NodeId = nat

  const STATE_KEY := "statiko/state"

  /** Where a node's write is. The last three phases have a reply that was not processed yet. */
  datatype Phase =
    | Idle
    | First                 // before the put-if-absent transaction
    | Second                // before the put-if-different transaction
    | Stored(rev: nat)      // a transaction put the cache at this revision
    | Unchanged(rev: nat)   // at this revision the key already held the cache
    | Failed                // the client reported an error

  /** `cursor` counts the revisions whose events the watcher has consumed; `text` is what the node's last write stores
  or has stored. The other two are history, not state of the program. `unsaved`: the last write failed and no event was
  applied since. `overtaken`: an event was applied while the last write was under way, and none after it. */
  datatype Node =
    Node(cache: Sites, text: Sites, lastRev: int, cursor: nat, phase: Phase, unsaved: bool, overtaken: bool)

  datatype State = State(log: seq<Event<Sites>>, nodes: map<NodeId, Node>)

  datatype Step =
    | Join(n: NodeId, watchFrom: nat, empty: Sites)
    | BeginWrite(n: NodeId, sites: Sites)
    | FirstTxn(n: NodeId)
    | SecondTxn(n: NodeId)
    | TxnFails(n: NodeId, applied: bool)
    | FinishWrite(n: NodeId)
    | ResetRevision(n: NodeId)
    | Deliver(n: NodeId, upTo: nat)
    | DeliverImpatiently(n: NodeId, upTo: nat)
    | OtherKey(e: Event<Sites>)

  function Latest(s: State): Sites
    requires Exists(s.log, STATE_KEY)
  {
    Value(s.log, STATE_KEY)
  }

  /** The result of the transaction a writing node runs next. */
  function Commit(log: seq<Event<Sites>>, node: Node): PutIfDifferent.Outcome<Sites> {
    if node.phase.First?
    then PutIfDifferent.PutIfAbsent(log, STATE_KEY, node.text)
    else PutIfDifferent.PutIfValueDiffers(log, STATE_KEY, node.text)
  }

  /** The state when the node's write finishes: a put is remembered by its revision, a write that changed
  nothing leaves the marker -1 behind, and an error resets the revision to 0. */
  function Finished(node: Node): Node
    requires node.phase.Stored? || node.phase.Unchanged? || node.phase.Failed?
  {
    match node.phase
    case Stored(r) => node.(lastRev := r, phase := Idle, unsaved := false)
    case Unchanged(_) => node.(phase := Idle, unsaved := false)
    case Failed => node.(lastRev := 0, phase := Idle, unsaved := true)
  }

  /** A batch of events arrives: only its last event counts, and only if it is newer than the node's put. */
  function Delivered(log: seq<Event<Sites>>, node: Node, upTo: nat): Node
    requires upTo <= |log| && Exists(log[..upTo], STATE_KEY)
  {
    var moved := node.(cursor := upTo);
    if LastRev(log[..upTo], STATE_KEY) > node.lastRev
    then moved.(cache := Value(log[..upTo], STATE_KEY), unsaved := false, overtaken := !node.phase.Idle?)
    else moved
  }

  ghost predicate NextStep(s: State, s': State, step: Step) {
    match step
    case Join(n, watchFrom, empty) =>
      && n !in s.nodes
      && watchFrom <= |s.log|
      && s' == s.(nodes := s.nodes[n :=
           if Exists(s.log, STATE_KEY)
           then Node(Latest(s), Latest(s), 0, watchFrom, Idle, false, false)
           else Node(empty, empty, -1, watchFrom, First, false, false)])
    case BeginWrite(n, sites) =>
      && n in s.nodes && s.nodes[n].phase.Idle?
      && s' == s.(nodes := s.nodes[n := s.nodes[n].(cache := sites, text := sites, lastRev := -1, phase := First,
                                                         overtaken := false)])
    case FirstTxn(n) =>
      && n in s.nodes && s.nodes[n].phase.First?
      && var o := Commit(s.log, s.nodes[n]);
         s' == State(o.log, s.nodes[n := s.nodes[n].(phase := if o.succeeded then Stored(|o.log|) else Second)])
    case SecondTxn(n) =>
      && n in s.nodes && s.nodes[n].phase.Second?
      && var o := Commit(s.log, s.nodes[n]);
         var phase := if o.succeeded then Stored(|o.log|) else Unchanged(|o.log|);
         s' == State(o.log, s.nodes[n := s.nodes[n].(phase := phase)])
    case TxnFails(n, applied) =>
      && n in s.nodes && (s.nodes[n].phase.First? || s.nodes[n].phase.Second?)
      && s' == State(if applied then Commit(s.log, s.nodes[n]).log else s.log,
                     s.nodes[n := s.nodes[n].(phase := Failed)])
    case FinishWrite(n) =>
      && n in s.nodes && (s.nodes[n].phase.Stored? || s.nodes[n].phase.Unchanged? || s.nodes[n].phase.Failed?)
      && s' == s.(nodes := s.nodes[n := Finished(s.nodes[n])])
    case ResetRevision(n) =>
      && n in s.nodes && s.nodes[n].phase.Idle?
      && s' == s.(nodes := s.nodes[n := s.nodes[n].(lastRev := 0)])
    case Deliver(n, upTo) =>
      && n in s.nodes && s.nodes[n].phase.Idle?
      && upTo <= |s.log|
      && LastRev(s.log[..upTo], STATE_KEY) > s.nodes[n].cursor
      && Exists(s.log[..upTo], STATE_KEY)
      && s' == s.(nodes := s.nodes[n := Delivered(s.log, s.nodes[n], upTo)])
    case DeliverImpatiently(n, upTo) =>
      && n in s.nodes && !s.nodes[n].phase.Idle?
      && upTo <= |s.log|
      && LastRev(s.log[..upTo], STATE_KEY) > s.nodes[n].cursor
      && Exists(s.log[..upTo], STATE_KEY)
      && s' == s.(nodes := s.nodes[n := Delivered(s.log, s.nodes[n], upTo)])
    case OtherKey(e) =>
      && e.key != STATE_KEY
      && s' == s.(log := s.log + [e])
  }

  ghost predicate Init(s: State) {
    s == State([], map[])
  }

  ghost predicate Next(s: State, s': State) {
    exists step :: NextStep(s, s', step)
  }

  ghost predicate IsRun(run: seq<State>) {
    && |run| > 0 && Init(run[0])
    && forall i | 0 < i < |run| :: Next(run[i - 1], run[i])
  }

  /** The node's watcher has consumed every event about the state key. */
  predicate CaughtUp(s: State, n: NodeId)
    requires n in s.nodes
  {
    LastRev(s.log, STATE_KEY) <= s.nodes[n].cursor
  }

  /** What a node's fields mean, whatever the other nodes do. */
  ghost predicate NodeInv(log: seq<Event<Sites>>, node: Node) {
    var last := LastRev(log, STATE_KEY);
    && node.cursor <= |log|
    && -1 <= node.lastRev <= |log|
    && (node.phase != Idle ==> node.lastRev == -1 && (node.overtaken || node.cache == node.text))
    && match node.phase
       case Idle =>
         && (node.unsaved ==> node.lastRev <= 0)
         && (|| node.unsaved || node.overtaken || (last > node.cursor && last > node.lastRev)
             || Holds(log, STATE_KEY, node.cache))
       case First => true
       case Second => Exists(log, STATE_KEY)
       case Stored(r) =>
         && 0 < r <= last && (node.overtaken || node.cursor < r)
         && log[r - 1] == Put(STATE_KEY, node.text)
       case Unchanged(r) =>
         && r <= |log| && (node.overtaken || node.cursor <= r)
         && Exists(log, STATE_KEY)
         && (last > r || Holds(log, STATE_KEY, node.text))
       case Failed => true
  }

  ghost predicate Inv(s: State) {
    && Delete(STATE_KEY) !in s.log
    && forall n | n in s.nodes :: NodeInv(s.log, s.nodes[n])
  }

  /** A store that never deletes the key keeps it once it has it. */
  lemma ExistsIffMentioned(log: seq<Event<Sites>>)
    requires Delete(STATE_KEY) !in log
    ensures Exists(log, STATE_KEY) <==> LastRev(log, STATE_KEY) > 0
  {
    var r := LastRev(log, STATE_KEY);
    if r > 0 {
      assert log[r - 1] in log;
    }
  }

  /** The other nodes' view survives one more event. */
  lemma NodeInvAppend(log: seq<Event<Sites>>, e: Event<Sites>, node: Node)
    requires NodeInv(log, node)
    requires e != Delete(STATE_KEY)
    ensures NodeInv(log + [e], node)
  {
    Append(log, e, STATE_KEY);
  }

  lemma CommitKeepsOthers(s: State, n: NodeId)
    requires Inv(s) && n in s.nodes && (s.nodes[n].phase.First? || s.nodes[n].phase.Second?)
    ensures var log' := Commit(s.log, s.nodes[n]).log;
            && Delete(STATE_KEY) !in log'
            && (forall m | m in s.nodes :: NodeInv(log', s.nodes[m]))
  {
    var e := Put(STATE_KEY, s.nodes[n].text);
    forall m | m in s.nodes ensures NodeInv(s.log + [e], s.nodes[m]) {
      NodeInvAppend(s.log, e, s.nodes[m]);
    }
  }

  lemma CommitKeepsInv(s: State, s': State, n: NodeId, step: Step)
    requires Inv(s) && NextStep(s, s', step) && (step.FirstTxn? || step.SecondTxn? || step.TxnFails?) && step.n == n
    ensures Inv(s')
  {
    CommitKeepsOthers(s, n);
    CommitKeepsWriter(s, s', n, step);
  }

  /** A transaction that succeeds appends the node's text; one that does not finds a value, the second one the same. */
  lemma CommitStores(log: seq<Event<Sites>>, node: Node)
    requires Delete(STATE_KEY) !in log && (node.phase.First? || node.phase.Second?)
    requires node.phase.Second? ==> Exists(log, STATE_KEY)
    ensures var o := Commit(log, node);
            if o.succeeded then o.log == log + [Put(STATE_KEY, node.text)] && LastRev(o.log, STATE_KEY) == |o.log|
            else o.log == log && Exists(log, STATE_KEY) && (node.phase.Second? ==> Holds(log, STATE_KEY, node.text))
  {
    ExistsIffMentioned(log);
    Append(log, Put(STATE_KEY, node.text), STATE_KEY);
  }

  lemma CommitKeepsWriter(s: State, s': State, n: NodeId, step: Step)
    requires Inv(s) && NextStep(s, s', step) && (step.FirstTxn? || step.SecondTxn? || step.TxnFails?) && step.n == n
    ensures NodeInv(s'.log, s'.nodes[n])
  {
    assert NodeInv(s.log, s.nodes[n]);
    CommitStores(s.log, s.nodes[n]);
    match step
    case FirstTxn(_) =>
    case SecondTxn(_) =>
    case TxnFails(_, _) =>
    case _ =>
  }

  lemma DeliverKeepsInv(s: State, s': State, n: NodeId, upTo: nat)
    requires Inv(s) && NextStep(s, s', Deliver(n, upTo))
    ensures Inv(s')
  {
    PrefixLastRev(s.log, STATE_KEY, upTo);
    var r := LastRev(s.log[..upTo], STATE_KEY);
    assert s.log[..upTo][r - 1] == s.log[r - 1];
    assert NodeInv(s.log, s.nodes[n]);
    assert NodeInv(s'.log, s'.nodes[n]);
  }

  lemma ImpatientKeepsInv(s: State, s': State, n: NodeId, upTo: nat)
    requires Inv(s) && NextStep(s, s', DeliverImpatiently(n, upTo))
    ensures Inv(s')
  {
    assert NodeInv(s.log, s.nodes[n]);
    assert LastRev(s.log[..upTo], STATE_KEY) > s.nodes[n].lastRev;
    assert NodeInv(s'.log, s'.nodes[n]);
  }

  lemma OtherKeyKeepsInv(s: State, s': State, e: Event<Sites>)
    requires Inv(s) && NextStep(s, s', OtherKey(e))
    ensures Inv(s')
  {
    forall m | m in s.nodes ensures NodeInv(s'.log, s.nodes[m]) {
      NodeInvAppend(s.log, e, s.nodes[m]);
    }
  }

  lemma FinishKeepsInv(s: State, s': State, n: NodeId)
    requires Inv(s) && NextStep(s, s', FinishWrite(n))
    ensures Inv(s')
  {
    ExistsIffMentioned(s.log);
    assert NodeInv(s.log, s.nodes[n]);
    assert NodeInv(s'.log, s'.nodes[n]);
  }

  /** Steps of a node that leave the store alone. */
  lemma LocalKeepsInv(s: State, s': State, step: Step)
    requires Inv(s) && NextStep(s, s', step) && (step.Join? || step.BeginWrite? || step.ResetRevision?)
    ensures Inv(s')
  {
    assert NodeInv(s'.log, s'.nodes[step.n]);
  }

  lemma NextKeepsInv(s: State, s': State)
    requires Inv(s) && Next(s, s')
    ensures Inv(s')
  {
    var step :| NextStep(s, s', step);
    match step
    case FirstTxn(n) => CommitKeepsInv(s, s', n, step);
    case SecondTxn(n) => CommitKeepsInv(s, s', n, step);
    case TxnFails(n, _) => CommitKeepsInv(s, s', n, step);
    case Deliver(n, upTo) => DeliverKeepsInv(s, s', n, upTo);
    case DeliverImpatiently(n, upTo) => ImpatientKeepsInv(s, s', n, upTo);
    case OtherKey(e) => OtherKeyKeepsInv(s, s', e);
    case FinishWrite(n) => FinishKeepsInv(s, s', n);
    case Join(_, _, _) => LocalKeepsInv(s, s', step);
    case BeginWrite(_, _) => LocalKeepsInv(s, s', step);
    case ResetRevision(_) => LocalKeepsInv(s, s', step);
  }

  lemma {:induction false} RunKeepsInv(run: seq<State>, i: nat)
    requires IsRun(run) && i < |run|
    ensures Inv(run[i])
  {
    if i > 0 {
      RunKeepsInv(run, i - 1);
      NextKeepsInv(run[i - 1], run[i]);
    }
  }

  /** The watcher's comparison with lastRevisionPut is right: a node whose last write did not fail and was not
  overtaken, with no write in flight, that has consumed every event for the state key holds the latest stored site
  list, over every interleaving of writes, no-op writes, resets, failures and batched deliveries, in time or not. */
  lemma Convergence(run: seq<State>, i: nat, n: NodeId)
    requires IsRun(run) && i < |run| && n in run[i].nodes
    requires run[i].nodes[n].phase.Idle? && CaughtUp(run[i], n)
    requires !run[i].nodes[n].unsaved && !run[i].nodes[n].overtaken
    ensures Holds(run[i].log, STATE_KEY, run[i].nodes[n].cache)
  {
    RunKeepsInv(run, i);
  }

  /** One delivery of all pending events brings an idle node to the latest list, also after a failed write; and after
  one that was overtaken, if somebody has stored something since. */
  lemma DeliveryConverges(run: seq<State>, i: nat, n: NodeId, s': State)
    requires IsRun(run) && i < |run|
    requires NextStep(run[i], s', Deliver(n, |run[i].log|))
    requires !run[i].nodes[n].overtaken || LastRev(run[i].log, STATE_KEY) > run[i].nodes[n].lastRev
    ensures n in s'.nodes && Holds(s'.log, STATE_KEY, s'.nodes[n].cache)
    ensures !s'.nodes[n].unsaved && !s'.nodes[n].overtaken && CaughtUp(s', n)
  {
    RunKeepsInv(run, i);
    var s := run[i];
    DeliverKeepsInv(s, s', n, |s.log|);
    assert s.log[..|s.log|] == s.log;
  }

  /** The node has no write under way, its last one neither failed nor was overtaken, and it has read everything. */
  predicate IsSettled(s: State, n: NodeId) {
    n in s.nodes && s.nodes[n].phase.Idle? && CaughtUp(s, n) && !s.nodes[n].unsaved && !s.nodes[n].overtaken
  }

  /** Settled nodes agree with each other. */
  lemma CaughtUpNodesAgree(run: seq<State>, i: nat, n: NodeId, m: NodeId)
    requires IsRun(run) && i < |run|
    requires IsSettled(run[i], n) && IsSettled(run[i], m)
    ensures run[i].nodes[n].cache == run[i].nodes[m].cache
  {
    Convergence(run, i, n);
    Convergence(run, i, m);
  }

  lemma ExtendRun(run: seq<State>, s': State, step: Step) returns (longer: seq<State>)
    requires IsRun(run) && NextStep(run[|run| - 1], s', step)
    ensures IsRun(longer) && longer == run + [s']
  {
    longer := run + [s'];
    assert Next(run[|run| - 1], s');
  }

  /** The node's first write fails, but its value was stored by the transaction that failed. */
  lemma FirstWriteStored(a: Sites) returns (run: seq<State>)
    ensures IsRun(run)
    ensures run[|run| - 1] == State([Put(STATE_KEY, a)], map[0 := Node(a, a, -1, 0, Failed, false, false)])
  {
    var log := [Put(STATE_KEY, a)];
    assert [] + log == log;
    run := [State([], map[])];
    run := ExtendRun(run, State([], map[0 := Node(a, a, -1, 0, First, false, false)]), Join(0, 0, a));
    run := ExtendRun(run, State(log, map[0 := Node(a, a, -1, 0, Failed, false, false)]), TxnFails(0, true));
  }

  /** Its watcher then delivers the node's own put. */
  lemma FirstWriteFails(a: Sites) returns (run: seq<State>)
    ensures IsRun(run) && run[|run| - 1] == State([Put(STATE_KEY, a)], map[0 := Node(a, a, 0, 1, Idle, false, false)])
  {
    var log := [Put(STATE_KEY, a)];
    assert log == log[..1] && log[0].key == STATE_KEY;
    run := FirstWriteStored(a);
    run := ExtendRun(run, State(log, map[0 := Node(a, a, 0, 0, Idle, true, false)]), FinishWrite(0));
    run := ExtendRun(run, State(log, map[0 := Node(a, a, 0, 1, Idle, false, false)]), Deliver(0, 1));
  }

  /** The condition about failed writes is needed: a node that changed its cache and could not store it is
  idle and caught up, and keeps a site list that nobody stored. */
  lemma FailedWriteDiverges(a: Sites, b: Sites) returns (run: seq<State>)
    requires a != b
    ensures IsRun(run)
    ensures var s := run[|run| - 1];
            && 0 in s.nodes && s.nodes[0].phase.Idle? && CaughtUp(s, 0)
            && Holds(s.log, STATE_KEY, a) && s.nodes[0].cache == b
  {
    var log := [Put(STATE_KEY, a)];
    run := FirstWriteFails(a);
    run := ExtendRun(run, State(log, map[0 := Node(b, b, -1, 1, First, false, false)]), BeginWrite(0, b));
    run := ExtendRun(run, State(log, map[0 := Node(b, b, -1, 1, Failed, false, false)]), TxnFails(0, false));
    run := ExtendRun(run, State(log, map[0 := Node(b, b, 0, 1, Idle, true, false)]), FinishWrite(0));
  }

  /** A run together with its steps. */
  ghost predicate Follows(run: seq<State>, steps: seq<Step>) {
    && |run| == |steps| + 1 && Init(run[0])
    && forall i {:trigger steps[i]} | 0 <= i < |steps| :: NextStep(run[i], run[i + 1], steps[i])
  }

  lemma {:induction false} FollowsKeepsInv(run: seq<State>, steps: seq<Step>, i: nat)
    requires Follows(run, steps) && i < |run|
    ensures Inv(run[i])
  {
    if i > 0 {
      FollowsKeepsInv(run, steps, i - 1);
      assert NextStep(run[i - 1], run[i], steps[i - 1]);
      NextKeepsInv(run[i - 1], run[i]);
    }
  }

  /** The steps that write a node's remembered revision. */
  predicate Touches(step: Step, n: NodeId) {
    (step.Join? || step.BeginWrite? || step.FinishWrite? || step.ResetRevision?) && step.n == n
  }

  predicate Untouched(steps: seq<Step>, from: nat, to: nat, n: NodeId)
    requires to <= |steps|
  {
    forall k | from <= k < to :: !Touches(steps[k], n)
  }

  /** What a node's step remembers: the revision of the put it reports, or nothing. */
  function Remembered(s: State, step: Step, n: NodeId): Option<nat>
    requires n in s.nodes
  {
    if step == FinishWrite(n) && s.nodes[n].phase.Stored? then Some(s.nodes[n].phase.rev) else None
  }

  lemma {:induction false} UntouchedKeeps(run: seq<State>, steps: seq<Step>, j: nat, i: nat, n: NodeId)
    requires Follows(run, steps) && j <= i < |run| && Untouched(steps, j, i, n)
    requires n in run[j].nodes && run[j].nodes[n].phase.Idle?
    ensures n in run[i].nodes && run[i].nodes[n].phase.Idle?
    ensures run[i].nodes[n].lastRev == run[j].nodes[n].lastRev
    ensures |run[j].log| <= |run[i].log| && run[i].log[..|run[j].log|] == run[j].log
  {
    if i > j {
      UntouchedKeeps(run, steps, j, i - 1, n);
      assert NextStep(run[i - 1], run[i], steps[i - 1]);
      assert !Touches(steps[i - 1], n);
    }
  }

  /** Which events a node applies, by its own history alone. Take the last step `j` that wrote its remembered
  revision: if that step reported a put, exactly the newer events replace the cache; otherwise every event does,
  also one that is older than what the node stored itself. */
  lemma AppliedIffNewerThanOwnPut(
      run: seq<State>, steps: seq<Step>, j: nat, i: nat, n: NodeId, upTo: nat, s': State)
    requires Follows(run, steps) && j < i < |run| && n in run[j].nodes && Touches(steps[j], n)
    requires Untouched(steps, j + 1, i, n)
    requires NextStep(run[i], s', Deliver(n, upTo)) && run[j + 1].nodes[n].phase.Idle?
    ensures var put, prefix := Remembered(run[j], steps[j], n), run[i].log[..upTo];
            && (put.Some? ==> 0 < put.value <= |run[i].log|
                              && run[i].log[put.value - 1] == Put(STATE_KEY, run[j].nodes[n].text))
            && s'.nodes[n].cache ==
                 if put.None? || LastRev(prefix, STATE_KEY) > put.value then Value(prefix, STATE_KEY)
                 else run[i].nodes[n].cache
  {
    assert NextStep(run[j], run[j + 1], steps[j]);
    FollowsKeepsInv(run, steps, j);
    assert NodeInv(run[j].log, run[j].nodes[n]);
    UntouchedKeeps(run, steps, j + 1, i, n);
    var put := Remembered(run[j], steps[j], n);
    if put.Some? {
      assert run[i].log[put.value - 1] == run[i].log[..|run[j + 1].log|][put.value - 1];
    }
  }

  /** The cache is what revision `q` stored; the node stored revision `r` itself. */
  predicate CacheFrom(s: State, n: NodeId, r: nat, q: nat) {
    && n in s.nodes && s.nodes[n].phase.Idle? && s.nodes[n].lastRev == r
    && r <= q <= |s.log| && 0 < q && (q == r || q <= s.nodes[n].cursor)
    && s.log[q - 1] == Put(STATE_KEY, s.nodes[n].cache)
  }

  lemma NextIsNoOlder(s: State, s': State, step: Step, n: NodeId, r: nat, q: nat) returns (q': nat)
    requires Inv(s) && NextStep(s, s', step) && !Touches(step, n) && CacheFrom(s, n, r, q)
    ensures CacheFrom(s', n, r, q') && q <= q'
  {
    q' := q;
    if step.Deliver? && step.n == n {
      var last := LastRev(s.log[..step.upTo], STATE_KEY);
      if last > r {
        q' := last;
        assert s.log[..step.upTo][last - 1] == s.log[last - 1];
      }
    }
  }

  /** No step back: unless its write was overtaken, from the moment a node's put is reported until its next write or
  reset, its cache comes from its own put or from a newer revision, and that revision never goes down, over every
  interleaving with the writes of others and with late, batched or repeated deliveries. */
  lemma {:induction false} NoStepBack(run: seq<State>, steps: seq<Step>, j: nat, i: nat, n: NodeId, r: nat)
      returns (revs: seq<nat>)
    requires Follows(run, steps) && j < i < |run| && steps[j] == FinishWrite(n)
    requires n in run[j].nodes && run[j].nodes[n].phase == Stored(r) && !run[j].nodes[n].overtaken
    requires Untouched(steps, j + 1, i, n)
    ensures |revs| == i - j && revs[0] == r
    ensures forall k | 0 <= k < i - j :: CacheFrom(run[j + 1 + k], n, r, revs[k])
    ensures forall k | 0 < k < i - j :: revs[k - 1] <= revs[k]
  {
    if i == j + 1 {
      revs := [r];
      assert NextStep(run[j], run[i], steps[j]);
      FollowsKeepsInv(run, steps, j);
      assert NodeInv(run[j].log, run[j].nodes[n]);
    } else {
      revs := NoStepBack(run, steps, j, i - 1, n, r);
      assert NextStep(run[i - 1], run[i], steps[i - 1]);
      assert !Touches(steps[i - 1], n);
      FollowsKeepsInv(run, steps, i - 1);
      var last := |revs| - 1;
      assert CacheFrom(run[j + 1 + last], n, r, revs[last]);
      var q := NextIsNoOlder(run[i - 1], run[i], steps[i - 1], n, r, revs[last]);
      revs := revs + [q];
    }
  }

  lemma {:induction false} SavedSince(run: seq<State>, steps: seq<Step>, j: nat, i: nat, n: NodeId)
    requires Follows(run, steps) && j < i < |run| && steps[j] == FinishWrite(n)
    requires n in run[j].nodes && !run[j].nodes[n].phase.Failed?
    requires forall k | j < k < i :: steps[k] != FinishWrite(n)
    ensures n in run[i].nodes && !run[i].nodes[n].unsaved
    ensures !run[j].nodes[n].overtaken && run[i].nodes[n].phase.Idle? ==> !run[i].nodes[n].overtaken
  {
    if i > j + 1 {
      SavedSince(run, steps, j, i - 1, n);
    }
    assert NextStep(run[i - 1], run[i], steps[i - 1]);
  }

  /** A write is not overtaken as long as the watcher is patient. */
  lemma {:induction false} PatientWrite(run: seq<State>, steps: seq<Step>, b: nat, i: nat, n: NodeId)
    requires Follows(run, steps) && b < i < |run| && steps[b].BeginWrite? && steps[b].n == n
    requires forall k | b < k < i :: !(steps[k].DeliverImpatiently? && steps[k].n == n)
    ensures n in run[i].nodes && !run[i].nodes[n].overtaken
  {
    if i > b + 1 {
      PatientWrite(run, steps, b, i - 1, n);
    }
    assert NextStep(run[i - 1], run[i], steps[i - 1]);
  }

  /** Stated on the steps alone: a node whose last write was reported without an error, whether it stored something or
  not, holds the latest list as soon as it is idle and has consumed every event, if its watcher has waited for the
  write. */
  lemma WriterConverges(run: seq<State>, steps: seq<Step>, b: nat, j: nat, i: nat, n: NodeId)
    requires Follows(run, steps) && b < j < i < |run|
    requires steps[b].BeginWrite? && steps[b].n == n && steps[j] == FinishWrite(n)
    requires n in run[j].nodes && !run[j].nodes[n].phase.Failed?
    requires forall k | b < k < j :: !(steps[k].DeliverImpatiently? && steps[k].n == n)
    requires forall k | j < k < i :: steps[k] != FinishWrite(n)
    requires n in run[i].nodes && run[i].nodes[n].phase.Idle? && CaughtUp(run[i], n)
    ensures Holds(run[i].log, STATE_KEY, run[i].nodes[n].cache)
  {
    FollowsKeepsInv(run, steps, i);
    PatientWrite(run, steps, b, j, n);
    SavedSince(run, steps, j, i, n);
  }

  /** The node's write under way, when the log had `before` events: what a reply that has come says about the log. */
  predicate Writing(s: State, n: NodeId, sites: Sites, before: nat) {
    && n in s.nodes && s.nodes[n].text == sites && !s.nodes[n].phase.Idle?
    && before <= |s.log|
    && (s.nodes[n].phase.Second? ==> Exists(s.log, STATE_KEY))
    && match s.nodes[n].phase
       case Stored(r) => before < r <= |s.log| && s.log[r - 1] == Put(STATE_KEY, sites)
       case Unchanged(r) => before <= r <= |s.log| && Holds(s.log[..r], STATE_KEY, sites)
       case _ => true
  }

  lemma OwnStepKeepsWriting(s: State, s': State, step: Step, n: NodeId, sites: Sites, before: nat)
    requires Inv(s) && NextStep(s, s', step) && Writing(s, n, sites, before)
    requires (step.FirstTxn? || step.SecondTxn? || step.TxnFails? || step.DeliverImpatiently?) && step.n == n
    ensures Writing(s', n, sites, before)
  {
    assert s.log[..|s.log|] == s.log;
  }

  lemma OthersLeaveNode(s: State, s': State, step: Step, n: NodeId)
    requires NextStep(s, s', step) && n in s.nodes && (step.OtherKey? || step.n != n)
    ensures n in s'.nodes && s'.nodes[n] == s.nodes[n] && s.log <= s'.log
  {
  }

  lemma OthersKeepWriting(s: State, s': State, n: NodeId, sites: Sites, before: nat)
    requires Writing(s, n, sites, before)
    requires n in s'.nodes && s'.nodes[n] == s.nodes[n] && s.log <= s'.log
    requires Exists(s.log, STATE_KEY) ==> Exists(s'.log, STATE_KEY)
    ensures Writing(s', n, sites, before)
  {
    if s.nodes[n].phase.Unchanged? {
      assert s'.log[..s.nodes[n].phase.rev] == s.log[..s.nodes[n].phase.rev];
    }
  }

  lemma {:induction false} KeyStays(log: seq<Event<Sites>>, log': seq<Event<Sites>>)
    requires log <= log' && Delete(STATE_KEY) !in log' && Exists(log, STATE_KEY)
    ensures Exists(log', STATE_KEY)
  {
    PrefixLastRev(log', STATE_KEY, |log|);
    assert log'[..|log|] == log;
    ExistsIffMentioned(log');
  }

  /** A write that is reported as done stored the list it was asked to store, after it was asked, or found it. */
  lemma {:induction false} WriteIsDone(run: seq<State>, steps: seq<Step>, b: nat, i: nat, n: NodeId)
    requires Follows(run, steps) && b < i < |run|
    requires steps[b].BeginWrite? && steps[b].n == n
    requires forall k | b < k < i :: steps[k] != FinishWrite(n)
    ensures Writing(run[i], n, steps[b].sites, |run[b].log|)
  {
    assert NextStep(run[i - 1], run[i], steps[i - 1]);
    if i > b + 1 {
      WriteIsDone(run, steps, b, i - 1, n);
      FollowsKeepsInv(run, steps, i - 1);
      FollowsKeepsInv(run, steps, i);
      var step := steps[i - 1];
      if !step.OtherKey? && step.n == n {
        OwnStepKeepsWriting(run[i - 1], run[i], step, n, steps[b].sites, |run[b].log|);
      } else {
        OthersLeaveNode(run[i - 1], run[i], step, n);
        if Exists(run[i - 1].log, STATE_KEY) {
          KeyStays(run[i - 1].log, run[i].log);
        }
        OthersKeepWriting(run[i - 1], run[i], n, steps[b].sites, |run[b].log|);
      }
    }
  }

  function TwoPuts(a: Sites, b: Sites): seq<Event<Sites>> {
    [Put(STATE_KEY, a), Put(STATE_KEY, b)]
  }

  lemma OneListStored(a: Sites) returns (run: seq<State>)
    ensures IsRun(run) && run[|run| - 1] == State([Put(STATE_KEY, a)], map[0 := Node(a, a, 1, 0, Idle, false, false)])
  {
    var one := [Put(STATE_KEY, a)];
    assert [] + [Put(STATE_KEY, a)] == one;
    run := [State([], map[])];
    run := ExtendRun(run, State([], map[0 := Node(a, a, -1, 0, First, false, false)]), Join(0, 0, a));
    run := ExtendRun(run, State(one, map[0 := Node(a, a, -1, 0, Stored(1), false, false)]), FirstTxn(0));
    run := ExtendRun(run, State(one, map[0 := Node(a, a, 1, 0, Idle, false, false)]), FinishWrite(0));
  }

  /** The node stores two lists; its watcher has not delivered anything yet. */
  lemma TwoListsStored(a: Sites, b: Sites) returns (run: seq<State>)
    requires a != b
    ensures IsRun(run) && run[|run| - 1] == State(TwoPuts(a, b), map[0 := Node(b, b, 2, 0, Idle, false, false)])
  {
    var one := [Put(STATE_KEY, a)];
    assert one + [Put(STATE_KEY, b)] == TwoPuts(a, b);
    run := OneListStored(a);
    run := ExtendRun(run, State(one, map[0 := Node(b, b, -1, 0, First, false, false)]), BeginWrite(0, b));
    run := ExtendRun(run, State(one, map[0 := Node(b, b, -1, 0, Second, false, false)]), FirstTxn(0));
    run := ExtendRun(run, State(TwoPuts(a, b), map[0 := Node(b, b, -1, 0, Stored(2), false, false)]), SecondTxn(0));
    run := ExtendRun(run, State(TwoPuts(a, b), map[0 := Node(b, b, 2, 0, Idle, false, false)]), FinishWrite(0));
  }

  /** The second list is written again: the transactions change nothing and the remembered revision is lost, so that
  a late event puts the first list back in the place of the second. */
  lemma NoOpWriteForgets(a: Sites, b: Sites) returns (run: seq<State>, s: State)
    requires a != b
    ensures IsRun(run) && NextStep(run[|run| - 1], s, Deliver(0, 1))
    ensures var before := run[|run| - 1];
            && 0 in before.nodes && Holds(before.log, STATE_KEY, b) && before.nodes[0].cache == b
            && before.log[0] == Put(STATE_KEY, a) && Holds(s.log, STATE_KEY, b) && s.nodes[0].cache == a
  {
    var two := TwoPuts(a, b);
    run := TwoListsStored(a, b);
    run := ExtendRun(run, State(two, map[0 := Node(b, b, -1, 0, First, false, false)]), BeginWrite(0, b));
    run := ExtendRun(run, State(two, map[0 := Node(b, b, -1, 0, Second, false, false)]), FirstTxn(0));
    run := ExtendRun(run, State(two, map[0 := Node(b, b, -1, 0, Unchanged(2), false, false)]), SecondTxn(0));
    run := ExtendRun(run, State(two, map[0 := Node(b, b, -1, 0, Idle, false, false)]), FinishWrite(0));
    assert two[..1] == [Put(STATE_KEY, a)];
    s := State(two, map[0 := Node(a, b, -1, 1, Idle, false, false)]);
  }

  /** The node stores a second list, and meanwhile its watcher runs out of patience and applies the first one. */
  lemma WriteIsOvertaken(a: Sites, b: Sites) returns (run: seq<State>)
    requires a != b
    ensures IsRun(run) && run[|run| - 1] == State(TwoPuts(a, b), map[0 := Node(a, b, 2, 1, Idle, false, true)])
  {
    var one, two := [Put(STATE_KEY, a)], TwoPuts(a, b);
    assert one + [Put(STATE_KEY, b)] == two && two[..1] == one;
    run := OneListStored(a);
    run := ExtendRun(run, State(one, map[0 := Node(b, b, -1, 0, First, false, false)]), BeginWrite(0, b));
    run := ExtendRun(run, State(one, map[0 := Node(b, b, -1, 0, Second, false, false)]), FirstTxn(0));
    run := ExtendRun(run, State(two, map[0 := Node(b, b, -1, 0, Stored(2), false, false)]), SecondTxn(0));
    run := ExtendRun(run, State(two, map[0 := Node(a, b, -1, 1, Stored(2), false, true)]), DeliverImpatiently(0, 1));
    run := ExtendRun(run, State(two, map[0 := Node(a, b, 2, 1, Idle, false, true)]), FinishWrite(0));
  }

  /** The condition about overtaken writes is needed: the node skips the echo of its own put, and keeps the older list
  although it has consumed everything. */
  lemma OvertakenWriteDiverges(a: Sites, b: Sites) returns (run: seq<State>)
    requires a != b
    ensures IsRun(run)
    ensures var s := run[|run| - 1];
            && 0 in s.nodes && s.nodes[0].phase.Idle? && CaughtUp(s, 0) && !s.nodes[0].unsaved
            && Holds(s.log, STATE_KEY, b) && s.nodes[0].cache == a
  {
    var two := TwoPuts(a, b);
    run := WriteIsOvertaken(a, b);
    assert two[..2] == two;
    run := ExtendRun(run, State(two, map[0 := Node(a, b, 2, 2, Idle, false, true)]), Deliver(0, 2));
  }
}
