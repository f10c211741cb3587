/** Election of the cluster leader over one leased key.

A node that sees the key vacant gets a lease and tries to put its member ID. It learns who leads from the
watch on the key, of which it looks at the last event of each batch only. Two goroutines of a node try: the
one that starts the controller, once, and the watcher, after every vacancy.
*/
module LeaderElection {
  import opened Options

  type Member = nat
  type LeaseId = nat

  /** The history of the leader key. */
  datatype Change = Elected(member: Member, lease: LeaseId) | Vacated

  datatype Who = Startup | Watcher

  /** One call of acquireLeadership. Refused: the transaction failed, and setLeader(false) was not called yet. */
  datatype Attempt = Resting | Wanted | Leased(lease: LeaseId) | Refused

  /** `watch` is the number of changes before the watch was established; `cursor` counts the consumed ones. */
  datatype Node = Node(isLeader: bool, watch: Option<nat>, cursor: nat, startup: Attempt, watcher: Attempt)
  {
    function Attempt(who: Who): Attempt {
      if who.Startup? then startup else watcher
    }

    function WithAttempt(who: Who, a: Attempt): Node {
      if who.Startup? then this.(startup := a) else this.(watcher := a)
    }
  }

  datatype State = State(changes: seq<Change>, leases: set<LeaseId>, nextLease: LeaseId, nodes: map<Member, Node>)

  datatype Step =
    | StartNode(n: Member)
    | EstablishWatch(n: Member)
    | GrantLease(n: Member, who: Who)
    | Transaction(n: Member, who: Who)
    | RequestFails(n: Member, who: Who, applied: bool)
    | ReportRefusal(n: Member, who: Who)
    | Deliver(n: Member, upTo: nat)
    | Expire(l: LeaseId)

  predicate Occupied(s: State) {
    |s.changes| > 0 && s.changes[|s.changes| - 1].Elected?
  }

  predicate Enabled(s: State, step: Step) {
    match step
    case StartNode(n) => n !in s.nodes
    case EstablishWatch(n) => n in s.nodes && s.nodes[n].watch.None?
    case GrantLease(n, who) => n in s.nodes && s.nodes[n].Attempt(who).Wanted?
    case Transaction(n, who) => n in s.nodes && s.nodes[n].Attempt(who).Leased?
    case RequestFails(n, who, applied) =>
      n in s.nodes && (s.nodes[n].Attempt(who).Leased? || (s.nodes[n].Attempt(who).Wanted? && !applied))
    case ReportRefusal(n, who) => n in s.nodes && s.nodes[n].Attempt(who).Refused?
    case Deliver(n, upTo) =>
      && n in s.nodes && s.nodes[n].watch.Some? && s.nodes[n].watcher.Resting?
      && s.nodes[n].cursor < upTo <= |s.changes|
    case Expire(l) => l in s.leases
  }

  /** The put happens if the key is vacant and the lease still lives. */
  function Elect(s: State, n: Member, lease: LeaseId): seq<Change> {
    if !Occupied(s) && lease in s.leases then s.changes + [Elected(n, lease)] else s.changes
  }

  /** A refused attempt ends with setLeader(false). */
  function AfterRefusal(node: Node, who: Who): Node {
    node.WithAttempt(who, Resting).(isLeader := false)
  }

  /** The watcher looks at the last event of a batch: a leader's ID sets the flag, a vacancy starts an attempt. */
  function AfterDelivery(node: Node, n: Member, changes: seq<Change>, upTo: nat): Node
    requires 0 < upTo <= |changes|
  {
    var moved := node.(cursor := upTo);
    match changes[upTo - 1]
    case Elected(m, _) => moved.(isLeader := m == n)
    case Vacated => moved.(watcher := Wanted)
  }

  function Do(s: State, step: Step): State
    requires Enabled(s, step)
  {
    match step
    case StartNode(n) =>
      s.(nodes := s.nodes[n := Node(false, None, 0, Wanted, Resting)])
    case EstablishWatch(n) =>
      s.(nodes := s.nodes[n := s.nodes[n].(watch := Some(|s.changes|), cursor := |s.changes|)])
    case GrantLease(n, who) =>
      s.(leases := s.leases + {s.nextLease}, nextLease := s.nextLease + 1,
         nodes := s.nodes[n := s.nodes[n].WithAttempt(who, Leased(s.nextLease))])
    case Transaction(n, who) =>
      s.(changes := Elect(s, n, s.nodes[n].Attempt(who).lease),
         nodes := s.nodes[n := s.nodes[n].WithAttempt(who, if Occupied(s) then Refused else Resting)])
    case RequestFails(n, who, applied) =>
      s.(changes := if applied then Elect(s, n, s.nodes[n].Attempt(who).lease) else s.changes,
         nodes := s.nodes[n := s.nodes[n].WithAttempt(who, Resting)])
    case ReportRefusal(n, who) =>
      s.(nodes := s.nodes[n := AfterRefusal(s.nodes[n], who)])
    case Deliver(n, upTo) =>
      s.(nodes := s.nodes[n := AfterDelivery(s.nodes[n], n, s.changes, upTo)])
    case Expire(l) =>
      s.(leases := s.leases - {l},
         changes := if Occupied(s) && s.changes[|s.changes| - 1].lease == l then s.changes + [Vacated] else s.changes)
  }

  const START := State([], {}, 0, map[])

  predicate IsRun(run: seq<State>, steps: seq<Step>) {
    && |run| == |steps| + 1 && run[0] == START
    && forall i {:trigger steps[i]} | 0 <= i < |steps| ::
         Enabled(run[i], steps[i]) && run[i + 1] == Do(run[i], steps[i])
  }

  /** The node has consumed every change since its watch was established. */
  predicate CaughtUp(s: State, n: Member) {
    n in s.nodes && s.nodes[n].watch.Some? && s.nodes[n].cursor == |s.changes|
  }

  ghost predicate Alternates(changes: seq<Change>) {
    forall i | 0 <= i < |changes| :: changes[i].Elected? <==> i % 2 == 0
  }

  /** The nodes whose startup goroutine has reported a refusal, and that have processed no event since. */
  function LateAfter(late: set<Member>, step: Step): set<Member> {
    match step
    case ReportRefusal(n, Startup) => late + {n}
    case Deliver(n, _) => late - {n}
    case _ => late
  }

  function Late(steps: seq<Step>): set<Member> {
    if steps == [] then {} else LateAfter(Late(steps[..|steps| - 1]), steps[|steps| - 1])
  }

  /** Among the first i steps, the node's startup attempt reported a refusal after the last event was processed. */
  ghost predicate RefusalAfterDelivery(steps: seq<Step>, i: nat, n: Member)
    requires i <= |steps|
  {
    exists k :: 0 <= k < i && steps[k] == ReportRefusal(n, Startup) &&
                forall j | k < j < i :: !(steps[j].Deliver? && steps[j].n == n)
  }

  lemma {:induction false} LateIff(steps: seq<Step>, i: nat, n: Member)
    requires i <= |steps|
    ensures n in Late(steps[..i]) <==> RefusalAfterDelivery(steps, i, n)
  {
    if i > 0 {
      LateIff(steps, i - 1, n);
      assert steps[..i][..i - 1] == steps[..i - 1];
      var last := steps[i - 1];
      if last == ReportRefusal(n, Startup) {
        assert RefusalAfterDelivery(steps, i, n);
      } else if RefusalAfterDelivery(steps, i - 1, n) && !(last.Deliver? && last.n == n) {
        var k :| 0 <= k < i - 1 && steps[k] == ReportRefusal(n, Startup) &&
                 forall j | k < j < i - 1 :: !(steps[j].Deliver? && steps[j].n == n);
        assert RefusalAfterDelivery(steps, i, n);
      }
    }
  }

  ghost predicate NodeInv(changes: seq<Change>, n: Member, node: Node, late: bool) {
    && node.cursor <= |changes|
    && (node.watch.Some? ==> node.watch.value <= node.cursor)
    && (if node.watch.None? || node.watch.value == node.cursor then
          !node.isLeader && node.watcher.Resting?
        else match changes[node.cursor - 1]
             case Elected(m, _) =>
               && node.watcher.Resting?
               && (node.isLeader <==> m == n && !late)
             case Vacated => true)
  }

  ghost predicate Inv(s: State, late: set<Member>) {
    && Alternates(s.changes)
    && (Occupied(s) ==> s.changes[|s.changes| - 1].lease in s.leases)
    && (forall n | n in s.nodes :: NodeInv(s.changes, n, s.nodes[n], n in late))
    && (forall n | n in late :: n in s.nodes)
  }

  lemma GrowKeepsNodeInv(changes: seq<Change>, c: Change, n: Member, node: Node, late: bool)
    requires NodeInv(changes, n, node, late)
    ensures NodeInv(changes + [c], n, node, late)
  {
  }

  /** Elections and vacancies keep the history alternating, and every node's knowledge of the past. */
  lemma ChangesKeepInv(s: State, s': State, late: set<Member>)
    requires Inv(s, late) && s'.nodes == s.nodes
    requires
      || (s'.changes == s.changes && s.leases <= s'.leases)
      || (s'.leases == s.leases && exists n, l :: s'.changes == Elect(s, n, l))
      || (exists l :: Enabled(s, Expire(l)) && s' == Do(s, Expire(l)))
    ensures Inv(s', late)
  {
    forall n | n in s'.nodes ensures NodeInv(s'.changes, n, s'.nodes[n], n in late) {
      if |s'.changes| > |s.changes| {
        GrowKeepsNodeInv(s.changes, s'.changes[|s.changes|], n, s.nodes[n], n in late);
      }
    }
  }

  /** A step changes one node, and perhaps whether its refusal came late. */
  lemma NodeKeepsInv(s: State, late: set<Member>, n: Member, node: Node, late': set<Member>)
    requires Inv(s, late) && late' - {n} == late - {n} && NodeInv(s.changes, n, node, n in late')
    ensures Inv(s.(nodes := s.nodes[n := node]), late')
  {
    forall m | m != n
      ensures m in late' <==> m in late
    {
      assert m in late' <==> m in late' - {n};
    }
  }

  lemma AttemptKeepsInv(s: State, late: set<Member>, n: Member, who: Who, a: Attempt)
    requires Inv(s, late) && n in s.nodes && !s.nodes[n].Attempt(who).Resting?
    ensures Inv(s.(nodes := s.nodes[n := s.nodes[n].WithAttempt(who, a)]), late)
  {
    NodeKeepsInv(s, late, n, s.nodes[n].WithAttempt(who, a), late);
  }

  lemma DoKeepsInv(s: State, late: set<Member>, step: Step)
    requires Inv(s, late) && Enabled(s, step)
    ensures Inv(Do(s, step), LateAfter(late, step))
  {
    var s', late' := Do(s, step), LateAfter(late, step);
    match step
    case StartNode(n) => NodeKeepsInv(s, late, n, s'.nodes[n], late');
    case EstablishWatch(n) => NodeKeepsInv(s, late, n, s'.nodes[n], late');
    case GrantLease(n, who) =>
      AttemptKeepsInv(s, late, n, who, Leased(s.nextLease));
      ChangesKeepInv(s.(nodes := s'.nodes), s', late);
    case Transaction(n, who) =>
      var a := s'.nodes[n].Attempt(who);
      AttemptKeepsInv(s, late, n, who, a);
      ElectKeepsInv(s.(nodes := s'.nodes), late, n, s.nodes[n].Attempt(who).lease);
    case RequestFails(n, who, applied) =>
      AttemptKeepsInv(s, late, n, who, Resting);
      if applied {
        ElectKeepsInv(s.(nodes := s'.nodes), late, n, s.nodes[n].Attempt(who).lease);
      }
    case ReportRefusal(n, who) => NodeKeepsInv(s, late, n, s'.nodes[n], late');
    case Deliver(n, upTo) => NodeKeepsInv(s, late, n, s'.nodes[n], late');
    case Expire(l) =>
      assert Enabled(s, Expire(l)) && s' == Do(s, Expire(l));
      ChangesKeepInv(s, s', late);
  }

  lemma ElectKeepsInv(s: State, late: set<Member>, n: Member, l: LeaseId)
    requires Inv(s, late)
    ensures Inv(s.(changes := Elect(s, n, l)), late)
  {
    ChangesKeepInv(s, s.(changes := Elect(s, n, l)), late);
  }

  lemma {:induction false} RunKeepsInv(run: seq<State>, steps: seq<Step>, i: nat)
    requires IsRun(run, steps) && i < |run|
    ensures Inv(run[i], Late(steps[..i]))
  {
    if i > 0 {
      RunKeepsInv(run, steps, i - 1);
      assert Enabled(run[i - 1], steps[i - 1]);
      DoKeepsInv(run[i - 1], Late(steps[..i - 1]), steps[i - 1]);
      assert steps[..i][..i - 1] == steps[..i - 1];
    }
  }

  /** The leader key's history strictly alternates between an election and a vacancy, and only ever grows. */
  lemma HistoryAlternates(run: seq<State>, steps: seq<Step>, i: nat)
    requires IsRun(run, steps) && i < |run|
    ensures Alternates(run[i].changes)
    ensures i > 0 ==> run[i - 1].changes <= run[i].changes
  {
    RunKeepsInv(run, steps, i);
  }

  /** When L is the elected leader, a caught-up node believes that it leads exactly if it is L, its watch was
  established before the election, and its startup attempt has not reported a refusal since the node processed the
  election. */
  lemma LeaderKnowsItself(run: seq<State>, steps: seq<Step>, i: nat, n: Member)
    requires IsRun(run, steps) && i < |run|
    requires Occupied(run[i]) && CaughtUp(run[i], n)
    ensures var s := run[i];
            s.nodes[n].isLeader <==>
            && s.changes[|s.changes| - 1].member == n
            && s.nodes[n].watch.value < |s.changes|
            && !RefusalAfterDelivery(steps, i, n)
  {
    RunKeepsInv(run, steps, i);
    LateIff(steps, i, n);
    assert NodeInv(run[i].changes, n, run[i].nodes[n], n in Late(steps[..i]));
  }

  /** Two caught-up nodes never both lead while somebody is elected. No side condition is needed for this. */
  lemma AtMostOneLeader(run: seq<State>, steps: seq<Step>, i: nat, n: Member, m: Member)
    requires IsRun(run, steps) && i < |run|
    requires Occupied(run[i]) && CaughtUp(run[i], n) && CaughtUp(run[i], m)
    requires run[i].nodes[n].isLeader && run[i].nodes[m].isLeader
    ensures n == m && run[i].changes[|run[i].changes| - 1].member == n
  {
    LeaderKnowsItself(run, steps, i, n);
    LeaderKnowsItself(run, steps, i, m);
  }

  /** A run, written as the steps it takes and where they lead. */
  ghost predicate Reaches(steps: seq<Step>, s: State) {
    exists run :: IsRun(run, steps) && run[|steps|] == s
  }

  lemma Then(steps: seq<Step>, s: State, step: Step) returns (steps': seq<Step>, s': State)
    requires Reaches(steps, s) && Enabled(s, step)
    ensures steps' == steps + [step] && s' == Do(s, step) && Reaches(steps', s')
  {
    var run :| IsRun(run, steps) && run[|steps|] == s;
    steps', s' := steps + [step], Do(s, step);
    assert IsRun(run + [s'], steps') && (run + [s'])[|steps'|] == s';
  }

  lemma Begin() returns (steps: seq<Step>, s: State)
    ensures steps == [] && s == START && Reaches(steps, s)
  {
    steps, s := [], START;
    assert IsRun([START], steps) && [START][|steps|] == s;
  }

  /** Both conditions of LeaderKnowsItself are needed. First: a watch established after the node's own
  election never tells it, and the elected node does not lead. */
  lemma LateWatchMissesElection() returns (steps: seq<Step>, s: State)
    ensures Reaches(steps, s) && CaughtUp(s, 0)
    ensures s.changes == [Elected(0, 0)] && !s.nodes[0].isLeader
  {
    steps, s := Begin();
    steps, s := Then(steps, s, StartNode(0));
    steps, s := Then(steps, s, GrantLease(0, Startup));
    steps, s := Then(steps, s, Transaction(0, Startup));
    steps, s := Then(steps, s, EstablishWatch(0));
  }

  /** Two nodes watch the key and node 0 is elected. */
  lemma FirstElection() returns (steps: seq<Step>, s: State)
    ensures Reaches(steps, s)
    ensures s == State([Elected(0, 0)], {0}, 1,
                       map[0 := Node(false, Some(0), 0, Resting, Resting),
                           1 := Node(false, Some(0), 0, Wanted, Resting)])
  {
    steps, s := Begin();
    steps, s := Then(steps, s, StartNode(0));
    steps, s := Then(steps, s, StartNode(1));
    steps, s := Then(steps, s, EstablishWatch(0));
    steps, s := Then(steps, s, EstablishWatch(1));
    steps, s := Then(steps, s, GrantLease(0, Startup));
    steps, s := Then(steps, s, Transaction(0, Startup));
  }

  /** Node 1 is refused at startup, and learns of a vacancy before it has reported the refusal. */
  lemma RefusedBeforeVacancy() returns (steps: seq<Step>, s: State)
    ensures Reaches(steps, s)
    ensures s == State([Elected(0, 0), Vacated], {1}, 2,
                       map[0 := Node(false, Some(0), 0, Resting, Resting),
                           1 := Node(false, Some(0), 2, Refused, Wanted)])
  {
    steps, s := FirstElection();
    steps, s := Then(steps, s, GrantLease(1, Startup));
    steps, s := Then(steps, s, Transaction(1, Startup));
    steps, s := Then(steps, s, Expire(0));
    steps, s := Then(steps, s, Deliver(1, 2));
  }

  /** Second: the startup attempt was refused, the node was elected through its watcher, and the refusal is
  reported only then. */
  lemma LateRefusalOverrulesElection() returns (steps: seq<Step>, s: State)
    ensures Reaches(steps, s) && CaughtUp(s, 1) && s.nodes[1].watch == Some(0)
    ensures s.changes == [Elected(0, 0), Vacated, Elected(1, 2)] && !s.nodes[1].isLeader
  {
    steps, s := RefusedBeforeVacancy();
    steps, s := Then(steps, s, GrantLease(1, Watcher));
    steps, s := Then(steps, s, Transaction(1, Watcher));
    steps, s := Then(steps, s, Deliver(1, 3));
    steps, s := Then(steps, s, ReportRefusal(1, Startup));
  }

  /** While the key is vacant the promise does not hold: a vacancy does not lower the flag by itself, and a
  batch can hide an election, so two caught-up nodes can both believe that they lead. */
  lemma TwoLeadersDuringVacancy() returns (steps: seq<Step>, s: State)
    ensures Reaches(steps, s) && CaughtUp(s, 0) && CaughtUp(s, 1) && !Occupied(s)
    ensures s.nodes[0].isLeader && s.nodes[1].isLeader
  {
    steps, s := FirstElection();
    steps, s := Then(steps, s, Deliver(0, 1));
    steps, s := Then(steps, s, Expire(0));
    steps, s := Then(steps, s, GrantLease(1, Startup));
    steps, s := Then(steps, s, Transaction(1, Startup));
    steps, s := Then(steps, s, Deliver(1, 3));
    steps, s := Then(steps, s, Expire(1));
    steps, s := Then(steps, s, Deliver(0, 4));
    steps, s := Then(steps, s, Deliver(1, 4));
  }
}
