/**
 A cluster of nodes with their disks and a network that may lose, repeat and reorder messages.
 Each driver turn runs one node operation, saves the state if asked to, then sends.
 */
module Cluster {
  import opened Types
  import opened Membership
  import opened RaftLog
  import opened Messages
  import opened RaftCore
  import opened RaftNode
  import opened PersistFlag
  import opened Protocol
  import opened Refinement
  import opened Safety
  import opened Completeness
  import opened Reads
  import opened Linearizable
  import opened Acknowledgement

  /** Messages stay in the network for good: each may arrive never, once or often. */
  datatype Cluster = Cluster(nodes: map<NodeId, Node>, disks: map<NodeId, Persistent>, net: set<Message>)

  datatype Action =
    | Elapse(n: NodeId, clock: Clock)
    | Deliver(n: NodeId, message: Message, clock: Clock)
    | Put(n: NodeId, bytes: Bytes)
    | Read(n: NodeId)
    | HandOver(n: NodeId, target: NodeId)
    | Crash(n: NodeId)

  /** What the acting node turns into, and what its driver must do; none when the action is refused. */
  function React(c: Cluster, a: Action): Option<(Node, Effects)> {
    if a.n !in c.nodes || a.n !in c.disks then None
    else
      var node := c.nodes[a.n];
      match a
      case Elapse(_, clock) => Some(StepEvent(node, Tick, clock))
      case Deliver(n, m, clock) =>
        if m in c.net && m.to == n then Some(StepEvent(node, Receive(m), clock)) else None
      case Put(_, bytes) =>
        (match NodePropose(node, bytes) case Ok(result) => Some(result) case Err(_) => None)
      case Read(_) =>
        (match NodeReadIndex(node) case Ok((_, after, effects)) => Some((after, effects)) case Err(_) => None)
      case HandOver(_, target) =>
        (match NodeTransfer(node, target) case Ok(effects) => Some((node, effects)) case Err(_) => None)
      case Crash(n) => Some((Restore(node.core.settings, c.disks[n]), NOTHING))
  }

  /** Save first, then send. */
  function Commit(c: Cluster, n: NodeId, after: Node, effects: Effects): Cluster {
    Cluster(c.nodes[n := after],
            if effects.persist then c.disks[n := after.core.persistent] else c.disks,
            c.net + effects.messages)
  }

  function Step(c: Cluster, a: Action): Cluster {
    match React(c, a)
    case None => c
    case Some((after, effects)) => Commit(c, a.n, after, effects)
  }

  function Run(c: Cluster, actions: seq<Action>, k: nat): Cluster
    requires k <= |actions|
  {
    if k == 0 then c else Step(Run(c, actions, k - 1), actions[k - 1])
  }

  predicate Configured(voters: set<NodeId>, settings: map<NodeId, Settings>) {
    && settings.Keys == voters
    && forall n :: n in voters ==> settings[n].id == n && !settings[n].parallelDiskWrite
  }

  function Initial(voters: set<NodeId>, settings: map<NodeId, Settings>): Cluster
    requires Configured(voters, settings)
  {
    Cluster(map n | n in voters :: Restore(settings[n], InitialPersistent(voters)),
            map n | n in voters :: InitialPersistent(voters), {})
  }

  // --- Abstraction ---

  function AbsNodes(nodes: map<NodeId, Node>): map<NodeId, Peer> { map n | n in nodes :: Abs(nodes[n]) }

  function AbsCluster(c: Cluster): State { State(AbsNodes(c.nodes), c.net) }

  function InputOf(a: Action): Input {
    match a
    case Deliver(_, m, _) => Recv(m)
    case Put(_, bytes) => Submit(bytes)
    case Read(_) => ReadRequest
    case Crash(_) => Restart
    case _ => Timer
  }

  ghost function MoveOf(voters: set<NodeId>, c: Cluster, h: History, a: Action): Move
    requires React(c, a).Some?
  {
    var (after, effects) := React(c, a).value;
    Move(voters, AbsCluster(c), h, a.n, InputOf(a), Abs(after), effects.messages)
  }

  ghost function TrackStep(voters: set<NodeId>, c: Cluster, h: History, a: Action): History {
    if React(c, a).None? then h else MoveOf(voters, c, h, a).History'()
  }

  const NO_HISTORY := History(map[], map[], map[], map[], map[])

  ghost function RunHistory(voters: set<NodeId>, c: Cluster, actions: seq<Action>, k: nat): History
    requires k <= |actions|
  {
    if k == 0 then NO_HISTORY
    else TrackStep(voters, Run(c, actions, k - 1), RunHistory(voters, c, actions, k - 1), actions[k - 1])
  }

  // --- The invariant ---

  ghost predicate NodesShaped(voters: set<NodeId>, c: Cluster) {
    && c.nodes.Keys == voters && c.disks.Keys == voters
    && forall n :: n in voters ==> Shape(voters, n, c.nodes[n]) && c.disks[n] == c.nodes[n].core.persistent
  }

  ghost predicate ClusterInv(voters: set<NodeId>, c: Cluster, h: History) {
    NodesShaped(voters, c) && Inv(voters, AbsCluster(c), h) && InvReads(voters, AbsCluster(c), h)
  }

  lemma NodeReady(voters: set<NodeId>, c: Cluster, h: History, n: NodeId)
    requires ClusterInv(voters, c, h) && n in voters
    ensures Ready(voters, n, c.nodes[n]) && c.disks[n] == c.nodes[n].core.persistent
    ensures c.nodes[n].role.Leader? ==> c.nodes[n].core.Term() >= 1
  {
    hide InvVotes, InvNet, InvElections, InvReads, RoleShape, CoreShape;
    var s := AbsCluster(c).nodes[n];
    assert Sound(s.log, s.term, h.logs) && LeadOk(n, s, h);
    if s.role.Leading? {
      ElectedTermPositive(voters, c, h, s.term);
    }
  }

  lemma ElectedTermPositive(voters: set<NodeId>, c: Cluster, h: History, t: Term)
    requires Inv(voters, AbsCluster(c), h) && t in h.elections
    ensures t >= 1
  {
    assert ElectionOk(voters, h, t);
    assert VoteOk(voters, AbsCluster(c), h, h.elections[t].leader, t);
  }

  lemma SliceFits(lead: seq<Entry>, t: Term, logs: map<Term, seq<Entry>>, prev: LogIndex, prevTerm: Term,
                  entries: seq<Entry>)
    requires Sound(lead, t, logs) && SliceOf(lead, prev, prevTerm, entries)
    ensures Consecutive(prev, entries) && (entries != [] && prev > 0 ==> prevTerm >= 1)
  {
    forall i | 0 <= i < |entries|
      ensures entries[i].index == prev + 1 + i && entries[i].term >= 1 && entries[i].payload.Command?
    {
      assert entries[i] == lead[prev + i];
    }
  }

  lemma NetFits(voters: set<NodeId>, c: Cluster, h: History, m: Message)
    requires Inv(voters, AbsCluster(c), h) && m in c.net
    ensures Fits(m.to, m)
  {
    hide Sound, Consecutive, SliceOf;
    assert MessageOk(h, m);
    if m.body.AppendRequest? {
      assert ElectionOk(voters, h, m.term);
      SliceFits(h.logs[m.term], m.term, h.logs, m.body.prevLogIndex, m.body.prevLogTerm, m.body.entries);
    }
  }

  /** Every action of the cluster is a protocol step of one node. */
  lemma ActionRefines(voters: set<NodeId>, c: Cluster, h: History, a: Action)
    requires ClusterInv(voters, c, h) && React(c, a).Some?
    ensures a.n in voters
    ensures var (after, effects) := React(c, a).value;
      Refines(voters, a.n, Abs(c.nodes[a.n]), InputOf(a), after, effects)
  {
    hide Refines, Inv, InvReads, StepEvent, NodePropose, NodeReadIndex, NodeTransfer, Shape, Abs, Fits;
    var node := c.nodes[a.n];
    NodeReady(voters, c, h, a.n);
    match a
    case Elapse(n, clock) => TickRefines(voters, n, node, clock);
    case Deliver(n, m, clock) => NetFits(voters, c, h, m); ReceiveRefines(voters, n, node, m, clock);
    case Put(n, bytes) => LeadsToPropose(node, bytes); ProposeRefines(voters, n, node, bytes);
    case Read(n) => LeadsToRead(node); ReadIndexRefines(voters, n, node);
    case HandOver(n, target) => TransferRefines(voters, n, node, target);
    case Crash(n) => RestoreRefines(voters, n, node);
  }

  lemma LeadsToPropose(node: Node, bytes: Bytes)
    ensures NodePropose(node, bytes).Ok? ==> node.role.Leader?
  {
  }

  lemma LeadsToRead(node: Node)
    ensures NodeReadIndex(node).Ok? ==> node.role.Leader?
  {
  }

  /** What is not asked to be saved has not changed. */
  lemma ActionSaves(voters: set<NodeId>, c: Cluster, h: History, a: Action)
    requires ClusterInv(voters, c, h) && React(c, a).Some?
    ensures a.n in voters
    ensures var (after, effects) := React(c, a).value; Saved(c.nodes[a.n].core, after.core, effects)
  {
    hide Inv, InvReads, StepEvent, NodePropose, NodeReadIndex, NodeTransfer, MeetsBoundary, CommandLog;
    var node := c.nodes[a.n];
    NodeReady(voters, c, h, a.n);
    PlainContiguous(node.core.Log().entries);
    match a
    case Elapse(_, clock) =>
      NoSnapshotNoBoundary(node.core.Log(), Tick);
      PersistFlagSound(node, Tick, clock);
    case Deliver(_, m, clock) =>
      NoSnapshotNoBoundary(node.core.Log(), Receive(m));
      PersistFlagSound(node, Receive(m), clock);
    case Put(_, bytes) => OperationsSave(node, bytes, 0);
    case Read(_) => OperationsSave(node, [], 0);
    case _ =>
  }

  lemma PlainContiguous(log: seq<Entry>)
    requires CommandLog(log)
    ensures Plain(log).Contiguous() && Plain(log).snapshotIndex == 0
  {
  }

  lemma AbsUpdate(nodes: map<NodeId, Node>, n: NodeId, after: Node)
    ensures AbsNodes(nodes[n := after]) == AbsNodes(nodes)[n := Abs(after)]
  {
  }

  lemma ActionEnabled(voters: set<NodeId>, c: Cluster, h: History, a: Action)
    requires NodesShaped(voters, c) && React(c, a).Some?
    ensures MoveOf(voters, c, h, a).Enabled()
  {
    hide Shape, StepEvent, NodePropose, NodeReadIndex, NodeTransfer, Abs;
  }

  lemma ActionShapes(voters: set<NodeId>, c: Cluster, h: History, a: Action)
    requires ClusterInv(voters, c, h) && React(c, a).Some?
    ensures NodesShaped(voters, Step(c, a))
  {
    hide Inv, InvReads, LocalStep, Shape, React, Abs;
    ActionRefines(voters, c, h, a);
    ActionSaves(voters, c, h, a);
  }

  /** The action as a protocol move between abstract states. */
  lemma ActionMoves(voters: set<NodeId>, c: Cluster, h: History, a: Action)
    requires ClusterInv(voters, c, h) && React(c, a).Some?
    ensures var x := MoveOf(voters, c, h, a);
      && x.Enabled() && x.st == AbsCluster(c) && x.State'() == AbsCluster(Step(c, a))
      && x.History'() == TrackStep(voters, c, h, a)
      && LocalStep(voters, x.n, x.Before(), x.e, x.after, x.sent)
  {
    hide Inv, InvReads, LocalStep, Shape, React, Abs;
    ActionRefines(voters, c, h, a);
    ActionEnabled(voters, c, h, a);
    var (after, effects) := React(c, a).value;
    AbsUpdate(c.nodes, a.n, after);
  }

  lemma StepKeepsClusterInv(voters: set<NodeId>, c: Cluster, h: History, a: Action)
    requires ClusterInv(voters, c, h)
    ensures ClusterInv(voters, Step(c, a), TrackStep(voters, c, h, a))
  {
    hide Inv, InvReads, LocalStep, NodesShaped, AbsCluster;
    if React(c, a).Some? {
      ActionMoves(voters, c, h, a);
      ActionShapes(voters, c, h, a);
      var x := MoveOf(voters, c, h, a);
      StepKeepsInv(x);
      MovesFromLocal(x);
      StepReads(x);
    }
  }

  lemma MovesFromLocal(x: Move)
    requires Inv(x.voters, x.st, x.h) && x.Enabled()
    requires LocalStep(x.voters, x.n, x.Before(), x.e, x.after, x.sent)
    ensures Moves(x)
  {
    hide Inv, ElectStep, FreshRule, MatchRule, CommitRule, ReadRule, SendRule;
  }

  ghost predicate Blank(voters: set<NodeId>, st: State) {
    && st.nodes.Keys == voters && st.net == {}
    && forall n :: n in voters ==> st.nodes[n] == Peer(0, None, [], 0, Passive)
  }

  lemma BlankInv(voters: set<NodeId>, st: State)
    requires Blank(voters, st)
    ensures Inv(voters, st, NO_HISTORY) && InvReads(voters, st, NO_HISTORY)
  {
  }

  lemma BlankTrueInv(voters: set<NodeId>, st: State)
    requires Blank(voters, st)
    ensures TrueInv(voters, st, NO_HISTORY) && InvReadCommits(voters, st, NO_HISTORY)
    ensures InvCauses(voters, st, NO_HISTORY)
  {
    BlankInv(voters, st);
  }

  lemma InitialInv(voters: set<NodeId>, settings: map<NodeId, Settings>)
    requires Configured(voters, settings)
    ensures ClusterInv(voters, Initial(voters, settings), NO_HISTORY)
    ensures TrueInv(voters, AbsCluster(Initial(voters, settings)), NO_HISTORY)
    ensures InvReadCommits(voters, AbsCluster(Initial(voters, settings)), NO_HISTORY)
    ensures InvCauses(voters, AbsCluster(Initial(voters, settings)), NO_HISTORY)
  {
    hide Inv, InvReads, InvReadCommits, TrueInv, InvCauses;
    BlankInv(voters, AbsCluster(Initial(voters, settings)));
    BlankTrueInv(voters, AbsCluster(Initial(voters, settings)));
  }

  /** Before the step: if it acknowledges an append request, the request reconciles the receiver's log with the log of
      the leader that sent it. */
  ghost predicate Guarded(c: Cluster, h: History, a: Action) {
    React(c, a).Some? && a.Deliver? && WillAck(c.nodes[a.n], a.message) ==>
      && a.message.term in h.logs
      && Reconciles(c.nodes[a.n].core.Log().entries, h.logs[a.message.term], a.message.body.prevLogIndex,
                    a.message.body.entries)
  }

  /** A run of a configured cluster, watched for its history. */
  datatype Execution = Execution(voters: set<NodeId>, settings: map<NodeId, Settings>, actions: seq<Action>)
  {
    predicate Valid() { Configured(voters, settings) }

    function At(k: nat): Cluster
      requires Valid() && k <= |actions|
    {
      Run(Initial(voters, settings), actions, k)
    }

    ghost function History(k: nat): History
      requires Valid() && k <= |actions|
    {
      RunHistory(voters, Initial(voters, settings), actions, k)
    }

    /** Every append request acknowledged so far reconciled its receiver's log with the leader's. */
    ghost predicate TruthfulUpTo(k: nat)
      requires Valid() && k <= |actions|
    {
      forall i :: 0 <= i < k ==> Guarded(At(i), History(i), actions[i])
    }
  }

  lemma RunNext(x: Execution, k: nat)
    requires x.Valid() && k < |x.actions|
    ensures x.At(k + 1) == Step(x.At(k), x.actions[k])
    ensures x.History(k + 1) == TrackStep(x.voters, x.At(k), x.History(k), x.actions[k])
  {
    hide Step, TrackStep;
  }

  lemma {:induction false} RunKeepsInv(x: Execution, k: nat)
    requires x.Valid() && k <= |x.actions|
    ensures ClusterInv(x.voters, x.At(k), x.History(k))
  {
    hide ClusterInv;
    if k == 0 {
      InitialInv(x.voters, x.settings);
    } else {
      RunKeepsInv(x, k - 1);
      StepKeepsClusterInv(x.voters, x.At(k - 1), x.History(k - 1), x.actions[k - 1]);
    }
  }

  lemma StepExtendsHistory(voters: set<NodeId>, c: Cluster, h: History, a: Action)
    requires ClusterInv(voters, c, h)
    ensures Extends(h, TrackStep(voters, c, h, a)) && RoundsKept(h, TrackStep(voters, c, h, a))
  {
    hide Inv, InvReads, LocalStep, NodesShaped, AbsCluster, React, Moves;
    if React(c, a).Some? {
      ActionMoves(voters, c, h, a);
      var x := MoveOf(voters, c, h, a);
      MovesFromLocal(x);
      StepExtends(x);
      StepRounds(x);
    }
  }

  lemma ExtendsTrans(a: History, b: History, c: History)
    requires Extends(a, b) && Extends(b, c)
    ensures Extends(a, c)
  {
  }

  lemma {:induction false} RunExtends(x: Execution, i: nat, j: nat)
    requires x.Valid() && i <= j <= |x.actions|
    ensures Extends(x.History(i), x.History(j))
    decreases j - i
  {
    hide Extends, ClusterInv, Step, TrackStep, RoundsKept;
    if i < j {
      RunExtends(x, i, j - 1);
      RunKeepsInv(x, j - 1);
      StepExtendsHistory(x.voters, x.At(j - 1), x.History(j - 1), x.actions[j - 1]);
      ExtendsTrans(x.History(i), x.History(j - 1), x.History(j));
    } else {
      ExtendsRefl(x.History(i));
    }
  }

  lemma ExtendsRefl(h: History)
    ensures Extends(h, h)
  {
  }

  // --- Theorems on every run ---

  function LogOf(c: Cluster, n: NodeId): seq<Entry>
    requires n in c.nodes
  {
    c.nodes[n].core.Log().entries
  }

  predicate LeadsIn(c: Cluster, n: NodeId, t: Term) {
    n in c.nodes && c.nodes[n].role.Leader? && c.nodes[n].core.Term() == t
  }

  lemma LeaderRecorded(x: Execution, k: nat, n: NodeId, t: Term)
    requires x.Valid() && k <= |x.actions| && LeadsIn(x.At(k), n, t)
    ensures var h := x.History(k);
      && t in h.elections && h.elections[t].leader == n
      && t in h.logs && h.logs[t] == LogOf(x.At(k), n)
  {
    hide Execution.At, Execution.History, InvNodes, InvVotes, InvNet, InvElections, InvReads, Shape;
    RunKeepsInv(x, k);
    assert LeadOk(n, AbsCluster(x.At(k)).nodes[n], x.History(k));
  }

  /** No term ever has two leaders, whatever is lost, repeated, reordered or restarted in between. */
  lemma ElectionSafety(x: Execution, i: nat, j: nat, n: NodeId, p: NodeId, t: Term)
    requires x.Valid() && i <= j <= |x.actions| && LeadsIn(x.At(i), n, t) && LeadsIn(x.At(j), p, t)
    ensures n == p
  {
    hide Execution.At, Execution.History;
    LeaderRecorded(x, i, n, t);
    LeaderRecorded(x, j, p, t);
    RunExtends(x, i, j);
  }

  /** A leader's log in a term is a prefix of what the same term's leader holds later. */
  lemma LeaderAppendOnly(x: Execution, i: nat, j: nat, n: NodeId, p: NodeId, t: Term)
    requires x.Valid() && i <= j <= |x.actions| && LeadsIn(x.At(i), n, t) && LeadsIn(x.At(j), p, t)
    ensures LogOf(x.At(i), n) <= LogOf(x.At(j), p)
  {
    hide Execution.At, Execution.History;
    LeaderRecorded(x, i, n, t);
    LeaderRecorded(x, j, p, t);
    RunExtends(x, i, j);
  }

  lemma NodeSound(x: Execution, k: nat, n: NodeId)
    requires x.Valid() && k <= |x.actions| && n in x.voters
    ensures n in x.At(k).nodes && Sound(LogOf(x.At(k), n), x.At(k).nodes[n].core.Term(), x.History(k).logs)
    ensures x.At(k).nodes[n].core.Log() == Plain(LogOf(x.At(k), n))
  {
    hide Execution.At, Execution.History, InvRoles, InvVotes, InvNet, InvElections, InvReads, Sound;
    RunKeepsInv(x, k);
    assert AbsCluster(x.At(k)).nodes[n] == Abs(x.At(k).nodes[n]);
  }

  /** Any two logs, of any nodes at any moments, that agree on a term at an index are identical up to it. */
  lemma LogMatching(x: Execution, i: nat, j: nat, n: NodeId, p: NodeId)
    requires x.Valid() && i <= j <= |x.actions| && n in x.voters && p in x.voters
    ensures n in x.At(i).nodes && p in x.At(j).nodes && Matching(LogOf(x.At(i), n), LogOf(x.At(j), p))
  {
    hide Execution.At, Execution.History, Matching, Chain;
    NodeSound(x, i, n);
    NodeSound(x, j, p);
    RunExtends(x, i, j);
    ChainGrows(LogOf(x.At(i), n), x.History(i).logs, x.History(j).logs);
    ChainsMatch(LogOf(x.At(i), n), LogOf(x.At(j), p), x.History(j).logs);
  }

  /** Every log is numbered from 1 without gaps, with terms that never fall and stay within the node's term. */
  lemma LogShape(x: Execution, k: nat, n: NodeId)
    requires x.Valid() && k <= |x.actions| && n in x.voters
    ensures n in x.At(k).nodes && Numbered(LogOf(x.At(k), n))
    ensures Ordered(LogOf(x.At(k), n), x.At(k).nodes[n].core.Term())
  {
    hide Execution.At, Execution.History, Numbered, Ordered;
    NodeSound(x, k, n);
  }

  /** Between driver turns the disk holds exactly the node's term, vote and log. */
  lemma DiskUpToDate(x: Execution, k: nat, n: NodeId)
    requires x.Valid() && k <= |x.actions| && n in x.voters
    ensures n in x.At(k).nodes && n in x.At(k).disks && x.At(k).disks[n] == x.At(k).nodes[n].core.persistent
  {
    hide Execution.At, Execution.History, Inv, InvReads, Shape;
    RunKeepsInv(x, k);
  }

  // --- Theorems on truthful runs ---

  ghost predicate TrueCluster(voters: set<NodeId>, c: Cluster, h: History) {
    && ClusterInv(voters, c, h) && TrueInv(voters, AbsCluster(c), h)
    && InvReadCommits(voters, AbsCluster(c), h) && InvCauses(voters, AbsCluster(c), h)
  }

  /** Only the delivery of an append request can acknowledge one. */
  lemma AcksOnDelivery(voters: set<NodeId>, c: Cluster, h: History, a: Action)
    requires ClusterInv(voters, c, h) && React(c, a).Some?
    ensures Acks(React(c, a).value.1.messages) <==> a.Deliver? && WillAck(c.nodes[a.n], a.message)
  {
    hide Inv, InvReads, StepEvent, NodePropose, NodeReadIndex, NodeTransfer, Shape, ElectStep, FreshRule, MatchRule,
         CommitRule, ReadRule, Consistent, Absorbs;
    ActionRefines(voters, c, h, a);
    NodeReady(voters, c, h, a.n);
    if a.Deliver? && a.message.body.AppendRequest? {
      AcksWhenAccepted(voters, a.n, c.nodes[a.n], a.message, a.clock);
    }
  }

  /** The acknowledgements a step sends are truthful exactly when the guard held before it. */
  lemma TruthfulIsGuarded(voters: set<NodeId>, c: Cluster, h: History, a: Action)
    requires ClusterInv(voters, c, h) && React(c, a).Some?
    ensures MoveOf(voters, c, h, a).Enabled() && (Truthful(MoveOf(voters, c, h, a)) <==> Guarded(c, h, a))
  {
    hide Inv, InvReads, LocalStep, NodesShaped, React, Moves, WillAck, Reconciles;
    ActionMoves(voters, c, h, a);
    AcksOnDelivery(voters, c, h, a);
    var x := MoveOf(voters, c, h, a);
    MovesFromLocal(x);
    if Acks(x.sent) {
      TruthfulExactly(x);
    }
  }

  lemma TruthfulStep(voters: set<NodeId>, c: Cluster, h: History, a: Action)
    requires TrueCluster(voters, c, h) && Guarded(c, h, a)
    ensures TrueCluster(voters, Step(c, a), TrackStep(voters, c, h, a))
  {
    hide Inv, InvReads, InvAcks, InvCounts, InvCommits, InvReadCommits, InvCauses, LocalStep, NodesShaped,
         AbsCluster, React, Moves, Truthful, Guarded;
    StepKeepsClusterInv(voters, c, h, a);
    if React(c, a).Some? {
      ActionMoves(voters, c, h, a);
      TruthfulIsGuarded(voters, c, h, a);
      var x := MoveOf(voters, c, h, a);
      MovesFromLocal(x);
      TruthfulStepKeepsInv(x);
      StepReadCommits(x);
      StepCauses(x);
    }
  }

  lemma ActorKnown(c: Cluster, a: Action)
    ensures React(c, a).Some? ==> a.n in AbsCluster(c).nodes
  {
  }

  lemma {:induction false} TruthfulRun(x: Execution, k: nat)
    requires x.Valid() && k <= |x.actions| && x.TruthfulUpTo(k)
    ensures TrueCluster(x.voters, x.At(k), x.History(k))
  {
    hide ClusterInv, TrueInv, InvReadCommits, InvCauses, Guarded, Step, TrackStep, React;
    if k == 0 {
      InitialInv(x.voters, x.settings);
    } else {
      TruthfulRun(x, k - 1);
      TruthfulStep(x.voters, x.At(k - 1), x.History(k - 1), x.actions[k - 1]);
    }
  }

  /** What any node has committed is in the log of every leader of a later term, from then on. */
  lemma LeaderCompleteness(x: Execution, i: nat, j: nat, n: NodeId, p: NodeId, t: Term)
    requires x.Valid() && i <= j <= |x.actions| && x.TruthfulUpTo(j) && n in x.voters
    requires n in x.At(i).nodes && LeadsIn(x.At(j), p, t) && t > x.At(i).nodes[n].core.Term()
    ensures var commit := x.At(i).nodes[n].core.commitIndex;
      commit <= |LogOf(x.At(i), n)| && LogOf(x.At(i), n)[..commit] <= LogOf(x.At(j), p)
  {
    hide Execution.At, Execution.History, ClusterInv, TrueInv, InvReadCommits, InvCauses, Extends,
         Execution.TruthfulUpTo;
    TruthfulPrefix(x, i, j);
    TruthfulRun(x, i);
    TruthfulRun(x, j);
    RunExtends(x, i, j);
    LeaderRecorded(x, j, p, t);
    CommittedInLaterLeaders(x.voters, AbsCluster(x.At(i)), x.History(i), AbsCluster(x.At(j)), x.History(j), n, t);
  }

  lemma TruthfulPrefix(x: Execution, i: nat, j: nat)
    requires x.Valid() && i <= j <= |x.actions| && x.TruthfulUpTo(j)
    ensures x.TruthfulUpTo(i)
  {
    hide Execution.At, Execution.History, Guarded, React;
  }

  /** Two nodes never commit different entries at one index, at whatever moments. */
  lemma StateMachineSafety(x: Execution, i: nat, j: nat, n: NodeId, p: NodeId, k: nat)
    requires x.Valid() && i <= j <= |x.actions| && x.TruthfulUpTo(j) && n in x.voters && p in x.voters
    requires n in x.At(i).nodes && p in x.At(j).nodes
    requires k < x.At(i).nodes[n].core.commitIndex && k < x.At(j).nodes[p].core.commitIndex
    ensures k < |LogOf(x.At(i), n)| && k < |LogOf(x.At(j), p)| && LogOf(x.At(i), n)[k] == LogOf(x.At(j), p)[k]
  {
    hide Execution.At, Execution.History, ClusterInv, TrueInv, InvReadCommits, InvCauses, Extends,
         Execution.TruthfulUpTo;
    TruthfulPrefix(x, i, j);
    TruthfulRun(x, i);
    TruthfulRun(x, j);
    RunExtends(x, i, j);
    CommittedAgree(x.voters, AbsCluster(x.At(i)), x.History(i), AbsCluster(x.At(j)), x.History(j), n, p, k);
  }

  // --- Reads ---

  /** The action at step `k` confirms read round `id` of its node. */
  ghost predicate ConfirmsRead(x: Execution, k: nat, id: nat)
    requires x.Valid() && k < |x.actions|
  {
    && React(x.At(k), x.actions[k]).Some?
    && Confirms(Abs(x.At(k).nodes[x.actions[k].n]), Abs(React(x.At(k), x.actions[k]).value.0), id)
  }

  /** Terms won when the confirmed round was requested, as the history recorded them. */
  ghost predicate ReadFresh(x: Execution, k: nat, id: nat)
    requires x.Valid() && k < |x.actions| && x.actions[k].n in x.At(k).nodes
  {
    Fresh(x.History(k + 1), x.At(k).nodes[x.actions[k].n].core.Term(), id)
  }

  ghost predicate EchoFree(x: Execution, k: nat)
    requires x.Valid() && k < |x.actions| && x.actions[k].n in x.At(k).nodes
  {
    NoEcho(AbsCluster(x.At(k)), x.actions[k].n, Abs(x.At(k).nodes[x.actions[k].n]))
  }

  /** A confirmed read is fresh on every run, if no older request of the node carries its id and index. */
  lemma ReadFreshness(x: Execution, k: nat, id: nat)
    requires x.Valid() && k < |x.actions| && ConfirmsRead(x, k, id) && EchoFree(x, k)
    ensures ReadFresh(x, k, id)
  {
    hide Inv, InvReads, LocalStep, NodesShaped, React, Moves, Fresh, NoEcho;
    RunKeepsInv(x, k);
    var c, h, a := x.At(k), x.History(k), x.actions[k];
    ActionMoves(x.voters, c, h, a);
    var y := MoveOf(x.voters, c, h, a);
    MovesFromLocal(y);
    ConfirmedReadFresh(y, id);
  }

  /** On truthful runs every confirmed read is fresh. */
  lemma TruthfulReadFreshness(x: Execution, k: nat, id: nat)
    requires x.Valid() && k < |x.actions| && x.TruthfulUpTo(k) && ConfirmsRead(x, k, id)
    ensures ReadFresh(x, k, id)
  {
    hide ClusterInv, TrueInv, InvReadCommits, InvCauses, Execution.TruthfulUpTo, ReadFresh, NoEcho, Abs, Confirms;
    TruthfulRun(x, k);
    ActorVoter(x, k);
    TruthfulNoEcho(x.voters, AbsCluster(x.At(k)), x.History(k), x.actions[k].n);
    ReadFreshness(x, k, id);
  }

  lemma ActorVoter(x: Execution, k: nat)
    requires x.Valid() && k < |x.actions| && React(x.At(k), x.actions[k]).Some?
    ensures x.actions[k].n in x.voters && x.actions[k].n in AbsCluster(x.At(k)).nodes
  {
    hide Execution.At, Inv, InvReads, StepEvent, NodePropose, NodeReadIndex, NodeTransfer, Abs;
    RunKeepsInv(x, k);
  }

  // --- Linearizable reads ---

  lemma {:induction false} RunRounds(x: Execution, i: nat, j: nat)
    requires x.Valid() && i <= j <= |x.actions|
    ensures RoundsKept(x.History(i), x.History(j))
    decreases j - i
  {
    hide ClusterInv, Step, TrackStep, Extends;
    if i < j {
      RunRounds(x, i, j - 1);
      RunKeepsInv(x, j - 1);
      StepExtendsHistory(x.voters, x.At(j - 1), x.History(j - 1), x.actions[j - 1]);
    }
  }

  /** Starting a round records the terms won so far. */
  lemma StartRecorded(voters: set<NodeId>, c: Cluster, h: History, a: Action, t: Term, id: nat)
    requires a.n in c.nodes && React(c, a).Some? && c.nodes[a.n].role.Leader? && React(c, a).value.0.role.Leader?
    requires c.nodes[a.n].core.Term() == t == React(c, a).value.0.core.Term()
    requires c.nodes[a.n].role.state.nextReadId == id != React(c, a).value.0.role.state.nextReadId
    ensures var h' := TrackStep(voters, c, h, a); (t, id) in h'.rounds && h'.rounds[(t, id)] == h.elections.Keys
  {
    hide React;
  }

  /** An accepted read request takes the next round number and answers with the commit index. */
  lemma ReadStarts(node: Node)
    requires NodeReadIndex(node).Ok?
    ensures node.role.Leader? && NodeReadIndex(node).value.1.role.Leader?
    ensures NodeReadIndex(node).value.1.core == node.core && NodeReadIndex(node).value.0 == node.core.commitIndex
    ensures NodeReadIndex(node).value.1.role.state.nextReadId == node.role.state.nextReadId + 1
  {
  }

  /** Step `i` is an accepted read request of node `n` that starts round `id`. */
  ghost predicate RequestsRead(x: Execution, i: nat, n: NodeId, id: nat)
    requires x.Valid() && i < |x.actions|
  {
    && x.actions[i] == Read(n) && n in x.At(i).nodes && n in x.At(i).disks && NodeReadIndex(x.At(i).nodes[n]).Ok?
    && x.At(i).nodes[n].role.Leader? && x.At(i).nodes[n].role.state.nextReadId == id
  }

  /** The step that starts a round is taken with an own-term entry committed, and records the terms won so far. */
  lemma RequestFacts(x: Execution, i: nat, n: NodeId, id: nat)
    requires x.Valid() && i < |x.actions| && RequestsRead(x, i, n, id)
    ensures n in x.voters && OwnTermCommitted(Abs(x.At(i).nodes[n]))
    ensures var h', t := x.History(i + 1), x.At(i).nodes[n].core.Term();
      (t, id) in h'.rounds && h'.rounds[(t, id)] == x.History(i).elections.Keys
  {
    hide Inv, InvReads, NodeReadIndex, ElectStep, FreshRule, MatchRule, CommitRule, SendRule, OwnTermCommitted,
         Execution.At;
    RunKeepsInv(x, i);
    var node := x.At(i).nodes[n];
    ReadStarts(node);
    ActionRefines(x.voters, x.At(i), x.History(i), x.actions[i]);
    StartRecorded(x.voters, x.At(i), x.History(i), x.actions[i], node.core.Term(), id);
    RunNext(x, i);
  }

  /** On truthful runs a confirmed read is linearizable: its read index covers everything that any node had
      committed when it was requested. */
  lemma LinearizableRead(x: Execution, i: nat, k: nat, n: NodeId, id: nat, p: NodeId)
    requires x.Valid() && i <= k < |x.actions| && x.TruthfulUpTo(k) && RequestsRead(x, i, n, id)
    requires x.actions[k].n == n && ConfirmsRead(x, k, id)
    requires x.At(k).nodes[n].core.Term() == x.At(i).nodes[n].core.Term()
    requires p in x.voters && p in x.At(i).nodes
    ensures x.At(i).nodes[p].core.commitIndex <= NodeReadIndex(x.At(i).nodes[n]).value.0
  {
    hide Execution.At, Execution.History, Execution.TruthfulUpTo, ClusterInv, TrueInv, InvReadCommits,
         InvCauses, NodeReadIndex,
         OwnTermCommitted, Confirms;
    var t := x.At(i).nodes[n].core.Term();
    TruthfulReadFreshness(x, k, id);
    RequestFacts(x, i, n, id);
    RunRounds(x, i + 1, k + 1);
    ReadStarts(x.At(i).nodes[n]);
    TruthfulPrefix(x, i, k);
    TruthfulRun(x, i);
    CoversOne(x.voters, AbsCluster(x.At(i)), x.History(i), n, p);
  }
}
