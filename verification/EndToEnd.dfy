/** Across the layers: what a cluster run gives the store beneath a node and the key-value state above it. */
module EndToEnd {
  import opened Types
  import opened Membership
  import opened RaftLog
  import opened Messages
  import opened RaftCore
  import opened RaftNode
  import FollowerRole
  import opened PersistFlag
  import opened Protocol
  import opened Refinement
  import opened Safety
  import opened Completeness
  import opened Cluster
  import opened Acknowledgement
  import Duties
  import Store
  import DurableStore
  import opened WalFormat
  import opened WalSegment
  import W = Wal
  import WalLog
  import opened Applied
  import Kv

  // --- One step of the run, for one node ---

  /** Whether step `k` is a turn of node `n`. */
  predicate Acts(x: Execution, k: nat, n: NodeId)
    requires x.Valid() && k < |x.actions|
  {
    x.actions[k].n == n && React(x.At(k), x.actions[k]).Some?
  }

  lemma OthersUntouched(x: Execution, k: nat, n: NodeId)
    requires x.Valid() && k < |x.actions| && n in x.voters && !Acts(x, k, n)
    ensures n in x.At(k).nodes && n in x.At(k + 1).nodes && x.At(k + 1).nodes[n] == x.At(k).nodes[n]
  {
    hide Execution.At, Execution.History, React, Inv;
    RunNext(x, k);
    DiskUpToDate(x, k, n);
  }

  lemma ActorSteps(x: Execution, k: nat, n: NodeId)
    requires x.Valid() && k < |x.actions| && Acts(x, k, n)
    ensures n in x.voters && n in x.At(k).nodes && n in x.At(k + 1).nodes
    ensures var s, s' := Abs(x.At(k).nodes[n]), Abs(x.At(k + 1).nodes[n]);
      LocalStep(x.voters, n, s, InputOf(x.actions[k]), s', React(x.At(k), x.actions[k]).value.1.messages)
  {
    hide Execution.At, Execution.History, React, LocalStep, Inv, Abs;
    RunKeepsInv(x, k);
    RunNext(x, k);
    ActionRefines(x.voters, x.At(k), x.History(k), x.actions[k]);
    ActorKnown(x.At(k), x.actions[k]);
  }

  /** Terms never fall. */
  lemma TermStep(x: Execution, k: nat, n: NodeId)
    requires x.Valid() && k < |x.actions| && n in x.voters
    ensures n in x.At(k).nodes && n in x.At(k + 1).nodes
    ensures x.At(k).nodes[n].core.Term() <= x.At(k + 1).nodes[n].core.Term()
  {
    hide Execution.At, React, Matching, MatchRule, FreshRule, ReadRule, SendRule, CommitRule, LogRule,
         CampaignRule, LeadRule;
    if Acts(x, k, n) {
      ActorSteps(x, k, n);
    } else {
      OthersUntouched(x, k, n);
    }
  }

  // --- Beneath: every save can follow the one before ---

  /** Step `k` is a turn of node `n` whose outcome its driver saves. */
  predicate Saves(x: Execution, k: nat, n: NodeId)
    requires x.Valid() && k < |x.actions|
  {
    Acts(x, k, n) && React(x.At(k), x.actions[k]).value.1.persist
  }

  /** The states a node's driver hands to the store in the first `k` steps. */
  ghost function SavedStates(x: Execution, n: NodeId, k: nat): seq<Persistent>
    requires x.Valid() && k <= |x.actions| && n in x.voters
  {
    if k == 0 then []
    else if Saves(x, k - 1, n)
    then SavedStates(x, n, k - 1) + [React(x.At(k - 1), x.actions[k - 1]).value.0.core.persistent]
    else SavedStates(x, n, k - 1)
  }

  /** Successive states of one node meet what the store's term comparison needs. */
  lemma StatesFollow(x: Execution, k: nat, n: NodeId)
    requires x.Valid() && k < |x.actions| && n in x.voters
    ensures n in x.At(k).nodes && n in x.At(k + 1).nodes
    ensures Store.Follows(x.At(k).nodes[n].core.persistent, x.At(k + 1).nodes[n].core.persistent)
  {
    hide Execution.At, Execution.History, Matching, Chain, Ordered;
    TermStep(x, k, n);
    LogMatching(x, k, k + 1, n, n);
    NodeSound(x, k, n);
    NodeSound(x, k + 1, n);
    LogShape(x, k, n);
    LogShape(x, k + 1, n);
  }

  lemma StepPersists(x: Execution, k: nat, n: NodeId)
    requires x.Valid() && k < |x.actions| && n in x.voters
    ensures n in x.At(k).nodes && n in x.At(k + 1).nodes
    ensures var before, after := x.At(k).nodes[n].core.persistent, x.At(k + 1).nodes[n].core.persistent;
      if Acts(x, k, n) then
        var (node, effects) := React(x.At(k), x.actions[k]).value;
        after == node.core.persistent && (effects.persist || after == before)
      else after == before
  {
    hide Execution.At, Execution.History, React, Inv;
    RunKeepsInv(x, k);
    RunNext(x, k);
    if Acts(x, k, n) {
      ActionSaves(x.voters, x.At(k), x.History(k), x.actions[k]);
    } else {
      OthersUntouched(x, k, n);
    }
  }

  /** The saved states form a chain from the initial state, and the last of them is the node's state. */
  lemma {:induction false} SavesFormChain(x: Execution, n: NodeId, k: nat)
    requires x.Valid() && k <= |x.actions| && n in x.voters
    ensures n in x.At(k).nodes
    ensures var initial, states := InitialPersistent(x.voters), SavedStates(x, n, k);
      Store.Chain(initial, states) && Store.Before(initial, states, |states|) == x.At(k).nodes[n].core.persistent
  {
    hide Execution.At, React, Store.Follows;
    if k == 0 {
      StartState(x, n);
    } else {
      SavesFormChain(x, n, k - 1);
      StepPersists(x, k - 1, n);
      StatesFollow(x, k - 1, n);
      ChainGrowsBy(InitialPersistent(x.voters), SavedStates(x, n, k - 1), x.At(k).nodes[n].core.persistent);
    }
  }

  lemma StartState(x: Execution, n: NodeId)
    requires x.Valid() && n in x.voters
    ensures n in x.At(0).nodes && x.At(0).nodes[n].core.persistent == InitialPersistent(x.voters)
    ensures x.At(0).nodes[n].core.commitIndex == 0
  {
  }

  lemma ChainGrowsBy(initial: Persistent, states: seq<Persistent>, next: Persistent)
    requires Store.Chain(initial, states) && Store.Follows(Store.Before(initial, states, |states|), next)
    ensures Store.Chain(initial, states + [next])
  {
    hide Store.Follows;
    var longer := states + [next];
    forall i | 0 <= i < |longer| ensures Store.Follows(Store.Before(initial, longer, i), longer[i]) {
      if i < |states| {
        assert Store.Follows(Store.Before(initial, states, i), states[i]);
      }
    }
  }

  /** On every run, replaying the deltas a node's driver recorded gives back exactly its term, vote and log. */
  lemma EveryRunReplays(x: Execution, n: NodeId, k: nat, deltas: seq<Store.Delta>)
    requires x.Valid() && k <= |x.actions| && n in x.voters
    requires Store.Recorded(InitialPersistent(x.voters), SavedStates(x, n, k), deltas)
    ensures n in x.At(k).nodes
    ensures Store.Replay(InitialPersistent(x.voters), deltas, |deltas|) == Ok(x.At(k).nodes[n].core.persistent)
  {
    hide Execution.At, Store.Chain, Store.Recorded;
    SavesFormChain(x, n, k);
    RecordedLength(InitialPersistent(x.voters), SavedStates(x, n, k), deltas);
    Store.ReplayIsExact(InitialPersistent(x.voters), SavedStates(x, n, k), deltas, |deltas|);
  }

  lemma RecordedLength(initial: Persistent, states: seq<Persistent>, deltas: seq<Store.Delta>)
    requires Store.Recorded(initial, states, deltas)
    ensures |deltas| == |states|
  {
  }

  /** What the node's log holds after `k` steps, if every record it was given found room. */
  ghost function LogAt(codec: DurableStore.Codec, options: W.Options, x: Execution, n: NodeId, k: nat)
    : (contents: seq<seq<Record>>)
    requires x.Valid() && k <= |x.actions| && n in x.voters
    ensures contents != []
  {
    var states := SavedStates(x, n, k);
    DurableStore.Logged(codec, options, InitialPersistent(x.voters), states, |states|)
  }

  ghost predicate HasRoom(crc: Crc, codec: DurableStore.Codec, options: W.Options, x: Execution, n: NodeId, k: nat)
    requires x.Valid() && k <= |x.actions| && n in x.voters
  {
    var states := SavedStates(x, n, k);
    forall i :: 0 <= i < |states| ==>
      DurableStore.TakesSave(crc, codec, options, InitialPersistent(x.voters), states, i)
  }

  /** On every run the log the driver has written recovers exactly the node's term, vote and log. */
  lemma LogRecoversNode(crc: Crc, codec: DurableStore.Codec, options: W.Options, x: Execution, n: NodeId, k: nat)
    requires x.Valid() && k <= |x.actions| && n in x.voters && codec.RoundTrips() && options.Valid()
    requires HasRoom(crc, codec, options, x, n, k)
    ensures n in x.At(k).nodes
    ensures var contents := LogAt(codec, options, x, n, k);
      && W.AllFit(contents, options.segmentSize)
      && DurableStore.Recovers(codec, InitialPersistent(x.voters), contents) == Ok(x.At(k).nodes[n].core.persistent)
  {
    hide Execution.At, SavedStates, Store.Chain, DurableStore.Logged, DurableStore.TakesSave, DurableStore.Recovers,
         W.AllFit;
    SavesFormChain(x, n, k);
    var states := SavedStates(x, n, k);
    DurableStore.LoggedRecovers(crc, codec, options, InitialPersistent(x.voters), states, |states|);
  }

  /** One more save. */
  lemma LogGrows(crc: Crc, codec: DurableStore.Codec, options: W.Options, x: Execution, n: NodeId, k: nat)
    requires x.Valid() && k < |x.actions| && n in x.voters && Saves(x, k, n)
    requires HasRoom(crc, codec, options, x, n, k + 1)
    ensures n in x.At(k).nodes && n in x.At(k + 1).nodes && HasRoom(crc, codec, options, x, n, k)
    ensures var before, after := x.At(k).nodes[n].core.persistent, x.At(k + 1).nodes[n].core.persistent;
      && Store.MakeDelta(before, after).Ok?
      && DurableStore.Takes(crc, codec, options, LogAt(codec, options, x, n, k), before, after)
      && LogAt(codec, options, x, n, k + 1) ==
           WalLog.Placed(LogAt(codec, options, x, n, k), DurableStore.SaveRecord(codec, before, after),
                         options.segmentSize)
  {
    hide Execution.At, React, Store.Chain, Store.MakeDelta, DurableStore.Takes, WalLog.Placed, Store.Follows;
    StepPersists(x, k, n);
    var initial, states := InitialPersistent(x.voters), SavedStates(x, n, k);
    var next := x.At(k + 1).nodes[n].core.persistent;
    StatesFollow(x, k, n);
    SavesFormChain(x, n, k);
    DurableStore.FollowsSaves(x.At(k).nodes[n].core.persistent, next);
    assert SavedStates(x, n, k + 1) == states + [next];
    forall i | 0 <= i < |states| ensures DurableStore.TakesSave(crc, codec, options, initial, states, i) {
      DurableStore.LoggedPrefix(codec, options, initial, states, next, i);
      assert DurableStore.TakesSave(crc, codec, options, initial, states + [next], i);
    }
    DurableStore.LoggedPrefix(codec, options, initial, states, next, |states|);
    assert DurableStore.TakesSave(crc, codec, options, initial, states + [next], |states|);
  }

  /** On every run, wherever a crash cuts the bytes that the save of step `k` was writing, reopening the log recovers
      the node's state before the step, or after it if every byte made it. */
  lemma CrashDuringSave(crc: Crc, codec: DurableStore.Codec, options: W.Options, x: Execution, n: NodeId, k: nat,
                        cut: nat)
    requires x.Valid() && k < |x.actions| && n in x.voters && codec.RoundTrips() && options.Valid()
    requires Saves(x, k, n) && HasRoom(crc, codec, options, x, n, k + 1)
    requires DurableStore.InTail(LogAt(codec, options, x, n, k), LogAt(codec, options, x, n, k + 1), cut)
    ensures n in x.At(k).nodes && n in x.At(k + 1).nodes
    ensures var written := LogAt(codec, options, x, n, k + 1);
      DurableStore.Reopens(crc, codec, options, InitialPersistent(x.voters), written, cut,
                           (if cut == Total(W.Last(written)) then x.At(k + 1) else x.At(k)).nodes[n].core.persistent)
  {
    hide Execution.At, React, Store.Follows, Store.MakeDelta, W.AllFit, DurableStore.Recovers, DurableStore.Reopens,
         LogAt, HasRoom, DurableStore.Takes, WalLog.Placed, DurableStore.InTail;
    LogGrows(crc, codec, options, x, n, k);
    LogRecoversNode(crc, codec, options, x, n, k);
    StatesFollow(x, k, n);
    DurableStore.SaveIsAtomic(crc, codec, InitialPersistent(x.voters), options, LogAt(codec, options, x, n, k),
                              x.At(k).nodes[n].core.persistent, x.At(k + 1).nodes[n].core.persistent, cut);
  }

  // --- Above: the key-value state is a fold of the log ---

  function CommitOf(c: Cluster, n: NodeId): LogIndex
    requires n in c.nodes
  {
    c.nodes[n].core.commitIndex
  }

  /** Step `k` does not remove an entry at or below the node's commit index. */
  ghost predicate KeepsCommitted(x: Execution, n: NodeId, k: nat)
    requires x.Valid() && k < |x.actions|
  {
    && n in x.At(k).nodes && n in x.At(k + 1).nodes
    && (CommitOf(x.At(k), n) <= |LogOf(x.At(k), n)| ==>
          LogOf(x.At(k), n)[..CommitOf(x.At(k), n)] <= LogOf(x.At(k + 1), n))
  }

  ghost predicate NeverCut(x: Execution, n: NodeId, k: nat)
    requires x.Valid() && k <= |x.actions|
  {
    forall i :: 0 <= i < k ==> KeepsCommitted(x, n, i)
  }

  /** What a node's driver has applied after `k` steps; a restart starts over. */
  ghost function ProgressAt(decode: Decoder, x: Execution, n: NodeId, k: nat): Progress
    requires x.Valid() && k <= |x.actions|
  {
    if k == 0 then Progress(Kv.New(), 0)
    else if !Acts(x, k - 1, n) || n !in x.At(k).nodes then ProgressAt(decode, x, n, k - 1)
    else
      var core := x.At(k).nodes[n].core;
      ApplyCommitted(decode, core.Log(), core.commitIndex,
                     if x.actions[k - 1].Crash? then Progress(Kv.New(), 0) else ProgressAt(decode, x, n, k - 1))
  }

  /** The commit index stays within the log, and falls only on a restart, while nothing committed is cut. */
  lemma CommitWithin(s: Peer, e: Input, s': Peer, voters: set<NodeId>, n: NodeId, sent: set<Message>)
    requires LocalStep(voters, n, s, e, s', sent) && s.commit <= |s.log| && s.log[..s.commit] <= s'.log
    ensures s'.commit <= |s'.log| && (e.Restart? || s.commit <= s'.commit)
  {
    hide ElectStep, FreshRule, MatchRule, ReadRule, SendRule, Accepts;
  }

  /** The node has applied everything it has committed, each command once and in order. */
  ghost predicate Folded(decode: Decoder, c: Cluster, n: NodeId, p: Progress)
    requires n in c.nodes
  {
    p.upTo == CommitOf(c, n) <= |LogOf(c, n)| && p.kv == Fold(decode, LogOf(c, n), p.upTo)
  }

  predicate Commands(c: Cluster, n: NodeId) {
    && n in c.nodes && c.nodes[n].core.Log() == Plain(LogOf(c, n))
    && forall i :: 0 <= i < |LogOf(c, n)| ==> LogOf(c, n)[i].payload.Command?
  }

  /** The loop, run after a step that kept the committed prefix, ends folded again. */
  lemma FoldCarries(decode: Decoder, c: Cluster, d: Cluster, n: NodeId, p: Progress)
    requires n in c.nodes && Folded(decode, c, n, p) && Commands(d, n)
    requires LogOf(c, n)[..CommitOf(c, n)] <= LogOf(d, n) && CommitOf(c, n) <= CommitOf(d, n) <= |LogOf(d, n)|
    ensures Folded(decode, d, n, ApplyCommitted(decode, d.nodes[n].core.Log(), CommitOf(d, n), p))
  {
    hide Fold, ApplyCommitted;
    var a, b := LogOf(c, n), LogOf(d, n);
    assert a[..p.upTo] == a[..CommitOf(c, n)][..p.upTo] == b[..p.upTo];
    FoldOfPrefix(decode, a, b, p.upTo);
    LoopFolds(decode, d.nodes[n].core.Log(), CommitOf(d, n), p);
  }

  lemma FoldStarts(decode: Decoder, d: Cluster, n: NodeId)
    requires Commands(d, n) && CommitOf(d, n) <= |LogOf(d, n)|
    ensures Folded(decode, d, n, ApplyCommitted(decode, d.nodes[n].core.Log(), CommitOf(d, n), Progress(Kv.New(), 0)))
  {
    hide ApplyCommitted;
    LoopFolds(decode, d.nodes[n].core.Log(), CommitOf(d, n), Progress(Kv.New(), 0));
  }

  lemma ActorCommit(x: Execution, k: nat, n: NodeId)
    requires x.Valid() && k < |x.actions| && Acts(x, k, n) && KeepsCommitted(x, n, k)
    requires CommitOf(x.At(k), n) <= |LogOf(x.At(k), n)|
    ensures CommitOf(x.At(k + 1), n) <= |LogOf(x.At(k + 1), n)|
    ensures x.actions[k].Crash? || CommitOf(x.At(k), n) <= CommitOf(x.At(k + 1), n)
  {
    hide Execution.At, React, LocalStep;
    ActorSteps(x, k, n);
    CommitWithin(Abs(x.At(k).nodes[n]), InputOf(x.actions[k]), Abs(x.At(k + 1).nodes[n]), x.voters, n,
                 React(x.At(k), x.actions[k]).value.1.messages);
  }

  /** As long as nothing committed is cut from a node's log, its key-value state is the fold of everything it has
      committed. */
  lemma {:induction false} AppliedIsFold(decode: Decoder, x: Execution, n: NodeId, k: nat)
    requires x.Valid() && k <= |x.actions| && n in x.voters && NeverCut(x, n, k)
    ensures n in x.At(k).nodes && Folded(decode, x.At(k), n, ProgressAt(decode, x, n, k))
  {
    hide Execution.At, Folded, Acts, ApplyCommitted, Numbered, Chain;
    DiskUpToDate(x, k, n);
    if k == 0 {
      BlankFolded(decode, x, n);
    } else {
      DiskUpToDate(x, k - 1, n);
      AppliedIsFold(decode, x, n, k - 1);
      NodeSound(x, k, n);
      AppliedStep(decode, x, n, k - 1);
    }
  }

  lemma BlankFolded(decode: Decoder, x: Execution, n: NodeId)
    requires x.Valid() && n in x.voters && n in x.At(0).nodes
    ensures Folded(decode, x.At(0), n, Progress(Kv.New(), 0))
  {
    hide Execution.At;
    StartState(x, n);
  }

  lemma AppliedStep(decode: Decoder, x: Execution, n: NodeId, k: nat)
    requires x.Valid() && k < |x.actions| && n in x.voters && KeepsCommitted(x, n, k)
    requires Folded(decode, x.At(k), n, ProgressAt(decode, x, n, k)) && Commands(x.At(k + 1), n)
    ensures Folded(decode, x.At(k + 1), n, ProgressAt(decode, x, n, k + 1))
  {
    hide Execution.At, ApplyCommitted, React, Fold;
    if !Acts(x, k, n) {
      OthersUntouched(x, k, n);
    } else {
      ActorCommit(x, k, n);
      if x.actions[k].Crash? {
        FoldStarts(decode, x.At(k + 1), n);
      } else {
        FoldCarries(decode, x.At(k), x.At(k + 1), n, ProgressAt(decode, x, n, k));
      }
    }
  }

  /** Two nodes that never had a committed entry cut from their logs, and have applied up to the same index with the
      same term there, hold the same key-value state. */
  lemma ReplicasAgreeWhereTermsDo(decode: Decoder, x: Execution, i: nat, j: nat, n: NodeId, p: NodeId)
    requires x.Valid() && i <= j <= |x.actions| && n in x.voters && p in x.voters
    requires NeverCut(x, n, i) && NeverCut(x, p, j) && n in x.At(i).nodes && p in x.At(j).nodes
    requires ProgressAt(decode, x, n, i).upTo == ProgressAt(decode, x, p, j).upTo
    requires var c := ProgressAt(decode, x, n, i).upTo;
      1 <= c <= |LogOf(x.At(i), n)| && c <= |LogOf(x.At(j), p)| ==>
        LogOf(x.At(i), n)[c - 1].term == LogOf(x.At(j), p)[c - 1].term
    ensures ProgressAt(decode, x, n, i).kv == ProgressAt(decode, x, p, j).kv
  {
    hide Execution.At, Fold, NeverCut, ProgressAt;
    AppliedIsFold(decode, x, n, i);
    AppliedIsFold(decode, x, p, j);
    LogMatching(x, i, j, n, p);
    var a, b, c := LogOf(x.At(i), n), LogOf(x.At(j), p), ProgressAt(decode, x, n, i).upTo;
    assert c > 0 ==> TermsAgree(a, b, c - 1);
    FoldOfPrefix(decode, a, b, c);
  }

  // --- Truthful runs never cut what is committed ---

  lemma CommittedSurvives(x: Move)
    requires Moves(x) && TrueInv(x.voters, x.st, x.h)
    ensures x.Before().commit <= |x.Before().log| && x.Before().log[..x.Before().commit] <= x.after.log
  {
    hide InvAcks, InvCounts, InvCommits, CommitOk, VoteRule, CampaignRule, LeadRule, ElectionOk;
    var s, s' := x.Before(), x.after;
    StepBasics(x);
    CommitKnown(x.voters, x.st, x.h, x.n);
    CommitBounded(x.voters, x.h, s);
    var p := s.log[..s.commit];
    if !(s.log <= s'.log) {
      AcceptOutcome(x.voters, x.st, x.h, x.n, x.e, s');
      CommitInLeader(x.voters, x.st, x.h, s.log, s.commit, s.term, s'.term);
      var k :| AdoptedPrefix(s.log, x.h.logs[s'.term], s'.log, k);
      AdoptedKeeps(p, s.log, x.h.logs[s'.term], s'.log, k);
    }
  }

  lemma CommitBounded(voters: set<NodeId>, h: History, s: Peer)
    requires CommitOk(voters, h, s.log, s.commit, s.term)
    ensures s.commit <= |s.log|
  {
  }

  lemma TruthfulKeepsCommitted(x: Execution, n: NodeId, k: nat)
    requires x.Valid() && k < |x.actions| && n in x.voters && x.TruthfulUpTo(k)
    ensures KeepsCommitted(x, n, k)
  {
    hide Execution.At, Execution.History, Execution.TruthfulUpTo, Inv, Safety.Moves, LocalStep, InvAcks,
         InvCounts, InvCommits, React;
    DiskUpToDate(x, k, n);
    DiskUpToDate(x, k + 1, n);
    if !Acts(x, k, n) {
      OthersUntouched(x, k, n);
    } else {
      TruthfulRun(x, k);
      var c, h, a := x.At(k), x.History(k), x.actions[k];
      ActionMoves(x.voters, c, h, a);
      var y := MoveOf(x.voters, c, h, a);
      MovesFromLocal(y);
      CommittedSurvives(y);
      RunNext(x, k);
    }
  }

  /** On truthful runs every node's key-value state is the fold of its committed log. */
  lemma TruthfulAppliedIsFold(decode: Decoder, x: Execution, n: NodeId, k: nat)
    requires x.Valid() && k <= |x.actions| && n in x.voters && x.TruthfulUpTo(k)
    ensures n in x.At(k).nodes && Folded(decode, x.At(k), n, ProgressAt(decode, x, n, k))
  {
    hide Execution.At, Execution.History, Execution.TruthfulUpTo, Folded, KeepsCommitted;
    forall i | 0 <= i < k ensures KeepsCommitted(x, n, i) {
      TruthfulPrefix(x, i, k);
      TruthfulKeepsCommitted(x, n, i);
    }
    AppliedIsFold(decode, x, n, k);
  }

  /** On truthful runs every node's key-value state is what its committed commands, run once each and in order from the
      empty state, lead to; so every property of such runs holds of it. */
  lemma ReplicaRunsItsLog(decode: Decoder, x: Execution, n: NodeId, k: nat)
    requires x.Valid() && k <= |x.actions| && n in x.voters && x.TruthfulUpTo(k)
    ensures n in x.At(k).nodes && CommitOf(x.At(k), n) <= |LogOf(x.At(k), n)|
    ensures ProgressAt(decode, x, n, k).kv
      == Kv.Final(Kv.New(), Decoded(decode, LogOf(x.At(k), n), CommitOf(x.At(k), n)))
  {
    hide Execution.At, Execution.TruthfulUpTo, Fold, ProgressAt, Kv.Final, Decoded;
    TruthfulAppliedIsFold(decode, x, n, k);
    FoldIsRun(decode, LogOf(x.At(k), n), CommitOf(x.At(k), n));
  }

  /** On truthful runs two replicas that have applied up to the same index, at whatever moments, hold the same
      key-value state. */
  lemma ReplicasAgree(decode: Decoder, x: Execution, i: nat, j: nat, n: NodeId, p: NodeId)
    requires x.Valid() && i <= j <= |x.actions| && n in x.voters && p in x.voters && x.TruthfulUpTo(j)
    requires ProgressAt(decode, x, n, i).upTo == ProgressAt(decode, x, p, j).upTo
    ensures ProgressAt(decode, x, n, i).kv == ProgressAt(decode, x, p, j).kv
  {
    hide Execution.At, Execution.TruthfulUpTo, Fold, ProgressAt;
    TruthfulPrefix(x, i, j);
    TruthfulAppliedIsFold(decode, x, n, i);
    TruthfulAppliedIsFold(decode, x, p, j);
    var a, b, c := LogOf(x.At(i), n), LogOf(x.At(j), p), ProgressAt(decode, x, n, i).upTo;
    forall k | 0 <= k < c ensures a[k] == b[k] {
      StateMachineSafety(x, i, j, n, p, k);
    }
    FoldOfPrefix(decode, a, b, c);
  }

  /** On truthful runs a proposal never trips the assertion that the commit index lies within the log. */
  lemma ProposalAssertionHolds(x: Execution, n: NodeId, k: nat, bytes: Bytes)
    requires x.Valid() && k <= |x.actions| && n in x.voters && x.TruthfulUpTo(k)
    ensures n in x.At(k).nodes && NodePropose(x.At(k).nodes[n], bytes) != Err(CommitBeyondLog)
  {
    hide Execution.At, Execution.History, Execution.TruthfulUpTo, Inv, InvAcks, InvCounts, InvCommits, CommitOk,
         Numbered, Ordered;
    TruthfulRun(x, k);
    NodeSound(x, k, n);
    LogShape(x, k, n);
    CommitKnown(x.voters, AbsCluster(x.At(k)), x.History(k), n);
    CommitBounded(x.voters, x.History(k), AbsCluster(x.At(k)).nodes[n]);
    PlainLast(LogOf(x.At(k), n));
  }

  lemma PlainLast(log: seq<Entry>)
    requires Numbered(log)
    ensures Plain(log).LastIndex() == |log|
  {
  }

  // --- Followers catch up ---

  /** Step `k` delivers an append request that node `n` will acknowledge. */
  ghost predicate Accepted(x: Execution, k: nat, n: NodeId, m: Message)
    requires x.Valid() && k < |x.actions|
  {
    x.actions[k].Deliver? && x.actions[k].message == m && Acts(x, k, n) && n in x.At(k).nodes
    && WillAck(x.At(k).nodes[n], m)
  }

  lemma AcceptedEntries(x: Execution, k: nat, n: NodeId, m: Message)
    requires x.Valid() && k < |x.actions| && Accepted(x, k, n, m)
    ensures n in x.voters && n in x.At(k + 1).nodes
    ensures var prev, entries, log := m.body.prevLogIndex, m.body.entries, LogOf(x.At(k + 1), n);
      entries != [] ==> prev + |entries| <= |log| && log[prev..prev + |entries|] == entries
  {
    hide Execution.At, Execution.History, React, Inv, LocalStep, Safety.Moves, WillAck;
    var c, h, a := x.At(k), x.History(k), x.actions[k];
    RunKeepsInv(x, k);
    RunNext(x, k);
    ActionMoves(x.voters, c, h, a);
    AcksOnDelivery(x.voters, c, h, a);
    MovesFromLocal(MoveOf(x.voters, c, h, a));
    AckHolds(MoveOf(x.voters, c, h, a));
  }

  lemma AcceptedCommits(x: Execution, k: nat, n: NodeId, m: Message)
    requires x.Valid() && k < |x.actions| && Accepted(x, k, n, m)
    ensures n in x.At(k + 1).nodes
    ensures var told, was := m.body.leaderCommit, CommitOf(x.At(k), n);
      CommitOf(x.At(k + 1), n) == if told > was then Min(told, |LogOf(x.At(k + 1), n)|) else was
  {
    hide Execution.At, Execution.History, StepEvent, NodePropose, NodeReadIndex, NodeTransfer, Numbered, Ordered;
    RunNext(x, k);
    AcceptedEntries(x, k, n, m);
    NodeSound(x, k, n);
    NodeSound(x, k + 1, n);
    LogShape(x, k, n);
    LogShape(x, k + 1, n);
    PlainConsistent(LogOf(x.At(k), n), m.body.prevLogIndex, m.body.prevLogTerm);
    Duties.AcceptedCommit(x.At(k).nodes[n], m, x.actions[k].clock);
    PlainLast(LogOf(x.At(k + 1), n));
  }

  lemma PlainConsistent(log: seq<Entry>, prev: LogIndex, prevTerm: Term)
    requires Numbered(log) && Consistent(log, prev, prevTerm)
    ensures FollowerRole.ConsistentAt(Plain(log), prev, prevTerm)
  {
  }

  /** On truthful runs a follower that accepts a request holds its entries, has committed the larger of what it had and
      what the leader told as far as its log reaches, and has applied exactly that. */
  lemma FollowerCatchesUp(decode: Decoder, x: Execution, k: nat, n: NodeId, m: Message)
    requires x.Valid() && k < |x.actions| && x.TruthfulUpTo(k + 1) && Accepted(x, k, n, m)
    ensures n in x.At(k + 1).nodes
    ensures var prev, entries, log := m.body.prevLogIndex, m.body.entries, LogOf(x.At(k + 1), n);
      var commit := CommitOf(x.At(k + 1), n);
      && (entries != [] ==> prev + |entries| <= |log| && log[prev..prev + |entries|] == entries)
      && commit == Max(CommitOf(x.At(k), n), Min(m.body.leaderCommit, |log|)) && commit <= |log|
      && ProgressAt(decode, x, n, k + 1) == Progress(Fold(decode, log, commit), commit)
  {
    hide Execution.At, Execution.History, Execution.TruthfulUpTo, Accepted, ProgressAt, Fold;
    AcceptedEntries(x, k, n, m);
    AcceptedCommits(x, k, n, m);
    TruthfulPrefix(x, k, k + 1);
    TruthfulAppliedIsFold(decode, x, n, k);
    TruthfulAppliedIsFold(decode, x, n, k + 1);
    TruthfulKeepsCommitted(x, n, k);
  }
}
