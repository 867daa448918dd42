/** Serving reads: what the readiness test of a read index tells, over whole runs. */
module ReadReadiness {
  import opened Types
  import opened Membership
  import opened RaftLog
  import opened Messages
  import opened RaftCore
  import opened LeaderRole
  import opened RaftNode
  import opened Protocol
  import opened Refinement
  import opened Safety
  import opened Completeness
  import opened Reads
  import opened Cluster
  import opened Applied
  import opened EndToEnd

  /** A read is ready as soon as it is requested exactly when its index is applied, and was confirmed for an earlier
      read or needs no other node. */
  lemma ReadyAtOnce(node: Node)
    requires NodeReadIndex(node).Ok?
    ensures var (index, after, _) := NodeReadIndex(node).value;
      NodeReadIndexReady(after, index) <==>
        && node.core.lastApplied >= node.core.commitIndex
        && (|| node.role.state.confirmedReadIndex >= node.core.commitIndex
            || node.core.EffectiveConfig().HasQuorum({node.core.Id()}))
  {
    hide Configuration.HasQuorum, Core.EffectiveConfig, CurrentTermCommit;
  }

  // --- One reign ---

  /** What the readiness test sees after `k` steps: the node, with what its driver has applied. */
  ghost function Driven(decode: Decoder, x: Execution, n: NodeId, k: nat): Node
    requires x.Valid() && k <= |x.actions| && n in x.At(k).nodes
  {
    var node := x.At(k).nodes[n];
    node.(core := node.core.(lastApplied := ProgressAt(decode, x, n, k).upTo))
  }

  /** A reign that has begun is not interrupted: whoever leads a term that was already won has led it before. */
  lemma ReignHolds(x: Execution, k: nat, n: NodeId, t: Term)
    requires x.Valid() && k < |x.actions| && n in x.voters && t in x.History(k).elections
    requires LeadsIn(x.At(k + 1), n, t)
    ensures LeadsIn(x.At(k), n, t)
  {
    hide Execution.At, Execution.History, React, Inv, InvReads, ElectStep, FreshRule, MatchRule, CommitRule, ReadRule,
         SendRule, Wins;
    if !Acts(x, k, n) {
      OthersUntouched(x, k, n);
    } else {
      RunKeepsInv(x, k);
      RunNext(x, k);
      var c, h, a := x.At(k), x.History(k), x.actions[k];
      ActionMoves(x.voters, c, h, a);
      var y := MoveOf(x.voters, c, h, a);
      MovesFromLocal(y);
      LeadsFresh(y);
    }
  }

  lemma LeadsFresh(x: Move)
    requires Moves(x) && x.after.role.Leading? && x.after.term in x.h.elections
    ensures SameReign(x.Before(), x.after)
  {
    hide Inv, VoteRule, LogRule, CampaignRule, Wins;
    if Wins(x.voters, x.n, x.Before(), x.e, x.after) {
      ElectionFresh(x);
    }
  }

  /** A pending round stays until it is confirmed, and until then nothing else is. */
  lemma RoundStays(voters: set<NodeId>, n: NodeId, s: Peer, e: Input, s': Peer, sent: set<Message>)
    requires LocalStep(voters, n, s, e, s', sent) && SameReign(s, s') && s.role.pending.Some?
    ensures Confirms(s, s', s.role.pending.value.id)
      || (&& s'.role.pending.Some? && s'.role.pending.value.id == s.role.pending.value.id
          && s'.role.confirmed == s.role.confirmed)
  {
    hide ElectStep, FreshRule, MatchRule, CommitRule, SendRule;
  }

  lemma RoundStarts(voters: set<NodeId>, n: NodeId, s: Peer, e: Input, s': Peer, sent: set<Message>)
    requires LocalStep(voters, n, s, e, s', sent) && SameReign(s, s') && s'.role.nextReadId != s.role.nextReadId
    ensures Confirms(s, s', s.role.nextReadId)
      || (&& s'.role.pending.Some? && s'.role.pending.value.id == s.role.nextReadId
          && s'.role.confirmed == s.role.confirmed)
  {
    hide ElectStep, FreshRule, MatchRule, CommitRule, SendRule;
  }

  /** The node leads in `t`, round `id` is pending, and reads up to `confirmed` have been confirmed. */
  ghost predicate Waits(x: Execution, n: NodeId, k: nat, t: Term, id: nat, confirmed: LogIndex)
    requires x.Valid() && k <= |x.actions|
  {
    && LeadsIn(x.At(k), n, t)
    && var role := Abs(x.At(k).nodes[n]).role;
       role.pending.Some? && role.pending.value.id == id && role.confirmed == confirmed
  }

  /** Step `k` is the leader's own step that confirms round `id`. */
  ghost predicate ConfirmedAt(x: Execution, n: NodeId, k: nat, t: Term, id: nat)
    requires x.Valid() && k < |x.actions|
  {
    Acts(x, k, n) && LeadsIn(x.At(k), n, t) && ConfirmsRead(x, k, id)
  }

  lemma WaitStep(x: Execution, n: NodeId, k: nat, t: Term, id: nat, confirmed: LogIndex)
    requires x.Valid() && k < |x.actions| && n in x.voters && Waits(x, n, k, t, id, confirmed)
    requires LeadsIn(x.At(k + 1), n, t)
    ensures ConfirmedAt(x, n, k, t, id) || Waits(x, n, k + 1, t, id, confirmed)
  {
    hide Execution.At, React, LocalStep, Confirms;
    if !Acts(x, k, n) {
      OthersUntouched(x, k, n);
    } else {
      ActorSteps(x, k, n);
      RunNext(x, k);
      RoundStays(x.voters, n, Abs(x.At(k).nodes[n]), InputOf(x.actions[k]), Abs(x.At(k + 1).nodes[n]),
                 React(x.At(k), x.actions[k]).value.1.messages);
    }
  }

  lemma RequestWaits(x: Execution, i: nat, n: NodeId, id: nat)
    requires x.Valid() && i < |x.actions| && RequestsRead(x, i, n, id)
    ensures var node := x.At(i).nodes[n];
      || ConfirmedAt(x, n, i, node.core.Term(), id)
      || Waits(x, n, i + 1, node.core.Term(), id, node.role.state.confirmedReadIndex)
  {
    hide Execution.At, NodeReadIndex, LocalStep, Confirms;
    ReadStarts(x.At(i).nodes[n]);
    ActorSteps(x, i, n);
    RunNext(x, i);
    RoundStarts(x.voters, n, Abs(x.At(i).nodes[n]), InputOf(x.actions[i]), Abs(x.At(i + 1).nodes[n]),
                React(x.At(i), x.actions[i]).value.1.messages);
  }

  /** Throughout the reign the requested round has been confirmed, or nothing has been since. */
  lemma {:induction false} ConfirmedOrWaiting(x: Execution, i: nat, k: nat, n: NodeId, id: nat)
    requires x.Valid() && i < k <= |x.actions| && RequestsRead(x, i, n, id)
    requires LeadsIn(x.At(k), n, x.At(i).nodes[n].core.Term())
    ensures var node := x.At(i).nodes[n];
      || (exists j :: i <= j < k && ConfirmedAt(x, n, j, node.core.Term(), id))
      || Waits(x, n, k, node.core.Term(), id, node.role.state.confirmedReadIndex)
    decreases k
  {
    hide Execution.At, Execution.History, NodeReadIndex, ConfirmedAt, Waits;
    var node := x.At(i).nodes[n];
    var t := node.core.Term();
    RequestWaits(x, i, n, id);
    if k > i + 1 {
      RequestFacts(x, i, n, id);
      LeaderRecorded(x, i, n, t);
      RunExtends(x, i, k - 1);
      ReignHolds(x, k - 1, n, t);
      ConfirmedOrWaiting(x, i, k - 1, n, id);
      if Waits(x, n, k - 1, t, id, node.role.state.confirmedReadIndex) {
        WaitStep(x, n, k - 1, t, id, node.role.state.confirmedReadIndex);
      }
    }
  }

  // --- What a ready read sees ---

  /** On truthful runs, if no read was yet confirmed at the index a read was given, then once the read is ready in the
      same reign its index covers everything any node had committed when it was requested. */
  lemma ReadyReadCovers(decode: Decoder, x: Execution, i: nat, k: nat, n: NodeId, id: nat, p: NodeId)
    requires x.Valid() && i < k <= |x.actions| && x.TruthfulUpTo(k) && RequestsRead(x, i, n, id)
    requires LeadsIn(x.At(k), n, x.At(i).nodes[n].core.Term()) && p in x.voters && p in x.At(i).nodes
    requires x.At(i).nodes[n].role.state.confirmedReadIndex < x.At(i).nodes[n].core.commitIndex
    requires NodeReadIndexReady(Driven(decode, x, n, k), NodeReadIndex(x.At(i).nodes[n]).value.0)
    ensures x.At(i).nodes[p].core.commitIndex <= NodeReadIndex(x.At(i).nodes[n]).value.0
  {
    hide Execution.At, Execution.History, Execution.TruthfulUpTo, NodeReadIndex, ConfirmsRead, ProgressAt, React;
    var node := x.At(i).nodes[n];
    ReadStarts(node);
    ConfirmedOrWaiting(x, i, k, n, id);
    var j :| i <= j < k && ConfirmedAt(x, n, j, node.core.Term(), id);
    TruthfulPrefix(x, j, k);
    LinearizableRead(x, i, j, n, id, p);
  }

  /** A read served then: the state it is answered from is the fold of a log that begins with everything any node had
      committed when the read was requested. */
  lemma ServedReadSeesCommitted(decode: Decoder, x: Execution, i: nat, k: nat, n: NodeId, id: nat, p: NodeId)
    requires x.Valid() && i < k <= |x.actions| && x.TruthfulUpTo(k) && RequestsRead(x, i, n, id)
    requires LeadsIn(x.At(k), n, x.At(i).nodes[n].core.Term()) && p in x.voters && p in x.At(i).nodes
    requires x.At(i).nodes[n].role.state.confirmedReadIndex < x.At(i).nodes[n].core.commitIndex
    requires NodeReadIndexReady(Driven(decode, x, n, k), NodeReadIndex(x.At(i).nodes[n]).value.0)
    ensures var served, log, c := ProgressAt(decode, x, n, k), LogOf(x.At(k), n), CommitOf(x.At(i), p);
      && c <= served.upTo <= |log| && served.kv == Fold(decode, log, served.upTo)
      && c <= |LogOf(x.At(i), p)| && LogOf(x.At(i), p)[..c] <= log[..served.upTo]
  {
    hide Execution.At, Execution.History, Execution.TruthfulUpTo, NodeReadIndex, ProgressAt, Fold;
    ReadyReadCovers(decode, x, i, k, n, id, p);
    RequestFacts(x, i, n, id);
    TruthfulPrefix(x, i, k);
    TruthfulAppliedIsFold(decode, x, n, k);
    TruthfulAppliedIsFold(decode, x, p, i);
    var c := CommitOf(x.At(i), p);
    forall j | 0 <= j < c ensures LogOf(x.At(i), p)[j] == LogOf(x.At(k), n)[j] {
      StateMachineSafety(x, i, k, p, n, j);
    }
  }
}
