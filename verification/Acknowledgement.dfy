/** When a successful append acknowledgement tells the leader the truth. */
module Acknowledgement {
  import opened Types
  import opened Membership
  import opened RaftLog
  import opened Messages
  import opened RaftCore
  import opened FollowerRole
  import opened CandidateRoles
  import opened LeaderRole
  import opened RaftNode
  import opened Protocol
  import opened Safety
  import opened Completeness
  import opened Refinement

  /** The two logs are the same up to `index`. */
  predicate SharedUpTo(a: seq<Entry>, b: seq<Entry>, index: LogIndex) {
    index <= |a| && index <= |b| && a[..index] == b[..index]
  }

  /** What a receiver can see before it handles the request: its log is a prefix of the leader's, or the entries
      reach past the point where the two logs part. */
  predicate Reconciles(log: seq<Entry>, lead: seq<Entry>, prev: LogIndex, entries: seq<Entry>) {
    log <= lead || (entries != [] && prev + |entries| <= |lead| && !(lead[..prev + |entries|] <= log))
  }

  // --- The handler ---

  /** The log a follower is left with after accepting. */
  lemma AcceptedLog(log: seq<Entry>, lead: seq<Entry>, prev: LogIndex, prevTerm: Term, entries: seq<Entry>)
    requires CommandLog(log) && CommandLog(lead) && Matching(log, lead)
    requires SliceOf(lead, prev, prevTerm, entries) && Consistent(log, prev, prevTerm)
    ensures AbsorbAll(Plain(log), entries) == Plain(
      if entries == [] then log else Adopt(log, lead[..prev + |entries|]))
  {
    hide Matching, Adopt, Absorb;
    if entries != [] {
      ConsistentMeansPrefix(log, lead, prev);
      AbsorbAdopts(log, lead, prev, entries, |entries|);
    }
  }

  /** The index an accepting follower reports lies within the log it shares with the leader exactly when the request
      reconciles the two. */
  lemma AckTruthfulExactly(core: Core, lead: seq<Entry>, m: Message)
    requires core.Log() == Plain(core.Log().entries) && CommandLog(core.Log().entries) && CommandLog(lead)
    requires m.body.AppendRequest? && Matching(core.Log().entries, lead)
    requires SliceOf(lead, m.body.prevLogIndex, m.body.prevLogTerm, m.body.entries)
    requires Consistent(core.Log().entries, m.body.prevLogIndex, m.body.prevLogTerm)
    ensures var r := HandleAppendRequest(core, m);
      && r.effects.messages == {Message(core.Id(), m.from, core.Term(), AppendResponse(true, r.core.Log().LastIndex()))}
      && (SharedUpTo(r.core.Log().entries, lead, r.core.Log().LastIndex())
          <==> Reconciles(core.Log().entries, lead, m.body.prevLogIndex, m.body.entries))
  {
    hide AbsorbAll, Matching, SharedUpTo;
    var log := core.Log().entries;
    AcceptedLog(log, lead, m.body.prevLogIndex, m.body.prevLogTerm, m.body.entries);
    var after := if m.body.entries == [] then log else Adopt(log, lead[..m.body.prevLogIndex + |m.body.entries|]);
    PlainLog(log);
    WholeShared(after, lead);
  }

  lemma WholeShared(a: seq<Entry>, b: seq<Entry>)
    ensures SharedUpTo(a, b, |a|) <==> a <= b
    ensures Numbered(a) ==> Plain(a).LastIndex() == |a|
  {
    assert a[..|a|] == a;
  }

  // --- Whole steps ---

  /** The node will acknowledge the request. */
  predicate WillAck(node: Node, m: Message) {
    && node.role.Follower? && m.body.AppendRequest? && m.term >= node.core.Term()
    && Consistent(node.core.Log().entries, m.body.prevLogIndex, m.body.prevLogTerm)
  }

  lemma AcksWhenAccepted(voters: set<NodeId>, n: NodeId, node: Node, m: Message, clock: Clock)
    requires Ready(voters, n, node) && m.body.AppendRequest?
    ensures Acks(StepEvent(node, Receive(m), clock).1.messages) <==> WillAck(node, m)
  {
    hide AbsorbAll;
    PlainLog(node.core.Log().entries);
    if WillAck(node, m) {
      var reply := RoleStep(node, Receive(m), clock).effects.messages;
      var sent := Message(n, m.from, m.term, AppendResponse(true,
          RoleStep(node, Receive(m), clock).core.Log().LastIndex()));
      assert sent in reply;
    }
  }

  /** What an accepting log becomes, by the leader's log. */
  lemma AcceptedAfter(s: Peer, h: History, e: Input, s': Peer, lead: seq<Entry>)
    requires Accepts(s, e, s') && Sound(lead, e.m.term, h.logs) && Chain(s.log, h.logs)
    requires SliceOf(lead, e.m.body.prevLogIndex, e.m.body.prevLogTerm, e.m.body.entries)
    ensures s'.log <= lead <==> Reconciles(s.log, lead, e.m.body.prevLogIndex, e.m.body.entries)
    ensures e.m.body.entries != [] ==>
      e.m.body.prevLogIndex + |e.m.body.entries| <= |lead|
      && lead[..e.m.body.prevLogIndex + |e.m.body.entries|] <= s'.log
  {
    if e.m.body.entries != [] {
      ChainsMatch(s.log, lead, h.logs);
      ConsistentMeansPrefix(s.log, lead, e.m.body.prevLogIndex);
      assert CutFrom(s.log, lead, e.m.body.prevLogIndex, e.m.body.entries);
    }
  }

  lemma AckAccepts(x: Move)
    requires x.n in x.st.nodes && LocalStep(x.voters, x.n, x.Before(), x.e, x.after, x.sent) && Acks(x.sent)
    ensures Accepts(x.Before(), x.e, x.after)
  {
    hide ElectStep, FreshRule, MatchRule, CommitRule, ReadRule, Accepts;
  }

  /** A step that acknowledges is truthful exactly when the request reconciles the log with the term's leader's. */
  lemma TruthfulExactly(x: Move)
    requires Moves(x) && LocalStep(x.voters, x.n, x.Before(), x.e, x.after, x.sent) && Acks(x.sent)
    ensures x.e.Recv? && x.e.m.body.AppendRequest? && x.e.m.term in x.h.logs
    ensures Truthful(x) <==>
      Reconciles(x.Before().log, x.h.logs[x.e.m.term], x.e.m.body.prevLogIndex, x.e.m.body.entries)
  {
    hide LocalStep, ElectStep, InvVotes, InvRoles, Absorbs, Consistent, SliceOf, Numbered, Ordered, Chain, Reconciles;
    AckAccepts(x);
    assert MessageOk(x.h, x.e.m);
    assert ElectionOk(x.voters, x.h, x.e.m.term);
    assert Sound(x.Before().log, x.Before().term, x.h.logs);
    AcceptedAfter(x.Before(), x.h, x.e, x.after, x.h.logs[x.e.m.term]);
  }

  /** Whoever acknowledges entries holds them. */
  lemma AckHolds(x: Move)
    requires Moves(x) && LocalStep(x.voters, x.n, x.Before(), x.e, x.after, x.sent) && Acks(x.sent)
    ensures x.e.Recv? && x.e.m.body.AppendRequest?
    ensures var prev, entries := x.e.m.body.prevLogIndex, x.e.m.body.entries;
      entries != [] ==> prev + |entries| <= |x.after.log| && x.after.log[prev..prev + |entries|] == entries
  {
    hide LocalStep, ElectStep, InvVotes, InvRoles, Absorbs, Consistent, Numbered, Ordered, Chain, Reconciles;
    AckAccepts(x);
    assert MessageOk(x.h, x.e.m);
    assert ElectionOk(x.voters, x.h, x.e.m.term);
    assert Sound(x.Before().log, x.Before().term, x.h.logs);
    AcceptedAfter(x.Before(), x.h, x.e, x.after, x.h.logs[x.e.m.term]);
  }
}
