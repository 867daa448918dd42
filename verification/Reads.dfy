/**
 Read-index freshness: when a leader's read round is confirmed, no leader of a higher term
 had been elected when the round was requested, unless an echo of an older round helped.
 */
module Reads {
  import opened Types
  import opened Membership
  import opened RaftLog
  import opened Messages
  import opened Protocol
  import opened Safety
  import opened Completeness

  // --- The invariant ---

  /** A response from `f` under term `t` that vouches for the round: no later winner then known had its vote. */
  ghost predicate Backed(h: History, f: NodeId, t: Term, id: nat) {
    && (t, id) in h.rounds
    && forall u :: u in h.rounds[(t, id)] && u > t && u in h.elections ==> f !in h.elections[u].quorum
  }

  /** An older request of the same node, to the same peer, with the same id and index. */
  ghost predicate Echoed(net: set<Message>, a: NodeId, f: NodeId, t: Term, id: nat, readIndex: LogIndex) {
    exists q :: q in net && q.from == a && q.to == f && q.body == ReadIndexRequest(id, readIndex) && q.term < t
  }

  ghost predicate ReadMessageOk(net: set<Message>, h: History, m: Message) {
    match m.body
    case ReadIndexRequest(id, _) =>
      (m.term, id) in h.rounds && m.term in h.elections && h.elections[m.term].leader == m.from
    case ReadIndexResponse(id, readIndex) =>
      Backed(h, m.from, m.term, id) || Echoed(net, m.to, m.from, m.term, id, readIndex)
    case _ => true
  }

  /** Round numbers of a reign grow; a pending round's acknowledgements each came as a response. */
  ghost predicate RoundOk(n: NodeId, s: Peer, net: set<Message>, h: History) {
    s.role.Leading? ==>
      && (forall id :: (s.term, id) in h.rounds ==> id < s.role.nextReadId)
      && (s.role.pending.Some? ==>
            var r := s.role.pending.value;
            && (s.term, r.id) in h.rounds
            && forall f :: f in r.acks ==> f == n || Answered(net, n, s.term, r, f))
  }

  ghost predicate Answered(net: set<Message>, n: NodeId, t: Term, r: Round, f: NodeId) {
    Message(f, n, t, ReadIndexResponse(r.id, r.readIndex)) in net
  }

  /** A round lists terms that were won, of a term that was won. */
  ghost predicate RoundKnown(h: History, t: Term, id: nat)
    requires (t, id) in h.rounds
  {
    t in h.elections && h.rounds[(t, id)] <= h.elections.Keys
  }

  ghost predicate InvReads(voters: set<NodeId>, st: State, h: History) {
    && (forall t, id :: (t, id) in h.rounds ==> RoundKnown(h, t, id))
    && (forall n :: n in voters && n in st.nodes ==> RoundOk(n, st.nodes[n], st.net, h))
    && (forall m :: m in st.net ==> ReadMessageOk(st.net, h, m))
  }

  ghost predicate ReadMove(x: Move) {
    && Moves(x) && InvReads(x.voters, x.st, x.h)
    && LocalStep(x.voters, x.n, x.Before(), x.e, x.after, x.sent)
  }

  // --- Every step keeps it ---

  ghost predicate RoundsKept(h: History, h': History) {
    forall k :: k in h.rounds ==> k in h'.rounds && h'.rounds[k] == h.rounds[k]
  }

  lemma StepRounds(x: Move)
    requires ReadMove(x)
    ensures RoundsKept(x.h, x.History'())
  {
    hide LocalStep, Inv, ElectStep;
    assert RoundOk(x.n, x.Before(), x.st.net, x.h);
  }

  lemma BackedKept(h: History, h': History, f: NodeId, t: Term, id: nat)
    requires Backed(h, f, t, id) && RoundsKept(h, h') && ElectionsKept(h, h') && RoundKnown(h, t, id)
    ensures Backed(h', f, t, id)
  {
  }

  /** A node that has not passed term `t` voted for no later winner. */
  lemma NoLaterVote(voters: set<NodeId>, st: State, h: History, f: NodeId, t: Term, u: Term)
    requires InvElections(voters, h) && InvVotes(voters, st, h) && f in st.nodes && st.nodes[f].term <= t < u
    requires u in h.elections
    ensures f !in h.elections[u].quorum
  {
    hide InvVotes, ElectionOk;
    if f in h.elections[u].quorum {
      QuorumVoted(voters, h, f, u);
      VoteBound(voters, st, h, f, u);
    }
  }

  /** A node that has not passed the round's term vouches for it. */
  lemma BackedNow(voters: set<NodeId>, st: State, h: History, f: NodeId, t: Term, id: nat)
    requires InvElections(voters, h) && InvVotes(voters, st, h) && f in st.nodes && st.nodes[f].term <= t
    requires (t, id) in h.rounds
    ensures Backed(h, f, t, id)
  {
    hide InvElections, InvVotes;
    forall u | u in h.rounds[(t, id)] && u > t && u in h.elections ensures f !in h.elections[u].quorum {
      NoLaterVote(voters, st, h, f, t, u);
    }
  }

  lemma RoundOfRequest(net: set<Message>, h: History, m: Message)
    requires ReadMessageOk(net, h, m) && m.body.ReadIndexRequest?
    ensures (m.term, m.body.id) in h.rounds
  {
  }

  /** Answering a request of the current term vouches for its round. */
  lemma AnswerBacked(x: Move, id: nat, readIndex: LogIndex)
    requires Moves(x) && InvReads(x.voters, x.st, x.h)
    requires x.e.Recv? && x.e.m.body == ReadIndexRequest(id, readIndex) && x.e.m.term == x.after.term
    ensures Backed(x.h, x.n, x.after.term, id)
  {
    hide ElectStep, InvNodes, InvNet, InvRoles, InvVotes, InvElections, ReadMessageOk, Backed, RoundOk, RoundKnown;
    StepBasics(x);
    RoundOfRequest(x.st.net, x.h, x.e.m);
    BackedNow(x.voters, x.st, x.h, x.n, x.after.term, id);
  }

  lemma NewReadMessage(x: Move, m: Message)
    requires ReadMove(x) && m in x.sent
    ensures ReadMessageOk(x.State'().net, x.History'(), m)
  {
    hide ElectStep, Inv, MatchRule, CommitRule, Accepts;
    StepBasics(x);
    StepRounds(x);
    LogsGrowKept(x);
    assert SendRule(x.n, x.Before(), x.e, x.after, m);
    match m.body
    case ReadIndexRequest(id, _) => OwnRound(x); LeadKnown(x);
    case ReadIndexResponse(id, readIndex) =>
      if x.e.m.term == x.after.term {
        AnswerBacked(x, id, readIndex);
        assert ReadMessageOk(x.st.net, x.h, x.e.m);
        BackedKept(x.h, x.History'(), x.n, x.after.term, id);
      } else {
        assert x.e.m in x.State'().net;
      }
    case _ =>
  }

  lemma LeadKnown(x: Move)
    requires Moves(x)
    ensures LeadOk(x.n, x.after, x.History'())
  {
    StepLead(x);
  }

  lemma OwnRound(x: Move)
    requires ReadMove(x)
    ensures RoundOk(x.n, x.after, x.State'().net, x.History'())
  {
    hide VoteRule, LogRule, CampaignRule, MatchRule, CommitRule, SendRule, InvNodes, InvVotes, InvNet, InvElections;
    StepRounds(x);
    assert RoundOk(x.n, x.Before(), x.st.net, x.h);
    if x.after.role.Leading? && !SameReign(x.Before(), x.after) {
      ElectionFresh(x);
    }
  }

  lemma OldReadMessage(x: Move, m: Message)
    requires ReadMove(x) && m in x.st.net
    ensures ReadMessageOk(x.State'().net, x.History'(), m)
  {
    hide LocalStep, Moves;
    StepBasics(x);
    StepRounds(x);
    LogsGrowKept(x);
    assert ReadMessageOk(x.st.net, x.h, m);
    if m.body.ReadIndexResponse? && Backed(x.h, m.from, m.term, m.body.id) {
      BackedKept(x.h, x.History'(), m.from, m.term, m.body.id);
    }
  }

  lemma StepReads(x: Move)
    requires ReadMove(x)
    ensures InvReads(x.voters, x.State'(), x.History'())
  {
    hide LocalStep, Moves, ReadMessageOk;
    StepBasics(x);
    var h, h' := x.h, x.History'();
    StepRounds(x);
    LogsGrowKept(x);
    OwnRound(x);
    LeadKnown(x);
    forall m | m in x.State'().net ensures ReadMessageOk(x.State'().net, h', m) {
      if m in x.st.net {
        OldReadMessage(x, m);
      } else {
        NewReadMessage(x, m);
      }
    }
    forall v | v in x.voters && v in x.st.nodes && v != x.n ensures RoundOk(v, x.st.nodes[v], x.State'().net, h') {
      OtherRound(x, v);
    }
    forall t, id | (t, id) in h'.rounds ensures RoundKnown(h', t, id) {
      if (t, id) in h.rounds {
        assert RoundKnown(h, t, id);
      }
    }
  }

  /** Only a term's own leader starts rounds in it. */
  lemma OtherRound(x: Move, v: NodeId)
    requires ReadMove(x) && v in x.voters && v in x.st.nodes && v != x.n
    ensures RoundOk(v, x.st.nodes[v], x.State'().net, x.History'())
  {
    hide LocalStep, InvNodes, InvVotes, InvNet, InvElections, ElectStep;
    assert RoundOk(v, x.st.nodes[v], x.st.net, x.h);
    assert LeadOk(v, x.st.nodes[v], x.h) && LeadOk(x.n, x.Before(), x.h);
  }

  // --- Freshness ---

  /** The step confirms the read round `id` of its reign. */
  ghost predicate Confirms(s: Peer, s': Peer, id: nat) {
    && SameReign(s, s') && s'.role.pending.None?
    && (|| (s.role.pending.Some? && id == s.role.pending.value.id)
        || (s'.role.nextReadId != s.role.nextReadId && id == s.role.nextReadId))
  }

  /** No higher term had been won when the round was requested. */
  ghost predicate Fresh(h: History, t: Term, id: nat) {
    (t, id) in h.rounds && forall u :: u in h.rounds[(t, id)] ==> u <= t
  }

  /** No peer was sent the pending round's id and index by this node in an earlier term. */
  ghost predicate NoEcho(st: State, n: NodeId, s: Peer) {
    s.role.Leading? && s.role.pending.Some? ==>
      forall f :: !Echoed(st.net, n, f, s.term, s.role.pending.value.id, s.role.pending.value.readIndex)
  }

  lemma AnswerVouches(st: State, h: History, n: NodeId, s: Peer, f: NodeId)
    requires s.role.Leading? && s.role.pending.Some? && NoEcho(st, n, s)
    requires Answered(st.net, n, s.term, s.role.pending.value, f)
    requires forall m :: m in st.net ==> ReadMessageOk(st.net, h, m)
    ensures Backed(h, f, s.term, s.role.pending.value.id)
  {
    hide Backed, Echoed;
    var r := s.role.pending.value;
    assert ReadMessageOk(st.net, h, Message(f, n, s.term, ReadIndexResponse(r.id, r.readIndex)));
    assert !Echoed(st.net, n, f, s.term, r.id, r.readIndex);
  }

  /** Whoever acknowledged the round voted for no later winner known when it was requested. */
  lemma AckOutside(x: Move, f: NodeId, u: Term)
    requires ReadMove(x) && x.Before().role.Leading? && x.Before().role.pending.Some?
    requires NoEcho(x.st, x.n, x.Before())
    requires f == x.n || Answered(x.st.net, x.n, x.Before().term, x.Before().role.pending.value, f)
    requires (x.Before().term, x.Before().role.pending.value.id) in x.h.rounds && u > x.Before().term
    requires u in x.h.rounds[(x.Before().term, x.Before().role.pending.value.id)] && u in x.h.elections
    ensures f !in x.h.elections[u].quorum
  {
    hide LocalStep, ElectStep, InvNodes, InvNet, InvRoles, InvVotes, InvElections, ReadMessageOk, NoEcho, Answered;
    var s := x.Before();
    if f == x.n {
      NoLaterVote(x.voters, x.st, x.h, x.n, s.term, u);
    } else {
      AnswerVouches(x.st, x.h, x.n, s, f);
    }
  }

  lemma AckedQuorum(x: Move, id: nat)
    requires ReadMove(x) && Confirms(x.Before(), x.after, id) && x.Before().role.pending.Some?
    ensures x.Before().role.pending.value.id == id && AckedRound(x.Before(), x.e)
    ensures Majority(x.Before().role.pending.value.acks + {x.e.m.from}, x.voters)
  {
    hide Inv, VoteRule, LogRule, CampaignRule, MatchRule, CommitRule, SendRule, InvReads;
  }

  lemma PendingFresh(x: Move, id: nat)
    requires ReadMove(x) && Confirms(x.Before(), x.after, id) && x.Before().role.pending.Some?
    requires NoEcho(x.st, x.n, x.Before())
    ensures Fresh(x.h, x.Before().term, id)
  {
    hide LocalStep, Inv, ElectStep, NoEcho, Confirms;
    StepBasics(x);
    AckedQuorum(x, id);
    var s := x.Before();
    var r := s.role.pending.value;
    assert RoundOk(x.n, s, x.st.net, x.h) && RoundKnown(x.h, s.term, id);
    forall u | u in x.h.rounds[(s.term, id)] ensures u <= s.term {
      if u > s.term {
        forall f | f in r.acks + {x.e.m.from} ensures f !in x.h.elections[u].quorum {
          assert x.e.m == Message(x.e.m.from, x.n, s.term, ReadIndexResponse(r.id, r.readIndex));
          AckOutside(x, f, u);
        }
        WinnerQuorum(x, u);
        var v := MeetingPoint(r.acks + {x.e.m.from}, x.h.elections[u].quorum, x.voters);
      }
    }
  }

  lemma WinnerQuorum(x: Move, u: Term)
    requires Moves(x) && u in x.h.elections
    ensures Majority(x.h.elections[u].quorum, x.voters)
  {
    assert ElectionOk(x.voters, x.h, u);
  }

  /** A confirmed read round is fresh, if no earlier request of this node carries the same id and index. */
  lemma ConfirmedReadFresh(x: Move, id: nat)
    requires ReadMove(x) && Confirms(x.Before(), x.after, id) && NoEcho(x.st, x.n, x.Before())
    ensures Fresh(x.History'(), x.after.term, id)
  {
    hide Inv, VoteRule, LogRule, CampaignRule, MatchRule, CommitRule, SendRule, InvReads, NoEcho;
    StepRounds(x);
    if x.Before().role.pending.Some? {
      PendingFresh(x, id);
    } else {
      LoneFresh(x);
    }
  }

  lemma LoneFresh(x: Move)
    requires Moves(x) && Majority({x.n}, x.voters)
    ensures forall u :: u in x.h.elections ==> u <= x.Before().term
  {
    forall u | u in x.h.elections ensures u <= x.Before().term {
      LoneVoterVoted(x.voters, x.st, x.h, x.n, u);
    }
  }

  // --- Truthful runs have no echoes ---

  /** Some entry of the reign's own term lies below `readIndex`. */
  ghost predicate OwnBelow(log: seq<Entry>, t: Term, readIndex: LogIndex) {
    exists j :: 0 <= j < |log| && j < readIndex && log[j].term == t
  }

  ghost predicate PendingCommitted(voters: set<NodeId>, s: Peer, h: History) {
    s.role.Leading? && s.role.pending.Some? ==>
      && OwnBelow(s.log, s.term, s.role.pending.value.readIndex)
      && CommitOk(voters, h, s.log, s.role.pending.value.readIndex, s.term)
  }

  ghost predicate RequestCommitted(voters: set<NodeId>, h: History, m: Message) {
    m.body.ReadIndexRequest? ==>
      m.term in h.logs && CommitOk(voters, h, h.logs[m.term], m.body.readIndex, m.term)
  }

  ghost predicate InvReadCommits(voters: set<NodeId>, st: State, h: History) {
    && (forall n :: n in voters && n in st.nodes ==> PendingCommitted(voters, st.nodes[n], h))
    && (forall m :: m in st.net ==> RequestCommitted(voters, h, m))
  }

  ghost predicate ReadCommitMove(x: Move) {
    CommitMove(x) && InvReadCommits(x.voters, x.st, x.h)
  }

  lemma PendingStep(x: Move)
    requires ReadCommitMove(x)
    ensures PendingCommitted(x.voters, x.after, x.History'())
  {
    hide Inv, InvAcks, InvCounts, VoteRule, CampaignRule, MatchRule, CommitRule, SendRule, Extends, CommitOk, Absorbs;
    var s, s' := x.Before(), x.after;
    StepBasics(x);
    StepExtends(x);
    assert PendingCommitted(x.voters, s, x.h);
    if s'.role.Leading? && s'.role.pending.Some? {
      var i := s'.role.pending.value.readIndex;
      assert CommitOk(x.voters, x.h, s.log, i, s.term);
      CommitGrows(x.voters, x.h, x.History'(), s.log, s'.log, i, s.term, s'.term);
    }
  }

  lemma StepReadCommits(x: Move)
    requires ReadCommitMove(x)
    ensures InvReadCommits(x.voters, x.State'(), x.History'())
  {
    hide Moves, InvAcks, InvCounts, InvCommits, LocalStep, Extends, CommitOk, RequestCommitted;
    StepBasics(x);
    StepExtends(x);
    PendingStep(x);
    forall v | v in x.voters && v in x.st.nodes && v != x.n
      ensures PendingCommitted(x.voters, x.st.nodes[v], x.History'())
    {
      var s := x.st.nodes[v];
      assert PendingCommitted(x.voters, s, x.h);
      if s.role.Leading? && s.role.pending.Some? {
        CommitGrows(x.voters, x.h, x.History'(), s.log, s.log, s.role.pending.value.readIndex, s.term, s.term);
      }
    }
    forall m | m in x.State'().net ensures RequestCommitted(x.voters, x.History'(), m) {
      RequestStep(x, m);
    }
  }

  lemma RequestStep(x: Move, m: Message)
    requires ReadCommitMove(x) && m in x.State'().net
    ensures RequestCommitted(x.voters, x.History'(), m)
  {
    hide Inv, InvAcks, InvCounts, InvCommits, ElectStep, FreshRule, MatchRule, CommitRule, Accepts, Extends, CommitOk;
    StepBasics(x);
    StepExtends(x);
    if m.body.ReadIndexRequest? {
      if m in x.st.net {
        assert RequestCommitted(x.voters, x.h, m);
        LeaderPrefix(x.h, x.History'(), m.term);
        CommitGrows(x.voters, x.h, x.History'(), x.h.logs[m.term], x.History'().logs[m.term],
                    m.body.readIndex, m.term, m.term);
      } else {
        PendingStep(x);
        assert SendRule(x.n, x.Before(), x.e, x.after, m);
      }
    }
  }

  /** On truthful runs a later reign's read index is strictly larger than every earlier reign's. */
  lemma ReadIndicesGrow(voters: set<NodeId>, st: State, h: History, n: NodeId, q: Message)
    requires TrueInv(voters, st, h) && InvReadCommits(voters, st, h) && n in voters && n in st.nodes && q in st.net
    requires st.nodes[n].role.Leading? && st.nodes[n].role.pending.Some?
    requires q.body.ReadIndexRequest? && q.term < st.nodes[n].term
    ensures q.body.readIndex < st.nodes[n].role.pending.value.readIndex
  {
    hide InvAcks, InvCounts, InvCommits, InvVotes, InvNet, InvNodes, CommitOk;
    var s := st.nodes[n];
    assert PendingCommitted(voters, s, h) && RequestCommitted(voters, h, q) && LeadOk(n, s, h);
    assert ElectionOk(voters, h, q.term);
    CommitInLeader(voters, st, h, h.logs[q.term], q.body.readIndex, q.term, s.term);
    var j :| 0 <= j < |s.log| && j < s.role.pending.value.readIndex && s.log[j].term == s.term;
    if j < q.body.readIndex {
      assert h.logs[q.term][..q.body.readIndex][j] == s.log[j];
    }
  }

  /** Hence on truthful runs no echo can help, and every confirmed read is fresh. */
  lemma TruthfulNoEcho(voters: set<NodeId>, st: State, h: History, n: NodeId)
    requires TrueInv(voters, st, h) && InvReadCommits(voters, st, h) && n in voters && n in st.nodes
    ensures NoEcho(st, n, st.nodes[n])
  {
    hide TrueInv, InvReadCommits;
    var s := st.nodes[n];
    if s.role.Leading? && s.role.pending.Some? {
      forall q | q in st.net && q.body.ReadIndexRequest? && q.term < s.term
        ensures q.body.readIndex != s.role.pending.value.readIndex
      {
        ReadIndicesGrow(voters, st, h, n, q);
      }
    }
  }
}
