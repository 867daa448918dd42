/**
 Leader completeness and agreement on committed entries, on runs whose successful append
 acknowledgements are truthful: the acknowledging log is a prefix of the term's leader log.
 */
module Completeness {
  import opened Types
  import opened Membership
  import opened RaftLog
  import opened Messages
  import opened Protocol
  import opened Safety

  /** The acknowledgements a step sends claim no more than the log shared with the leader. */
  ghost predicate Truthful(x: Move)
    requires x.n in x.st.nodes
  {
    Acks(x.sent) ==>
      x.after.term in x.History'().logs && x.after.log <= x.History'().logs[x.after.term]
  }

  // --- What an acknowledgement leaves behind ---

  /** Some leader elected after `lo` and up to `hi` started without `p`. */
  ghost predicate Departed(elections: map<Term, Election>, p: seq<Entry>, lo: Term, hi: int) {
    exists w :: lo < w <= hi && w in elections && !(p <= elections[w].log)
  }

  /** A log holds `p`, acknowledged in term `t`, unless a later leader departed from it. */
  ghost predicate Held(h: History, p: seq<Entry>, t: Term, log: seq<Entry>, hi: int) {
    p <= log || Departed(h.elections, p, t, hi)
  }

  /** All that was acknowledged in `t`, up to `upTo`, is held. */
  ghost predicate HoldsAcked(h: History, t: Term, upTo: LogIndex, log: seq<Entry>, hi: int) {
    && t in h.logs && upTo <= |h.logs[t]|
    && forall i :: 0 <= i <= upTo ==> Held(h, h.logs[t][..i], t, log, hi)
  }

  ghost predicate AckOk(voters: set<NodeId>, st: State, h: History, n: NodeId, t: Term)
    requires (n, t) in h.acks
  {
    && n in voters && n in st.nodes && t <= st.nodes[n].term
    && HoldsAcked(h, t, h.acks[(n, t)], st.nodes[n].log, st.nodes[n].term)
  }

  /** A vote that could count towards a win. */
  ghost predicate Counts(h: History, n: NodeId, u: Term) {
    (n, u) in h.votes && (u in h.elections ==> n in h.elections[u].quorum)
  }

  ghost predicate VoteHolds(h: History, n: NodeId, t: Term, u: Term)
    requires (n, t) in h.acks && (n, u) in h.votes
  {
    Counts(h, n, u) && t < u ==> HoldsAcked(h, t, h.acks[(n, t)], h.votes[(n, u)].log, u - 1)
  }

  ghost predicate InvAcks(voters: set<NodeId>, st: State, h: History) {
    && (forall n, t :: (n, t) in h.acks ==> AckOk(voters, st, h, n, t))
    && (forall n, t, u :: (n, t) in h.acks && (n, u) in h.votes ==> VoteHolds(h, n, t, u))
  }

  /** What leaders count was acknowledged. */
  ghost predicate CountOk(s: Peer, h: History) {
    s.role.Leading? ==> forall id :: MatchedOf(s.role, id) <= h.Acked(id, s.term)
  }

  ghost predicate InvCounts(voters: set<NodeId>, st: State, h: History) {
    && (forall n :: n in voters && n in st.nodes ==> CountOk(st.nodes[n], h))
    && (forall m :: m in st.net && m.body.AppendResponse? && m.body.success ==>
          m.body.lastIndex <= h.Acked(m.from, m.term))
  }

  /** The step that the rest of this module is about. */
  ghost predicate TrueMove(x: Move) {
    && Moves(x) && Truthful(x)
    && LocalStep(x.voters, x.n, x.Before(), x.e, x.after, x.sent)
    && InvAcks(x.voters, x.st, x.h) && InvCounts(x.voters, x.st, x.h)
  }

  // --- Acknowledged entries stay, or a later leader departed from them ---

  lemma SharedPrefix(p: seq<Entry>, log: seq<Entry>, lead: seq<Entry>, k: nat)
    requires p <= log && p <= lead && k <= |p|
    ensures lead[..k] <= log
  {
    assert lead[..k] == p[..k] == log[..k];
  }

  lemma AdoptedKeeps(p: seq<Entry>, log: seq<Entry>, lead: seq<Entry>, after: seq<Entry>, k: nat)
    requires p <= log && p <= lead && AdoptedPrefix(log, lead, after, k)
    ensures p <= after
  {
    if k <= |p| {
      SharedPrefix(p, log, lead, k);
    }
  }

  lemma HeldGrows(h: History, h': History, p: seq<Entry>, t: Term, log: seq<Entry>, hi: int, hi': int)
    requires Held(h, p, t, log, hi) && hi <= hi'
    requires forall w :: w in h.elections ==> w in h'.elections && h'.elections[w] == h.elections[w]
    ensures Held(h', p, t, log, hi')
  {
  }

  lemma StepKeepsElections(x: Move)
    requires x.n in x.st.nodes
    ensures forall w :: w in x.h.elections ==>
      w in x.History'().elections && x.History'().elections[w] == x.h.elections[w]
  {
  }

  /** One step of the holder: its log keeps `p`, or it adopts the log of a leader that departed. */
  lemma HeldStep(x: Move, p: seq<Entry>, t: Term)
    requires Moves(x) && t in x.h.logs && p <= x.h.logs[t] && t <= x.Before().term
    requires Held(x.h, p, t, x.Before().log, x.Before().term)
    ensures Held(x.History'(), p, t, x.after.log, x.after.term)
  {
    var s, s' := x.Before(), x.after;
    StepKeepsElections(x);
    HeldGrows(x.h, x.History'(), p, t, s.log, s.term, s'.term);
    if p <= s.log && !(s.log <= s'.log) {
      AcceptOutcome(x.voters, x.st, x.h, x.n, x.e, s');
      HeldAdopted(x.voters, x.h, x.History'(), p, t, s.log, s'.log, s'.term);
    }
  }

  lemma HeldAdopted(voters: set<NodeId>, h: History, h': History, p: seq<Entry>, t: Term,
                    log: seq<Entry>, after: seq<Entry>, u: Term)
    requires InvElections(voters, h) && t in h.logs && p <= h.logs[t] && t <= u && p <= log
    requires u in h.logs && exists k :: AdoptedPrefix(log, h.logs[u], after, k)
    requires forall w :: w in h.elections ==> w in h'.elections && h'.elections[w] == h.elections[w]
    ensures Held(h', p, t, after, u)
  {
    assert ElectionOk(voters, h, u);
    var k :| AdoptedPrefix(log, h.logs[u], after, k);
    if t == u || p <= h.elections[u].log {
      AdoptedKeeps(p, log, h.logs[u], after, k);
    }
  }

  ghost predicate ElectionsKept(h: History, h': History) {
    forall w :: w in h.elections ==> w in h'.elections && h'.elections[w] == h.elections[w]
  }

  lemma HoldsGrow(h: History, h': History, t: Term, upTo: LogIndex, log: seq<Entry>, hi: int, hi': int)
    requires HoldsAcked(h, t, upTo, log, hi) && hi <= hi'
    requires Grows(h.logs, h'.logs) && ElectionsKept(h, h')
    ensures HoldsAcked(h', t, upTo, log, hi')
  {
    forall i | 0 <= i <= upTo ensures Held(h', h'.logs[t][..i], t, log, hi') {
      assert h'.logs[t][..i] == h.logs[t][..i];
      HeldGrows(h, h', h.logs[t][..i], t, log, hi, hi');
    }
  }

  lemma HoldsTrim(h: History, t: Term, upTo: LogIndex, log: seq<Entry>, u: Term)
    requires HoldsAcked(h, t, upTo, log, u) && u !in h.elections
    ensures HoldsAcked(h, t, upTo, log, u - 1)
  {
    forall i | 0 <= i <= upTo ensures Held(h, h.logs[t][..i], t, log, u - 1) {
      assert Held(h, h.logs[t][..i], t, log, u);
    }
  }

  lemma StepBasics(x: Move)
    requires Moves(x)
    ensures x.n in x.voters && x.n in x.st.nodes && x.after.term >= x.Before().term
  {
  }

  /** Everything a step acknowledges, its own log holds. */
  lemma FreshlyAcked(x: Move, i: nat)
    requires Moves(x) && Truthful(x) && (x.after.role.Leading? || Acks(x.sent)) && i <= |x.after.log|
    ensures x.after.term in x.History'().logs && i <= |x.History'().logs[x.after.term]|
    ensures x.History'().logs[x.after.term][..i] <= x.after.log
  {
    hide Moves, Acks;
    StepBasics(x);
  }

  lemma OldAck(x: Move, t: Term)
    requires Moves(x) && (x.n, t) in x.h.acks && AckOk(x.voters, x.st, x.h, x.n, t)
    ensures HoldsAcked(x.History'(), t, x.h.acks[(x.n, t)], x.after.log, x.after.term)
  {
    hide Moves, Held;
    LogsGrowKept(x);
    var h, h' := x.h, x.History'();
    forall i | 0 <= i <= h.acks[(x.n, t)] ensures Held(h', h'.logs[t][..i], t, x.after.log, x.after.term) {
      assert h'.logs[t][..i] == h.logs[t][..i];
      HeldStep(x, h.logs[t][..i], t);
    }
  }

  lemma LogsGrowKept(x: Move)
    requires Moves(x)
    ensures Grows(x.h.logs, x.History'().logs) && ElectionsKept(x.h, x.History'())
  {
    hide ElectStep, Inv;
    LogsGrow(x);
    StepKeepsElections(x);
  }

  lemma OwnAck(x: Move, t: Term)
    requires TrueMove(x) && (x.n, t) in x.History'().acks
    ensures AckOk(x.voters, x.State'(), x.History'(), x.n, t)
  {
    hide Moves, InvCounts, LocalStep, Held;
    StepBasics(x);
    var h, h' := x.h, x.History'();
    if (x.n, t) in h.acks {
      OldAck(x, t);
    }
    if (x.n, t) !in h.acks || h'.acks[(x.n, t)] != h.acks[(x.n, t)] {
      FreshlyAcked(x, |x.after.log|);
      forall i | h.Acked(x.n, t) <= i <= |x.after.log| ensures Held(h', h'.logs[t][..i], t, x.after.log, x.after.term) {
        FreshlyAcked(x, i);
        HeldNow(h', h'.logs[t][..i], t, x.after.log, x.after.term);
      }
    }
  }

  lemma HeldNow(h: History, p: seq<Entry>, t: Term, log: seq<Entry>, hi: int)
    requires p <= log
    ensures Held(h, p, t, log, hi)
  {
  }

  lemma OtherAck(x: Move, v: NodeId, t: Term)
    requires TrueMove(x) && (v, t) in x.h.acks && v != x.n
    ensures AckOk(x.voters, x.State'(), x.History'(), v, t)
  {
    hide Moves, InvCounts, LocalStep, HoldsAcked, Grows;
    StepBasics(x);
    assert AckOk(x.voters, x.st, x.h, v, t);
    LogsGrowKept(x);
    HoldsGrow(x.h, x.History'(), t, x.h.acks[(v, t)], x.st.nodes[v].log, x.st.nodes[v].term, x.st.nodes[v].term);
  }

  /** Votes already cast keep what their voters had acknowledged. */
  lemma OldVoteHolds(x: Move, v: NodeId, t: Term, u: Term)
    requires TrueMove(x) && (v, t) in x.History'().acks && (v, u) in x.h.votes
    ensures (v, u) in x.History'().votes && VoteHolds(x.History'(), v, t, u)
  {
    hide ElectStep, InvNodes, InvVotes, InvNet, InvRoles, InvElections, InvCounts, LocalStep, HoldsAcked, Grows;
    StepBasics(x);
    LogsGrowKept(x);
    VoteBound(x.voters, x.st, x.h, v, u);
    if t < u && Counts(x.History'(), v, u) {
      assert (v, t) in x.h.acks && x.h.acks[(v, t)] == x.History'().acks[(v, t)];
      assert VoteHolds(x.h, v, t, u);
      HoldsGrow(x.h, x.History'(), t, x.h.acks[(v, t)], x.h.votes[(v, u)].log, u - 1, u - 1);
    }
  }

  lemma VoteBound(voters: set<NodeId>, st: State, h: History, v: NodeId, u: Term)
    requires InvVotes(voters, st, h) && (v, u) in h.votes
    ensures v in st.nodes && u <= st.nodes[v].term
  {
    assert VoteOk(voters, st, h, v, u);
  }

  /** A vote being cast: the voter's log holds all it had acknowledged in earlier terms. */
  lemma NewVoteHolds(x: Move, t: Term)
    requires TrueMove(x) && (x.n, t) in x.History'().acks
    requires x.after.vote.Some? && (x.n, x.after.term) !in x.h.votes
    ensures VoteHolds(x.History'(), x.n, t, x.after.term)
  {
    hide Moves, InvCounts, LocalStep, HoldsAcked, Grows;
    StepBasics(x);
    LogsGrowKept(x);
    var u, s := x.after.term, x.Before();
    if t < u && Counts(x.History'(), x.n, u) {
      assert AckOk(x.voters, x.st, x.h, x.n, t);
      if s.term == u {
        LateVote(x);
        HoldsTrim(x.h, t, x.h.acks[(x.n, t)], s.log, u);
      }
      HoldsGrow(x.h, x.History'(), t, x.h.acks[(x.n, t)], s.log, if s.term == u then u - 1 else s.term, u - 1);
    }
  }

  lemma QuorumVoted(voters: set<NodeId>, h: History, v: NodeId, u: Term)
    requires InvElections(voters, h) && u in h.elections && v in h.elections[u].quorum
    ensures (v, u) in h.votes
  {
    assert ElectionOk(voters, h, u);
  }

  /** A vote that still counts was cast before its term was won. */
  lemma LateVote(x: Move)
    requires Moves(x) && (x.n, x.after.term) !in x.h.votes && Counts(x.History'(), x.n, x.after.term)
    ensures x.after.term !in x.h.elections
  {
    hide ElectStep, ElectionOk;
    StepKeepsElections(x);
    if x.after.term in x.h.elections {
      QuorumVoted(x.voters, x.h, x.n, x.after.term);
    }
  }

  lemma StepAcks(x: Move)
    requires TrueMove(x)
    ensures InvAcks(x.voters, x.State'(), x.History'())
  {
    hide AckOk, VoteHolds, LocalStep, InvCounts, Moves;
    StepBasics(x);
    var h, h' := x.h, x.History'();
    forall v, t | (v, t) in h'.acks ensures AckOk(x.voters, x.State'(), h', v, t) {
      if v == x.n {
        OwnAck(x, t);
      } else {
        OtherAck(x, v, t);
      }
    }
    forall v, t, u | (v, t) in h'.acks && (v, u) in h'.votes ensures VoteHolds(h', v, t, u) {
      if (v, u) in h.votes {
        OldVoteHolds(x, v, t, u);
      } else {
        NewVoteHolds(x, t);
      }
    }
  }

  lemma StepCounts(x: Move)
    requires TrueMove(x)
    ensures InvCounts(x.voters, x.State'(), x.History'())
  {
    hide InvAcks, Inv, VoteRule, LogRule, CampaignRule, CommitRule, ReadRule, Accepts;
    forall v | v in x.voters && v in x.st.nodes && v != x.n ensures CountOk(x.st.nodes[v], x.History'()) {
      assert CountOk(x.st.nodes[v], x.h);
    }
    assert CountOk(x.Before(), x.h);
    assert CountOk(x.after, x.History'());
  }

  // --- Leader completeness ---

  function Ackers(voters: set<NodeId>, h: History, t: Term, i: LogIndex): set<NodeId> {
    set v | v in voters && (v, t) in h.acks && h.acks[(v, t)] >= i
  }

  /** The entry at `i` is of term `t`, and a quorum acknowledged it to that term's leader. */
  ghost predicate Chosen(voters: set<NodeId>, h: History, t: Term, i: LogIndex) {
    && t in h.logs && 1 <= i <= |h.logs[t]| && h.logs[t][i - 1].term == t
    && Majority(Ackers(voters, h, t, i), voters)
  }

  /** The candidate's log is at least as late as a voter's: it extends it, or ends in a later leader's reign. */
  lemma LaterLogs(mine: seq<Entry>, theirs: seq<Entry>, bound: Term, logs: map<Term, seq<Entry>>)
    requires Sound(mine, bound, logs) && Sound(theirs, bound, logs) && theirs != []
    requires AtLeast(LastTermOf(mine), |mine|, theirs)
    ensures theirs <= mine || (LastTermOf(mine) > LastTermOf(theirs) && LastTermOf(mine) in logs
        && mine <= logs[LastTermOf(mine)])
  {
    assert theirs[|theirs| - 1].term >= 1;
    assert Linked(mine, logs, |mine| - 1) && mine[..|mine|] == mine;
    assert Linked(theirs, logs, |theirs| - 1) && theirs[..|theirs|] == theirs;
  }

  /** A log that ends in a reign started on top of that leader's first log. */
  lemma ReignBase(voters: set<NodeId>, h: History, mine: seq<Entry>)
    requires InvElections(voters, h) && mine != [] && LastTermOf(mine) in h.elections
    requires mine <= h.logs[LastTermOf(mine)]
    ensures h.elections[LastTermOf(mine)].log <= mine
  {
    var won := h.elections[LastTermOf(mine)];
    assert ElectionOk(voters, h, LastTermOf(mine));
    assert h.logs[LastTermOf(mine)][|mine| - 1] == mine[|mine| - 1];
  }

  /** What an acknowledging voter of the winner held when it voted. */
  lemma CommonVoter(voters: set<NodeId>, st: State, h: History, t: Term, i: LogIndex, u: Term) returns (v: NodeId)
    requires InvElections(voters, h) && InvVotes(voters, st, h) && InvAcks(voters, st, h)
    requires Chosen(voters, h, t, i) && u in h.elections && t < u
    ensures (v, u) in h.votes && Held(h, h.logs[t][..i], t, h.votes[(v, u)].log, u - 1)
    ensures AtLeast(LastTermOf(h.elections[u].log), |h.elections[u].log|, h.votes[(v, u)].log)
    ensures Sound(h.votes[(v, u)].log, u, h.logs) && Sound(h.elections[u].log, u, h.logs)
  {
    hide Sound, AtLeast;
    assert ElectionOk(voters, h, u);
    var won := h.elections[u];
    v := MeetingPoint(Ackers(voters, h, t, i), won.quorum, voters);
    assert VoteHolds(h, v, t, u);
    assert VoteOk(voters, st, h, v, u) && VoteOk(voters, st, h, won.leader, u);
  }

  lemma MeetingPoint(a: set<NodeId>, b: set<NodeId>, voters: set<NodeId>) returns (v: NodeId)
    requires Majority(a, voters) && Majority(b, voters)
    ensures v in a && v in b
  {
    MajoritiesMeet(a, b, voters);
    v :| v in a && v in b;
  }

  /** Every later leader starts with everything chosen before, by induction on its term. */
  lemma {:induction false} ChosenInLaterLeaders(voters: set<NodeId>, st: State, h: History, t: Term, i: LogIndex,
                                                u: Term)
    requires InvElections(voters, h) && InvVotes(voters, st, h) && InvAcks(voters, st, h)
    requires Chosen(voters, h, t, i) && u in h.elections && t < u
    ensures h.logs[t][..i] <= h.elections[u].log
    decreases u
  {
    hide InvAcks, InvVotes, InvElections, Sound, AtLeast, Majority;
    var p, mine := h.logs[t][..i], h.elections[u].log;
    var v := CommonVoter(voters, st, h, t, i, u);
    var theirs := h.votes[(v, u)].log;
    if !(p <= theirs) {
      var w :| t < w <= u - 1 && w in h.elections && !(p <= h.elections[w].log);
      ChosenInLaterLeaders(voters, st, h, t, i, w);
    }
    LaterLogs(mine, theirs, u, h.logs);
    if !(theirs <= mine) {
      LastTermAbove(voters, h, theirs, mine, u, t, i);
      ChosenInLaterLeaders(voters, st, h, t, i, LastTermOf(mine));
      ReignBase(voters, h, mine);
    }
  }

  /** A log that ends after a log holding an entry of `t` ends in a reign between `t` and `u`. */
  lemma LastTermAbove(voters: set<NodeId>, h: History, theirs: seq<Entry>, mine: seq<Entry>, u: Term, t: Term, i: nat)
    requires InvElections(voters, h) && u in h.elections && mine == h.elections[u].log
    requires Sound(theirs, u, h.logs) && t in h.logs && 1 <= i <= |h.logs[t]| && h.logs[t][..i] <= theirs
    requires h.logs[t][i - 1].term == t && LastTermOf(mine) > LastTermOf(theirs)
    ensures mine != [] && t < LastTermOf(mine) < u
    ensures LastTermOf(mine) in h.logs ==> LastTermOf(mine) in h.elections
  {
    assert ElectionOk(voters, h, u);
    assert theirs[i - 1].term == t;
    assert theirs[i - 1].term <= theirs[|theirs| - 1].term;
  }

  // --- Committed prefixes ---

  /** The first `commit` entries are part of what term `t`'s leader got chosen. */
  ghost predicate CommitBy(voters: set<NodeId>, h: History, log: seq<Entry>, commit: LogIndex, t: Term, k: LogIndex) {
    Chosen(voters, h, t, k) && commit <= k && commit <= |log| && log[..commit] == h.logs[t][..commit]
  }

  ghost predicate CommitOk(voters: set<NodeId>, h: History, log: seq<Entry>, commit: LogIndex, term: Term) {
    commit == 0 || exists t: Term, k: LogIndex :: t <= term && CommitBy(voters, h, log, commit, t, k)
  }

  ghost predicate RequestCommitOk(voters: set<NodeId>, h: History, m: Message) {
    m.body.AppendRequest? ==> m.term in h.logs && CommitOk(voters, h, h.logs[m.term], m.body.leaderCommit, m.term)
  }

  ghost predicate InvCommits(voters: set<NodeId>, st: State, h: History) {
    && (forall n :: n in voters && n in st.nodes ==>
          CommitOk(voters, h, st.nodes[n].log, st.nodes[n].commit, st.nodes[n].term))
    && (forall m :: m in st.net ==> RequestCommitOk(voters, h, m))
  }

  /** What a later history still knows of an earlier one. */
  ghost predicate Extends(h: History, h': History) {
    && Grows(h.logs, h'.logs) && ElectionsKept(h, h')
    && forall a :: a in h.acks ==> a in h'.acks && h.acks[a] <= h'.acks[a]
  }

  lemma ChosenGrows(voters: set<NodeId>, h: History, h': History, t: Term, k: LogIndex)
    requires Chosen(voters, h, t, k) && Extends(h, h')
    ensures Chosen(voters, h', t, k) && h'.logs[t][..k] == h.logs[t][..k]
  {
    assert voters * Ackers(voters, h, t, k) <= voters * Ackers(voters, h', t, k);
    SubsetSize(voters * Ackers(voters, h, t, k), voters * Ackers(voters, h', t, k));
  }

  lemma CommitGrows(voters: set<NodeId>, h: History, h': History, log: seq<Entry>, log': seq<Entry>,
                    commit: LogIndex, term: Term, term': Term)
    requires CommitOk(voters, h, log, commit, term) && Extends(h, h') && term <= term' && log <= log'
    ensures CommitOk(voters, h', log', commit, term')
  {
    hide Extends, Chosen;
    if commit > 0 {
      var t: Term, k: LogIndex :| t <= term && CommitBy(voters, h, log, commit, t, k);
      ChosenGrows(voters, h, h', t, k);
      ChosenBounds(voters, h, t, k);
      ChosenBounds(voters, h', t, k);
      assert h'.logs[t][..commit] == h'.logs[t][..k][..commit];
      assert h.logs[t][..commit] == h.logs[t][..k][..commit];
      assert log'[..commit] == log[..commit];
      assert CommitBy(voters, h', log', commit, t, k);
    }
  }

  lemma ChosenBounds(voters: set<NodeId>, h: History, t: Term, k: LogIndex)
    requires Chosen(voters, h, t, k)
    ensures t in h.logs && k <= |h.logs[t]|
  {
  }

  /** A commit that covers this much covers less. */
  lemma CommitTrim(voters: set<NodeId>, h: History, log: seq<Entry>, commit: LogIndex, term: Term,
                   log': seq<Entry>, c: LogIndex)
    requires CommitOk(voters, h, log, commit, term) && c <= commit && c <= |log'| && log' <= log
    ensures CommitOk(voters, h, log', c, term)
  {
    hide Chosen;
    if c > 0 {
      var t: Term, k: LogIndex :| t <= term && CommitBy(voters, h, log, commit, t, k);
      ChosenBounds(voters, h, t, k);
      assert log[..commit][..c] == log[..c] == log'[..c];
      assert h.logs[t][..commit][..c] == h.logs[t][..c];
      assert CommitBy(voters, h, log', c, t, k);
    }
  }

  /** Everything chosen is in the log of the leader of any term from then on. */
  lemma ChosenInLeader(voters: set<NodeId>, st: State, h: History, t: Term, k: LogIndex, u: Term)
    requires InvElections(voters, h) && InvVotes(voters, st, h) && InvAcks(voters, st, h)
    requires Chosen(voters, h, t, k) && u in h.elections && t <= u
    ensures u in h.logs && k <= |h.logs[t]| && h.logs[t][..k] <= h.logs[u]
  {
    hide InvAcks, InvVotes, Majority, Sound;
    assert ElectionOk(voters, h, u);
    if t < u {
      ChosenInLaterLeaders(voters, st, h, t, k, u);
    }
  }

  /** A follower never gives up a committed entry for a leader's. */
  lemma CommitAdopted(voters: set<NodeId>, st: State, h: History, log: seq<Entry>, commit: LogIndex, term: Term,
                      u: Term, after: seq<Entry>)
    requires InvElections(voters, h) && InvVotes(voters, st, h) && InvAcks(voters, st, h)
    requires CommitOk(voters, h, log, commit, term) && term <= u && u in h.logs
    requires exists k :: AdoptedPrefix(log, h.logs[u], after, k)
    ensures CommitOk(voters, h, after, commit, u)
  {
    hide InvAcks, InvVotes, Chosen, ElectionOk;
    if commit > 0 {
      var t: Term, k: LogIndex :| t <= term && CommitBy(voters, h, log, commit, t, k);
      var m :| AdoptedPrefix(log, h.logs[u], after, m);
      ChosenBounds(voters, h, t, k);
      ChosenInLeader(voters, st, h, t, k, u);
      var p := log[..commit];
      assert p == h.logs[t][..k][..commit];
      AdoptedKeeps(p, log, h.logs[u], after, m);
      assert CommitBy(voters, h, after, commit, t, k);
    }
  }

  lemma StepExtends(x: Move)
    requires Moves(x)
    ensures Extends(x.h, x.History'())
  {
    hide Moves, Grows;
    StepBasics(x);
    LogsGrowKept(x);
  }

  ghost predicate CommitMove(x: Move) {
    TrueMove(x) && InvCommits(x.voters, x.st, x.h)
  }

  /** A commit index that stays put stays justified, whatever happens to the log. */
  lemma CommitKept(x: Move)
    requires CommitMove(x) && x.after.commit == x.Before().commit
    ensures CommitOk(x.voters, x.History'(), x.after.log, x.after.commit, x.after.term)
  {
    hide InvAcks, InvCounts, LocalStep, Extends, CommitOk, VoteRule, CampaignRule, LeadRule;
    var s, s' := x.Before(), x.after;
    StepBasics(x);
    StepExtends(x);
    if s.log <= s'.log {
      CommitGrows(x.voters, x.h, x.History'(), s.log, s'.log, s.commit, s.term, s'.term);
    } else {
      AcceptOutcome(x.voters, x.st, x.h, x.n, x.e, s');
      CommitAdopted(x.voters, x.st, x.h, s.log, s.commit, s.term, s'.term, s'.log);
      CommitGrows(x.voters, x.h, x.History'(), s'.log, s'.log, s.commit, s'.term, s'.term);
    }
  }

  /** A leader commits what a quorum acknowledged, in its own term. */
  lemma OwnChosen(x: Move)
    requires TrueMove(x) && LeaderCommits(x.voters, x.Before(), x.after)
    ensures CommitBy(x.voters, x.History'(), x.after.log, x.after.commit, x.after.term, x.after.commit)
  {
    hide InvAcks, LocalStep, Moves;
    StepBasics(x);
    StepCounts(x);
    var h', s' := x.History'(), x.after;
    assert CountOk(x.State'().nodes[x.n], h');
    var counted := set id | id in x.voters && MatchedOf(s'.role, id) >= s'.commit;
    var ackers := Ackers(x.voters, h', s'.term, s'.commit);
    forall id | id in counted ensures id in ackers {
      assert MatchedOf(s'.role, id) <= h'.Acked(id, s'.term);
    }
    assert x.voters * counted <= x.voters * ackers;
    SubsetSize(x.voters * counted, x.voters * ackers);
  }

  lemma CommitByLeader(x: Move)
    requires TrueMove(x) && LeaderCommits(x.voters, x.Before(), x.after)
    ensures CommitOk(x.voters, x.History'(), x.after.log, x.after.commit, x.after.term)
  {
    hide Moves, LocalStep, InvAcks, InvCounts, CommitBy, CommitOk, LeaderCommits;
    StepBasics(x);
    OwnChosen(x);
    CommitIntro(x.voters, x.History'(), x.after.log, x.after.commit, x.after.term, x.after.commit);
  }

  lemma CommitIntro(voters: set<NodeId>, h: History, log: seq<Entry>, commit: LogIndex, t: Term, k: LogIndex)
    requires CommitBy(voters, h, log, commit, t, k)
    ensures CommitOk(voters, h, log, commit, t)
  {
  }

  /** A follower's commit index follows its leader's, within a log that is a prefix of the leader's. */
  lemma CommitFollows(x: Move)
    requires CommitMove(x) && Accepts(x.Before(), x.e, x.after) && Acks(x.sent)
    requires x.after.commit == Min(x.e.m.body.leaderCommit, |x.after.log|)
    ensures CommitOk(x.voters, x.History'(), x.after.log, x.after.commit, x.after.term)
  {
    hide InvAcks, InvCounts, LocalStep, Extends, CommitOk, ElectStep, Inv, Absorbs;
    StepBasics(x);
    StepExtends(x);
    var h', s', m := x.History'(), x.after, x.e.m;
    assert RequestCommitOk(x.voters, x.h, m);
    LeaderPrefix(x.h, h', m.term);
    CommitGrows(x.voters, x.h, h', x.h.logs[m.term], h'.logs[m.term], m.body.leaderCommit, m.term, m.term);
    CommitTrim(x.voters, h', h'.logs[m.term], m.body.leaderCommit, m.term, s'.log, s'.commit);
  }

  lemma LeaderPrefix(h: History, h': History, t: Term)
    requires Extends(h, h') && t in h.logs
    ensures t in h'.logs && h.logs[t] <= h'.logs[t]
  {
  }

  lemma OwnCommit(x: Move)
    requires CommitMove(x)
    ensures CommitOk(x.voters, x.History'(), x.after.log, x.after.commit, x.after.term)
  {
    hide InvAcks, InvCounts, InvCommits, Moves, ElectStep, MatchRule, FreshRule, ReadRule, SendRule, Accepts,
         LeaderCommits;
    StepBasics(x);
    if x.after.commit == x.Before().commit {
      CommitKept(x);
    } else if LeaderCommits(x.voters, x.Before(), x.after) {
      CommitByLeader(x);
    } else if x.after.commit > 0 {
      CommitFollows(x);
    }
  }

  lemma RequestCommits(x: Move, m: Message)
    requires CommitMove(x) && m in x.State'().net
    ensures RequestCommitOk(x.voters, x.History'(), m)
  {
    hide InvAcks, InvCounts, Moves, ElectStep, MatchRule, FreshRule, ReadRule, CommitRule, Extends, CommitOk;
    StepBasics(x);
    StepExtends(x);
    if m.body.AppendRequest? {
      if m in x.st.net {
        assert RequestCommitOk(x.voters, x.h, m);
        LeaderPrefix(x.h, x.History'(), m.term);
        CommitGrows(x.voters, x.h, x.History'(), x.h.logs[m.term], x.History'().logs[m.term],
                    m.body.leaderCommit, m.term, m.term);
      } else {
        OwnCommit(x);
        assert SendRule(x.n, x.Before(), x.e, x.after, m);
      }
    }
  }

  lemma StepCommits(x: Move)
    requires CommitMove(x)
    ensures InvCommits(x.voters, x.State'(), x.History'())
  {
    hide InvAcks, InvCounts, Moves, LocalStep, Extends, CommitOk;
    StepBasics(x);
    StepExtends(x);
    OwnCommit(x);
    forall v | v in x.voters && v in x.st.nodes && v != x.n
      ensures CommitOk(x.voters, x.History'(), x.st.nodes[v].log, x.st.nodes[v].commit, x.st.nodes[v].term)
    {
      var s := x.st.nodes[v];
      CommitGrows(x.voters, x.h, x.History'(), s.log, s.log, s.commit, s.term, s.term);
    }
    forall m | m in x.State'().net ensures RequestCommitOk(x.voters, x.History'(), m) {
      RequestCommits(x, m);
    }
  }

  // --- The theorems on states ---

  ghost predicate TrueInv(voters: set<NodeId>, st: State, h: History) {
    Inv(voters, st, h) && InvAcks(voters, st, h) && InvCounts(voters, st, h) && InvCommits(voters, st, h)
  }

  lemma TruthfulStepKeepsInv(x: Move)
    requires TrueInv(x.voters, x.st, x.h) && x.Enabled() && Truthful(x)
    requires LocalStep(x.voters, x.n, x.Before(), x.e, x.after, x.sent)
    ensures TrueInv(x.voters, x.State'(), x.History'())
  {
    hide Inv, InvAcks, InvCounts, InvCommits, ElectStep, MatchRule, FreshRule, ReadRule, CommitRule, SendRule;
    StepKeepsInv(x);
    StepAcks(x);
    StepCounts(x);
    StepCommits(x);
  }

  lemma InvParts(voters: set<NodeId>, st: State, h: History)
    requires Inv(voters, st, h)
    ensures InvElections(voters, h) && InvVotes(voters, st, h)
  {
  }

  lemma CommitInLeader(voters: set<NodeId>, st: State, h: History, log: seq<Entry>, commit: LogIndex, term: Term,
                       u: Term)
    requires InvElections(voters, h) && InvVotes(voters, st, h) && InvAcks(voters, st, h)
    requires CommitOk(voters, h, log, commit, term) && u in h.elections && term <= u
    ensures u in h.logs && commit <= |log| && log[..commit] <= h.logs[u]
  {
    hide InvVotes, InvAcks, Chosen, ElectionOk;
    if commit > 0 {
      var t: Term, k: LogIndex :| t <= term && CommitBy(voters, h, log, commit, t, k);
      ChosenBounds(voters, h, t, k);
      ChosenInLeader(voters, st, h, t, k, u);
      assert log[..commit] == h.logs[t][..k][..commit];
    }
  }

  lemma CommitKnown(voters: set<NodeId>, st: State, h: History, n: NodeId)
    requires InvCommits(voters, st, h) && n in voters && n in st.nodes
    ensures CommitOk(voters, h, st.nodes[n].log, st.nodes[n].commit, st.nodes[n].term)
  {
  }

  /** What a node has committed is in the log of every leader of a later term, then and afterwards. */
  lemma CommittedInLaterLeaders(voters: set<NodeId>, st: State, h: History, st': State, h': History, n: NodeId, u: Term)
    requires TrueInv(voters, st, h) && TrueInv(voters, st', h') && Extends(h, h')
    requires n in voters && n in st.nodes && u in h'.elections && u > st.nodes[n].term
    ensures u in h'.logs && st.nodes[n].commit <= |st.nodes[n].log|
    ensures st.nodes[n].log[..st.nodes[n].commit] <= h'.logs[u]
  {
    hide Inv, InvAcks, InvCounts, InvCommits, Extends, CommitOk;
    var s := st.nodes[n];
    InvParts(voters, st', h');
    CommitKnown(voters, st, h, n);
    CommitGrows(voters, h, h', s.log, s.log, s.commit, s.term, s.term);
    CommitInLeader(voters, st', h', s.log, s.commit, s.term, u);
  }

  lemma CommitsAgree(voters: set<NodeId>, st: State, h: History, a: Peer, b: Peer, i: nat)
    requires InvElections(voters, h) && InvVotes(voters, st, h) && InvAcks(voters, st, h)
    requires CommitOk(voters, h, a.log, a.commit, a.term) && CommitOk(voters, h, b.log, b.commit, b.term)
    requires i < a.commit && i < b.commit
    ensures i < |a.log| && i < |b.log| && a.log[i] == b.log[i]
  {
    hide InvVotes, InvAcks, InvElections, Chosen;
    var t: Term, k: LogIndex :| t <= a.term && CommitBy(voters, h, a.log, a.commit, t, k);
    var u: Term, l: LogIndex :| u <= b.term && CommitBy(voters, h, b.log, b.commit, u, l);
    if t <= u {
      ChosenAgree(voters, st, h, t, k, u, l, i);
    } else {
      ChosenAgree(voters, st, h, u, l, t, k, i);
    }
    assert a.log[i] == a.log[..a.commit][i] && b.log[i] == b.log[..b.commit][i];
  }

  lemma ChosenAgree(voters: set<NodeId>, st: State, h: History, t: Term, k: LogIndex, u: Term, l: LogIndex, i: nat)
    requires InvElections(voters, h) && InvVotes(voters, st, h) && InvAcks(voters, st, h)
    requires Chosen(voters, h, t, k) && Chosen(voters, h, u, l) && t <= u && i < k && i < l
    ensures t in h.logs && u in h.logs && k <= |h.logs[t]| && l <= |h.logs[u]| && h.logs[t][i] == h.logs[u][i]
  {
    hide InvVotes, InvAcks, ElectionOk, Majority;
    ChosenInLeader(voters, st, h, t, k, u);
    assert h.logs[t][..k][i] == h.logs[u][i];
  }

  /** Two nodes never commit different entries at one index, at whatever moments. */
  lemma CommittedAgree(voters: set<NodeId>, st: State, h: History, st': State, h': History, n: NodeId, p: NodeId,
                       i: nat)
    requires TrueInv(voters, st, h) && TrueInv(voters, st', h') && Extends(h, h')
    requires n in voters && n in st.nodes && p in voters && p in st'.nodes
    requires i < st.nodes[n].commit && i < st'.nodes[p].commit
    ensures i < |st.nodes[n].log| && i < |st'.nodes[p].log| && st.nodes[n].log[i] == st'.nodes[p].log[i]
  {
    hide Inv, InvAcks, InvCounts, InvCommits, Extends, CommitOk;
    var s := st.nodes[n];
    InvParts(voters, st', h');
    CommitKnown(voters, st, h, n);
    CommitKnown(voters, st', h', p);
    CommitGrows(voters, h, h', s.log, s.log, s.commit, s.term, s.term);
    CommitsAgree(voters, st', h', s, st'.nodes[p], i);
  }
}
