/**
 Linearizable reads on truthful runs: a confirmed read index covers everything any node had committed
 when the read was requested.
 */
module Linearizable {
  import opened Types
  import opened Membership
  import opened RaftLog
  import opened Messages
  import opened Protocol
  import opened Safety
  import opened Completeness
  import opened Reads

  // --- Commit indices and the leader that caused them ---

  /** Whoever leads term `t` has committed at least `c`. */
  ghost predicate Within(st: State, t: Term, c: LogIndex) {
    forall q :: q in st.nodes && st.nodes[q].role.Leading? && st.nodes[q].term == t ==> c <= st.nodes[q].commit
  }

  /** A commit index with its cause: chosen in some term, and known to that term's leader while it leads. */
  ghost predicate Caused(voters: set<NodeId>, st: State, h: History, log: seq<Entry>, c: LogIndex, term: Term) {
    c == 0 || exists t: Term, k: LogIndex :: t <= term && CommitBy(voters, h, log, c, t, k) && Within(st, t, c)
  }

  ghost predicate RequestCaused(voters: set<NodeId>, st: State, h: History, m: Message) {
    m.body.AppendRequest? ==> m.term in h.logs && Caused(voters, st, h, h.logs[m.term], m.body.leaderCommit, m.term)
  }

  ghost predicate InvCauses(voters: set<NodeId>, st: State, h: History) {
    && (forall n :: n in voters && n in st.nodes ==>
          Caused(voters, st, h, st.nodes[n].log, st.nodes[n].commit, st.nodes[n].term))
    && (forall m :: m in st.net ==> RequestCaused(voters, st, h, m))
  }

  ghost predicate CauseMove(x: Move) {
    CommitMove(x) && InvCauses(x.voters, x.st, x.h)
  }

  // --- Every truthful step keeps it ---

  /** A reigning leader's commit index only grows. */
  lemma ReignCommit(x: Move)
    requires x.n in x.st.nodes && LocalStep(x.voters, x.n, x.Before(), x.e, x.after, x.sent)
    requires SameReign(x.Before(), x.after)
    ensures x.Before().commit <= x.after.commit
  {
    hide ElectStep, FreshRule, MatchRule, ReadRule, SendRule, Absorbs, Consistent;
  }

  /** What the leader of a term already won has committed, it and no other leader of that term still has. */
  lemma WithinStays(x: Move, t: Term, c: LogIndex)
    requires TrueMove(x) && Within(x.st, t, c) && t in x.h.logs
    ensures Within(x.State'(), t, c)
  {
    hide InvAcks, InvCounts, LocalStep, InvNodes, InvVotes, InvNet, InvRoles, VoteRule, LogRule, CampaignRule;
    if x.after.role.Leading? && x.after.term == t {
      if Wins(x.voters, x.n, x.Before(), x.e, x.after) {
        ElectionFresh(x);
      } else {
        ReignCommit(x);
      }
    }
  }

  lemma ByGrows(voters: set<NodeId>, h: History, h': History, log: seq<Entry>, log': seq<Entry>, c: LogIndex,
                t: Term, k: LogIndex)
    requires CommitBy(voters, h, log, c, t, k) && Extends(h, h') && log <= log'
    ensures t in h.logs && CommitBy(voters, h', log', c, t, k)
  {
    hide Extends, Chosen;
    ChosenGrows(voters, h, h', t, k);
    ChosenBounds(voters, h, t, k);
    ChosenBounds(voters, h', t, k);
    assert h'.logs[t][..c] == h'.logs[t][..k][..c];
    assert h.logs[t][..c] == h.logs[t][..k][..c];
    assert log'[..c] == log[..c];
  }

  lemma CausedGrows(x: Move, log: seq<Entry>, log': seq<Entry>, c: LogIndex, term: Term, term': Term)
    requires TrueMove(x) && Caused(x.voters, x.st, x.h, log, c, term) && log <= log' && term <= term'
    ensures Caused(x.voters, x.State'(), x.History'(), log', c, term')
  {
    hide InvAcks, InvCounts, LocalStep, Moves, Extends, CommitBy, Within;
    StepBasics(x);
    StepExtends(x);
    if c > 0 {
      var t: Term, k: LogIndex :| t <= term && CommitBy(x.voters, x.h, log, c, t, k) && Within(x.st, t, c);
      ByGrows(x.voters, x.h, x.History'(), log, log', c, t, k);
      WithinStays(x, t, c);
    }
  }

  /** A prefix that reaches as far has the same cause. */
  lemma CausedIn(voters: set<NodeId>, st: State, h: History, log: seq<Entry>, log': seq<Entry>, c: LogIndex,
                 c': LogIndex, term: Term)
    requires Caused(voters, st, h, log, c, term) && c' <= c <= |log| && c' <= |log'| && log[..c'] == log'[..c']
    ensures Caused(voters, st, h, log', c', term)
  {
    hide Chosen;
    if c' > 0 {
      var t: Term, k: LogIndex :| t <= term && CommitBy(voters, h, log, c, t, k) && Within(st, t, c);
      ChosenBounds(voters, h, t, k);
      assert log[..c][..c'] == log[..c'] && h.logs[t][..c][..c'] == h.logs[t][..c'];
      assert CommitBy(voters, h, log', c', t, k);
    }
  }

  lemma CausedKept(x: Move)
    requires CauseMove(x) && x.after.commit == x.Before().commit
    ensures Caused(x.voters, x.State'(), x.History'(), x.after.log, x.after.commit, x.after.term)
  {
    hide InvAcks, InvCounts, LocalStep, CommitOk, Caused, VoteRule, CampaignRule, LeadRule, RequestCaused;
    var s, s' := x.Before(), x.after;
    StepBasics(x);
    CommitKnown(x.voters, x.st, x.h, x.n);
    if s.log <= s'.log {
      CausedGrows(x, s.log, s'.log, s.commit, s.term, s'.term);
    } else {
      AcceptOutcome(x.voters, x.st, x.h, x.n, x.e, s');
      KeptPrefix(x.voters, x.st, x.h, s, s');
      CausedIn(x.voters, x.st, x.h, s.log, s'.log, s.commit, s.commit, s.term);
      CausedGrows(x, s'.log, s'.log, s.commit, s.term, s'.term);
    }
  }

  /** Adopting a leader's log keeps the committed prefix. */
  lemma KeptPrefix(voters: set<NodeId>, st: State, h: History, s: Peer, s': Peer)
    requires InvElections(voters, h) && InvVotes(voters, st, h) && InvAcks(voters, st, h)
    requires CommitOk(voters, h, s.log, s.commit, s.term) && s.term <= s'.term && s'.term in h.logs
    requires exists k :: AdoptedPrefix(s.log, h.logs[s'.term], s'.log, k)
    ensures s.commit <= |s.log| && s.commit <= |s'.log| && s.log[..s.commit] == s'.log[..s.commit]
  {
    hide InvVotes, InvAcks, CommitOk, ElectionOk;
    CommitInLeader(voters, st, h, s.log, s.commit, s.term, s'.term);
    var k :| AdoptedPrefix(s.log, h.logs[s'.term], s'.log, k);
    AdoptedKeeps(s.log[..s.commit], s.log, h.logs[s'.term], s'.log, k);
  }

  lemma CausedByLeader(x: Move)
    requires CauseMove(x) && LeaderCommits(x.voters, x.Before(), x.after)
    ensures Caused(x.voters, x.State'(), x.History'(), x.after.log, x.after.commit, x.after.term)
  {
    hide InvAcks, InvCounts, LocalStep, InvCauses, InvCommits, Moves, CommitBy, Within;
    StepBasics(x);
    OwnChosen(x);
    OnlyLeader(x);
  }

  /** One node leads a term. */
  lemma OnlyLeader(x: Move)
    requires Moves(x) && x.after.role.Leading?
    ensures Within(x.State'(), x.after.term, x.after.commit)
  {
    hide InvVotes, InvNet, InvRoles, InvElections, ElectStep, Sound;
    StepRolesKnown(x);
    forall q | q in x.State'().nodes && x.State'().nodes[q].role.Leading? && x.State'().nodes[q].term == x.after.term
      ensures q == x.n
    {
      LeadKnownOf(x.voters, x.State'(), x.History'(), q);
      LeadKnownOf(x.voters, x.State'(), x.History'(), x.n);
    }
  }

  lemma StepRolesKnown(x: Move)
    requires Moves(x)
    ensures InvRoles(x.voters, x.State'(), x.History'())
  {
    hide Moves;
    StepRoles(x);
  }

  lemma LeadKnownOf(voters: set<NodeId>, st: State, h: History, q: NodeId)
    requires InvRoles(voters, st, h) && q in voters && q in st.nodes
    ensures LeadOk(q, st.nodes[q], h)
  {
  }

  lemma CausedFollows(x: Move)
    requires CauseMove(x) && Accepts(x.Before(), x.e, x.after) && Acks(x.sent)
    requires x.after.commit == Min(x.e.m.body.leaderCommit, |x.after.log|)
    ensures Caused(x.voters, x.State'(), x.History'(), x.after.log, x.after.commit, x.after.term)
  {
    hide InvAcks, InvCounts, LocalStep, Extends, Caused, ElectStep, Inv, Absorbs, CommitOk, InvCommits;
    StepBasics(x);
    StepExtends(x);
    var h', s', m := x.History'(), x.after, x.e.m;
    assert RequestCaused(x.voters, x.st, x.h, m);
    LeaderPrefix(x.h, h', m.term);
    CausedGrows(x, x.h.logs[m.term], h'.logs[m.term], m.body.leaderCommit, m.term, m.term);
    CausedBound(x.voters, x.State'(), h', h'.logs[m.term], m.body.leaderCommit, m.term);
    CausedIn(x.voters, x.State'(), h', h'.logs[m.term], s'.log, m.body.leaderCommit, s'.commit, m.term);
  }

  lemma CausedBound(voters: set<NodeId>, st: State, h: History, log: seq<Entry>, c: LogIndex, term: Term)
    requires Caused(voters, st, h, log, c, term)
    ensures c <= |log|
  {
  }

  lemma OwnCaused(x: Move)
    requires CauseMove(x)
    ensures Caused(x.voters, x.State'(), x.History'(), x.after.log, x.after.commit, x.after.term)
  {
    hide InvAcks, InvCounts, InvCommits, InvCauses, Moves, ElectStep, MatchRule, FreshRule, ReadRule, SendRule,
         Accepts, LeaderCommits,
         CommitBy, Within;
    StepBasics(x);
    if x.after.commit == x.Before().commit {
      CausedKept(x);
    } else if LeaderCommits(x.voters, x.Before(), x.after) {
      CausedByLeader(x);
    } else if x.after.commit > 0 {
      CausedFollows(x);
    }
  }

  lemma RequestStaysCaused(x: Move, m: Message)
    requires CauseMove(x) && m in x.State'().net
    ensures RequestCaused(x.voters, x.State'(), x.History'(), m)
  {
    hide InvAcks, InvCounts, InvCommits, Moves, ElectStep, MatchRule, FreshRule, ReadRule, CommitRule, Extends, Caused;
    StepBasics(x);
    StepExtends(x);
    if m.body.AppendRequest? {
      if m in x.st.net {
        assert RequestCaused(x.voters, x.st, x.h, m);
        LeaderPrefix(x.h, x.History'(), m.term);
        CausedGrows(x, x.h.logs[m.term], x.History'().logs[m.term], m.body.leaderCommit, m.term, m.term);
      } else {
        OwnCaused(x);
        assert SendRule(x.n, x.Before(), x.e, x.after, m);
      }
    }
  }

  lemma StepCauses(x: Move)
    requires CauseMove(x)
    ensures InvCauses(x.voters, x.State'(), x.History'())
  {
    hide InvAcks, InvCounts, InvCommits, Moves, LocalStep, Caused;
    StepBasics(x);
    OwnCaused(x);
    forall v | v in x.voters && v in x.st.nodes && v != x.n
      ensures Caused(x.voters, x.State'(), x.History'(), x.st.nodes[v].log, x.st.nodes[v].commit, x.st.nodes[v].term)
    {
      var s := x.st.nodes[v];
      CausedGrows(x, s.log, s.log, s.commit, s.term, s.term);
    }
    forall m | m in x.State'().net ensures RequestCaused(x.voters, x.State'(), x.History'(), m) {
      RequestStaysCaused(x, m);
    }
  }

  // --- A leader with an own-term commit, and no later winner, has committed as far as anyone ---

  /** Entries chosen in earlier terms lie below every entry of the leader's own term. */
  lemma EarlierChosenBelow(voters: set<NodeId>, st: State, h: History, t: Term, k: LogIndex, u: Term, j: nat)
    requires InvElections(voters, h) && InvVotes(voters, st, h) && InvAcks(voters, st, h)
    requires Chosen(voters, h, t, k) && u in h.elections && t < u && u in h.logs && j < |h.logs[u]|
    requires h.logs[u][j].term == u
    ensures k <= j
  {
    hide InvAcks, InvVotes, Majority, Sound;
    ChosenInLaterLeaders(voters, st, h, t, k, u);
    assert ElectionOk(voters, h, u);
  }

  lemma CoversOne(voters: set<NodeId>, st: State, h: History, n: NodeId, p: NodeId)
    requires TrueInv(voters, st, h) && InvCauses(voters, st, h) && n in voters && p in voters
    requires n in st.nodes && p in st.nodes && st.nodes[n].role.Leading? && OwnTermCommitted(st.nodes[n])
    requires forall u :: u in h.elections ==> u <= st.nodes[n].term
    ensures st.nodes[p].commit <= st.nodes[n].commit
  {
    hide InvAcks, InvCounts, InvCommits, InvNodes, InvVotes, InvNet, Chosen, ElectionOk, RequestCaused;
    var s, c := st.nodes[n], st.nodes[p].commit;
    if c > 0 {
      var t: Term, k: LogIndex :|
        t <= st.nodes[p].term && CommitBy(voters, h, st.nodes[p].log, c, t, k) && Within(st, t, c);
      ElectedIfChosen(voters, h, t, k);
      assert LeadOk(n, s, h);
      if t < s.term {
        var j :| 0 <= j < |s.log| && j < s.commit && s.log[j].term == s.term;
        EarlierChosenBelow(voters, st, h, t, k, s.term, j);
      }
    }
  }

  lemma ElectedIfChosen(voters: set<NodeId>, h: History, t: Term, k: LogIndex)
    requires Chosen(voters, h, t, k) && InvElections(voters, h)
    ensures t in h.elections
  {
  }
}
