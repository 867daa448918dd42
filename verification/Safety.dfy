/**
 Election safety and log matching: the invariant every run keeps, with message loss,
 duplication, reordering and restarts.
 */
module Safety {
  import opened Types
  import opened Membership
  import opened RaftLog
  import opened Messages
  import opened FollowerRole
  import opened Protocol

  // --- Log shapes ---

  /** Terms start at 1, never fall, and stay within `bound`; every entry is a command. */
  ghost predicate Ordered(log: seq<Entry>, bound: Term) {
    && (forall i :: 0 <= i < |log| ==> 1 <= log[i].term <= bound && log[i].payload.Command?)
    && (forall i, j :: 0 <= i <= j < |log| ==> log[i].term <= log[j].term)
  }

  /** Each entry was created by its term's leader, on top of exactly the entries before it. */
  ghost predicate Chain(log: seq<Entry>, logs: map<Term, seq<Entry>>) {
    forall i :: 0 <= i < |log| ==> Linked(log, logs, i)
  }

  ghost predicate Linked(log: seq<Entry>, logs: map<Term, seq<Entry>>, i: nat)
    requires i < |log|
  {
    log[i].term in logs && log[..i + 1] <= logs[log[i].term]
  }

  ghost predicate Sound(log: seq<Entry>, bound: Term, logs: map<Term, seq<Entry>>) {
    Numbered(log) && Ordered(log, bound) && Chain(log, logs)
  }

  lemma ChainsMatch(a: seq<Entry>, b: seq<Entry>, logs: map<Term, seq<Entry>>)
    requires Chain(a, logs) && Chain(b, logs)
    ensures Matching(a, b)
  {
    forall i | 0 <= i < |a| && TermsAgree(a, b, i) ensures a[..i + 1] == b[..i + 1] {
      assert Linked(a, logs, i) && Linked(b, logs, i);
    }
  }

  /** Leader logs only grow, and new terms only add keys: chains survive both. */
  ghost predicate Grows(logs: map<Term, seq<Entry>>, logs': map<Term, seq<Entry>>) {
    forall t :: t in logs ==> t in logs' && logs[t] <= logs'[t]
  }

  lemma ChainGrows(log: seq<Entry>, logs: map<Term, seq<Entry>>, logs': map<Term, seq<Entry>>)
    requires Chain(log, logs) && Grows(logs, logs')
    ensures Chain(log, logs')
  {
    forall i | 0 <= i < |log| ensures Linked(log, logs', i) {
      assert Linked(log, logs, i);
    }
  }

  lemma SoundPrefix(log: seq<Entry>, k: nat, bound: Term, logs: map<Term, seq<Entry>>)
    requires Sound(log, bound, logs) && k <= |log|
    ensures Sound(log[..k], bound, logs)
  {
    forall i | 0 <= i < k ensures Linked(log[..k], logs, i) {
      assert Linked(log, logs, i);
      assert log[..k][..i + 1] == log[..i + 1];
    }
  }

  /** A passed consistency check means the logs agree up to there. */
  lemma ConsistentMeansPrefix(log: seq<Entry>, lead: seq<Entry>, prev: nat)
    requires Matching(log, lead) && prev <= |lead|
    requires forall i :: 0 <= i < |lead| ==> lead[i].term >= 1
    requires Consistent(log, prev, FullTermAt(lead, prev))
    ensures lead[..prev] <= log
  {
    if prev > 0 {
      assert TermsAgree(log, lead, prev - 1);
    }
  }

  // --- The invariant ---

  ghost predicate InvNodes(voters: set<NodeId>, st: State, h: History) {
    && st.nodes.Keys == voters
    && forall n :: n in voters ==>
         && Sound(st.nodes[n].log, st.nodes[n].term, h.logs)
         && (!st.nodes[n].role.Passive? ==> st.nodes[n].vote == Some(n))
  }

  /** The recorded vote of a node's current term is the vote it holds, and vice versa. */
  ghost predicate VoteTruthful(n: NodeId, s: Peer, h: History) {
    && (s.vote.Some? ==> (n, s.term) in h.votes && h.votes[(n, s.term)].candidate == s.vote.value)
    && ((n, s.term) in h.votes ==> s.vote.Some?)
  }

  ghost predicate SelfSupported(h: History, c: NodeId, t: Term) {
    (c, t) in h.votes && h.votes[(c, t)].candidate == c
  }

  ghost predicate VoteOk(voters: set<NodeId>, st: State, h: History, n: NodeId, t: Term)
    requires (n, t) in h.votes
  {
    var c := h.votes[(n, t)].candidate;
    && n in voters && n in st.nodes && 1 <= t <= st.nodes[n].term
    && Sound(h.votes[(n, t)].log, t, h.logs)
    && SelfSupported(h, c, t)
    && AtLeast(LastTermOf(h.votes[(c, t)].log), |h.votes[(c, t)].log|, h.votes[(n, t)].log)
  }

  ghost predicate InvVotes(voters: set<NodeId>, st: State, h: History) {
    && (forall n :: n in voters && n in st.nodes ==> VoteTruthful(n, st.nodes[n], h))
    && (forall n, t :: (n, t) in h.votes ==> VoteOk(voters, st, h, n, t))
  }

  ghost predicate MessageOk(h: History, m: Message) {
    && m.from != m.to
    && match m.body
       case VoteRequest(lastIndex, lastTerm) =>
         && SelfSupported(h, m.from, m.term)
         && lastIndex == |h.votes[(m.from, m.term)].log| && lastTerm == LastTermOf(h.votes[(m.from, m.term)].log)
       case VoteResponse(granted) =>
         granted ==> (m.from, m.term) in h.votes && h.votes[(m.from, m.term)].candidate == m.to
       case AppendRequest(prev, prevTerm, entries, _) =>
         && m.term in h.logs && m.term in h.elections && h.elections[m.term].leader == m.from
         && SliceOf(h.logs[m.term], prev, prevTerm, entries)
       case InstallSnapshotRequest(_, _, _) => false
       case InstallSnapshotResponse(_, _) => false
       case _ => true
  }

  ghost predicate InvNet(st: State, h: History) {
    forall m :: m in st.net ==> MessageOk(h, m)
  }

  ghost predicate CampaignOk(n: NodeId, s: Peer, h: History) {
    s.role.Campaigning? ==>
      && SelfSupported(h, n, s.term) && h.votes[(n, s.term)].log == s.log
      && (forall v :: v in s.role.votes ==> (v, s.term) in h.votes && h.votes[(v, s.term)].candidate == n)
      && !(s.term in h.elections && h.elections[s.term].leader == n)
  }

  ghost predicate LeadOk(n: NodeId, s: Peer, h: History) {
    s.role.Leading? ==>
      && s.term in h.elections && h.elections[s.term].leader == n
      && s.term in h.logs && h.logs[s.term] == s.log
  }

  ghost predicate InvRoles(voters: set<NodeId>, st: State, h: History) {
    forall n :: n in voters && n in st.nodes ==> CampaignOk(n, st.nodes[n], h) && LeadOk(n, st.nodes[n], h)
  }

  ghost predicate ElectionOk(voters: set<NodeId>, h: History, t: Term)
    requires t in h.elections && t in h.logs
  {
    var won := h.elections[t];
    && Majority(won.quorum, voters) && won.leader in voters
    && (forall v :: v in won.quorum ==> (v, t) in h.votes && h.votes[(v, t)].candidate == won.leader)
    && SelfSupported(h, won.leader, t) && h.votes[(won.leader, t)].log == won.log
    && won.log <= h.logs[t] && Sound(h.logs[t], t, h.logs)
    && (forall i :: 0 <= i < |won.log| ==> won.log[i].term < t)
    && (forall i :: |won.log| <= i < |h.logs[t]| ==> h.logs[t][i].term == t)
  }

  ghost predicate InvElections(voters: set<NodeId>, h: History) {
    && h.logs.Keys == h.elections.Keys
    && forall t :: t in h.elections ==> ElectionOk(voters, h, t)
  }

  ghost predicate Inv(voters: set<NodeId>, st: State, h: History) {
    && InvNodes(voters, st, h)
    && InvVotes(voters, st, h)
    && InvNet(st, h)
    && InvRoles(voters, st, h)
    && InvElections(voters, h)
  }

  /** A step under the election rules, from a state that satisfies the invariant. */
  ghost predicate Moves(x: Move) {
    && Inv(x.voters, x.st, x.h) && x.Enabled()
    && ElectStep(x.voters, x.n, x.Before(), x.e, x.after)
  }

  // --- Elections ---

  /** Whoever has a quorum of votes in a term that was already won is the winner. */
  lemma OneWinner(voters: set<NodeId>, h: History, n: NodeId, t: Term, quorum: set<NodeId>)
    requires InvElections(voters, h) && t in h.elections && Majority(quorum, voters)
    requires forall v :: v in quorum ==> (v, t) in h.votes && h.votes[(v, t)].candidate == n
    ensures h.elections[t].leader == n
  {
    assert ElectionOk(voters, h, t);
    MajoritiesMeet(quorum, h.elections[t].quorum, voters);
  }

  /** A node that forms a quorum alone has voted in every term that was won. */
  lemma LoneVoterVoted(voters: set<NodeId>, st: State, h: History, n: NodeId, t: Term)
    requires InvElections(voters, h) && InvVotes(voters, st, h) && t in h.elections && Majority({n}, voters)
    ensures n in st.nodes && t <= st.nodes[n].term
  {
    assert ElectionOk(voters, h, t);
    MajoritiesMeet({n}, h.elections[t].quorum, voters);
    assert VoteOk(voters, st, h, n, t);
  }

  /** Every vote a campaigner has counted, and the one it is receiving, was cast for it. */
  lemma CountedVotesReal(st: State, h: History, n: NodeId, s: Peer, e: Input)
    requires InvNet(st, h) && CampaignOk(n, s, h) && GotVote(n, s, e) && e.m in st.net
    ensures forall v :: v in s.role.votes + {e.m.from} ==>
      (v, s.term) in h.votes && h.votes[(v, s.term)].candidate == n
  {
    assert MessageOk(h, e.m);
  }

  /** A node that wins a term is the first to: its voters meet any earlier winner's voters. */
  lemma ElectionFresh(x: Move)
    requires Moves(x) && Wins(x.voters, x.n, x.Before(), x.e, x.after)
    ensures x.after.term !in x.h.elections
  {
    var s := x.Before();
    if x.after.term in x.h.elections {
      if x.after.term > s.term {
        LoneVoterVoted(x.voters, x.st, x.h, x.n, x.after.term);
      } else {
        CountedVotesReal(x.st, x.h, x.n, s, x.e);
        OneWinner(x.voters, x.h, x.n, x.after.term, s.role.votes + {x.e.m.from});
      }
    }
  }

  // --- Logs ---

  lemma LogsGrow(x: Move)
    requires Moves(x)
    ensures Grows(x.h.logs, x.History'().logs)
  {
    if x.after.role.Leading? {
      if Wins(x.voters, x.n, x.Before(), x.e, x.after) {
        ElectionFresh(x);
      } else {
        assert LeadOk(x.n, x.Before(), x.h);
      }
    }
  }

  /** `after` is the first `k` entries of `lead`, which `log` did not already hold. */
  ghost predicate AdoptedPrefix(log: seq<Entry>, lead: seq<Entry>, after: seq<Entry>, k: nat) {
    k <= |lead| && after == lead[..k] && !(lead[..k] <= log)
  }

  /** What a follower's log becomes: itself, or a prefix of the sending leader's log. */
  lemma AcceptOutcome(voters: set<NodeId>, st: State, h: History, n: NodeId, e: Input, s': Peer)
    requires InvNodes(voters, st, h) && InvNet(st, h) && InvElections(voters, h)
    requires n in voters && Accepts(st.nodes[n], e, s') && e.m in st.net
    ensures e.m.term in h.logs
    ensures s'.log == st.nodes[n].log
      || (exists k :: AdoptedPrefix(st.nodes[n].log, h.logs[e.m.term], s'.log, k))
  {
    assert MessageOk(h, e.m);
    assert ElectionOk(voters, h, e.m.term);
    if e.m.body.entries != [] {
      AcceptAdopts(st.nodes[n], h, e, s', h.logs[e.m.term]);
    }
  }

  lemma AcceptAdopts(s: Peer, h: History, e: Input, s': Peer, lead: seq<Entry>)
    requires Accepts(s, e, s') && e.m.body.entries != []
    requires Sound(lead, e.m.term, h.logs) && Chain(s.log, h.logs)
    requires SliceOf(lead, e.m.body.prevLogIndex, e.m.body.prevLogTerm, e.m.body.entries)
    ensures s'.log == s.log || AdoptedPrefix(s.log, lead, s'.log, e.m.body.prevLogIndex + |e.m.body.entries|)
  {
    ChainsMatch(s.log, lead, h.logs);
    ConsistentMeansPrefix(s.log, lead, e.m.body.prevLogIndex);
    assert CutFrom(s.log, lead, e.m.body.prevLogIndex, e.m.body.entries);
  }

  lemma ProposedSound(log: seq<Entry>, t: Term, entry: Entry, logs: map<Term, seq<Entry>>)
    requires Sound(log, t, logs) && entry.term == t >= 1 && entry.index == |log| + 1 && entry.payload.Command?
    requires t in logs && logs[t] == log + [entry]
    ensures Sound(log + [entry], t, logs)
  {
    var longer := log + [entry];
    forall i | 0 <= i < |longer| ensures Linked(longer, logs, i) {
      if i < |log| {
        assert Linked(log, logs, i);
        assert longer[..i + 1] == log[..i + 1];
      } else {
        assert longer[..i + 1] == longer;
      }
    }
  }

  lemma SoundGrows(log: seq<Entry>, t: Term, t': Term, logs: map<Term, seq<Entry>>, logs': map<Term, seq<Entry>>)
    requires Sound(log, t, logs) && t <= t' && Grows(logs, logs')
    ensures Sound(log, t', logs')
  {
    ChainGrows(log, logs, logs');
  }

  /** While a leader reigns, its log grows only by its own entries, on top of its term's log. */
  lemma ReignLog(x: Move)
    requires Moves(x) && SameReign(x.Before(), x.after) && x.after.log != x.Before().log
    ensures x.e.Submit? && x.after.log == x.Before().log + [OwnEntry(x)]
    ensures x.Before().term >= 1 && x.Before().term in x.h.elections
  {
    var s := x.Before();
    assert LeadOk(x.n, s, x.h);
    assert ElectionOk(x.voters, x.h, s.term);
    assert VoteOk(x.voters, x.st, x.h, x.n, s.term);
  }

  ghost function OwnEntry(x: Move): Entry
    requires x.n in x.st.nodes && x.e.Submit?
  {
    Entry(x.Before().term, |x.Before().log| + 1, Command(x.e.bytes))
  }

  /** The stepping node's log stays contiguous, ordered within its term, and chained. */
  lemma StepLog(x: Move)
    requires Moves(x)
    ensures Sound(x.after.log, x.after.term, x.History'().logs)
  {
    var s, s', logs' := x.Before(), x.after, x.History'().logs;
    LogsGrow(x);
    SoundGrows(s.log, s.term, s'.term, x.h.logs, logs');
    if s'.log != s.log {
      if SameReign(s, s') {
        ReignLog(x);
        ProposedSound(s.log, s.term, OwnEntry(x), logs');
      } else {
        AcceptOutcome(x.voters, x.st, x.h, x.n, x.e, s');
        AdoptedSound(x.voters, x.h, s.log, s'.log, s'.term, logs');
      }
    }
  }

  lemma AdoptedSound(voters: set<NodeId>, h: History, log: seq<Entry>, after: seq<Entry>, t: Term,
                     logs': map<Term, seq<Entry>>)
    requires InvElections(voters, h) && Grows(h.logs, logs') && t in h.logs
    requires exists k :: AdoptedPrefix(log, h.logs[t], after, k)
    ensures Sound(after, t, logs')
  {
    assert ElectionOk(voters, h, t);
    SoundGrows(h.logs[t], t, t, h.logs, logs');
    var k :| AdoptedPrefix(log, h.logs[t], after, k);
    SoundPrefix(h.logs[t], k, t, logs');
  }

  lemma StepNodes(x: Move)
    requires Moves(x)
    ensures InvNodes(x.voters, x.State'(), x.History'())
  {
    LogsGrow(x);
    StepLog(x);
    forall v | v in x.voters && v != x.n ensures Sound(x.st.nodes[v].log, x.st.nodes[v].term, x.History'().logs) {
      SoundGrows(x.st.nodes[v].log, x.st.nodes[v].term, x.st.nodes[v].term, x.h.logs, x.History'().logs);
    }
  }

  // --- Votes ---

  lemma StepOwnVote(x: Move)
    requires Moves(x)
    ensures VoteTruthful(x.n, x.after, x.History'())
    ensures (x.n, x.after.term) in x.h.votes ==> x.after.term == x.Before().term
    ensures (x.n, x.after.term) !in x.h.votes && x.after.vote.Some? ==>
      VoteOk(x.voters, x.State'(), x.History'(), x.n, x.after.term)
  {
    var s, s' := x.Before(), x.after;
    assert VoteTruthful(x.n, s, x.h);
    if (x.n, s'.term) in x.h.votes {
      assert VoteOk(x.voters, x.st, x.h, x.n, s'.term);
    } else if s'.vote.Some? {
      LogsGrow(x);
      SoundGrows(s.log, s.term, s'.term, x.h.logs, x.History'().logs);
      if Grants(s, x.e, s') {
        assert MessageOk(x.h, x.e.m);
        assert VoteOk(x.voters, x.st, x.h, x.e.m.from, s'.term);
      }
    }
  }

  lemma StepVotes(x: Move)
    requires Moves(x)
    ensures InvVotes(x.voters, x.State'(), x.History'())
  {
    var h' := x.History'();
    StepOwnVote(x);
    LogsGrow(x);
    forall v, t | (v, t) in x.h.votes ensures VoteOk(x.voters, x.State'(), h', v, t) {
      assert VoteOk(x.voters, x.st, x.h, v, t);
      SoundGrows(x.h.votes[(v, t)].log, t, t, x.h.logs, h'.logs);
    }
    forall v | v in x.voters && v != x.n ensures VoteTruthful(v, x.st.nodes[v], h') {
      assert VoteTruthful(v, x.st.nodes[v], x.h);
    }
  }

  // --- Roles and elections ---

  lemma StepLead(x: Move)
    requires Moves(x)
    ensures LeadOk(x.n, x.after, x.History'())
  {
    assert LeadOk(x.n, x.Before(), x.h);
    if Wins(x.voters, x.n, x.Before(), x.e, x.after) {
      ElectionFresh(x);
    }
  }

  ghost predicate VotesKept(h: History, h': History) {
    forall k :: k in h.votes ==> k in h'.votes && h'.votes[k] == h.votes[k]
  }

  lemma NotYetElected(voters: set<NodeId>, st: State, h: History, n: NodeId, t: Term)
    requires InvElections(voters, h) && InvVotes(voters, st, h) && n in st.nodes && t > st.nodes[n].term
    ensures t in h.elections ==> h.elections[t].leader != n
  {
    if t in h.elections {
      assert ElectionOk(voters, h, t);
      if (n, t) in h.votes {
        assert VoteOk(voters, st, h, n, t);
      }
    }
  }

  lemma CampaignContinues(st: State, h: History, h': History, n: NodeId, s: Peer, e: Input, s': Peer)
    requires CampaignOk(n, s, h) && InvNet(st, h) && (e.Recv? ==> e.m in st.net) && VotesKept(h, h')
    requires CampaignRule(n, s, e, s') && s'.role.Campaigning? && s'.term == s.term
    requires h'.elections == h.elections
    ensures CampaignOk(n, s', h')
  {
    if GotVote(n, s, e) {
      CountedVotesReal(st, h, n, s, e);
    }
  }

  lemma StepCampaign(x: Move)
    requires Moves(x)
    ensures CampaignOk(x.n, x.after, x.History'())
  {
    var s, s' := x.Before(), x.after;
    if s'.role.Campaigning? {
      if s'.term == s.term {
        assert CampaignOk(x.n, s, x.h);
        CampaignContinues(x.st, x.h, x.History'(), x.n, s, x.e, s');
      } else {
        StepOwnVote(x);
        NotYetElected(x.voters, x.st, x.h, x.n, s'.term);
      }
    }
  }

  /** Another node's role is untouched by a step that wins nothing of its term. */
  lemma BystanderRole(h: History, h': History, v: NodeId, s: Peer, n: NodeId)
    requires CampaignOk(v, s, h) && LeadOk(v, s, h) && VotesKept(h, h') && v != n
    requires forall t :: t in h.elections ==> t in h'.elections && h'.elections[t] == h.elections[t]
    requires forall t :: t in h'.elections && t !in h.elections ==> h'.elections[t].leader == n
    requires forall t :: t in h.logs && t in h.elections && h.elections[t].leader != n ==>
      t in h'.logs && h'.logs[t] == h.logs[t]
    ensures CampaignOk(v, s, h') && LeadOk(v, s, h')
  {
  }

  lemma StepRoles(x: Move)
    requires Moves(x)
    ensures InvRoles(x.voters, x.State'(), x.History'())
  {
    hide InvNodes, InvVotes, InvNet, InvElections, ElectStep, CampaignOk, LeadOk, Supporters;
    StepLead(x);
    StepCampaign(x);
    StepKeepsVotes(x);
    OnlyOwnLog(x);
    forall v | v in x.voters && v in x.st.nodes && v != x.n
      ensures CampaignOk(v, x.st.nodes[v], x.History'()) && LeadOk(v, x.st.nodes[v], x.History'())
    {
      BystanderRole(x.h, x.History'(), v, x.st.nodes[v], x.n);
    }
  }

  lemma OnlyOwnLog(x: Move)
    requires Moves(x)
    ensures forall t :: t in x.h.logs && t in x.h.elections && x.h.elections[t].leader != x.n ==>
      t in x.History'().logs && x.History'().logs[t] == x.h.logs[t]
  {
    if x.after.role.Leading? {
      if Wins(x.voters, x.n, x.Before(), x.e, x.after) {
        ElectionFresh(x);
      } else {
        assert LeadOk(x.n, x.Before(), x.h);
      }
    }
  }

  /** The winner's recorded supporters are a quorum. */
  lemma WinnerSupported(x: Move)
    requires Moves(x) && Wins(x.voters, x.n, x.Before(), x.e, x.after)
    ensures Majority(Supporters(x.voters, x.History'().votes, x.n, x.after.term), x.voters)
  {
    var s, t := x.Before(), x.after.term;
    StepOwnVote(x);
    var mine := if t > s.term then {x.n} else s.role.votes + {x.e.m.from};
    if t == s.term {
      assert CampaignOk(x.n, s, x.h);
      CountedVotesReal(x.st, x.h, x.n, s, x.e);
    }
    var all := Supporters(x.voters, x.History'().votes, x.n, t);
    assert x.voters * mine <= all;
    SubsetSize(x.voters * mine, x.voters * all);
  }

  /** A log with no leader of its own term yet holds only earlier terms. */
  lemma TermsBelow(log: seq<Entry>, t: Term, logs: map<Term, seq<Entry>>)
    requires Sound(log, t, logs) && t !in logs
    ensures forall i :: 0 <= i < |log| ==> log[i].term < t
  {
    forall i | 0 <= i < |log| ensures log[i].term < t {
      assert Linked(log, logs, i);
    }
  }

  lemma NewElection(x: Move)
    requires Moves(x) && Wins(x.voters, x.n, x.Before(), x.e, x.after)
    ensures x.after.term in x.History'().elections && x.after.term in x.History'().logs
    ensures ElectionOk(x.voters, x.History'(), x.after.term)
  {
    ElectionFresh(x);
    StepLog(x);
    StepOwnVote(x);
    WinnerSupported(x);
    assert CampaignOk(x.n, x.Before(), x.h);
    SoundGrows(x.Before().log, x.Before().term, x.after.term, x.h.logs, x.h.logs);
    TermsBelow(x.Before().log, x.after.term, x.h.logs);
  }

  /** How a won term's log moves: not at all, or by entries of that term. */
  ghost predicate LogCarries(h: History, h': History, t: Term) {
    && t in h.logs && t in h'.logs && h.logs[t] <= h'.logs[t]
    && (forall i :: |h.logs[t]| <= i < |h'.logs[t]| ==> h'.logs[t][i].term == t)
  }

  /** An election stays good while its votes are kept and its log grows by its own entries. */
  lemma ElectionCarries(voters: set<NodeId>, h: History, h': History, t: Term)
    requires InvElections(voters, h) && t in h.elections
    requires t in h'.elections && h'.elections[t] == h.elections[t]
    requires VotesKept(h, h') && LogCarries(h, h', t) && Sound(h'.logs[t], t, h'.logs)
    ensures ElectionOk(voters, h', t)
  {
    assert ElectionOk(voters, h, t);
  }

  lemma ReignCarries(x: Move)
    requires Moves(x) && x.after.role.Leading? && x.after.term in x.h.elections
    ensures LogCarries(x.h, x.History'(), x.after.term)
  {
    hide Sound, InvNodes, InvVotes, InvNet, InvElections, VoteRule, LogRule, CampaignRule, GotVote, Majority,
         Supporters;
    if Wins(x.voters, x.n, x.Before(), x.e, x.after) {
      ElectionFresh(x);
    } else {
      assert LeadOk(x.n, x.Before(), x.h);
      if x.after.log != x.Before().log {
        ReignLog(x);
      }
    }
  }

  lemma IdleSound(voters: set<NodeId>, h: History, h': History, t: Term)
    requires InvElections(voters, h) && t in h.elections && Grows(h.logs, h'.logs)
    requires t in h'.logs && h'.logs[t] == h.logs[t]
    ensures Sound(h'.logs[t], t, h'.logs)
  {
    assert ElectionOk(voters, h, t);
    SoundGrows(h.logs[t], t, t, h.logs, h'.logs);
  }

  lemma StepKeepsVotes(x: Move)
    requires x.n in x.st.nodes
    ensures VotesKept(x.h, x.History'())
  {
  }

  lemma OldElection(x: Move, t: Term)
    requires Moves(x) && t in x.h.elections
    ensures t in x.History'().elections && t in x.History'().logs && ElectionOk(x.voters, x.History'(), t)
  {
    hide Sound, ElectStep, InvNodes, InvVotes, InvNet, InvRoles, ElectionOk, VotesKept, LogCarries, Supporters;
    StepKeepsVotes(x);
    if x.after.role.Leading? && x.after.term == t {
      StepLog(x);
      ReignCarries(x);
    } else {
      LogsGrow(x);
      IdleSound(x.voters, x.h, x.History'(), t);
    }
    ElectionCarries(x.voters, x.h, x.History'(), t);
  }

  lemma StepElections(x: Move)
    requires Moves(x)
    ensures InvElections(x.voters, x.History'())
  {
    forall t | t in x.History'().elections ensures ElectionOk(x.voters, x.History'(), t) {
      if t in x.h.elections {
        OldElection(x, t);
      } else {
        NewElection(x);
      }
    }
    assert LeadOk(x.n, x.Before(), x.h);
  }

  // --- Messages ---

  lemma SliceGrows(log: seq<Entry>, log': seq<Entry>, prev: LogIndex, prevTerm: Term, entries: seq<Entry>)
    requires SliceOf(log, prev, prevTerm, entries) && log <= log'
    ensures SliceOf(log', prev, prevTerm, entries)
  {
    if prev + |entries| <= |log| {
      assert log'[prev..prev + |entries|] == log[prev..prev + |entries|];
    }
  }

  lemma MessageCarries(h: History, h': History, m: Message)
    requires MessageOk(h, m) && VotesKept(h, h') && Grows(h.logs, h'.logs)
    requires forall t :: t in h.elections ==> t in h'.elections && h'.elections[t] == h.elections[t]
    ensures MessageOk(h', m)
  {
    if m.body.AppendRequest? {
      SliceGrows(h.logs[m.term], h'.logs[m.term], m.body.prevLogIndex, m.body.prevLogTerm, m.body.entries);
    }
  }

  lemma NewMessage(x: Move, m: Message)
    requires Moves(x) && SendRule(x.n, x.Before(), x.e, x.after, m)
    ensures MessageOk(x.History'(), m)
  {
    StepOwnVote(x);
    StepLead(x);
  }

  lemma StepNet(x: Move)
    requires Moves(x) && forall m :: m in x.sent ==> SendRule(x.n, x.Before(), x.e, x.after, m)
    ensures InvNet(x.State'(), x.History'())
  {
    hide InvNodes, InvVotes, InvRoles, InvElections, ElectStep, SendRule, MessageOk, VotesKept, Grows, Supporters;
    LogsGrow(x);
    StepKeepsVotes(x);
    forall m | m in x.State'().net ensures MessageOk(x.History'(), m) {
      if m in x.st.net {
        MessageCarries(x.h, x.History'(), m);
      } else {
        NewMessage(x, m);
      }
    }
  }

  /** Every protocol step keeps the invariant. */
  lemma StepKeepsInv(x: Move)
    requires Inv(x.voters, x.st, x.h) && x.Enabled()
    requires LocalStep(x.voters, x.n, x.Before(), x.e, x.after, x.sent)
    ensures Inv(x.voters, x.State'(), x.History'())
  {
    hide InvNodes, InvVotes, InvRoles, InvNet, InvElections, ElectStep, FreshRule, MatchRule, CommitRule,
         ReadRule, SendRule;
    StepNodes(x);
    StepVotes(x);
    StepRoles(x);
    StepNet(x);
    StepElections(x);
  }
}
