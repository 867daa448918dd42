/**
 The protocol as a relation: what one node's step may do to its term, vote, log, commit index and
 role, and which messages it may send. Node programs are shown to stay within it; the cluster
 theorems are proved from it. Logs here are plain sequences.
 */
module Protocol {
  import opened Types
  import opened Membership
  import opened RaftLog
  import opened Messages
  import opened FollowerRole

  datatype Round = Round(id: nat, readIndex: LogIndex, acks: set<NodeId>)

  datatype Position =
    | Passive
    | Campaigning(votes: set<NodeId>)
    | Leading(matched: map<NodeId, LogIndex>, nextReadId: nat, pending: Option<Round>, confirmed: LogIndex)

  datatype Peer = Peer(term: Term, vote: Option<NodeId>, log: seq<Entry>, commit: LogIndex, role: Position)

  datatype Input = Timer | Recv(m: Message) | Submit(bytes: Bytes) | ReadRequest | Restart

  datatype State = State(nodes: map<NodeId, Peer>, net: set<Message>)

  // --- Logs ---

  function LastTermOf(log: seq<Entry>): Term { if log == [] then 0 else log[|log| - 1].term }

  predicate AtLeast(lastTerm: Term, lastIndex: LogIndex, log: seq<Entry>) {
    lastTerm > LastTermOf(log) || (lastTerm == LastTermOf(log) && lastIndex >= |log|)
  }

  /** Equal terms at an index mean equal logs up to it. */
  predicate Matching(a: seq<Entry>, b: seq<Entry>) {
    forall i :: 0 <= i < |a| && TermsAgree(a, b, i) ==> a[..i + 1] == b[..i + 1]
  }

  predicate TermsAgree(a: seq<Entry>, b: seq<Entry>, i: int) {
    0 <= i < |a| && i < |b| && a[i].term == b[i].term
  }

  function Adopt(log: seq<Entry>, prefix: seq<Entry>): seq<Entry> {
    if prefix <= log then log else prefix
  }

  predicate Consistent(log: seq<Entry>, prev: LogIndex, prevTerm: Term) {
    prev == 0 || FullTermAt(log, prev) == prevTerm
  }

  /** Entries of `log` right after `prev`; a probe past its end carries nothing. */
  predicate SliceOf(log: seq<Entry>, prev: LogIndex, prevTerm: Term, entries: seq<Entry>) {
    || (prev + |entries| <= |log| && entries == log[prev..prev + |entries|] && prevTerm == FullTermAt(log, prev))
    || (prev > 0 && entries == [] && prevTerm == 0)
  }

  // --- One step of one node ---

  function MatchedOf(role: Position, id: NodeId): LogIndex
    requires role.Leading?
  {
    if id in role.matched then role.matched[id] else 0
  }

  predicate SelfVote(n: NodeId, s: Peer, s': Peer) {
    s'.vote == Some(n) && s'.term > s.term && !s'.role.Passive?
  }

  predicate Grants(s: Peer, e: Input, s': Peer) {
    && e.Recv? && e.m.body.VoteRequest? && e.m.term == s'.term && s'.vote == Some(e.m.from)
    && AtLeast(e.m.body.lastLogTerm, e.m.body.lastLogIndex, s.log) && s'.role.Passive?
  }

  predicate VoteRule(n: NodeId, s: Peer, e: Input, s': Peer) {
    && s'.term >= s.term
    && (s'.term == s.term && s.vote.Some? ==> s'.vote == s.vote)
    && (s'.vote.Some? && !(s'.term == s.term && s'.vote == s.vote) ==>
          s'.log == s.log && (SelfVote(n, s, s') || Grants(s, e, s')))
  }

  /** `entries` were cut after `prev` from `lead`, which agrees with `log` up to there. */
  predicate CutFrom(log: seq<Entry>, lead: seq<Entry>, prev: LogIndex, entries: seq<Entry>) {
    && Numbered(lead) && Matching(log, lead)
    && prev + |entries| <= |lead| && entries == lead[prev..prev + |entries|] && lead[..prev] <= log
  }

  /** Whatever log the entries were cut from, the receiver ends up with that log's prefix, or already had it. */
  ghost predicate Absorbs(log: seq<Entry>, prev: LogIndex, entries: seq<Entry>, log': seq<Entry>) {
    && (entries == [] ==> log' == log)
    && (forall lead :: CutFrom(log, lead, prev, entries) ==> log' == Adopt(log, lead[..prev + |entries|]))
  }

  ghost predicate Accepts(s: Peer, e: Input, s': Peer) {
    && e.Recv? && e.m.body.AppendRequest? && e.m.term == s'.term && s'.role.Passive?
    && Consistent(s.log, e.m.body.prevLogIndex, e.m.body.prevLogTerm)
    && Absorbs(s.log, e.m.body.prevLogIndex, e.m.body.entries, s'.log)
  }

  predicate SameReign(s: Peer, s': Peer) {
    s.role.Leading? && s'.role.Leading? && s'.term == s.term
  }

  ghost predicate LogRule(s: Peer, e: Input, s': Peer) {
    || s'.log == s.log
    || (e.Submit? && SameReign(s, s') && s'.log == s.log + [Entry(s.term, |s.log| + 1, Command(e.bytes))])
    || Accepts(s, e, s')
  }

  predicate GotVote(n: NodeId, s: Peer, e: Input) {
    s.role.Campaigning? && e.Recv? && e.m.body == VoteResponse(true) && e.m.term == s.term && e.m.to == n
  }

  predicate CampaignRule(n: NodeId, s: Peer, e: Input, s': Peer) {
    s'.role.Campaigning? ==>
      && s'.log == s.log && s'.vote == Some(n)
      && (|| (s'.term > s.term && s'.role.votes == {n})
          || (&& s.role.Campaigning? && s'.term == s.term
              && (|| s'.role.votes == s.role.votes
                  || (GotVote(n, s, e) && s'.role.votes == s.role.votes + {e.m.from}))))
  }

  predicate Wins(voters: set<NodeId>, n: NodeId, s: Peer, e: Input, s': Peer) {
    && s'.role.Leading? && s'.log == s.log && s'.vote == Some(n)
    && (|| (s'.term > s.term && Majority({n}, voters))
        || (s'.term == s.term && GotVote(n, s, e) && Majority(s.role.votes + {e.m.from}, voters)))
  }

  predicate LeadRule(voters: set<NodeId>, n: NodeId, s: Peer, e: Input, s': Peer) {
    s'.role.Leading? ==> (SameReign(s, s') && s'.vote == s.vote) || Wins(voters, n, s, e, s')
  }

  /** A new leader has counted only itself, and has asked for no read. */
  ghost predicate FreshRule(n: NodeId, s: Peer, s': Peer) {
    s'.role.Leading? && !SameReign(s, s') ==>
      && s'.role.pending.None? && s'.role.nextReadId == 1 && s'.role.confirmed == 0
      && forall id :: MatchedOf(s'.role, id) == if id == n then |s'.log| else 0
  }

  /** Progress moves only on own appends and on successful acknowledgements of this term. */
  ghost predicate MatchRule(n: NodeId, s: Peer, e: Input, s': Peer) {
    SameReign(s, s') ==> forall id ::
      || MatchedOf(s'.role, id) == MatchedOf(s.role, id)
      || (id == n && MatchedOf(s'.role, id) == |s'.log|)
      || (&& e.Recv? && e.m.body.AppendResponse? && e.m.body.success && e.m.term == s.term
          && id == e.m.from && MatchedOf(s'.role, id) == e.m.body.lastIndex)
  }

  predicate LeaderCommits(voters: set<NodeId>, s: Peer, s': Peer) {
    && SameReign(s, s') && s.commit < s'.commit <= |s'.log| && s'.log[s'.commit - 1].term == s'.term
    && Majority((set id | id in voters && MatchedOf(s'.role, id) >= s'.commit), voters)
  }

  predicate Acks(sent: set<Message>) {
    exists m :: m in sent && m.body.AppendResponse? && m.body.success
  }

  ghost predicate CommitRule(voters: set<NodeId>, s: Peer, e: Input, s': Peer, sent: set<Message>) {
    || s'.commit == s.commit
    || (e.Restart? && s'.role.Passive? && s'.commit == 0)
    || LeaderCommits(voters, s, s')
    || (&& Accepts(s, e, s') && Acks(sent) && e.m.body.leaderCommit > s.commit
        && s'.commit == Min(e.m.body.leaderCommit, |s'.log|))
  }

  predicate AckedRound(s: Peer, e: Input) {
    && s.role.Leading? && s.role.pending.Some?
    && e.Recv? && e.m.term == s.term
    && e.m.body == ReadIndexResponse(s.role.pending.value.id, s.role.pending.value.readIndex)
  }

  /** Some committed entry is of the node's own term. */
  predicate OwnTermCommitted(s: Peer) {
    exists i :: 0 <= i < |s.log| && i < s.commit && s.log[i].term == s.term
  }

  predicate StartsRound(s: Peer, e: Input, s': Peer) {
    && e.ReadRequest? && SameReign(s, s') && s.role.pending.None? && OwnTermCommitted(s)
    && s'.log == s.log && s'.commit == s.commit
    && s'.role.nextReadId == s.role.nextReadId + 1
  }

  /** The round is over, and reads up to its index are confirmed. */
  predicate RoundDone(s: Peer, s': Peer, readIndex: LogIndex)
    requires s.role.Leading? && s'.role.Leading?
  {
    s'.role.pending.None? && s'.role.confirmed == Max(s.role.confirmed, readIndex)
  }

  /** The round waits for answers. */
  predicate RoundWaits(s: Peer, s': Peer, round: Round)
    requires s.role.Leading? && s'.role.Leading?
  {
    s'.role.pending == Some(round) && s'.role.confirmed == s.role.confirmed
  }

  predicate ReadRule(voters: set<NodeId>, n: NodeId, s: Peer, e: Input, s': Peer) {
    SameReign(s, s') ==>
      || (&& s'.role.nextReadId == s.role.nextReadId
          && s'.role.pending == s.role.pending && s'.role.confirmed == s.role.confirmed)
      || (&& AckedRound(s, e) && s'.role.nextReadId == s.role.nextReadId
          && var round := s.role.pending.value;
             if Majority(round.acks + {e.m.from}, voters) then RoundDone(s, s', round.readIndex)
             else RoundWaits(s, s', round.(acks := round.acks + {e.m.from})))
      || (&& StartsRound(s, e, s')
          && if Majority({n}, voters) then RoundDone(s, s', s.commit)
             else RoundWaits(s, s', Round(s.role.nextReadId, s.commit, {n})))
  }

  ghost predicate SendRule(n: NodeId, s: Peer, e: Input, s': Peer, m: Message) {
    && m.from == n && m.to != n
    && match m.body
       case VoteRequest(lastIndex, lastTerm) =>
         && SelfVote(n, s, s') && m.term == s'.term
         && s'.log == s.log && lastIndex == |s.log| && lastTerm == LastTermOf(s.log)
       case VoteResponse(granted) => granted ==> m.term == s'.term && s'.vote == Some(m.to)
       case AppendRequest(prev, prevTerm, entries, leaderCommit) =>
         && s'.role.Leading? && m.term == s'.term
         && SliceOf(s'.log, prev, prevTerm, entries) && leaderCommit == s'.commit
       case AppendResponse(success, lastIndex) =>
         success ==> Accepts(s, e, s') && m.term == s'.term && lastIndex == |s'.log|
       case ReadIndexRequest(id, readIndex) =>
         && s'.role.Leading? && m.term == s'.term && s'.role.pending.Some?
         && s'.role.pending.value.id == id && s'.role.pending.value.readIndex == readIndex
       case ReadIndexResponse(id, readIndex) =>
         && e.Recv? && e.m.body == ReadIndexRequest(id, readIndex) && m.to == e.m.from
         && m.term == s'.term && e.m.term <= s'.term
       case InstallSnapshotRequest(_, _, _) => false
       case InstallSnapshotResponse(_, _) => false
       case _ => true
  }

  /** Terms, votes, logs and roles: the rules election safety and log matching rest on. */
  ghost predicate ElectStep(voters: set<NodeId>, n: NodeId, s: Peer, e: Input, s': Peer) {
    && VoteRule(n, s, e, s')
    && LogRule(s, e, s')
    && CampaignRule(n, s, e, s')
    && LeadRule(voters, n, s, e, s')
  }

  /** Everything one node's step guarantees to the rest of the cluster. */
  ghost predicate LocalStep(voters: set<NodeId>, n: NodeId, s: Peer, e: Input, s': Peer, sent: set<Message>) {
    && ElectStep(voters, n, s, e, s')
    && FreshRule(n, s, s')
    && MatchRule(n, s, e, s')
    && CommitRule(voters, s, e, s', sent)
    && ReadRule(voters, n, s, e, s')
    && (forall m :: m in sent ==> SendRule(n, s, e, s', m))
  }

  // --- History: what a run has decided so far ---

  /** A vote, with the voter's log at the time. */
  datatype Vote = Vote(candidate: NodeId, log: seq<Entry>)

  /** An election: the winner, its log on winning, and everyone who had voted for it by then. */
  datatype Election = Election(leader: NodeId, log: seq<Entry>, quorum: set<NodeId>)

  datatype History = History(
    votes: map<(NodeId, Term), Vote>,
    elections: map<Term, Election>,
    logs: map<Term, seq<Entry>>,           // each term's leader log, as long as it ever was
    acks: map<(NodeId, Term), LogIndex>,   // how much of that log each node claimed to hold
    rounds: map<(Term, nat), set<Term>>)   // terms already won when each read round started
  {
    function Acked(n: NodeId, t: Term): LogIndex { if (n, t) in acks then acks[(n, t)] else 0 }
  }

  function Supporters(voters: set<NodeId>, votes: map<(NodeId, Term), Vote>, n: NodeId, t: Term): set<NodeId> {
    set v | v in voters && (v, t) in votes && votes[(v, t)].candidate == n
  }

  function TrackVotes(h: History, n: NodeId, s: Peer, s': Peer): map<(NodeId, Term), Vote> {
    if s'.vote.Some? && (n, s'.term) !in h.votes
    then h.votes[(n, s'.term) := Vote(s'.vote.value, s.log)] else h.votes
  }

  function TrackElections(voters: set<NodeId>, h: History, n: NodeId, s: Peer, s': Peer): map<Term, Election> {
    if s'.role.Leading? && s'.term !in h.elections
    then h.elections[s'.term := Election(n, s.log, Supporters(voters, TrackVotes(h, n, s, s'), n, s'.term))]
    else h.elections
  }

  function TrackLogs(h: History, s': Peer): map<Term, seq<Entry>> {
    if s'.role.Leading? then h.logs[s'.term := s'.log] else h.logs
  }

  function TrackAcks(h: History, n: NodeId, s': Peer, sent: set<Message>): map<(NodeId, Term), LogIndex> {
    if s'.role.Leading? || Acks(sent)
    then h.acks[(n, s'.term) := Max(h.Acked(n, s'.term), |s'.log|)] else h.acks
  }

  function TrackRounds(h: History, s: Peer, s': Peer): map<(Term, nat), set<Term>> {
    if SameReign(s, s') && s'.role.nextReadId != s.role.nextReadId
    then h.rounds[(s'.term, s.role.nextReadId) := h.elections.Keys] else h.rounds
  }

  function Track(voters: set<NodeId>, h: History, n: NodeId, s: Peer, s': Peer, sent: set<Message>): History {
    History(TrackVotes(h, n, s, s'), TrackElections(voters, h, n, s, s'), TrackLogs(h, s'),
            TrackAcks(h, n, s', sent), TrackRounds(h, s, s'))
  }

  /** One node's step in the cluster: it may consume any message ever sent to it, any number of times. */
  datatype Move = Move(voters: set<NodeId>, st: State, h: History, n: NodeId, e: Input, after: Peer,
                       sent: set<Message>)
  {
    ghost predicate Enabled() {
      && n in voters && n in st.nodes
      && (e.Recv? ==> e.m in st.net && e.m.to == n)
    }

    function Before(): Peer
      requires n in st.nodes
    {
      st.nodes[n]
    }

    function State'(): State { State(st.nodes[n := after], st.net + sent) }

    function History'(): History
      requires n in st.nodes
    {
      Track(voters, h, n, st.nodes[n], after, sent)
    }
  }
}
