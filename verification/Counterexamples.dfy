/**
 One concrete run on which acknowledgements are not truthful. On it a committed entry is
 missing from a later leader's log, and later an echoed read response confirms a stale read.
 */
module Counterexamples {
  import opened Types
  import opened Membership
  import opened RaftLog
  import opened Messages
  import opened RaftCore
  import opened FollowerRole
  import opened LeaderRole
  import opened RaftNode
  import opened Protocol
  import opened Refinement
  import opened Reads
  import opened Cluster
  import opened Acknowledgement
  import opened Safety
  import S = Scenario

  // --- Building a run action by action ---

  function Then(y: Execution, a: Action): Execution { y.(actions := y.actions + [a]) }

  function End(x: Execution): Cluster
    requires x.Valid()
  {
    x.At(|x.actions|)
  }

  lemma {:induction false} RunPrefix(voters: set<NodeId>, c: Cluster, actions: seq<Action>, a: Action, k: nat)
    requires k <= |actions|
    ensures Run(c, actions + [a], k) == Run(c, actions, k)
    ensures RunHistory(voters, c, actions + [a], k) == RunHistory(voters, c, actions, k)
  {
    hide Step, TrackStep;
    if k > 0 {
      RunPrefix(voters, c, actions, a, k - 1);
      assert (actions + [a])[k - 1] == actions[k - 1];
    }
  }

  /** `x` continues `y`. */
  ghost predicate Continues(y: Execution, x: Execution) {
    && y.Valid() && x.Valid() && |y.actions| <= |x.actions| && x.voters == y.voters
    && forall k :: 0 <= k <= |y.actions| ==> x.At(k) == y.At(k)
  }

  lemma ThenContinues(y: Execution, a: Action)
    requires y.Valid()
    ensures Continues(y, Then(y, a)) && End(Then(y, a)) == Step(End(y), a)
    ensures Then(y, a).History(|y.actions|) == y.History(|y.actions|)
  {
    hide Step, TrackStep;
    var c := Initial(y.voters, y.settings);
    forall k | 0 <= k <= |y.actions| ensures Then(y, a).At(k) == y.At(k) {
      RunPrefix(y.voters, c, y.actions, a, k);
    }
    RunPrefix(y.voters, c, y.actions, a, |y.actions|);
  }

  /** Every acknowledgement of the run was truthful. */
  ghost predicate Honest(x: Execution) { x.Valid() && x.TruthfulUpTo(|x.actions|) }

  lemma {:induction false} SameHistory(y: Execution, a: Action, k: nat)
    requires y.Valid() && k <= |y.actions|
    ensures Then(y, a).At(k) == y.At(k) && Then(y, a).History(k) == y.History(k)
  {
    RunPrefix(y.voters, Initial(y.voters, y.settings), y.actions, a, k);
  }

  lemma HonestThen(y: Execution, a: Action)
    requires Honest(y) && Guarded(End(y), y.History(|y.actions|), a)
    ensures Honest(Then(y, a))
  {
    hide Execution.At, Execution.History, Guarded;
    var x := Then(y, a);
    forall i | 0 <= i < |x.actions| ensures Guarded(x.At(i), x.History(i), x.actions[i]) {
      SameHistory(y, a, i);
      if i < |y.actions| {
        assert Guarded(y.At(i), y.History(i), y.actions[i]);
      }
    }
  }

  /** The run ends with these nodes, and these messages in the network. */
  ghost predicate World(x: Execution, nodes: map<NodeId, Node>, sent: set<Message>) {
    && x.Valid() && x.voters == S.Three() && nodes.Keys == S.Three()
    && End(x).nodes == nodes && End(x).disks.Keys == S.Three() && sent <= End(x).net
  }

  lemma Extend(y: Execution, nodes: map<NodeId, Node>, sent: set<Message>, a: Action, after: Node, effects: Effects,
               m: Message)
    returns (x: Execution)
    requires World(y, nodes, sent) && a.n in S.Three() && React(End(y), a) == Some((after, effects))
    requires m in sent || m in effects.messages
    ensures x == Then(y, a) && World(x, nodes[a.n := after], sent + {m}) && Continues(y, x)
    ensures Honest(y) && !(a.Deliver? && a.message.body.AppendRequest?) ==> Honest(x)
  {
    hide React, Execution.At, Execution.History, Run;
    x := Then(y, a);
    ThenContinues(y, a);
    if Honest(y) && !(a.Deliver? && a.message.body.AppendRequest?) {
      HonestThen(y, a);
    }
  }

  lemma DoTick(y: Execution, w: map<NodeId, Node>, sent: set<Message>, n: NodeId, m: Message, after: Node)
    returns (x: Execution)
    requires World(y, w, sent) && n in S.Three()
    requires StepEvent(w[n], Tick, S.Due()).0 == after && m in StepEvent(w[n], Tick, S.Due()).1.messages
    ensures x == Then(y, Elapse(n, S.Due())) && World(x, w[n := after], sent + {m}) && Continues(y, x)
    ensures Honest(y) ==> Honest(x)
  {
    hide StepEvent, Execution.At, Honest;
    x := Extend(y, w, sent, Elapse(n, S.Due()), after, StepEvent(w[n], Tick, S.Due()).1, m);
  }

  lemma DoReceive(y: Execution, w: map<NodeId, Node>, sent: set<Message>, n: NodeId, q: Message, m: Message,
                  after: Node)
    returns (x: Execution)
    requires World(y, w, sent) && n in S.Three() && q in sent && q.to == n
    requires StepEvent(w[n], Receive(q), S.Due()).0 == after
    requires m in sent || m in StepEvent(w[n], Receive(q), S.Due()).1.messages
    ensures x == Then(y, Deliver(n, q, S.Due())) && World(x, w[n := after], sent + {m}) && Continues(y, x)
    ensures Honest(y) && !q.body.AppendRequest? ==> Honest(x)
  {
    hide StepEvent, Execution.At, Honest;
    x := Extend(y, w, sent, Deliver(n, q, S.Due()), after, StepEvent(w[n], Receive(q), S.Due()).1, m);
  }

  lemma DoPut(y: Execution, w: map<NodeId, Node>, sent: set<Message>, n: NodeId, m: Message, after: Node)
    returns (x: Execution)
    requires World(y, w, sent) && n in S.Three() && NodePropose(w[n], []).Ok?
    requires NodePropose(w[n], []).value.0 == after && m in NodePropose(w[n], []).value.1.messages
    ensures x == Then(y, Put(n, [])) && World(x, w[n := after], sent + {m}) && Continues(y, x)
    ensures Honest(y) ==> Honest(x)
  {
    hide NodePropose, Execution.At, Honest;
    x := Extend(y, w, sent, Put(n, []), after, NodePropose(w[n], []).value.1, m);
  }

  lemma DoRead(y: Execution, w: map<NodeId, Node>, sent: set<Message>, n: NodeId, m: Message, after: Node)
    returns (x: Execution)
    requires World(y, w, sent) && n in S.Three() && NodeReadIndex(w[n]).Ok?
    requires NodeReadIndex(w[n]).value.1 == after && m in NodeReadIndex(w[n]).value.2.messages
    ensures x == Then(y, Read(n)) && World(x, w[n := after], sent + {m}) && Continues(y, x)
    ensures React(End(y), Read(n)) == Some((after, NodeReadIndex(w[n]).value.2))
    ensures Honest(y) ==> Honest(x)
  {
    hide NodeReadIndex, Execution.At, Honest;
    x := Extend(y, w, sent, Read(n), after, NodeReadIndex(w[n]).value.2, m);
  }

  lemma DoCrash(y: Execution, w: map<NodeId, Node>, sent: set<Message>, n: NodeId, m: Message)
    returns (x: Execution)
    requires World(y, w, sent) && n in S.Three() && m in sent
    ensures x == Then(y, Crash(n)) && Continues(y, x)
    ensures World(x, w[n := Restore(w[n].core.settings, w[n].core.persistent)], sent + {m})
    ensures Honest(y) ==> Honest(x)
  {
    hide Execution.At, Honest;
    DiskUpToDate(y, |y.actions|, n);
    x := Extend(y, w, sent, Crash(n), Restore(w[n].core.settings, w[n].core.persistent), NOTHING, m);
  }

  // --- Nodes and requests of the run, by the terms of their logs ---

  function N(n: NodeId, term: Term, vote: Option<NodeId>, terms: seq<Term>, commit: LogIndex): Core {
    S.At(n, term, vote, S.Entries(terms), commit)
  }

  function Req(n: NodeId, to: NodeId, term: Term, terms: seq<Term>, next: LogIndex): Message
    requires next >= 1
  {
    S.Request(n, to, term, S.Entries(terms), 0, next)
  }

  function Fresh(n: NodeId, terms: seq<Term>): LeaderState { S.Fresh(n, S.Entries(terms)) }

  predicate Positive(terms: seq<Term>) { |terms| < 100 && forall i :: 0 <= i < |terms| ==> terms[i] >= 1 }

  function Last(terms: seq<Term>): Term { if terms == [] then 0 else terms[|terms| - 1] }

  predicate Later(mine: seq<Term>, theirs: seq<Term>) {
    Last(mine) > Last(theirs) || (Last(mine) == Last(theirs) && |mine| >= |theirs|)
  }

  lemma EntriesTerms(terms: seq<Term>)
    requires Positive(terms)
    ensures S.Terms(S.Entries(terms)) && |S.Entries(terms)| == |terms| && LastTermOf(S.Entries(terms)) == Last(terms)
  {
  }

  lemma EntriesLonger(terms: seq<Term>, t: Term)
    ensures S.Longer(S.Entries(terms), t) == S.Entries(terms + [t])
  {
  }

  // --- Moves of several steps ---

  lemma Shrink(x: Execution, w: map<NodeId, Node>, sent: set<Message>, fewer: set<Message>)
    requires World(x, w, sent) && fewer <= sent
    ensures World(x, w, fewer)
  {
    hide Execution.At;
  }

  lemma Chained(a: Execution, b: Execution, c: Execution)
    requires Continues(a, b) && Continues(b, c)
    ensures Continues(a, c)
  {
    hide Execution.At;
  }

  lemma LastUpdate(w: map<NodeId, Node>, n: NodeId, p: NodeId, first: Node, other: Node, last: Node)
    requires n != p
    ensures w[n := first][p := other][n := last] == w[p := other][n := last]
  {
  }

  /** A follower of `n`'s scenario: its scalars, and the terms of its log. */
  datatype Seat = Seat(n: NodeId, term: Term, vote: Option<NodeId>, terms: seq<Term>, commit: LogIndex,
                       leader: Option<NodeId>)
  {
    function Node(): Node { RaftNode.Node(N(n, term, vote, terms, commit), Follower(leader)) }

    ghost predicate In(w: map<NodeId, RaftNode.Node>) { n in S.Three() && n in w && w[n] == Node() && Positive(terms) }
  }

  function Voted(s: Seat, term: Term, candidate: NodeId): Node {
    Node(N(s.n, term, Some(candidate), s.terms, s.commit), Follower(s.leader))
  }

  function Won(s: Seat): Node {
    Node(N(s.n, s.term + 1, Some(s.n), s.terms, s.commit), Leader(Fresh(s.n, s.terms)))
  }

  function Asking(s: Seat): Node {
    Node(N(s.n, s.term + 1, Some(s.n), s.terms, s.commit), Candidate({s.n}))
  }

  /** `a` times out and is granted `b`'s vote. */
  lemma Canvasses(y: Execution, w: map<NodeId, Node>, sent: set<Message>, a: Seat, b: Seat) returns (x: Execution)
    requires World(y, w, sent) && a.In(w) && b.In(w) && a.n != b.n && b.term <= a.term && Later(a.terms, b.terms)
    ensures World(x, w[a.n := Asking(a)][b.n := Voted(b, a.term + 1, a.n)],
                  sent + {Message(b.n, a.n, a.term + 1, VoteResponse(true))})
    ensures Continues(y, x)
    ensures Honest(y) ==> Honest(x)
  {
    hide World, Continues, StepEvent, S.Request, S.Terms, S.Entries, S.At, Honest;
    EntriesTerms(a.terms);
    EntriesTerms(b.terms);
    var t := a.term + 1;
    S.Campaigns(a.n, b.n, a.term, a.vote, S.Entries(a.terms), a.commit, a.leader);
    var ask := Message(a.n, b.n, t, VoteRequest(|a.terms|, Last(a.terms)));
    var x1 := DoTick(y, w, sent, a.n, ask, Asking(a));
    S.Grants(b.n, ask, b.term, b.vote, S.Entries(b.terms), b.commit, b.leader);
    var yes := Message(b.n, a.n, t, VoteResponse(true));
    x := DoReceive(x1, w[a.n := Asking(a)], sent + {ask}, b.n, ask, yes, Voted(b, t, a.n));
    Shrink(x, w[a.n := Asking(a)][b.n := Voted(b, t, a.n)], sent + {ask} + {yes}, sent + {yes});
    Chained(y, x1, x);
  }

  /** `a` times out, is granted `b`'s vote, leads, and greets `to`. */
  lemma Elects(y: Execution, w: map<NodeId, Node>, sent: set<Message>, a: Seat, b: Seat,
               to: NodeId) returns (x: Execution)
    requires World(y, w, sent) && a.In(w) && b.In(w) && a.n != b.n && b.term <= a.term && Later(a.terms, b.terms)
    requires to in S.Three() && to != a.n && a.commit == 0
    ensures World(x, w[b.n := Voted(b, a.term + 1, a.n)][a.n := Won(a)],
                  sent + {Req(a.n, to, a.term + 1, a.terms, |a.terms| + 1)})
    ensures Continues(y, x)
    ensures Honest(y) ==> Honest(x)
  {
    hide World, Continues, StepEvent, S.Request, S.Terms, S.Fresh, S.At, S.Entries, Later, Honest;
    EntriesTerms(a.terms);
    var t := a.term + 1;
    var x1 := Canvasses(y, w, sent, a, b);
    var yes := Message(b.n, a.n, t, VoteResponse(true));
    var w1 := w[a.n := Asking(a)][b.n := Voted(b, t, a.n)];
    S.WinsElection(a.n, to, yes, t, S.Entries(a.terms), 0);
    var beat := Req(a.n, to, t, a.terms, |a.terms| + 1);
    x := DoReceive(x1, w1, sent + {yes}, a.n, yes, beat, Won(a));
    LastUpdate(w, a.n, b.n, Asking(a), Voted(b, t, a.n), Won(a));
    Shrink(x, w1[a.n := Won(a)], sent + {yes} + {beat}, sent + {beat});
    Chained(y, x1, x);
  }

  /** An older leader receives `q` twice: it steps down, then takes the entries in and acknowledges. */
  lemma Yields(y: Execution, w: map<NodeId, Node>, sent: set<Message>, n: NodeId, q: Message, term: Term,
               vote: Option<NodeId>,
               terms: seq<Term>, commit: LogIndex, state: LeaderState, after: seq<Term>) returns (x: Execution)
    requires World(y, w, sent) && n in S.Three() && n in w
    requires w[n] == Node(N(n, term, vote, terms, commit), Leader(state))
    requires q in sent && q.to == n && q.body.AppendRequest? && q.term > term && q.body.leaderCommit == 0
    requires Positive(terms) && Positive(after) && Takes(terms, q, after)
    ensures World(x, w[n := Node(N(n, q.term, None, after, commit), Follower(Some(q.from)))],
                  sent + {Message(n, q.from, q.term, AppendResponse(true, |after|))})
    ensures Continues(y, x)
  {
    hide World, Continues, StepEvent, S.Terms, S.Entries, S.At, AbsorbAll, Consistent;
    EntriesTerms(terms);
    EntriesTerms(after);
    S.StepsDown(n, q, term, vote, S.Entries(terms), commit, state);
    var down := Node(N(n, q.term, None, terms, commit), Follower(Some(q.from)));
    var x1 := DoReceive(y, w, sent, n, q, q, down);
    S.Follows(n, q, q.term, None, S.Entries(terms), commit, Some(q.from), S.Entries(after));
    var ack := Message(n, q.from, q.term, AppendResponse(true, |after|));
    var done := Node(N(n, q.term, None, after, commit), Follower(Some(q.from)));
    x := DoReceive(x1, w[n := down], sent + {q}, n, q, ack, done);
    Overwrite(w, n, down, done);
    Shrink(x, w[n := done], sent + {q} + {ack}, sent + {ack});
    Chained(y, x1, x);
  }

  lemma Overwrite(w: map<NodeId, Node>, n: NodeId, first: Node, last: Node)
    ensures w[n := first][n := last] == w[n := last]
  {
  }

  /** A log of these terms accepts the request and ends up with those. */
  ghost predicate Takes(terms: seq<Term>, q: Message, after: seq<Term>)
    requires q.body.AppendRequest?
  {
    && Consistent(S.Entries(terms), q.body.prevLogIndex, q.body.prevLogTerm)
    && AbsorbAll(Plain(S.Entries(terms)), q.body.entries) == Plain(S.Entries(after))
  }

  /** The leader appends an empty command and sends it on. */
  lemma Appends(y: Execution, w: map<NodeId, Node>, sent: set<Message>, n: NodeId, to: NodeId, term: Term,
                terms: seq<Term>, state: LeaderState) returns (x: Execution)
    requires World(y, w, sent) && n in S.Three() && to in S.Three() && to != n && n in w
    requires w[n] == Node(N(n, term, Some(n), terms, 0), Leader(state)) && term >= 1 && Positive(terms)
    requires S.Behind(state, n, 0) && state.Next(to) >= 1
    ensures World(x, w[n := Node(N(n, term, Some(n), terms + [term], 0),
                                 Leader(state.(matchIndex := state.matchIndex[n := |terms| + 1])))],
                  sent + {Req(n, to, term, terms + [term], state.Next(to))})
    ensures x == Then(y, Put(n, [])) && Continues(y, x)
    ensures Honest(y) ==> Honest(x)
  {
    hide World, Continues, NodePropose, S.Terms, S.Entries, S.At, S.Request, S.Longer, S.Behind, Honest;
    EntriesTerms(terms);
    EntriesLonger(terms, term);
    S.Proposes(n, to, term, Some(n), S.Entries(terms), 0, state);
    x := DoPut(y, w, sent, n, Req(n, to, term, terms + [term], state.Next(to)),
               Node(N(n, term, Some(n), terms + [term], 0),
                    Leader(state.(matchIndex := state.matchIndex[n := |terms| + 1]))));
  }

  /** A follower after taking in `q`. */
  function Copied(s: Seat, q: Message, after: seq<Term>): Seat {
    Seat(s.n, q.term, if q.term == s.term then s.vote else None, after, s.commit, Some(q.from))
  }

  /** A follower takes the entries of a leader in and acknowledges them: truthfully, if its log was a prefix of the
      leader's. */
  lemma Acknowledges(y: Execution, w: map<NodeId, Node>, sent: set<Message>, s: Seat, q: Message,
                     after: seq<Term>) returns (x: Execution)
    requires World(y, w, sent) && s.In(w) && q in sent && q.to == s.n && q.body.AppendRequest? && q.term >= s.term
    requires q.body.leaderCommit == 0 && Positive(after) && Takes(s.terms, q, after)
    ensures World(x, w[s.n := Copied(s, q, after).Node()],
                  sent + {Message(s.n, q.from, q.term, AppendResponse(true, |after|))})
    ensures Continues(y, x)
    ensures Honest(y) && Leads(w, q.from, q.term, s.terms) ==> Honest(x)
  {
    hide World, Continues, StepEvent, S.Terms, S.Entries, S.At, AbsorbAll, Consistent, Honest, Leads;
    EntriesTerms(s.terms);
    EntriesTerms(after);
    S.Follows(s.n, q, s.term, s.vote, S.Entries(s.terms), s.commit, s.leader, S.Entries(after));
    x := DoReceive(y, w, sent, s.n, q, Message(s.n, q.from, q.term, AppendResponse(true, |after|)),
                   Copied(s, q, after).Node());
    if Honest(y) && Leads(w, q.from, q.term, s.terms) {
      PrefixGuarded(y, w, sent, s, q);
      HonestThen(y, Deliver(s.n, q, S.Due()));
    }
  }

  /** Node `p` leads `term` with a log that begins with these terms. */
  ghost predicate Leads(w: map<NodeId, Node>, p: NodeId, term: Term, terms: seq<Term>) {
    && p in w && w[p].role.Leader? && w[p].core.Term() == term
    && S.Entries(terms) <= w[p].core.Log().entries
  }

  lemma PrefixGuarded(y: Execution, w: map<NodeId, Node>, sent: set<Message>, s: Seat, q: Message)
    requires World(y, w, sent) && s.In(w) && q.body.AppendRequest? && Leads(w, q.from, q.term, s.terms)
    ensures Guarded(End(y), y.History(|y.actions|), Deliver(s.n, q, S.Due()))
  {
    hide Execution.At, Execution.History, React, WillAck, S.Entries;
    LeaderRecorded(y, |y.actions|, q.from, q.term);
  }

  /** A follower takes the entries of its leader in. */
  lemma Copies(y: Execution, w: map<NodeId, Node>, sent: set<Message>, s: Seat, q: Message,
               after: seq<Term>) returns (x: Execution)
    requires World(y, w, sent) && s.In(w) && q in sent && q.to == s.n && q.body.AppendRequest? && q.term == s.term
    requires q.body.leaderCommit == 0 && Positive(after) && Takes(s.terms, q, after)
    ensures World(x, w[s.n := s.(terms := after, leader := Some(q.from)).Node()], sent) && Continues(y, x)
  {
    hide World, Continues, Takes, N;
    x := Acknowledges(y, w, sent, s, q, after);
    var ack := Message(s.n, q.from, q.term, AppendResponse(true, |after|));
    Shrink(x, w[s.n := Copied(s, q, after).Node()], sent + {ack}, sent);
  }

  function Acked(state: LeaderState, p: NodeId, last: LogIndex): LeaderState {
    state.(matchIndex := state.matchIndex[p := last], nextIndex := state.nextIndex[p := last + 1])
  }

  /** One acknowledgement of the whole log commits it. */
  lemma Commits(y: Execution, w: map<NodeId, Node>, sent: set<Message>, n: NodeId, p: NodeId, term: Term,
                terms: seq<Term>, state: LeaderState) returns (x: Execution)
    requires World(y, w, sent) && n in S.Three() && p in S.Three() && n != p && n in w
    requires w[n] == Node(N(n, term, Some(n), terms, 0), Leader(state)) && Positive(terms) && terms != []
    requires Last(terms) == term && state.Match(n) == |terms|
    requires Message(p, n, term, AppendResponse(true, |terms|)) in sent
    ensures World(x, w[n := Node(N(n, term, Some(n), terms, |terms|), Leader(Acked(state, p, |terms|)))], sent)
    ensures Continues(y, x)
    ensures Honest(y) ==> Honest(x)
  {
    hide World, Continues, StepEvent, S.Terms, S.Entries, S.At, Honest;
    EntriesTerms(terms);
    var q := Message(p, n, term, AppendResponse(true, |terms|));
    S.AckCommits(n, q, term, Some(n), S.Entries(terms), 0, state);
    var done := Node(N(n, term, Some(n), terms, |terms|), Leader(Acked(state, p, |terms|)));
    x := DoReceive(y, w, sent, n, q, q, done);
    Shrink(x, w[n := done], sent + {q}, sent);
  }

  /** The leader starts a read round. */
  lemma Asks(y: Execution, w: map<NodeId, Node>, sent: set<Message>, n: NodeId, to: NodeId, term: Term,
             terms: seq<Term>, state: LeaderState) returns (x: Execution)
    requires World(y, w, sent) && n in S.Three() && to in S.Three() && n != to && n in w
    requires w[n] == Node(N(n, term, Some(n), terms, |terms|), Leader(state)) && Positive(terms) && terms != []
    requires Last(terms) == term && state.pending.None?
    ensures World(x, w[n := Node(N(n, term, Some(n), terms, |terms|), Leader(S.Reading(n, |terms|, state)))],
                  sent + {Message(n, to, term, ReadIndexRequest(state.nextReadId, |terms|))})
    ensures x == Then(y, Read(n)) && Continues(y, x)
    ensures React(End(y), Read(n)).Some?
    ensures React(End(y), Read(n)).value.0 == Node(N(n, term, Some(n), terms, |terms|), Leader(S.Reading(n,
        |terms|, state)))
    ensures Honest(y) ==> Honest(x)
  {
    hide World, Continues, NodeReadIndex, S.Terms, S.Entries, S.At, S.Reading, Honest;
    EntriesTerms(terms);
    S.StartsRead(n, to, term, Some(n), S.Entries(terms), state);
    x := DoRead(y, w, sent, n, Message(n, to, term, ReadIndexRequest(state.nextReadId, |terms|)),
                Node(N(n, term, Some(n), terms, |terms|), Leader(S.Reading(n, |terms|, state))));
  }

  // --- The run, in six acts ---

  function Trio(a: Node, b: Node, c: Node): map<NodeId, Node> { map[0 := a, 1 := b, 2 := c] }

  lemma TrioUpdate(a: Node, b: Node, c: Node, d: Node)
    ensures Trio(a, b, c)[0 := d] == Trio(d, b, c) && Trio(a, b, c)[1 := d] == Trio(a, d, c)
    ensures Trio(a, b, c)[2 := d] == Trio(a, b, d)
  {
  }

  lemma TrioAt(a: Node, b: Node, c: Node)
    ensures 0 in Trio(a, b, c) && 1 in Trio(a, b, c) && 2 in Trio(a, b, c)
    ensures Trio(a, b, c)[0] == a && Trio(a, b, c)[1] == b && Trio(a, b, c)[2] == c
  {
  }

  function Idle(n: NodeId): Seat { Seat(n, 0, None, [], 0, None) }

  lemma Blank() returns (x: Execution)
    ensures World(x, Trio(Idle(0).Node(), Idle(1).Node(), Idle(2).Node()), {}) && Honest(x)
  {
    x := Execution(S.Three(), map n | n in S.Three() :: S.SettingsOf(n), []);
    assert S.Entries([]) == [];
    assert End(x).disks.Keys == S.Three();
    assert End(x).nodes == Trio(Idle(0).Node(), Idle(1).Node(), Idle(2).Node());
  }

  function Voter1(): Seat { Seat(1, 1, Some(0), [], 0, None) }

  lemma Opening() returns (x: Execution)
    ensures World(x, Trio(Won(Idle(0)), Voter1().Node(), Idle(2).Node()), {}) && Honest(x)
  {
    hide World, Continues, Req, Trio, N, Honest;
    var y := Blank();
    var a, b, c := Idle(0).Node(), Idle(1).Node(), Idle(2).Node();
    TrioAt(a, b, c);
    x := Elects(y, Trio(a, b, c), {}, Idle(0), Idle(1), 1);
    TrioUpdate(a, b, c, Voter1().Node());
    TrioUpdate(a, Voter1().Node(), c, Won(Idle(0)));
    Shrink(x, Trio(Won(Idle(0)), Voter1().Node(), c), {} + {Req(0, 1, 1, [], 1)}, {});
  }

  lemma More(y: Execution, state: LeaderState, terms: seq<Term>, b: Node, c: Node)
    returns (x: Execution, state': LeaderState)
    requires World(y, Trio(Node(N(0, 1, Some(0), terms, 0), Leader(state)), b, c), {})
    requires S.Behind(state, 0, 0) && state.Next(1) == 1 && Positive(terms)
    ensures World(x, Trio(Node(N(0, 1, Some(0), terms + [1], 0), Leader(state')), b, c), {})
    ensures S.Behind(state', 0, 0) && state'.Next(1) == 1
  {
    hide World, Continues, Req, Trio, N, Positive;
    var a := Node(N(0, 1, Some(0), terms, 0), Leader(state));
    state' := state.(matchIndex := state.matchIndex[0 := |terms| + 1]);
    var a' := Node(N(0, 1, Some(0), terms + [1], 0), Leader(state'));
    TrioAt(a, b, c);
    TrioUpdate(a, b, c, a');
    x := Appends(y, Trio(a, b, c), {}, 0, 1, 1, terms, state);
    Shrink(x, Trio(a', b, c), {} + {Req(0, 1, 1, terms + [1], 1)}, {});
  }

  /** Node 0 leads term 1 and appends three entries that reach no one. */
  lemma Act1() returns (x: Execution, state: LeaderState)
    ensures World(x, Trio(Node(N(0, 1, Some(0), [1, 1, 1], 0), Leader(state)), Voter1().Node(), Idle(2).Node()), {})
  {
    hide World, Continues, Trio, N, Seat.Node;
    assert [] + [1] == [1] && [1] + [1] == [1, 1] && [1, 1] + [1] == [1, 1, 1];
    var y := Opening();
    FreshFacts(0, []);
    var x1, s1 := More(y, Fresh(0, []), [], Voter1().Node(), Idle(2).Node());
    var x2, s2 := More(x1, s1, [1], Voter1().Node(), Idle(2).Node());
    x, state := More(x2, s2, [1, 1], Voter1().Node(), Idle(2).Node());
  }

  lemma FreshFacts(n: NodeId, terms: seq<Term>)
    requires n in S.Three()
    ensures S.Behind(Fresh(n, terms), n, 0) && forall p :: p in S.Three() ==> Fresh(n, terms).Next(p) == |terms| + 1
    ensures Fresh(n, terms).pending.None? && Fresh(n, terms).nextReadId == 1
  {
  }

  function Zero(term: Term, vote: Option<NodeId>): Seat { Seat(0, term, vote, [1, 1, 1], 0, Some(1)) }

  lemma HeartbeatTaken()
    ensures Req(1, 0, 2, [], 1) == Message(1, 0, 2, AppendRequest(0, 0, [], 0))
    ensures Takes([1, 1, 1], Req(1, 0, 2, [], 1), [1, 1, 1])
  {
    assert S.Entries([]) == [];
  }

  function Two(): Seat { Seat(2, 2, Some(1), [], 0, None) }

  /** Node 1 leads term 2; node 0 acknowledges its first heartbeat with its own three entries. */
  lemma Act2() returns (x: Execution)
    ensures World(x, Trio(Zero(2, None).Node(), Won(Voter1()), Two().Node()), {Message(0, 1, 2,
        AppendResponse(true, 3))})
  {
    hide World, Continues, Trio, N, Req, Takes;
    var y, state := Act1();
    var a, b, c := Node(N(0, 1, Some(0), [1, 1, 1], 0), Leader(state)), Voter1().Node(), Idle(2).Node();
    TrioAt(a, b, c);
    var x1 := Elects(y, Trio(a, b, c), {}, Voter1(), Idle(2), 0);
    TrioUpdate(a, b, c, Two().Node());
    TrioUpdate(a, b, Two().Node(), Won(Voter1()));
    TrioAt(a, Won(Voter1()), Two().Node());
    HeartbeatTaken();
    x := Yields(x1, Trio(a, Won(Voter1()), Two().Node()), {} + {Req(1, 0, 2, [], 1)}, 0, Req(1, 0, 2, [], 1), 1,
        Some(0),
                [1, 1, 1], 0, state, [1, 1, 1]);
    TrioUpdate(a, Won(Voter1()), Two().Node(), Zero(2, None).Node());
    var ack := Message(0, 1, 2, AppendResponse(true, 3));
    Shrink(x, Trio(Zero(2, None).Node(), Won(Voter1()), Two().Node()), {} + {Req(1, 0, 2, [], 1)} + {ack}, {ack});
  }

  lemma FirstTaken()
    ensures Req(1, 2, 2, [2], 1) == Message(1, 2, 2, AppendRequest(0, 0, S.Entries([2]), 0))
    ensures Takes([], Req(1, 2, 2, [2], 1), [2])
  {
    assert S.Entries([2])[0..1] == S.Entries([2]) && S.Entries([]) == [];
    assert AbsorbFirst(Plain([]), S.Entries([2]), 1) == Plain(S.Entries([2]));
  }

  function Tally(state: LeaderState, last: LogIndex): LeaderState {
    state.(matchIndex := state.matchIndex[1 := last])
  }

  lemma TallyTwice(state: LeaderState, i: LogIndex, j: LogIndex)
    ensures Tally(Tally(state, i), j) == Tally(state, j)
  {
    assert state.matchIndex[1 := i][1 := j] == state.matchIndex[1 := j];
  }

  /** Node 1 appends three entries; the first reaches node 2. */
  lemma Act3() returns (x: Execution)
    ensures World(x, Trio(Zero(2, None).Node(), Node(N(1, 2, Some(1), [2, 2, 2], 0), Leader(Tally(Fresh(1, []), 3))),
                          Two().(terms := [2], leader := Some(1)).Node()), {Message(0, 1, 2, AppendResponse(true, 3))})
  {
    hide World, Continues, Trio, N, Req, Takes, Fresh, Honest, Leads;
    var y := Act2();
    var ack := Message(0, 1, 2, AppendResponse(true, 3));
    var a, b, c := Zero(2, None).Node(), Won(Voter1()), Two().Node();
    TrioAt(a, b, c);
    FreshFacts(1, []);
    assert [] + [2] == [2] && [2] + [2] == [2, 2] && [2, 2] + [2] == [2, 2, 2];
    var x1 := Appends(y, Trio(a, b, c), {ack}, 1, 2, 2, [], Fresh(1, []));
    var b1 := Node(N(1, 2, Some(1), [2], 0), Leader(Tally(Fresh(1, []), 1)));
    TrioUpdate(a, b, c, b1);
    TrioAt(a, b1, c);
    FirstTaken();
    var c1 := Two().(terms := [2], leader := Some(1)).Node();
    var x2 := Copies(x1, Trio(a, b1, c), {ack} + {Req(1, 2, 2, [2], 1)}, Two(), Req(1, 2, 2, [2], 1), [2]);
    TrioUpdate(a, b1, c, c1);
    x := TwoMore(x2, a, c1, {ack} + {Req(1, 2, 2, [2], 1)}, ack);
  }

  lemma TwoMore(y: Execution, a: Node, c: Node, sent: set<Message>, ack: Message) returns (x: Execution)
    requires World(y, Trio(a, Node(N(1, 2, Some(1), [2], 0), Leader(Tally(Fresh(1, []), 1))), c), sent) && ack in sent
    ensures World(x, Trio(a, Node(N(1, 2, Some(1), [2, 2, 2], 0), Leader(Tally(Fresh(1, []), 3))), c), {ack})
  {
    hide World, Continues, Trio, N, Req, Fresh;
    FreshFacts(1, []);
    TallyTwice(Fresh(1, []), 1, 2);
    TallyTwice(Fresh(1, []), 2, 3);
    assert [2] + [2] == [2, 2] && [2, 2] + [2] == [2, 2, 2];
    var b1 := Node(N(1, 2, Some(1), [2], 0), Leader(Tally(Fresh(1, []), 1)));
    var b2 := Node(N(1, 2, Some(1), [2, 2], 0), Leader(Tally(Fresh(1, []), 2)));
    var b3 := Node(N(1, 2, Some(1), [2, 2, 2], 0), Leader(Tally(Fresh(1, []), 3)));
    TrioAt(a, b1, c);
    TrioUpdate(a, b1, c, b2);
    var x1 := Appends(y, Trio(a, b1, c), sent, 1, 2, 2, [2], Tally(Fresh(1, []), 1));
    TrioAt(a, b2, c);
    TrioUpdate(a, b2, c, b3);
    x := Appends(x1, Trio(a, b2, c), sent + {Req(1, 2, 2, [2, 2], 1)}, 1, 2, 2, [2, 2], Tally(Fresh(1, []), 2));
    Shrink(x, Trio(a, b3, c), sent + {Req(1, 2, 2, [2, 2], 1)} + {Req(1, 2, 2, [2, 2, 2], 1)}, {ack});
  }

  /** A moment at which node 1 had committed all three of its term-2 entries. */
  ghost predicate Marked(x: Execution, k: nat) {
    && x.Valid() && k <= |x.actions| && 1 in x.At(k).nodes
    && x.At(k).nodes[1].core == N(1, 2, Some(1), [2, 2, 2], 3)
  }

  lemma MarkEnd(x: Execution, nodes: map<NodeId, Node>, sent: set<Message>)
    requires World(x, nodes, sent) && nodes[1].core == N(1, 2, Some(1), [2, 2, 2], 3)
    ensures Marked(x, |x.actions|)
  {
    hide Execution.At, N;
  }

  lemma MarkStays(y: Execution, x: Execution, k: nat)
    requires Marked(y, k) && Continues(y, x)
    ensures Marked(x, k)
  {
    hide Execution.At, N;
  }

  function Reader(): Node {
    Node(N(1, 2, Some(1), [2, 2, 2], 3), Leader(S.Reading(1, 3, Acked(Tally(Fresh(1, []), 3), 0, 3))))
  }

  function OldRead(): Message { Message(1, 0, 2, ReadIndexRequest(1, 3)) }

  function Copy(term: Term, vote: Option<NodeId>, terms: seq<Term>): Seat { Seat(2, term, vote, terms, 0, Some(1)) }

  /** Node 1 takes node 0's word, commits three entries that no other node has, and starts a read round. */
  lemma Act4() returns (x: Execution, k: nat)
    ensures World(x, Trio(Zero(2, None).Node(), Reader(), Copy(2, Some(1), [2]).Node()), {OldRead()}) && Marked(x, k)
  {
    hide World, Continues, Trio, N, Fresh, Seat.Node, S.Reading, Marked;
    var y := Act3();
    var ack := Message(0, 1, 2, AppendResponse(true, 3));
    var state := Tally(Fresh(1, []), 3);
    var a, c := Zero(2, None).Node(), Copy(2, Some(1), [2]).Node();
    var b, b1 := Node(N(1, 2, Some(1), [2, 2, 2], 0), Leader(state)), Node(N(1, 2, Some(1), [2, 2, 2], 3),
        Leader(Acked(state, 0, 3)));
    TrioAt(a, b, c);
    TrioUpdate(a, b, c, b1);
    var x1 := Commits(y, Trio(a, b, c), {ack}, 1, 0, 2, [2, 2, 2], state);
    TrioAt(a, b1, c);
    MarkEnd(x1, Trio(a, b1, c), {ack});
    k := |x1.actions|;
    FreshFacts(1, []);
    TrioUpdate(a, b1, c, Reader());
    x := Asks(x1, Trio(a, b1, c), {ack}, 1, 0, 2, [2, 2, 2], Acked(state, 0, 3));
    MarkStays(x1, x, k);
    Shrink(x, Trio(a, Reader(), c), {ack} + {OldRead()}, {OldRead()});
  }

  /** Node 2 leads term 3 without two of those entries. */
  lemma Act5() returns (x: Execution, k: nat)
    ensures World(x, Trio(Zero(3, Some(2)).Node(), Reader(), Won(Copy(2, Some(1), [2]))), {OldRead()}) && Marked(x, k)
  {
    hide World, Continues, Trio, N, Req, Reader, Fresh, Marked;
    var y, mark := Act4();
    var a, c := Zero(2, None), Copy(2, Some(1), [2]);
    TrioAt(a.Node(), Reader(), c.Node());
    TrioUpdate(a.Node(), Reader(), c.Node(), Zero(3, Some(2)).Node());
    TrioUpdate(Zero(3, Some(2)).Node(), Reader(), c.Node(), Won(c));
    x := Elects(y, Trio(a.Node(), Reader(), c.Node()), {OldRead()}, c, a, 1);
    k := mark;
    MarkStays(y, x, k);
    Shrink(x, Trio(Zero(3, Some(2)).Node(), Reader(), Won(c)), {OldRead()} + {Req(2, 1, 3, [2], 2)}, {OldRead()});
  }

  /** Leader completeness fails without truthful acknowledgements: entries committed in term 2 are missing in term 3. */
  lemma LeaderCompletenessFails()
    ensures exists x: Execution, i: nat, j: nat, n: NodeId, p: NodeId, t: Term ::
      && x.Valid() && i <= j <= |x.actions| && n in x.voters && n in x.At(i).nodes
      && LeadsIn(x.At(j), p, t) && t > x.At(i).nodes[n].core.Term()
      && x.At(i).nodes[n].core.commitIndex <= |LogOf(x.At(i), n)|
      && !(LogOf(x.At(i), n)[..x.At(i).nodes[n].core.commitIndex] <= LogOf(x.At(j), p))
  {
    hide Execution.At;
    var x, i := Act5();
    var j := |x.actions|;
    assert S.Entries([2, 2, 2])[..3] == S.Entries([2, 2, 2]);
    assert |S.Entries([2])| == 1;
    assert LeadsIn(x.At(j), 2, 3) && LogOf(x.At(j), 2) == S.Entries([2]);
    assert LogOf(x.At(i), 1) == S.Entries([2, 2, 2]);
  }

  lemma OverwriteTaken()
    ensures Req(2, 1, 3, [2, 3], 2) == Message(2, 1, 3, AppendRequest(1, 2, [Entry(3, 2, Command([]))], 0))
    ensures Takes([2, 2, 2], Req(2, 1, 3, [2, 3], 2), [2, 3])
  {
    var entries := [Entry(3, 2, Command([]))];
    assert S.Entries([2, 3])[1..2] == entries;
    assert AbsorbFirst(Plain(S.Entries([2, 2, 2])), entries, 1) == Plain(S.Entries([2, 3])) by {
      assert S.Entries([2, 2, 2])[..1] + entries == S.Entries([2, 3]);
    }
  }

  function Back(): Seat { Seat(1, 3, None, [2, 3], 0, None) }

  /** Node 2 replaces two of node 1's committed entries by one of its own; node 1 restarts. */
  lemma Act6() returns (x: Execution)
    ensures World(x, Trio(Zero(3, Some(2)).Node(), Back().Node(),
                          Node(N(2, 3, Some(2), [2, 3], 0), Leader(Tally2(Fresh(2, [2]), 2)))), {OldRead()})
  {
    hide World, Continues, Trio, N, Req, Takes, Fresh, S.Reading;
    var y, k := Act5();
    var a, c := Zero(3, Some(2)).Node(), Won(Copy(2, Some(1), [2]));
    var c1 := Node(N(2, 3, Some(2), [2, 3], 0), Leader(Tally2(Fresh(2, [2]), 2)));
    var q := Req(2, 1, 3, [2, 3], 2);
    FreshFacts(2, [2]);
    OverwriteTaken();
    assert [2] + [3] == [2, 3];
    TrioAt(a, Reader(), c);
    TrioUpdate(a, Reader(), c, c1);
    var x1 := Appends(y, Trio(a, Reader(), c), {OldRead()}, 2, 1, 3, [2], Fresh(2, [2]));
    x := Restarts(x1, a, c1, q);
  }

  function Tally2(state: LeaderState, last: LogIndex): LeaderState {
    state.(matchIndex := state.matchIndex[2 := last])
  }

  lemma Restarts(y: Execution, a: Node, c: Node, q: Message) returns (x: Execution)
    requires World(y, Trio(a, Reader(), c), {OldRead()} + {q}) && q == Req(2, 1, 3, [2, 3], 2)
    ensures World(x, Trio(a, Back().Node(), c), {OldRead()})
  {
    hide World, Continues, Trio, Req, Takes, S.Reading, N, Fresh;
    OverwriteTaken();
    var b := Node(N(1, 3, None, [2, 3], 3), Follower(Some(2)));
    TrioAt(a, Reader(), c);
    TrioUpdate(a, Reader(), c, b);
    var x1 := Yields(y, Trio(a, Reader(), c), {OldRead()} + {q}, 1, q, 2, Some(1), [2, 2, 2], 3,
        Reader().role.state, [2, 3]);
    var ack := Message(1, 2, 3, AppendResponse(true, 2));
    TrioAt(a, b, c);
    Restored();
    TrioUpdate(a, b, c, Back().Node());
    x := DoCrash(x1, Trio(a, b, c), {OldRead()} + {q} + {ack}, 1, ack);
    Shrink(x, Trio(a, Back().Node(), c), {OldRead()} + {q} + {ack} + {ack}, {OldRead()});
  }

  lemma Restored()
    ensures var core := N(1, 3, None, [2, 3], 3);
      Restore(core.settings, core.persistent) == Back().Node()
  {
  }

  lemma LastTaken()
    ensures Req(1, 2, 4, [2, 3, 4], 3) == Message(1, 2, 4, AppendRequest(2, 3, [Entry(4, 3, Command([]))], 0))
    ensures Takes([2, 3], Req(1, 2, 4, [2, 3, 4], 3), [2, 3, 4])
  {
    var entries := [Entry(4, 3, Command([]))];
    assert S.Entries([2, 3, 4])[2..3] == entries;
    assert AbsorbFirst(Plain(S.Entries([2, 3])), entries, 1) == Plain(S.Entries([2, 3, 4])) by {
      assert S.Entries([2, 3]) + entries == S.Entries([2, 3, 4]);
    }
  }

  /** Node 1 leads again, in term 4, with node 0's vote, and appends an entry at index 3. */
  lemma Act7() returns (x: Execution, state: LeaderState)
    ensures World(x, Trio(Zero(4, Some(1)).Node(), Node(N(1, 4, Some(1), [2, 3, 4], 0), Leader(Tally(Fresh(1, [2,
        3]), 3))),
                          Node(N(2, 3, Some(2), [2, 3], 0), Leader(state))), {OldRead()} + {Req(1, 2, 4, [2, 3, 4], 3)})
  {
    hide World, Continues, Trio, N, Req, Fresh;
    var y := Act6();
    var a := Zero(3, Some(2));
    state := Tally2(Fresh(2, [2]), 2);
    var c := Node(N(2, 3, Some(2), [2, 3], 0), Leader(state));
    TrioAt(a.Node(), Back().Node(), c);
    TrioUpdate(a.Node(), Back().Node(), c, Zero(4, Some(1)).Node());
    TrioUpdate(Zero(4, Some(1)).Node(), Back().Node(), c, Won(Back()));
    var x1 := Elects(y, Trio(a.Node(), Back().Node(), c), {OldRead()}, Back(), a, 2);
    var w := Trio(Zero(4, Some(1)).Node(), Won(Back()), c);
    var b := Node(N(1, 4, Some(1), [2, 3, 4], 0), Leader(Tally(Fresh(1, [2, 3]), 3)));
    FreshFacts(1, [2, 3]);
    assert [2, 3] + [4] == [2, 3, 4];
    TrioAt(Zero(4, Some(1)).Node(), Won(Back()), c);
    TrioUpdate(Zero(4, Some(1)).Node(), Won(Back()), c, b);
    Shrink(x1, w, {OldRead()} + {Req(1, 2, 4, [2, 3], 3)}, {OldRead()});
    x := Appends(x1, w, {OldRead()}, 1, 2, 4, [2, 3], Fresh(1, [2, 3]));
  }

  function Confident(): LeaderState { Acked(Tally(Fresh(1, [2, 3]), 3), 2, 3) }

  function Echo(): Message { Message(0, 1, 4, ReadIndexResponse(1, 3)) }

  /** Its entry commits honestly; node 0, now in term 4, answers the old read request under that term. */
  lemma Act8() returns (x: Execution)
    ensures World(x, Trio(Zero(4, Some(1)).Node(), Node(N(1, 4, Some(1), [2, 3, 4], 3), Leader(Confident())),
                          Copy(4, None, [2, 3, 4]).Node()), {Echo()})
  {
    hide World, Continues, Trio, N, Req, Takes, Fresh;
    var y, state := Act7();
    var q, ack := Req(1, 2, 4, [2, 3, 4], 3), Message(2, 1, 4, AppendResponse(true, 3));
    LastTaken();
    var a, b := Zero(4, Some(1)).Node(), Node(N(1, 4, Some(1), [2, 3, 4], 0), Leader(Tally(Fresh(1, [2, 3]), 3)));
    var c, c1 := Node(N(2, 3, Some(2), [2, 3], 0), Leader(state)), Copy(4, None, [2, 3, 4]).Node();
    TrioAt(a, b, c);
    TrioUpdate(a, b, c, c1);
    var x1 := Yields(y, Trio(a, b, c), {OldRead()} + {q}, 2, q, 3, Some(2), [2, 3], 0, state, [2, 3, 4]);
    Shrink(x1, Trio(a, b, c1), {OldRead()} + {q} + {ack}, {OldRead(), ack});
    var b1 := Node(N(1, 4, Some(1), [2, 3, 4], 3), Leader(Confident()));
    TrioAt(a, b, c1);
    TrioUpdate(a, b, c1, b1);
    var x2 := Commits(x1, Trio(a, b, c1), {OldRead(), ack}, 1, 2, 4, [2, 3, 4], Tally(Fresh(1, [2, 3]), 3));
    x := Answers(x2, b1, c1, {OldRead(), ack});
  }

  lemma Answers(y: Execution, b: Node, c: Node, sent: set<Message>) returns (x: Execution)
    requires World(y, Trio(Zero(4, Some(1)).Node(), b, c), sent) && OldRead() in sent
    ensures World(x, Trio(Zero(4, Some(1)).Node(), b, c), {Echo()})
  {
    hide World, Continues, Trio, StepEvent, S.At, S.Entries;
    var a := Zero(4, Some(1)).Node();
    S.Echoes(0, OldRead(), 4, Some(1), S.Entries([1, 1, 1]), 0, Some(1));
    TrioAt(a, b, c);
    TrioUpdate(a, b, c, a);
    x := DoReceive(y, Trio(a, b, c), sent, 0, OldRead(), Echo(), a);
    Shrink(x, Trio(a, b, c), sent + {Echo()}, {Echo()});
  }

  /** Node 2 is elected in term 5. */
  lemma Act9() returns (x: Execution)
    ensures World(x, Trio(Zero(5, Some(2)).Node(), Node(N(1, 4, Some(1), [2, 3, 4], 3), Leader(Confident())),
                          Won(Copy(4, None, [2, 3, 4]))), {Echo()})
  {
    hide World, Continues, Trio, N, Req, Fresh;
    var y := Act8();
    var a, c := Zero(4, Some(1)), Copy(4, None, [2, 3, 4]);
    var b := Node(N(1, 4, Some(1), [2, 3, 4], 3), Leader(Confident()));
    TrioAt(a.Node(), b, c.Node());
    TrioUpdate(a.Node(), b, c.Node(), Zero(5, Some(2)).Node());
    TrioUpdate(Zero(5, Some(2)).Node(), b, c.Node(), Won(c));
    x := Elects(y, Trio(a.Node(), b, c.Node()), {Echo()}, c, a, 0);
    Shrink(x, Trio(Zero(5, Some(2)).Node(), b, Won(c)), {Echo()} + {Req(2, 0, 5, [2, 3, 4], 4)}, {Echo()});
  }

  function Asker(): Node { Node(N(1, 4, Some(1), [2, 3, 4], 3), Leader(S.Reading(1, 3, Confident()))) }

  /** The history after one more action. */
  lemma HistoryThen(y: Execution, a: Action)
    requires y.Valid()
    ensures Then(y, a).History(|y.actions| + 1) == TrackStep(y.voters, End(y), y.History(|y.actions|), a)
  {
    hide TrackStep, Step;
    ThenContinues(y, a);
    var x := Then(y, a);
    assert x.At(|y.actions|) == End(y);
  }

  /** The round of term 4 starts after term 5 was won. */
  lemma RoundRecorded(y: Execution, a: Node, c: Node, sent: set<Message>)
    requires World(y, Trio(a, Node(N(1, 4, Some(1), [2, 3, 4], 3), Leader(Confident())), c), sent)
    requires React(End(y), Read(1)).Some? && React(End(y), Read(1)).value.0 == Asker()
    requires c == Won(Copy(4, None, [2, 3, 4]))
    ensures var h := Then(y, Read(1)).History(|y.actions| + 1); (4, 1) in h.rounds && 5 in h.rounds[(4, 1)]
  {
    hide React, Execution.At, Execution.History;
    FreshFacts(1, [2, 3]);
    assert LeadsIn(y.At(|y.actions|), 2, 5);
    LeaderRecorded(y, |y.actions|, 2, 5);
    HistoryThen(y, Read(1));
    StartRecorded(y.voters, End(y), y.History(|y.actions|), Read(1), 4, 1);
  }

  /** Node 1, still leading term 4, starts a read round with the id and index of the old one. */
  lemma Act10() returns (x: Execution)
    ensures World(x, Trio(Zero(5, Some(2)).Node(), Asker(), Won(Copy(4, None, [2, 3, 4]))), {Echo()})
    ensures var h := x.History(|x.actions|); (4, 1) in h.rounds && 5 in h.rounds[(4, 1)]
  {
    hide World, Continues, Trio, N, Fresh, React, S.Reading, Execution.History;
    var y := Act9();
    var a, c := Zero(5, Some(2)).Node(), Won(Copy(4, None, [2, 3, 4]));
    var b := Node(N(1, 4, Some(1), [2, 3, 4], 3), Leader(Confident()));
    FreshFacts(1, [2, 3]);
    TrioAt(a, b, c);
    TrioUpdate(a, b, c, Asker());
    x := Asks(y, Trio(a, b, c), {Echo()}, 1, 0, 4, [2, 3, 4], Confident());
    RoundRecorded(y, a, c, {Echo()});
    var q := Message(1, 0, 4, ReadIndexRequest(1, 3));
    Shrink(x, Trio(a, Asker(), c), {Echo()} + {q}, {Echo()});
  }

  /** The echo confirms a round that was requested after a later leader had been elected. */
  lemma Confirmed(y: Execution, a: Node, c: Node)
    requires World(y, Trio(a, Asker(), c), {Echo()})
    ensures var x := Then(y, Deliver(1, Echo(), S.Due()));
      x.Valid() && ConfirmsRead(x, |y.actions|, 1) && x.At(|y.actions|) == End(y) && End(y).nodes[1] == Asker()
  {
    hide Execution.At, StepEvent, S.Entries, Fresh;
    ThenContinues(y, Deliver(1, Echo(), S.Due()));
    FreshFacts(1, [2, 3]);
    EntriesTerms([2, 3, 4]);
    S.ConfirmsIt(1, Echo(), 4, Some(1), S.Entries([2, 3, 4]), Confident());
  }

  lemma RoundStays(y: Execution, a: Action)
    requires y.Valid() && (4, 1) in y.History(|y.actions|).rounds
    ensures var h, h' := y.History(|y.actions|), Then(y, a).History(|y.actions| + 1);
      (4, 1) in h'.rounds && h'.rounds[(4, 1)] == h.rounds[(4, 1)]
  {
    hide Execution.At, Execution.History, ClusterInv, TrackStep;
    RunKeepsInv(y, |y.actions|);
    StepExtendsHistory(y.voters, End(y), y.History(|y.actions|), a);
    HistoryThen(y, a);
  }

  /** Read freshness fails when an echo of an older round is about. */
  lemma ReadFreshnessFails()
    ensures exists x: Execution, k: nat, id: nat ::
      x.Valid() && k < |x.actions| && ConfirmsRead(x, k, id) && x.actions[k].n in x.At(k).nodes && !ReadFresh(x, k, id)
  {
    hide World, Trio, Execution.At, Execution.History, ConfirmsRead, S.Reading;
    var y := Act10();
    var a := Deliver(1, Echo(), S.Due());
    Confirmed(y, Zero(5, Some(2)).Node(), Won(Copy(4, None, [2, 3, 4])));
    RoundStays(y, a);
    WorldHas(y, Trio(Zero(5, Some(2)).Node(), Asker(), Won(Copy(4, None, [2, 3, 4]))), {Echo()});
    var x, k := Then(y, a), |y.actions|;
    assert x.actions[k] == a;
    assert !ReadFresh(x, k, 1);
  }

  lemma WorldHas(x: Execution, nodes: map<NodeId, Node>, sent: set<Message>)
    requires World(x, nodes, sent)
    ensures x.Valid() && 1 in End(x).nodes
  {
    hide Execution.At;
  }
}
