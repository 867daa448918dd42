/**
 A run on which every acknowledgement is truthful and yet a read is ready that misses a committed entry: the leader had
 confirmed an earlier read at the same index, and was replaced since.
 */
module StaleRead {
  import opened Types
  import opened Membership
  import opened RaftLog
  import opened Messages
  import opened RaftCore
  import opened FollowerRole
  import opened LeaderRole
  import opened RaftNode
  import opened Protocol
  import opened Refinement
  import opened Cluster
  import opened Applied
  import opened EndToEnd
  import opened ReadReadiness
  import opened C = Counterexamples
  import S = Scenario

  lemma Joined(x: Execution, w: map<NodeId, Node>, a: set<Message>, b: set<Message>)
    requires World(x, w, a) && World(x, w, b)
    ensures World(x, w, a + b)
  {
    hide Execution.At;
  }

  /** A follower answers a read request of its term. */
  lemma AnswersRead(y: Execution, w: map<NodeId, Node>, sent: set<Message>, s: Seat, q: Message)
    returns (x: Execution)
    requires World(y, w, sent) && s.In(w) && q in sent && q.to == s.n && q.body.ReadIndexRequest? && q.term == s.term
    ensures World(x, w[s.n := s.(leader := Some(q.from)).Node()],
                  sent + {Message(s.n, q.from, q.term, ReadIndexResponse(q.body.id, q.body.readIndex))})
    ensures Honest(y) ==> Honest(x)
  {
    hide World, Continues, StepEvent, S.At, S.Entries, Honest;
    S.AnswersRead(s.n, q, s.term, s.vote, S.Entries(s.terms), s.commit, s.leader);
    x := DoReceive(y, w, sent, s.n, q, Message(s.n, q.from, q.term, ReadIndexResponse(q.body.id, q.body.readIndex)),
                   s.(leader := Some(q.from)).Node());
  }

  /** The leader's state once its round at `index` is confirmed. */
  function Sure(n: NodeId, index: LogIndex, state: LeaderState): LeaderState {
    S.Reading(n, index, state).(pending := None, confirmedReadIndex := Max(state.confirmedReadIndex, index))
  }

  /** One answer confirms the leader's round. */
  lemma Settles(y: Execution, w: map<NodeId, Node>, sent: set<Message>, n: NodeId, p: NodeId, term: Term,
                terms: seq<Term>, state: LeaderState) returns (x: Execution)
    requires World(y, w, sent) && n in S.Three() && p in S.Three() && n != p && n in w && state.pending.None?
    requires w[n] == Node(N(n, term, Some(n), terms, |terms|), Leader(S.Reading(n, |terms|, state)))
    requires Positive(terms) && Message(p, n, term, ReadIndexResponse(state.nextReadId, |terms|)) in sent
    ensures World(x, w[n := Node(N(n, term, Some(n), terms, |terms|), Leader(Sure(n, |terms|, state)))], sent)
    ensures Honest(y) ==> Honest(x)
  {
    hide World, Continues, StepEvent, S.At, S.Entries, Honest, S.Reading;
    var q := Message(p, n, term, ReadIndexResponse(state.nextReadId, |terms|));
    EntriesTerms(terms);
    S.ConfirmsIt(n, q, term, Some(n), S.Entries(terms), state);
    var done := Node(N(n, term, Some(n), terms, |terms|), Leader(Sure(n, |terms|, state)));
    x := DoReceive(y, w, sent, n, q, q, done);
    Shrink(x, w[n := done], sent + {q}, sent);
  }

  // --- The run ---

  function First(): LeaderState { Fresh(0, []).(matchIndex := Fresh(0, []).matchIndex[0 := 1]) }

  function One(): Seat { Seat(1, 1, Some(0), [1], 0, Some(0)) }

  function Other(): Seat { Seat(2, 1, None, [1], 0, Some(0)) }

  function Ack(n: NodeId): Message { Message(n, 0, 1, AppendResponse(true, 1)) }

  lemma OneTaken(p: NodeId)
    ensures Req(0, p, 1, [1], 1) == Message(0, p, 1, AppendRequest(0, 0, S.Entries([1]), 0))
    ensures Takes([], Req(0, p, 1, [1], 1), [1])
  {
    assert S.Entries([1])[0..1] == S.Entries([1]) && S.Entries([]) == [];
    assert AbsorbFirst(Plain([]), S.Entries([1]), 1) == Plain(S.Entries([1]));
  }

  function Author(): Node { Node(N(0, 1, Some(0), [1], 0), Leader(First())) }

  /** Node 0 leads term 1 and sends its first entry to both others. */
  lemma Spreads() returns (x: Execution)
    ensures World(x, Trio(Author(), Voter1().Node(), Idle(2).Node()), {Req(0, 1, 1, [1], 1), Req(0, 2, 1, [1], 1)})
    ensures Honest(x)
  {
    hide World, Continues, Req, Trio, N, Honest, Seat.Node;
    var y := Opening();
    var a, b, c := Won(Idle(0)), Voter1().Node(), Idle(2).Node();
    TrioAt(a, b, c);
    TrioUpdate(a, b, c, Author());
    FreshFacts(0, []);
    assert [] + [1] == [1];
    x := Appends(y, Trio(a, b, c), {}, 0, 1, 1, [], Fresh(0, []));
    var again := Appends(y, Trio(a, b, c), {}, 0, 2, 1, [], Fresh(0, []));
    Joined(x, Trio(Author(), b, c), {} + {Req(0, 1, 1, [1], 1)}, {} + {Req(0, 2, 1, [1], 1)});
    assert {} + {Req(0, 1, 1, [1], 1)} + ({} + {Req(0, 2, 1, [1], 1)}) == {Req(0, 1, 1, [1], 1), Req(0, 2, 1, [1], 1)};
  }

  lemma AuthorLeads(b: Node, c: Node)
    ensures Leads(Trio(Author(), b, c), 0, 1, [])
  {
    assert S.Entries([]) == [];
  }

  /** Both take it in and say so. */
  lemma Replicated() returns (x: Execution)
    ensures World(x, Trio(Author(), One().Node(), Other().Node()), {Ack(1)}) && Honest(x)
  {
    hide World, Continues, Trio, N, Honest, Takes, Leads, Author, Req;
    var y := Spreads();
    var q, r := Req(0, 1, 1, [1], 1), Req(0, 2, 1, [1], 1);
    OneTaken(1);
    OneTaken(2);
    var b, c := Voter1(), Idle(2);
    AuthorLeads(b.Node(), c.Node());
    TrioAt(Author(), b.Node(), c.Node());
    TrioUpdate(Author(), b.Node(), c.Node(), One().Node());
    var x1 := Acknowledges(y, Trio(Author(), b.Node(), c.Node()), {q, r}, b, q, [1]);
    AuthorLeads(One().Node(), c.Node());
    TrioAt(Author(), One().Node(), c.Node());
    TrioUpdate(Author(), One().Node(), c.Node(), Other().Node());
    x := Acknowledges(x1, Trio(Author(), One().Node(), c.Node()), {q, r} + {Ack(1)}, c, r, [1]);
    Shrink(x, Trio(Author(), One().Node(), Other().Node()), {q, r} + {Ack(1)} + {Ack(2)}, {Ack(1)});
  }

  function Settled(): LeaderState { Sure(0, 1, Acked(First(), 1, 1)) }

  function Server(): Node { Node(N(0, 1, Some(0), [1], 1), Leader(Settled())) }

  lemma FirstFacts()
    ensures First().Match(0) == 1 && First().pending.None? && Acked(First(), 1, 1).pending.None?
    ensures Acked(First(), 1, 1).nextReadId == 1 && Settled().pending.None? && Settled().confirmedReadIndex == 1
  {
  }

  /** The entry is committed, and a read at its index requested and confirmed. */
  lemma FirstRead() returns (x: Execution)
    ensures World(x, Trio(Server(), One().Node(), Other().Node()), {}) && Honest(x)
  {
    hide World, Continues, Trio, N, Honest, First, S.Reading, Seat.Node;
    FirstFacts();
    var y := Replicated();
    var a, b, c := Author(), One().Node(), Other().Node();
    var state := Acked(First(), 1, 1);
    var a1 := Node(N(0, 1, Some(0), [1], 1), Leader(state));
    var a2 := Node(N(0, 1, Some(0), [1], 1), Leader(S.Reading(0, 1, state)));
    TrioAt(a, b, c);
    TrioUpdate(a, b, c, a1);
    var x1 := Commits(y, Trio(a, b, c), {Ack(1)}, 0, 1, 1, [1], First());
    var ask, yes := Message(0, 1, 1, ReadIndexRequest(1, 1)), Message(1, 0, 1, ReadIndexResponse(1, 1));
    TrioAt(a1, b, c);
    TrioUpdate(a1, b, c, a2);
    var x2 := Asks(x1, Trio(a1, b, c), {Ack(1)}, 0, 1, 1, [1], state);
    TrioAt(a2, b, c);
    TrioUpdate(a2, b, c, b);
    var x3 := AnswersRead(x2, Trio(a2, b, c), {Ack(1)} + {ask}, One(), ask);
    TrioUpdate(a2, b, c, Server());
    x := Settles(x3, Trio(a2, b, c), {Ack(1)} + {ask} + {yes}, 0, 1, 1, [1], state);
    Shrink(x, Trio(Server(), b, c), {Ack(1)} + {ask} + {yes}, {});
  }

  function Behind(): Seat { Seat(2, 2, Some(1), [1], 0, Some(0)) }

  function Second(): LeaderState { Fresh(1, [1]).(matchIndex := Fresh(1, [1]).matchIndex[1 := 2]) }

  function Successor(commit: LogIndex, state: LeaderState): Node {
    Node(N(1, 2, Some(1), [1, 2], commit), Leader(state))
  }

  lemma NextTaken()
    ensures Req(1, 2, 2, [1, 2], 2) == Message(1, 2, 2, AppendRequest(1, 1, [Entry(2, 2, Command([]))], 0))
    ensures Takes([1], Req(1, 2, 2, [1, 2], 2), [1, 2])
  {
    var entries := [Entry(2, 2, Command([]))];
    assert S.Entries([1, 2])[1..2] == entries;
    assert AbsorbFirst(Plain(S.Entries([1])), entries, 1) == Plain(S.Entries([1, 2])) by {
      assert S.Entries([1]) + entries == S.Entries([1, 2]);
    }
  }

  lemma SuccessorLeads(a: Node, c: Node)
    ensures Leads(Trio(a, Successor(0, Second()), c), 1, 2, [1])
  {
    assert S.Entries([1, 2])[..1] == S.Entries([1]);
  }

  /** Node 1 is elected in term 2 and appends an entry. */
  lemma Succeeds() returns (x: Execution)
    ensures World(x, Trio(Server(), Successor(0, Second()), Behind().Node()), {Req(1, 2, 2, [1, 2], 2)}) && Honest(x)
  {
    hide World, Continues, Trio, N, Honest, Req, Fresh, Settled;
    var y := FirstRead();
    var a, b, c := Server(), One(), Other();
    TrioAt(a, b.Node(), c.Node());
    TrioUpdate(a, b.Node(), c.Node(), Behind().Node());
    TrioUpdate(a, b.Node(), Behind().Node(), Won(b));
    var x1 := Elects(y, Trio(a, b.Node(), c.Node()), {}, b, c, 2);
    Shrink(x1, Trio(a, Won(b), Behind().Node()), {} + {Req(1, 2, 2, [1], 2)}, {});
    FreshFacts(1, [1]);
    assert [1] + [2] == [1, 2];
    TrioAt(a, Won(b), Behind().Node());
    TrioUpdate(a, Won(b), Behind().Node(), Successor(0, Second()));
    x := Appends(x1, Trio(a, Won(b), Behind().Node()), {}, 1, 2, 2, [1], Fresh(1, [1]));
    assert {} + {Req(1, 2, 2, [1, 2], 2)} == {Req(1, 2, 2, [1, 2], 2)};
  }

  /** Node 2 takes the entry in, and node 1 commits it. */
  lemma Overtakes() returns (x: Execution)
    ensures World(x, Trio(Server(), Successor(2, Acked(Second(), 2, 2)),
                          Seat(2, 2, Some(1), [1, 2], 0, Some(1)).Node()), {})
    ensures Honest(x)
  {
    hide World, Continues, Trio, N, Honest, Req, Takes, Leads, Fresh, Settled;
    var y := Succeeds();
    var q, ack := Req(1, 2, 2, [1, 2], 2), Message(2, 1, 2, AppendResponse(true, 2));
    var a, b, c := Server(), Successor(0, Second()), Seat(2, 2, Some(1), [1, 2], 0, Some(1)).Node();
    NextTaken();
    SuccessorLeads(a, Behind().Node());
    TrioAt(a, b, Behind().Node());
    TrioUpdate(a, b, Behind().Node(), c);
    var x1 := Acknowledges(y, Trio(a, b, Behind().Node()), {q}, Behind(), q, [1, 2]);
    TrioAt(a, b, c);
    TrioUpdate(a, b, c, Successor(2, Acked(Second(), 2, 2)));
    x := Commits(x1, Trio(a, b, c), {q} + {ack}, 1, 2, 2, [1, 2], Second());
    Shrink(x, Trio(a, Successor(2, Acked(Second(), 2, 2)), c), {q} + {ack}, {});
  }

  /** Step `i` of the run requests a read that is ready at once, at an index below what another node has committed. */
  ghost predicate ServedStale(decode: Decoder, x: Execution, i: nat, n: NodeId, id: nat, p: NodeId) {
    && x.Valid() && i < |x.actions| && x.TruthfulUpTo(i + 1) && RequestsRead(x, i, n, id)
    && p in x.At(i).nodes && n in x.At(i + 1).nodes
    && var index := NodeReadIndex(x.At(i).nodes[n]).value.0;
       NodeReadIndexReady(Driven(decode, x, n, i + 1), index) && x.At(i).nodes[p].core.commitIndex > index
  }

  function Reader(): Node { Node(N(0, 1, Some(0), [1], 1), Leader(S.Reading(0, 1, Settled()))) }

  lemma ReaderFacts()
    ensures NodeReadIndex(Server()).Ok? && NodeReadIndex(Server()).value.0 == 1
    ensures Server().role.state.nextReadId == 2 && Reader().role.state.confirmedReadIndex == 1
    ensures Reader().core.commitIndex == 1
  {
    hide NodeReadIndex;
    EntriesTerms([1]);
    FirstFacts();
    S.StartsRead(0, 1, 1, Some(0), S.Entries([1]), Settled());
    ReadStarts(Server());
  }

  /** Node 0, deposed without knowing it, is asked for a second read at the index it had confirmed. */
  lemma SecondRead(decode: Decoder, y: Execution, b: Node, c: Node) returns (x: Execution)
    requires World(y, Trio(Server(), b, c), {}) && Honest(y) && b.core.commitIndex == 2
    ensures ServedStale(decode, x, |y.actions|, 0, 2, 1)
  {
    hide Execution.History, Execution.TruthfulUpTo, Trio, N, S.Reading, Settled, NodeReadIndex, ProgressAt, Fold, React,
         Run;
    ReaderFacts();
    FirstFacts();
    TrioAt(Server(), b, c);
    TrioUpdate(Server(), b, c, Reader());
    x := Asks(y, Trio(Server(), b, c), {}, 0, 1, 1, [1], Settled());
    TrioAt(Reader(), b, c);
    var i := |y.actions|;
    TruthfulAppliedIsFold(decode, x, 0, i + 1);
    assert x.At(i) == End(y) && x.At(i + 1) == End(x);
    assert RequestsRead(x, i, 0, 2);
    assert Driven(decode, x, 0, i + 1).role == Reader().role;
    assert NodeReadIndexReady(Driven(decode, x, 0, i + 1), 1);
  }

  /** Readiness alone does not make a read fresh, even on truthful runs: a read at an index that was confirmed before
      is ready as soon as it is requested, though another node may have committed more by then. */
  lemma ReadyReadMayBeStale(decode: Decoder)
    ensures exists x: Execution, i: nat, n: NodeId, id: nat, p: NodeId :: ServedStale(decode, x, i, n, id, p)
  {
    hide World, Honest, Trio, ServedStale;
    var y := Overtakes();
    var x := SecondRead(decode, y, Successor(2, Acked(Second(), 2, 2)), Seat(2, 2, Some(1), [1, 2], 0, Some(1)).Node());
  }
}
