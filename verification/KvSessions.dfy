/** Exactly-once mutations: a retry of an answered mutation, at any later point, is invisible. */
module KvSessions {
  import opened Types
  import opened Kv

  predicate Mutation(c: Command) { c.Put? || c.Delete? }

  /** The command was carried out or rejected, rather than turned away unread. */
  predicate Answered(result: Result<Reply, KvError>) { result.Ok? || result.error.Refused? }

  /** The client's session has this mutation, or a later one, on record. */
  predicate Remembered(s: State, c: Command) {
    && Mutation(c) && Validate(c).Ok? && c.client in s.sessions
    && (|| c.sequence < s.sessions[c.client].sequence
        || (c.sequence == s.sessions[c.client].sequence && s.sessions[c.client].request == Some(Validate(c).value)))
  }

  /** The mutation is the latest on record, and this was its answer. */
  predicate Latest(s: State, c: Command, answer: Result<Reply, KvError>) {
    && Remembered(s, c) && s.sessions[c.client].sequence == c.sequence
    && s.sessions[c.client].result.Some? && Answer(s.sessions[c.client].result.value) == answer
  }

  lemma AnsweredIsLatest(s: State, c: Command)
    requires Inv(s) && Mutation(c) && Answered(Apply(s, c).1)
    ensures Latest(Apply(s, c).0, c, Apply(s, c).1)
  {
    hide Mutate;
  }

  lemma MutateKeepsSessions(s: State, request: Request)
    ensures Mutate(s, request).0.sessions == s.sessions
  {
  }

  lemma StaysRemembered(s: State, c: Command, d: Command)
    requires Inv(s) && Remembered(s, c)
    ensures Remembered(Apply(s, d).0, c)
  {
    hide Mutate, Validate;
    if Mutation(d) {
      match Validate(d)
      case Ok(request) => MutateKeepsSessions(s, request);
      case Err(_) =>
    }
  }

  /** Until a higher sequence is recorded, the answer on record does not change. */
  lemma StaysLatest(s: State, c: Command, d: Command, answer: Result<Reply, KvError>)
    requires Inv(s) && Latest(s, c, answer)
    ensures Latest(Apply(s, d).0, c, answer) || Apply(s, d).0.sessions[c.client].sequence > c.sequence
    ensures c.client in Apply(s, d).0.sessions
  {
    hide Mutate, Validate;
    if Mutation(d) {
      match Validate(d)
      case Ok(request) => MutateKeepsSessions(s, request);
      case Err(_) =>
    }
  }

  /** A retry changes nothing, and repeats the answer or reports that it is stale. */
  lemma RetryIsInert(s: State, c: Command, answer: Result<Reply, KvError>)
    requires Inv(s) && Remembered(s, c) && (s.sessions[c.client].sequence == c.sequence ==> Latest(s, c, answer))
    ensures Apply(s, c) == (s, if s.sessions[c.client].sequence == c.sequence then answer else Err(StaleSequence))
  {
    hide Mutate, Validate;
  }

  // --- Over whole logs ---

  /** What every state after an answered mutation still knows of it. */
  ghost predicate Known(s: State, c: Command, answer: Result<Reply, KvError>) {
    Remembered(s, c) && (s.sessions[c.client].sequence == c.sequence ==> Latest(s, c, answer))
  }

  lemma {:induction false} KnownLater(log: seq<Command>, i: nat, j: nat)
    requires i < j <= |log| && Mutation(log[i]) && Answered(ResultAt(New(), log, i))
    ensures Known(Run(New(), log, j), log[i], ResultAt(New(), log, i))
    decreases j - i
  {
    hide Apply, Inv, Latest, Remembered, Run;
    RunStep(New(), log, j - 1);
    RunKeepsInv(log, j - 1);
    var s, c, answer := Run(New(), log, j - 1), log[i], ResultAt(New(), log, i);
    if i == j - 1 {
      AnsweredIsLatest(s, c);
      LatestIsKnown(Run(New(), log, j), c, answer);
    } else {
      KnownLater(log, i, j - 1);
      KnownStep(s, c, log[j - 1], answer);
    }
  }

  lemma LatestIsKnown(s: State, c: Command, answer: Result<Reply, KvError>)
    requires Latest(s, c, answer)
    ensures Known(s, c, answer)
  {
  }

  lemma KnownStep(s: State, c: Command, d: Command, answer: Result<Reply, KvError>)
    requires Inv(s) && Known(s, c, answer)
    ensures Known(Apply(s, d).0, c, answer)
  {
    hide Mutate, Validate;
    StaysRemembered(s, c, d);
    if s.sessions[c.client].sequence == c.sequence {
      StaysLatest(s, c, d, answer);
    } else {
      SequencesGrow(s, c.client, d);
    }
  }

  lemma SequencesGrow(s: State, client: nat, d: Command)
    requires Inv(s) && client in s.sessions
    ensures client in Apply(s, d).0.sessions && Apply(s, d).0.sessions[client].sequence >= s.sessions[client].sequence
  {
    hide Mutate, Validate;
    if Mutation(d) {
      match Validate(d)
      case Ok(request) => MutateKeepsSessions(s, request);
      case Err(_) =>
    }
  }

  /** The log with a retry of command `i` inserted at `j`. */
  function WithRetry(log: seq<Command>, i: nat, j: nat): seq<Command>
    requires i < j <= |log|
  {
    log[..j] + [log[i]] + log[j..]
  }

  lemma {:induction false} RunSamePrefix(s: State, a: seq<Command>, b: seq<Command>, k: nat)
    requires k <= |a| && k <= |b| && a[..k] == b[..k]
    ensures Run(s, a, k) == Run(s, b, k)
  {
    hide Apply;
    if k > 0 {
      assert a[..k - 1] == a[..k][..k - 1] && b[..k - 1] == b[..k][..k - 1];
      assert a[k - 1] == a[..k][k - 1] && b[k - 1] == b[..k][k - 1];
      RunSamePrefix(s, a, b, k - 1);
    }
  }

  /** From the retry on, the longer log is one command behind and in the same states. */
  lemma {:induction false} RunAfterRetry(log: seq<Command>, i: nat, j: nat, k: nat)
    requires i < j <= k <= |log| && Mutation(log[i]) && Answered(ResultAt(New(), log, i))
    ensures Run(New(), WithRetry(log, i, j), k + 1) == Run(New(), log, k)
    decreases k
  {
    hide Apply, Known, Inv;
    var longer := WithRetry(log, i, j);
    if k == j {
      KnownLater(log, i, j);
      RunKeepsInv(log, j);
      assert longer[..j] == log[..j];
      RunSamePrefix(New(), longer, log, j);
      KnownRetry(Run(New(), log, j), log[i], ResultAt(New(), log, i));
    } else {
      RunAfterRetry(log, i, j, k - 1);
      assert longer[k] == log[k - 1];
    }
  }

  lemma KnownRetry(s: State, c: Command, answer: Result<Reply, KvError>)
    requires Inv(s) && Known(s, c, answer)
    ensures c.client in s.sessions
    ensures Apply(s, c) == (s, if s.sessions[c.client].sequence == c.sequence then answer else Err(StaleSequence))
  {
    hide Apply;
    RetryIsInert(s, c, answer);
  }

  /** Inserting a retry of an answered mutation at any later point changes neither the final state nor any
      other result; the retry itself gets the original answer until the client records a higher sequence. */
  lemma RetryIsInvisible(log: seq<Command>, i: nat, j: nat)
    requires i < j <= |log| && Mutation(log[i]) && Answered(ResultAt(New(), log, i))
    ensures Final(New(), WithRetry(log, i, j)) == Final(New(), log)
    ensures forall k :: 0 <= k < j ==> ResultAt(New(), WithRetry(log, i, j), k) == ResultAt(New(), log, k)
    ensures forall k :: j <= k < |log| ==> ResultAt(New(), WithRetry(log, i, j), k + 1) == ResultAt(New(), log, k)
    ensures var s, c := Run(New(), log, j), log[i];
      && c.client in s.sessions
      && ResultAt(New(), WithRetry(log, i, j), j) ==
         if s.sessions[c.client].sequence == c.sequence then ResultAt(New(), log, i) else Err(StaleSequence)
  {
    hide Apply, Known, Inv, Run;
    var longer := WithRetry(log, i, j);
    RunAfterRetry(log, i, j, |log|);
    forall k | 0 <= k < j ensures ResultAt(New(), longer, k) == ResultAt(New(), log, k) {
      assert longer[..k] == log[..k];
      RunSamePrefix(New(), longer, log, k);
    }
    forall k | j <= k < |log| ensures ResultAt(New(), longer, k + 1) == ResultAt(New(), log, k) {
      RunAfterRetry(log, i, j, k);
      assert longer[k + 1] == log[k];
    }
    assert longer[..j] == log[..j];
    RunSamePrefix(New(), longer, log, j);
    KnownLater(log, i, j);
    RunKeepsInv(log, j);
    KnownRetry(Run(New(), log, j), log[i], ResultAt(New(), log, i));
    assert longer[j] == log[i];
  }
}
