/** The replicated key-value state machine: sessions, preconditions, generations and ETags. */
module Kv {
  import opened Types

  const MAX_VALUE_BYTES: nat := 65536
  const MAX_NAMESPACE_BYTES: nat := 255
  const MAX_KEY_BYTES: nat := 1024
  const MAX_ETAG_BYTES: nat := 128
  const U64_MAX: nat := 0xFFFF_FFFF_FFFF_FFFF

  /** Text as its UTF-8 bytes: every limit counts bytes. */
  type Text = Bytes

  datatype Name = Name(namespace: Text, key: Text)

  datatype Entry = Entry(body: Bytes, etag: Text, generation: nat)

  datatype Command =
    | RegisterSession
    | ReadBarrier
    | Put(client: nat, sequence: nat, namespace: Text, key: Text, body: Bytes, ifMatch: Text, ifNoneMatch: bool)
    | Delete(client: nat, sequence: nat, namespace: Text, key: Text, ifMatch: Text)

  datatype Request =
    | PutRequest(name: Name, body: Bytes, ifMatch: Text, ifNoneMatch: bool)
    | DeleteRequest(name: Name, ifMatch: Text)

  datatype Rejection = KeyExists | EtagMismatch | GenerationExhausted

  datatype Outcome =
    | PutDone(name: Name, etag: Text, generation: nat, size: nat)
    | DeleteDone(name: Name, etag: Text, generation: nat, deleted: bool)
    | Rejected(rejection: Rejection)

  datatype Session = Session(sequence: nat, request: Option<Request>, result: Option<Outcome>)

  datatype Reply = Registered(client: nat) | Barrier | Done(outcome: Outcome)

  datatype KvError =
    | InvalidArgument
    | ValueTooLarge
    | UnknownSession
    | StaleSequence
    | SequenceReused
    | ClientIdsExhausted
    | Refused(rejection: Rejection)
    | CacheIncomplete
    | CacheInconsistent
    | ResultMismatch

  datatype State = State(nextClientId: nat, nextGeneration: nat, entries: map<Name, Entry>, sessions: map<nat, Session>)

  function New(): State { State(1, 1, map[], map[]) }

  // --- Pure parts ---

  function Digits(n: nat): Text {
    if n < 10 then [(48 + n) as byte] else Digits(n / 10) + [(48 + n % 10) as byte]
  }

  /** A quoted `c9-` followed by the generation in decimal. */
  function EtagFor(generation: nat): Text { [34, 99, 57, 45] + Digits(generation) + [34] }

  function MakeName(namespace: Text, key: Text): Result<Name, KvError> {
    if namespace == [] || |namespace| > MAX_NAMESPACE_BYTES || key == [] || |key| > MAX_KEY_BYTES
    then Err(InvalidArgument) else Ok(Name(namespace, key))
  }

  /** Checks of a mutation that need no state. */
  function Validate(c: Command): Result<Request, KvError>
    requires c.Put? || c.Delete?
  {
    if c.client == 0 || c.sequence == 0 || |c.ifMatch| > MAX_ETAG_BYTES then Err(InvalidArgument)
    else if c.Put? && c.ifMatch != [] && c.ifNoneMatch then Err(InvalidArgument)
    else if c.Put? && |c.body| > MAX_VALUE_BYTES then Err(ValueTooLarge)
    else
      match MakeName(c.namespace, c.key)
      case Err(e) => Err(e)
      case Ok(name) =>
        Ok(if c.Put? then PutRequest(name, c.body, c.ifMatch, c.ifNoneMatch) else DeleteRequest(name, c.ifMatch))
  }

  function PutPreconditions(current: Option<Entry>, ifMatch: Text, ifNoneMatch: bool): Option<Rejection> {
    if ifNoneMatch && current.Some? then Some(KeyExists)
    else if ifMatch != [] && (current.None? || current.value.etag != ifMatch) then Some(EtagMismatch)
    else None
  }

  /** What the session already knows of this mutation: nothing, its outcome, or an error. */
  function Cached(session: Session, sequence: nat, request: Request): Result<Option<Outcome>, KvError> {
    if sequence < session.sequence then Err(StaleSequence)
    else if sequence > session.sequence then Ok(None)
    else
      match (session.request, session.result)
      case (Some(known), Some(result)) => if known == request then Ok(Some(result)) else Err(SequenceReused)
      case (None, None) => Err(CacheIncomplete)
      case _ => Err(CacheInconsistent)
  }

  function Lookup(entries: map<Name, Entry>, name: Name): Option<Entry> {
    if name in entries then Some(entries[name]) else None
  }

  function Record(s: State, client: nat, sequence: nat, request: Request, outcome: Outcome): State {
    s.(sessions := s.sessions[client := Session(sequence, Some(request), Some(outcome))])
  }

  /** An outcome as the caller sees it: a rejection is an error. */
  function Answer(outcome: Outcome): Result<Reply, KvError> {
    if outcome.Rejected? then Err(Refused(outcome.rejection)) else Ok(Done(outcome))
  }

  /** A cached outcome must be of the request's own kind. */
  function AnswerCached(request: Request, outcome: Outcome): Result<Reply, KvError> {
    if (request.PutRequest? && outcome.DeleteDone?) || (request.DeleteRequest?
        && outcome.PutDone?) then Err(ResultMismatch)
    else Answer(outcome)
  }

  // --- Mutations ---

  /** The effect of a mutation that is seen for the first time. */
  function Mutate(s: State, request: Request): (State, Outcome) {
    match request
    case PutRequest(name, body, ifMatch, ifNoneMatch) =>
      var refused := PutPreconditions(Lookup(s.entries, name), ifMatch, ifNoneMatch);
      if refused.Some? then (s, Rejected(refused.value))
      else if s.nextGeneration == U64_MAX then (s, Rejected(GenerationExhausted))
      else
        var g := s.nextGeneration;
        (s.(nextGeneration := g + 1, entries := s.entries[name := Entry(body, EtagFor(g), g)]),
         PutDone(name, EtagFor(g), g, |body|))
    case DeleteRequest(name, ifMatch) =>
      var current := Lookup(s.entries, name);
      if ifMatch != [] && (current.None? || current.value.etag != ifMatch) then (s, Rejected(EtagMismatch))
      else if current.None? then (s, DeleteDone(name, [], 0, false))
      else
        (s.(entries := s.entries - {name}), DeleteDone(name, current.value.etag, current.value.generation, true))
  }

  function ApplyMutation(s: State, c: Command): (State, Result<Reply, KvError>)
    requires c.Put? || c.Delete?
  {
    match Validate(c)
    case Err(e) => (s, Err(e))
    case Ok(request) =>
      if c.client !in s.sessions then (s, Err(UnknownSession))
      else
        match Cached(s.sessions[c.client], c.sequence, request)
        case Err(e) => (s, Err(e))
        case Ok(Some(outcome)) => (s, AnswerCached(request, outcome))
        case Ok(None) =>
          var (after, outcome) := Mutate(s, request);
          (Record(after, c.client, c.sequence, request, outcome), Answer(outcome))
  }

  function Apply(s: State, c: Command): (State, Result<Reply, KvError>) {
    match c
    case RegisterSession =>
      if s.nextClientId == U64_MAX then (s, Err(ClientIdsExhausted))
      else
        (s.(nextClientId := s.nextClientId + 1, sessions := s.sessions[s.nextClientId := Session(0, None, None)]),
         Ok(Registered(s.nextClientId)))
    case ReadBarrier => (s, Ok(Barrier))
    case _ => ApplyMutation(s, c)
  }

  // --- Runs ---

  /** The state after the first `k` commands. */
  function Run(s: State, log: seq<Command>, k: nat): State
    requires k <= |log|
  {
    if k == 0 then s else Apply(Run(s, log, k - 1), log[k - 1]).0
  }

  function Final(s: State, log: seq<Command>): State { Run(s, log, |log|) }

  function ResultAt(s: State, log: seq<Command>, i: nat): Result<Reply, KvError>
    requires i < |log|
  {
    Apply(Run(s, log, i), log[i]).1
  }

  // --- The invariant ---

  predicate SessionOk(session: Session) {
    && (session.sequence == 0 <==> session.request.None?)
    && (session.request.None? <==> session.result.None?)
    && (session.request.Some? ==> OfKind(session.request.value, session.result.value))
  }

  predicate OfKind(request: Request, outcome: Outcome) {
    outcome.Rejected? || (request.PutRequest? <==> outcome.PutDone?)
  }

  ghost predicate Inv(s: State) {
    && 1 <= s.nextClientId <= U64_MAX && 1 <= s.nextGeneration <= U64_MAX
    && (forall id :: id in s.sessions ==> 1 <= id < s.nextClientId && SessionOk(s.sessions[id]))
    && (forall name :: name in s.entries ==>
          1 <= s.entries[name].generation < s.nextGeneration
              && s.entries[name].etag == EtagFor(s.entries[name].generation))
    && (forall a, b :: a in s.entries && b in s.entries ==>
          s.entries[a].generation == s.entries[b].generation ==> a == b)
  }

  lemma MutateKeepsInv(s: State, request: Request)
    requires Inv(s)
    ensures Inv(Mutate(s, request).0) && OfKind(request, Mutate(s, request).1)
    ensures Mutate(s, request).0.sessions == s.sessions && Mutate(s, request).0.nextClientId == s.nextClientId
  {
    hide EtagFor, SessionOk, PutPreconditions;
  }

  /** Every command keeps the invariant: live generations are distinct and below the next one, sessions are
      below the next id, and each session's cache is whole and of one kind. */
  lemma ApplyKeepsInv(s: State, c: Command)
    requires Inv(s)
    ensures Inv(Apply(s, c).0)
  {
    hide Mutate;
    if c.Put? || c.Delete? {
      match Validate(c)
      case Ok(request) => MutateKeepsInv(s, request);
      case Err(_) =>
    }
  }

  lemma {:induction false} RunKeepsInv(log: seq<Command>, k: nat)
    requires k <= |log|
    ensures Inv(Run(New(), log, k))
  {
    hide Inv, Apply;
    if k == 0 {
      NewInv();
    } else {
      RunKeepsInv(log, k - 1);
      ApplyKeepsInv(Run(New(), log, k - 1), log[k - 1]);
    }
  }

  lemma NewInv()
    ensures Inv(New())
  {
  }

  predicate InternalFault(e: KvError) { e.CacheIncomplete? || e.CacheInconsistent? || e.ResultMismatch? }

  /** A refused command leaves entries, generations and client ids alone, and no internal fault ever shows. */
  lemma ErrorsAreAtomic(log: seq<Command>, i: nat)
    requires i < |log| && ResultAt(New(), log, i).Err?
    ensures var before, after := Run(New(), log, i), Run(New(), log, i + 1);
      && after.entries == before.entries && after.nextGeneration == before.nextGeneration
      && after.nextClientId == before.nextClientId
    ensures !InternalFault(ResultAt(New(), log, i).error)
  {
    hide Run;
    RunKeepsInv(log, i);
    RunStep(New(), log, i);
    var s := Run(New(), log, i);
    FaultFree(s, log[i]);
  }

  lemma RunStep(s: State, log: seq<Command>, i: nat)
    requires i < |log|
    ensures Run(s, log, i + 1) == Apply(Run(s, log, i), log[i]).0
  {
  }

  lemma FaultFree(s: State, c: Command)
    requires Inv(s)
    ensures var (after, result) := Apply(s, c);
      result.Err? ==>
        && after.entries == s.entries && after.nextGeneration == s.nextGeneration
            && after.nextClientId == s.nextClientId
        && !InternalFault(result.error)
  {
  }

  // --- The state machine object ---

  class KvState {
    var nextClientId: nat
    var nextGeneration: nat
    var entries: map<Name, Entry>
    var sessions: map<nat, Session>

    function View(): State
      reads this
    {
      State(nextClientId, nextGeneration, entries, sessions)
    }

    constructor ()
      ensures View() == New()
    {
      nextClientId, nextGeneration, entries, sessions := 1, 1, map[], map[];
    }

    method NextClientId() returns (result: Result<nat, KvError>)
      modifies `nextClientId, `sessions
      ensures match Apply(old(View()), RegisterSession)
        case (after, Ok(Registered(id))) => View() == after && result == Ok(id)
        case (after, Err(e)) => View() == after && result == Err(e)
        case (_, Ok(_)) => false
    {
      if nextClientId == U64_MAX {
        return Err(ClientIdsExhausted);
      }
      var id := nextClientId;
      nextClientId := nextClientId + 1;
      sessions := sessions[id := Session(0, None, None)];
      result := Ok(id);
    }

    method NextGeneration() returns (generation: Option<nat>)
      modifies `nextGeneration
      ensures old(nextGeneration) == U64_MAX ==> generation == None && nextGeneration == old(nextGeneration)
      ensures old(nextGeneration) != U64_MAX ==>
        generation == Some(old(nextGeneration)) && nextGeneration == old(nextGeneration) + 1
    {
      if nextGeneration == U64_MAX {
        return None;
      }
      generation := Some(nextGeneration);
      nextGeneration := nextGeneration + 1;
    }

    method Reject(client: nat, sequence: nat, request: Request, rejection: Rejection) returns (result: Result<Reply,
                  KvError>)
      modifies `sessions
      ensures View() == Record(old(View()), client, sequence, request, Rejected(rejection))
      ensures result == Err(Refused(rejection))
    {
      sessions := sessions[client := Session(sequence, Some(request), Some(Rejected(rejection)))];
      result := Err(Refused(rejection));
    }

    /** Answers from the session, or tells that the mutation is new. */
    method CachedMutation(client: nat, sequence: nat, request: Request) returns (answer: Option<Result<Reply, KvError>>)
      ensures answer == if client !in sessions then Some(Err(UnknownSession)) else
        match Cached(sessions[client], sequence, request)
        case Err(e) => Some(Err(e))
        case Ok(None) => None
        case Ok(Some(outcome)) => Some(AnswerCached(request, outcome))
    {
      if client !in sessions {
        return Some(Err(UnknownSession));
      }
      var session := sessions[client];
      if sequence < session.sequence {
        return Some(Err(StaleSequence));
      }
      if sequence > session.sequence {
        return None;
      }
      if session.request.None? && session.result.None? {
        return Some(Err(CacheIncomplete));
      }
      if session.request.None? || session.result.None? {
        return Some(Err(CacheInconsistent));
      }
      if session.request.value != request {
        return Some(Err(SequenceReused));
      }
      match session.result.value {
        case Rejected(rejection) => answer := Some(Err(Refused(rejection)));
        case PutDone(_, _, _, _) =>
          answer := Some(if request.PutRequest? then Ok(Done(session.result.value)) else Err(ResultMismatch));
        case DeleteDone(_, _, _, _) =>
          answer := Some(if request.DeleteRequest? then Ok(Done(session.result.value)) else Err(ResultMismatch));
      }
    }

    method ApplyPut(c: Command) returns (result: Result<Reply, KvError>)
      requires c.Put?
      modifies this
      ensures (View(), result) == ApplyMutation(old(View()), c)
    {
      hide EtagFor;
      if c.client == 0 || c.sequence == 0 {
        return Err(InvalidArgument);
      }
      if |c.ifMatch| > MAX_ETAG_BYTES {
        return Err(InvalidArgument);
      }
      if c.ifMatch != [] && c.ifNoneMatch {
        return Err(InvalidArgument);
      }
      if |c.body| > MAX_VALUE_BYTES {
        return Err(ValueTooLarge);
      }
      if |c.namespace| == 0 || |c.namespace| > MAX_NAMESPACE_BYTES || |c.key| == 0 || |c.key| > MAX_KEY_BYTES {
        return Err(InvalidArgument);
      }
      var name := Name(c.namespace, c.key);
      var request := PutRequest(name, c.body, c.ifMatch, c.ifNoneMatch);
      var known := CachedMutation(c.client, c.sequence, request);
      if known.Some? {
        return known.value;
      }
      if c.ifNoneMatch && name in entries {
        result := Reject(c.client, c.sequence, request, KeyExists);
        return;
      }
      if c.ifMatch != [] && !(name in entries && entries[name].etag == c.ifMatch) {
        result := Reject(c.client, c.sequence, request, EtagMismatch);
        return;
      }
      var generation := NextGeneration();
      if generation.None? {
        result := Reject(c.client, c.sequence, request, GenerationExhausted);
        return;
      }
      var etag := EtagFor(generation.value);
      var outcome := PutDone(name, etag, generation.value, |c.body|);
      entries := entries[name := Entry(c.body, etag, generation.value)];
      sessions := sessions[c.client := Session(c.sequence, Some(request), Some(outcome))];
      result := Ok(Done(outcome));
    }

    method ApplyDelete(c: Command) returns (result: Result<Reply, KvError>)
      requires c.Delete?
      modifies `entries, `sessions
      ensures (View(), result) == ApplyMutation(old(View()), c)
    {
      hide EtagFor;
      if c.client == 0 || c.sequence == 0 {
        return Err(InvalidArgument);
      }
      if |c.ifMatch| > MAX_ETAG_BYTES {
        return Err(InvalidArgument);
      }
      if |c.namespace| == 0 || |c.namespace| > MAX_NAMESPACE_BYTES || |c.key| == 0 || |c.key| > MAX_KEY_BYTES {
        return Err(InvalidArgument);
      }
      var name := Name(c.namespace, c.key);
      var request := DeleteRequest(name, c.ifMatch);
      var known := CachedMutation(c.client, c.sequence, request);
      if known.Some? {
        return known.value;
      }
      if c.ifMatch != [] && !(name in entries && entries[name].etag == c.ifMatch) {
        result := Reject(c.client, c.sequence, request, EtagMismatch);
        return;
      }
      var outcome := DeleteDone(name, [], 0, false);
      if name in entries {
        outcome := DeleteDone(name, entries[name].etag, entries[name].generation, true);
        entries := entries - {name};
      }
      sessions := sessions[c.client := Session(c.sequence, Some(request), Some(outcome))];
      result := Ok(Done(outcome));
    }

    method Execute(c: Command) returns (result: Result<Reply, KvError>)
      modifies this
      ensures (View(), result) == Apply(old(View()), c)
    {
      hide ApplyMutation;
      match c {
        case RegisterSession =>
          var id := NextClientId();
          result := if id.Ok? then Ok(Registered(id.value)) else Err(id.error);
        case ReadBarrier => result := Ok(Barrier);
        case Put(_, _, _, _, _, _, _) => result := ApplyPut(c);
        case Delete(_, _, _, _, _) => result := ApplyDelete(c);
      }
    }
  }
}
