/** What a key holds, and what each command is answered: on every run, a key holds the body of the last put that took
    effect on it, under the ETag and generation that put was answered with. */
module KvContents {
  import opened Types
  import opened Kv
  import KvEtags

  // --- Which mutations are carried out ---

  /** A mutation within every limit on names, values, conditions and numbers. */
  predicate WithinLimits(c: Command)
    requires c.Put? || c.Delete?
  {
    && c.client > 0 && c.sequence > 0 && |c.ifMatch| <= 128
    && 1 <= |c.namespace| <= 255 && 1 <= |c.key| <= 1024
    && (c.Put? ==> |c.body| <= 65536 && !(c.ifMatch != [] && c.ifNoneMatch))
  }

  /** A mutation that its client has not sent before. */
  predicate Fresh(s: State, c: Command) {
    && (c.Put? || c.Delete?) && WithinLimits(c)
    && c.client in s.sessions && c.sequence > s.sessions[c.client].sequence
  }

  function Target(c: Command): Name
    requires c.Put? || c.Delete?
  {
    Name(c.namespace, c.key)
  }

  /** The key carries the ETag the command is conditional on. */
  predicate Matches(s: State, c: Command)
    requires c.Put? || c.Delete?
  {
    c.ifMatch == [] || (Target(c) in s.entries && s.entries[Target(c)].etag == c.ifMatch)
  }

  /** A mutation of this key that is carried out, by its conditions on the state before it. */
  predicate Effective(s: State, c: Command, name: Name) {
    && Fresh(s, c) && Target(c) == name && Matches(s, c)
    && if c.Put? then (c.ifNoneMatch ==> name !in s.entries) && s.nextGeneration < U64_MAX else name in s.entries
  }

  lemma EffectiveTakesEffect(s: State, c: Command, name: Name)
    requires Inv(s)
    ensures Effective(s, c, name) <==> KvEtags.TakesEffect(s, c, name)
  {
    hide EtagFor;
  }

  // --- What commands are answered ---

  /** A mutation is turned away as malformed exactly when it is outside the limits, whatever the state. */
  lemma LimitsExact(s: State, c: Command)
    requires c.Put? || c.Delete?
    ensures WithinLimits(c) <==> Apply(s, c).1 !in {Err(InvalidArgument), Err(ValueTooLarge)}
    ensures !WithinLimits(c) ==> Apply(s, c).0 == s
    ensures WithinLimits(c) && c.client !in s.sessions ==> Apply(s, c) == (s, Err(UnknownSession))
  {
    hide Mutate;
  }

  /** A sequence number used before with another request is refused. */
  lemma ReuseRefused(s: State, c: Command)
    requires Inv(s) && (c.Put? || c.Delete?) && WithinLimits(c) && c.client in s.sessions
    requires c.sequence == s.sessions[c.client].sequence && s.sessions[c.client].request != Some(Validate(c).value)
    ensures Apply(s, c) == (s, Err(SequenceReused))
  {
    hide Mutate;
  }

  /** A fresh put either stores exactly its body under the next generation and its ETag, touching no other key, and is
      answered with these and the body's length; or is refused for the first condition that fails. */
  lemma PutAnswered(s: State, c: Command)
    requires Inv(s) && c.Put? && Fresh(s, c)
    ensures var (after, result) := Apply(s, c);
      var name, g := Target(c), s.nextGeneration;
      if Effective(s, c, name) then
        && result == Ok(Done(PutDone(name, EtagFor(g), g, |c.body|)))
        && name in after.entries && after.entries[name] == Entry(c.body, EtagFor(g), g) && after.nextGeneration == g + 1
        && after.entries - {name} == s.entries - {name}
      else
        && after.entries == s.entries && after.nextGeneration == g
        && result == Err(Refused(if c.ifNoneMatch && name in s.entries then KeyExists
                                 else if !Matches(s, c) then EtagMismatch else GenerationExhausted))
  {
    hide EtagFor;
  }

  /** A fresh delete either removes exactly its key and is answered with the ETag and generation removed; or finds
      nothing to remove and says so; or is refused for its condition. */
  lemma DeleteAnswered(s: State, c: Command)
    requires c.Delete? && Fresh(s, c)
    ensures var (after, result) := Apply(s, c);
      var name := Target(c);
      && after.nextGeneration == s.nextGeneration
      && if Effective(s, c, name) then
           && result == Ok(Done(DeleteDone(name, s.entries[name].etag, s.entries[name].generation, true)))
           && name !in after.entries && after.entries == s.entries - {name}
         else
           && after.entries == s.entries
           && result == if Matches(s, c) then Ok(Done(DeleteDone(name, [], 0, false))) else Err(Refused(EtagMismatch))
  {
    hide EtagFor;
  }

  /** A registration opens a session under an id never used before, from which every first sequence is fresh. */
  lemma RegistrationAnswered(s: State)
    requires Inv(s)
    ensures var (after, result) := Apply(s, RegisterSession);
      if s.nextClientId == U64_MAX then after == s && result == Err(ClientIdsExhausted)
      else
        && result == Ok(Registered(s.nextClientId)) && s.nextClientId !in s.sessions
        && after == s.(nextClientId := s.nextClientId + 1, sessions := after.sessions)
        && after.sessions == s.sessions[s.nextClientId := after.sessions[s.nextClientId]]
        && after.sessions[s.nextClientId].sequence == 0
  {
  }

  lemma BarrierChangesNothing(s: State)
    ensures Apply(s, ReadBarrier) == (s, Ok(Barrier))
  {
  }

  /** Whatever is not carried out leaves every key alone. */
  lemma IneffectiveKeeps(s: State, c: Command, name: Name)
    requires Inv(s) && !Effective(s, c, name)
    ensures Lookup(Apply(s, c).0.entries, name) == Lookup(s.entries, name)
  {
    hide EtagFor;
    if (c.Put? || c.Delete?) && Fresh(s, c) {
      if c.Put? {
        PutAnswered(s, c);
      } else {
        DeleteAnswered(s, c);
      }
    }
  }

  // --- What keys hold ---

  /** Position `i` is the last before `k` at which a mutation of the key was carried out, and it was a put. */
  ghost predicate LastPut(log: seq<Command>, i: nat, k: nat, name: Name) {
    && i < k <= |log| && log[i].Put? && Effective(Run(New(), log, i), log[i], name)
    && forall j :: i < j < k ==> !Effective(Run(New(), log, j), log[j], name)
  }

  /** The entry is the body of the put at `i`, as that put was answered. */
  predicate PutBy(log: seq<Command>, i: nat, name: Name, entry: Entry)
    requires i < |log| && log[i].Put?
  {
    && entry.body == log[i].body && entry.etag == EtagFor(entry.generation)
    && ResultAt(New(), log, i) == Ok(Done(PutDone(name, entry.etag, entry.generation, |entry.body|)))
  }

  /** On every run: a key is present exactly when a put was the last mutation carried out on it, and then it holds that
      put's body, under the ETag and generation the put was answered with. */
  lemma {:induction false} EntryIsLastPut(log: seq<Command>, k: nat, name: Name)
    requires k <= |log|
    ensures name in Run(New(), log, k).entries <==> exists i :: LastPut(log, i, k, name)
    ensures forall i :: LastPut(log, i, k, name) ==>
      name in Run(New(), log, k).entries && PutBy(log, i, name, Run(New(), log, k).entries[name])
  {
    hide Run, Apply, Effective, Inv, EtagFor;
    if k == 0 {
      NothingAtFirst(log, name);
    } else {
      EntryIsLastPut(log, k - 1, name);
      Kv.RunKeepsInv(log, k - 1);
      RunStep(New(), log, k - 1);
      var s, c := Run(New(), log, k - 1), log[k - 1];
      if Effective(s, c, name) {
        EffectShows(log, k - 1, name);
        if c.Put? {
          assert LastPut(log, k - 1, k, name);
        }
      } else {
        IneffectiveKeeps(s, c, name);
        LastPutStays(log, k - 1, k, name);
      }
    }
  }

  lemma NothingAtFirst(log: seq<Command>, name: Name)
    ensures name !in Run(New(), log, 0).entries
  {
  }

  lemma EffectShows(log: seq<Command>, i: nat, name: Name)
    requires i < |log| && Effective(Run(New(), log, i), log[i], name)
    ensures name in Run(New(), log, i + 1).entries <==> log[i].Put?
    ensures log[i].Put? ==> PutBy(log, i, name, Run(New(), log, i + 1).entries[name])
  {
    hide Run, Apply, Inv, EtagFor;
    Kv.RunKeepsInv(log, i);
    RunStep(New(), log, i);
    if log[i].Put? {
      PutAnswered(Run(New(), log, i), log[i]);
    } else {
      DeleteAnswered(Run(New(), log, i), log[i]);
    }
  }

  lemma LastPutStays(log: seq<Command>, j: nat, k: nat, name: Name)
    requires k == j + 1 <= |log| && !Effective(Run(New(), log, j), log[j], name)
    ensures forall i :: LastPut(log, i, k, name) <==> LastPut(log, i, j, name)
    ensures (exists i :: LastPut(log, i, k, name)) <==> exists i :: LastPut(log, i, j, name)
  {
    hide Run, Effective;
    assert forall i :: LastPut(log, i, k, name) <==> LastPut(log, i, j, name);
  }

  /** On every run what is stored is within the limits. */
  lemma {:induction false} StoredWithinLimits(log: seq<Command>, k: nat, name: Name)
    requires k <= |log| && name in Run(New(), log, k).entries
    ensures 1 <= |name.namespace| <= 255 && 1 <= |name.key| <= 1024
    ensures |Run(New(), log, k).entries[name].body| <= 65536
  {
    hide Run, EtagFor;
    EntryIsLastPut(log, k, name);
    var i :| LastPut(log, i, k, name);
  }
}
