/** No ETag ABA: a key that shows the same ETag twice was not touched in between. */
module KvEtags {
  import opened Types
  import opened Kv

  // --- Decimal formatting is injective ---

  lemma {:induction false} DigitsNonEmpty(n: nat)
    ensures |Digits(n)| >= 1 && (n >= 10 ==> |Digits(n)| >= 2)
  {
    if n >= 10 {
      DigitsNonEmpty(n / 10);
    }
  }

  lemma {:induction false} DigitsInjective(a: nat, b: nat)
    requires Digits(a) == Digits(b)
    ensures a == b
    decreases a
  {
    DigitsNonEmpty(a);
    DigitsNonEmpty(b);
    var n := |Digits(a)|;
    if a >= 10 {
      assert Digits(a)[..n - 1] == Digits(a / 10) && Digits(b)[..n - 1] == Digits(b / 10);
      DigitsInjective(a / 10, b / 10);
    }
    assert Digits(a)[n - 1] == Digits(b)[n - 1];
  }

  lemma EtagInjective(a: nat, b: nat)
    requires EtagFor(a) == EtagFor(b)
    ensures a == b
  {
    hide Digits;
    var x, y := Digits(a), Digits(b);
    assert EtagFor(a)[4..|EtagFor(a)| - 1] == x && EtagFor(b)[4..|EtagFor(b)| - 1] == y;
    DigitsInjective(a, b);
  }

  /** What a string of decimal digits stands for. */
  function Value(digits: Text): nat
    requires forall i :: 0 <= i < |digits| ==> 48 <= digits[i] <= 57
  {
    if digits == [] then 0 else 10 * Value(digits[..|digits| - 1]) + (digits[|digits| - 1] as int - 48)
  }

  lemma {:induction false} DigitsRead(n: nat)
    ensures forall i :: 0 <= i < |Digits(n)| ==> 48 <= Digits(n)[i] <= 57
    ensures Value(Digits(n)) == n && (n > 0 ==> Digits(n)[0] != 48)
  {
    if n >= 10 {
      DigitsRead(n / 10);
      DigitsNonEmpty(n / 10);
      assert Digits(n)[..|Digits(n)| - 1] == Digits(n / 10);
    } else {
      assert Digits(n)[..0] == [];
    }
  }

  function Power(d: nat): nat { if d == 0 then 1 else 10 * Power(d - 1) }

  lemma {:induction false} DigitsShort(n: nat, d: nat)
    requires n < Power(d) && d >= 1
    ensures |Digits(n)| <= d
  {
    if n >= 10 {
      DigitsShort(n / 10, d - 1);
    }
  }

  lemma TwentyDigits()
    ensures Power(20) == 100_000_000_000_000_000_000
  {
    assert Power(5) == 100_000;
    assert Power(10) == 100_000 * Power(5);
    assert Power(15) == 100_000 * Power(10);
    assert Power(20) == 100_000 * Power(15);
  }

  /** An ETag is the generation in decimal, without leading zeros, after `c9-` and in quotes; it is short enough to be
      sent back as a condition. */
  lemma EtagReads(g: nat)
    requires 1 <= g <= U64_MAX
    ensures var etag := EtagFor(g);
      && 6 <= |etag| <= MAX_ETAG_BYTES && etag[..4] == [34, 99, 57, 45] && etag[|etag| - 1] == 34 && etag[4] != 48
      && (forall i :: 4 <= i < |etag| - 1 ==> 48 <= etag[i] <= 57) && Value(etag[4..|etag| - 1]) == g
  {
    hide Digits, Value, Power;
    DigitsNonEmpty(g);
    DigitsRead(g);
    TwentyDigits();
    DigitsShort(g, 20);
    var etag := EtagFor(g);
    assert etag[4..|etag| - 1] == Digits(g);
    assert etag[4] == Digits(g)[0];
    assert forall i :: 4 <= i < |etag| - 1 ==> etag[i] == Digits(g)[i - 4];
  }

  // --- What happens to one key ---

  /** The key still carries exactly this entry. */
  predicate Kept(s: State, name: Name, entry: Entry) { name in s.entries && s.entries[name] == entry }

  /** The key is gone, or was written after generation `g` had been handed out. */
  predicate Replaced(s: State, name: Name, g: nat) {
    s.nextGeneration >= g && (name in s.entries ==> s.entries[name].generation >= g)
  }

  /** The command carries out a put or a delete of this key. */
  predicate TakesEffect(s: State, c: Command, name: Name) {
    && (c.Put? || c.Delete?) && Validate(c).Ok? && Validate(c).value.name == name && c.client in s.sessions
    && Cached(s.sessions[c.client], c.sequence, Validate(c).value) == Ok(None)
    && var outcome := Mutate(s, Validate(c).value).1;
       outcome.PutDone? || (outcome.DeleteDone? && outcome.deleted)
  }

  /** A command that takes effect on a key replaces its entry; any other keeps it. */
  lemma EffectReplaces(s: State, c: Command, name: Name)
    requires Inv(s) && name in s.entries
    ensures TakesEffect(s, c, name) ==> Replaced(Apply(s, c).0, name, s.nextGeneration)
    ensures !TakesEffect(s, c, name) ==> Kept(Apply(s, c).0, name, s.entries[name])
  {
    hide EtagFor, Validate, PutPreconditions;
  }

  lemma ReplacedStays(s: State, c: Command, name: Name, g: nat)
    requires Inv(s) && Replaced(s, name, g)
    ensures Replaced(Apply(s, c).0, name, g)
  {
    hide EtagFor, Validate, PutPreconditions;
  }

  lemma GenerationsGrow(s: State, c: Command)
    ensures Apply(s, c).0.nextGeneration >= s.nextGeneration
  {
    hide EtagFor, Validate, PutPreconditions;
  }

  lemma {:induction false} GenerationsGrowOverRun(log: seq<Command>, i: nat, j: nat)
    requires i <= j <= |log|
    ensures Run(New(), log, i).nextGeneration <= Run(New(), log, j).nextGeneration
    decreases j - i
  {
    hide Apply;
    if i < j {
      GenerationsGrowOverRun(log, i, j - 1);
      GenerationsGrow(Run(New(), log, j - 1), log[j - 1]);
    }
  }

  /** Once replaced, replaced for good. */
  lemma {:induction false} ReplacedForGood(log: seq<Command>, i: nat, j: nat, name: Name, g: nat)
    requires i <= j <= |log| && Replaced(Run(New(), log, i), name, g)
    ensures Replaced(Run(New(), log, j), name, g)
    decreases j - i
  {
    hide Apply, Inv, Replaced;
    if i < j {
      ReplacedForGood(log, i, j - 1, name, g);
      Kv.RunKeepsInv(log, j - 1);
      ReplacedStays(Run(New(), log, j - 1), log[j - 1], name, g);
    }
  }

  /** Equal ETags mean equal generations. */
  lemma SameEtagSameGeneration(a: State, b: State, name: Name)
    requires Inv(a) && Inv(b) && name in a.entries && name in b.entries && a.entries[name].etag == b.entries[name].etag
    ensures a.entries[name].generation == b.entries[name].generation < a.nextGeneration
  {
    hide EtagFor;
    EtagInjective(a.entries[name].generation, b.entries[name].generation);
  }

  /** On every run: if a key carries the same ETag at two points, its entry is the same at every point in
      between, and no put or delete took effect on it. */
  lemma {:induction false} NoEtagAba(log: seq<Command>, i: nat, j: nat, name: Name, k: nat)
    requires i <= k <= j <= |log|
    requires name in Run(New(), log, i).entries && name in Run(New(), log, j).entries
    requires Run(New(), log, i).entries[name].etag == Run(New(), log, j).entries[name].etag
    ensures Kept(Run(New(), log, k), name, Run(New(), log, i).entries[name])
    ensures k < j ==> !TakesEffect(Run(New(), log, k), log[k], name)
    decreases k
  {
    hide Apply, TakesEffect, Inv, Run;
    var s, t := Run(New(), log, i), Run(New(), log, j);
    Kv.RunKeepsInv(log, i);
    Kv.RunKeepsInv(log, j);
    SameEtagSameGeneration(s, t, name);
    if k > i {
      NoEtagAba(log, i, j, name, k - 1);
      KeptStep(log, i, k - 1, name);
    }
    if k < j && TakesEffect(Run(New(), log, k), log[k], name) {
      EffectShows(log, i, k, j, name);
    }
  }

  lemma KeptStep(log: seq<Command>, i: nat, k: nat, name: Name)
    requires i <= k < |log| && name in Run(New(), log, i).entries
    requires Kept(Run(New(), log, k), name, Run(New(), log, i).entries[name])
    requires !TakesEffect(Run(New(), log, k), log[k], name)
    ensures Kept(Run(New(), log, k + 1), name, Run(New(), log, i).entries[name])
  {
    hide Apply, TakesEffect, Inv, Run;
    RunStep(New(), log, k);
    Kv.RunKeepsInv(log, k);
    EffectReplaces(Run(New(), log, k), log[k], name);
  }

  /** An effect on the key shows at every later point: the entry is gone or of a later generation. */
  lemma EffectShows(log: seq<Command>, i: nat, k: nat, j: nat, name: Name)
    requires i <= k < j <= |log| && name in Run(New(), log, k).entries
    requires TakesEffect(Run(New(), log, k), log[k], name)
    ensures Replaced(Run(New(), log, j), name, Run(New(), log, i).nextGeneration)
  {
    hide Apply, TakesEffect, Inv, Run;
    RunStep(New(), log, k);
    Kv.RunKeepsInv(log, k);
    EffectReplaces(Run(New(), log, k), log[k], name);
    GenerationsGrowOverRun(log, i, k);
    ReplacedForGood(log, k + 1, j, name, Run(New(), log, i).nextGeneration);
  }

  // --- Conditional mutations ---

  /** The command is well-formed, of a known client, and new to its session. */
  predicate IsNew(s: State, c: Command) {
    && (c.Put? || c.Delete?) && Validate(c).Ok? && c.client in s.sessions && c.sequence > s.sessions[c.client].sequence
  }

  /** A new put takes effect exactly when its condition holds of the key's current entry. */
  lemma ConditionalPut(s: State, c: Command)
    requires c.Put? && IsNew(s, c) && s.nextGeneration < U64_MAX
    ensures var name := Name(c.namespace, c.key);
      TakesEffect(s, c, name) <==>
        && (c.ifNoneMatch ==> name !in s.entries)
        && (c.ifMatch != [] ==> name in s.entries && s.entries[name].etag == c.ifMatch)
  {
    hide EtagFor;
  }

  /** A new delete takes effect exactly when the key is there and its condition, if any, names its ETag. */
  lemma ConditionalDelete(s: State, c: Command)
    requires c.Delete? && IsNew(s, c)
    ensures var name := Name(c.namespace, c.key);
      TakesEffect(s, c, name) <==> name in s.entries && (c.ifMatch == [] || s.entries[name].etag == c.ifMatch)
  {
    hide EtagFor;
  }

  /** What takes effect holds its condition. */
  lemma EffectMatches(s: State, c: Command, name: Name)
    requires TakesEffect(s, c, name) && c.ifMatch != []
    ensures name in s.entries && s.entries[name].etag == c.ifMatch
  {
    hide EtagFor;
  }

  /** Optimistic locking: a put or delete conditional on an ETag read earlier takes effect only if nothing happened
      to the key since the read. */
  lemma OptimisticLocking(log: seq<Command>, i: nat, j: nat, name: Name, k: nat)
    requires i <= k <= j < |log| && name in Run(New(), log, i).entries
    requires TakesEffect(Run(New(), log, j), log[j], name)
    requires log[j].ifMatch == Run(New(), log, i).entries[name].etag != []
    ensures Kept(Run(New(), log, k), name, Run(New(), log, i).entries[name])
    ensures k < j ==> !TakesEffect(Run(New(), log, k), log[k], name)
  {
    hide TakesEffect, Run, Kept;
    EffectMatches(Run(New(), log, j), log[j], name);
    NoEtagAba(log, i, j, name, k);
  }
}
