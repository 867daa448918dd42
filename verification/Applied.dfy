/** Applying committed commands: the key-value state is a fold of the log. */
module Applied {
  import opened Types
  import opened RaftLog
  import Kv

  /** How a command payload is read; a payload that is no command changes nothing. */
  type Decoder = Bytes -> Option<Kv.Command>

  function ApplyBytes(decode: Decoder, kv: Kv.State, bytes: Bytes): Kv.State {
    match decode(bytes)
    case None => kv
    case Some(command) => Kv.Apply(kv, command).0
  }

  /** The commands among the first `k` entries, each applied once and in order, to the new state. */
  function Fold(decode: Decoder, log: seq<Entry>, k: nat): Kv.State
    requires k <= |log|
  {
    if k == 0 then Kv.New()
    else
      var before := Fold(decode, log, k - 1);
      match log[k - 1].payload
      case Command(bytes) => ApplyBytes(decode, before, bytes)
      case Config(_) => before
  }

  lemma {:induction false} FoldOfPrefix(decode: Decoder, a: seq<Entry>, b: seq<Entry>, k: nat)
    requires k <= |a| && k <= |b| && a[..k] == b[..k]
    ensures Fold(decode, a, k) == Fold(decode, b, k)
  {
    hide ApplyBytes;
    if k > 0 {
      assert a[..k - 1] == a[..k][..k - 1] && b[..k - 1] == b[..k][..k - 1];
      assert a[k - 1] == a[..k][k - 1] && b[k - 1] == b[..k][k - 1];
      FoldOfPrefix(decode, a, b, k - 1);
    }
  }

  /** The commands among the first `k` entries, in order; payloads that are no commands are left out. */
  function Decoded(decode: Decoder, log: seq<Entry>, k: nat): seq<Kv.Command>
    requires k <= |log|
  {
    if k == 0 then []
    else
      Decoded(decode, log, k - 1)
      + if log[k - 1].payload.Command? && decode(log[k - 1].payload.bytes).Some?
        then [decode(log[k - 1].payload.bytes).value] else []
  }

  lemma RunOneMore(commands: seq<Kv.Command>, c: Kv.Command)
    ensures Kv.Final(Kv.New(), commands + [c]) == Kv.Apply(Kv.Final(Kv.New(), commands), c).0
  {
    hide Kv.Apply;
    RunOfPrefix(commands, c, |commands|);
  }

  lemma {:induction false} RunOfPrefix(commands: seq<Kv.Command>, c: Kv.Command, k: nat)
    requires k <= |commands|
    ensures Kv.Run(Kv.New(), commands + [c], k) == Kv.Run(Kv.New(), commands, k)
  {
    hide Kv.Apply;
    if k > 0 {
      RunOfPrefix(commands, c, k - 1);
    }
  }

  /** Folding a log runs exactly its commands through the state machine, each once and in order. */
  lemma {:induction false} FoldIsRun(decode: Decoder, log: seq<Entry>, k: nat)
    requires k <= |log|
    ensures Fold(decode, log, k) == Kv.Final(Kv.New(), Decoded(decode, log, k))
  {
    hide Kv.Apply, Kv.Final;
    if k > 0 {
      FoldIsRun(decode, log, k - 1);
      var commands := Decoded(decode, log, k - 1);
      if log[k - 1].payload.Command? && decode(log[k - 1].payload.bytes).Some? {
        RunOneMore(commands, decode(log[k - 1].payload.bytes).value);
      } else {
        assert commands + [] == commands;
      }
    } else {
      NothingRun();
    }
  }

  lemma NothingRun()
    ensures Kv.Final(Kv.New(), []) == Kv.New()
  {
  }

  // --- The apply loop ---

  /** The first index above `from`, up to `upTo`, that holds a command. */
  function NextCommand(log: Log, from: LogIndex, upTo: LogIndex): (next: Option<LogIndex>)
    ensures next.Some? ==>
      from < next.value <= upTo && log.Get(next.value).Some? && log.Get(next.value).value.payload.Command?
    decreases upTo - from
  {
    if from >= upTo then None
    else if log.Get(from + 1).Some? && log.Get(from + 1).value.payload.Command? then Some(from + 1)
    else NextCommand(log, from + 1, upTo)
  }

  /** The key-value state, and the index it has reached. */
  datatype Progress = Progress(kv: Kv.State, upTo: LogIndex)

  function ApplyCommitted(decode: Decoder, log: Log, commit: LogIndex, p: Progress): Progress
    decreases commit - p.upTo
  {
    match NextCommand(log, p.upTo, commit)
    case None => p
    case Some(i) => ApplyCommitted(decode, log, commit, Progress(ApplyBytes(decode, p.kv,
        log.Get(i).value.payload.bytes), i))
  }

  method FindNextCommand(log: Log, from: LogIndex, upTo: LogIndex) returns (next: Option<LogIndex>)
    ensures next == NextCommand(log, from, upTo)
  {
    var i := from;
    while i < upTo
      invariant NextCommand(log, i, upTo) == NextCommand(log, from, upTo)
    {
      var got := log.Get(i + 1);
      if got.Some? && got.value.payload.Command? {
        return Some(i + 1);
      }
      i := i + 1;
    }
    next := None;
  }

  /** Applies committed commands one at a time, advancing to each entry's own index. */
  method RunApplyLoop(decode: Decoder, log: Log, commit: LogIndex, lastApplied: LogIndex, kv: Kv.KvState)
    returns (applied: LogIndex)
    requires log.Contiguous()
    modifies kv
    ensures Progress(kv.View(), applied) == ApplyCommitted(decode, log, commit, Progress(old(kv.View()), lastApplied))
  {
    hide Kv.Apply;
    applied := lastApplied;
    while true
      invariant ApplyCommitted(decode, log, commit, Progress(kv.View(), applied))
        == ApplyCommitted(decode, log, commit, Progress(old(kv.View()), lastApplied))
      decreases commit - applied
    {
      var next := FindNextCommand(log, applied, commit);
      if next.None? {
        return;
      }
      var entry := log.Get(next.value).value;
      var command := decode(entry.payload.bytes);
      if command.Some? {
        var _ := kv.Execute(command.value);
      }
      applied := entry.index;
    }
  }

  // --- The loop keeps the fold ---

  /** Skipping entries that are no commands does not change the fold, and no command is skipped. */
  lemma {:induction false} FoldSkips(decode: Decoder, log: Log, from: LogIndex, upTo: LogIndex)
    requires log.snapshotIndex == 0 && from <= upTo <= |log.entries|
    ensures var next := NextCommand(log, from, upTo);
      && Fold(decode, log.entries, if next.Some? then next.value - 1 else upTo) == Fold(decode, log.entries, from)
      && (next.None? && from < upTo ==> log.entries[upTo - 1].payload.Config?)
    decreases upTo - from
  {
    hide ApplyBytes;
    if from < upTo && log.entries[from].payload.Config? {
      FoldSkips(decode, log, from + 1, upTo);
    }
  }

  /** From a folded state, the loop ends in the fold of the whole committed prefix, past its last command. */
  lemma {:induction false} LoopFolds(decode: Decoder, log: Log, commit: LogIndex, p: Progress)
    requires log.snapshotIndex == 0 && p.upTo <= commit <= |log.entries| && p.kv == Fold(decode, log.entries, p.upTo)
    ensures var q := ApplyCommitted(decode, log, commit, p);
      && p.upTo <= q.upTo <= commit && q.kv == Fold(decode, log.entries, q.upTo) == Fold(decode, log.entries, commit)
      && (commit > 0 && log.entries[commit - 1].payload.Command? ==> q.upTo == commit)
    decreases commit - p.upTo
  {
    hide ApplyBytes;
    FoldSkips(decode, log, p.upTo, commit);
    var next := NextCommand(log, p.upTo, commit);
    if next.Some? {
      LoopFolds(decode, log, commit, Progress(ApplyBytes(decode, p.kv, log.Get(next.value).value.payload.bytes),
          next.value));
    }
  }
}
