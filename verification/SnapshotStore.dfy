/**
 * The published state file and its archives: one writer at a time under the conductor lock, a
 * reader that holds no lock, and a crash possible between any two filesystem steps.
 *
 * Hashing is injective, so a snapshot hash is modelled by the snapshot it names: the predecessor
 * hash is the predecessor, and an archive file is the snapshot whose hash names it.
 */
module SnapshotStore {
  import opened Wrappers

  datatype Snapshot = Snapshot(revision: nat, previous: Option<Snapshot>, body: nat)

  /** Revision zero has no predecessor; every other revision follows its predecessor. */
  predicate Chained(s: Snapshot) {
    if s.revision == 0 then s.previous.None? else s.previous.Some? && s.previous.value.revision == s.revision - 1
  }

  datatype WriterPc =
    | Resting
    | ArchiveCurrent(next: Snapshot)
    | ArchiveNext(next: Snapshot)
    | Publish(next: Snapshot)
    | ListArchives(next: Snapshot)
    | Prune(next: Snapshot, todo: set<Snapshot>)

  /** An absent state file is the corruption error too. */
  datatype ReadResult = Value(snapshot: Snapshot) | Locked | Corrupt

  datatype ReaderPc =
    | Asleep
    | ReadFile(attempt: nat)
    | CheckCurrent(attempt: nat, raw: Snapshot)
    | CheckPrevious(attempt: nat, raw: Snapshot)
    | Recheck(attempt: nat, raw: Snapshot)
    | Finished(result: ReadResult)

  /** For the claims only: `during` collects every state file content since the read began, `taken` what its attempts read. */
  datatype State = State(
    file: Option<Snapshot>,
    archives: set<Snapshot>,
    writer: WriterPc,
    reader: ReaderPc,
    during: set<Snapshot>,
    taken: seq<Snapshot>)

  const EMPTY: State := State(None, {}, Resting, Asleep, {}, [])

  datatype Action = BeginWrite(next: Snapshot) | Write | PruneOne(victim: Snapshot) | CrashWriter | BeginRead | Read

  // ---------- the writer ----------

  predicate Succeeds(next: Snapshot, file: Option<Snapshot>) {
    Chained(next) && next.previous == file
  }

  function Retained(next: Snapshot): set<Snapshot> {
    if next.previous.Some? then {next, next.previous.value} else {next}
  }

  /** Initialization archives and publishes; a mutation also archives the current snapshot and prunes. */
  function BeginWriteStep(s: State, next: Snapshot): State {
    if s.writer != Resting || !Succeeds(next, s.file) then s
    else s.(writer := if s.file.Some? then ArchiveCurrent(next) else ArchiveNext(next))
  }

  function WriteStep(s: State): State {
    match s.writer
    case ArchiveCurrent(n) => s.(archives := s.archives + (if s.file.Some? then {s.file.value} else {}), writer := ArchiveNext(n))
    case ArchiveNext(n) => s.(archives := s.archives + {n}, writer := Publish(n))
    case Publish(n) => s.(file := Some(n), during := s.during + {n}, writer := if n.previous.Some? then ListArchives(n) else Resting)
    case ListArchives(n) => s.(writer := Prune(n, s.archives - Retained(n)))
    case Prune(n, todo) => if todo == {} then s.(writer := Resting) else s
    case Resting => s
  }

  function PruneStep(s: State, victim: Snapshot): State {
    if s.writer.Prune? && victim in s.writer.todo
    then s.(archives := s.archives - {victim}, writer := Prune(s.writer.next, s.writer.todo - {victim}))
    else s
  }

  // ---------- the reader ----------

  function BeginReadStep(s: State): State {
    s.(reader := ReadFile(0), during := if s.file.Some? then {s.file.value} else {}, taken := [])
  }

  function ReadStep(s: State): State {
    match s.reader
    case ReadFile(k) =>
      if s.file.None? then s.(reader := Finished(Corrupt))
      else s.(reader := CheckCurrent(k, s.file.value), taken := s.taken + [s.file.value])
    case CheckCurrent(k, raw) =>
      s.(reader := if raw !in s.archives then Recheck(k, raw) else if raw.revision > 0 then CheckPrevious(k, raw) else Finished(Value(raw)))
    case CheckPrevious(k, raw) =>
      s.(reader := if Chained(raw) && raw.previous.Some? && raw.previous.value in s.archives then Finished(Value(raw)) else Recheck(k, raw))
    case Recheck(k, raw) =>
      s.(reader := if s.file.Some? && s.file.value != raw then (if k < 3 then ReadFile(k + 1) else Finished(Locked)) else Finished(Corrupt))
    case _ => s
  }

  function Step(s: State, a: Action): State {
    match a
    case BeginWrite(n) => BeginWriteStep(s, n)
    case Write => WriteStep(s)
    case PruneOne(v) => PruneStep(s, v)
    case CrashWriter => s.(writer := Resting)
    case BeginRead => BeginReadStep(s)
    case Read => ReadStep(s)
  }

  function Exec(s: State, run: seq<Action>): State {
    if run == [] then s else Step(Exec(s, run[..|run| - 1]), run[|run| - 1])
  }

  /** A read that nothing interrupts. */
  function QuietRead(s: State): ReadResult {
    var r := ReadStep(ReadStep(ReadStep(ReadStep(BeginReadStep(s))))).reader;
    if r.Finished? then r.result else Locked
  }

  // ---------- the invariant ----------

  /** The published snapshot and its predecessor are always archived. */
  predicate Published(s: State) {
    s.file.Some? ==> Chained(s.file.value) && s.file.value in s.archives && Retained(s.file.value) <= s.archives
  }

  /** While a write is in progress the state file is still the old snapshot or already the new one. */
  predicate WriterPlaced(s: State) {
    match s.writer
    case Resting => true
    case ArchiveCurrent(n) => Succeeds(n, s.file)
    case ArchiveNext(n) => Succeeds(n, s.file) && (s.file.Some? ==> s.file.value in s.archives)
    case Publish(n) => Succeeds(n, s.file) && Retained(n) <= s.archives
    case ListArchives(n) => s.file == Some(n)
    case Prune(n, todo) => s.file == Some(n) && todo !! Retained(n) && s.archives - Retained(n) == todo
  }

  /** What a reader holds is current, or an older revision than what is current. */
  predicate Stale(s: State, raw: Snapshot) {
    s.file.Some? && s.file.value.revision > raw.revision
  }

  /** Each attempt read a newer snapshot than the one before, all published since the read began. */
  predicate Ascending(taken: seq<Snapshot>, during: set<Snapshot>) {
    && (forall i :: 0 <= i < |taken| ==> taken[i] in during)
    && (forall i, j :: 0 <= i < j < |taken| ==> taken[i].revision < taken[j].revision)
  }

  /** The attempt's number is that of what was read before it, and the last of that is no longer current. */
  predicate Retrying(s: State, k: nat) {
    k < 4 && |s.taken| == k && (k > 0 ==> Stale(s, s.taken[k - 1]))
  }

  predicate Checking(s: State, k: nat, raw: Snapshot) {
    k < 4 && |s.taken| == k + 1 && s.taken[k] == raw && (s.file == Some(raw) || Stale(s, raw))
  }

  predicate ReaderPlaced(s: State) {
    match s.reader
    case Asleep => true
    case ReadFile(k) => Retrying(s, k)
    case CheckCurrent(k, raw) => Checking(s, k, raw)
    case CheckPrevious(k, raw) => Checking(s, k, raw) && raw.revision > 0
    case Recheck(k, raw) => Checking(s, k, raw) && Stale(s, raw)
    case Finished(Value(raw)) => s.taken != [] && raw == s.taken[|s.taken| - 1]
    case Finished(Locked) => |s.taken| == 4 && Stale(s, s.taken[3])
    case Finished(Corrupt) => s.taken == []
  }

  predicate Inv(s: State) {
    && Published(s) && WriterPlaced(s) && ReaderPlaced(s) && Ascending(s.taken, s.during)
    && (s.reader != Asleep && s.file.Some? ==> s.file.value in s.during)
  }

  lemma WriteKeepsInv(s: State)
    requires Inv(s)
    ensures Inv(WriteStep(s))
  {
    if s.writer.Publish? {
      PublishKeepsReader(s, s.writer.next);
    } else {
      ReaderIgnoresArchives(s, WriteStep(s));
    }
    hide ReaderPlaced, Ascending, Chained;
  }

  lemma ReaderIgnoresArchives(s: State, t: State)
    requires ReaderPlaced(s) && Ascending(s.taken, s.during)
    requires s.file == t.file && s.reader == t.reader && s.taken == t.taken && s.during == t.during
    ensures ReaderPlaced(t) && Ascending(t.taken, t.during)
  {
    hide Ascending;
  }

  lemma PublishKeepsReader(s: State, n: Snapshot)
    requires ReaderPlaced(s) && Ascending(s.taken, s.during) && s.writer == Publish(n) && Succeeds(n, s.file)
    ensures ReaderPlaced(WriteStep(s)) && Ascending(WriteStep(s).taken, WriteStep(s).during)
  {
    var t := WriteStep(s);
    if s.file.Some? {
      assert t.file.value.revision == s.file.value.revision + 1;
      assert forall raw :: Stale(s, raw) ==> Stale(t, raw);
    }
  }

  lemma PruneKeepsInv(s: State, victim: Snapshot)
    requires Inv(s)
    ensures Inv(PruneStep(s, victim))
  {
  }

  lemma AscendingGrows(taken: seq<Snapshot>, during: set<Snapshot>, s: Snapshot)
    requires Ascending(taken, during) && s in during
    requires taken != [] ==> taken[|taken| - 1].revision < s.revision
    ensures Ascending(taken + [s], during)
  {
  }

  lemma ReadKeepsInv(s: State)
    requires Inv(s)
    ensures Inv(ReadStep(s))
  {
    match s.reader
    case ReadFile(_) =>
      if s.file.Some? {
        AscendingGrows(s.taken, s.during, s.file.value);
      }
      hide Ascending, WriterPlaced;
    case CheckCurrent(_, _) =>
      hide Ascending, WriterPlaced;
    case CheckPrevious(_, _) =>
      hide Ascending, WriterPlaced;
    case Recheck(_, _) =>
      hide Ascending, WriterPlaced;
    case _ =>
  }

  lemma StepKeepsInv(s: State, a: Action)
    requires Inv(s)
    ensures Inv(Step(s, a))
  {
    hide WriteStep, PruneStep, ReadStep;
    match a
    case Write => WriteKeepsInv(s);
    case PruneOne(v) => PruneKeepsInv(s, v);
    case Read => ReadKeepsInv(s);
    case _ =>
  }

  lemma {:induction false} RunKeepsInv(run: seq<Action>)
    ensures Inv(Exec(EMPTY, run))
    decreases |run|
  {
    hide Inv, Step;
    if run == [] {
      assert Inv(EMPTY) by { EmptyInv(); }
    } else {
      RunKeepsInv(run[..|run| - 1]);
      StepKeepsInv(Exec(EMPTY, run[..|run| - 1]), run[|run| - 1]);
    }
  }

  lemma EmptyInv()
    ensures Inv(EMPTY)
  {
  }

  // ---------- what readers see ----------

  /**
   * A read overlapping any commits and crashes returns the last snapshot it read, published during the read; or gives
   * up as locked after four attempts that each read a newer snapshot and after a fifth was published; or reports
   * corruption having found no state file.
   */
  lemma ReadsArePublished(run: seq<Action>)
    requires Exec(EMPTY, run).reader.Finished?
    ensures var s := Exec(EMPTY, run);
            && Ascending(s.taken, s.during)
            && match s.reader.result
               case Value(snapshot) => s.taken != [] && snapshot == s.taken[|s.taken| - 1] && snapshot in s.during
               case Locked => |s.taken| == 4 && s.file.Some? && s.file.value in s.during && s.taken[3].revision < s.file.value.revision
               case Corrupt => s.taken == []
  {
    RunKeepsInv(run);
  }

  /** The steps after a read began, up to the next read's beginning. */
  predicate SameRead(run: seq<Action>) {
    forall i :: 0 <= i < |run| ==> run[i] != BeginRead
  }

  lemma StepKeepsFirst(s: State, a: Action)
    requires a != BeginRead && Inv(s)
    ensures s.file.Some? ==> Step(s, a).file.Some?
    ensures s.taken != [] ==> Step(s, a).taken != []
    ensures s.reader == Finished(Corrupt) ==> Step(s, a).reader == Finished(Corrupt)
  {
    hide Published, Ascending, ReaderPlaced;
  }

  lemma {:induction false} RunKeepsFirst(s: State, run: seq<Action>)
    requires SameRead(run) && Inv(s)
    ensures Inv(Exec(s, run))
    ensures s.file.Some? ==> Exec(s, run).file.Some?
    ensures s.taken != [] ==> Exec(s, run).taken != []
    ensures s.reader == Finished(Corrupt) ==> Exec(s, run).reader == Finished(Corrupt)
    decreases |run|
  {
    hide Inv, Step;
    if run != [] {
      var front, last := run[..|run| - 1], run[|run| - 1];
      RunKeepsFirst(s, front);
      StepKeepsFirst(Exec(s, front), last);
      StepKeepsInv(Exec(s, front), last);
    }
  }

  /** A read ends in the corruption error exactly when no state file exists at its first step. */
  lemma CorruptExactly(before: seq<Action>, after: seq<Action>)
    requires Exec(EMPTY, before).reader == ReadFile(0) && SameRead(after)
    requires Exec(Step(Exec(EMPTY, before), Read), after).reader.Finished?
    ensures Exec(Step(Exec(EMPTY, before), Read), after).reader == Finished(Corrupt) <==> Exec(EMPTY, before).file.None?
  {
    RunKeepsInv(before);
    var first := Step(Exec(EMPTY, before), Read);
    StepKeepsInv(Exec(EMPTY, before), Read);
    RunKeepsFirst(first, after);
    hide Exec, Published, WriterPlaced, Ascending;
  }

  /** A read begun once a run is published never ends in the corruption error, whatever commits and crashes overlap it. */
  lemma NeverCorruptOncePublished(before: seq<Action>, after: seq<Action>)
    requires Exec(EMPTY, before).file.Some? && SameRead(after)
    ensures Exec(Step(Exec(EMPTY, before), BeginRead), after).reader != Finished(Corrupt)
  {
    RunKeepsInv(before);
    var begun := Step(Exec(EMPTY, before), BeginRead);
    StepKeepsInv(Exec(EMPTY, before), BeginRead);
    FoundFile(begun, after);
  }

  lemma {:induction false} FoundFile(s: State, run: seq<Action>)
    requires SameRead(run) && Inv(s) && s.file.Some? && s.reader == ReadFile(0)
    ensures Exec(s, run).reader != Finished(Corrupt)
    decreases |run|
  {
    hide Step, Inv;
    if run != [] {
      var front, last := run[..|run| - 1], run[|run| - 1];
      FoundFile(s, front);
      RunKeepsFirst(s, front);
      StepFinds(Exec(s, front), last);
    }
  }

  lemma StepFinds(s: State, a: Action)
    requires a != BeginRead && Inv(s) && s.file.Some? && s.reader != Finished(Corrupt)
    ensures Step(s, a).reader != Finished(Corrupt)
  {
    hide Ascending, WriterPlaced;
  }

  /** A read that overlaps the initialization and begins too early ends in the corruption error, though nothing is corrupt. */
  lemma EarlyReadIsCorrupt(genesis: Snapshot)
    requires genesis.revision == 0 && genesis.previous.None?
    ensures var s := Exec(EMPTY, [BeginWrite(genesis), Write, BeginRead, Read, Write]);
            s.reader == Finished(Corrupt) && s.file == Some(genesis) && Published(s)
  {
    var begun := Step(EMPTY, BeginWrite(genesis));
    assert begun == EMPTY.(writer := ArchiveNext(genesis));
    var archived := Step(begun, Write);
    assert archived == EMPTY.(writer := Publish(genesis), archives := {genesis});
    var read := Step(Step(archived, BeginRead), Read);
    assert read == archived.(reader := Finished(Corrupt));
    hide Step;
    ExecFive(EMPTY, BeginWrite(genesis), Write, BeginRead, Read, Write);
  }

  lemma ExecFive(s: State, a: Action, b: Action, c: Action, d: Action, e: Action)
    ensures Exec(s, [a, b, c, d, e]) == Step(Step(Step(Step(Step(s, a), b), c), d), e)
  {
    hide Step;
    assert [a, b, c, d, e][..4] == [a, b, c, d] && [a, b, c, d][..3] == [a, b, c] && [a, b, c][..2] == [a, b] && [a, b][..1] == [a];
    assert Exec(s, [a]) == Step(s, a);
    assert Exec(s, [a, b]) == Step(Exec(s, [a]), b);
    assert Exec(s, [a, b, c]) == Step(Exec(s, [a, b]), c);
    assert Exec(s, [a, b, c, d]) == Step(Exec(s, [a, b, c]), d);
  }

  /** Wherever a write stops, an uninterrupted read gives exactly the old or the new snapshot; after an initialization that did not publish, the
      corruption error. */
  lemma CrashLeavesOldOrNew(run: seq<Action>)
    requires !Exec(EMPTY, run).writer.Resting?
    ensures var s := Exec(EMPTY, run);
            var crashed := Step(s, CrashWriter);
            var next := s.writer.next;
            && (crashed.file == next.previous || crashed.file == Some(next))
            && QuietRead(crashed) == (if crashed.file.Some? then Value(crashed.file.value) else Corrupt)
  {
    RunKeepsInv(run);
    var s := Exec(EMPTY, run);
    StepKeepsInv(s, CrashWriter);
    QuietReadIsFile(Step(s, CrashWriter));
  }

  lemma QuietReadIsFile(s: State)
    requires Published(s)
    ensures QuietRead(s) == (if s.file.Some? then Value(s.file.value) else Corrupt)
  {
    var s1 := BeginReadStep(s);
    var s2 := ReadStep(s1);
    if s.file.Some? {
      assert s2.reader == CheckCurrent(0, s.file.value);
      var s3 := ReadStep(s2);
      if s.file.value.revision > 0 {
        assert s3.reader == CheckPrevious(0, s.file.value);
        assert s.file.value.previous.value in s.archives;
      }
    }
  }

  /** A mutation that runs to its end leaves exactly the current and the previous archives. */
  lemma CompletedMutationRetainsTwo(run: seq<Action>)
    requires Exec(EMPTY, run).writer.Prune? && Exec(EMPTY, run).writer.todo == {}
    ensures var s := Step(Exec(EMPTY, run), Write);
            s.writer == Resting && s.file.Some? && s.archives == Retained(s.file.value)
  {
    RunKeepsInv(run);
  }

  // ---------- an undisturbed write ----------

  /** The steps of an undisturbed write up to its publication. */
  function Published3(s: State, next: Snapshot): State {
    var archived := WriteStep(WriteStep(BeginWriteStep(s, next)));
    if s.file.Some? then WriteStep(archived) else archived
  }

  /** Archiving and publishing take three steps, two for the first snapshot; the successor is then what readers see. */
  lemma WritePublishes(s: State, next: Snapshot)
    requires s.writer == Resting && Succeeds(next, s.file)
    ensures var t := Published3(s, next);
            && t.file == Some(next) && t.reader == s.reader
            && t.archives == s.archives + Retained(next)
            && t.writer == (if s.file.Some? then ListArchives(next) else Resting)
  {
    var begun := BeginWriteStep(s, next);
    var first := WriteStep(begun);
    var second := WriteStep(first);
    if s.file.Some? {
      assert first.archives == s.archives + {s.file.value};
    }
  }

  /** Pruning one archive after another and resting leaves exactly the retained ones. */
  lemma {:induction false} PruningEnds(s: State) returns (run: seq<Action>)
    requires s.writer.Prune? && s.writer.todo == s.archives - Retained(s.writer.next)
    ensures forall i :: 0 <= i < |run| ==> run[i].PruneOne? || run[i] == Write
    ensures Exec(s, run) == s.(writer := Resting, archives := s.archives * Retained(s.writer.next))
    decreases |s.writer.todo|
  {
    if s.writer.todo == {} {
      run := [Write];
      assert run[..0] == [];
      assert s.archives * Retained(s.writer.next) == s.archives;
    } else {
      var victim :| victim in s.writer.todo;
      var t := Step(s, PruneOne(victim));
      var rest := PruningEnds(t);
      run := [PruneOne(victim)] + rest;
      ExecFirst(s, PruneOne(victim), rest);
      assert t.archives * Retained(s.writer.next) == s.archives * Retained(s.writer.next);
    }
  }

  /** Left alone, a mutation publishes its successor and ends with exactly the two retained archives. */
  lemma MutationCompletes(s: State, next: Snapshot) returns (run: seq<Action>)
    requires Inv(s) && s.writer == Resting && s.file.Some? && Succeeds(next, s.file)
    ensures forall i :: 0 <= i < |run| ==> run[i].BeginWrite? || run[i] == Write || run[i].PruneOne?
    ensures var t := Exec(s, run); t.file == Some(next) && t.writer == Resting && t.archives == Retained(next) && t.reader == s.reader
  {
    WritePublishes(s, next);
    var first := Step(s, BeginWrite(next));
    var second := Step(first, Write);
    var third := Step(second, Write);
    var published := Step(third, Write);
    assert published == Published3(s, next);
    var listed := Step(published, Write);
    assert listed == published.(writer := Prune(next, published.archives - Retained(next)));
    var rest := PruningEnds(listed);
    hide Step, Inv;
    ExecFirst(published, Write, rest);
    ExecFirst(third, Write, [Write] + rest);
    ExecFirst(second, Write, [Write] + ([Write] + rest));
    ExecFirst(first, Write, [Write] + ([Write] + ([Write] + rest)));
    ExecFirst(s, BeginWrite(next), [Write] + ([Write] + ([Write] + ([Write] + rest))));
    run := [BeginWrite(next)] + ([Write] + ([Write] + ([Write] + ([Write] + rest))));
    assert published.archives * Retained(next) == Retained(next);
  }

  lemma {:induction false} ExecFirst(s: State, a: Action, run: seq<Action>)
    ensures Exec(s, [a] + run) == Exec(Step(s, a), run)
    decreases |run|
  {
    hide Step;
    if run == [] {
      assert ([a] + run)[..0] == [];
    } else {
      ExecFirst(s, a, run[..|run| - 1]);
      assert ([a] + run)[..|run|] == [a] + run[..|run| - 1];
    }
  }

  // ---------- the store operations, step by step ----------

  /** The files of one run as the operations change them; `budget` is how many filesystem steps happen before a crash. */
  class RunDirectory {
    var file: Option<Snapshot>
    var archives: set<Snapshot>
    var budget: nat

    constructor (steps: nat)
      ensures file == None && archives == {} && budget == steps
    {
      file, archives, budget := None, {}, steps;
    }

    ghost predicate Consistent()
      reads this
    {
      file.Some? ==> Chained(file.value) && file.value in archives && Retained(file.value) <= archives
    }

    /** One filesystem step, unless the process has crashed. */
    method Alive() returns (alive: bool)
      modifies this`budget
      ensures alive == (old(budget) > 0)
      ensures budget == if alive then old(budget) - 1 else 0
    {
      alive := budget > 0;
      if alive {
        budget := budget - 1;
      }
    }

    method ArchiveSnapshot(s: Snapshot) returns (alive: bool)
      modifies this`archives, this`budget
      ensures archives == if alive then old(archives) + {s} else old(archives)
      ensures alive == (old(budget) > 0) && budget == if alive then old(budget) - 1 else 0
    {
      alive := Alive();
      if alive {
        archives := archives + {s};
      }
    }

    method WriteSnapshot(s: Snapshot) returns (alive: bool)
      modifies this`file, this`budget
      ensures file == if alive then Some(s) else old(file)
      ensures alive == (old(budget) > 0) && budget == if alive then old(budget) - 1 else 0
    {
      alive := Alive();
      if alive {
        file := Some(s);
      }
    }

    method PruneSnapshotArchives(s: Snapshot) returns (alive: bool)
      modifies this`archives, this`budget
      ensures old(archives) * Retained(s) <= archives <= old(archives)
      ensures alive ==> archives == old(archives) * Retained(s)
      ensures alive <==> old(budget) >= |old(archives) - Retained(s)|
    {
      var names := archives;
      while names != {}
        invariant names <= old(archives)
        invariant old(archives) * Retained(s) <= archives <= old(archives)
        invariant archives - names <= Retained(s)
        invariant old(budget) - budget == |old(archives) - Retained(s)| - |names - Retained(s)|
        decreases names
      {
        var name :| name in names;
        ghost var left := names - Retained(s);
        names := names - {name};
        assert names - Retained(s) == left - {name};
        if name !in Retained(s) {
          alive := Alive();
          if !alive {
            return;
          }
          archives := archives - {name};
        }
      }
      alive := true;
    }

    /** Publishes a successor: archive both, rename, prune. Wherever it stops the files stay consistent. */
    method Mutate(next: Snapshot) returns (completed: bool)
      requires Consistent() && file.Some? && Succeeds(next, file)
      modifies this
      ensures Consistent() && (file == old(file) || file == Some(next))
      ensures completed ==> file == Some(next) && archives == {next, old(file).value}
      ensures file == Some(next) <==> old(budget) >= 3
      ensures completed <==> old(budget) >= 3 + |old(archives) + {next} - {next, old(file).value}|
    {
      var current := file.value;
      completed := ArchiveSnapshot(current);
      if !completed { return; }
      completed := ArchiveSnapshot(next);
      if !completed { return; }
      completed := WriteSnapshot(next);
      if !completed { return; }
      assert archives - Retained(next) == old(archives) + {next} - {next, current};
      completed := PruneSnapshotArchives(next);
    }

    method Initialize(genesis: Snapshot) returns (completed: bool)
      requires file.None? && Succeeds(genesis, None)
      modifies this
      ensures Consistent() && (file == None || file == Some(genesis))
      ensures completed ==> file == Some(genesis) && archives == old(archives) + {genesis}
      ensures completed <==> old(budget) >= 2
      ensures file == Some(genesis) <==> completed
    {
      completed := ArchiveSnapshot(genesis);
      if !completed { return; }
      completed := WriteSnapshot(genesis);
    }

    /** A read under the lock: the published snapshot, its archive, and its predecessor's archive. */
    method Read() returns (r: ReadResult)
      requires Consistent()
      ensures r == if file.Some? then Value(file.value) else Corrupt
    {
      if file.None? {
        return Corrupt;
      }
      var raw := file.value;
      if raw !in archives {
        return Corrupt;
      }
      if raw.revision > 0 && (raw.previous.None? || raw.previous.value !in archives || raw.previous.value.revision != raw.revision - 1) {
        return Corrupt;
      }
      return Value(raw);
    }
  }
}
