/**
 The stage handlers as one process runs them: each command verifies the chain, then writes its
 lock and its state record through `write_json_create_once`. `survives` says how many file
 operations the invocation lives through; writing a new file takes two, creating and filling.
 Every handler is proved to be a run of the step relation in `LockChain`.
 */
module PrivateRoot {
  import opened Wrappers
  import opened LockChain

  datatype Write = Written | Reused | Differs | Died

  /** `AlreadyVerified`: a repeated public verification, which succeeds and writes nothing. */
  datatype Exit = Done | AlreadyVerified | NotAdmitted | LockDiffers | Interrupted

  /**
   In every reachable store a command's chain checks let it write exactly when the stage before
   its first one is wholly written; verifying the public outputs also wants stage 5 unbegun.
   */
  lemma AdmissionIsTheChain(h: Hash, s: Store, c: Command)
    requires StoreOk(h, s) && (c.VerifyCorrected? ==> c.version != Original)
    ensures Admits(h, s, c) <==> Follows(s, First(c)) && (c == VerifyPublic ==> LockFile(5) !in s)
  {
    if Admits(h, s, c) {
      AdmittedFollows(h, s, c);
    }
    if Follows(s, First(c)) && (c == VerifyPublic ==> LockFile(5) !in s) {
      ChainIsAdmitted(h, s, c);
    }
  }

  /**
   Public verification can be repeated, without writing, exactly when it is wholly written and the
   format repair after it is wholly written or has not begun.
   */
  lemma VerificationRepeatsExactly(h: Hash, s: Store)
    requires StoreOk(h, s)
    ensures Reverifies(h, s) <==> Whole(s, 5) && (Untouched(s, 6) || Whole(s, 6))
    ensures Reverifies(h, s) ==> !Admits(h, s, VerifyPublic)
  {
    StoreShows(h, s);
    if Whole(s, 5) {
      assert Whole(s, 2) && Whole(s, 3) && Whole(s, 4);
      assert Binds(h, s, 2) && Binds(h, s, 3) && Binds(h, s, 4) && Binds(h, s, 5) && Linked(h, s, 4);
      assert Whole(s, 6) ==> Binds(h, s, 6) && Linked(h, s, 6);
    }
  }

  lemma ChainIsAdmitted(h: Hash, s: Store, c: Command)
    requires StoreOk(h, s) && (c.VerifyCorrected? ==> c.version != Original)
    requires Follows(s, First(c)) && (c == VerifyPublic ==> LockFile(5) !in s)
    ensures Admits(h, s, c)
  {
    StoreShows(h, s);
    forall j: nat | j < First(c) ensures Binds(h, s, j) && (j > 0 ==> Linked(h, s, j)) {
      assert j == First(c) - 1 || Whole(s, j);
    }
    match c {
      case VerifyPublic =>
        NothingLater(h, s, 5);
        assert Untouched(s, 5) && Untouched(s, 6);
      case Replay(v) =>
        assert Binds(h, s, Base(v)) && Binds(h, s, Base(v) + 1) && Binds(h, s, Base(v) + 2);
      case VerifyCorrected(v) =>
        assert Binds(h, s, Base(v)) && Binds(h, s, Base(v) + 1) && Binds(h, s, Base(v) + 2) && Binds(h, s, Base(v) + 3);
      case FreezeCorrectedV3 =>
        assert Binds(h, s, 7);
      case _ =>
    }
  }

  /** A stage that has not begun leaves no trace of itself or of any later one. */
  lemma NothingLater(h: Hash, s: Store, i: nat)
    requires StoreOk(h, s) && LockFile(i) !in s
    ensures forall j :: j >= i ==> Untouched(s, j)
  {
    forall j: nat | j >= i ensures Untouched(s, j) {
      if !Untouched(s, j) {
        BegunEarlier(h, s, i, j);
      }
    }
  }

  lemma BegunEarlier(h: Hash, s: Store, i: nat, j: nat)
    requires StoreOk(h, s) && i <= j && !Untouched(s, j)
    ensures LockFile(i) in s
  {
    StoreShows(h, s);
    assert StateFile(j) in s ==> StateOk(h, s, j);
    assert i < j ==> Whole(s, i);
  }

  lemma RunSnoc(h: Hash, schedule: seq<Action>, a: Action)
    ensures Run(h, schedule + [a]) == Do(h, Run(h, schedule), a)
  {
    assert (schedule + [a])[..|schedule|] == schedule;
  }

  /** What the chain guarantees the one running process. */
  lemma RunningIsOk(h: Hash, schedule: seq<Action>, w: World, pid: nat, p: Process)
    requires Run(h, schedule) == w && w.processes == map[pid := p]
    ensures StoreOk(h, w.store) && ProcessOk(h, w.store, p)
  {
    ChainHolds(h, schedule);
    assert pid in w.processes && w.processes[pid] == p;
  }

  lemma BeginsRunning(h: Hash, schedule: seq<Action>, files: Store, clock: nat, c: Command)
    requires Run(h, schedule) == World(files, map[], clock) && Admits(h, files, c)
    ensures Run(h, schedule + [Action.Invoke(c)])
         == World(files, map[clock := Process(First(c), Last(c), clock, Ready, Torn)], clock + 1)
    ensures LockFile(First(c)) !in files ==> LockFile(First(c) + 1) !in files
  {
    RunSnoc(h, schedule, Action.Invoke(c));
    ChainHolds(h, schedule);
    if LockFile(First(c)) !in files {
      NothingLater(h, files, First(c));
      assert Untouched(files, First(c) + 1);
    }
  }

  class PrivateRoot {
    ghost const h: Hash
    const digest: Hash
    var files: Store
    var clock: nat
    ghost var schedule: seq<Action>

    /** No command is running, and some schedule leads to these files. */
    ghost predicate Valid()
      reads this
    {
      h == digest && Run(h, schedule) == World(files, map[], clock)
    }

    /** One command is running, as process `pid`. */
    ghost predicate Running(pid: nat, p: Process)
      reads this
    {
      h == digest && Run(h, schedule) == World(files, map[pid := p], clock)
    }

    constructor (digest: Hash)
      ensures Valid() && files == map[] && this.digest == digest
    {
      this.digest, h := digest, digest;
      files, clock, schedule := map[], 0, [];
    }

    method WriteJsonCreateOnce(file: File, value: Content, survives: nat) returns (write: Write, left: nat)
      modifies this`files
      ensures file in old(files) ==>
                files == old(files) && left == survives && write == if old(files)[file] == value then Reused else Differs
      ensures file !in old(files) && survives == 0 ==> files == old(files) && write == Died
      ensures file !in old(files) && survives == 1 ==> files == old(files)[file := Torn] && write == Died
      ensures file !in old(files) && survives >= 2 ==>
                files == old(files)[file := value] && write == Written && left == survives - 2
    {
      left := survives;
      if file in files {
        return if files[file] == value then Reused else Differs, left;
      }
      if survives == 0 {
        return Died, left;
      }
      files := files[file := Torn];
      if survives == 1 {
        return Died, left;
      }
      files := files[file := value];
      return Written, left - 2;
    }

    /** The record of a new schedule: one more step of the running process. */
    ghost method Step(a: Action)
      modifies this`schedule
      ensures schedule == old(schedule) + [a]
      ensures Run(h, schedule) == Do(h, Run(h, old(schedule)), a)
    {
      RunSnoc(h, schedule, a);
      schedule := schedule + [a];
    }

    /** The process dies; its files stay. */
    ghost method Die(pid: nat, p: Process)
      requires Running(pid, p)
      modifies this`schedule
      ensures Valid()
    {
      Step(Crash(pid));
      assert map[pid := p] - {pid} == map[];
    }

    /** The lock of one stage. */
    method WriteLock(ghost pid: nat, stage: nat, created: nat, ghost last: nat, body: string, survives: nat)
      returns (write: Write, left: nat, ghost p: Process)
      requires Running(pid, Process(stage, last, created, Ready, Torn)) && StoreOk(h, files)
      requires Follows(files, stage) && Unused(files, created)
      modifies this`files, this`schedule
      ensures write == Written <==> LockFile(stage) !in old(files) && survives >= 2
      ensures write == Written ==>
                && left == survives - 2 && p.stage == stage && p.last == last && p.created == created && p.phase.LockDone?
                && Running(pid, p)
                && files == old(files)[LockFile(stage) := LockRecord(stage, created, Before(h, old(files), LockFile(stage)), body)]
      ensures write != Written ==> Valid() && Grows(old(files), files)
      ensures write == Differs <==> LockFile(stage) in old(files)
      ensures write == Differs ==> files == old(files)
      ensures write != Reused
    {
      hide Run, StoreOk, Admits;
      p := Process(stage, last, created, Ready, Torn);
      var payload := LockRecord(
        stage, created, if stage == 0 then None else Some(digest(files[LockFile(stage - 1)])), body);
      assert LockFile(stage) in files && !files[LockFile(stage)].Torn? ==> files[LockFile(stage)].created != created;
      write, left := WriteJsonCreateOnce(LockFile(stage), payload, survives);
      if (write == Died && survives == 0) || write == Differs {
        Die(pid, p);
      } else {
        Step(OpenLock(pid, body));
        p := p.(phase := LockOpen, payload := payload);
        if write == Died {
          Step(Crash(pid));
          assert map[pid := p] - {pid} == map[];
        } else {
          Step(FillLock(pid));
          p := p.(phase := LockDone);
          assert old(files)[LockFile(stage) := Torn][LockFile(stage) := payload] == files;
        }
      }
    }

    /** The state record of one stage, after its lock; a command with `more` to write takes a new timestamp. */
    method WriteState(ghost pid: nat, stage: nat, created: nat, more: bool, survives: nat, ghost p: Process)
      returns (write: Write, left: nat)
      requires Running(pid, p) && p.stage == stage && p.created == created && p.phase.LockDone?
      requires more <==> stage < p.last
      requires LockFile(stage) in files && StateFile(stage) !in files && (stage > 0 ==> StateFile(stage - 1) in files)
      modifies this`files, this`schedule, this`clock
      ensures write == Written <==> survives >= 2
      ensures write == Written ==>
                && left == survives - 2
                && files == old(files)[StateFile(stage) := NewState(h, old(files), p)]
                && if !more then Valid() && clock == old(clock)
                   else Running(pid, Process(stage + 1, p.last, old(clock), Ready, Torn)) && clock == old(clock) + 1
      ensures write != Written ==> Valid() && Grows(old(files), files) && write == Died
    {
      hide Run, Admits;
      var payload := StateRecord(
        stage, created, if stage == 0 then None else Some(digest(files[StateFile(stage - 1)])), digest(files[LockFile(stage)]));
      write, left := WriteJsonCreateOnce(StateFile(stage), payload, survives);
      if write == Died && survives == 0 {
        Die(pid, p);
      } else {
        Step(OpenState(pid));
        ghost var q := p.(phase := StateOpen, payload := payload);
        if write == Died {
          Step(Crash(pid));
          assert map[pid := q] - {pid} == map[];
        } else {
          Step(FillState(pid));
          assert old(files)[StateFile(stage) := Torn][StateFile(stage) := payload] == files;
          assert map[pid := q] - {pid} == map[];
          if more {
            clock := clock + 1;
          }
        }
      }
    }

    /** Lock, then state record, of a stage that has not begun; an existing lock stops the command. */
    method WriteStage(ghost pid: nat, stage: nat, created: nat, ghost last: nat, more: bool, body: string, survives: nat)
      returns (write: Write, left: nat)
      requires Running(pid, Process(stage, last, created, Ready, Torn)) && (more <==> stage < last)
      modifies this`files, this`schedule, this`clock
      ensures write == Written <==> LockFile(stage) !in old(files) && survives >= 4
      ensures write == Written ==>
                && left == survives - 4 && Whole(files, stage) && Grows(old(files), files)
                && files.Keys == old(files).Keys + {LockFile(stage), StateFile(stage)}
                && if !more then Valid()
                   else Running(pid, Process(stage + 1, last, old(clock), Ready, Torn)) && clock == old(clock) + 1
      ensures write != Written ==> Valid() && Grows(old(files), files)
      ensures write == Differs <==> LockFile(stage) in old(files)
      ensures write == Differs ==> files == old(files)
    {
      hide StoreOk, Admits;
      ghost var p := Process(stage, last, created, Ready, Torn);
      RunningIsOk(h, schedule, World(files, map[pid := p], clock), pid, p);
      write, left, p := WriteLock(pid, stage, created, last, body, survives);
      if write == Written {
        assert Grows(old(files), files);
        RunningIsOk(h, schedule, World(files, map[pid := p], clock), pid, p);
        write, left := WriteState(pid, stage, created, more, left, p);
      }
    }

    /** The two stages of an analysis, the second under its own timestamp. */
    method WriteTwoStages(ghost pid: nat, first: nat, created: nat, bodies: (string, string), survives: nat)
      returns (write: Write)
      requires Running(pid, Process(first, first + 1, created, Ready, Torn))
      requires LockFile(first) !in files ==> LockFile(first + 1) !in files
      modifies this`files, this`schedule, this`clock
      ensures Valid() && Grows(old(files), files)
      ensures write == Written <==> LockFile(first) !in old(files) && survives >= 8
      ensures write == Differs <==> LockFile(first) in old(files)
      ensures write == Differs ==> files == old(files)
      ensures write == Written ==>
                && Whole(files, first) && Whole(files, first + 1)
                && files.Keys == old(files).Keys + {LockFile(first), StateFile(first), LockFile(first + 1), StateFile(first + 1)}
    {
      hide StoreOk, Whole, Grows, Run;
      ghost var start := files;
      GrowsByNothing(files);
      var left;
      write, left := WriteStage(pid, first, created, first + 1, true, bodies.0, survives);
      if write == Written {
        ghost var middle := files;
        write, left := WriteStage(pid, first + 1, clock - 1, first + 1, false, bodies.1, left);
        GrowsThrough(start, middle, files);
        if write == Written {
          WholeStays(middle, files, first);
        }
      }
    }

    /** One command from start to end, or to where it dies. `bodies` holds what else its locks record. */
    method Invoke(command: Command, bodies: (string, string), survives: nat) returns (exit: Exit)
      requires Valid() && (command.VerifyCorrected? ==> command.version != Original)
      modifies this
      ensures Valid() && Grows(old(files), files)
      ensures exit == AlreadyVerified <==> command == VerifyPublic && Reverifies(h, old(files))
      ensures exit == NotAdmitted <==>
                !Admits(h, old(files), command) && !(command == VerifyPublic && Reverifies(h, old(files)))
      ensures exit == LockDiffers <==> Admits(h, old(files), command) && LockFile(First(command)) in old(files)
      ensures exit == AlreadyVerified || exit == NotAdmitted || exit == LockDiffers ==> files == old(files)
      ensures exit == Done <==>
                && Admits(h, old(files), command) && LockFile(First(command)) !in old(files)
                && survives >= 4 * |Writes(command)|
      ensures exit == Done ==>
                && (forall i :: i in Writes(command) ==> Whole(files, i))
                && files.Keys == old(files).Keys + Names(Writes(command))
    {
      hide StoreOk, Whole, Grows, Run, Names;
      GrowsByNothing(files);
      if command == VerifyPublic && Reverifies(digest, files) {
        return AlreadyVerified;
      }
      if !Admits(digest, files, command) {
        return NotAdmitted;
      }
      hide Admits, Reverifies;
      var first, created := First(command), clock;
      ghost var pid := clock;
      BeginsRunning(h, schedule, files, clock, command);
      schedule := schedule + [Action.Invoke(command)];
      clock := clock + 1;
      var write: Write;
      if command.Analyze? {
        write := WriteTwoStages(pid, first, created, bodies, survives);
        NamesOfTwo(first);
      } else {
        var left;
        write, left := WriteStage(pid, first, created, first, false, bodies.0, survives);
        NamesOfOne(first);
      }
      exit := if write == Written then Done else if write == Differs then LockDiffers else Interrupted;
    }
  }

  lemma GrowsByNothing(s: Store)
    ensures Grows(s, s)
  {
  }

  /** The stages a command writes, in order. */
  function Writes(c: Command): (stages: set<nat>)
    ensures |stages| == 1 + Last(c) - First(c)
  {
    if c.Analyze? then {First(c), First(c) + 1} else {First(c)}
  }

  lemma NamesOfOne(i: nat)
    ensures Names({i}) == {LockFile(i), StateFile(i)}
  {
  }

  lemma NamesOfTwo(i: nat)
    ensures Names({i, i + 1}) == {LockFile(i), StateFile(i), LockFile(i + 1), StateFile(i + 1)}
  {
  }

  function Names(stages: set<nat>): set<File> {
    (set i | i in stages :: LockFile(i)) + (set i | i in stages :: StateFile(i))
  }

  lemma GrowsThrough(s: Store, t: Store, u: Store)
    requires Grows(s, t) && Grows(t, u)
    ensures Grows(s, u)
  {
  }

  lemma WholeStays(s: Store, t: Store, i: nat)
    requires Grows(s, t) && Whole(s, i)
    ensures Whole(t, i)
  {
  }

  /** The command that writes stage `n` first, for the stages a command starts at. */
  function CommandAt(n: nat): (c: Command)
    requires n < STAGES && n != 3 && n != 9 && n != 14
    ensures First(c) == n && (c.VerifyCorrected? ==> c.version != Original)
  {
    match n
    case 0 => FreezeInputs
    case 1 => FreezeMethodology
    case 2 => Analyze(Original)
    case 4 => Replay(Original)
    case 5 => VerifyPublic
    case 6 => RepairPublicFormat
    case 7 => FreezeCorrected
    case 8 => Analyze(V2)
    case 10 => Replay(V2)
    case 11 => VerifyCorrected(V2)
    case 12 => FreezeCorrectedV3
    case 13 => Analyze(V3)
    case 15 => Replay(V3)
    case _ => VerifyCorrected(V3)
  }

  /** The first `n` stages are wholly written, and no other has begun. */
  ghost predicate UpTo(files: Store, n: nat) {
    (forall i :: 0 <= i < n ==> Whole(files, i)) && (forall f :: f in files ==> f.stage < n)
  }

  /** The next command, left alone, takes the chain further. */
  method Advance(root: PrivateRoot, command: Command, bodies: (string, string))
    requires root.Valid() && UpTo(root.files, First(command))
    requires command.VerifyCorrected? ==> command.version != Original
    modifies root
    ensures root.Valid() && UpTo(root.files, Last(command) + 1)
  {
    hide StoreOk, Run, Names;
    ghost var before := root.files;
    ReachableIsOk(root.h, root.schedule, root.files, root.clock);
    ChainIsAdmitted(root.h, root.files, command);
    hide Admits;
    var exit := root.Invoke(command, bodies, 8);
    NamesAreNew(command);
    UpToFurther(before, root.files, command);
  }

  lemma NamesAreNew(c: Command)
    ensures forall f :: f in Names(Writes(c)) ==> f.stage <= Last(c)
  {
  }

  lemma UpToFurther(s: Store, t: Store, c: Command)
    requires UpTo(s, First(c)) && Grows(s, t)
    requires forall i :: i in Writes(c) ==> Whole(t, i)
    requires t.Keys == s.Keys + Names(Writes(c))
    ensures UpTo(t, Last(c) + 1)
  {
    hide Names;
    NamesAreNew(c);
    forall i | 0 <= i <= Last(c) ensures Whole(t, i) {
      if i < First(c) { WholeStays(s, t, i); } else { assert i in Writes(c); }
    }
  }

  /** Run in order and left alone, the commands of the three lifecycles write all seventeen stages. */
  method WriteWholeChain(digest: Hash, bodies: (string, string)) returns (root: PrivateRoot)
    ensures root.Valid() && UpTo(root.files, STAGES)
  {
    root := new PrivateRoot(digest);
    var n := 0;
    while n < STAGES
      invariant root.Valid() && fresh(root) && UpTo(root.files, n)
      invariant n <= STAGES && n != 3 && n != 9 && n != 14
    {
      var command := CommandAt(n);
      Advance(root, command, bodies);
      n := Last(command) + 1;
    }
  }

  lemma ReachableIsOk(h: Hash, schedule: seq<Action>, files: Store, clock: nat)
    requires Run(h, schedule) == World(files, map[], clock)
    ensures StoreOk(h, files)
  {
    ChainHolds(h, schedule);
  }
}
