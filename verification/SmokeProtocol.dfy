/**
 The exactly-once Provider smoke with two repair ordinals, as interleaved steps of any number
 of processes that may crash anywhere. Processes share nothing but files, and every file is
 created exclusively. Each existence test is a step of its own.
 */
module SmokeProtocol {

  const ORDINALS: nat := 3

  datatype File = Sentinel(ordinal: nat) | Blocker(ordinal: nat) | Complete(ordinal: nat) | Output

  /** Where a process stands. `Checking(n)`: its first `n` tests have passed. */
  datatype Phase = Checking(passed: nat) | Live | Failed | Succeeded | Written

  datatype Process = Process(ordinal: nat, phase: Phase) {
    /** Past its sentinel and not yet finished. */
    predicate Started() {
      !phase.Checking?
    }
  }

  /** Each file with the process that created it, the running processes, the next process number. */
  datatype World = World(files: map<File, nat>, processes: map<nat, Process>, next: nat)

  datatype Check = Check(file: File, present: bool)

  /**
   The tests of one invocation, in order. The first six (four) are made by the command; the
   later ones are the evidence files that verifying a repair reads, which stops the process
   when one is absent.
   */
  function Checks(ordinal: nat): seq<Check> {
    if ordinal == 0 then
      [Check(Output, false), Check(Blocker(0), false), Check(Sentinel(0), false), Check(Complete(0), false)]
    else
      [Check(Output, false), Check(Blocker(0), true), Check(Sentinel(0), true),
       Check(Sentinel(ordinal), false), Check(Blocker(ordinal), false), Check(Complete(ordinal), false),
       Check(Blocker(0), true), Check(Sentinel(0), true)]
      + if ordinal == 2 then [Check(Blocker(1), true), Check(Sentinel(1), true)] else []
  }

  datatype Action =
    | Invoke(ordinal: nat)
    | Test(pid: nat)
    | Start(pid: nat)
    | Succeed(pid: nat)
    | Fail(pid: nat)
    | WriteBlocker(pid: nat)
    | WriteOutput(pid: nat)
    | WriteComplete(pid: nat)
    | Crash(pid: nat)

  function Stop(w: World, pid: nat): World {
    w.(processes := w.processes - {pid})
  }

  function Enter(w: World, pid: nat, phase: Phase): World
    requires pid in w.processes
  {
    w.(processes := w.processes[pid := w.processes[pid].(phase := phase)])
  }

  /** `O_CREAT | O_EXCL`: the file is created, or the process ends with an error. */
  function CreateThen(w: World, pid: nat, file: File, phase: Phase): World
    requires pid in w.processes
  {
    if file in w.files then Stop(w, pid)
    else Enter(w.(files := w.files[file := pid]), pid, phase)
  }

  function CreateAndEnd(w: World, pid: nat, file: File): World
    requires pid in w.processes
  {
    Stop(if file in w.files then w else w.(files := w.files[file := pid]), pid)
  }

  function StepOf(w: World, a: Action, pid: nat, p: Process): World
    requires pid in w.processes && w.processes[pid] == p
  {
    match a
    case Test(_) =>
      var checks := Checks(p.ordinal);
      if p.phase.Checking? && p.phase.passed < |checks| then
        var check := checks[p.phase.passed];
        if (check.file in w.files) == check.present then Enter(w, pid, Checking(p.phase.passed + 1))
        else Stop(w, pid)
      else w
    case Start(_) =>
      if p.phase == Checking(|Checks(p.ordinal)|) then CreateThen(w, pid, Sentinel(p.ordinal), Live) else w
    case Succeed(_) => if p.phase.Live? then Enter(w, pid, Succeeded) else w
    case Fail(_) => if p.phase.Live? then Enter(w, pid, Failed) else w
    case WriteBlocker(_) => if p.phase.Failed? then CreateAndEnd(w, pid, Blocker(p.ordinal)) else w
    case WriteOutput(_) => if p.phase.Succeeded? then CreateThen(w, pid, Output, Written) else w
    case WriteComplete(_) => if p.phase.Written? then CreateAndEnd(w, pid, Complete(p.ordinal)) else w
    case Crash(_) => Stop(w, pid)
    case Invoke(_) => w
  }

  /** One step of one process; an action that does not apply changes nothing. */
  function Do(w: World, a: Action): World {
    if a.Invoke? then
      if a.ordinal < ORDINALS then
        w.(processes := w.processes[w.next := Process(a.ordinal, Checking(0))], next := w.next + 1)
      else w
    else if a.pid in w.processes then StepOf(w, a, a.pid, w.processes[a.pid])
    else w
  }

  function Continue(w: World, schedule: seq<Action>): World {
    if schedule == [] then w
    else Do(Continue(w, schedule[..|schedule| - 1]), schedule[|schedule| - 1])
  }

  /** The world after a whole schedule, from an empty repository. */
  function Run(schedule: seq<Action>): World {
    Continue(World(map[], map[], 0), schedule)
  }

  // ----- what every step keeps -----

  type Files = map<File, nat>

  /** `pid` created the file. */
  ghost predicate By(files: Files, file: File, pid: nat) {
    file in files && files[file] == pid
  }

  /** A later attempt only starts on the sentinel and the blocker of every earlier one. */
  ghost predicate AttemptsInOrder(files: Files) {
    forall j: nat, k: nat :: j < k && Sentinel(k) in files ==> Sentinel(j) in files && Blocker(j) in files
  }

  /** The attempt of ordinal `k` started, and no failure of it is on record. */
  ghost predicate Unblocked(files: Files, k: nat) {
    k < ORDINALS && Sentinel(k) in files && Blocker(k) !in files
  }

  ghost predicate Markers(files: Files) {
    && (forall f :: f in files && !f.Output? ==> f.ordinal < ORDINALS)
    && (forall k :: Blocker(k) in files ==> Sentinel(k) in files && files[Blocker(k)] == files[Sentinel(k)])
    && (forall k :: Complete(k) in files ==>
          && Output in files && Unblocked(files, k)
          && files[Sentinel(k)] == files[Output] == files[Complete(k)])
    && (Output in files ==> exists k :: Unblocked(files, k) && files[Sentinel(k)] == files[Output])
  }

  ghost predicate FilesOk(files: Files) {
    AttemptsInOrder(files) && Markers(files)
  }

  /** What the passed tests of a checking process have seen present is still there. */
  ghost predicate SeenEvidence(files: Files, p: Process)
    requires p.phase.Checking?
  {
    var checks := Checks(p.ordinal);
    && p.phase.passed <= |checks|
    && forall n :: 0 <= n < p.phase.passed && checks[n].present ==> checks[n].file in files
  }

  /** A process past its sentinel owns its attempt, which is neither blocked nor complete. */
  ghost predicate OwnsAttempt(files: Files, pid: nat, p: Process) {
    && By(files, Sentinel(p.ordinal), pid)
    && Blocker(p.ordinal) !in files && Complete(p.ordinal) !in files
    && if p.phase.Written? then By(files, Output, pid) else Output !in files
  }

  ghost predicate ProcessOk(files: Files, pid: nat, p: Process) {
    && p.ordinal < ORDINALS
    && if p.phase.Checking? then SeenEvidence(files, p) && (forall f :: f in files ==> files[f] != pid)
       else OwnsAttempt(files, pid, p)
  }

  ghost predicate Inv(w: World) {
    && FilesOk(w.files)
    && (forall pid :: pid in w.processes ==> pid < w.next && ProcessOk(w.files, pid, w.processes[pid]))
    && (forall f :: f in w.files ==> w.files[f] < w.next)
  }

  /** At any moment at most one process is past its sentinel. */
  lemma OneStarted(w: World, p: nat, q: nat)
    requires Inv(w)
    requires p in w.processes && w.processes[p].Started()
    requires q in w.processes && w.processes[q].Started()
    ensures p == q
  {
    assert ProcessOk(w.files, p, w.processes[p]) && ProcessOk(w.files, q, w.processes[q]);
  }

  /** A process that has passed all its tests and finds no sentinel finds every earlier attempt blocked. */
  lemma ReadyToStart(w: World, pid: nat)
    requires Inv(w) && pid in w.processes
    requires w.processes[pid].phase == Checking(|Checks(w.processes[pid].ordinal)|)
    ensures forall j: nat :: j < w.processes[pid].ordinal ==> Sentinel(j) in w.files && Blocker(j) in w.files
  {
    var p := w.processes[pid];
    assert SeenEvidence(w.files, p);
    if p.ordinal >= 1 {
      assert Checks(p.ordinal)[1] == Check(Blocker(0), true) && Checks(p.ordinal)[2] == Check(Sentinel(0), true);
    }
    if p.ordinal == 2 {
      assert Checks(2)[8] == Check(Blocker(1), true) && Checks(2)[9] == Check(Sentinel(1), true);
    }
  }

  /** Then no process is past a sentinel, and there is no output. */
  lemma NobodyStarted(w: World, k: nat)
    requires Inv(w) && k < ORDINALS && Sentinel(k) !in w.files
    requires forall j: nat :: j < k ==> Sentinel(j) in w.files && Blocker(j) in w.files
    ensures forall q :: q in w.processes ==> !w.processes[q].Started()
    ensures Output !in w.files && Blocker(k) !in w.files && Complete(k) !in w.files
  {
    forall q | q in w.processes ensures !w.processes[q].Started() {
      assert ProcessOk(w.files, q, w.processes[q]);
    }
    assert forall j: nat :: Unblocked(w.files, j) ==> j > k;
  }

  /** A new file takes nothing from a process that is still checking. */
  lemma CheckerUnaffected(files: Files, file: File, owner: nat, pid: nat, p: Process)
    requires ProcessOk(files, pid, p) && !p.Started() && file !in files && owner != pid
    ensures ProcessOk(files[file := owner], pid, p)
  {
  }

  lemma StartKeepsFilesOk(files: Files, k: nat, pid: nat)
    requires FilesOk(files) && k < ORDINALS && Sentinel(k) !in files && Output !in files && Blocker(k) !in files
    requires forall j: nat :: j < k ==> Sentinel(j) in files && Blocker(j) in files
    ensures FilesOk(files[Sentinel(k) := pid])
  {
  }

  lemma BlockerKeepsFilesOk(files: Files, k: nat, pid: nat)
    requires FilesOk(files) && k < ORDINALS && By(files, Sentinel(k), pid) && Output !in files
    requires Blocker(k) !in files && Complete(k) !in files
    ensures FilesOk(files[Blocker(k) := pid])
  {
  }

  lemma OutputKeepsFilesOk(files: Files, k: nat, pid: nat)
    requires FilesOk(files) && k < ORDINALS && By(files, Sentinel(k), pid) && Output !in files && Blocker(k) !in files
    ensures FilesOk(files[Output := pid])
  {
    assert Unblocked(files[Output := pid], k);
  }

  lemma CompleteKeepsFilesOk(files: Files, k: nat, pid: nat)
    requires FilesOk(files) && k < ORDINALS && By(files, Sentinel(k), pid) && By(files, Output, pid)
    requires Blocker(k) !in files && Complete(k) !in files
    ensures FilesOk(files[Complete(k) := pid])
  {
    var after := files[Complete(k) := pid];
    assert Unblocked(after, k);
    assert forall j :: Unblocked(files, j) ==> Unblocked(after, j);
  }

  lemma CreatingKeepsInv(w: World, pid: nat, file: File)
    requires Inv(w) && pid in w.processes && file !in w.files && FilesOk(w.files[file := pid])
    requires forall q :: q in w.processes && q != pid ==> !w.processes[q].Started()
    ensures Inv(Stop(w.(files := w.files[file := pid]), pid))
  {
    forall q | q in w.processes && q != pid ensures ProcessOk(w.files[file := pid], q, w.processes[q]) {
      CheckerUnaffected(w.files, file, pid, q, w.processes[q]);
    }
  }

  /** A process that may take its next step, put back into a world without it. */
  lemma EnteringKeepsInv(w: World, pid: nat, p: Process)
    requires Inv(Stop(w, pid)) && pid < w.next && ProcessOk(w.files, pid, p)
    ensures Inv(w.(processes := w.processes[pid := p]))
  {
    var stopped := Stop(w, pid);
    forall q | q in w.processes && q != pid ensures q < w.next && ProcessOk(w.files, q, w.processes[q]) {
      assert q in stopped.processes && stopped.processes[q] == w.processes[q];
    }
  }

  lemma StoppingKeepsInv(w: World, pid: nat)
    requires Inv(w)
    ensures Inv(Stop(w, pid))
  {
  }

  lemma TestKeepsInv(w: World, pid: nat)
    requires Inv(w) && pid in w.processes
    ensures Inv(Do(w, Test(pid)))
  {
    var p := w.processes[pid];
    StoppingKeepsInv(w, pid);
    if p.phase.Checking? && p.phase.passed < |Checks(p.ordinal)| {
      var check := Checks(p.ordinal)[p.phase.passed];
      if (check.file in w.files) == check.present {
        assert pid < w.next && ProcessOk(w.files, pid, p);
        PassedOneMore(w.files, pid, p);
        hide Inv, ProcessOk;
        EnteringKeepsInv(w, pid, p.(phase := Checking(p.phase.passed + 1)));
      }
    }
  }

  lemma PassedOneMore(files: Files, pid: nat, p: Process)
    requires ProcessOk(files, pid, p) && p.phase.Checking? && p.phase.passed < |Checks(p.ordinal)|
    requires var check := Checks(p.ordinal)[p.phase.passed]; (check.file in files) == check.present
    ensures ProcessOk(files, pid, p.(phase := Checking(p.phase.passed + 1)))
  {
    hide Checks;
  }

  lemma StartKeepsInv(w: World, pid: nat)
    requires Inv(w) && pid in w.processes
    ensures Inv(Do(w, Start(pid)))
  {
    var p := w.processes[pid];
    StoppingKeepsInv(w, pid);
    if p.phase == Checking(|Checks(p.ordinal)|) && Sentinel(p.ordinal) !in w.files {
      assert ProcessOk(w.files, pid, p);
      ReadyToStart(w, pid);
      NobodyStarted(w, p.ordinal);
      StartKeepsFilesOk(w.files, p.ordinal, pid);
      CreatingKeepsInv(w, pid, Sentinel(p.ordinal));
      var after := w.(files := w.files[Sentinel(p.ordinal) := pid]);
      EnteringKeepsInv(after, pid, p.(phase := Live));
    }
  }

  lemma RunKeepsInv(w: World, pid: nat, phase: Phase)
    requires Inv(w) && pid in w.processes && w.processes[pid].phase.Live? && (phase.Succeeded? || phase.Failed?)
    ensures Inv(Enter(w, pid, phase))
  {
    assert ProcessOk(w.files, pid, w.processes[pid]);
    StoppingKeepsInv(w, pid);
    EnteringKeepsInv(w, pid, w.processes[pid].(phase := phase));
  }

  lemma WriteKeepsInv(w: World, pid: nat, a: Action)
    requires Inv(w) && pid in w.processes && w.processes[pid].Started()
    requires a == WriteBlocker(pid) || a == WriteOutput(pid) || a == WriteComplete(pid)
    ensures Inv(Do(w, a))
  {
    var p := w.processes[pid];
    assert ProcessOk(w.files, pid, p);
    forall q | q in w.processes && q != pid ensures !w.processes[q].Started() {
      if w.processes[q].Started() { OneStarted(w, pid, q); }
    }
    if a.WriteBlocker? && p.phase.Failed? {
      BlockerKeepsFilesOk(w.files, p.ordinal, pid);
      CreatingKeepsInv(w, pid, Blocker(p.ordinal));
    } else if a.WriteOutput? && p.phase.Succeeded? {
      OutputKeepsFilesOk(w.files, p.ordinal, pid);
      CreatingKeepsInv(w, pid, Output);
      EnteringKeepsInv(w.(files := w.files[Output := pid]), pid, p.(phase := Written));
    } else if a.WriteComplete? && p.phase.Written? {
      CompleteKeepsFilesOk(w.files, p.ordinal, pid);
      CreatingKeepsInv(w, pid, Complete(p.ordinal));
    }
  }

  lemma StepKeepsInv(w: World, a: Action)
    requires Inv(w)
    ensures Inv(Do(w, a))
  {
    if a.Invoke? {
      InvokeKeepsInv(w, a.ordinal);
    } else if a.pid in w.processes {
      var p := w.processes[a.pid];
      match a {
        case Test(pid) => TestKeepsInv(w, pid);
        case Start(pid) => StartKeepsInv(w, pid);
        case Succeed(pid) => if p.phase.Live? { RunKeepsInv(w, pid, Succeeded); }
        case Fail(pid) => if p.phase.Live? { RunKeepsInv(w, pid, Failed); }
        case Crash(pid) => StoppingKeepsInv(w, pid);
        case WriteBlocker(pid) => if p.Started() { WriteKeepsInv(w, pid, a); }
        case WriteOutput(pid) => if p.Started() { WriteKeepsInv(w, pid, a); }
        case WriteComplete(pid) => if p.Started() { WriteKeepsInv(w, pid, a); }
      }
    }
  }

  lemma InvokeKeepsInv(w: World, k: nat)
    requires Inv(w)
    ensures Inv(Do(w, Invoke(k)))
  {
    forall f | f in w.files ensures w.files[f] != w.next {
    }
  }

  /** Every world any schedule leads to satisfies the invariant. */
  lemma {:induction false} RunSatisfiesInv(schedule: seq<Action>)
    ensures Inv(Run(schedule))
  {
    if schedule != [] {
      RunSatisfiesInv(schedule[..|schedule| - 1]);
      StepKeepsInv(Run(schedule[..|schedule| - 1]), schedule[|schedule| - 1]);
    }
  }

  // ----- what whole runs keep -----

  /** The result of a schedule split in two. */
  lemma {:induction false} ContinueConcat(w: World, first: seq<Action>, second: seq<Action>)
    ensures Continue(w, first + second) == Continue(Continue(w, first), second)
  {
    if second == [] {
      assert first + second == first;
    } else {
      var all := first + second;
      assert all[..|all| - 1] == first + second[..|second| - 1];
      ContinueConcat(w, first, second[..|second| - 1]);
    }
  }

  /** No file is ever removed or taken over by another process. */
  lemma {:induction false} FilesAreForever(w: World, schedule: seq<Action>)
    ensures forall f :: f in w.files ==> By(Continue(w, schedule).files, f, w.files[f])
  {
    if schedule != [] {
      FilesAreForever(w, schedule[..|schedule| - 1]);
    }
  }

  ghost predicate LiveAt(w: World, pid: nat, k: nat) {
    pid in w.processes && w.processes[pid].Started() && w.processes[pid].ordinal == k
  }

  /** At most one process ever gets past the sentinel of an ordinal, however far apart in time. */
  lemma OneProcessPerOrdinal(schedule: seq<Action>, later: seq<Action>, k: nat, p: nat, q: nat)
    requires LiveAt(Run(schedule), p, k) && LiveAt(Run(schedule + later), q, k)
    ensures p == q
  {
    RunSatisfiesInv(schedule);
    RunSatisfiesInv(schedule + later);
    ContinueConcat(World(map[], map[], 0), schedule, later);
    FilesAreForever(Run(schedule), later);
    assert ProcessOk(Run(schedule).files, p, Run(schedule).processes[p]);
    assert ProcessOk(Run(schedule + later).files, q, Run(schedule + later).processes[q]);
  }

  /** At no moment of any run are two processes past their sentinels, whatever their ordinals. */
  lemma OneProcessAtATime(schedule: seq<Action>, p: nat, j: nat, q: nat, k: nat)
    requires LiveAt(Run(schedule), p, j) && LiveAt(Run(schedule), q, k)
    ensures p == q && j == k
  {
    RunSatisfiesInv(schedule);
    OneStarted(Run(schedule), p, q);
  }

  /** The steps of a schedule that take a process past its sentinel. */
  ghost function LiveAttempts(schedule: seq<Action>): nat {
    if schedule == [] then 0
    else
      var before, a := Run(schedule[..|schedule| - 1]), schedule[|schedule| - 1];
      LiveAttempts(schedule[..|schedule| - 1]) + if GoesLive(before, a) then 1 else 0
  }

  ghost predicate GoesLive(w: World, a: Action) {
    a.Start? && a.pid in w.processes && w.processes[a.pid].phase.Checking? && LiveAt(Do(w, a), a.pid, w.processes[a.pid].ordinal)
  }

  ghost function StartedOrdinals(files: Files): (ordinals: set<nat>)
    ensures forall k: nat :: k in ordinals <==> k < ORDINALS && Sentinel(k) in files
  {
    set k: nat | k < ORDINALS && Sentinel(k) in files
  }

  /** There are at most three live attempts in any run: one for each sentinel on disk. */
  lemma {:induction false} AtMostThreeLiveAttempts(schedule: seq<Action>)
    ensures LiveAttempts(schedule) == |StartedOrdinals(Run(schedule).files)| <= ORDINALS
  {
    if schedule == [] {
      assert StartedOrdinals(map[]) == {};
    } else {
      var before, a := Run(schedule[..|schedule| - 1]), schedule[|schedule| - 1];
      AtMostThreeLiveAttempts(schedule[..|schedule| - 1]);
      RunSatisfiesInv(schedule[..|schedule| - 1]);
      SentinelsChangeByGoingLive(before, a);
    }
    Subset(StartedOrdinals(Run(schedule).files), {0, 1, 2});
  }

  lemma {:induction false} Subset<T>(small: set<T>, large: set<T>)
    requires small <= large
    ensures |small| <= |large|
  {
    if x :| x in small {
      Subset(small - {x}, large - {x});
    }
  }

  lemma SentinelsChangeByGoingLive(w: World, a: Action)
    requires Inv(w)
    ensures |StartedOrdinals(Do(w, a).files)| == |StartedOrdinals(w.files)| + if GoesLive(w, a) then 1 else 0
  {
    if GoesLive(w, a) {
      GoingLiveCreates(w, a);
      hide *;
      OneMoreOrdinal(w.files, w.processes[a.pid].ordinal, a.pid);
    } else {
      OtherStepsCreateNoSentinel(w, a);
      hide *;
      assert StartedOrdinals(Do(w, a).files) == StartedOrdinals(w.files);
    }
  }

  lemma OneMoreOrdinal(files: Files, k: nat, pid: nat)
    requires k < ORDINALS && Sentinel(k) !in files
    ensures |StartedOrdinals(files[Sentinel(k) := pid])| == |StartedOrdinals(files)| + 1
  {
    assert StartedOrdinals(files[Sentinel(k) := pid]) == StartedOrdinals(files) + {k};
  }

  lemma GoingLiveCreates(w: World, a: Action)
    requires Inv(w) && GoesLive(w, a)
    ensures var k := w.processes[a.pid].ordinal;
      k < ORDINALS && Do(w, a).files == w.files[Sentinel(k) := a.pid] && Sentinel(k) !in w.files
  {
    assert ProcessOk(w.files, a.pid, w.processes[a.pid]);
    hide Inv, ProcessOk;
  }

  lemma OtherStepsCreateNoSentinel(w: World, a: Action)
    requires !GoesLive(w, a)
    ensures forall k :: Sentinel(k) in Do(w, a).files <==> Sentinel(k) in w.files
  {
    if !a.Invoke? && a.pid in w.processes && a.Start? {
      var p := w.processes[a.pid];
      if p.phase == Checking(|Checks(p.ordinal)|) && Sentinel(p.ordinal) !in w.files {
        assert LiveAt(Do(w, a), a.pid, p.ordinal);
        assert false;
      }
    }
  }

  /** What the files alone show after any run. */
  lemma WhatTheFilesShow(schedule: seq<Action>)
    ensures var files := Run(schedule).files;
      // A repair sentinel implies that every earlier attempt started and wrote its blocker.
      && (forall j: nat, k: nat :: j < k && Sentinel(k) in files ==> Sentinel(j) in files && Blocker(j) in files)
      // A complete marker implies its sentinel and the output, all by one process.
      && (forall k :: Complete(k) in files ==>
            Sentinel(k) in files && Output in files && files[Sentinel(k)] == files[Output] == files[Complete(k)])
      // A blocker is written by the process that started the attempt, never beside a complete marker.
      && (forall k :: Blocker(k) in files ==>
            Sentinel(k) in files && files[Blocker(k)] == files[Sentinel(k)] && Complete(k) !in files)
      // The output comes from the one attempt that was never blocked.
      && (Output in files ==> forall k: nat :: Sentinel(k) in files && Blocker(k) !in files ==> files[Sentinel(k)] == files[Output])
  {
    RunSatisfiesInv(schedule);
    var files := Run(schedule).files;
    if Output in files {
      var j :| Unblocked(files, j) && files[Sentinel(j)] == files[Output];
    }
  }

  /** `pid` can no longer go live: it was invoked, or makes its first test, with the output there. */
  ghost predicate TooLate(w: World, pid: nat) {
    && Output in w.files
    && (pid in w.processes ==> w.processes[pid].phase == Checking(0))
    && (forall f :: f in w.files ==> w.files[f] != pid)
  }

  lemma {:induction false} TooLateStays(w: World, pid: nat, schedule: seq<Action>)
    requires TooLate(w, pid)
    ensures TooLate(Continue(w, schedule), pid)
  {
    if schedule != [] {
      var before, a := Continue(w, schedule[..|schedule| - 1]), schedule[|schedule| - 1];
      TooLateStays(w, pid, schedule[..|schedule| - 1]);
      if !a.Invoke? && a.pid == pid && pid in before.processes {
        var k := before.processes[pid].ordinal;
        assert |Checks(k)| >= 1 && Checks(k)[0] == Check(Output, false);
      }
    }
  }

  /** No process whose admission begins after the output exists ever goes live. */
  lemma NoStartAfterOutput(schedule: seq<Action>, later: seq<Action>, pid: nat, k: nat)
    requires Output in Run(schedule).files
    requires pid in Run(schedule).processes ==> Run(schedule).processes[pid].phase == Checking(0)
    requires pid !in Run(schedule).processes ==> pid >= Run(schedule).next
    ensures !LiveAt(Run(schedule + later), pid, k)
  {
    RunSatisfiesInv(schedule);
    ContinueConcat(World(map[], map[], 0), schedule, later);
    if pid in Run(schedule).processes {
      assert ProcessOk(Run(schedule).files, pid, Run(schedule).processes[pid]);
    }
    TooLateStays(Run(schedule), pid, later);
  }

  /** Attempt `k` started, left no blocker, and its process is gone. */
  ghost predicate Stranded(w: World, k: nat) {
    Unblocked(w.files, k) && w.files[Sentinel(k)] !in w.processes
  }

  /**
   An attempt that dies between its sentinel and its blocker ends the campaign: no process ever
   goes live again, and no output appears any more.
   */
  lemma {:induction false} StrandedForever(w: World, k: nat, schedule: seq<Action>)
    requires Inv(w) && Stranded(w, k)
    ensures Inv(Continue(w, schedule)) && Stranded(Continue(w, schedule), k)
    ensures StartedOrdinals(Continue(w, schedule).files) == StartedOrdinals(w.files)
    ensures Output in Continue(w, schedule).files <==> Output in w.files
  {
    if schedule != [] {
      var before, a := Continue(w, schedule[..|schedule| - 1]), schedule[|schedule| - 1];
      StrandedForever(w, k, schedule[..|schedule| - 1]);
      StrandedStep(before, k, a);
    }
  }

  lemma StrandedStep(w: World, k: nat, a: Action)
    requires Inv(w) && Stranded(w, k)
    ensures Inv(Do(w, a)) && Stranded(Do(w, a), k)
    ensures StartedOrdinals(Do(w, a).files) == StartedOrdinals(w.files)
    ensures Output in Do(w, a).files <==> Output in w.files
  {
    StepKeepsInv(w, a);
    forall q | q in w.processes ensures !w.processes[q].Started() {
      assert ProcessOk(w.files, q, w.processes[q]);
    }
    if !a.Invoke? && a.pid in w.processes && a.Start? {
      var p := w.processes[a.pid];
      assert ProcessOk(w.files, a.pid, p);
      if p.phase == Checking(|Checks(p.ordinal)|) && Sentinel(p.ordinal) !in w.files {
        ReadyToStart(w, a.pid);
        assert false;
      }
    }
  }

  // ----- one process at a time -----

  /** What becomes of an attempt once its sentinel is written. */
  datatype Ending = Passes | Raises | Dies

  /** Every test of the invocation holds on these files. */
  ghost predicate Admitted(present: set<File>, k: nat) {
    forall n :: 0 <= n < |Checks(k)| ==> (Checks(k)[n].file in present) == Checks(k)[n].present
  }

  /** The files an admitted attempt leaves behind. */
  ghost function Leaves(k: nat, ending: Ending): set<File> {
    match ending
    case Passes => {Sentinel(k), Output, Complete(k)}
    case Raises => {Sentinel(k), Blocker(k)}
    case Dies => {Sentinel(k)}
  }

  lemma RunSnoc(schedule: seq<Action>, a: Action)
    ensures Run(schedule + [a]) == Do(Run(schedule), a)
  {
    assert (schedule + [a])[..|schedule|] == schedule;
  }

  /** The tests of an admitted process, made one after the other with nobody else around. */
  lemma {:induction false} TestsAlone(schedule: seq<Action>, k: nat, n: nat) returns (more: seq<Action>)
    requires k < ORDINALS && n <= |Checks(k)| && Admitted(Run(schedule).files.Keys, k)
    requires Run(schedule).processes == map[]
    ensures Run(more).files == Run(schedule).files && Run(more).next == Run(schedule).next + 1
    ensures Run(more).processes == map[Run(schedule).next := Process(k, Checking(n))]
  {
    var pid := Run(schedule).next;
    if n == 0 {
      RunSnoc(schedule, Invoke(k));
      more := schedule + [Invoke(k)];
    } else {
      more := TestsAlone(schedule, k, n - 1);
      RunSnoc(more, Test(pid));
      assert (Checks(k)[n - 1].file in Run(more).files) == Checks(k)[n - 1].present;
      more := more + [Test(pid)];
    }
  }

  lemma AttemptAlone(schedule: seq<Action>, k: nat, ending: Ending) returns (more: seq<Action>)
    requires k < ORDINALS && Admitted(Run(schedule).files.Keys, k) && Run(schedule).processes == map[]
    ensures Run(more).files.Keys == Run(schedule).files.Keys + Leaves(k, ending) && Run(more).processes == map[]
  {
    hide Checks, Run;
    var pid := Run(schedule).next;
    var tested := TestsAlone(schedule, k, |Checks(k)|);
    AdmittedFinds(Run(schedule).files.Keys, k);
    RunSnoc(tested, Start(pid));
    var live := tested + [Start(pid)];
    assert Run(live).processes == map[pid := Process(k, Live)];
    more := EndAlone(live, pid, k, ending);
  }

  lemma EndAlone(live: seq<Action>, pid: nat, k: nat, ending: Ending) returns (more: seq<Action>)
    requires Run(live).processes == map[pid := Process(k, Live)]
    requires Output !in Run(live).files && Blocker(k) !in Run(live).files && Complete(k) !in Run(live).files
    requires Sentinel(k) in Run(live).files
    ensures Run(more).files.Keys == Run(live).files.Keys + Leaves(k, ending) && Run(more).processes == map[]
  {
    hide Checks, Run;
    match ending {
      case Dies =>
        RunSnoc(live, Crash(pid));
        more := live + [Crash(pid)];
      case Raises =>
        RunSnoc(live, Fail(pid));
        RunSnoc(live + [Fail(pid)], WriteBlocker(pid));
        more := live + [Fail(pid)] + [WriteBlocker(pid)];
      case Passes =>
        RunSnoc(live, Succeed(pid));
        RunSnoc(live + [Succeed(pid)], WriteOutput(pid));
        RunSnoc(live + [Succeed(pid)] + [WriteOutput(pid)], WriteComplete(pid));
        more := live + [Succeed(pid)] + [WriteOutput(pid)] + [WriteComplete(pid)];
    }
  }

  lemma AdmittedFinds(present: set<File>, k: nat)
    requires k < ORDINALS && Admitted(present, k)
    ensures Output !in present && Sentinel(k) !in present && Blocker(k) !in present && Complete(k) !in present
  {
    assert Checks(k)[0] == Check(Output, false);
    if k == 0 {
      assert Checks(k)[1] == Check(Blocker(0), false) && Checks(k)[2] == Check(Sentinel(0), false)
          && Checks(k)[3] == Check(Complete(0), false);
    } else {
      assert Checks(k)[3] == Check(Sentinel(k), false) && Checks(k)[4] == Check(Blocker(k), false)
          && Checks(k)[5] == Check(Complete(k), false);
    }
  }

  /** Two failed attempts and a third that passes: the bound of three live attempts is reached. */
  lemma ThreeAttemptsCanHappen() returns (schedule: seq<Action>)
    ensures LiveAttempts(schedule) == 3 && Complete(2) in Run(schedule).files
  {
    var first := FirstTwoFail();
    Refused({Sentinel(0), Blocker(0), Sentinel(1), Blocker(1)}, 2);
    hide *;
    schedule := AttemptAlone(first, 2, Passes);
    AtMostThreeLiveAttempts(schedule);
    AllStarted(schedule);
  }

  lemma AllStarted(schedule: seq<Action>)
    requires Run(schedule).files.Keys == {Sentinel(0), Blocker(0), Sentinel(1), Blocker(1)} + Leaves(2, Passes)
    ensures |StartedOrdinals(Run(schedule).files)| == 3 && Complete(2) in Run(schedule).files
  {
    hide Run;
    assert StartedOrdinals(Run(schedule).files) == {0, 1, 2};
  }

  lemma FirstTwoFail() returns (schedule: seq<Action>)
    ensures Run(schedule).files.Keys == {Sentinel(0), Blocker(0), Sentinel(1), Blocker(1)} && Run(schedule).processes == map[]
  {
    assert Run([]).files.Keys == {} && Run([]).processes == map[];
    hide Run, Checks, Admitted;
    Refused({}, 0);
    var first := AttemptAlone([], 0, Raises);
    assert Run(first).files.Keys == {Sentinel(0), Blocker(0)};
    Refused({Sentinel(0), Blocker(0)}, 1);
    schedule := AttemptAlone(first, 1, Raises);
    assert Run(schedule).files.Keys == {Sentinel(0), Blocker(0), Sentinel(1), Blocker(1)};
  }

  /** The command as it runs in one process: how it ends. */
  datatype Exit = AlreadyConsumed | NotVerified | Finished | Blocked | Died

  class Campaign {
    var present: set<File>
    ghost var schedule: seq<Action>

    /** The files on disk are those some schedule of whole invocations leads to. */
    ghost predicate Valid()
      reads this
    {
      present == Run(schedule).files.Keys && Run(schedule).processes == map[]
    }

    constructor ()
      ensures Valid() && present == {}
    {
      present, schedule := {}, [];
    }

    /**
     One invocation. `surfaceVerifies` stands for the manifest, the repair record and the
     preflight; `ending` for what the live run does.
     */
    method Execute(repairOrdinal: nat, surfaceVerifies: bool, ending: Ending) returns (exit: Exit)
      requires Valid() && repairOrdinal < ORDINALS
      modifies this
      ensures Valid()
      ensures exit.Finished? || exit.Blocked? || exit.Died? <==> surfaceVerifies && Admitted(old(present), repairOrdinal)
      ensures exit.Finished? ==> ending == Passes
      ensures exit.Blocked? ==> ending == Raises
      ensures exit.Died? ==> ending == Dies
      ensures present == old(present)
                + if surfaceVerifies && Admitted(old(present), repairOrdinal) then Leaves(repairOrdinal, ending) else {}
    {
      if repairOrdinal != 0 {
        if || Output in present || Blocker(0) !in present || Sentinel(0) !in present
           || Sentinel(repairOrdinal) in present || Blocker(repairOrdinal) in present || Complete(repairOrdinal) in present
        {
          Refused(present, repairOrdinal);
          return AlreadyConsumed;
        }
      } else if Output in present || Blocker(0) in present || Sentinel(0) in present || Complete(0) in present {
        Refused(present, repairOrdinal);
        return AlreadyConsumed;
      }
      if !surfaceVerifies {
        return NotVerified;
      }
      if repairOrdinal == 2 && (Blocker(1) !in present || Sentinel(1) !in present) {
        Refused(present, repairOrdinal);
        return NotVerified;
      }
      ghost var more := AttemptAlone(schedule, repairOrdinal, ending);
      schedule := more;
      present := present + {Sentinel(repairOrdinal)};
      match ending {
        case Passes =>
          present := present + {Output};
          present := present + {Complete(repairOrdinal)};
          exit := Finished;
        case Raises =>
          present := present + {Blocker(repairOrdinal)};
          exit := Blocked;
        case Dies =>
          exit := Died;
      }
    }
  }

  /** The disjunction the command tests, and the evidence a repair reads, are exactly the list of checks. */
  lemma Refused(present: set<File>, k: nat)
    requires k < ORDINALS
    ensures Admitted(present, k) <==>
              && Output !in present && Sentinel(k) !in present && Blocker(k) !in present && Complete(k) !in present
              && (k != 0 ==> Blocker(0) in present && Sentinel(0) in present)
              && (k == 2 ==> Blocker(1) in present && Sentinel(1) in present)
  {
    if Admitted(present, k) {
      AdmittedFinds(present, k);
      if k != 0 {
        assert Checks(k)[1] == Check(Blocker(0), true) && Checks(k)[2] == Check(Sentinel(0), true);
      }
      if k == 2 {
        assert Checks(k)[8] == Check(Blocker(1), true) && Checks(k)[9] == Check(Sentinel(1), true);
      }
    }
  }
}
