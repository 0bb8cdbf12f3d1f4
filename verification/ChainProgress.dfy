/**
 How the chain goes on when no command is running: from some stores all seventeen stages can still
 be written, from every other reachable store no further stage ever becomes whole.
 */
module ChainProgress {
  import opened Wrappers
  import opened LockChain
  import opened PrivateRoot

  /** The second stage of an analysis; no command starts there. */
  predicate SecondOfAnalysis(n: nat) {
    n == 3 || n == 9 || n == 14
  }

  /** The stages before `n` are whole, no other has begun, and a command starts at `n`. */
  ghost predicate CanAdvance(s: Store) {
    exists n: nat :: n < STAGES && !SecondOfAnalysis(n) && UpTo(s, n)
  }

  ghost predicate AllWritten(s: Store) {
    UpTo(s, STAGES)
  }

  /** The analysis wrote its first stage and not its second, and nobody is working on either. */
  ghost predicate Missed(w: World, n: nat) {
    && SecondOfAnalysis(n) && Whole(w.store, n - 1) && Untouched(w.store, n)
    && forall p :: p in w.processes && w.processes[p].stage >= n - 1 ==>
         w.processes[p].stage == n - 1 && w.processes[p].phase.Ready?
  }

  // ----- an analysis that stops between its stages -----

  lemma MissedStep(h: Hash, w: World, n: nat, a: Action)
    requires Inv(h, w) && Missed(w, n)
    ensures Missed(Do(h, w, a), n)
  {
    if a.Invoke? {
      MissedInvoke(h, w, n, a.command);
    } else if a.pid in w.processes {
      MissedOther(h, w, n, a);
    }
  }

  lemma MissedInvoke(h: Hash, w: World, n: nat, c: Command)
    requires Inv(h, w) && Missed(w, n)
    ensures Missed(Do(h, w, Action.Invoke(c)), n)
  {
    NothingFollows(h, w.store, n);
    if Admits(h, w.store, c) {
      AdmittedFollows(h, w.store, c);
      assert First(c) <= n && First(c) != n;
      hide Admits, Inv, StoreOk, First, Last;
      assert Do(h, w, Action.Invoke(c)).store == w.store;
    }
  }

  lemma MissedOther(h: Hash, w: World, n: nat, a: Action)
    requires Inv(h, w) && Missed(w, n) && !a.Invoke? && a.pid in w.processes
    ensures Missed(Do(h, w, a), n)
  {
    StepIsLocal(h, w, a);
    StepKeepsInv(h, w, a);
    WholeStays(w.store, Do(h, w, a).store, n - 1);
    if w.processes[a.pid].stage == n - 1 {
      ReadyRefused(h, w, n - 1, a);
    }
    StillMissed(w, Do(h, w, a), n, a.pid);
  }

  lemma StillMissed(w: World, t: World, n: nat, pid: nat)
    requires Missed(w, n) && pid in w.processes && Whole(t.store, n - 1)
    requires forall f: File :: f.stage != w.processes[pid].stage ==> (f in t.store <==> f in w.store)
    requires forall q :: q in t.processes && q != pid ==> q in w.processes && t.processes[q] == w.processes[q]
    requires pid in t.processes ==>
               || t.processes[pid].stage == w.processes[pid].stage
               || (t.processes[pid].stage == w.processes[pid].stage + 1 && t.processes[pid].phase.Ready?)
    requires w.processes[pid].stage == n - 1 ==>
               t.store == w.store && (pid in t.processes ==> t.processes[pid] == w.processes[pid])
    ensures Missed(t, n)
  {
    hide Whole;
  }

  /** A step touches the files of its process's stage only, and takes it no further than the next. */
  lemma StepIsLocal(h: Hash, w: World, a: Action)
    requires !a.Invoke? && a.pid in w.processes
    ensures var p, t := w.processes[a.pid], Do(h, w, a);
      && (forall f: File :: f.stage != p.stage ==> (f in t.store <==> f in w.store) && (f in w.store ==> t.store[f] == w.store[f]))
      && (forall q :: q in t.processes && q != a.pid ==> q in w.processes && t.processes[q] == w.processes[q])
      && (a.pid in t.processes ==>
            t.processes[a.pid].stage == p.stage || (t.processes[a.pid].stage == p.stage + 1 && t.processes[a.pid].phase.Ready?))
  {
    hide Admits;
  }

  /** A process ready at a stage that is whole gets nowhere. */
  lemma ReadyRefused(h: Hash, w: World, i: nat, a: Action)
    requires Inv(h, w) && !a.Invoke? && a.pid in w.processes && w.processes[a.pid].stage == i
    requires w.processes[a.pid].phase.Ready? && Whole(w.store, i)
    ensures Do(h, w, a).store == w.store
    ensures a.pid in Do(h, w, a).processes ==> Do(h, w, a).processes[a.pid] == w.processes[a.pid]
  {
    ProcessIsOk(h, w, a.pid);
    if a.OpenLock? {
      OpenLockDoes(h, w, a.pid, a.body);
    }
  }

  lemma NothingFollows(h: Hash, s: Store, n: nat)
    requires StoreOk(h, s) && Untouched(s, n)
    ensures forall j: nat :: j > n ==> !Follows(s, j) && Untouched(s, j)
  {
    forall j: nat | j >= n ensures Untouched(s, j) {
      if j > n && !Untouched(s, j) {
        EarlierStagesAreWhole(h, s, j, n);
      }
    }
    forall j: nat | j > n ensures !Follows(s, j) {
      assert Untouched(s, j - 1);
    }
  }

  /**
   An analysis that stops between its two stages ends the chain: a rerun takes another timestamp
   and is refused at the first lock, and no other command writes the second stage.
   */
  lemma {:induction false} MissedForever(h: Hash, w: World, n: nat, schedule: seq<Action>)
    requires Inv(h, w) && Missed(w, n)
    ensures Inv(h, Continue(h, w, schedule)) && Missed(Continue(h, w, schedule), n)
    ensures forall j: nat :: j >= n ==> Untouched(Continue(h, w, schedule).store, j)
  {
    if schedule != [] {
      var k := |schedule| - 1;
      MissedForever(h, w, n, schedule[..k]);
      StepKeepsInv(h, Continue(h, w, schedule[..k]), schedule[k]);
      MissedStep(h, Continue(h, w, schedule[..k]), n, schedule[k]);
    }
    NothingFollows(h, Continue(h, w, schedule).store, n);
  }

  // ----- every store without a running command -----

  /** The first stage that is not whole. */
  lemma FirstMissing(h: Hash, s: Store, from: nat) returns (n: nat)
    requires StoreOk(h, s) && from <= STAGES && forall i :: 0 <= i < from ==> Whole(s, i)
    ensures n <= STAGES && !Whole(s, n) && forall i :: 0 <= i < n ==> Whole(s, i)
    decreases STAGES - from
  {
    if !Whole(s, from) {
      n := from;
    } else {
      assert LockOk(h, s, from);
      n := FirstMissing(h, s, from + 1);
    }
  }

  lemma NotBegun(h: Hash, s: Store, n: nat)
    requires StoreOk(h, s) && !Whole(s, n) && LockFile(n) !in s && forall i :: 0 <= i < n ==> Whole(s, i)
    ensures UpTo(s, n)
  {
    assert StateFile(n) in s ==> StateOk(h, s, n);
    NothingFollows(h, s, n);
    assert forall j: nat :: j >= n ==> Untouched(s, j);
    forall f: File | f.stage >= n ensures f !in s {
      assert Untouched(s, f.stage);
    }
  }

  lemma AllWrittenForever(h: Hash, s: Store)
    requires StoreOk(h, s)
    ensures forall i: nat :: Whole(s, i) ==> i < STAGES
  {
    forall i: nat | Whole(s, i) ensures i < STAGES {
      assert LockOk(h, s, i);
    }
  }

  /** With no command running, a store that cannot advance never gains a whole stage. */
  lemma StuckForever(h: Hash, w: World, schedule: seq<Action>)
    requires Inv(h, w) && w.processes == map[] && !CanAdvance(w.store)
    ensures forall i: nat :: Whole(Continue(h, w, schedule).store, i) <==> Whole(w.store, i)
  {
    hide CanAdvance;
    var n := FirstMissing(h, w.store, 0);
    var later := Continue(h, w, schedule).store;
    RecordsAreForever(h, w, schedule);
    AllWrittenForever(h, later);
    forall i: nat | Whole(w.store, i) ensures Whole(later, i) {
      WholeStays(w.store, later, i);
    }
    if LockFile(n) in w.store {
      AbandonedForever(h, w, n, schedule);
      assert forall i: nat :: i >= n ==> !Whole(later, i);
    } else {
      NotBegun(h, w.store, n);
      if n < STAGES {
        NoCommandStarts(w.store, n);
        MissedForever(h, w, n, schedule);
        assert forall i: nat :: i >= n ==> Untouched(later, i) && !Whole(later, i);
      }
    }
  }

  lemma NoCommandStarts(s: Store, n: nat)
    requires UpTo(s, n) && n < STAGES && !CanAdvance(s)
    ensures SecondOfAnalysis(n)
  {
  }

  // ----- going on -----

  lemma {:induction false} ContinueConcat(h: Hash, w: World, first: seq<Action>, second: seq<Action>)
    ensures Continue(h, w, first + second) == Continue(h, Continue(h, w, first), second)
  {
    if second == [] {
      assert first + second == first;
    } else {
      var all, k := first + second, |second| - 1;
      assert all[..|all| - 1] == first + second[..k];
      ContinueConcat(h, w, first, second[..k]);
    }
  }

  lemma ContinueOne(h: Hash, w: World, a: Action)
    ensures Continue(h, w, [a]) == Do(h, w, a)
  {
    assert [a][..0] == [];
  }

  /** One process, left alone, writes the lock of the stage it stands at. */
  lemma LockAlone(h: Hash, w: World, pid: nat, p: Process) returns (lock: Content, q: Process)
    requires Inv(h, w) && w.processes == map[pid := p] && p.phase.Ready? && LockFile(p.stage) !in w.store
    ensures lock.LockRecord? && q.phase.LockDone? && q.stage == p.stage && q.last == p.last
    ensures var t := Do(h, Do(h, w, OpenLock(pid, "")), FillLock(pid));
      Inv(h, t) && t == World(w.store[LockFile(p.stage) := Torn][LockFile(p.stage) := lock], map[pid := q], w.clock)
  {
    ProcessIsOk(h, w, pid);
    OpenLockDoes(h, w, pid, "");
    StepKeepsInv(h, w, OpenLock(pid, ""));
    var halfway := Do(h, w, OpenLock(pid, ""));
    lock := NewLock(h, w.store, p, "");
    var p1 := p.(phase := LockOpen, payload := lock);
    Created(w, pid, p, LockFile(p.stage), lock, LockOpen);
    StepKeepsInv(h, halfway, FillLock(pid));
    q := p1.(phase := LockDone);
    hide *;
    LockFilledAlone(h, halfway, pid, p1);
  }

  lemma LockFilledAlone(h: Hash, w: World, pid: nat, p: Process)
    requires w.processes == map[pid := p] && p.phase.LockOpen?
    ensures Do(h, w, FillLock(pid)) == World(w.store[LockFile(p.stage) := p.payload], map[pid := p.(phase := LockDone)], w.clock)
  {
    hide Admits;
  }

  lemma ReadyForState(h: Hash, w: World, pid: nat, p: Process)
    requires Inv(h, w) && w.processes == map[pid := p] && p.phase.LockDone?
    ensures StateFile(p.stage) !in w.store && LockFile(p.stage) in w.store
    ensures p.stage > 0 ==> StateFile(p.stage - 1) in w.store
  {
    ProcessIsOk(h, w, pid);
    hide Inv;
    StateOpened(h, w.store, p);
  }

  /** Then its state record. */
  lemma StateAlone(h: Hash, w: World, pid: nat, p: Process) returns (state: Content)
    requires Inv(h, w) && w.processes == map[pid := p] && p.phase.LockDone?
    ensures state.StateRecord?
    ensures var t := Do(h, Do(h, w, OpenState(pid)), FillState(pid));
      && Inv(h, t) && t.store == w.store[StateFile(p.stage) := Torn][StateFile(p.stage) := state] && t.clock >= w.clock
      && t.processes == if p.stage < p.last then map[pid := Process(p.stage + 1, p.last, w.clock, Ready, Torn)] else map[]
  {
    hide Inv, Do;
    ReadyForState(h, w, pid, p);
    OpenStateDoes(h, w, pid);
    state := NewState(h, w.store, p);
    var q := p.(phase := StateOpen, payload := state);
    hide *;
    StepKeepsInv(h, w, OpenState(pid));
    var halfway := Do(h, w, OpenState(pid));
    Created(w, pid, p, StateFile(p.stage), state, StateOpen);
    StepKeepsInv(h, halfway, FillState(pid));
    StateFilledAlone(h, halfway, pid, q);
  }

  lemma Created(w: World, pid: nat, p: Process, file: File, payload: Content, phase: Phase)
    requires w.processes == map[pid := p]
    ensures Create(w, pid, p, file, payload, phase)
         == World(w.store[file := Torn], map[pid := p.(phase := phase, payload := payload)], w.clock)
  {
  }

  lemma StateFilledAlone(h: Hash, w: World, pid: nat, q: Process)
    requires w.processes == map[pid := q] && q.phase.StateOpen?
    ensures var t := Do(h, w, FillState(pid));
      && t.store == w.store[StateFile(q.stage) := q.payload] && t.clock >= w.clock
      && t.processes == if q.stage < q.last then map[pid := Process(q.stage + 1, q.last, w.clock, Ready, Torn)] else map[]
  {
    FillStateDoes(h, w, pid);
    assert map[pid := q] - {pid} == map[];
  }

  /** One process, left alone, writes the stage it stands at. */
  lemma StageAlone(h: Hash, w: World, pid: nat, p: Process) returns (schedule: seq<Action>)
    requires Inv(h, w) && w.processes == map[pid := p] && p.phase.Ready? && UpTo(w.store, p.stage)
    ensures var t := Continue(h, w, schedule);
      && Inv(h, t) && UpTo(t.store, p.stage + 1) && t.clock >= w.clock
      && t.processes == if p.stage < p.last then map[pid := Process(p.stage + 1, p.last, w.clock, Ready, Torn)] else map[]
  {
    hide Inv, Do, Continue;
    var lock, q := LockAlone(h, w, pid, p);
    var locked := Do(h, Do(h, w, OpenLock(pid, "")), FillLock(pid));
    var state := StateAlone(h, locked, pid, q);
    FourSteps(h, w, OpenLock(pid, ""), FillLock(pid), OpenState(pid), FillState(pid));
    schedule := [OpenLock(pid, "")] + [FillLock(pid)] + [OpenState(pid)] + [FillState(pid)];
    StageWritten(w.store, Continue(h, w, schedule).store, p.stage, lock, state);
  }

  /** One process, left alone, writes all the stages it has left. */
  lemma {:induction false} StagesAlone(h: Hash, w: World, pid: nat, p: Process) returns (schedule: seq<Action>)
    requires Inv(h, w) && w.processes == map[pid := p] && p.phase.Ready? && p.stage <= p.last && UpTo(w.store, p.stage)
    ensures var t := Continue(h, w, schedule); Inv(h, t) && t.processes == map[] && UpTo(t.store, p.last + 1)
    decreases p.last - p.stage
  {
    hide *;
    schedule := StageAlone(h, w, pid, p);
    if p.stage < p.last {
      var t := Continue(h, w, schedule);
      var rest := StagesAlone(h, t, pid, Process(p.stage + 1, p.last, w.clock, Ready, Torn));
      ContinueConcat(h, w, schedule, rest);
      schedule := schedule + rest;
    }
  }

  lemma FourSteps(h: Hash, w: World, a: Action, b: Action, c: Action, d: Action)
    ensures Continue(h, w, [a] + [b] + [c] + [d]) == Do(h, Do(h, Do(h, Do(h, w, a), b), c), d)
  {
    hide Do;
    ContinueOne(h, w, a);
    ContinueConcat(h, w, [a], [b]);
    ContinueOne(h, Do(h, w, a), b);
    ContinueConcat(h, w, [a] + [b], [c]);
    ContinueOne(h, Do(h, Do(h, w, a), b), c);
    ContinueConcat(h, w, [a] + [b] + [c], [d]);
    ContinueOne(h, Do(h, Do(h, Do(h, w, a), b), c), d);
  }

  lemma StageWritten(s: Store, t: Store, n: nat, lock: Content, state: Content)
    requires UpTo(s, n) && lock.LockRecord? && state.StateRecord?
    requires t == s[LockFile(n) := Torn][LockFile(n) := lock][StateFile(n) := Torn][StateFile(n) := state]
    ensures UpTo(t, n + 1)
  {
    forall i | 0 <= i < n + 1 ensures Whole(t, i) {
      if i < n {
        assert Whole(s, i);
      }
    }
  }

  lemma CommandStarts(h: Hash, w: World, n: nat)
    requires Inv(h, w) && w.processes == map[] && n < STAGES && !SecondOfAnalysis(n) && UpTo(w.store, n)
    ensures var c := CommandAt(n);
      Inv(h, Do(h, w, Action.Invoke(c)))
      && Do(h, w, Action.Invoke(c)) == World(w.store, map[w.clock := Process(n, Last(c), w.clock, Ready, Torn)], w.clock + 1)
  {
    ChainIsAdmitted(h, w.store, CommandAt(n));
    StepKeepsInv(h, w, Action.Invoke(CommandAt(n)));
    hide Admits, Inv;
  }

  lemma NextStart(n: nat)
    requires n < STAGES && !SecondOfAnalysis(n)
    ensures n <= Last(CommandAt(n)) <= n + 1 && Last(CommandAt(n)) < STAGES && !SecondOfAnalysis(Last(CommandAt(n)) + 1)
  {
  }

  /** The next command, run alone, takes the chain further. */
  lemma CommandAlone(h: Hash, w: World, n: nat) returns (schedule: seq<Action>, m: nat)
    requires Inv(h, w) && w.processes == map[] && n < STAGES && !SecondOfAnalysis(n) && UpTo(w.store, n)
    ensures var t := Continue(h, w, schedule);
      Inv(h, t) && t.processes == map[] && UpTo(t.store, m) && n < m <= STAGES && !SecondOfAnalysis(m)
  {
    CommandStarts(h, w, n);
    NextStart(n);
    var c := CommandAt(n);
    ContinueOne(h, w, Action.Invoke(c));
    hide *;
    var started := Do(h, w, Action.Invoke(c));
    var rest := StagesAlone(h, started, w.clock, Process(n, Last(c), w.clock, Ready, Torn));
    ContinueConcat(h, w, [Action.Invoke(c)], rest);
    schedule, m := [Action.Invoke(c)] + rest, Last(c) + 1;
  }

  /** From a store that can advance, some schedule writes all seventeen stages. */
  lemma {:induction false} ChainCanBeFinished(h: Hash, w: World, n: nat) returns (schedule: seq<Action>)
    requires Inv(h, w) && w.processes == map[] && n <= STAGES && !SecondOfAnalysis(n) && UpTo(w.store, n)
    ensures AllWritten(Continue(h, w, schedule).store)
    decreases STAGES - n
  {
    if n == STAGES {
      schedule := [];
    } else {
      var first, m := CommandAlone(h, w, n);
      var rest := ChainCanBeFinished(h, Continue(h, w, first), m);
      ContinueConcat(h, w, first, rest);
      schedule := first + rest;
    }
  }

  ghost predicate GainsAStage(h: Hash, w: World, schedule: seq<Action>) {
    exists i: nat :: Whole(Continue(h, w, schedule).store, i) && !Whole(w.store, i)
  }

  /**
   With no command running, a reachable store either can still get all seventeen stages, or never
   gets another one: the first exactly when its whole stages are a beginning of the chain, nothing
   else has begun, and the next stage is not the second of an analysis.
   */
  lemma AdvancesExactly(h: Hash, w: World)
    requires Inv(h, w) && w.processes == map[]
    ensures (exists schedule :: GainsAStage(h, w, schedule)) <==> CanAdvance(w.store)
    ensures CanAdvance(w.store) ==> exists schedule :: AllWritten(Continue(h, w, schedule).store)
  {
    if CanAdvance(w.store) {
      var n: nat :| n < STAGES && !SecondOfAnalysis(n) && UpTo(w.store, n);
      var schedule := ChainCanBeFinished(h, w, n);
      assert Whole(Continue(h, w, schedule).store, n) && !Whole(w.store, n);
      assert GainsAStage(h, w, schedule);
    } else {
      forall schedule ensures !GainsAStage(h, w, schedule) {
        StuckForever(h, w, schedule);
      }
    }
  }
}
