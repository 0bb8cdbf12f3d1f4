/**
 The append-only lock chain of the cross-benchmark attribution: seventeen stages, each a lock
 file holding the digest of the lock before it and a state record holding the digest of its
 lock. Any number of invocations may run at once; each may crash between any two file
 operations, also between creating a file and filling it. The digest is a parameter.
 */
module LockChain {
  import opened Wrappers

  const STAGES: nat := 17

  type Digest = string

  /** The bytes of a file under `locks/` or `state/`. `Torn`: created, not yet wholly written. */
  datatype Content =
    | Torn
    | LockRecord(stage: nat, created: nat, previous: Option<Digest>, body: string)
    | StateRecord(stage: nat, created: nat, previousState: Option<Digest>, lockDigest: Digest)

  datatype File = LockFile(stage: nat) | StateFile(stage: nat)

  type Store = map<File, Content>
  type Hash = Content -> Digest

  /** The original lifecycle and its two corrected successors. */
  datatype Version = Original | V2 | V3

  datatype Command =
    | FreezeInputs
    | FreezeMethodology
    | Analyze(version: Version)
    | Replay(version: Version)
    | VerifyPublic
    | RepairPublicFormat
    | FreezeCorrected
    | FreezeCorrectedV3
    | VerifyCorrected(version: Version)

  /**
   The stage a lifecycle's analysis follows: the methodology (1), or the frozen corrected
   implementation (7, 12). Analysis, decision, replay and public verification come next.
   */
  function Base(v: Version): nat {
    match v
    case Original => 1
    case V2 => 7
    case V3 => 12
  }

  /** The stages a command writes: only an analysis writes two. */
  function First(c: Command): nat {
    match c
    case FreezeInputs => 0
    case FreezeMethodology => 1
    case Analyze(v) => Base(v) + 1
    case Replay(v) => Base(v) + 3
    case VerifyPublic => 5
    case RepairPublicFormat => 6
    case FreezeCorrected => 7
    case FreezeCorrectedV3 => 12
    case VerifyCorrected(v) => Base(v) + 4
  }

  function Last(c: Command): nat {
    First(c) + if c.Analyze? then 1 else 0
  }

  predicate IsLock(s: Store, i: nat) {
    LockFile(i) in s && s[LockFile(i)].LockRecord?
  }

  predicate IsState(s: Store, i: nat) {
    StateFile(i) in s && s[StateFile(i)].StateRecord?
  }

  /** `_verify_state_binding` returns: both files parse, and the record names the stage and its lock. */
  predicate Binds(h: Hash, s: Store, i: nat) {
    IsLock(s, i) && IsState(s, i) && s[StateFile(i)].stage == i && s[StateFile(i)].lockDigest == h(s[LockFile(i)])
  }

  /** The lock names the digest of the lock before it. */
  predicate Linked(h: Hash, s: Store, i: nat)
    requires i > 0
  {
    IsLock(s, i) && LockFile(i - 1) in s && s[LockFile(i)].previous == Some(h(s[LockFile(i - 1)]))
  }

  predicate Untouched(s: Store, i: nat) {
    LockFile(i) !in s && StateFile(i) !in s
  }

  /** The chain checks after which a command writes; its other checks can only stop it. */
  predicate Admits(h: Hash, s: Store, c: Command) {
    match c
    case FreezeInputs => true
    case FreezeMethodology => Binds(h, s, 0)
    case Analyze(v) =>
      Binds(h, s, 0) && Binds(h, s, 1) && Binds(h, s, Base(v)) && Linked(h, s, 1)
    case Replay(v) =>
      var b := Base(v);
      && Binds(h, s, 0) && Binds(h, s, 1) && Binds(h, s, b) && Binds(h, s, b + 1) && Binds(h, s, b + 2)
      && Linked(h, s, 1) && Linked(h, s, b + 1) && Linked(h, s, b + 2)
    case VerifyPublic =>
      Binds(h, s, 2) && Binds(h, s, 3) && Binds(h, s, 4) && Untouched(s, 5) && Untouched(s, 6) && Linked(h, s, 4)
    case RepairPublicFormat => Binds(h, s, 3) && Binds(h, s, 5)
    case FreezeCorrected => Binds(h, s, 6)
    case FreezeCorrectedV3 => Binds(h, s, 11) && IsLock(s, 7)
    case VerifyCorrected(v) =>
      var b := Base(v);
      && v != Original
      && Binds(h, s, b) && Binds(h, s, b + 1) && Binds(h, s, b + 2) && Binds(h, s, b + 3)
      && Linked(h, s, b + 1) && Linked(h, s, b + 2) && Linked(h, s, b + 3)
  }

  /** Verifying the public outputs once more: stage 5 is bound, and so is the format repair if it has begun. */
  predicate Reverifies(h: Hash, s: Store) {
    && Binds(h, s, 2) && Binds(h, s, 3) && Binds(h, s, 4) && Linked(h, s, 4) && Binds(h, s, 5)
    && (Untouched(s, 6) || (Binds(h, s, 6) && Linked(h, s, 6)))
  }

  // ----- steps -----

  datatype Phase = Ready | LockOpen | LockDone | StateOpen

  /** An invocation past its checks: the stage it is writing, and what it writes. */
  datatype Process = Process(stage: nat, last: nat, created: nat, phase: Phase, payload: Content)

  /** `clock` gives each process and each timestamp a number of its own. */
  datatype World = World(store: Store, processes: map<nat, Process>, clock: nat)

  datatype Action =
    | Invoke(command: Command)
    | OpenLock(pid: nat, body: string)
    | FillLock(pid: nat)
    | OpenState(pid: nat)
    | FillState(pid: nat)
    | Crash(pid: nat)

  /** The digest of the file of the stage before, which stage 0 does not have. */
  function Before(h: Hash, s: Store, file: File): Option<Digest>
    requires file.stage > 0 ==> file.(stage := file.stage - 1) in s
  {
    if file.stage == 0 then None else Some(h(s[file.(stage := file.stage - 1)]))
  }

  function NewLock(h: Hash, s: Store, p: Process, body: string): Content
    requires p.stage > 0 ==> LockFile(p.stage - 1) in s
  {
    LockRecord(p.stage, p.created, Before(h, s, LockFile(p.stage)), body)
  }

  function NewState(h: Hash, s: Store, p: Process): Content
    requires LockFile(p.stage) in s && (p.stage > 0 ==> StateFile(p.stage - 1) in s)
  {
    StateRecord(p.stage, p.created, Before(h, s, StateFile(p.stage)), h(s[LockFile(p.stage)]))
  }

  function Stop(w: World, pid: nat): World {
    w.(processes := w.processes - {pid})
  }

  function Put(w: World, pid: nat, p: Process): World {
    w.(processes := w.processes[pid := p])
  }

  /** The first half of `write_json_create_once` on a path that does not exist. */
  function Create(w: World, pid: nat, p: Process, file: File, payload: Content, phase: Phase): World {
    Put(w.(store := w.store[file := Torn]), pid, p.(phase := phase, payload := payload))
  }

  /** After a stage the command ends, or takes a new timestamp for its next stage. */
  function AfterState(w: World, pid: nat, p: Process): World {
    if p.stage < p.last then
      Put(w, pid, Process(p.stage + 1, p.last, w.clock, Ready, Torn)).(clock := w.clock + 1)
    else Stop(w, pid)
  }

  function StepOf(h: Hash, w: World, a: Action, pid: nat, p: Process): World {
    match a
    case OpenLock(_, body) =>
      if !p.phase.Ready? then w
      else if p.stage > 0 && LockFile(p.stage - 1) !in w.store then Stop(w, pid)
      else
        var file, payload := LockFile(p.stage), NewLock(h, w.store, p, body);
        if file !in w.store then Create(w, pid, p, file, payload, LockOpen)
        else if w.store[file] == payload then Put(w, pid, p.(phase := LockDone))
        else Stop(w, pid)
    case FillLock(_) =>
      if !p.phase.LockOpen? then w
      else Put(w.(store := w.store[LockFile(p.stage) := p.payload]), pid, p.(phase := LockDone))
    case OpenState(_) =>
      if !p.phase.LockDone? then w
      else if LockFile(p.stage) !in w.store || (p.stage > 0 && StateFile(p.stage - 1) !in w.store) then Stop(w, pid)
      else
        var file, payload := StateFile(p.stage), NewState(h, w.store, p);
        if file !in w.store then Create(w, pid, p, file, payload, StateOpen)
        else if w.store[file] == payload then AfterState(w, pid, p)
        else Stop(w, pid)
    case FillState(_) =>
      if !p.phase.StateOpen? then w
      else AfterState(w.(store := w.store[StateFile(p.stage) := p.payload]), pid, p)
    case Crash(_) => Stop(w, pid)
    case Invoke(_) => w
  }

  /** One step; an action that does not apply changes nothing. */
  function Do(h: Hash, w: World, a: Action): World {
    if a.Invoke? then
      if Admits(h, w.store, a.command) then
        Put(w, w.clock, Process(First(a.command), Last(a.command), w.clock, Ready, Torn)).(clock := w.clock + 1)
      else w
    else if a.pid in w.processes then StepOf(h, w, a, a.pid, w.processes[a.pid])
    else w
  }

  function Continue(h: Hash, w: World, schedule: seq<Action>): World {
    if schedule == [] then w
    else Do(h, Continue(h, w, schedule[..|schedule| - 1]), schedule[|schedule| - 1])
  }

  /** The world after a whole schedule, from an empty private root. */
  function Run(h: Hash, schedule: seq<Action>): World {
    Continue(h, World(map[], map[], 0), schedule)
  }

  // ----- what every step keeps: the files -----

  ghost predicate Whole(s: Store, i: nat) {
    IsLock(s, i) && IsState(s, i)
  }

  /** The stage before is wholly written. */
  ghost predicate Follows(s: Store, i: nat) {
    i == 0 || Whole(s, i - 1)
  }

  ghost predicate LockOk(h: Hash, s: Store, i: nat)
    requires LockFile(i) in s
  {
    var c := s[LockFile(i)];
    && i < STAGES && Follows(s, i)
    && (!c.Torn? ==> c.LockRecord? && c.stage == i && c.previous == Before(h, s, LockFile(i)))
  }

  ghost predicate StateOk(h: Hash, s: Store, i: nat)
    requires StateFile(i) in s
  {
    var c := s[StateFile(i)];
    && IsLock(s, i) && Follows(s, i)
    && (!c.Torn? ==>
          && c.StateRecord? && c.stage == i && c.created == s[LockFile(i)].created
          && c.lockDigest == h(s[LockFile(i)]) && c.previousState == Before(h, s, StateFile(i)))
  }

  ghost predicate StoreOk(h: Hash, s: Store) {
    && (forall i {:trigger LockOk(h, s, i)} :: LockFile(i) in s ==> LockOk(h, s, i))
    && (forall i {:trigger StateOk(h, s, i)} :: StateFile(i) in s ==> StateOk(h, s, i))
  }

  /** Files are only added, and only a torn file may still change. */
  ghost predicate Grows(s: Store, t: Store) {
    forall f :: f in s ==> f in t && (s[f].Torn? || t[f] == s[f])
  }

  lemma FollowsStays(h: Hash, s: Store, t: Store, i: nat)
    requires Grows(s, t) && Follows(s, i)
    ensures Follows(t, i)
    ensures Before(h, t, LockFile(i)) == Before(h, s, LockFile(i))
    ensures Before(h, t, StateFile(i)) == Before(h, s, StateFile(i))
  {
  }

  lemma LockOkStays(h: Hash, s: Store, t: Store, i: nat)
    requires Grows(s, t) && LockFile(i) in s && LockOk(h, s, i) && t[LockFile(i)] == s[LockFile(i)]
    ensures LockOk(h, t, i)
  {
    FollowsStays(h, s, t, i);
  }

  lemma StateOkStays(h: Hash, s: Store, t: Store, i: nat)
    requires Grows(s, t) && StateFile(i) in s && StateOk(h, s, i) && t[StateFile(i)] == s[StateFile(i)]
    ensures StateOk(h, t, i)
  {
    FollowsStays(h, s, t, i);
    assert t[LockFile(i)] == s[LockFile(i)];
  }

  /** One file is added or filled, in good order: the others are still in good order. */
  lemma StoreOkStays(h: Hash, s: Store, file: File, c: Content)
    requires StoreOk(h, s) && (file !in s || s[file].Torn?)
    requires var t := s[file := c];
             if file.LockFile? then LockOk(h, t, file.stage) else StateOk(h, t, file.stage)
    ensures Grows(s, s[file := c]) && StoreOk(h, s[file := c])
  {
    var t := s[file := c];
    forall i | LockFile(i) in t ensures LockOk(h, t, i) {
      if LockFile(i) != file { LockOkStays(h, s, t, i); }
    }
    forall i | StateFile(i) in t ensures StateOk(h, t, i) {
      if StateFile(i) != file { StateOkStays(h, s, t, i); }
    }
  }

  // ----- what every step keeps: the processes -----

  /** No record bears this timestamp. */
  ghost predicate Unused(s: Store, created: nat) {
    forall f :: f in s && !s[f].Torn? ==> s[f].created != created
  }

  ghost predicate OwnLock(s: Store, p: Process) {
    IsLock(s, p.stage) && s[LockFile(p.stage)].created == p.created
  }

  ghost predicate ProcessOk(h: Hash, s: Store, p: Process) {
    && p.stage <= p.last < STAGES
    && Follows(s, p.stage)
    && match p.phase
       case Ready => Unused(s, p.created)
       case LockOpen =>
         && Unused(s, p.created) && LockFile(p.stage) in s && s[LockFile(p.stage)].Torn?
         && p.payload.LockRecord? && p.payload == NewLock(h, s, p, p.payload.body)
       case LockDone => OwnLock(s, p) && StateFile(p.stage) !in s
       case StateOpen =>
         OwnLock(s, p) && StateFile(p.stage) in s && s[StateFile(p.stage)].Torn? && p.payload == NewState(h, s, p)
  }

  /** No two processes share a timestamp, and no two are filling the same lock. */
  ghost predicate Apart(processes: map<nat, Process>) {
    forall p, q :: p in processes && q in processes && p != q ==>
      && processes[p].created != processes[q].created
      && !(processes[p].phase.LockOpen? && processes[q].phase.LockOpen? && processes[p].stage == processes[q].stage)
  }

  ghost predicate Inv(h: Hash, w: World) {
    && StoreOk(h, w.store)
    && (forall f :: f in w.store && !w.store[f].Torn? ==> w.store[f].created < w.clock)
    && (forall p :: p in w.processes ==>
          p < w.clock && w.processes[p].created < w.clock && ProcessOk(h, w.store, w.processes[p]))
    && Apart(w.processes)
  }

  /** Stopping a process disturbs nothing. */
  lemma StopKeepsInv(h: Hash, w: World, pid: nat)
    requires Inv(h, w)
    ensures Inv(h, Stop(w, pid))
  {
  }

  /** `p` may take its place beside the running processes. */
  ghost predicate Fits(h: Hash, w: World, pid: nat, p: Process) {
    && pid < w.clock && p.created < w.clock && ProcessOk(h, w.store, p)
    && forall q :: q in w.processes && q != pid ==>
         && w.processes[q].created != p.created
         && !(w.processes[q].phase.LockOpen? && p.phase.LockOpen? && w.processes[q].stage == p.stage)
  }

  lemma PutKeepsInv(h: Hash, w: World, pid: nat, p: Process)
    requires Inv(h, Stop(w, pid)) && Fits(h, w, pid, p)
    ensures Inv(h, Put(w, pid, p))
  {
    var stopped := Stop(w, pid);
    forall q | q in w.processes && q != pid ensures q in stopped.processes && stopped.processes[q] == w.processes[q] {
    }
  }

  /** The file that a process in this phase creates or fills next. */
  function Target(p: Process): File {
    if p.phase.Ready? || p.phase.LockOpen? then LockFile(p.stage) else StateFile(p.stage)
  }

  /** Another process's file operation takes nothing from `q`. */
  lemma OthersUnaffected(h: Hash, s: Store, p: Process, q: Process, c: Content)
    requires StoreOk(h, s) && ProcessOk(h, s, p) && ProcessOk(h, s, q) && p.created != q.created
    requires !(p.phase.LockOpen? && q.phase.LockOpen? && p.stage == q.stage)
    requires Target(p) !in s || s[Target(p)].Torn?
    requires (p.phase.Ready? || p.phase.LockDone?) ==> Target(p) !in s && c.Torn?
    requires !c.Torn? ==> c.created == p.created
    ensures ProcessOk(h, s[Target(p) := c], q)
  {
    var t := s[Target(p) := c];
    assert Grows(s, t);
    FollowsStays(h, s, t, q.stage);
  }

  /** A file operation by `pid`, after which it is put back with `next` or not at all. */
  lemma WriteKeepsInv(h: Hash, w: World, pid: nat, c: Content)
    requires Inv(h, w) && pid in w.processes
    requires var p, s := w.processes[pid], w.store;
      && (Target(p) !in s || s[Target(p)].Torn?)
      && (p.phase.Ready? || p.phase.LockDone? ==> Target(p) !in s && c.Torn?)
      && (!c.Torn? ==> c.created == p.created)
      && (if Target(p).LockFile? then LockOk(h, s[Target(p) := c], p.stage) else StateOk(h, s[Target(p) := c], p.stage))
    ensures Inv(h, Stop(w.(store := w.store[Target(w.processes[pid]) := c]), pid))
    ensures Grows(w.store, w.store[Target(w.processes[pid]) := c])
  {
    hide StoreOk, LockOk, StateOk, ProcessOk, Grows;
    var p := w.processes[pid];
    StoreOkStays(h, w.store, Target(p), c);
    forall q | q in w.processes && q != pid
      ensures ProcessOk(h, w.store[Target(p) := c], w.processes[q])
    {
      OthersUnaffected(h, w.store, p, w.processes[q], c);
    }
  }

  lemma OpenLockKeepsInv(h: Hash, w: World, pid: nat, body: string)
    requires Inv(h, w) && pid in w.processes && w.processes[pid].phase.Ready?
    ensures Inv(h, Do(h, w, OpenLock(pid, body))) && Grows(w.store, Do(h, w, OpenLock(pid, body)).store)
  {
    ProcessIsOk(h, w, pid);
    OpenLockDoes(h, w, pid, body);
    StopKeepsInv(h, w, pid);
    hide *;
    if LockFile(w.processes[pid].stage) !in w.store {
      NewLockKeepsInv(h, w, pid, body);
    } else {
      StopGrows(w, pid);
    }
  }

  lemma StopGrows(w: World, pid: nat)
    ensures Grows(w.store, Stop(w, pid).store)
  {
  }

  lemma NewLockKeepsInv(h: Hash, w: World, pid: nat, body: string)
    requires Inv(h, w) && pid in w.processes && w.processes[pid].phase.Ready? && LockFile(w.processes[pid].stage) !in w.store
    ensures Inv(h, Do(h, w, OpenLock(pid, body))) && Grows(w.store, Do(h, w, OpenLock(pid, body)).store)
  {
    var p := w.processes[pid];
    ProcessIsOk(h, w, pid);
    OpenLockDoes(h, w, pid, body);
    LockOpened(h, w.store, p, body);
    TornLockKeepsInv(h, w, pid);
    CreatedStore(w, pid, p, LockFile(p.stage), NewLock(h, w.store, p, body), LockOpen);
    hide *;
    PutLockOpen(h, w, pid, body);
  }

  lemma TornLockKeepsInv(h: Hash, w: World, pid: nat)
    requires Inv(h, w) && pid in w.processes && w.processes[pid].phase.Ready?
    requires var file := LockFile(w.processes[pid].stage); file !in w.store && LockOk(h, w.store[file := Torn], file.stage)
    ensures var after := w.(store := w.store[LockFile(w.processes[pid].stage) := Torn]);
      Inv(h, Stop(after, pid)) && Grows(w.store, after.store)
  {
    hide Inv, LockOk, StateOk, Grows, Stop;
    WriteKeepsInv(h, w, pid, Torn);
  }

  lemma CreatedStore(w: World, pid: nat, p: Process, file: File, payload: Content, phase: Phase)
    ensures Create(w, pid, p, file, payload, phase).store == w.store[file := Torn]
  {
  }

  lemma OpenLockDoes(h: Hash, w: World, pid: nat, body: string)
    requires pid in w.processes && w.processes[pid].phase.Ready? && ProcessOk(h, w.store, w.processes[pid])
    ensures var p := w.processes[pid];
      Do(h, w, OpenLock(pid, body))
      == if LockFile(p.stage) !in w.store then Create(w, pid, p, LockFile(p.stage), NewLock(h, w.store, p, body), LockOpen)
         else Stop(w, pid)
  {
  }

  lemma LockOpened(h: Hash, s: Store, p: Process, body: string)
    requires StoreOk(h, s) && ProcessOk(h, s, p) && p.phase.Ready? && LockFile(p.stage) !in s
    ensures LockOk(h, s[LockFile(p.stage) := Torn], p.stage)
    ensures p.stage > 0 ==> LockFile(p.stage - 1) in s
    ensures ProcessOk(h, s[LockFile(p.stage) := Torn], p.(phase := LockOpen, payload := NewLock(h, s, p, body)))
  {
    FollowsStays(h, s, s[LockFile(p.stage) := Torn], p.stage);
  }

  /** Nobody else is filling a lock that did not exist. */
  lemma PutLockOpen(h: Hash, w: World, pid: nat, body: string)
    requires Inv(h, w) && pid in w.processes && w.processes[pid].phase.Ready? && LockFile(w.processes[pid].stage) !in w.store
    requires w.processes[pid].stage > 0 ==> LockFile(w.processes[pid].stage - 1) in w.store
    requires var p := w.processes[pid];
      var after := w.(store := w.store[LockFile(p.stage) := Torn]);
      var q := p.(phase := LockOpen, payload := NewLock(h, w.store, p, body));
      Inv(h, Stop(after, pid)) && ProcessOk(h, after.store, q)
    ensures Inv(h, Do(h, w, OpenLock(pid, body)))
  {
    var p := w.processes[pid];
    var after := w.(store := w.store[LockFile(p.stage) := Torn]);
    var q := p.(phase := LockOpen, payload := NewLock(h, w.store, p, body));
    assert Fits(h, after, pid, q) by {
      forall r | r in w.processes && r != pid
        ensures w.processes[r].created != p.created
        ensures !(w.processes[r].phase.LockOpen? && w.processes[r].stage == p.stage)
      {
        assert ProcessOk(h, w.store, w.processes[r]);
      }
    }
    hide Inv, ProcessOk, Fits;
    PutKeepsInv(h, after, pid, q);
  }

  lemma FillLockKeepsInv(h: Hash, w: World, pid: nat)
    requires Inv(h, w) && pid in w.processes && w.processes[pid].phase.LockOpen?
    ensures Inv(h, Do(h, w, FillLock(pid))) && Grows(w.store, Do(h, w, FillLock(pid)).store)
  {
    var p := w.processes[pid];
    assert ProcessOk(h, w.store, p);
    assert StateFile(p.stage) in w.store ==> StateOk(h, w.store, p.stage);
    WriteKeepsInv(h, w, pid, p.payload);
    PutKeepsInv(h, w.(store := w.store[LockFile(p.stage) := p.payload]), pid, p.(phase := LockDone));
  }

  lemma OpenStateKeepsInv(h: Hash, w: World, pid: nat)
    requires Inv(h, w) && pid in w.processes && w.processes[pid].phase.LockDone?
    ensures Inv(h, Do(h, w, OpenState(pid))) && Grows(w.store, Do(h, w, OpenState(pid)).store)
  {
    var p := w.processes[pid];
    ProcessIsOk(h, w, pid);
    StateOpened(h, w.store, p);
    hide Inv, StoreOk, LockOk, StateOk, ProcessOk, Grows, Unused, Do, StepOf, NewState;
    OpenStateDoes(h, w, pid);
    WriteKeepsInv(h, w, pid, Torn);
    var after := w.(store := w.store[StateFile(p.stage) := Torn]);
    var q := p.(phase := StateOpen, payload := NewState(h, w.store, p));
    OnlyOpenLocksClash(h, after, pid, p.created, q);
    PutKeepsInv(h, after, pid, q);
  }

  lemma OpenStateDoes(h: Hash, w: World, pid: nat)
    requires pid in w.processes && w.processes[pid].phase.LockDone?
    requires var p := w.processes[pid];
      && StateFile(p.stage) !in w.store && LockFile(p.stage) in w.store
      && (p.stage > 0 ==> StateFile(p.stage - 1) in w.store)
    ensures var p := w.processes[pid];
      Do(h, w, OpenState(pid)) == Create(w, pid, p, StateFile(p.stage), NewState(h, w.store, p), StateOpen)
  {
  }

  lemma StateOpened(h: Hash, s: Store, p: Process)
    requires StoreOk(h, s) && ProcessOk(h, s, p) && p.phase.LockDone?
    ensures StateFile(p.stage) !in s && LockFile(p.stage) in s && (p.stage > 0 ==> StateFile(p.stage - 1) in s)
    ensures StateOk(h, s[StateFile(p.stage) := Torn], p.stage)
    ensures ProcessOk(h, s[StateFile(p.stage) := Torn], p.(phase := StateOpen, payload := NewState(h, s, p)))
  {
    FollowsStays(h, s, s[StateFile(p.stage) := Torn], p.stage);
  }

  /** A process that keeps its timestamp and is not filling a lock fits in where it was. */
  lemma OnlyOpenLocksClash(h: Hash, w: World, pid: nat, created: nat, q: Process)
    requires Inv(h, Stop(w, pid)) && pid < w.clock && created < w.clock && q.created == created && !q.phase.LockOpen?
    requires ProcessOk(h, w.store, q)
    requires forall r :: r in w.processes && r != pid ==> w.processes[r].created != created
    ensures Fits(h, w, pid, q)
  {
  }

  lemma ProcessIsOk(h: Hash, w: World, pid: nat)
    requires Inv(h, w) && pid in w.processes
    ensures StoreOk(h, w.store) && ProcessOk(h, w.store, w.processes[pid])
    ensures pid < w.clock && w.processes[pid].created < w.clock
    ensures forall q :: q in w.processes && q != pid ==> w.processes[q].created != w.processes[pid].created
  {
  }

  lemma FillStateDoes(h: Hash, w: World, pid: nat)
    requires pid in w.processes && w.processes[pid].phase.StateOpen?
    ensures var p := w.processes[pid];
      Do(h, w, FillState(pid)) == AfterState(w.(store := w.store[StateFile(p.stage) := p.payload]), pid, p)
  {
  }

  lemma FillStateKeepsInv(h: Hash, w: World, pid: nat)
    requires Inv(h, w) && pid in w.processes && w.processes[pid].phase.StateOpen?
    ensures Inv(h, Do(h, w, FillState(pid))) && Grows(w.store, Do(h, w, FillState(pid)).store)
  {
    var p := w.processes[pid];
    ProcessIsOk(h, w, pid);
    StateFilled(h, w.store, p);
    hide Inv, StoreOk, LockOk, StateOk, ProcessOk, Grows, Follows, Do, StepOf, AfterState, Before;
    FillStateDoes(h, w, pid);
    WriteKeepsInv(h, w, pid, p.payload);
    AfterStateKeepsInv(h, w.(store := w.store[StateFile(p.stage) := p.payload]), pid, p);
  }

  lemma AfterStateKeepsInv(h: Hash, w: World, pid: nat, p: Process)
    requires Inv(h, Stop(w, pid)) && pid < w.clock && p.last < STAGES && Follows(w.store, p.stage + 1)
    ensures Inv(h, AfterState(w, pid, p)) && AfterState(w, pid, p).store == w.store
  {
    hide Inv;
    if p.stage < p.last {
      NextProcessFits(h, w, pid, Process(p.stage + 1, p.last, w.clock, Ready, Torn));
    }
  }

  lemma StateFilled(h: Hash, s: Store, p: Process)
    requires StoreOk(h, s) && ProcessOk(h, s, p) && p.phase.StateOpen?
    ensures StateFile(p.stage) in s && s[StateFile(p.stage)].Torn? && p.last < STAGES
    ensures p.payload.StateRecord? && p.payload.created == p.created
    ensures StateOk(h, s[StateFile(p.stage) := p.payload], p.stage)
    ensures Follows(s[StateFile(p.stage) := p.payload], p.stage + 1)
  {
  }

  /** A process with a fresh timestamp fits in beside the others. */
  lemma NextProcessFits(h: Hash, w: World, pid: nat, p: Process)
    requires Inv(h, Stop(w, pid)) && pid <= w.clock
    requires p.created == w.clock && p.phase.Ready? && p.stage <= p.last < STAGES && Follows(w.store, p.stage)
    ensures Inv(h, Put(w, pid, p).(clock := w.clock + 1))
  {
    var later := w.(clock := w.clock + 1);
    assert Inv(h, Stop(later, pid)) by {
      assert Stop(later, pid).processes == Stop(w, pid).processes;
    }
    forall q | q in w.processes && q != pid ensures w.processes[q].created != p.created {
      assert q in Stop(w, pid).processes && Stop(w, pid).processes[q] == w.processes[q];
    }
    PutKeepsInv(h, later, pid, p);
  }

  /** Whatever the chain checks let through finds the stage before wholly written. */
  lemma AdmittedFollows(h: Hash, s: Store, c: Command)
    requires Admits(h, s, c)
    ensures Follows(s, First(c)) && Last(c) < STAGES
  {
  }

  lemma StepKeepsInv(h: Hash, w: World, a: Action)
    requires Inv(h, w)
    ensures Inv(h, Do(h, w, a)) && Grows(w.store, Do(h, w, a).store)
  {
    if a.Invoke? {
      if Admits(h, w.store, a.command) {
        AdmittedFollows(h, w.store, a.command);
        assert w.clock !in w.processes;
        StopKeepsInv(h, w, w.clock);
        NextProcessFits(h, w, w.clock, Process(First(a.command), Last(a.command), w.clock, Ready, Torn));
      }
    } else if a.pid in w.processes {
      var p := w.processes[a.pid];
      match a {
        case OpenLock(pid, body) => if p.phase.Ready? { OpenLockKeepsInv(h, w, pid, body); }
        case FillLock(pid) => if p.phase.LockOpen? { FillLockKeepsInv(h, w, pid); }
        case OpenState(pid) => if p.phase.LockDone? { OpenStateKeepsInv(h, w, pid); }
        case FillState(pid) => if p.phase.StateOpen? { FillStateKeepsInv(h, w, pid); }
        case Crash(pid) => StopKeepsInv(h, w, pid);
      }
    }
  }

  // ----- what whole runs keep -----

  /** No lock or state file, once wholly written, ever changes; none is ever removed. */
  lemma {:induction false} RecordsAreForever(h: Hash, w: World, schedule: seq<Action>)
    requires Inv(h, w)
    ensures Inv(h, Continue(h, w, schedule)) && Grows(w.store, Continue(h, w, schedule).store)
  {
    if schedule != [] {
      RecordsAreForever(h, w, schedule[..|schedule| - 1]);
      StepKeepsInv(h, Continue(h, w, schedule[..|schedule| - 1]), schedule[|schedule| - 1]);
    }
  }

  /** A stage that has begun finds every earlier stage wholly written. */
  ghost predicate StagesInOrder(s: Store) {
    forall i: nat, j: nat :: j < i && (LockFile(i) in s || StateFile(i) in s) ==> Whole(s, j)
  }

  /** A state record holds the digest of its lock, which is there, and the lock's timestamp. */
  ghost predicate StatesBindLocks(h: Hash, s: Store) {
    forall i :: IsState(s, i) ==> Binds(h, s, i) && s[StateFile(i)].created == s[LockFile(i)].created
  }

  /** Every lock but the first carries the digest of the lock before it. */
  ghost predicate LocksAreChained(h: Hash, s: Store) {
    forall i :: i > 0 && IsLock(s, i) ==> Linked(h, s, i)
  }

  /** Every state record but the first carries the digest of the state record before it. */
  ghost predicate StatesAreChained(h: Hash, s: Store) {
    forall i, before :: i == before + 1 && IsState(s, i) ==>
      StateFile(before) in s && s[StateFile(i)].previousState == Some(h(s[StateFile(before)]))
  }

  /** What any run leaves on disk. */
  lemma ChainHolds(h: Hash, schedule: seq<Action>)
    ensures Inv(h, Run(h, schedule))
    ensures StagesInOrder(Run(h, schedule).store)
    ensures StatesBindLocks(h, Run(h, schedule).store)
    ensures LocksAreChained(h, Run(h, schedule).store)
    ensures StatesAreChained(h, Run(h, schedule).store)
  {
    RecordsAreForever(h, World(map[], map[], 0), schedule);
    StoreShows(h, Run(h, schedule).store);
  }

  lemma StoreShows(h: Hash, s: Store)
    requires StoreOk(h, s)
    ensures StagesInOrder(s) && StatesBindLocks(h, s) && LocksAreChained(h, s) && StatesAreChained(h, s)
  {
    forall i: nat, j: nat | j < i && (LockFile(i) in s || StateFile(i) in s) ensures Whole(s, j) {
      EarlierStagesAreWhole(h, s, i, j);
    }
    forall i | IsState(s, i) ensures Binds(h, s, i) && s[StateFile(i)].created == s[LockFile(i)].created {
      assert StateOk(h, s, i);
    }
    forall i | i > 0 && IsLock(s, i) ensures Linked(h, s, i) {
      assert LockOk(h, s, i);
    }
    forall i, before | i == before + 1 && IsState(s, i)
      ensures StateFile(before) in s && s[StateFile(i)].previousState == Some(h(s[StateFile(before)]))
    {
      assert StateOk(h, s, i);
    }
  }

  lemma {:induction false} EarlierStagesAreWhole(h: Hash, s: Store, i: nat, j: nat)
    requires StoreOk(h, s) && j < i && (LockFile(i) in s || StateFile(i) in s)
    ensures Whole(s, j)
  {
    assert Follows(s, i) by {
      if LockFile(i) in s { assert LockOk(h, s, i); } else { assert StateOk(h, s, i); }
    }
    if j < i - 1 {
      EarlierStagesAreWhole(h, s, i - 1, j);
    }
  }

  // ----- an abandoned stage -----

  /** Stage `i` has a lock and no whole state record, and nobody is working on it. */
  ghost predicate Abandoned(w: World, i: nat) {
    && LockFile(i) in w.store && !Whole(w.store, i)
    && forall p :: p in w.processes && w.processes[p].stage == i ==> w.processes[p].phase.Ready?
  }

  /**
   A stage whose lock was written without its state record can never complete: a rerun takes
   another timestamp. The chain ends there for good.
   */
  lemma {:induction false} AbandonedForever(h: Hash, w: World, i: nat, schedule: seq<Action>)
    requires Inv(h, w) && Abandoned(w, i)
    ensures Inv(h, Continue(h, w, schedule)) && Abandoned(Continue(h, w, schedule), i)
    ensures var s := Continue(h, w, schedule).store;
            forall j :: j > i ==> LockFile(j) !in s && StateFile(j) !in s
  {
    if schedule != [] {
      AbandonedForever(h, w, i, schedule[..|schedule| - 1]);
      var before, a := Continue(h, w, schedule[..|schedule| - 1]), schedule[|schedule| - 1];
      StepKeepsInv(h, before, a);
      AbandonedStep(h, before, i, a);
    }
    var s := Continue(h, w, schedule).store;
    forall j: nat | j > i && (LockFile(j) in s || StateFile(j) in s) ensures false {
      EarlierStagesAreWhole(h, s, j, i);
    }
  }

  lemma AbandonedStep(h: Hash, w: World, i: nat, a: Action)
    requires Inv(h, w) && Abandoned(w, i)
    ensures Abandoned(Do(h, w, a), i)
  {
    if !a.Invoke? && a.pid in w.processes {
      var p := w.processes[a.pid];
      assert ProcessOk(h, w.store, p);
      if p.stage == i && a.OpenLock? && !w.store[LockFile(i)].Torn? {
        assert w.store[LockFile(i)].created != p.created;
      }
    }
  }

  // ----- the tip determines the history -----

  ghost predicate Injective(h: Hash) {
    forall a, b :: h(a) == h(b) ==> a == b
  }

  /** Two runs that end in the same tip lock agree on every lock back to the input freeze. */
  lemma {:induction false} TipLockDeterminesLocks(h: Hash, one: seq<Action>, two: seq<Action>, tip: nat, i: nat)
    requires Injective(h) && i <= tip
    requires IsLock(Run(h, one).store, tip) && IsLock(Run(h, two).store, tip)
    requires Run(h, one).store[LockFile(tip)] == Run(h, two).store[LockFile(tip)]
    ensures IsLock(Run(h, one).store, i) && IsLock(Run(h, two).store, i)
    ensures Run(h, one).store[LockFile(i)] == Run(h, two).store[LockFile(i)]
    decreases tip - i
  {
    if i < tip {
      TipLockDeterminesLocks(h, one, two, tip, i + 1);
      ChainHolds(h, one);
      ChainHolds(h, two);
      assert Linked(h, Run(h, one).store, i + 1) && Linked(h, Run(h, two).store, i + 1);
      assert Whole(Run(h, one).store, i) && Whole(Run(h, two).store, i);
    }
  }

  /** Two runs that end in the same tip state record agree on every lock and every state record before it. */
  lemma {:induction false} TipStateDeterminesHistory(h: Hash, one: seq<Action>, two: seq<Action>, tip: nat, i: nat)
    requires Injective(h) && i <= tip
    requires IsState(Run(h, one).store, tip) && IsState(Run(h, two).store, tip)
    requires Run(h, one).store[StateFile(tip)] == Run(h, two).store[StateFile(tip)]
    ensures Whole(Run(h, one).store, i) && Whole(Run(h, two).store, i)
    ensures Run(h, one).store[StateFile(i)] == Run(h, two).store[StateFile(i)]
    ensures Run(h, one).store[LockFile(i)] == Run(h, two).store[LockFile(i)]
    decreases tip - i
  {
    ChainHolds(h, one);
    ChainHolds(h, two);
    var s, t := Run(h, one).store, Run(h, two).store;
    if i < tip {
      TipStateDeterminesHistory(h, one, two, tip, i + 1);
      assert Whole(s, i) && Whole(t, i);
      assert s[StateFile(i + 1)].previousState == Some(h(s[StateFile(i)]));
      assert t[StateFile(i + 1)].previousState == Some(h(t[StateFile(i)]));
    }
    assert Binds(h, s, i) && Binds(h, t, i);
  }
}
