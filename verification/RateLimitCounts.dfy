/**
 The HTTP 429 tables of the offline diagnosis. Two nested loops fill four counters and two
 integers; an episode is the first 429 of an operation within a run.
 */
module RateLimitCounts {
  import opened Wrappers
  import opened Counting
  import opened Tally
  import opened RouteInference

  datatype OperationRecord = OperationRecord(index: int, kind: Operation)

  datatype Attempt = Attempt(operation: int, status429: bool, failure429: bool, retry: nat, hour: string) {
    /** `_is_429`. */
    predicate Is429() { status429 || failure429 }
  }

  datatype Sidecar = Sidecar(operations: seq<OperationRecord>, attempts: seq<Attempt>)

  /** A terminal record of the adaptive arm; a completed one carries its route. */
  datatype Terminal = Terminal(caseId: string, runId: string, route: Option<Route>)

  /** A row of the route table: a route, or the reason why it is not known. */
  datatype Label = On(route: Route) | Unavailable(reason: Disposition)

  type Sidecars = map<string, Sidecar>

  function Kinds(operations: seq<OperationRecord>): seq<Operation> {
    seq(|operations|, i requires 0 <= i < |operations| => operations[i].kind)
  }

  function LabelOf(d: Disposition): Label {
    if d.KnownFromOperationSequence? then On(d.route) else Unavailable(d)
  }

  /** The operations by index; of two with the same index the later stays. */
  function ByIndex(operations: seq<OperationRecord>): map<int, Operation> {
    if operations == [] then map[]
    else
      var last := operations[|operations| - 1];
      ByIndex(operations[..|operations| - 1])[last.index := last.kind]
  }

  /** The role of the operation an attempt names, unless it names none or one without a role. */
  function RoleAt(sidecar: Sidecar, index: int): Option<Role> {
    var byIndex := ByIndex(sidecar.operations);
    if index in byIndex then RoleOf(byIndex[index], index) else None
  }

  // ----- what the loops visit -----

  datatype Hit = Hit(run: nat, runId: string, index: int, role: Role, row: Label, hour: string, retry: nat)

  ghost predicate Attributable(sidecar: Sidecar, attempts: seq<Attempt>) {
    forall i :: 0 <= i < |attempts| && attempts[i].Is429() ==> RoleAt(sidecar, attempts[i].operation).Some?
  }

  predicate Readable(t: Terminal, sidecar: Sidecar) {
    t.route.Some? || Infer(Kinds(sidecar.operations)).Ok?
  }

  function LabelFor(t: Terminal, sidecar: Sidecar): Label
    requires Readable(t, sidecar)
  {
    if t.route.Some? then On(t.route.value) else LabelOf(Infer(Kinds(sidecar.operations)).value.disposition)
  }

  predicate Loaded(terminals: seq<Terminal>, sidecars: Sidecars) {
    forall t :: t in terminals ==> t.runId in sidecars
  }

  predicate UniqueCases(terminals: seq<Terminal>) {
    forall i, j :: 0 <= i < j < |terminals| ==> terminals[i].caseId != terminals[j].caseId
  }

  ghost predicate Accountable(terminals: seq<Terminal>, sidecars: Sidecars)
    requires Loaded(terminals, sidecars)
  {
    forall i :: 0 <= i < |terminals| ==>
      && Readable(terminals[i], sidecars[terminals[i].runId])
      && Attributable(sidecars[terminals[i].runId], sidecars[terminals[i].runId].attempts)
  }

  /** Of the runner's stops only one cannot be read: a run that failed before its first operation fails the whole diagnosis. */
  lemma ReadableExactly(t: Terminal, sidecar: Sidecar, actual: Route)
    requires t.route == None ==> StopsAt(actual, Kinds(sidecar.operations))
    ensures Readable(t, sidecar) <==> t.route.Some? || sidecar.operations != []
  {
    if t.route == None {
      InferredExactly(actual, Kinds(sidecar.operations));
    }
  }

  /** The attempts of one run that met a 429. */
  ghost function RunHits(run: nat, t: Terminal, sidecar: Sidecar, attempts: seq<Attempt>): seq<Hit>
    requires Readable(t, sidecar) && Attributable(sidecar, attempts)
  {
    if attempts == [] then []
    else
      var n := |attempts| - 1;
      var before := RunHits(run, t, sidecar, attempts[..n]);
      var a := attempts[n];
      if a.Is429() then
        before + [Hit(run, t.runId, a.operation, RoleAt(sidecar, a.operation).value, LabelFor(t, sidecar), a.hour, a.retry)]
      else before
  }

  ghost function AllHits(terminals: seq<Terminal>, sidecars: Sidecars): seq<Hit>
    requires Loaded(terminals, sidecars) && Accountable(terminals, sidecars)
  {
    if terminals == [] then []
    else
      var n := |terminals| - 1;
      var t := terminals[n];
      AllHits(terminals[..n], sidecars) + RunHits(n, t, sidecars[t.runId], sidecars[t.runId].attempts)
  }

  ghost predicate Seen(hits: seq<Hit>, run: nat, index: int) {
    exists h :: h in hits && h.run == run && h.index == index
  }

  /** The hits that open an episode. */
  ghost function Episodes(hits: seq<Hit>): seq<Hit> {
    if hits == [] then []
    else
      var n := |hits| - 1;
      Episodes(hits[..n]) + if Seen(hits[..n], hits[n].run, hits[n].index) then [] else [hits[n]]
  }

  ghost function ByRole(): Hit -> Role { (h: Hit) => h.role }
  ghost function ByLabel(): Hit -> Label { (h: Hit) => h.row }
  ghost function ByHour(): Hit -> string { (h: Hit) => h.hour }
  ghost function IsFirst(): Hit -> bool { (h: Hit) => h.retry == 0 }
  ghost function IsRetry(): Hit -> bool { (h: Hit) => h.retry != 0 }

  datatype Tables = Tables(
    roles: map<Role, nat>, episodeRoles: map<Role, nat>, routes: map<Label, nat>, hours: map<string, nat>,
    firstAttempts: nat, retryAttempts: nat)

  ghost predicate Tabulates(tables: Tables, hits: seq<Hit>) {
    TabulatesAttempts(tables, hits) && TabulatesEpisodes(tables, hits) && TabulatesRetries(tables, hits)
  }

  ghost predicate TabulatesAttempts(tables: Tables, hits: seq<Hit>) {
    tables.roles == TallyOf(hits, ByRole()) && tables.hours == TallyOf(hits, ByHour())
  }

  ghost predicate TabulatesEpisodes(tables: Tables, hits: seq<Hit>) {
    tables.episodeRoles == TallyOf(Episodes(hits), ByRole()) && tables.routes == TallyOf(Episodes(hits), ByLabel())
  }

  ghost predicate TabulatesRetries(tables: Tables, hits: seq<Hit>) {
    tables.firstAttempts == Count(hits, IsFirst()) && tables.retryAttempts == Count(hits, IsRetry())
  }

  lemma OneMoreHit(tables: Tables, hits: seq<Hit>, h: Hit, opens: bool)
    requires Tabulates(tables, hits) && (opens <==> !Seen(hits, h.run, h.index))
    ensures Tabulates(AddHit(tables, h, opens), hits + [h])
  {
    hide TabulatesAttempts, TabulatesEpisodes, TabulatesRetries, AddHit, Seen;
    OneMoreAttempt(tables, hits, h, opens);
    OneMoreEpisode(tables, hits, h, opens);
    OneMoreRetry(tables, hits, h, opens);
  }

  lemma OneMoreAttempt(tables: Tables, hits: seq<Hit>, h: Hit, opens: bool)
    requires TabulatesAttempts(tables, hits)
    ensures TabulatesAttempts(AddHit(tables, h, opens), hits + [h])
  {
    TallyStep(hits, h, ByRole());
    TallyStep(hits, h, ByHour());
    hide TallyOf, AddOne;
  }

  lemma OneMoreEpisode(tables: Tables, hits: seq<Hit>, h: Hit, opens: bool)
    requires TabulatesEpisodes(tables, hits) && (opens <==> !Seen(hits, h.run, h.index))
    ensures TabulatesEpisodes(AddHit(tables, h, opens), hits + [h])
  {
    EpisodesGrow(hits, h);
    TallyStep(Episodes(hits), h, ByRole());
    TallyStep(Episodes(hits), h, ByLabel());
    hide TallyOf, AddOne, Episodes, Seen;
  }

  lemma EpisodesGrow(hits: seq<Hit>, h: Hit)
    ensures Episodes(hits + [h]) == if Seen(hits, h.run, h.index) then Episodes(hits) else Episodes(hits) + [h]
  {
    assert (hits + [h])[..|hits|] == hits;
    assert Episodes(hits) + [] == Episodes(hits);
  }

  lemma OneMoreRetry(tables: Tables, hits: seq<Hit>, h: Hit, opens: bool)
    requires TabulatesRetries(tables, hits)
    ensures TabulatesRetries(AddHit(tables, h, opens), hits + [h])
  {
    var more := hits + [h];
    assert more[..|hits|] == hits && more[..|more|] == more;
    CountStep(more, |hits|, IsFirst());
    CountStep(more, |hits|, IsRetry());
  }

  ghost function AddHit(tables: Tables, h: Hit, opens: bool): Tables {
    Tables(
      AddOne(tables.roles, h.role),
      if opens then AddOne(tables.episodeRoles, h.role) else tables.episodeRoles,
      if opens then AddOne(tables.routes, h.row) else tables.routes,
      AddOne(tables.hours, h.hour),
      tables.firstAttempts + Bit(h.retry == 0), tables.retryAttempts + Bit(h.retry != 0))
  }

  datatype Diagnosis = Failed | Tabulated(tables: Tables)

  /** The first loop: the context of every failed run. */
  method ReadContexts(terminals: seq<Terminal>, sidecars: Sidecars) returns (result: Result<map<string, Disposition>>)
    requires Loaded(terminals, sidecars) && UniqueCases(terminals)
    ensures result.Ok? <==> forall i :: 0 <= i < |terminals| ==> Readable(terminals[i], sidecars[terminals[i].runId])
    ensures result.Ok? ==> ContextsHold(result.value, terminals, sidecars)
  {
    var contexts: map<string, Disposition> := map[];
    for i := 0 to |terminals|
      invariant forall k :: 0 <= k < i ==> Readable(terminals[k], sidecars[terminals[k].runId])
      invariant ContextsHold(contexts, terminals[..i], sidecars)
    {
      var t := terminals[i];
      assert t in terminals;
      if t.route == None {
        var inference := Infer(Kinds(sidecars[t.runId].operations));
        if inference == Raised {
          return Raised;
        }
        contexts := contexts[t.caseId := inference.value.disposition];
      }
      assert terminals[..i + 1] == terminals[..i] + [t];
    }
    assert terminals[..|terminals|] == terminals;
    result := Ok(contexts);
  }

  lemma NothingTabulated()
    ensures Tabulates(Tables(map[], map[], map[], map[], 0, 0), [])
  {
  }

  lemma OneContext(contexts: map<string, Disposition>, terminals: seq<Terminal>, sidecars: Sidecars, i: nat)
    requires Loaded(terminals, sidecars) && i < |terminals| && ContextsHold(contexts, terminals, sidecars)
    ensures ContextsHold(contexts, [terminals[i]], sidecars)
  {
  }

  /** The two loops: the contexts of the failed runs, then the 429 attempts of every run. */
  method RateLimitTables(terminals: seq<Terminal>, sidecars: Sidecars) returns (result: Diagnosis)
    requires Loaded(terminals, sidecars)
    ensures result.Failed? <==> !UniqueCases(terminals) || !Accountable(terminals, sidecars)
    ensures result.Tabulated? ==> Tabulates(result.tables, AllHits(terminals, sidecars))
  {
    if !UniqueCases(terminals) {
      return Failed;
    }
    var read := ReadContexts(terminals, sidecars);
    if read.Raised? {
      return Failed;
    }
    hide Readable, Attributable, ContextsHold, Tabulates;
    NothingTabulated();
    assert terminals[..|terminals|] == terminals;
    var tables := Tables(map[], map[], map[], map[], 0, 0);
    for i := 0 to |terminals|
      invariant Accountable(terminals[..i], sidecars)
      invariant Tabulates(tables, AllHits(terminals[..i], sidecars))
    {
      var t := terminals[i];
      assert t in terminals;
      assert terminals[..i + 1] == terminals[..i] + [t];
      assert terminals[..i + 1][..i] == terminals[..i];
      OneContext(read.value, terminals, sidecars, i);
      var counted := OneRun(terminals[..i], sidecars, t, read.value, tables);
      if counted.Failed? {
        assert !Attributable(sidecars[terminals[i].runId], sidecars[terminals[i].runId].attempts);
        return Failed;
      }
      tables := counted.tables;
    }
    result := Tabulated(tables);
  }

  ghost predicate ContextsHold(contexts: map<string, Disposition>, terminals: seq<Terminal>, sidecars: Sidecars)
    requires Loaded(terminals, sidecars)
  {
    forall t :: t in terminals && t.route == None ==>
      && t.caseId in contexts
      && Infer(Kinds(sidecars[t.runId].operations)).Ok?
      && contexts[t.caseId] == Infer(Kinds(sidecars[t.runId].operations)).value.disposition
  }

  /** The inner loop, for one terminal. */
  method OneRun(done: seq<Terminal>, sidecars: Sidecars, t: Terminal, contexts: map<string, Disposition>, start: Tables)
    returns (result: Diagnosis)
    requires Loaded(done, sidecars) && Accountable(done, sidecars) && Tabulates(start, AllHits(done, sidecars))
    requires t.runId in sidecars && ContextsHold(contexts, [t], sidecars)
    ensures Readable(t, sidecars[t.runId])
    ensures result.Failed? <==> !Attributable(sidecars[t.runId], sidecars[t.runId].attempts)
    ensures result.Tabulated? ==> Tabulates(
              result.tables,
              AllHits(done, sidecars) + RunHits(|done|, t, sidecars[t.runId], sidecars[t.runId].attempts))
  {
    hide Tabulates, Attributable, RunHits, AddHit, AllHits;
    var sidecar := sidecars[t.runId];
    var attempts := sidecar.attempts;
    var byIndex := ByIndex(sidecar.operations);
    var tables, episodes: set<int> := start, {};
    assert t in [t];
    var row := if t.route.Some? then On(t.route.value) else LabelOf(contexts[t.caseId]);
    ghost var base, run := AllHits(done, sidecars), |done|;
    EarlierRuns(done, sidecars);
    NoHitsYet(run, t, sidecar);
    assert base + [] == base;
    for j := 0 to |attempts|
      invariant Attributable(sidecar, attempts[..j])
      invariant Tabulates(tables, base + RunHits(run, t, sidecar, attempts[..j]))
      invariant forall x :: x in episodes <==> Seen(RunHits(run, t, sidecar, attempts[..j]), run, x)
    {
      var a := attempts[j];
      ghost var before := RunHits(run, t, sidecar, attempts[..j]);
      if a.Is429() && (a.operation !in byIndex || RoleOf(byIndex[a.operation], a.operation) == None) {
        Unattributable(sidecar, attempts, j);
        return Failed;
      }
      AnotherAttempt(run, t, sidecar, attempts, j);
      if a.Is429() {
        var role := RoleOf(byIndex[a.operation], a.operation).value;
        ghost var h := Hit(run, t.runId, a.operation, role, row, a.hour, a.retry);
        var opens := a.operation !in episodes;
        SeenInRun(base, before, run, a.operation);
        OneMoreHit(tables, base + before, h, opens);
        assert base + before + [h] == base + (before + [h]);
        ghost var earlier := tables;
        tables := tables.(roles := AddOne(tables.roles, role));
        if opens {
          tables := tables.(episodeRoles := AddOne(tables.episodeRoles, role));
          episodes := episodes + {a.operation};
        }
        tables := tables.(hours := AddOne(tables.hours, a.hour));
        if a.retry == 0 {
          tables := tables.(firstAttempts := tables.firstAttempts + 1);
        } else {
          tables := tables.(retryAttempts := tables.retryAttempts + 1);
        }
        if opens {
          tables := tables.(routes := AddOne(tables.routes, row));
        }
        AddedInOrder(earlier, tables, h, opens);
        SeenAfter(before, h);
      } else {
        assert before + [] == before;
      }
    }
    assert attempts[..|attempts|] == attempts;
    result := Tabulated(tables);
  }

  lemma AddedInOrder(start: Tables, tables: Tables, h: Hit, opens: bool)
    requires tables.roles == AddOne(start.roles, h.role) && tables.hours == AddOne(start.hours, h.hour)
    requires tables.episodeRoles == if opens then AddOne(start.episodeRoles, h.role) else start.episodeRoles
    requires tables.routes == if opens then AddOne(start.routes, h.row) else start.routes
    requires tables.firstAttempts == start.firstAttempts + Bit(h.retry == 0)
    requires tables.retryAttempts == start.retryAttempts + Bit(h.retry != 0)
    ensures tables == AddHit(start, h, opens)
  {
  }

  lemma NoHitsYet(run: nat, t: Terminal, sidecar: Sidecar)
    requires Readable(t, sidecar)
    ensures Attributable(sidecar, []) && RunHits(run, t, sidecar, []) == []
  {
  }

  lemma Unattributable(sidecar: Sidecar, attempts: seq<Attempt>, j: nat)
    requires j < |attempts| && attempts[j].Is429() && RoleAt(sidecar, attempts[j].operation) == None
    ensures !Attributable(sidecar, attempts)
  {
  }

  lemma AnotherAttempt(run: nat, t: Terminal, sidecar: Sidecar, attempts: seq<Attempt>, j: nat)
    requires Readable(t, sidecar) && j < |attempts| && Attributable(sidecar, attempts[..j])
    requires attempts[j].Is429() ==> RoleAt(sidecar, attempts[j].operation).Some?
    ensures Attributable(sidecar, attempts[..j + 1])
    ensures RunHits(run, t, sidecar, attempts[..j + 1])
         == RunHits(run, t, sidecar, attempts[..j])
            + if attempts[j].Is429() then
                [Hit(run, t.runId, attempts[j].operation, RoleAt(sidecar, attempts[j].operation).value,
                     LabelFor(t, sidecar), attempts[j].hour, attempts[j].retry)]
              else []
  {
    assert attempts[..j + 1][..j] == attempts[..j];
  }

  lemma SeenInRun(base: seq<Hit>, current: seq<Hit>, run: nat, index: int)
    requires forall h :: h in base ==> h.run < run
    ensures Seen(base + current, run, index) <==> Seen(current, run, index)
  {
  }

  lemma SeenAfter(hits: seq<Hit>, h: Hit)
    ensures forall x :: Seen(hits + [h], h.run, x) <==> Seen(hits, h.run, x) || x == h.index
  {
    forall x ensures Seen(hits + [h], h.run, x) <==> Seen(hits, h.run, x) || x == h.index {
      assert h in hits + [h];
    }
  }

  lemma {:induction false} RunHitsAre(run: nat, t: Terminal, sidecar: Sidecar, attempts: seq<Attempt>)
    requires Readable(t, sidecar) && Attributable(sidecar, attempts)
    ensures forall h :: h in RunHits(run, t, sidecar, attempts) ==> h.run == run && h.runId == t.runId
    ensures forall x :: Seen(RunHits(run, t, sidecar, attempts), run, x) <==> Met429(attempts, x)
  {
    if attempts != [] {
      var n := |attempts| - 1;
      RunHitsAre(run, t, sidecar, attempts[..n]);
      AnotherAttempt(run, t, sidecar, attempts, n);
      assert attempts[..n + 1] == attempts;
      var before := RunHits(run, t, sidecar, attempts[..n]);
      if attempts[n].Is429() {
        SeenAfter(before, RunHits(run, t, sidecar, attempts)[|before|]);
      }
      forall x ensures Met429(attempts, x) <==> Met429(attempts[..n], x) || (attempts[n].Is429() && attempts[n].operation == x) {
        assert attempts == attempts[..n] + [attempts[n]];
      }
    }
  }

  ghost predicate Met429(attempts: seq<Attempt>, index: int) {
    exists a :: a in attempts && a.Is429() && a.operation == index
  }

  lemma {:induction false} EarlierRuns(terminals: seq<Terminal>, sidecars: Sidecars)
    requires Loaded(terminals, sidecars) && Accountable(terminals, sidecars)
    ensures forall h :: h in AllHits(terminals, sidecars) ==> h.run < |terminals| && h.runId == terminals[h.run].runId
    ensures forall i, x :: 0 <= i < |terminals| ==>
              (Seen(AllHits(terminals, sidecars), i, x) <==> Met429(sidecars[terminals[i].runId].attempts, x))
  {
    if terminals != [] {
      var n := |terminals| - 1;
      var t := terminals[n];
      EarlierRuns(terminals[..n], sidecars);
      RunHitsAre(n, t, sidecars[t.runId], sidecars[t.runId].attempts);
      var base, last := AllHits(terminals[..n], sidecars), RunHits(n, t, sidecars[t.runId], sidecars[t.runId].attempts);
      forall i, x | 0 <= i < |terminals|
        ensures Seen(base + last, i, x) <==> Met429(sidecars[terminals[i].runId].attempts, x)
      {
        if i < n {
          assert Seen(base + last, i, x) <==> Seen(base, i, x);
        } else {
          SeenInRun(base, last, n, x);
        }
      }
    }
  }

  // ----- the totals -----

  ghost function EpisodeKeys(hits: seq<Hit>): set<(nat, int)> {
    set h | h in hits :: (h.run, h.index)
  }

  lemma {:induction false} EpisodesAreKeys(hits: seq<Hit>)
    ensures |Episodes(hits)| == |EpisodeKeys(hits)| && |Episodes(hits)| <= |hits|
  {
    if hits != [] {
      var n := |hits| - 1;
      EpisodesAreKeys(hits[..n]);
      var key := (hits[n].run, hits[n].index);
      assert hits == hits[..n] + [hits[n]];
      assert EpisodeKeys(hits) == EpisodeKeys(hits[..n]) + {key};
      assert key in EpisodeKeys(hits[..n]) <==> Seen(hits[..n], hits[n].run, hits[n].index);
    }
  }

  /** Every 429 attempt is in one role, one hour and is a first attempt or a retry; every episode in one role and one route. */
  lemma TotalsAgree(tables: Tables, hits: seq<Hit>)
    requires Tabulates(tables, hits)
    ensures Total(tables.roles) == |hits| && Total(tables.hours) == |hits| && tables.firstAttempts + tables.retryAttempts == |hits|
    ensures Total(tables.episodeRoles) == |EpisodeKeys(hits)| && Total(tables.routes) == |EpisodeKeys(hits)|
    ensures |EpisodeKeys(hits)| <= |hits|
  {
    TotalIsLength(hits, ByRole());
    TotalIsLength(hits, ByHour());
    TotalIsLength(Episodes(hits), ByRole());
    TotalIsLength(Episodes(hits), ByLabel());
    EpisodesAreKeys(hits);
    CountTrue(hits, _ => true);
    CountSplit(hits, _ => true, IsFirst(), IsRetry());
  }

  /** The pairs of a run and an operation of it that met a 429, straight from the sidecars. */
  ghost function Pairs(terminals: seq<Terminal>, sidecars: Sidecars): set<(string, int)>
    requires Loaded(terminals, sidecars)
  {
    set t, a | t in terminals && a in sidecars[t.runId].attempts && a.Is429() :: (t.runId, a.operation)
  }

  ghost predicate DistinctRuns(terminals: seq<Terminal>) {
    forall i, j :: 0 <= i < j < |terminals| ==> terminals[i].runId != terminals[j].runId
  }

  /** With run identifiers that differ, the episode tables total the pairs that met a 429. */
  lemma EpisodesArePairs(terminals: seq<Terminal>, sidecars: Sidecars, tables: Tables)
    requires Loaded(terminals, sidecars) && Accountable(terminals, sidecars) && DistinctRuns(terminals)
    requires Tabulates(tables, AllHits(terminals, sidecars))
    ensures Total(tables.episodeRoles) == |Pairs(terminals, sidecars)| == Total(tables.routes)
  {
    var hits := AllHits(terminals, sidecars);
    TotalsAgree(tables, hits);
    EarlierRuns(terminals, sidecars);
    var keys, pairs := EpisodeKeys(hits), Pairs(terminals, sidecars);
    forall k | k in keys ensures k.0 < |terminals| && (terminals[k.0].runId, k.1) in pairs {
      assert Seen(hits, k.0, k.1);
      var t := terminals[k.0];
      var a :| a in sidecars[t.runId].attempts && a.Is429() && a.operation == k.1;
      assert t in terminals;
    }
    forall p | p in pairs
      ensures exists i: nat :: i < |terminals| && terminals[i].runId == p.0 && (i, p.1) in keys
    {
      var t, a :| t in terminals && a in sidecars[t.runId].attempts && a.Is429() && p == (t.runId, a.operation);
      var i: nat :| i < |terminals| && terminals[i] == t;
      assert Met429(sidecars[terminals[i].runId].attempts, a.operation);
      assert Seen(hits, i, a.operation);
      assert (i, p.1) in keys;
    }
    SameSize(terminals, sidecars, keys, pairs);
  }

  lemma SameSize(terminals: seq<Terminal>, sidecars: Sidecars, keys: set<(nat, int)>, pairs: set<(string, int)>)
    requires Loaded(terminals, sidecars) && DistinctRuns(terminals)
    requires forall k :: k in keys ==> k.0 < |terminals| && (terminals[k.0].runId, k.1) in pairs
    requires forall p :: p in pairs ==> exists i: nat :: i < |terminals| && terminals[i].runId == p.0 && (i, p.1) in keys
    ensures |keys| == |pairs|
    decreases keys
  {
    if keys == {} {
      assert pairs == {};
    } else {
      var k :| k in keys;
      var p := (terminals[k.0].runId, k.1);
      SameSize(terminals, sidecars, keys - {k}, pairs - {p});
    }
  }

  /** The episodes are some of the hits. */
  lemma {:induction false} EpisodesWithinHits(hits: seq<Hit>, p: Hit -> bool)
    ensures Count(Episodes(hits), p) <= Count(hits, p)
  {
    if hits != [] {
      var n := |hits| - 1;
      EpisodesWithinHits(hits[..n], p);
      if !Seen(hits[..n], hits[n].run, hits[n].index) {
        assert Episodes(hits)[..|Episodes(hits)| - 1] == Episodes(hits[..n]);
      } else {
        assert Episodes(hits) == Episodes(hits[..n]);
      }
    }
  }

  lemma RolesBoundEpisodes(tables: Tables, hits: seq<Hit>, role: Role)
    requires Tabulates(tables, hits)
    ensures Get(tables.episodeRoles, role) <= Get(tables.roles, role)
  {
    TallyCounts(hits, ByRole(), role);
    TallyCounts(Episodes(hits), ByRole(), role);
    EpisodesWithinHits(hits, HasKey(ByRole(), role));
  }
}
