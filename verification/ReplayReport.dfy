/**
 The offline-replay report, computed twice: by `replay`, which runs the selected runtime on
 every case, and by the public verifier, which reads the private vectors back.
 */
module ReplayReport {
  import opened Wrappers
  import opened Counting
  import opened AuditRow
  import opened OptionFrontier

  /** A unified case: the frontier's fields, its fixture and the recorded initial correctness. */
  datatype Unified = Unified(c: Case, fixture: string, initialRight: bool)

  /** The A0 part of one line of `architecture-frontier-by-case.jsonl`. */
  datatype FrontierRecord = FrontierRecord(key: string, final: string, provenance: Provenance, override: bool, finalExact: bool)

  /** What the verifier reads of one line of `unified-case-records.jsonl`. */
  datatype UnifiedRecord = UnifiedRecord(key: string, fixture: string, entity: string, exactCorrect: bool)

  datatype Rate = Rate(numerator: nat, denominator: nat)

  datatype Summary = Summary(denominator: nat, initial: Rate, final: Rate, rescue: Rate, damage: Rate, netRescue: int)

  datatype Report = Report(datasets: map<string, Summary>, exactMatch: Rate)

  type Pair = (bool, bool)

  // ----- one fixture's summary -----

  ghost function Before(): Pair -> bool { (p: Pair) => p.0 }
  ghost function After(): Pair -> bool { (p: Pair) => p.1 }
  ghost function Rescues(): Pair -> bool { (p: Pair) => !p.0 && p.1 }
  ghost function Damages(): Pair -> bool { (p: Pair) => p.0 && !p.1 }

  ghost function SummaryOf(pairs: seq<Pair>): Summary {
    var initial, rescue, damage := Count(pairs, Before()), Count(pairs, Rescues()), Count(pairs, Damages());
    BeforeIsBounded(pairs);
    Summary(
      |pairs|, Rate(initial, |pairs|), Rate(Count(pairs, After()), |pairs|),
      Rate(rescue, |pairs| - initial), Rate(damage, initial), rescue - damage)
  }

  lemma {:induction false} BeforeIsBounded(pairs: seq<Pair>)
    ensures Count(pairs, Before()) <= |pairs|
  {
    if pairs != [] {
      BeforeIsBounded(pairs[..|pairs| - 1]);
    }
  }

  /** Every rate of a summary is legal, so `rate` never raises, and the counts reconcile. */
  lemma {:induction false} SummaryIsLegal(pairs: seq<Pair>)
    ensures var s := SummaryOf(pairs);
      && s.initial.numerator <= s.denominator && s.final.numerator <= s.denominator
      && s.rescue.numerator <= s.rescue.denominator && s.damage.numerator <= s.damage.denominator
      && s.final.numerator == s.initial.numerator + s.netRescue
  {
    if pairs != [] {
      SummaryIsLegal(pairs[..|pairs| - 1]);
    }
  }

  /** `_replay_dataset_summary` */
  method DatasetSummary(pairs: seq<Pair>) returns (summary: Summary)
    ensures summary == SummaryOf(pairs)
  {
    var initial, final, rescue, damage: nat := 0, 0, 0, 0;
    for i := 0 to |pairs|
      invariant initial == Count(pairs[..i], Before()) && final == Count(pairs[..i], After())
      invariant rescue == Count(pairs[..i], Rescues()) && damage == Count(pairs[..i], Damages())
    {
      CountStep(pairs, i, Before());
      CountStep(pairs, i, After());
      CountStep(pairs, i, Rescues());
      CountStep(pairs, i, Damages());
      initial, final := initial + Bit(pairs[i].0), final + Bit(pairs[i].1);
      rescue, damage := rescue + Bit(!pairs[i].0 && pairs[i].1), damage + Bit(pairs[i].0 && !pairs[i].1);
    }
    assert pairs[..|pairs|] == pairs;
    BeforeIsBounded(pairs);
    summary := Summary(
      |pairs|, Rate(initial, |pairs|), Rate(final, |pairs|), Rate(rescue, |pairs| - initial), Rate(damage, initial),
      rescue - damage);
  }

  // ----- the pairs of one fixture, in case order -----

  ghost function PairsOf(items: seq<(string, Pair)>, fixture: string): seq<Pair> {
    if items == [] then []
    else
      var last := items[|items| - 1];
      PairsOf(items[..|items| - 1], fixture) + if last.0 == fixture then [last.1] else []
  }

  ghost function ReportOf(items: seq<(string, Pair)>, fixtures: seq<string>): Report {
    Report(map f | f in fixtures :: SummaryOf(PairsOf(items, f)), Rate(|items|, |items|))
  }

  /** `by_fixture[fixture].append(pair)` on a defaultdict. */
  function Append(byFixture: map<string, seq<Pair>>, fixture: string, pair: Pair): map<string, seq<Pair>> {
    byFixture[fixture := At(byFixture, fixture) + [pair]]
  }

  function At(byFixture: map<string, seq<Pair>>, fixture: string): seq<Pair> {
    if fixture in byFixture then byFixture[fixture] else []
  }

  /** The lists under construction are the pairs of each fixture, in case order. */
  ghost predicate Collects(byFixture: map<string, seq<Pair>>, items: seq<(string, Pair)>) {
    forall f :: At(byFixture, f) == PairsOf(items, f)
  }

  lemma CollectsNothing()
    ensures Collects(map[], [])
  {
  }

  method BuildReport(ghost items: seq<(string, Pair)>, byFixture: map<string, seq<Pair>>, count: nat, fixtures: seq<string>)
    returns (report: Report)
    requires count == |items| && Collects(byFixture, items)
    ensures report == ReportOf(items, fixtures)
  {
    hide SummaryOf, PairsOf, At;
    var datasets: map<string, Summary> := map[];
    for i := 0 to |fixtures|
      invariant datasets == map f | f in fixtures[..i] :: SummaryOf(PairsOf(items, f))
    {
      var summary := DatasetSummary(At(byFixture, fixtures[i]));
      assert fixtures[..i + 1] == fixtures[..i] + [fixtures[i]];
      datasets := datasets[fixtures[i] := summary];
    }
    assert fixtures[..|fixtures|] == fixtures;
    report := Report(datasets, Rate(count, count));
  }

  // ----- the two computations -----

  /** The selected runtime keeps the Initial root, whatever the case. */
  function Runtime(c: Case): (string, Provenance) {
    (c.initial, ModelInitial)
  }

  predicate ReplayMatches(u: Unified, r: FrontierRecord) {
    var (final, provenance) := Runtime(u.c);
    && r.key == u.c.key && final == r.final && provenance == r.provenance
    && (final in u.c.truths) == r.finalExact
  }

  predicate VectorsMatch(u: UnifiedRecord, r: FrontierRecord) {
    && u.key == r.key && r.final == u.entity && r.provenance == ModelInitial
    && !r.override && r.finalExact == u.exactCorrect
  }

  ghost function ReplayItems(cases: seq<Unified>): seq<(string, Pair)> {
    seq(|cases|, i requires 0 <= i < |cases| => (cases[i].fixture, (cases[i].initialRight, cases[i].c.initial in cases[i].c.truths)))
  }

  ghost function VectorItems(units: seq<UnifiedRecord>, records: seq<FrontierRecord>): seq<(string, Pair)>
    requires |units| == |records|
  {
    seq(|units|, i requires 0 <= i < |units| => (units[i].fixture, (units[i].exactCorrect, records[i].finalExact)))
  }

  /** `replay`: `expected` is the denominator the frozen vector must have. */
  method Replay(cases: seq<Unified>, records: seq<FrontierRecord>, expected: nat, fixtures: seq<string>)
    returns (result: Result<Report>)
    ensures result.Ok? <==>
              |cases| == |records| == expected && forall i :: 0 <= i < |cases| ==> ReplayMatches(cases[i], records[i])
    ensures result.Ok? ==> result.value == ReportOf(ReplayItems(cases), fixtures)
  {
    if |cases| != expected || |records| != |cases| {
      return Raised;
    }
    hide Collects, Append, ReportOf;
    CollectsNothing();
    var byFixture: map<string, seq<Pair>> := map[];
    var exactMatches := 0;
    for i := 0 to |cases|
      invariant exactMatches == i
      invariant forall k :: 0 <= k < i ==> ReplayMatches(cases[k], records[k])
      invariant Collects(byFixture, ReplayItems(cases)[..i])
    {
      var u := cases[i];
      var (final, provenance) := Runtime(u.c);
      var finalCorrect := final in u.c.truths;
      if records[i].key != u.c.key {
        return Raised;
      }
      if !(final == records[i].final && provenance == records[i].provenance && finalCorrect == records[i].finalExact) {
        return Raised;
      }
      exactMatches := exactMatches + 1;
      OneMorePair(byFixture, ReplayItems(cases), i);
      byFixture := Append(byFixture, u.fixture, (u.initialRight, finalCorrect));
    }
    assert ReplayItems(cases)[..|cases|] == ReplayItems(cases);
    var report := BuildReport(ReplayItems(cases), byFixture, exactMatches, fixtures);
    result := Ok(report);
  }

  lemma OneMorePair(byFixture: map<string, seq<Pair>>, items: seq<(string, Pair)>, i: nat)
    requires i < |items| && Collects(byFixture, items[..i])
    ensures Collects(Append(byFixture, items[i].0, items[i].1), items[..i + 1])
  {
    var more := items[..i + 1];
    assert more[..|more| - 1] == items[..i] && more[|more| - 1] == items[i];
    forall f ensures At(Append(byFixture, items[i].0, items[i].1), f) == PairsOf(more, f) {
      assert At(byFixture, f) == PairsOf(items[..i], f);
    }
  }

  /** `_canonical_replay_from_private` */
  method CanonicalReplay(units: seq<UnifiedRecord>, records: seq<FrontierRecord>, expected: nat, fixtures: seq<string>)
    returns (result: Result<Report>)
    ensures result.Ok? <==>
              |units| == |records| == expected && forall i :: 0 <= i < |units| ==> VectorsMatch(units[i], records[i])
    ensures result.Ok? ==> result.value == ReportOf(VectorItems(units, records), fixtures)
  {
    if |units| != expected || |records| != expected {
      return Raised;
    }
    hide Collects, Append, ReportOf;
    CollectsNothing();
    var byFixture: map<string, seq<Pair>> := map[];
    var exactMatches := 0;
    for i := 0 to |units|
      invariant exactMatches == i
      invariant forall k :: 0 <= k < i ==> VectorsMatch(units[k], records[k])
      invariant Collects(byFixture, VectorItems(units, records)[..i])
    {
      var u, r := units[i], records[i];
      assert VectorItems(units, records)[i] == (u.fixture, (u.exactCorrect, r.finalExact));
      if u.key != r.key {
        return Raised;
      }
      if !(r.final == u.entity && r.provenance == ModelInitial && !r.override && r.finalExact == u.exactCorrect) {
        return Raised;
      }
      exactMatches := exactMatches + 1;
      OneMorePair(byFixture, VectorItems(units, records), i);
      byFixture := Append(byFixture, u.fixture, (u.exactCorrect, r.finalExact));
    }
    assert VectorItems(units, records)[..|units|] == VectorItems(units, records);
    hide VectorItems, VectorsMatch;
    var report := BuildReport(VectorItems(units, records), byFixture, exactMatches, fixtures);
    result := Ok(report);
  }

  // ----- they agree -----

  /** The private record of a unified case. */
  ghost function RecordOf(u: Unified): UnifiedRecord {
    UnifiedRecord(u.c.key, u.fixture, u.c.initial, u.initialRight)
  }

  ghost function RecordsOf(cases: seq<Unified>): seq<UnifiedRecord> {
    seq(|cases|, i requires 0 <= i < |cases| => RecordOf(cases[i]))
  }

  /** The frontier record that the analysis writes for a case. */
  ghost function FrontierRecordOf(u: Unified, m: int): FrontierRecord {
    var o := ApplyOption(u.c, A0, m);
    FrontierRecord(u.c.key, o.final, o.provenance, o.override, o.finalExact)
  }

  ghost function FrontierRecordsOf(cases: seq<Unified>, m: int): seq<FrontierRecord> {
    seq(|cases|, i requires 0 <= i < |cases| => FrontierRecordOf(cases[i], m))
  }

  /** Whatever the frozen vector holds: when both computations accept it, their reports are equal. */
  lemma ReportsAgree(cases: seq<Unified>, records: seq<FrontierRecord>, fixtures: seq<string>)
    requires |cases| == |records|
    requires forall i :: 0 <= i < |cases| ==> ReplayMatches(cases[i], records[i])
    ensures ReportOf(ReplayItems(cases), fixtures) == ReportOf(VectorItems(RecordsOf(cases), records), fixtures)
  {
    assert ReplayItems(cases) == VectorItems(RecordsOf(cases), records);
  }

  /** A vector that both accept shows no rescue and no damage in any fixture. */
  lemma {:induction false} AcceptedVectorsMoveNothing(units: seq<UnifiedRecord>, records: seq<FrontierRecord>, fixture: string)
    requires |units| == |records|
    requires forall i :: 0 <= i < |units| ==> VectorsMatch(units[i], records[i])
    ensures var s := SummaryOf(PairsOf(VectorItems(units, records), fixture));
      && s.initial == s.final && s.rescue.numerator == 0 && s.damage.numerator == 0 && s.netRescue == 0
  {
    var pairs := PairsOf(VectorItems(units, records), fixture);
    PairsAreFlat(VectorItems(units, records), fixture);
    CountSame(pairs, Before(), After());
    CountNone(pairs, Rescues());
    CountNone(pairs, Damages());
  }

  lemma {:induction false} PairsAreFlat(items: seq<(string, Pair)>, fixture: string)
    requires forall i :: 0 <= i < |items| ==> items[i].1.0 == items[i].1.1
    ensures forall p :: p in PairsOf(items, fixture) ==> p.0 == p.1
  {
    if items != [] {
      PairsAreFlat(items[..|items| - 1], fixture);
    }
  }

  /**
   On the vectors the analysis writes, `replay` accepts a case exactly when a terminal failure did
   not name a true root, and the verifier exactly when the recorded initial correctness is that
   of the outcome.
   */
  lemma AcceptanceOfWrittenVectors(u: Unified, m: int)
    ensures ReplayMatches(u, FrontierRecordOf(u, m)) <==> !(u.c.terminalFailure && u.c.initial in u.c.truths)
    ensures VectorsMatch(RecordOf(u), FrontierRecordOf(u, m)) <==>
              u.initialRight == (!u.c.terminalFailure && u.c.initial in u.c.truths)
  {
  }

  /**
   The whole chain: the analysis writes both vectors, and when `replay` and the verifier accept
   them the verifier reproduces the report, which shows no rescue and no damage anywhere.
   */
  lemma WrittenVectorsReplay(cases: seq<Unified>, m: int, fixtures: seq<string>, fixture: string)
    requires forall u :: u in cases ==>
               u.initialRight == (u.c.initial in u.c.truths) && !(u.c.terminalFailure && u.c.initial in u.c.truths)
    requires fixture in fixtures
    ensures var units, records := RecordsOf(cases), FrontierRecordsOf(cases, m);
      && (forall i :: 0 <= i < |cases| ==> ReplayMatches(cases[i], records[i]) && VectorsMatch(units[i], records[i]))
      && ReportOf(ReplayItems(cases), fixtures) == ReportOf(VectorItems(units, records), fixtures)
      && var s := ReportOf(ReplayItems(cases), fixtures).datasets[fixture];
         s.initial == s.final && s.rescue.numerator == 0 && s.damage.numerator == 0 && s.netRescue == 0
  {
    var units, records := RecordsOf(cases), FrontierRecordsOf(cases, m);
    forall i | 0 <= i < |cases| ensures ReplayMatches(cases[i], records[i]) && VectorsMatch(units[i], records[i]) {
      AcceptanceOfWrittenVectors(cases[i], m);
    }
    ReportsAgree(cases, records, fixtures);
    AcceptedVectorsMoveNothing(units, records, fixture);
  }
}
