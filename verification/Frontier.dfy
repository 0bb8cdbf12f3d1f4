/**
 The counterfactual frontiers: what the roots of a set of rows would have been under an override
 rule. One loop fills the counters; the frontier reports must reconcile with the decisions.
 */
module Frontier {
  import opened Wrappers
  import opened Counting
  import opened AuditRow
  import opened MetricsRanking
  import opened Fusion

  type Decisions = map<string, bool>

  datatype Counts = Counts(
    cases: nat, initialRoot: nat, finalRoot: nat,
    overrides: nat, correctOverride: nat, wrongOverride: nat, rescue: nat, damage: nat)

  // ----- what each counter counts -----

  predicate InitialRight(row: Row) {
    row.initial == row.truth
  }

  /** `decisions.get(key, False) and _alternative_service(row) is not None` */
  predicate Decided(decisions: Decisions, row: Row) {
    row.key in decisions && decisions[row.key] && row.alternative.Some?
  }

  function FinalOf(decisions: Decisions, row: Row): string {
    if Decided(decisions, row) then row.alternative.value.service else row.initial
  }

  predicate FinalRight(decisions: Decisions, row: Row) {
    FinalOf(decisions, row) == row.truth
  }

  ghost function IsInitialRight(): Row -> bool { (row: Row) => InitialRight(row) }

  ghost function IsFinalRight(d: Decisions): Row -> bool { (row: Row) => FinalRight(d, row) }

  ghost function IsOverride(d: Decisions): Row -> bool { (row: Row) => Decided(d, row) }

  ghost function IsCorrect(d: Decisions): Row -> bool { (row: Row) => Decided(d, row) && FinalRight(d, row) }

  ghost function IsWrong(d: Decisions): Row -> bool { (row: Row) => Decided(d, row) && !FinalRight(d, row) }

  ghost function IsRescue(d: Decisions): Row -> bool { (row: Row) => !InitialRight(row) && FinalRight(d, row) }

  ghost function IsDamage(d: Decisions): Row -> bool { (row: Row) => InitialRight(row) && !FinalRight(d, row) }

  ghost function FrontierOf(rows: seq<Row>, d: Decisions): Counts {
    Counts(
      |rows|, Count(rows, IsInitialRight()), Count(rows, IsFinalRight(d)),
      Count(rows, IsOverride(d)), Count(rows, IsCorrect(d)), Count(rows, IsWrong(d)),
      Count(rows, IsRescue(d)), Count(rows, IsDamage(d)))
  }

  /** `_frontier_counts` */
  method FrontierCounts(rows: seq<Row>, decisions: Decisions) returns (counts: Counts)
    ensures counts == FrontierOf(rows, decisions)
  {
    var initialCorrect: nat := 0;
    for i := 0 to |rows|
      invariant initialCorrect == Count(rows[..i], IsInitialRight())
    {
      CountStep(rows, i, IsInitialRight());
      initialCorrect := initialCorrect + Bit(rows[i].initial == rows[i].truth);
    }
    assert rows[..|rows|] == rows;
    var finalCorrect, overrideCount, correctOverride, wrongOverride, rescue, damage: nat := 0, 0, 0, 0, 0, 0;
    for i := 0 to |rows|
      invariant finalCorrect == Count(rows[..i], IsFinalRight(decisions))
      invariant overrideCount == Count(rows[..i], IsOverride(decisions))
      invariant correctOverride == Count(rows[..i], IsCorrect(decisions))
      invariant wrongOverride == Count(rows[..i], IsWrong(decisions))
      invariant rescue == Count(rows[..i], IsRescue(decisions))
      invariant damage == Count(rows[..i], IsDamage(decisions))
    {
      OneMoreRow(rows, i, decisions);
      var row := rows[i];
      var override := row.key in decisions && decisions[row.key] && row.alternative.Some?;
      var final := if override then row.alternative.value.service else row.initial;
      var before, after := row.initial == row.truth, final == row.truth;
      finalCorrect := finalCorrect + Bit(after);
      overrideCount := overrideCount + Bit(override);
      correctOverride := correctOverride + Bit(override && after);
      wrongOverride := wrongOverride + Bit(override && !after);
      rescue := rescue + Bit(!before && after);
      damage := damage + Bit(before && !after);
    }
    counts := Counts(
      |rows|, initialCorrect, finalCorrect, overrideCount, correctOverride, wrongOverride, rescue, damage);
  }

  lemma OneMoreRow(rows: seq<Row>, i: nat, d: Decisions)
    requires i < |rows|
    ensures Count(rows[..i + 1], IsFinalRight(d)) == Count(rows[..i], IsFinalRight(d)) + Bit(FinalRight(d, rows[i]))
    ensures Count(rows[..i + 1], IsOverride(d)) == Count(rows[..i], IsOverride(d)) + Bit(Decided(d, rows[i]))
    ensures Count(rows[..i + 1], IsCorrect(d))
         == Count(rows[..i], IsCorrect(d)) + Bit(Decided(d, rows[i]) && FinalRight(d, rows[i]))
    ensures Count(rows[..i + 1], IsWrong(d))
         == Count(rows[..i], IsWrong(d)) + Bit(Decided(d, rows[i]) && !FinalRight(d, rows[i]))
    ensures Count(rows[..i + 1], IsRescue(d))
         == Count(rows[..i], IsRescue(d)) + Bit(!InitialRight(rows[i]) && FinalRight(d, rows[i]))
    ensures Count(rows[..i + 1], IsDamage(d))
         == Count(rows[..i], IsDamage(d)) + Bit(InitialRight(rows[i]) && !FinalRight(d, rows[i]))
  {
    CountStep(rows, i, IsFinalRight(d));
    CountStep(rows, i, IsOverride(d));
    CountStep(rows, i, IsCorrect(d));
    CountStep(rows, i, IsWrong(d));
    CountStep(rows, i, IsRescue(d));
    CountStep(rows, i, IsDamage(d));
  }

  // ----- the counters reconcile -----

  ghost predicate AlternativesDiffer(rows: seq<Row>) {
    forall row :: row in rows && row.alternative.Some? ==> row.alternative.value.service != row.initial
  }

  /**
   For every set of rows and every decision map: the final roots are the initial ones plus the
   rescued less the damaged, and each override is correct or wrong.
   */
  lemma FrontierReconciles(rows: seq<Row>, d: Decisions)
    ensures var c := FrontierOf(rows, d);
      && c.finalRoot == c.initialRoot + c.rescue - c.damage
      && c.overrides == c.correctOverride + c.wrongOverride
  {
    CountBalance(rows, IsFinalRight(d), IsDamage(d), IsInitialRight(), IsRescue(d));
    CountSplit(rows, IsOverride(d), IsCorrect(d), IsWrong(d));
  }

  /** The ranking proposes an alternative that is not the Initial, so loaded rows never name it. */
  lemma RankedAlternativesDiffer(rows: seq<Row>)
    requires forall row :: row in rows ==> FromRanking(row)
    ensures AlternativesDiffer(rows)
  {
    forall row | row in rows && row.alternative.Some? ensures row.alternative.value.service != row.initial {
      AlternativeIsFirstOrSecond(row.initial, row.ranking);
    }
  }

  /** As an alternative always differs from the Initial, the rescues are the correct overrides. */
  lemma RescuesAreCorrectOverrides(rows: seq<Row>, d: Decisions)
    requires AlternativesDiffer(rows) || forall row :: row in rows ==> FromRanking(row)
    ensures var c := FrontierOf(rows, d);
      c.rescue == c.correctOverride && c.damage <= c.wrongOverride
  {
    if forall row :: row in rows ==> FromRanking(row) {
      RankedAlternativesDiffer(rows);
    }
    CountSame(rows, IsRescue(d), IsCorrect(d));
    CountMonotone(rows, IsDamage(d), IsWrong(d));
  }

  // ----- decisions by rule -----

  ghost predicate UniqueKeys(rows: seq<Row>) {
    forall i, j :: 0 <= i < j < |rows| ==> rows[i].key != rows[j].key
  }

  /** `{key: rule(row) for row in rows}`: the last row of a key decides. */
  method Decide(rows: seq<Row>, rule: Row -> bool) returns (decisions: Decisions)
    ensures decisions == DecidedBy(rows, rule)
    ensures forall key :: key in decisions <==> exists i :: 0 <= i < |rows| && rows[i].key == key
    ensures forall i :: 0 <= i < |rows| && IsLast(rows, i) ==> decisions[rows[i].key] == rule(rows[i])
  {
    decisions := map[];
    for i := 0 to |rows|
      invariant decisions == DecidedBy(rows[..i], rule)
    {
      assert rows[..i + 1][..i] == rows[..i];
      decisions := decisions[rows[i].key := rule(rows[i])];
    }
    assert rows[..|rows|] == rows;
    KeysAreDecided(rows, rule);
    forall i | 0 <= i < |rows| && IsLast(rows, i) ensures decisions[rows[i].key] == rule(rows[i]) {
      LastRowDecides(rows, rule, i);
    }
  }

  /** No later row has the same key. */
  ghost predicate IsLast(rows: seq<Row>, i: nat)
    requires i < |rows|
  {
    forall j :: i < j < |rows| ==> rows[j].key != rows[i].key
  }

  lemma {:induction false} KeysAreDecided(rows: seq<Row>, rule: Row -> bool)
    ensures forall key :: key in DecidedBy(rows, rule) <==> exists i :: 0 <= i < |rows| && rows[i].key == key
  {
    if rows != [] {
      var n := |rows| - 1;
      KeysAreDecided(rows[..n], rule);
      assert forall i :: 0 <= i < n ==> rows[..n][i] == rows[i];
    }
  }

  lemma {:induction false} LastRowDecides(rows: seq<Row>, rule: Row -> bool, i: nat)
    requires i < |rows| && IsLast(rows, i)
    ensures rows[i].key in DecidedBy(rows, rule) && DecidedBy(rows, rule)[rows[i].key] == rule(rows[i])
  {
    var n := |rows| - 1;
    if i < n {
      assert forall j :: i < j < n ==> rows[..n][j] == rows[j];
      assert rows[n].key != rows[i].key;
      LastRowDecides(rows[..n], rule, i);
    }
  }

  ghost function DecidedBy(rows: seq<Row>, rule: Row -> bool): Decisions {
    if rows == [] then map[]
    else DecidedBy(rows[..|rows| - 1], rule)[rows[|rows| - 1].key := rule(rows[|rows| - 1])]
  }

  lemma {:induction false} UniqueKeysDecide(rows: seq<Row>, rule: Row -> bool)
    requires UniqueKeys(rows)
    ensures forall row :: row in rows ==> row.key in DecidedBy(rows, rule) && DecidedBy(rows, rule)[row.key] == rule(row)
  {
    if rows != [] {
      var n := |rows| - 1;
      UniqueKeysDecide(rows[..n], rule);
      forall row | row in rows ensures row.key in DecidedBy(rows, rule) && DecidedBy(rows, rule)[row.key] == rule(row) {
        var i :| 0 <= i < |rows| && rows[i] == row;
        if i < n {
          assert row in rows[..n];
        }
      }
    }
  }

  // ----- the Metrics frontier, with the Initial's indicator kept -----

  datatype PairCounts = PairCounts(root: Counts, initialPair: nat, finalPair: nat, pairRescue: nat, pairDamage: nat)

  predicate IndicatorRight(canonical: string -> string, row: Row) {
    canonical(row.initialIndicator) == canonical(row.truthIndicator)
  }

  ghost function IsInitialPair(canonical: string -> string): Row -> bool {
    (row: Row) => InitialRight(row) && IndicatorRight(canonical, row)
  }

  predicate Chosen(d: Decisions, row: Row) {
    row.key in d && d[row.key]
  }

  /** The final service of the pair counts: without an alternative it is `None`, which names no root. */
  function PairService(d: Decisions, row: Row): Option<string> {
    if Chosen(d, row) then AlternativeService(row) else Some(row.initial)
  }

  ghost function IsFinalPair(canonical: string -> string, d: Decisions): Row -> bool {
    (row: Row) => PairService(d, row) == Some(row.truth) && IndicatorRight(canonical, row)
  }

  ghost function IsPairRescue(canonical: string -> string, d: Decisions): Row -> bool {
    (row: Row) => !IsInitialPair(canonical)(row) && IsFinalPair(canonical, d)(row)
  }

  ghost function IsPairDamage(canonical: string -> string, d: Decisions): Row -> bool {
    (row: Row) => IsInitialPair(canonical)(row) && !IsFinalPair(canonical, d)(row)
  }

  ghost function PairFrontier(rows: seq<Row>, canonical: string -> string, d: Decisions): PairCounts {
    PairCounts(
      FrontierOf(rows, d), Count(rows, IsInitialPair(canonical)), Count(rows, IsFinalPair(canonical, d)),
      Count(rows, IsPairRescue(canonical, d)), Count(rows, IsPairDamage(canonical, d)))
  }

  function ByRule(rule: Rule): Row -> bool { (row: Row) => MetricsRule(row.alternative, rule) }

  /**
   One rule of `evaluate_metrics_frontier`. With a repeated key a row can be chosen without an
   alternative of its own: the root counts then keep the Initial, the pair counts have no service.
   */
  method MetricsFrontier(rows: seq<Row>, rule: Rule, canonical: string -> string) returns (result: PairCounts)
    ensures result == PairFrontier(rows, canonical, DecidedBy(rows, ByRule(rule)))
  {
    hide Count, IsInitialPair, IsFinalPair, IsPairRescue, IsPairDamage, FrontierOf, DecidedBy, IsLast;
    var decisions := Decide(rows, ByRule(rule));
    var counts := FrontierCounts(rows, decisions);
    NoPairs(canonical, decisions);
    assert rows[..0] == [];
    var initialPair, finalPair, pairRescue, pairDamage: nat := 0, 0, 0, 0;
    for i := 0 to |rows|
      invariant initialPair == Count(rows[..i], IsInitialPair(canonical))
      invariant finalPair == Count(rows[..i], IsFinalPair(canonical, decisions))
      invariant pairRescue == Count(rows[..i], IsPairRescue(canonical, decisions))
      invariant pairDamage == Count(rows[..i], IsPairDamage(canonical, decisions))
    {
      OneMorePair(rows, i, canonical, decisions);
      var row := rows[i];
      var sameIndicator := canonical(row.initialIndicator) == canonical(row.truthIndicator);
      var beforePair := row.initial == row.truth && sameIndicator;
      var finalService := if decisions[row.key] then AlternativeService(row) else Some(row.initial);
      var afterPair := finalService == Some(row.truth) && sameIndicator;
      initialPair := initialPair + Bit(beforePair);
      finalPair := finalPair + Bit(afterPair);
      pairRescue := pairRescue + Bit(!beforePair && afterPair);
      pairDamage := pairDamage + Bit(beforePair && !afterPair);
    }
    assert rows[..|rows|] == rows;
    result := PairCounts(counts, initialPair, finalPair, pairRescue, pairDamage);
  }

  lemma NoPairs(canonical: string -> string, d: Decisions)
    ensures Count([], IsInitialPair(canonical)) == 0 && Count([], IsFinalPair(canonical, d)) == 0
    ensures Count([], IsPairRescue(canonical, d)) == 0 && Count([], IsPairDamage(canonical, d)) == 0
  {
  }

  lemma OneMorePair(rows: seq<Row>, i: nat, canonical: string -> string, d: Decisions)
    requires i < |rows|
    ensures var before, after := InitialRight(rows[i]) && IndicatorRight(canonical, rows[i]),
                                 PairService(d, rows[i]) == Some(rows[i].truth) && IndicatorRight(canonical, rows[i]);
      && Count(rows[..i + 1], IsInitialPair(canonical)) == Count(rows[..i], IsInitialPair(canonical)) + Bit(before)
      && Count(rows[..i + 1], IsFinalPair(canonical, d)) == Count(rows[..i], IsFinalPair(canonical, d)) + Bit(after)
      && Count(rows[..i + 1], IsPairRescue(canonical, d)) == Count(rows[..i], IsPairRescue(canonical, d)) + Bit(!before && after)
      && Count(rows[..i + 1], IsPairDamage(canonical, d)) == Count(rows[..i], IsPairDamage(canonical, d)) + Bit(before && !after)
  {
    CountStep(rows, i, IsInitialPair(canonical));
    CountStep(rows, i, IsFinalPair(canonical, d));
    CountStep(rows, i, IsPairRescue(canonical, d));
    CountStep(rows, i, IsPairDamage(canonical, d));
    hide Count;
  }

  ghost function IsRescueOfWrongIndicator(canonical: string -> string, d: Decisions): Row -> bool {
    (row: Row) => IsRescue(d)(row) && !IndicatorRight(canonical, row)
  }

  ghost function IsDamageOfWrongIndicator(canonical: string -> string, d: Decisions): Row -> bool {
    (row: Row) => IsDamage(d)(row) && !IndicatorRight(canonical, row)
  }

  /** A right pair that is chosen for an override without having an alternative. */
  ghost function IsStrandedPair(canonical: string -> string, d: Decisions): Row -> bool {
    (row: Row) => Chosen(d, row) && row.alternative.None? && IsInitialPair(canonical)(row)
  }

  /**
   Root and pair reconcile at once. As the indicator is kept, the rescued pairs are the rescued
   roots with a right indicator; so are the damaged ones, but for the stranded pairs.
   */
  lemma PairsReconcile(rows: seq<Row>, canonical: string -> string, d: Decisions)
    ensures var c := PairFrontier(rows, canonical, d);
      && c.root.finalRoot == c.root.initialRoot + c.root.rescue - c.root.damage
      && c.finalPair == c.initialPair + c.pairRescue - c.pairDamage
      && c.pairRescue == c.root.rescue - Count(rows, IsRescueOfWrongIndicator(canonical, d))
      && c.pairDamage == c.root.damage - Count(rows, IsDamageOfWrongIndicator(canonical, d)) + Count(rows, IsStrandedPair(canonical, d))
  {
    FrontierReconciles(rows, d);
    CountBalance(rows, IsFinalPair(canonical, d), IsPairDamage(canonical, d), IsInitialPair(canonical), IsPairRescue(canonical, d));
    CountSplit(rows, IsRescue(d), IsPairRescue(canonical, d), IsRescueOfWrongIndicator(canonical, d));
    CountBalance(
      rows, IsPairDamage(canonical, d), IsDamageOfWrongIndicator(canonical, d), IsDamage(d), IsStrandedPair(canonical, d));
  }

  /** With unique keys no pair is stranded: no pair moves without its root. */
  lemma UniqueKeysStrandNoPair(rows: seq<Row>, rule: Rule, canonical: string -> string)
    requires UniqueKeys(rows)
    ensures var c := PairFrontier(rows, canonical, DecidedBy(rows, ByRule(rule)));
      c.pairRescue <= c.root.rescue && c.pairDamage <= c.root.damage
  {
    var d := DecidedBy(rows, ByRule(rule));
    UniqueKeysDecide(rows, ByRule(rule));
    PairsReconcile(rows, canonical, d);
    CountNone(rows, IsStrandedPair(canonical, d));
  }

  /** The last row of a key decides both rules, so a subset of rows is a subset of decisions. */
  lemma {:induction false} SubsetCarriesOver(rows: seq<Row>, narrow: Row -> bool, wide: Row -> bool)
    requires forall row :: row in rows && narrow(row) ==> wide(row)
    ensures forall row :: Decided(DecidedBy(rows, narrow), row) ==> Decided(DecidedBy(rows, wide), row)
  {
    if rows != [] {
      var n := |rows| - 1;
      SubsetCarriesOver(rows[..n], narrow, wide);
      forall row | Decided(DecidedBy(rows, narrow), row) ensures Decided(DecidedBy(rows, wide), row) {
        assert row.key != rows[n].key ==> Decided(DecidedBy(rows[..n], narrow), row);
      }
    }
  }

  /** A rule that overrides a subset of what another does rescues no more and damages no more. */
  lemma SubsetMovesLess(rows: seq<Row>, narrow: Row -> bool, wide: Row -> bool)
    requires forall row :: row in rows && narrow(row) ==> wide(row)
    ensures var n, w := FrontierOf(rows, DecidedBy(rows, narrow)), FrontierOf(rows, DecidedBy(rows, wide));
      n.overrides <= w.overrides && n.rescue <= w.rescue && n.damage <= w.damage
  {
    var n, w := DecidedBy(rows, narrow), DecidedBy(rows, wide);
    SubsetCarriesOver(rows, narrow, wide);
    CountMonotone(rows, IsOverride(n), IsOverride(w));
    CountMonotone(rows, IsRescue(n), IsRescue(w));
    CountMonotone(rows, IsDamage(n), IsDamage(w));
  }

  /** M2 and M3 override a subset of what M1 overrides. */
  lemma NarrowerRulesMoveLess(rows: seq<Row>, rule: Rule)
    ensures var n, w := FrontierOf(rows, DecidedBy(rows, ByRule(rule))), FrontierOf(rows, DecidedBy(rows, ByRule(M1)));
      n.overrides <= w.overrides && n.rescue <= w.rescue && n.damage <= w.damage
  {
    forall row | row in rows && ByRule(rule)(row) ensures ByRule(M1)(row) {
      RulesAreNested(row.alternative, rule);
    }
    SubsetMovesLess(rows, ByRule(rule), ByRule(M1));
  }

  ghost function ByF1(): Row -> bool { (row: Row) => F1Overrides(row) }

  /** Off the free Specialist path, the relaxed rule F1 rescues and damages at least as much as Fusion. */
  lemma FusionMovesLessThanF1(rows: seq<Row>)
    requires forall row :: row in rows ==> !FreePath(row)
    ensures var f0, f1 := FrontierOf(rows, DecidedBy(rows, ByReplay())), FrontierOf(rows, DecidedBy(rows, ByF1()));
      f0.overrides <= f1.overrides && f0.rescue <= f1.rescue && f0.damage <= f1.damage
  {
    forall row | row in rows && ByReplay()(row) ensures ByF1()(row) {
      PairwiseOverridesMeetTheRules(row);
    }
    SubsetMovesLess(rows, ByReplay(), ByF1());
  }

  // ----- the F0 frontier against the Fusion replay -----

  ghost function ByReplay(): Row -> bool { (row: Row) => Overrides(row) }

  ghost function IsReplayedRight(): Row -> bool { (row: Row) => ReplayedFinal(row) == row.truth }

  /** A diverging row whose service of this rank is the true root. */
  ghost function IsDivergingOnto(place: nat): Row -> bool {
    (row: Row) => Diverges(row) && place < |row.ranking| && row.ranking[place].service == row.truth
  }

  /**
   How far the F0 frontier is from the replay, exactly: it misses the diverging rows whose second
   best service is the true root and adds those whose best one is. So the totals agree if and
   only if there are as many of the one kind as of the other.
   */
  lemma F0CountsTheReplayExactly(rows: seq<Row>)
    requires UniqueKeys(rows) && forall row :: row in rows ==> FromRanking(row)
    ensures var c := FrontierOf(rows, DecidedBy(rows, ByReplay()));
      && c.finalRoot + Count(rows, IsDivergingOnto(1)) == Count(rows, IsReplayedRight()) + Count(rows, IsDivergingOnto(0))
      && (c.finalRoot == Count(rows, IsReplayedRight()) <==> Count(rows, IsDivergingOnto(1)) == Count(rows, IsDivergingOnto(0)))
      && c.rescue - c.damage
         == Count(rows, IsReplayedRight()) - c.initialRoot + Count(rows, IsDivergingOnto(0)) - Count(rows, IsDivergingOnto(1))
      && c.overrides == Count(rows, ByReplay())
  {
    var d := DecidedBy(rows, ByReplay());
    UniqueKeysDecide(rows, ByReplay());
    forall row | row in rows
      ensures FinalRight(d, row) == (CountedFinal(row) == row.truth) && Decided(d, row) == Overrides(row)
      ensures Bit(FinalRight(d, row)) + Bit(IsDivergingOnto(1)(row)) == Bit(IsReplayedRight()(row)) + Bit(IsDivergingOnto(0)(row))
    {
      OverridesExactly(row);
      DivergingRow(row);
    }
    CountBalance(rows, IsFinalRight(d), IsDivergingOnto(1), IsReplayedRight(), IsDivergingOnto(0));
    CountSame(rows, IsOverride(d), ByReplay());
    FrontierReconciles(rows, d);
  }

  lemma DivergingRow(row: Row)
    requires FromRanking(row)
    ensures if Diverges(row) then
              CountedFinal(row) == row.ranking[0].service && ReplayedFinal(row) == row.ranking[1].service
              && row.ranking[0].service != row.ranking[1].service
            else CountedFinal(row) == ReplayedFinal(row)
  {
    CountedIsReplayedExactly(row);
    OverridesExactly(row);
    AlternativeIsFirstOrSecond(row.initial, row.ranking);
    TopTwoIs(row);
    if Diverges(row) {
      assert row.ranking[0].service != row.initial;
    }
  }

  /** If no row diverges, the F0 frontier counts the final roots that the replay itself decides. */
  lemma F0CountsTheReplay(rows: seq<Row>)
    requires UniqueKeys(rows) && forall row :: row in rows ==> FromRanking(row) && !Diverges(row)
    ensures var c := FrontierOf(rows, DecidedBy(rows, ByReplay()));
      c.finalRoot == Count(rows, IsReplayedRight()) && c.rescue - c.damage == Count(rows, IsReplayedRight()) - c.initialRoot
  {
    F0CountsTheReplayExactly(rows);
    CountNone(rows, IsDivergingOnto(0));
    CountNone(rows, IsDivergingOnto(1));
  }

  /**
   A diverging row miscounts: Fusion overrides to the true second-best service, and the frontier
   books a wrong override to the best one.
   */
  lemma TheF0FrontierCanMiscount() returns (row: Row)
    ensures FromRanking(row) && Diverges(row)
    ensures FrontierOf([row], DecidedBy([row], ByReplay())).finalRoot == 0
    ensures FrontierOf([row], DecidedBy([row], ByReplay())).wrongOverride == 1
    ensures Count([row], IsReplayedRight()) == 1
  {
    var ranking := [Ranked("cart", 4.0), Ranked("checkout", 3.0)];
    var strong := Hypothesis("traces", "checkout", ROOT, 1.0, ["trace:1"], []);
    var symptom := Hypothesis("traces", "frontend", SYMPTOM, 1.0, ["trace:2"], []);
    row := Row(
      "case", "candidate-5", "frontend", "checkout", "checkout", "cpu", "cpu", ranking,
      AlternativeFromRanking("frontend", ranking), VerifyTraces, true, [strong, symptom], None, [], []);
    AlternativeIsFirstOrSecond("frontend", ranking);
    TopTwoIs(row);
    assert IsStrong(row, strong) && strong in row.hypotheses;
    assert StrongServices(row) == {"checkout"};
    assert ContradictsInitial(row, symptom) && symptom in row.hypotheses;
    OverridesExactly(row);
    assert Overrides(row) && ReplayedFinal(row) == "checkout";
    var d := DecidedBy([row], ByReplay());
    assert [row][..0] == [];
    assert DecidedBy([row][..0], ByReplay()) == map[] && ByReplay()(row);
    assert d == map["case" := true];
    CountOne(row, IsReplayedRight());
    CountOne(row, IsFinalRight(d));
    CountOne(row, IsWrong(d));
    assert Decided(d, row) && !FinalRight(d, row);
  }
}
