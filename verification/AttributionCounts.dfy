/** The reports built on grouped terminal records, and the identities that tie them together. */
module AttributionCounts {
  import opened Wrappers
  import opened Counting
  import opened Attribution

  // ----- the gap to the Single arm -----

  datatype ArmTotals = ArmTotals(runs: nat, completed: nat, right: nat, pairRight: nat) {
    function Failures(): int { runs - completed }
    function CompletedWrong(): int { completed - right }
  }

  type Scores = map<(string, Arm), (bool, bool)>

  /** `_scored_lookup`: scores by case and arm; a later record of the same run replaces the score. */
  function Lookup(records: seq<Record>, truths: Truths): (scores: Scores)
    ensures forall r :: r in records ==> (r.caseId, r.arm) in scores
  {
    if records == [] then map[]
    else
      var r := records[|records| - 1];
      Lookup(records[..|records| - 1], truths)[(r.caseId, r.arm) := (ServiceRight(truths, r), PairRight(truths, r))]
  }

  lemma {:induction false} LookupIsOwnScore(records: seq<Record>, truths: Truths)
    requires NoDuplicates(records)
    ensures forall r :: r in records ==>
              Lookup(records, truths)[(r.caseId, r.arm)] == (ServiceRight(truths, r), PairRight(truths, r))
  {
    if records != [] {
      var n := |records| - 1;
      LookupIsOwnScore(records[..n], truths);
      forall r | r in records
        ensures Lookup(records, truths)[(r.caseId, r.arm)] == (ServiceRight(truths, r), PairRight(truths, r))
      {
        var i :| 0 <= i < |records| && records[i] == r;
        if i < n {
          assert r in records[..n];
        }
      }
    }
  }

  ghost function AnyRun(): Record -> bool { (r: Record) => true }
  ghost function IsCompleted(): Record -> bool { (r: Record) => r.Completed() }
  ghost function IsFailed(): Record -> bool { (r: Record) => !r.Completed() }
  ghost function ScoredRight(scores: Scores): Record -> bool { (r: Record) => (r.caseId, r.arm) in scores && scores[(r.caseId, r.arm)].0 }
  ghost function ScoredPair(scores: Scores): Record -> bool { (r: Record) => (r.caseId, r.arm) in scores && scores[(r.caseId, r.arm)].1 }
  ghost function IsRight(truths: Truths): Record -> bool { (r: Record) => ServiceRight(truths, r) }
  ghost function IsCompletedWrong(truths: Truths): Record -> bool { (r: Record) => r.Completed() && !ServiceRight(truths, r) }

  ghost function TotalsOf(records: seq<Record>, scores: Scores, arm: Arm): ArmTotals {
    ArmTotals(
      Count(records, OfArm(arm, AnyRun())), Count(records, OfArm(arm, IsCompleted())),
      Count(records, OfArm(arm, ScoredRight(scores))), Count(records, OfArm(arm, ScoredPair(scores))))
  }

  method Totals(records: seq<Record>, scores: Scores, arm: Arm) returns (totals: ArmTotals)
    ensures totals == TotalsOf(records, scores, arm)
  {
    var runs, completed, right, pairRight: nat := 0, 0, 0, 0;
    for i := 0 to |records|
      invariant runs == Count(records[..i], OfArm(arm, AnyRun()))
      invariant completed == Count(records[..i], OfArm(arm, IsCompleted()))
      invariant right == Count(records[..i], OfArm(arm, ScoredRight(scores)))
      invariant pairRight == Count(records[..i], OfArm(arm, ScoredPair(scores)))
    {
      CountStep(records, i, OfArm(arm, AnyRun()));
      CountStep(records, i, OfArm(arm, IsCompleted()));
      CountStep(records, i, OfArm(arm, ScoredRight(scores)));
      CountStep(records, i, OfArm(arm, ScoredPair(scores)));
      var r := records[i];
      if r.arm == arm {
        var score := if (r.caseId, r.arm) in scores then scores[(r.caseId, r.arm)] else (false, false);
        runs, completed := runs + 1, completed + Bit(r.Completed());
        right, pairRight := right + Bit(score.0), pairRight + Bit(score.1);
      }
    }
    assert records[..|records|] == records;
    totals := ArmTotals(runs, completed, right, pairRight);
  }

  /** `ratio` accepts the counts: a positive denominator, and a numerator within it. */
  predicate LegalRatio(numerator: int, denominator: int) {
    denominator > 0 && 0 <= numerator <= denominator
  }

  predicate LegalRatios(t: ArmTotals) {
    && LegalRatio(t.right, t.runs) && LegalRatio(t.pairRight, t.runs) && LegalRatio(t.right, t.completed)
    && LegalRatio(t.right + t.Failures(), t.runs)
  }

  /** The excesses of an arm over Single add up to its gap. */
  predicate Reconciles(single: ArmTotals, current: ArmTotals) {
    (current.Failures() - single.Failures()) + (current.CompletedWrong() - single.CompletedWrong())
    == single.right - current.right
  }

  /** `ratio(numerator, denominator)["value"]`, for counts that `ratio` accepts. */
  function Ratio(numerator: int, denominator: int): real
    requires LegalRatio(numerator, denominator)
  {
    numerator as real / denominator as real
  }

  datatype ArmReport = ArmReport(
    totals: ArmTotals, rootAccuracy: real, pairAccuracy: real, completedAccuracy: real, ceiling: real,
    excessFailures: int, excessCompletedWrong: int, gap: int)

  function ReportOf(t: ArmTotals, single: ArmTotals): ArmReport
    requires LegalRatios(t)
  {
    ArmReport(
      t, Ratio(t.right, t.runs), Ratio(t.pairRight, t.runs), Ratio(t.right, t.completed), Ratio(t.right + t.Failures(), t.runs),
      t.Failures() - single.Failures(), t.CompletedWrong() - single.CompletedWrong(), single.right - t.right)
  }

  datatype Decomposition = RatioRaised | NotReconciled | Decomposed(arms: map<Arm, ArmReport>)

  /** `build_architecture_decomposition`, on the scores of the records. */
  method Decompose(records: seq<Record>, scores: Scores) returns (result: Decomposition)
    ensures result.RatioRaised? <==> exists arm :: !LegalRatios(TotalsOf(records, scores, arm))
    ensures result.NotReconciled? <==>
              && (forall arm :: LegalRatios(TotalsOf(records, scores, arm)))
              && exists arm :: TotalsOf(records, scores, arm).runs != TotalsOf(records, scores, Single).runs
    ensures result.Decomposed? ==> forall arm ::
              && arm in result.arms && LegalRatios(TotalsOf(records, scores, arm))
              && result.arms[arm] == ReportOf(TotalsOf(records, scores, arm), TotalsOf(records, scores, Single))
  {
    hide TotalsOf;
    var single := Totals(records, scores, Single);
    if !LegalRatios(single) {
      return RatioRaised;
    }
    var fixed := Totals(records, scores, Fixed);
    if !LegalRatios(fixed) {
      return RatioRaised;
    }
    var dynamic := Totals(records, scores, Dynamic);
    if !LegalRatios(dynamic) {
      return RatioRaised;
    }
    var arms := map[Single := ReportOf(single, single), Fixed := ReportOf(fixed, single), Dynamic := ReportOf(dynamic, single)];
    forall arm: Arm
      ensures arm in arms
      ensures TotalsOf(records, scores, arm) == (match arm case Single => single case Fixed => fixed case Dynamic => dynamic)
    {
      match arm
      case Single =>
      case Fixed =>
      case Dynamic =>
    }
    if !(Reconciles(single, single) && Reconciles(single, fixed) && Reconciles(single, dynamic)) {
      return NotReconciled;
    }
    result := Decomposed(arms);
  }

  /**
   The "did not reconcile" test is about denominators alone: an arm fails it exactly when it has
   another number of records than Single. One record for each case and arm rules that out.
   */
  lemma ReconcilesExactly(records: seq<Record>, scores: Scores, arm: Arm)
    ensures Reconciles(TotalsOf(records, scores, Single), TotalsOf(records, scores, arm))
       <==> TotalsOf(records, scores, arm).runs == TotalsOf(records, scores, Single).runs
    ensures OneOfEach(records) ==> Reconciles(TotalsOf(records, scores, Single), TotalsOf(records, scores, arm))
  {
    if OneOfEach(records) {
      var g := GroupingOf(records);
      RunsAreCases(g, records, scores, arm);
      RunsAreCases(g, records, scores, Single);
    }
  }

  /** On the scores of the records themselves every ratio of an arm is legal exactly when some run of it completed. */
  lemma LegalExactly(records: seq<Record>, truths: Truths, arm: Arm)
    requires NoDuplicates(records)
    ensures LegalRatios(TotalsOf(records, Lookup(records, truths), arm))
       <==> TotalsOf(records, Lookup(records, truths), arm).completed > 0
  {
    PairsAreRoots(records, truths, arm);
    CompletedWrongIsCounted(records, truths, arm);
    hide Lookup, TotalsOf;
  }

  /**
   The program groups the records first. After that the "did not reconcile" error is out of reach,
   and the decomposition raises exactly when some arm completed no run.
   */
  method GroupThenDecompose(records: seq<Record>, truths: Truths) returns (result: Result<Decomposition>)
    ensures result.Ok? <==> OneOfEach(records)
    ensures result.Ok? ==> !result.value.NotReconciled?
    ensures result.Ok? ==>
              (result.value.RatioRaised? <==> exists arm :: TotalsOf(records, Lookup(records, truths), arm).completed == 0)
  {
    hide TotalsOf;
    var grouped := RecordsByCase(records);
    if grouped.Raised? {
      return Raised;
    }
    forall arm
      ensures TotalsOf(records, Lookup(records, truths), arm).runs == TotalsOf(records, Lookup(records, truths), Single).runs
      ensures LegalRatios(TotalsOf(records, Lookup(records, truths), arm))
         <==> TotalsOf(records, Lookup(records, truths), arm).completed > 0
    {
      ReconcilesExactly(records, Lookup(records, truths), arm);
      LegalExactly(records, truths, arm);
    }
    hide Lookup, LegalRatios;
    var decomposition := Decompose(records, Lookup(records, truths));
    if decomposition.RatioRaised? {
      ghost var arm :| !LegalRatios(TotalsOf(records, Lookup(records, truths), arm));
      assert TotalsOf(records, Lookup(records, truths), arm).completed == 0;
    } else {
      forall arm ensures LegalRatios(TotalsOf(records, Lookup(records, truths), arm)) {
      }
    }
    result := Ok(decomposition);
  }

  /**
   A direct call reaches the error: every ratio is legal, and the Fixed arm has one record more than
   the others.
   */
  lemma NotReconciledCanHappen() returns (records: seq<Record>, truths: Truths)
    ensures NoDuplicates(records)
    ensures forall arm :: LegalRatios(TotalsOf(records, Lookup(records, truths), arm))
    ensures TotalsOf(records, Lookup(records, truths), Fixed).runs != TotalsOf(records, Lookup(records, truths), Single).runs
  {
    var right := Some(Diagnosis("db", Cpu));
    records := [Record("a", Single, right), Record("a", Fixed, right), Record("a", Dynamic, right), Record("b", Fixed, right)];
    truths := map["a" := Truth("db", CpuFault), "b" := Truth("db", CpuFault)];
    assert NoDuplicates(records);
    LookupIsOwnScore(records, truths);
    forall arm ensures
      TotalsOf(records, Lookup(records, truths), arm) == if arm == Fixed then ArmTotals(2, 2, 2, 2) else ArmTotals(1, 1, 1, 1)
    {
      hide Lookup;
      var scores := Lookup(records, truths);
      CountFour(records, OfArm(arm, AnyRun()));
      CountFour(records, OfArm(arm, IsCompleted()));
      CountFour(records, OfArm(arm, ScoredRight(scores)));
      CountFour(records, OfArm(arm, ScoredPair(scores)));
    }
  }

  lemma CountFour(records: seq<Record>, p: Record -> bool)
    requires |records| == 4
    ensures Count(records, p) == Bit(p(records[0])) + Bit(p(records[1])) + Bit(p(records[2])) + Bit(p(records[3]))
  {
    CountStep(records, 0, p);
    CountStep(records, 1, p);
    CountStep(records, 2, p);
    CountStep(records, 3, p);
    assert records[..0] == [] && records[..4] == records;
  }

  /**
   The rates of an arm are ordered: pairs are at most roots, roots at most completed-only roots and
   at most the ceiling, which is one exactly when no completed run is wrong.
   */
  lemma RatesAreOrdered(records: seq<Record>, truths: Truths, arm: Arm)
    requires NoDuplicates(records)
    requires forall a :: LegalRatios(TotalsOf(records, Lookup(records, truths), a))
    ensures var scores := Lookup(records, truths);
      var r := ReportOf(TotalsOf(records, scores, arm), TotalsOf(records, scores, Single));
      && 0.0 <= r.pairAccuracy <= r.rootAccuracy <= r.completedAccuracy <= 1.0
      && r.rootAccuracy <= r.ceiling <= 1.0
      && (r.ceiling == 1.0 <==> r.totals.CompletedWrong() == 0)
  {
    var scores := Lookup(records, truths);
    var t := TotalsOf(records, scores, arm);
    PairsAreRoots(records, truths, arm);
    CompletedWrongIsCounted(records, truths, arm);
    hide Lookup, TotalsOf;
    RatioGrows(t.pairRight, t.right, t.runs);
    RatioGrows(t.right, t.right + t.Failures(), t.runs);
    RatioShrinks(t.right, t.completed, t.runs);
    RatioGrows(t.right, t.completed, t.completed);
    RatioGrows(t.right + t.Failures(), t.runs, t.runs);
  }

  lemma PairsAreRoots(records: seq<Record>, truths: Truths, arm: Arm)
    requires NoDuplicates(records)
    ensures TotalsOf(records, Lookup(records, truths), arm).pairRight <= TotalsOf(records, Lookup(records, truths), arm).right
  {
    var scores := Lookup(records, truths);
    LookupIsOwnScore(records, truths);
    CountMonotone(records, OfArm(arm, ScoredPair(scores)), OfArm(arm, ScoredRight(scores)));
  }

  lemma RatioGrows(a: nat, b: nat, n: nat)
    requires a <= b <= n && n > 0
    ensures 0.0 <= Ratio(a, n) <= Ratio(b, n) <= 1.0
    ensures Ratio(b, n) == 1.0 <==> b == n
  {
    QuotientsOrder(0.0, a as real, n as real);
    QuotientsOrder(a as real, b as real, n as real);
    QuotientsOrder(b as real, n as real, n as real);
  }

  lemma RatioShrinks(a: nat, small: nat, large: nat)
    requires a <= small <= large && small > 0
    ensures Ratio(a, large) <= Ratio(a, small)
  {
    DivisorsOrder(a as real, small as real, large as real);
  }

  lemma QuotientsOrder(p: real, q: real, n: real)
    requires p <= q && n > 0.0
    ensures p / n <= q / n && (p / n == q / n <==> p == q)
    ensures 0.0 / n == 0.0 && n / n == 1.0
  {
    var difference := q - p;
    assert q / n == p / n + difference / n;
  }

  lemma DivisorsOrder(p: real, n: real, m: real)
    requires p >= 0.0 && 0.0 < n <= m
    ensures p / m <= p / n
  {
    var x, y := p / m, p / n;
    assert x * m == p && y * n == p;
    assert x >= 0.0;
    assert x * n <= x * m;
    QuotientsOrder(x * n, y * n, n);
  }

  lemma {:induction false} GroupingOf(records: seq<Record>) returns (g: Grouped)
    requires NoDuplicates(records)
    ensures Groups(g, records)
  {
    if records == [] {
      g := Grouped(map[], []);
    } else {
      var n := |records| - 1;
      var r := records[n];
      var before := GroupingOf(records[..n]);
      assert !HasRun(records[..n], r.caseId, r.arm);
      g := FileRecord(before, r);
      OneMoreRecord(before, records[..n], r);
      assert records[..n] + [r] == records;
    }
  }

  lemma RunsAreCases(g: Grouped, records: seq<Record>, scores: Scores, arm: Arm)
    requires OneOfEach(records) && Groups(g, records)
    ensures TotalsOf(records, scores, arm).runs == |g.order|
  {
    ArmCountIsCaseCount(g, records, arm, AnyRun());
    forall c | c in g.order ensures InGroup(g, arm, AnyRun())(c) {
      ArmIsThere(g, records, c, arm);
    }
    CountTrue(g.order, InGroup(g, arm, AnyRun()));
  }

  lemma ArmIsThere(g: Grouped, records: seq<Record>, c: string, arm: Arm)
    requires OneOfEach(records) && Groups(g, records) && c in g.order
    ensures c in g.arms && arm in g.arms[c] && g.arms[c][arm] in records
  {
    assert IsCase(records, c);
    var i :| 0 <= i < |records| && records[i].caseId == c;
    assert HasRun(records, records[i].caseId, arm);
  }

  // ----- the pairwise outcomes -----

  datatype Cell = Cell(single: bool, fixed: bool, dynamic: bool)

  predicate RightAt(g: Grouped, truths: Truths, c: string, arm: Arm) {
    c in g.arms && arm in g.arms[c] && ServiceRight(truths, g.arms[c][arm])
  }

  function CellOf(g: Grouped, truths: Truths, c: string): Cell {
    Cell(RightAt(g, truths, c, Single), RightAt(g, truths, c, Fixed), RightAt(g, truths, c, Dynamic))
  }

  ghost function InCell(g: Grouped, truths: Truths, cell: Cell): string -> bool {
    (c: string) => CellOf(g, truths, c) == cell
  }

  /** The case is right on the one arm and wrong on the other. */
  ghost function RightWrong(g: Grouped, truths: Truths, right: Arm, wrong: Arm): string -> bool {
    (c: string) => RightAt(g, truths, c, right) && !RightAt(g, truths, c, wrong)
  }

  datatype Pairwise = Pairwise(
    cells: map<Cell, nat>,
    singleRightFixedWrong: nat, singleRightDynamicWrong: nat, singleWrongFixedRight: nat, singleWrongDynamicRight: nat,
    sameSource: nat)

  predicate CompletedAt(g: Grouped, c: string, arm: Arm) {
    c in g.arms && arm in g.arms[c] && g.arms[c][arm].Completed()
  }

  /** Single is right and Fixed wrong although both completed on the same sources. */
  ghost function IsDegraded(g: Grouped, truths: Truths): string -> bool {
    (c: string) => RightWrong(g, truths, Single, Fixed)(c) && CompletedAt(g, c, Single) && CompletedAt(g, c, Fixed)
  }

  method PairwiseOutcomes(g: Grouped, truths: Truths) returns (p: Pairwise)
    ensures forall cell :: cell in p.cells && p.cells[cell] == Count(g.order, InCell(g, truths, cell))
    ensures p.singleRightFixedWrong == Count(g.order, RightWrong(g, truths, Single, Fixed))
    ensures p.singleRightDynamicWrong == Count(g.order, RightWrong(g, truths, Single, Dynamic))
    ensures p.singleWrongFixedRight == Count(g.order, RightWrong(g, truths, Fixed, Single))
    ensures p.singleWrongDynamicRight == Count(g.order, RightWrong(g, truths, Dynamic, Single))
    ensures p.sameSource == Count(g.order, IsDegraded(g, truths))
  {
    hide Count, InCell;
    var cells: map<Cell, nat> := map s: bool, f: bool, d: bool | true :: Cell(s, f, d) := 0;
    var srfw, srdw, swfr, swdr, sameSource: nat := 0, 0, 0, 0, 0;
    forall cell: Cell ensures cell in cells && cells[cell] == 0 {
      assert Cell(cell.single, cell.fixed, cell.dynamic) == cell;
    }
    forall p: string -> bool {
      NoneCounted(p);
    }
    assert g.order[..0] == [];
    for i := 0 to |g.order|
      invariant forall cell :: cell in cells && cells[cell] == Count(g.order[..i], InCell(g, truths, cell))
      invariant srfw == Count(g.order[..i], RightWrong(g, truths, Single, Fixed))
      invariant srdw == Count(g.order[..i], RightWrong(g, truths, Single, Dynamic))
      invariant swfr == Count(g.order[..i], RightWrong(g, truths, Fixed, Single))
      invariant swdr == Count(g.order[..i], RightWrong(g, truths, Dynamic, Single))
      invariant sameSource == Count(g.order[..i], IsDegraded(g, truths))
    {
      var cell := CellOf(g, truths, g.order[i]);
      CellsStep(g, truths, i);
      CountStep(g.order, i, RightWrong(g, truths, Single, Fixed));
      CountStep(g.order, i, RightWrong(g, truths, Single, Dynamic));
      CountStep(g.order, i, RightWrong(g, truths, Fixed, Single));
      CountStep(g.order, i, RightWrong(g, truths, Dynamic, Single));
      CountStep(g.order, i, IsDegraded(g, truths));
      cells := cells[cell := cells[cell] + 1];
      if cell.single && !cell.fixed {
        srfw := srfw + 1;
        if CompletedAt(g, g.order[i], Single) && CompletedAt(g, g.order[i], Fixed) {
          sameSource := sameSource + 1;
        }
      }
      srdw := srdw + Bit(cell.single && !cell.dynamic);
      swfr := swfr + Bit(!cell.single && cell.fixed);
      swdr := swdr + Bit(!cell.single && cell.dynamic);
    }
    assert g.order[..|g.order|] == g.order;
    p := Pairwise(cells, srfw, srdw, swfr, swdr, sameSource);
  }

  lemma CellsStep(g: Grouped, truths: Truths, i: nat)
    requires i < |g.order|
    ensures forall cell :: Count(g.order[..i + 1], InCell(g, truths, cell))
                           == Count(g.order[..i], InCell(g, truths, cell)) + Bit(cell == CellOf(g, truths, g.order[i]))
  {
    forall cell
      ensures Count(g.order[..i + 1], InCell(g, truths, cell))
              == Count(g.order[..i], InCell(g, truths, cell)) + Bit(cell == CellOf(g, truths, g.order[i]))
    {
      CountStep(g.order, i, InCell(g, truths, cell));
    }
  }

  lemma NoneCounted(p: string -> bool)
    ensures Count([], p) == 0
  {
  }

  /** The eight cells partition the cases. */
  lemma {:induction false} EightCellsCover(order: seq<string>, g: Grouped, truths: Truths)
    ensures Count(order, InCell(g, truths, Cell(true, true, true))) + Count(order, InCell(g, truths, Cell(true, true, false)))
          + Count(order, InCell(g, truths, Cell(true, false, true))) + Count(order, InCell(g, truths, Cell(true, false, false)))
          + Count(order, InCell(g, truths, Cell(false, true, true))) + Count(order, InCell(g, truths, Cell(false, true, false)))
          + Count(order, InCell(g, truths, Cell(false, false, true))) + Count(order, InCell(g, truths, Cell(false, false, false)))
         == |order|
  {
    if order != [] {
      EightCellsCover(order[..|order| - 1], g, truths);
    }
  }

  /** Summing the cells over the arm left out gives the simplified counts. */
  lemma CellsMarginalise(order: seq<string>, g: Grouped, truths: Truths)
    ensures Count(order, RightWrong(g, truths, Single, Fixed))
         == Count(order, InCell(g, truths, Cell(true, false, true))) + Count(order, InCell(g, truths, Cell(true, false, false)))
    ensures Count(order, RightWrong(g, truths, Single, Dynamic))
         == Count(order, InCell(g, truths, Cell(true, true, false))) + Count(order, InCell(g, truths, Cell(true, false, false)))
    ensures Count(order, RightWrong(g, truths, Fixed, Single))
         == Count(order, InCell(g, truths, Cell(false, true, true))) + Count(order, InCell(g, truths, Cell(false, true, false)))
    ensures Count(order, RightWrong(g, truths, Dynamic, Single))
         == Count(order, InCell(g, truths, Cell(false, true, true))) + Count(order, InCell(g, truths, Cell(false, false, true)))
  {
    CountSplit(order, RightWrong(g, truths, Single, Fixed), InCell(g, truths, Cell(true, false, true)), InCell(g, truths, Cell(true, false, false)));
    CountSplit(order, RightWrong(g, truths, Single, Dynamic), InCell(g, truths, Cell(true, true, false)), InCell(g, truths, Cell(true, false, false)));
    CountSplit(order, RightWrong(g, truths, Fixed, Single), InCell(g, truths, Cell(false, true, true)), InCell(g, truths, Cell(false, true, false)));
    CountSplit(order, RightWrong(g, truths, Dynamic, Single), InCell(g, truths, Cell(false, true, true)), InCell(g, truths, Cell(false, false, true)));
  }

  ghost function IsRightAt(g: Grouped, truths: Truths, arm: Arm): string -> bool {
    (c: string) => RightAt(g, truths, c, arm)
  }

  /** The decomposition counts records, the pairwise loop counts cases: both see the same right runs. */
  lemma RightRunsAreRightCases(g: Grouped, records: seq<Record>, truths: Truths, arm: Arm)
    requires OneOfEach(records) && Groups(g, records)
    ensures TotalsOf(records, Lookup(records, truths), arm).right == Count(g.order, IsRightAt(g, truths, arm))
  {
    ScoredIsRight(records, truths, arm);
    ArmCountIsCaseCount(g, records, arm, IsRight(truths));
    CountSame(g.order, InGroup(g, arm, IsRight(truths)), IsRightAt(g, truths, arm));
  }

  lemma ScoredIsRight(records: seq<Record>, truths: Truths, arm: Arm)
    requires NoDuplicates(records)
    ensures Count(records, OfArm(arm, ScoredRight(Lookup(records, truths)))) == Count(records, OfArm(arm, IsRight(truths)))
  {
    LookupIsOwnScore(records, truths);
    CountSame(records, OfArm(arm, ScoredRight(Lookup(records, truths))), OfArm(arm, IsRight(truths)));
  }

  /** Completed but wrong runs, subtracted from totals, are those runs counted one by one. */
  lemma CompletedWrongIsCounted(records: seq<Record>, truths: Truths, arm: Arm)
    requires NoDuplicates(records)
    ensures var t := TotalsOf(records, Lookup(records, truths), arm);
      && t.CompletedWrong() == Count(records, OfArm(arm, IsCompletedWrong(truths)))
      && t.Failures() == Count(records, OfArm(arm, IsFailed()))
  {
    hide Lookup, Count, NoDuplicates, ServiceRight;
    ScoredIsRight(records, truths, arm);
    RightOrWrong(records, truths, arm);
    CompletedOrFailed(records, arm);
  }

  lemma CompletedOrFailed(records: seq<Record>, arm: Arm)
    ensures Count(records, OfArm(arm, AnyRun())) == Count(records, OfArm(arm, IsCompleted())) + Count(records, OfArm(arm, IsFailed()))
  {
    CountSplit(records, OfArm(arm, AnyRun()), OfArm(arm, IsCompleted()), OfArm(arm, IsFailed()));
  }

  lemma RightOrWrong(records: seq<Record>, truths: Truths, arm: Arm)
    ensures Count(records, OfArm(arm, IsCompleted()))
         == Count(records, OfArm(arm, IsRight(truths))) + Count(records, OfArm(arm, IsCompletedWrong(truths)))
  {
    CountSplit(records, OfArm(arm, IsCompleted()), OfArm(arm, IsRight(truths)), OfArm(arm, IsCompletedWrong(truths)));
  }

  /**
   The gap to Single, three ways: fewer right runs, excess failures plus excess completed-wrong
   runs, and the pairwise losses less the pairwise wins.
   */
  lemma GapThreeWays(g: Grouped, records: seq<Record>, truths: Truths, arm: Arm)
    requires OneOfEach(records) && Groups(g, records)
    ensures var single, current := TotalsOf(records, Lookup(records, truths), Single), TotalsOf(records, Lookup(records, truths), arm);
      && single.right - current.right
         == (current.Failures() - single.Failures()) + (current.CompletedWrong() - single.CompletedWrong())
      && single.right - current.right
         == Count(g.order, RightWrong(g, truths, Single, arm)) - Count(g.order, RightWrong(g, truths, arm, Single))
  {
    ReconcilesExactly(records, Lookup(records, truths), arm);
    RightRunsAreRightCases(g, records, truths, Single);
    RightRunsAreRightCases(g, records, truths, arm);
    CountBalance(
      g.order, IsRightAt(g, truths, Single), RightWrong(g, truths, arm, Single),
      IsRightAt(g, truths, arm), RightWrong(g, truths, Single, arm));
  }

  ghost function IsLostToFailure(g: Grouped, truths: Truths): string -> bool {
    (c: string) => RightWrong(g, truths, Single, Fixed)(c) && !CompletedAt(g, c, Fixed)
  }

  /** The cases lost to Fixed are degraded or failed; the degraded ones are among its completed-wrong runs. */
  lemma DegradationIsCompletedWrong(g: Grouped, records: seq<Record>, truths: Truths)
    requires OneOfEach(records) && Groups(g, records)
    ensures Count(g.order, RightWrong(g, truths, Single, Fixed))
         == Count(g.order, IsDegraded(g, truths)) + Count(g.order, IsLostToFailure(g, truths))
    ensures Count(g.order, IsDegraded(g, truths)) <= TotalsOf(records, Lookup(records, truths), Fixed).CompletedWrong()
    ensures Count(g.order, IsLostToFailure(g, truths)) <= TotalsOf(records, Lookup(records, truths), Fixed).Failures()
  {
    CompletedWrongIsCounted(records, truths, Fixed);
    ArmCountIsCaseCount(g, records, Fixed, IsCompletedWrong(truths));
    ArmCountIsCaseCount(g, records, Fixed, IsFailed());
    hide Lookup;
    CountSplit(g.order, RightWrong(g, truths, Single, Fixed), IsDegraded(g, truths), IsLostToFailure(g, truths));
    forall c | c in g.order ensures
      && (IsDegraded(g, truths)(c) ==> InGroup(g, Fixed, IsCompletedWrong(truths))(c))
      && (IsLostToFailure(g, truths)(c) ==> InGroup(g, Fixed, IsFailed())(c))
    {
      ArmIsThere(g, records, c, Fixed);
    }
    CountMonotone(g.order, IsDegraded(g, truths), InGroup(g, Fixed, IsCompletedWrong(truths)));
    CountMonotone(g.order, IsLostToFailure(g, truths), InGroup(g, Fixed, IsFailed()));
  }

  // ----- the per-case rows and the tool coverage of the Fixed arm -----

  datatype Projection = Projection(metrics: bool, logs: bool, traces: bool) {
    /** The sources whose six best services hold the true one. */
    function Covering(): nat { Bit(metrics) + Bit(logs) + Bit(traces) }
  }

  datatype Cause = RootServiceCorrect | TerminalFailure | CoverageFailure | RouteOrReasoning | ReasoningOrFusion

  datatype CaseRow = CaseRow(caseId: string, arm: Arm, completed: bool, right: bool, covering: nat, cause: Cause)

  function RowOf(truths: Truths, projections: map<string, Projection>, r: Record): CaseRow {
    var right := ServiceRight(truths, r);
    var covering := if r.caseId in projections then projections[r.caseId].Covering() else 0;
    var cause :=
      if right then RootServiceCorrect
      else if !r.Completed() then TerminalFailure
      else if covering == 0 then CoverageFailure
      else if r.arm == Dynamic then RouteOrReasoning
      else ReasoningOrFusion;
    CaseRow(r.caseId, r.arm, r.Completed(), right, covering, cause)
  }

  predicate HasAllArms(g: Grouped, c: string) {
    c in g.arms && Single in g.arms[c] && Fixed in g.arms[c] && Dynamic in g.arms[c]
  }

  ghost function RowsOf(g: Grouped, truths: Truths, projections: map<string, Projection>, order: seq<string>): seq<CaseRow>
    requires forall c :: c in order ==> HasAllArms(g, c)
  {
    if order == [] then []
    else
      var n := |order| - 1;
      RowsOf(g, truths, projections, order[..n]) + ThreeRows(g, truths, projections, order[n])
  }

  function ThreeRows(g: Grouped, truths: Truths, projections: map<string, Projection>, c: string): seq<CaseRow>
    requires HasAllArms(g, c)
  {
    [RowOf(truths, projections, g.arms[c][Single]), RowOf(truths, projections, g.arms[c][Fixed]),
     RowOf(truths, projections, g.arms[c][Dynamic])]
  }

  /** `build_case_rows`; `order` lists the cases sorted. */
  method CaseRows(g: Grouped, truths: Truths, projections: map<string, Projection>, order: seq<string>)
    returns (rows: seq<CaseRow>)
    requires forall c :: c in order ==> HasAllArms(g, c)
    ensures rows == RowsOf(g, truths, projections, order)
  {
    rows := [];
    for i := 0 to |order|
      invariant rows == RowsOf(g, truths, projections, order[..i])
    {
      assert order[..i + 1][..i] == order[..i];
      assert order[i] in order;
      rows := rows + ThreeRows(g, truths, projections, order[i]);
    }
    assert order[..|order|] == order;
  }

  datatype FixedCoverage = FixedCoverage(
    incorrect: nat, terminalFailures: nat, completedWrong: nat, absent: nat, multiple: nat,
    coverageFailureRate: real, visibleButWrongRate: real)

  ghost function FixedWrong(): CaseRow -> bool { (r: CaseRow) => r.arm == Fixed && !r.right }
  ghost function FixedFailed(): CaseRow -> bool { (r: CaseRow) => r.arm == Fixed && !r.right && !r.completed }
  ghost function FixedCompletedWrong(): CaseRow -> bool { (r: CaseRow) => r.arm == Fixed && !r.right && r.completed }
  ghost function FixedAbsent(): CaseRow -> bool { (r: CaseRow) => r.arm == Fixed && !r.right && r.completed && r.covering == 0 }
  ghost function FixedMultiple(): CaseRow -> bool { (r: CaseRow) => r.arm == Fixed && !r.right && r.completed && r.covering >= 2 }
  ghost function FixedBlamedOnCoverage(): CaseRow -> bool { (r: CaseRow) => r.arm == Fixed && r.cause == CoverageFailure }

  /** The Fixed part of `build_tool_coverage`; its rates raise exactly when no Fixed run completed wrong. */
  method FixedToolCoverage(rows: seq<CaseRow>) returns (result: Result<FixedCoverage>)
    ensures result.Raised? <==> Count(rows, FixedCompletedWrong()) == 0
    ensures result.Ok? ==>
              var f := result.value;
              && f.incorrect == Count(rows, FixedWrong()) && f.terminalFailures == Count(rows, FixedFailed())
              && f.completedWrong == Count(rows, FixedCompletedWrong())
              && f.absent == Count(rows, FixedAbsent()) && f.multiple == Count(rows, FixedMultiple())
              && LegalRatio(f.absent, f.completedWrong) && f.coverageFailureRate == Ratio(f.absent, f.completedWrong)
              && f.visibleButWrongRate == Ratio(f.completedWrong - f.absent, f.completedWrong)
              && f.coverageFailureRate + f.visibleButWrongRate == 1.0
  {
    var incorrect, failed, wrong, absent, multiple: nat := 0, 0, 0, 0, 0;
    for i := 0 to |rows|
      invariant incorrect == Count(rows[..i], FixedWrong())
      invariant failed == Count(rows[..i], FixedFailed())
      invariant wrong == Count(rows[..i], FixedCompletedWrong())
      invariant absent == Count(rows[..i], FixedAbsent())
      invariant multiple == Count(rows[..i], FixedMultiple())
      invariant absent <= wrong
    {
      CountStep(rows, i, FixedWrong());
      CountStep(rows, i, FixedFailed());
      CountStep(rows, i, FixedCompletedWrong());
      CountStep(rows, i, FixedAbsent());
      CountStep(rows, i, FixedMultiple());
      var r := rows[i];
      if r.arm == Fixed && !r.right {
        incorrect := incorrect + 1;
        if r.completed {
          wrong, absent, multiple := wrong + 1, absent + Bit(r.covering == 0), multiple + Bit(r.covering >= 2);
        } else {
          failed := failed + 1;
        }
      }
    }
    assert rows[..|rows|] == rows;
    if wrong == 0 {
      return Raised;
    }
    RatesComplement(absent, wrong);
    result := Ok(FixedCoverage(
      incorrect, failed, wrong, absent, multiple, Ratio(absent, wrong), Ratio(wrong - absent, wrong)));
  }

  lemma RatesComplement(a: nat, n: nat)
    requires a <= n && n > 0
    ensures Ratio(a, n) + Ratio(n - a, n) == 1.0
  {
  }

  /** What a predicate on rows says of a record. */
  ghost function OfRow(truths: Truths, projections: map<string, Projection>, p: CaseRow -> bool): Record -> bool {
    (r: Record) => p(RowOf(truths, projections, r))
  }

  lemma {:induction false} ArmRowsAreCases(
      g: Grouped, records: seq<Record>, truths: Truths, projections: map<string, Projection>, order: seq<string>,
      arm: Arm, p: CaseRow -> bool)
    requires Groups(g, records) && forall c :: c in order ==> HasAllArms(g, c)
    requires forall r: CaseRow :: p(r) ==> r.arm == arm
    ensures Count(RowsOf(g, truths, projections, order), p) == Count(order, InGroup(g, arm, OfRow(truths, projections, p)))
  {
    if order != [] {
      var n := |order| - 1;
      var c, before := order[n], RowsOf(g, truths, projections, order[..n]);
      ArmRowsAreCases(g, records, truths, projections, order[..n], arm, p);
      var three := ThreeRows(g, truths, projections, c);
      CountThree(before, three[0], three[1], three[2], p);
    }
  }

  lemma CountThree(rows: seq<CaseRow>, a: CaseRow, b: CaseRow, c: CaseRow, p: CaseRow -> bool)
    ensures Count(rows + [a, b, c], p) == Count(rows, p) + Bit(p(a)) + Bit(p(b)) + Bit(p(c))
  {
    var one, two, three := rows + [a], rows + [a, b], rows + [a, b, c];
    assert three[..|three| - 1] == two && two[..|two| - 1] == one && one[..|one| - 1] == rows;
    assert Count(one, p) == Count(rows, p) + Bit(p(one[|one| - 1]));
    assert Count(two, p) == Count(one, p) + Bit(p(two[|two| - 1]));
    assert Count(three, p) == Count(two, p) + Bit(p(three[|three| - 1]));
  }

  ghost predicate SameCases(order: seq<string>, g: Grouped) {
    (forall i, j :: 0 <= i < j < |order| ==> order[i] != order[j]) && forall c :: c in order <==> c in g.order
  }

  /** The tool-coverage table and the decomposition agree on the Fixed arm. */
  lemma FixedTablesAgree(
      g: Grouped, records: seq<Record>, truths: Truths, projections: map<string, Projection>, order: seq<string>)
    requires OneOfEach(records) && Groups(g, records) && SameCases(order, g)
    requires forall c :: c in order ==> HasAllArms(g, c)
    ensures var rows, t := RowsOf(g, truths, projections, order), TotalsOf(records, Lookup(records, truths), Fixed);
      && Count(rows, FixedCompletedWrong()) == t.CompletedWrong()
      && Count(rows, FixedFailed()) == t.Failures()
  {
    hide Lookup, SameCases;
    CompletedWrongIsCounted(records, truths, Fixed);
    ArmRowsAreRuns(g, records, truths, projections, order, Fixed, FixedCompletedWrong(), IsCompletedWrong(truths));
    ArmRowsAreRuns(g, records, truths, projections, order, Fixed, FixedFailed(), IsFailed());
  }

  /** Counting the rows of an arm is counting its records. */
  lemma ArmRowsAreRuns(
      g: Grouped, records: seq<Record>, truths: Truths, projections: map<string, Projection>, order: seq<string>,
      arm: Arm, p: CaseRow -> bool, q: Record -> bool)
    requires OneOfEach(records) && Groups(g, records) && SameCases(order, g)
    requires forall c :: c in order ==> HasAllArms(g, c)
    requires forall r: CaseRow :: p(r) ==> r.arm == arm
    requires forall r: Record :: r.arm == arm ==> p(RowOf(truths, projections, r)) == q(r)
    ensures Count(RowsOf(g, truths, projections, order), p) == Count(records, OfArm(arm, q))
  {
    ArmRowsAreCases(g, records, truths, projections, order, arm, p);
    SameCasesCount(order, g, InGroup(g, arm, q));
    CountSame(order, InGroup(g, arm, OfRow(truths, projections, p)), InGroup(g, arm, q));
    ArmCountIsCaseCount(g, records, arm, q);
  }

  lemma SameCasesCount(order: seq<string>, g: Grouped, p: string -> bool)
    requires SameCases(order, g) && forall i, j :: 0 <= i < j < |g.order| ==> g.order[i] != g.order[j]
    ensures Count(order, p) == Count(g.order, p)
  {
    DistinctCount(order, p);
    DistinctCount(g.order, p);
    assert Satisfying(order, p) == Satisfying(g.order, p);
  }

  ghost function Caused(arm: Arm, cause: Cause): CaseRow -> bool { (r: CaseRow) => r.arm == arm && r.cause == cause }

  ghost function CausedByEvidence(arm: Arm): CaseRow -> bool {
    (r: CaseRow) => r.arm == arm && (r.cause == CoverageFailure || r.cause == RouteOrReasoning || r.cause == ReasoningOrFusion)
  }

  /**
   For each arm the attributed causes refine the decomposition: correct rows are the right runs,
   terminal failures the failed runs, and the three other causes together the completed wrong
   ones. Routing is blamed on the Dynamic arm alone, and fusion never on it.
   */
  lemma CausesRefineTheDecomposition(
      g: Grouped, records: seq<Record>, truths: Truths, projections: map<string, Projection>, order: seq<string>, arm: Arm)
    requires OneOfEach(records) && Groups(g, records) && SameCases(order, g)
    requires forall c :: c in order ==> HasAllArms(g, c)
    ensures var rows, t := RowsOf(g, truths, projections, order), TotalsOf(records, Lookup(records, truths), arm);
      && Count(rows, Caused(arm, RootServiceCorrect)) == t.right
      && Count(rows, Caused(arm, TerminalFailure)) == t.Failures()
      && Count(rows, CausedByEvidence(arm)) == t.CompletedWrong()
      && Count(rows, Caused(arm, if arm == Dynamic then ReasoningOrFusion else RouteOrReasoning)) == 0
  {
    ScoredIsRight(records, truths, arm);
    CompletedWrongIsCounted(records, truths, arm);
    CausesOfRow(truths, projections, arm);
    var never := Caused(arm, if arm == Dynamic then ReasoningOrFusion else RouteOrReasoning);
    hide *;
    ArmRowsAreRuns(g, records, truths, projections, order, arm, Caused(arm, RootServiceCorrect), IsRight(truths));
    ArmRowsAreRuns(g, records, truths, projections, order, arm, Caused(arm, TerminalFailure), IsFailed());
    ArmRowsAreRuns(g, records, truths, projections, order, arm, CausedByEvidence(arm), IsCompletedWrong(truths));
    ArmRowsAreRuns(g, records, truths, projections, order, arm, never, IsNoRun());
    NoRuns(records, arm);
  }

  lemma NoRuns(records: seq<Record>, arm: Arm)
    ensures Count(records, OfArm(arm, IsNoRun())) == 0
  {
    CountNone(records, OfArm(arm, IsNoRun()));
  }

  lemma CausesOfRow(truths: Truths, projections: map<string, Projection>, arm: Arm)
    ensures forall cause, r: CaseRow :: Caused(arm, cause)(r) ==> r.arm == arm
    ensures forall r: CaseRow :: CausedByEvidence(arm)(r) ==> r.arm == arm
    ensures forall r: Record :: r.arm == arm ==>
              && Caused(arm, RootServiceCorrect)(RowOf(truths, projections, r)) == IsRight(truths)(r)
              && Caused(arm, TerminalFailure)(RowOf(truths, projections, r)) == IsFailed()(r)
              && CausedByEvidence(arm)(RowOf(truths, projections, r)) == IsCompletedWrong(truths)(r)
              && Caused(arm, if arm == Dynamic then ReasoningOrFusion else RouteOrReasoning)(RowOf(truths, projections, r)) == IsNoRun()(r)
  {
  }

  ghost function IsNoRun(): Record -> bool { (r: Record) => false }

  /** Within the table: wrong runs are failed or completed, and the absent ones are those blamed on coverage. */
  lemma FixedCausesAddUp(g: Grouped, truths: Truths, projections: map<string, Projection>, order: seq<string>)
    requires forall c :: c in order ==> HasAllArms(g, c)
    ensures var rows := RowsOf(g, truths, projections, order);
      && Count(rows, FixedWrong()) == Count(rows, FixedFailed()) + Count(rows, FixedCompletedWrong())
      && Count(rows, FixedAbsent()) == Count(rows, FixedBlamedOnCoverage())
      && Count(rows, FixedAbsent()) + Count(rows, FixedMultiple()) <= Count(rows, FixedCompletedWrong())
  {
    var rows := RowsOf(g, truths, projections, order);
    CountSplit(rows, FixedWrong(), FixedFailed(), FixedCompletedWrong());
    CausesFollowRows(g, truths, projections, order);
    CountSame(rows, FixedAbsent(), FixedBlamedOnCoverage());
    CountSplit(rows, FixedCompletedWrong(), FixedAbsent(), FixedCovered());
    CountMonotone(rows, FixedMultiple(), FixedCovered());
  }

  ghost function FixedCovered(): CaseRow -> bool { (r: CaseRow) => r.arm == Fixed && !r.right && r.completed && r.covering >= 1 }

  lemma {:induction false} CausesFollowRows(g: Grouped, truths: Truths, projections: map<string, Projection>, order: seq<string>)
    requires forall c :: c in order ==> HasAllArms(g, c)
    ensures forall r :: r in RowsOf(g, truths, projections, order) ==>
              (r.cause == CoverageFailure <==> !r.right && r.completed && r.covering == 0)
  {
    hide Groups, ServiceRight;
    if order != [] {
      var n := |order| - 1;
      CausesFollowRows(g, truths, projections, order[..n]);
      CausesFollowThree(g, truths, projections, order[n]);
      hide RowOf, ThreeRows;
    }
  }

  lemma CausesFollowThree(g: Grouped, truths: Truths, projections: map<string, Projection>, c: string)
    requires HasAllArms(g, c)
    ensures forall r :: r in ThreeRows(g, truths, projections, c) ==>
              (r.cause == CoverageFailure <==> !r.right && r.completed && r.covering == 0)
  {
    hide RowOf;
    forall r: Record {
      CauseFollowsRow(truths, projections, r);
    }
  }

  lemma CauseFollowsRow(truths: Truths, projections: map<string, Projection>, r: Record)
    ensures var row := RowOf(truths, projections, r);
      row.cause == CoverageFailure <==> !row.right && row.completed && row.covering == 0
  {
  }

  // ----- the confusion matrix -----

  /** The predicted indicator; `None` is the column NO_DIAGNOSIS. */
  function Predicted(g: Grouped, c: string, arm: Arm): Option<Indicator> {
    if c in g.arms && arm in g.arms[c] && g.arms[c][arm].diagnosis.Some? then Some(g.arms[c][arm].diagnosis.value.indicator)
    else None
  }

  ghost function InEntry(g: Grouped, truths: Truths, arm: Arm, truth: Indicator, predicted: Option<Indicator>): string -> bool {
    (c: string) => IsOfIndicator(truths, truth)(c) && Predicted(g, c, arm) == predicted
  }

  ghost function IsOfIndicator(truths: Truths, truth: Indicator): string -> bool {
    (c: string) => c in truths && NormalizeIndicator(truths[c].fault) == truth
  }

  type Matrix = map<(Indicator, Option<Indicator>), nat>

  function Entry(m: Matrix, truth: Indicator, predicted: Option<Indicator>): nat {
    if (truth, predicted) in m then m[(truth, predicted)] else 0
  }

  method Confusion(g: Grouped, truths: Truths, arm: Arm) returns (matrix: Matrix)
    requires forall c :: c in g.order ==> c in truths
    ensures forall t, p :: Entry(matrix, t, p) == Count(g.order, InEntry(g, truths, arm, t, p))
  {
    matrix := map[];
    for i := 0 to |g.order|
      invariant forall t, p :: Entry(matrix, t, p) == Count(g.order[..i], InEntry(g, truths, arm, t, p))
    {
      var c := g.order[i];
      assert c in g.order;
      var truth, predicted := NormalizeIndicator(truths[c].fault), Predicted(g, c, arm);
      ghost var before := matrix;
      matrix := matrix[(truth, predicted) := Entry(matrix, truth, predicted) + 1];
      forall t, p ensures Entry(matrix, t, p) == Count(g.order[..i + 1], InEntry(g, truths, arm, t, p)) {
        CountStep(g.order, i, InEntry(g, truths, arm, t, p));
        assert Entry(matrix, t, p) == Entry(before, t, p) + Bit(t == truth && p == predicted);
        assert IsOfIndicator(truths, t)(c) <==> t == truth;
        assert InEntry(g, truths, arm, t, p)(g.order[i]) <==> t == truth && p == predicted;
      }
    }
    assert g.order[..|g.order|] == g.order;
  }

  /** Each row of the matrix, over the five indicators and NO_DIAGNOSIS, sums to its indicator's cases. */
  lemma {:induction false} ConfusionRowSums(order: seq<string>, g: Grouped, truths: Truths, arm: Arm, truth: Indicator)
    ensures Count(order, InEntry(g, truths, arm, truth, Some(Cpu))) + Count(order, InEntry(g, truths, arm, truth, Some(Mem)))
          + Count(order, InEntry(g, truths, arm, truth, Some(Diskio))) + Count(order, InEntry(g, truths, arm, truth, Some(Latency)))
          + Count(order, InEntry(g, truths, arm, truth, Some(Socket))) + Count(order, InEntry(g, truths, arm, truth, None))
         == Count(order, IsOfIndicator(truths, truth))
  {
    hide InEntry, IsOfIndicator;
    if order != [] {
      ConfusionRowSums(order[..|order| - 1], g, truths, arm, truth);
      OneColumn(g, truths, arm, truth, order[|order| - 1]);
    }
  }

  lemma OneColumn(g: Grouped, truths: Truths, arm: Arm, truth: Indicator, c: string)
    ensures Bit(InEntry(g, truths, arm, truth, Some(Cpu))(c)) + Bit(InEntry(g, truths, arm, truth, Some(Mem))(c))
          + Bit(InEntry(g, truths, arm, truth, Some(Diskio))(c)) + Bit(InEntry(g, truths, arm, truth, Some(Latency))(c))
          + Bit(InEntry(g, truths, arm, truth, Some(Socket))(c)) + Bit(InEntry(g, truths, arm, truth, None)(c))
         == Bit(IsOfIndicator(truths, truth)(c))
  {
    hide Predicted;
    var predicted := Predicted(g, c, arm);
    if predicted.Some? {
      match predicted.value
      case Cpu =>
      case Mem =>
      case Diskio =>
      case Latency =>
      case Socket =>
    }
  }
}
