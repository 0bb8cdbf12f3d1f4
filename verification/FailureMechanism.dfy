/**
 Why a row ended with the wrong root: evidence sufficiency first, then one primary mechanism in
 the order retrieval, gate, source, message, model, Fusion.
 */
module FailureMechanism {
  import opened Wrappers
  import opened Counting
  import opened AuditRow
  import opened MetricsRanking
  import opened Fusion
  import opened Frontier

  datatype Sufficiency =
    | LogsAndTraceCanCompare
    | LogsCanCompare
    | TraceCanCompare
    | NoSpecialistSourceCanCompare
    | MetricsOnlySufficient

  datatype Mechanism =
    | IndicatorOnlyFailure
    | NoActionableAlternative
    | CandidateNotRetrieved
    | GateMissedError
    | WrongSourceSelected
    | SourceSignalAbsent
    | AlternativeNotVisible
    | ReasoningError
    | CausalRoleMisclassified
    | EvidenceRoleMisclassified
    | FusionOverconstrained
    | FusionCorrectlyRejected

  predicate CanCompare(row: Row, evidence: seq<Evidence>) {
    {row.initial, row.truth} <= Services(evidence)
  }

  function ClassifySufficiency(row: Row): Result<Sufficiency> {
    if RankOf(row.truth, row.ranking).None? then Raised
    else if CanCompare(row, row.logs) && CanCompare(row, row.traces) then Ok(LogsAndTraceCanCompare)
    else if CanCompare(row, row.logs) then Ok(LogsCanCompare)
    else if CanCompare(row, row.traces) then Ok(TraceCanCompare)
    else if AlternativeService(row) == Some(row.truth) then Ok(NoSpecialistSourceCanCompare)
    else Ok(MetricsOnlySufficient)
  }

  /** `_free_has_correct_alternative` */
  predicate FreeNamesTruth(row: Row, fusionReady: bool) {
    exists h :: h in row.hypotheses && h.service == row.truth && (fusionReady ==> h.causalRole == ROOT && h.supporting != [])
  }

  /** `_pairwise_has_correct_preference` */
  predicate PairwisePrefersTruth(row: Row) {
    row.verification.Some? && row.verification.value.preference == "ALTERNATIVE" && AlternativeService(row) == Some(row.truth)
  }

  function Classify(row: Row): Result<Mechanism> {
    if row.initial == row.truth then
      Ok(if row.initialIndicator != row.truthIndicator then IndicatorOnlyFailure else NoActionableAlternative)
    else if RankOf(row.truth, row.ranking).None? then Ok(CandidateNotRetrieved)
    else if row.route == DirectReturn then Ok(GateMissedError)
    else
      match ClassifySufficiency(row)
      case Raised => Raised
      case Ok(sufficiency) => Ok(ClassifyVerified(row, sufficiency))
  }

  /** The part after the source check, for a row whose Specialist was called. */
  function ClassifyVerified(row: Row, sufficiency: Sufficiency): Mechanism {
    var logs := sufficiency.LogsCanCompare? || sufficiency.LogsAndTraceCanCompare?;
    var trace := sufficiency.TraceCanCompare? || sufficiency.LogsAndTraceCanCompare?;
    if row.route == VerifyLogs && !logs then if trace then WrongSourceSelected else SourceSignalAbsent
    else if row.route == VerifyTraces && !trace then if logs then WrongSourceSelected else SourceSignalAbsent
    else if row.route == VerifyBoth && !(logs || trace) then SourceSignalAbsent
    else if row.candidate == "candidate-4" then
      var visible := Services(if row.route == VerifyTraces then row.traces else row.logs) + {row.initial};
      if AlternativeService(row).None? || AlternativeService(row).value !in visible then AlternativeNotVisible
      else if !FreeNamesTruth(row, false) then ReasoningError
      else if !FreeNamesTruth(row, true) then CausalRoleMisclassified
      else ClassifyFusion(row)
    else if !PairwisePrefersTruth(row) then ReasoningError
    else if row.verification.Some? && row.verification.value.alternativeRole != ROOT then CausalRoleMisclassified
    else if row.verification.Some? && row.verification.value.supporting == [] then EvidenceRoleMisclassified
    else ClassifyFusion(row)
  }

  function ClassifyFusion(row: Row): Mechanism {
    if row.finalService == row.truth then NoActionableAlternative
    else if F1Overrides(row) && AlternativeService(row) == Some(row.truth) then FusionOverconstrained
    else FusionCorrectlyRejected
  }

  /** The retrieval test above it shields the sufficiency function's error: every row gets a mechanism. */
  lemma ClassifyNeverRaises(row: Row)
    ensures Classify(row).Ok?
    ensures ClassifySufficiency(row).Raised? <==> !InRanking(row.truth, row.ranking)
  {
  }

  /** A source the route asked can tell the Initial from the truth. */
  ghost predicate SourceCompares(row: Row) {
    match row.route
    case DirectReturn => false
    case VerifyLogs => CanCompare(row, row.logs)
    case VerifyTraces => CanCompare(row, row.traces)
    case VerifyBoth => CanCompare(row, row.logs) || CanCompare(row, row.traces)
  }

  /**
   On a pairwise row Fusion is never cleared as correct; it is blamed exactly when the source
   could compare and the relaxed rule F1 would have taken the true root that the row missed.
   */
  lemma FusionBlameOnPairwiseRows(row: Row)
    requires row.candidate != "candidate-4"
    ensures Classify(row) != Ok(FusionCorrectlyRejected)
    ensures Classify(row) == Ok(FusionOverconstrained) <==>
              && row.initial != row.truth && row.finalService != row.truth
              && InRanking(row.truth, row.ranking) && SourceCompares(row)
              && F1Overrides(row) && AlternativeService(row) == Some(row.truth)
  {
  }

  /** Without a pairwise output F1 cannot fire, so Fusion is never called overconstrained. */
  lemma NoBlameWithoutPairwise(row: Row)
    requires row.verification.None?
    ensures Classify(row) != Ok(FusionOverconstrained)
  {
  }

  /**
   Each row blamed on Fusion is one the F1 frontier rescues. If it holds the replayed root, the F0
   frontier counts it right exactly when the replay overrides to some other wrong root, which
   takes the free Specialist path; on a row loaded from its ranking, exactly when it diverges.
   */
  lemma BlamedRowIsAnF1Rescue(rows: seq<Row>, row: Row)
    requires UniqueKeys(rows) && row in rows && Classify(row) == Ok(FusionOverconstrained)
    ensures IsRescue(DecidedBy(rows, ByF1()))(row) && IsCorrect(DecidedBy(rows, ByF1()))(row)
    ensures row.finalService == ReplayedFinal(row) ==>
              && (CountedFinal(row) == row.truth <==> Overrides(row))
              && (Overrides(row) ==> FreePath(row))
              && (FromRanking(row) ==> (CountedFinal(row) == row.truth <==> Diverges(row)))
  {
    BlamedRowFacts(row);
    UniqueKeysDecide(rows, ByF1());
    OverridesExactly(row);
    if FromRanking(row) {
      CountedIsReplayedExactly(row);
    }
    hide Classify, F1Overrides, ReplayFusion, FromRanking, Diverges, InRanking, FreePath, StrongServices;
  }

  lemma BlamedRowFacts(row: Row)
    requires Classify(row) == Ok(FusionOverconstrained)
    ensures row.initial != row.truth && row.finalService != row.truth
    ensures F1Overrides(row) && AlternativeService(row) == Some(row.truth)
  {
  }

  ghost function IsBlamedOnFusion(): Row -> bool { (row: Row) => Classify(row) == Ok(FusionOverconstrained) }

  /** So the rows blamed on Fusion are no more than the rescues the F1 frontier reports. */
  lemma BlameIsBoundedByF1(rows: seq<Row>)
    requires UniqueKeys(rows)
    ensures Count(rows, IsBlamedOnFusion()) <= FrontierOf(rows, DecidedBy(rows, ByF1())).rescue
  {
    forall row | row in rows && Classify(row) == Ok(FusionOverconstrained)
      ensures IsRescue(DecidedBy(rows, ByF1()))(row)
    {
      BlamedRowIsAnF1Rescue(rows, row);
    }
    CountMonotone(rows, IsBlamedOnFusion(), IsRescue(DecidedBy(rows, ByF1())));
  }
}
