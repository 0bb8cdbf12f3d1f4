/**
 The deterministic root Fusion of Candidate 5, replayed from an audit row, and the
 counterfactual override rules F1, F2 and F3 beside it.
 */
module Fusion {
  import opened Wrappers
  import opened AuditRow
  import opened MetricsRanking

  const ROOT := "ROOT_CANDIDATE"
  const SYMPTOM := "PROPAGATED_SYMPTOM"

  /** The reason the program gives for a decision. */
  datatype Reason =
    | InitialNotUnstable
    | NoSingleStrongAlternative
    | SpecialistAlternativesConflict
    | InitialNotExplicitlyContradicted
    | LogsPairwiseInconclusive
    | BothSourcesAgreeOverride
    | BothSourcesDoNotAgree
    | LogsPairwiseAlternativeOverride
    | LogsPairwiseInitial
    | LogsPairwiseAltLacksRootRole
    | LogsPairwiseAltLacksSupport
    | LogsPairwiseInitialNotContradicted
    | LogsPairwiseRefNotVisible
    | KeepDirect
    | NoMetricsAlternative
    | TraceAlternativeOverride
    | StrongAuthorizedAlternative

  /** How the replay ends. `Unhandled`: the source's assertion fires. */
  datatype Replay = Decision(override: bool, final: string, reason: Reason) | Unhandled

  function Keep(row: Row, reason: Reason): Replay {
    Decision(false, row.initial, reason)
  }

  function Cited(v: Verification): set<string> {
    (set r | r in v.supporting) + (set r | r in v.contradicting)
  }

  /** `_pairwise_currently_authorizes` */
  predicate PairwiseAuthorizes(row: Row) {
    && row.verification.Some?
    && var v := row.verification.value;
       && v.preference == "ALTERNATIVE" && v.alternativeRole == ROOT && v.supporting != []
       && (v.initialRole == SYMPTOM || v.contradicting != [])
       && Cited(v) <= References(row.logs)
  }

  /** `_f1_override` */
  predicate F1Overrides(row: Row) {
    && row.verification.Some?
    && var v := row.verification.value;
       v.preference == "ALTERNATIVE" && v.alternativeRole == ROOT && v.supporting != []
  }

  /** `_f2_override`: at the margin the Metrics rule M2 asks for. */
  predicate F2Overrides(row: Row) {
    && row.verification.Some? && row.verification.value.preference == "ALTERNATIVE"
    && row.verification.value.supporting != []
    && MetricsRule(row.alternative, M2)
  }

  /** `_f3_override` */
  predicate F3Overrides(row: Row) {
    && row.alternative.Some? && row.alternative.value.service != ""
    && exists h :: h in row.hypotheses && h.source == "traces" && SupportsRoot(h, row.alternative.value.service)
  }

  predicate SupportsRoot(h: Hypothesis, service: string) {
    h.service == service && h.causalRole == ROOT && h.supporting != []
  }

  // ----- the free Specialist path -----

  function TopTwo(ranking: seq<Ranked>): set<string> {
    set i | 0 <= i < |ranking| && i < 2 :: ranking[i].service
  }

  /** The services the free Specialists put forward strongly enough. */
  function StrongServices(row: Row): set<string> {
    set h | h in row.hypotheses && IsStrong(row, h) :: h.service
  }

  predicate IsStrong(row: Row, h: Hypothesis) {
    && h.causalRole == ROOT && h.service != row.initial && h.service in TopTwo(row.ranking)
    && h.score >= 0.95 && h.supporting != []
  }

  predicate ContradictsInitial(row: Row, h: Hypothesis) {
    && h.service == row.initial
    && (h.contradicting != [] || (h.causalRole == SYMPTOM && h.supporting != []))
  }

  predicate InitialContradicted(row: Row) {
    exists h :: h in row.hypotheses && ContradictsInitial(row, h)
  }

  ghost function TheOne(services: set<string>): (service: string)
    requires |services| == 1
    ensures services == {service}
  {
    var s :| s in services;
    OnlyElement(services, s);
    s
  }

  lemma OnlyElement(services: set<string>, s: string)
    requires |services| == 1 && s in services
    ensures services == {s}
  {
    assert |services - {s}| == 0;
  }

  ghost function ReplayFree(row: Row, reason: Reason): Replay {
    if row.route == DirectReturn || !row.unstable then Keep(row, InitialNotUnstable)
    else
      var services := StrongServices(row);
      if |services| != 1 then
        Keep(row, if services == {} then NoSingleStrongAlternative else SpecialistAlternativesConflict)
      else if !InitialContradicted(row) then Keep(row, InitialNotExplicitlyContradicted)
      else Decision(true, TheOne(services), reason)
  }

  // ----- the pairwise and both-sources paths -----

  predicate TraceAgrees(row: Row, alternative: string) {
    exists h :: h in row.hypotheses && h.source == "traces" && SupportsRoot(h, alternative) && h.score >= 0.95
  }

  function ReplayBoth(row: Row, alternative: string): Replay {
    if row.verification.None? then Keep(row, LogsPairwiseInconclusive)
    else if PairwiseAuthorizes(row) && TraceAgrees(row, alternative) then
      Decision(true, alternative, BothSourcesAgreeOverride)
    else Keep(row, BothSourcesDoNotAgree)
  }

  function ReplayPairwise(row: Row, alternative: string): Replay
    requires row.verification.Some?
  {
    var v := row.verification.value;
    if PairwiseAuthorizes(row) then Decision(true, alternative, LogsPairwiseAlternativeOverride)
    else if v.preference == "INITIAL" then Keep(row, LogsPairwiseInitial)
    else if v.preference == "INCONCLUSIVE" then Keep(row, LogsPairwiseInconclusive)
    else if v.alternativeRole != ROOT then Keep(row, LogsPairwiseAltLacksRootRole)
    else if v.supporting == [] then Keep(row, LogsPairwiseAltLacksSupport)
    else if !(v.initialRole == SYMPTOM || v.contradicting != []) then Keep(row, LogsPairwiseInitialNotContradicted)
    else if !(Cited(v) <= References(row.logs)) then Keep(row, LogsPairwiseRefNotVisible)
    else Unhandled
  }

  /** `replay_current_fusion` */
  ghost function ReplayFusion(row: Row): Replay {
    if row.route == DirectReturn then
      Keep(row, if row.candidate == "candidate-5" then KeepDirect else InitialNotUnstable)
    else if !row.unstable then Keep(row, InitialNotUnstable)
    else if row.alternative.None? then Keep(row, NoMetricsAlternative)
    else
      match row.route
      case VerifyTraces => ReplayFree(row, TraceAlternativeOverride)
      case VerifyBoth => ReplayBoth(row, row.alternative.value.service)
      case VerifyLogs =>
        if row.verification.Some? then ReplayPairwise(row, row.alternative.value.service)
        else ReplayFree(row, StrongAuthorizedAlternative)
  }

  ghost predicate Overrides(row: Row) {
    ReplayFusion(row).Decision? && ReplayFusion(row).override
  }

  /** The row's alternative is the one its ranking proposes, as loading the row ensures. */
  ghost predicate FromRanking(row: Row) {
    && Distinct(row.ranking)
    && match AlternativeFromRanking(row.initial, row.ranking)
       case None => row.alternative.None?
       case Some(a) => row.alternative.Some? && row.alternative.value.service == a.service && row.alternative.value.rank == a.rank
  }

  /** The replay takes the free Specialist path. */
  predicate FreePath(row: Row) {
    row.route == VerifyTraces || (row.route == VerifyLogs && row.verification.None?)
  }

  /** When Fusion overrides, exactly. */
  lemma OverridesExactly(row: Row)
    ensures Overrides(row) <==>
              && row.route != DirectReturn && row.unstable && row.alternative.Some?
              && if FreePath(row) then |StrongServices(row)| == 1 && InitialContradicted(row)
                 else PairwiseAuthorizes(row) && (row.route == VerifyBoth ==> TraceAgrees(row, row.alternative.value.service))
    ensures Overrides(row) ==>
              if FreePath(row) then StrongServices(row) == {ReplayFusion(row).final}
              else ReplayFusion(row).final == row.alternative.value.service
  {
  }

  /** Every override leaves an unstable Initial for another service of the Metrics ranking. */
  lemma OverridesAreGrounded(row: Row)
    requires FromRanking(row) && Overrides(row)
    ensures row.unstable && row.route != DirectReturn && row.alternative.Some?
    ensures ReplayFusion(row).final != row.initial && InRanking(ReplayFusion(row).final, row.ranking)
    ensures !FreePath(row) ==> F1Overrides(row)
  {
    var final := ReplayFusion(row).final;
    OverridesExactly(row);
    AlternativeIsFirstOrSecond(row.initial, row.ranking);
    if FreePath(row) {
      assert final in StrongServices(row);
    }
  }

  /**
   An override off the free path satisfies F1; it satisfies F2 exactly when the Metrics rule M2
   fires, and F3 too when both sources were asked.
   */
  lemma PairwiseOverridesMeetTheRules(row: Row)
    requires Overrides(row) && !FreePath(row)
    ensures F1Overrides(row)
    ensures F2Overrides(row) <==> MetricsRule(row.alternative, M2)
    ensures row.route == VerifyBoth && row.alternative.value.service != "" ==> F3Overrides(row)
  {
    OverridesExactly(row);
    hide ReplayFusion;
  }

  /** The reason of a decision tells whether it overrides, and on which route and from which output. */
  lemma ReasonTellsThePath(row: Row)
    requires ReplayFusion(row).Decision?
    ensures var d := ReplayFusion(row);
      && (!d.override ==> d.final == row.initial)
      && (d.reason == TraceAlternativeOverride <==> d.override && row.route == VerifyTraces)
      && (d.reason == StrongAuthorizedAlternative <==> d.override && row.route == VerifyLogs && row.verification.None?)
      && (d.reason == LogsPairwiseAlternativeOverride <==> d.override && row.route == VerifyLogs && row.verification.Some?)
      && (d.reason == BothSourcesAgreeOverride <==> d.override && row.route == VerifyBoth)
  {
    hide StrongServices, InitialContradicted, PairwiseAuthorizes, TraceAgrees, Cited, References;
  }

  predicate LegalPreference(preference: string) {
    preference == "INITIAL" || preference == "ALTERNATIVE" || preference == "INCONCLUSIVE"
  }

  /**
   The assertion about an authorizing pairwise output fires exactly for a preference outside
   the three legal ones that passes every other test; for a legal preference it cannot.
   */
  lemma UnhandledExactly(row: Row)
    ensures ReplayFusion(row).Unhandled? <==>
              && row.route == VerifyLogs && row.unstable && row.alternative.Some? && row.verification.Some?
              && var v := row.verification.value;
                 && !LegalPreference(v.preference)
                 && v.alternativeRole == ROOT && v.supporting != []
                 && (v.initialRole == SYMPTOM || v.contradicting != [])
                 && Cited(v) <= References(row.logs)
  {
  }

  // ----- what the frontier counts as Fusion's target -----

  /** The frontier takes the Metrics alternative for the root of every override. */
  ghost function CountedFinal(row: Row): string {
    if Overrides(row) && row.alternative.Some? then row.alternative.value.service else row.initial
  }

  ghost function ReplayedFinal(row: Row): string {
    if ReplayFusion(row).Decision? then ReplayFusion(row).final else row.initial
  }

  /**
   A row on which the two differ: a free Specialist override of an Initial outside the two best
   services, towards the second best. All of it can be read off the row before the replay.
   */
  ghost predicate Diverges(row: Row) {
    && FreePath(row) && row.unstable && InitialContradicted(row)
    && |row.ranking| >= 2 && !InTopTwo(row.initial, row.ranking)
    && StrongServices(row) == {row.ranking[1].service}
  }

  lemma TopTwoIs(row: Row)
    ensures |row.ranking| >= 2 ==> TopTwo(row.ranking) == {row.ranking[0].service, row.ranking[1].service}
    ensures |row.ranking| == 1 ==> TopTwo(row.ranking) == {row.ranking[0].service}
  {
  }

  /** The counted target is the replayed one on all rows but those. */
  lemma CountedIsReplayedExactly(row: Row)
    requires FromRanking(row)
    ensures CountedFinal(row) == ReplayedFinal(row) <==> !Diverges(row)
  {
    OverridesExactly(row);
    AlternativeIsFirstOrSecond(row.initial, row.ranking);
    TopTwoIs(row);
    if Overrides(row) && FreePath(row) {
      assert ReplayFusion(row).final in StrongServices(row);
    }
    if Diverges(row) {
      assert row.ranking[0].service != row.initial;
      assert |StrongServices(row)| == 1;
      assert row.ranking[0].service != row.ranking[1].service;
    }
  }
}
