/** One row of the multi-agent communication audit, with its fields typed. */
module AuditRow {
  import opened Wrappers

  datatype Route = DirectReturn | VerifyLogs | VerifyTraces | VerifyBoth

  datatype Ranked = Ranked(service: string, score: real)

  datatype Alternative = Alternative(service: string, rank: nat, score: real, initialRank: Option<nat>, margin: real)

  /** What the Logs pairwise verifier answered. */
  datatype Verification = Verification(
    preference: string, initialRole: string, alternativeRole: string,
    supporting: seq<string>, contradicting: seq<string>)

  /** One hypothesis of a free Specialist. */
  datatype Hypothesis = Hypothesis(
    source: string, service: string, causalRole: string, score: real,
    supporting: seq<string>, contradicting: seq<string>)

  datatype Evidence = Evidence(ref: string, service: string)

  datatype Row = Row(
    key: string, candidate: string,
    initial: string, truth: string, finalService: string,
    initialIndicator: string, truthIndicator: string,
    ranking: seq<Ranked>, alternative: Option<Alternative>,
    route: Route, unstable: bool,
    hypotheses: seq<Hypothesis>, verification: Option<Verification>,
    logs: seq<Evidence>, traces: seq<Evidence>)

  /** `_rank_of`: the place of a service in a ranking, counted from one. */
  function RankOf(service: string, ranking: seq<Ranked>): (rank: Option<nat>)
    ensures rank.Some? <==> exists i :: 0 <= i < |ranking| && ranking[i].service == service
    ensures rank.Some? ==>
              && 1 <= rank.value <= |ranking| && ranking[rank.value - 1].service == service
              && forall i :: 0 <= i < rank.value - 1 ==> ranking[i].service != service
  {
    if ranking == [] then None
    else if ranking[0].service == service then Some(1)
    else
      match RankOf(service, ranking[1..])
      case None => None
      case Some(rank) => Some(rank + 1)
  }

  ghost predicate Distinct(ranking: seq<Ranked>) {
    forall i, j :: 0 <= i < j < |ranking| ==> ranking[i].service != ranking[j].service
  }

  ghost predicate InRanking(service: string, ranking: seq<Ranked>) {
    exists i :: 0 <= i < |ranking| && ranking[i].service == service
  }

  function Services(evidence: seq<Evidence>): set<string> {
    set e | e in evidence :: e.service
  }

  function References(evidence: seq<Evidence>): set<string> {
    set e | e in evidence :: e.ref
  }

  function AlternativeService(row: Row): Option<string> {
    if row.alternative.Some? then Some(row.alternative.value.service) else None
  }
}
