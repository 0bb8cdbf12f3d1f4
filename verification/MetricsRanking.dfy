/** The Metrics ranking of services, its margin, and the alternative root it proposes. */
module MetricsRanking {
  import opened Wrappers
  import opened AuditRow

  datatype Candidate = Candidate(service: string, score: real)

  const RANKING_LIMIT: nat := 6

  /** No earlier candidate names the same service. */
  ghost predicate IsFirst(candidates: seq<Candidate>, i: nat)
    requires i < |candidates|
  {
    forall j :: 0 <= j < i ==> candidates[j].service != candidates[i].service
  }

  /** The places, in order, where a service is named for the first time. */
  ghost function Firsts(candidates: seq<Candidate>, n: nat): (places: seq<nat>)
    requires n <= |candidates|
    ensures forall k :: 0 <= k < |places| ==> places[k] < n && IsFirst(candidates, places[k])
    ensures forall k, m :: 0 <= k < m < |places| ==> places[k] < places[m]
    ensures forall i :: 0 <= i < n && IsFirst(candidates, i) ==> i in places
  {
    if n == 0 then [] else Firsts(candidates, n - 1) + if IsFirst(candidates, n - 1) then [n - 1] else []
  }

  ghost function RankedAt(candidates: seq<Candidate>, places: seq<nat>): (ranking: seq<Ranked>)
    requires forall k :: 0 <= k < |places| ==> places[k] < |candidates|
    ensures |ranking| == |places|
    ensures forall k :: 0 <= k < |places| ==>
              ranking[k] == Ranked(candidates[places[k]].service, candidates[places[k]].score)
  {
    seq(|places|, k requires 0 <= k < |places| => Ranked(candidates[places[k]].service, candidates[places[k]].score))
  }

  /** The first six distinct services, each with the score it has where it first appears. */
  ghost function TopServices(candidates: seq<Candidate>): seq<Ranked> {
    var places := Firsts(candidates, |candidates|);
    RankedAt(candidates, places[..if |places| < RANKING_LIMIT then |places| else RANKING_LIMIT])
  }

  lemma {:induction false} FirstsGrow(candidates: seq<Candidate>, m: nat, n: nat)
    requires m <= n <= |candidates|
    ensures Firsts(candidates, m) <= Firsts(candidates, n)
  {
    hide IsFirst;
    if m < n {
      FirstsGrow(candidates, m, n - 1);
    }
  }

  /** A service has been seen exactly when its first place is listed. */
  lemma SeenIsListed(candidates: seq<Candidate>, n: nat, service: string)
    requires n <= |candidates|
    ensures (exists j :: 0 <= j < n && candidates[j].service == service)
       <==> exists k :: 0 <= k < |Firsts(candidates, n)| && candidates[Firsts(candidates, n)[k]].service == service
  {
    if j :| 0 <= j < n && candidates[j].service == service {
      var i := LeastPlace(candidates, n, service);
      assert i in Firsts(candidates, n);
    }
  }

  lemma {:induction false} LeastPlace(candidates: seq<Candidate>, n: nat, service: string) returns (i: nat)
    requires n <= |candidates| && exists j :: 0 <= j < n && candidates[j].service == service
    ensures i < n && candidates[i].service == service && IsFirst(candidates, i)
  {
    var j :| 0 <= j < n && candidates[j].service == service;
    if exists m :: 0 <= m < j && candidates[m].service == service {
      i := LeastPlace(candidates, j, service);
    } else {
      i := j;
    }
  }

  ghost predicate Names(seen: set<string>, output: seq<Ranked>) {
    forall s :: s in seen <==> InRanking(s, output)
  }

  ghost function RankedSoFar(candidates: seq<Candidate>, n: nat): seq<Ranked>
    requires n <= |candidates|
  {
    RankedAt(candidates, Firsts(candidates, n))
  }

  lemma OneMoreCandidate(candidates: seq<Candidate>, i: nat)
    requires i < |candidates|
    ensures InRanking(candidates[i].service, RankedSoFar(candidates, i)) <==> !IsFirst(candidates, i)
    ensures RankedSoFar(candidates, i + 1)
         == RankedSoFar(candidates, i)
            + if IsFirst(candidates, i) then [Ranked(candidates[i].service, candidates[i].score)] else []
  {
    SeenIsRanked(candidates, i);
    hide IsFirst, InRanking;
  }

  lemma SeenIsRanked(candidates: seq<Candidate>, i: nat)
    requires i < |candidates|
    ensures InRanking(candidates[i].service, RankedSoFar(candidates, i)) <==> !IsFirst(candidates, i)
  {
    SeenIsListed(candidates, i, candidates[i].service);
    hide Firsts;
    var places, ranking := Firsts(candidates, i), RankedSoFar(candidates, i);
    if k :| 0 <= k < |places| && candidates[places[k]].service == candidates[i].service {
      assert ranking[k].service == candidates[i].service;
    }
  }

  lemma NamesGrow(seen: set<string>, output: seq<Ranked>, more: Ranked)
    requires Names(seen, output)
    ensures Names(seen + {more.service}, output + [more])
  {
    var longer := output + [more];
    forall s ensures InRanking(s, longer) <==> InRanking(s, output) || s == more.service {
      if i :| 0 <= i < |output| && output[i].service == s {
        assert longer[i].service == s;
      }
      assert longer[|output|].service == more.service;
    }
  }

  lemma TheFirstSix(candidates: seq<Candidate>, n: nat)
    requires n <= |candidates|
    ensures |RankedSoFar(candidates, n)| == RANKING_LIMIT ==> RankedSoFar(candidates, n) == TopServices(candidates)
    ensures n == |candidates| && |RankedSoFar(candidates, n)| < RANKING_LIMIT ==>
              RankedSoFar(candidates, n) == TopServices(candidates)
  {
    FirstsGrow(candidates, n, |candidates|);
  }

  method ServiceRanking(candidates: seq<Candidate>) returns (output: seq<Ranked>)
    ensures output == TopServices(candidates)
  {
    hide Firsts, RankedSoFar, TopServices, InRanking, IsFirst, Names;
    output := [];
    var seen: set<string> := {};
    assert RankedSoFar(candidates, 0) == [] && Names({}, []) by {
      NothingRanked(candidates);
    }
    for i := 0 to |candidates|
      invariant output == RankedSoFar(candidates, i) && |output| < RANKING_LIMIT && Names(seen, output)
    {
      var service := candidates[i].service;
      OneMoreCandidate(candidates, i);
      assert service in seen <==> InRanking(service, output) by {
        NamesMember(seen, output, service);
      }
      if service in seen {
        continue;
      }
      NamesGrow(seen, output, Ranked(service, candidates[i].score));
      output := output + [Ranked(service, candidates[i].score)];
      seen := seen + {service};
      if |output| == RANKING_LIMIT {
        TheFirstSix(candidates, i + 1);
        return;
      }
    }
    TheFirstSix(candidates, |candidates|);
  }

  lemma NothingRanked(candidates: seq<Candidate>)
    ensures RankedSoFar(candidates, 0) == [] && Names({}, [])
  {
  }

  lemma NamesMember(seen: set<string>, output: seq<Ranked>, service: string)
    requires Names(seen, output)
    ensures service in seen <==> InRanking(service, output)
  {
  }

  /** The ranking names each service once, in the order of first appearance, and stops at six. */
  lemma RankingIsDistinct(candidates: seq<Candidate>)
    ensures |TopServices(candidates)| <= RANKING_LIMIT
    ensures Distinct(TopServices(candidates))
    ensures |TopServices(candidates)| < RANKING_LIMIT ==>
              forall i :: 0 <= i < |candidates| ==> InRanking(candidates[i].service, TopServices(candidates))
  {
    var places, ranking := Firsts(candidates, |candidates|), TopServices(candidates);
    forall i, j | 0 <= i < j < |ranking| ensures ranking[i].service != ranking[j].service {
      assert IsFirst(candidates, places[j]) && places[i] < places[j];
    }
    if |ranking| < RANKING_LIMIT {
      forall i | 0 <= i < |candidates| ensures InRanking(candidates[i].service, ranking) {
        SeenIsListed(candidates, |candidates|, candidates[i].service);
        var k :| 0 <= k < |places| && candidates[places[k]].service == candidates[i].service;
        assert ranking[k].service == candidates[i].service;
      }
    }
  }

  /** Candidates listed best first give a ranking listed best first. */
  lemma RankingDescends(candidates: seq<Candidate>)
    requires forall i, j :: 0 <= i < j < |candidates| ==> candidates[i].score >= candidates[j].score >= 0.0
    requires forall i :: 0 <= i < |candidates| ==> candidates[i].score >= 0.0
    ensures NonNegativeDescending(TopServices(candidates))
  {
    var places, ranking := Firsts(candidates, |candidates|), TopServices(candidates);
    forall i, j | 0 <= i < j < |ranking| ensures ranking[i].score >= ranking[j].score {
      assert places[i] < places[j];
    }
  }

  ghost predicate NonNegativeDescending(ranking: seq<Ranked>) {
    && (forall i :: 0 <= i < |ranking| ==> ranking[i].score >= 0.0)
    && (forall i, j :: 0 <= i < j < |ranking| ==> ranking[i].score >= ranking[j].score)
  }

  function Abs(x: real): real {
    if x < 0.0 then -x else x
  }

  function Max(x: real, y: real): real {
    if x < y then y else x
  }

  const EPSILON: real := 0.000000000001

  /** How far the best service stands out, relative to its score. */
  function NormalizedMargin(ranking: seq<Ranked>): real {
    if |ranking| < 2 then 1.0
    else Max(0.0, (ranking[0].score - ranking[1].score) / Max(Abs(ranking[0].score), EPSILON))
  }

  lemma MarginIsAFraction(ranking: seq<Ranked>)
    requires NonNegativeDescending(ranking)
    ensures 0.0 <= NormalizedMargin(ranking) <= 1.0
  {
    if |ranking| >= 2 {
      var gap, scale := ranking[0].score - ranking[1].score, Max(Abs(ranking[0].score), EPSILON);
      assert 0.0 <= gap <= scale && scale > 0.0;
      FractionOf(gap, scale);
    }
  }

  lemma FractionOf(part: real, whole: real)
    requires 0.0 <= part <= whole && whole > 0.0
    ensures 0.0 <= part / whole <= 1.0
  {
  }

  /** The best-ranked service other than the Initial one. */
  function AlternativeFromRanking(initial: string, ranking: seq<Ranked>): Option<Alternative> {
    FirstOther(initial, ranking, 0)
  }

  function FirstOther(initial: string, ranking: seq<Ranked>, i: nat): Option<Alternative>
    requires i <= |ranking|
    decreases |ranking| - i
  {
    if i == |ranking| then None
    else if ranking[i].service == initial then FirstOther(initial, ranking, i + 1)
    else Some(Alternative(ranking[i].service, i + 1, ranking[i].score, RankOf(initial, ranking), NormalizedMargin(ranking)))
  }

  lemma {:induction false} FirstOtherIsBest(initial: string, ranking: seq<Ranked>, i: nat)
    requires i <= |ranking|
    ensures var found := FirstOther(initial, ranking, i);
      && (found.None? <==> forall k :: i <= k < |ranking| ==> ranking[k].service == initial)
      && (found.Some? ==>
            var a := found.value;
            && i < a.rank <= |ranking| && a.service == ranking[a.rank - 1].service != initial
            && a.score == ranking[a.rank - 1].score
            && a.initialRank == RankOf(initial, ranking) && a.margin == NormalizedMargin(ranking)
            && forall k :: i <= k < a.rank - 1 ==> ranking[k].service == initial)
    decreases |ranking| - i
  {
    if i < |ranking| && ranking[i].service == initial {
      FirstOtherIsBest(initial, ranking, i + 1);
    }
  }

  /** With distinct services the alternative is first, unless the Initial is: then it is second. */
  lemma AlternativeIsFirstOrSecond(initial: string, ranking: seq<Ranked>)
    requires Distinct(ranking)
    ensures var found := AlternativeFromRanking(initial, ranking);
      && (found.None? <==> ranking == [] || (|ranking| == 1 && ranking[0].service == initial))
      && (found.Some? ==>
            var a := found.value;
            && a.service != initial && a.rank == (if ranking[0].service == initial then 2 else 1)
            && a.rank <= |ranking| && a.service == ranking[a.rank - 1].service && a.score == ranking[a.rank - 1].score
            && a.initialRank == RankOf(initial, ranking) && a.margin == NormalizedMargin(ranking))
  {
    FirstOtherIsBest(initial, ranking, 0);
    assert |ranking| > 1 ==> ranking[0].service != ranking[1].service;
  }

  datatype Rule = M0 | M1 | M2 | M3

  function MetricsRule(alternative: Option<Alternative>, rule: Rule): bool {
    alternative.Some? &&
    var a := alternative.value;
    match rule
    case M0 => false
    case M1 => a.rank == 1 && a.margin >= 0.25
    case M2 => a.rank == 1 && a.margin >= 0.5
    case M3 => a.rank == 1 && a.margin >= 0.25 && (a.initialRank.None? || a.initialRank.value > 2)
  }

  /** Each narrower rule overrides only where the rule M1 does. */
  lemma RulesAreNested(alternative: Option<Alternative>, rule: Rule)
    ensures MetricsRule(alternative, rule) ==> MetricsRule(alternative, M1)
    ensures MetricsRule(alternative, M2) && MetricsRule(alternative, M3) ==> alternative.value.margin >= 0.5
  {
  }

  ghost predicate InTopTwo(service: string, ranking: seq<Ranked>) {
    exists i :: 0 <= i < |ranking| && i < 2 && ranking[i].service == service
  }

  /** M3 asks for nothing but a clear margin and an Initial outside the two best services. */
  lemma M3Exactly(initial: string, ranking: seq<Ranked>)
    requires ranking != []
    ensures MetricsRule(AlternativeFromRanking(initial, ranking), M3)
       <==> NormalizedMargin(ranking) >= 0.25 && !InTopTwo(initial, ranking)
  {
    FirstOtherIsBest(initial, ranking, 0);
    if InTopTwo(initial, ranking) {
      assert RankOf(initial, ranking).value <= 2;
    } else {
      assert ranking[0].service != initial;
      if RankOf(initial, ranking).Some? && RankOf(initial, ranking).value <= 2 {
        assert InTopTwo(initial, ranking);
      }
    }
  }

  /** `_historical_m3` of the architecture frontier, on the best service, the Initial's rank and the margin. */
  function HistoricalM3(top: Option<string>, initial: string, initialRank: Option<nat>, margin: Option<real>): bool {
    && top.Some? && top.value != initial
    && (initialRank.None? || initialRank.value > 2)
    && margin.Some? && margin.value >= 0.25
  }

  /** The two statements of M3, in the audit and in the architecture frontier, agree. */
  lemma BothM3sAgree(initial: string, ranking: seq<Ranked>)
    ensures MetricsRule(AlternativeFromRanking(initial, ranking), M3)
         == HistoricalM3(if ranking == [] then None else Some(ranking[0].service), initial,
                         RankOf(initial, ranking), if ranking == [] then None else Some(NormalizedMargin(ranking)))
  {
    FirstOtherIsBest(initial, ranking, 0);
  }
}
