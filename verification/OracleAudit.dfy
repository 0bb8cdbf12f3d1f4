/**
 The oracle counts of the causal-Agent audit: what option A5 would have rescued and damaged had
 its Agent always picked the causal choice when that choice was in the truth.
 */
module OracleAudit {
  import opened Wrappers
  import opened Counting
  import opened AuditRow
  import opened OptionFrontier

  /** A case as the audit reads it, with the unified flag and the entities its events show. */
  datatype Adapted = Adapted(c: Case, initialRight: bool, events: set<string>)

  /** Whether the two causal roles qualified, and the support threshold of the causal choice. */
  datatype Setting = Setting(traceRole: bool, eventRole: bool, minimumSupport: int)

  ghost predicate UniqueCaseKeys(cases: seq<Adapted>) {
    forall i, j :: 0 <= i < j < |cases| ==> cases[i].c.key != cases[j].c.key
  }

  /** The causal choice of a case the Agent is called on. */
  function Selected(x: Adapted, s: Setting): Option<string> {
    if x.initialRight || x.c.terminalFailure || x.c.regime == LocalResource then None
    else
      match FirstChoice(s.minimumSupport, x.c.candidates)
      case None => None
      case Some(best) =>
        if best.entity == x.c.initial then None
        else if Supported(x, FirstOfName(x.c.candidates, best.entity), s) then Some(best.entity)
        else None
  }

  /** `next(item for item in candidates if item.entity == selected)`; a selected candidate is there. */
  function FirstOfName(candidates: seq<Candidate>, entity: string): Option<Candidate> {
    if candidates == [] then None
    else if candidates[0].entity == entity then Some(candidates[0])
    else FirstOfName(candidates[1..], entity)
  }

  predicate Supported(x: Adapted, candidate: Option<Candidate>, s: Setting) {
    && candidate.Some?
    && (|| (s.traceRole && candidate.value.support >= 2 && (candidate.value.relation == AtRoot || candidate.value.relation == Upstream))
        || (s.eventRole && candidate.value.entity in x.events))
  }

  function Base(x: Adapted, s: Setting): Outcome {
    ApplyOption(x.c, A5, s.minimumSupport)
  }

  /** `eligible`: the choices, by case key. */
  ghost function EligibleOf(cases: seq<Adapted>, s: Setting): map<string, string> {
    if cases == [] then map[]
    else
      var x, before := cases[|cases| - 1], EligibleOf(cases[..|cases| - 1], s);
      if Selected(x, s).Some? then before[x.c.key := Selected(x, s).value] else before
  }

  predicate OracleRight(x: Adapted, eligible: map<string, string>, s: Setting) {
    Base(x, s).finalExact || (x.c.key in eligible && eligible[x.c.key] in x.c.truths)
  }

  ghost function OracleRescued(e: map<string, string>, s: Setting): Adapted -> bool {
    (x: Adapted) => !Base(x, s).initialExact && OracleRight(x, e, s)
  }

  ghost function OracleDamaged(e: map<string, string>, s: Setting): Adapted -> bool {
    (x: Adapted) => Base(x, s).initialExact && !OracleRight(x, e, s)
  }

  ghost function BaseRescued(s: Setting): Adapted -> bool { (x: Adapted) => Base(x, s).Rescue() }

  ghost function BaseDamaged(s: Setting): Adapted -> bool { (x: Adapted) => Base(x, s).Damage() }

  /** The Agent is called, names a true root, and the Initial was wrong. */
  ghost function AgentRescued(s: Setting): Adapted -> bool {
    (x: Adapted) => Selected(x, s).Some? && Selected(x, s).value in x.c.truths && x.c.initial !in x.c.truths
  }

  method OracleCounts(cases: seq<Adapted>, s: Setting) returns (rescue: nat, damage: nat, eligible: map<string, string>)
    ensures eligible == EligibleOf(cases, s)
    ensures rescue == Count(cases, OracleRescued(eligible, s))
    ensures damage == Count(cases, OracleDamaged(eligible, s))
  {
    eligible := map[];
    for i := 0 to |cases|
      invariant eligible == EligibleOf(cases[..i], s)
    {
      assert cases[..i + 1][..i] == cases[..i];
      var x := cases[i];
      if Selected(x, s).Some? {
        eligible := eligible[x.c.key := Selected(x, s).value];
      }
    }
    assert cases[..|cases|] == cases;
    rescue, damage := 0, 0;
    for i := 0 to |cases|
      invariant rescue == Count(cases[..i], OracleRescued(eligible, s))
      invariant damage == Count(cases[..i], OracleDamaged(eligible, s))
    {
      CountStep(cases, i, OracleRescued(eligible, s));
      CountStep(cases, i, OracleDamaged(eligible, s));
      var base, oracleRight := Base(cases[i], s), OracleRight(cases[i], eligible, s);
      rescue := rescue + Bit(!base.initialExact && oracleRight);
      damage := damage + Bit(base.initialExact && !oracleRight);
    }
  }

  lemma {:induction false} EligibleByKey(cases: seq<Adapted>, s: Setting, x: Adapted)
    requires UniqueCaseKeys(cases) && x in cases
    ensures x.c.key in EligibleOf(cases, s) <==> Selected(x, s).Some?
    ensures Selected(x, s).Some? ==> EligibleOf(cases, s)[x.c.key] == Selected(x, s).value
  {
    var n := |cases| - 1;
    if x == cases[n] {
      NoOtherKey(cases[..n], s, x.c.key);
    } else {
      var i :| 0 <= i < |cases| && cases[i] == x;
      assert cases[..n][i] == x;
      EligibleByKey(cases[..n], s, x);
    }
  }

  lemma {:induction false} NoOtherKey(cases: seq<Adapted>, s: Setting, key: string)
    requires forall x :: x in cases ==> x.c.key != key
    ensures key !in EligibleOf(cases, s)
  {
    if cases != [] {
      NoOtherKey(cases[..|cases| - 1], s, key);
    }
  }

  /** A case the Agent is called on is one A5 leaves alone. */
  lemma AgentAndGuardAreDisjoint(x: Adapted, s: Setting)
    ensures Selected(x, s).Some? ==> !Base(x, s).override && Base(x, s).initialExact == Base(x, s).finalExact == (x.c.initial in x.c.truths)
  {
  }

  /** A5 damages the case, and the choice filed under its key is a true root of it. */
  ghost function IsDamageHidden(e: map<string, string>, s: Setting): Adapted -> bool {
    (x: Adapted) => Base(x, s).Damage() && x.c.key in e && e[x.c.key] in x.c.truths
  }

  /** Wrong before and after A5, while the choice filed under the case's key is a true root of it. */
  ghost function IsPutRight(e: map<string, string>, s: Setting): Adapted -> bool {
    (x: Adapted) => !Base(x, s).initialExact && !Base(x, s).finalExact && x.c.key in e && e[x.c.key] in x.c.truths
  }

  /**
   For every list of cases the oracle's damage is A5's own less the cases whose damage is hidden by
   a choice filed under their key; so the two are equal if and only if there is no such case. Its
   rescue is A5's and the wrong cases that a filed choice puts right.
   */
  lemma OracleDamageExactly(cases: seq<Adapted>, s: Setting)
    ensures var e := EligibleOf(cases, s);
      && Count(cases, OracleDamaged(e, s)) == Count(cases, BaseDamaged(s)) - Count(cases, IsDamageHidden(e, s))
      && (Count(cases, OracleDamaged(e, s)) == Count(cases, BaseDamaged(s)) <==>
            forall x :: x in cases && Base(x, s).Damage() ==> !(x.c.key in e && e[x.c.key] in x.c.truths))
      && Count(cases, OracleRescued(e, s)) == Count(cases, BaseRescued(s)) + Count(cases, IsPutRight(e, s))
  {
    hide Base;
    var e := EligibleOf(cases, s);
    CountSplit(cases, BaseDamaged(s), OracleDamaged(e, s), IsDamageHidden(e, s));
    CountZero(cases, IsDamageHidden(e, s));
    CountSplit(cases, OracleRescued(e, s), BaseRescued(s), IsPutRight(e, s));
  }

  /** A case can hide damage only under a key that another case, which the Agent is called on, has too. */
  lemma HiddenDamageRepeatsAKey(cases: seq<Adapted>, s: Setting, x: Adapted)
    requires x in cases && IsDamageHidden(EligibleOf(cases, s), s)(x)
    ensures exists y :: y in cases && y.c.key == x.c.key && y != x && Selected(y, s).Some? && Selected(y, s).value in x.c.truths
  {
    var y := FiledBy(cases, s, x.c.key);
    AgentAndGuardAreDisjoint(x, s);
  }

  lemma {:induction false} FiledBy(cases: seq<Adapted>, s: Setting, key: string) returns (y: Adapted)
    requires key in EligibleOf(cases, s)
    ensures y in cases && y.c.key == key && Selected(y, s) == Some(EligibleOf(cases, s)[key])
  {
    var n := |cases| - 1;
    if cases[n].c.key == key && Selected(cases[n], s).Some? {
      y := cases[n];
    } else {
      y := FiledBy(cases[..n], s, key);
    }
  }

  lemma {:induction false} CountZero(cases: seq<Adapted>, p: Adapted -> bool)
    ensures Count(cases, p) == 0 <==> forall x :: x in cases ==> !p(x)
  {
    if cases != [] {
      var n := |cases| - 1;
      CountZero(cases[..n], p);
      assert cases == cases[..n] + [cases[n]];
    }
  }

  /**
   With unique case keys the oracle damages exactly what A5 itself damages, and rescues what A5
   rescues and, besides, the wrong cases whose causal choice is a true root.
   */
  lemma OracleAddsOnlyRescues(cases: seq<Adapted>, s: Setting)
    requires UniqueCaseKeys(cases)
    ensures var e := EligibleOf(cases, s);
      && Count(cases, OracleDamaged(e, s)) == Count(cases, BaseDamaged(s))
      && Count(cases, OracleRescued(e, s)) == Count(cases, BaseRescued(s)) + Count(cases, AgentRescued(s))
  {
    var e := EligibleOf(cases, s);
    forall x | x in cases
      ensures OracleDamaged(e, s)(x) == BaseDamaged(s)(x)
      ensures OracleRescued(e, s)(x) == (BaseRescued(s)(x) || AgentRescued(s)(x)) && !(BaseRescued(s)(x) && AgentRescued(s)(x))
    {
      EligibleByKey(cases, s, x);
      AgentAndGuardAreDisjoint(x, s);
    }
    CountSame(cases, OracleDamaged(e, s), BaseDamaged(s));
    CountSplit(cases, OracleRescued(e, s), BaseRescued(s), AgentRescued(s));
  }

  /**
   When the unified flags match the outcomes, every case the Agent is called on was wrong, so the
   rescues it adds are the called cases whose choice is a true root.
   */
  lemma CalledCasesWereWrong(x: Adapted, s: Setting)
    requires !x.c.terminalFailure ==> x.initialRight == (x.c.initial in x.c.truths)
    ensures AgentRescued(s)(x) <==> Selected(x, s).Some? && Selected(x, s).value in x.c.truths
  {
  }
}
