/** The frozen architecture options A0 to A5, applied to one case and aggregated over many. */
module OptionFrontier {
  import opened Wrappers
  import opened Counting
  import opened AuditRow
  import opened MetricsRanking

  datatype Layer =
    | Operation | Service | Workload | Pod | Container | Node | Database | Cache
    | MessageQueue | NetworkComponent | Cluster | Infrastructure | UnknownLayer

  datatype Regime = LocalResource | Propagation | Network | Dependency | Application | UnknownRegime

  datatype Disposition = Present | Absent | Unavailable

  datatype Relation = AtRoot | Upstream | Downstream | Lateral | UnknownRelation

  datatype ArchitectureOption = A0 | A1 | A2 | A3 | A4 | A5

  datatype Provenance = ModelInitial | MetricsM3 | GuardedMetrics | CausalRanking

  datatype Candidate = Candidate(
    entity: string, serviceAncestor: Option<string>, anomalyTime: Option<real>,
    support: nat, rank: nat, relation: Relation)

  datatype Case = Case(
    key: string, regime: Regime, metricFamily: string, truths: set<string>, truthService: Option<string>,
    initial: string, initialService: Option<string>, initialPairRight: bool, initialLayer: Layer,
    top: Option<string>, topService: Option<string>, topLayer: Layer,
    initialRank: Option<nat>, margin: Option<real>, topIsDownstream: bool,
    disposition: Disposition, candidates: seq<Candidate>, faultRight: bool, terminalFailure: bool)

  datatype Outcome = Outcome(
    final: string, provenance: Provenance, override: bool,
    initialExact: bool, finalExact: bool, initialServiceRight: bool, finalServiceRight: bool,
    initialPair: bool, finalPair: bool)
  {
    predicate Rescue() { !initialExact && finalExact }
    predicate Damage() { initialExact && !finalExact }
  }

  // ----- the override conditions -----

  predicate M3Fires(c: Case) {
    HistoricalM3(c.top, c.initial, c.initialRank, c.margin)
  }

  function LayerGroup(layer: Layer): nat {
    match layer
    case Service | Workload | Pod | Container => 1
    case Node | Cluster | Infrastructure => 2
    case Database | Cache | MessageQueue | NetworkComponent => 3
    case Operation => 4
    case UnknownLayer => 0
  }

  predicate CompatibleLayers(left: Layer, right: Layer) {
    left != UnknownLayer && right != UnknownLayer && LayerGroup(left) == LayerGroup(right)
  }

  predicate GuardedFires(c: Case) {
    M3Fires(c) && CompatibleLayers(c.initialLayer, c.topLayer) && !c.topIsDownstream
  }

  predicate LocalFires(c: Case) {
    && GuardedFires(c) && c.regime == LocalResource
    && c.metricFamily in {"CPU", "MEMORY", "DISK", "LOCAL_NODE_RESOURCE"}
    && c.disposition == Absent
  }

  // ----- the causal choice: sorted by time, support, Metrics rank and name, the first one -----

  predicate Eligible(minimumSupport: int, x: Candidate) {
    x.support >= minimumSupport && x.anomalyTime.Some? && (x.relation == AtRoot || x.relation == Upstream)
  }

  /** Python's order on strings. */
  predicate NameBefore(a: string, b: string) {
    b != "" && (a == "" || a[0] < b[0] || (a[0] == b[0] && NameBefore(a[1..], b[1..])))
  }

  /** `order_key(x) < order_key(y)` */
  predicate Precedes(x: Candidate, y: Candidate)
    requires x.anomalyTime.Some? && y.anomalyTime.Some?
  {
    var t, u := x.anomalyTime.value, y.anomalyTime.value;
    || t < u
    || (t == u && x.support > y.support)
    || (t == u && x.support == y.support && x.rank < y.rank)
    || (t == u && x.support == y.support && x.rank == y.rank && NameBefore(x.entity, y.entity))
  }

  /** The first of the eligible candidates in sorted order. */
  function FirstChoice(minimumSupport: int, candidates: seq<Candidate>): (best: Option<Candidate>)
    ensures best.Some? ==> Eligible(minimumSupport, best.value) && best.value in candidates
  {
    if candidates == [] then None
    else
      var rest, x := FirstChoice(minimumSupport, candidates[1..]), candidates[0];
      if !Eligible(minimumSupport, x) then rest
      else if rest.None? || !Precedes(rest.value, x) then Some(x)
      else rest
  }

  function CausalSelection(minimumSupport: int, c: Case): Option<string> {
    match FirstChoice(minimumSupport, c.candidates)
    case None => None
    case Some(x) => Some(x.entity)
  }

  lemma {:induction false} NamesAreOrdered(a: string, b: string)
    ensures NameBefore(a, b) || NameBefore(b, a) || a == b
    ensures !(NameBefore(a, b) && NameBefore(b, a))
    ensures !NameBefore(a, a)
  {
    if a != "" && b != "" {
      NamesAreOrdered(a[1..], b[1..]);
      assert a == [a[0]] + a[1..] && b == [b[0]] + b[1..];
    }
    if a != "" {
      NamesAreOrdered(a[1..], a[1..]);
    }
  }

  lemma {:induction false} NamesAreTransitive(a: string, b: string, c: string)
    requires NameBefore(a, b) && NameBefore(b, c)
    ensures NameBefore(a, c)
  {
    if a != "" && a[0] == b[0] == c[0] {
      NamesAreTransitive(a[1..], b[1..], c[1..]);
    }
  }

  lemma PrecedesIsAnOrder(x: Candidate, y: Candidate, z: Candidate)
    requires x.anomalyTime.Some? && y.anomalyTime.Some? && z.anomalyTime.Some?
    ensures !Precedes(x, y) && !Precedes(y, x) ==> x.entity == y.entity
    ensures !(Precedes(x, y) && Precedes(y, x))
    ensures Precedes(x, y) && Precedes(y, z) ==> Precedes(x, z)
    ensures Precedes(x, y) && !Precedes(z, y) ==> Precedes(x, z)
  {
    NamesAreOrdered(x.entity, y.entity);
    NamesAreOrdered(y.entity, z.entity);
    NamesAreOrdered(x.entity, z.entity);
    if NameBefore(x.entity, y.entity) && NameBefore(y.entity, z.entity) {
      NamesAreTransitive(x.entity, y.entity, z.entity);
    }
  }

  /** The choice is eligible, exists when any candidate is, and no eligible candidate comes before it. */
  lemma {:induction false} FirstChoiceIsFirst(minimumSupport: int, candidates: seq<Candidate>)
    ensures var best := FirstChoice(minimumSupport, candidates);
      && (best.None? <==> forall x :: x in candidates ==> !Eligible(minimumSupport, x))
      && (best.Some? ==> forall x :: x in candidates && Eligible(minimumSupport, x) ==> !Precedes(x, best.value))
  {
    if candidates != [] {
      FirstChoiceIsFirst(minimumSupport, candidates[1..]);
      var rest, head, best := FirstChoice(minimumSupport, candidates[1..]), candidates[0], FirstChoice(minimumSupport, candidates);
      if best.Some? {
        forall x | x in candidates && Eligible(minimumSupport, x) ensures !Precedes(x, best.value) {
          assert x == head || x in candidates[1..];
          if Eligible(minimumSupport, head) {
            PrecedesIsAnOrder(x, head, best.value);
            if rest.Some? {
              PrecedesIsAnOrder(x, head, rest.value);
              PrecedesIsAnOrder(rest.value, head, head);
            }
          }
        }
      }
    }
  }

  /** The causal choice does not depend on the order in which the candidates are listed. */
  lemma SelectionIgnoresListing(minimumSupport: int, one: seq<Candidate>, two: seq<Candidate>)
    requires forall x :: x in one <==> x in two
    ensures FirstChoice(minimumSupport, one).None? <==> FirstChoice(minimumSupport, two).None?
    ensures FirstChoice(minimumSupport, one).Some? ==>
              FirstChoice(minimumSupport, one).value.entity == FirstChoice(minimumSupport, two).value.entity
  {
    FirstChoiceIsFirst(minimumSupport, one);
    FirstChoiceIsFirst(minimumSupport, two);
    var a, b := FirstChoice(minimumSupport, one), FirstChoice(minimumSupport, two);
    if a.Some? {
      assert a.value in two && b.Some? && b.value in one;
      PrecedesIsAnOrder(a.value, b.value, b.value);
    }
  }

  // ----- applying an option -----

  /** Where an option moves the root, and on whose authority. */
  function Choose(c: Case, option: ArchitectureOption, minimumSupport: int): (string, Provenance) {
    match option
    case A0 => (c.initial, ModelInitial)
    case A1 => if M3Fires(c) then (c.top.value, MetricsM3) else (c.initial, ModelInitial)
    case A2 => if GuardedFires(c) then (c.top.value, GuardedMetrics) else (c.initial, ModelInitial)
    case A3 => if LocalFires(c) then (c.top.value, GuardedMetrics) else (c.initial, ModelInitial)
    case A4 =>
      if LocalFires(c) then (c.top.value, GuardedMetrics)
      else if c.regime in {Propagation, Network, Dependency, Application} then
        var selected := CausalSelection(minimumSupport, c);
        if selected.Some? && selected.value != c.initial then (selected.value, CausalRanking) else (c.initial, ModelInitial)
      else (c.initial, ModelInitial)
    case A5 => if LocalFires(c) then (c.top.value, GuardedMetrics) else (c.initial, ModelInitial)
  }

  function ServiceOf(c: Case, final: string): Option<string> {
    if final == c.initial then c.initialService
    else if c.top == Some(final) then c.topService
    else FirstNamed(c.candidates, final)
  }

  function FirstNamed(candidates: seq<Candidate>, entity: string): Option<string> {
    if candidates == [] then None
    else if candidates[0].entity == entity then candidates[0].serviceAncestor
    else FirstNamed(candidates[1..], entity)
  }

  function ApplyOption(c: Case, option: ArchitectureOption, minimumSupport: int): Outcome {
    if c.terminalFailure then
      Outcome(c.initial, ModelInitial, false, false, false, false, false, false, false)
    else
      var (final, provenance) := Choose(c, option, minimumSupport);
      Outcome(
        final, provenance, final != c.initial,
        c.initial in c.truths, final in c.truths,
        c.truthService.Some? && c.initialService == c.truthService,
        c.truthService.Some? && ServiceOf(c, final) == c.truthService,
        c.initialPairRight, final in c.truths && c.faultRight)
  }

  /** The Metrics options form a chain: each overrides a subset of the one before, to the same entity. */
  lemma OptionsAreNested(c: Case, minimumSupport: int)
    ensures !ApplyOption(c, A0, minimumSupport).override
    ensures ApplyOption(c, A2, minimumSupport).override ==>
              ApplyOption(c, A1, minimumSupport).override
              && ApplyOption(c, A2, minimumSupport).final == ApplyOption(c, A1, minimumSupport).final
    ensures ApplyOption(c, A3, minimumSupport).override ==>
              ApplyOption(c, A2, minimumSupport).override && ApplyOption(c, A4, minimumSupport).override
              && ApplyOption(c, A3, minimumSupport).final
              == ApplyOption(c, A2, minimumSupport).final == ApplyOption(c, A4, minimumSupport).final
    ensures ApplyOption(c, A5, minimumSupport) == ApplyOption(c, A3, minimumSupport)
    ensures ApplyOption(c, A4, minimumSupport).override && !ApplyOption(c, A3, minimumSupport).override ==>
              c.regime != LocalResource && ApplyOption(c, A4, minimumSupport).provenance == CausalRanking
  {
  }

  // ----- aggregates -----

  datatype Aggregate = Aggregate(
    cases: nat, initialExact: nat, finalExact: nat, rescue: nat, damage: nat,
    overrides: nat, correctOverride: nat, wrongOverride: nat,
    initialService: nat, finalService: nat, pairRescue: nat, pairDamage: nat)

  ghost function InitiallyRight(option: ArchitectureOption, m: int): Case -> bool { (c: Case) => ApplyOption(c, option, m).initialExact }
  ghost function FinallyRight(option: ArchitectureOption, m: int): Case -> bool { (c: Case) => ApplyOption(c, option, m).finalExact }
  ghost function Rescued(option: ArchitectureOption, m: int): Case -> bool { (c: Case) => ApplyOption(c, option, m).Rescue() }
  ghost function Damaged(option: ArchitectureOption, m: int): Case -> bool { (c: Case) => ApplyOption(c, option, m).Damage() }
  ghost function Overridden(option: ArchitectureOption, m: int): Case -> bool { (c: Case) => ApplyOption(c, option, m).override }
  ghost function OverriddenRight(option: ArchitectureOption, m: int): Case -> bool {
    (c: Case) => ApplyOption(c, option, m).override && ApplyOption(c, option, m).finalExact
  }
  ghost function OverriddenWrong(option: ArchitectureOption, m: int): Case -> bool {
    (c: Case) => ApplyOption(c, option, m).override && !ApplyOption(c, option, m).finalExact
  }

  ghost function InitialServiceRight(option: ArchitectureOption, m: int): Case -> bool { (c: Case) => ApplyOption(c, option, m).initialServiceRight }
  ghost function FinalServiceRight(option: ArchitectureOption, m: int): Case -> bool { (c: Case) => ApplyOption(c, option, m).finalServiceRight }
  ghost function PairRescued(option: ArchitectureOption, m: int): Case -> bool {
    (c: Case) => !ApplyOption(c, option, m).initialPair && ApplyOption(c, option, m).finalPair
  }
  ghost function PairDamaged(option: ArchitectureOption, m: int): Case -> bool {
    (c: Case) => ApplyOption(c, option, m).initialPair && !ApplyOption(c, option, m).finalPair
  }

  /** `aggregate_outcomes` over the outcomes of one option. */
  ghost function AggregateOf(cases: seq<Case>, option: ArchitectureOption, m: int): Aggregate {
    Aggregate(
      |cases|, Count(cases, InitiallyRight(option, m)), Count(cases, FinallyRight(option, m)),
      Count(cases, Rescued(option, m)), Count(cases, Damaged(option, m)),
      Count(cases, Overridden(option, m)), Count(cases, OverriddenRight(option, m)), Count(cases, OverriddenWrong(option, m)),
      Count(cases, InitialServiceRight(option, m)), Count(cases, FinalServiceRight(option, m)),
      Count(cases, PairRescued(option, m)), Count(cases, PairDamaged(option, m)))
  }

  /** Within an option the counters reconcile, and only overrides rescue or damage. */
  lemma AggregateReconciles(cases: seq<Case>, option: ArchitectureOption, m: int)
    ensures var a := AggregateOf(cases, option, m);
      && a.finalExact == a.initialExact + a.rescue - a.damage
      && a.overrides == a.correctOverride + a.wrongOverride
      && a.rescue <= a.correctOverride && a.damage <= a.wrongOverride
      && (option == A0 ==> a.overrides == 0 && a.finalExact == a.initialExact)
  {
    OverridesSplit(cases, option, m);
    RescuesWithinOverrides(cases, option, m);
    hide ApplyOption, Count;
    CountBalance(cases, FinallyRight(option, m), Damaged(option, m), InitiallyRight(option, m), Rescued(option, m));
    if option == A0 {
      NoOverridesInA0(cases, m);
    }
  }

  lemma OverridesSplit(cases: seq<Case>, option: ArchitectureOption, m: int)
    ensures Count(cases, Overridden(option, m)) == Count(cases, OverriddenRight(option, m)) + Count(cases, OverriddenWrong(option, m))
  {
    hide ApplyOption;
    CountSplit(cases, Overridden(option, m), OverriddenRight(option, m), OverriddenWrong(option, m));
  }

  lemma RescuesWithinOverrides(cases: seq<Case>, option: ArchitectureOption, m: int)
    ensures Count(cases, Rescued(option, m)) <= Count(cases, OverriddenRight(option, m))
    ensures Count(cases, Damaged(option, m)) <= Count(cases, OverriddenWrong(option, m))
  {
    forall c: Case ensures OverridesMoveRoots(ApplyOption(c, option, m)) {
      OutcomeIsConsistent(c, option, m);
    }
    hide ApplyOption;
    CountMonotone(cases, Rescued(option, m), OverriddenRight(option, m));
    CountMonotone(cases, Damaged(option, m), OverriddenWrong(option, m));
  }

  lemma NoOverridesInA0(cases: seq<Case>, m: int)
    ensures Count(cases, Overridden(A0, m)) == 0
  {
    forall c: Case ensures !ApplyOption(c, A0, m).override {
      OutcomeIsConsistent(c, A0, m);
    }
    CountNone(cases, Overridden(A0, m));
  }

  /** The case's pair flag says what it should: the Initial is a true root and its fault is right. */
  predicate PairFlagHolds(c: Case) {
    c.initialPairRight <==> c.initial in c.truths && c.faultRight
  }

  /**
   The other counters follow the overrides: the right services change by at most one for each
   override, and where the pair flags hold no pair is rescued or damaged without its root.
   */
  lemma ServicesAndPairsFollowOverrides(cases: seq<Case>, option: ArchitectureOption, m: int)
    ensures var a := AggregateOf(cases, option, m);
      && a.finalService <= a.initialService + a.overrides && a.initialService <= a.finalService + a.overrides
      && ((forall c :: c in cases ==> PairFlagHolds(c)) ==> a.pairRescue <= a.rescue && a.pairDamage <= a.damage)
  {
    forall c: Case ensures ServicesFollow(ApplyOption(c, option, m))
      && (PairFlagHolds(c) ==> PairsFollow(ApplyOption(c, option, m)))
    {
      OutcomeFollows(c, option, m);
    }
    hide ApplyOption;
    CountOr(cases, FinalServiceRight(option, m), InitialServiceRight(option, m), Overridden(option, m));
    CountOr(cases, InitialServiceRight(option, m), FinalServiceRight(option, m), Overridden(option, m));
    if forall c :: c in cases ==> PairFlagHolds(c) {
      CountMonotone(cases, PairRescued(option, m), Rescued(option, m));
      CountMonotone(cases, PairDamaged(option, m), Damaged(option, m));
    }
  }

  predicate ServicesFollow(o: Outcome) {
    !o.override ==> o.initialServiceRight == o.finalServiceRight
  }

  predicate PairsFollow(o: Outcome) {
    && (!o.initialPair && o.finalPair ==> o.Rescue())
    && (o.initialPair && !o.finalPair ==> o.Damage())
  }

  lemma OutcomeFollows(c: Case, option: ArchitectureOption, m: int)
    ensures ServicesFollow(ApplyOption(c, option, m))
    ensures PairFlagHolds(c) ==> PairsFollow(ApplyOption(c, option, m))
  {
  }

  /** Without an override the final root is as right as the initial one. */
  predicate OverridesMoveRoots(o: Outcome) {
    !o.override ==> o.initialExact == o.finalExact
  }

  lemma OutcomeIsConsistent(c: Case, option: ArchitectureOption, m: int)
    ensures OverridesMoveRoots(ApplyOption(c, option, m))
    ensures option == A0 ==> !ApplyOption(c, option, m).override
  {
  }

  /** Each guard added to M3 rescues no more and damages no more; A5 aggregates as A3 does. */
  lemma GuardsMoveLess(cases: seq<Case>, m: int)
    ensures AggregateOf(cases, A3, m).rescue <= AggregateOf(cases, A2, m).rescue <= AggregateOf(cases, A1, m).rescue
    ensures AggregateOf(cases, A3, m).damage <= AggregateOf(cases, A2, m).damage <= AggregateOf(cases, A1, m).damage
    ensures AggregateOf(cases, A5, m) == AggregateOf(cases, A3, m)
  {
    forall c | c in cases ensures ApplyOption(c, A5, m) == ApplyOption(c, A3, m)
                               && (Rescued(A3, m)(c) ==> Rescued(A2, m)(c)) && (Rescued(A2, m)(c) ==> Rescued(A1, m)(c))
                               && (Damaged(A3, m)(c) ==> Damaged(A2, m)(c)) && (Damaged(A2, m)(c) ==> Damaged(A1, m)(c))
    {
      OptionsAreNested(c, m);
    }
    CountMonotone(cases, Rescued(A3, m), Rescued(A2, m));
    CountMonotone(cases, Rescued(A2, m), Rescued(A1, m));
    CountMonotone(cases, Damaged(A3, m), Damaged(A2, m));
    CountMonotone(cases, Damaged(A2, m), Damaged(A1, m));
    CountSame(cases, InitiallyRight(A5, m), InitiallyRight(A3, m));
    CountSame(cases, FinallyRight(A5, m), FinallyRight(A3, m));
    CountSame(cases, Rescued(A5, m), Rescued(A3, m));
    CountSame(cases, Damaged(A5, m), Damaged(A3, m));
    CountSame(cases, Overridden(A5, m), Overridden(A3, m));
    CountSame(cases, OverriddenRight(A5, m), OverriddenRight(A3, m));
    CountSame(cases, OverriddenWrong(A5, m), OverriddenWrong(A3, m));
    CountSame(cases, InitialServiceRight(A5, m), InitialServiceRight(A3, m));
    CountSame(cases, FinalServiceRight(A5, m), FinalServiceRight(A3, m));
    CountSame(cases, PairRescued(A5, m), PairRescued(A3, m));
    CountSame(cases, PairDamaged(A5, m), PairDamaged(A3, m));
  }
}
