/**
 The leave-one-group-out folds of the architecture options, and the causal-Agent audit that both
 analyses run after them. Building the folds rejects repeated case keys, so the audit never sees any.
 */
module RobustnessFolds {
  import opened Wrappers
  import opened Counting
  import opened OptionFrontier
  import opened OracleAudit

  /** The fault family, the layer of the Initial entity, or the system of a case. */
  type Axis = Case -> string

  datatype Fold = Fold(option: ArchitectureOption, axis: nat, group: string, denominator: nat, rescue: nat, damage: nat)

  /** An outcome with the key of its case. */
  datatype Keyed = Keyed(key: string, outcome: Outcome)

  ghost predicate UniqueKeys(cases: seq<Case>) {
    forall i, j :: 0 <= i < j < |cases| ==> cases[i].key != cases[j].key
  }

  function OutcomesOf(cases: seq<Case>, option: ArchitectureOption, m: int): seq<Keyed> {
    seq(|cases|, i requires 0 <= i < |cases| => Keyed(cases[i].key, ApplyOption(cases[i], option, m)))
  }

  // ----- the outcomes by key -----

  /** `{item.private_case_key: item for item in values}` */
  function ByKey(values: seq<Keyed>): map<string, Outcome> {
    if values == [] then map[]
    else
      var last := values[|values| - 1];
      ByKey(values[..|values| - 1])[last.key := last.outcome]
  }

  ghost predicate HasKey(values: seq<Keyed>, key: string) {
    exists i :: 0 <= i < |values| && values[i].key == key
  }

  ghost predicate DistinctKeys(values: seq<Keyed>) {
    forall i, j :: 0 <= i < j < |values| ==> values[i].key != values[j].key
  }

  lemma {:induction false} KeysAreThere(values: seq<Keyed>, key: string)
    ensures key in ByKey(values) <==> HasKey(values, key)
  {
    if values != [] {
      var n := |values| - 1;
      KeysAreThere(values[..n], key);
      assert forall i :: 0 <= i < n ==> values[..n][i] == values[i];
    }
  }

  lemma DistinctGrows(values: seq<Keyed>, last: Keyed)
    ensures DistinctKeys(values + [last]) <==> DistinctKeys(values) && !HasKey(values, last.key)
  {
    var all := values + [last];
    assert forall i :: 0 <= i < |values| ==> all[i] == values[i];
    if DistinctKeys(all) {
      assert all[|values|] == last;
    }
  }

  /** Comparing the sizes finds exactly the repeated keys. */
  lemma {:induction false} SizeShowsRepeats(values: seq<Keyed>)
    ensures |ByKey(values)| <= |values|
    ensures |ByKey(values)| == |values| <==> DistinctKeys(values)
  {
    hide HasKey, DistinctKeys;
    if values != [] {
      var n := |values| - 1;
      var last := values[n];
      SizeShowsRepeats(values[..n]);
      KeysAreThere(values[..n], last.key);
      assert values[..n] + [last] == values;
      DistinctGrows(values[..n], last);
      SizeAfter(ByKey(values[..n]), last);
    } else {
      NoRepeats();
    }
  }

  lemma NoRepeats()
    ensures DistinctKeys([])
  {
  }

  lemma SizeAfter(byKey: map<string, Outcome>, last: Keyed)
    ensures |byKey[last.key := last.outcome]| == |byKey| + if last.key in byKey then 0 else 1
  {
    var more := byKey[last.key := last.outcome];
    assert more.Keys == byKey.Keys + {last.key};
    if last.key in byKey {
      assert more.Keys == byKey.Keys;
    }
  }

  lemma {:induction false} OwnOutcome(values: seq<Keyed>, i: nat)
    requires DistinctKeys(values) && i < |values|
    ensures values[i].key in ByKey(values) && ByKey(values)[values[i].key] == values[i].outcome
  {
    var n := |values| - 1;
    if i < n {
      OwnOutcome(values[..n], i);
      assert values[n].key != values[i].key;
    }
  }

  // ----- the groups of an axis, sorted -----

  ghost function GroupsOf(cases: seq<Case>, axis: Axis): (groups: set<string>)
    ensures forall g :: g in groups <==> exists c :: c in cases && axis(c) == g
  {
    set c | c in cases :: axis(c)
  }

  ghost predicate Sorted(names: seq<string>) {
    forall i, j :: 0 <= i < j < |names| ==> NameBefore(names[i], names[j])
  }

  /** `names` lists the groups of the axis in Python's order, each once. */
  ghost predicate Lists(names: seq<string>, cases: seq<Case>, axis: Axis) {
    Sorted(names) && forall g :: g in names <==> g in GroupsOf(cases, axis)
  }

  lemma {:induction false} SortedIsDistinct(names: seq<string>, i: nat, j: nat)
    requires Sorted(names) && i < j < |names|
    ensures names[i] != names[j]
  {
    NamesAreOrdered(names[i], names[j]);
  }

  /** Insert a name into a sorted list that lacks it. */
  method Insert(names: seq<string>, name: string) returns (more: seq<string>)
    requires Sorted(names)
    ensures Sorted(more) && forall g :: g in more <==> g in names || g == name
  {
    var i := 0;
    while i < |names| && NameBefore(names[i], name)
      invariant 0 <= i <= |names| && forall k :: 0 <= k < i ==> NameBefore(names[k], name)
    {
      i := i + 1;
    }
    if i < |names| && names[i] == name {
      return names;
    }
    more := names[..i] + [name] + names[i..];
    InsertedIsSorted(names, i, name);
    assert names == names[..i] + names[i..];
  }

  lemma InsertedIsSorted(names: seq<string>, i: nat, name: string)
    requires Sorted(names) && i <= |names| && forall k :: 0 <= k < i ==> NameBefore(names[k], name)
    requires i < |names| ==> !NameBefore(names[i], name) && names[i] != name
    ensures Sorted(names[..i] + [name] + names[i..])
  {
    forall k | i <= k < |names| ensures NameBefore(name, names[k]) {
      NamesAreOrdered(names[i], name);
      if k > i {
        NamesAreTransitive(name, names[i], names[k]);
      }
    }
  }

  /** `sorted({str(group_key(case)) for case in cases})` */
  method SortedGroups(cases: seq<Case>, axis: Axis) returns (names: seq<string>)
    ensures Lists(names, cases, axis)
  {
    names := [];
    for i := 0 to |cases|
      invariant Lists(names, cases[..i], axis)
    {
      assert cases[..i + 1] == cases[..i] + [cases[i]];
      names := Insert(names, axis(cases[i]));
    }
    assert cases[..|cases|] == cases;
  }

  // ----- one fold -----

  ghost function Outside(axis: Axis, group: string, p: Case -> bool): Case -> bool {
    (c: Case) => axis(c) != group && p(c)
  }

  ghost function AnyCase(): Case -> bool { (c: Case) => true }

  /** The fold that leaves one group out, counted over the cases. */
  ghost function FoldOf(cases: seq<Case>, option: ArchitectureOption, m: int, axes: seq<Axis>, a: nat, group: string): Fold
    requires a < |axes|
  {
    Fold(
      option, a, group, Count(cases, Outside(axes[a], group, AnyCase())),
      Count(cases, Outside(axes[a], group, Rescued(option, m))), Count(cases, Outside(axes[a], group, Damaged(option, m))))
  }

  ghost predicate Counts(fold: Fold, cases: seq<Case>, option: ArchitectureOption, m: int, axis: Axis) {
    && fold.denominator == Count(cases, Outside(axis, fold.group, AnyCase()))
    && fold.rescue == Count(cases, Outside(axis, fold.group, Rescued(option, m)))
    && fold.damage == Count(cases, Outside(axis, fold.group, Damaged(option, m)))
  }

  method OneFold(
      cases: seq<Case>, option: ArchitectureOption, m: int, axes: seq<Axis>, a: nat, group: string, byKey: map<string, Outcome>)
    returns (fold: Fold)
    requires a < |axes| && UniqueKeys(cases) && byKey == ByKey(OutcomesOf(cases, option, m))
    ensures fold == FoldOf(cases, option, m, axes, a, group)
  {
    hide Counts, ByKey, UniqueKeys;
    fold := Fold(option, a, group, 0, 0, 0);
    CountsNothing(fold, option, m, axes[a]);
    assert cases[..0] == [];
    for i := 0 to |cases|
      invariant fold.option == option && fold.axis == a && fold.group == group
      invariant Counts(fold, cases[..i], option, m, axes[a])
    {
      var c := cases[i];
      CaseOutcome(cases, option, m, i);
      OneMoreCase(fold, cases[..i], option, m, axes[a], c);
      assert cases[..i + 1] == cases[..i] + [c];
      if axes[a](c) != group {
        var outcome := byKey[c.key];
        fold := fold.(denominator := fold.denominator + 1);
        fold := fold.(rescue := fold.rescue + Bit(outcome.Rescue()));
        fold := fold.(damage := fold.damage + Bit(outcome.Damage()));
      }
    }
    assert cases[..|cases|] == cases;
    CountsAll(fold, cases, option, m, axes, a);
  }

  lemma CountsNothing(fold: Fold, option: ArchitectureOption, m: int, axis: Axis)
    requires fold.denominator == 0 && fold.rescue == 0 && fold.damage == 0
    ensures Counts(fold, [], option, m, axis)
  {
  }

  lemma CountsAll(fold: Fold, cases: seq<Case>, option: ArchitectureOption, m: int, axes: seq<Axis>, a: nat)
    requires a < |axes| && Counts(fold, cases, option, m, axes[a]) && fold.option == option && fold.axis == a
    ensures fold == FoldOf(cases, option, m, axes, a, fold.group)
  {
  }

  /** With unique keys the lookup finds the case's own outcome. */
  lemma CaseOutcome(cases: seq<Case>, option: ArchitectureOption, m: int, i: nat)
    requires UniqueKeys(cases) && i < |cases|
    ensures cases[i].key in ByKey(OutcomesOf(cases, option, m))
    ensures ByKey(OutcomesOf(cases, option, m))[cases[i].key] == ApplyOption(cases[i], option, m)
  {
    hide ApplyOption;
    OwnOutcome(OutcomesOf(cases, option, m), i);
  }

  lemma OneMoreCase(fold: Fold, cases: seq<Case>, option: ArchitectureOption, m: int, axis: Axis, c: Case)
    requires Counts(fold, cases, option, m, axis)
    ensures var o := ApplyOption(c, option, m);
      Counts(
        if axis(c) == fold.group then fold
        else fold.(denominator := fold.denominator + 1, rescue := fold.rescue + Bit(o.Rescue()), damage := fold.damage + Bit(o.Damage())),
        cases + [c], option, m, axis)
  {
    hide ApplyOption;
    CountSnoc(cases, c, Outside(axis, fold.group, AnyCase()));
    CountSnoc(cases, c, Outside(axis, fold.group, Rescued(option, m)));
    CountSnoc(cases, c, Outside(axis, fold.group, Damaged(option, m)));
    hide Count;
  }

  lemma CountSnoc(cases: seq<Case>, c: Case, p: Case -> bool)
    ensures Count(cases + [c], p) == Count(cases, p) + Bit(p(c))
  {
    assert (cases + [c])[..|cases|] == cases;
  }

  // ----- all folds -----

  /** The folds of one option along one axis, one for each group. */
  ghost function AxisFolds(cases: seq<Case>, option: ArchitectureOption, m: int, axes: seq<Axis>, a: nat, groups: seq<string>): seq<Fold>
    requires a < |axes|
  {
    seq(|groups|, i requires 0 <= i < |groups| => FoldOf(cases, option, m, axes, a, groups[i]))
  }

  /** The sorted groups of every axis. */
  ghost predicate ListsAll(groups: seq<seq<string>>, cases: seq<Case>, axes: seq<Axis>) {
    |groups| == |axes| && forall a :: 0 <= a < |axes| ==> Lists(groups[a], cases, axes[a])
  }

  ghost function OptionFolds(
      cases: seq<Case>, option: ArchitectureOption, m: int, axes: seq<Axis>, groups: seq<seq<string>>, a: nat): seq<Fold>
    requires a <= |axes| == |groups|
  {
    if a == 0 then []
    else OptionFolds(cases, option, m, axes, groups, a - 1) + AxisFolds(cases, option, m, axes, a - 1, groups[a - 1])
  }

  ghost function AllFolds(
      cases: seq<Case>, options: seq<ArchitectureOption>, m: int, axes: seq<Axis>, groups: seq<seq<string>>): seq<Fold>
    requires |axes| == |groups|
  {
    if options == [] then []
    else
      var n := |options| - 1;
      AllFolds(cases, options[..n], m, axes, groups) + OptionFolds(cases, options[n], m, axes, groups, |axes|)
  }

  /**
   `grouped_robustness` on the outcomes of the cases themselves, as both analyses call it: it raises
   exactly when a key repeats; otherwise it returns one fold for each option, axis and group.
   */
  method GroupedRobustness(cases: seq<Case>, options: seq<ArchitectureOption>, m: int, axes: seq<Axis>)
    returns (result: Result<seq<Fold>>, ghost groups: seq<seq<string>>)
    requires options != []
    ensures result.Ok? <==> UniqueKeys(cases)
    ensures result.Ok? ==> ListsAll(groups, cases, axes) && result.value == AllFolds(cases, options, m, axes, groups)
  {
    hide FoldOf, UniqueKeys, Lists, ByKey;
    var listed := [];
    for a := 0 to |axes|
      invariant |listed| == a && forall b :: 0 <= b < a ==> Lists(listed[b], cases, axes[b])
    {
      var names := SortedGroups(cases, axes[a]);
      listed := listed + [names];
    }
    groups := listed;
    var folds := [];
    for k := 0 to |options|
      invariant folds == AllFolds(cases, options[..k], m, axes, groups)
      invariant k > 0 ==> UniqueKeys(cases)
    {
      var byKey := ByKey(OutcomesOf(cases, options[k], m));
      RepeatsShow(cases, options[k], m);
      if |byKey| != |cases| {
        return Raised, groups;
      }
      ghost var earlier := folds;
      for a := 0 to |axes|
        invariant folds == earlier + OptionFolds(cases, options[k], m, axes, groups, a)
      {
        var more := FoldsOf(cases, options[k], m, axes, a, listed[a], byKey);
        folds := folds + more;
      }
      assert options[..k + 1][..k] == options[..k];
    }
    assert options[..|options|] == options;
    result := Ok(folds);
  }

  lemma RepeatsShow(cases: seq<Case>, option: ArchitectureOption, m: int)
    ensures |ByKey(OutcomesOf(cases, option, m))| == |cases| <==> UniqueKeys(cases)
  {
    hide ApplyOption;
    SizeShowsRepeats(OutcomesOf(cases, option, m));
    var values := OutcomesOf(cases, option, m);
    assert forall i :: 0 <= i < |cases| ==> values[i].key == cases[i].key;
    assert DistinctKeys(values) <==> UniqueKeys(cases);
  }

  method FoldsOf(
      cases: seq<Case>, option: ArchitectureOption, m: int, axes: seq<Axis>, a: nat, groups: seq<string>, byKey: map<string, Outcome>)
    returns (folds: seq<Fold>)
    requires a < |axes| && UniqueKeys(cases) && byKey == ByKey(OutcomesOf(cases, option, m))
    ensures folds == AxisFolds(cases, option, m, axes, a, groups)
  {
    hide FoldOf, UniqueKeys, ByKey;
    folds := [];
    for i := 0 to |groups|
      invariant |folds| == i && forall j :: 0 <= j < i ==> folds[j] == FoldOf(cases, option, m, axes, a, groups[j])
    {
      var fold := OneFold(cases, option, m, axes, a, groups[i], byKey);
      folds := folds + [fold];
    }
  }

  // ----- what the folds add up to -----

  ghost function SumOutside(cases: seq<Case>, axis: Axis, groups: seq<string>, p: Case -> bool): nat {
    if groups == [] then 0
    else
      SumOutside(cases, axis, groups[..|groups| - 1], p) + Count(cases, Outside(axis, groups[|groups| - 1], p))
  }

  ghost function Inside(axis: Axis, groups: seq<string>, p: Case -> bool): Case -> bool {
    (c: Case) => axis(c) in groups && p(c)
  }

  ghost predicate DistinctNames(names: seq<string>) {
    forall i, j :: 0 <= i < j < |names| ==> names[i] != names[j]
  }

  lemma DistinctPrefix(names: seq<string>)
    requires DistinctNames(names) && names != []
    ensures DistinctNames(names[..|names| - 1]) && names[|names| - 1] !in names[..|names| - 1]
  {
  }

  lemma {:induction false} OutsideAndInside(cases: seq<Case>, axis: Axis, groups: seq<string>, p: Case -> bool)
    requires DistinctNames(groups)
    ensures SumOutside(cases, axis, groups, p) + Count(cases, Inside(axis, groups, p)) == |groups| * Count(cases, p)
  {
    if groups == [] {
      CountNone(cases, Inside(axis, groups, p));
    } else {
      var n := |groups| - 1;
      DistinctPrefix(groups);
      OutsideAndInside(cases, axis, groups[..n], p);
      OneMoreGroup(cases, axis, groups[..n], groups[n], p);
      assert groups == groups[..n] + [groups[n]];
      hide Count, Outside, Inside, DistinctNames;
      OneMoreTime(n, Count(cases, p));
    }
  }

  lemma OneMoreTime(n: nat, count: nat)
    ensures (n + 1) * count == n * count + count
  {
  }

  lemma OneMoreGroup(cases: seq<Case>, axis: Axis, groups: seq<string>, group: string, p: Case -> bool)
    requires group !in groups
    ensures Count(cases, Outside(axis, group, p)) + Count(cases, Inside(axis, groups + [group], p))
         == Count(cases, p) + Count(cases, Inside(axis, groups, p))
  {
    CountBalance(cases, Outside(axis, group, p), Inside(axis, groups + [group], p), p, Inside(axis, groups, p));
  }

  lemma SortedGroupsConserve(cases: seq<Case>, axis: Axis, groups: seq<string>, p: Case -> bool)
    requires Lists(groups, cases, axis)
    ensures SumOutside(cases, axis, groups, p) == (|groups| - 1) * Count(cases, p)
  {
    forall i, j | 0 <= i < j < |groups| ensures groups[i] != groups[j] {
      SortedIsDistinct(groups, i, j);
    }
    OutsideAndInside(cases, axis, groups, p);
    CountSame(cases, Inside(axis, groups, p), p);
    if groups == [] {
      assert forall c :: c in cases ==> axis(c) in GroupsOf(cases, axis);
      CountNone(cases, p);
    } else {
      OneMoreTime(|groups| - 1, Count(cases, p));
    }
  }

  ghost function Sum(folds: seq<Fold>, part: Fold -> nat): nat {
    if folds == [] then 0 else Sum(folds[..|folds| - 1], part) + part(folds[|folds| - 1])
  }

  ghost function Denominator(): Fold -> nat { (f: Fold) => f.denominator }
  ghost function Rescue(): Fold -> nat { (f: Fold) => f.rescue }
  ghost function Damage(): Fold -> nat { (f: Fold) => f.damage }

  lemma {:induction false} FoldSums(
      cases: seq<Case>, option: ArchitectureOption, m: int, axes: seq<Axis>, a: nat, groups: seq<string>)
    requires a < |axes|
    ensures var folds := AxisFolds(cases, option, m, axes, a, groups);
      && Sum(folds, Denominator()) == SumOutside(cases, axes[a], groups, AnyCase())
      && Sum(folds, Rescue()) == SumOutside(cases, axes[a], groups, Rescued(option, m))
      && Sum(folds, Damage()) == SumOutside(cases, axes[a], groups, Damaged(option, m))
  {
    hide Count, Outside;
    if groups != [] {
      var n := |groups| - 1;
      FoldSums(cases, option, m, axes, a, groups[..n]);
      var folds := AxisFolds(cases, option, m, axes, a, groups);
      assert folds[..n] == AxisFolds(cases, option, m, axes, a, groups[..n]);
    }
  }

  /**
   Every case is left out of exactly one fold of an axis, so the folds of an option total its
   aggregate once for each group but one: denominators, rescues and damages alike.
   */
  lemma FoldsConserve(cases: seq<Case>, option: ArchitectureOption, m: int, axes: seq<Axis>, a: nat, groups: seq<string>)
    requires a < |axes| && Lists(groups, cases, axes[a])
    ensures var folds, total := AxisFolds(cases, option, m, axes, a, groups), AggregateOf(cases, option, m);
      && Sum(folds, Denominator()) == (|groups| - 1) * |cases|
      && Sum(folds, Rescue()) == (|groups| - 1) * total.rescue
      && Sum(folds, Damage()) == (|groups| - 1) * total.damage
  {
    FoldSums(cases, option, m, axes, a, groups);
    SortedGroupsConserve(cases, axes[a], groups, AnyCase());
    SortedGroupsConserve(cases, axes[a], groups, Rescued(option, m));
    SortedGroupsConserve(cases, axes[a], groups, Damaged(option, m));
    CountTrue(cases, AnyCase());
    hide Lists, SumOutside, Sum, Count, AxisFolds;
  }

  // ----- the audit after the folds -----

  const Options: seq<ArchitectureOption> := [A0, A1, A2, A3, A4, A5]

  /**
   The folds and then the audit's oracle counts. Whenever the audit is reached, its damage is A5's
   own and its rescue is A5's plus the called cases it puts right: nothing is left to assume of the keys.
   */
  method FoldsThenAudit(cases: seq<Adapted>, s: Setting, axes: seq<Axis>) returns (result: Result<(nat, nat)>)
    ensures result.Ok? <==> UniqueCaseKeys(cases)
    ensures result.Ok? ==>
              && result.value.0 == Count(cases, BaseRescued(s)) + Count(cases, AgentRescued(s))
              && result.value.1 == Count(cases, BaseDamaged(s))
  {
    var frontierCases := seq(|cases|, i requires 0 <= i < |cases| => cases[i].c);
    var folds, groups := GroupedRobustness(frontierCases, Options, s.minimumSupport, axes);
    assert UniqueKeys(frontierCases) <==> UniqueCaseKeys(cases) by {
      assert forall i :: 0 <= i < |cases| ==> frontierCases[i].key == cases[i].c.key;
    }
    if folds.Raised? {
      return Raised;
    }
    var rescue, damage, eligible := OracleCounts(cases, s);
    OracleAddsOnlyRescues(cases, s);
    result := Ok((rescue, damage));
  }
}
