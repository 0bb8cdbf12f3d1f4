/**
 The rule graph of a Makefile: which targets are defined, what each one depends on and
 which recipe lines it owns. The specification speaks of whole files (a recipe line
 belongs to the header that governs it); the method is the source's one-pass parser.
 */
module MakefileRules {
  import opened MakefileLines

  datatype Rules = Rules(prerequisites: map<string, set<string>>, recipes: map<string, seq<string>>)

  // ----- specification -----

  /** Header `h` is the rule that line `i` falls under. */
  ghost predicate Governs(lines: seq<string>, h: int, i: int) {
    && 0 <= h < i <= |lines|
    && IsHeader(lines[h])
    && forall j :: h < j < i ==> !IsHeader(lines[j]) && !Ends(lines[j])
  }

  /** The targets of the rule that line `i` falls under, if there is one. */
  ghost function LiveTargets(lines: seq<string>, i: nat): seq<string>
    requires i <= |lines|
  {
    if i == 0 then []
    else if IsHeader(lines[i - 1]) then Targets(lines[i - 1])
    else if Ends(lines[i - 1]) then []
    else LiveTargets(lines, i - 1)
  }

  lemma {:induction false} LiveTargetsAreGoverning(lines: seq<string>, i: nat)
    requires i <= |lines|
    ensures forall h :: Governs(lines, h, i) ==> LiveTargets(lines, i) == Targets(lines[h])
    ensures (forall h :: !Governs(lines, h, i)) ==> LiveTargets(lines, i) == []
  {
    if i > 0 {
      LiveTargetsAreGoverning(lines, i - 1);
      if IsHeader(lines[i - 1]) {
        assert Governs(lines, i - 1, i);
      } else if !Ends(lines[i - 1]) {
        var before := i - 1;
        if h :| Governs(lines, h, before) {
          assert Governs(lines, h, i);
        }
      }
    }
  }

  ghost predicate Heads(lines: seq<string>, h: int, target: string) {
    0 <= h < |lines| && IsHeader(lines[h]) && target in Targets(lines[h])
  }

  ghost predicate Defined(lines: seq<string>, target: string) {
    exists h :: Heads(lines, h, target)
  }

  ghost predicate DependsOn(lines: seq<string>, target: string, item: string) {
    exists h :: Heads(lines, h, target) && item in Prerequisites(lines[h])
  }

  function Copies(n: nat, line: string): seq<string> {
    seq(n, _ => line)
  }

  /**
   The recipe of `target`: in file order, every tab line under a rule that names it, once for
   each time the header names it.
   */
  ghost function Recipe(lines: seq<string>, target: string): seq<string> {
    if lines == [] then []
    else
      var n := |lines| - 1;
      Recipe(lines[..n], target)
      + if IsRecipe(lines[n]) then Copies(multiset(LiveTargets(lines, n))[target], lines[n]) else []
  }

  lemma {:induction false} LiveTargetsOfPrefix(lines: seq<string>, n: nat, i: nat)
    requires i <= n <= |lines|
    ensures LiveTargets(lines[..n], i) == LiveTargets(lines, i)
  {
    if i > 0 {
      LiveTargetsOfPrefix(lines, n, i - 1);
    }
  }

  ghost predicate Represents(rules: Rules, lines: seq<string>) {
    && rules.prerequisites.Keys == rules.recipes.Keys
    && (forall t :: t in rules.prerequisites <==> Defined(lines, t))
    && (forall t, p :: t in rules.prerequisites ==> (p in rules.prerequisites[t] <==> DependsOn(lines, t, p)))
    && (forall t :: t in rules.recipes ==> rules.recipes[t] == Recipe(lines, t))
  }

  /** A target no header names owns no recipe line. */
  lemma {:induction false} UndefinedOwnsNothing(lines: seq<string>, target: string)
    requires !Defined(lines, target)
    ensures Recipe(lines, target) == []
  {
    if lines != [] {
      var n := |lines| - 1;
      assert forall h :: Heads(lines[..n], h, target) ==> Heads(lines, h, target);
      UndefinedOwnsNothing(lines[..n], target);
      LiveTargetsAreGoverning(lines, n);
      if h :| Governs(lines, h, n) {
        assert !Heads(lines, h, target);
      }
    }
  }

  /**
   A tab line goes, in file order, to the recipes of exactly the targets on the header that
   governs it; with no governing header it goes nowhere.
   */
  lemma RecipeLineGoesToItsRule(lines: seq<string>, line: string, h: int, target: string)
    requires IsRecipe(line) && Governs(lines, h, |lines|)
    ensures target in Targets(lines[h]) <==> Recipe(lines + [line], target) != Recipe(lines, target)
    ensures Recipe(lines + [line], target)
         == Recipe(lines, target) + Copies(multiset(Targets(lines[h]))[target], line)
  {
    var more := lines + [line];
    assert more[..|lines|] == lines;
    LiveTargetsAreGoverning(lines, |lines|);
    LiveTargetsOfPrefix(more, |lines|, |lines|);
  }

  // ----- the parser -----

  method ParseRules(lines: seq<string>) returns (rules: Rules)
    ensures Represents(rules, lines)
  {
    rules := Rules(map[], map[]);
    var currentTargets: seq<string> := [];
    assert lines[..0] == [];
    for i := 0 to |lines|
      invariant Represents(rules, lines[..i])
      invariant currentTargets == LiveTargets(lines, i)
    {
      var line := lines[i];
      assert lines[..i + 1] == lines[..i] + [line];
      if IsHeader(line) {
        currentTargets := Targets(line);
        var prerequisites := AddPrerequisites(rules.prerequisites, currentTargets, Elements(Prerequisites(line)));
        var recipes := AddRecipes(rules.recipes, currentTargets);
        RuleRepresented(rules, Rules(prerequisites, recipes), lines[..i], line);
        rules := Rules(prerequisites, recipes);
      } else if IsRecipe(line) && currentTargets != [] {
        LiveTargetsOfPrefix(lines, i, i);
        LiveTargetsAreDefined(lines[..i], i);
        var recipes := AddRecipeLine(rules.recipes, currentTargets, line);
        LineRepresented(rules, recipes, lines[..i], line);
        rules := Rules(rules.prerequisites, recipes);
      } else {
        LiveTargetsOfPrefix(lines, i, i);
        NothingAdded(rules, lines[..i], line);
        if line != "" && line[0] !in {' ', '#'} {
          currentTargets := [];
        }
      }
    }
    assert lines[..|lines|] == lines;
  }

  /** `setdefault(target, set()).update(raw)` for each target. */
  method AddPrerequisites(prerequisites: map<string, set<string>>, targets: seq<string>, raw: set<string>)
    returns (more: map<string, set<string>>)
    ensures PrerequisitesAdded(prerequisites, more, targets, raw)
  {
    more := prerequisites;
    for k := 0 to |targets|
      invariant PrerequisitesAdded(prerequisites, more, targets[..k], raw)
    {
      var target := targets[k];
      OneMoreUpdate(prerequisites, more, targets[..k], target, raw);
      assert targets[..k + 1] == targets[..k] + [target];
      more := more[target := (if target in more then more[target] else {}) + raw];
    }
    assert targets[..|targets|] == targets;
  }

  ghost predicate PrerequisitesAdded(
      prerequisites: map<string, set<string>>, more: map<string, set<string>>, targets: seq<string>, raw: set<string>)
  {
    && (forall t :: t in more <==> t in prerequisites || t in targets)
    && (forall t, p :: t in more ==>
          (p in more[t] <==> (t in prerequisites && p in prerequisites[t]) || (t in targets && p in raw)))
  }

  lemma OneMoreUpdate(
      prerequisites: map<string, set<string>>, more: map<string, set<string>>, targets: seq<string>, target: string, raw: set<string>)
    requires PrerequisitesAdded(prerequisites, more, targets, raw)
    ensures PrerequisitesAdded(
              prerequisites, more[target := (if target in more then more[target] else {}) + raw], targets + [target], raw)
  {
    var after := more[target := (if target in more then more[target] else {}) + raw];
    forall t, p | t in after
      ensures p in after[t] <==>
              (t in prerequisites && p in prerequisites[t]) || (t in targets + [target] && p in raw)
    {
      if t == target && t !in more {
        assert t !in prerequisites && t !in targets;
      }
    }
  }

  /** `recipes.setdefault(target, [])` for each target. */
  method AddRecipes(recipes: map<string, seq<string>>, targets: seq<string>)
    returns (more: map<string, seq<string>>)
    ensures RecipesAdded(recipes, more, targets)
  {
    more := recipes;
    for k := 0 to |targets|
      invariant RecipesAdded(recipes, more, targets[..k])
    {
      var target := targets[k];
      assert targets[..k + 1] == targets[..k] + [target];
      if target !in more {
        more := more[target := []];
      }
    }
    assert targets[..|targets|] == targets;
  }

  ghost predicate RecipesAdded(recipes: map<string, seq<string>>, more: map<string, seq<string>>, targets: seq<string>) {
    && (forall t :: t in more <==> t in recipes || t in targets)
    && (forall t :: t in more ==> more[t] == if t in recipes then recipes[t] else [])
  }

  /** `recipes[target].append(line)` for each live target. */
  method AddRecipeLine(recipes: map<string, seq<string>>, currentTargets: seq<string>, line: string)
    returns (more: map<string, seq<string>>)
    requires forall t :: t in currentTargets ==> t in recipes
    ensures LineAdded(recipes, more, currentTargets, line)
  {
    more := recipes;
    for k := 0 to |currentTargets|
      invariant LineAdded(recipes, more, currentTargets[..k], line)
    {
      var target := currentTargets[k];
      OneMoreCopy(recipes, more, currentTargets[..k], target, line);
      assert currentTargets[..k + 1] == currentTargets[..k] + [target];
      more := more[target := more[target] + [line]];
    }
    assert currentTargets[..|currentTargets|] == currentTargets;
  }

  ghost predicate LineAdded(
      recipes: map<string, seq<string>>, more: map<string, seq<string>>, targets: seq<string>, line: string)
  {
    && more.Keys == recipes.Keys
    && forall t :: t in recipes ==> more[t] == recipes[t] + Copies(multiset(targets)[t], line)
  }

  lemma OneMoreCopy(recipes: map<string, seq<string>>, more: map<string, seq<string>>, targets: seq<string>, target: string, line: string)
    requires LineAdded(recipes, more, targets, line) && target in recipes
    ensures LineAdded(recipes, more[target := more[target] + [line]], targets + [target], line)
  {
    var after := more[target := more[target] + [line]];
    forall t | t in recipes ensures after[t] == recipes[t] + Copies(multiset(targets + [target])[t], line) {
      assert multiset(targets + [target]) == multiset(targets) + multiset{target};
      assert Copies(multiset(targets)[t], line) + [line] == Copies(multiset(targets)[t] + 1, line);
    }
  }

  function Elements(words: seq<string>): (s: set<string>)
    ensures forall w :: w in s <==> w in words
  {
    set w | w in words
  }

  lemma RuleRepresented(rules: Rules, more: Rules, lines: seq<string>, line: string)
    requires Represents(rules, lines) && IsHeader(line)
    requires PrerequisitesAdded(rules.prerequisites, more.prerequisites, Targets(line), Elements(Prerequisites(line)))
    requires RecipesAdded(rules.recipes, more.recipes, Targets(line))
    ensures Represents(more, lines + [line])
  {
    hide IsHeader, IsRecipe, Targets, Prerequisites, Heads, Defined, DependsOn, Recipe, LiveTargets;
    var all := lines + [line];
    forall t ensures t in more.prerequisites <==> Defined(all, t) {
      DefinedGrows(lines, line, t);
    }
    forall t, p | t in more.prerequisites
      ensures p in more.prerequisites[t] <==> DependsOn(all, t, p)
    {
      EdgeRepresented(rules, more.prerequisites, lines, line, t, p);
    }
    forall t | t in more.recipes ensures more.recipes[t] == Recipe(all, t) {
      RecipeRepresented(rules, more.recipes, lines, line, t);
    }
  }

  lemma EdgeRepresented(rules: Rules, more: map<string, set<string>>, lines: seq<string>, line: string, t: string, p: string)
    requires Represents(rules, lines) && IsHeader(line) && t in more
    requires PrerequisitesAdded(rules.prerequisites, more, Targets(line), Elements(Prerequisites(line)))
    ensures p in more[t] <==> DependsOn(lines + [line], t, p)
  {
    hide IsHeader, IsRecipe, Targets, Prerequisites, Heads, Defined, DependsOn, Recipe, LiveTargets;
    DependsGrows(lines, line, t, p);
    DefinedIfDepends(lines, t, p);
  }

  lemma RecipeRepresented(rules: Rules, more: map<string, seq<string>>, lines: seq<string>, line: string, t: string)
    requires Represents(rules, lines) && IsHeader(line) && t in more && RecipesAdded(rules.recipes, more, Targets(line))
    ensures more[t] == Recipe(lines + [line], t)
  {
    assert !IsRecipe(line);
    hide IsHeader, IsRecipe, Targets, Prerequisites, Heads, Defined, DependsOn, Recipe, LiveTargets;
    HeaderOwnsNothing(lines, line, t);
    if t !in rules.recipes {
      UndefinedOwnsNothing(lines, t);
    }
  }

  lemma HeaderOwnsNothing(lines: seq<string>, line: string, t: string)
    requires !IsRecipe(line)
    ensures Recipe(lines + [line], t) == Recipe(lines, t)
  {
    assert (lines + [line])[..|lines|] == lines;
  }

  lemma HeadsGrow(lines: seq<string>, line: string, t: string)
    ensures forall h :: h != |lines| ==> Heads(lines + [line], h, t) == Heads(lines, h, t)
  {
  }

  lemma DefinedIfDepends(lines: seq<string>, t: string, p: string)
    ensures DependsOn(lines, t, p) ==> Defined(lines, t)
  {
  }

  lemma DefinedGrows(lines: seq<string>, line: string, t: string)
    ensures Defined(lines + [line], t) <==> Defined(lines, t) || (IsHeader(line) && t in Targets(line))
  {
    var all := lines + [line];
    HeadsGrow(lines, line, t);
    if h :| Heads(lines, h, t) {
      assert Heads(all, h, t);
    }
    if IsHeader(line) && t in Targets(line) {
      assert Heads(all, |lines|, t);
    }
  }

  lemma DependsGrows(lines: seq<string>, line: string, t: string, p: string)
    ensures DependsOn(lines + [line], t, p)
       <==> DependsOn(lines, t, p) || (IsHeader(line) && t in Targets(line) && p in Prerequisites(line))
  {
    var all := lines + [line];
    HeadsGrow(lines, line, t);
    if h :| Heads(lines, h, t) && p in Prerequisites(lines[h]) {
      assert Heads(all, h, t) && p in Prerequisites(all[h]);
    }
    if IsHeader(line) && t in Targets(line) && p in Prerequisites(line) {
      assert Heads(all, |lines|, t) && p in Prerequisites(all[|lines|]);
    }
  }

  lemma LiveTargetsAreDefined(lines: seq<string>, i: nat)
    requires i <= |lines|
    ensures forall t :: t in LiveTargets(lines, i) ==> Defined(lines, t)
  {
    LiveTargetsAreGoverning(lines, i);
    if h :| Governs(lines, h, i) {
      assert forall t :: t in Targets(lines[h]) ==> Heads(lines, h, t);
    }
  }

  lemma LineRepresented(rules: Rules, recipes: map<string, seq<string>>, lines: seq<string>, line: string)
    requires Represents(rules, lines) && IsRecipe(line)
    requires LineAdded(rules.recipes, recipes, LiveTargets(lines, |lines|), line)
    ensures Represents(Rules(rules.prerequisites, recipes), lines + [line])
  {
    hide Targets, Prerequisites, Heads, Defined, DependsOn, LiveTargets;
    SameGraph(rules, lines, line);
    forall t ensures Recipe(lines + [line], t) == Recipe(lines, t) + Copies(multiset(LiveTargets(lines, |lines|))[t], line) {
      RecipeGrows(lines, line, t);
    }
  }

  lemma RecipeGrows(lines: seq<string>, line: string, target: string)
    requires IsRecipe(line)
    ensures Recipe(lines + [line], target)
         == Recipe(lines, target) + Copies(multiset(LiveTargets(lines, |lines|))[target], line)
  {
    assert (lines + [line])[..|lines|] == lines;
    LiveTargetsOfPrefix(lines + [line], |lines|, |lines|);
  }

  lemma SameGraph(rules: Rules, lines: seq<string>, line: string)
    requires Represents(rules, lines) && !IsHeader(line)
    ensures forall t :: t in rules.prerequisites <==> Defined(lines + [line], t)
    ensures forall t, p :: t in rules.prerequisites ==>
              (p in rules.prerequisites[t] <==> DependsOn(lines + [line], t, p))
  {
    forall t ensures Defined(lines + [line], t) <==> Defined(lines, t) {
      DefinedGrows(lines, line, t);
    }
    forall t, p ensures DependsOn(lines + [line], t, p) <==> DependsOn(lines, t, p) {
      DependsGrows(lines, line, t, p);
    }
  }

  lemma NothingAdded(rules: Rules, lines: seq<string>, line: string)
    requires Represents(rules, lines) && !IsHeader(line)
    requires IsRecipe(line) ==> LiveTargets(lines, |lines|) == []
    ensures Represents(rules, lines + [line])
  {
    hide IsHeader, Targets, Prerequisites, Heads, Defined, DependsOn, Recipe, LiveTargets;
    SameGraph(rules, lines, line);
    forall t ensures Recipe(lines + [line], t) == Recipe(lines, t) {
      SameRecipe(lines, line, t);
    }
  }

  lemma SameRecipe(lines: seq<string>, line: string, target: string)
    requires IsRecipe(line) ==> LiveTargets(lines, |lines|) == []
    ensures Recipe(lines + [line], target) == Recipe(lines, target)
  {
    assert (lines + [line])[..|lines|] == lines;
    LiveTargetsOfPrefix(lines + [line], |lines|, |lines|);
  }
}
