/**
 The PR-F protocol check on a Makefile: no PR-F target may reach held-out execution or
 scoring. The two regular expressions are parameters: `forbiddenName` on a target's name,
 `forbiddenRecipe` on the lines of its recipe.
 */
module HeldOutReachability {
  import opened MakefileLines
  import opened MakefileRules

  type Graph = map<string, set<string>>

  datatype Verdict = Passed | NoTarget | ReachesHeldOut

  predicate IsRoot(target: string) {
    || "dta-v21-pr-f-" <= target || "dta-v21-live-" <= target
    || target == "dta-v21-demo" || target == "dta-v21-verify"
  }

  // ----- specification -----

  /** Each target on the path is defined and lists the next one; the last may be undefined. */
  ghost predicate IsPath(graph: Graph, path: seq<string>) {
    && path != []
    && forall i :: 0 <= i < |path| - 1 ==> path[i] in graph && path[i + 1] in graph[path[i]]
  }

  ghost predicate Reaches(graph: Graph, start: string, end: string) {
    exists path :: IsPath(graph, path) && path[0] == start && path[|path| - 1] == end
  }

  ghost predicate Forbidden(
      rules: Rules, forbiddenName: string -> bool, forbiddenRecipe: seq<string> -> bool, target: string)
  {
    forbiddenName(target) || (target in rules.recipes && forbiddenRecipe(rules.recipes[target]))
  }

  ghost predicate ReachesForbidden(
      rules: Rules, forbiddenName: string -> bool, forbiddenRecipe: seq<string> -> bool, start: string)
  {
    exists target ::
      Reaches(rules.prerequisites, start, target) && Forbidden(rules, forbiddenName, forbiddenRecipe, target)
  }

  // ----- the search from one root -----

  lemma ReachesItself(graph: Graph, target: string)
    ensures Reaches(graph, target, target)
  {
    var path := [target];
    assert IsPath(graph, path) && path[0] == target && path[|path| - 1] == target;
  }

  lemma ReachesFurther(graph: Graph, start: string, middle: string, end: string)
    requires Reaches(graph, start, middle) && middle in graph && end in graph[middle]
    ensures Reaches(graph, start, end)
  {
    var path :| IsPath(graph, path) && path[0] == start && path[|path| - 1] == middle;
    var longer := path + [end];
    assert IsPath(graph, longer) && longer[0] == start && longer[|longer| - 1] == end;
  }

  /** Nothing wrong was seen at the targets in `visited`, and their defined prerequisites are accounted for. */
  ghost predicate Explored(
      rules: Rules, forbiddenName: string -> bool, forbiddenRecipe: seq<string> -> bool,
      visited: set<string>, pending: set<string>)
  {
    forall t :: t in visited ==>
      && t in rules.prerequisites && t in rules.recipes
      && !Forbidden(rules, forbiddenName, forbiddenRecipe, t)
      && (forall d :: d in rules.prerequisites[t] ==> !forbiddenName(d))
      && (forall d :: d in rules.prerequisites[t] && d in rules.prerequisites ==> d in visited || d in pending)
  }

  /** A path out of a fully explored set ends inside it, or at an undefined name that is not forbidden. */
  lemma {:induction false} ExploredIsClosed(
      rules: Rules, forbiddenName: string -> bool, forbiddenRecipe: seq<string> -> bool,
      visited: set<string>, path: seq<string>)
    requires rules.prerequisites.Keys == rules.recipes.Keys
    requires Explored(rules, forbiddenName, forbiddenRecipe, visited, {})
    requires IsPath(rules.prerequisites, path) && path[0] in visited
    ensures path[|path| - 1] in visited || path[|path| - 1] !in rules.prerequisites
    ensures !Forbidden(rules, forbiddenName, forbiddenRecipe, path[|path| - 1])
    decreases |path|
  {
    if |path| > 1 {
      var shorter := path[..|path| - 1];
      ExploredIsClosed(rules, forbiddenName, forbiddenRecipe, visited, shorter);
      assert shorter[|shorter| - 1] == path[|path| - 2];
    }
  }

  /** The list comprehension over a set: its elements, in no particular order. */
  method InSomeOrder(items: set<string>) returns (listed: seq<string>)
    ensures forall x :: x in listed <==> x in items
  {
    listed := [];
    var rest := items;
    while rest != {}
      invariant forall x :: x in items <==> x in listed || x in rest
      decreases rest
    {
      var x :| x in rest;
      listed, rest := listed + [x], rest - {x};
    }
  }

  /**
   The depth-first search. It ends because each round either visits one more defined target
   or drops one pending entry.
   */
  method SearchFrom(rules: Rules, forbiddenName: string -> bool, forbiddenRecipe: seq<string> -> bool, root: string)
    returns (found: bool)
    requires rules.prerequisites.Keys == rules.recipes.Keys && root in rules.prerequisites
    ensures found <==> ReachesForbidden(rules, forbiddenName, forbiddenRecipe, root)
  {
    hide Reaches, Forbidden, ReachesForbidden, Explored;
    var graph := rules.prerequisites;
    var pendingTargets, visited := [root], {};
    NothingExplored(rules, forbiddenName, forbiddenRecipe, Elements(pendingTargets));
    ReachesItself(graph, root);
    while pendingTargets != []
      invariant forall t :: t in pendingTargets ==> t in graph && Reaches(graph, root, t)
      invariant visited <= graph.Keys
      invariant Explored(rules, forbiddenName, forbiddenRecipe, visited, Elements(pendingTargets))
      invariant root in visited || root in pendingTargets
      decreases graph.Keys - visited, |pendingTargets|
    {
      var last := |pendingTargets| - 1;
      var target := pendingTargets[last];
      assert pendingTargets == pendingTargets[..last] + [target];
      pendingTargets := pendingTargets[..last];
      ghost var pending, seen := Elements(pendingTargets), visited;
      assert Elements(pendingTargets + [target]) == pending + {target};
      if target in visited {
        AlreadyExplored(rules, forbiddenName, forbiddenRecipe, visited, pending, target);
        continue;
      }
      if forbiddenName(target) || forbiddenRecipe(rules.recipes[target]) {
        FoundAt(rules, forbiddenName, forbiddenRecipe, root, target);
        return true;
      }
      var dependencies := graph[target];
      if exists d :: d in dependencies && forbiddenName(d) {
        var d :| d in dependencies && forbiddenName(d);
        ReachesFurther(graph, root, target, d);
        FoundAt(rules, forbiddenName, forbiddenRecipe, root, d);
        return true;
      }
      assert target in graph.Keys - visited;
      visited := visited + {target};
      var more := InSomeOrder(set d | d in dependencies && d in graph);
      forall d | d in more ensures d in graph && Reaches(graph, root, d) {
        ReachesFurther(graph, root, target, d);
      }
      Explore(rules, forbiddenName, forbiddenRecipe, seen, pending, target, Elements(more));
      assert Elements(pendingTargets + more) == pending + Elements(more);
      pendingTargets := pendingTargets + more;
    }
    assert Elements([]) == {};
    NothingFound(rules, forbiddenName, forbiddenRecipe, visited, root);
    found := false;
  }

  lemma NothingExplored(
      rules: Rules, forbiddenName: string -> bool, forbiddenRecipe: seq<string> -> bool, pending: set<string>)
    ensures Explored(rules, forbiddenName, forbiddenRecipe, {}, pending)
  {
  }

  lemma AlreadyExplored(
      rules: Rules, forbiddenName: string -> bool, forbiddenRecipe: seq<string> -> bool,
      visited: set<string>, pending: set<string>, target: string)
    requires Explored(rules, forbiddenName, forbiddenRecipe, visited, pending + {target}) && target in visited
    ensures Explored(rules, forbiddenName, forbiddenRecipe, visited, pending)
  {
  }

  lemma Explore(
      rules: Rules, forbiddenName: string -> bool, forbiddenRecipe: seq<string> -> bool,
      visited: set<string>, pending: set<string>, target: string, more: set<string>)
    requires Explored(rules, forbiddenName, forbiddenRecipe, visited, pending + {target})
    requires target in rules.prerequisites && target in rules.recipes
    requires !forbiddenName(target) && !forbiddenRecipe(rules.recipes[target])
    requires forall d :: d in rules.prerequisites[target] ==> !forbiddenName(d)
    requires forall d :: d in rules.prerequisites[target] && d in rules.prerequisites ==> d in more
    ensures Explored(rules, forbiddenName, forbiddenRecipe, visited + {target}, pending + more)
  {
  }

  lemma FoundAt(
      rules: Rules, forbiddenName: string -> bool, forbiddenRecipe: seq<string> -> bool, root: string, target: string)
    requires Reaches(rules.prerequisites, root, target)
    requires forbiddenName(target) || (target in rules.recipes && forbiddenRecipe(rules.recipes[target]))
    ensures ReachesForbidden(rules, forbiddenName, forbiddenRecipe, root)
  {
    assert Forbidden(rules, forbiddenName, forbiddenRecipe, target);
  }

  /** Once everything pending is explored, no forbidden target is reachable. */
  lemma NothingFound(
      rules: Rules, forbiddenName: string -> bool, forbiddenRecipe: seq<string> -> bool, visited: set<string>, root: string)
    requires rules.prerequisites.Keys == rules.recipes.Keys && root in visited
    requires Explored(rules, forbiddenName, forbiddenRecipe, visited, {})
    ensures !ReachesForbidden(rules, forbiddenName, forbiddenRecipe, root)
  {
    forall t | Reaches(rules.prerequisites, root, t) ensures !Forbidden(rules, forbiddenName, forbiddenRecipe, t) {
      var path :| IsPath(rules.prerequisites, path) && path[0] == root && path[|path| - 1] == t;
      ExploredIsClosed(rules, forbiddenName, forbiddenRecipe, visited, path);
    }
  }

  // ----- the whole check -----

  ghost predicate HasRoot(rules: Rules) {
    exists r :: r in rules.prerequisites && IsRoot(r)
  }

  ghost predicate SomeRootReachesForbidden(
      rules: Rules, forbiddenName: string -> bool, forbiddenRecipe: seq<string> -> bool)
  {
    exists r :: r in rules.prerequisites && IsRoot(r) && ReachesForbidden(rules, forbiddenName, forbiddenRecipe, r)
  }

  /** One search for each root, in no particular order. */
  method SearchFromRoots(rules: Rules, forbiddenName: string -> bool, forbiddenRecipe: seq<string> -> bool)
    returns (verdict: Verdict)
    requires rules.prerequisites.Keys == rules.recipes.Keys
    ensures verdict == NoTarget <==> !HasRoot(rules)
    ensures verdict == ReachesHeldOut <==> SomeRootReachesForbidden(rules, forbiddenName, forbiddenRecipe)
  {
    hide ReachesForbidden, IsRoot;
    var roots := InSomeOrder(set t | t in rules.prerequisites && IsRoot(t));
    if roots == [] {
      assert forall r :: r in rules.prerequisites && IsRoot(r) ==> r in roots;
      return NoTarget;
    }
    assert roots[0] in roots;
    for i := 0 to |roots|
      invariant forall k :: 0 <= k < i ==> !ReachesForbidden(rules, forbiddenName, forbiddenRecipe, roots[k])
    {
      assert roots[i] in roots;
      var found := SearchFrom(rules, forbiddenName, forbiddenRecipe, roots[i]);
      if found {
        return ReachesHeldOut;
      }
    }
    forall r | r in rules.prerequisites && IsRoot(r)
      ensures !ReachesForbidden(rules, forbiddenName, forbiddenRecipe, r)
    {
      assert r in roots;
    }
    verdict := Passed;
  }

  /** The check on a Makefile. The source raises on the last two verdicts. */
  method VerifyTargets(physical: seq<string>, forbiddenName: string -> bool, forbiddenRecipe: seq<string> -> bool)
    returns (verdict: Verdict, rules: Rules)
    ensures Represents(rules, Join(physical))
    ensures verdict == NoTarget <==> !HasRoot(rules)
    ensures verdict == ReachesHeldOut <==> SomeRootReachesForbidden(rules, forbiddenName, forbiddenRecipe)
  {
    var lines := JoinLines(physical);
    rules := ParseRules(lines);
    verdict := SearchFromRoots(rules, forbiddenName, forbiddenRecipe);
  }

  /** The rules a file stands for are determined by the file, so the verdict is. */
  lemma RulesAreDetermined(one: Rules, two: Rules, lines: seq<string>)
    requires Represents(one, lines) && Represents(two, lines)
    ensures one == two
  {
    assert one.prerequisites.Keys == two.prerequisites.Keys;
    forall t | t in one.prerequisites ensures one.prerequisites[t] == two.prerequisites[t] {
      forall p ensures p in one.prerequisites[t] <==> p in two.prerequisites[t] {
        assert p in one.prerequisites[t] <==> DependsOn(lines, t, p);
        assert p in two.prerequisites[t] <==> DependsOn(lines, t, p);
      }
    }
  }

  /** A forbidden prerequisite condemns its rule even when no rule defines it. */
  lemma UndefinedPrerequisiteCounts(
      rules: Rules, forbiddenName: string -> bool, forbiddenRecipe: seq<string> -> bool, root: string, item: string)
    requires root in rules.prerequisites && item in rules.prerequisites[root]
    requires item !in rules.prerequisites && forbiddenName(item)
    ensures ReachesForbidden(rules, forbiddenName, forbiddenRecipe, root)
  {
    ReachesItself(rules.prerequisites, root);
    ReachesFurther(rules.prerequisites, root, root, item);
  }
}
