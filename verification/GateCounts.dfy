/**
 The gate and comparison tables of the offline diagnosis, filled in one loop over the cases, and
 what they say about the routes the runs were really on.
 */
module GateCounts {
  import opened Wrappers
  import opened Counting
  import opened Tally
  import opened RouteInference

  /** What became of the adaptive run of a case. */
  datatype Outcome =
    | Completed(initialRoot: string, route: Route)
    | Stopped(operations: seq<Operation>)

  datatype Case = Case(truth: string, referenceRoot: string, outcome: Outcome) {
    predicate ReferenceRight() { referenceRoot == truth }
    predicate InitialRight() { outcome.Completed? && outcome.initialRoot == truth }
  }

  datatype Comparison = SameRoot | DifferentRoot | BothRight | ReferenceOnly | InitialOnly | BothWrong

  datatype Provenance = PersistedTrue | SequenceInferred | Unknown(reason: Disposition)

  datatype Gate = Gate(
    initial: map<Comparison, nat>, known: map<Route, nat>, unavailable: map<Disposition, nat>,
    provenance: map<Provenance, nat>, proxy: seq<(Route, bool)>)

  /** The contexts of the stopped runs were read without an error. */
  predicate Read(c: Case) {
    c.outcome.Stopped? ==> Infer(c.outcome.operations).Ok?
  }

  // ----- what each table counts -----

  ghost predicate KnownTo(c: Case, route: Route) {
    match c.outcome
    case Completed(_, actual) => actual == route
    case Stopped(operations) =>
      Infer(operations).Ok? && Infer(operations).value.disposition == KnownFromOperationSequence(route)
  }

  ghost predicate UnknownFor(c: Case, reason: Disposition) {
    && c.outcome.Stopped? && Infer(c.outcome.operations).Ok?
    && Infer(c.outcome.operations).value.disposition == reason && !reason.KnownFromOperationSequence?
  }

  ghost function IsCompleted(): Case -> bool { (c: Case) => c.outcome.Completed? }
  ghost function IsKnownTo(route: Route): Case -> bool { (c: Case) => KnownTo(c, route) }
  ghost function IsKnown(): Case -> bool { (c: Case) => exists route :: KnownTo(c, route) }
  ghost function IsUnknownFor(reason: Disposition): Case -> bool { (c: Case) => UnknownFor(c, reason) }
  ghost function IsUnknown(): Case -> bool { (c: Case) => exists reason :: UnknownFor(c, reason) }
  ghost function IsInferred(): Case -> bool { (c: Case) => c.outcome.Stopped? && exists route :: KnownTo(c, route) }
  ghost function IsCompared(k: Comparison): Case -> bool { (c: Case) => Compared(c, k) }

  ghost function IsPair(route: Route, right: bool): ((Route, bool)) -> bool { (p: (Route, bool)) => p == (route, right) }
  ghost function IsKnownWith(route: Route, right: bool): Case -> bool {
    (c: Case) => KnownTo(c, route) && c.ReferenceRight() == right
  }

  ghost predicate Compared(c: Case, k: Comparison) {
    c.outcome.Completed?
    && match k
       case SameRoot => c.outcome.initialRoot == c.referenceRoot
       case DifferentRoot => c.outcome.initialRoot != c.referenceRoot
       case BothRight => c.ReferenceRight() && c.InitialRight()
       case ReferenceOnly => c.ReferenceRight() && !c.InitialRight()
       case InitialOnly => !c.ReferenceRight() && c.InitialRight()
       case BothWrong => !c.ReferenceRight() && !c.InitialRight()
  }

  ghost predicate ComparesAll(g: Gate, cases: seq<Case>) {
    forall k :: Get(g.initial, k) == Count(cases, IsCompared(k))
  }

  ghost predicate KnowsAll(g: Gate, cases: seq<Case>) {
    && (forall route :: Get(g.known, route) == Count(cases, IsKnownTo(route)))
    && Total(g.known) == Count(cases, IsKnown())
    && (forall route, right :: Count(g.proxy, IsPair(route, right)) == Count(cases, IsKnownWith(route, right)))
    && |g.proxy| == Total(g.known)
  }

  ghost predicate ExcusesAll(g: Gate, cases: seq<Case>) {
    && (forall reason :: Get(g.unavailable, reason) == Count(cases, IsUnknownFor(reason)))
    && Total(g.unavailable) == Count(cases, IsUnknown())
  }

  ghost predicate TracesAll(g: Gate, cases: seq<Case>) {
    && Get(g.provenance, PersistedTrue) == Count(cases, IsCompleted())
    && Get(g.provenance, SequenceInferred) == Count(cases, IsInferred())
    && (forall reason :: Get(g.provenance, Unknown(reason)) == Count(cases, IsUnknownFor(reason)))
    && Total(g.provenance) == |cases|
  }

  ghost predicate Tabulates(g: Gate, cases: seq<Case>) {
    ComparesAll(g, cases) && KnowsAll(g, cases) && ExcusesAll(g, cases) && TracesAll(g, cases)
  }

  function Cell(reference: bool, initial: bool): Comparison {
    if reference && initial then BothRight
    else if reference then ReferenceOnly
    else if initial then InitialOnly
    else BothWrong
  }

  /** The loop over the cases. */
  method GateTables(cases: seq<Case>) returns (g: Gate)
    requires forall c :: c in cases ==> Read(c)
    ensures Tabulates(g, cases)
  {
    hide Tabulates, ComparesAll, KnowsAll, ExcusesAll, TracesAll;
    g := Gate(map[], map[], map[], map[], []);
    NothingCounted(g);
    for i := 0 to |cases|
      invariant Tabulates(g, cases[..i])
    {
      var c := cases[i];
      assert c in cases;
      assert cases[..i + 1] == cases[..i] + [c];
      ghost var before := g;
      match c.outcome {
        case Completed(initialRoot, route) =>
          var same := initialRoot == c.referenceRoot;
          g := g.(initial := AddOne(g.initial, if same then SameRoot else DifferentRoot));
          g := g.(initial := AddOne(g.initial, Cell(c.ReferenceRight(), c.InitialRight())));
          g := g.(known := AddOne(g.known, route));
          g := g.(provenance := AddOne(g.provenance, PersistedTrue));
          g := g.(proxy := g.proxy + [(route, c.ReferenceRight())]);
          CompletedCase(before, g, cases[..i], c);
        case Stopped(operations) =>
          var disposition := Infer(operations).value.disposition;
          if disposition.KnownFromOperationSequence? {
            g := g.(known := AddOne(g.known, disposition.route));
            g := g.(provenance := AddOne(g.provenance, SequenceInferred));
            g := g.(proxy := g.proxy + [(disposition.route, c.ReferenceRight())]);
            InferredCase(before, g, cases[..i], c);
          } else {
            g := g.(unavailable := AddOne(g.unavailable, disposition));
            g := g.(provenance := AddOne(g.provenance, Unknown(disposition)));
            UnknownCase(before, g, cases[..i], c);
          }
      }
    }
    assert cases[..|cases|] == cases;
  }

  lemma NothingCounted(g: Gate)
    requires g == Gate(map[], map[], map[], map[], [])
    ensures Tabulates(g, [])
  {
  }

  lemma CountLast<T>(s: seq<T>, x: T, p: T -> bool)
    ensures Count(s + [x], p) == Count(s, p) + Bit(p(x))
  {
    assert (s + [x])[..|s|] == s;
  }

  lemma CompletedCase(g: Gate, more: Gate, cases: seq<Case>, c: Case)
    requires Tabulates(g, cases) && c.outcome.Completed?
    requires more.initial == AddOne(
               AddOne(g.initial, if c.outcome.initialRoot == c.referenceRoot then SameRoot else DifferentRoot),
               Cell(c.ReferenceRight(), c.InitialRight()))
    requires more.known == AddOne(g.known, c.outcome.route) && more.unavailable == g.unavailable
    requires more.provenance == AddOne(g.provenance, PersistedTrue) && more.proxy == g.proxy + [(c.outcome.route, c.ReferenceRight())]
    ensures Tabulates(more, cases + [c])
  {
    hide ComparesAll, KnowsAll, ExcusesAll, TracesAll;
    OneMoreCompared(g, more, cases, c);
    assert KnownTo(c, c.outcome.route);
    OneMoreKnown(g, more, cases, c, c.outcome.route);
    SameExcuses(g, more, cases, c);
    OneMoreTraced(g, more, cases, c, PersistedTrue);
  }

  lemma OneMoreCompared(g: Gate, more: Gate, cases: seq<Case>, c: Case)
    requires ComparesAll(g, cases) && c.outcome.Completed?
    requires more.initial == AddOne(
               AddOne(g.initial, if c.outcome.initialRoot == c.referenceRoot then SameRoot else DifferentRoot),
               Cell(c.ReferenceRight(), c.InitialRight()))
    ensures ComparesAll(more, cases + [c])
  {
    forall k ensures Get(more.initial, k) == Count(cases + [c], IsCompared(k)) {
      CountLast(cases, c, IsCompared(k));
    }
  }

  lemma InferredCase(g: Gate, more: Gate, cases: seq<Case>, c: Case)
    requires Tabulates(g, cases) && c.outcome.Stopped? && Read(c)
    requires var d := Infer(c.outcome.operations).value.disposition;
      && d.KnownFromOperationSequence? && more.known == AddOne(g.known, d.route)
      && more.proxy == g.proxy + [(d.route, c.ReferenceRight())]
    requires more.initial == g.initial && more.unavailable == g.unavailable
    requires more.provenance == AddOne(g.provenance, SequenceInferred)
    ensures Tabulates(more, cases + [c])
  {
    SameComparisons(g, more, cases, c);
    var d := Infer(c.outcome.operations).value.disposition;
    assert KnownTo(c, d.route);
    OneMoreKnown(g, more, cases, c, d.route);
    SameExcuses(g, more, cases, c);
    OneMoreTraced(g, more, cases, c, SequenceInferred);
  }

  lemma UnknownCase(g: Gate, more: Gate, cases: seq<Case>, c: Case)
    requires Tabulates(g, cases) && c.outcome.Stopped? && Read(c)
    requires var d := Infer(c.outcome.operations).value.disposition;
      && !d.KnownFromOperationSequence? && more.unavailable == AddOne(g.unavailable, d)
      && more.provenance == AddOne(g.provenance, Unknown(d))
    requires more.initial == g.initial && more.known == g.known && more.proxy == g.proxy
    ensures Tabulates(more, cases + [c])
  {
    SameComparisons(g, more, cases, c);
    var d := Infer(c.outcome.operations).value.disposition;
    assert UnknownFor(c, d);
    assert KnowsAll(more, cases + [c]) by {
      CountLast(cases, c, IsKnown());
      forall route ensures Get(more.known, route) == Count(cases + [c], IsKnownTo(route)) {
        CountLast(cases, c, IsKnownTo(route));
      }
      forall r, right ensures Count(more.proxy, IsPair(r, right)) == Count(cases + [c], IsKnownWith(r, right)) {
        CountLast(cases, c, IsKnownWith(r, right));
      }
    }
    assert ExcusesAll(more, cases + [c]) by {
      CountLast(cases, c, IsUnknown());
      TotalAfterOne(g.unavailable, d);
      forall reason ensures Get(more.unavailable, reason) == Count(cases + [c], IsUnknownFor(reason)) {
        CountLast(cases, c, IsUnknownFor(reason));
      }
    }
    OneMoreTraced(g, more, cases, c, Unknown(d));
  }

  lemma SameComparisons(g: Gate, more: Gate, cases: seq<Case>, c: Case)
    requires ComparesAll(g, cases) && more.initial == g.initial && c.outcome.Stopped?
    ensures ComparesAll(more, cases + [c])
  {
    forall k ensures Get(more.initial, k) == Count(cases + [c], IsCompared(k)) {
      CountLast(cases, c, IsCompared(k));
    }
  }

  lemma SameExcuses(g: Gate, more: Gate, cases: seq<Case>, c: Case)
    requires ExcusesAll(g, cases) && more.unavailable == g.unavailable && exists route :: KnownTo(c, route)
    ensures ExcusesAll(more, cases + [c])
  {
    CountLast(cases, c, IsUnknown());
    forall reason ensures Get(more.unavailable, reason) == Count(cases + [c], IsUnknownFor(reason)) {
      CountLast(cases, c, IsUnknownFor(reason));
    }
  }

  lemma OneMoreKnown(g: Gate, more: Gate, cases: seq<Case>, c: Case, route: Route)
    requires KnowsAll(g, cases) && KnownTo(c, route)
    requires more.known == AddOne(g.known, route) && more.proxy == g.proxy + [(route, c.ReferenceRight())]
    ensures KnowsAll(more, cases + [c])
  {
    CountLast(cases, c, IsKnown());
    TotalAfterOne(g.known, route);
    forall r, right ensures Count(more.proxy, IsPair(r, right)) == Count(cases + [c], IsKnownWith(r, right)) {
      CountLast(cases, c, IsKnownWith(r, right));
      CountLast(g.proxy, (route, c.ReferenceRight()), IsPair(r, right));
    }
    forall r ensures Get(more.known, r) == Count(cases + [c], IsKnownTo(r)) {
      CountLast(cases, c, IsKnownTo(r));
    }
  }

  /** Where the route of a case is known from. */
  ghost predicate CameFrom(c: Case, p: Provenance) {
    match p
    case PersistedTrue => c.outcome.Completed?
    case SequenceInferred => c.outcome.Stopped? && exists route :: KnownTo(c, route)
    case Unknown(reason) => UnknownFor(c, reason)
  }

  lemma OneMoreTraced(g: Gate, more: Gate, cases: seq<Case>, c: Case, p: Provenance)
    requires TracesAll(g, cases) && CameFrom(c, p) && more.provenance == AddOne(g.provenance, p)
    ensures TracesAll(more, cases + [c])
  {
    TotalAfterOne(g.provenance, p);
    CountLast(cases, c, IsCompleted());
    CountLast(cases, c, IsInferred());
    forall reason ensures Get(more.provenance, Unknown(reason)) == Count(cases + [c], IsUnknownFor(reason)) {
      CountLast(cases, c, IsUnknownFor(reason));
    }
  }

  // ----- the identities -----

  /** The gate tables partition the cases, and the comparison cells partition the completed ones. */
  lemma GateReconciles(g: Gate, cases: seq<Case>)
    requires Tabulates(g, cases) && forall c :: c in cases ==> Read(c)
    ensures Total(g.known) + Total(g.unavailable) == Total(g.provenance) == |cases|
    ensures |g.proxy| == Total(g.known)
         == Get(g.provenance, PersistedTrue) + Get(g.provenance, SequenceInferred)
    ensures Get(g.initial, SameRoot) + Get(g.initial, DifferentRoot)
         == Get(g.initial, BothRight) + Get(g.initial, ReferenceOnly) + Get(g.initial, InitialOnly) + Get(g.initial, BothWrong)
         == Get(g.provenance, PersistedTrue)
  {
    KnownOrUnknown(cases);
    CountSplit(cases, IsCompleted(), IsCompared(SameRoot), IsCompared(DifferentRoot));
    CountSplit(cases, IsCompleted(), IsReferenceRight(true), IsReferenceRight(false));
    CountSplit(cases, IsReferenceRight(true), IsCompared(BothRight), IsCompared(ReferenceOnly));
    CountSplit(cases, IsReferenceRight(false), IsCompared(InitialOnly), IsCompared(BothWrong));
  }

  ghost function IsReferenceRight(right: bool): Case -> bool {
    (c: Case) => c.outcome.Completed? && c.ReferenceRight() == right
  }

  ghost function IsInitialRight(): Case -> bool { (c: Case) => c.InitialRight() }

  lemma KnownOrUnknown(cases: seq<Case>)
    requires forall c :: c in cases ==> Read(c)
    ensures Count(cases, IsKnown()) + Count(cases, IsUnknown()) == |cases|
    ensures Count(cases, IsKnown()) == Count(cases, IsCompleted()) + Count(cases, IsInferred())
  {
    forall c | c in cases ensures IsKnown()(c) == !IsUnknown()(c) && (IsCompleted()(c) ==> IsKnown()(c)) {
      match c.outcome
      case Completed(_, route) => assert KnownTo(c, route);
      case Stopped(operations) =>
        var d := Infer(operations).value.disposition;
        if d.KnownFromOperationSequence? {
          assert KnownTo(c, d.route);
        } else {
          assert UnknownFor(c, d);
        }
    }
    CountTrue(cases, _ => true);
    CountSplit(cases, _ => true, IsKnown(), IsUnknown());
    CountSplit(cases, IsKnown(), IsCompleted(), IsInferred());
  }

  /** Over the completed cases, the Initial diagnosis beats the reference by its lone hits less its lone misses. */
  lemma InitialAgainstReference(g: Gate, cases: seq<Case>)
    requires Tabulates(g, cases)
    ensures Count(cases, IsInitialRight()) - Count(cases, IsReferenceRight(true))
         == Get(g.initial, InitialOnly) - Get(g.initial, ReferenceOnly)
  {
    CountBalance(cases, IsInitialRight(), IsCompared(ReferenceOnly), IsReferenceRight(true), IsCompared(InitialOnly));
  }

  /** `actual` is the route each run was on: what a completed run recorded, and what a stopped run followed. */
  ghost predicate Truthful(c: Case, actual: Case -> Route) {
    match c.outcome
    case Completed(_, route) => actual(c) == route
    case Stopped(operations) => StopsAt(actual(c), operations)
  }

  ghost function IsOn(actual: Case -> Route, route: Route): Case -> bool { (c: Case) => actual(c) == route }

  /** The known count of a route never exceeds the true one, which is short of it by at most the unknown runs. */
  lemma KnownRoutesBoundTheTruth(g: Gate, cases: seq<Case>, actual: Case -> Route, route: Route)
    requires Tabulates(g, cases) && forall c :: c in cases ==> Read(c) && Truthful(c, actual)
    ensures Get(g.known, route) <= Count(cases, IsOn(actual, route)) <= Get(g.known, route) + Total(g.unavailable)
  {
    forall c | c in cases
      ensures IsKnownTo(route)(c) ==> IsOn(actual, route)(c)
      ensures IsOn(actual, route)(c) ==> IsKnownTo(route)(c) || IsUnknown()(c)
    {
      if c.outcome.Stopped? {
        InferredExactly(actual(c), c.outcome.operations);
        var d := Infer(c.outcome.operations).value.disposition;
        if !d.KnownFromOperationSequence? {
          assert UnknownFor(c, d);
        } else {
          assert OnlyRoute(d.route, c.outcome.operations);
        }
      }
    }
    CountMonotone(cases, IsKnownTo(route), IsOn(actual, route));
    CountOr(cases, IsOn(actual, route), IsKnownTo(route), IsUnknown());
  }
}
