/**
 What the operations a run persisted before it failed tell about its escalation route. The
 reader is checked against the runner: `Planned` lists the operations the runner starts, in
 order, and a failed run has persisted some beginning of them, perhaps nothing.
 */
module RouteInference {
  import opened Wrappers

  datatype Operation = FinalJudge | LogsSpecialist | TracesSpecialist | OtherOperation

  datatype Role = InitialDiagnosis | LogsVerifier | TraceCausalSpecialist | FusionJudge

  datatype Route = DirectReturn | VerifyLogs | VerifyTraces | VerifyBoth

  /** Where the route of a failed run is known from, or why it is not. */
  datatype Disposition =
    | KnownFromOperationSequence(route: Route)
    | InitialFailedBeforeGate
    | AmbiguousLogsOrBoth
    | OperationSequenceIncomplete

  datatype Context = Context(role: Role, disposition: Disposition)

  /** `infer_failure_context`. */
  function Infer(operations: seq<Operation>): Result<Context> {
    if operations == [] || operations[0] != FinalJudge then Raised
    else
      var last := operations[|operations| - 1];
      if last == OtherOperation then Raised
      else
        var role :=
          if last == LogsSpecialist then LogsVerifier
          else if last == TracesSpecialist then TraceCausalSpecialist
          else if |operations| == 1 then InitialDiagnosis
          else FusionJudge;
        var hasLogs, hasTraces := LogsSpecialist in operations, TracesSpecialist in operations;
        Ok(Context(role,
          if |operations| == 1 then InitialFailedBeforeGate
          else if last == LogsSpecialist && !hasTraces then AmbiguousLogsOrBoth
          else if hasLogs && hasTraces then KnownFromOperationSequence(VerifyBoth)
          else if hasTraces then KnownFromOperationSequence(VerifyTraces)
          else if hasLogs && last == FinalJudge then KnownFromOperationSequence(VerifyLogs)
          else OperationSequenceIncomplete))
  }

  /** The runner: the Initial diagnosis, the specialists the route asks for, logs first, then the fusion. */
  function Planned(route: Route): seq<(Operation, Role)> {
    [(FinalJudge, InitialDiagnosis)]
    + (if route in {VerifyLogs, VerifyBoth} then [(LogsSpecialist, LogsVerifier)] else [])
    + (if route in {VerifyTraces, VerifyBoth} then [(TracesSpecialist, TraceCausalSpecialist)] else [])
    + (if route != DirectReturn then [(FinalJudge, FusionJudge)] else [])
  }

  /** A run on `route` can have persisted exactly these operations when it stopped. */
  ghost predicate StopsAt(route: Route, operations: seq<Operation>) {
    && |operations| <= |Planned(route)|
    && forall i :: 0 <= i < |operations| ==> operations[i] == Planned(route)[i].0
  }

  ghost predicate OnlyRoute(route: Route, operations: seq<Operation>) {
    StopsAt(route, operations) && forall other :: StopsAt(other, operations) ==> other == route
  }

  lemma PlansSpelledOut()
    ensures Planned(DirectReturn) == [(FinalJudge, InitialDiagnosis)]
    ensures Planned(VerifyLogs) == [(FinalJudge, InitialDiagnosis), (LogsSpecialist, LogsVerifier), (FinalJudge, FusionJudge)]
    ensures Planned(VerifyTraces) == [(FinalJudge, InitialDiagnosis), (TracesSpecialist, TraceCausalSpecialist), (FinalJudge, FusionJudge)]
    ensures Planned(VerifyBoth) == [(FinalJudge, InitialDiagnosis), (LogsSpecialist, LogsVerifier),
                                    (TracesSpecialist, TraceCausalSpecialist), (FinalJudge, FusionJudge)]
  {
  }

  /** The eight ways a run can stop, with the routes that allow each. */
  lemma StopsSpelledOut(route: Route, operations: seq<Operation>)
    ensures StopsAt(route, operations) <==>
              || operations == []
              || operations == [FinalJudge]
              || (route in {VerifyLogs, VerifyBoth} && operations == [FinalJudge, LogsSpecialist])
              || (route == VerifyLogs && operations == [FinalJudge, LogsSpecialist, FinalJudge])
              || (route == VerifyTraces && operations == [FinalJudge, TracesSpecialist])
              || (route == VerifyTraces && operations == [FinalJudge, TracesSpecialist, FinalJudge])
              || (route == VerifyBoth && operations == [FinalJudge, LogsSpecialist, TracesSpecialist])
              || (route == VerifyBoth && operations == [FinalJudge, LogsSpecialist, TracesSpecialist, FinalJudge])
  {
    PlansSpelledOut();
    var n := |operations|;
    if n == 1 {
      assert StopsAt(route, operations) <==> operations == [FinalJudge];
    } else if n == 2 {
      assert operations == [operations[0], operations[1]];
    } else if n == 3 {
      assert operations == [operations[0], operations[1], operations[2]];
    } else if n == 4 {
      assert operations == [operations[0], operations[1], operations[2], operations[3]];
    }
  }

  /**
   On a run of the runner the reader raises exactly when the run failed before its first operation.
   On any other it claims a route exactly when no other route explains the operations, and otherwise
   the reason it gives is the true one.
   */
  lemma InferredExactly(actual: Route, operations: seq<Operation>)
    requires StopsAt(actual, operations)
    ensures Infer(operations).Raised? <==> operations == []
    ensures operations != [] ==> ReadsTruly(actual, operations, Infer(operations).value)
  {
    if operations != [] {
      ReadTruly(actual, operations);
    }
  }

  /** The route is named when there is only one, else the reason says why there are several; the role is the last operation's. */
  ghost predicate ReadsTruly(actual: Route, operations: seq<Operation>, context: Context) {
    && (forall r :: context.disposition == KnownFromOperationSequence(r) <==> OnlyRoute(r, operations))
    && (context.disposition == InitialFailedBeforeGate <==> forall r :: StopsAt(r, operations))
    && (context.disposition == AmbiguousLogsOrBoth <==> (forall r :: StopsAt(r, operations) <==> r == VerifyLogs || r == VerifyBoth))
    && context.disposition != OperationSequenceIncomplete
    && 0 < |operations| <= |Planned(actual)| && context.role == Planned(actual)[|operations| - 1].1
  }

  lemma ReadTruly(actual: Route, operations: seq<Operation>)
    requires StopsAt(actual, operations) && operations != []
    ensures Infer(operations).Ok?
    ensures ReadsTruly(actual, operations, Infer(operations).value)
  {
    ReadOnStops(actual, operations);
  }

  lemma ReadOnStops(actual: Route, operations: seq<Operation>)
    requires StopsAt(actual, operations) && operations != []
    ensures Infer(operations).Ok?
    ensures forall r :: Infer(operations).value.disposition == KnownFromOperationSequence(r) <==> OnlyRoute(r, operations)
    ensures Infer(operations).value.disposition == InitialFailedBeforeGate <==> forall r :: StopsAt(r, operations)
    ensures Infer(operations).value.disposition == AmbiguousLogsOrBoth <==>
              (forall r :: StopsAt(r, operations) <==> r == VerifyLogs || r == VerifyBoth)
    ensures Infer(operations).value.disposition != OperationSequenceIncomplete
    ensures |operations| <= |Planned(actual)| && Infer(operations).value.role == Planned(actual)[|operations| - 1].1
  {
    hide StopsAt;
    PlansSpelledOut();
    forall r ensures StopsAt(r, operations) <==>
              || operations == [FinalJudge]
              || (r in {VerifyLogs, VerifyBoth} && operations == [FinalJudge, LogsSpecialist])
              || (r == VerifyLogs && operations == [FinalJudge, LogsSpecialist, FinalJudge])
              || (r == VerifyTraces && operations == [FinalJudge, TracesSpecialist])
              || (r == VerifyTraces && operations == [FinalJudge, TracesSpecialist, FinalJudge])
              || (r == VerifyBoth && operations == [FinalJudge, LogsSpecialist, TracesSpecialist])
              || (r == VerifyBoth && operations == [FinalJudge, LogsSpecialist, TracesSpecialist, FinalJudge])
    {
      StopsSpelledOut(r, operations);
    }
    hide Planned;
    var logs, traces, both := StopsAt(VerifyLogs, operations), StopsAt(VerifyTraces, operations), StopsAt(VerifyBoth, operations);
    var direct := StopsAt(DirectReturn, operations);
    assert direct ==> logs && traces && both;
    forall r
      ensures Infer(operations).value.disposition == KnownFromOperationSequence(r) <==> OnlyRoute(r, operations)
      ensures r == DirectReturn || r == VerifyLogs || r == VerifyTraces || r == VerifyBoth
    {
      match r
      case DirectReturn =>
      case VerifyLogs =>
      case VerifyTraces =>
      case VerifyBoth =>
    }
  }

  /** On any sequence of operations: when the reader raises, and what a claimed route presupposes. */
  lemma RaisedExactly(operations: seq<Operation>)
    ensures Infer(operations).Raised? <==>
              operations == [] || operations[0] != FinalJudge || operations[|operations| - 1] == OtherOperation
    ensures Infer(operations).Ok? && Infer(operations).value.disposition.KnownFromOperationSequence? ==>
              && Infer(operations).value.disposition.route != DirectReturn
              && (Infer(operations).value.disposition.route in {VerifyLogs, VerifyBoth} <==> LogsSpecialist in operations)
              && (Infer(operations).value.disposition.route in {VerifyTraces, VerifyBoth} <==> TracesSpecialist in operations)
  {
  }

  /** The claim looks at which operations occur, not at their order: this sequence no run can leave gets a route. */
  lemma OrderIsNotRead()
    ensures var odd := [FinalJudge, TracesSpecialist, LogsSpecialist];
      && Infer(odd) == Ok(Context(LogsVerifier, KnownFromOperationSequence(VerifyBoth)))
      && forall r :: !StopsAt(r, odd)
  {
    forall r ensures !StopsAt(r, [FinalJudge, TracesSpecialist, LogsSpecialist]) {
      PlansSpelledOut();
      assert [FinalJudge, TracesSpecialist, LogsSpecialist][1] != [FinalJudge, LogsSpecialist][1];
    }
  }

  /** `_operation_role`, from the type and the index of one operation. */
  function RoleOf(operation: Operation, index: int): (role: Option<Role>) {
    match operation
    case LogsSpecialist => Some(LogsVerifier)
    case TracesSpecialist => Some(TraceCausalSpecialist)
    case FinalJudge => Some(if index == 1 then InitialDiagnosis else FusionJudge)
    case OtherOperation => None
  }

  /** The two ways to read a role agree with each other and with the runner. */
  lemma RolesAgree(actual: Route, operations: seq<Operation>, i: nat)
    requires StopsAt(actual, operations) && i < |operations|
    ensures RoleOf(operations[i], i + 1) == Some(Planned(actual)[i].1)
    ensures i == |operations| - 1 ==> RoleOf(operations[i], i + 1) == Some(Infer(operations).value.role)
  {
    PlansSpelledOut();
    InferredExactly(actual, operations);
  }
}
