/**
 The semantic projection of a run report: the report without the timing fields that differ between
 two runs of the same behaviour. Here it is a function on JSON values; `ProjectedPayload` does it
 in place on a deep copy.
 */
module SemanticProjection {
  import opened Wrappers

  datatype Json =
    | Null
    | Scalar(text: string)
    | Array(items: seq<Json>)
    | Object(fields: map<string, Json>)

  function Timing(): set<string> {
    {"started_at", "ended_at", "monotonic_duration_seconds"}
  }

  function ModelRecords(): string { "model_call_records" }
  function ToolRecords(): string { "tool_call_records" }
  function Response(): string { "response" }

  lemma NamesDiffer()
    ensures ModelRecords() !in Timing() && ToolRecords() !in Timing() && Response() !in Timing() && ModelRecords() != ToolRecords()
  {
    assert ModelRecords()[0] == 'm' && ToolRecords()[0] == 't' && Response()[0] == 'r';
    assert |ModelRecords()| == 18 && |"monotonic_duration_seconds"| == 26;
    assert "started_at"[0] == 's' && "ended_at"[0] == 'e';
  }

  /** A Python `get`: a missing field reads like a null one. */
  function Field(fields: map<string, Json>, name: string): Json {
    if name in fields then fields[name] else Null
  }

  datatype Error = ModelRecordsNotList | ModelRecordNotObject | ResponseNotObject | ToolRecordsNotList | ToolRecordNotObject

  datatype Outcome = Failed(error: Error) | Projected(caseId: string, report: Json)

  function ModelRecordError(record: Json): Option<Error> {
    if !record.Object? then Some(ModelRecordNotObject)
    else
      var response := Field(record.fields, Response());
      if response.Null? || response.Object? then None else Some(ResponseNotObject)
  }

  function ToolRecordError(record: Json): Option<Error> {
    if record.Object? then None else Some(ToolRecordNotObject)
  }

  /** The error of the first record that has one. */
  function FirstError(records: seq<Json>, error: Json -> Option<Error>): Option<Error> {
    if records == [] then None
    else
      var earlier := FirstError(records[..|records| - 1], error);
      if earlier.Some? then earlier else error(records[|records| - 1])
  }

  function StripTiming(j: Json): Json {
    if j.Object? then Object(j.fields - Timing()) else j
  }

  function ProjectModelRecord(record: Json): Json {
    if !record.Object? then record
    else
      var fields := record.fields - Timing();
      Object(if Response() in fields then fields[Response() := StripTiming(fields[Response()])] else fields)
  }

  function ProjectEach(records: seq<Json>, project: Json -> Json): seq<Json> {
    seq(|records|, i requires 0 <= i < |records| => project(records[i]))
  }

  /** `_semantic_projection_from_payload`, on values. */
  function Project(caseId: string, report: map<string, Json>): Outcome {
    var models, tools := Field(report, ModelRecords()), Field(report, ToolRecords());
    if !models.Array? then Failed(ModelRecordsNotList)
    else if FirstError(models.items, ModelRecordError).Some? then Failed(FirstError(models.items, ModelRecordError).value)
    else if !tools.Array? then Failed(ToolRecordsNotList)
    else if FirstError(tools.items, ToolRecordError).Some? then Failed(FirstError(tools.items, ToolRecordError).value)
    else Projected(caseId, ProjectReport(report))
  }

  function ProjectReport(report: map<string, Json>): Json {
    var models, tools := Field(report, ModelRecords()), Field(report, ToolRecords());
    Object(
      (report - Timing())
      [ModelRecords() := if models.Array? then Array(ProjectEach(models.items, ProjectModelRecord)) else models]
      [ToolRecords() := if tools.Array? then Array(ProjectEach(tools.items, StripTiming)) else tools])
  }

  // ----- when it raises -----

  predicate GoodModelRecord(r: Json) {
    r.Object? && (Response() in r.fields ==> r.fields[Response()].Null? || r.fields[Response()].Object?)
  }

  /** The shapes the projection accepts. */
  predicate WellShaped(report: map<string, Json>) {
    && ModelRecords() in report && report[ModelRecords()].Array?
    && (forall r :: r in report[ModelRecords()].items ==> GoodModelRecord(r))
    && ToolRecords() in report && report[ToolRecords()].Array?
    && (forall r :: r in report[ToolRecords()].items ==> r.Object?)
  }

  lemma {:induction false} NoErrorExactly(records: seq<Json>, error: Json -> Option<Error>)
    ensures FirstError(records, error) == None <==> forall r :: r in records ==> error(r) == None
  {
    if records != [] {
      var n := |records| - 1;
      NoErrorExactly(records[..n], error);
      assert records == records[..n] + [records[n]];
    }
  }

  lemma ProjectedExactly(caseId: string, report: map<string, Json>)
    ensures Project(caseId, report).Projected? <==> WellShaped(report)
  {
    var models, tools := Field(report, ModelRecords()), Field(report, ToolRecords());
    if models.Array? {
      NoErrorExactly(models.items, ModelRecordError);
    }
    if tools.Array? {
      NoErrorExactly(tools.items, ToolRecordError);
    }
  }

  // ----- a second projection changes nothing -----

  lemma ProjectIsIdempotent(caseId: string, report: map<string, Json>)
    requires WellShaped(report)
    ensures var once := ProjectReport(report);
      WellShaped(once.fields) && Project(caseId, once.fields) == Projected(caseId, once) == Project(caseId, report)
  {
    NamesDiffer();
    var once := ProjectReport(report).fields;
    var models, tools := report[ModelRecords()].items, report[ToolRecords()].items;
    forall r | r in ProjectEach(models, ProjectModelRecord)
      ensures GoodModelRecord(r) && ProjectModelRecord(r) == r
    {
      var i :| 0 <= i < |models| && r == ProjectModelRecord(models[i]);
      assert GoodModelRecord(models[i]);
      RecordIsIdempotent(models[i]);
    }
    assert once[ModelRecords()] == Array(ProjectEach(models, ProjectModelRecord));
    assert once[ToolRecords()] == Array(ProjectEach(tools, StripTiming));
    assert ProjectEach(once[ModelRecords()].items, ProjectModelRecord) == once[ModelRecords()].items;
    forall i | 0 <= i < |tools| ensures StripTiming(StripTiming(tools[i])) == StripTiming(tools[i]) {
      if tools[i].Object? {
        assert (tools[i].fields - Timing()) - Timing() == tools[i].fields - Timing();
      }
    }
    assert ProjectEach(once[ToolRecords()].items, StripTiming) == once[ToolRecords()].items;
    assert once - Timing() == once;
    assert ProjectReport(once) == Object(once);
    ProjectedExactly(caseId, once);
    ProjectedExactly(caseId, report);
  }

  lemma RecordIsIdempotent(r: Json)
    requires GoodModelRecord(r)
    ensures GoodModelRecord(ProjectModelRecord(r)) && ProjectModelRecord(ProjectModelRecord(r)) == ProjectModelRecord(r)
  {
    NamesDiffer();
    var once := ProjectModelRecord(r).fields;
    assert once - Timing() == once;
    if Response() in once {
      assert StripTiming(once[Response()]) == once[Response()] by {
        if once[Response()].Object? {
          assert once[Response()].fields - Timing() == once[Response()].fields;
        }
      }
      assert once[Response() := once[Response()]] == once;
    }
  }

  // ----- equal projections, path by path -----

  datatype Step = Name(name: string) | Index(i: int)

  datatype Shape = Absent | NullShape | ScalarShape(text: string) | ArrayShape | ObjectShape

  /** What is found at a path of a value. */
  function At(j: Json, path: seq<Step>): Shape
    decreases |path|
  {
    if path == [] then
      match j
      case Null => NullShape
      case Scalar(text) => ScalarShape(text)
      case Array(_) => ArrayShape
      case Object(_) => ObjectShape
    else
      match (j, path[0])
      case (Array(items), Index(i)) => if 0 <= i < |items| then At(items[i], path[1..]) else Absent
      case (Object(fields), Name(name)) => if name in fields then At(fields[name], path[1..]) else Absent
      case _ => Absent
  }

  predicate IsTiming(s: Step) {
    s.Name? && s.name in Timing()
  }

  /** The path enters a timing field of a model record, or of its response. */
  predicate MaskedInRecord(path: seq<Step>) {
    && path != []
    && (IsTiming(path[0]) || (|path| > 1 && path[0] == Name(Response()) && IsTiming(path[1])))
  }

  predicate MaskedInTool(path: seq<Step>) {
    path != [] && IsTiming(path[0])
  }

  /** The path enters a timing field of the report, of a model record or its response, or of a tool record. */
  predicate Masked(path: seq<Step>) {
    && path != []
    && (|| IsTiming(path[0])
        || (|path| > 1 && path[0] == Name(ModelRecords()) && path[1].Index? && MaskedInRecord(path[2..]))
        || (|path| > 1 && path[0] == Name(ToolRecords()) && path[1].Index? && MaskedInTool(path[2..])))
  }

  ghost predicate AgreeModuloTiming(a: map<string, Json>, b: map<string, Json>) {
    forall path :: !Masked(path) ==> At(Object(a), path) == At(Object(b), path)
  }

  lemma StrippedAt(j: Json, path: seq<Step>)
    requires j.Object? || !MaskedInTool(path)
    ensures At(StripTiming(j), path) == if MaskedInTool(path) then Absent else At(j, path)
  {
  }

  lemma RecordAt(r: Json, path: seq<Step>)
    requires GoodModelRecord(r)
    ensures At(ProjectModelRecord(r), path) == if MaskedInRecord(path) then Absent else At(r, path)
  {
    NamesDiffer();
    if path != [] && path[0] == Name(Response()) && Response() in r.fields {
      var response := r.fields[Response()];
      if response.Object? {
        StrippedAt(response, path[1..]);
      }
    }
  }

  lemma ReportAt(report: map<string, Json>, path: seq<Step>)
    requires WellShaped(report)
    ensures At(ProjectReport(report), path) == if Masked(path) then Absent else At(Object(report), path)
  {
    NamesDiffer();
    if |path| > 1 && path[1].Index? && path[0] in {Name(ModelRecords()), Name(ToolRecords())} {
      var items := report[path[0].name].items;
      var i := path[1].i;
      assert path[1..][1..] == path[2..];
      if 0 <= i < |items| {
        assert items[i] in items;
        if path[0] == Name(ModelRecords()) {
          assert GoodModelRecord(items[i]);
          RecordAt(items[i], path[2..]);
        } else {
          StrippedAt(items[i], path[2..]);
        }
      }
    }
  }

  /** Values that look the same at every path are equal. */
  lemma {:induction false} SameEverywhere(a: Json, b: Json)
    requires forall path :: At(a, path) == At(b, path)
    ensures a == b
    decreases a
  {
    assert At(a, []) == At(b, []);
    match a
    case Null =>
    case Scalar(_) =>
    case Array(items) =>
      LengthShows(items, b.items);
      LengthShows(b.items, items);
      forall i | 0 <= i < |items| ensures items[i] == b.items[i] {
        forall path ensures At(items[i], path) == At(b.items[i], path) {
          StepInto(a, b, Index(i), path);
        }
        SameEverywhere(items[i], b.items[i]);
      }
    case Object(fields) =>
      forall name ensures name in fields <==> name in b.fields {
        assert At(a, [Name(name)]) == At(b, [Name(name)]);
        NameShows(fields, name);
        NameShows(b.fields, name);
      }
      forall name | name in fields ensures fields[name] == b.fields[name] {
        forall path ensures At(fields[name], path) == At(b.fields[name], path) {
          StepInto(a, b, Name(name), path);
        }
        SameEverywhere(fields[name], b.fields[name]);
      }
  }

  lemma LengthShows(x: seq<Json>, y: seq<Json>)
    ensures At(Array(x), [Index(|x|)]) == Absent
    ensures |x| < |y| ==> At(Array(y), [Index(|x|)]) == At(y[|x|], []) != Absent
  {
  }

  lemma NameShows(fields: map<string, Json>, name: string)
    ensures At(Object(fields), [Name(name)]) == Absent <==> name !in fields
  {
    if name in fields {
      assert At(Object(fields), [Name(name)]) == At(fields[name], []);
    }
  }

  lemma StepInto(a: Json, b: Json, s: Step, path: seq<Step>)
    requires forall p :: At(a, p) == At(b, p)
    ensures At(a, [s] + path) == At(b, [s] + path)
    ensures ([s] + path)[1..] == path
  {
  }

  /** Two reports have the same projection exactly when they agree wherever no timing field is entered. */
  lemma EqualProjectionsExactly(a: map<string, Json>, b: map<string, Json>)
    requires WellShaped(a) && WellShaped(b)
    ensures ProjectReport(a) == ProjectReport(b) <==> AgreeModuloTiming(a, b)
  {
    if ProjectReport(a) == ProjectReport(b) {
      forall path | !Masked(path) ensures At(Object(a), path) == At(Object(b), path) {
        ReportAt(a, path);
        ReportAt(b, path);
      }
    }
    if AgreeModuloTiming(a, b) {
      forall path ensures At(ProjectReport(a), path) == At(ProjectReport(b), path) {
        ReportAt(a, path);
        ReportAt(b, path);
      }
      SameEverywhere(ProjectReport(a), ProjectReport(b));
    }
  }
}
