/**
 Accounting over the terminal records of three architecture arms: grouping by case, the gap to
 the Single arm, the pairwise outcomes, the per-case rows and the confusion matrix. Several
 loops count the same runs in different ways and must agree.
 */
module Attribution {
  import opened Wrappers
  import opened Counting

  datatype Arm = Single | Fixed | Dynamic

  datatype Fault = CpuFault | MemFault | DiskFault | DelayFault | LossFault | SocketFault

  datatype Indicator = Cpu | Mem | Diskio | Latency | Socket

  function NormalizeIndicator(fault: Fault): Indicator {
    match fault
    case CpuFault => Cpu
    case MemFault => Mem
    case DiskFault => Diskio
    case DelayFault => Latency
    case LossFault => Latency
    case SocketFault => Socket
  }

  datatype Diagnosis = Diagnosis(service: string, indicator: Indicator)

  /** A terminal record; it is completed exactly when it carries a diagnosis. */
  datatype Record = Record(caseId: string, arm: Arm, diagnosis: Option<Diagnosis>) {
    predicate Completed() { diagnosis.Some? }
  }

  datatype Truth = Truth(service: string, fault: Fault)

  type Truths = map<string, Truth>

  predicate ServiceRight(truths: Truths, r: Record) {
    r.Completed() && r.caseId in truths && r.diagnosis.value.service == truths[r.caseId].service
  }

  predicate PairRight(truths: Truths, r: Record) {
    ServiceRight(truths, r) && r.diagnosis.value.indicator == NormalizeIndicator(truths[r.caseId].fault)
  }

  // ----- grouping -----

  ghost predicate NoDuplicates(records: seq<Record>) {
    forall i, j :: 0 <= i < j < |records| ==> !(records[i].caseId == records[j].caseId && records[i].arm == records[j].arm)
  }

  ghost predicate HasRun(records: seq<Record>, caseId: string, arm: Arm) {
    exists i :: 0 <= i < |records| && records[i].caseId == caseId && records[i].arm == arm
  }

  /** Every case that appears has exactly one record for each arm. */
  ghost predicate OneOfEach(records: seq<Record>) {
    NoDuplicates(records) && forall r, arm :: r in records ==> HasRun(records, r.caseId, arm)
  }

  /** The records by case and arm, and the case identifiers in the order of first appearance. */
  datatype Grouped = Grouped(arms: map<string, map<Arm, Record>>, order: seq<string>)

  ghost predicate IsCase(records: seq<Record>, caseId: string) {
    exists i :: 0 <= i < |records| && records[i].caseId == caseId
  }

  ghost predicate Groups(g: Grouped, records: seq<Record>) {
    && NoDuplicates(records)
    && DistinctOrder(g)
    && CasesListed(g, records)
    && RunsListed(g, records)
    && RunsFiled(g, records)
  }

  ghost predicate DistinctOrder(g: Grouped) {
    forall i, j :: 0 <= i < j < |g.order| ==> g.order[i] != g.order[j]
  }

  ghost predicate CasesListed(g: Grouped, records: seq<Record>) {
    && (forall c :: c in g.order <==> IsCase(records, c))
    && (forall c :: c in g.arms <==> IsCase(records, c))
  }

  ghost predicate RunsListed(g: Grouped, records: seq<Record>) {
    forall c, a :: c in g.arms ==> (a in g.arms[c] <==> HasRun(records, c, a))
  }

  ghost predicate RunsFiled(g: Grouped, records: seq<Record>) {
    forall c, a :: c in g.arms && a in g.arms[c] ==>
      g.arms[c][a] in records && g.arms[c][a].caseId == c && g.arms[c][a].arm == a
  }

  /** `grouped[r.case_id][r.architecture] = r`, on a dictionary that keeps its insertion order. */
  function FileRecord(g: Grouped, r: Record): Grouped {
    var arms := if r.caseId in g.arms then g.arms[r.caseId] else map[];
    Grouped(g.arms[r.caseId := arms[r.arm := r]], if r.caseId in g.arms then g.order else g.order + [r.caseId])
  }

  lemma OneMoreRecord(g: Grouped, records: seq<Record>, r: Record)
    requires Groups(g, records) && !HasRun(records, r.caseId, r.arm)
    ensures Groups(FileRecord(g, r), records + [r])
  {
    StillNoDuplicates(records, r);
    MoreCases(g, records, r);
    MoreRuns(g, records, r);
    MoreFiled(g, records, r);
    hide *;
    NowGrouped(FileRecord(g, r), records + [r]);
  }

  lemma NowGrouped(g: Grouped, records: seq<Record>)
    requires NoDuplicates(records) && DistinctOrder(g) && CasesListed(g, records) && RunsListed(g, records) && RunsFiled(g, records)
    ensures Groups(g, records)
  {
  }

  lemma IsCaseGrows(records: seq<Record>, r: Record, c: string)
    ensures IsCase(records + [r], c) <==> IsCase(records, c) || c == r.caseId
  {
    var all := records + [r];
    if i :| 0 <= i < |records| && records[i].caseId == c {
      assert all[i].caseId == c;
    }
    assert all[|records|].caseId == r.caseId;
  }

  lemma HasRunGrows(records: seq<Record>, r: Record, c: string, a: Arm)
    ensures HasRun(records + [r], c, a) <==> HasRun(records, c, a) || (c == r.caseId && a == r.arm)
  {
    var all := records + [r];
    if i :| 0 <= i < |records| && records[i].caseId == c && records[i].arm == a {
      assert all[i].caseId == c && all[i].arm == a;
    }
    assert all[|records|].caseId == r.caseId && all[|records|].arm == r.arm;
  }

  lemma MoreCases(g: Grouped, records: seq<Record>, r: Record)
    requires DistinctOrder(g) && CasesListed(g, records)
    ensures DistinctOrder(FileRecord(g, r)) && CasesListed(FileRecord(g, r), records + [r])
  {
    hide IsCase;
    var more := FileRecord(g, r);
    forall c ensures (c in more.order <==> IsCase(records + [r], c)) && (c in more.arms <==> IsCase(records + [r], c)) {
      IsCaseGrows(records, r, c);
    }
  }

  lemma MoreRuns(g: Grouped, records: seq<Record>, r: Record)
    requires CasesListed(g, records) && RunsListed(g, records)
    ensures RunsListed(FileRecord(g, r), records + [r])
  {
    var more := FileRecord(g, r);
    forall c, a | c in more.arms ensures a in more.arms[c] <==> HasRun(records + [r], c, a) {
      HasRunGrows(records, r, c, a);
      NoCaseNoRun(records, c, a);
    }
  }

  lemma NoCaseNoRun(records: seq<Record>, c: string, a: Arm)
    ensures HasRun(records, c, a) ==> IsCase(records, c)
  {
  }

  lemma MoreFiled(g: Grouped, records: seq<Record>, r: Record)
    requires RunsFiled(g, records)
    ensures RunsFiled(FileRecord(g, r), records + [r])
  {
    var more := FileRecord(g, r);
    forall c, a | c in more.arms && a in more.arms[c]
      ensures more.arms[c][a] in records + [r] && more.arms[c][a].caseId == c && more.arms[c][a].arm == a
    {
      assert c != r.caseId || a != r.arm ==> c in g.arms && a in g.arms[c] && more.arms[c][a] == g.arms[c][a];
    }
  }

  lemma StillNoDuplicates(records: seq<Record>, r: Record)
    requires NoDuplicates(records) && !HasRun(records, r.caseId, r.arm)
    ensures NoDuplicates(records + [r])
  {
  }

  /** `_records_by_case` raises exactly when some case lacks one record of some arm, or has two. */
  method RecordsByCase(records: seq<Record>) returns (result: Result<Grouped>)
    ensures result.Ok? <==> OneOfEach(records)
    ensures result.Ok? ==> Groups(result.value, records)
  {
    var g := Grouped(map[], []);
    for i := 0 to |records|
      invariant Groups(g, records[..i])
    {
      var r := records[i];
      assert records[..i + 1] == records[..i] + [r];
      if r.caseId in g.arms && r.arm in g.arms[r.caseId] {
        assert HasRun(records[..i], r.caseId, r.arm);
        return Raised;
      }
      assert !HasRun(records[..i], r.caseId, r.arm);
      OneMoreRecord(g, records[..i], r);
      g := FileRecord(g, r);
    }
    assert records[..|records|] == records;
    if exists c :: c in g.arms && !(g.arms[c].Keys == {Single, Fixed, Dynamic}) {
      var c :| c in g.arms && !(g.arms[c].Keys == {Single, Fixed, Dynamic});
      MissingArm(g, records, c);
      return Raised;
    }
    AllArmsThere(g, records);
    result := Ok(g);
  }

  lemma MissingArm(g: Grouped, records: seq<Record>, c: string)
    requires Groups(g, records) && c in g.arms && g.arms[c].Keys != {Single, Fixed, Dynamic}
    ensures !OneOfEach(records)
  {
    assert exists a :: a !in g.arms[c];
    var a :| a !in g.arms[c];
    assert IsCase(records, c) && !HasRun(records, c, a);
    var i :| 0 <= i < |records| && records[i].caseId == c;
    assert records[i] in records;
  }

  lemma AllArmsThere(g: Grouped, records: seq<Record>)
    requires Groups(g, records) && forall c :: c in g.arms ==> g.arms[c].Keys == {Single, Fixed, Dynamic}
    ensures OneOfEach(records)
  {
    forall r, arm: Arm | r in records ensures HasRun(records, r.caseId, arm) {
      RecordIsCase(records, r);
      ArmIsListed(arm);
      hide NoDuplicates, IsCase, HasRun;
      assert r.caseId in g.arms && arm in g.arms[r.caseId];
    }
  }

  lemma RecordIsCase(records: seq<Record>, r: Record)
    requires r in records
    ensures IsCase(records, r.caseId)
  {
  }

  lemma ArmIsListed(arm: Arm)
    ensures arm in {Single, Fixed, Dynamic}
  {
    match arm
    case Single =>
    case Fixed =>
    case Dynamic =>
  }

  // ----- counting over records is counting over cases -----

  ghost function OfArm(arm: Arm, p: Record -> bool): Record -> bool {
    (r: Record) => r.arm == arm && p(r)
  }

  ghost function InGroup(g: Grouped, arm: Arm, p: Record -> bool): string -> bool {
    (c: string) => c in g.arms && arm in g.arms[c] && p(g.arms[c][arm])
  }

  ghost function Satisfying(order: seq<string>, p: string -> bool): (cases: set<string>)
    ensures forall c :: c in cases <==> c in order && p(c)
  {
    set c | c in order && p(c)
  }

  lemma {:induction false} DistinctCount(order: seq<string>, p: string -> bool)
    requires forall i, j :: 0 <= i < j < |order| ==> order[i] != order[j]
    ensures Count(order, p) == |Satisfying(order, p)|
  {
    hide Satisfying;
    if order != [] {
      var n := |order| - 1;
      DistinctCount(order[..n], p);
      assert order == order[..n] + [order[n]];
      assert order[n] !in order[..n];
      OneMoreSatisfies(order[..n], order[n], p);
    } else {
      assert Satisfying(order, p) == {};
    }
  }

  lemma OneMoreSatisfies(order: seq<string>, x: string, p: string -> bool)
    requires x !in order
    ensures |Satisfying(order + [x], p)| == |Satisfying(order, p)| + Bit(p(x))
  {
    hide Satisfying;
    if p(x) {
      assert Satisfying(order + [x], p) == Satisfying(order, p) + {x};
    } else {
      assert Satisfying(order + [x], p) == Satisfying(order, p);
    }
  }

  ghost function CasesOf(records: seq<Record>, p: Record -> bool): (cases: set<string>)
    ensures forall c :: c in cases <==> exists r :: r in records && p(r) && r.caseId == c
  {
    set r | r in records && p(r) :: r.caseId
  }

  lemma OneMoreCase(records: seq<Record>, arm: Arm, p: Record -> bool, last: Record)
    requires NoDuplicates(records + [last])
    ensures !OfArm(arm, p)(last) ==> CasesOf(records + [last], OfArm(arm, p)) == CasesOf(records, OfArm(arm, p))
    ensures OfArm(arm, p)(last) ==>
              && last.caseId !in CasesOf(records, OfArm(arm, p))
              && CasesOf(records + [last], OfArm(arm, p)) == CasesOf(records, OfArm(arm, p)) + {last.caseId}
  {
    var all, n := records + [last], |records|;
    forall r | r in records && OfArm(arm, p)(r) && OfArm(arm, p)(last) ensures r.caseId != last.caseId {
      var i :| 0 <= i < n && records[i] == r;
      assert all[i] == r && all[n] == last;
    }
  }

  lemma {:induction false} RecordCount(records: seq<Record>, arm: Arm, p: Record -> bool)
    requires NoDuplicates(records)
    ensures Count(records, OfArm(arm, p)) == |CasesOf(records, OfArm(arm, p))|
  {
    if records != [] {
      var n := |records| - 1;
      assert NoDuplicates(records[..n]);
      RecordCount(records[..n], arm, p);
      assert records == records[..n] + [records[n]];
      OneMoreCase(records[..n], arm, p, records[n]);
    } else {
      assert CasesOf([], OfArm(arm, p)) == {};
    }
  }

  /** With one record for each case and arm, counting an arm's records is counting cases. */
  lemma ArmCountIsCaseCount(g: Grouped, records: seq<Record>, arm: Arm, p: Record -> bool)
    requires OneOfEach(records) && Groups(g, records)
    ensures Count(records, OfArm(arm, p)) == Count(g.order, InGroup(g, arm, p))
  {
    RecordCount(records, arm, p);
    DistinctCount(g.order, InGroup(g, arm, p));
    var byCase := Satisfying(g.order, InGroup(g, arm, p));
    forall c ensures c in CasesOf(records, OfArm(arm, p)) <==> c in byCase {
      if r :| r in records && OfArm(arm, p)(r) && r.caseId == c {
        TheRecord(g, records, r);
      }
      if c in byCase {
        assert g.arms[c][arm] in records;
      }
    }
    assert CasesOf(records, OfArm(arm, p)) == byCase;
  }

  lemma TheRecord(g: Grouped, records: seq<Record>, r: Record)
    requires Groups(g, records) && r in records
    ensures r.caseId in g.order && r.caseId in g.arms && r.arm in g.arms[r.caseId] && g.arms[r.caseId][r.arm] == r
  {
    var i :| 0 <= i < |records| && records[i] == r;
    assert IsCase(records, r.caseId) && HasRun(records, r.caseId, r.arm);
    var other := g.arms[r.caseId][r.arm];
    var j :| 0 <= j < |records| && records[j] == other;
    assert i == j;
  }
}
