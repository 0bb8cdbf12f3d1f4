/**
 The projection as the program does it: copy the payload deeply, then pop the timing fields of the
 copy's dictionaries one after the other. Dictionaries are objects on the heap, so that the input
 could be changed; it is shown that none of its dictionaries is.
 */
module ProjectedPayload {
  import opened Wrappers
  import opened SemanticProjection

  datatype Value =
    | NullValue
    | Leaf(text: string)
    | List(items: seq<Value>)
    | Ref(dict: Dict)

  class Dict {
    var fields: map<string, Value>

    constructor (fields: map<string, Value>)
      ensures this.fields == fields
    {
      this.fields := fields;
    }

    /** `pop(name, None)`. */
    method Pop(name: string)
      modifies this
      ensures fields == old(fields) - {name}
    {
      fields := fields - {name};
    }

    method PopTiming()
      modifies this
      ensures fields == old(fields) - Timing()
    {
      Pop("started_at");
      Pop("ended_at");
      Pop("monotonic_duration_seconds");
    }

    function Get(name: string): Value
      reads this
    {
      if name in fields then fields[name] else NullValue
    }
  }

  // ----- values read out of the heap -----

  /** The contents of some dictionaries at one moment. */
  type Store = map<Dict, map<string, Value>>

  ghost predicate Holds(store: Store)
    reads store.Keys
  {
    forall d :: d in store ==> d.fields == store[d]
  }

  /** Everything reachable from `v` is in the store, at most `n` dictionaries deep. */
  ghost predicate Within(store: Store, n: nat, v: Value)
    decreases n, v
  {
    match v
    case NullValue => true
    case Leaf(_) => true
    case List(items) => forall i :: 0 <= i < |items| ==> Within(store, n, items[i])
    case Ref(d) => n > 0 && d in store && forall k :: k in store[d] ==> Within(store, n - 1, store[d][k])
  }

  /** The JSON value that `v` stands for. */
  ghost function View(store: Store, n: nat, v: Value): Json
    requires Within(store, n, v)
    decreases n, v
  {
    match v
    case NullValue => Null
    case Leaf(text) => Scalar(text)
    case List(items) => Array(seq(|items|, i requires 0 <= i < |items| => View(store, n, items[i])))
    case Ref(d) => Object(ViewFields(store, n - 1, store[d]))
  }

  ghost function ViewFields(store: Store, n: nat, fields: map<string, Value>): map<string, Json>
    requires forall k :: k in fields ==> Within(store, n, fields[k])
    decreases n
  {
    map k | k in fields :: View(store, n, fields[k])
  }

  lemma {:induction false} ViewExtends(store: Store, more: Store, n: nat, v: Value)
    requires Within(store, n, v) && forall d :: d in store ==> d in more && more[d] == store[d]
    ensures Within(more, n, v) && View(more, n, v) == View(store, n, v)
    decreases n, v
  {
    match v
    case NullValue =>
    case Leaf(_) =>
    case List(items) =>
      forall i | 0 <= i < |items| ensures Within(more, n, items[i]) && View(more, n, items[i]) == View(store, n, items[i]) {
        ViewExtends(store, more, n, items[i]);
      }
    case Ref(d) =>
      forall k | k in store[d]
        ensures Within(more, n - 1, store[d][k]) && View(more, n - 1, store[d][k]) == View(store, n - 1, store[d][k])
      {
        ViewExtends(store, more, n - 1, store[d][k]);
      }
  }

  // ----- where the copied dictionaries are -----

  type Path = seq<Step>

  type Places = map<Dict, Path>

  ghost predicate Placed(places: Places, path: Path, v: Value)
    decreases v
  {
    match v
    case NullValue => true
    case Leaf(_) => true
    case List(items) => forall i :: 0 <= i < |items| ==> Placed(places, path + [Index(i)], items[i])
    case Ref(d) => d in places && places[d] == path
  }

  ghost predicate FieldsPlaced(places: Places, path: Path, fields: map<string, Value>) {
    forall k :: k in fields ==> Placed(places, path + [Name(k)], fields[k])
  }

  /** Each dictionary of the store has one place, and what it holds is placed below it. */
  ghost predicate Tree(store: Store, places: Places) {
    && places.Keys == store.Keys
    && forall d :: d in store ==> FieldsPlaced(places, places[d], store[d])
  }

  lemma {:induction false} PlacedExtends(places: Places, more: Places, path: Path, v: Value)
    requires Placed(places, path, v) && forall d :: d in places ==> d in more && more[d] == places[d]
    ensures Placed(more, path, v)
    decreases v
  {
    if v.List? {
      forall i | 0 <= i < |v.items| ensures Placed(more, path + [Index(i)], v.items[i]) {
        PlacedExtends(places, more, path + [Index(i)], v.items[i]);
      }
    }
  }

  lemma TreesJoin(store: Store, places: Places, store': Store, places': Places)
    requires Tree(store, places) && Tree(store', places') && store.Keys !! store'.Keys
    ensures Tree(store + store', places + places')
  {
    var all := places + places';
    forall d | d in store + store' ensures FieldsPlaced(all, all[d], (store + store')[d]) {
      forall k | k in (store + store')[d] ensures Placed(all, all[d] + [Name(k)], (store + store')[d][k]) {
        if d in store' {
          PlacedExtends(places', all, places'[d] + [Name(k)], store'[d][k]);
        } else {
          PlacedExtends(places, all, places[d] + [Name(k)], store[d][k]);
        }
      }
    }
  }

  // ----- the deep copy -----

  ghost predicate Copied(store: Store, made: Store, places: Places, n: nat, path: Path, v: Value, w: Value) {
    && Within(store, n, v) && Within(made, n, w) && View(made, n, w) == View(store, n, v)
    && Placed(places, path, w)
  }

  lemma CopiedExtends(
      store: Store, made: Store, more: Store, places: Places, places': Places, n: nat, path: Path, v: Value, w: Value)
    requires Copied(store, made, places, n, path, v, w)
    requires forall d :: d in made ==> d in more && more[d] == made[d]
    requires forall d :: d in places ==> d in places' && places'[d] == places[d]
    ensures Copied(store, more, places', n, path, v, w)
  {
    ViewExtends(made, more, n, w);
    PlacedExtends(places, places', path, w);
  }

  lemma NothingMade()
    ensures Tree(map[], map[])
  {
  }

  /** `deepcopy`: new dictionaries that stand for the same value. */
  method Copy(v: Value, ghost store: Store, ghost n: nat, ghost path: Path)
    returns (w: Value, ghost made: Store, ghost places: Places)
    requires Within(store, n, v) && Holds(store)
    ensures fresh(made.Keys) && Holds(made) && Tree(made, places)
    ensures Copied(store, made, places, n, path, v, w)
    decreases n, v, 1
  {
    match v {
      case NullValue => w, made, places := v, map[], map[];
      case Leaf(_) => w, made, places := v, map[], map[];
      case List(items) => w, made, places := CopyList(v, store, n, path);
      case Ref(d) => w, made, places := CopyDict(d, store, n, path);
    }
  }

  method CopyList(v: Value, ghost store: Store, ghost n: nat, ghost path: Path)
    returns (w: Value, ghost made: Store, ghost places: Places)
    requires v.List? && Within(store, n, v) && Holds(store)
    ensures fresh(made.Keys) && Holds(made) && Tree(made, places)
    ensures Copied(store, made, places, n, path, v, w)
    decreases n, v, 0
  {
    hide Tree, Copied;
    var items: seq<Value> := [];
    made, places := map[], map[];
    NothingMade();
    for i := 0 to |v.items|
      invariant |items| == i
      invariant fresh(made.Keys) && Holds(made) && Tree(made, places)
      invariant forall j :: 0 <= j < i ==> Copied(store, made, places, n, path + [Index(j)], v.items[j], items[j])
    {
      var item, part, where := Copy(v.items[i], store, n, path + [Index(i)]);
      TreesJoin(made, places, part, where);
      forall j | 0 <= j < i
        ensures Copied(store, made + part, places + where, n, path + [Index(j)], v.items[j], items[j])
      {
        JoinedLeft(made, places, part, where);
        CopiedExtends(store, made, made + part, places, places + where, n, path + [Index(j)], v.items[j], items[j]);
      }
      CopiedExtends(store, part, made + part, where, places + where, n, path + [Index(i)], v.items[i], item);
      items := items + [item];
      made, places := made + part, places + where;
    }
    w := List(items);
    ListCopied(store, made, places, n, path, v, w);
  }

  lemma JoinedLeft(store: Store, places: Places, store': Store, places': Places)
    requires Tree(store, places) && Tree(store', places') && store.Keys !! store'.Keys
    ensures forall d :: d in places ==> d in places + places' && (places + places')[d] == places[d]
  {
  }

  lemma ListCopied(store: Store, made: Store, places: Places, n: nat, path: Path, v: Value, w: Value)
    requires v.List? && w.List? && |v.items| == |w.items|
    requires forall j :: 0 <= j < |v.items| ==> Copied(store, made, places, n, path + [Index(j)], v.items[j], w.items[j])
    ensures Copied(store, made, places, n, path, v, w)
  {
  }

  method CopyDict(d: Dict, ghost store: Store, ghost n: nat, ghost path: Path)
    returns (w: Value, ghost made: Store, ghost places: Places)
    requires Within(store, n, Ref(d)) && Holds(store)
    ensures fresh(made.Keys) && Holds(made) && Tree(made, places)
    ensures w.Ref? && Copied(store, made, places, n, path, Ref(d), w)
    decreases n, Ref(d), 0
  {
    hide Tree, Copied;
    var fields: map<string, Value> := map[];
    var keys := d.fields.Keys;
    made, places := map[], map[];
    NothingMade();
    while keys != {}
      invariant keys <= store[d].Keys && fields.Keys == store[d].Keys - keys
      invariant fresh(made.Keys) && Holds(made) && Tree(made, places)
      invariant forall k :: k in fields ==> Copied(store, made, places, n - 1, path + [Name(k)], store[d][k], fields[k])
      decreases keys
    {
      var k :| k in keys;
      var value, part, where := Copy(d.fields[k], store, n - 1, path + [Name(k)]);
      TreesJoin(made, places, part, where);
      forall j | j in fields
        ensures Copied(store, made + part, places + where, n - 1, path + [Name(j)], store[d][j], fields[j])
      {
        JoinedLeft(made, places, part, where);
        CopiedExtends(store, made, made + part, places, places + where, n - 1, path + [Name(j)], store[d][j], fields[j]);
      }
      CopiedExtends(store, part, made + part, where, places + where, n - 1, path + [Name(k)], store[d][k], value);
      fields := fields[k := value];
      keys := keys - {k};
      made, places := made + part, places + where;
    }
    var copy := new Dict(fields);
    w := Ref(copy);
    DictCopied(store, made, places, n, path, d, copy, fields);
    made, places := made[copy := fields], places[copy := path];
  }

  lemma DictCopied(
      store: Store, made: Store, places: Places, n: nat, path: Path, d: Dict, copy: Dict, fields: map<string, Value>)
    requires n > 0 && d in store && fields.Keys == store[d].Keys && copy !in made && Tree(made, places)
    requires forall k :: k in fields ==> Copied(store, made, places, n - 1, path + [Name(k)], store[d][k], fields[k])
    ensures Tree(made[copy := fields], places[copy := path])
    ensures Copied(store, made[copy := fields], places[copy := path], n, path, Ref(d), Ref(copy))
  {
    var made', places' := made[copy := fields], places[copy := path];
    forall k | k in fields ensures Copied(store, made', places', n - 1, path + [Name(k)], store[d][k], fields[k]) {
      CopiedExtends(store, made, made', places, places', n - 1, path + [Name(k)], store[d][k], fields[k]);
    }
    assert Tree(made', places') by {
      forall e | e in made' ensures FieldsPlaced(places', places'[e], made'[e]) {
        forall k | k in made'[e] ensures Placed(places', places'[e] + [Name(k)], made'[e][k]) {
          if e != copy {
            PlacedExtends(places, places', places[e] + [Name(k)], made[e][k]);
          }
        }
      }
    }
    assert Within(made', n, Ref(copy)) && Within(store, n, Ref(d));
    assert ViewFields(made', n - 1, fields) == ViewFields(store, n - 1, store[d]);
  }

  // ----- popping the timing fields of the copy -----

  /** The places whose dictionary loses its timing fields. */
  ghost predicate TimedPlace(path: Path) {
    || path == []
    || (|path| == 2 && path[0] in {Name(ModelRecords()), Name(ToolRecords())} && path[1].Index?)
    || (|path| == 3 && path[0] == Name(ModelRecords()) && path[1].Index? && path[2] == Name(Response()))
  }

  ghost predicate NoneTimedBelow(path: Path) {
    forall rest: Path :: !TimedPlace(path + rest)
  }

  /** The copy once the dictionaries in `popped` have lost their timing fields. */
  ghost function After(made: Store, popped: set<Dict>): Store {
    map d | d in made :: if d in popped then made[d] - Timing() else made[d]
  }

  ghost predicate PoppedSomeTimed(made: Store, places: Places, popped: set<Dict>) {
    Tree(made, places) && forall d :: d in popped ==> d in made && TimedPlace(places[d])
  }

  lemma {:induction false} Untouched(made: Store, places: Places, popped: set<Dict>, n: nat, path: Path, v: Value)
    requires PoppedSomeTimed(made, places, popped)
    requires Placed(places, path, v) && Within(made, n, v) && NoneTimedBelow(path)
    ensures Within(After(made, popped), n, v) && View(After(made, popped), n, v) == View(made, n, v)
    decreases n, v
  {
    hide TimedPlace;
    var after := After(made, popped);
    match v
    case NullValue =>
    case Leaf(_) =>
    case List(items) =>
      forall i | 0 <= i < |items| ensures Within(after, n, items[i]) && View(after, n, items[i]) == View(made, n, items[i]) {
        Below(path, Index(i));
        Untouched(made, places, popped, n, path + [Index(i)], items[i]);
      }
    case Ref(d) =>
      assert !TimedPlace(path) by {
        assert path + [] == path;
      }
      forall k | k in made[d]
        ensures Within(after, n - 1, made[d][k]) && View(after, n - 1, made[d][k]) == View(made, n - 1, made[d][k])
      {
        Below(path, Name(k));
        Untouched(made, places, popped, n - 1, path + [Name(k)], made[d][k]);
      }
      assert ViewFields(after, n - 1, after[d]) == ViewFields(made, n - 1, made[d]);
  }

  lemma Below(path: Path, step: Step)
    requires NoneTimedBelow(path)
    ensures NoneTimedBelow(path + [step])
  {
    forall rest: Path ensures !TimedPlace(path + [step] + rest) {
      assert path + [step] + rest == path + ([step] + rest);
    }
  }

  /** The plain fields of a popped dictionary keep their view. */
  lemma PoppedFields(made: Store, places: Places, popped: set<Dict>, n: nat, d: Dict, special: set<string>)
    requires PoppedSomeTimed(made, places, popped) && n > 0 && Within(made, n, Ref(d)) && d in popped
    requires forall k :: k !in special ==> NoneTimedBelow(places[d] + [Name(k)])
    requires forall k :: k in special && k in made[d] ==> Within(After(made, popped), n - 1, made[d][k])
    ensures Within(After(made, popped), n, Ref(d))
    ensures View(After(made, popped), n, Ref(d)).fields.Keys == made[d].Keys - Timing()
    ensures forall k :: k in made[d] && k !in Timing() ==>
              View(After(made, popped), n, Ref(d)).fields[k]
              == View(if k in special then After(made, popped) else made, n - 1, made[d][k])
  {
    forall k | k in made[d] && k !in special
      ensures Within(After(made, popped), n - 1, made[d][k])
      ensures View(After(made, popped), n - 1, made[d][k]) == View(made, n - 1, made[d][k])
    {
      Untouched(made, places, popped, n - 1, places[d] + [Name(k)], made[d][k]);
    }
  }

  ghost function Reading(fields: map<string, Value>, name: string): Value {
    if name in fields then fields[name] else NullValue
  }

  /** A tool record has been popped. */
  ghost predicate ToolDone(made: Store, popped: set<Dict>, v: Value) {
    v.Ref? && v.dict in made && v.dict in popped
  }

  /** A model record has been popped, and its response with it. */
  ghost predicate ModelDone(made: Store, popped: set<Dict>, v: Value) {
    && ToolDone(made, popped, v)
    && var response := Reading(made[v.dict], Response());
       response.NullValue? || ToolDone(made, popped, response)
  }

  lemma NothingBelow(path: Path)
    requires || (|path| >= 1 && path[0] !in {Name(ModelRecords()), Name(ToolRecords())})
             || (|path| >= 3 && (path[0] == Name(ToolRecords()) || path[2] != Name(Response())))
             || |path| >= 4
    ensures NoneTimedBelow(path)
  {
    forall rest: Path ensures !TimedPlace(path + rest) {
      assert forall i :: 0 <= i < |path| ==> (path + rest)[i] == path[i];
    }
  }

  lemma ToolView(made: Store, places: Places, popped: set<Dict>, n: nat, path: Path, v: Value)
    requires PoppedSomeTimed(made, places, popped) && Placed(places, path, v) && Within(made, n, v)
    requires ToolDone(made, popped, v)
    requires (|path| == 2 && path[0] == Name(ToolRecords())) || |path| == 3
    ensures Within(After(made, popped), n, v)
    ensures View(After(made, popped), n, v) == StripTiming(View(made, n, v))
    ensures ToolRecordError(View(made, n, v)) == None
  {
    forall k ensures NoneTimedBelow(path + [Name(k)]) {
      NothingBelow(path + [Name(k)]);
    }
    PoppedFields(made, places, popped, n, v.dict, {});
    assert View(After(made, popped), n, v).fields == View(made, n, v).fields - Timing();
  }

  lemma ModelAccepted(made: Store, popped: set<Dict>, n: nat, v: Value)
    requires Within(made, n, v) && ModelDone(made, popped, v)
    ensures ModelRecordError(View(made, n, v)) == None
  {
    var d := v.dict;
    assert View(made, n, v).fields == ViewFields(made, n - 1, made[d]);
    if Response() in made[d] {
      assert View(made, n, v).fields[Response()] == View(made, n - 1, made[d][Response()]);
    }
  }

  lemma ModelView(made: Store, places: Places, popped: set<Dict>, n: nat, path: Path, v: Value)
    requires PoppedSomeTimed(made, places, popped) && Placed(places, path, v) && Within(made, n, v)
    requires ModelDone(made, popped, v)
    requires |path| == 2 && path[0] == Name(ModelRecords())
    ensures Within(After(made, popped), n, v)
    ensures View(After(made, popped), n, v) == ProjectModelRecord(View(made, n, v))
  {
    hide TimedPlace, NoneTimedBelow, After, StripTiming, Timing, ProjectModelRecord;
    var d, after := v.dict, After(made, popped);
    assert v == Ref(d);
    assert View(made, n, v).fields == ViewFields(made, n - 1, made[d]);
    ModelPlaces(made, places, popped, n, path, d);
    if Response() in made[d] {
      ModelResponse(made, places, popped, n, path, d);
    }
    PoppedFields(made, places, popped, n, d, {Response()});
    RecordAssembled(View(made, n, v).fields, View(after, n, v).fields);
  }

  lemma ModelPlaces(made: Store, places: Places, popped: set<Dict>, n: nat, path: Path, d: Dict)
    requires |path| == 2 && path[0] == Name(ModelRecords()) && d in places && places[d] == path
    ensures forall k :: k != Response() ==> NoneTimedBelow(places[d] + [Name(k)])
  {
    forall k | k != Response() ensures NoneTimedBelow(path + [Name(k)]) {
      NothingBelow(path + [Name(k)]);
    }
  }

  lemma ModelResponse(made: Store, places: Places, popped: set<Dict>, n: nat, path: Path, d: Dict)
    requires PoppedSomeTimed(made, places, popped) && Placed(places, path, Ref(d)) && Within(made, n, Ref(d))
    requires ModelDone(made, popped, Ref(d)) && |path| == 2 && Response() in made[d]
    ensures Within(After(made, popped), n - 1, made[d][Response()])
    ensures View(After(made, popped), n - 1, made[d][Response()]) == StripTiming(View(made, n - 1, made[d][Response()]))
  {
    ResponseView(made, places, popped, n - 1, path + [Name(Response())], made[d][Response()]);
  }

  lemma RecordAssembled(before: map<string, Json>, after: map<string, Json>)
    requires after.Keys == before.Keys - Timing()
    requires forall k :: k in after && k != Response() ==> after[k] == before[k]
    requires Response() in after ==> after[Response()] == StripTiming(before[Response()])
    ensures Object(after) == ProjectModelRecord(Object(before))
  {
    assert after == ProjectModelRecord(Object(before)).fields;
  }

  lemma ResponseView(made: Store, places: Places, popped: set<Dict>, n: nat, path: Path, v: Value)
    requires PoppedSomeTimed(made, places, popped) && Placed(places, path, v) && Within(made, n, v)
    requires |path| == 3 && (v.NullValue? || ToolDone(made, popped, v))
    ensures Within(After(made, popped), n, v)
    ensures View(After(made, popped), n, v) == StripTiming(View(made, n, v))
    ensures View(made, n, v).Null? || View(made, n, v).Object?
  {
    if v.Ref? {
      ToolView(made, places, popped, n, path, v);
    }
  }

  lemma ModelListView(made: Store, places: Places, popped: set<Dict>, n: nat, v: Value)
    requires PoppedSomeTimed(made, places, popped) && Placed(places, [Name(ModelRecords())], v) && Within(made, n, v)
    requires v.List? && forall i :: 0 <= i < |v.items| ==> ModelDone(made, popped, v.items[i])
    ensures Within(After(made, popped), n, v)
    ensures View(After(made, popped), n, v) == Array(ProjectEach(View(made, n, v).items, ProjectModelRecord))
  {
    forall i | 0 <= i < |v.items|
      ensures Within(After(made, popped), n, v.items[i])
      ensures View(After(made, popped), n, v.items[i]) == ProjectModelRecord(View(made, n, v.items[i]))
    {
      ModelView(made, places, popped, n, [Name(ModelRecords())] + [Index(i)], v.items[i]);
    }
  }

  lemma ToolListView(made: Store, places: Places, popped: set<Dict>, n: nat, v: Value)
    requires PoppedSomeTimed(made, places, popped) && Placed(places, [Name(ToolRecords())], v) && Within(made, n, v)
    requires v.List? && forall i :: 0 <= i < |v.items| ==> ToolDone(made, popped, v.items[i])
    ensures Within(After(made, popped), n, v)
    ensures View(After(made, popped), n, v) == Array(ProjectEach(View(made, n, v).items, StripTiming))
  {
    forall i | 0 <= i < |v.items|
      ensures Within(After(made, popped), n, v.items[i])
      ensures View(After(made, popped), n, v.items[i]) == StripTiming(View(made, n, v.items[i]))
    {
      ToolView(made, places, popped, n, [Name(ToolRecords())] + [Index(i)], v.items[i]);
    }
  }

  lemma ReportView(made: Store, places: Places, popped: set<Dict>, n: nat, root: Dict)
    requires PoppedSomeTimed(made, places, popped) && Placed(places, [], Ref(root)) && Within(made, n, Ref(root))
    requires root in popped && AllDone(made, popped, root)
    ensures Within(After(made, popped), n, Ref(root))
    ensures View(After(made, popped), n, Ref(root)) == ProjectReport(ViewFields(made, n - 1, made[root]))
  {
    hide TimedPlace, NoneTimedBelow, After, StripTiming, Timing, ProjectModelRecord, ModelDone, ToolDone, ProjectReport;
    var after := After(made, popped);
    assert View(made, n, Ref(root)).fields == ViewFields(made, n - 1, made[root]);
    assert [] + [Name(ModelRecords())] == [Name(ModelRecords())];
    assert [] + [Name(ToolRecords())] == [Name(ToolRecords())];
    ModelListView(made, places, popped, n - 1, made[root][ModelRecords()]);
    ToolListView(made, places, popped, n - 1, made[root][ToolRecords()]);
    RootPlaces(places, root);
    PoppedFields(made, places, popped, n, root, {ModelRecords(), ToolRecords()});
    NamesDiffer();
    hide Within, Placed, PoppedSomeTimed, Tree;
    ReportAssembled(View(made, n, Ref(root)).fields, View(after, n, Ref(root)).fields);
  }

  ghost predicate AllDone(made: Store, popped: set<Dict>, root: Dict) {
    && root in made
    && var models, tools := Reading(made[root], ModelRecords()), Reading(made[root], ToolRecords());
    && models.List? && (forall i :: 0 <= i < |models.items| ==> ModelDone(made, popped, models.items[i]))
    && tools.List? && (forall i :: 0 <= i < |tools.items| ==> ToolDone(made, popped, tools.items[i]))
  }

  lemma RootPlaces(places: Places, root: Dict)
    requires root in places && places[root] == []
    ensures forall k :: k !in {ModelRecords(), ToolRecords()} ==> NoneTimedBelow(places[root] + [Name(k)])
  {
    forall k | k !in {ModelRecords(), ToolRecords()} ensures NoneTimedBelow(places[root] + [Name(k)]) {
      NothingBelow(places[root] + [Name(k)]);
    }
  }

  lemma ReportAssembled(before: map<string, Json>, after: map<string, Json>)
    requires ModelRecords() in before && before[ModelRecords()].Array? && ModelRecords() in after
    requires ToolRecords() in before && before[ToolRecords()].Array? && ToolRecords() in after
    requires after.Keys == before.Keys - Timing()
    requires forall k :: k in after && k !in {ModelRecords(), ToolRecords()} ==> after[k] == before[k]
    requires after[ModelRecords()] == Array(ProjectEach(before[ModelRecords()].items, ProjectModelRecord))
    requires after[ToolRecords()] == Array(ProjectEach(before[ToolRecords()].items, StripTiming))
    ensures Object(after) == ProjectReport(before)
  {
    NamesDiffer();
    assert after == ProjectReport(before).fields;
  }

  lemma {:induction false} FirstErrorStays(records: seq<Json>, i: nat, error: Json -> Option<Error>)
    requires i <= |records| && FirstError(records[..i], error).Some?
    ensures FirstError(records, error) == FirstError(records[..i], error)
    decreases |records|
  {
    if i < |records| {
      assert records[..|records| - 1][..i] == records[..i];
      FirstErrorStays(records[..|records| - 1], i, error);
    } else {
      assert records[..i] == records;
    }
  }

  lemma FirstErrorStep(records: seq<Json>, i: nat, error: Json -> Option<Error>)
    requires i < |records| && FirstError(records[..i], error) == None
    ensures FirstError(records[..i + 1], error) == error(records[i])
    ensures error(records[i]).Some? ==> FirstError(records, error) == error(records[i])
  {
    assert records[..i + 1][..i] == records[..i];
    if error(records[i]).Some? {
      FirstErrorStays(records, i + 1, error);
    }
  }

  /** The state of the copy while its records are being popped. */
  ghost predicate Popping(made: Store, places: Places, popped: set<Dict>)
    reads made.Keys
  {
    PoppedSomeTimed(made, places, popped) && Holds(After(made, popped))
  }

  /** Pop a dictionary of the copy that has a timed place. */
  method PopTimed(d: Dict, ghost made: Store, ghost places: Places, ghost popped: set<Dict>)
    requires Popping(made, places, popped) && d in made && TimedPlace(places[d])
    modifies made.Keys
    ensures Popping(made, places, popped + {d})
  {
    assert d in After(made, popped);
    d.PopTiming();
    assert After(made, popped + {d})[d] == made[d] - Timing();
  }

  /** What `get` finds in the copy, as long as the field is not a timing one. */
  lemma GetReads(made: Store, places: Places, popped: set<Dict>, d: Dict, name: string)
    requires Popping(made, places, popped) && d in made && name !in Timing()
    ensures d.Get(name) == Reading(made[d], name)
  {
    assert d in After(made, popped);
  }

  /** The body of the loop over the model records. */
  method PopModelRecord(record: Value, ghost made: Store, ghost places: Places, ghost start: set<Dict>, ghost n: nat, ghost path: Path)
    returns (error: Option<Error>, ghost popped: set<Dict>)
    requires Popping(made, places, start) && Within(made, n, record) && Placed(places, path, record)
    requires |path| == 2 && path[0] == Name(ModelRecords()) && path[1].Index?
    modifies made.Keys
    ensures Popping(made, places, popped) && start <= popped
    ensures error == ModelRecordError(View(made, n, record))
    ensures error == None ==> ModelDone(made, popped, record)
  {
    hide PoppedSomeTimed, After;
    NamesDiffer();
    popped := start;
    if !record.Ref? {
      return Some(ModelRecordNotObject), popped;
    }
    var d := record.dict;
    PopTimed(d, made, places, popped);
    popped := popped + {d};
    GetReads(made, places, popped, d, Response());
    var response := d.Get(Response());
    assert View(made, n, record).fields == ViewFields(made, n - 1, made[d]);
    if response != NullValue {
      if !response.Ref? {
        return Some(ResponseNotObject), popped;
      }
      ResponsePlace(made, places, popped, n, path, d);
      PopTimed(response.dict, made, places, popped);
      popped := popped + {response.dict};
    }
    ModelAccepted(made, popped, n, record);
    error := None;
  }

  lemma ResponsePlace(made: Store, places: Places, popped: set<Dict>, n: nat, path: Path, d: Dict)
    requires PoppedSomeTimed(made, places, popped) && Within(made, n, Ref(d)) && Placed(places, path, Ref(d))
    requires |path| == 2 && path[0] == Name(ModelRecords()) && path[1].Index?
    requires Reading(made[d], Response()).Ref?
    ensures Reading(made[d], Response()).dict in made && TimedPlace(places[Reading(made[d], Response()).dict])
  {
    assert Placed(places, path + [Name(Response())], made[d][Response()]);
  }

  lemma DoneStays(made: Store, popped: set<Dict>, more: set<Dict>, items: seq<Value>)
    requires popped <= more && forall j :: 0 <= j < |items| ==> ModelDone(made, popped, items[j])
    ensures forall j :: 0 <= j < |items| ==> ModelDone(made, more, items[j])
  {
  }

  /** The loop over the model records. */
  method PopModelRecords(items: seq<Value>, ghost made: Store, ghost places: Places, ghost start: set<Dict>, ghost n: nat)
    returns (error: Option<Error>, ghost popped: set<Dict>)
    requires Popping(made, places, start)
    requires Within(made, n, List(items)) && Placed(places, [Name(ModelRecords())], List(items))
    modifies made.Keys
    ensures Popping(made, places, popped) && start <= popped
    ensures error == FirstError(View(made, n, List(items)).items, ModelRecordError)
    ensures error == None ==> forall i :: 0 <= i < |items| ==> ModelDone(made, popped, items[i])
  {
    hide ModelDone, Popping, ModelRecordError;
    ghost var records := View(made, n, List(items)).items;
    popped := start;
    for i := 0 to |items|
      invariant Popping(made, places, popped) && start <= popped
      invariant FirstError(records[..i], ModelRecordError) == None
      invariant forall j :: 0 <= j < i ==> ModelDone(made, popped, items[j])
    {
      FirstErrorStep(records, i, ModelRecordError);
      ghost var before := popped;
      error, popped := PopModelRecord(items[i], made, places, popped, n, [Name(ModelRecords())] + [Index(i)]);
      if error.Some? {
        return;
      }
      DoneStays(made, before, popped, items[..i]);
    }
    assert records[..|items|] == records;
    error := None;
  }

  lemma ToolPlace(made: Store, places: Places, popped: set<Dict>, n: nat, items: seq<Value>, i: nat)
    requires Popping(made, places, popped) && Within(made, n, List(items))
    requires Placed(places, [Name(ToolRecords())], List(items)) && i < |items| && items[i].Ref?
    ensures items[i].dict in made && TimedPlace(places[items[i].dict])
  {
    assert Placed(places, [Name(ToolRecords())] + [Index(i)], items[i]) && Within(made, n, items[i]);
  }

  /** The loop over the tool records. */
  method PopToolRecords(items: seq<Value>, ghost made: Store, ghost places: Places, ghost start: set<Dict>, ghost n: nat)
    returns (error: Option<Error>, ghost popped: set<Dict>)
    requires Popping(made, places, start)
    requires Within(made, n, List(items)) && Placed(places, [Name(ToolRecords())], List(items))
    modifies made.Keys
    ensures Popping(made, places, popped) && start <= popped
    ensures error == FirstError(View(made, n, List(items)).items, ToolRecordError)
    ensures error == None ==> forall i :: 0 <= i < |items| ==> ToolDone(made, popped, items[i])
  {
    hide Popping, TimedPlace;
    ghost var records := View(made, n, List(items)).items;
    popped := start;
    for i := 0 to |items|
      invariant Popping(made, places, popped) && start <= popped
      invariant FirstError(records[..i], ToolRecordError) == None
      invariant forall j :: 0 <= j < i ==> ToolDone(made, popped, items[j])
    {
      FirstErrorStep(records, i, ToolRecordError);
      var record := items[i];
      if !record.Ref? {
        return Some(ToolRecordNotObject), popped;
      }
      ToolPlace(made, places, popped, n, items, i);
      PopTimed(record.dict, made, places, popped);
      popped := popped + {record.dict};
    }
    assert records[..|items|] == records;
    error := None;
  }

  datatype PayloadOutcome = FailedWith(error: Error) | ProjectedTo(caseId: string, report: Dict)

  /** The copy loses its timing fields, record by record. */
  method PopReport(caseId: string, report: Dict, ghost made: Store, ghost places: Places, ghost n: nat)
    returns (result: PayloadOutcome, ghost popped: set<Dict>)
    requires Holds(made) && Tree(made, places)
    requires Placed(places, [], Ref(report)) && Within(made, n, Ref(report))
    modifies made.Keys
    ensures var expected := Project(caseId, ViewFields(made, n - 1, made[report]));
      match result
      case FailedWith(error) => expected == Failed(error)
      case ProjectedTo(id, projected) =>
        && projected == report && Holds(After(made, popped)) && Within(After(made, popped), n, Ref(report))
        && expected == Projected(id, View(After(made, popped), n, Ref(report)))
  {
    hide PoppedSomeTimed, Tree, TimedPlace, ModelDone, ToolDone, FirstError, ProjectReport, After, Placed, ModelRecordError, ToolRecordError;
    NothingPopped(made, places);
    AtTheRoot(made, places, n, report);
    popped := {} + {report};
    PopTimed(report, made, places, {});
    NamesDiffer();
    GetReads(made, places, popped, report, ModelRecords());
    var models := report.Get(ModelRecords());
    ListsShow(made, n - 1, made[report], ModelRecords());
    ListsShow(made, n - 1, made[report], ToolRecords());
    if !models.List? {
      return FailedWith(ModelRecordsNotList), popped;
    }
    var error;
    error, popped := PopModelRecords(models.items, made, places, popped, n - 1);
    if error.Some? {
      return FailedWith(error.value), popped;
    }
    GetReads(made, places, popped, report, ToolRecords());
    var tools := report.Get(ToolRecords());
    if !tools.List? {
      return FailedWith(ToolRecordsNotList), popped;
    }
    ghost var before := popped;
    error, popped := PopToolRecords(tools.items, made, places, popped, n - 1);
    if error.Some? {
      return FailedWith(error.value), popped;
    }
    DoneStays(made, before, popped, models.items);
    ReportView(made, places, popped, n, report);
    result := ProjectedTo(caseId, report);
  }

  /**
   `_semantic_projection_from_payload`. The payload's dictionaries keep their contents, whether it
   raises or not; `made` shows how to read the result.
   */
  method ProjectPayload(caseId: string, payload: Dict, ghost store: Store, ghost n: nat)
    returns (result: PayloadOutcome, ghost made: Store)
    requires Holds(store) && Within(store, n, Ref(payload))
    ensures Holds(store)
    ensures var expected := Project(caseId, ViewFields(store, n - 1, store[payload]));
      match result
      case FailedWith(error) => expected == Failed(error)
      case ProjectedTo(id, report) =>
        && fresh(made.Keys) && Holds(made) && Within(made, n, Ref(report))
        && expected == Projected(id, View(made, n, Ref(report)))
  {
    hide Project, Tree, Placed, After;
    var copy;
    ghost var copied, places, popped;
    copy, copied, places := Copy(Ref(payload), store, n, []);
    assert View(store, n, Ref(payload)).fields == ViewFields(store, n - 1, store[payload]);
    assert View(copied, n, copy).fields == ViewFields(copied, n - 1, copied[copy.dict]);
    result, popped := PopReport(caseId, copy.dict, copied, places, n);
    AfterKeys(copied, popped);
    made := After(copied, popped);
  }

  lemma ListsShow(store: Store, n: nat, fields: map<string, Value>, name: string)
    requires forall k :: k in fields ==> Within(store, n, fields[k])
    ensures Field(ViewFields(store, n, fields), name).Array? <==> Reading(fields, name).List?
  {
  }

  lemma AfterKeys(made: Store, popped: set<Dict>)
    ensures After(made, popped).Keys == made.Keys
  {
  }

  lemma NothingPopped(made: Store, places: Places)
    requires Tree(made, places)
    ensures After(made, {}) == made && PoppedSomeTimed(made, places, {})
  {
  }

  /** The report sits at the root, and its record lists below it. */
  lemma AtTheRoot(made: Store, places: Places, n: nat, report: Dict)
    requires Tree(made, places) && Placed(places, [], Ref(report)) && Within(made, n, Ref(report))
    ensures TimedPlace(places[report])
    ensures forall name :: name in made[report] ==> Placed(places, [Name(name)], made[report][name])
  {
    forall name | name in made[report] ensures Placed(places, [Name(name)], made[report][name]) {
      assert [] + [Name(name)] == [Name(name)];
    }
  }
}
